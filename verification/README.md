# Jeopardy turn engine — a Dafny model

This project models the server-side turn engine of a Jeopardy-style quiz.
The engine's Go sources live under `backend/`. The model is sequential by
assumption: one command, together with the reactors it fires, is applied at a
time. The original does not guarantee this (see "## Left out"). Every handler
is a pure step function returning a `Result`.

| module | file | models |
|---|---|---|
| `Wrappers` | wrappers.dfy | `Option` and `Result` |
| `Cando` | cando.dfy | the generic transition engine: `NewMachine`, `Start`, `Change` and the reactor matching in `enter` (`backend/internal/cando/cando.go`) |
| `OldCando` | old_cando.dfy | the older string-named state machine with a transitions table (`backend/qg/internal/cando/cando.go`) |
| `PubSub` | pubsub.dfy | the fan-out publisher with drop-on-full (`backend/internal/pubsub/pubsub.go`) |
| `Board` | board.dfy | question indices, points, board validation and the board summary (`backend/qg/qg_extras.go`, `backend/qg/jeopardy.go`) |
| `Qg` | qg.dfy | the wire commands, events and leaderboards shared by the game packages |
| `Jeopardy` | jeopardy.dfy | the Jeopardy rules as engine states and reactors (`backend/qg/games/jeopardy/jeopardy.go`) |
| `Shell` | shell.dfy | the generic game shell: built-in join/begin states, the self/broadcast reactors, `StartMachine` (`backend/qg/games/machine.go`) |
| `Registry` | registry.dfy | game types, game creation and first-command routing (`backend/qg/games/games.go`) |
| `Schema` | schema.dfy | the validation-error text and the definition lookup (`backend/qg/schema.go`) |

Some Go types become `Tag` values.
- Reflection types used as state and reactor keys become a closed `Tag` datatype.
- A reactor filter is an `Option<Tag>`; `None` is the `any` wildcard.
- `EndReaction` is the terminal marker.

Some Go values are modelled as parameters or oracles.
- The request context that carries the caller's handle becomes an explicit `Conn` argument.
- The password check of the store is an oracle that may fail.
- So are the game creators, the handler factories, the ID allocator of the store, JSON marshalling and the JSON Typedef validator.

Go panics become error values: a nil player pointer, a nil score multiplier, a reactor type assertion on nil data, a nil `Enter` hook, a duplicate game type, and a next type with no registered state (`Cando.NoState`: the lookup yields a nil `AnyState` whose `enter` is then called). A panic inside a handler leaves the state as it was. A panic inside a reactor (`Cando.NilDataPanic`) comes after the transition was committed, as in Go, so the machine has already moved. In the original no panic is recovered, and any of them ends the server process; the model only reports it.

Go map iteration order is left open. This covers the BeginGame chooser, leaderboard ties and the order of the private PlayerJoined events. The model picks an element with Dafny's `:|`, so proofs hold for every order.

## Model

| member | source | states |
|---|---|---|
| Cando.Index | backend/internal/cando/cando.go:200-202 | each tag present in the list is a key, and it maps to the LAST state of that tag, so a later duplicate overwrites an earlier one |
| Cando.NewMachine | backend/internal/cando/cando.go:190-205 | a new machine is unstarted, has no current data and no next types, and indexes its states by tag |
| Cando.MatchesMeaning | backend/internal/cando/cando.go:234-247 | a prev filter needs an equal prev tag, and the nil prev after Start never matches one; a next filter is compared with the first next type only, and an empty list passes |
| Cando.RunReactors | backend/internal/cando/cando.go:230-252 | reactors run in list order; no error iff every matching reactor succeeds; with no match the result is empty; a failure is the first failing matching reactor's error wrapped with its filter pair |
| Cando.RunReactorsAppend | backend/internal/cando/cando.go:230-252 | running list a then list b gives a's events followed by b's, and b runs only when a finished without error |
| Cando.Start | backend/internal/cando/cando.go:259-270 | a started machine gives "already started" and is unchanged; otherwise current becomes the InitState and next becomes its answer, and the result is an error iff some matching reactor fails |
| Cando.Committed | backend/internal/cando/cando.go:302-305 | a nil handler answer is committed as exactly the terminal marker, any other answer unchanged |
| Cando.Change | backend/internal/cando/cando.go:274-309 | before Start: "not started", nothing changes; a tag not in next: "not allowed", nothing changes; a handler error: nothing changes, no reactor runs; on success current, data, next and world are replaced, and the error is None iff every matching reactor succeeds |
| Cando.StartFiresOnlyWildcardPrev | backend/internal/cando/cando.go:223-270 | after Start only reactors without a prev filter can match, nothing is published, and a matching one panics on the nil current data |
| Cando.NoEventsWithoutData | backend/internal/cando/cando.go:249 | with no current data no reactor publishes anything |
| Cando.TerminalRejectsEverything | backend/internal/cando/cando.go:284-305 | once the machine is terminal, every ordinary command is refused with nothing changed |
| Cando.NilAnswerEndsMachine | backend/internal/cando/cando.go:299-305 | a handler answering nil, whatever world it returns, leaves the machine terminal at the state just entered, holding the handler's world |
| Cando.ChangeCommitsThenReacts | backend/internal/cando/cando.go:274-309 | an admitted input whose handler succeeds commits the new state, its input, the committed next types and the handler's world before any reactor runs, and the step's outcome is the reactors' run against that committed machine |
| Cando.ReactorFailureKeepsTransition | backend/internal/cando/cando.go:212-251 | a reactor failure is reported, and the machine afterwards is exactly the committed transition: the new state, its input, the committed next types and the handler's world |
| OldCando.NewMachine | backend/qg/internal/cando/cando.go:42-54 | states are indexed by name, a later duplicate overwrites an earlier one, and the machine starts at the zero State |
| OldCando.ChangeAsWritten | backend/qg/internal/cando/cando.go:66-112 | an unknown name fails; a name missing from the current state's transitions entry fails; success iff the exit hook passes and, when the next state has an Enter hook, the PREVIOUS state's Enter passes; on success only current changes |
| OldCando.Change | backend/qg/internal/cando/cando.go:66-112 | the same checks with the entered state's own Enter hook: success iff the name is known, the table allows it, and neither the exit hook nor the next state's Enter fails |
| OldCando.TableDecidesSuccessors | backend/qg/internal/cando/cando.go:87-96 | a state without a transitions entry may go to any known state; with an entry, exactly the listed names are reachable |
| OldCando.PrevEnterCounterexample | backend/qg/internal/cando/cando.go:104-108 | going from the zero State into a state with a succeeding Enter panics as written, but succeeds as intended |
| PubSub.Subscribe | backend/internal/pubsub/pubsub.go:26-29 | the channel becomes a subscriber; no other subscriber changes |
| PubSub.Unsubscribe | backend/internal/pubsub/pubsub.go:32-35 | the channel stops being a subscriber; no other subscriber changes |
| PubSub.SubscribeTwiceIsOnce | backend/internal/pubsub/pubsub.go:26-29 | subscribing twice is the same as subscribing once |
| PubSub.UnsubscribeAbsentIsNoop | backend/internal/pubsub/pubsub.go:32-35 | removing an absent channel changes nothing |
| PubSub.Publish | backend/internal/pubsub/pubsub.go:38-52 | the loop's result equals the all-at-once reference: every subscriber with room gets the message appended last, every full subscriber is dropped with its queue untouched, and the error is nil |
| PubSub.PublishOnlyDrops | backend/internal/pubsub/pubsub.go:39-50 | publishing never adds a subscriber, and a subscriber stays iff its queue had room |
| PubSub.LateSubscriberMissesEarlierEvents | backend/internal/pubsub/pubsub.go:26-52 | a channel that subscribes after a publication does not receive it, but does receive the next one |
| PubSub.PublishKeepsOrder | backend/internal/pubsub/pubsub.go:44 | two publications reach a subscriber with room in publication order |
| Board.AssertQuestionIx | backend/qg/qg_extras.go:5-13 | no error iff both indices are in range; the category index is checked first |
| Board.QuestionAt | backend/qg/qg_extras.go:16-21 | valid indices give exactly that category and that question; otherwise the index error |
| Board.PointsIncreaseWithRow | backend/qg/qg_extras.go:24-26 | with a positive multiplier the points rise strictly with the row; the first row is worth the multiplier; rows are evenly spaced |
| Board.DefaultPoints | backend/qg/qg_extras.go:24-26 | with multiplier 100 the first two rows are worth 100 and 200 |
| Board.CheckCounts | backend/qg/jeopardy.go:14-23 | no error iff there is a category and all have the first one's question count; otherwise the error names the first uneven category, 1-based, with its count and the expected count |
| Board.ValidateAsWritten | backend/qg/jeopardy.go:13-30 | count errors pass through; a missing multiplier panics; accepted data is unchanged |
| Board.NilMultiplierPanics | backend/qg/jeopardy.go:25-27 | a well-formed board with no multiplier makes the as-written validator panic |
| Board.ValidateJeopardyGameData | backend/qg/jeopardy.go:13-30 | accepted iff non-empty and uniform; an accepted board keeps its categories and gets its multiplier, or 100 when none is given |
| Board.ValidatorsAgreeWithMultiplier | backend/qg/jeopardy.go:13-30 | with a multiplier present, the as-written and the corrected validator agree |
| Board.ValidPairsExact | backend/qg/qg_extras.go:5-13 | the set of valid index pairs is exactly what the index check accepts, and its size is the board's question count |
| Board.GameInfo | backend/qg/jeopardy.go:274-285 | the summary lists every category name in board order, takes the first category's question count (an int32) and copies the multiplier unchanged |
| Board.GameInfoDescribesBoard | backend/qg/jeopardy.go:274-285 | for every board the validator accepts, the summary's category count times its question count is the number of questions, and a pair within those bounds is exactly one QuestionAt accepts |
| Board.LoremBoardSummary | backend/qg/jeopardy.go:274-285 | the two-category, three-question board validates, summarises to 3 questions and multiplier 100, and holds 6 questions |
| Qg.TagOf | backend/internal/cando/cando.go:275-289 | each command maps to the tag of its own state, and none to the terminal marker |
| Qg.SortByScore | backend/qg/games/jeopardy/jeopardy.go:120-122 | the result is a permutation of the entries in non-increasing score order |
| Qg.BuildLeaderboard | backend/qg/games/jeopardy/jeopardy.go:111-125 | one entry per player with that player's score, no name twice, sorted by non-increasing score |
| Jeopardy.InitialState | backend/qg/games/jeopardy/jeopardy.go:141-146 | no players, no answered questions, category and question -1 |
| Jeopardy.MoveToNextTurn | backend/qg/games/jeopardy/jeopardy.go:149-166 | PressButton only when still answering and the question can continue; otherwise ChooseQuestion iff fewer questions are answered than the total, and nil iff not |
| Jeopardy.JoinGame | backend/qg/games/jeopardy/jeopardy.go:233-262 | fails iff a password is given and not confirmed; a new name adds one player, admin iff a password was given, and binds the connection; a known name changes nothing; the next types are JoinGame and BeginGame |
| Jeopardy.BeginGame | backend/qg/games/jeopardy/jeopardy.go:263-276 | an unbound connection panics; succeeds iff the caller is an admin; then some existing player becomes the chooser, nothing else changes, and the next types are moveToNextTurn(false) |
| Jeopardy.ChooseQuestion | backend/qg/games/jeopardy/jeopardy.go:277-294 | succeeds iff the caller is the chooser and the indices are on the board; then only the current category and question change, and PressButton is next |
| Jeopardy.PressButton | backend/qg/games/jeopardy/jeopardy.go:295-307 | succeeds iff the caller has not pressed; then only the caller's press flag and the answering player change, and PlayerJudgment is next |
| Jeopardy.PlayerJudgment | backend/qg/games/jeopardy/jeopardy.go:308-333 | only an admin judges; correct: the answerer gains the points, is recorded and chooses next; incorrect: the question is recorded with an empty name; the next types are moveToNextTurn(false) of the new state |
| Jeopardy.Handle | backend/qg/games/jeopardy/jeopardy.go:233-333 | no handler removes a player |
| Jeopardy.UnstartedGameRefusesEverything | backend/qg/games/jeopardy/jeopardy.go:38-48 | the game's machine is built but never started, so every command is refused with "machine not started", nothing changes and nothing is published |
| Jeopardy.StartedGameAcceptsFirstJoin | backend/qg/games/jeopardy/jeopardy.go:228-232 | once the machine is started, a first JoinGame without a password is accepted, announced with PlayerJoined, adds exactly that player bound to the connection, and awaits JoinGame or BeginGame |
| Jeopardy.StartOffersOnlyJoin | backend/qg/games/jeopardy/jeopardy.go:228-232 | a started new game publishes nothing, has the initial world and accepts only JoinGame |
| Jeopardy.HandlePreservesWorldOk | backend/qg/games/jeopardy/jeopardy.go:233-333 | every accepted handler keeps bound connections naming players, answered keys on the board, and a pending question on the board |
| Jeopardy.NextTurnEndsIffBoardDone | backend/qg/games/jeopardy/jeopardy.go:156-165 | with only board questions recorded, the game ends iff every board question is recorded, and another turn follows iff one is not |
| Jeopardy.HandleIsMonotone | backend/qg/games/jeopardy/jeopardy.go:233-333 | players, admin flags, press flags, answered keys and other connections' bindings are never undone; only a correct judgment changes a score, and only the answerer's, by the question's points |
| Jeopardy.PressOncePerGame | backend/qg/games/jeopardy/jeopardy.go:297-301 | a player who pressed can never press again in that game, from any connection |
| Jeopardy.PressLeavesWaitingList | backend/qg/games/jeopardy/jeopardy.go:295-307 | pressing removes exactly the presser from the not-yet-pressed list |
| Jeopardy.CanContinueNeedsPressAndInnerIndex | backend/qg/games/jeopardy/jeopardy.go:95-99 | index 0 in either coordinate never continues, and nor does any question while no one has pressed and no one is an admin |
| Jeopardy.StartEstablishesInv | backend/qg/games/jeopardy/jeopardy.go:141-146 | the started new game satisfies the machine invariant |
| Jeopardy.ChangePreservesInv | backend/qg/games/jeopardy/jeopardy.go:227-334 | every Change, accepted or not, keeps the machine invariant |
| Jeopardy.JudgmentEndsGameIffBoardDone | backend/qg/games/jeopardy/jeopardy.go:308-333 | a judgment ends the game iff it completes the board; otherwise ChooseQuestion is next |
| Jeopardy.OnlyAdminsBeginOrJudge | backend/qg/games/jeopardy/jeopardy.go:263-312 | a non-admin's BeginGame or PlayerJudgment fails with nothing changed and nothing published |
| Jeopardy.EveryonePressedIsStuck | backend/qg/games/jeopardy/jeopardy.go:295-299 | once everyone has pressed while a press is awaited, every command is refused and nothing changes |
| Jeopardy.AnsweredQuestionCanBeChosenAgain | backend/qg/games/jeopardy/jeopardy.go:277-294 | the chooser may pick an already answered question and it becomes current again |
| Jeopardy.EventsOfChange | backend/qg/games/jeopardy/jeopardy.go:177-226 | every accepted command publishes exactly the events of the per-command reference, in order, and fails only when a chosen question's points hit a nil multiplier |
| Shell.JoinGame | backend/qg/games/machine.go:107-139 | an unconfirmed password (a mismatch or a failed comparison) fails before the name check; a taken name fails with "player already exists"; success adds exactly the joiner, admin iff a password was given, binds the handle to it, and answers JoinGame and BeginGame |
| Shell.BeginGame | backend/qg/games/machine.go:140-147 | a non-admin gets "only admins can begin the game"; for an admin the result is the game's own BeginGame |
| Shell.JoinedGameEvent | backend/qg/games/machine.go:151-165 | the private JoinedGame carries the summary of the game's own board, the board itself iff the joiner is an admin, and IsAdmin equals "board present" |
| Shell.JoinAnnouncements | backend/qg/games/machine.go:169-185 | one broadcast PlayerJoined for the joiner, then one private PlayerJoined for each other player |
| Shell.StartMachine | backend/qg/games/machine.go:87-208 | the machine holds the built-ins followed by the game's states and reactors, starts awaiting only JoinGame, and fails iff one of the game's reactors matches right after Start |
| Shell.BuiltinsFirst | backend/qg/games/machine.go:199-200 | built-in states and reactors come first; a game state of a built-in type replaces the built-in one |
| Shell.RefusedJoinChangesNothing | backend/qg/games/machine.go:109-123 | a refused join leaves the machine unchanged and publishes nothing |
| Shell.AcceptedJoinAddsOnePlayer | backend/qg/games/machine.go:125-138 | an accepted join adds exactly the joiner, binds the handle, and awaits JoinGame or BeginGame |
| Shell.BeginGameIsTheGames | backend/qg/games/machine.go:140-147 | a non-admin's BeginGame is refused with nothing changed; an admin's commits exactly what the game's BeginGame returned |
| Shell.JoinAnnouncesToSelfAndAll | backend/qg/games/machine.go:151-186 | after an accepted join: JoinedGame to the joiner, PlayerJoined to everyone, then PlayerJoined to the joiner once per other existing player |
| Shell.BeginAnnouncesStart | backend/qg/games/machine.go:187-196 | after an admin's BeginGame everyone hears GameStarted, then GameEnded with the game's leaderboard when the game ended at once |
| Shell.EndReactorFiresFirst | backend/qg/games/machine.go:191-196 | after any step other than a join or a start whose next types begin with the terminal marker, the first event, whatever the game's own reactors do, is GameEnded to everyone with the game's leaderboard of that world |
| Shell.GameStateEndAnnounced | backend/qg/games/machine.go:191-196 | a game state whose handler answers nil or puts the terminal marker first leaves the marker at the head of the next types (all of them for nil), keeps the handler's world, and publishes GameEnded with that world's leaderboard first |
| Shell.ConnectedHearsBroadcastsUntilClosed | backend/qg/games/machine.go:217-241 | a connected handle receives broadcasts until it closes and none afterwards; closing affects no other handle |
| Registry.AddGame | backend/qg/games/games.go:38-48 | a registered type panics; otherwise exactly that creator is added |
| Registry.CreateGame | backend/qg/games/games.go:52-78 | an unknown type fails before touching the store; a store error fails with "cannot create game" and stores nothing; a creator error leaves the row stored but no game registered; success registers the factory under the returned ID |
| Registry.CreateGameUsesAddedCreator | backend/qg/games/games.go:38-78 | after AddGame registers a creator for a type, CreateGame of that type asks that creator and registers its factory under the new ID; other types are created as before |
| Registry.CreateGameOnlyAdds | backend/qg/games/games.go:52-78 | CreateGame never changes the creators, never forgets a game, registers at most the ID it returns, and stores at most one row |
| Registry.HandleCommand | backend/qg/games/games.go:91-115 | a bound handler forwards unchanged; an unbound one refuses non-join commands and unknown IDs and stays unbound; for a known ID it binds before forwarding |
| Registry.Close | backend/qg/games/games.go:117-122 | delegates to the bound handler, else nil |
| Registry.BoundForwardsEverything | backend/qg/games/games.go:92-94 | once bound, the handler stays bound to the same game handler and forwards every later command unchanged |
| Registry.RouteBindsAtFirstJoin | backend/qg/games/games.go:91-115 | over any command sequence, everything before the first binding JoinGame is refused, that command binds, and it and all later ones are forwarded; with no binding command the handler stays unbound |
| Schema.RenderPath | backend/qg/schema.go:41-44 | the path is exactly "$" iff the instance path is empty, else "$." followed by the joined segments |
| Schema.ErrorText | backend/qg/schema.go:40-49 | the message is "error at ", the path, " (", the schema path joined by ".", and ")" |
| Schema.SplitJoin | backend/qg/schema.go:43 | splitting joined dot-free segments at "." gives them back |
| Schema.RenderedPathReadsBack | backend/qg/schema.go:41-44 | distinct dot-free instance paths render to distinct strings: the rendering reads back |
| Schema.Validate | backend/qg/schema.go:52-79 | an unknown definition gives "cannot find schema"; the result is nil iff the value marshals and the validator finds no error; otherwise it is the first error's text |
| Schema.ValidateLocatesFirstError | backend/qg/schema.go:52-79 | a Validate message starts with "error at " exactly when the value broke the schema, and then its location reads back to the first error's instance path |

## Left out

- Websocket loops, heartbeats, deadlines and shutdown are not modelled: they are timers and socket I/O.
- The mutex hooks `EnterMachine` and `LeaveMachine` are not modelled; the model applies a command and all the reactors it fires as one step. In the original the lock belongs to the machine and is released before the reactors run (backend/internal/cando/cando.go:217-253), so one command's reactors can run at the same time as the next command's handler and read shared state such as the players. That interleaving is not modelled. A failing `EnterMachine`/`LeaveMachine` is not modelled either.
- Panics are not recovered in the original: the command loop runs in a goroutine without `recover` (backend/server/ws/server.go:68-71), so each panic the model reports as an error value ends the whole server process. The abort itself is not modelled.
- Debug output is left out: the `log.Println` before the JoinedGame event (backend/qg/games/machine.go:159) and the `spew.Dump` of the marshalled value in Validate (backend/qg/schema.go:65). Neither changes a result.
- Shell.JoinedGameEvent: the summary comes from `qg.GameInfoFromData`, which is not part of this model. It is a function field `summarize` of the game, applied to the game's board; for a Jeopardy board it is `Board.GameInfo`, but the shell does not require that.
- The context key lookups become an explicit caller argument `Conn`.
- Scores and points are integers, not float32/float64. The multiplier is an integer.
- Publish's context-cancellation early exit is left out, so Publish always visits every subscriber.
- The nesting of publishers (a handle's own publisher subscribed to the game's broadcast publisher) is reduced to a set of subscribed handles in `Shell.Session`. Delivery into queues is modelled once, in `PubSub`.
- Nil and empty Go slices are not told apart, except in the old engine's transitions table (`OldCando`), where an absent entry is a nil list and a present one is a non-nil list; elsewhere a nil `NextStates` is an empty sequence.
- The Jeopardy states (backend/qg/games/jeopardy/jeopardy.go) are written against another revision of the engine. They build reactors with `cando.Reactor(func(ctx, prev, next))`, which backend/internal/cando/cando.go does not define; that file offers `React[PrevT, NextT](func(ctx, prev))`. The model reads each such reactor as `React` would: a concrete type of the `prev` parameter is the prev filter, a concrete type of the `next` parameter is the next filter, `any` is the wildcard, and the callback receives the data of the state just entered.
- Jeopardy's command indices are int32 in Go; the model uses unbounded integers, which agree for all indices that pass the board check.
- `TotalQuestions` of the board is not part of this model; `Board.TotalQuestions` is the sum of the question counts, the number it is compared against.
- Go's `%q` escaping is not modelled; `Registry.Quote` only adds the quotes.
- `JeopardyGameManager`/`ManagedJeopardyGame` in `backend/qg/jeopardy.go` do not compile and are not modelled; only `ValidateJeopardyGameData` and `jeopardyGameInfo` are.
- The game store, the JSON Typedef validator and JSON marshalling are oracles. So are the game creators and the handler factories.
- Registry.HandleCommand: a factory that returns an error is taken to return no handler, so the connection stays unbound. A factory that returns both a handler and an error is not modelled.
- Shell.BeginGameIsTheGames: stated for a handle bound to a player; an unbound handle's BeginGame is the nil-player panic, stated in `Shell.BeginGame`.
- Shell.JoinAnnouncesToSelfAndAll: stated when none of the game's own reactors match that step; with matching game reactors the built-ins' events come first (`Cando.RunReactorsAppend`).
- Shell.BeginAnnouncesStart: stated when none of the game's own reactors match that step; with matching game reactors the built-ins' events come first (`Cando.RunReactorsAppend`).
- Jeopardy.AlreadyAnsweredPlayers: the source returns a slice in map order; the model returns the set of names.
- The old engine's `Update` hook is left out: it is not part of a transition.

### Behaviour of the code worth knowing

- The Jeopardy game's machine is never started as written (see "## Findings"). Every Jeopardy property from `Jeopardy.StartOffersOnlyJoin` on is stated for the started machine, `Cando.Start(NewGame(game), c)`, which is the corrected behaviour.
- BeginGame may pick the admin as chooser: the chooser is any player of the map.
- ChooseQuestion does not refuse an answered question (`Jeopardy.AnsweredQuestionCanBeChosenAgain`).
- An incorrect judgment records the question with an empty name, so it counts as answered. No press flag is ever reset, so a player presses at most once per game (`Jeopardy.PressOncePerGame`). If every player has pressed while a press is awaited, the game cannot move (`Jeopardy.EveryonePressedIsStuck`).
- moveToNextTurn is never asked to keep a question open: every call passes `false`.
- TurnEnded carries the chooser and the leaderboard only.
- A JoinGame for a name that already exists succeeds in the Jeopardy states without binding the connection, and its PlayerJoined is still published.
- The shell refuses the same duplicate name with "player already exists".

## Findings

| source | as written | input that shows it | evidently intended | confidence | as-written member | corrected member |
|---|---|---|---|---|---|---|
| backend/qg/jeopardy.go:25-27 | when the multiplier pointer is nil, 100 is written through it, which panics | one category with one question and no multiplier | a missing multiplier defaults to 100 | not executed | Board.ValidateAsWritten, Board.NilMultiplierPanics | Board.ValidateJeopardyGameData |
| backend/qg/internal/cando/cando.go:104-108 | when the next state has an Enter hook, the previous state's Enter is called on the previous state; from the zero State that hook is nil, which panics | a machine with one state "lobby" whose Enter succeeds, changed to "lobby" from its zero State | the next state's Enter is called on the next state | not executed | OldCando.ChangeAsWritten, OldCando.PrevEnterCounterexample | OldCando.Change |
| backend/qg/games/jeopardy/jeopardy.go:38-48 | NewGame builds the machine with `cando.NewMachine` and never calls `Start`, and nothing else starts it, so `Change` answers "machine not started" to every command | any command, for example the first JoinGame | the machine is started when the game is made, so the first JoinGame is accepted | not executed | Jeopardy.NewGame, Jeopardy.UnstartedGameRefusesEverything | Jeopardy.StartedGameAcceptsFirstJoin |
