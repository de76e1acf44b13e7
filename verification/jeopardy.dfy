/**
 * The Jeopardy rules as engine states (backend/qg/games/jeopardy/jeopardy.go).
 *
 * The closures of the source share one mutable `GameState`; here that state
 * and the binding of each connection to the player it joined as form the
 * engine's world. A connection is identified by a `Conn` value, which stands
 * for the player handler the source stores in the request context. Each
 * handler is a pure step from the world to a new world and the next command
 * types, or an error. Go panics (a nil player pointer, a nil multiplier) are
 * errors that leave the world as it was.
 */
module Jeopardy {
  import opened Wrappers
  import Cando
  import Board
  import Qg

  type PlayerName = Qg.PlayerName

  /** A connection's player handler. */
  type Conn = nat

  /** A player's score and flags. `alreadyPressed` is never cleared once set. */
  datatype PlayerState = PlayerState(score: int, alreadyPressed: bool, isAdmin: bool)

  datatype GameState = GameState(
    players: map<PlayerName, PlayerState>,
    answered: map<(int, int), PlayerName>,
    choosing: PlayerName,
    answering: PlayerName,
    currentCategory: int,
    currentQuestion: int)

  /** The game state plus, for each connection that created a player, the
      name of that player (the handler's `player` pointer). */
  datatype World = World(game: GameState, bound: map<Conn, PlayerName>)

  /** What a game is created with: its ID, its board and the store's password
      check, an oracle that may fail. */
  datatype Game = Game(id: Qg.GameID, data: Board.JeopardyGameData, compare: string -> Result<bool, string>)

  datatype JeopardyError =
    | CompareFailed(msg: string)              // "failed to compare game password"
    | InvalidPassword                         // "invalid moderator password"
    | NotAdminToBegin                         // "only admins can begin the game"
    | NotYourTurn                             // "not your turn"
    | InvalidQuestion(err: Board.BoardError)  // "invalid question"
    | AlreadyPressed                          // "you already pressed your button"
    | NotAdminToJudge                         // "only admins can judge players"
    | NilPlayer                               // a nil player pointer dereferenced: a Go panic
    | NilMultiplier                           // the nil score multiplier dereferenced: a Go panic

  /** The text the engine reports for a handler error. */
  function Message(e: JeopardyError): string {
    match e
    case CompareFailed(msg) => "failed to compare game password: " + msg
    case InvalidPassword => "invalid moderator password"
    case NotAdminToBegin => "only admins can begin the game"
    case NotYourTurn => "not your turn"
    case InvalidQuestion(err) => "invalid question: " + Board.ErrorMessage(err)
    case AlreadyPressed => "you already pressed your button"
    case NotAdminToJudge => "only admins can judge players"
    case NilPlayer => "panic: nil player"
    case NilMultiplier => "panic: nil score multiplier"
  }

  /** A handler's answer: the new world and the next command types. */
  type Step = Result<(World, seq<Cando.Tag>), JeopardyError>

  // ---------------------------------------------------------------------------
  // Game state and helper predicates
  // ---------------------------------------------------------------------------

  /** The state a new game starts in: no players, nothing answered, no
      current question. */
  function InitialState(): (g: GameState)
    ensures g.players == map[] && g.answered == map[]
    ensures g.currentCategory == -1 && g.currentQuestion == -1
  {
    GameState(map[], map[], "", "", -1, -1)
  }

  function InitialWorld(): (w: World)
    ensures w.game == InitialState() && w.bound == map[]
  {
    World(InitialState(), map[])
  }

  /** The player a connection acts as: nil until it created a player. */
  function Caller(w: World, c: Conn): (r: Option<PlayerName>)
    ensures r.Some? <==> c in w.bound && w.bound[c] in w.game.players
    ensures r.Some? ==> r.value == w.bound[c]
  {
    if c in w.bound && w.bound[c] in w.game.players then Some(w.bound[c]) else None
  }

  /** The players `alreadyAnsweredPlayers` lists: despite the name, the
      non-admin players who have NOT pressed their button. */
  function AlreadyAnsweredPlayers(g: GameState): (r: set<PlayerName>)
    ensures r <= g.players.Keys
  {
    set n | n in g.players && !g.players[n].alreadyPressed && !g.players[n].isAdmin
  }

  /** Whether the current question could take another answer. The index test
      is `> 0`, so the first category and the first row never qualify. */
  predicate CanContinueQuestion(g: GameState) {
    |AlreadyAnsweredPlayers(g)| < |g.players| && g.currentCategory > 0 && g.currentQuestion > 0
  }

  /** The scores by player, what the leaderboard is built from. */
  function Scores(g: GameState): (s: map<PlayerName, int>)
    ensures s.Keys == g.players.Keys
    ensures forall n :: n in s ==> s[n] == g.players[n].score
  {
    map n | n in g.players :: g.players[n].score
  }

  /** buildLeaderboard: one entry per player with its score, best first. */
  ghost function Leaderboard(g: GameState): (lb: seq<Qg.LeaderboardEntry>)
    ensures Qg.SortedByScore(lb) && |lb| == |g.players|
    ensures forall i :: 0 <= i < |lb| ==> lb[i].playerName in g.players && lb[i].score == g.players[lb[i].playerName].score
    ensures forall n :: n in g.players ==> Qg.LeaderboardEntry(n, g.players[n].score) in lb
  {
    Qg.BuildLeaderboard(Scores(g))
  }

  /** moveToNextTurn: more presses while the question can continue (never
      asked for: every caller passes false), else another turn while fewer
      questions are answered than the board holds, else the end (nil). */
  function MoveToNextTurn(g: GameState, total: int, stillAnswering: bool): (r: seq<Cando.Tag>)
    ensures stillAnswering && CanContinueQuestion(g) ==> r == [Cando.PressButton]
    ensures !(stillAnswering && CanContinueQuestion(g)) ==>
      && (r == [Cando.ChooseQuestion] <==> |g.answered| < total)
      && (r == [] <==> |g.answered| >= total)
  {
    if stillAnswering && CanContinueQuestion(g) then [Cando.PressButton]
    else if |g.answered| < total then [Cando.ChooseQuestion]
    else []
  }

  /** The size of the board, the bound moveToNextTurn compares against. */
  function Total(game: Game): nat {
    Board.TotalQuestions(game.data.categories)
  }

  // ---------------------------------------------------------------------------
  // Handlers
  // ---------------------------------------------------------------------------

  /** JoinGame: a supplied moderator password must be confirmed by the store.
      A new name gets a fresh player, admin exactly when a password was
      supplied, and the connection is bound to it; a known name changes
      nothing and does not bind the connection. */
  function JoinGame(game: Game, w: World, c: Conn, name: PlayerName, password: Option<string>): (r: Step)
    ensures r.Err? <==> password.Some? && game.compare(password.value) != Ok(true)
    ensures password.Some? && game.compare(password.value).Err? ==>
      r == Err(CompareFailed(game.compare(password.value).error))
    ensures password.Some? && game.compare(password.value) == Ok(false) ==> r == Err(InvalidPassword)
    ensures r.Ok? ==> r.value.1 == [Cando.JoinGame, Cando.BeginGame]
    ensures r.Ok? && name in w.game.players ==> r.value.0 == w
    ensures r.Ok? && name !in w.game.players ==>
      var w' := r.value.0;
      && w'.game.players.Keys == w.game.players.Keys + {name}
      && w'.game.players[name] == PlayerState(0, false, password.Some?)
      && (forall n :: n in w.game.players ==> w'.game.players[n] == w.game.players[n])
      && w'.bound == w.bound[c := name]
      && w'.game.(players := w.game.players) == w.game
  {
    var admin: Result<bool, JeopardyError> :=
      if password.None? then Ok(false)
      else match game.compare(password.value)
        case Err(msg) => Err(CompareFailed(msg))
        case Ok(ok) => if !ok then Err(InvalidPassword) else Ok(true);
    if admin.Err? then Err(admin.error)
    else if name in w.game.players then Ok((w, [Cando.JoinGame, Cando.BeginGame]))
    else
      var players := w.game.players[name := PlayerState(0, false, admin.value)];
      Ok((World(w.game.(players := players), w.bound[c := name]), [Cando.JoinGame, Cando.BeginGame]))
  }

  /** Some key of a non-empty player map: the first one Go's map iteration
      yields, which the runtime chooses. */
  ghost function SomePlayer(players: map<PlayerName, PlayerState>): (n: PlayerName)
    requires players != map[]
    ensures n in players
  {
    assert players.Keys != {} by {
      var k :| k in players;
    }
    var n :| n in players.Keys; n
  }

  /** BeginGame: only an admin may begin; some player (possibly the admin)
      is made the chooser and the first turn starts. */
  ghost function BeginGame(game: Game, w: World, c: Conn): (r: Step)
    ensures Caller(w, c).None? ==> r == Err(NilPlayer)
    ensures Caller(w, c).Some? && !w.game.players[Caller(w, c).value].isAdmin ==> r == Err(NotAdminToBegin)
    ensures r.Ok? <==> Caller(w, c).Some? && w.game.players[Caller(w, c).value].isAdmin
    ensures r.Ok? ==>
      var w' := r.value.0;
      && w'.game.choosing in w.game.players
      && w' == w.(game := w.game.(choosing := w'.game.choosing))
      && r.value.1 == MoveToNextTurn(w.game, Total(game), false)
  {
    match Caller(w, c)
    case None => Err(NilPlayer)
    case Some(name) =>
      if !w.game.players[name].isAdmin then Err(NotAdminToBegin)
      else
        var g := w.game.(choosing := SomePlayer(w.game.players));
        Ok((w.(game := g), MoveToNextTurn(g, Total(game), false)))
  }

  /** ChooseQuestion: only the chooser may pick, and only a question on the
      board; the pick becomes the current question. An already answered
      question is not refused. */
  function ChooseQuestion(game: Game, w: World, c: Conn, category: int, question: int): (r: Step)
    ensures Caller(w, c).None? ==> r == Err(NilPlayer)
    ensures Caller(w, c).Some? && Caller(w, c).value != w.game.choosing ==> r == Err(NotYourTurn)
    ensures Caller(w, c) == Some(w.game.choosing) && !Board.ValidIx(game.data, category, question) ==>
      r == Err(InvalidQuestion(Board.AssertQuestionIx(game.data, category, question).value))
    ensures r.Ok? <==> Caller(w, c) == Some(w.game.choosing) && Board.ValidIx(game.data, category, question)
    ensures r.Ok? ==>
      var g' := r.value.0.game;
      && r.value.0.bound == w.bound
      && g'.currentCategory == category && g'.currentQuestion == question
      && g'.(currentCategory := w.game.currentCategory, currentQuestion := w.game.currentQuestion) == w.game
      && r.value.1 == [Cando.PressButton]
  {
    match Caller(w, c)
    case None => Err(NilPlayer)
    case Some(name) =>
      if name != w.game.choosing then Err(NotYourTurn)
      else match Board.QuestionAt(game.data, category, question)
        case Err(e) => Err(InvalidQuestion(e))
        case Ok(_) =>
          Ok((w.(game := w.game.(currentCategory := category, currentQuestion := question)), [Cando.PressButton]))
  }

  /** PressButton: each player may press once; the presser becomes the
      answering player and the admin's judgment is awaited. */
  function PressButton(w: World, c: Conn): (r: Step)
    ensures Caller(w, c).None? ==> r == Err(NilPlayer)
    ensures r.Ok? <==> Caller(w, c).Some? && !w.game.players[Caller(w, c).value].alreadyPressed
    ensures Caller(w, c).Some? && w.game.players[Caller(w, c).value].alreadyPressed ==> r == Err(AlreadyPressed)
    ensures r.Ok? ==>
      var n := Caller(w, c).value;
      var g' := r.value.0.game;
      && r.value.0.bound == w.bound
      && g'.players == w.game.players[n := w.game.players[n].(alreadyPressed := true)]
      && g'.answering == n
      && g'.(players := w.game.players, answering := w.game.answering) == w.game
      && r.value.1 == [Cando.PlayerJudgment]
  {
    match Caller(w, c)
    case None => Err(NilPlayer)
    case Some(name) =>
      var p := w.game.players[name];
      if p.alreadyPressed then Err(AlreadyPressed)
      else
        var g := w.game.(players := w.game.players[name := p.(alreadyPressed := true)], answering := name);
        Ok((w.(game := g), [Cando.PlayerJudgment]))
  }

  /** PlayerJudgment: only an admin may judge. A correct answer earns the
      answering player the question's points, records them as its answerer and
      makes them the chooser; an incorrect one records the question with an
      empty name, which also counts as answered. Then the next turn starts. */
  function PlayerJudgment(game: Game, w: World, c: Conn, correct: bool): (r: Step)
    ensures Caller(w, c).None? ==> r == Err(NilPlayer)
    ensures Caller(w, c).Some? && !w.game.players[Caller(w, c).value].isAdmin ==> r == Err(NotAdminToJudge)
    ensures r.Ok? <==>
      && Caller(w, c).Some? && w.game.players[Caller(w, c).value].isAdmin
      && (correct ==> w.game.answering in w.game.players && game.data.scoreMultiplier.Some?)
    ensures r.Ok? ==>
      var g := w.game;
      var g' := r.value.0.game;
      var pos := (g.currentCategory, g.currentQuestion);
      && r.value.0.bound == w.bound
      && g'.answered == g.answered[pos := if correct then g.answering else ""]
      && (correct ==>
            && g'.players == g.players[g.answering := g.players[g.answering].(
                 score := g.players[g.answering].score + Board.QuestionPoints(game.data, g.currentQuestion))]
            && g'.choosing == g.answering)
      && (!correct ==> g'.players == g.players && g'.choosing == g.choosing)
      && g'.answering == g.answering
      && g'.currentCategory == g.currentCategory && g'.currentQuestion == g.currentQuestion
      && r.value.1 == MoveToNextTurn(g', Total(game), false)
  {
    match Caller(w, c)
    case None => Err(NilPlayer)
    case Some(name) =>
      if !w.game.players[name].isAdmin then Err(NotAdminToJudge)
      else
        var g := w.game;
        var pos := (g.currentCategory, g.currentQuestion);
        if correct then
          if g.answering !in g.players then Err(NilPlayer)
          else if game.data.scoreMultiplier.None? then Err(NilMultiplier)
          else
            var winner := g.players[g.answering];
            var points := Board.QuestionPoints(game.data, g.currentQuestion);
            var g' := g.(players := g.players[g.answering := winner.(score := winner.score + points)],
                         answered := g.answered[pos := g.answering],
                         choosing := g.answering);
            Ok((w.(game := g'), MoveToNextTurn(g', Total(game), false)))
        else
          var g' := g.(answered := g.answered[pos := ""]);
          Ok((w.(game := g'), MoveToNextTurn(g', Total(game), false)))
  }

  /** The handler of a command's state. */
  ghost function Handle(game: Game, w: World, c: Conn, cmd: Qg.Command): (r: Step)
    ensures r.Ok? ==> r.value.0.game.players.Keys >= w.game.players.Keys
  {
    match cmd
    case JoinGame(_, name, password) => JoinGame(game, w, c, name, password)
    case BeginGame => BeginGame(game, w, c)
    case ChooseQuestion(category, question) => ChooseQuestion(game, w, c, category, question)
    case PressButton => PressButton(w, c)
    case PlayerJudgment(correct) => PlayerJudgment(game, w, c, correct)
  }

  // ---------------------------------------------------------------------------
  // The engine wiring: states, reactors, machine
  // ---------------------------------------------------------------------------

  type JeopardyMachine = Cando.Machine<World, Conn, Qg.Command, Qg.Event>

  /** A handler result as the engine sees it: errors become their text. */
  function Lift(r: Step): (s: Result<(World, seq<Cando.Tag>), string>)
    ensures s.Ok? <==> r.Ok?
    ensures r.Ok? ==> s.value == r.value
    ensures r.Err? ==> s.error == Message(r.error)
  {
    match r
    case Ok(v) => Ok(v)
    case Err(e) => Err(Message(e))
  }

  /** The callback registered for every command state. */
  ghost function Enter(game: Game): (World, Conn, Qg.Command) -> Result<(World, seq<Cando.Tag>), string> {
    (w: World, c: Conn, cmd: Qg.Command) => Lift(Handle(game, w, c, cmd))
  }

  /** The states in registration order, one per command type. */
  ghost function States(game: Game): seq<Cando.State<World, Conn, Qg.Command>> {
    [Cando.State(Cando.JoinGame, Enter(game)),
     Cando.State(Cando.BeginGame, Enter(game)),
     Cando.State(Cando.ChooseQuestion, Enter(game)),
     Cando.State(Cando.PressButton, Enter(game)),
     Cando.State(Cando.PlayerJudgment, Enter(game))]
  }

  /** The event announcing a chosen question with its points. */
  function BeginQuestionEvent(game: Game, w: World, cmd: Qg.Command): Result<seq<Qg.Event>, string> {
    match cmd
    case ChooseQuestion(category, question) =>
      if game.data.scoreMultiplier.None? then Err(Message(NilMultiplier))
      else Ok([Qg.BeginQuestion(w.game.choosing, category, question, Board.QuestionPoints(game.data, question))])
    case _ => Ok([])
  }

  /** The reactors in registration order. A concrete callback parameter type
      is a filter, `any` a wildcard; each publishes the event it returns. */
  ghost function Reactors(game: Game): seq<Cando.Reactor<World, Conn, Qg.Command, Qg.Event>> {
    [Cando.Reactor(None, Some(Cando.EndReaction),
       (w: World, c: Conn, cmd: Qg.Command) => Ok([Qg.GameEnded(Leaderboard(w.game))])),
     Cando.Reactor(None, Some(Cando.ChooseQuestion),
       (w: World, c: Conn, cmd: Qg.Command) => Ok([Qg.TurnEnded(w.game.choosing, Leaderboard(w.game))])),
     Cando.Reactor(None, Some(Cando.PressButton),
       (w: World, c: Conn, cmd: Qg.Command) => Ok([Qg.ResumeButton(AlreadyAnsweredPlayers(w.game))])),
     Cando.Reactor(Some(Cando.JoinGame), None,
       (w: World, c: Conn, cmd: Qg.Command) => Ok(if cmd.JoinGame? then [Qg.PlayerJoined(cmd.playerName)] else [])),
     Cando.Reactor(Some(Cando.ChooseQuestion), None,
       (w: World, c: Conn, cmd: Qg.Command) => BeginQuestionEvent(game, w, cmd)),
     Cando.Reactor(Some(Cando.PressButton), None,
       (w: World, c: Conn, cmd: Qg.Command) =>
         match Caller(w, c)
         case None => Err(Message(NilPlayer))
         case Some(n) => Ok([Qg.ButtonPressed(n)]))]
  }

  ghost function MachineData(game: Game): Cando.MachineData<World, Conn, Qg.Command, Qg.Event> {
    Cando.MachineData([Cando.JoinGame], States(game), Reactors(game), Qg.TagOf)
  }

  /** NewGame: an unstarted machine over the initial world. */
  ghost function NewGame(game: Game): (m: JeopardyMachine)
    ensures m.current == Cando.Unstarted && m.world == InitialWorld()
  {
    Cando.NewMachine(MachineData(game), InitialWorld())
  }

  /** The command types in the order their states are registered. */
  const CommandTags := [Cando.JoinGame, Cando.BeginGame, Cando.ChooseQuestion, Cando.PressButton, Cando.PlayerJudgment]

  /** The states carry the command types in order, none twice, and all run
      `Enter`. */
  lemma StatesInOrder(game: Game)
    ensures |States(game)| == |CommandTags|
    ensures forall i :: 0 <= i < |States(game)| ==>
      States(game)[i].tag == CommandTags[i] && States(game)[i].enter == Enter(game)
    ensures forall i, j :: 0 <= i < j < |States(game)| ==> States(game)[i].tag != States(game)[j].tag
  {
    assert forall i, j :: 0 <= i < j < |CommandTags| ==> CommandTags[i] != CommandTags[j];
  }

  /** Every command type has a state, and all of them run `Enter`. */
  lemma TableFacts(game: Game)
    ensures var t := Cando.Index(States(game));
      && Cando.EndReaction !in t
      && forall tag :: tag != Cando.EndReaction ==> tag in t && t[tag].enter == Enter(game)
  {
    var ss := States(game);
    StatesInOrder(game);
    Cando.IndexOfDistinct(ss);
    var t := Cando.Index(ss);
    forall tag | tag != Cando.EndReaction ensures tag in t && t[tag].enter == Enter(game) {
      var i := match tag
        case JoinGame => 0 case BeginGame => 1 case ChooseQuestion => 2
        case PressButton => 3 case _ => 4;
      assert CommandTags[i] == tag;
    }
  }

  /** Starting a new game publishes nothing and accepts only JoinGame. */
  lemma StartOffersOnlyJoin(game: Game, c: Conn)
    ensures var r := Cando.Start(NewGame(game), c);
      && r.err == None && r.events == []
      && r.machine.current == Cando.AtInit
      && r.machine.next == [Cando.JoinGame]
      && r.machine.world == InitialWorld()
  {
    var m := NewGame(game);
    Cando.StartFiresOnlyWildcardPrev(m, c);
    var rs := m.data.reactors;
    assert forall i :: 0 <= i < |rs| ==> !Cando.Matches(rs[i], None, [Cando.JoinGame]);
  }

  /** NewGame as written builds the machine without starting it, so every
      command a player sends is refused with "machine not started" and
      nothing changes. */
  lemma UnstartedGameRefusesEverything(game: Game, c: Conn, cmd: Qg.Command)
    ensures Cando.Change(NewGame(game), c, cmd) == Cando.Outcome(NewGame(game), [], Some(Cando.NotStarted))
  {
  }

  /** With the machine started, as intended, the first player can join: the
      join is accepted, announced, and binds the connection to the new
      player. */
  lemma StartedGameAcceptsFirstJoin(game: Game, c: Conn, id: Qg.GameID, name: PlayerName)
    ensures var m := Cando.Start(NewGame(game), c).machine;
      var r := Cando.Change(m, c, Qg.JoinGame(id, name, None));
      && r.err == None && r.events == [Qg.PlayerJoined(name)]
      && r.machine.world.game.players.Keys == {name}
      && r.machine.world.bound == map[c := name]
      && r.machine.next == [Cando.JoinGame, Cando.BeginGame]
  {
    var m := Cando.Start(NewGame(game), c).machine;
    var cmd := Qg.JoinGame(id, name, None);
    StartOffersOnlyJoin(game, c);
    StartEstablishesInv(game, c);
    EnterIsHandle(game, m, c, cmd);
    EventsOfChange(game, m, c, cmd);
    Cando.ChangeCommitsThenReacts(m, c, cmd);
  }

  // ---------------------------------------------------------------------------
  // Handler-level properties
  // ---------------------------------------------------------------------------

  /** The next-type lists a running game can be waiting on. */
  predicate KnownNext(next: seq<Cando.Tag>) {
    || next == [Cando.JoinGame]
    || next == [Cando.JoinGame, Cando.BeginGame]
    || next == [Cando.ChooseQuestion]
    || next == [Cando.PressButton]
    || next == [Cando.PlayerJudgment]
    || next == [Cando.EndReaction]
  }

  /** What holds of every world a game reaches while waiting on `next`: bound
      connections name players, only board questions are recorded as
      answered, a pending press or judgment is about a question on the board,
      and a pending judgment is about an existing player. */
  predicate WorldOk(game: Game, w: World, next: seq<Cando.Tag>) {
    && (forall c :: c in w.bound ==> w.bound[c] in w.game.players)
    && w.game.answered.Keys <= Board.ValidPairs(game.data)
    && KnownNext(next)
    && (next == [Cando.PressButton] || next == [Cando.PlayerJudgment] ==>
          Board.ValidIx(game.data, w.game.currentCategory, w.game.currentQuestion))
    && (next == [Cando.PlayerJudgment] ==> w.game.answering in w.game.players)
  }

  /** Every handler the engine admits keeps WorldOk. */
  lemma HandlePreservesWorldOk(game: Game, w: World, c: Conn, cmd: Qg.Command, next: seq<Cando.Tag>)
    requires WorldOk(game, w, next) && Qg.TagOf(cmd) in next
    requires Handle(game, w, c, cmd).Ok?
    ensures var (w', nexts) := Handle(game, w, c, cmd).value;
      WorldOk(game, w', Cando.Committed(nexts))
  {
    var (w', nexts) := Handle(game, w, c, cmd).value;
    match cmd
    case PlayerJudgment(correct) =>
      Board.ValidPairsExact(game.data);
      assert (w.game.currentCategory, w.game.currentQuestion) in Board.ValidPairs(game.data);
    case _ =>
  }

  /** A game that reaches a turn boundary is over exactly when every question
      of the board has been answered, given that only board questions are
      recorded. */
  lemma NextTurnEndsIffBoardDone(game: Game, g: GameState)
    requires g.answered.Keys <= Board.ValidPairs(game.data)
    ensures MoveToNextTurn(g, Total(game), false) == [] <==> g.answered.Keys == Board.ValidPairs(game.data)
    ensures MoveToNextTurn(g, Total(game), false) == [Cando.ChooseQuestion] <==>
      exists p :: p in Board.ValidPairs(game.data) && p !in g.answered
  {
    Board.ValidPairsExact(game.data);
    var keys := g.answered.Keys;
    var all := Board.ValidPairs(game.data);
    assert |g.answered| == |keys|;
    if |keys| >= |all| {
      SubsetOfSameSize(keys, all);
    }
    if keys != all {
      assert keys < all;
      var p :| p in all && p !in keys;
    }
  }

  /** A subset at least as large as its superset is the superset. */
  lemma SubsetOfSameSize<T>(a: set<T>, b: set<T>)
    requires a <= b && |a| >= |b|
    ensures a == b
  {
    if a != b {
      var x :| x in b && x !in a;
      SubsetSize(a, b - {x});
    }
  }

  lemma {:induction false} SubsetSize<T>(a: set<T>, b: set<T>)
    requires a <= b
    ensures |a| <= |b|
    decreases |a|
  {
    if a != {} {
      var x :| x in a;
      SubsetSize(a - {x}, b - {x});
    }
  }

  /** What no handler undoes: players are never removed and keep their admin
      flag, a pressed button stays pressed, recorded questions stay recorded,
      connections stay bound to the same player. Only a correct judgment
      changes a score, and only the answering player's, by the question's
      points. */
  lemma HandleIsMonotone(game: Game, w: World, c: Conn, cmd: Qg.Command)
    requires Handle(game, w, c, cmd).Ok?
    ensures var g := w.game;
      var g' := Handle(game, w, c, cmd).value.0.game;
      && (forall n :: n in g.players ==>
            && n in g'.players
            && g'.players[n].isAdmin == g.players[n].isAdmin
            && (g.players[n].alreadyPressed ==> g'.players[n].alreadyPressed))
      && g.answered.Keys <= g'.answered.Keys
      && (forall k :: k in g.answered && k != (g.currentCategory, g.currentQuestion) ==> g'.answered[k] == g.answered[k])
      && (forall k :: k in w.bound ==> k in Handle(game, w, c, cmd).value.0.bound)
      && (forall k :: k in w.bound && k != c ==> Handle(game, w, c, cmd).value.0.bound[k] == w.bound[k])
      && (cmd != Qg.PlayerJudgment(true) ==> forall n :: n in g.players ==> g'.players[n].score == g.players[n].score)
      && (cmd == Qg.PlayerJudgment(true) ==>
            Scores(g') == Scores(g)[g.answering := Scores(g)[g.answering] + Board.QuestionPoints(game.data, g.currentQuestion)])
  {
    var g := w.game;
    var w' := Handle(game, w, c, cmd).value.0;
    var g' := w'.game;
    if cmd.PlayerJudgment? && cmd.correct {
      assert g'.players.Keys == g.players.Keys;
    }
  }

  /** A player who has pressed once can never press again in this game,
      from any connection: the flag is never cleared. */
  lemma PressOncePerGame(game: Game, w: World, c: Conn, cmd: Qg.Command, n: PlayerName)
    requires n in w.game.players && w.game.players[n].alreadyPressed
    requires Handle(game, w, c, cmd).Ok?
    ensures var w' := Handle(game, w, c, cmd).value.0;
      && n in w'.game.players && w'.game.players[n].alreadyPressed
      && forall c2 :: Caller(w', c2) == Some(n) ==> PressButton(w', c2) == Err(AlreadyPressed)
  {
    HandleIsMonotone(game, w, c, cmd);
  }

  /** Pressing takes the presser off the list of players who may still press,
      and leaves everyone else on it or off it as before. */
  lemma PressLeavesWaitingList(w: World, c: Conn)
    requires PressButton(w, c).Ok?
    ensures var n := Caller(w, c).value;
      AlreadyAnsweredPlayers(PressButton(w, c).value.0.game) == AlreadyAnsweredPlayers(w.game) - {n}
  {
  }

  /** The `> 0` index test: a question in the first category or the first row
      can never continue, and nor can any question while every player is a
      non-admin who has not pressed. */
  lemma CanContinueNeedsPressAndInnerIndex(g: GameState)
    ensures g.currentCategory == 0 || g.currentQuestion == 0 ==> !CanContinueQuestion(g)
    ensures (forall n :: n in g.players ==> !g.players[n].alreadyPressed && !g.players[n].isAdmin) ==>
      !CanContinueQuestion(g)
  {
    if forall n :: n in g.players ==> !g.players[n].alreadyPressed && !g.players[n].isAdmin {
      assert AlreadyAnsweredPlayers(g) == g.players.Keys;
    }
  }

  // ---------------------------------------------------------------------------
  // Machine-level properties
  // ---------------------------------------------------------------------------

  /** A started Jeopardy machine whose world is sound for what it awaits. */
  ghost predicate Inv(game: Game, m: JeopardyMachine) {
    && m.data == MachineData(game)
    && m.table == Cando.Index(States(game))
    && m.current != Cando.Unstarted
    && WorldOk(game, m.world, m.next)
  }

  /** The handler the engine runs for an admitted command is Handle. */
  lemma EnterIsHandle(game: Game, m: JeopardyMachine, c: Conn, cmd: Qg.Command)
    requires Inv(game, m) && Qg.TagOf(cmd) in m.next
    ensures Cando.Admits(m, cmd)
    ensures m.table[Qg.TagOf(cmd)].enter(m.world, c, cmd) == Lift(Handle(game, m.world, c, cmd))
  {
    TableFacts(game);
  }

  lemma StartEstablishesInv(game: Game, c: Conn)
    ensures Inv(game, Cando.Start(NewGame(game), c).machine)
  {
    StartOffersOnlyJoin(game, c);
  }

  /** Every Change, successful or not, keeps the invariant. */
  lemma ChangePreservesInv(game: Game, m: JeopardyMachine, c: Conn, cmd: Qg.Command)
    requires Inv(game, m)
    ensures Inv(game, Cando.Change(m, c, cmd).machine)
  {
    if Qg.TagOf(cmd) in m.next {
      EnterIsHandle(game, m, c, cmd);
      if Handle(game, m.world, c, cmd).Ok? {
        HandlePreservesWorldOk(game, m.world, c, cmd, m.next);
      }
    }
  }

  /** A judgment ends the game exactly when it completes the board, and
      otherwise hands the next turn to the chooser. */
  lemma JudgmentEndsGameIffBoardDone(game: Game, m: JeopardyMachine, c: Conn, correct: bool)
    requires Inv(game, m) && m.next == [Cando.PlayerJudgment]
    requires Handle(game, m.world, c, Qg.PlayerJudgment(correct)).Ok?
    ensures var m' := Cando.Change(m, c, Qg.PlayerJudgment(correct)).machine;
      && (Cando.Terminal(m'.next) <==> m'.world.game.answered.Keys == Board.ValidPairs(game.data))
      && (!Cando.Terminal(m'.next) ==> m'.next == [Cando.ChooseQuestion])
  {
    var cmd := Qg.PlayerJudgment(correct);
    EnterIsHandle(game, m, c, cmd);
    ChangePreservesInv(game, m, c, cmd);
    var (w', nexts) := Handle(game, m.world, c, cmd).value;
    NextTurnEndsIffBoardDone(game, w'.game);
  }

  /** BeginGame and PlayerJudgment from a connection whose player is not an
      admin fail with nothing changed and nothing published. */
  lemma OnlyAdminsBeginOrJudge(game: Game, m: JeopardyMachine, c: Conn, cmd: Qg.Command)
    requires Inv(game, m) && (cmd.BeginGame? || cmd.PlayerJudgment?) && Qg.TagOf(cmd) in m.next
    requires Caller(m.world, c).Some? && !m.world.game.players[Caller(m.world, c).value].isAdmin
    ensures Cando.Change(m, c, cmd) ==
      Cando.Outcome(m, [], Some(Cando.HandlerFailed(Message(if cmd.BeginGame? then NotAdminToBegin else NotAdminToJudge))))
  {
    EnterIsHandle(game, m, c, cmd);
  }

  /** Once every player has pressed while a press is awaited, no command can
      move the game: presses are refused and nothing else is admitted. */
  lemma EveryonePressedIsStuck(game: Game, m: JeopardyMachine, c: Conn, cmd: Qg.Command)
    requires Inv(game, m) && m.next == [Cando.PressButton]
    requires forall n :: n in m.world.game.players ==> m.world.game.players[n].alreadyPressed
    ensures Cando.Change(m, c, cmd).machine == m
    ensures Cando.Change(m, c, cmd).err.Some? && Cando.Change(m, c, cmd).events == []
  {
    if cmd.PressButton? {
      EnterIsHandle(game, m, c, cmd);
    }
  }

  /** The chooser may pick a question that was already answered: it becomes
      the current question again. */
  lemma AnsweredQuestionCanBeChosenAgain(game: Game, m: JeopardyMachine, c: Conn, category: int, question: int)
    requires Inv(game, m) && m.next == [Cando.ChooseQuestion]
    requires Caller(m.world, c) == Some(m.world.game.choosing)
    requires (category, question) in m.world.game.answered
    ensures var m' := Cando.Change(m, c, Qg.ChooseQuestion(category, question)).machine;
      && m'.current == Cando.At(Cando.ChooseQuestion)
      && m'.world.game.currentCategory == category && m'.world.game.currentQuestion == question
      && m'.next == [Cando.PressButton]
  {
    EnterIsHandle(game, m, c, Qg.ChooseQuestion(category, question));
    Board.ValidPairsExact(game.data);
    assert (category, question) in Board.ValidPairs(game.data);
  }

  /** What a committed command publishes, command by command, written
      independently of the reactor list: a join announces the joiner (also
      when the name already existed); a turn boundary announces the next
      chooser or the end, each with the leaderboard; a chosen question first
      reopens the buttons and then announces the question with its points; a
      press announces the presser. `w` is the world after the command. */
  ghost function ExpectedEvents(game: Game, w: World, c: Conn, cmd: Qg.Command, next: seq<Cando.Tag>): seq<Qg.Event> {
    match cmd
    case JoinGame(_, name, _) => [Qg.PlayerJoined(name)]
    case ChooseQuestion(category, question) =>
      [Qg.ResumeButton(AlreadyAnsweredPlayers(w.game))] +
      (if game.data.scoreMultiplier.None? then []
       else [Qg.BeginQuestion(w.game.choosing, category, question, Board.QuestionPoints(game.data, question))])
    case PressButton => if Caller(w, c).Some? then [Qg.ButtonPressed(Caller(w, c).value)] else []
    case _ =>
      if Cando.Terminal(next) then [Qg.GameEnded(Leaderboard(w.game))]
      else [Qg.TurnEnded(w.game.choosing, Leaderboard(w.game))]
  }

  /** The next types a command's accepted handler commits. */
  predicate NextFits(cmd: Qg.Command, next: seq<Cando.Tag>) {
    match cmd
    case JoinGame(_, _, _) => next == [Cando.JoinGame, Cando.BeginGame]
    case ChooseQuestion(_, _) => next == [Cando.PressButton]
    case PressButton => next == [Cando.PlayerJudgment]
    case _ => next == [Cando.ChooseQuestion] || next == [Cando.EndReaction]
  }

  /** The reactor list publishes exactly the expected events for every
      admitted command that its handler accepts, and fails only when a chosen
      question's points cannot be computed. */
  lemma EventsOfChange(game: Game, m: JeopardyMachine, c: Conn, cmd: Qg.Command)
    requires Inv(game, m) && Qg.TagOf(cmd) in m.next
    requires Handle(game, m.world, c, cmd).Ok?
    ensures var r := Cando.Change(m, c, cmd);
      && r.events == ExpectedEvents(game, r.machine.world, c, cmd, r.machine.next)
      && (r.err == None <==> !(cmd.ChooseQuestion? && game.data.scoreMultiplier.None?))
  {
    EnterIsHandle(game, m, c, cmd);
    var (w', nexts) := Handle(game, m.world, c, cmd).value;
    var m' := m.(current := Cando.At(Qg.TagOf(cmd)), currentData := Some(cmd), next := Cando.Committed(nexts), world := w');
    assert Cando.Change(m, c, cmd) == Cando.React(m', c);
    CommittedNextFits(game, m.world, c, cmd);
    ReactorsOfCommand(game, w', c, cmd, m'.next);
  }

  /** An accepted handler commits the next types its command leads to, and a
      press leaves the presser bound. */
  lemma CommittedNextFits(game: Game, w: World, c: Conn, cmd: Qg.Command)
    requires Handle(game, w, c, cmd).Ok?
    ensures NextFits(cmd, Cando.Committed(Handle(game, w, c, cmd).value.1))
    ensures cmd.PressButton? ==> Caller(Handle(game, w, c, cmd).value.0, c).Some?
  {
  }

  /** The reactors run after a committed command publish its expected events. */
  lemma ReactorsOfCommand(game: Game, w: World, c: Conn, cmd: Qg.Command, next: seq<Cando.Tag>)
    requires NextFits(cmd, next)
    requires cmd.PressButton? ==> Caller(w, c).Some?
    ensures var r := Cando.RunReactors(Reactors(game), Some(Qg.TagOf(cmd)), next, w, c, Some(cmd));
      && r.0 == ExpectedEvents(game, w, c, cmd, next)
      && (r.1 == None <==> !(cmd.ChooseQuestion? && game.data.scoreMultiplier.None?))
  {
    match cmd
    case JoinGame(_, _, _) => JoinReactors(game, w, c, cmd);
    case BeginGame => TurnReactors(game, Cando.BeginGame, next, w, c, cmd);
    case ChooseQuestion(_, _) => ChooseReactors(game, w, c, cmd);
    case PressButton => PressReactors(game, w, c, cmd);
    case PlayerJudgment(_) => TurnReactors(game, Cando.PlayerJudgment, next, w, c, cmd);
  }

  // The reactor list run after each kind of command, one position at a time.

  lemma JoinReactors(game: Game, w: World, c: Conn, cmd: Qg.Command)
    requires cmd.JoinGame?
    ensures Cando.RunReactors(Reactors(game), Some(Cando.JoinGame), [Cando.JoinGame, Cando.BeginGame], w, c, Some(cmd)) ==
      ([Qg.PlayerJoined(cmd.playerName)], None)
  {
    var rs, p, n, d := Reactors(game), Some(Cando.JoinGame), [Cando.JoinGame, Cando.BeginGame], Some(cmd);
    var e := [Qg.PlayerJoined(cmd.playerName)];
    assert rs[6..] == [];
    assert Cando.RunReactors(rs[5..], p, n, w, c, d) == ([], None) by { Cando.RunReactorsAt(rs, 5, p, n, w, c, d); }
    assert Cando.RunReactors(rs[4..], p, n, w, c, d) == ([], None) by { Cando.RunReactorsAt(rs, 4, p, n, w, c, d); }
    assert Cando.RunReactors(rs[3..], p, n, w, c, d) == (e, None) by {
      Cando.RunReactorsAt(rs, 3, p, n, w, c, d);
      assert rs[3].react(w, c, cmd) == Ok(e) && e + [] == e;
    }
    assert Cando.RunReactors(rs[2..], p, n, w, c, d) == (e, None) by { Cando.RunReactorsAt(rs, 2, p, n, w, c, d); }
    assert Cando.RunReactors(rs[1..], p, n, w, c, d) == (e, None) by { Cando.RunReactorsAt(rs, 1, p, n, w, c, d); }
    assert Cando.RunReactors(rs[0..], p, n, w, c, d) == (e, None) by { Cando.RunReactorsAt(rs, 0, p, n, w, c, d); }
    assert rs[0..] == rs;
  }

  lemma PressReactors(game: Game, w: World, c: Conn, cmd: Qg.Command)
    requires cmd.PressButton? && Caller(w, c).Some?
    ensures Cando.RunReactors(Reactors(game), Some(Cando.PressButton), [Cando.PlayerJudgment], w, c, Some(cmd)) ==
      ([Qg.ButtonPressed(w.bound[c])], None)
  {
    TurnReactorsSkipped(game, Some(Cando.PressButton), [Cando.PlayerJudgment], w, c, Some(cmd));
    PressReactorsTail(game, w, c, cmd);
  }

  /** The three reactors that filter on the next types only pass over a
      step whose next type none of them names. */
  lemma TurnReactorsSkipped(game: Game, p: Option<Cando.Tag>, n: seq<Cando.Tag>, w: World, c: Conn, d: Option<Qg.Command>)
    requires n != [] && n[0] != Cando.EndReaction && n[0] != Cando.ChooseQuestion && n[0] != Cando.PressButton
    ensures Cando.RunReactors(Reactors(game), p, n, w, c, d) == Cando.RunReactors(Reactors(game)[3..], p, n, w, c, d)
  {
    var rs := Reactors(game);
    Cando.RunReactorsSkip(rs, 2, p, n, w, c, d);
    Cando.RunReactorsSkip(rs, 1, p, n, w, c, d);
    Cando.RunReactorsSkip(rs, 0, p, n, w, c, d);
    assert rs[0..] == rs;
  }

  lemma PressReactorsTail(game: Game, w: World, c: Conn, cmd: Qg.Command)
    requires cmd.PressButton? && Caller(w, c).Some?
    ensures Cando.RunReactors(Reactors(game)[3..], Some(Cando.PressButton), [Cando.PlayerJudgment], w, c, Some(cmd)) ==
      ([Qg.ButtonPressed(w.bound[c])], None)
  {
    var rs, p, n, d := Reactors(game), Some(Cando.PressButton), [Cando.PlayerJudgment], Some(cmd);
    var e := [Qg.ButtonPressed(w.bound[c])];
    assert rs[6..] == [];
    assert Cando.RunReactors(rs[5..], p, n, w, c, d) == (e, None) by {
      Cando.RunReactorsAt(rs, 5, p, n, w, c, d);
      assert rs[5].react(w, c, cmd) == Ok(e) && e + [] == e;
    }
    assert Cando.RunReactors(rs[4..], p, n, w, c, d) == (e, None) by { Cando.RunReactorsAt(rs, 4, p, n, w, c, d); }
    Cando.RunReactorsAt(rs, 3, p, n, w, c, d);
  }

  lemma ChooseReactors(game: Game, w: World, c: Conn, cmd: Qg.Command)
    requires cmd.ChooseQuestion?
    ensures Cando.RunReactors(Reactors(game), Some(Cando.ChooseQuestion), [Cando.PressButton], w, c, Some(cmd)) ==
      var resume := Qg.ResumeButton(AlreadyAnsweredPlayers(w.game));
      if game.data.scoreMultiplier.None? then
        ([resume], Some(Cando.ReactorFailed(Some(Cando.ChooseQuestion), None, Message(NilMultiplier))))
      else
        ([resume, Qg.BeginQuestion(w.game.choosing, cmd.category, cmd.question,
                                   Board.QuestionPoints(game.data, cmd.question))], None)
  {
    if game.data.scoreMultiplier.None? {
      ChooseReactorsFail(game, w, c, cmd);
    } else {
      ChooseReactorsOk(game, w, c, cmd);
    }
  }

  lemma ChooseReactorsOk(game: Game, w: World, c: Conn, cmd: Qg.Command)
    requires cmd.ChooseQuestion? && game.data.scoreMultiplier.Some?
    ensures Cando.RunReactors(Reactors(game), Some(Cando.ChooseQuestion), [Cando.PressButton], w, c, Some(cmd)) ==
      ([Qg.ResumeButton(AlreadyAnsweredPlayers(w.game)),
        Qg.BeginQuestion(w.game.choosing, cmd.category, cmd.question, Board.QuestionPoints(game.data, cmd.question))], None)
  {
    var rs, p, n, d := Reactors(game), Some(Cando.ChooseQuestion), [Cando.PressButton], Some(cmd);
    var resume := Qg.ResumeButton(AlreadyAnsweredPlayers(w.game));
    var e := [Qg.BeginQuestion(w.game.choosing, cmd.category, cmd.question, Board.QuestionPoints(game.data, cmd.question))];
    assert rs[6..] == [];
    assert Cando.RunReactors(rs[5..], p, n, w, c, d) == ([], None) by { Cando.RunReactorsAt(rs, 5, p, n, w, c, d); }
    assert Cando.RunReactors(rs[4..], p, n, w, c, d) == (e, None) by {
      Cando.RunReactorsAt(rs, 4, p, n, w, c, d);
      assert rs[4].react(w, c, cmd) == Ok(e);
      assert e + [] == e;
    }
    assert Cando.RunReactors(rs[3..], p, n, w, c, d) == (e, None) by { Cando.RunReactorsAt(rs, 3, p, n, w, c, d); }
    assert Cando.RunReactors(rs[2..], p, n, w, c, d) == ([resume, e[0]], None) by {
      Cando.RunReactorsAt(rs, 2, p, n, w, c, d);
      assert rs[2].react(w, c, cmd) == Ok([resume]);
      assert [resume] + e == [resume, e[0]];
    }
    assert Cando.RunReactors(rs[1..], p, n, w, c, d) == ([resume, e[0]], None) by { Cando.RunReactorsAt(rs, 1, p, n, w, c, d); }
    assert Cando.RunReactors(rs[0..], p, n, w, c, d) == ([resume, e[0]], None) by { Cando.RunReactorsAt(rs, 0, p, n, w, c, d); }
    assert rs[0..] == rs;
  }

  lemma ChooseReactorsFail(game: Game, w: World, c: Conn, cmd: Qg.Command)
    requires cmd.ChooseQuestion? && game.data.scoreMultiplier.None?
    ensures Cando.RunReactors(Reactors(game), Some(Cando.ChooseQuestion), [Cando.PressButton], w, c, Some(cmd)) ==
      ([Qg.ResumeButton(AlreadyAnsweredPlayers(w.game))],
       Some(Cando.ReactorFailed(Some(Cando.ChooseQuestion), None, Message(NilMultiplier))))
  {
    var rs, p, n, d := Reactors(game), Some(Cando.ChooseQuestion), [Cando.PressButton], Some(cmd);
    var resume := Qg.ResumeButton(AlreadyAnsweredPlayers(w.game));
    var fail := Some(Cando.ReactorFailed(Some(Cando.ChooseQuestion), None, Message(NilMultiplier)));
    ChooseQuestionFails(game, w, c, cmd);
    assert Cando.RunReactors(rs[2..], p, n, w, c, d) == ([resume], fail) by {
      Cando.RunReactorsAt(rs, 2, p, n, w, c, d);
      assert rs[2].react(w, c, cmd) == Ok([resume]);
      assert [resume] + [] == [resume];
    }
    assert Cando.RunReactors(rs[1..], p, n, w, c, d) == ([resume], fail) by { Cando.RunReactorsAt(rs, 1, p, n, w, c, d); }
    assert Cando.RunReactors(rs[0..], p, n, w, c, d) == ([resume], fail) by { Cando.RunReactorsAt(rs, 0, p, n, w, c, d); }
    assert rs[0..] == rs;
  }

  /** Without a multiplier the question announcement fails. */
  lemma ChooseQuestionFails(game: Game, w: World, c: Conn, cmd: Qg.Command)
    requires cmd.ChooseQuestion? && game.data.scoreMultiplier.None?
    ensures Cando.RunReactors(Reactors(game)[3..], Some(Cando.ChooseQuestion), [Cando.PressButton], w, c, Some(cmd)) ==
      ([], Some(Cando.ReactorFailed(Some(Cando.ChooseQuestion), None, Message(NilMultiplier))))
  {
    var rs, p, n, d := Reactors(game), Some(Cando.ChooseQuestion), [Cando.PressButton], Some(cmd);
    assert rs[6..] == [];
    Cando.RunReactorsAt(rs, 4, p, n, w, c, d);
    assert rs[4].react(w, c, cmd) == Err(Message(NilMultiplier));
    Cando.RunReactorsAt(rs, 3, p, n, w, c, d);
  }

  lemma TurnReactors(game: Game, t: Cando.Tag, n: seq<Cando.Tag>, w: World, c: Conn, cmd: Qg.Command)
    requires (t == Cando.BeginGame || t == Cando.PlayerJudgment) && Qg.TagOf(cmd) == t
    requires n == [Cando.ChooseQuestion] || n == [Cando.EndReaction]
    ensures Cando.RunReactors(Reactors(game), Some(t), n, w, c, Some(cmd)) ==
      (if Cando.Terminal(n) then [Qg.GameEnded(Leaderboard(w.game))]
       else [Qg.TurnEnded(w.game.choosing, Leaderboard(w.game))], None)
  {
    if Cando.Terminal(n) {
      EndReactors(game, t, w, c, cmd);
    } else {
      NextTurnReactors(game, t, w, c, cmd);
    }
  }

  lemma EndReactors(game: Game, t: Cando.Tag, w: World, c: Conn, cmd: Qg.Command)
    requires (t == Cando.BeginGame || t == Cando.PlayerJudgment) && Qg.TagOf(cmd) == t
    ensures Cando.RunReactors(Reactors(game), Some(t), [Cando.EndReaction], w, c, Some(cmd)) ==
      ([Qg.GameEnded(Leaderboard(w.game))], None)
  {
    var rs, p, n, d := Reactors(game), Some(t), [Cando.EndReaction], Some(cmd);
    var e := [Qg.GameEnded(Leaderboard(w.game))];
    assert rs[6..] == [];
    assert Cando.RunReactors(rs[5..], p, n, w, c, d) == ([], None) by { Cando.RunReactorsAt(rs, 5, p, n, w, c, d); }
    assert Cando.RunReactors(rs[4..], p, n, w, c, d) == ([], None) by { Cando.RunReactorsAt(rs, 4, p, n, w, c, d); }
    assert Cando.RunReactors(rs[3..], p, n, w, c, d) == ([], None) by { Cando.RunReactorsAt(rs, 3, p, n, w, c, d); }
    assert Cando.RunReactors(rs[2..], p, n, w, c, d) == ([], None) by { Cando.RunReactorsAt(rs, 2, p, n, w, c, d); }
    assert Cando.RunReactors(rs[1..], p, n, w, c, d) == ([], None) by { Cando.RunReactorsAt(rs, 1, p, n, w, c, d); }
    assert Cando.RunReactors(rs[0..], p, n, w, c, d) == (e, None) by {
      Cando.RunReactorsAt(rs, 0, p, n, w, c, d);
      assert rs[0].react(w, c, cmd) == Ok(e) && e + [] == e;
    }
    assert rs[0..] == rs;
  }

  lemma NextTurnReactors(game: Game, t: Cando.Tag, w: World, c: Conn, cmd: Qg.Command)
    requires (t == Cando.BeginGame || t == Cando.PlayerJudgment) && Qg.TagOf(cmd) == t
    ensures Cando.RunReactors(Reactors(game), Some(t), [Cando.ChooseQuestion], w, c, Some(cmd)) ==
      ([Qg.TurnEnded(w.game.choosing, Leaderboard(w.game))], None)
  {
    var rs, p, n, d := Reactors(game), Some(t), [Cando.ChooseQuestion], Some(cmd);
    var e := [Qg.TurnEnded(w.game.choosing, Leaderboard(w.game))];
    assert rs[6..] == [];
    assert Cando.RunReactors(rs[5..], p, n, w, c, d) == ([], None) by { Cando.RunReactorsAt(rs, 5, p, n, w, c, d); }
    assert Cando.RunReactors(rs[4..], p, n, w, c, d) == ([], None) by { Cando.RunReactorsAt(rs, 4, p, n, w, c, d); }
    assert Cando.RunReactors(rs[3..], p, n, w, c, d) == ([], None) by { Cando.RunReactorsAt(rs, 3, p, n, w, c, d); }
    assert Cando.RunReactors(rs[2..], p, n, w, c, d) == ([], None) by { Cando.RunReactorsAt(rs, 2, p, n, w, c, d); }
    assert Cando.RunReactors(rs[1..], p, n, w, c, d) == (e, None) by {
      Cando.RunReactorsAt(rs, 1, p, n, w, c, d);
      assert rs[1].react(w, c, cmd) == Ok(e) && e + [] == e;
    }
    assert Cando.RunReactors(rs[0..], p, n, w, c, d) == (e, None) by { Cando.RunReactorsAt(rs, 0, p, n, w, c, d); }
    assert rs[0..] == rs;
  }
}
