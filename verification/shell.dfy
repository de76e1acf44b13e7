/**
 * The generic game shell (backend/qg/games/machine.go): the states and
 * reactors every game shares — joining, beginning, announcing the end — put
 * in front of a game's own states and reactors on one engine.
 *
 * A connection's handle is a `Conn`; the handle's player pointer becomes the
 * `handles` map of the world. The game behind the shell is a record of its
 * ID, its immutable board, the function that summarises a board, the
 * password oracle, its BeginGame entry point and its leaderboard, both over
 * the shared world. Events carry their audience: the handle's own publisher
 * or the broadcast publisher.
 */
module Shell {
  import opened Wrappers
  import Cando
  import Board
  import Qg
  import PubSub

  type PlayerName = Qg.PlayerName
  type Conn = nat

  datatype PlayerState = PlayerState(name: PlayerName, isAdmin: bool)

  /** The shared world: the players by name, the player each handle is
      bound to, and the game's own state `G`. */
  datatype World<!G> = World(players: map<PlayerName, PlayerState>, handles: map<Conn, PlayerName>, game: G)

  /** An event and who receives it. */
  datatype Delivery = ToSelf(event: Qg.Event) | ToAll(event: Qg.Event)

  /** What the shell needs from a game. */
  datatype GameManager<!G> = GameManager(
    id: Qg.GameID,
    data: Board.JeopardyGameData,
    summarize: Board.JeopardyGameData -> Board.JeopardyGameInfo,  // qg.GameInfoFromData
    compare: string -> Result<bool, string>,
    begin: (World<G>, Conn) -> Result<(World<G>, seq<Cando.Tag>), string>,
    leaderboard: World<G> -> seq<Qg.LeaderboardEntry>)

  type ShellState<!G> = Cando.State<World<G>, Conn, Qg.Command>
  type ShellReactor<!G> = Cando.Reactor<World<G>, Conn, Qg.Command, Delivery>
  type ShellMachine<!G> = Cando.Machine<World<G>, Conn, Qg.Command, Delivery>

  /** The machine state a game fills in before starting: the players and the
      game's own states and reactors, in the order they were added. */
  datatype MachineState<!G> = MachineState(
    players: map<PlayerName, PlayerState>,
    states: seq<ShellState<G>>,
    reactors: seq<ShellReactor<G>>)

  datatype ShellError =
    | CompareFailed(msg: string)  // "failed to compare game password"
    | InvalidPassword             // "invalid admin password"
    | PlayerExists                // "player already exists"
    | NotAdmin                    // "only admins can begin the game"
    | NilPlayer                   // the handle's nil player dereferenced: a Go panic

  function Message(e: ShellError): string {
    match e
    case CompareFailed(msg) => "failed to compare game password: " + msg
    case InvalidPassword => "invalid admin password"
    case PlayerExists => "player already exists"
    case NotAdmin => "only admins can begin the game"
    case NilPlayer => "panic: nil player"
  }

  /** The player a handle is bound to, nil before its JoinGame succeeded. */
  function Self<G>(w: World<G>, c: Conn): (r: Option<PlayerState>)
    ensures r.Some? <==> c in w.handles && w.handles[c] in w.players
    ensures r.Some? ==> r.value == w.players[w.handles[c]]
  {
    if c in w.handles && w.handles[c] in w.players then Some(w.players[w.handles[c]]) else None
  }

  // ---------------------------------------------------------------------------
  // Built-in states
  // ---------------------------------------------------------------------------

  /** JoinGame: a supplied admin password must be confirmed first; then a
      name already taken is refused; otherwise exactly one player is added,
      admin exactly when a password was supplied, and the handle is bound to
      it. */
  function JoinGame<G>(game: GameManager<G>, w: World<G>, c: Conn, name: PlayerName, password: Option<string>)
    : (r: Result<(World<G>, seq<Cando.Tag>), string>)
    ensures password.Some? && game.compare(password.value).Err? ==>
      r == Err(Message(CompareFailed(game.compare(password.value).error)))
    ensures password.Some? && game.compare(password.value) == Ok(false) ==> r == Err(Message(InvalidPassword))
    ensures (password.None? || game.compare(password.value) == Ok(true)) && name in w.players ==>
      r == Err(Message(PlayerExists))
    ensures r.Ok? <==> (password.None? || game.compare(password.value) == Ok(true)) && name !in w.players
    ensures r.Ok? ==>
      && r.value.0 == World(w.players[name := PlayerState(name, password.Some?)], w.handles[c := name], w.game)
      && r.value.1 == [Cando.JoinGame, Cando.BeginGame]
  {
    var admin: Result<bool, ShellError> :=
      if password.None? then Ok(false)
      else match game.compare(password.value)
        case Err(msg) => Err(CompareFailed(msg))
        case Ok(ok) => if !ok then Err(InvalidPassword) else Ok(true);
    if admin.Err? then Err(Message(admin.error))
    else if name in w.players then Err(Message(PlayerExists))
    else
      Ok((World(w.players[name := PlayerState(name, admin.value)], w.handles[c := name], w.game),
          [Cando.JoinGame, Cando.BeginGame]))
  }

  /** BeginGame: only an admin may begin; the rest is the game's. */
  function BeginGame<G>(game: GameManager<G>, w: World<G>, c: Conn): (r: Result<(World<G>, seq<Cando.Tag>), string>)
    ensures Self(w, c).None? ==> r == Err(Message(NilPlayer))
    ensures Self(w, c).Some? && !Self(w, c).value.isAdmin ==> r == Err(Message(NotAdmin))
    ensures Self(w, c).Some? && Self(w, c).value.isAdmin ==> r == game.begin(w, c)
  {
    match Self(w, c)
    case None => Err(Message(NilPlayer))
    case Some(p) => if !p.isAdmin then Err(Message(NotAdmin)) else game.begin(w, c)
  }

  /** The built-in states in registration order. The engine calls a state
      only with a command of its own type, so the other arms are never
      taken. */
  function BuiltinStates<G>(game: GameManager<G>): seq<ShellState<G>> {
    [Cando.State(Cando.JoinGame, (w: World<G>, c: Conn, cmd: Qg.Command) =>
       if cmd.JoinGame? then JoinGame(game, w, c, cmd.playerName, cmd.password) else Err("")),
     Cando.State(Cando.BeginGame, (w: World<G>, c: Conn, cmd: Qg.Command) => BeginGame(game, w, c))]
  }

  // ---------------------------------------------------------------------------
  // Built-in reactors
  // ---------------------------------------------------------------------------

  /** What the joiner alone is told: the game, and its board exactly when the
      joiner is an admin. */
  function JoinedGameEvent<G>(game: GameManager<G>, p: PlayerState): (e: Qg.Event)
    ensures e.JoinedGame? && e.gameId == game.id && e.info == game.summarize(game.data)
    ensures e.data.Some? <==> p.isAdmin
    ensures e.isAdmin <==> e.data.Some?
    ensures e.data.Some? ==> e.data.value == game.data
  {
    var gameData := if p.isAdmin then Some(game.data) else None;
    Qg.JoinedGame(game.id, game.summarize(game.data), gameData, gameData.Some?)
  }

  /** Every player but `name`, in the order Go's map iteration yields them. */
  ghost function Others<G>(w: World<G>, name: PlayerName): (r: seq<PlayerName>)
    ensures forall n :: n in r <==> n in w.players && n != name
    ensures |r| == |w.players.Keys - {name}|
    ensures forall i, j :: 0 <= i < j < |r| ==> r[i] != r[j]
  {
    Qg.SetToSeq(w.players.Keys - {name})
  }

  /** The announcement of a join: everyone hears of the joiner, then the
      joiner alone hears of each other player. */
  ghost function JoinAnnouncements<G>(w: World<G>, name: PlayerName): (r: seq<Delivery>)
    ensures |r| == 1 + |Others(w, name)|
    ensures r[0] == ToAll(Qg.PlayerJoined(name))
    ensures forall i :: 1 <= i < |r| ==> r[i] == ToSelf(Qg.PlayerJoined(Others(w, name)[i - 1]))
  {
    var others := Others(w, name);
    [ToAll(Qg.PlayerJoined(name))] + seq(|others|, i requires 0 <= i < |others| => ToSelf(Qg.PlayerJoined(others[i])))
  }

  /** The built-in reactors in registration order. */
  ghost function BuiltinReactors<G>(game: GameManager<G>): seq<ShellReactor<G>> {
    [Cando.Reactor(Some(Cando.JoinGame), None, (w: World<G>, c: Conn, cmd: Qg.Command) =>
       match Self(w, c)
       case None => Err(Message(NilPlayer))
       case Some(p) => Ok([ToSelf(JoinedGameEvent(game, p))])),
     Cando.Reactor(Some(Cando.JoinGame), None, (w: World<G>, c: Conn, cmd: Qg.Command) =>
       Ok(if cmd.JoinGame? then JoinAnnouncements(w, cmd.playerName) else [])),
     Cando.Reactor(Some(Cando.BeginGame), None, (w: World<G>, c: Conn, cmd: Qg.Command) =>
       Ok([ToAll(Qg.GameStarted)])),
     Cando.Reactor(None, Some(Cando.EndReaction), (w: World<G>, c: Conn, cmd: Qg.Command) =>
       Ok([ToAll(Qg.GameEnded(game.leaderboard(w)))]))]
  }

  // ---------------------------------------------------------------------------
  // StartMachine
  // ---------------------------------------------------------------------------

  /** The machine data: built-in states and reactors first, the game's after
      them. */
  ghost function MachineData<G>(s: MachineState<G>, game: GameManager<G>): Cando.MachineData<World<G>, Conn, Qg.Command, Delivery> {
    Cando.MachineData([Cando.JoinGame], BuiltinStates(game) + s.states, BuiltinReactors(game) + s.reactors, Qg.TagOf)
  }

  /** StartMachine: builds the machine over the players gathered so far and
      the game's initial state, and starts it; a failed start returns no
      machine. The events published while starting are returned as well. */
  ghost function StartMachine<G>(s: MachineState<G>, game: GameManager<G>, g0: G, c: Conn)
    : (r: (Result<ShellMachine<G>, Cando.EngineError>, seq<Delivery>))
    ensures r.0.Ok? ==>
      && r.0.value.data == MachineData(s, game)
      && r.0.value.table == Cando.Index(MachineData(s, game).states)
      && r.0.value.current == Cando.AtInit
      && r.0.value.next == [Cando.JoinGame]
      && r.0.value.world == World(s.players, map[], g0)
    ensures r.0.Ok? <==>
      forall i :: 0 <= i < |s.reactors| ==> !Cando.Matches(s.reactors[i], None, [Cando.JoinGame])
    ensures r.0.Err? ==> r.0.error == Cando.NilDataPanic
    ensures r.1 == []
  {
    var m := Cando.NewMachine(MachineData(s, game), World(s.players, map[], g0));
    Cando.StartFiresOnlyWildcardPrev(m, c);
    var rs := BuiltinReactors(game) + s.reactors;
    assert forall i :: 0 <= i < 4 ==> !Cando.Matches(rs[i], None, [Cando.JoinGame]);
    assert forall i :: 0 <= i < |s.reactors| ==> rs[4 + i] == s.reactors[i];
    var out := Cando.Start(m, c);
    (if out.err.Some? then Err(out.err.value) else Ok(out.machine), out.events)
  }

  // ---------------------------------------------------------------------------
  // Properties
  // ---------------------------------------------------------------------------

  /** No state of the game takes over a built-in command type. */
  predicate KeepsBuiltins<G>(s: MachineState<G>) {
    forall i :: 0 <= i < |s.states| ==> s.states[i].tag != Cando.JoinGame && s.states[i].tag != Cando.BeginGame
  }

  /** A started shell machine. */
  ghost predicate Running<G>(s: MachineState<G>, game: GameManager<G>, m: ShellMachine<G>) {
    && m.data == MachineData(s, game)
    && m.table == Cando.Index(MachineData(s, game).states)
    && m.current != Cando.Unstarted
  }

  /** The built-ins sit in front of the game's own states and reactors, so a
      game state of a built-in type replaces the built-in one, and otherwise
      the built-in states handle JoinGame and BeginGame. */
  lemma BuiltinsFirst<G>(s: MachineState<G>, game: GameManager<G>)
    ensures var d := MachineData(s, game);
      && d.states[..2] == BuiltinStates(game) && d.states[2..] == s.states
      && d.reactors[..4] == BuiltinReactors(game) && d.reactors[4..] == s.reactors
    ensures KeepsBuiltins(s) ==>
      var t := Cando.Index(MachineData(s, game).states);
      && Cando.JoinGame in t && t[Cando.JoinGame] == BuiltinStates(game)[0]
      && Cando.BeginGame in t && t[Cando.BeginGame] == BuiltinStates(game)[1]
    ensures forall i :: 0 <= i < |s.states| && s.states[i].tag == Cando.JoinGame &&
                        (forall j :: i < j < |s.states| ==> s.states[j].tag != Cando.JoinGame) ==>
      Cando.Index(MachineData(s, game).states)[Cando.JoinGame] == s.states[i]
  {
    var ss := MachineData(s, game).states;
    assert forall i :: 0 <= i < |s.states| ==> ss[2 + i] == s.states[i];
    if KeepsBuiltins(s) {
      assert ss[0] == BuiltinStates(game)[0] && ss[1] == BuiltinStates(game)[1];
      assert forall j :: 0 < j < |ss| ==> ss[j].tag != Cando.JoinGame by {
        forall j | 0 < j < |ss| ensures ss[j].tag != Cando.JoinGame {
          if j >= 2 { assert ss[j] == s.states[j - 2]; }
        }
      }
      assert forall j :: 1 < j < |ss| ==> ss[j].tag != Cando.BeginGame by {
        forall j | 1 < j < |ss| ensures ss[j].tag != Cando.BeginGame {
          assert ss[j] == s.states[j - 2];
        }
      }
    }
    forall i | 0 <= i < |s.states| && s.states[i].tag == Cando.JoinGame &&
               (forall j :: i < j < |s.states| ==> s.states[j].tag != Cando.JoinGame)
      ensures Cando.Index(ss)[Cando.JoinGame] == s.states[i]
    {
      assert ss[2 + i] == s.states[i];
      assert forall j :: 2 + i < j < |ss| ==> ss[j].tag != Cando.JoinGame by {
        forall j | 2 + i < j < |ss| ensures ss[j].tag != Cando.JoinGame {
          assert ss[j] == s.states[j - 2];
        }
      }
    }
  }

  /** A JoinGame the handler refuses (password not confirmed, name taken)
      changes nothing and publishes nothing. */
  lemma RefusedJoinChangesNothing<G>(s: MachineState<G>, game: GameManager<G>, m: ShellMachine<G>, c: Conn,
                                     cmd: Qg.Command)
    requires Running(s, game, m) && KeepsBuiltins(s) && cmd.JoinGame? && Cando.JoinGame in m.next
    requires JoinGame(game, m.world, c, cmd.playerName, cmd.password).Err?
    ensures Cando.Change(m, c, cmd) ==
      Cando.Outcome(m, [], Some(Cando.HandlerFailed(JoinGame(game, m.world, c, cmd.playerName, cmd.password).error)))
  {
    BuiltinsFirst(s, game);
  }

  /** A JoinGame the handler accepts adds exactly the joiner, binds the
      handle to it, and awaits another join or the start. */
  lemma AcceptedJoinAddsOnePlayer<G>(s: MachineState<G>, game: GameManager<G>, m: ShellMachine<G>, c: Conn,
                                     cmd: Qg.Command)
    requires Running(s, game, m) && KeepsBuiltins(s) && cmd.JoinGame? && Cando.JoinGame in m.next
    requires JoinGame(game, m.world, c, cmd.playerName, cmd.password).Ok?
    ensures var m' := Cando.Change(m, c, cmd).machine;
      && cmd.playerName !in m.world.players
      && m'.world.players.Keys == m.world.players.Keys + {cmd.playerName}
      && m'.world.players[cmd.playerName] == PlayerState(cmd.playerName, cmd.password.Some?)
      && m'.world.handles == m.world.handles[c := cmd.playerName]
      && m'.world.game == m.world.game
      && m'.next == [Cando.JoinGame, Cando.BeginGame]
  {
    JoinStep(s, game, m, c, cmd);
  }

  /** BeginGame is refused for a non-admin with nothing changed; for an admin
      the step is exactly the game's own BeginGame. */
  lemma BeginGameIsTheGames<G>(s: MachineState<G>, game: GameManager<G>, m: ShellMachine<G>, c: Conn)
    requires Running(s, game, m) && KeepsBuiltins(s) && Cando.BeginGame in m.next
    requires Self(m.world, c).Some?
    ensures !Self(m.world, c).value.isAdmin ==>
      Cando.Change(m, c, Qg.BeginGame) == Cando.Outcome(m, [], Some(Cando.HandlerFailed(Message(NotAdmin))))
    ensures Self(m.world, c).value.isAdmin && game.begin(m.world, c).Ok? ==>
      var (w', nexts) := game.begin(m.world, c).value;
      var m' := Cando.Change(m, c, Qg.BeginGame).machine;
      m'.world == w' && m'.next == Cando.Committed(nexts) && m'.current == Cando.At(Cando.BeginGame)
  {
    BuiltinsFirst(s, game);
  }

  /** The built-in reactors after an accepted JoinGame. */
  lemma JoinBuiltinEvents<G>(game: GameManager<G>, w: World<G>, c: Conn, cmd: Qg.Command)
    requires cmd.JoinGame? && Self(w, c).Some?
    ensures Cando.RunReactors(BuiltinReactors(game), Some(Cando.JoinGame), [Cando.JoinGame, Cando.BeginGame], w, c, Some(cmd)) ==
      ([ToSelf(JoinedGameEvent(game, Self(w, c).value))] + JoinAnnouncements(w, cmd.playerName), None)
  {
    var rs, p, n, d := BuiltinReactors(game), Some(Cando.JoinGame), [Cando.JoinGame, Cando.BeginGame], Some(cmd);
    var e0 := [ToSelf(JoinedGameEvent(game, Self(w, c).value))];
    var e1 := JoinAnnouncements(w, cmd.playerName);
    assert rs[4..] == [];
    assert Cando.RunReactors(rs[3..], p, n, w, c, d) == ([], None) by { Cando.RunReactorsAt(rs, 3, p, n, w, c, d); }
    assert Cando.RunReactors(rs[2..], p, n, w, c, d) == ([], None) by { Cando.RunReactorsAt(rs, 2, p, n, w, c, d); }
    assert Cando.RunReactors(rs[1..], p, n, w, c, d) == (e1, None) by {
      Cando.RunReactorsAt(rs, 1, p, n, w, c, d);
      assert rs[1].react(w, c, cmd) == Ok(e1) && e1 + [] == e1;
    }
    assert Cando.RunReactors(rs[0..], p, n, w, c, d) == (e0 + e1, None) by {
      Cando.RunReactorsAt(rs, 0, p, n, w, c, d);
      assert rs[0].react(w, c, cmd) == Ok(e0);
    }
    assert rs[0..] == rs;
  }

  /** The built-in reactors after an accepted BeginGame. */
  lemma BeginBuiltinEvents<G>(game: GameManager<G>, n: seq<Cando.Tag>, w: World<G>, c: Conn)
    requires n != []
    ensures Cando.RunReactors(BuiltinReactors(game), Some(Cando.BeginGame), n, w, c, Some(Qg.BeginGame)) ==
      ([ToAll(Qg.GameStarted)] + (if n[0] == Cando.EndReaction then [ToAll(Qg.GameEnded(game.leaderboard(w)))] else []), None)
  {
    var rs, p, d := BuiltinReactors(game), Some(Cando.BeginGame), Some(Qg.BeginGame);
    var e3: seq<Delivery> := if n[0] == Cando.EndReaction then [ToAll(Qg.GameEnded(game.leaderboard(w)))] else [];
    assert rs[4..] == [];
    assert Cando.RunReactors(rs[3..], p, n, w, c, d) == (e3, None) by {
      Cando.RunReactorsAt(rs, 3, p, n, w, c, d);
      assert e3 + [] == e3;
    }
    assert Cando.RunReactors(rs[2..], p, n, w, c, d) == ([ToAll(Qg.GameStarted)] + e3, None) by {
      Cando.RunReactorsAt(rs, 2, p, n, w, c, d);
    }
    assert Cando.RunReactors(rs[1..], p, n, w, c, d) == ([ToAll(Qg.GameStarted)] + e3, None) by {
      Cando.RunReactorsAt(rs, 1, p, n, w, c, d);
    }
    assert Cando.RunReactors(rs[0..], p, n, w, c, d) == ([ToAll(Qg.GameStarted)] + e3, None) by {
      Cando.RunReactorsAt(rs, 0, p, n, w, c, d);
    }
    assert rs[0..] == rs;
  }

  /** Game reactors that do not match leave the built-ins' outcome as it is. */
  lemma GameReactorsSilent<G>(s: MachineState<G>, game: GameManager<G>, p: Option<Cando.Tag>, n: seq<Cando.Tag>,
                              w: World<G>, c: Conn, d: Option<Qg.Command>)
    requires forall i :: 0 <= i < |s.reactors| ==> !Cando.Matches(s.reactors[i], p, n)
    ensures Cando.RunReactors(MachineData(s, game).reactors, p, n, w, c, d) ==
      Cando.RunReactors(BuiltinReactors(game), p, n, w, c, d)
  {
    Cando.RunReactorsAppend(BuiltinReactors(game), s.reactors, p, n, w, c, d);
    var ra := Cando.RunReactors(BuiltinReactors(game), p, n, w, c, d);
    assert ra.0 + [] == ra.0;
  }

  /** After an accepted JoinGame the joiner alone receives the game, with the
      board exactly when it is an admin; then everyone hears of the joiner;
      then the joiner hears of every other player once. */
  lemma JoinAnnouncesToSelfAndAll<G>(s: MachineState<G>, game: GameManager<G>, m: ShellMachine<G>, c: Conn,
                                     cmd: Qg.Command)
    requires Running(s, game, m) && KeepsBuiltins(s) && cmd.JoinGame? && Cando.JoinGame in m.next
    requires JoinGame(game, m.world, c, cmd.playerName, cmd.password).Ok?
    requires forall i :: 0 <= i < |s.reactors| ==>
      !Cando.Matches(s.reactors[i], Some(Cando.JoinGame), [Cando.JoinGame, Cando.BeginGame])
    ensures var r := Cando.Change(m, c, cmd);
      var others := Others(r.machine.world, cmd.playerName);
      && r.err == None
      && |r.events| == 2 + |others|
      && r.events[0] == ToSelf(JoinedGameEvent(game, PlayerState(cmd.playerName, cmd.password.Some?)))
      && r.events[1] == ToAll(Qg.PlayerJoined(cmd.playerName))
      && (forall i :: 2 <= i < |r.events| ==> r.events[i] == ToSelf(Qg.PlayerJoined(others[i - 2])))
      && (forall n :: n in m.world.players <==> n in others)
  {
    var me := PlayerState(cmd.playerName, cmd.password.Some?);
    var w' := World(m.world.players[cmd.playerName := me], m.world.handles[c := cmd.playerName], m.world.game);
    JoinStep(s, game, m, c, cmd);
    JoinReactorsOutcome(s, game, w', c, cmd);
  }

  /** An accepted JoinGame commits the handler's world and then reacts. */
  lemma JoinStep<G>(s: MachineState<G>, game: GameManager<G>, m: ShellMachine<G>, c: Conn, cmd: Qg.Command)
    requires Running(s, game, m) && KeepsBuiltins(s) && cmd.JoinGame? && Cando.JoinGame in m.next
    requires JoinGame(game, m.world, c, cmd.playerName, cmd.password).Ok?
    ensures var me := PlayerState(cmd.playerName, cmd.password.Some?);
      var w' := World(m.world.players[cmd.playerName := me], m.world.handles[c := cmd.playerName], m.world.game);
      Cando.Change(m, c, cmd) ==
        Cando.React(m.(current := Cando.At(Cando.JoinGame), currentData := Some(cmd),
                       next := [Cando.JoinGame, Cando.BeginGame], world := w'), c)
  {
    BuiltinsFirst(s, game);
  }

  /** The reactors' outcome in the world an accepted JoinGame left. */
  lemma JoinReactorsOutcome<G>(s: MachineState<G>, game: GameManager<G>, w: World<G>, c: Conn, cmd: Qg.Command)
    requires cmd.JoinGame? && c in w.handles && w.handles[c] == cmd.playerName && cmd.playerName in w.players
    requires forall i :: 0 <= i < |s.reactors| ==>
      !Cando.Matches(s.reactors[i], Some(Cando.JoinGame), [Cando.JoinGame, Cando.BeginGame])
    ensures var r := Cando.RunReactors(MachineData(s, game).reactors, Some(Cando.JoinGame),
                                       [Cando.JoinGame, Cando.BeginGame], w, c, Some(cmd));
      var others := Others(w, cmd.playerName);
      && r.1 == None
      && |r.0| == 2 + |others|
      && r.0[0] == ToSelf(JoinedGameEvent(game, w.players[cmd.playerName]))
      && r.0[1] == ToAll(Qg.PlayerJoined(cmd.playerName))
      && (forall i :: 2 <= i < |r.0| ==> r.0[i] == ToSelf(Qg.PlayerJoined(others[i - 2])))
  {
    GameReactorsSilent(s, game, Some(Cando.JoinGame), [Cando.JoinGame, Cando.BeginGame], w, c, Some(cmd));
    JoinBuiltinEvents(game, w, c, cmd);
  }

  /** After an admin's accepted BeginGame everyone hears that the game
      started, and, when the game's BeginGame answered nil (or put the
      terminal marker first), that it ended, with the leaderboard of the
      world the game's BeginGame left. */
  lemma BeginAnnouncesStart<G>(s: MachineState<G>, game: GameManager<G>, m: ShellMachine<G>, c: Conn)
    requires Running(s, game, m) && KeepsBuiltins(s) && Cando.BeginGame in m.next
    requires Self(m.world, c).Some? && Self(m.world, c).value.isAdmin && game.begin(m.world, c).Ok?
    requires var n := Cando.Committed(game.begin(m.world, c).value.1);
      forall i :: 0 <= i < |s.reactors| ==> !Cando.Matches(s.reactors[i], Some(Cando.BeginGame), n)
    ensures var r := Cando.Change(m, c, Qg.BeginGame);
      var nexts := game.begin(m.world, c).value.1;
      && r.err == None
      && r.machine.world == game.begin(m.world, c).value.0
      && r.events == [ToAll(Qg.GameStarted)] +
           (if nexts == [] || nexts[0] == Cando.EndReaction then [ToAll(Qg.GameEnded(game.leaderboard(r.machine.world)))] else [])
  {
    BuiltinsFirst(s, game);
    var (w', nexts) := game.begin(m.world, c).value;
    var n := Cando.Committed(nexts);
    var m' := m.(current := Cando.At(Cando.BeginGame), currentData := Some(Qg.BeginGame), next := n, world := w');
    assert Cando.Change(m, c, Qg.BeginGame) == Cando.React(m', c);
    GameReactorsSilent(s, game, Some(Cando.BeginGame), n, w', c, Some(Qg.BeginGame));
    BeginBuiltinEvents(game, n, w', c);
  }

  /** The built-in reactors after a step of a game's own state that ended
      the game: only the End reactor fires, announcing the leaderboard. */
  lemma EndBuiltinEvents<G>(game: GameManager<G>, p: Option<Cando.Tag>, n: seq<Cando.Tag>, w: World<G>, c: Conn,
                            d: Option<Qg.Command>)
    requires p != Some(Cando.JoinGame) && p != Some(Cando.BeginGame)
    requires n != [] && n[0] == Cando.EndReaction && d.Some?
    ensures Cando.RunReactors(BuiltinReactors(game), p, n, w, c, d) == ([ToAll(Qg.GameEnded(game.leaderboard(w)))], None)
  {
    var rs, e := BuiltinReactors(game), [ToAll(Qg.GameEnded(game.leaderboard(w)))];
    assert rs[4..] == [];
    assert Cando.RunReactors(rs[3..], p, n, w, c, d) == (e, None) by {
      Cando.RunReactorsAt(rs, 3, p, n, w, c, d);
      assert e + [] == e;
    }
    Cando.RunReactorsSkip(rs, 2, p, n, w, c, d);
    Cando.RunReactorsSkip(rs, 1, p, n, w, c, d);
    Cando.RunReactorsSkip(rs, 0, p, n, w, c, d);
    assert rs[0..] == rs;
  }

  /** Whatever the game's own reactors do, a step that ends the game first
      announces the end to everyone, with the leaderboard of the world the
      step left. */
  lemma EndReactorFiresFirst<G>(s: MachineState<G>, game: GameManager<G>, p: Option<Cando.Tag>, n: seq<Cando.Tag>,
                                w: World<G>, c: Conn, d: Option<Qg.Command>)
    requires p != Some(Cando.JoinGame) && p != Some(Cando.BeginGame)
    requires n != [] && n[0] == Cando.EndReaction && d.Some?
    ensures var r := Cando.RunReactors(MachineData(s, game).reactors, p, n, w, c, d);
      |r.0| > 0 && r.0[0] == ToAll(Qg.GameEnded(game.leaderboard(w)))
  {
    EndBuiltinEvents(game, p, n, w, c, d);
    Cando.RunReactorsAppend(BuiltinReactors(game), s.reactors, p, n, w, c, d);
  }

  /** A game's own state whose handler answers nil (or puts the terminal
      marker first) ends the game: the marker heads the next types (it is all
      of them for a nil answer), and the first event of that step tells
      everyone the game ended, with the leaderboard of the world the handler
      left. */
  lemma GameStateEndAnnounced<G>(s: MachineState<G>, game: GameManager<G>, m: ShellMachine<G>, c: Conn,
                                 cmd: Qg.Command)
    requires Running(s, game, m) && Cando.Admits(m, cmd)
    requires !cmd.JoinGame? && !cmd.BeginGame?
    requires m.table[Qg.TagOf(cmd)].enter(m.world, c, cmd).Ok?
    requires var nexts := m.table[Qg.TagOf(cmd)].enter(m.world, c, cmd).value.1;
      nexts == [] || nexts[0] == Cando.EndReaction
    ensures var r := Cando.Change(m, c, cmd);
      var w' := m.table[Qg.TagOf(cmd)].enter(m.world, c, cmd).value.0;
      && r.machine.next != [] && r.machine.next[0] == Cando.EndReaction
      && (m.table[Qg.TagOf(cmd)].enter(m.world, c, cmd).value.1 == [] ==> Cando.Terminal(r.machine.next))
      && r.machine.world == w'
      && |r.events| > 0 && r.events[0] == ToAll(Qg.GameEnded(game.leaderboard(w')))
  {
    var (w', nexts) := m.table[Qg.TagOf(cmd)].enter(m.world, c, cmd).value;
    var t := Qg.TagOf(cmd);
    Cando.ChangeCommitsThenReacts(m, c, cmd);
    EndReactorFiresFirst(s, game, Some(t), Cando.Committed(nexts), w', c, Some(cmd));
  }

  // ---------------------------------------------------------------------------
  // Connections
  // ---------------------------------------------------------------------------

  /** A started game as connections see it: the broadcast publisher, whose
      subscribers are the handles' own publishers, and the engine. */
  datatype Session<!G> = Session(broadcast: PubSub.Publisher<Conn>, machine: ShellMachine<G>)

  /** NewCommandHandler: a new handle whose own publisher joins the
      broadcast. */
  function Connect<G>(sn: Session<G>, c: Conn): (r: Session<G>)
    ensures r.machine == sn.machine
    ensures r.broadcast.subs == sn.broadcast.subs + {c}
  {
    sn.(broadcast := PubSub.Subscribe(sn.broadcast, c))
  }

  /** HandleCommand: the command goes to the engine with the handle as the
      caller; the subscriptions are untouched. */
  function HandleCommand<G>(sn: Session<G>, c: Conn, cmd: Qg.Command): (r: (Session<G>, seq<Delivery>, Option<Cando.EngineError>))
    ensures r.0.broadcast == sn.broadcast
    ensures var o := Cando.Change(sn.machine, c, cmd); r.0.machine == o.machine && r.1 == o.events && r.2 == o.err
  {
    var o := Cando.Change(sn.machine, c, cmd);
    (sn.(machine := o.machine), o.events, o.err)
  }

  /** Close: the handle's publisher leaves the broadcast; the player stays in
      the game. */
  function Disconnect<G>(sn: Session<G>, c: Conn): (r: Session<G>)
    ensures r.machine == sn.machine
    ensures r.broadcast.subs == sn.broadcast.subs - {c}
  {
    sn.(broadcast := PubSub.Unsubscribe(sn.broadcast, c))
  }

  /** The handles an event reaches: its own handle, or every handle
      subscribed to the broadcast. */
  function Recipients<G>(sn: Session<G>, c: Conn, d: Delivery): (r: set<Conn>)
    ensures d.ToSelf? ==> r == {c}
    ensures d.ToAll? ==> r == sn.broadcast.subs
  {
    match d
    case ToSelf(_) => {c}
    case ToAll(_) => sn.broadcast.subs
  }

  /** A connected handle hears every broadcast until it closes, and none
      after; closing touches no other handle and not the game. */
  lemma ConnectedHearsBroadcastsUntilClosed<G>(sn: Session<G>, c: Conn, d: Conn, e: Qg.Event)
    ensures c in Recipients(Connect(sn, c), d, ToAll(e))
    ensures c !in Recipients(Disconnect(sn, c), d, ToAll(e))
    ensures c !in sn.broadcast.subs ==> Disconnect(Connect(sn, c), c) == sn
    ensures forall k :: k != c ==> (k in Recipients(Disconnect(sn, c), d, ToAll(e)) <==> k in Recipients(sn, d, ToAll(e)))
    ensures c in Recipients(Disconnect(sn, c), c, ToSelf(e))
  {
    PubSub.UnsubscribeAbsentIsNoop(sn.broadcast, c);
  }
}
