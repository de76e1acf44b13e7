/**
 * The game registry and the first-command router of a connection
 * (backend/qg/games/games.go).
 *
 * The manager maps game types to creators and game IDs to the command
 * handler factories the creators made. A connection's handler starts
 * unbound and refuses everything but a JoinGame. It binds at the first
 * JoinGame whose game opens a handler, even when the forwarded join then
 * fails, and from then on forwards every command unchanged.
 *
 * Creators, factories, the game store and the bound handlers are outside
 * this module: they appear as oracles (functions that may fail).
 */
module Registry {
  import opened Wrappers
  import Qg

  type GameType = string

  /** The registry: the creator of each game type and the handler factory of
      each created game. */
  datatype Manager<!Cr, !F> = Manager(creators: map<GameType, Cr>, games: map<Qg.GameID, F>)

  function NewManager<Cr, F>(): (g: Manager<Cr, F>)
    ensures g.creators == map[] && g.games == map[]
  {
    Manager(map[], map[])
  }

  /** Go's `%q` of a string, without escaping the characters inside. */
  function Quote(s: string): (r: string)
    ensures |r| == |s| + 2 && r[0] == '"' && r[|r| - 1] == '"' && r[1..|r| - 1] == s
  {
    "\"" + s + "\""
  }

  /** errors.Wrap: the context, a colon, then the cause. */
  function Wrap(msg: string, context: string): (r: string)
    ensures |r| == |context| + 2 + |msg|
    ensures r[..|context|] == context && r[|context| + 2..] == msg
  {
    context + ": " + msg
  }

  // ---------------------------------------------------------------------------
  // AddGame and CreateGame
  // ---------------------------------------------------------------------------

  /** AddGame: registering a game type twice panics; otherwise exactly that
      creator is registered. */
  function AddGame<Cr, F>(g: Manager<Cr, F>, t: GameType, creator: Cr): (r: Result<Manager<Cr, F>, string>)
    ensures r.Err? <==> t in g.creators
    ensures r.Err? ==> r.error == "panic: game already exists"
    ensures r.Ok? ==> r.value.creators == g.creators[t := creator] && r.value.games == g.games
  {
    if t in g.creators then Err("panic: game already exists")
    else Ok(g.(creators := g.creators[t := creator]))
  }

  /** The game store: the boards stored so far and its ID oracle, which
      answers an ID for a new row or an error. */
  datatype Store<!D> = Store(rows: seq<D>, newId: (seq<D>, D) -> Result<Qg.GameID, string>)

  /** The store's CreateGame: a row is added only when an ID was issued. */
  function StoreCreate<D>(st: Store<D>, data: D): (r: (Store<D>, Result<Qg.GameID, string>))
    ensures r.0.newId == st.newId
    ensures r.1 == st.newId(st.rows, data)
    ensures r.1.Ok? ==> r.0.rows == st.rows + [data]
    ensures r.1.Err? ==> r.0 == st
  {
    match st.newId(st.rows, data)
    case Err(msg) => (st, Err(msg))
    case Ok(id) => (st.(rows := st.rows + [data]), Ok(id))
  }

  /** What a CreateGame call did. */
  datatype Created<!Cr, !F, !D> = Created(manager: Manager<Cr, F>, store: Store<D>, id: Result<Qg.GameID, string>)

  /** CreateGame: looks up the creator of the data's type, stores the data,
      asks the creator for the game's handler factory and registers it under
      the stored ID. */
  function CreateGame<Cr, F, D>(g: Manager<Cr, F>, st: Store<D>, data: D, typeOf: D -> GameType,
                                create: (Cr, Qg.GameID, D) -> Result<F, string>): (r: Created<Cr, F, D>)
    ensures typeOf(data) !in g.creators ==>
      r == Created(g, st, Err("unknown game type " + Quote(typeOf(data))))
    ensures typeOf(data) in g.creators && st.newId(st.rows, data).Err? ==>
      r == Created(g, st, Err(Wrap(st.newId(st.rows, data).error, "cannot create game")))
    ensures typeOf(data) in g.creators && st.newId(st.rows, data).Ok? ==>
      var id := st.newId(st.rows, data).value;
      var made := create(g.creators[typeOf(data)], id, data);
      && r.store == StoreCreate(st, data).0
      && (made.Err? ==> r.manager == g && r.id == Err(Wrap(made.error, "cannot create game")))
      && (made.Ok? ==> r.manager == g.(games := g.games[id := made.value]) && r.id == Ok(id))
  {
    var t := typeOf(data);
    if t !in g.creators then Created(g, st, Err("unknown game type " + Quote(t)))
    else
      var (st', id) := StoreCreate(st, data);
      if id.Err? then Created(g, st, Err(Wrap(id.error, "cannot create game")))
      else
        match create(g.creators[t], id.value, data)
        case Err(msg) => Created(g, st', Err(Wrap(msg, "cannot create game")))
        case Ok(f) => Created(g.(games := g.games[id.value := f]), st', Ok(id.value))
  }

  /** CreateGame never registers a creator, never forgets a game, and
      registers at most the one ID it returns; a game whose creator failed
      stays in the store without a factory. */
  lemma CreateGameOnlyAdds<Cr, F, D>(g: Manager<Cr, F>, st: Store<D>, data: D, typeOf: D -> GameType,
                                     create: (Cr, Qg.GameID, D) -> Result<F, string>)
    ensures var r := CreateGame(g, st, data, typeOf, create);
      && r.manager.creators == g.creators
      && g.games.Keys <= r.manager.games.Keys
      && (r.id.Err? ==> r.manager.games == g.games)
      && (r.id.Ok? ==> r.manager.games.Keys == g.games.Keys + {r.id.value})
      && (r.id.Ok? ==> forall k :: k in g.games && k != r.id.value ==> r.manager.games[k] == g.games[k])
      && |r.store.rows| <= |st.rows| + 1
      && (r.id.Ok? ==> |r.store.rows| == |st.rows| + 1)
  {
  }

  /** A registered creator is the one CreateGame uses: after AddGame(t, f),
      creating a game of type t asks f for its factory, and games of the other
      types are created as before. */
  lemma CreateGameUsesAddedCreator<Cr, F, D>(g: Manager<Cr, F>, t: GameType, f: Cr, st: Store<D>, data: D,
                                            typeOf: D -> GameType, create: (Cr, Qg.GameID, D) -> Result<F, string>)
    ensures AddGame(g, t, f).Ok? && typeOf(data) == t ==>
      var r := CreateGame(AddGame(g, t, f).value, st, data, typeOf, create);
      match st.newId(st.rows, data)
      case Err(_) => r.id.Err? && r.manager == AddGame(g, t, f).value
      case Ok(id) =>
        (create(f, id, data).Ok? <==> r.id == Ok(id)) &&
        (create(f, id, data).Ok? ==> id in r.manager.games && r.manager.games[id] == create(f, id, data).value)
    ensures AddGame(g, t, f).Ok? && typeOf(data) != t ==>
      var r0 := CreateGame(g, st, data, typeOf, create);
      var r := CreateGame(AddGame(g, t, f).value, st, data, typeOf, create);
      r.id == r0.id && r.store == r0.store && r.manager.games == r0.manager.games
  {
  }

  // ---------------------------------------------------------------------------
  // Per-connection routing
  // ---------------------------------------------------------------------------

  /** A connection's handler: unbound until a JoinGame is accepted, then the
      handler of the joined game. */
  datatype Handler<!H> = Unbound | Bound(inner: H)

  /** NewCommandHandler: every connection starts unbound. */
  function NewCommandHandler<H>(): (h: Handler<H>)
    ensures h.Unbound?
  {
    Unbound
  }

  /** What HandleCommand does with a command: refuses it with a message, or
      hands it, unchanged, to a game's handler whose answer is the result. */
  datatype Action<!H> = Rejected(msg: string) | Forward(to: H, cmd: Qg.Command)

  /** HandleCommand. `open` is a game's factory making a handler for the
      connection; a factory that fails is taken to return no handler. */
  function HandleCommand<Cr, F, H>(g: Manager<Cr, F>, h: Handler<H>, cmd: Qg.Command, open: F -> Result<H, string>)
    : (r: (Handler<H>, Action<H>))
    ensures h.Bound? ==> r == (h, Forward(h.inner, cmd))
    ensures h.Unbound? && !cmd.JoinGame? ==> r == (Unbound, Rejected("expect join game command"))
    ensures h.Unbound? && cmd.JoinGame? && cmd.gameId !in g.games ==>
      r == (Unbound, Rejected("unknown game with ID " + Quote(cmd.gameId)))
    ensures h.Unbound? && cmd.JoinGame? && cmd.gameId in g.games && open(g.games[cmd.gameId]).Err? ==>
      r == (Unbound, Rejected(Wrap(open(g.games[cmd.gameId]).error, "cannot create command handler")))
    ensures h.Unbound? && cmd.JoinGame? && cmd.gameId in g.games && open(g.games[cmd.gameId]).Ok? ==>
      var inner := open(g.games[cmd.gameId]).value;
      r == (Bound(inner), Forward(inner, cmd))
  {
    match h
    case Bound(inner) => (h, Forward(inner, cmd))
    case Unbound =>
      if !cmd.JoinGame? then (Unbound, Rejected("expect join game command"))
      else if cmd.gameId !in g.games then (Unbound, Rejected("unknown game with ID " + Quote(cmd.gameId)))
      else
        match open(g.games[cmd.gameId])
        case Err(msg) => (Unbound, Rejected(Wrap(msg, "cannot create command handler")))
        case Ok(inner) => (Bound(inner), Forward(inner, cmd))
  }

  /** Close: a bound handler's Close answers; an unbound one has nothing to
      close. */
  function Close<H>(h: Handler<H>, closeInner: H -> Option<string>): (r: Option<string>)
    ensures h.Unbound? ==> r == None
    ensures h.Bound? ==> r == closeInner(h.inner)
  {
    match h
    case Unbound => None
    case Bound(inner) => closeInner(inner)
  }

  /** Whether a command would bind an unbound handler. */
  predicate Binds<Cr, F, H>(g: Manager<Cr, F>, cmd: Qg.Command, open: F -> Result<H, string>) {
    cmd.JoinGame? && cmd.gameId in g.games && open(g.games[cmd.gameId]).Ok?
  }

  /** A connection's commands, one after another, against a registry that
      does not change meanwhile. */
  function Route<Cr, F, H>(g: Manager<Cr, F>, h: Handler<H>, cmds: seq<Qg.Command>, open: F -> Result<H, string>)
    : (r: (Handler<H>, seq<Action<H>>))
    ensures |r.1| == |cmds|
    decreases |cmds|
  {
    if cmds == [] then (h, [])
    else
      var (h1, a) := HandleCommand(g, h, cmds[0], open);
      var (h2, rest) := Route(g, h1, cmds[1..], open);
      (h2, [a] + rest)
  }

  /** Once bound, a handler stays bound to the same game handler and
      forwards every command unchanged. */
  lemma {:induction false} BoundForwardsEverything<Cr, F, H>(g: Manager<Cr, F>, inner: H, cmds: seq<Qg.Command>,
                                                             open: F -> Result<H, string>)
    ensures Route(g, Bound(inner), cmds, open).0 == Bound(inner)
    ensures forall i :: 0 <= i < |cmds| ==> Route(g, Bound(inner), cmds, open).1[i] == Forward(inner, cmds[i])
    decreases |cmds|
  {
    if cmds != [] {
      BoundForwardsEverything(g, inner, cmds[1..], open);
      var rest := Route(g, Bound(inner), cmds[1..], open).1;
      assert forall i :: 1 <= i < |cmds| ==> cmds[1..][i - 1] == cmds[i] && ([Forward(inner, cmds[0])] + rest)[i] == rest[i - 1];
    }
  }

  /** An unbound handler rejects every command before the first one that
      binds it, binds to the handler that command's game opened, forwards
      that command, and forwards every later one to the same handler; if no
      command binds, it stays unbound and rejects them all. */
  lemma {:induction false} RouteBindsAtFirstJoin<Cr, F, H>(g: Manager<Cr, F>, cmds: seq<Qg.Command>,
                                                           open: F -> Result<H, string>)
    ensures var (h, acts) := Route(g, Unbound, cmds, open);
      && ((forall i :: 0 <= i < |cmds| ==> !Binds(g, cmds[i], open)) ==>
            h == Unbound && forall i :: 0 <= i < |cmds| ==> acts[i].Rejected?)
      && (forall k :: 0 <= k < |cmds| && Binds(g, cmds[k], open) && (forall i :: 0 <= i < k ==> !Binds(g, cmds[i], open)) ==>
            var inner := open(g.games[cmds[k].gameId]).value;
            && h == Bound(inner)
            && (forall i :: 0 <= i < k ==> acts[i].Rejected?)
            && (forall i :: k <= i < |cmds| ==> acts[i] == Forward(inner, cmds[i])))
    decreases |cmds|
  {
    if cmds != [] {
      var (h1, a) := HandleCommand(g, Unbound, cmds[0], open);
      var tail := cmds[1..];
      assert forall i :: 1 <= i < |cmds| ==> tail[i - 1] == cmds[i];
      var acts := Route(g, Unbound, cmds, open).1;
      if Binds(g, cmds[0], open) {
        var inner := open(g.games[cmds[0].gameId]).value;
        assert h1 == Bound(inner);
        BoundForwardsEverything(g, inner, tail, open);
        var rest := Route(g, h1, tail, open).1;
        assert acts == [a] + rest;
        forall k | 0 <= k < |cmds| && Binds(g, cmds[k], open) && (forall i :: 0 <= i < k ==> !Binds(g, cmds[i], open))
          ensures k == 0
        {
        }
        forall i | 0 <= i < |cmds| ensures acts[i] == Forward(inner, cmds[i]) {
          if i > 0 { assert acts[i] == rest[i - 1]; }
        }
      } else {
        assert h1 == Unbound && a.Rejected?;
        RouteBindsAtFirstJoin(g, tail, open);
        var rest := Route(g, Unbound, tail, open).1;
        assert acts == [a] + rest;
        assert forall i :: 1 <= i < |cmds| ==> acts[i] == rest[i - 1];
        forall k | 0 <= k < |cmds| && Binds(g, cmds[k], open) && (forall i :: 0 <= i < k ==> !Binds(g, cmds[i], open))
          ensures var inner := open(g.games[cmds[k].gameId]).value;
            && Route(g, Unbound, cmds, open).0 == Bound(inner)
            && (forall i :: 0 <= i < k ==> acts[i].Rejected?)
            && (forall i :: k <= i < |cmds| ==> acts[i] == Forward(inner, cmds[i]))
        {
          assert k > 0;
          assert tail[k - 1] == cmds[k];
          assert forall i :: 0 <= i < k - 1 ==> !Binds(g, tail[i], open) by {
            forall i | 0 <= i < k - 1 ensures !Binds(g, tail[i], open) {
              assert tail[i] == cmds[i + 1];
            }
          }
        }
      }
    }
  }
}
