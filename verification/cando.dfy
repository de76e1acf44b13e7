/**
 * The generic transition engine (backend/internal/cando/cando.go).
 *
 * States accept one input type each and answer with the list of input types
 * the machine accepts next; reactors observe each successful transition and
 * emit events. Go's reflection types are closed into the `Tag` datatype, the
 * closures' captured game state becomes an explicit world value `W`, the Go
 * `context.Context` becomes a caller value `C`, and reactors return the events
 * they publish instead of publishing them. The EnterMachine/LeaveMachine mutex
 * hooks are no-ops here: the model applies one command at a time.
 */
module Cando {
  import opened Wrappers

  /** The reflection types the engine dispatches on. `EndReaction` is the
      marker type the engine substitutes for a nil list of next states. */
  datatype Tag = JoinGame | BeginGame | ChooseQuestion | PressButton | PlayerJudgment | EndReaction

  /** A registered state: the input type it accepts and its handler, which
      returns the new world and the next acceptable input types. An empty
      list stands for Go's nil `NextStates`. */
  datatype State<!W, !C, !I> = State(tag: Tag, enter: (W, C, I) -> Result<(W, seq<Tag>), string>)

  /** A reactor with its (previous, next) type filters; `None` is the `any`
      wildcard. It sees the world after the transition, the caller and the
      machine's current input. */
  datatype Reactor<!W, !C, !I, !E> =
    Reactor(prev: Option<Tag>, next: Option<Tag>, react: (W, C, I) -> Result<seq<E>, string>)

  /** What NewMachine is given: the InitState's answer, the other states in
      order, the reactors in order, and the dynamic type of an input. */
  datatype MachineData<!W, !C, !I, !E> = MachineData(
    init: seq<Tag>,
    states: seq<State<W, C, I>>,
    reactors: seq<Reactor<W, C, I, E>>,
    tagOf: I -> Tag)

  /** The machine's `current` field: nil before Start, the InitState (whose
      data type is nil) right after it, and afterwards the entered state. */
  datatype Current = Unstarted | AtInit | At(tag: Tag)

  datatype Machine<!W, !C, !I, !E> = Machine(
    data: MachineData<W, C, I, E>,
    table: map<Tag, State<W, C, I>>,
    current: Current,
    currentData: Option<I>,
    next: seq<Tag>,
    world: W)

  datatype EngineError =
    | NotStarted                 // "machine not started"
    | AlreadyStarted             // "machine already started"
    | NotAllowed(tag: Tag)       // "cannot change to state of type ...: not allowed"
    | NoState(tag: Tag)          // a next type without a registered state: nil interface call, a Go panic
    | HandlerFailed(msg: string) // the state's own error, returned unwrapped
    | ReactorFailed(prev: Option<Tag>, next: Option<Tag>, msg: string) // "error reacting to [prev next]"
    | NilDataPanic               // a reactor fired while currentData is nil: `prev.(PrevT)` on nil panics

  /** The result of Start or Change: the machine afterwards, the events the
      reactors published before returning, and the returned error. */
  datatype Outcome<!W, !C, !I, !E> = Outcome(machine: Machine<W, C, I, E>, events: seq<E>, err: Option<EngineError>)

  /** The data type of the current state, used as the reactors' "prev" type. */
  function PrevTag(c: Current): Option<Tag> {
    match c
    case At(t) => Some(t)
    case _ => None
  }

  /** Whether a committed transition left the engine on `NextStates` that
      mark the end of the machine. */
  predicate Terminal(next: seq<Tag>) {
    next == [EndReaction]
  }

  // ---------------------------------------------------------------------------
  // NewMachine
  // ---------------------------------------------------------------------------

  /** The position of the last state registered for `tag`, or -1. */
  function LastIndexOf<W, C, I>(states: seq<State<W, C, I>>, tag: Tag): (i: int)
    ensures -1 <= i < |states|
    ensures i >= 0 ==> states[i].tag == tag
    ensures forall j :: i < j < |states| ==> states[j].tag != tag
    decreases |states|
  {
    if states == [] then -1
    else if states[|states| - 1].tag == tag then |states| - 1
    else LastIndexOf(states[..|states| - 1], tag)
  }

  /** The state map NewMachine builds by storing each state under its type in
      list order, so a later state with the same type replaces an earlier one. */
  function Index<W, C, I>(states: seq<State<W, C, I>>): (t: map<Tag, State<W, C, I>>)
    ensures forall tag :: tag in t <==> exists i :: 0 <= i < |states| && states[i].tag == tag
    ensures forall i :: 0 <= i < |states| ==>
      (t[states[i].tag] == states[i] <== forall j :: i < j < |states| ==> states[j].tag != states[i].tag)
  {
    var tags := set i | 0 <= i < |states| :: states[i].tag;
    map tag | tag in tags :: states[LastIndexOf(states, tag)]
  }

  /** With distinct tags every state is stored under its own tag, and
      nothing else is stored. */
  lemma IndexOfDistinct<W, C, I>(states: seq<State<W, C, I>>)
    requires forall i, j :: 0 <= i < j < |states| ==> states[i].tag != states[j].tag
    ensures forall i :: 0 <= i < |states| ==> states[i].tag in Index(states) && Index(states)[states[i].tag] == states[i]
    ensures forall tag :: tag in Index(states) ==> exists i :: 0 <= i < |states| && states[i].tag == tag
  {
  }

  function NewMachine<W, C, I, E>(data: MachineData<W, C, I, E>, world: W): (m: Machine<W, C, I, E>)
    ensures m.current == Unstarted && m.currentData == None && m.next == []
    ensures m.data == data && m.world == world
    ensures m.table == Index(data.states)
  {
    Machine(data, Index(data.states), Unstarted, None, [], world)
  }

  // ---------------------------------------------------------------------------
  // Reactor matching and running
  // ---------------------------------------------------------------------------

  /** The next-type filter as the engine's loop tests it: the loop body either
      skips the reactor (first element differs) or breaks at once, so only the
      first element is ever examined and an empty list lets the reactor pass. */
  predicate NextLoopPasses(nexts: seq<Tag>, want: Tag) {
    if |nexts| == 0 then true
    else if nexts[0] != want then false
    else true
  }

  /** The reactor filter test of the engine's `reactorMatch` loop. */
  predicate Matches<W, C, I, E>(r: Reactor<W, C, I, E>, prev: Option<Tag>, nexts: seq<Tag>) {
    && (r.prev.Some? ==> prev.Some? && prev.value == r.prev.value)
    && (r.next.Some? ==> NextLoopPasses(nexts, r.next.value))
  }

  /** What the filter test amounts to: a prev filter needs an equal prev type
      (never the nil type after Start); a next filter is compared with the first
      next type only, and passes on an empty list. */
  lemma MatchesMeaning<W, C, I, E>(r: Reactor<W, C, I, E>, prev: Option<Tag>, nexts: seq<Tag>)
    ensures Matches(r, prev, nexts) <==>
      && (r.prev == None || r.prev == prev)
      && (r.next == None || nexts == [] || nexts[0] == r.next.value)
    ensures prev == None ==> (Matches(r, prev, nexts) ==> r.prev == None)
    ensures r.next.Some? && |nexts| > 1 && nexts[0] != r.next.value && nexts[1] == r.next.value ==>
      !Matches(r, prev, nexts)
  {
  }

  /** Whether every reactor that matches succeeds, given the current input. */
  predicate AllMatchingSucceed<W, C, I, E>(rs: seq<Reactor<W, C, I, E>>, prev: Option<Tag>, nexts: seq<Tag>,
                                           w: W, c: C, data: Option<I>) {
    forall i :: 0 <= i < |rs| && Matches(rs[i], prev, nexts) ==> data.Some? && rs[i].react(w, c, data.value).Ok?
  }

  /** Runs the reactors in list order. A reactor whose filters do not match is
      skipped; the first failing reactor stops the rest and its error is
      returned wrapped with its filter pair; the events of the reactors that ran
      before it stay published. */
  function RunReactors<W, C, I, E>(rs: seq<Reactor<W, C, I, E>>, prev: Option<Tag>, nexts: seq<Tag>,
                                   w: W, c: C, data: Option<I>): (r: (seq<E>, Option<EngineError>))
    ensures r.1 == None <==> AllMatchingSucceed(rs, prev, nexts, w, c, data)
    ensures (forall i :: 0 <= i < |rs| ==> !Matches(rs[i], prev, nexts)) ==> r == ([], None)
    ensures r.1.Some? ==> r.1.value.NilDataPanic? || r.1.value.ReactorFailed?
    ensures r.1.Some? && r.1.value.ReactorFailed? ==>
      exists i :: 0 <= i < |rs| && Matches(rs[i], prev, nexts) && data.Some? &&
        rs[i].react(w, c, data.value).Err? &&
        r.1.value == ReactorFailed(rs[i].prev, rs[i].next, rs[i].react(w, c, data.value).error) &&
        forall j :: 0 <= j < i && Matches(rs[j], prev, nexts) ==> rs[j].react(w, c, data.value).Ok?
    ensures r.1 == Some(NilDataPanic) ==> data == None
    decreases |rs|
  {
    if rs == [] then ([], None)
    else
      var tail := RunReactors(rs[1..], prev, nexts, w, c, data);
      assert forall i :: 1 <= i < |rs| ==> rs[1..][i - 1] == rs[i];
      if !Matches(rs[0], prev, nexts) then
        tail
      else if data.None? then
        ([], Some(NilDataPanic))
      else
        match rs[0].react(w, c, data.value)
        case Err(msg) => ([], Some(ReactorFailed(rs[0].prev, rs[0].next, msg)))
        case Ok(evs) => (evs + tail.0, tail.1)
  }

  /** One step of RunReactors at position `i` of the list. */
  lemma RunReactorsAt<W, C, I, E>(rs: seq<Reactor<W, C, I, E>>, i: nat, prev: Option<Tag>, nexts: seq<Tag>,
                                  w: W, c: C, data: Option<I>)
    requires i < |rs|
    ensures var tail := RunReactors(rs[i + 1..], prev, nexts, w, c, data);
      RunReactors(rs[i..], prev, nexts, w, c, data) ==
        if !Matches(rs[i], prev, nexts) then tail
        else if data.None? then ([], Some(NilDataPanic))
        else match rs[i].react(w, c, data.value)
          case Err(msg) => ([], Some(ReactorFailed(rs[i].prev, rs[i].next, msg)))
          case Ok(evs) => (evs + tail.0, tail.1)
  {
    assert rs[i..][1..] == rs[i + 1..];
  }

  /** A reactor that does not match is passed over. */
  lemma RunReactorsSkip<W, C, I, E>(rs: seq<Reactor<W, C, I, E>>, i: nat, prev: Option<Tag>, nexts: seq<Tag>,
                                    w: W, c: C, data: Option<I>)
    requires i < |rs| && !Matches(rs[i], prev, nexts)
    ensures RunReactors(rs[i..], prev, nexts, w, c, data) == RunReactors(rs[i + 1..], prev, nexts, w, c, data)
  {
    RunReactorsAt(rs, i, prev, nexts, w, c, data);
  }

  /** Running two reactor lists one after the other: the second list runs
      only if the first one finished without error, and the events of both
      are published in list order. */
  lemma {:induction false} RunReactorsAppend<W, C, I, E>(a: seq<Reactor<W, C, I, E>>, b: seq<Reactor<W, C, I, E>>,
                                                          prev: Option<Tag>, nexts: seq<Tag>, w: W, c: C, data: Option<I>)
    ensures var ra := RunReactors(a, prev, nexts, w, c, data);
      var rb := RunReactors(b, prev, nexts, w, c, data);
      RunReactors(a + b, prev, nexts, w, c, data) == if ra.1.Some? then ra else (ra.0 + rb.0, rb.1)
    decreases |a|
  {
    if a == [] {
      assert a + b == b;
      var rb := RunReactors(b, prev, nexts, w, c, data);
      assert [] + rb.0 == rb.0;
    } else {
      assert (a + b)[0] == a[0];
      assert (a + b)[1..] == a[1..] + b;
      RunReactorsAppend(a[1..], b, prev, nexts, w, c, data);
      var ra' := RunReactors(a[1..], prev, nexts, w, c, data);
      var rb := RunReactors(b, prev, nexts, w, c, data);
      if Matches(a[0], prev, nexts) && data.Some? && a[0].react(w, c, data.value).Ok? && ra'.1.None? {
        var evs := a[0].react(w, c, data.value).value;
        assert evs + (ra'.0 + rb.0) == (evs + ra'.0) + rb.0;
      }
    }
  }

  /** Runs the machine's reactors against its committed state. */
  function React<W, C, I, E>(m: Machine<W, C, I, E>, c: C): (r: Outcome<W, C, I, E>)
    ensures r.machine == m
  {
    var (evs, err) := RunReactors(m.data.reactors, PrevTag(m.current), m.next, m.world, c, m.currentData);
    Outcome(m, evs, err)
  }

  // ---------------------------------------------------------------------------
  // Start and Change
  // ---------------------------------------------------------------------------

  /** Start: fails on a started machine without running any reactor;
      otherwise enters the InitState, takes its answer as the next types (a nil
      answer is NOT replaced by EndReaction here) and runs the reactors with a
      nil previous type. */
  function Start<W, C, I, E>(m: Machine<W, C, I, E>, c: C): (r: Outcome<W, C, I, E>)
    ensures m.current != Unstarted ==> r == Outcome(m, [], Some(AlreadyStarted))
    ensures m.current == Unstarted ==>
      && r.machine == m.(current := AtInit, next := m.data.init)
      && (r.err == None <==> AllMatchingSucceed(m.data.reactors, None, m.data.init, m.world, c, m.currentData))
  {
    if m.current != Unstarted then Outcome(m, [], Some(AlreadyStarted))
    else React(m.(current := AtInit, next := m.data.init), c)
  }

  /** The next types committed after a handler answered `nexts`: a nil answer
      becomes exactly the terminal marker. */
  function Committed(nexts: seq<Tag>): (r: seq<Tag>)
    ensures nexts == [] ==> Terminal(r)
    ensures nexts != [] ==> r == nexts
  {
    if nexts == [] then [EndReaction] else nexts
  }

  /** Whether Change would reach the handler for `input`. */
  predicate Admits<W, C, I, E>(m: Machine<W, C, I, E>, input: I) {
    m.current != Unstarted && m.data.tagOf(input) in m.next && m.data.tagOf(input) in m.table
  }

  /** Change: validates the input's type against the next types, calls the
      state's handler, commits its result and runs the reactors. Every failure
      before the commit leaves the machine as it was and runs no reactor; a
      reactor failure after the commit does not roll it back. */
  function Change<W, C, I, E>(m: Machine<W, C, I, E>, c: C, input: I): (r: Outcome<W, C, I, E>)
    ensures m.current == Unstarted ==> r == Outcome(m, [], Some(NotStarted))
    ensures m.current != Unstarted && m.data.tagOf(input) !in m.next ==>
      r == Outcome(m, [], Some(NotAllowed(m.data.tagOf(input))))
    ensures !Admits(m, input) ==> r.machine == m && r.events == [] && r.err.Some?
    ensures Admits(m, input) ==>
      var res := m.table[m.data.tagOf(input)].enter(m.world, c, input);
      && (res.Err? ==> r == Outcome(m, [], Some(HandlerFailed(res.error))))
      && (res.Ok? ==>
            && r.machine.current == At(m.data.tagOf(input))
            && r.machine.currentData == Some(input)
            && r.machine.next == Committed(res.value.1)
            && r.machine.world == res.value.0
            && r.machine.data == m.data && r.machine.table == m.table
            && (r.err == None <==> AllMatchingSucceed(m.data.reactors, Some(m.data.tagOf(input)),
                                                       Committed(res.value.1), res.value.0, c, Some(input))))
  {
    if m.current == Unstarted then Outcome(m, [], Some(NotStarted))
    else
      var tag := m.data.tagOf(input);
      if tag !in m.next then Outcome(m, [], Some(NotAllowed(tag)))
      else if tag !in m.table then Outcome(m, [], Some(NoState(tag)))
      else
        match m.table[tag].enter(m.world, c, input)
        case Err(msg) => Outcome(m, [], Some(HandlerFailed(msg)))
        case Ok((w, nexts)) =>
          React(m.(current := At(tag), currentData := Some(input), next := Committed(nexts), world := w), c)
  }

  // ---------------------------------------------------------------------------
  // Properties relating several calls
  // ---------------------------------------------------------------------------

  /** Right after Start no reactor with a prev filter fires, and a reactor that
      does fire finds no current input: Go's type assertion on the nil
      `currentData` panics. */
  lemma StartFiresOnlyWildcardPrev<W, C, I, E>(m: Machine<W, C, I, E>, c: C)
    requires m.current == Unstarted && m.currentData == None
    ensures var r := Start(m, c);
      && r.machine.current == AtInit
      && r.events == []
      && (r.err == None <==> forall i :: 0 <= i < |m.data.reactors| ==> !Matches(m.data.reactors[i], None, m.data.init))
      && (r.err != None ==>
            (r.err == Some(NilDataPanic) &&
             exists i :: 0 <= i < |m.data.reactors| && m.data.reactors[i].prev == None &&
               Matches(m.data.reactors[i], None, m.data.init)))
  {
    var rs := m.data.reactors;
    var r := RunReactors(rs, None, m.data.init, m.world, c, None);
    if r.1 != None {
      assert !AllMatchingSucceed(rs, None, m.data.init, m.world, c, None);
      var i :| 0 <= i < |rs| && Matches(rs[i], None, m.data.init);
      assert rs[i].prev == None;
      if r.1.value.ReactorFailed? {
        assert false;
      }
    }
    if r.1 == None {
      assert forall i :: 0 <= i < |rs| ==> !Matches(rs[i], None, m.data.init);
    }
    NoEventsWithoutData(rs, None, m.data.init, m.world, c);
  }

  /** With no current input, no reactor can publish anything. */
  lemma {:induction false} NoEventsWithoutData<W, C, I, E>(rs: seq<Reactor<W, C, I, E>>, prev: Option<Tag>,
                                                            nexts: seq<Tag>, w: W, c: C)
    ensures RunReactors(rs, prev, nexts, w, c, None).0 == []
    decreases |rs|
  {
    if rs != [] {
      NoEventsWithoutData(rs[1..], prev, nexts, w, c);
    }
  }

  /** Once a handler has answered nil, the machine is terminal and every input
      whose type is not the marker itself is rejected without any change. */
  lemma TerminalRejectsEverything<W, C, I, E>(m: Machine<W, C, I, E>, c: C, input: I)
    requires m.current != Unstarted && Terminal(m.next)
    requires m.data.tagOf(input) != EndReaction
    ensures Change(m, c, input) == Outcome(m, [], Some(NotAllowed(m.data.tagOf(input))))
  {
  }

  /** A handler that answers nil ends the machine: the committed next types
      are exactly the terminal marker, whatever the reactors then do. */
  lemma NilAnswerEndsMachine<W, C, I, E>(m: Machine<W, C, I, E>, c: C, input: I)
    requires Admits(m, input)
    requires m.table[m.data.tagOf(input)].enter(m.world, c, input).Ok?
    requires m.table[m.data.tagOf(input)].enter(m.world, c, input).value.1 == []
    ensures Terminal(Change(m, c, input).machine.next)
    ensures Change(m, c, input).machine.current == At(m.data.tagOf(input))
    ensures Change(m, c, input).machine.world == m.table[m.data.tagOf(input)].enter(m.world, c, input).value.0
  {
  }

  /** An admitted input the handler accepts commits the transition, and the
      step's outcome is that of the reactors run against it. */
  lemma ChangeCommitsThenReacts<W, C, I, E>(m: Machine<W, C, I, E>, c: C, input: I)
    requires Admits(m, input)
    requires m.table[m.data.tagOf(input)].enter(m.world, c, input).Ok?
    ensures var res := m.table[m.data.tagOf(input)].enter(m.world, c, input).value;
      Change(m, c, input) ==
        React(m.(current := At(m.data.tagOf(input)), currentData := Some(input), next := Committed(res.1), world := res.0), c)
  {
  }

  /** A reactor failure is reported but the transition stays committed: the
      machine afterwards is the same as if every reactor had succeeded. */
  lemma ReactorFailureKeepsTransition<W, C, I, E>(m: Machine<W, C, I, E>, c: C, input: I)
    requires Admits(m, input)
    requires m.table[m.data.tagOf(input)].enter(m.world, c, input).Ok?
    requires Change(m, c, input).err.Some?
    ensures Change(m, c, input).err.value.ReactorFailed? || Change(m, c, input).err.value.NilDataPanic?
    ensures var res := m.table[m.data.tagOf(input)].enter(m.world, c, input).value;
      Change(m, c, input).machine ==
        m.(current := At(m.data.tagOf(input)), currentData := Some(input), next := Committed(res.1), world := res.0)
  {
  }
}
