/**
 * The older string-named state machine (backend/qg/internal/cando/cando.go).
 *
 * States are identified by name; an optional transitions table restricts which
 * names may follow which. The Enter/Exit hooks are Go callbacks; here each hook
 * is either absent (nil) or has a fixed outcome. The mutex hooks are no-ops.
 */
module OldCando {
  import opened Wrappers

  /** A hook's fixed outcome: `None` succeeds, `Some(msg)` fails with msg. */
  type HookResult = Option<string>

  /** A state: its name and its Enter/Exit hooks, `None` when nil. The Update
      hook is not part of the transition and is left out. */
  datatype State = State(name: string, enter: Option<HookResult>, exit: Option<HookResult>)

  /** The machine: the current state (Go's zero State before any change), the
      states by name, and the table of allowed successors by state name. A
      table entry stands for a non-nil list. */
  datatype Machine = Machine(current: State, states: map<string, State>, transitions: map<string, seq<string>>)

  datatype ChangeError =
    | NoSuchState(name: string)        // "state does not exist"
    | NotAllowed(name: string)         // "transition not allowed"
    | ExitFailed(prev: string, msg: string)   // "error exiting state"
    | EnterFailed(next: string, msg: string)  // "error entering state"
    | NilHookPanic                     // calling a nil Enter func: a Go panic

  /** Go's zero State, the machine's current state before any change. */
  const ZeroState: State := State("", None, None)

  /** The position of the last state in `states` named `name`, or -1. */
  function LastNamed(states: seq<State>, name: string): (i: int)
    ensures -1 <= i < |states|
    ensures i >= 0 ==> states[i].name == name
    ensures i == -1 <==> forall j :: 0 <= j < |states| ==> states[j].name != name
    ensures forall j :: i < j < |states| ==> states[j].name != name
    decreases |states|
  {
    if states == [] then -1
    else if states[|states| - 1].name == name then |states| - 1
    else LastNamed(states[..|states| - 1], name)
  }

  /** NewMachine: indexes the states by name, a later duplicate name
      overwriting an earlier one, and starts at the zero State. */
  function NewMachine(states: seq<State>, transitions: map<string, seq<string>>): (m: Machine)
    ensures m.current == ZeroState && m.transitions == transitions
    ensures forall name :: name in m.states <==> exists i :: 0 <= i < |states| && states[i].name == name
    ensures forall i :: 0 <= i < |states| ==>
      (m.states[states[i].name] == states[i] <== forall j :: i < j < |states| ==> states[j].name != states[i].name)
  {
    var names := set i | 0 <= i < |states| :: states[i].name;
    Machine(ZeroState, map name | name in names :: states[LastNamed(states, name)], transitions)
  }

  /** Whether the table lets the machine go from `from` to `to`: a state
      without an entry may go anywhere, one with an entry only to its list. */
  predicate TransitionAllowed(transitions: map<string, seq<string>>, from: string, to: string) {
    from !in transitions || to in transitions[from]
  }

  /** Whether a hook is present and fails. */
  predicate Fails(hook: Option<HookResult>) {
    hook.Some? && hook.value.Some?
  }

  /** Change exactly as written: when the next state has an Enter hook, the
      hook that is called is the PREVIOUS state's, with the previous state as
      argument, and its error is reported under the next state's name. */
  function ChangeAsWritten(m: Machine, name: string): (r: Result<Machine, ChangeError>)
    ensures name !in m.states ==> r == Err(NoSuchState(name))
    ensures name in m.states && !TransitionAllowed(m.transitions, m.current.name, name) ==> r == Err(NotAllowed(name))
    ensures r.Ok? <==>
      && name in m.states
      && TransitionAllowed(m.transitions, m.current.name, name)
      && !Fails(m.current.exit)
      && (m.states[name].enter.Some? ==> m.current.enter == Some(None))
    ensures r.Ok? ==> r.value == m.(current := m.states[name])
  {
    if name !in m.states then Err(NoSuchState(name))
    else if m.current.name in m.transitions && name !in m.transitions[m.current.name] then Err(NotAllowed(name))
    else
      var prev := m.current;
      var next := m.states[name];
      if Fails(prev.exit) then Err(ExitFailed(prev.name, prev.exit.value.value))
      else if next.enter.Some? && prev.enter.None? then Err(NilHookPanic)
      else if next.enter.Some? && prev.enter.value.Some? then Err(EnterFailed(next.name, prev.enter.value.value))
      else Ok(m.(current := next))
  }

  /** The evident intent of Change: the entered state's own Enter hook runs.
      Every failure returns an error and so leaves `current` as it was. */
  function Change(m: Machine, name: string): (r: Result<Machine, ChangeError>)
    ensures name !in m.states ==> r == Err(NoSuchState(name))
    ensures name in m.states && !TransitionAllowed(m.transitions, m.current.name, name) ==> r == Err(NotAllowed(name))
    ensures r.Ok? <==>
      && name in m.states
      && TransitionAllowed(m.transitions, m.current.name, name)
      && !Fails(m.current.exit)
      && !Fails(m.states[name].enter)
    ensures r.Ok? ==> r.value == m.(current := m.states[name])
    ensures r.Err? && Fails(m.current.exit) && name in m.states && TransitionAllowed(m.transitions, m.current.name, name) ==>
      r.error == ExitFailed(m.current.name, m.current.exit.value.value)
  {
    if name !in m.states then Err(NoSuchState(name))
    else if m.current.name in m.transitions && name !in m.transitions[m.current.name] then Err(NotAllowed(name))
    else
      var prev := m.current;
      var next := m.states[name];
      if Fails(prev.exit) then Err(ExitFailed(prev.name, prev.exit.value.value))
      else if Fails(next.enter) then Err(EnterFailed(next.name, next.enter.value.value))
      else Ok(m.(current := next))
  }

  /** A state without a transitions entry may be followed by any known state;
      with an entry, exactly the listed names are reachable (hooks aside). */
  lemma TableDecidesSuccessors(m: Machine, name: string)
    requires name in m.states && !Fails(m.current.exit) && !Fails(m.states[name].enter)
    ensures m.current.name !in m.transitions ==> Change(m, name).Ok?
    ensures m.current.name in m.transitions ==> (Change(m, name).Ok? <==> name in m.transitions[m.current.name])
  {
  }

  /** The as-written Change crashes on a transition its intent allows: from
      the zero State (no hooks) into a state whose Enter hook succeeds, Go calls
      the zero State's nil Enter func. */
  lemma PrevEnterCounterexample()
    ensures var target := State("lobby", Some(None), None);
      var m := NewMachine([target], map[]);
      && ChangeAsWritten(m, "lobby") == Err(NilHookPanic)
      && Change(m, "lobby") == Ok(m.(current := target))
  {
    var target := State("lobby", Some(None), None);
    var m := NewMachine([target], map[]);
    assert [target][0].name == "lobby";
    assert m.states["lobby"] == target;
  }
}
