/**
 * The prototype's queued state machine
 * (src/components/state-machine/state-machine.ts).
 *
 * A state's callbacks are represented by the `setState` calls they make:
 * `onEnter` by a function of the entry arguments, `onUpdate` by a fixed
 * list. Running a callback is recorded in the machine's log so that
 * contracts can say which callbacks ran and in what order. The only
 * argument the prototype ever passes on is an attack direction.
 */
module StateMachine {
  import opened Wrappers
  import opened Common

  type Arg = Facing

  datatype Request = Request(name: string, args: seq<Arg>)

  datatype State = State(
    name: string,
    onEnter: Option<seq<Arg> -> seq<Request>>,
    onUpdate: Option<seq<Request>>)

  /** A callback that ran: a state entered with its arguments, or a state's update. */
  datatype Effect = Entered(name: string, args: seq<Arg>) | Updated(name: string)

  datatype Machine = Machine(
    states: map<string, State>,
    current: Option<State>,
    changing: bool,
    queue: seq<Request>,
    log: seq<Effect>)

  /** A new machine: no states, no current state, nothing queued. */
  function New(): (r: Machine)
    ensures r.states == map[] && r.current.None? && !r.changing && r.queue == [] && r.log == []
  {
    Machine(map[], None, false, [], [])
  }

  /** `#isCurrentState`: false when there is no current state, else a name comparison. */
  predicate IsCurrent(current: Option<State>, name: string) {
    current.Some? && current.value.name == name
  }

  /** Every state is registered under its own name. */
  ghost predicate WellFormed(m: Machine) {
    forall k :: k in m.states ==> m.states[k].name == k
  }

  /**
   * The requests that survive the first two tests of `setState` (known
   * name, not the current state), in order: the reference for what a
   * change in progress queues.
   */
  function Admitted(states: map<string, State>, current: Option<State>, reqs: seq<Request>): (r: seq<Request>)
    ensures |r| <= |reqs|
    ensures forall i :: 0 <= i < |r| ==> r[i].name in states && !IsCurrent(current, r[i].name)
  {
    if |reqs| == 0 then []
    else
      var rest := Admitted(states, current, reqs[1..]);
      if reqs[0].name in states && !IsCurrent(current, reqs[0].name) then [reqs[0]] + rest else rest
  }

  /** `setState` while a change is in progress: a known, non-current name is queued. */
  function Defer(m: Machine, req: Request): (r: Machine)
    ensures req.name !in m.states || IsCurrent(m.current, req.name) ==> r == m
    ensures req.name in m.states && !IsCurrent(m.current, req.name) ==> r == m.(queue := m.queue + [req])
  {
    if req.name !in m.states || IsCurrent(m.current, req.name) then m
    else m.(queue := m.queue + [req])
  }

  /** The `setState` calls of an `onEnter`, all made while the change is in progress. */
  function DeferAll(m: Machine, reqs: seq<Request>): (r: Machine)
    ensures r == m.(queue := m.queue + Admitted(m.states, m.current, reqs))
    decreases |reqs|
  {
    if |reqs| == 0 then m
    else
      var r := DeferAll(Defer(m, reqs[0]), reqs[1..]);
      assert m.queue + Admitted(m.states, m.current, reqs) == Defer(m, reqs[0]).queue + Admitted(m.states, m.current, reqs[1..]);
      r
  }

  /**
   * `setState(name, ...args)`: an unknown name and the current state's name
   * are ignored; during a change the request is queued; otherwise the
   * state becomes current, its `onEnter` runs with the arguments (its own
   * `setState` calls are queued), and the change ends.
   */
  function SetState(m: Machine, name: string, args: seq<Arg>): (r: Machine)
    ensures name !in m.states ==> r == m
    ensures IsCurrent(m.current, name) ==> r == m
    ensures name in m.states && !IsCurrent(m.current, name) && m.changing ==>
              r == m.(queue := m.queue + [Request(name, args)])
    ensures name in m.states && !IsCurrent(m.current, name) && !m.changing ==>
              var s := m.states[name];
              && r.states == m.states && r.current == Some(s) && !r.changing
              && r.log == m.log + (if s.onEnter.Some? then [Entered(name, args)] else [])
              && r.queue == m.queue + (if s.onEnter.Some? then Admitted(m.states, Some(s), s.onEnter.value(args)) else [])
    ensures r.changing == m.changing && r.states == m.states
  {
    if name !in m.states then m
    else if IsCurrent(m.current, name) then m
    else if m.changing then m.(queue := m.queue + [Request(name, args)])
    else
      var s := m.states[name];
      var entering := m.(changing := true, current := Some(s));
      var entered := match s.onEnter
        case Some(enter) => DeferAll(entering.(log := m.log + [Entered(name, args)]), enter(args))
        case None => entering;
      entered.(changing := false)
  }

  /** While a change is in progress, `setState` is exactly the deferral. */
  lemma SetStateDuringChange(m: Machine, name: string, args: seq<Arg>)
    requires m.changing
    ensures SetState(m, name, args) == Defer(m, Request(name, args))
  {
  }

  /** `setState` calls made one after another, as an `onUpdate` makes them. */
  function SetStates(m: Machine, reqs: seq<Request>): (r: Machine)
    ensures r.changing == m.changing && r.states == m.states
    ensures |m.log| <= |r.log| && r.log[..|m.log|] == m.log
    ensures forall i :: |m.log| <= i < |r.log| ==> r.log[i].Entered?
    decreases |reqs|
  {
    if |reqs| == 0 then m
    else SetStates(SetState(m, reqs[0].name, reqs[0].args), reqs[1..])
  }

  /**
   * `update`: a queued request, if any, is taken from the head of the
   * queue and applied, and the current state's `onUpdate` is skipped;
   * otherwise the current state's `onUpdate` runs, if it has one.
   */
  function Update(m: Machine): (r: Machine)
    ensures m.queue != [] ==> r == SetState(m.(queue := m.queue[1..]), m.queue[0].name, m.queue[0].args)
    ensures m.queue == [] && (m.current.None? || m.current.value.onUpdate.None?) ==> r == m
    ensures m.queue == [] && m.current.Some? && m.current.value.onUpdate.Some? ==>
              r == SetStates(m.(log := m.log + [Updated(m.current.value.name)]), m.current.value.onUpdate.value)
  {
    if m.queue != [] then SetState(m.(queue := m.queue[1..]), m.queue[0].name, m.queue[0].args)
    else match m.current
      case Some(s) =>
        (match s.onUpdate
         case Some(calls) => SetStates(m.(log := m.log + [Updated(s.name)]), calls)
         case None => m)
      case None => m
  }

  /**
   * The queue is first in, first out: an update that takes a request leaves
   * the rest of the queue at the front, in order, and runs no `onUpdate`.
   */
  lemma UpdateIsFifo(m: Machine)
    requires m.queue != [] && !m.changing
    ensures var r := Update(m);
            && |r.queue| >= |m.queue| - 1 && r.queue[..|m.queue| - 1] == m.queue[1..]
            && |r.log| >= |m.log| && r.log[..|m.log|] == m.log
            && forall i :: |m.log| <= i < |r.log| ==> r.log[i] == Entered(m.queue[0].name, m.queue[0].args)
  {
  }

  /** `addState`: the state is registered under its name, replacing any earlier one. */
  function AddState(m: Machine, s: State): (r: Machine)
    ensures s.name in r.states && r.states[s.name] == s
    ensures forall k :: k != s.name ==> (k in r.states <==> k in m.states)
    ensures forall k :: k != s.name && k in m.states ==> r.states[k] == m.states[k]
    ensures r.current == m.current && r.changing == m.changing && r.queue == m.queue && r.log == m.log
  {
    m.(states := m.states[s.name := s])
  }

  /** Registering keeps every state under its own name. */
  lemma AddStateKeepsWellFormed(m: Machine, s: State)
    requires WellFormed(m)
    ensures WellFormed(AddState(m, s))
  {
  }

  /** A state just added can be entered: `setState` with its name makes it current. */
  lemma AddThenEnter(m: Machine, s: State, args: seq<Arg>)
    requires !m.changing && !IsCurrent(m.current, s.name)
    ensures SetState(AddState(m, s), s.name, args).current == Some(s)
  {
  }
}
