/**
 * The per-enrollment event state machine of Clause 13.2 of ASHRAE 135-2020.
 *
 * `EventStateMachine` is the object the engine keeps for every enrollment; it
 * follows the branches of the original method for method.  `Machine` is its
 * value, and `Evaluate` describes one scan cycle as a demand (what the inputs
 * call for) that is then served (what the pending timer makes of it).
 */
module EventMachine {
  import opened Prelude

  datatype EventState = Normal | Fault | Offnormal | HighLimit | LowLimit | LifeSafetyAlarm

  datatype Reliability = NoFaultDetected | FaultDetected(code: nat)

  /** The three-element lists `event_enable` and `acked_transitions`. */
  datatype Slots = Slots(offnormal: bool, fault: bool, normal: bool)

  datatype Settings = Settings(enable: Slots, timeDelay: real, timeDelayNormal: Option<real>) {
    function EffectiveTimeDelayNormal(): real {
      if timeDelayNormal.Some? then timeDelayNormal.value else timeDelay
    }
  }

  datatype Transition = Transition(from: EventState, to: EventState, timestamp: real)

  datatype Machine = Machine(
    state: EventState,
    settings: Settings,
    acked: Slots,
    pendingState: Option<EventState>,
    pendingSince: Option<real>)
  {
    /** The pending state and its start time are set and unset together. */
    predicate Paired() {
      pendingState.Some? <==> pendingSince.Some?
    }

    predicate Valid() {
      Paired() && pendingState != Some(state)
    }
  }

  function Slot(slots: Slots, target: EventState): bool {
    match target
    case Fault => slots.fault
    case Normal => slots.normal
    case _ => slots.offnormal
  }

  function ClearSlot(slots: Slots, target: EventState): Slots {
    match target
    case Fault => slots.(fault := false)
    case Normal => slots.(normal := false)
    case _ => slots.(offnormal := false)
  }

  /** What one cycle's inputs call for, whatever the timer says. */
  datatype Demand =
    | Ignore                                  // a fault that changes nothing
    | Trip                                    // enter FAULT at once
    | Ask(target: EventState, delay: real)    // go to target once it has lasted long enough
    | Hold(target: EventState)                // target is disabled, but its timer is kept
    | Release                                 // nothing is called for

  function DemandOf(state: EventState, s: Settings, result: Option<EventState>, fault: Reliability): Demand {
    var target := if result.Some? then result.value else Normal;
    if fault != NoFaultDetected then
      if state != Fault && s.enable.fault then Trip else Ignore
    else if target == Normal then
      if state == Normal then Release
      else if s.enable.normal then Ask(Normal, s.EffectiveTimeDelayNormal())
      else if state == Fault then Hold(Normal) else Release
    else if state == Fault then
      if s.enable.offnormal then Ask(target, s.timeDelay) else Hold(target)
    else if target != state && s.enable.offnormal then Ask(target, s.timeDelay)
    else Release
  }

  function Enter(m: Machine, target: EventState, now: real): (Machine, Option<Transition>) {
    (m.(state := target, acked := ClearSlot(m.acked, target), pendingState := None, pendingSince := None),
     Some(Transition(m.state, target, now)))
  }

  /** The time a demand for `target` has lasted, counting from `now` if it is new. */
  function Elapsed(m: Machine, target: EventState, now: real): real
    requires m.Paired()
  {
    if m.pendingState == Some(target) then now - m.pendingSince.value else 0.0
  }

  function Serve(m: Machine, d: Demand, now: real): (r: (Machine, Option<Transition>))
    requires m.Paired()
    ensures r.0.Paired()
  {
    match d
    case Ignore => (m, None)
    case Trip => Enter(m, Fault, now)
    case Ask(target, delay) =>
      if Elapsed(m, target, now) >= delay then Enter(m, target, now)
      else if m.pendingState == Some(target) then (m, None)
      else (m.(pendingState := Some(target), pendingSince := Some(now)), None)
    case Hold(target) =>
      (if m.pendingState == Some(target) then m else m.(pendingState := None, pendingSince := None), None)
    case Release => (m.(pendingState := None, pendingSince := None), None)
  }

  function Evaluate(m: Machine, result: Option<EventState>, fault: Reliability, now: real)
    : (r: (Machine, Option<Transition>))
    requires m.Paired()
    ensures r.0.Paired()
  {
    Serve(m, DemandOf(m.state, m.settings, result, fault), now)
  }

  class EventStateMachine {
    var eventState: EventState
    var eventEnable: Slots
    var ackedTransitions: Slots
    var timeDelay: real
    var timeDelayNormal: Option<real>
    var pendingState: Option<EventState>
    var pendingSince: Option<real>

    ghost function Value(): Machine
      reads this
    {
      Machine(eventState, Settings(eventEnable, timeDelay, timeDelayNormal), ackedTransitions,
              pendingState, pendingSince)
    }

    constructor ()
      ensures Value() ==
              Machine(Normal, Settings(Slots(true, true, true), 0.0, None), Slots(true, true, true), None, None)
      ensures Value().Valid()
    {
      eventState := Normal;
      eventEnable := Slots(true, true, true);
      ackedTransitions := Slots(true, true, true);
      timeDelay, timeDelayNormal := 0.0, None;
      pendingState, pendingSince := None, None;
    }

    method EnterState(target: EventState, currentTime: real) returns (transition: Option<Transition>)
      modifies this
      ensures Value() == old(Value()).(state := target, acked := ClearSlot(old(Value()).acked, target),
                                       pendingState := None, pendingSince := None)
      ensures transition == Some(Transition(old(eventState), target, currentTime))
    {
      var previous := eventState;
      eventState := target;
      pendingState, pendingSince := None, None;
      if target == Fault {
        ackedTransitions := ackedTransitions.(fault := false);
      } else if target == Normal {
        ackedTransitions := ackedTransitions.(normal := false);
      } else {
        ackedTransitions := ackedTransitions.(offnormal := false);
      }
      return Some(Transition(previous, target, currentTime));
    }

    method ApplyDelay(target: EventState, currentTime: real, normal: bool) returns (transition: Option<Transition>)
      requires Value().Paired()
      modifies this
      ensures var s := old(Value().settings);
              (Value(), transition) ==
              Serve(old(Value()), Ask(target, if normal then s.EffectiveTimeDelayNormal() else s.timeDelay),
                    currentTime)
    {
      var delay := if !normal || timeDelayNormal.None? then timeDelay else timeDelayNormal.value;

      if pendingState != Some(target) {
        pendingState := Some(target);
        pendingSince := Some(currentTime);
        if delay <= 0.0 {
          transition := EnterState(target, currentTime);
          return;
        }
        return None;
      }

      assert pendingSince.Some?;
      if currentTime - pendingSince.value >= delay {
        transition := EnterState(target, currentTime);
        return;
      }
      return None;
    }

    method EvaluateCycle(eventResult: Option<EventState>, faultResult: Reliability, currentTime: real)
      returns (transition: Option<Transition>)
      requires Value().Paired()
      modifies this
      ensures (Value(), transition) == Evaluate(old(Value()), eventResult, faultResult, currentTime)
    {
      var hasFault := faultResult != NoFaultDetected;

      if hasFault && eventState != Fault {
        if eventEnable.fault {
          transition := EnterState(Fault, currentTime);
          return;
        }
        return None;
      }
      if hasFault && eventState == Fault {
        return None;
      }

      if eventState == Fault && !hasFault {
        var target := if eventResult.Some? then eventResult.value else Normal;
        if target == Normal {
          if eventEnable.normal {
            transition := ApplyDelay(target, currentTime, true);
            return;
          }
        } else {
          if eventEnable.offnormal {
            transition := ApplyDelay(target, currentTime, false);
            return;
          }
        }
        if pendingState != Some(target) {
          pendingState, pendingSince := None, None;
        }
        return None;
      }

      if eventState == Normal {
        if eventResult.Some? && eventResult.value != Normal && eventEnable.offnormal {
          transition := ApplyDelay(eventResult.value, currentTime, false);
          return;
        }
        pendingState, pendingSince := None, None;
        return None;
      }

      if eventResult.None? || eventResult.value == Normal {
        if eventEnable.normal {
          transition := ApplyDelay(Normal, currentTime, true);
          return;
        }
        pendingState, pendingSince := None, None;
        return None;
      }

      if eventResult.value != eventState && eventEnable.offnormal {
        transition := ApplyDelay(eventResult.value, currentTime, false);
        return;
      }
      pendingState, pendingSince := None, None;
      return None;
    }
  }

  // ---------------------------------------------------------------------
  // Runs.  The engine copies the enrollment's settings into the machine
  // before every cycle, so each cycle carries its own.
  // ---------------------------------------------------------------------

  datatype Cycle = Cycle(now: real, result: Option<EventState>, fault: Reliability, settings: Settings)

  function Step(m: Machine, c: Cycle): (r: (Machine, Option<Transition>))
    requires m.Paired()
    ensures r.0.Paired()
  {
    Evaluate(m.(settings := c.settings), c.result, c.fault, c.now)
  }

  /** The machine after the first i cycles. */
  function At(m: Machine, cs: seq<Cycle>, i: nat): (r: Machine)
    requires m.Paired() && i <= |cs|
    ensures r.Paired()
  {
    if i == 0 then m else Step(At(m, cs, i - 1), cs[i - 1]).0
  }

  /** The transition returned by cycle i. */
  function Fired(m: Machine, cs: seq<Cycle>, i: nat): Option<Transition>
    requires m.Paired() && i < |cs|
  {
    Step(At(m, cs, i), cs[i]).1
  }

  /** A transition that leaves its state, through an enabled slot, and unacknowledges exactly that slot. */
  ghost predicate ProperTransition(before: Machine, c: Cycle, t: Transition, after: Machine) {
    var enable := c.settings.enable;
    && t.from == before.state
    && t.to == after.state
    && t.from != t.to
    && t.timestamp == c.now
    && (if t.to == Fault then enable.fault else if t.to == Normal then enable.normal else enable.offnormal)
    && (t.to == Fault <==> c.fault != NoFaultDetected)
    && (after.acked.fault <==> before.acked.fault && t.to != Fault)
    && (after.acked.normal <==> before.acked.normal && t.to != Normal)
    && (after.acked.offnormal <==> before.acked.offnormal && (t.to == Fault || t.to == Normal))
    && after.pendingState == None
  }

  /** A vendor algorithm that reports FAULT as an event, where there is no fault. */
  predicate FaultAsEvent(c: Cycle) {
    c.result == Some(Fault) && c.fault == NoFaultDetected
  }

  /** A transition is proper exactly when it was not an algorithm that reported FAULT. */
  lemma ProperExactly(m: Machine, c: Cycle)
    requires m.Paired()
    ensures var (after, fired) := Step(m, c);
            fired.Some? ==> (ProperTransition(m, c, fired.value, after) <==> !FaultAsEvent(c))
  {
  }

  /**
   * The pending state can equal the current one in FAULT only, after an algorithm reported FAULT
   * there: while its delay runs, or while the slot is disabled or a fault is present after that.
   */
  lemma PendingForCurrentExactly(m: Machine, c: Cycle)
    requires m.Paired()
    ensures var (after, fired) := Step(m, c);
            after.pendingState == Some(after.state) <==>
              && fired.None?
              && (if FaultAsEvent(c) && m.state == Fault
                  then c.settings.enable.offnormal || m.pendingState == Some(Fault)
                  else m.pendingState == Some(m.state) && c.fault != NoFaultDetected)
  {
  }

  lemma StepKeepsRest(m: Machine, c: Cycle)
    requires m.Paired()
    ensures var (after, fired) := Step(m, c); fired.None? ==> after.state == m.state && after.acked == m.acked
    ensures var after := Step(m, c).0; m.Valid() && !after.Valid() ==> after.state == Fault && FaultAsEvent(c)
  {
  }

  /**
   * Every run is a path of transitions, each proper unless an algorithm reported FAULT as an
   * event; without that, the pending state never equals the current one.
   */
  lemma {:induction false} RunIsWellFormedPath(m: Machine, cs: seq<Cycle>, i: nat)
    requires m.Valid() && i <= |cs|
    ensures At(m, cs, i).Paired()
    ensures !At(m, cs, i).Valid() ==> At(m, cs, i).state == Fault && exists k :: 0 <= k < i && FaultAsEvent(cs[k])
    ensures i < |cs| && Fired(m, cs, i).Some? ==>
              (ProperTransition(At(m, cs, i), cs[i], Fired(m, cs, i).value, At(m, cs, i + 1)) <==> !FaultAsEvent(cs[i]))
    ensures i < |cs| && Fired(m, cs, i).None? ==>
              At(m, cs, i + 1).state == At(m, cs, i).state && At(m, cs, i + 1).acked == At(m, cs, i).acked
  {
    if i == 0 {
    } else {
      RunIsWellFormedPath(m, cs, i - 1);
      PendingForCurrentExactly(At(m, cs, i - 1), cs[i - 1]);
      StepKeepsRest(At(m, cs, i - 1), cs[i - 1]);
    }
    if i < |cs| {
      ProperExactly(At(m, cs, i), cs[i]);
      StepKeepsRest(At(m, cs, i), cs[i]);
    }
  }

  /** A fault trips a machine outside FAULT in the same cycle, if that is enabled, and otherwise changes nothing. */
  lemma FaultTripsAtOnce(m: Machine, c: Cycle)
    requires m.Paired() && c.fault != NoFaultDetected
    ensures var (after, fired) := Step(m, c);
            if m.state != Fault && c.settings.enable.fault
            then fired == Some(Transition(m.state, Fault, c.now)) && after.state == Fault
            else fired == None && after == m.(settings := c.settings)
  {
  }

  /** Without a fault nothing moves while the result is the state the machine is in, or asks for what is disabled. */
  lemma NothingToDo(m: Machine, c: Cycle)
    requires m.Paired() && c.fault == NoFaultDetected
    requires var target := if c.result.Some? then c.result.value else Normal;
             || (target == m.state && m.state != Fault)
             || (if target == Normal then !c.settings.enable.normal else !c.settings.enable.offnormal)
    ensures var (after, fired) := Step(m, c);
            && fired == None && after.state == m.state && after.acked == m.acked
            && (m.state != Fault ==> after.pendingState == None)
  {
  }

  /** Consecutive transitions chain: each starts where the one before it ended. */
  lemma {:induction false} TransitionsChain(m: Machine, cs: seq<Cycle>, i: nat, j: nat)
    requires m.Paired() && i < j < |cs|
    requires Fired(m, cs, i).Some? && Fired(m, cs, j).Some?
    requires forall k :: i < k < j ==> Fired(m, cs, k).None?
    ensures Fired(m, cs, i).value.to == Fired(m, cs, j).value.from
  {
    for k := i + 1 to j
      invariant At(m, cs, k).state == Fired(m, cs, i).value.to
    {
      assert Fired(m, cs, k).None?;
      StepKeepsRest(At(m, cs, k), cs[k]);
      assert At(m, cs, k + 1) == Step(At(m, cs, k), cs[k]).0;
    }
  }

  /**
   * Without the assumption that no algorithm reports FAULT the path property fails:
   * a vendor algorithm that does so makes the machine re-enter FAULT from FAULT.
   */
  lemma FaultResultReentersFault()
    ensures var s := Settings(Slots(true, true, true), 0.0, None);
            var m := Machine(Fault, s, Slots(true, true, true), None, None);
            && m.Valid()
            && Step(m, Cycle(0.0, Some(Fault), NoFaultDetected, s)).1 == Some(Transition(Fault, Fault, 0.0))
  {
  }
}
