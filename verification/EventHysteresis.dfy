/**
 * The deadband evaluators of Clauses 13.3.5 and 13.3.6, driven by the state of the machine
 * they feed, and the bound this loop puts on the number of alarms.
 */
module EventHysteresis {
  import opened Prelude
  import opened EventHistory
  import opened EventMachine

  /** A limit that is absent is the infinity standing for a disabled side. */
  datatype Limits = Limits(high: Option<real>, low: Option<real>, deadband: real) {
    ghost predicate Sensible() {
      deadband >= 0.0 && (high.Some? && low.Some? ==> low.value <= high.value)
    }

    /** The same limits, measured from a setpoint. */
    function Around(setpoint: real): Limits {
      Limits(if high.Some? then Some(setpoint + high.value) else None,
             if low.Some? then Some(setpoint + low.value) else None, deadband)
    }
  }

  function EvaluateOutOfRange(value: real, limits: Limits, current: EventState): Option<EventState> {
    var high, low, deadband := limits.high, limits.low, limits.deadband;
    if high.Some? && value > high.value then Some(HighLimit)
    else if low.Some? && value < low.value then Some(LowLimit)
    else if current == HighLimit && high.Some? && value >= high.value - deadband then Some(HighLimit)
    else if current == LowLimit && low.Some? && value <= low.value + deadband then Some(LowLimit)
    else None
  }

  function EvaluateFloatingLimit(value: real, setpoint: real, highDiff: real, lowDiff: real, deadband: real,
                                 current: EventState): Option<EventState>
  {
    EvaluateOutOfRange(value, Limits(Some(setpoint + highDiff), Some(setpoint - lowDiff), deadband), current)
  }

  /** The value is beyond a limit, if there is one. */
  ghost predicate Above(value: real, limit: Option<real>) {
    limit.Some? && value > limit.value
  }

  ghost predicate Below(value: real, limit: Option<real>) {
    limit.Some? && value < limit.value
  }

  /**
   * The evaluator exactly: an alarm beyond its limit, the high one first, and in its own alarm
   * state also as long as the value has not come back by more than the deadband, unless it is
   * beyond the other limit.
   */
  lemma EvaluatesExactly(value: real, limits: Limits, current: EventState)
    ensures var r, high, low, deadband :=
              EvaluateOutOfRange(value, limits, current), limits.high, limits.low, limits.deadband;
            && (r == Some(HighLimit) <==>
                  || Above(value, high)
                  || (current == HighLimit && high.Some? && value >= high.value - deadband && !Below(value, low)))
            && (r == Some(LowLimit) <==>
                  && !Above(value, high)
                  && (Below(value, low) || (current == LowLimit && low.Some? && value <= low.value + deadband)))
            && (r == Some(HighLimit) || r == Some(LowLimit) || r == None)
  {
  }

  /** FLOATING_LIMIT exactly, in the same terms, its limits measured from the setpoint. */
  lemma FloatingEvaluatesExactly(value: real, setpoint: real, highDiff: real, lowDiff: real, deadband: real,
                                 current: EventState)
    ensures var r := EvaluateFloatingLimit(value, setpoint, highDiff, lowDiff, deadband, current);
            && (r == Some(HighLimit) <==>
                  || value > setpoint + highDiff
                  || (current == HighLimit && value >= setpoint + highDiff - deadband && value >= setpoint - lowDiff))
            && (r == Some(LowLimit) <==>
                  && value <= setpoint + highDiff
                  && (value < setpoint - lowDiff
                      || (current == LowLimit && value <= setpoint - lowDiff + deadband)))
            && (r == Some(HighLimit) || r == Some(LowLimit) || r == None)
  {
  }

  /**
   * One scan cycle of the engine: a sampled value, the setpoint its limits are measured from
   * (0 for OUT_OF_RANGE, whose limits are absolute), and everything else the cycle read.
   */
  datatype Sample = Sample(
    now: real, value: real, setpoint: real, fault: Reliability, inhibit: bool, settings: Settings)

  /** The cycle the engine feeds to the machine: the evaluator sees the machine's own state. */
  function FedBack(limits: Limits, m: Machine, s: Sample): Cycle {
    var result := EvaluateOutOfRange(s.value, limits.Around(s.setpoint), m.state);
    Cycle(s.now, if s.inhibit then Some(Normal) else result, s.fault, s.settings)
  }

  /** One cycle of the engine: copy the settings, run the evaluator on the machine's state, feed the result back. */
  method EvaluateEnrollment(machine: EventStateMachine, limits: Limits,
                            s: Sample) returns (transition: Option<Transition>)
    requires machine.Value().Paired()
    modifies machine
    ensures (machine.Value(), transition) == Step(old(machine.Value()), FedBack(limits, old(machine.Value()), s))
  {
    machine.eventEnable := s.settings.enable;
    machine.timeDelay := s.settings.timeDelay;
    machine.timeDelayNormal := s.settings.timeDelayNormal;
    var result := EvaluateOutOfRange(s.value, limits.Around(s.setpoint), machine.eventState);
    if s.inhibit {
      result := Some(Normal);
    }
    transition := machine.EvaluateCycle(result, s.fault, s.now);
  }

  /** A sample that no fault, inhibition, disabled transition, delay or running timer stands in the way of. */
  ghost predicate Plain(m: Machine, s: Sample) {
    && m.pendingState == None && m.pendingSince == None
    && s.fault == NoFaultDetected && !s.inhibit
    && s.settings.enable == Slots(true, true, true)
    && s.settings.timeDelay <= 0.0 && (s.settings.timeDelayNormal.Some? ==> s.settings.timeDelayNormal.value <= 0.0)
  }

  /** From NORMAL a plain sample enters the alarm of the limit it lies beyond, and nothing else. */
  lemma AlarmsExactly(limits: Limits, m: Machine, s: Sample)
    requires Plain(m, s) && m.state == Normal
    ensures var e, fired := s.value - s.setpoint, Step(m, FedBack(limits, m, s)).1;
            fired ==
            if Above(e, limits.high) then Some(Transition(Normal, HighLimit, s.now))
            else if Below(e, limits.low) then Some(Transition(Normal, LowLimit, s.now))
            else None
  {
    EvaluatesExactly(s.value, limits.Around(s.setpoint), m.state);
  }

  /** From an alarm it returns exactly when the value is back by more than the deadband, or moves to the other alarm. */
  lemma ReturnsExactly(limits: Limits, m: Machine, s: Sample)
    requires Plain(m, s)
    ensures var e, fired := s.value - s.setpoint, Step(m, FedBack(limits, m, s)).1;
            && (m.state == HighLimit ==>
                  fired ==
                  if Above(e, limits.high) then None
                  else if Below(e, limits.low) then Some(Transition(HighLimit, LowLimit, s.now))
                  else if limits.high.Some? && e >= limits.high.value - limits.deadband then None
                  else Some(Transition(HighLimit, Normal, s.now)))
            && (m.state == LowLimit ==>
                  fired ==
                  if Above(e, limits.high) then Some(Transition(LowLimit, HighLimit, s.now))
                  else if Below(e, limits.low) then None
                  else if limits.low.Some? && e <= limits.low.value + limits.deadband then None
                  else Some(Transition(LowLimit, Normal, s.now)))
  {
    EvaluatesExactly(s.value, limits.Around(s.setpoint), m.state);
  }

  /** An inhibited sample counts as NORMAL, wherever its value lies; otherwise it is handed over as it is. */
  lemma InhibitedIsNormal(limits: Limits, m: Machine, s: Sample)
    ensures var c := FedBack(limits, m, s);
            && c.now == s.now && c.fault == s.fault && c.settings == s.settings
            && (s.inhibit ==> c.result == Some(Normal))
            && (!s.inhibit ==> c.result == EvaluateOutOfRange(s.value, limits.Around(s.setpoint), m.state))
  {
  }

  /** The cycles that the engine makes of the samples, each evaluated in the state the machine is in by then. */
  ghost predicate FedBackAll(limits: Limits, m: Machine, ss: seq<Sample>, cs: seq<Cycle>)
    requires m.Paired()
  {
    |cs| == |ss| && forall k :: 0 <= k < |ss| ==> cs[k] == FedBack(limits, At(m, cs, k), ss[k])
  }

  /** The alarm whose limit the sample lies beyond. */
  ghost predicate LiesIn(limits: Limits, s: Sample, t: EventState) {
    var e := s.value - s.setpoint;
    && !s.inhibit
    && (t == HighLimit || t == LowLimit)
    && (if t == HighLimit then Above(e, limits.high) else !Above(e, limits.high) && Below(e, limits.low))
  }

  lemma {:induction false} LiesInIsResult(limits: Limits, m: Machine, ss: seq<Sample>, cs: seq<Cycle>, i: nat, k: nat,
                                          t: EventState)
    requires m.Paired() && m.state == Normal && FedBackAll(limits, m, ss, cs) && k <= i < |ss|
    requires forall l :: 0 <= l < i ==> Fired(m, cs, l).None?
    requires t == HighLimit || t == LowLimit
    ensures cs[k].result == Some(t) <==> LiesIn(limits, ss[k], t)
    ensures cs[k].now == ss[k].now && cs[k].fault == ss[k].fault && cs[k].settings == ss[k].settings
  {
    StaysPut(m, cs, i, k);
    EvaluatesExactly(ss[k].value, limits.Around(ss[k].setpoint), Normal);
  }

  /**
   * The loop with its delay: without faults and with alarms enabled, a machine still in NORMAL
   * enters the alarm t with sample i exactly when the unbroken stretch of samples beyond its limit
   * that ends at i began, with sample j, at least the time delay ago.
   */
  lemma {:induction false} LoopAlarmIsPunctual(limits: Limits, m: Machine, ss: seq<Sample>, cs: seq<Cycle>, j: nat,
                                               i: nat, t: EventState)
    requires m.Paired() && m.pendingState == None && m.state == Normal && FedBackAll(limits, m, ss, cs)
    requires j <= i < |ss| && (t == HighLimit || t == LowLimit)
    requires forall k :: 0 <= k <= i ==> ss[k].fault == NoFaultDetected && ss[k].settings.enable.offnormal
    requires forall k :: 0 <= k < i ==> Fired(m, cs, k).None?
    requires forall k :: j <= k <= i ==> LiesIn(limits, ss[k], t)
    requires j == 0 || !LiesIn(limits, ss[j - 1], t)
    ensures Fired(m, cs, i) ==
            if ss[i].now - ss[j].now >= ss[i].settings.timeDelay then Some(Transition(Normal, t, ss[i].now)) else None
  {
    forall k | 0 <= k <= i
      ensures cs[k].result == Some(t) <==> LiesIn(limits, ss[k], t)
      ensures cs[k].now == ss[k].now && cs[k].fault == ss[k].fault && cs[k].settings == ss[k].settings
    {
      LiesInIsResult(limits, m, ss, cs, i, k, t);
    }
    FirstAlarmIsPunctual(m, cs, j, i, t);
  }

  ghost predicate IsAlarm(t: Option<Transition>) {
    t.Some? && (t.value.to == HighLimit || t.value.to == LowLimit)
  }

  /** A fault, or an inhibited return to NORMAL: the next alarm may then come for free. */
  ghost predicate Excused(t: Option<Transition>, s: Sample) {
    t.Some? && (t.value.to == Fault || (t.value.to == Normal && s.inhibit))
  }

  /** What the machine remembers of its last alarm. */
  datatype Memory = Free | InHigh | InLow | LeftHigh | LeftLow

  /** The machine after a run, and how often it entered HIGH_LIMIT or LOW_LIMIT, or an excuse arose. */
  datatype Tally = Tally(machine: Machine, memory: Memory, alarms: nat, excuses: nat)

  ghost function NextMemory(mem: Memory, t: Option<Transition>, s: Sample): Memory {
    if t.None? then mem
    else if t.value.to == HighLimit then InHigh
    else if t.value.to == LowLimit then InLow
    else if Excused(t, s) then Free
    else if mem == InHigh then LeftHigh
    else if mem == InLow then LeftLow
    else mem
  }

  ghost function NextTally(limits: Limits, y: Tally, s: Sample): (r: Tally)
    requires y.machine.Paired()
    ensures r.machine.Paired()
  {
    var (m, t) := Step(y.machine, FedBack(limits, y.machine, s));
    Tally(m, NextMemory(y.memory, t, s), y.alarms + (if IsAlarm(t) then 1 else 0),
          y.excuses + if Excused(t, s) then 1 else 0)
  }

  ghost function Tallied(limits: Limits, m: Machine, ss: seq<Sample>): (r: Tally)
    requires m.Paired()
    ensures r.machine.Paired()
  {
    if ss == [] then Tally(m, Free, 0, 0)
    else NextTally(limits, Tallied(limits, m, ss[..|ss| - 1]), ss[|ss| - 1])
  }

  function Error(s: Sample): real {
    s.value - s.setpoint
  }

  /** The monitored values, each measured from its setpoint. */
  function Errors(ss: seq<Sample>): seq<real> {
    if ss == [] then [] else Errors(ss[..|ss| - 1]) + [Error(ss[|ss| - 1])]
  }

  /** The least the value must travel between two alarms. */
  ghost function Width(limits: Limits): real {
    if limits.high.Some? && limits.low.Some?
    then Min(2.0 * limits.deadband, limits.high.value - limits.low.value)
    else 2.0 * limits.deadband
  }

  /** The travel that is certain to have happened since the last alarm, given the value now. */
  ghost function Travelled(limits: Limits, mem: Memory, v: real): real {
    match mem
    case Free => Width(limits)
    case InHigh => if limits.high.Some? then Max(0.0, limits.high.value - v) else 0.0
    case InLow => if limits.low.Some? then Max(0.0, v - limits.low.value) else 0.0
    case LeftHigh =>
      if limits.high.Some?
      then Max(0.0, Max(limits.high.value - v, 2.0 * limits.deadband + v - limits.high.value)) else 0.0
    case LeftLow =>
      if limits.low.Some?
      then Max(0.0, Max(v - limits.low.value, 2.0 * limits.deadband + limits.low.value - v)) else 0.0
  }

  /** The memory agrees with the state the machine is in. */
  ghost predicate Coherent(limits: Limits, state: EventState, mem: Memory) {
    && (state == Normal || state == HighLimit || state == LowLimit || state == Fault)
    && (state == HighLimit <==> mem == InHigh)
    && (state == LowLimit <==> mem == InLow)
    && (mem == InHigh || mem == LeftHigh ==> limits.high.Some?)
    && (mem == InLow || mem == LeftLow ==> limits.low.Some?)
    && (state == Fault ==> mem == Free)
  }

  /** Where the error lies when the machine moves, or stays in its alarm. */
  lemma WhatMovesSay(limits: Limits, m: Machine, s: Sample)
    requires m.Paired()
    ensures var (m', t) := Step(m, FedBack(limits, m, s));
            var high, low, e := limits.high, limits.low, Error(s);
            && m'.state == (if t.Some? then t.value.to else m.state)
            && (t.Some? ==> t.value.from == m.state != t.value.to)
            && (t.Some? ==>
                  t.value.to == HighLimit || t.value.to == LowLimit || t.value.to == Normal || t.value.to == Fault)
            && (t.Some? && t.value.to == HighLimit ==> high.Some? && e > high.value)
            && (t.Some? && t.value.to == LowLimit ==> low.Some? && e < low.value)
            && (t.Some? && t.value.to == Normal && !s.inhibit && m.state == HighLimit && high.Some? ==>
                  e < high.value - limits.deadband)
            && (t.Some? && t.value.to == Normal && !s.inhibit && m.state == LowLimit && low.Some? ==>
                  e > low.value + limits.deadband)
  {
  }

  lemma MovePays(limits: Limits, state: EventState, mem: Memory, t: Option<Transition>, s: Sample, prev: real)
    requires limits.Sensible() && Coherent(limits, state, mem)
    requires var high, low, e := limits.high, limits.low, Error(s);
             t.Some? ==>
               && t.value.to != state
               && (t.value.to == HighLimit || t.value.to == LowLimit || t.value.to == Normal || t.value.to == Fault)
               && (t.value.to == HighLimit ==> high.Some? && e > high.value)
               && (t.value.to == LowLimit ==> low.Some? && e < low.value)
               && (t.value.to == Normal && !s.inhibit && state == HighLimit && high.Some? ==>
                     e < high.value - limits.deadband)
               && (t.value.to == Normal && !s.inhibit && state == LowLimit && low.Some? ==>
                     e > low.value + limits.deadband)
    ensures var mem' := NextMemory(mem, t, s);
            && Coherent(limits, if t.Some? then t.value.to else state, mem')
            && (if IsAlarm(t) then Width(limits) else 0.0) - (if Excused(t, s) then Width(limits) else 0.0)
               + Travelled(limits, mem', Error(s))
               <= Travelled(limits, mem, prev) + Abs(Error(s) - prev)
  {
  }

  /** One sample pays for itself: travel plus old credit covers the alarm and the new credit. */
  lemma StepPays(limits: Limits, m: Machine, mem: Memory, s: Sample, prev: real)
    requires m.Paired() && limits.Sensible() && Coherent(limits, m.state, mem)
    ensures var (m', t) := Step(m, FedBack(limits, m, s));
            var mem' := NextMemory(mem, t, s);
            && Coherent(limits, m'.state, mem')
            && (if IsAlarm(t) then Width(limits) else 0.0) - (if Excused(t, s) then Width(limits) else 0.0)
               + Travelled(limits, mem', Error(s))
               <= Travelled(limits, mem, prev) + Abs(Error(s) - prev)
  {
    WhatMovesSay(limits, m, s);
    var (m', t) := Step(m, FedBack(limits, m, s));
    MovePays(limits, m.state, mem, t, s, prev);
  }

  /** Adding a step's charge to the account. */
  lemma Charge(net: int, w: real, alarm: bool, excuse: bool, credit: real, credit': real, spent: real, travel: real)
    requires Scale(net, w) + credit <= spent
    requires !(alarm && excuse)
    requires (if alarm then w else 0.0) - (if excuse then w else 0.0) + credit' <= credit + travel
    ensures Scale(net + (if alarm then 1 else 0) - (if excuse then 1 else 0), w) + credit' <= spent + travel
  {
    ScaleSucc(net, w);
    ScaleSucc(net - 1, w);
  }

  lemma VariationSnoc(vs: seq<real>, v: real)
    ensures Variation(vs + [v]) == if vs == [] then 0.0 else Variation(vs) + Abs(v - vs[|vs| - 1])
  {
    assert (vs + [v])[..|vs|] == vs;
  }

  /** The account of a run: charges and present credit are covered by what the error has travelled. */
  ghost predicate Settled(limits: Limits, y: Tally, last: real, spent: real) {
    && Coherent(limits, y.machine.state, y.memory)
    && Scale(y.alarms - 1 - y.excuses, Width(limits)) + Travelled(limits, y.memory, last) <= spent
  }

  lemma NextIsSettled(limits: Limits, y: Tally, s: Sample, last: real, spent: real)
    requires y.machine.Paired() && limits.Sensible() && Settled(limits, y, last, spent)
    ensures Settled(limits, NextTally(limits, y, s), Error(s), spent + Abs(Error(s) - last))
  {
    var t := Step(y.machine, FedBack(limits, y.machine, s)).1;
    StepPays(limits, y.machine, y.memory, s, last);
    Charge(y.alarms - 1 - y.excuses, Width(limits), IsAlarm(t), Excused(t, s), Travelled(limits, y.memory, last),
           Travelled(limits, NextMemory(y.memory, t, s), Error(s)), spent, Abs(Error(s) - last));
  }

  lemma FirstIsSettled(limits: Limits, m: Machine, s: Sample)
    requires m.Paired() && limits.Sensible() && m.state == Normal
    ensures Settled(limits, NextTally(limits, Tally(m, Free, 0, 0), s), Error(s), 0.0)
  {
    ScaleSucc(-1, Width(limits));
    NextIsSettled(limits, Tally(m, Free, 0, 0), s, Error(s), 0.0);
  }

  lemma {:induction false} RunIsSettled(limits: Limits, m: Machine, ss: seq<Sample>)
    requires m.Paired() && limits.Sensible() && m.state == Normal && ss != []
    ensures Settled(limits, Tallied(limits, m, ss), Error(ss[|ss| - 1]), Variation(Errors(ss)))
  {
    var init, s := ss[..|ss| - 1], ss[|ss| - 1];
    if init == [] {
      assert ss == [s] && Errors(ss) == [Error(s)];
      FirstIsSettled(limits, m, s);
    } else {
      RunIsSettled(limits, m, init);
      NextIsSettled(limits, Tallied(limits, m, init), s, Error(init[|init| - 1]), Variation(Errors(init)));
      VariationSnoc(Errors(init), Error(s));
    }
  }

  /** Each of that many alarms has cost a width of travel. */
  ghost predicate Bounded(alarms: int, limits: Limits, es: seq<real>) {
    alarms as real * Width(limits) <= Variation(es)
  }

  lemma ProductIsBounded(alarms: int, limits: Limits, es: seq<real>)
    requires Scale(alarms, Width(limits)) <= Variation(es)
    ensures Bounded(alarms, limits, es)
  {
    ScaleIsProduct(alarms, Width(limits));
  }

  lemma NothingOwed(limits: Limits)
    requires limits.Sensible()
    ensures Scale(-1, Width(limits)) <= 0.0
  {
    ScaleSucc(-1, Width(limits));
  }

  lemma SettledIsBounded(limits: Limits, y: Tally, last: real, spent: real)
    requires limits.Sensible() && Settled(limits, y, last, spent)
    ensures Scale(y.alarms - 1 - y.excuses, Width(limits)) <= spent
  {
    assert 0.0 <= Travelled(limits, y.memory, last);
  }

  /**
   * No chatter, in general: beyond the first, every alarm not excused by a fault or by an
   * inhibited return costs the monitored value a travel of at least the width, whatever the
   * delays and enables do in between.
   */
  lemma {:induction false} AlarmsAreBounded(limits: Limits, m: Machine, ss: seq<Sample>)
    requires m.Paired() && limits.Sensible() && m.state == Normal
    ensures var y := Tallied(limits, m, ss);
            Bounded(y.alarms - 1 - y.excuses, limits, Errors(ss))
  {
    if ss == [] {
      NothingOwed(limits);
    } else {
      RunIsSettled(limits, m, ss);
      SettledIsBounded(limits, Tallied(limits, m, ss), Error(ss[|ss| - 1]), Variation(Errors(ss)));
    }
    ProductIsBounded(Tallied(limits, m, ss).alarms - 1 - Tallied(limits, m, ss).excuses, limits, Errors(ss));
  }

  lemma StepNeedsNoExcuse(limits: Limits, y: Tally, s: Sample)
    requires y.machine.Paired() && y.machine.state != Fault && s.fault == NoFaultDetected && !s.inhibit
    ensures var y' := NextTally(limits, y, s); y'.machine.state != Fault && y'.excuses == y.excuses
  {
  }

  lemma {:induction false} NoExcuses(limits: Limits, m: Machine, ss: seq<Sample>)
    requires m.Paired() && m.state == Normal
    requires forall i :: 0 <= i < |ss| ==> ss[i].fault == NoFaultDetected && !ss[i].inhibit
    ensures Tallied(limits, m, ss).excuses == 0
    ensures Tallied(limits, m, ss).machine.state != Fault
  {
    if ss == [] {
    } else {
      var init := ss[..|ss| - 1];
      NoExcuses(limits, m, init);
      StepNeedsNoExcuse(limits, Tallied(limits, m, init), ss[|ss| - 1]);
    }
  }

  lemma WithoutExcuses(alarms: nat, excuses: nat, limits: Limits, es: seq<real>)
    requires excuses == 0 && Bounded(alarms - 1 - excuses, limits, es)
    ensures Bounded(alarms - 1, limits, es)
  {
  }

  /** No chatter without faults and inhibition: (alarms - 1) * width is at most the variation. */
  lemma {:induction false} NoChatter(limits: Limits, m: Machine, ss: seq<Sample>)
    requires m.Paired() && limits.Sensible() && m.state == Normal
    requires forall i :: 0 <= i < |ss| ==> ss[i].fault == NoFaultDetected && !ss[i].inhibit
    ensures Bounded(Tallied(limits, m, ss).alarms - 1, limits, Errors(ss))
  {
    var t, es := Tallied(limits, m, ss), Errors(ss);
    assert t.excuses == 0 by {
      NoExcuses(limits, m, ss);
    }
    assert Bounded(t.alarms - 1 - t.excuses, limits, es) by {
      AlarmsAreBounded(limits, m, ss);
    }
    WithoutExcuses(t.alarms, t.excuses, limits, es);
  }

  /**
   * The runs above cover both evaluators: OUT_OF_RANGE is the setpoint 0, and FLOATING_LIMIT
   * is its own setpoint with the limits highDiff and -lowDiff around it.
   */
  lemma BothEvaluatorsAreCovered(value: real, setpoint: real, limits: Limits, highDiff: real, lowDiff: real,
                                 deadband: real, current: EventState)
    ensures EvaluateOutOfRange(value, limits, current) ==
            EvaluateOutOfRange(value, limits.Around(0.0), current)
    ensures EvaluateFloatingLimit(value, setpoint, highDiff, lowDiff, deadband, current) ==
            EvaluateOutOfRange(value, Limits(Some(highDiff), Some(-lowDiff), deadband).Around(setpoint), current)
  {
  }
}
