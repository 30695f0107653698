/**
 * Delay exactness: the pending timer of the state machine against the history of its inputs.
 *
 * The specification never mentions the pending fields.  A streak for a target is a stretch
 * of cycles that starts by asking for it, never stops keeping it, and is not interrupted by
 * a transition; a target is entered exactly when its streak is old enough.
 */
module EventHistory {
  import opened Prelude
  import opened EventMachine

  /** What cycle k calls for, given the state its predecessors led to. */
  ghost function DemandAt(m: Machine, cs: seq<Cycle>, k: nat): Demand
    requires m.Paired() && k < |cs|
  {
    DemandOf(At(m, cs, k).state, cs[k].settings, cs[k].result, cs[k].fault)
  }

  ghost predicate Asks(m: Machine, cs: seq<Cycle>, k: nat, target: EventState)
    requires m.Paired() && k < |cs|
  {
    DemandAt(m, cs, k).Ask? && DemandAt(m, cs, k).target == target
  }

  /** Cycle k does not break a streak for target: it asks for it, or is neutral towards it. */
  ghost predicate Keeps(m: Machine, cs: seq<Cycle>, k: nat, target: EventState)
    requires m.Paired() && k < |cs|
  {
    || Asks(m, cs, k, target)
    || DemandAt(m, cs, k) == Ignore
    || DemandAt(m, cs, k) == Hold(target)
  }

  /** The cycles j, ..., i - 1 are a streak for target during which nothing fired. */
  ghost predicate Streak(m: Machine, cs: seq<Cycle>, j: nat, i: nat, target: EventState)
    requires m.Paired() && i <= |cs|
  {
    && j < i
    && Asks(m, cs, j, target)
    && forall k :: j <= k < i ==> Keeps(m, cs, k, target) && Fired(m, cs, k).None?
  }

  /** The streak for target that reaches up to cycle i began at cycle j. */
  ghost predicate Began(m: Machine, cs: seq<Cycle>, j: nat, i: nat, target: EventState)
    requires m.Paired() && i < |cs|
  {
    && Asks(m, cs, i, target)
    && (j == i || Streak(m, cs, j, i, target))
    && forall j' :: 0 <= j' < j ==> !Streak(m, cs, j', i, target)
  }

  /** The pending fields before cycle i say which streak is running and when it began. */
  ghost predicate PendingTellsHistory(m: Machine, cs: seq<Cycle>, i: nat)
    requires m.Paired() && i <= |cs|
  {
    var p := At(m, cs, i).pendingState;
    && (forall j, t :: 0 <= j < i && Streak(m, cs, j, i, t) ==> p == Some(t))
    && (p.Some? ==>
          exists j :: 0 <= j < i && Streak(m, cs, j, i, p.value)
                      && At(m, cs, i).pendingSince == Some(cs[j].now)
                      && forall j' :: 0 <= j' < j ==> !Streak(m, cs, j', i, p.value))
  }

  lemma StreakExtends(m: Machine, cs: seq<Cycle>, j: nat, i: nat, t: EventState)
    requires m.Paired() && j <= i < |cs|
    ensures Streak(m, cs, j, i + 1, t) <==>
              && Keeps(m, cs, i, t) && Fired(m, cs, i).None?
              && (if j == i then Asks(m, cs, i, t) else Streak(m, cs, j, i, t))
  {
  }

  /** How the streaks up to cycle n continue over it. */
  ghost predicate StreaksContinue(m: Machine, cs: seq<Cycle>, n: nat, i: nat)
    requires m.Paired() && i <= |cs| && i == n + 1
  {
    forall j, t :: 0 <= j <= n ==>
      (Streak(m, cs, j, i, t) <==>
         && Keeps(m, cs, n, t) && Fired(m, cs, n).None?
         && (if j == n then Asks(m, cs, n, t) else Streak(m, cs, j, n, t)))
  }

  /** A state that is pending, or asked for, and not broken off, is pending after the cycle. */
  lemma KeptIsPending(m: Machine, cs: seq<Cycle>, n: nat, t: EventState)
    requires m.Paired() && n < |cs| && Keeps(m, cs, n, t) && Fired(m, cs, n).None?
    requires Asks(m, cs, n, t) || At(m, cs, n).pendingState == Some(t)
    ensures At(m, cs, n + 1).pendingState == Some(t)
  {
  }

  lemma StreaksArePending(m: Machine, cs: seq<Cycle>, n: nat, i: nat)
    requires m.Paired() && i <= |cs| && i == n + 1
    requires PendingTellsHistory(m, cs, n) && StreaksContinue(m, cs, n, i)
    ensures forall j, t :: 0 <= j < i && Streak(m, cs, j, i, t) ==> At(m, cs, i).pendingState == Some(t)
  {
    forall j, t | 0 <= j <= n && Streak(m, cs, j, i, t)
      ensures At(m, cs, i).pendingState == Some(t)
    {
      assert j < n ==> Streak(m, cs, j, n, t);
      KeptIsPending(m, cs, n, t);
    }
  }

  /** What is pending after cycle n was pending before it, or is asked for by it. */
  lemma PendingComesFrom(m: Machine, cs: seq<Cycle>, n: nat, i: nat)
    requires m.Paired() && i <= |cs| && i == n + 1 && At(m, cs, i).pendingState.Some?
    ensures var p := At(m, cs, i).pendingState.value;
            && Fired(m, cs, n).None? && Keeps(m, cs, n, p)
            && (if At(m, cs, n).pendingState == Some(p) then At(m, cs, i).pendingSince == At(m, cs, n).pendingSince
                else Asks(m, cs, n, p) && At(m, cs, i).pendingSince == Some(cs[n].now))
  {
  }

  lemma PendingIsStreak(m: Machine, cs: seq<Cycle>, n: nat, i: nat) returns (j: nat)
    requires m.Paired() && i <= |cs| && i == n + 1 && At(m, cs, i).pendingState.Some?
    requires PendingTellsHistory(m, cs, n) && StreaksContinue(m, cs, n, i)
    ensures var p := At(m, cs, i).pendingState.value;
            && j < i && Streak(m, cs, j, i, p)
            && At(m, cs, i).pendingSince == Some(cs[j].now)
            && forall j' :: 0 <= j' < j ==> !Streak(m, cs, j', i, p)
  {
    var p := At(m, cs, i).pendingState.value;
    PendingComesFrom(m, cs, n, i);
    if At(m, cs, n).pendingState == Some(p) {
      j :| 0 <= j < n && Streak(m, cs, j, n, p) && At(m, cs, n).pendingSince == Some(cs[j].now)
           && forall j' :: 0 <= j' < j ==> !Streak(m, cs, j', n, p);
    } else {
      j := n;
    }
    forall j' | 0 <= j' < j
      ensures !Streak(m, cs, j', i, p)
    {
      assert !Streak(m, cs, j', n, p);
    }
  }

  lemma {:induction false} PendingIsHistory(m: Machine, cs: seq<Cycle>, i: nat)
    requires m.Paired() && m.pendingState == None && i <= |cs|
    ensures PendingTellsHistory(m, cs, i)
  {
    if i == 0 {
    } else {
      var n := i - 1;
      PendingIsHistory(m, cs, n);
      forall j, t | 0 <= j <= n
        ensures Streak(m, cs, j, i, t) <==>
                  && Keeps(m, cs, n, t) && Fired(m, cs, n).None?
                  && (if j == n then Asks(m, cs, n, t) else Streak(m, cs, j, n, t))
      {
        StreakExtends(m, cs, j, n, t);
      }
      StreaksArePending(m, cs, n, i);
      if At(m, cs, i).pendingState.Some? {
        var start := PendingIsStreak(m, cs, n, i);
      }
    }
  }

  lemma {:induction false} StreakStart(m: Machine, cs: seq<Cycle>, i: nat, target: EventState) returns (j: nat)
    requires m.Paired() && i < |cs|
    requires Asks(m, cs, i, target)
    requires PendingTellsHistory(m, cs, i)
    ensures j <= i && Began(m, cs, j, i, target)
    ensures Elapsed(At(m, cs, i).(settings := cs[i].settings), target, cs[i].now) == cs[i].now - cs[j].now
  {
    var before := At(m, cs, i);
    if before.pendingState == Some(target) {
      j :| 0 <= j < i && Streak(m, cs, j, i, target) && before.pendingSince == Some(cs[j].now)
           && forall j' :: 0 <= j' < j ==> !Streak(m, cs, j', i, target);
    } else {
      j := i;
    }
  }

  /**
   * Never early and never late: a cycle fires exactly when a fault trips the machine, or
   * when the streak for the target it asks for began at least that target's delay ago.
   * Faults, disabled slots, changing settings and clocks that step back are all allowed.
   */
  lemma {:induction false} DelayExactness(m: Machine, cs: seq<Cycle>, i: nat, target: EventState)
    requires m.Paired() && m.pendingState == None && i < |cs|
    ensures (Fired(m, cs, i).Some? && Fired(m, cs, i).value.to == target) <==>
              || (target == Fault && DemandAt(m, cs, i) == Trip)
              || (Asks(m, cs, i, target) &&
                  exists j :: 0 <= j <= i && Began(m, cs, j, i, target)
                              && cs[i].now - cs[j].now >= DemandAt(m, cs, i).delay)
  {
    PendingIsHistory(m, cs, i);
    var before := At(m, cs, i);
    if Asks(m, cs, i, target) {
      var start := StreakStart(m, cs, i, target);
      forall j | 0 <= j <= i && Began(m, cs, j, i, target)
        ensures j == start
      {
      }
    }
  }

  /**
   * With a clock that never steps back, the beginning of the streak need not be named: the
   * target is entered exactly when some cycle of the streak lies at least the delay back.
   */
  lemma {:induction false} DelayExactnessMonotone(m: Machine, cs: seq<Cycle>, i: nat, target: EventState)
    requires m.Paired() && m.pendingState == None && i < |cs| && target != Fault
    requires forall a, b :: 0 <= a <= b < |cs| ==> cs[a].now <= cs[b].now
    ensures (Fired(m, cs, i).Some? && Fired(m, cs, i).value.to == target) <==>
              Asks(m, cs, i, target) &&
              exists j :: 0 <= j <= i && (j == i || Streak(m, cs, j, i, target))
                          && cs[i].now - cs[j].now >= DemandAt(m, cs, i).delay
  {
    DelayExactness(m, cs, i, target);
    if Asks(m, cs, i, target) {
      PendingIsHistory(m, cs, i);
      var start := StreakStart(m, cs, i, target);
      forall j | 0 <= j <= i && (j == i || Streak(m, cs, j, i, target))
        ensures start <= j
      {
      }
    }
  }

  lemma {:induction false} StaysPut(m: Machine, cs: seq<Cycle>, i: nat, k: nat)
    requires m.Paired() && k <= i < |cs|
    requires forall l :: 0 <= l < i ==> Fired(m, cs, l).None?
    ensures At(m, cs, k).state == m.state
  {
    if k == 0 {
    } else {
      StaysPut(m, cs, i, k - 1);
      assert Fired(m, cs, k - 1).None?;
    }
  }

  /** What the algorithm of cycle c calls for: its result, and NORMAL if it has none. */
  ghost predicate CallsFor(c: Cycle, target: EventState) {
    c.fault == NoFaultDetected && (c.result == Some(target) || (c.result == None && target == Normal))
  }

  /** Transitions to the target are enabled in cycle c. */
  ghost predicate Allows(c: Cycle, target: EventState) {
    if target == Normal then c.settings.enable.normal else c.settings.enable.offnormal
  }

  /** A machine in the given state takes no notice of the target's timer: a fault, or in FAULT a disabled target. */
  ghost predicate LeavesAlone(state: EventState, c: Cycle, target: EventState) {
    c.fault != NoFaultDetected || (state == Fault && CallsFor(c, target) && !Allows(c, target))
  }

  /**
   * The demand for the target begins at cycle j and lasts up to cycle i: nothing but cycles that
   * leave its timer alone interrupts it, and before it, back to the start or to a cycle b that
   * breaks it off, there are only such cycles.
   */
  ghost predicate Lasts(state: EventState, cs: seq<Cycle>, b: nat, j: nat, i: nat, target: EventState)
    requires i < |cs|
  {
    && b <= j <= i
    && (b > 0 ==>
          !LeavesAlone(state, cs[b - 1], target) && !(CallsFor(cs[b - 1], target) && Allows(cs[b - 1], target)))
    && (forall k :: b <= k < j ==> LeavesAlone(state, cs[k], target))
    && (forall k :: j < k < i ==>
          LeavesAlone(state, cs[k], target) || (CallsFor(cs[k], target) && Allows(cs[k], target)))
    && CallsFor(cs[j], target) && Allows(cs[j], target)
    && CallsFor(cs[i], target) && Allows(cs[i], target)
  }

  /** Cycle k in those terms: it asks for the target, leaves its timer alone, or breaks it off. */
  ghost predicate InPlainTerms(m: Machine, cs: seq<Cycle>, k: nat, target: EventState)
    requires m.Paired() && k < |cs|
  {
    && (Asks(m, cs, k, target) <==> CallsFor(cs[k], target) && Allows(cs[k], target))
    && (Keeps(m, cs, k, target) <==>
          LeavesAlone(m.state, cs[k], target) || (CallsFor(cs[k], target) && Allows(cs[k], target)))
  }

  lemma DemandInPlainTerms(m: Machine, cs: seq<Cycle>, i: nat, k: nat, target: EventState)
    requires m.Paired() && k <= i < |cs| && (target != m.state || m.state == Fault)
    requires (forall l :: 0 <= l < i ==> Fired(m, cs, l).None?) && (k == i ==> cs[k].fault == NoFaultDetected)
    ensures InPlainTerms(m, cs, k, target)
    ensures Asks(m, cs, k, target) ==>
              DemandAt(m, cs, k).delay ==
              if target == Normal && cs[k].settings.timeDelayNormal.Some? then cs[k].settings.timeDelayNormal.value
              else cs[k].settings.timeDelay
  {
    StaysPut(m, cs, i, k);
    assert k < i ==> Fired(m, cs, k).None?;
  }

  lemma LastingIsStreak(m: Machine, cs: seq<Cycle>, b: nat, j: nat, i: nat, target: EventState)
    requires m.Paired() && i < |cs| && Lasts(m.state, cs, b, j, i, target)
    requires forall k :: 0 <= k <= i ==> InPlainTerms(m, cs, k, target)
    requires forall k :: 0 <= k < i ==> Fired(m, cs, k).None?
    ensures Asks(m, cs, i, target) && (j == i || Streak(m, cs, j, i, target))
  {
    assert InPlainTerms(m, cs, i, target) && InPlainTerms(m, cs, j, target);
    forall k | j <= k < i
      ensures Keeps(m, cs, k, target)
    {
      assert InPlainTerms(m, cs, k, target);
    }
  }

  lemma NoneLastsLonger(m: Machine, cs: seq<Cycle>, b: nat, j: nat, i: nat, target: EventState, j': nat)
    requires m.Paired() && i < |cs| && Lasts(m.state, cs, b, j, i, target) && j' < j
    requires forall k :: 0 <= k <= i ==> InPlainTerms(m, cs, k, target)
    ensures !Streak(m, cs, j', i, target)
  {
    if j' < b {
      assert InPlainTerms(m, cs, b - 1, target);
      assert !Keeps(m, cs, b - 1, target);
    } else {
      assert InPlainTerms(m, cs, j', target);
      assert LeavesAlone(m.state, cs[j'], target);
    }
  }

  lemma LastingBegan(m: Machine, cs: seq<Cycle>, b: nat, j: nat, i: nat, target: EventState)
    requires m.Paired() && i < |cs| && (target != m.state || m.state == Fault)
    requires forall k :: 0 <= k < i ==> Fired(m, cs, k).None?
    requires Lasts(m.state, cs, b, j, i, target)
    ensures Began(m, cs, j, i, target)
  {
    forall k | 0 <= k <= i
      ensures InPlainTerms(m, cs, k, target)
    {
      DemandInPlainTerms(m, cs, i, k, target);
    }
    LastingIsStreak(m, cs, b, j, i, target);
    forall j' | 0 <= j' < j
      ensures !Streak(m, cs, j', i, target)
    {
      NoneLastsLonger(m, cs, b, j, i, target, j');
    }
  }

  /**
   * Punctuality in plain terms, for every state and target: a machine still in its state moves to
   * the target at cycle i exactly when the demand for it has lasted, from cycle j on, at least the
   * time delay; for NORMAL that is the time delay to normal, if there is one.
   */
  lemma {:induction false} TransitionIsPunctual(m: Machine, cs: seq<Cycle>, b: nat, j: nat, i: nat, target: EventState)
    requires m.Paired() && m.pendingState == None && i < |cs| && (target != m.state || m.state == Fault)
    requires forall k :: 0 <= k < i ==> Fired(m, cs, k).None?
    requires Lasts(m.state, cs, b, j, i, target)
    ensures var settings := cs[i].settings;
            var delay := if target == Normal && settings.timeDelayNormal.Some? then settings.timeDelayNormal.value
                         else settings.timeDelay;
            Fired(m, cs, i) ==
            if cs[i].now - cs[j].now >= delay then Some(Transition(m.state, target, cs[i].now)) else None
  {
    StaysPut(m, cs, i, i);
    LastingBegan(m, cs, b, j, i, target);
    DemandInPlainTerms(m, cs, i, i, target);
    DelayExactness(m, cs, i, target);
    PendingIsHistory(m, cs, i);
    var start := StreakStart(m, cs, i, target);
    assert start == j;
  }

  /**
   * The return from an alarm: without faults and with transitions to normal enabled, a machine
   * still in its alarm enters NORMAL at cycle i exactly when the unbroken stretch of cycles without
   * an alarm that ends at i began, at cycle j, at least the time delay to normal ago.
   */
  lemma {:induction false} ReturnIsPunctual(m: Machine, cs: seq<Cycle>, j: nat, i: nat)
    requires m.Paired() && m.pendingState == None && m.state != Normal
    requires j <= i < |cs|
    requires forall k :: 0 <= k <= i ==> cs[k].fault == NoFaultDetected && cs[k].settings.enable.normal
    requires forall k :: 0 <= k < i ==> Fired(m, cs, k).None?
    requires forall k :: j <= k <= i ==> cs[k].result == None || cs[k].result == Some(Normal)
    requires j == 0 || !(cs[j - 1].result == None || cs[j - 1].result == Some(Normal))
    ensures var s := cs[i].settings;
            Fired(m, cs, i) ==
            if cs[i].now - cs[j].now >= (if s.timeDelayNormal.Some? then s.timeDelayNormal.value else s.timeDelay)
            then Some(Transition(m.state, Normal, cs[i].now)) else None
  {
    TransitionIsPunctual(m, cs, j, j, i, Normal);
  }

  /**
   * Entering an alarm, from NORMAL, from another alarm or out of FAULT: without faults and with
   * alarms enabled, a machine still in its state enters alarm t at cycle i exactly when the
   * unbroken stretch of results t ending at i began, at cycle j, at least the time delay ago.
   */
  lemma {:induction false} FirstAlarmIsPunctual(m: Machine, cs: seq<Cycle>, j: nat, i: nat, t: EventState)
    requires m.Paired() && m.pendingState == None && m.state != t
    requires j <= i < |cs| && t != Normal
    requires forall k :: 0 <= k <= i ==> cs[k].fault == NoFaultDetected && cs[k].settings.enable.offnormal
    requires forall k :: 0 <= k < i ==> Fired(m, cs, k).None?
    requires forall k :: j <= k <= i ==> cs[k].result == Some(t)
    requires j == 0 || cs[j - 1].result != Some(t)
    ensures Fired(m, cs, i) ==
            if cs[i].now - cs[j].now >= cs[i].settings.timeDelay then Some(Transition(m.state, t, cs[i].now)) else None
  {
    TransitionIsPunctual(m, cs, j, j, i, t);
  }
}
