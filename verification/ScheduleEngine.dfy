/** Applying resolved schedule values: the present value always, the targets only on change. */
module ScheduleEngine {
  import opened Prelude
  import S = Schedules

  datatype Reference = Reference(oid: nat, property: nat, arrayIndex: Option<nat>)

  /** An attempted write: the entry of the source's target list it goes through, and what is written. */
  datatype Write<V> = Write(source: nat, index: nat, target: Reference, value: V, priority: nat)

  /** The attempts for one changed value; targets that do not exist are passed over. */
  function Attempts<V>(source: nat, refs: seq<Reference>, from: nat, existing: set<nat>, value: V, priority: nat)
    : seq<Write<V>>
    requires from <= |refs|
    decreases |refs| - from
  {
    if from == |refs| then []
    else (if refs[from].oid in existing then [Write(source, from, refs[from], value, priority)] else [])
         + Attempts(source, refs, from + 1, existing, value, priority)
  }

  class ScheduleObject<E, R, V> {
    const oid: nat
    const targets: seq<Reference>
    const priorityForWriting: nat
    var schedule: S.Schedule<E, R, V>
    var presentValue: Option<V>

    constructor (oid: nat, schedule: S.Schedule<E, R, V>, targets: seq<Reference>, priority: nat)
      ensures this.oid == oid && this.schedule == schedule && this.targets == targets
      ensures priorityForWriting == priority && presentValue == None
    {
      this.oid, this.schedule, this.targets := oid, schedule, targets;
      priorityForWriting, presentValue := priority, None;
    }
  }

  datatype State<V> = State(last: map<nat, V>, writes: seq<Write<V>>)

  datatype Event<V> =
    | Applied(oid: nat, targets: seq<Reference>, priority: nat, value: V, existing: set<nat>)
    | Stopped

  /** A value applied to a schedule while certain objects exist, or the engine stopped. */
  function Apply<V(==)>(s: State<V>, e: Event<V>): State<V> {
    match e
    case Stopped => s.(last := map[])
    case Applied(oid, targets, priority, value, existing) =>
      if oid in s.last && s.last[oid] == value then s
      else State(s.last[oid := value], s.writes + Attempts(oid, targets, 0, existing, value, priority))
  }

  class Engine<V(==)> {
    var lastValues: map<nat, V>
    var writes: seq<Write<V>>

    ghost function Value(): State<V>
      reads this
    {
      State(lastValues, writes)
    }

    constructor ()
      ensures Value() == State(map[], [])
    {
      lastValues, writes := map[], [];
    }

    method Stop()
      modifies this
      ensures Value() == old(Value()).(last := map[])
    {
      lastValues := map[];
    }

    method ApplyValue<E, R>(sched: ScheduleObject<E, R, V>, value: V, existing: set<nat>)
      modifies this, sched`presentValue
      ensures sched.presentValue == Some(value)
      ensures Value() ==
              Apply(old(Value()), Applied(sched.oid, sched.targets, sched.priorityForWriting, value, existing))
    {
      sched.presentValue := Some(value);
      if sched.oid in lastValues && lastValues[sched.oid] == value {
        return;
      }
      lastValues := lastValues[sched.oid := value];
      var refs := sched.targets;
      ghost var all := Attempts(sched.oid, refs, 0, existing, value, sched.priorityForWriting);
      for k := 0 to |refs|
        invariant lastValues == old(lastValues)[sched.oid := value] && sched.presentValue == Some(value)
        invariant old(writes) + all ==
                  writes + Attempts(sched.oid, refs, k, existing, value, sched.priorityForWriting)
      {
        if refs[k].oid !in existing {
          continue;
        }
        writes := writes + [Write(sched.oid, k, refs[k], value, sched.priorityForWriting)];
      }
    }

    /** One schedule's part of a cycle. */
    method EvaluateSchedule<E, R>(sched: ScheduleObject<E, R, V>, today: S.Today<E, R>, now: S.ClockTime,
                                  existing: set<nat>)
      modifies this, sched`presentValue
      ensures var v := S.Resolved(sched.schedule, today, S.NowTuple(now));
              && sched.presentValue == Some(v)
              && Value() ==
                 Apply(old(Value()), Applied(sched.oid, sched.targets, sched.priorityForWriting, v, existing))
    {
      var value := S.Resolve(sched.schedule, today, now);
      ApplyValue(sched, value, existing);
    }
  }

  // ---------------------------------------------------------------------
  // Runs: values applied to any number of schedules in any order, and restarts.
  // ---------------------------------------------------------------------

  function Run<V(==)>(es: seq<Event<V>>): State<V> {
    if es == [] then State(map[], []) else Apply(Run(es[..|es| - 1]), es[|es| - 1])
  }

  /** A resolved value, and whether a target of the schedule existed then. */
  datatype Sight<V> = Sight(value: V, present: bool)

  /** What entry k of the target list of a schedule sees of an event; None where the engine was stopped. */
  ghost function Seen<V>(e: Event<V>, oid: nat, k: nat): seq<Option<Sight<V>>> {
    match e
    case Stopped => [None]
    case Applied(o, targets, _, value, existing) =>
      if o == oid then [Some(Sight(value, k < |targets| && targets[k].oid in existing))] else []
  }

  ghost function History<V>(es: seq<Event<V>>, oid: nat, k: nat): seq<Option<Sight<V>>> {
    if es == [] then [] else History(es[..|es| - 1], oid, k) + Seen(es[|es| - 1], oid, k)
  }

  /** The value differs from what came just before it. */
  ghost predicate IsChange<V>(before: seq<Option<Sight<V>>>, x: Option<Sight<V>>) {
    && x.Some?
    && (before == [] || before[|before| - 1].None? || before[|before| - 1].value.value != x.value.value)
  }

  /** The values that differ from what came just before them, but for those that came without the target. */
  ghost function Changes<V>(h: seq<Option<Sight<V>>>): seq<V> {
    if h == [] then []
    else
      var n := |h| - 1;
      Changes(h[..n]) + if IsChange(h[..n], h[n]) && h[n].value.present then [h[n].value.value] else []
  }

  /** The values attempted through entry k of the target list of schedule oid. */
  ghost function Through<V>(ws: seq<Write<V>>, oid: nat, k: nat): seq<V> {
    if ws == [] then []
    else
      var w := ws[|ws| - 1];
      Through(ws[..|ws| - 1], oid, k) + if w.source == oid && w.index == k then [w.value] else []
  }

  lemma {:induction false} ThroughConcat<V>(a: seq<Write<V>>, b: seq<Write<V>>, oid: nat, k: nat)
    ensures Through(a + b, oid, k) == Through(a, oid, k) + Through(b, oid, k)
  {
    if b == [] {
      assert a + b == a;
    } else {
      var n := |b| - 1;
      assert (a + b)[..|a + b| - 1] == a + b[..n];
      ThroughConcat(a, b[..n], oid, k);
    }
  }

  lemma {:induction false} ThroughAttempts<V>(source: nat, refs: seq<Reference>, from: nat, existing: set<nat>,
                                              value: V,
                                              priority: nat, oid: nat, k: nat)
    requires from <= |refs|
    ensures Through(Attempts(source, refs, from, existing, value, priority), oid, k) ==
            if source == oid && from <= k < |refs| && refs[k].oid in existing then [value] else []
    decreases |refs| - from
  {
    if from == |refs| {
    } else {
      ThroughAttempts(source, refs, from + 1, existing, value, priority, oid, k);
      var first: seq<Write<V>> :=
        if refs[from].oid in existing then [Write(source, from, refs[from], value, priority)] else [];
      ThroughConcat(first, Attempts(source, refs, from + 1, existing, value, priority), oid, k);
      if first != [] {
        assert first[..0] == [];
        assert Through(first, oid, k) == if source == oid && from == k then [value] else [];
      }
    }
  }

  /** The engine remembers the latest value of a schedule, unless it was stopped since. */
  ghost predicate Remembers<V>(last: map<nat, V>, oid: nat, h: seq<Option<Sight<V>>>) {
    if h == [] || h[|h| - 1].None? then oid !in last
    else oid in last && last[oid] == h[|h| - 1].value.value
  }

  lemma ChangesSnoc<V>(h: seq<Option<Sight<V>>>, x: Option<Sight<V>>)
    ensures Changes(h + [x]) == Changes(h) + if IsChange(h, x) && x.value.present then [x.value.value] else []
  {
    assert (h + [x])[..|h|] == h;
  }

  lemma AppliedThrough<V>(before: State<V>, e: Event<V>, oid: nat, k: nat)
    requires e.Applied?
    ensures var repeated := e.oid in before.last && before.last[e.oid] == e.value;
            var there := e.oid == oid && k < |e.targets| && e.targets[k].oid in e.existing;
            Through(Apply(before, e).writes, oid, k) ==
            Through(before.writes, oid, k) + if !repeated && there then [e.value] else []
  {
    var ws := Attempts(e.oid, e.targets, 0, e.existing, e.value, e.priority);
    ThroughConcat(before.writes, ws, oid, k);
    ThroughAttempts(e.oid, e.targets, 0, e.existing, e.value, e.priority, oid, k);
  }

  lemma WritesStep<V>(before: State<V>, e: Event<V>, oid: nat, k: nat, h: seq<Option<Sight<V>>>)
    requires Through(before.writes, oid, k) == Changes(h) && Remembers(before.last, oid, h)
    ensures var after := Apply(before, e);
            && Through(after.writes, oid, k) == Changes(h + Seen(e, oid, k))
            && Remembers(after.last, oid, h + Seen(e, oid, k))
  {
    if e.Stopped? {
      ChangesSnoc(h, None);
    } else {
      AppliedThrough(before, e, oid, k);
      if e.oid == oid {
        ChangesSnoc(h, Seen(e, oid, k)[0]);
      } else {
        assert h + [] == h;
      }
    }
  }

  /**
   * Write on change over whole runs, while objects come and go: through each entry of a target
   * list, the values attempted are exactly the resolved values with consecutive repeats removed,
   * less those that were new while the target did not exist, where stopping the engine makes it
   * write again; and the engine remembers the latest value.
   */
  lemma {:induction false} WritesAreChanges<V>(es: seq<Event<V>>, oid: nat, k: nat)
    ensures Through(Run(es).writes, oid, k) == Changes(History(es, oid, k))
    ensures Remembers(Run(es).last, oid, History(es, oid, k))
  {
    if es == [] {
    } else {
      var n := |es| - 1;
      WritesAreChanges(es[..n], oid, k);
      WritesStep(Run(es[..n]), es[n], oid, k, History(es[..n], oid, k));
    }
  }

  /** A target that exists all along gets every change: the history of values with repeats removed. */
  ghost function WithoutRepeats<V>(h: seq<Option<V>>): seq<V> {
    if h == [] then []
    else
      var n := |h| - 1;
      WithoutRepeats(h[..n]) + if h[n].Some? && (n == 0 || h[n - 1] != h[n]) then [h[n].value] else []
  }

  /** The resolved values of a schedule, and None where the engine was stopped. */
  ghost function Values<V>(es: seq<Event<V>>, oid: nat): seq<Option<V>> {
    if es == [] then []
    else
      var e := es[|es| - 1];
      Values(es[..|es| - 1], oid)
      + if e.Stopped? then [None] else if e.oid == oid then [Some(e.value)] else []
  }

  /** Target k of the schedule exists whenever a value is applied to it. */
  ghost predicate AlwaysThere<V>(es: seq<Event<V>>, oid: nat, k: nat) {
    forall i :: 0 <= i < |es| && es[i].Applied? && es[i].oid == oid ==>
      k < |es[i].targets| && es[i].targets[k].oid in es[i].existing
  }

  /** Two histories tell the same values. */
  ghost predicate SameValues<V>(h: seq<Option<Sight<V>>>, vs: seq<Option<V>>) {
    && |h| == |vs|
    && forall i :: 0 <= i < |h| ==>
         (h[i].Some? <==> vs[i].Some?) && (h[i].Some? ==> h[i].value.value == vs[i].value)
  }

  lemma PresentSnoc<V>(h: seq<Option<Sight<V>>>, vs: seq<Option<V>>, x: Option<Sight<V>>, v: Option<V>)
    requires SameValues(h, vs) && Changes(h) == WithoutRepeats(vs)
    requires if x.Some? then v == Some(x.value.value) && x.value.present else v.None?
    ensures SameValues(h + [x], vs + [v]) && Changes(h + [x]) == WithoutRepeats(vs + [v])
  {
    ChangesSnoc(h, x);
    assert (vs + [v])[..|vs|] == vs;
  }

  lemma {:induction false} AllPresent<V>(es: seq<Event<V>>, oid: nat, k: nat)
    requires AlwaysThere(es, oid, k)
    ensures SameValues(History(es, oid, k), Values(es, oid))
    ensures Changes(History(es, oid, k)) == WithoutRepeats(Values(es, oid))
  {
    if es == [] {
    } else {
      var init, e := es[..|es| - 1], es[|es| - 1];
      AllPresent(init, oid, k);
      var h, vs := History(init, oid, k), Values(init, oid);
      if e.Stopped? {
        PresentSnoc(h, vs, None, None);
      } else if e.oid == oid {
        PresentSnoc(h, vs, Some(Sight(e.value, true)), Some(e.value));
      } else {
        assert h + [] == h && vs + [] == vs;
      }
    }
  }

  lemma {:induction false} NothingIsMissed<V>(es: seq<Event<V>>, oid: nat, k: nat)
    requires AlwaysThere(es, oid, k)
    ensures Through(Run(es).writes, oid, k) == WithoutRepeats(Values(es, oid))
  {
    WritesAreChanges(es, oid, k);
    AllPresent(es, oid, k);
  }

  /** A write is one of the attempts for this event: through an entry of its list, to what that entry names. */
  ghost predicate IsAttempt<V>(w: Write<V>, e: Event<V>) {
    && e.Applied? && w.source == e.oid && w.value == e.value && w.priority == e.priority
    && w.index < |e.targets| && w.target == e.targets[w.index] && w.target.oid in e.existing
  }

  /** The writes from position n on are attempts for the event, in the order of its target list. */
  ghost predicate EndsWithAttempts<V>(ws: seq<Write<V>>, n: nat, e: Event<V>) {
    && (forall i :: n <= i < |ws| ==> IsAttempt(ws[i], e))
    && forall i, j :: n <= i < j < |ws| ==> ws[i].index < ws[j].index
  }

  lemma AttemptFirst<V>(w: Write<V>, rest: seq<Write<V>>, e: Event<V>)
    requires IsAttempt(w, e) && EndsWithAttempts(rest, 0, e)
    requires forall i :: 0 <= i < |rest| ==> w.index < rest[i].index
    ensures EndsWithAttempts([w] + rest, 0, e)
  {
  }

  lemma {:induction false} AttemptsExactly<V>(source: nat, refs: seq<Reference>, from: nat, existing: set<nat>,
                                              value: V, priority: nat)
    requires from <= |refs|
    ensures var ws := Attempts(source, refs, from, existing, value, priority);
            && EndsWithAttempts(ws, 0, Applied(source, refs, priority, value, existing))
            && forall i :: 0 <= i < |ws| ==> from <= ws[i].index
    decreases |refs| - from
  {
    if from == |refs| {
    } else {
      AttemptsExactly(source, refs, from + 1, existing, value, priority);
      if refs[from].oid in existing {
        AttemptFirst(Write(source, from, refs[from], value, priority),
                     Attempts(source, refs, from + 1, existing, value, priority),
                     Applied(source, refs, priority, value, existing));
      } else {
        var rest := Attempts(source, refs, from + 1, existing, value, priority);
        assert [] + rest == rest;
      }
    }
  }

  /**
   * Every attempt is the doing of one event: it goes to the object and property that entry of the
   * schedule's target list names, with the schedule's value and priority, and never to an object
   * that does not exist at the time.
   */
  lemma {:induction false} MissingTargetsAreSkipped<V>(es: seq<Event<V>>)
    ensures forall w :: w in Run(es).writes ==> exists i :: 0 <= i < |es| && IsAttempt(w, es[i])
  {
    if es == [] {
    } else {
      var n := |es| - 1;
      MissingTargetsAreSkipped(es[..n]);
      forall w | w in Run(es).writes
        ensures exists i :: 0 <= i < |es| && IsAttempt(w, es[i])
      {
        if w in Run(es[..n]).writes {
          var i :| 0 <= i < n && IsAttempt(w, es[..n][i]);
          assert es[i] == es[..n][i];
        } else {
          AttemptsExactly(es[n].oid, es[n].targets, 0, es[n].existing, es[n].value, es[n].priority);
          assert IsAttempt(w, es[n]);
        }
      }
    }
  }

  lemma AttemptsBehind<V>(before: seq<Write<V>>, more: seq<Write<V>>, e: Event<V>)
    requires EndsWithAttempts(more, 0, e)
    ensures EndsWithAttempts(before + more, |before|, e)
  {
    var n, ws := |before|, before + more;
    forall i | n <= i < |ws|
      ensures IsAttempt(ws[i], e)
    {
      assert ws[i] == more[i - n];
    }
    forall i, j | n <= i < j < |ws|
      ensures ws[i].index < ws[j].index
    {
      assert ws[i] == more[i - n] && ws[j] == more[j - n];
    }
  }

  /** An event adds its attempts behind the earlier ones, in the order of the target list. */
  lemma AttemptsInOrder<V>(s: State<V>, e: Event<V>)
    ensures s.writes <= Apply(s, e).writes && EndsWithAttempts(Apply(s, e).writes, |s.writes|, e)
  {
    if e.Applied? {
      AttemptsExactly(e.oid, e.targets, 0, e.existing, e.value, e.priority);
      AttemptsBehind(s.writes, Attempts(e.oid, e.targets, 0, e.existing, e.value, e.priority), e);
    }
  }
}
