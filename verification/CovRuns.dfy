/** The COV manager over whole runs: any sequence of operations, starting with no subscriptions. */
module CovRuns {
  import opened Prelude
  import opened CovTables
  import opened CovRules
  import opened CovManager

  datatype Operation =
    | Add(rec: Record, terms: Terms, view: ObjectView)   // a request to subscribe, whether or not it raises
    | Cancel(key: Key)                                   // unsubscribe
    | Fire(handle: nat, at: real)                        // the event loop runs a due timer
    | DeleteObject(oid: nat)
    | ShutDown
    | Check(view: ObjectView, property: nat)             // after a write, whether or not it raises part way

  ghost predicate Step(m: Manager, limits: Limits, op: Operation, m': Manager)
    requires Valid(m, limits)
  {
    match op
    case Add(rec, terms, _) => m' == Filing(m, limits, rec, terms).0
    case Cancel(k) => m' == Removed(m, k, TimersWithout(m.timers, {k}))
    case Fire(h, at) =>
      && h in m.timers && m.timers[h].deadline <= at
      && m' == Removed(m, m.timers[h].key, m.timers - {h})
    case DeleteObject(oid) => m' == ObjectRemoved(m, oid)
    case ShutDown => m' == m.(objects := EmptyTable(), properties := EmptyTable(), timers := map[])
    case Check(view, property) =>
      && m' == m.(subs := m'.subs)
      && SameTerms(m.subs, m'.subs)
      && Linked(m.Stored(), m'.subs)
      && Remembered(m.Stored(), m'.subs) == CheckScan(m, limits, view, property).records
  }

  lemma StepIsValid(m: Manager, limits: Limits, op: Operation, m': Manager)
    requires Valid(m, limits) && Step(m, limits, op, m')
    ensures Valid(m', limits)
  {
    match op
    case Add(rec, terms, _) => FilingIsSafe(m, limits, rec, terms);
    case Cancel(k) => RemovedIsValid(m, limits, k);
    case Fire(h, _) => FiringIsRemoval(m, limits, h);
    case DeleteObject(oid) => ObjectRemovedIsValid(m, limits, oid);
    case ShutDown => ShutDownIsValid(m, limits);
    case Check(_, _) => SameTermsKeepTimers(m.Stored(), m.subs, m'.subs, m.timers, m.nextHandle);
  }

  /** The states a sequence of operations leads through. */
  ghost predicate IsRun(ms: seq<Manager>, ops: seq<Operation>, limits: Limits) {
    && |ms| == |ops| + 1
    && ms[0] == EMPTY
    && forall i :: 0 <= i < |ops| ==> Valid(ms[i], limits) ==> Step(ms[i], limits, ops[i], ms[i + 1])
  }

  /**
   * Index agreement and timer ownership hold after every run: each bucket is the master
   * restricted to its group, in order and never empty, no table exceeds its capacity, and
   * every armed timer is the own one of the subscription stored at its key, due at its own end.
   */
  lemma {:induction false} EveryRunIsValid(ms: seq<Manager>, ops: seq<Operation>, limits: Limits, i: nat)
    requires IsRun(ms, ops, limits) && i <= |ops|
    ensures Valid(ms[i], limits)
  {
    if i == 0 {
      EmptyIsValid(limits);
    } else {
      EveryRunIsValid(ms, ops, limits, i - 1);
      assert Step(ms[i - 1], limits, ops[i - 1], ms[i]);
      StepIsValid(ms[i - 1], limits, ops[i - 1], ms[i]);
    }
  }

  /** The same, said about one bucket and the capacities. */
  lemma {:induction false} BucketsAgreeOverRuns(ms: seq<Manager>, ops: seq<Operation>, limits: Limits, i: nat, g: Group)
    requires IsRun(ms, ops, limits) && i <= |ops|
    ensures var t := if g.OfObject? then ms[i].objects else ms[i].properties;
            && (g in t.index <==> exists k :: k in t.master.vals && GroupOf(k) == g)
            && (g in t.index ==> t.index[g].keys == Filter(t.master.keys, g) != [])
            && (g in t.index ==> forall k :: k in t.index[g].vals ==>
                  k in t.master.vals && t.index[g].vals[k] == t.master.vals[k])
    ensures |ms[i].objects.master.keys| <= limits.subscriptions
    ensures |ms[i].properties.master.keys| <= limits.propertySubscriptions
  {
    EveryRunIsValid(ms, ops, limits, i);
    BucketsMirrorMaster(if g.OfObject? then ms[i].objects else ms[i].properties, g);
  }

  /** Subscription id was made by operation a, with these terms. */
  ghost predicate MadeBy(ms: seq<Manager>, ops: seq<Operation>, a: nat, id: nat, sub: Subscription)
    requires |ms| == |ops| + 1
  {
    && a < |ops|
    && ops[a].Add?
    && id == |ms[a].subs|
    && sub.record.key == ops[a].rec.key
    && sub.terms == ops[a].terms
    && sub.expiryHandle == if sub.terms.Limited() then Some(ms[a].nextHandle) else None
  }

  lemma SubsAfterFiling(m: Manager, limits: Limits, rec: Record, terms: Terms)
    ensures var handle := if terms.Limited() then Some(m.nextHandle) else None;
            var (m', error) := Filing(m, limits, rec, terms);
            m'.subs == if error.None? then m.subs + [Subscription(rec, terms, handle)] else m.subs
  {
  }

  /** An operation makes at most one subscription, and leaves the terms and handles of the others alone. */
  lemma SubsAfterStep(m: Manager, limits: Limits, op: Operation, m': Manager)
    requires Valid(m, limits) && Step(m, limits, op, m')
    ensures |m'.subs| == |m.subs| || (|m'.subs| == |m.subs| + 1 && op.Add?)
    ensures SameTerms(m.subs, m'.subs[..|m.subs|])
    ensures |m'.subs| > |m.subs| ==>
              m'.subs[|m.subs|] ==
              Subscription(op.rec, op.terms, if op.terms.Limited() then Some(m.nextHandle) else None)
  {
    if op.Add? {
      SubsAfterFiling(m, limits, op.rec, op.terms);
    } else if op.Check? {
      assert m'.subs[..|m.subs|] == m'.subs;
    } else {
      assert m'.subs == m.subs && m.subs[..|m.subs|] == m.subs;
    }
  }

  lemma StepOfRun(ms: seq<Manager>, ops: seq<Operation>, limits: Limits, i: nat)
    requires IsRun(ms, ops, limits) && i <= |ops| && ms[i].subs != []
    ensures 0 < i
    ensures var m, m', op := ms[i - 1], ms[i], ops[i - 1];
            && (|m'.subs| == |m.subs| || (|m'.subs| == |m.subs| + 1 && op.Add?))
            && SameTerms(m.subs, m'.subs[..|m.subs|])
            && (|m'.subs| > |m.subs| ==>
                  m'.subs[|m.subs|] ==
                  Subscription(op.rec, op.terms, if op.terms.Limited() then Some(m.nextHandle) else None))
  {
    EveryRunIsValid(ms, ops, limits, i - 1);
    assert Step(ms[i - 1], limits, ops[i - 1], ms[i]);
    SubsAfterStep(ms[i - 1], limits, ops[i - 1], ms[i]);
  }

  lemma {:induction false} EverySubscriptionWasMade(ms: seq<Manager>, ops: seq<Operation>, limits: Limits, i: nat,
                                                    id: nat)
    returns (a: nat)
    requires IsRun(ms, ops, limits) && i <= |ops| && id < |ms[i].subs|
    ensures a < i && MadeBy(ms, ops, a, id, ms[i].subs[id])
  {
    StepOfRun(ms, ops, limits, i);
    var m := ms[i - 1];
    if id == |m.subs| {
      a := i - 1;
    } else {
      a := EverySubscriptionWasMade(ms, ops, limits, i - 1, id);
      assert ms[i].subs[..|m.subs|][id] == ms[i].subs[id];
    }
  }

  /**
   * Over every run, a timer that fires removes exactly the subscription it was armed for, at
   * that subscription's own deadline: there is one operation that made the subscription now
   * stored at the timer's key, that operation armed this very handle, no other subscription
   * ever held it, and nothing else is removed.
   */
  lemma {:induction false} ExpiryRemovesItsOwner(ms: seq<Manager>, ops: seq<Operation>, limits: Limits, i: nat)
    returns (a: nat)
    requires IsRun(ms, ops, limits) && i < |ops| && ops[i].Fire?
    ensures Valid(ms[i], limits) && ops[i].handle in ms[i].timers
    ensures var m, h := ms[i], ops[i].handle;
            var k := m.timers[h].key;
            && k in m.Stored()
            && a < i && MadeBy(ms, ops, a, m.Stored()[k], m.subs[m.Stored()[k]])
            && m.subs[m.Stored()[k]].expiryHandle == Some(h)
            && (forall id :: 0 <= id < |m.subs| && m.subs[id].expiryHandle == Some(h) ==> id == m.Stored()[k])
            && ops[a].terms.lifetime.Some? && ops[a].terms.lifetime.value > 0
            && ops[a].terms.createdAt + ops[a].terms.lifetime.value as real == m.timers[h].deadline <= ops[i].at
            && ms[i + 1].Stored() == m.Stored() - {k}
            && ms[i + 1].timers == m.timers - {h}
  {
    EveryRunIsValid(ms, ops, limits, i);
    var m, h := ms[i], ops[i].handle;
    assert Step(m, limits, ops[i], ms[i + 1]);
    FiringIsRemoval(m, limits, h);
    a := EverySubscriptionWasMade(ms, ops, limits, i, m.Stored()[m.timers[h].key]);
  }

  /** Subscription id is the one stored at k. */
  ghost predicate StoredAs(m: Manager, k: Key, id: nat) {
    k in m.Stored() && m.Stored()[k] == id < |m.subs| && m.subs[id].record.key == k
  }

  /** The subscription stored at k holds handle h. */
  ghost predicate Holds(m: Manager, k: Key, h: nat) {
    k in m.Stored() && m.Stored()[k] < |m.subs| && m.subs[m.Stored()[k]].expiryHandle == Some(h)
  }

  /** Handle h was given out and is not armed. */
  ghost predicate Spent(m: Manager, h: nat) {
    h !in m.timers && h < m.nextHandle
  }

  /** A request for a key in use takes its timer, whether it replaces the subscription or raises before that. */
  lemma ReplacedTimerGone(m: Manager, limits: Limits, rec: Record, terms: Terms, h: nat)
    requires Valid(m, limits) && Holds(m, rec.key, h)
    ensures HasRoom(m, limits, rec.key)
    ensures Spent(Filing(m, limits, rec, terms).0, h)
  {
    StoredAt(m, limits, rec.key);
    CancelledIsWithout(m, limits, rec.key);
  }

  lemma FilingArmsFresh(m: Manager, limits: Limits, rec: Record, terms: Terms, h: nat)
    requires Spent(m, h)
    ensures Spent(Filing(m, limits, rec, terms).0, h)
  {
  }

  /** No operation arms a handle that was given out before. */
  lemma StepArmsFresh(m: Manager, limits: Limits, op: Operation, m': Manager, h: nat)
    requires Valid(m, limits) && Step(m, limits, op, m')
    requires Spent(m, h)
    ensures Spent(m', h)
  {
    match op
    case Add(rec, terms, _) => FilingArmsFresh(m, limits, rec, terms, h);
    case _ =>
  }

  /**
   * After a request for its key, a subscription's timer is gone for good: its handle is not armed,
   * and never will be again, whether the subscription was replaced or the request raised before.
   */
  lemma {:induction false} ReplacedTimerNeverFires(ms: seq<Manager>, ops: seq<Operation>, limits: Limits, a: nat,
                                                   i: nat,
                                                   h: nat)
    requires IsRun(ms, ops, limits) && a < i <= |ops|
    requires ops[a].Add? && Holds(ms[a], ops[a].rec.key, h)
    ensures Spent(ms[i], h)
  {
    var n := i - 1;
    EveryRunIsValid(ms, ops, limits, n);
    assert Step(ms[n], limits, ops[n], ms[i]);
    if n == a {
      ReplacedTimerGone(ms[n], limits, ops[n].rec, ops[n].terms, h);
    } else {
      ReplacedTimerNeverFires(ms, ops, limits, a, n, h);
      StepArmsFresh(ms[n], limits, ops[n], ms[i], h);
    }
  }

  // --- When a timer is armed --------------------------------------------------------

  /** A request that cancels the timer of the subscription at k and then raises, leaving it stored. */
  predicate Disarms(op: Operation, k: Key) {
    op.Add? && op.rec.key == k && op.terms.TooLong()
  }

  /** What an Add that does not raise before it leaves at its key. */
  lemma FiledAt(m: Manager, limits: Limits, rec: Record, terms: Terms)
    requires Valid(m, limits) && Filing(m, limits, rec, terms).1.None?
    ensures var m' := Filing(m, limits, rec, terms).0;
            && m'.Stored() == m.Stored()[rec.key := |m.subs|]
            && m'.subs == m.subs + [Subscription(rec, terms, if terms.Limited() then Some(m.nextHandle) else None)]
            && m'.timers == if terms.Limited()
                            then TimersWithout(m.timers, {rec.key})[m.nextHandle := Timer(terms.Deadline(), rec.key)]
                            else TimersWithout(m.timers, {rec.key})
  {
    InstalledTables(m, limits, rec, terms);
    CancelledIsWithout(m, limits, rec.key);
  }

  lemma OwnTimer(m: Manager, limits: Limits, k: Key, id: nat, h: nat)
    requires Valid(m, limits) && StoredAs(m, k, id) && m.subs[id].expiryHandle == Some(h)
    ensures h < m.nextHandle && (h in m.timers ==> m.timers[h].key == k)
  {
  }

  lemma DisarmedTimers(m: Manager, limits: Limits, k: Key)
    requires Valid(m, limits)
    ensures Disarmed(m, k).timers == TimersWithout(m.timers, {k})
    ensures k in m.Stored() ==> k in m.TableOf(k).master.vals
  {
    CancelledIsWithout(m, limits, k);
    StoredAt(m, limits, k);
  }

  lemma FilingKeepsTimer(m: Manager, limits: Limits, rec: Record, terms: Terms, k: Key, id: nat, h: nat)
    requires Valid(m, limits) && StoredAs(m, k, id) && StoredAs(Filing(m, limits, rec, terms).0, k, id)
    requires h < m.nextHandle && (h in m.timers ==> m.timers[h].key == k)
    requires m.subs[id].expiryHandle == Some(h)
    ensures Filing(m, limits, rec, terms).0.subs[id].expiryHandle == Some(h)
    ensures h in Filing(m, limits, rec, terms).0.timers <==> h in m.timers && !(rec.key == k && terms.TooLong())
  {
    if Filing(m, limits, rec, terms).1.None? {
      FiledAt(m, limits, rec, terms);
    } else {
      StoredAt(m, limits, k);
      DisarmedTimers(m, limits, rec.key);
    }
  }

  /** Operations other than Add leave the timers of what stays stored alone. */
  lemma OtherTimersStay(m: Manager, limits: Limits, op: Operation, m': Manager, k: Key, h: nat)
    requires Valid(m, limits) && Step(m, limits, op, m') && !op.Add? && k in m'.Stored()
    requires h in m.timers ==> m.timers[h].key == k
    ensures h in m'.timers <==> h in m.timers
  {
    match op
    case Cancel(k0) => RemovedIsValid(m, limits, k0);
    case Fire(h0, _) => FiringIsRemoval(m, limits, h0);
    case DeleteObject(oid) => ObjectRemovedIsValid(m, limits, oid);
    case ShutDown =>
    case Check(_, _) =>
  }

  /** A subscription that stays stored keeps its timer, unless the operation disarms it. */
  lemma StepKeepsTimer(m: Manager, limits: Limits, op: Operation, m': Manager, k: Key, id: nat, h: nat)
    requires Valid(m, limits) && Step(m, limits, op, m') && StoredAs(m, k, id) && StoredAs(m', k, id)
    requires m.subs[id].expiryHandle == Some(h)
    ensures m'.subs[id].expiryHandle == Some(h)
    ensures h in m'.timers <==> h in m.timers && !Disarms(op, k)
  {
    OwnTimer(m, limits, k, id, h);
    if op.Add? {
      FilingKeepsTimer(m, limits, op.rec, op.terms, k, id, h);
    } else {
      SubsAfterStep(m, limits, op, m');
      OtherTimersStay(m, limits, op, m', k, h);
    }
  }

  /** What was stored with an identity given out before was stored already. */
  lemma StoredBefore(m: Manager, limits: Limits, op: Operation, m': Manager, k: Key)
    requires Valid(m, limits) && Step(m, limits, op, m') && k in m'.Stored() && m'.Stored()[k] < |m.subs|
    ensures StoredAs(m, k, m'.Stored()[k])
  {
    match op
    case Add(rec, terms, _) =>
      if Filing(m, limits, rec, terms).1.None? {
        FiledAt(m, limits, rec, terms);
      }
    case Cancel(k0) => RemovedIsValid(m, limits, k0);
    case Fire(h0, _) => FiringIsRemoval(m, limits, h0);
    case DeleteObject(oid) => ObjectRemovedIsValid(m, limits, oid);
    case ShutDown =>
    case Check(_, _) =>
  }

  /** A limited subscription just made has its timer armed. */
  lemma MadeIsArmed(m: Manager, limits: Limits, op: Operation, m': Manager, k: Key)
    requires Valid(m, limits) && Step(m, limits, op, m') && StoredAs(m', k, |m.subs|)
    ensures op.Add? && op.rec.key == k
    ensures m'.subs[|m.subs|] == Subscription(op.rec, op.terms, if op.terms.Limited() then Some(m.nextHandle) else None)
    ensures op.terms.Limited() ==> m.nextHandle in m'.timers
  {
    SubsAfterStep(m, limits, op, m');
    if Filing(m, limits, op.rec, op.terms).1.None? {
      FiledAt(m, limits, op.rec, op.terms);
    }
  }

  /** The timer of the subscription stored at k is armed. */
  ghost predicate Armed(m: Manager, k: Key)
    requires k in m.Stored() && m.Stored()[k] < |m.subs|
  {
    var handle := m.subs[m.Stored()[k]].expiryHandle;
    handle.Some? && handle.value in m.timers
  }

  /** Two states of one subscription: only what it remembers may differ. */
  ghost predicate SameSubscription(sub: Subscription, sub': Subscription) {
    sub.record.key == sub'.record.key && sub.terms == sub'.terms && sub.expiryHandle == sub'.expiryHandle
  }

  /** What an operation does to the timer of the subscription stored at k after it. */
  lemma ArmedStep(m: Manager, limits: Limits, op: Operation, m': Manager, k: Key, id: nat)
    requires Valid(m, limits) && Step(m, limits, op, m') && StoredAs(m', k, id)
    ensures id <= |m.subs|
    ensures id == |m.subs| ==>
              && op.Add? && op.rec.key == k
              && m'.subs[id] == Subscription(op.rec, op.terms, if op.terms.Limited() then Some(m.nextHandle) else None)
              && (Armed(m', k) <==> op.terms.Limited())
    ensures id < |m.subs| ==>
              && StoredAs(m, k, id) && SameSubscription(m.subs[id], m'.subs[id])
              && (Armed(m', k) <==> Armed(m, k) && !Disarms(op, k))
  {
    SubsAfterStep(m, limits, op, m');
    if id == |m.subs| {
      MadeIsArmed(m, limits, op, m', k);
    } else {
      StoredBefore(m, limits, op, m', k);
      assert m'.subs[..|m.subs|][id] == m'.subs[id];
      if m.subs[id].expiryHandle.Some? {
        StepKeepsTimer(m, limits, op, m', k, id, m.subs[id].expiryHandle.value);
      }
    }
  }

  /** What was stored was stored by the operation before, or earlier. */
  lemma ArmedStepOfRun(ms: seq<Manager>, ops: seq<Operation>, limits: Limits, i: nat, k: Key)
    requires IsRun(ms, ops, limits) && i <= |ops| && k in ms[i].Stored()
    ensures StoredAs(ms[i], k, ms[i].Stored()[k]) && 0 < i
    ensures var m, m', op, id := ms[i - 1], ms[i], ops[i - 1], ms[i].Stored()[k];
            && id <= |m.subs|
            && (id == |m.subs| ==>
                  MadeBy(ms, ops, i - 1, id, m'.subs[id]) && (Armed(m', k) <==> op.terms.Limited()))
            && (id < |m.subs| ==>
                  && StoredAs(m, k, id) && SameSubscription(m.subs[id], m'.subs[id])
                  && (Armed(m', k) <==> Armed(m, k) && !Disarms(op, k)))
  {
    EveryRunIsValid(ms, ops, limits, i);
    if i > 0 {
      EveryRunIsValid(ms, ops, limits, i - 1);
      assert Step(ms[i - 1], limits, ops[i - 1], ms[i]);
      ArmedStep(ms[i - 1], limits, ops[i - 1], ms[i], k, ms[i].Stored()[k]);
    }
  }

  /** Since operation a no request for key k has raised on its lifetime. */
  ghost predicate Undisturbed(ops: seq<Operation>, a: nat, i: nat, k: Key)
    requires i <= |ops|
  {
    forall j :: a < j < i ==> !Disarms(ops[j], k)
  }

  /**
   * Over every run: the timer of a stored subscription is armed if and only if the subscription
   * is limited and no request for its key has raised on its lifetime since the operation that
   * made the subscription.
   */
  lemma {:induction false} ArmedExactly(ms: seq<Manager>, ops: seq<Operation>, limits: Limits, i: nat, k: Key)
    returns (a: nat)
    requires IsRun(ms, ops, limits) && i <= |ops| && k in ms[i].Stored()
    ensures StoredAs(ms[i], k, ms[i].Stored()[k])
    ensures a < i && MadeBy(ms, ops, a, ms[i].Stored()[k], ms[i].subs[ms[i].Stored()[k]])
    ensures Armed(ms[i], k) <==>
              && ops[a].terms.lifetime.Some? && ops[a].terms.lifetime.value > 0
              && Undisturbed(ops, a, i, k)
  {
    ArmedStepOfRun(ms, ops, limits, i, k);
    var n, id := i - 1, ms[i].Stored()[k];
    if id == |ms[n].subs| {
      a := n;
    } else {
      a := ArmedExactly(ms, ops, limits, n, k);
      assert Undisturbed(ops, a, i, k) <==> Undisturbed(ops, a, n, k) && !Disarms(ops[n], k);
    }
  }

  /** The first request of all, with a lifetime of a minute. */
  lemma FirstIsFiled(limits: Limits, rec: Record, t: Terms)
    requires limits.Of(rec.key) > 0 && t == Terms(false, Some(60), 0.0)
    ensures var (m, error) := Filing(EMPTY, limits, rec, t);
            && error.None? && Valid(m, limits)
            && StoredAs(m, rec.key, 0) && m.subs == [Subscription(rec, t, Some(0))]
            && m.timers == map[0 := Timer(60.0, rec.key)]
  {
    EmptyIsValid(limits);
    FilingIsSafe(EMPTY, limits, rec, t);
    FiledAt(EMPTY, limits, rec, t);
  }

  lemma OverlongIsDisarming(m: Manager, limits: Limits, rec: Record, t: Terms)
    requires Valid(m, limits) && rec.key in m.Stored() && t.TooLong()
    ensures Filing(m, limits, rec, t).0 == m.(timers := TimersWithout(m.timers, {rec.key}))
  {
    DisarmedTimers(m, limits, rec.key);
  }

  /**
   * A limited subscription that never expires: a request for the same key carries a lifetime too
   * long to convert, so the timer is cancelled and the subscription stays as it was.
   */
  lemma OverlongLifetimeDisarms(limits: Limits, rec: Record, huge: int, view: ObjectView)
    returns (op: Operation, m: Manager, op': Operation, m': Manager)
    requires limits.Of(rec.key) > 0 && huge >= FLOAT_LIMIT
    ensures op == Add(rec, Terms(false, Some(60), 0.0), view) && op' == Add(rec, Terms(false, Some(huge), 1.0), view)
    ensures Valid(EMPTY, limits) && Step(EMPTY, limits, op, m)
    ensures Valid(m, limits) && Step(m, limits, op', m')
    ensures Armed(m, rec.key)
    ensures StoredAs(m', rec.key, 0) && m'.subs == m.subs && m'.timers == map[]
  {
    EmptyIsValid(limits);
    op, op' := Add(rec, Terms(false, Some(60), 0.0), view), Add(rec, Terms(false, Some(huge), 1.0), view);
    FirstIsFiled(limits, rec, op.terms);
    m := Filing(EMPTY, limits, rec, op.terms).0;
    m' := Filing(m, limits, rec, op'.terms).0;
    OverlongIsDisarming(m, limits, rec, op'.terms);
  }

  /** A check leaves nothing to report: the same check again sends and changes nothing, and raises if it did before. */
  lemma {:induction false} SecondCheckIsSilent(m: Manager, limits: Limits, view: ObjectView, property: nat, m': Manager)
    requires Valid(m, limits) && Step(m, limits, Check(view, property), m')
    ensures Valid(m', limits)
    ensures CheckScan(m', limits, view, property) ==
            Scanned([], Remembered(m'.Stored(), m'.subs), CheckScan(m, limits, view, property).completed)
  {
    StepIsValid(m, limits, Check(view, property), m');
    AllKeysAreStored(m, limits);
    SecondScanIsSilent(AllKeys(m), Remembered(m.Stored(), m.subs), view, property);
  }

  // --- The increment rule over whole runs ------------------------------------------

  lemma NotifiedAreStored(m: Manager, limits: Limits, view: ObjectView, property: nat)
    requires Valid(m, limits)
    ensures forall k :: k in CheckScan(m, limits, view, property).notified ==> k in m.Stored()
    ensures NoDuplicates(CheckScan(m, limits, view, property).notified)
  {
    AllKeysAreStored(m, limits);
    NotifiedAreScanned(AllKeys(m), Remembered(m.Stored(), m.subs), view, property);
    NotifiedOnce(AllKeys(m), Remembered(m.Stored(), m.subs), view, property);
  }

  /** What an operation hands over to be sent. */
  ghost function Sends(m: Manager, limits: Limits, op: Operation): seq<Notification>
    requires Valid(m, limits)
  {
    match op
    case Add(rec, terms, view) =>
      if Filing(m, limits, rec, terms).1.None? && CanReport(rec, view)
      then [Message(Subscription(rec, terms, None), view)]
      else []
    case Check(view, property) =>
      NotifiedAreStored(m, limits, view, property);
      Messages(m.Stored(), m.subs, CheckScan(m, limits, view, property).notified, view)
    case _ => []
  }

  /** One operation, with what it sends. */
  ghost predicate SendingStep(s: State, limits: Limits, op: Operation, s': State)
    requires Valid(s.m, limits)
  {
    Step(s.m, limits, op, s'.m) && s'.sent == s.sent + Sends(s.m, limits, op)
  }

  /** What subscribing does to the manager and its log is such a step. */
  lemma AddIsSubscribed(s: State, limits: Limits, rec: Record, terms: Terms, view: ObjectView)
    requires Valid(s.m, limits)
    ensures SendingStep(s, limits, Add(rec, terms, view), Subscribed(s, limits, rec, terms, view).0)
  {
    assert s.sent + [] == s.sent;
  }

  /** The Add operations of a request for several properties, up to the first that raises. */
  ghost function AddsOf(s: State, limits: Limits, subscriber: nat, process: nat, terms: Terms, db: map<nat, ObjectView>,
                        items: seq<Item>): seq<Operation>
    decreases |items|
  {
    if items == [] || items[0].oid !in db then []
    else if items[0].Lookup? then AddsOf(s, limits, subscriber, process, terms, db, items[1..])
    else
      var view := db[items[0].oid];
      var rec := PropertyRecord(subscriber, process, items[0].oid, items[0].ref, view);
      var (s', e) := Subscribed(s, limits, rec, terms, view);
      [Add(rec, terms, view)]
      + if e.Some? then [] else AddsOf(s', limits, subscriber, process, terms, db, items[1..])
  }

  ghost predicate Follows(s: State, limits: Limits, op: Operation, s': State) {
    Valid(s.m, limits) ==> SendingStep(s, limits, op, s')
  }

  /** The states a sequence of operations leads through, from any valid one. */
  ghost predicate IsSendingRun(ss: seq<State>, ops: seq<Operation>, limits: Limits) {
    && |ss| == |ops| + 1
    && Valid(ss[0].m, limits)
    && forall i :: 0 <= i < |ops| ==> Follows(ss[i], limits, ops[i], ss[i + 1])
  }

  lemma SendingRunCons(s: State, limits: Limits, op: Operation, ss: seq<State>, ops: seq<Operation>)
    requires Valid(s.m, limits) && IsSendingRun(ss, ops, limits) && Follows(s, limits, op, ss[0])
    ensures IsSendingRun([s] + ss, [op] + ops, limits)
  {
    var all, os := [s] + ss, [op] + ops;
    forall i | 0 <= i < |os|
      ensures Follows(all[i], limits, os[i], all[i + 1])
    {
      assert i > 0 ==> Follows(ss[i - 1], limits, ops[i - 1], ss[i]);
    }
  }

  lemma SubscribedFollows(s: State, limits: Limits, rec: Record, terms: Terms, view: ObjectView)
    requires Valid(s.m, limits)
    ensures var s' := Subscribed(s, limits, rec, terms, view).0;
            Valid(s'.m, limits) && Follows(s, limits, Add(rec, terms, view), s')
  {
    AddIsSubscribed(s, limits, rec, terms, view);
    FilingIsSafe(s.m, limits, rec, terms);
  }

  lemma NoOperations(s: State, limits: Limits)
    requires Valid(s.m, limits)
    ensures IsSendingRun([s], [], limits)
  {
  }

  /** A request for several properties is a run of such operations, ending where the request leaves the manager. */
  lemma {:induction false} RequestIsRun(s: State, limits: Limits, subscriber: nat, process: nat, terms: Terms,
                                        db: map<nat, ObjectView>, items: seq<Item>)
    returns (ss: seq<State>)
    requires Valid(s.m, limits)
    ensures IsSendingRun(ss, AddsOf(s, limits, subscriber, process, terms, db, items), limits)
    ensures ss[0] == s && ss[|ss| - 1] == SubscribedEach(s, limits, subscriber, process, terms, db, items).0
    decreases |items|
  {
    if items == [] || items[0].oid !in db {
      NoOperations(s, limits);
      ss := [s];
    } else if items[0].Lookup? {
      ss := RequestIsRun(s, limits, subscriber, process, terms, db, items[1..]);
    } else {
      var view := db[items[0].oid];
      var rec := PropertyRecord(subscriber, process, items[0].oid, items[0].ref, view);
      var (s', e) := Subscribed(s, limits, rec, terms, view);
      SubscribedFollows(s, limits, rec, terms, view);
      var rest, more := [s'], [];
      if e.Some? {
        NoOperations(s', limits);
      } else {
        rest := RequestIsRun(s', limits, subscriber, process, terms, db, items[1..]);
        more := AddsOf(s', limits, subscriber, process, terms, db, items[1..]);
      }
      SendingRunCons(s, limits, Add(rec, terms, view), rest, more);
      ss := [s] + rest;
    }
  }

  /** How many of the notifications are for key k. */
  ghost function CountFor(sent: seq<Notification>, k: Key): nat {
    if sent == [] then 0 else (if sent[0].key == k then 1 else 0) + CountFor(sent[1..], k)
  }

  lemma {:induction false} CountConcat(a: seq<Notification>, b: seq<Notification>, k: Key)
    ensures CountFor(a + b, k) == CountFor(a, k) + CountFor(b, k)
  {
    if a == [] {
      assert a + b == b;
    } else {
      assert (a + b)[1..] == a[1..] + b;
      CountConcat(a[1..], b, k);
    }
  }

  lemma {:induction false} MessagesFor(stored: map<Key, nat>, subs: seq<Subscription>, ks: seq<Key>, view: ObjectView,
                                       k: Key)
    requires Linked(stored, subs) && (forall k :: k in ks ==> k in stored) && NoDuplicates(ks)
    ensures CountFor(Messages(stored, subs, ks, view), k) == if k in ks then 1 else 0
  {
    if ks == [] {
    } else {
      assert ks == [ks[0]] + ks[1..] && ks[0] !in ks[1..];
      MessagesFor(stored, subs, ks[1..], view, k);
    }
  }

  /** What the subscription with identity id remembers. */
  ghost function RecordOf(m: Manager, id: nat): Record
    requires id < |m.subs|
  {
    m.subs[id].record
  }

  /** The operation is a check that notifies k. */
  ghost predicate Reports(m: Manager, limits: Limits, op: Operation, k: Key)
    requires Valid(m, limits) && k in m.Stored()
  {
    AllKeysAreStored(m, limits);
    op.Check? && Notifies(AllKeys(m), Remembered(m.Stored(), m.subs), op.view, op.property, k)
  }

  /** A check that looks at the subscription stored at k. */
  predicate Looks(op: Operation, k: Key) {
    op.Check? && Concerns(k, op.view, op.property)
  }

  /** The check gets as far as k, or its value has not changed enough. */
  ghost predicate Serves(m: Manager, limits: Limits, op: Operation, k: Key)
    requires Valid(m, limits) && op.Check? && k in m.Stored()
  {
    AllKeysAreStored(m, limits);
    Served(AllKeys(m), Remembered(m.Stored(), m.subs), op.view, op.property, k)
  }

  lemma RecordAfterCheck(m: Manager, limits: Limits, op: Operation, m': Manager, k: Key, id: nat)
    requires Valid(m, limits) && op.Check? && Step(m, limits, op, m') && StoredAs(m, k, id)
    ensures id < |m'.subs|
    ensures RecordOf(m', id) == if Reports(m, limits, op, k) then Updated(RecordOf(m, id), op.view) else RecordOf(m, id)
  {
    AllKeysAreStored(m, limits);
    ScanOfOne(AllKeys(m), Remembered(m.Stored(), m.subs), op.view, op.property, k);
    assert Remembered(m'.Stored(), m'.subs)[k] == RecordOf(m', id);
  }

  lemma NotifiedIfReported(m: Manager, limits: Limits, op: Operation, k: Key)
    requires Valid(m, limits) && op.Check? && k in m.Stored()
    ensures k in CheckScan(m, limits, op.view, op.property).notified <==> Reports(m, limits, op, k)
  {
    AllKeysAreStored(m, limits);
    ScanOfOne(AllKeys(m), Remembered(m.Stored(), m.subs), op.view, op.property, k);
  }

  lemma SentByCheck(m: Manager, limits: Limits, op: Operation, k: Key)
    requires Valid(m, limits) && op.Check? && k in m.Stored()
    ensures CountFor(Sends(m, limits, op), k) == if Reports(m, limits, op, k) then 1 else 0
  {
    NotifiedIfReported(m, limits, op, k);
    NotifiedAreStored(m, limits, op.view, op.property);
    var notified := CheckScan(m, limits, op.view, op.property).notified;
    assert Sends(m, limits, op) == Messages(m.Stored(), m.subs, notified, op.view);
    MessagesFor(m.Stored(), m.subs, notified, op.view, k);
  }

  lemma ReportsByRule(m: Manager, limits: Limits, op: Operation, k: Key, id: nat)
    requires Valid(m, limits) && op.Check? && StoredAs(m, k, id)
    ensures Reports(m, limits, op, k) ==> Looks(op, k) && ShouldNotify(RecordOf(m, id), op.view)
    ensures Looks(op, k) ==>
              (Serves(m, limits, op, k) <==> Reports(m, limits, op, k) || !ValueFires(RecordOf(m, id), op.view))
  {
  }

  /** Another subscription is made: this one and its messages are not concerned. */
  lemma OtherSubscription(m: Manager, limits: Limits, op: Operation, m': Manager, k: Key, id: nat)
    requires Valid(m, limits) && op.Add? && Step(m, limits, op, m') && StoredAs(m, k, id) && StoredAs(m', k, id)
    ensures RecordOf(m', id) == RecordOf(m, id)
    ensures Filing(m, limits, op.rec, op.terms).1.None? ==> op.rec.key != k
  {
    SubsAfterFiling(m, limits, op.rec, op.terms);
    if Filing(m, limits, op.rec, op.terms).1.None? {
      FiledAt(m, limits, op.rec, op.terms);
    }
  }

  lemma OtherOperation(m: Manager, limits: Limits, op: Operation, m': Manager, k: Key, id: nat)
    requires Valid(m, limits) && !op.Check? && Step(m, limits, op, m') && StoredAs(m, k, id) && StoredAs(m', k, id)
    ensures RecordOf(m', id) == RecordOf(m, id)
    ensures CountFor(Sends(m, limits, op), k) == 0
  {
    if op.Add? {
      OtherSubscription(m, limits, op, m', k, id);
    } else {
      assert m'.subs == m.subs;
    }
  }

  /** An analog subscription with increment c. */
  ghost predicate AnalogRun(rec: Record, ops: seq<Operation>, c: real) {
    && c > 0.0
    && rec.lastValue.Number?
    && forall i :: 0 <= i < |ops| && Looks(ops[i], rec.key) ==> AnalogView(rec, ops[i].view, c)
  }

  ghost function SeenBy(rec: Record, op: Operation): seq<real> {
    if Looks(op, rec.key) && Watched(rec, op.view).Number? then [Watched(rec, op.view).r] else []
  }

  /** The values of the property watched: the one captured when subscribing, then one for each write of it. */
  ghost function SeenValues(rec: Record, ops: seq<Operation>): seq<real> {
    if ops == [] then [if rec.lastValue.Number? then rec.lastValue.r else 0.0]
    else SeenValues(rec, ops[..|ops| - 1]) + SeenBy(rec, ops[|ops| - 1])
  }

  ghost function FlagsAfter(rec: Record, flags: Value, op: Operation): Value {
    if Looks(op, rec.key) then op.view.StatusFlags() else flags
  }

  /** The status flags seen last, starting with those captured when subscribing. */
  ghost function SeenFlags(rec: Record, ops: seq<Operation>): Value {
    if ops == [] then rec.lastFlags else FlagsAfter(rec, SeenFlags(rec, ops[..|ops| - 1]), ops[|ops| - 1])
  }

  /** How often the status flags an object subscription looks at have changed. */
  ghost function FlagChanges(rec: Record, ops: seq<Operation>): nat {
    if ops == [] then 0
    else
      var init := ops[..|ops| - 1];
      FlagChanges(rec, init)
      + FlagChange(rec.key, SeenFlags(rec, init), FlagsAfter(rec, SeenFlags(rec, init), ops[|ops| - 1]))
  }

  /** The account of a subscription after one operation, that looked at it or not, and notified it or not. */
  lemma AccountAfter(op: Operation, k: Key, rec0: Record, rec: Record, vs: seq<real>, flags: Value, spare: int, c: real,
                     hit: bool)
    requires RateBound(rec0, rec, vs, flags, spare, c) && c > 0.0 && rec0.key == k
    requires Looks(op, k) ==> AnalogView(rec0, op.view, c)
    requires hit ==> Looks(op, k) && ShouldNotify(rec, op.view)
    ensures var rec', flags' := if hit then Updated(rec, op.view) else rec, FlagsAfter(rec0, flags, op);
            && RateBound(rec0, rec', vs + SeenBy(rec0, op), flags',
                         spare + (if hit then 1 else 0) - FlagChange(k, flags, flags'), c)
            && (Looks(op, k) ==> (Fresh(rec', vs + SeenBy(rec0, op), c) <==> hit || !ValueFires(rec, op.view)))
  {
    if Looks(op, k) {
      RateStep(rec0, rec, vs, flags, spare, c, op.view, hit);
    } else {
      assert vs + [] == vs;
    }
  }

  /** A subscription at some point of a run: what it remembers, and how many notifications it has been sent. */
  datatype Moment = Moment(rec: Record, count: int)

  /** One operation as a subscription at k sees it: it is notified, because its rule fires, or left alone. */
  ghost predicate Moves(x: Moment, op: Operation, k: Key, y: Moment) {
    if y.count == x.count then y == x
    else Looks(op, k) && ShouldNotify(x.rec, op.view) && y == Moment(Updated(x.rec, op.view), x.count + 1)
  }

  ghost function MomentOf(s: State, k: Key, id: nat): Moment
    requires id < |s.m.subs|
  {
    Moment(RecordOf(s.m, id), CountFor(s.sent, k))
  }

  /** The account of one subscription between two of its moments. */
  ghost predicate Settled(x: Moment, y: Moment, vs: seq<real>, flags: Value, changes: int, c: real) {
    RateBound(x.rec, y.rec, vs, flags, y.count - x.count - changes, c)
  }

  lemma AccountMoves(x: Moment, y: Moment, op: Operation, k: Key, y': Moment, vs: seq<real>, flags: Value, changes: int,
                     c: real)
    requires Settled(x, y, vs, flags, changes, c) && c > 0.0 && x.rec.key == k
    requires Moves(y, op, k, y') && (Looks(op, k) ==> AnalogView(x.rec, op.view, c))
    ensures var flags' := FlagsAfter(x.rec, flags, op);
            Settled(x, y', vs + SeenBy(x.rec, op), flags', changes + FlagChange(k, flags, flags'), c)
    ensures Looks(op, k) ==>
              (Fresh(y'.rec, vs + SeenBy(x.rec, op), c) <==> y'.count != y.count || !ValueFires(y.rec, op.view))
  {
    AccountAfter(op, k, x.rec, y.rec, vs, flags, y.count - x.count - changes, c, y'.count != y.count);
  }

  /** A check moves a subscription if it reports it, and leaves it alone otherwise. */
  lemma CheckMoves(s: State, limits: Limits, op: Operation, s': State, k: Key, id: nat)
    requires Valid(s.m, limits) && SendingStep(s, limits, op, s') && op.Check? && StoredAs(s.m, k, id)
    ensures id < |s'.m.subs|
    ensures Moves(MomentOf(s, k, id), op, k, MomentOf(s', k, id))
    ensures MomentOf(s', k, id).count != MomentOf(s, k, id).count <==> Reports(s.m, limits, op, k)
  {
    CountConcat(s.sent, Sends(s.m, limits, op), k);
    RecordAfterCheck(s.m, limits, op, s'.m, k, id);
    SentByCheck(s.m, limits, op, k);
    ReportsByRule(s.m, limits, op, k, id);
  }

  /** An operation moves a subscription that stays where it is. */
  lemma OperationMoves(s: State, limits: Limits, op: Operation, s': State, k: Key, id: nat)
    requires Valid(s.m, limits) && SendingStep(s, limits, op, s') && StoredAs(s.m, k, id) && StoredAs(s'.m, k, id)
    ensures Moves(MomentOf(s, k, id), op, k, MomentOf(s', k, id))
    ensures MomentOf(s', k, id).count != MomentOf(s, k, id).count <==> Reports(s.m, limits, op, k)
  {
    if op.Check? {
      CheckMoves(s, limits, op, s', k, id);
    } else {
      CountConcat(s.sent, Sends(s.m, limits, op), k);
      OtherOperation(s.m, limits, op, s'.m, k, id);
    }
  }

  lemma {:induction false} SendingRunIsValid(ss: seq<State>, ops: seq<Operation>, limits: Limits, i: nat)
    requires IsSendingRun(ss, ops, limits) && i <= |ops|
    ensures Valid(ss[i].m, limits)
  {
    if i == 0 {
    } else {
      SendingRunIsValid(ss, ops, limits, i - 1);
      assert Follows(ss[i - 1], limits, ops[i - 1], ss[i]);
      StepIsValid(ss[i - 1].m, limits, ops[i - 1], ss[i].m);
    }
  }

  /** Subscription id stays stored at k from state a to state b. */
  ghost predicate StaysStored(ss: seq<State>, k: Key, id: nat, a: nat, b: nat)
    requires b < |ss|
  {
    forall i :: a <= i <= b ==> StoredAs(ss[i].m, k, id)
  }

  /** From state i to the next, subscription id moves as operation i says. */
  ghost predicate MovesOn(ss: seq<State>, ops: seq<Operation>, k: Key, id: nat, i: nat)
    requires i < |ops| && |ss| == |ops| + 1
  {
    && id < |ss[i].m.subs| && id < |ss[i + 1].m.subs|
    && Moves(MomentOf(ss[i], k, id), ops[i], k, MomentOf(ss[i + 1], k, id))
  }

  lemma MovesAt(ss: seq<State>, ops: seq<Operation>, limits: Limits, k: Key, id: nat, i: nat)
    requires IsSendingRun(ss, ops, limits) && i < |ops| && StoredAs(ss[i].m, k, id) && StoredAs(ss[i + 1].m, k, id)
    ensures MovesOn(ss, ops, k, id, i)
  {
    SendingRunIsValid(ss, ops, limits, i);
    assert Follows(ss[i], limits, ops[i], ss[i + 1]);
    OperationMoves(ss[i], limits, ops[i], ss[i + 1], k, id);
  }

  lemma CountsByReport(ss: seq<State>, ops: seq<Operation>, limits: Limits, k: Key, id: nat, i: nat)
    requires IsSendingRun(ss, ops, limits) && i < |ops| && StoredAs(ss[i].m, k, id) && StoredAs(ss[i + 1].m, k, id)
    ensures Valid(ss[i].m, limits)
    ensures MomentOf(ss[i + 1], k, id).count != MomentOf(ss[i], k, id).count <==> Reports(ss[i].m, limits, ops[i], k)
  {
    SendingRunIsValid(ss, ops, limits, i);
    assert Follows(ss[i], limits, ops[i], ss[i + 1]);
    OperationMoves(ss[i], limits, ops[i], ss[i + 1], k, id);
  }

  /** Subscription id moves from state a to state n. */
  ghost predicate MovesThrough(ss: seq<State>, ops: seq<Operation>, k: Key, id: nat, a: nat, n: nat) {
    && |ss| == |ops| + 1 && a <= n <= |ops|
    && id < |ss[a].m.subs| && RecordOf(ss[a].m, id).key == k
    && forall i :: a <= i < n ==> MovesOn(ss, ops, k, id, i)
  }

  lemma StretchMoves(ss: seq<State>, ops: seq<Operation>, limits: Limits, k: Key, id: nat, a: nat, n: nat)
    requires IsSendingRun(ss, ops, limits) && a <= n <= |ops| && StaysStored(ss, k, id, a, n)
    ensures MovesThrough(ss, ops, k, id, a, n)
  {
    assert StoredAs(ss[a].m, k, id);
    forall i | a <= i < n
      ensures MovesOn(ss, ops, k, id, i)
    {
      MovesAt(ss, ops, limits, k, id, i);
    }
  }

  /** Subscription id moves from state a to state n, and is an analog one with increment c. */
  ghost predicate IsStretch(ss: seq<State>, ops: seq<Operation>, k: Key, id: nat, c: real, a: nat, n: nat) {
    MovesThrough(ss, ops, k, id, a, n) && AnalogRun(RecordOf(ss[a].m, id), ops[a..n], c)
  }

  lemma StretchInit(ss: seq<State>, ops: seq<Operation>, k: Key, id: nat, c: real, a: nat, n: nat)
    requires IsStretch(ss, ops, k, id, c, a, n) && a < n
    ensures IsStretch(ss, ops, k, id, c, a, n - 1) && MovesOn(ss, ops, k, id, n - 1)
  {
    assert ops[a..n][..n - 1 - a] == ops[a..n - 1];
  }

  /** The account of subscription id from state a to state n. */
  ghost predicate Balanced(ss: seq<State>, ops: seq<Operation>, k: Key, id: nat, c: real, a: nat, n: nat)
    requires a <= n <= |ops| < |ss| && id < |ss[a].m.subs|
  {
    && id < |ss[n].m.subs|
    && var rec, os := RecordOf(ss[a].m, id), ops[a..n];
       Settled(MomentOf(ss[a], k, id), MomentOf(ss[n], k, id), SeenValues(rec, os), SeenFlags(rec, os),
               FlagChanges(rec, os), c)
  }

  lemma LastOperation(rec: Record, ops: seq<Operation>, c: real, a: nat, n: nat)
    requires a < n <= |ops| && AnalogRun(rec, ops[a..n], c)
    ensures var init, all, op := ops[a..n - 1], ops[a..n], ops[n - 1];
            && SeenValues(rec, all) == SeenValues(rec, init) + SeenBy(rec, op)
            && SeenFlags(rec, all) == FlagsAfter(rec, SeenFlags(rec, init), op)
            && FlagChanges(rec, all) ==
               FlagChanges(rec, init) + FlagChange(rec.key, SeenFlags(rec, init), SeenFlags(rec, all))
            && c > 0.0 && (Looks(op, rec.key) ==> AnalogView(rec, op.view, c))
  {
    var os := ops[a..n];
    assert os[..|os| - 1] == ops[a..n - 1] && os[|os| - 1] == ops[n - 1];
  }

  lemma BalanceAfter(ss: seq<State>, ops: seq<Operation>, k: Key, id: nat, c: real, a: nat, n: nat)
    requires a < n <= |ops| && |ss| == |ops| + 1 && MovesOn(ss, ops, k, id, n - 1)
    requires id < |ss[a].m.subs| && RecordOf(ss[a].m, id).key == k && AnalogRun(RecordOf(ss[a].m, id), ops[a..n], c)
    requires Balanced(ss, ops, k, id, c, a, n - 1)
    ensures Balanced(ss, ops, k, id, c, a, n)
    ensures Looks(ops[n - 1], k) ==>
              (Fresh(RecordOf(ss[n].m, id), SeenValues(RecordOf(ss[a].m, id), ops[a..n]), c) <==>
               || CountFor(ss[n].sent, k) != CountFor(ss[n - 1].sent, k)
               || !ValueFires(RecordOf(ss[n - 1].m, id), ops[n - 1].view))
  {
    var x := MomentOf(ss[a], k, id);
    LastOperation(x.rec, ops, c, a, n);
    var init := ops[a..n - 1];
    AccountMoves(x, MomentOf(ss[n - 1], k, id), ops[n - 1], k, MomentOf(ss[n], k, id), SeenValues(x.rec, init),
                 SeenFlags(x.rec, init), FlagChanges(x.rec, init), c);
  }

  lemma BalancedAtStart(ss: seq<State>, ops: seq<Operation>, k: Key, id: nat, c: real, a: nat)
    requires a <= |ops| < |ss| && id < |ss[a].m.subs| && RecordOf(ss[a].m, id).lastValue.Number?
    ensures Balanced(ss, ops, k, id, c, a, a)
  {
    assert ops[a..a] == [];
    assert Scale(0, c) == 0.0;
  }

  lemma {:induction false} StretchIsBalanced(ss: seq<State>, ops: seq<Operation>, k: Key, id: nat, c: real, a: nat,
                                             n: nat)
    requires IsStretch(ss, ops, k, id, c, a, n)
    ensures Balanced(ss, ops, k, id, c, a, n)
    decreases n
  {
    if n == a {
      BalancedAtStart(ss, ops, k, id, c, a);
    } else {
      StretchInit(ss, ops, k, id, c, a, n);
      StretchIsBalanced(ss, ops, k, id, c, a, n - 1);
      BalanceAfter(ss, ops, k, id, c, a, n);
    }
  }

  /** Each of that many notifications has cost an increment of travel. */
  ghost predicate RateLimited(sent: int, c: real, vs: seq<real>) {
    sent as real * c <= Variation(vs)
  }

  lemma ProductIsBounded(rec0: Record, rec: Record, vs: seq<real>, flags: Value, spare: int, c: real)
    requires RateBound(rec0, rec, vs, flags, spare, c) && c > 0.0
    ensures RateLimited(spare, c, vs)
  {
    ScaleIsProduct(spare, c);
    ScaleSucc(spare, c);
  }

  /** The notifications subscription k was sent from state a to state n, less the changes of flags, are rate limited. */
  ghost predicate CostsTravel(ss: seq<State>, ops: seq<Operation>, k: Key, rec: Record, c: real, a: nat, n: nat)
    requires a <= n <= |ops| < |ss|
  {
    RateLimited(CountFor(ss[n].sent, k) - CountFor(ss[a].sent, k) - FlagChanges(rec, ops[a..n]), c,
                SeenValues(rec, ops[a..n]))
  }

  lemma RateOfStretch(ss: seq<State>, ops: seq<Operation>, k: Key, id: nat, c: real, a: nat, n: nat)
    requires IsStretch(ss, ops, k, id, c, a, n)
    ensures CostsTravel(ss, ops, k, RecordOf(ss[a].m, id), c, a, n)
  {
    StretchIsBalanced(ss, ops, k, id, c, a, n);
    var rec, os := RecordOf(ss[a].m, id), ops[a..n];
    ProductIsBounded(rec, RecordOf(ss[n].m, id), SeenValues(rec, os), SeenFlags(rec, os),
                     CountFor(ss[n].sent, k) - CountFor(ss[a].sent, k) - FlagChanges(rec, os), c);
  }

  /**
   * Rate, over any run of operations: as long as a subscription stays stored, every notification
   * it is sent, beyond those of the first state and one for each change of the status flags it
   * looks at, has cost the watched value an increment of travel.
   */
  lemma {:induction false} NotificationsAreRateLimited(ss: seq<State>, ops: seq<Operation>, limits: Limits, k: Key,
                                                       id: nat, c: real, a: nat, n: nat)
    requires IsSendingRun(ss, ops, limits) && a <= n <= |ops| && StaysStored(ss, k, id, a, n)
    requires id < |ss[a].m.subs| && AnalogRun(RecordOf(ss[a].m, id), ops[a..n], c)
    ensures CostsTravel(ss, ops, k, RecordOf(ss[a].m, id), c, a, n)
  {
    StretchMoves(ss, ops, limits, k, id, a, n);
    RateOfStretch(ss, ops, k, id, c, a, n);
  }

  lemma MadeByAdd(ss: seq<State>, ops: seq<Operation>, limits: Limits, k: Key, id: nat, a: nat, n: nat)
    requires IsSendingRun(ss, ops, limits) && a < n <= |ops| && ops[a].Add? && id == |ss[a].m.subs|
    requires StaysStored(ss, k, id, a + 1, n)
    ensures id < |ss[a + 1].m.subs| && RecordOf(ss[a + 1].m, id) == ops[a].rec
  {
    assert StoredAs(ss[a + 1].m, k, id);
    SendingRunIsValid(ss, ops, limits, a);
    assert Follows(ss[a], limits, ops[a], ss[a + 1]);
    SubsAfterStep(ss[a].m, limits, ops[a], ss[a + 1].m);
  }

  /** The same since the subscription was made, with what its Add captured as the first value. */
  lemma {:induction false} RateSinceSubscribing(ss: seq<State>, ops: seq<Operation>, limits: Limits, k: Key, id: nat,
                                                c: real, a: nat, n: nat)
    requires IsSendingRun(ss, ops, limits) && a < n <= |ops| && ops[a].Add? && id == |ss[a].m.subs|
    requires StaysStored(ss, k, id, a + 1, n) && AnalogRun(ops[a].rec, ops[a + 1..n], c)
    ensures CostsTravel(ss, ops, k, ops[a].rec, c, a + 1, n)
  {
    MadeByAdd(ss, ops, limits, k, id, a, n);
    NotificationsAreRateLimited(ss, ops, limits, k, id, c, a + 1, n);
  }

  lemma FreshByRule(ss: seq<State>, ops: seq<Operation>, k: Key, id: nat, c: real, a: nat, n: nat)
    requires IsStretch(ss, ops, k, id, c, a, n + 1) && a <= n && Looks(ops[n], k)
    ensures id < |ss[n].m.subs| && id < |ss[n + 1].m.subs|
    ensures Fresh(RecordOf(ss[n + 1].m, id), SeenValues(RecordOf(ss[a].m, id), ops[a..n + 1]), c) <==>
            || CountFor(ss[n + 1].sent, k) != CountFor(ss[n].sent, k)
            || !ValueFires(RecordOf(ss[n].m, id), ops[n].view)
  {
    StretchInit(ss, ops, k, id, c, a, n + 1);
    StretchIsBalanced(ss, ops, k, id, c, a, n);
    BalanceAfter(ss, ops, k, id, c, a, n + 1);
  }

  lemma ServedByCount(ss: seq<State>, ops: seq<Operation>, limits: Limits, k: Key, id: nat, i: nat)
    requires IsSendingRun(ss, ops, limits) && i < |ops| && StoredAs(ss[i].m, k, id) && StoredAs(ss[i + 1].m, k, id)
    requires Looks(ops[i], k)
    ensures Valid(ss[i].m, limits)
    ensures Serves(ss[i].m, limits, ops[i], k) <==>
            || CountFor(ss[i + 1].sent, k) != CountFor(ss[i].sent, k)
            || !ValueFires(RecordOf(ss[i].m, id), ops[i].view)
  {
    CountsByReport(ss, ops, limits, k, id, i);
    ReportsByRule(ss[i].m, limits, ops[i], k, id);
  }

  /**
   * Staleness: after a check that looks at it, a subscription is less than an increment away from
   * the present value if and only if the check got as far as it, or the value had not changed by one.
   */
  lemma {:induction false} ChecksKeepFresh(ss: seq<State>, ops: seq<Operation>, limits: Limits, k: Key, id: nat,
                                           c: real, a: nat, n: nat)
    requires IsSendingRun(ss, ops, limits) && a <= n < |ops| && StaysStored(ss, k, id, a, n + 1) && Looks(ops[n], k)
    requires id < |ss[a].m.subs| && AnalogRun(RecordOf(ss[a].m, id), ops[a..n + 1], c)
    ensures id < |ss[n + 1].m.subs| && Valid(ss[n].m, limits) && k in ss[n].m.Stored()
    ensures Fresh(RecordOf(ss[n + 1].m, id), SeenValues(RecordOf(ss[a].m, id), ops[a..n + 1]), c) <==>
            Serves(ss[n].m, limits, ops[n], k)
  {
    StretchMoves(ss, ops, limits, k, id, a, n + 1);
    assert StoredAs(ss[n].m, k, id) && StoredAs(ss[n + 1].m, k, id);
    FreshByRule(ss, ops, k, id, c, a, n);
    ServedByCount(ss, ops, limits, k, id, n);
  }

  lemma ObjectIsServed(m: Manager, limits: Limits, op: Operation, k: Key, id: nat, i: nat)
    requires Valid(m, limits) && StoredAs(m, k, id) && Looks(op, k)
    requires i < |m.objects.master.keys| && m.objects.master.keys[i] == k
    ensures Serves(m, limits, op, k) <==>
            || Unhindered(m.objects.master.keys, Remembered(m.Stored(), m.subs), op.view, i)
            || !ValueFires(RecordOf(m, id), op.view)
  {
    KindsOfKeys(m, limits);
    AllKeysAreStored(m, limits);
    ObjectIsReached(m.objects.master.keys, m.properties.master.keys, Remembered(m.Stored(), m.subs), op.view,
                    op.property, i);
  }

  /**
   * An object subscription is fresh after a check if and only if looking at it, and at every
   * subscription to its object that was made before it, raises nothing, or the value has not
   * changed by an increment.
   */
  lemma {:induction false} ObjectSubscriptionsStayFresh(ss: seq<State>, ops: seq<Operation>, limits: Limits, k: Key,
                                                        id: nat, c: real, a: nat, n: nat, i: nat)
    requires IsSendingRun(ss, ops, limits) && a <= n < |ops| && StaysStored(ss, k, id, a, n + 1) && Looks(ops[n], k)
    requires id < |ss[a].m.subs| && AnalogRun(RecordOf(ss[a].m, id), ops[a..n + 1], c)
    requires i < |ss[n].m.objects.master.keys| && ss[n].m.objects.master.keys[i] == k
    ensures id < |ss[n].m.subs| && id < |ss[n + 1].m.subs| && Linked(ss[n].m.Stored(), ss[n].m.subs)
    ensures Fresh(RecordOf(ss[n + 1].m, id), SeenValues(RecordOf(ss[a].m, id), ops[a..n + 1]), c) <==>
            || Unhindered(ss[n].m.objects.master.keys, Remembered(ss[n].m.Stored(), ss[n].m.subs), ops[n].view, i)
            || !ValueFires(RecordOf(ss[n].m, id), ops[n].view)
  {
    ChecksKeepFresh(ss, ops, limits, k, id, c, a, n);
    assert StoredAs(ss[n].m, k, id) && StoredAs(ss[n + 1].m, k, id);
    ObjectIsServed(ss[n].m, limits, ops[n], k, id, i);
  }
}
