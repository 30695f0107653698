/**
 * What requests and checks come to in plain terms: the fields of the request, the clock, and the
 * properties read.  None of it speaks through the deadlines, rules and messages it is about.
 */
module CovOutcomes {
  import opened Prelude
  import opened CovTables
  import opened CovRules
  import opened CovManager
  import opened CovRuns

  // --- Subscribing ------------------------------------------------------------------

  /** The table of k's kind is full, and k is not in it. */
  ghost predicate Full(m: Manager, limits: Limits, k: Key) {
    if k.ObjectKey? then k !in m.objects.master.keys && |m.objects.master.keys| >= limits.subscriptions
    else k !in m.properties.master.keys && |m.properties.master.keys| >= limits.propertySubscriptions
  }

  ghost function Power(b: int, n: nat): int {
    if n == 0 then 1 else b * Power(b, n - 1)
  }

  /** The integer does not round to a double. */
  ghost predicate Overflows(lifetime: Option<int>) {
    lifetime.Some? && lifetime.value >= Power(2, 1024) - Power(2, 970)
  }

  /** Nothing can be sent for k about the object as it is. */
  ghost predicate Unreportable(k: Key, view: ObjectView) {
    || k.process >= 4294967296
    || k in view.undeliverable
    || (if k.PropertyKey? then (k.property, k.arrayIndex) in view.refused else (85, None) in view.refused)
  }

  /** The timers of the other keys are what they were, and k has none. */
  ghost predicate OnlyOthersTimed(before: map<nat, Timer>, after: map<nat, Timer>, k: Key) {
    forall h :: (h in after <==> h in before && before[h].key != k) && (h in after ==> after[h] == before[h])
  }

  /** k is timed with handle h, which was not in use, to end at `due`; the other keys are timed as they were. */
  ghost predicate TimedAnew(before: map<nat, Timer>, after: map<nat, Timer>, k: Key, h: nat, due: real) {
    && h !in before && h in after && after[h].key == k && after[h].deadline == due
    && OnlyOthersTimed(before, after - {h}, k)
  }

  /** The key keeps its place, or comes last. */
  ghost predicate KeysWith(before: seq<Key>, after: seq<Key>, k: Key) {
    after == if k in before then before else before + [k]
  }

  /** One more key stored, in the table of its kind, for the newest subscription; all the others as they were. */
  ghost predicate StoredAnew(m: Manager, m': Manager, k: Key) {
    && KeysWith(if k.ObjectKey? then m.objects.master.keys else m.properties.master.keys,
                if k.ObjectKey? then m'.objects.master.keys else m'.properties.master.keys, k)
    && (if k.ObjectKey? then m'.properties == m.properties else m'.objects == m.objects)
    && k in m'.Stored() && m'.Stored()[k] == |m.subs|
    && forall x :: x != k ==>
         (x in m'.Stored() <==> x in m.Stored()) && (x in m.Stored() ==> m'.Stored()[x] == m.Stored()[x])
  }

  /** The newest subscription of m', beside those of m, remembers `rec` and was asked for on these terms. */
  ghost predicate MadeAnew(m: Manager, m': Manager, rec: Record, confirmed: bool, lifetime: Option<int>, now: real) {
    && |m'.subs| == |m.subs| + 1
    && m'.subs[..|m.subs|] == m.subs
    && var sub := m'.subs[|m.subs|];
       && sub.record == rec
       && sub.terms.confirmed == confirmed && sub.terms.lifetime == lifetime && sub.terms.createdAt == now
  }

  /** A lifetime above zero ends that long after now; any other never does. */
  ghost predicate EndsOnTime(m: Manager, m': Manager, k: Key, lifetime: Option<int>, now: real)
    requires |m'.subs| > |m.subs|
  {
    var handle := m'.subs[|m.subs|].expiryHandle;
    if lifetime.Some? && lifetime.value > 0 then
      handle.Some? && TimedAnew(m.timers, m'.timers, k, handle.value, now + lifetime.value as real)
    else handle.None? && OnlyOthersTimed(m.timers, m'.timers, k)
  }

  /** A subscription remembering `rec`, on these terms, in place of whatever was stored at its key. */
  ghost predicate FiledAnew(m: Manager, m': Manager, rec: Record, confirmed: bool, lifetime: Option<int>, now: real) {
    && StoredAnew(m, m', rec.key)
    && MadeAnew(m, m', rec, confirmed, lifetime, now)
    && EndsOnTime(m, m', rec.key, lifetime, now)
  }

  /** Nothing changed but that k has no timer any more. */
  ghost predicate OnlyUntimed(m: Manager, m': Manager, k: Key) {
    && m'.objects == m.objects && m'.properties == m.properties
    && m'.subs == m.subs && m'.nextHandle == m.nextHandle
    && OnlyOthersTimed(m.timers, m'.timers, k)
  }

  lemma {:induction false} PowerAdd(a: nat, b: nat)
    ensures Power(2, a + b) == Power(2, a) * Power(2, b)
  {
    if a == 0 {
    } else {
      PowerAdd(a - 1, b);
    }
  }

  lemma PowerDouble(n: nat, p: int)
    requires Power(2, n) == p
    ensures Power(2, n + n) == p * p
  {
    PowerAdd(n, n);
  }

  lemma Powers()
    ensures Power(2, 10) == 0x400
    ensures Power(2, 54) == 0x40_0000_0000_0000
    ensures Power(2, 64) == 0x1_0000_0000_0000_0000
  {
    assert Power(2, 1) == 2;
    assert Power(2, 2) == 4;
    PowerDouble(2, 4);
    PowerAdd(4, 1);
    PowerDouble(5, 0x20);
    PowerDouble(4, 0x10);
    PowerDouble(8, 0x100);
    PowerDouble(16, 0x1_0000);
    PowerDouble(32, 0x1_0000_0000);
    PowerAdd(32, 16);
    PowerAdd(4, 2);
    PowerAdd(48, 6);
  }

  /** The least integer that does not round to a double lies half a unit beyond the largest double. */
  lemma FloatLimit()
    ensures FLOAT_LIMIT == Power(2, 1024) - Power(2, 970)
  {
    Powers();
    PowerDouble(64, 0x1_0000_0000_0000_0000);
    PowerDouble(128, Power(2, 128));
    PowerAdd(128, 64);
    PowerAdd(256, 256);
    PowerAdd(512, 256);
    PowerAdd(768, 192);
    PowerAdd(960, 10);
    PowerAdd(970, 54);
  }

  lemma FullExactly(m: Manager, limits: Limits, k: Key)
    requires TablesValid(m, limits)
    ensures HasRoom(m, limits, k) <==> !Full(m, limits, k)
  {
  }

  lemma AnewInTables(m: Manager, limits: Limits, rec: Record, terms: Terms)
    requires TablesValid(m, limits) && HasRoom(m, limits, rec.key)
    ensures StoredAnew(m, Installed(m, rec, terms), rec.key)
  {
    InstalledTables(m, limits, rec, terms);
  }

  lemma TimersAnew(timers: map<nat, Timer>, k: Key, h: nat, due: real)
    requires h !in timers
    ensures TimedAnew(timers, TimersWithout(timers, {k})[h := Timer(due, k)], k, h, due)
    ensures OnlyOthersTimed(timers, TimersWithout(timers, {k}), k)
  {
  }

  lemma DisarmedOnly(m: Manager, limits: Limits, k: Key)
    requires Valid(m, limits)
    ensures OnlyUntimed(m, Disarmed(m, k), k)
  {
    DisarmedTimers(m, limits, k);
  }

  lemma FiledOnTerms(m: Manager, limits: Limits, rec: Record, terms: Terms)
    requires Valid(m, limits) && Filing(m, limits, rec, terms).1.None?
    ensures FiledAnew(m, Filing(m, limits, rec, terms).0, rec, terms.confirmed, terms.lifetime, terms.createdAt)
  {
    FiledAt(m, limits, rec, terms);
    AnewInTables(m, limits, rec, terms);
    var m' := Filing(m, limits, rec, terms).0;
    assert MadeAnew(m, m', rec, terms.confirmed, terms.lifetime, terms.createdAt);
    if terms.lifetime.Some? && terms.lifetime.value > 0 {
      TimersAnew(m.timers, rec.key, m.nextHandle, terms.createdAt + terms.lifetime.value as real);
    } else {
      TimersAnew(m.timers, rec.key, m.nextHandle, 0.0);
    }
  }

  /**
   * What a request to subscribe comes to before anything is sent: refused exactly when the table is
   * full, raising exactly when the lifetime overflows, and otherwise filed with its lifetime counted
   * from the time of the request.
   */
  lemma FilingExactly(m: Manager, limits: Limits, rec: Record, terms: Terms)
    requires Valid(m, limits)
    ensures var (m', error) := Filing(m, limits, rec, terms);
            if Full(m, limits, rec.key) then m' == m && error == Some(NoSpace)
            else if Overflows(terms.lifetime) then OnlyUntimed(m, m', rec.key) && error == Some(LifetimeTooLong)
            else FiledAnew(m, m', rec, terms.confirmed, terms.lifetime, terms.createdAt) && error == None
  {
    FullExactly(m, limits, rec.key);
    FloatLimit();
    if Filing(m, limits, rec, terms).1.None? {
      FiledOnTerms(m, limits, rec, terms);
    } else if HasRoom(m, limits, rec.key) {
      DisarmedOnly(m, limits, rec.key);
    }
  }

  /** What the new subscription is sent, if nothing raises: its key, its kind, and what is read of the object. */
  ghost predicate Greeted(sent: seq<Notification>, sent': seq<Notification>, k: Key, confirmed: bool,
                          view: ObjectView)
  {
    && |sent'| == |sent| + 1
    && sent'[..|sent|] == sent
    && var n := sent'[|sent|];
       && n.key == k && n.confirmed == confirmed
       && n.flags == view.Read(111, None)
       && n.value == if k.PropertyKey? then view.Read(k.property, k.arrayIndex) else view.Read(85, None)
  }

  /** The outcome of a request that says what it is to remember, on what terms, at what time. */
  ghost predicate Requested(s: State, limits: Limits, s': State, error: Option<Error>, rec: Record, confirmed: bool,
                            lifetime: Option<int>, now: real, view: ObjectView)
  {
    if Full(s.m, limits, rec.key) then s' == s && error == Some(NoSpace)
    else if Overflows(lifetime) then
      OnlyUntimed(s.m, s'.m, rec.key) && s'.sent == s.sent && error == Some(LifetimeTooLong)
    else
      && FiledAnew(s.m, s'.m, rec, confirmed, lifetime, now)
      && if Unreportable(rec.key, view) then s'.sent == s.sent && error == Some(CannotReport)
         else Greeted(s.sent, s'.sent, rec.key, confirmed, view) && error == None
  }

  lemma SubscribedExactly(s: State, limits: Limits, rec: Record, terms: Terms, view: ObjectView)
    requires Valid(s.m, limits)
    ensures var (s', error) := Subscribed(s, limits, rec, terms, view);
            Requested(s, limits, s', error, rec, terms.confirmed, terms.lifetime, terms.createdAt, view)
  {
    FilingExactly(s.m, limits, rec, terms);
  }

  /**
   * A subscription to an object remembers the present value and the status flags it finds, and
   * ends, with a lifetime L above zero, exactly at the time of the request plus L.
   */
  lemma ObjectRequest(s: State, limits: Limits, subscriber: nat, process: nat, oid: nat, confirmed: Option<bool>,
                      lifetime: Option<int>, view: ObjectView, now: real)
    requires Valid(s.m, limits)
    ensures var rec := Record(ObjectKey(subscriber, process, oid), None, view.Read(85, None), view.Read(111, None));
            var (s', error) := Subscribed(s, limits, ObjectRecord(subscriber, process, oid, view),
                                          Terms(confirmed == Some(true), lifetime, now), view);
            Requested(s, limits, s', error, rec, confirmed == Some(true), lifetime, now, view)
  {
    SubscribedExactly(s, limits, ObjectRecord(subscriber, process, oid, view),
                      Terms(confirmed == Some(true), lifetime, now), view);
  }

  /** One to a property remembers that property and the increment asked for, and ends at the same time. */
  lemma PropertyRequest(s: State, limits: Limits, subscriber: nat, process: nat, oid: nat, property: nat,
                        arrayIndex: Option<nat>, increment: Option<real>, confirmed: Option<bool>,
                        lifetime: Option<int>, view: ObjectView, now: real)
    requires Valid(s.m, limits)
    ensures var rec := Record(PropertyKey(subscriber, process, oid, property, arrayIndex), increment,
                              view.Read(property, arrayIndex), Absent);
            var (s', error) := Subscribed(s, limits, PropertyRecord(subscriber, process, oid,
                                                                    Reference(property, arrayIndex, increment), view),
                                          Terms(confirmed == Some(true), lifetime, now), view);
            Requested(s, limits, s', error, rec, confirmed == Some(true), lifetime, now, view)
  {
    SubscribedExactly(s, limits, PropertyRecord(subscriber, process, oid,
                                                Reference(property, arrayIndex, increment), view),
                      Terms(confirmed == Some(true), lifetime, now), view);
  }

  // --- A request for several properties -----------------------------------------------

  /** How many items come ahead of those of spec i: each object looked up, and one item for each reference. */
  ghost function Offset(specs: seq<Spec>, i: nat): nat
    requires i <= |specs|
  {
    if i == 0 then 0 else Offset(specs, i - 1) + 1 + |specs[i - 1].refs|
  }

  lemma {:induction false} OffsetTail(specs: seq<Spec>, i: nat)
    requires i < |specs|
    ensures Offset(specs, i + 1) == 1 + |specs[0].refs| + Offset(specs[1..], i)
  {
    if i == 0 {
    } else {
      OffsetTail(specs, i - 1);
    }
  }

  lemma {:induction false} ReferencesExactly(oid: nat, refs: seq<Reference>)
    ensures |ItemsOf(oid, refs)| == |refs|
    ensures forall j :: 0 <= j < |refs| ==> ItemsOf(oid, refs)[j] == Subscribe(oid, refs[j])
  {
    if refs == [] {
    } else {
      ReferencesExactly(oid, refs[1..]);
    }
  }

  lemma {:induction false} ItemsLength(specs: seq<Spec>)
    ensures |Items(specs)| == Offset(specs, |specs|)
  {
    if specs == [] {
    } else {
      ReferencesExactly(specs[0].oid, specs[0].refs);
      ItemsLength(specs[1..]);
      OffsetTail(specs, |specs| - 1);
    }
  }

  /** From `at` on come the items of one spec: its object looked up, then each of its references. */
  ghost predicate ItemsAt(items: seq<Item>, at: nat, spec: Spec) {
    && at + |spec.refs| < |items|
    && items[at] == Lookup(spec.oid)
    && forall j :: at < j <= at + |spec.refs| ==> items[j] == Subscribe(spec.oid, spec.refs[j - at - 1])
  }

  lemma ItemsBehind(first: seq<Item>, items: seq<Item>, at: nat, spec: Spec)
    requires ItemsAt(items, at, spec)
    ensures ItemsAt(first + items, |first| + at, spec)
  {
  }

  lemma ItemsInFront(spec: Spec, items: seq<Item>)
    ensures ItemsAt([Lookup(spec.oid)] + ItemsOf(spec.oid, spec.refs) + items, 0, spec)
  {
    ReferencesExactly(spec.oid, spec.refs);
  }

  /** Every object of the request is looked up, and every one of its references subscribed to, in the order given. */
  lemma {:induction false} ItemsExactly(specs: seq<Spec>, i: nat)
    requires i < |specs|
    ensures ItemsAt(Items(specs), Offset(specs, i), specs[i])
    ensures |Items(specs)| == Offset(specs, |specs|)
  {
    ItemsLength(specs);
    var rest := specs[1..];
    var first := [Lookup(specs[0].oid)] + ItemsOf(specs[0].oid, specs[0].refs);
    assert Items(specs) == first + Items(rest);
    if i == 0 {
      ItemsInFront(specs[0], Items(rest));
    } else {
      ItemsExactly(rest, i - 1);
      OffsetTail(specs, i - 1);
      ReferencesExactly(specs[0].oid, specs[0].refs);
      ItemsBehind(first, Items(rest), Offset(rest, i - 1), specs[i]);
    }
  }

  /** One item of a request: its object exists, and if it has a reference, the property is subscribed to. */
  ghost predicate Serve(s: State, limits: Limits, subscriber: nat, process: nat, terms: Terms, db: map<nat, ObjectView>,
                        item: Item, s': State, error: Option<Error>)
  {
    if item.oid !in db then s' == s && error == Some(UnknownObject)
    else if item.Lookup? then s' == s && error == None
    else
      Requested(s, limits, s', error,
                Record(PropertyKey(subscriber, process, item.oid, item.ref.property, item.ref.arrayIndex),
                       item.ref.increment, db[item.oid].Read(item.ref.property, item.ref.arrayIndex), Absent),
                terms.confirmed, terms.lifetime, terms.createdAt, db[item.oid])
  }

  lemma ItemIsServed(s: State, limits: Limits, subscriber: nat, process: nat, terms: Terms, view: ObjectView,
                     db: map<nat, ObjectView>, item: Item)
    requires Valid(s.m, limits) && item.Subscribe? && item.oid in db && db[item.oid] == view
    ensures var rec := PropertyRecord(subscriber, process, item.oid, item.ref, view);
            var (s', error) := Subscribed(s, limits, rec, terms, view);
            Valid(s'.m, limits) && Serve(s, limits, subscriber, process, terms, db, item, s', error)
  {
    var rec := PropertyRecord(subscriber, process, item.oid, item.ref, view);
    SubscribedExactly(s, limits, rec, terms, view);
    SubscribedFollows(s, limits, rec, terms, view);
  }

  /** The states a request leads through: its items one after the other, none raising but the last of them. */
  ghost predicate IsTrace(ss: seq<State>, limits: Limits, subscriber: nat, process: nat, terms: Terms,
                          db: map<nat, ObjectView>, items: seq<Item>, error: Option<Error>)
  {
    && 1 <= |ss| <= |items| + 1
    && (error.None? ==> |ss| == |items| + 1)
    && (error.Some? ==> |ss| > 1)
    && forall i :: 0 <= i < |ss| - 1 ==>
         Serve(ss[i], limits, subscriber, process, terms, db, items[i], ss[i + 1],
               if i == |ss| - 2 then error else None)
  }

  lemma TraceCons(s: State, ss: seq<State>, limits: Limits, subscriber: nat, process: nat, terms: Terms,
                  db: map<nat, ObjectView>, item: Item, items: seq<Item>, error: Option<Error>)
    requires IsTrace(ss, limits, subscriber, process, terms, db, items, error)
    requires Serve(s, limits, subscriber, process, terms, db, item, ss[0], None)
    ensures IsTrace([s] + ss, limits, subscriber, process, terms, db, [item] + items, error)
  {
    var all, its := [s] + ss, [item] + items;
    forall i | 0 <= i < |all| - 1
      ensures Serve(all[i], limits, subscriber, process, terms, db, its[i], all[i + 1],
                    if i == |all| - 2 then error else None)
    {
      if i > 0 {
        assert Serve(ss[i - 1], limits, subscriber, process, terms, db, items[i - 1], ss[i],
                     if i - 1 == |ss| - 2 then error else None);
      }
    }
  }

  /** A request for several properties serves its items in order, up to the first that raises. */
  lemma {:induction false} RequestServesItems(s: State, limits: Limits, subscriber: nat, process: nat, terms: Terms,
                                              db: map<nat, ObjectView>, items: seq<Item>)
    returns (ss: seq<State>)
    requires Valid(s.m, limits)
    ensures var (s', error) := SubscribedEach(s, limits, subscriber, process, terms, db, items);
            IsTrace(ss, limits, subscriber, process, terms, db, items, error) && ss[0] == s && ss[|ss| - 1] == s'
    decreases |items|
  {
    if items == [] {
      return [s];
    }
    assert items == [items[0]] + items[1..];
    if items[0].oid !in db {
      return [s, s];
    }
    var s', error := s, None;
    if items[0].Subscribe? {
      var view := db[items[0].oid];
      ItemIsServed(s, limits, subscriber, process, terms, view, db, items[0]);
      var rec := PropertyRecord(subscriber, process, items[0].oid, items[0].ref, view);
      s', error := Subscribed(s, limits, rec, terms, view).0, Subscribed(s, limits, rec, terms, view).1;
      if error.Some? {
        return [s, s'];
      }
    }
    ss := RequestServesItems(s', limits, subscriber, process, terms, db, items[1..]);
    var whole := SubscribedEach(s, limits, subscriber, process, terms, db, items);
    TraceCons(s, ss, limits, subscriber, process, terms, db, items[0], items[1..], whole.1);
    ss := [s] + ss;
  }

  // --- Taking subscriptions out ---------------------------------------------------------

  /** The keys that are left are those not in `gone`, in the order they were in. */
  ghost predicate KeysLeft(before: seq<Key>, after: seq<Key>, gone: iset<Key>) {
    && Subsequence(after, before) && NoDuplicates(after)
    && forall k :: k in after <==> k in before && k !in gone
  }

  ghost predicate StoredLeft(before: map<Key, nat>, after: map<Key, nat>, gone: iset<Key>) {
    && (forall k :: k in after <==> k in before && k !in gone)
    && forall k :: k in after ==> after[k] == before[k]
  }

  ghost predicate TimersLeft(before: map<nat, Timer>, after: map<nat, Timer>, gone: iset<Key>) {
    && (forall h :: h in after <==> h in before && before[h].key !in gone)
    && forall h :: h in after ==> after[h] == before[h]
  }

  /** All trace of the keys in `gone` is lost, and nothing else. */
  ghost predicate Forgets(m: Manager, m': Manager, gone: iset<Key>) {
    && KeysLeft(m.objects.master.keys, m'.objects.master.keys, gone)
    && KeysLeft(m.properties.master.keys, m'.properties.master.keys, gone)
    && StoredLeft(m.Stored(), m'.Stored(), gone)
    && TimersLeft(m.timers, m'.timers, gone)
    && m'.subs == m.subs && m'.nextHandle == m.nextHandle
  }

  lemma LeftWithoutOne(keys: seq<Key>, stored: map<Key, nat>, timers: map<nat, Timer>, k: Key)
    requires NoDuplicates(keys)
    ensures KeysLeft(keys, Without(keys, k), iset{k})
    ensures StoredLeft(stored, stored - {k}, iset{k})
    ensures TimersLeft(timers, TimersWithout(timers, {k}), iset{k})
  {
    WithoutContents(keys, k);
    WithoutKeepsOrder(keys, k);
  }

  lemma RemovedKeys(m: Manager, limits: Limits, k: Key, left: map<nat, Timer>)
    requires TablesValid(m, limits)
    ensures NoDuplicates(m.objects.master.keys) && NoDuplicates(m.properties.master.keys)
    ensures Removed(m, k, left).objects.master.keys == Without(m.objects.master.keys, k)
    ensures Removed(m, k, left).properties.master.keys == Without(m.properties.master.keys, k)
  {
    KindsOfKeys(m, limits);
    FiledRemove(m.TableOf(k), limits.Of(k), k.ObjectKey?, k);
    WithoutAbsent(if k.ObjectKey? then m.properties.master.keys else m.objects.master.keys, k);
  }

  /** A cancellation takes out one key, with its timer. */
  lemma RemovedForgets(m: Manager, limits: Limits, k: Key)
    requires Valid(m, limits)
    ensures Forgets(m, Removed(m, k, TimersWithout(m.timers, {k})), iset{k})
  {
    RemovedIsValid(m, limits, k);
    RemovedKeys(m, limits, k, TimersWithout(m.timers, {k}));
    LeftWithoutOne(m.objects.master.keys, m.Stored(), m.timers, k);
    LeftWithoutOne(m.properties.master.keys, m.Stored(), m.timers, k);
  }

  /** So does a timer that fires: its own. */
  lemma FiredForgets(m: Manager, limits: Limits, h: nat)
    requires Valid(m, limits) && h in m.timers
    ensures Forgets(m, Removed(m, m.timers[h].key, m.timers - {h}), iset{m.timers[h].key})
  {
    FiringIsRemoval(m, limits, h);
    RemovedForgets(m, limits, m.timers[h].key);
  }

  ghost function KeysAbout(oid: nat): iset<Key> {
    iset k: Key | k.oid == oid
  }

  lemma LeftElsewhere(keys: seq<Key>, stored: map<Key, nat>, timers: map<nat, Timer>, oid: nat)
    requires NoDuplicates(keys)
    ensures KeysLeft(keys, Elsewhere(keys, oid), KeysAbout(oid))
    ensures StoredLeft(stored, About(stored, oid), KeysAbout(oid))
    ensures TimersLeft(timers, TimersElsewhere(timers, oid), KeysAbout(oid))
  {
    ElsewhereExactly(keys, oid);
  }

  lemma ObjectRemovedKeys(m: Manager, limits: Limits, oid: nat)
    requires TablesValid(m, limits)
    ensures NoDuplicates(m.objects.master.keys) && NoDuplicates(m.properties.master.keys)
    ensures ObjectRemoved(m, oid).objects.master.keys == Elsewhere(m.objects.master.keys, oid)
    ensures ObjectRemoved(m, oid).properties.master.keys == Elsewhere(m.properties.master.keys, oid)
  {
    KindsOfKeys(m, limits);
    WithoutObject(m.objects, oid);
    WithoutObject(m.properties, oid);
  }

  /** Deleting an object takes out all keys about it, with their timers. */
  lemma ObjectForgets(m: Manager, limits: Limits, oid: nat)
    requires Valid(m, limits)
    ensures Forgets(m, ObjectRemoved(m, oid), iset k: Key | k.oid == oid)
  {
    assert KeysAbout(oid) == iset k: Key | k.oid == oid;
    ObjectRemovedIsValid(m, limits, oid);
    ObjectRemovedKeys(m, limits, oid);
    LeftElsewhere(m.objects.master.keys, m.Stored(), m.timers, oid);
    LeftElsewhere(m.properties.master.keys, m.Stored(), m.timers, oid);
  }

  // --- Checks ---------------------------------------------------------------------------

  /** What a message says: for whom it is, how it is sent, and what was read of the object. */
  ghost predicate Says(n: Notification, k: Key, confirmed: bool, view: ObjectView) {
    && n.key == k && n.confirmed == confirmed
    && n.value == Subject(k, view) && n.flags == view.Read(111, None)
  }

  lemma {:induction false} MessagesSay(stored: map<Key, nat>, subs: seq<Subscription>, ks: seq<Key>, view: ObjectView)
    requires Linked(stored, subs) && forall k :: k in ks ==> k in stored
    ensures var ns := Messages(stored, subs, ks, view);
            && |ns| == |ks|
            && forall i :: 0 <= i < |ks| ==> Says(ns[i], ks[i], subs[stored[ks[i]]].terms.confirmed, view)
  {
    if ks == [] {
    } else {
      assert ks == [ks[0]] + ks[1..];
      MessagesSay(stored, subs, ks[1..], view);
    }
  }

  /** The write is about what k watches. */
  ghost predicate IsAbout(k: Key, view: ObjectView, property: nat) {
    k.oid == view.oid && (k.PropertyKey? ==> k.property == property)
  }

  /** Looking at k raises: its remembered value does not compare, or there is news that cannot be sent. */
  ghost predicate Raises(k: Key, rec: Record, view: ObjectView) {
    k in view.incomparable || (IsNews(rec, view) && Unreportable(k, view))
  }

  /** Nothing up to key i of all, object subscriptions first, raises. */
  ghost predicate GetsTo(m: Manager, view: ObjectView, property: nat, i: nat)
    requires Linked(m.Stored(), m.subs)
  {
    var keys := m.objects.master.keys + m.properties.master.keys;
    forall j :: 0 <= j <= i && j < |keys| && IsAbout(keys[j], view, property) && keys[j] in m.Stored() ==>
      !Raises(keys[j], RecordOf(m, m.Stored()[keys[j]]), view)
  }

  lemma GetsToExactly(m: Manager, limits: Limits, view: ObjectView, property: nat, i: nat)
    requires Valid(m, limits) && i < |AllKeys(m)|
    requires forall k :: k in AllKeys(m) ==> k in m.Stored()
    ensures AllKeys(m)[i] in Reached(AllKeys(m), Remembered(m.Stored(), m.subs), view, property) <==>
            GetsTo(m, view, property, i)
  {
    var keys, rs := AllKeys(m), Remembered(m.Stored(), m.subs);
    AllKeysAreStored(m, limits);
    ReachedExactly(keys, rs, view, property, i);
    forall j | 0 <= j < |keys|
      ensures keys[j] in m.Stored()
      ensures Stops(keys[j], rs, view, property) <==>
              IsAbout(keys[j], view, property) && Raises(keys[j], RecordOf(m, m.Stored()[keys[j]]), view)
    {
      assert keys[j] in keys;
      BreaksExactly(rs[keys[j]], view);
    }
  }

  /**
   * A check notifies the subscription at key i of all if and only if the write is about what it
   * watches, there is news for it, and nothing up to it raises; then it remembers what the object
   * is like, and otherwise what it did before.  Object subscriptions are notified first, each kind
   * in the order it is stored in, and all of them exactly if nothing raises.
   */
  lemma CheckReportsNews(m: Manager, limits: Limits, view: ObjectView, property: nat, m': Manager, i: nat)
    requires Valid(m, limits) && Step(m, limits, Check(view, property), m')
    requires i < |m.objects.master.keys + m.properties.master.keys|
    ensures var keys := m.objects.master.keys + m.properties.master.keys;
            var k, s := keys[i], CheckScan(m, limits, view, property);
            && k in m.Stored() && k in m'.Stored() && m'.Stored()[k] == m.Stored()[k] < |m'.subs|
            && var rec, rec' := RecordOf(m, m.Stored()[k]), RecordOf(m', m.Stored()[k]);
               && (k in s.notified <==>
                     IsAbout(k, view, property) && IsNews(rec, view) && GetsTo(m, view, property, i))
               && rec'.key == k && rec'.increment == rec.increment
               && rec'.lastValue == (if k in s.notified then Subject(k, view) else rec.lastValue)
               && rec'.lastFlags == (if k in s.notified && k.ObjectKey? then view.Read(111, None) else rec.lastFlags)
               && Subsequence(s.notified, keys)
  {
    var keys, rs := AllKeys(m), Remembered(m.Stored(), m.subs);
    AllKeysAreStored(m, limits);
    assert keys[i] in keys;
    ScanReportsNews(keys, rs, view, property, keys[i]);
    NotifiedInOrder(keys, rs, view, property);
    GetsToExactly(m, limits, view, property, i);
    assert Remembered(m'.Stored(), m'.subs)[keys[i]] == RecordOf(m', m.Stored()[keys[i]]);
  }

  /** A scan comes to its end exactly when it gets to the last key. */
  lemma CompletesAtLast(keys: seq<Key>, rs: Records, view: ObjectView, property: nat)
    requires (forall k :: k in keys ==> k in rs) && NoDuplicates(keys)
    ensures FullScan(keys, rs, view, property).completed <==>
            keys == [] || keys[|keys| - 1] in Reached(keys, rs, view, property)
  {
    ScanPicksByRule(keys, rs, view, property);
    var n := |Reached(keys, rs, view, property)|;
    assert Reached(keys, rs, view, property) == keys[..n];
    if n == |keys| && keys != [] {
      assert keys[..n] == keys && keys[n - 1] in keys;
    }
  }

  /** A check comes to its end if and only if nothing that it looks at raises. */
  lemma CheckCompletes(m: Manager, limits: Limits, view: ObjectView, property: nat)
    requires Valid(m, limits)
    ensures CheckScan(m, limits, view, property).completed <==>
            GetsTo(m, view, property, |m.objects.master.keys + m.properties.master.keys|)
  {
    var keys := AllKeys(m);
    AllKeysAreStored(m, limits);
    CompletesAtLast(keys, Remembered(m.Stored(), m.subs), view, property);
    if keys != [] {
      GetsToExactly(m, limits, view, property, |keys| - 1);
    }
  }

  /**
   * After a check that came to its end, a subscription to what is not analog remembers exactly the
   * value and, if it is to the object, the status flags that the object has.
   */
  lemma CompletedCheckIsExact(m: Manager, limits: Limits, view: ObjectView, property: nat, m': Manager, k: Key)
    requires Valid(m, limits) && Step(m, limits, Check(view, property), m')
    requires CheckScan(m, limits, view, property).completed && !view.analog
    requires k in m.Stored() && IsAbout(k, view, property)
    ensures k in m'.Stored() && m'.Stored()[k] < |m'.subs|
    ensures var rec := RecordOf(m', m'.Stored()[k]);
            && rec.key == k && rec.lastValue == Subject(k, view)
            && (k.ObjectKey? ==> rec.lastFlags == view.Read(111, None))
  {
    var keys, rs := AllKeys(m), Remembered(m.Stored(), m.subs);
    AllKeysAreStored(m, limits);
    ScanReportsNews(keys, rs, view, property, k);
    CompletedIsExact(keys, rs, view, property, k);
    assert Remembered(m'.Stored(), m'.subs)[k] == RecordOf(m', m.Stored()[k]);
  }
}
