/**
 * The COV subscription manager.  A subscription is a record that the master dictionary and an
 * index bucket both refer to by its identity, so what is changed through one is seen through
 * the other; every limited subscription has a timer armed in the event loop.
 */
module CovManager {
  import opened Prelude
  import opened CovTables
  import opened CovRules

  datatype Error = UnknownObject | NoSpace | LifetimeTooLong | CannotReport

  /** 2 ** 1024 - 2 ** 970, the least integer that does not convert to a double: (2 ** 54 - 1) * 2 ** 10 * 2 ** 960. */
  const FLOAT_LIMIT: int :=
    0xFFFF_FFFF_FFFF_FC00
    * 0x1_0000_0000_0000_0000_0000_0000_0000_0000_0000_0000_0000_0000_0000_0000_0000_0000
    * 0x1_0000_0000_0000_0000_0000_0000_0000_0000_0000_0000_0000_0000_0000_0000_0000_0000
    * 0x1_0000_0000_0000_0000_0000_0000_0000_0000_0000_0000_0000_0000_0000_0000_0000_0000
    * 0x1_0000_0000_0000_0000_0000_0000_0000_0000_0000_0000_0000_0000

  /** What was asked for, and when. */
  datatype Terms = Terms(confirmed: bool, lifetime: Option<int>, createdAt: real) {
    predicate Limited() {
      lifetime.Some? && lifetime.value > 0
    }

    /** The lifetime does not convert to a float. */
    predicate TooLong() {
      lifetime.Some? && lifetime.value >= FLOAT_LIMIT
    }

    function Deadline(): real
      requires Limited()
    {
      createdAt + lifetime.value as real
    }
  }

  /** COVSubscription and PropertySubscription: the key of the record says which. */
  datatype Subscription = Subscription(record: Record, terms: Terms, expiryHandle: Option<nat>)

  /** An armed call of the event loop: when it is due, and the key its callback will remove. */
  datatype Timer = Timer(deadline: real, key: Key)

  datatype Manager = Manager(
    objects: Table<nat>,       // _subscriptions and _subs_by_object
    properties: Table<nat>,    // _property_subscriptions and _prop_subs_by_obj_prop
    subs: seq<Subscription>,   // every subscription made, by identity
    timers: map<nat, Timer>,
    nextHandle: nat)
  {
    function TableOf(k: Key): Table<nat> {
      if k.ObjectKey? then objects else properties
    }

    function WithTable(k: Key, t: Table<nat>): Manager {
      if k.ObjectKey? then this.(objects := t) else this.(properties := t)
    }

    /** Both master dictionaries together. */
    function Stored(): map<Key, nat> {
      objects.master.vals + properties.master.vals
    }
  }

  datatype Limits = Limits(subscriptions: nat, propertySubscriptions: nat) {
    function Of(k: Key): nat {
      if k.ObjectKey? then subscriptions else propertySubscriptions
    }
  }

  // ---------------------------------------------------------------------
  // The invariant.
  // ---------------------------------------------------------------------

  /** A table of the right kind of keys, within its capacity, whose index agrees with its master. */
  ghost predicate Filed(t: Table<nat>, capacity: nat, forObjects: bool) {
    && t.Consistent()
    && |t.master.keys| <= capacity
    && forall k :: k in t.master.vals ==> k.ObjectKey? == forObjects
  }

  /** Every key leads to a subscription made for that key. */
  ghost predicate Linked(stored: map<Key, nat>, subs: seq<Subscription>) {
    forall k :: k in stored ==> stored[k] < |subs| && subs[stored[k]].record.key == k
  }

  /**
   * Exactly the limited subscriptions hold a handle, and every armed timer is the one that the
   * subscription stored at its key holds the handle of, due at that subscription's own end.
   */
  ghost predicate TimersAgree(stored: map<Key, nat>, subs: seq<Subscription>, timers: map<nat, Timer>, next: nat)
    requires Linked(stored, subs)
  {
    && (forall k :: k in stored ==> (subs[stored[k]].expiryHandle.Some? <==> subs[stored[k]].terms.Limited()))
    && (forall k :: k in stored && subs[stored[k]].terms.Limited() ==>
          var h := subs[stored[k]].expiryHandle.value;
          h < next && (h in timers ==> timers[h] == Timer(subs[stored[k]].terms.Deadline(), k)))
    && (forall h :: h in timers ==>
          h < next && timers[h].key in stored && subs[stored[timers[h].key]].expiryHandle == Some(h))
  }

  /** No two subscriptions ever made hold the same handle. */
  ghost predicate OwnHandles(subs: seq<Subscription>, next: nat) {
    && (forall i :: 0 <= i < |subs| && subs[i].expiryHandle.Some? ==> subs[i].expiryHandle.value < next)
    && forall i, j {:trigger subs[i].expiryHandle, subs[j].expiryHandle} ::
         0 <= i < j < |subs| && subs[i].expiryHandle.Some? ==> subs[i].expiryHandle != subs[j].expiryHandle
  }

  ghost predicate TablesValid(m: Manager, limits: Limits) {
    && Filed(m.objects, limits.subscriptions, true)
    && Filed(m.properties, limits.propertySubscriptions, false)
  }

  ghost predicate Valid(m: Manager, limits: Limits) {
    && TablesValid(m, limits)
    && Linked(m.Stored(), m.subs)
    && TimersAgree(m.Stored(), m.subs, m.timers, m.nextHandle)
    && OwnHandles(m.subs, m.nextHandle)
  }

  // ---------------------------------------------------------------------
  // What the operations do to the tables, subscriptions and timers.
  // ---------------------------------------------------------------------

  /** The timers left when the subscription stored at key cancels its own. */
  function Cancelled(m: Manager, k: Key): map<nat, Timer> {
    var vals := m.TableOf(k).master.vals;
    if k in vals && vals[k] < |m.subs| && m.subs[vals[k]].expiryHandle.Some?
    then m.timers - {m.subs[vals[k]].expiryHandle.value} else m.timers
  }

  predicate HasRoom(m: Manager, limits: Limits, k: Key) {
    k in m.TableOf(k).master.vals || |m.TableOf(k).master.keys| < limits.Of(k)
  }

  /** The timer of the subscription stored at the key cancelled, and nothing else done. */
  function Disarmed(m: Manager, k: Key): Manager {
    m.(timers := Cancelled(m, k))
  }

  /** A subscription filed at its key, with its timer armed, given the timers that are left. */
  function InstalledWith(m: Manager, left: map<nat, Timer>, rec: Record, terms: Terms): Manager {
    var k, id := rec.key, |m.subs|;
    var filed := m.WithTable(k, m.TableOf(k).Insert(k, id));
    if terms.Limited() then
      filed.(subs := m.subs + [Subscription(rec, terms, Some(m.nextHandle))],
             timers := left[m.nextHandle := Timer(terms.Deadline(), k)],
             nextHandle := m.nextHandle + 1)
    else
      filed.(subs := m.subs + [Subscription(rec, terms, None)], timers := left)
  }

  /** The same, replacing the subscription there. */
  function Installed(m: Manager, rec: Record, terms: Terms): Manager {
    InstalledWith(m, Cancelled(m, rec.key), rec, terms)
  }

  /** A subscription taken out of its tables, given the timers that are left. */
  function Removed(m: Manager, k: Key, left: map<nat, Timer>): Manager {
    m.WithTable(k, m.TableOf(k).Remove(k)).(timers := left)
  }

  /** The timers of the keys outside ks. */
  function TimersWithout(timers: map<nat, Timer>, ks: set<Key>): map<nat, Timer> {
    map h | h in timers && timers[h].key !in ks :: timers[h]
  }

  lemma FiledInsert(t: Table<nat>, capacity: nat, forObjects: bool, k: Key, id: nat)
    requires Filed(t, capacity, forObjects) && k.ObjectKey? == forObjects
    requires k in t.master.vals || |t.master.keys| < capacity
    ensures Filed(t.Insert(k, id), capacity, forObjects)
  {
    InsertKeepsAgreement(t, k, id);
    PutIsValid(t.master, k, id);
  }

  lemma FiledRemove(t: Table<nat>, capacity: nat, forObjects: bool, k: Key)
    requires Filed(t, capacity, forObjects)
    ensures Filed(t.Remove(k), capacity, forObjects)
    ensures t.Remove(k).master.vals == t.master.vals - {k}
    ensures t.Remove(k).master.keys == Without(t.master.keys, k)
  {
    RemoveKeepsAgreement(t, k);
    PopIsValid(t.master, k);
    if k !in t.master.vals {
      WithoutAbsent(t.master.keys, k);
    }
  }

  lemma FiledRemoveGroup(t: Table<nat>, capacity: nat, forObjects: bool, g: Group)
    requires Filed(t, capacity, forObjects)
    ensures Filed(t.RemoveGroup(g), capacity, forObjects)
  {
    RemoveGroupKeepsAgreement(t, g);
  }

  /** The two masters never share a key, so changing one changes the union alike. */
  lemma StoredPut(a: map<Key, nat>, b: map<Key, nat>, k: Key, id: nat)
    ensures a + b[k := id] == (a + b)[k := id]
    ensures k !in b ==> a[k := id] + b == (a + b)[k := id]
  {
  }

  lemma StoredMinus(a: map<Key, nat>, b: map<Key, nat>, ks: set<Key>)
    ensures (forall k :: k in ks ==> k !in a) ==> a + (b - ks) == (a + b) - ks
    ensures (forall k :: k in ks ==> k !in b) ==> (a - ks) + b == (a + b) - ks
  {
  }

  /** A key is found in the table of its kind. */
  lemma StoredAt(m: Manager, limits: Limits, k: Key)
    requires TablesValid(m, limits)
    ensures k in m.TableOf(k).master.vals <==> k in m.Stored()
    ensures k in m.Stored() ==> m.Stored()[k] == m.TableOf(k).master.vals[k]
  {
  }

  lemma TimerOfKey(stored: map<Key, nat>, subs: seq<Subscription>, timers: map<nat, Timer>, next: nat, k: Key)
    requires Linked(stored, subs) && TimersAgree(stored, subs, timers, next)
    ensures TimersWithout(timers, {k}) ==
            if k in stored && subs[stored[k]].expiryHandle.Some?
            then timers - {subs[stored[k]].expiryHandle.value} else timers
  {
  }

  lemma CancelledIsWithout(m: Manager, limits: Limits, k: Key)
    requires Valid(m, limits)
    ensures Cancelled(m, k) == TimersWithout(m.timers, {k})
  {
    StoredAt(m, limits, k);
    TimerOfKey(m.Stored(), m.subs, m.timers, m.nextHandle, k);
  }

  lemma TimersInstall(stored: map<Key, nat>, subs: seq<Subscription>, timers: map<nat, Timer>, next: nat,
                      rec: Record, terms: Terms)
    requires Linked(stored, subs) && TimersAgree(stored, subs, timers, next)
    ensures var handle := if terms.Limited() then Some(next) else None;
            var stored', subs' := stored[rec.key := |subs|], subs + [Subscription(rec, terms, handle)];
            var left := TimersWithout(timers, {rec.key});
            && Linked(stored', subs')
            && if terms.Limited() then
                 TimersAgree(stored', subs', left[next := Timer(terms.Deadline(), rec.key)], next + 1)
               else TimersAgree(stored', subs', left, next)
  {
  }

  lemma TimersRemove(stored: map<Key, nat>, subs: seq<Subscription>, timers: map<nat, Timer>, next: nat, ks: set<Key>)
    requires Linked(stored, subs) && TimersAgree(stored, subs, timers, next)
    ensures Linked(stored - ks, subs)
    ensures TimersAgree(stored - ks, subs, TimersWithout(timers, ks), next)
  {
  }

  lemma OwnHandlesInstall(subs: seq<Subscription>, next: nat, rec: Record, terms: Terms)
    requires OwnHandles(subs, next)
    ensures OwnHandles(subs + [Subscription(rec, terms, Some(next))], next + 1)
    ensures OwnHandles(subs + [Subscription(rec, terms, None)], next)
  {
  }

  lemma InstalledTables(m: Manager, limits: Limits, rec: Record, terms: Terms)
    requires TablesValid(m, limits) && HasRoom(m, limits, rec.key)
    ensures TablesValid(Installed(m, rec, terms), limits)
    ensures Installed(m, rec, terms).Stored() == m.Stored()[rec.key := |m.subs|]
  {
    var k, id := rec.key, |m.subs|;
    if k.ObjectKey? {
      FiledInsert(m.objects, limits.subscriptions, true, k, id);
    } else {
      FiledInsert(m.properties, limits.propertySubscriptions, false, k, id);
    }
    StoredPut(m.objects.master.vals, m.properties.master.vals, k, id);
  }

  lemma InstalledIsValid(m: Manager, limits: Limits, rec: Record, terms: Terms)
    requires Valid(m, limits) && HasRoom(m, limits, rec.key)
    ensures Valid(Installed(m, rec, terms), limits)
    ensures Installed(m, rec, terms).Stored() == m.Stored()[rec.key := |m.subs|]
  {
    InstalledTables(m, limits, rec, terms);
    CancelledIsWithout(m, limits, rec.key);
    TimersInstall(m.Stored(), m.subs, m.timers, m.nextHandle, rec, terms);
    OwnHandlesInstall(m.subs, m.nextHandle, rec, terms);
  }

  lemma TimersDisarm(stored: map<Key, nat>, subs: seq<Subscription>, timers: map<nat, Timer>, next: nat, k: Key)
    requires Linked(stored, subs) && TimersAgree(stored, subs, timers, next)
    ensures TimersAgree(stored, subs, TimersWithout(timers, {k}), next)
  {
  }

  lemma DisarmedIsValid(m: Manager, limits: Limits, k: Key)
    requires Valid(m, limits)
    ensures Valid(Disarmed(m, k), limits) && Disarmed(m, k).Stored() == m.Stored()
    ensures Disarmed(m, k) == m.(timers := TimersWithout(m.timers, {k}))
  {
    CancelledIsWithout(m, limits, k);
    TimersDisarm(m.Stored(), m.subs, m.timers, m.nextHandle, k);
  }

  lemma RemovedIsValid(m: Manager, limits: Limits, k: Key)
    requires Valid(m, limits)
    ensures Valid(Removed(m, k, TimersWithout(m.timers, {k})), limits)
    ensures Removed(m, k, TimersWithout(m.timers, {k})).Stored() == m.Stored() - {k}
  {
    FiledRemove(m.TableOf(k), limits.Of(k), k.ObjectKey?, k);
    StoredMinus(m.objects.master.vals, m.properties.master.vals, {k});
    TimersRemove(m.Stored(), m.subs, m.timers, m.nextHandle, {k});
  }

  // --- Removing an object -----------------------------------------------------

  /** One bucket dropped, with its subscriptions' timers. */
  ghost function BucketDropped(m: Manager, forObjects: bool, g: Group): Manager {
    if forObjects then
      m.(objects := m.objects.RemoveGroup(g), timers := TimersWithout(m.timers, BucketKeys(m.objects, g)))
    else
      m.(properties := m.properties.RemoveGroup(g), timers := TimersWithout(m.timers, BucketKeys(m.properties, g)))
  }

  lemma BucketDroppedIsValid(m: Manager, limits: Limits, forObjects: bool, g: Group)
    requires Valid(m, limits)
    ensures Valid(BucketDropped(m, forObjects, g), limits)
  {
    var t := if forObjects then m.objects else m.properties;
    var capacity := if forObjects then limits.subscriptions else limits.propertySubscriptions;
    FiledRemoveGroup(t, capacity, forObjects, g);
    RemoveGroupVals(t, g);
    StoredMinus(m.objects.master.vals, m.properties.master.vals, BucketKeys(t, g));
    TimersRemove(m.Stored(), m.subs, m.timers, m.nextHandle, BucketKeys(t, g));
  }

  lemma CancelNext(stored: map<Key, nat>, subs: seq<Subscription>, timers: map<nat, Timer>, next: nat, ks: set<Key>,
                   k: Key)
    requires Linked(stored, subs) && TimersAgree(stored, subs, timers, next) && k in stored && k !in ks
    ensures var handle := subs[stored[k]].expiryHandle;
            TimersWithout(timers, ks + {k}) ==
            if handle.Some? then TimersWithout(timers, ks) - {handle.value} else TimersWithout(timers, ks)
  {
  }

  function KeySet(ks: seq<Key>): set<Key> {
    set k | k in ks
  }

  /** Pop the keys of a bucket from the master, cancelling the timer of each. */
  method PopBucket(m: Manager, bucket: Dict<nat>, master: Dict<nat>) returns (rest: Dict<nat>, timers: map<nat, Timer>)
    requires Linked(m.Stored(), m.subs) && TimersAgree(m.Stored(), m.subs, m.timers, m.nextHandle)
    requires NoDuplicates(bucket.keys)
    requires forall k :: k in bucket.keys ==> k in bucket.vals && k in m.Stored() && bucket.vals[k] == m.Stored()[k]
    ensures rest == master.PopAll(bucket.keys)
    ensures timers == TimersWithout(m.timers, KeySet(bucket.keys))
  {
    rest, timers := master, m.timers;
    var ks := bucket.keys;
    assert TimersWithout(m.timers, KeySet([])) == m.timers;
    for i := 0 to |ks|
      invariant rest.PopAll(ks[i..]) == master.PopAll(ks)
      invariant timers == TimersWithout(m.timers, KeySet(ks[..i]))
    {
      var k := ks[i];
      assert ks[i..][1..] == ks[i + 1..];
      assert KeySet(ks[..i + 1]) == KeySet(ks[..i]) + {k};
      CancelNext(m.Stored(), m.subs, m.timers, m.nextHandle, KeySet(ks[..i]), k);
      var sub := m.subs[bucket.vals[k]];
      rest := rest.Pop(k);
      if sub.expiryHandle.Some? {
        timers := timers - {sub.expiryHandle.value};
      }
    }
    assert ks[..|ks|] == ks;
  }

  lemma BucketIsStored(m: Manager, limits: Limits, forObjects: bool, g: Group)
    requires TablesValid(m, limits)
    ensures var t := if forObjects then m.objects else m.properties;
            g in t.index ==>
              && NoDuplicates(t.index[g].keys)
              && KeySet(t.index[g].keys) == BucketKeys(t, g)
              && forall k :: k in t.index[g].keys ==>
                   k in t.index[g].vals && k in m.Stored() && t.index[g].vals[k] == m.Stored()[k]
  {
    var t := if forObjects then m.objects else m.properties;
    if g in t.index {
      BucketShape(t, g);
      forall k | k in t.index[g].keys
        ensures k in m.Stored() && t.index[g].vals[k] == m.Stored()[k]
      {
        StoredAt(m, limits, k);
      }
    }
  }

  /** Pop a bucket and everything in it. */
  method DropBucket(m: Manager, ghost limits: Limits, forObjects: bool, g: Group) returns (m': Manager)
    requires Valid(m, limits)
    ensures m' == BucketDropped(m, forObjects, g)
  {
    var t := if forObjects then m.objects else m.properties;
    if g !in t.index {
      assert TimersWithout(m.timers, {}) == m.timers;
      return m;
    }
    BucketIsStored(m, limits, forObjects, g);
    var master, timers := PopBucket(m, t.index[g], t.master);
    t := Table(master, t.index - {g});
    m' := if forObjects then m.(objects := t, timers := timers) else m.(properties := t, timers := timers);
  }

  /** The timers of other objects' subscriptions. */
  ghost function TimersElsewhere(timers: map<nat, Timer>, oid: nat): map<nat, Timer> {
    map h | h in timers && timers[h].key.oid != oid :: timers[h]
  }

  /** Everything about one object gone: both tables keep exactly what is about others, in order. */
  ghost function ObjectRemoved(m: Manager, oid: nat): Manager {
    m.(objects := m.objects.WithoutGroups(GroupsOfObject(m.objects, oid)),
       properties := m.properties.WithoutGroups(GroupsOfObject(m.properties, oid)),
       timers := TimersElsewhere(m.timers, oid))
  }

  // --- Checking an object after a write -------------------------------------------

  /** What the stored subscriptions remember, by key. */
  ghost function Remembered(stored: map<Key, nat>, subs: seq<Subscription>): Records
    requires Linked(stored, subs)
  {
    map k | k in stored :: subs[stored[k]].record
  }

  function Message(sub: Subscription, view: ObjectView): Notification {
    Notification(sub.record.key, sub.terms.confirmed, Watched(sub.record, view), view.StatusFlags())
  }

  /** The messages to the given keys, in order. */
  ghost function Messages(stored: map<Key, nat>, subs: seq<Subscription>, ks: seq<Key>,
                          view: ObjectView): seq<Notification>
    requires Linked(stored, subs) && forall k :: k in ks ==> k in stored
  {
    if ks == [] then []
    else [Message(subs[stored[ks[0]]], view)] + Messages(stored, subs, ks[1..], view)
  }

  /** Subscriptions that differ in what they remember only. */
  ghost predicate SameTerms(subs: seq<Subscription>, subs': seq<Subscription>) {
    && |subs| == |subs'|
    && forall i :: 0 <= i < |subs| ==>
         && subs[i].record.key == subs'[i].record.key
         && subs[i].terms == subs'[i].terms
         && subs[i].expiryHandle == subs'[i].expiryHandle
  }

  /** Updating what one subscription remembers, through any reference to it, is seen at its key and nowhere else. */
  lemma UpdateOne(stored: map<Key, nat>, subs: seq<Subscription>, k: Key, rec: Record)
    requires Linked(stored, subs) && k in stored && rec.key == k
    ensures var subs' := subs[stored[k] := subs[stored[k]].(record := rec)];
            && Linked(stored, subs')
            && SameTerms(subs, subs')
            && Remembered(stored, subs') == Remembered(stored, subs)[k := rec]
  {
  }

  lemma SameTermsKeepTimers(stored: map<Key, nat>, subs: seq<Subscription>, subs': seq<Subscription>,
                            timers: map<nat, Timer>, next: nat)
    requires Linked(stored, subs) && TimersAgree(stored, subs, timers, next) && SameTerms(subs, subs')
    ensures Linked(stored, subs') && TimersAgree(stored, subs', timers, next)
    ensures OwnHandles(subs, next) ==> OwnHandles(subs', next)
  {
  }

  lemma {:induction false} MessagesIgnoreOthers(stored: map<Key, nat>, subs: seq<Subscription>,
                                                subs': seq<Subscription>,
                                                ks: seq<Key>, view: ObjectView)
    requires Linked(stored, subs) && Linked(stored, subs') && forall k :: k in ks ==> k in stored
    requires forall k :: k in ks ==> subs[stored[k]] == subs'[stored[k]]
    ensures Messages(stored, subs, ks, view) == Messages(stored, subs', ks, view)
  {
    if ks == [] {
    } else {
      assert ks == [ks[0]] + ks[1..];
      MessagesIgnoreOthers(stored, subs, subs', ks[1..], view);
    }
  }

  /** What scanning some keys does: the messages sent, the subscriptions after it, and whether it got to the end. */
  datatype Delivery = Delivery(messages: seq<Notification>, subs: seq<Subscription>, completed: bool)

  /** The outcome is the one the scan of the records prescribes. */
  ghost predicate FollowsScan(stored: map<Key, nat>, subs: seq<Subscription>, s: Scanned, o: Delivery, view: ObjectView)
    requires Linked(stored, subs)
  {
    && SameTerms(subs, o.subs)
    && Linked(stored, o.subs)
    && Remembered(stored, o.subs) == s.records
    && o.completed == s.completed
    && (forall k :: k in s.notified ==> k in stored)
    && o.messages == Messages(stored, subs, s.notified, view)
  }

  ghost predicate Continues(whole: Scanned, done: seq<Key>, rest: Scanned) {
    whole == Scanned(done + rest.notified, rest.records, rest.completed)
  }

  /** Half way through a scan: the keys done were notified, the rest is still to be looked at. */
  ghost predicate Progress(stored: map<Key, nat>, subs: seq<Subscription>, done: seq<Key>, rest: seq<Key>,
                           whole: Scanned, o: Delivery, view: ObjectView, property: nat)
    requires Linked(stored, subs)
  {
    && o.completed && SameTerms(subs, o.subs) && Linked(stored, o.subs)
    && (forall k :: k in done ==> k in stored)
    && (forall k :: k in rest ==> k in stored && o.subs[stored[k]] == subs[stored[k]])
    && o.messages == Messages(stored, subs, done, view)
    && Continues(whole, done, FullScan(rest, Remembered(stored, o.subs), view, property))
  }

  lemma ProgressSkip(stored: map<Key, nat>, subs: seq<Subscription>, done: seq<Key>, k: Key, rest: seq<Key>,
                     whole: Scanned, o: Delivery, view: ObjectView, property: nat)
    requires Linked(stored, subs) && Progress(stored, subs, done, [k] + rest, whole, o, view, property)
    requires !Breaks(subs[stored[k]].record, view) && !ShouldNotify(subs[stored[k]].record, view)
    ensures Progress(stored, subs, done, rest, whole, o, view, property)
  {
    assert ([k] + rest)[1..] == rest && k in [k] + rest;
  }

  lemma ProgressStop(stored: map<Key, nat>, subs: seq<Subscription>, done: seq<Key>, k: Key, rest: seq<Key>,
                     whole: Scanned, o: Delivery, view: ObjectView, property: nat)
    requires Linked(stored, subs) && Progress(stored, subs, done, [k] + rest, whole, o, view, property)
    requires Concerns(k, view, property) && Breaks(subs[stored[k]].record, view)
    ensures FollowsScan(stored, subs, whole, o.(completed := false), view)
  {
    assert k in [k] + rest;
    assert done + [] == done;
  }

  lemma ContinuesNotify(whole: Scanned, done: seq<Key>, k: Key, rest: seq<Key>, rs: Records, view: ObjectView,
                        property: nat)
    requires k in rs && Concerns(k, view, property) && ShouldNotify(rs[k], view) && !Breaks(rs[k], view)
    requires forall x :: x in [k] + rest ==> x in rs
    requires Continues(whole, done, FullScan([k] + rest, rs, view, property))
    ensures forall x :: x in rest ==> x in rs[k := Updated(rs[k], view)]
    ensures Continues(whole, done + [k], FullScan(rest, rs[k := Updated(rs[k], view)], view, property))
  {
    assert ([k] + rest)[1..] == rest;
    assert forall x :: x in rest ==> x in [k] + rest;
    var r := FullScan(rest, rs[k := Updated(rs[k], view)], view, property);
    assert done + ([k] + r.notified) == done + [k] + r.notified;
  }

  lemma {:induction false} MessagesSnoc(stored: map<Key, nat>, subs: seq<Subscription>, ks: seq<Key>, k: Key,
                                        view: ObjectView)
    requires Linked(stored, subs) && (forall k :: k in ks ==> k in stored) && k in stored
    ensures Messages(stored, subs, ks + [k], view) ==
            Messages(stored, subs, ks, view) + [Message(subs[stored[k]], view)]
  {
    if ks == [] {
      assert [k][1..] == [];
    } else {
      assert (ks + [k])[1..] == ks[1..] + [k];
      MessagesSnoc(stored, subs, ks[1..], k, view);
    }
  }

  lemma ProgressNotify(stored: map<Key, nat>, subs: seq<Subscription>, done: seq<Key>, k: Key, rest: seq<Key>,
                       whole: Scanned, o: Delivery, view: ObjectView, property: nat, o': Delivery)
    requires Linked(stored, subs) && Progress(stored, subs, done, [k] + rest, whole, o, view, property)
    requires k in stored && k !in rest && Concerns(k, view, property)
    requires ShouldNotify(subs[stored[k]].record, view) && !Breaks(subs[stored[k]].record, view)
    requires var sub := subs[stored[k]];
             o' == Delivery(o.messages + [Message(sub, view)],
                           o.subs[stored[k] := sub.(record := Updated(sub.record, view))], true)
    ensures Progress(stored, subs, done + [k], rest, whole, o', view, property)
  {
    assert k in [k] + rest;
    MessagesSnoc(stored, subs, done, k, view);
    UpdateOne(stored, o.subs, k, Updated(subs[stored[k]].record, view));
    ContinuesNotify(whole, done, k, rest, Remembered(stored, o.subs), view, property);
    forall k0 | k0 in rest
      ensures k0 in stored && o'.subs[stored[k0]] == subs[stored[k0]]
    {
      assert k0 in [k] + rest && k0 != k;
    }
  }

  lemma ProgressStart(stored: map<Key, nat>, subs: seq<Subscription>, ks: seq<Key>, view: ObjectView, property: nat)
    requires Linked(stored, subs) && forall k :: k in ks ==> k in stored
    ensures var whole := FullScan(ks, Remembered(stored, subs), view, property);
            Progress(stored, subs, [], ks, whole, Delivery([], subs, true), view, property)
  {
    var notified := FullScan(ks, Remembered(stored, subs), view, property).notified;
    assert [] + notified == notified;
  }

  lemma ProgressEnd(stored: map<Key, nat>, subs: seq<Subscription>, done: seq<Key>, whole: Scanned, o: Delivery,
                    view: ObjectView, property: nat)
    requires Linked(stored, subs) && Progress(stored, subs, done, [], whole, o, view, property)
    ensures FollowsScan(stored, subs, whole, o, view)
  {
    assert done + [] == done;
  }

  /** Looking at one subscription of a scan that has come this far. */
  function Looked(o: Delivery, id: nat, view: ObjectView): Delivery
    requires id < |o.subs|
  {
    var sub := o.subs[id];
    if Breaks(sub.record, view) then o.(completed := false)
    else if !ShouldNotify(sub.record, view) then o
    else Delivery(o.messages + [Message(sub, view)], o.subs[id := sub.(record := Updated(sub.record, view))], true)
  }

  /** The keys notified after it, if it did not raise. */
  ghost function DoneAfter(done: seq<Key>, k: Key, sub: Subscription, view: ObjectView): seq<Key> {
    if ShouldNotify(sub.record, view) then done + [k] else done
  }

  lemma ProgressStep(stored: map<Key, nat>, subs: seq<Subscription>, done: seq<Key>, k: Key, rest: seq<Key>,
                     whole: Scanned, o: Delivery, view: ObjectView, property: nat)
    requires Linked(stored, subs) && Progress(stored, subs, done, [k] + rest, whole, o, view, property)
    requires k in stored && k !in rest && Concerns(k, view, property)
    ensures stored[k] < |o.subs|
    ensures var sub, o' := subs[stored[k]], Looked(o, stored[k], view);
            if !o'.completed then FollowsScan(stored, subs, whole, o', view)
            else Progress(stored, subs, DoneAfter(done, k, sub, view), rest, whole, o', view, property)
  {
    assert k in [k] + rest;
    var sub, o' := subs[stored[k]], Looked(o, stored[k], view);
    if Breaks(sub.record, view) {
      ProgressStop(stored, subs, done, k, rest, whole, o, view, property);
    } else if ShouldNotify(sub.record, view) {
      ProgressNotify(stored, subs, done, k, rest, whole, o, view, property, o');
    } else {
      ProgressSkip(stored, subs, done, k, rest, whole, o, view, property);
    }
  }

  /** The body of the bucket loop. */
  method LookAt(o: Delivery, id: nat, view: ObjectView) returns (o': Delivery)
    requires id < |o.subs| && o.completed
    ensures o' == Looked(o, id, view)
  {
    var sub := o.subs[id];
    if sub.record.key in view.incomparable {
      return o.(completed := false);
    }
    if !ShouldNotify(sub.record, view) {
      return o;
    }
    if !CanReport(sub.record, view) {
      return o.(completed := false);
    }
    return Delivery(o.messages + [Message(sub, view)], o.subs[id := sub.(record := Updated(sub.record, view))], true);
  }

  /** The loop over the bucket of one group. */
  method ScanBucket(bucket: Dict<nat>, ghost stored: map<Key, nat>, subs: seq<Subscription>, view: ObjectView,
                    ghost property: nat)
    returns (o: Delivery)
    requires Linked(stored, subs) && NoDuplicates(bucket.keys)
    requires forall k :: k in bucket.keys ==>
               k in bucket.vals && k in stored && bucket.vals[k] == stored[k] && Concerns(k, view, property)
    ensures FollowsScan(stored, subs, FullScan(bucket.keys, Remembered(stored, subs), view, property), o, view)
  {
    var ks := bucket.keys;
    ghost var whole := FullScan(ks, Remembered(stored, subs), view, property);
    ghost var done: seq<Key> := [];
    o := Delivery([], subs, true);
    ProgressStart(stored, subs, ks, view, property);
    assert ks[0..] == ks;
    for i := 0 to |ks|
      invariant Progress(stored, subs, done, ks[i..], whole, o, view, property)
    {
      var k := ks[i];
      ghost var rest := ks[i + 1..];
      assert k in ks && ks[i..] == [k] + rest && k !in rest;
      ProgressStep(stored, subs, done, k, rest, whole, o, view, property);
      o := LookAt(o, bucket.vals[k], view);
      if !o.completed {
        return;
      }
      done := DoneAfter(done, k, subs[stored[k]], view);
    }
    assert ks[|ks|..] == [];
    ProgressEnd(stored, subs, done, whole, o, view, property);
  }

  const EMPTY: Manager := Manager(EmptyTable(), EmptyTable(), [], map[], 0)

  lemma EmptyIsValid(limits: Limits)
    ensures Valid(EMPTY, limits)
  {
    var t: Table<nat> := EmptyTable();
    assert IndexOf(t.master) == map[];
  }

  /** The timers of the keys outside some groups. */
  ghost function TimersOutside(timers: map<nat, Timer>, gs: set<Group>): map<nat, Timer> {
    map h | h in timers && GroupOf(timers[h].key) !in gs :: timers[h]
  }

  lemma TimersOfGroup(stored: map<Key, nat>, subs: seq<Subscription>, timers: map<nat, Timer>, next: nat, ks: set<Key>,
                      g: Group)
    requires Linked(stored, subs) && TimersAgree(stored, subs, timers, next)
    requires forall k :: k in stored ==> (k in ks <==> GroupOf(k) == g)
    ensures TimersWithout(timers, ks) == TimersOutside(timers, {g})
  {
  }

  /** A bucket's keys are all the stored keys of its group, so dropping it drops that group's timers. */
  lemma BucketTimers(m: Manager, limits: Limits, forObjects: bool, g: Group)
    requires Valid(m, limits) && (g.OfObject? <==> forObjects)
    ensures BucketDropped(m, forObjects, g).timers == TimersOutside(m.timers, {g})
  {
    BucketIsGroup(if forObjects then m.objects else m.properties, g);
    forall k | k in m.Stored()
      ensures k in BucketKeys(if forObjects then m.objects else m.properties, g) <==> GroupOf(k) == g
    {
      StoredAt(m, limits, k);
    }
    TimersOfGroup(m.Stored(), m.subs, m.timers, m.nextHandle,
                  BucketKeys(if forObjects then m.objects else m.properties, g), g);
  }

  /** A map without an object's keys. */
  ghost function About<X>(vals: map<Key, X>, oid: nat): map<Key, X> {
    map k | k in vals && k.oid != oid :: vals[k]
  }

  lemma FiledWithoutObject(t: Table<nat>, capacity: nat, forObjects: bool, oid: nat)
    requires Filed(t, capacity, forObjects)
    ensures Filed(t.WithoutGroups(GroupsOfObject(t, oid)), capacity, forObjects)
    ensures t.WithoutGroups(GroupsOfObject(t, oid)).master.vals == About(t.master.vals, oid)
  {
    WithoutGroupsAgrees(t, GroupsOfObject(t, oid));
    WithoutObject(t, oid);
  }

  lemma StoredAbout(a: map<Key, nat>, b: map<Key, nat>, oid: nat)
    ensures About(a, oid) + About(b, oid) == About(a + b, oid)
  {
  }

  lemma TimersAbout(stored: map<Key, nat>, subs: seq<Subscription>, timers: map<nat, Timer>, next: nat, oid: nat)
    requires Linked(stored, subs) && TimersAgree(stored, subs, timers, next)
    ensures Linked(About(stored, oid), subs)
    ensures TimersAgree(About(stored, oid), subs, TimersElsewhere(timers, oid), next)
  {
  }

  lemma ObjectRemovedIsValid(m: Manager, limits: Limits, oid: nat)
    requires Valid(m, limits)
    ensures Valid(ObjectRemoved(m, oid), limits)
    ensures ObjectRemoved(m, oid).Stored() == About(m.Stored(), oid)
  {
    FiledWithoutObject(m.objects, limits.subscriptions, true, oid);
    FiledWithoutObject(m.properties, limits.propertySubscriptions, false, oid);
    StoredAbout(m.objects.master.vals, m.properties.master.vals, oid);
    TimersAbout(m.Stored(), m.subs, m.timers, m.nextHandle, oid);
  }

  // ---------------------------------------------------------------------
  // The manager object.
  // ---------------------------------------------------------------------

  /** The two masters in one sequence: object subscriptions first. */
  ghost function AllKeys(m: Manager): seq<Key> {
    m.objects.master.keys + m.properties.master.keys
  }

  lemma AllKeysAreStored(m: Manager, limits: Limits)
    requires TablesValid(m, limits)
    ensures NoDuplicates(AllKeys(m)) && forall k :: k in AllKeys(m) <==> k in m.Stored()
  {
    var a, b := m.objects.master.keys, m.properties.master.keys;
    forall i, j | 0 <= i < j < |a + b|
      ensures (a + b)[i] != (a + b)[j]
    {
      assert i < |a| ==> (a + b)[i] in m.objects.master.vals;
      assert j >= |a| ==> (a + b)[j] in m.properties.master.vals;
    }
  }

  /** The scan of both whole tables that a check must amount to. */
  ghost function CheckScan(m: Manager, limits: Limits, view: ObjectView, property: nat): Scanned
    requires Valid(m, limits)
  {
    AllKeysAreStored(m, limits);
    FullScan(AllKeys(m), Remembered(m.Stored(), m.subs), view, property)
  }

  /** Scanning one bucket, or none if it does not exist, is scanning its whole table. */
  lemma TableScan(t: Table<nat>, capacity: nat, forObjects: bool, rs: Records, view: ObjectView, property: nat)
    requires Filed(t, capacity, forObjects) && forall k :: k in t.master.keys ==> k in rs
    ensures var g := if forObjects then OfObject(view.oid) else OfProperty(view.oid, property);
            if g in t.index then
              && (forall k :: k in t.index[g].keys ==> k in rs && Concerns(k, view, property))
              && FullScan(t.index[g].keys, rs, view, property) == FullScan(t.master.keys, rs, view, property)
            else FullScan(t.master.keys, rs, view, property) == Scanned([], rs, true)
  {
    var g := if forObjects then OfObject(view.oid) else OfProperty(view.oid, property);
    BucketScanIsFullScan(t.master.keys, rs, view, property, g);
    BucketsMirrorMaster(t, g);
    FilterContents(t.master.keys, g);
    GroupEmptyIff(t.master, g);
  }

  lemma Untouched(stored: map<Key, nat>, subs: seq<Subscription>, subs': seq<Subscription>, k: Key)
    requires Linked(stored, subs) && Linked(stored, subs') && SameTerms(subs, subs') && k in stored
    requires Remembered(stored, subs)[k] == Remembered(stored, subs')[k]
    ensures subs[stored[k]] == subs'[stored[k]]
  {
  }

  lemma {:induction false} MessagesConcat(stored: map<Key, nat>, subs: seq<Subscription>, a: seq<Key>, b: seq<Key>,
                                          view: ObjectView)
    requires Linked(stored, subs) && (forall k :: k in a ==> k in stored) && forall k :: k in b ==> k in stored
    ensures Messages(stored, subs, a + b, view) == Messages(stored, subs, a, view) + Messages(stored, subs, b, view)
  {
    if a == [] {
      assert a + b == b;
    } else {
      assert a == [a[0]] + a[1..] && (a + b)[1..] == a[1..] + b;
      MessagesConcat(stored, subs, a[1..], b, view);
    }
  }

  /** Two scans in a row, of object keys and then of property keys, follow the scan of both. */
  lemma ScansCompose(stored: map<Key, nat>, subs: seq<Subscription>, a: seq<Key>, b: seq<Key>, o1: Delivery,
                     o2: Delivery,
                     view: ObjectView, property: nat)
    requires Linked(stored, subs) && NoDuplicates(a)
    requires forall k :: k in a ==> k in stored && k.ObjectKey?
    requires forall k :: k in b ==> k in stored && k.PropertyKey?
    requires FollowsScan(stored, subs, FullScan(a, Remembered(stored, subs), view, property), o1, view)
    requires FollowsScan(stored, o1.subs, FullScan(b, Remembered(stored, o1.subs), view, property), o2, view)
    ensures FollowsScan(stored, subs, FullScan(a + b, Remembered(stored, subs), view, property),
                        if o1.completed then Delivery(o1.messages + o2.messages, o2.subs, o2.completed) else o1, view)
  {
    var rs := Remembered(stored, subs);
    ScanConcat(a, b, rs, view, property);
    if o1.completed {
      var s := FullScan(a, rs, view, property);
      var t := FullScan(b, s.records, view, property);
      ScanPicksByRule(a, rs, view, property);
      NotifiedAreScanned(a, rs, view, property);
      NotifiedAreScanned(b, s.records, view, property);
      forall k | k in t.notified
        ensures subs[stored[k]] == o1.subs[stored[k]]
      {
        Untouched(stored, subs, o1.subs, k);
      }
      MessagesIgnoreOthers(stored, subs, o1.subs, t.notified, view);
      MessagesConcat(stored, subs, s.notified, t.notified, view);
    }
  }

  lemma KindsOfKeys(m: Manager, limits: Limits)
    requires TablesValid(m, limits)
    ensures NoDuplicates(m.objects.master.keys) && NoDuplicates(m.properties.master.keys)
    ensures forall k :: k in m.objects.master.keys ==> k in m.Stored() && k.ObjectKey?
    ensures forall k :: k in m.properties.master.keys ==> k in m.Stored() && k.PropertyKey?
  {
  }

  lemma CheckStopped(m: Manager, limits: Limits, o1: Delivery, view: ObjectView, property: nat)
    requires Valid(m, limits)
    requires forall k :: k in m.objects.master.keys ==> k in m.Stored()
    requires FollowsScan(m.Stored(), m.subs,
                         FullScan(m.objects.master.keys, Remembered(m.Stored(), m.subs), view, property), o1, view)
    requires !o1.completed
    ensures FollowsScan(m.Stored(), m.subs, CheckScan(m, limits, view, property), o1, view)
  {
    AllKeysAreStored(m, limits);
    KindsOfKeys(m, limits);
    ScanConcat(m.objects.master.keys, m.properties.master.keys, Remembered(m.Stored(), m.subs), view, property);
  }

  /** Look the bucket up and scan it. */
  method ScanTable(m: Manager, ghost limits: Limits, subs: seq<Subscription>, forObjects: bool, view: ObjectView,
                   property: nat)
    returns (o: Delivery)
    requires TablesValid(m, limits) && Linked(m.Stored(), subs)
    ensures var keys := if forObjects then m.objects.master.keys else m.properties.master.keys;
            && (forall k :: k in keys ==> k in m.Stored())
            && FollowsScan(m.Stored(), subs, FullScan(keys, Remembered(m.Stored(), subs), view, property), o, view)
  {
    KindsOfKeys(m, limits);
    var t := if forObjects then m.objects else m.properties;
    var g := if forObjects then OfObject(view.oid) else OfProperty(view.oid, property);
    TableScan(t, if forObjects then limits.subscriptions else limits.propertySubscriptions, forObjects,
              Remembered(m.Stored(), subs), view, property);
    if g in t.index {
      BucketIsStored(m, limits, forObjects, g);
      o := ScanBucket(t.index[g], m.Stored(), subs, view, property);
    } else {
      o := Delivery([], subs, true);
    }
  }

  /** The bucket loops of a check: the object's bucket, then, unless that raised, the property's. */
  method CheckBuckets(m: Manager, ghost limits: Limits, view: ObjectView, property: nat) returns (o: Delivery)
    requires Valid(m, limits)
    ensures FollowsScan(m.Stored(), m.subs, CheckScan(m, limits, view, property), o, view)
  {
    AllKeysAreStored(m, limits);
    var o1 := ScanTable(m, limits, m.subs, true, view, property);
    if !o1.completed {
      CheckStopped(m, limits, o1, view, property);
      return o1;
    }
    var o2 := ScanTable(m, limits, o1.subs, false, view, property);
    KindsOfKeys(m, limits);
    ScansCompose(m.Stored(), m.subs, m.objects.master.keys, m.properties.master.keys, o1, o2, view, property);
    return Delivery(o1.messages + o2.messages, o2.subs, o2.completed);
  }

  /** A property subscription of a SubscribeCOVPropertyMultiple request. */
  datatype Reference = Reference(property: nat, arrayIndex: Option<nat>, increment: Option<real>)

  /** The references of such a request in order, each object looked up before its own. */
  datatype Item = Lookup(oid: nat) | Subscribe(oid: nat, ref: Reference)

  datatype Spec = Spec(oid: nat, refs: seq<Reference>)

  function ItemsOf(oid: nat, refs: seq<Reference>): seq<Item> {
    if refs == [] then [] else [Subscribe(oid, refs[0])] + ItemsOf(oid, refs[1..])
  }

  function Items(specs: seq<Spec>): seq<Item> {
    if specs == [] then [] else [Lookup(specs[0].oid)] + (ItemsOf(specs[0].oid, specs[0].refs) + Items(specs[1..]))
  }

  /** The manager and what it has handed to the application to send. */
  datatype State = State(m: Manager, sent: seq<Notification>)

  /** What a request to subscribe does before anything is sent; whatever raises, the earlier timer is cancelled. */
  function Filing(m: Manager, limits: Limits, rec: Record, terms: Terms): (Manager, Option<Error>) {
    if !HasRoom(m, limits, rec.key) then (m, Some(NoSpace))
    else if terms.TooLong() then (Disarmed(m, rec.key), Some(LifetimeTooLong))
    else (Installed(m, rec, terms), None)
  }

  /** The whole request: file the subscription, then send it the object's current values. */
  function Subscribed(s: State, limits: Limits, rec: Record, terms: Terms, view: ObjectView): (State, Option<Error>) {
    var (m, error) := Filing(s.m, limits, rec, terms);
    if error.Some? then (State(m, s.sent), error)
    else if CanReport(rec, view) then (State(m, s.sent + [Message(Subscription(rec, terms, None), view)]), None)
    else (State(m, s.sent), Some(CannotReport))
  }

  function ObjectRecord(subscriber: nat, process: nat, oid: nat, view: ObjectView): Record {
    Record(ObjectKey(subscriber, process, oid), None, view.PresentValue(), view.StatusFlags())
  }

  function PropertyRecord(subscriber: nat, process: nat, oid: nat, ref: Reference, view: ObjectView): Record {
    Record(PropertyKey(subscriber, process, oid, ref.property, ref.arrayIndex), ref.increment,
           view.Read(ref.property, ref.arrayIndex), Absent)
  }

  /** The items of a request one after the other, up to the first that raises. */
  function SubscribedEach(s: State, limits: Limits, subscriber: nat, process: nat, terms: Terms,
                          db: map<nat, ObjectView>, items: seq<Item>): (State, Option<Error>)
    decreases |items|
  {
    if items == [] then (s, None)
    else if items[0].oid !in db then (s, Some(UnknownObject))
    else if items[0].Lookup? then SubscribedEach(s, limits, subscriber, process, terms, db, items[1..])
    else
      var view := db[items[0].oid];
      var rec := PropertyRecord(subscriber, process, items[0].oid, items[0].ref, view);
      var (s', e) := Subscribed(s, limits, rec, terms, view);
      if e.Some? then (s', e) else SubscribedEach(s', limits, subscriber, process, terms, db, items[1..])
  }

  lemma EachCons(s: State, limits: Limits, subscriber: nat, process: nat, terms: Terms, db: map<nat, ObjectView>,
                 item: Item, rest: seq<Item>)
    requires item.oid in db
    ensures SubscribedEach(s, limits, subscriber, process, terms, db, [item] + rest) ==
            if item.Lookup? then SubscribedEach(s, limits, subscriber, process, terms, db, rest)
            else
              var view := db[item.oid];
              var rec := PropertyRecord(subscriber, process, item.oid, item.ref, view);
              var (s', e) := Subscribed(s, limits, rec, terms, view);
              if e.Some? then (s', e) else SubscribedEach(s', limits, subscriber, process, terms, db, rest)
  {
    assert ([item] + rest)[1..] == rest;
  }

  /** A map without the keys of some groups. */
  ghost function Others<X>(vals: map<Key, X>, gs: set<Group>): map<Key, X> {
    map k | k in vals && GroupOf(k) !in gs :: vals[k]
  }

  lemma TimersOfOthers(stored: map<Key, nat>, subs: seq<Subscription>, timers: map<nat, Timer>, next: nat,
                       gs: set<Group>)
    requires Linked(stored, subs) && TimersAgree(stored, subs, timers, next)
    ensures Linked(Others(stored, gs), subs)
    ensures TimersAgree(Others(stored, gs), subs, TimersOutside(timers, gs), next)
  {
  }

  lemma StoredOthers(a: map<Key, nat>, b: map<Key, nat>, oid: nat, gs: set<Group>)
    requires forall k :: k in a ==> k.ObjectKey?
    requires forall k :: k in b ==> k.PropertyKey?
    requires forall g :: g in gs ==> g.OfProperty?
    ensures Others(a, {OfObject(oid)}) + Others(b, gs) == Others(a + b, {OfObject(oid)} + gs)
  {
  }

  /** The object's own bucket and the property buckets gs gone. */
  ghost function Dropped(m: Manager, oid: nat, gs: set<Group>): Manager {
    m.(objects := m.objects.RemoveGroup(OfObject(oid)),
       properties := m.properties.WithoutGroups(gs),
       timers := TimersOutside(m.timers, {OfObject(oid)} + gs))
  }

  lemma DroppedTables(m: Manager, limits: Limits, oid: nat, gs: set<Group>)
    requires TablesValid(m, limits) && forall g :: g in gs ==> g.OfProperty?
    ensures TablesValid(Dropped(m, oid, gs), limits)
    ensures Dropped(m, oid, gs).Stored() == Others(m.Stored(), {OfObject(oid)} + gs)
  {
    FiledRemoveGroup(m.objects, limits.subscriptions, true, OfObject(oid));
    RemoveGroupKeepsAgreement(m.objects, OfObject(oid));
    WithoutGroupsAgrees(m.properties, gs);
    assert m.objects.RemoveGroup(OfObject(oid)).master.vals == Others(m.objects.master.vals, {OfObject(oid)});
    StoredOthers(m.objects.master.vals, m.properties.master.vals, oid, gs);
  }

  lemma DroppedIsValid(m: Manager, limits: Limits, oid: nat, gs: set<Group>)
    requires Valid(m, limits) && forall g :: g in gs ==> g.OfProperty?
    ensures Valid(Dropped(m, oid, gs), limits)
  {
    DroppedTables(m, limits, oid, gs);
    TimersOfOthers(m.Stored(), m.subs, m.timers, m.nextHandle, {OfObject(oid)} + gs);
  }

  lemma TimersOutsideTwice(timers: map<nat, Timer>, gs: set<Group>, g: Group)
    ensures TimersOutside(TimersOutside(timers, gs), {g}) == TimersOutside(timers, gs + {g})
  {
  }

  lemma DropPropertyNext(m: Manager, limits: Limits, oid: nat, gs: set<Group>, g: Group)
    requires Valid(Dropped(m, oid, gs), limits) && g.OfProperty?
    ensures BucketDropped(Dropped(m, oid, gs), false, g) == Dropped(m, oid, gs + {g})
  {
    BucketTimers(Dropped(m, oid, gs), limits, false, g);
    DropOneMore(m.properties, gs, g);
    TimersOutsideTwice(m.timers, {OfObject(oid)} + gs, g);
    assert {OfObject(oid)} + gs + {g} == {OfObject(oid)} + (gs + {g});
  }

  method DropOne(d: Manager, ghost limits: Limits, ghost m: Manager, oid: nat, ghost gs: set<Group>, g: Group)
    returns (m': Manager)
    requires Valid(m, limits) && d == Dropped(m, oid, gs)
    requires g.OfProperty? && forall g0 :: g0 in gs ==> g0.OfProperty?
    ensures m' == Dropped(m, oid, gs + {g})
  {
    DroppedIsValid(m, limits, oid, gs);
    DropPropertyNext(m, limits, oid, gs, g);
    m' := DropBucket(d, limits, false, g);
  }

  /** Drop the property buckets of an object, in any order. */
  method DropProperties(start: Manager, all: set<Group>, ghost limits: Limits, ghost m: Manager, oid: nat)
    returns (m': Manager)
    requires start == Dropped(m, oid, {}) && Valid(m, limits)
    requires forall g :: g in all ==> g.OfProperty?
    ensures m' == Dropped(m, oid, all)
  {
    m' := start;
    var rest := all;
    ghost var done: set<Group> := {};
    while rest != {}
      invariant done + rest == all
      invariant m' == Dropped(m, oid, done)
      decreases rest
    {
      var g :| g in rest;
      m' := DropOne(m', limits, m, oid, done, g);
      rest, done := rest - {g}, done + {g};
    }
  }

  lemma DropObjectFirst(m: Manager, limits: Limits, oid: nat)
    requires Valid(m, limits)
    ensures BucketDropped(m, true, OfObject(oid)) == Dropped(m, oid, {})
    ensures Valid(Dropped(m, oid, {}), limits)
    ensures Dropped(m, oid, {}).properties == m.properties
  {
    BucketDroppedIsValid(m, limits, true, OfObject(oid));
    BucketTimers(m, limits, true, OfObject(oid));
    WithoutNoGroups(m.properties);
    assert {OfObject(oid)} + {} == {OfObject(oid)};
  }

  lemma DroppedParts(m: Manager, oid: nat)
    requires m.objects.RemoveGroup(OfObject(oid)) == m.objects.WithoutGroups(GroupsOfObject(m.objects, oid))
    requires TimersOutside(m.timers, {OfObject(oid)} + GroupsOfObject(m.properties, oid)) ==
             TimersElsewhere(m.timers, oid)
    ensures Dropped(m, oid, GroupsOfObject(m.properties, oid)) == ObjectRemoved(m, oid)
  {
  }

  /** In the object table an object has one group, so dropping it leaves out all its groups. */
  lemma ObjectGroupOnly(t: Table<nat>, capacity: nat, oid: nat)
    requires Filed(t, capacity, true)
    ensures t.RemoveGroup(OfObject(oid)) == t.WithoutGroups(GroupsOfObject(t, oid))
  {
    var g := OfObject(oid);
    assert GroupsOfObject(t, oid) == if g in t.index then {g} else {};
    WithoutNoGroups(t);
    DropOneMore(t, {}, g);
    assert {} + {g} == {g};
  }

  lemma DroppedObjects(m: Manager, limits: Limits, oid: nat)
    requires TablesValid(m, limits)
    ensures m.objects.RemoveGroup(OfObject(oid)) == m.objects.WithoutGroups(GroupsOfObject(m.objects, oid))
  {
    ObjectGroupOnly(m.objects, limits.subscriptions, oid);
  }

  lemma TimersOfKeys(stored: map<Key, nat>, subs: seq<Subscription>, timers: map<nat, Timer>, next: nat, gs: set<Group>,
                     oid: nat)
    requires Linked(stored, subs) && TimersAgree(stored, subs, timers, next)
    requires forall k :: k in stored ==> (GroupOf(k) in gs <==> k.oid == oid)
    ensures TimersOutside(timers, gs) == TimersElsewhere(timers, oid)
  {
  }

  lemma PropertyGroupsOnly(t: Table<nat>, capacity: nat, oid: nat)
    requires Filed(t, capacity, false)
    ensures forall g :: g in GroupsOfObject(t, oid) ==> g.OfProperty?
    ensures forall k :: k in t.master.vals ==> (GroupOf(k) in GroupsOfObject(t, oid) <==> k.oid == oid)
  {
    forall k | k in t.master.vals
      ensures GroupOf(k) in t.index
    {
      assert GroupOf(k) in Groups(t.master);
    }
  }

  lemma KeysOfObject(m: Manager, limits: Limits, oid: nat)
    requires TablesValid(m, limits)
    ensures forall k :: k in m.Stored() ==>
              (GroupOf(k) in {OfObject(oid)} + GroupsOfObject(m.properties, oid) <==> k.oid == oid)
  {
    PropertyGroupsOnly(m.properties, limits.propertySubscriptions, oid);
  }

  lemma DroppedAll(m: Manager, limits: Limits, oid: nat)
    requires Valid(m, limits)
    ensures Dropped(m, oid, GroupsOfObject(m.properties, oid)) == ObjectRemoved(m, oid)
  {
    DroppedObjects(m, limits, oid);
    KeysOfObject(m, limits, oid);
    TimersOfKeys(m.Stored(), m.subs, m.timers, m.nextHandle, {OfObject(oid)} + GroupsOfObject(m.properties, oid), oid);
    DroppedParts(m, oid);
  }

  /** Drop the object's bucket, then every bucket of one of its properties. */
  method DropObject(m: Manager, ghost limits: Limits, oid: nat) returns (m': Manager)
    requires Valid(m, limits)
    ensures m' == ObjectRemoved(m, oid)
  {
    DropObjectFirst(m, limits, oid);
    PropertyGroupsOnly(m.properties, limits.propertySubscriptions, oid);
    DroppedAll(m, limits, oid);
    m' := DropBucket(m, limits, true, OfObject(oid));
    m' := DropProperties(m', GroupsOfObject(m'.properties, oid), limits, m, oid);
  }

  /** Cancel the timers of the subscriptions at the given keys, which are all there are. */
  method CancelAll(stored: map<Key, nat>, subs: seq<Subscription>, timers: map<nat, Timer>, ghost next: nat,
                   ks: seq<Key>)
    returns (left: map<nat, Timer>)
    requires Linked(stored, subs) && TimersAgree(stored, subs, timers, next)
    requires NoDuplicates(ks) && forall k :: k in ks <==> k in stored
    ensures left == map[]
  {
    left := timers;
    assert TimersWithout(timers, KeySet([])) == timers;
    for i := 0 to |ks|
      invariant left == TimersWithout(timers, KeySet(ks[..i]))
    {
      var k := ks[i];
      assert KeySet(ks[..i + 1]) == KeySet(ks[..i]) + {k};
      CancelNext(stored, subs, timers, next, KeySet(ks[..i]), k);
      var sub := subs[stored[k]];
      if sub.expiryHandle.Some? {
        left := left - {sub.expiryHandle.value};
      }
    }
    assert ks[..|ks|] == ks;
    assert forall h :: h in timers ==> timers[h].key in KeySet(ks);
  }

  /** Cancel the timer of the subscription stored at k, if it has one. */
  method CancelStored(m: Manager, k: Key) returns (left: map<nat, Timer>)
    requires k in m.TableOf(k).master.vals ==> m.TableOf(k).master.vals[k] < |m.subs|
    ensures left == Cancelled(m, k)
  {
    left := m.timers;
    var table := m.TableOf(k);
    if k in table.master.vals {
      var existing := m.subs[table.master.vals[k]];
      if existing.expiryHandle.Some? {
        left := left - {existing.expiryHandle.value};
      }
    }
  }

  /** File the subscription and start its timer. */
  method Install(m: Manager, left: map<nat, Timer>, rec: Record, terms: Terms) returns (m': Manager)
    ensures m' == InstalledWith(m, left, rec, terms)
  {
    var key, id := rec.key, |m.subs|;
    m' := m.WithTable(key, m.TableOf(key).Insert(key, id));
    m' := m'.(subs := m.subs + [Subscription(rec, terms, None)], timers := left);
    if terms.Limited() {
      m' := m'.(timers := m'.timers[m'.nextHandle := Timer(terms.Deadline(), key)],
                subs := m'.subs[id := m'.subs[id].(expiryHandle := Some(m'.nextHandle))]);
      m' := m'.(nextHandle := m'.nextHandle + 1);
    }
  }

  /** The steps of subscribing in their order: whatever is stored at the key loses its timer first. */
  method File(m: Manager, limits: Limits, rec: Record, terms: Terms) returns (m': Manager, error: Option<Error>)
    requires var k := rec.key; k in m.TableOf(k).master.vals ==> m.TableOf(k).master.vals[k] < |m.subs|
    ensures (m', error) == Filing(m, limits, rec, terms)
  {
    var left := CancelStored(m, rec.key);
    var table := m.TableOf(rec.key);
    if rec.key !in table.master.vals && |table.master.keys| >= limits.Of(rec.key) {
      return m.(timers := left), Some(NoSpace);
    }
    if terms.TooLong() {
      return m.(timers := left), Some(LifetimeTooLong);
    }
    m' := Install(m, left, rec, terms);
    return m', None;
  }

  lemma StoredIsMade(m: Manager, limits: Limits, k: Key)
    requires Valid(m, limits)
    ensures k in m.TableOf(k).master.vals ==> m.TableOf(k).master.vals[k] < |m.subs|
  {
    StoredAt(m, limits, k);
  }

  lemma FilingIsSafe(m: Manager, limits: Limits, rec: Record, terms: Terms)
    requires Valid(m, limits)
    ensures var k := rec.key; k in m.TableOf(k).master.vals ==> m.TableOf(k).master.vals[k] < |m.subs|
    ensures Valid(Filing(m, limits, rec, terms).0, limits)
  {
    StoredIsMade(m, limits, rec.key);
    if HasRoom(m, limits, rec.key) {
      InstalledIsValid(m, limits, rec, terms);
      DisarmedIsValid(m, limits, rec.key);
    }
  }

  /** A timer that fires belongs to the stored subscription that holds its handle, and to no other ever made. */
  lemma FiringIsRemoval(m: Manager, limits: Limits, h: nat)
    requires Valid(m, limits) && h in m.timers
    ensures var k := m.timers[h].key;
            && k in m.Stored()
            && m.subs[m.Stored()[k]].expiryHandle == Some(h)
            && (forall id :: 0 <= id < |m.subs| && m.subs[id].expiryHandle == Some(h) ==> id == m.Stored()[k])
            && (var terms := m.subs[m.Stored()[k]].terms;
                && terms.lifetime.Some? && terms.lifetime.value > 0
                && m.timers[h].deadline == terms.createdAt + terms.lifetime.value as real)
            && TimersWithout(m.timers, {k}) == m.timers - {h}
            && Valid(Removed(m, k, m.timers - {h}), limits)
            && Removed(m, k, m.timers - {h}).Stored() == m.Stored() - {k}
  {
    var k := m.timers[h].key;
    TimerOfKey(m.Stored(), m.subs, m.timers, m.nextHandle, k);
    RemovedIsValid(m, limits, k);
  }

  lemma ShutDownIsValid(m: Manager, limits: Limits)
    requires Valid(m, limits)
    ensures Valid(m.(objects := EmptyTable(), properties := EmptyTable(), timers := map[]), limits)
  {
    EmptyIsValid(limits);
  }

  /** File the subscription and hand its first notification to the application; one that cannot be built raises. */
  method FileAndSend(s: State, limits: Limits, rec: Record, terms: Terms, view: ObjectView)
    returns (s': State, error: Option<Error>)
    requires Valid(s.m, limits)
    ensures (s', error) == Subscribed(s, limits, rec, terms, view) && Valid(s'.m, limits)
  {
    FilingIsSafe(s.m, limits, rec, terms);
    var m: Manager;
    m, error := File(s.m, limits, rec, terms);
    s' := State(m, s.sent);
    if error.Some? {
      return;
    }
    if !CanReport(rec, view) {
      return s', Some(CannotReport);
    }
    s' := s'.(sent := s.sent + [Message(Subscription(rec, terms, None), view)]);
  }

  lemma UnsubscribingIsSafe(m: Manager, limits: Limits, k: Key)
    requires Valid(m, limits)
    ensures k in m.TableOf(k).master.vals ==> m.TableOf(k).master.vals[k] < |m.subs|
    ensures Cancelled(m, k) == TimersWithout(m.timers, {k}) && Valid(Removed(m, k, Cancelled(m, k)), limits)
  {
    StoredIsMade(m, limits, k);
    RemovedIsValid(m, limits, k);
    CancelledIsWithout(m, limits, k);
  }

  /** Cancel the timer of the subscription stored at k, and take k out of its master and its bucket. */
  method Withdraw(m: Manager, ghost limits: Limits, k: Key) returns (m': Manager)
    requires Valid(m, limits)
    ensures m' == Removed(m, k, TimersWithout(m.timers, {k})) && Valid(m', limits)
  {
    UnsubscribingIsSafe(m, limits, k);
    var left := CancelStored(m, k);
    m' := m.WithTable(k, m.TableOf(k).Remove(k)).(timers := left);
  }

  lemma CheckingIsSafe(m: Manager, limits: Limits, subs: seq<Subscription>)
    requires Valid(m, limits) && SameTerms(m.subs, subs)
    ensures Valid(m.(subs := subs), limits)
  {
    SameTermsKeepTimers(m.Stored(), m.subs, subs, m.timers, m.nextHandle);
  }

  class COVManager {
    const limits: Limits
    var objects: Table<nat>
    var properties: Table<nat>
    var subs: seq<Subscription>
    var timers: map<nat, Timer>
    var nextHandle: nat
    var sent: seq<Notification>

    ghost function Value(): State
      reads this
    {
      State(Manager(objects, properties, subs, timers, nextHandle), sent)
    }

    ghost predicate IsValid()
      reads this
    {
      Valid(Value().m, limits)
    }

    constructor (maxSubscriptions: nat := 1000, maxPropertySubscriptions: nat := 1000)
      ensures limits == Limits(maxSubscriptions, maxPropertySubscriptions)
      ensures IsValid() && Value() == State(EMPTY, [])
    {
      limits := Limits(maxSubscriptions, maxPropertySubscriptions);
      objects, properties := EMPTY.objects, EMPTY.properties;
      subs, timers, nextHandle, sent := [], map[], 0, [];
      EmptyIsValid(Limits(maxSubscriptions, maxPropertySubscriptions));
    }

    /** Store the changed tables, subscriptions and timers. */
    method Keep(m: Manager)
      modifies this
      ensures Value() == State(m, old(sent))
    {
      objects, properties, subs, timers, nextHandle := m.objects, m.properties, m.subs, m.timers, m.nextHandle;
    }

    /** The steps common to all ways to subscribe. */
    method Add(rec: Record, terms: Terms, view: ObjectView) returns (error: Option<Error>)
      requires IsValid()
      modifies this
      ensures IsValid()
      ensures (Value(), error) == Subscribed(old(Value()), limits, rec, terms, view)
    {
      var s := State(Manager(objects, properties, subs, timers, nextHandle), sent);
      s, error := FileAndSend(s, limits, rec, terms, view);
      Keep(s.m);
      sent := s.sent;
    }

    method SubscribeObject(subscriber: nat, process: nat, oid: nat, confirmed: Option<bool>, lifetime: Option<int>,
                           db: map<nat, ObjectView>, now: real)
      returns (error: Option<Error>)
      requires IsValid()
      modifies this
      ensures IsValid()
      ensures if oid !in db then error == Some(UnknownObject) && Value() == old(Value())
              else (Value(), error) ==
                   Subscribed(old(Value()), limits, ObjectRecord(subscriber, process, oid, db[oid]),
                              Terms(confirmed == Some(true), lifetime, now), db[oid])
    {
      if oid !in db {
        return Some(UnknownObject);
      }
      error := Add(ObjectRecord(subscriber, process, oid, db[oid]),
                   Terms(confirmed == Some(true), lifetime, now), db[oid]);
    }

    method SubscribeProperty(subscriber: nat, process: nat, oid: nat, ref: Reference, confirmed: Option<bool>,
                             lifetime: Option<int>, db: map<nat, ObjectView>, now: real)
      returns (error: Option<Error>)
      requires IsValid()
      modifies this
      ensures IsValid()
      ensures if oid !in db then error == Some(UnknownObject) && Value() == old(Value())
              else (Value(), error) ==
                   Subscribed(old(Value()), limits, PropertyRecord(subscriber, process, oid, ref, db[oid]),
                              Terms(confirmed == Some(true), lifetime, now), db[oid])
    {
      if oid !in db {
        return Some(UnknownObject);
      }
      error := Add(PropertyRecord(subscriber, process, oid, ref, db[oid]),
                   Terms(confirmed == Some(true), lifetime, now), db[oid]);
    }

    /** The inner loop: the references to one object, with the items that come after them. */
    method SubscribeReferences(subscriber: nat, process: nat, oid: nat, refs: seq<Reference>, terms: Terms,
                               db: map<nat, ObjectView>, ghost later: seq<Item>)
      returns (error: Option<Error>)
      requires IsValid() && oid in db
      modifies this
      ensures IsValid()
      ensures var items := ItemsOf(oid, refs) + later;
              var answer := SubscribedEach(old(Value()), limits, subscriber, process, terms, db, items);
              if error.Some? then answer == (Value(), error)
              else answer == SubscribedEach(Value(), limits, subscriber, process, terms, db, later)
    {
      ghost var answer := SubscribedEach(Value(), limits, subscriber, process, terms, db, ItemsOf(oid, refs) + later);
      for j := 0 to |refs|
        invariant IsValid()
        invariant answer ==
                  SubscribedEach(Value(), limits, subscriber, process, terms, db, ItemsOf(oid, refs[j..]) + later)
      {
        ghost var rest := ItemsOf(oid, refs[j + 1..]) + later;
        assert refs[j..][1..] == refs[j + 1..];
        assert ItemsOf(oid, refs[j..]) + later == [Subscribe(oid, refs[j])] + rest;
        EachCons(Value(), limits, subscriber, process, terms, db, Subscribe(oid, refs[j]), rest);
        error := Add(PropertyRecord(subscriber, process, oid, refs[j], db[oid]), terms, db[oid]);
        if error.Some? {
          return;
        }
      }
      assert ItemsOf(oid, refs[|refs|..]) + later == later;
      return None;
    }

    /** A request that raises part way keeps what it has subscribed so far. */
    method SubscribePropertyMultiple(subscriber: nat, process: nat, specs: seq<Spec>, confirmed: Option<bool>,
                                     lifetime: Option<int>, db: map<nat, ObjectView>, now: real)
      returns (error: Option<Error>)
      requires IsValid()
      modifies this
      ensures IsValid()
      ensures (Value(), error) ==
              SubscribedEach(old(Value()), limits, subscriber, process,
                             Terms(confirmed == Some(true), lifetime, now), db, Items(specs))
    {
      var terms := Terms(confirmed == Some(true), lifetime, now);
      ghost var answer := SubscribedEach(Value(), limits, subscriber, process, terms, db, Items(specs));
      for i := 0 to |specs|
        invariant IsValid()
        invariant answer == SubscribedEach(Value(), limits, subscriber, process, terms, db, Items(specs[i..]))
      {
        var oid := specs[i].oid;
        assert specs[i..][1..] == specs[i + 1..];
        ghost var rest := ItemsOf(oid, specs[i].refs) + Items(specs[i + 1..]);
        assert Items(specs[i..]) == [Lookup(oid)] + rest;
        if oid !in db {
          return Some(UnknownObject);
        }
        EachCons(Value(), limits, subscriber, process, terms, db, Lookup(oid), rest);
        error := SubscribeReferences(subscriber, process, oid, specs[i].refs, terms, db, Items(specs[i + 1..]));
        if error.Some? {
          return;
        }
      }
      return None;
    }

    /** Take a key out of its master and its bucket, and the bucket away when it is empty. */
    method Discard(key: Key)
      modifies this
      ensures Value() == old(Value()).(m := Removed(old(Value().m), key, old(timers)))
    {
      if key.ObjectKey? {
        objects := objects.Remove(key);
      } else {
        properties := properties.Remove(key);
      }
    }

    /** Cancellation, of an object or of a property subscription; unknown keys are ignored. */
    method Unsubscribe(key: Key)
      requires IsValid()
      modifies this
      ensures IsValid()
      ensures Value() == old(Value()).(m := Removed(old(Value().m), key, TimersWithout(old(timers), {key})))
    {
      var m := Withdraw(Manager(objects, properties, subs, timers, nextHandle), limits, key);
      Keep(m);
    }

    /** The event loop runs a due timer: it takes the timer off its list and calls back with the timer's key. */
    method RunTimer(handle: nat, now: real)
      requires IsValid() && handle in timers && timers[handle].deadline <= now
      modifies this
      ensures IsValid()
      ensures Value() == old(Value()).(m := Removed(old(Value().m), old(timers)[handle].key, old(timers) - {handle}))
    {
      var key := timers[handle].key;
      ghost var before := Value().m;
      FiringIsRemoval(before, limits, handle);
      timers := timers - {handle};
      Discard(key);
    }

    method RemoveObjectSubscriptions(oid: nat)
      requires IsValid()
      modifies this
      ensures IsValid()
      ensures Value() == old(Value()).(m := ObjectRemoved(old(Value().m), oid))
    {
      var m := Manager(objects, properties, subs, timers, nextHandle);
      ObjectRemovedIsValid(m, limits, oid);
      m := DropObject(m, limits, oid);
      Keep(m);
    }

    /** Cancel every timer and forget every subscription. */
    method Shutdown()
      requires IsValid()
      modifies this
      ensures IsValid()
      ensures var m := old(Value().m);
              Value() ==
              old(Value()).(m := m.(objects := EmptyTable(), properties := EmptyTable(), timers := map[]))
    {
      ghost var before := Value().m;
      AllKeysAreStored(before, limits);
      ShutDownIsValid(before, limits);
      var left := CancelAll(objects.master.vals + properties.master.vals, subs, timers, nextHandle,
                            objects.master.keys + properties.master.keys);
      objects, properties, timers := EmptyTable(), EmptyTable(), left;
    }

    /**
     * The check after a write: it sends to exactly the subscriptions that a scan of both whole
     * tables picks, in that order, and leaves tables and timers alone.
     */
    method CheckAndNotify(view: ObjectView, property: nat) returns (completed: bool)
      requires IsValid()
      modifies this
      ensures IsValid()
      ensures var m, s := old(Value().m), CheckScan(old(Value().m), limits, view, property);
              && Value().m == m.(subs := subs)
              && SameTerms(m.subs, subs)
              && Linked(m.Stored(), subs)
              && Remembered(m.Stored(), subs) == s.records
              && completed == s.completed
              && (forall k :: k in s.notified ==> k in m.Stored())
              && sent == old(sent) + Messages(m.Stored(), m.subs, s.notified, view)
    {
      var m := Manager(objects, properties, subs, timers, nextHandle);
      var o := CheckBuckets(m, limits, view, property);
      CheckingIsSafe(m, limits, o.subs);
      subs, sent := o.subs, sent + o.messages;
      return o.completed;
    }
  }
}
