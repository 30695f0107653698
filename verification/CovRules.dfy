/**
 * The notification rules of the COV manager (Clause 13.1) on values: what a subscription
 * remembers, when it is notified, and what a scan of many subscriptions does.
 */
module CovRules {
  import opened Prelude
  import opened CovTables

  const STATUS_FLAGS := 111
  const COV_INCREMENT := 22

  /** The least number that the encoder of unsigned values refuses. */
  const UNSIGNED_LIMIT := 0x1_0000_0000

  /** A property value as COV sees it; what cannot be read counts as absent. */
  datatype Value = Absent | Number(r: real) | Other(id: int)

  /**
   * A monitored object at the moment it is looked at, with what raises then: the encoder refuses
   * the values of the references in `refused` (numbers out of its range, say), or they are not
   * properties of the enumeration; no notification can be handed over for the subscriptions in
   * `undeliverable`, whatever its value (the time that remains does not fit, say); and comparing
   * with what the subscriptions in `incomparable` remember raises.
   */
  datatype ObjectView = ObjectView(
    oid: nat,
    analog: bool,
    properties: map<(nat, Option<nat>), Value>,
    refused: set<(nat, Option<nat>)>,
    undeliverable: set<Key>,
    incomparable: set<Key>)
  {
    function Read(property: nat, arrayIndex: Option<nat>): Value {
      if (property, arrayIndex) in properties then properties[(property, arrayIndex)] else Absent
    }

    function PresentValue(): Value {
      Read(PRESENT_VALUE, None)
    }

    function StatusFlags(): Value {
      Read(STATUS_FLAGS, None)
    }

    function CovIncrement(): Option<real> {
      var v := Read(COV_INCREMENT, None);
      if v.Number? then Some(v.r) else None
    }
  }

  /** What a subscription remembers: its own increment, and what it last reported. */
  datatype Record = Record(key: Key, increment: Option<real>, lastValue: Value, lastFlags: Value)

  function Changed(last: Value, current: Value, analog: bool, increment: Option<real>): bool {
    if current == last then false
    else if analog && increment.Some? && increment.value > 0.0 && last.Number? && current.Number? then
      Abs(current.r - last.r) >= increment.value
    else true
  }

  function Threshold(rec: Record, view: ObjectView): Option<real> {
    if rec.key.PropertyKey? && rec.increment.Some? then rec.increment else view.CovIncrement()
  }

  /** The property a subscription watches. */
  function Target(k: Key): (nat, Option<nat>) {
    if k.ObjectKey? then (PRESENT_VALUE, None) else (k.property, k.arrayIndex)
  }

  function Watched(rec: Record, view: ObjectView): Value {
    view.Read(Target(rec.key).0, Target(rec.key).1)
  }

  /** A notification to the subscription can be built and handed over. */
  predicate CanReport(rec: Record, view: ObjectView) {
    rec.key.process < UNSIGNED_LIMIT && Target(rec.key) !in view.refused && rec.key !in view.undeliverable
  }

  /** The value has changed enough since it was last reported. */
  predicate ValueFires(rec: Record, view: ObjectView) {
    Changed(rec.lastValue, Watched(rec, view), view.analog, Threshold(rec, view))
  }

  predicate ShouldNotify(rec: Record, view: ObjectView) {
    (rec.key.ObjectKey? && view.StatusFlags() != rec.lastFlags) || ValueFires(rec, view)
  }

  /** Looking at the subscription raises: comparing does, or its rule fires and it cannot be notified. */
  predicate Breaks(rec: Record, view: ObjectView) {
    rec.key in view.incomparable || (ShouldNotify(rec, view) && !CanReport(rec, view))
  }

  /** What the subscription remembers after reporting the object as it is. */
  function Updated(rec: Record, view: ObjectView): Record {
    if rec.key.ObjectKey? then rec.(lastValue := Watched(rec, view), lastFlags := view.StatusFlags())
    else rec.(lastValue := Watched(rec, view))
  }

  datatype Notification = Notification(key: Key, confirmed: bool, value: Value, flags: Value)

  // --- Scans -----------------------------------------------------------------

  type Records = map<Key, Record>

  /** A write to `property` of the viewed object concerns this subscription. */
  predicate Concerns(k: Key, view: ObjectView, property: nat) {
    k.oid == view.oid && (k.PropertyKey? ==> k.property == property)
  }

  /** What a scan did: the keys notified, in order, the records after it, and whether it ran to its end. */
  datatype Scanned = Scanned(notified: seq<Key>, records: Records, completed: bool)

  /** The scan breaks off at this key. */
  predicate Stops(k: Key, rs: Records, view: ObjectView, property: nat)
    requires k in rs
  {
    Concerns(k, view, property) && Breaks(rs[k], view)
  }

  /** The records after looking at a key that does not stop the scan. */
  function LookedAt(k: Key, rs: Records, view: ObjectView, property: nat): Records
    requires k in rs
  {
    if Concerns(k, view, property) && ShouldNotify(rs[k], view) then rs[k := Updated(rs[k], view)] else rs
  }

  /** Look at all the keys in order, whatever object they are for, up to the first that raises. */
  function FullScan(keys: seq<Key>, rs: Records, view: ObjectView, property: nat): Scanned
    requires forall k :: k in keys ==> k in rs
    decreases |keys|
  {
    if keys == [] then Scanned([], rs, true)
    else
      var k := keys[0];
      if Stops(k, rs, view, property) then Scanned([], rs, false)
      else if !Concerns(k, view, property) || !ShouldNotify(rs[k], view) then FullScan(keys[1..], rs, view, property)
      else
        var rest := FullScan(keys[1..], rs[k := Updated(rs[k], view)], view, property);
        rest.(notified := [k] + rest.notified)
  }

  /** A bucket holds all the keys of its table that a write can concern, so scanning it is enough. */
  lemma {:induction false} BucketScanIsFullScan(keys: seq<Key>, rs: Records, view: ObjectView, property: nat, g: Group)
    requires forall k :: k in keys ==> k in rs
    requires forall k :: k in keys ==> (Concerns(k, view, property) <==> GroupOf(k) == g)
    ensures forall k :: k in Filter(keys, g) ==> k in rs
    ensures FullScan(Filter(keys, g), rs, view, property) == FullScan(keys, rs, view, property)
    decreases |keys|
  {
    FilterContents(keys, g);
    if keys == [] {
    } else {
      var k, rest := keys[0], keys[1..];
      assert keys == [k] + rest;
      if !Stops(k, rs, view, property) {
        var rs' := LookedAt(k, rs, view, property);
        BucketScanIsFullScan(rest, rs', view, property, g);
      }
      if GroupOf(k) == g {
        assert Filter(keys, g)[1..] == Filter(rest, g);
      }
    }
  }

  /** Scanning one list after another is scanning them together, unless the first scan is cut short. */
  lemma {:induction false} ScanConcat(a: seq<Key>, b: seq<Key>, rs: Records, view: ObjectView, property: nat)
    requires forall k :: k in a || k in b ==> k in rs
    ensures var s := FullScan(a, rs, view, property);
            && (forall k :: k in b ==> k in s.records)
            && FullScan(a + b, rs, view, property) ==
               if !s.completed then s
               else var t := FullScan(b, s.records, view, property);
                    Scanned(s.notified + t.notified, t.records, t.completed)
    decreases |a|
  {
    if a == [] {
      assert a + b == b;
    } else {
      var k, rest := a[0], a[1..];
      assert a == [k] + rest && (a + b)[1..] == rest + b;
      if !Stops(k, rs, view, property) {
        var rs' := LookedAt(k, rs, view, property);
        ScanConcat(rest, b, rs', view, property);
      }
    }
  }

  /** Which keys a scan picks, judged by the records before it. */
  function Picked(keys: seq<Key>, rs: Records, view: ObjectView, property: nat): seq<Key>
    requires forall k :: k in keys ==> k in rs
  {
    if keys == [] then []
    else (if Concerns(keys[0], view, property) && ShouldNotify(rs[keys[0]], view) then [keys[0]] else [])
         + Picked(keys[1..], rs, view, property)
  }

  /** The keys before the first that stops the scan. */
  function Reached(keys: seq<Key>, rs: Records, view: ObjectView, property: nat): (r: seq<Key>)
    requires forall k :: k in keys ==> k in rs
    ensures r <= keys && forall k :: k in r ==> k in keys
  {
    if keys == [] || Stops(keys[0], rs, view, property) then []
    else
      assert keys == [keys[0]] + keys[1..];
      [keys[0]] + Reached(keys[1..], rs, view, property)
  }

  lemma {:induction false} ReachedByStops(keys: seq<Key>, rs: Records, rs': Records, view: ObjectView, property: nat)
    requires forall k :: k in keys ==> k in rs && k in rs'
    requires forall k :: k in keys ==> (Stops(k, rs, view, property) <==> Stops(k, rs', view, property))
    ensures Reached(keys, rs, view, property) == Reached(keys, rs', view, property)
  {
    if keys == [] {
    } else {
      assert keys == [keys[0]] + keys[1..];
      ReachedByStops(keys[1..], rs, rs', view, property);
    }
  }

  lemma {:induction false} NotifiedAreScanned(keys: seq<Key>, rs: Records, view: ObjectView, property: nat)
    requires forall k :: k in keys ==> k in rs
    ensures forall k :: k in FullScan(keys, rs, view, property).notified ==> k in keys
    decreases |keys|
  {
    if keys == [] {
    } else {
      var k, rest := keys[0], keys[1..];
      assert keys == [k] + rest;
      NotifiedAreScanned(rest, rs, view, property);
      NotifiedAreScanned(rest, rs[k := Updated(rs[k], view)], view, property);
    }
  }

  lemma {:induction false} PickedIgnoresOthers(keys: seq<Key>, rs: Records, rs': Records, view: ObjectView,
                                               property: nat)
    requires forall k :: k in keys ==> k in rs && k in rs' && rs[k] == rs'[k]
    ensures Picked(keys, rs, view, property) == Picked(keys, rs', view, property)
  {
    if keys == [] {
    } else {
      assert keys == [keys[0]] + keys[1..];
      PickedIgnoresOthers(keys[1..], rs, rs', view, property);
    }
  }

  /**
   * A scan notifies exactly the concerned subscriptions before the first that stops it whose
   * rule fires, in order, and updates exactly those; it completes when nothing stops it.
   */
  lemma {:induction false} ScanPicksByRule(keys: seq<Key>, rs: Records, view: ObjectView, property: nat)
    requires forall k :: k in keys ==> k in rs
    requires NoDuplicates(keys)
    ensures var s, reached := FullScan(keys, rs, view, property), Reached(keys, rs, view, property);
            && s.records.Keys == rs.Keys
            && (s.completed <==> reached == keys)
            && s.notified == Picked(reached, rs, view, property)
            && forall k :: k in rs ==>
                 s.records[k] == if k in s.notified then Updated(rs[k], view) else rs[k]
    decreases |keys|
  {
    if keys == [] {
    } else {
      var k, rest := keys[0], keys[1..];
      assert keys == [k] + rest;
      assert k !in rest;
      if !Stops(k, rs, view, property) {
        var rs' :=
          if Concerns(k, view, property) && ShouldNotify(rs[k], view) then rs[k := Updated(rs[k], view)] else rs;
        ScanPicksByRule(rest, rs', view, property);
        NotifiedAreScanned(rest, rs', view, property);
        ReachedByStops(rest, rs, rs', view, property);
        PickedIgnoresOthers(Reached(rest, rs, view, property), rs, rs', view, property);
        assert Reached(keys, rs, view, property)[1..] == Reached(rest, rs, view, property);
      }
    }
  }

  lemma {:induction false} ReachedPrefix(keys: seq<Key>, rs: Records, view: ObjectView, property: nat)
    requires forall k :: k in keys ==> k in rs
    ensures var n := |Reached(keys, rs, view, property)|;
            && (forall j :: 0 <= j < n ==> !Stops(keys[j], rs, view, property))
            && (n < |keys| ==> Stops(keys[n], rs, view, property))
  {
    if keys == [] {
    } else {
      var rest := keys[1..];
      assert keys == [keys[0]] + rest;
      ReachedPrefix(rest, rs, view, property);
      forall j | 0 <= j < |Reached(keys, rs, view, property)|
        ensures !Stops(keys[j], rs, view, property)
      {
        assert j > 0 ==> keys[j] == rest[j - 1];
      }
    }
  }

  /** A key is reached exactly when neither it nor any key ahead of it stops the scan. */
  lemma {:induction false} ReachedExactly(keys: seq<Key>, rs: Records, view: ObjectView, property: nat, i: nat)
    requires (forall k :: k in keys ==> k in rs) && NoDuplicates(keys) && i < |keys|
    ensures keys[i] in Reached(keys, rs, view, property) <==>
            forall j :: 0 <= j <= i ==> !Stops(keys[j], rs, view, property)
  {
    ReachedPrefix(keys, rs, view, property);
    var n := |Reached(keys, rs, view, property)|;
    assert Reached(keys, rs, view, property) == keys[..n];
    assert i < n ==> keys[..n][i] == keys[i];
  }

  /** A subscription that has just reported the object as it is has nothing more to report. */
  lemma ReportedIsQuiet(rec: Record, view: ObjectView)
    ensures !ShouldNotify(Updated(rec, view), view)
  {
  }

  lemma {:induction false} ReachedDoNotStop(keys: seq<Key>, rs: Records, view: ObjectView, property: nat)
    requires forall k :: k in keys ==> k in rs
    ensures forall k :: k in Reached(keys, rs, view, property) ==> !Stops(k, rs, view, property)
  {
    if keys == [] {
    } else {
      assert keys == [keys[0]] + keys[1..];
      ReachedDoNotStop(keys[1..], rs, view, property);
    }
  }

  lemma {:induction false} PickedContents(keys: seq<Key>, rs: Records, view: ObjectView, property: nat)
    requires forall k :: k in keys ==> k in rs
    ensures forall k :: k in Picked(keys, rs, view, property) <==>
              k in keys && Concerns(k, view, property) && ShouldNotify(rs[k], view)
  {
    if keys == [] {
    } else {
      assert keys == [keys[0]] + keys[1..];
      PickedContents(keys[1..], rs, view, property);
    }
  }

  lemma {:induction false} QuietScan(keys: seq<Key>, rs: Records, view: ObjectView, property: nat)
    requires forall k :: k in keys ==> k in rs
    requires forall k :: k in Reached(keys, rs, view, property) && Concerns(k, view, property) ==>
               !ShouldNotify(rs[k], view)
    ensures FullScan(keys, rs, view, property) == Scanned([], rs, Reached(keys, rs, view, property) == keys)
  {
    if keys == [] || Stops(keys[0], rs, view, property) {
    } else {
      assert keys == [keys[0]] + keys[1..];
      assert Reached(keys, rs, view, property)[1..] == Reached(keys[1..], rs, view, property);
      assert keys[0] in Reached(keys, rs, view, property);
      QuietScan(keys[1..], rs, view, property);
    }
  }

  /** Checking again, with the object unchanged, sends nothing and changes nothing, even if it breaks off. */
  lemma {:induction false} SecondScanIsSilent(keys: seq<Key>, rs: Records, view: ObjectView, property: nat)
    requires forall k :: k in keys ==> k in rs
    requires NoDuplicates(keys)
    ensures var s := FullScan(keys, rs, view, property);
            && (forall k :: k in keys ==> k in s.records)
            && FullScan(keys, s.records, view, property) == Scanned([], s.records, s.completed)
  {
    var s, reached := FullScan(keys, rs, view, property), Reached(keys, rs, view, property);
    ScanPicksByRule(keys, rs, view, property);
    PickedContents(reached, rs, view, property);
    ReachedDoNotStop(keys, rs, view, property);
    forall k | k in s.notified
      ensures !ShouldNotify(s.records[k], view)
    {
      ReportedIsQuiet(rs[k], view);
    }
    ReachedByStops(keys, rs, s.records, view, property);
    QuietScan(keys, s.records, view, property);
  }

  /** A scan notifies no key twice. */
  lemma {:induction false} NotifiedOnce(keys: seq<Key>, rs: Records, view: ObjectView, property: nat)
    requires forall k :: k in keys ==> k in rs
    requires NoDuplicates(keys)
    ensures NoDuplicates(FullScan(keys, rs, view, property).notified)
    decreases |keys|
  {
    if keys == [] {
    } else {
      var k, rest := keys[0], keys[1..];
      assert keys == [k] + rest && k !in rest;
      NotifiedOnce(rest, rs, view, property);
      if Concerns(k, view, property) && ShouldNotify(rs[k], view) {
        var rs' := rs[k := Updated(rs[k], view)];
        NotifiedOnce(rest, rs', view, property);
        NotifiedAreScanned(rest, rs', view, property);
        ConsNoDuplicates(k, FullScan(rest, rs', view, property).notified);
      }
    }
  }

  /** Looking at object subscription i, and at those to its object before it, raises nothing. */
  ghost predicate Unhindered(keys: seq<Key>, rs: Records, view: ObjectView, i: nat) {
    forall j :: 0 <= j <= i && j < |keys| && keys[j].oid == view.oid ==> keys[j] in rs && !Breaks(rs[keys[j]], view)
  }

  /** An object subscription is reached exactly when nothing up to it raises: they are looked at first. */
  lemma ObjectIsReached(a: seq<Key>, b: seq<Key>, rs: Records, view: ObjectView, property: nat, i: nat)
    requires (forall k :: k in a + b ==> k in rs) && NoDuplicates(a + b) && i < |a|
    requires forall k :: k in a ==> k.ObjectKey?
    ensures a[i] in Reached(a + b, rs, view, property) <==> Unhindered(a, rs, view, i)
  {
    ReachedExactly(a + b, rs, view, property, i);
    forall j | 0 <= j <= i
      ensures Stops((a + b)[j], rs, view, property) <==> a[j].oid == view.oid && Breaks(rs[a[j]], view)
    {
      assert (a + b)[j] == a[j] && a[j] in a;
    }
  }

  // --- The rule in plain terms ---------------------------------------------------

  /** What a subscription is about: the present value of its object, or its own property. */
  ghost function Subject(k: Key, view: ObjectView): Value {
    if k.PropertyKey? then view.Read(k.property, k.arrayIndex) else view.Read(85, None)
  }

  /** c is the increment that counts: the subscription's own, if it is to a property and has one, or the object's. */
  ghost predicate IsIncrement(rec: Record, view: ObjectView, c: real) {
    || (rec.key.PropertyKey? && rec.increment == Some(c))
    || (!(rec.key.PropertyKey? && rec.increment.Some?) && view.Read(22, None) == Number(c))
  }

  /** The two values are numbers less than c apart. */
  ghost predicate Within(a: Value, b: Value, c: real) {
    a.Number? && b.Number? && b.r - c < a.r < b.r + c
  }

  /** There is something to report: other status flags, or another value that is not within the increment. */
  ghost predicate IsNews(rec: Record, view: ObjectView) {
    var now := Subject(rec.key, view);
    || (rec.key.ObjectKey? && view.Read(111, None) != rec.lastFlags)
    || (now != rec.lastValue
        && !(view.analog && exists c :: IsIncrement(rec, view, c) && c > 0.0 && Within(rec.lastValue, now, c)))
  }

  lemma NewsIsReported(rec: Record, view: ObjectView)
    ensures ShouldNotify(rec, view) <==> IsNews(rec, view)
  {
    var threshold := Threshold(rec, view);
    forall c
      ensures IsIncrement(rec, view, c) <==> threshold == Some(c)
    {
    }
    assert threshold.Some? ==> IsIncrement(rec, view, threshold.value);
  }

  /** A binary, multistate or incrementless subscription has news exactly when its value or flags are other ones. */
  lemma AnyChangeIsNews(rec: Record, view: ObjectView)
    requires !view.analog || forall c :: IsIncrement(rec, view, c) ==> c <= 0.0
    ensures IsNews(rec, view) <==>
              || Subject(rec.key, view) != rec.lastValue
              || (rec.key.ObjectKey? && view.Read(111, None) != rec.lastFlags)
  {
  }

  /** What makes a check raise at a subscription. */
  lemma BreaksExactly(rec: Record, view: ObjectView)
    ensures Breaks(rec, view) <==>
              || rec.key in view.incomparable
              || (IsNews(rec, view)
                  && (rec.key.process >= 4294967296 || rec.key in view.undeliverable
                      || (if rec.key.PropertyKey? then (rec.key.property, rec.key.arrayIndex) in view.refused
                          else (85, None) in view.refused)))
  {
    NewsIsReported(rec, view);
  }

  /** Whether a check notifies key k, given the records before it. */
  ghost predicate Notifies(keys: seq<Key>, rs: Records, view: ObjectView, property: nat, k: Key)
    requires (forall k :: k in keys ==> k in rs) && k in rs
  {
    k in Reached(keys, rs, view, property) && Concerns(k, view, property) && ShouldNotify(rs[k], view)
  }

  /** What a scan does to one subscription. */
  lemma ScanOfOne(keys: seq<Key>, rs: Records, view: ObjectView, property: nat, k: Key)
    requires NoDuplicates(keys) && (forall k :: k in keys ==> k in rs) && k in rs
    ensures var s, hit := FullScan(keys, rs, view, property), Notifies(keys, rs, view, property, k);
            && k in s.records
            && (k in s.notified <==> hit)
            && s.records[k] == if hit then Updated(rs[k], view) else rs[k]
  {
    ScanPicksByRule(keys, rs, view, property);
    PickedContents(Reached(keys, rs, view, property), rs, view, property);
  }

  /**
   * What a scan does to subscription k in plain terms: it is notified if and only if the scan gets
   * as far, the write is to its object, and to its property if it is to one, and there is news for
   * it; then it remembers what the object is like, and otherwise what it did before.
   */
  lemma ScanReportsNews(keys: seq<Key>, rs: Records, view: ObjectView, property: nat, k: Key)
    requires NoDuplicates(keys) && (forall k :: k in keys ==> k in rs) && k in rs && rs[k].key == k
    ensures var s := FullScan(keys, rs, view, property);
            && k in s.records
            && (k in s.notified <==>
                  && k in Reached(keys, rs, view, property)
                  && k.oid == view.oid && (k.PropertyKey? ==> k.property == property)
                  && IsNews(rs[k], view))
            && (k !in s.notified ==> s.records[k] == rs[k])
            && (k in s.notified ==>
                  && s.records[k].key == k && s.records[k].increment == rs[k].increment
                  && s.records[k].lastValue == Subject(k, view)
                  && s.records[k].lastFlags == if k.ObjectKey? then view.Read(111, None) else rs[k].lastFlags)
  {
    ScanOfOne(keys, rs, view, property, k);
    NewsIsReported(rs[k], view);
  }

  /** After a scan that came to its end, what is not analog is remembered exactly as it is. */
  lemma CompletedIsExact(keys: seq<Key>, rs: Records, view: ObjectView, property: nat, k: Key)
    requires NoDuplicates(keys) && (forall k :: k in keys ==> k in rs) && k in keys && rs[k].key == k
    requires FullScan(keys, rs, view, property).completed && !view.analog
    requires k.oid == view.oid && (k.PropertyKey? ==> k.property == property)
    ensures var s := FullScan(keys, rs, view, property);
            && k in s.records && s.records[k].lastValue == Subject(k, view)
            && (k.ObjectKey? ==> s.records[k].lastFlags == view.Read(111, None))
  {
    ScanPicksByRule(keys, rs, view, property);
    ScanReportsNews(keys, rs, view, property, k);
    AnyChangeIsNews(rs[k], view);
  }

  /** Notifications go out in the order of the keys. */
  lemma {:induction false} NotifiedInOrder(keys: seq<Key>, rs: Records, view: ObjectView, property: nat)
    requires forall k :: k in keys ==> k in rs
    ensures Subsequence(FullScan(keys, rs, view, property).notified, keys)
    decreases |keys|
  {
    if keys == [] {
    } else {
      var k, rest := keys[0], keys[1..];
      assert keys == [k] + rest;
      NotifiedInOrder(rest, rs, view, property);
      var rs' := rs[k := Updated(rs[k], view)];
      NotifiedInOrder(rest, rs', view, property);
      var notified := FullScan(rest, rs', view, property).notified;
      assert ([k] + notified)[1..] == notified;
    }
  }

  // --- The increment rule: one check of one subscription ----------------------

  /** A check gets as far as k, or its value has not changed enough. */
  ghost predicate Served(keys: seq<Key>, rs: Records, view: ObjectView, property: nat, k: Key)
    requires (forall k :: k in keys ==> k in rs) && k in rs
  {
    k in Reached(keys, rs, view, property) || !ValueFires(rs[k], view)
  }

  /** What is seen of an analog subscription with increment c. */
  ghost predicate AnalogView(rec: Record, view: ObjectView, c: real) {
    view.analog && Watched(rec, view).Number? && Threshold(rec, view) == Some(c)
  }

  /** Status flags count for object subscriptions only. */
  ghost function FlagChange(k: Key, before: Value, after: Value): nat {
    if k.ObjectKey? && before != after then 1 else 0
  }

  /**
   * The bound, for a subscription as it has become, where `spare` is the notifications it was sent
   * less the changes of the status flags seen, and `flags` are those seen last: each notification
   * beyond one for each change has cost an increment of travel.  A change not yet reported is
   * still to be paid for.
   */
  ghost predicate RateBound(rec0: Record, rec: Record, vs: seq<real>, flags: Value, spare: int, c: real) {
    && vs != []
    && rec.lastValue.Number? && rec == rec0.(lastValue := rec.lastValue, lastFlags := rec.lastFlags)
    && Scale(spare + FlagChange(rec.key, rec.lastFlags, flags), c) + Abs(vs[|vs| - 1] - rec.lastValue.r)
       <= Variation(vs)
  }

  /** The value last reported is less than an increment away from the present one. */
  ghost predicate Fresh(rec: Record, vs: seq<real>, c: real) {
    vs != [] && rec.lastValue.Number? && Abs(vs[|vs| - 1] - rec.lastValue.r) < c
  }

  /** One notification more, or less, weighs an increment. */
  lemma ScaleAround(n: int, n': int, c: real)
    requires c > 0.0 && n - 2 <= n' <= n + 1
    ensures Scale(n', c) <= if n' == n + 1 then Scale(n, c) + c else Scale(n, c)
  {
    ScaleSucc(n, c);
    ScaleSucc(n - 1, c);
    ScaleSucc(n - 2, c);
  }

  /** Travel from `prev` to v, with what was paid before, covers what one check sends and the new distance. */
  lemma CheckIsPaidFor(n: int, n': int, c: real, last: real, last': real, prev: real, v: real, spent: real)
    requires c > 0.0 && n - 2 <= n' <= n + 1
    requires Scale(n, c) + Abs(prev - last) <= spent
    requires n' == n + 1 ==> last' == v && Abs(v - last) >= c
    requires last' == v || last' == last
    ensures Scale(n', c) + Abs(v - last') <= spent + Abs(v - prev)
  {
    ScaleAround(n, n', c);
  }

  /** One check, which may fail to reach the subscription. */
  lemma RateStep(rec0: Record, rec: Record, vs: seq<real>, flags: Value, spare: int, c: real, view: ObjectView,
                 hit: bool)
    requires RateBound(rec0, rec, vs, flags, spare, c)
    requires c > 0.0 && AnalogView(rec, view, c)
    requires hit ==> ShouldNotify(rec, view)
    ensures var rec', vs' := if hit then Updated(rec, view) else rec, vs + [Watched(rec, view).r];
            var flags' := view.StatusFlags();
            && RateBound(rec0, rec', vs', flags',
                         spare + (if hit then 1 else 0) - FlagChange(rec.key, flags, flags'), c)
            && (Fresh(rec', vs', c) <==> hit || !ValueFires(rec, view))
  {
    var v, flags' := Watched(rec, view).r, view.StatusFlags();
    var rec', vs' := if hit then Updated(rec, view) else rec, vs + [v];
    assert vs'[..|vs|] == vs;
    var n := spare + FlagChange(rec.key, rec.lastFlags, flags);
    var n' := spare + (if hit then 1 else 0) - FlagChange(rec.key, flags, flags')
              + FlagChange(rec.key, rec'.lastFlags, flags');
    CheckIsPaidFor(n, n', c, rec.lastValue.r, rec'.lastValue.r, vs[|vs| - 1], v, Variation(vs));
  }

  /**
   * A check that is cut short leaves subscriptions stale: the encoder refuses the present value p
   * (a number out of its range), so the object subscription o raises, and the property
   * subscription k behind it keeps its old value as well, however far off that is.
   */
  lemma CutShortCheckGoesStale(o: Key, k: Key, rs: Records, view: ObjectView, p: real, v: real)
    requires o.ObjectKey? && k == PropertyKey(7, 1, o.oid, 99, None) && Abs(p) >= 1.0
    requires rs == map[o := Record(o, None, Number(0.0), Absent), k := Record(k, Some(1.0), Number(0.0), Absent)]
    requires view == ObjectView(o.oid, true,
                                map[(PRESENT_VALUE, None) := Number(p), (99, None) := Number(v),
                                    (COV_INCREMENT, None) := Number(1.0)],
                                {(PRESENT_VALUE, None)}, {}, {})
    ensures AnalogView(rs[o], view, 1.0) && AnalogView(rs[k], view, 1.0)
    ensures FullScan([o, k], rs, view, 99) == Scanned([], rs, false)
    ensures !Fresh(rs[o], [0.0, p], 1.0)
    ensures Abs(v) >= 1.0 ==> !Fresh(rs[k], [0.0, v], 1.0) && !Served([o, k], rs, view, 99, k)
  {
    assert Stops(o, rs, view, 99);
  }

  /**
   * So does a subscription whose process identifier takes five octets: it was stored before its
   * first notification raised, and from then on the check of every change raises at it, however
   * well the value p encodes for the subscription k behind it.
   */
  lemma OversizedProcessGoesStale(o: Key, k: Key, rs: Records, view: ObjectView, p: real)
    requires o == ObjectKey(7, UNSIGNED_LIMIT, 3) && k == ObjectKey(8, 1, 3) && Abs(p) >= 1.0
    requires rs == map[o := Record(o, None, Number(0.0), Absent), k := Record(k, None, Number(0.0), Absent)]
    requires view == ObjectView(3, true,
                                map[(PRESENT_VALUE, None) := Number(p), (COV_INCREMENT, None) := Number(1.0)],
                                {}, {}, {})
    ensures CanReport(rs[k], view) && AnalogView(rs[k], view, 1.0)
    ensures FullScan([o, k], rs, view, PRESENT_VALUE) == Scanned([], rs, false)
    ensures !Fresh(rs[k], [0.0, p], 1.0) && !Served([o, k], rs, view, PRESENT_VALUE, k)
  {
    assert Stops(o, rs, view, PRESENT_VALUE);
  }
}
