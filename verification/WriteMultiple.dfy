/** WritePropertyMultiple (Clause 15.10): one pass that validates, one that writes. */
module WriteMultiple {
  import opened Prelude

  const DEVICE := 8
  const WILDCARD_INSTANCE := 0x3FFFFF
  const OUT_OF_SERVICE := 81

  datatype Value = Boolean(b: bool) | Number(r: real) | Opaque(id: int)

  datatype Error =
    | UnknownObject | UnknownProperty | WriteAccessDenied | InvalidDataType
    | Rejected(code: nat) | CheckRaised(code: nat)

  /** An object: whether each property it defines is read-only, and its stored values. */
  datatype Object = Object(readOnly: map<nat, bool>, properties: map<nat, Value>)

  type Database = map<ObjectIdentifier, Object>

  /** One value of a request, still encoded. */
  datatype PropertyWrite = PropertyWrite(property: nat, raw: nat, priority: Option<nat>, arrayIndex: Option<nat>)

  datatype Spec = Spec(oid: ObjectIdentifier, writes: seq<PropertyWrite>)

  datatype Item = Item(oid: ObjectIdentifier, write: PropertyWrite)

  /** The objects after a write, and the error it raised; a refused write may leave traces as well. */
  datatype Effect = Effect(db: Database, error: Option<nat>)

  /** A COV check: what was written, and the objects as the check finds them. */
  datatype CovCheck = CovCheck(oid: ObjectIdentifier, property: nat, db: Database)

  /**
   * The parts that are not modelled here: decoding a value, what a write does, and whether the
   * last of all COV checks made so far raises (a notification that cannot be encoded does).
   */
  datatype Environment = Environment(
    decode: nat -> Option<Value>,
    write: (Database, Item, Value) -> Effect,
    check: seq<CovCheck> -> Option<nat>)

  function ResolveObjectId(device: ObjectIdentifier, oid: ObjectIdentifier): ObjectIdentifier {
    if oid.objectType == DEVICE && oid.instance == WILDCARD_INSTANCE then device else oid
  }

  // --- Pass 1 ------------------------------------------------------------

  /** The checks of pass 1, one after the other in request order. */
  datatype Check = ObjectExists(oid: ObjectIdentifier) | Writable(oid: ObjectIdentifier, property: nat)

  function Fails(db: Database, c: Check): Option<Error> {
    if c.oid !in db then Some(UnknownObject)
    else if c.ObjectExists? then None
    else
      var obj := db[c.oid];
      if c.property !in obj.readOnly then Some(UnknownProperty)
      else if obj.readOnly[c.property]
              && !(c.property == PRESENT_VALUE && OUT_OF_SERVICE in obj.properties
                   && obj.properties[OUT_OF_SERVICE] == Boolean(true))
      then Some(WriteAccessDenied)
      else None
  }

  function ChecksOf(oid: ObjectIdentifier, writes: seq<PropertyWrite>): seq<Check> {
    if writes == [] then [] else [Writable(oid, writes[0].property)] + ChecksOf(oid, writes[1..])
  }

  function Checks(device: ObjectIdentifier, specs: seq<Spec>): seq<Check> {
    if specs == [] then []
    else var oid := ResolveObjectId(device, specs[0].oid);
         [ObjectExists(oid)] + (ChecksOf(oid, specs[0].writes) + Checks(device, specs[1..]))
  }

  function FirstFailure(db: Database, cs: seq<Check>): Option<Error> {
    if cs == [] then None
    else var e := Fails(db, cs[0]);
         if e.Some? then e else FirstFailure(db, cs[1..])
  }

  // --- Pass 2 ------------------------------------------------------------

  function ItemsOf(oid: ObjectIdentifier, writes: seq<PropertyWrite>): seq<Item> {
    if writes == [] then [] else [Item(oid, writes[0])] + ItemsOf(oid, writes[1..])
  }

  function Items(device: ObjectIdentifier, specs: seq<Spec>): seq<Item> {
    if specs == [] then []
    else ItemsOf(ResolveObjectId(device, specs[0].oid), specs[0].writes) + Items(device, specs[1..])
  }

  datatype State = State(db: Database, covChecks: seq<CovCheck>, audits: seq<Item>)

  /** One item of pass 2: decode, write, check the COV subscriptions, record; whatever raises ends it. */
  function Perform(env: Environment, cov: bool, s: State, item: Item): (State, Option<Error>) {
    var v := env.decode(item.write.raw);
    if v.None? then (s, Some(InvalidDataType))
    else
      var e := env.write(s.db, item, v.value);
      var s1 := s.(db := e.db);
      if e.error.Some? then (s1, Some(Rejected(e.error.value)))
      else
        var s2 := if cov then s1.(covChecks := s.covChecks + [CovCheck(item.oid, item.write.property, e.db)]) else s1;
        var raised := if cov then env.check(s2.covChecks) else None;
        if raised.Some? then (s2, Some(CheckRaised(raised.value)))
        else (s2.(audits := s.audits + [item]), None)
  }

  function Execute(env: Environment, cov: bool, s: State, items: seq<Item>): (State, Option<Error>)
    decreases |items|
  {
    if items == [] then (s, None)
    else
      var (s', e) := Perform(env, cov, s, items[0]);
      if e.Some? then (s', e) else Execute(env, cov, s', items[1..])
  }

  lemma ExecuteCons(env: Environment, cov: bool, s: State, item: Item, rest: seq<Item>)
    ensures Execute(env, cov, s, [item] + rest) ==
            var (s', e) := Perform(env, cov, s, item);
            if e.Some? then (s', e) else Execute(env, cov, s', rest)
  {
    assert ([item] + rest)[1..] == rest;
  }

  class Server {
    const device: ObjectIdentifier
    const cov: bool
    var db: Database
    var covChecks: seq<CovCheck>
    var audits: seq<Item>

    ghost function Value(): State
      reads this
    {
      State(db, covChecks, audits)
    }

    constructor (device: ObjectIdentifier, cov: bool, db: Database)
      ensures this.device == device && this.cov == cov && Value() == State(db, [], [])
    {
      this.device, this.cov, this.db := device, cov, db;
      covChecks, audits := [], [];
    }

    method Validate(specs: seq<Spec>) returns (error: Option<Error>)
      ensures error == FirstFailure(db, Checks(device, specs))
    {
      ghost var answer := FirstFailure(db, Checks(device, specs));
      for i := 0 to |specs|
        invariant answer == FirstFailure(db, Checks(device, specs[i..]))
      {
        assert specs[i..][1..] == specs[i + 1..];
        var oid := ResolveObjectId(device, specs[i].oid);
        var writes := specs[i].writes;
        ghost var later := Checks(device, specs[i + 1..]);
        ghost var here := ChecksOf(oid, writes) + later;
        assert ([ObjectExists(oid)] + here)[1..] == here;
        if oid !in db {
          return Some(UnknownObject);
        }
        var obj := db[oid];
        for j := 0 to |writes|
          invariant answer == FirstFailure(db, ChecksOf(oid, writes[j..]) + later)
        {
          var p := writes[j].property;
          assert writes[j..][1..] == writes[j + 1..];
          assert (ChecksOf(oid, writes[j..]) + later)[1..] == ChecksOf(oid, writes[j + 1..]) + later;
          if p !in obj.readOnly {
            return Some(UnknownProperty);
          }
          if obj.readOnly[p]
             && !(p == PRESENT_VALUE && OUT_OF_SERVICE in obj.properties
                  && obj.properties[OUT_OF_SERVICE] == Boolean(true))
          {
            return Some(WriteAccessDenied);
          }
        }
        assert ChecksOf(oid, writes[|writes|..]) + later == later;
      }
      return None;
    }

    method WriteOne(env: Environment, item: Item) returns (error: Option<Error>)
      modifies this
      ensures (Value(), error) == Perform(env, cov, old(Value()), item)
    {
      var value := env.decode(item.write.raw);
      if value.None? {
        return Some(InvalidDataType);
      }
      var effect := env.write(db, item, value.value);
      db := effect.db;
      if effect.error.Some? {
        return Some(Rejected(effect.error.value));
      }
      if cov {
        covChecks := covChecks + [CovCheck(item.oid, item.write.property, db)];
        var raised := env.check(covChecks);
        if raised.Some? {
          return Some(CheckRaised(raised.value));
        }
      }
      audits := audits + [item];
      return None;
    }

    /** The inner loop of pass 2: the writes of one object, with the items that come after them. */
    method WriteObject(env: Environment, oid: ObjectIdentifier, writes: seq<PropertyWrite>, ghost later: seq<Item>)
      returns (error: Option<Error>)
      modifies this
      ensures var answer := Execute(env, cov, old(Value()), ItemsOf(oid, writes) + later);
              if error.Some? then answer == (Value(), error) else answer == Execute(env, cov, Value(), later)
    {
      ghost var answer := Execute(env, cov, Value(), ItemsOf(oid, writes) + later);
      for j := 0 to |writes|
        invariant answer == Execute(env, cov, Value(), ItemsOf(oid, writes[j..]) + later)
      {
        var w := writes[j];
        ghost var rest := ItemsOf(oid, writes[j + 1..]) + later;
        assert writes[j..][1..] == writes[j + 1..];
        assert ItemsOf(oid, writes[j..]) + later == [Item(oid, w)] + rest;
        ExecuteCons(env, cov, Value(), Item(oid, w), rest);
        error := WriteOne(env, Item(oid, w));
        if error.Some? {
          return;
        }
      }
      assert ItemsOf(oid, writes[|writes|..]) + later == later;
      return None;
    }

    method WriteAll(env: Environment, specs: seq<Spec>) returns (error: Option<Error>)
      modifies this
      ensures (Value(), error) == Execute(env, cov, old(Value()), Items(device, specs))
    {
      ghost var answer := Execute(env, cov, Value(), Items(device, specs));
      for i := 0 to |specs|
        invariant answer == Execute(env, cov, Value(), Items(device, specs[i..]))
      {
        assert specs[i..][1..] == specs[i + 1..];
        var oid := ResolveObjectId(device, specs[i].oid);
        error := WriteObject(env, oid, specs[i].writes, Items(device, specs[i + 1..]));
        if error.Some? {
          return;
        }
      }
      return None;
    }

    method HandleWritePropertyMultiple(env: Environment, specs: seq<Spec>) returns (error: Option<Error>)
      modifies this
      ensures var invalid := FirstFailure(old(db), Checks(device, specs));
              if invalid.Some? then error == invalid && Value() == old(Value())
              else (Value(), error) == Execute(env, cov, old(Value()), Items(device, specs))
    {
      error := Validate(specs);
      if error.Some? {
        return;
      }
      error := WriteAll(env, specs);
    }
  }

  // ---------------------------------------------------------------------
  // What the two passes amount to.
  // ---------------------------------------------------------------------

  /** Pass 1 reports exactly the failing check before which every check passes. */
  lemma {:induction false} ReportsFirstFailure(db: Database, cs: seq<Check>, e: Error)
    ensures FirstFailure(db, cs) == Some(e) <==>
              exists i ::
                && 0 <= i < |cs| && Fails(db, cs[i]) == Some(e)
                && forall j :: 0 <= j < i ==> Fails(db, cs[j]).None?
  {
    if cs == [] || Fails(db, cs[0]).Some? {
    } else {
      var rest := cs[1..];
      ReportsFirstFailure(db, rest, e);
      if FirstFailure(db, rest) == Some(e) {
        var i :| 0 <= i < |rest| && Fails(db, rest[i]) == Some(e)
                 && forall j :: 0 <= j < i ==> Fails(db, rest[j]).None?;
        assert Fails(db, cs[i + 1]) == Some(e);
        forall j | 0 <= j < i + 1
          ensures Fails(db, cs[j]).None?
        {
          assert j > 0 ==> cs[j] == rest[j - 1];
        }
      }
      if i :| 0 <= i < |cs| && Fails(db, cs[i]) == Some(e) && forall j :: 0 <= j < i ==> Fails(db, cs[j]).None? {
        assert Fails(db, rest[i - 1]) == Some(e);
        forall j | 0 <= j < i - 1
          ensures Fails(db, rest[j]).None?
        {
          assert rest[j] == cs[j + 1];
        }
      }
    }
  }

  // --- The request in plain terms ----------------------------------------------------

  /** The object a specification is about: the device itself, if it names device 4194303, or the one it names. */
  ghost predicate IsAbout(device: ObjectIdentifier, spec: Spec, oid: ObjectIdentifier) {
    if spec.oid == ObjectIdentifier(8, 4194303) then oid == device else oid == spec.oid
  }

  /**
   * A property can be written when the object defines it and it is not read-only, or it is the
   * Present_Value (85) of an object that is out of service (81).
   */
  ghost predicate MayWrite(o: Object, property: nat) {
    && property in o.readOnly
    && (o.readOnly[property] ==>
          property == 85 && 81 in o.properties && o.properties[81] == Boolean(true))
  }

  /** The object exists, and all of the properties can be written. */
  ghost predicate Acceptable(db: Database, device: ObjectIdentifier, spec: Spec) {
    forall oid :: IsAbout(device, spec, oid) ==>
      oid in db && forall j :: 0 <= j < |spec.writes| ==> MayWrite(db[oid], spec.writes[j].property)
  }

  lemma ResolvedExactly(device: ObjectIdentifier, spec: Spec)
    ensures forall oid :: IsAbout(device, spec, oid) <==> oid == ResolveObjectId(device, spec.oid)
  {
  }

  lemma FailsExactly(db: Database, oid: ObjectIdentifier, property: nat)
    requires oid in db
    ensures Fails(db, Writable(oid, property)) ==
            if MayWrite(db[oid], property) then None
            else if property !in db[oid].readOnly then Some(UnknownProperty)
            else Some(WriteAccessDenied)
  {
  }

  lemma {:induction false} FirstFailureConcat(db: Database, a: seq<Check>, b: seq<Check>)
    ensures FirstFailure(db, a + b) == if FirstFailure(db, a).Some? then FirstFailure(db, a) else FirstFailure(db, b)
  {
    if a == [] {
      assert a + b == b;
    } else {
      assert (a + b)[1..] == a[1..] + b;
      FirstFailureConcat(db, a[1..], b);
    }
  }

  /** The first j writes are acceptable, and the next, if there is one, is not. */
  ghost predicate FirstBad(o: Object, writes: seq<PropertyWrite>, j: nat) {
    && j <= |writes|
    && (forall i :: 0 <= i < j ==> MayWrite(o, writes[i].property))
    && (j < |writes| ==> !MayWrite(o, writes[j].property))
  }

  lemma {:induction false} WritesExactly(db: Database, oid: ObjectIdentifier, writes: seq<PropertyWrite>, j: nat)
    requires oid in db && FirstBad(db[oid], writes, j)
    ensures FirstFailure(db, ChecksOf(oid, writes)) ==
            if j == |writes| then None
            else if writes[j].property !in db[oid].readOnly then Some(UnknownProperty)
            else Some(WriteAccessDenied)
  {
    if writes == [] {
    } else {
      FailsExactly(db, oid, writes[0].property);
      assert ChecksOf(oid, writes)[1..] == ChecksOf(oid, writes[1..]);
      if j > 0 {
        assert FirstBad(db[oid], writes[1..], j - 1);
        WritesExactly(db, oid, writes[1..], j - 1);
      }
    }
  }

  /** The checks of one object and of its writes. */
  function ChecksFor(oid: ObjectIdentifier, writes: seq<PropertyWrite>): seq<Check> {
    [ObjectExists(oid)] + ChecksOf(oid, writes)
  }

  lemma FirstCheck(db: Database, oid: ObjectIdentifier, writes: seq<PropertyWrite>)
    ensures FirstFailure(db, ChecksFor(oid, writes)) ==
            if oid !in db then Some(UnknownObject) else FirstFailure(db, ChecksOf(oid, writes))
  {
    assert ChecksFor(oid, writes)[1..] == ChecksOf(oid, writes);
  }

  lemma FindFirstBad(o: Object, writes: seq<PropertyWrite>) returns (j: nat)
    ensures FirstBad(o, writes, j)
  {
    j := 0;
    while j < |writes| && MayWrite(o, writes[j].property)
      invariant j <= |writes| && forall i :: 0 <= i < j ==> MayWrite(o, writes[i].property)
    {
      j := j + 1;
    }
  }

  lemma AcceptableExactly(db: Database, device: ObjectIdentifier, spec: Spec)
    ensures Acceptable(db, device, spec) <==>
            FirstFailure(db, ChecksFor(ResolveObjectId(device, spec.oid), spec.writes)).None?
  {
    var oid := ResolveObjectId(device, spec.oid);
    ResolvedExactly(device, spec);
    FirstCheck(db, oid, spec.writes);
    if oid in db {
      var j := FindFirstBad(db[oid], spec.writes);
      WritesExactly(db, oid, spec.writes, j);
    }
  }

  lemma ChecksCons(device: ObjectIdentifier, specs: seq<Spec>)
    requires specs != []
    ensures Checks(device, specs) ==
            ChecksFor(ResolveObjectId(device, specs[0].oid), specs[0].writes) + Checks(device, specs[1..])
  {
  }

  /** Validation passes if and only if every object exists and everything in every specification can be written. */
  lemma {:induction false} ValidExactly(db: Database, device: ObjectIdentifier, specs: seq<Spec>)
    ensures FirstFailure(db, Checks(device, specs)).None? <==>
            forall i :: 0 <= i < |specs| ==> Acceptable(db, device, specs[i])
  {
    if specs == [] {
    } else {
      var rest := specs[1..];
      ValidExactly(db, device, rest);
      ChecksCons(device, specs);
      FirstFailureConcat(db, ChecksFor(ResolveObjectId(device, specs[0].oid), specs[0].writes), Checks(device, rest));
      AcceptableExactly(db, device, specs[0]);
      assert forall i :: 0 < i < |specs| ==> specs[i] == rest[i - 1];
      assert forall i :: 0 <= i < |rest| ==> rest[i] == specs[i + 1];
    }
  }

  /**
   * Otherwise the error is about the first specification that is not acceptable: its object is
   * unknown, or the first of its properties that cannot be written is not defined, or read-only.
   */
  lemma {:induction false} RefusedExactly(db: Database, device: ObjectIdentifier, specs: seq<Spec>, i: nat,
                                          oid: ObjectIdentifier, j: nat)
    requires i < |specs| && IsAbout(device, specs[i], oid)
    requires forall n :: 0 <= n < i ==> Acceptable(db, device, specs[n])
    requires oid in db ==> FirstBad(db[oid], specs[i].writes, j) && j < |specs[i].writes|
    ensures FirstFailure(db, Checks(device, specs)) ==
            if oid !in db then Some(UnknownObject)
            else if specs[i].writes[j].property !in db[oid].readOnly then Some(UnknownProperty)
            else Some(WriteAccessDenied)
  {
    var first, rest := specs[0], specs[1..];
    var here := ChecksFor(ResolveObjectId(device, first.oid), first.writes);
    ChecksCons(device, specs);
    FirstFailureConcat(db, here, Checks(device, rest));
    if i == 0 {
      ResolvedExactly(device, first);
      FirstCheck(db, oid, first.writes);
      if oid in db {
        WritesExactly(db, oid, first.writes, j);
      }
    } else {
      AcceptableExactly(db, device, first);
      RefusedExactly(db, device, rest, i - 1, oid, j);
    }
  }

  /** How many writes come ahead of those of specification i. */
  ghost function Offset(specs: seq<Spec>, i: nat): nat
    requires i <= |specs|
  {
    if i == 0 then 0 else Offset(specs, i - 1) + |specs[i - 1].writes|
  }

  lemma {:induction false} OffsetTail(specs: seq<Spec>, i: nat)
    requires i < |specs|
    ensures Offset(specs, i + 1) == |specs[0].writes| + Offset(specs[1..], i)
  {
    if i == 0 {
    } else {
      OffsetTail(specs, i - 1);
    }
  }

  lemma {:induction false} ItemsOfExactly(oid: ObjectIdentifier, writes: seq<PropertyWrite>)
    ensures |ItemsOf(oid, writes)| == |writes|
    ensures forall j :: 0 <= j < |writes| ==> ItemsOf(oid, writes)[j] == Item(oid, writes[j])
  {
    if writes == [] {
    } else {
      ItemsOfExactly(oid, writes[1..]);
    }
  }

  /** From `at` on come the items of one specification: each of its writes, to the object it is about. */
  ghost predicate ItemsAt(items: seq<Item>, at: nat, device: ObjectIdentifier, spec: Spec) {
    && at + |spec.writes| <= |items|
    && forall j :: at <= j < at + |spec.writes| ==>
         items[j].write == spec.writes[j - at] && IsAbout(device, spec, items[j].oid)
  }

  lemma {:induction false} ItemsLength(device: ObjectIdentifier, specs: seq<Spec>)
    ensures |Items(device, specs)| == Offset(specs, |specs|)
  {
    if specs == [] {
    } else {
      ItemsOfExactly(ResolveObjectId(device, specs[0].oid), specs[0].writes);
      ItemsLength(device, specs[1..]);
      OffsetTail(specs, |specs| - 1);
    }
  }

  lemma ItemsBehind(first: seq<Item>, items: seq<Item>, at: nat, device: ObjectIdentifier, spec: Spec)
    requires ItemsAt(items, at, device, spec)
    ensures ItemsAt(first + items, |first| + at, device, spec)
  {
  }

  lemma ItemsInFront(device: ObjectIdentifier, spec: Spec, items: seq<Item>)
    ensures ItemsAt(ItemsOf(ResolveObjectId(device, spec.oid), spec.writes) + items, 0, device, spec)
  {
    ItemsOfExactly(ResolveObjectId(device, spec.oid), spec.writes);
    ResolvedExactly(device, spec);
  }

  /** The second pass performs every write of every specification, in request order, and nothing else. */
  lemma {:induction false} ItemsExactly(device: ObjectIdentifier, specs: seq<Spec>, i: nat)
    requires i < |specs|
    ensures ItemsAt(Items(device, specs), Offset(specs, i), device, specs[i])
    ensures |Items(device, specs)| == Offset(specs, |specs|)
  {
    ItemsLength(device, specs);
    var rest, first := specs[1..], ItemsOf(ResolveObjectId(device, specs[0].oid), specs[0].writes);
    if i == 0 {
      ItemsInFront(device, specs[0], Items(device, rest));
    } else {
      ItemsExactly(device, rest, i - 1);
      OffsetTail(specs, i - 1);
      ItemsOfExactly(ResolveObjectId(device, specs[0].oid), specs[0].writes);
      ItemsBehind(first, Items(device, rest), Offset(rest, i - 1), device, specs[i]);
    }
  }

  // --- What the second pass does -----------------------------------------------------

  /** The objects after one item: written, unless its value does not decode. */
  function Applied(env: Environment, db: Database, item: Item): Database {
    var v := env.decode(item.write.raw);
    if v.None? then db else env.write(db, item, v.value).db
  }

  /** The sequential application of all items. */
  ghost function Sequentially(env: Environment, db: Database, items: seq<Item>): Database {
    if items == [] then db
    else Applied(env, Sequentially(env, db, items[..|items| - 1]), items[|items| - 1])
  }

  /** The value of item k decodes, and the object accepts it once the items before it have been applied. */
  ghost predicate AcceptedAt(env: Environment, db: Database, items: seq<Item>, k: nat)
    requires k < |items|
  {
    var v := env.decode(items[k].write.raw);
    v.Some? && env.write(Sequentially(env, db, items[..k]), items[k], v.value).error.None?
  }

  /** The COV checks for items, each finding the objects as its own write left them. */
  ghost function ChecksAfter(env: Environment, db: Database, items: seq<Item>): seq<CovCheck> {
    seq(|items|, i requires 0 <= i < |items| =>
      CovCheck(items[i].oid, items[i].write.property, Sequentially(env, db, items[..i + 1])))
  }

  /** What the COV check after item k raises. */
  ghost function RaisedAt(env: Environment, cov: bool, s: State, items: seq<Item>, k: nat): Option<nat>
    requires k < |items|
  {
    if cov then env.check(s.covChecks + ChecksAfter(env, s.db, items[..k + 1])) else None
  }

  /** Item k is written and checked without raising. */
  ghost predicate PassesAt(env: Environment, cov: bool, s: State, items: seq<Item>, k: nat)
    requires k < |items|
  {
    AcceptedAt(env, s.db, items, k) && RaisedAt(env, cov, s, items, k).None?
  }

  ghost predicate PassUpTo(env: Environment, cov: bool, s: State, items: seq<Item>, n: nat)
    requires n <= |items|
  {
    forall k :: 0 <= k < n ==> PassesAt(env, cov, s, items, k)
  }

  /** The state after n items were applied, c of them followed by a COV check and a by an audit record. */
  ghost function Written(env: Environment, cov: bool, s: State, items: seq<Item>, n: nat, c: nat, a: nat): State
    requires n <= |items| && c <= |items| && a <= |items|
  {
    State(Sequentially(env, s.db, items[..n]),
          if cov then s.covChecks + ChecksAfter(env, s.db, items[..c]) else s.covChecks,
          s.audits + items[..a])
  }

  lemma ChecksAfterSnoc(env: Environment, db: Database, items: seq<Item>, m: nat)
    requires m < |items|
    ensures Sequentially(env, db, items[..m + 1]) == Applied(env, Sequentially(env, db, items[..m]), items[m])
    ensures ChecksAfter(env, db, items[..m + 1]) ==
            ChecksAfter(env, db, items[..m])
            + [CovCheck(items[m].oid, items[m].write.property, Sequentially(env, db, items[..m + 1]))]
  {
    var init, all := items[..m], items[..m + 1];
    assert all[..m] == init && all[m] == items[m];
    var left, right := ChecksAfter(env, db, all), ChecksAfter(env, db, init);
    forall i | 0 <= i < m
      ensures left[i] == right[i]
    {
      assert all[..i + 1] == init[..i + 1];
    }
    assert all[..m + 1] == all;
  }

  /** Performing item m in the state its predecessors led to. */
  lemma PerformNext(env: Environment, cov: bool, s: State, items: seq<Item>, m: nat)
    requires m < |items|
    ensures Perform(env, cov, Written(env, cov, s, items, m, m, m), items[m]) ==
            if env.decode(items[m].write.raw).None? then (Written(env, cov, s, items, m, m, m), Some(InvalidDataType))
            else if !AcceptedAt(env, s.db, items, m) then
              (Written(env, cov, s, items, m + 1, m, m),
               Some(Rejected(env.write(Sequentially(env, s.db, items[..m]), items[m],
                                       env.decode(items[m].write.raw).value).error.value)))
            else if RaisedAt(env, cov, s, items, m).Some? then
              (Written(env, cov, s, items, m + 1, m + 1, m), Some(CheckRaised(RaisedAt(env, cov, s, items, m).value)))
            else (Written(env, cov, s, items, m + 1, m + 1, m + 1), None)
  {
    ChecksAfterSnoc(env, s.db, items, m);
    assert items[..m + 1] == items[..m] + [items[m]];
    assert s.audits + items[..m] + [items[m]] == s.audits + items[..m + 1];
    var checks := ChecksAfter(env, s.db, items[..m]);
    var next := CovCheck(items[m].oid, items[m].write.property, Sequentially(env, s.db, items[..m + 1]));
    assert s.covChecks + checks + [next] == s.covChecks + (checks + [next]);
  }

  lemma {:induction false} WrittenExecutes(env: Environment, cov: bool, s: State, items: seq<Item>, n: nat)
    requires n <= |items| && PassUpTo(env, cov, s, items, n)
    ensures Execute(env, cov, s, items) == Execute(env, cov, Written(env, cov, s, items, n, n, n), items[n..])
  {
    if n == 0 {
      assert ChecksAfter(env, s.db, items[..0]) == [];
      assert Written(env, cov, s, items, 0, 0, 0) == s;
      assert items[0..] == items;
    } else {
      var m := n - 1;
      WrittenExecutes(env, cov, s, items, m);
      assert PassesAt(env, cov, s, items, m);
      PerformNext(env, cov, s, items, m);
      assert items[m..] == [items[m]] + items[n..];
      ExecuteCons(env, cov, Written(env, cov, s, items, m, m, m), items[m], items[n..]);
    }
  }

  /**
   * A request whose values all decode, whose writes are all accepted and none of whose COV checks
   * raises ends in exactly the sequential application of all of them, with one COV check and one
   * audit record per write in order.
   */
  lemma {:induction false} AcceptedRequestIsSequential(env: Environment, cov: bool, s: State, items: seq<Item>)
    requires PassUpTo(env, cov, s, items, |items|)
    ensures Execute(env, cov, s, items) == (Written(env, cov, s, items, |items|, |items|, |items|), None)
  {
    WrittenExecutes(env, cov, s, items, |items|);
  }

  /**
   * Otherwise the items before the first one that does not pass are written, checked and recorded,
   * and that one stops half way: a value that does not decode leaves no trace, a refused write
   * whatever it did, and a COV check that raises leaves the write and the check without the record.
   */
  lemma {:induction false} StoppedRequest(env: Environment, cov: bool, s: State, items: seq<Item>, k: nat)
    requires k < |items| && PassUpTo(env, cov, s, items, k) && !PassesAt(env, cov, s, items, k)
    ensures var (s', e), v := Execute(env, cov, s, items), env.decode(items[k].write.raw);
            if v.None? then s' == Written(env, cov, s, items, k, k, k) && e == Some(InvalidDataType)
            else if !AcceptedAt(env, s.db, items, k) then
              s' == Written(env, cov, s, items, k + 1, k, k) && e.Some? && e.value.Rejected?
            else
              && s' == Written(env, cov, s, items, k + 1, k + 1, k)
              && RaisedAt(env, cov, s, items, k).Some? && e == Some(CheckRaised(RaisedAt(env, cov, s, items, k).value))
  {
    WrittenExecutes(env, cov, s, items, k);
    PerformNext(env, cov, s, items, k);
    assert items[k..] == [items[k]] + items[k + 1..];
    ExecuteCons(env, cov, Written(env, cov, s, items, k, k, k), items[k], items[k + 1..]);
  }

  /**
   * The handler's documentation promises all or none.  For a validated request that raises at
   * item k this holds of the objects exactly when the writes so far amount to nothing: those
   * before k if k does not decode or its refused write leaves no trace, and those up to and
   * including k if it is k's COV check that raises.
   */
  lemma {:induction false} AtomicExactly(env: Environment, cov: bool, s: State, items: seq<Item>, k: nat)
    requires k < |items| && PassUpTo(env, cov, s, items, k) && !PassesAt(env, cov, s, items, k)
    ensures var v, before := env.decode(items[k].write.raw), Sequentially(env, s.db, items[..k]);
            Execute(env, cov, s, items).0.db == s.db <==>
              if v.None? then before == s.db
              else if AcceptedAt(env, s.db, items, k) then Sequentially(env, s.db, items[..k + 1]) == s.db
              else env.write(before, items[k], v.value).db == s.db
  {
    StoppedRequest(env, cov, s, items, k);
    ChecksAfterSnoc(env, s.db, items, k);
  }

  // --- Two requests that are half done ---------------------------------------------

  /** An object's properties with one of them set. */
  function Store(db: Database, item: Item, v: Value): Effect {
    if item.oid !in db then Effect(db, Some(0))
    else
      var o := db[item.oid];
      Effect(db[item.oid := o.(properties := o.properties[item.write.property := v])], None)
  }

  lemma ValidatedPair(db: Database, device: ObjectIdentifier, a: ObjectIdentifier, b: ObjectIdentifier,
                      w0: PropertyWrite, w1: PropertyWrite)
    requires a.objectType != DEVICE && b.objectType != DEVICE && a in db && b in db
    requires w0.property in db[a].readOnly && !db[a].readOnly[w0.property]
    requires w1.property in db[b].readOnly && !db[b].readOnly[w1.property]
    ensures var specs := [Spec(a, [w0]), Spec(b, [w1])];
            && FirstFailure(db, Checks(device, specs)).None?
            && Items(device, specs) == [Item(a, w0), Item(b, w1)]
  {
    var specs := [Spec(a, [w0]), Spec(b, [w1])];
    assert specs[1..] == [Spec(b, [w1])] && specs[1..][1..] == [] && [w0][1..] == [] && [w1][1..] == [];
    var c0, c1, c2, c3 := ObjectExists(a), Writable(a, w0.property), ObjectExists(b), Writable(b, w1.property);
    assert ChecksOf(a, [w0]) == [c1] && ChecksOf(b, [w1]) == [c3];
    assert Checks(device, specs[1..]) == [c2, c3];
    assert Checks(device, specs) == [c0, c1, c2, c3];
    assert [c0, c1, c2, c3][1..] == [c1, c2, c3] && [c1, c2, c3][1..] == [c2, c3];
    assert [c2, c3][1..] == [c3] && [c3][1..] == [];
    assert FirstFailure(db, [c3]).None?;
    assert FirstFailure(db, [c2, c3]).None?;
    assert FirstFailure(db, [c1, c2, c3]).None?;
    assert ItemsOf(a, [w0]) == [Item(a, w0)] && ItemsOf(b, [w1]) == [Item(b, w1)];
    assert Items(device, specs[1..]) == [Item(b, w1)];
  }

  /** A validated request that is half done: the second value does not decode, the first stays written. */
  lemma NotAlwaysAtomic() returns (env: Environment, s: State, specs: seq<Spec>, device: ObjectIdentifier)
    ensures FirstFailure(s.db, Checks(device, specs)).None?
    ensures Execute(env, true, s, Items(device, specs)).1 == Some(InvalidDataType)
    ensures Execute(env, true, s, Items(device, specs)).0.db != s.db
  {
    var oid := ObjectIdentifier(2, 1);
    var w0, w1 := PropertyWrite(PRESENT_VALUE, 0, None, None), PropertyWrite(PRESENT_VALUE, 1, None, None);
    device, specs := ObjectIdentifier(DEVICE, 1), [Spec(oid, [w0]), Spec(oid, [w1])];
    env := Environment(raw => if raw == 0 then Some(Number(7.0)) else None, Store, (checks: seq<CovCheck>) => None);
    s := State(map[oid := Object(map[PRESENT_VALUE := false], map[])], [], []);
    ValidatedPair(s.db, device, oid, oid, w0, w1);
    var i0, i1 := Item(oid, w0), Item(oid, w1);
    assert [i0, i1] == [i0] + [i1] && [i1] == [i1] + [];
    ExecuteCons(env, true, s, i0, [i1]);
    var s1 := Perform(env, true, s, i0).0;
    assert s1.db[oid].properties[PRESENT_VALUE] == Number(7.0);
    ExecuteCons(env, true, s1, i1, []);
  }

  function DecodeSample(raw: nat): Option<Value> {
    Some(Number(if raw == 0 then -5.0 else 1.0))
  }

  /** The check for an integer-value raises. */
  function CheckSample(checks: seq<CovCheck>): Option<nat> {
    if checks != [] && checks[|checks| - 1].oid.objectType == 45 then Some(0) else None
  }

  /**
   * Another: integer-value 1 := -5 and analog-value 1 := 1.0, with a COV subscription on the
   * first.  Both values decode and both writes are acceptable, but -5 cannot be encoded for the
   * subscriber, so the check raises: the first write stays, unrecorded, and the second never happens.
   */
  lemma RaisingCheckIsNotAtomic()
    returns (env: Environment, s: State, specs: seq<Spec>, device: ObjectIdentifier, items: seq<Item>)
    ensures FirstFailure(s.db, Checks(device, specs)).None? && items == Items(device, specs) && |items| == 2
    ensures AcceptedAt(env, s.db, items, 0) && AcceptedAt(env, s.db, items, 1)
    ensures var (s', e) := Execute(env, true, s, items);
            && e == Some(CheckRaised(0))
            && s'.db != s.db && s'.db == Sequentially(env, s.db, items[..1]) != Sequentially(env, s.db, items)
            && s'.audits == s.audits
  {
    var iv, av := ObjectIdentifier(45, 1), ObjectIdentifier(2, 1);
    var w0, w1 := PropertyWrite(PRESENT_VALUE, 0, None, None), PropertyWrite(PRESENT_VALUE, 1, None, None);
    device, specs := ObjectIdentifier(DEVICE, 1), [Spec(iv, [w0]), Spec(av, [w1])];
    env := Environment(DecodeSample, Store, CheckSample);
    var point := Object(map[PRESENT_VALUE := false], map[]);
    s := State(map[iv := point, av := point], [], []);
    ValidatedPair(s.db, device, iv, av, w0, w1);
    items := [Item(iv, w0), Item(av, w1)];
    assert items[..0] == [] && items[..1] == [items[0]] && items[..1][..0] == [] && items[..2] == items;
    var written := Store(s.db, items[0], Number(-5.0)).db;
    assert Sequentially(env, s.db, items[..1]) == written;
    assert written[iv].properties == map[PRESENT_VALUE := Number(-5.0)] && written[av] == point;
    assert PRESENT_VALUE in written[iv].properties && PRESENT_VALUE !in s.db[iv].properties;
    assert PRESENT_VALUE !in written[av].properties;
    assert items[..|items| - 1] == items[..1];
    assert Sequentially(env, s.db, items)[av].properties == map[PRESENT_VALUE := Number(1.0)];
    assert ChecksAfter(env, s.db, items[..1]) == [CovCheck(iv, PRESENT_VALUE, written)];
    assert s.covChecks + ChecksAfter(env, s.db, items[..1]) == ChecksAfter(env, s.db, items[..1]);
    StoppedRequest(env, true, s, items, 0);
    assert s.audits + items[..0] == s.audits;
  }
}
