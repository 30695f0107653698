/**
 * The subscription tables of the COV manager: an insertion-ordered master dictionary and a
 * secondary index of buckets, each again an insertion-ordered dictionary.
 */
module CovTables {
  import opened Prelude

  // --- Keys and groups ------------------------------------------------------

  datatype Key =
    | ObjectKey(subscriber: nat, process: nat, oid: nat)
    | PropertyKey(subscriber: nat, process: nat, oid: nat, property: nat, arrayIndex: Option<nat>)

  /** The bucket a key is filed under: its object, or its object and property. */
  datatype Group = OfObject(oid: nat) | OfProperty(oid: nat, property: nat)

  function GroupOf(k: Key): Group {
    match k
    case ObjectKey(_, _, oid) => OfObject(oid)
    case PropertyKey(_, _, oid, property, _) => OfProperty(oid, property)
  }

  // --- Insertion-ordered dictionaries --------------------------------------

  function Without(s: seq<Key>, k: Key): seq<Key> {
    if s == [] then []
    else if s[0] == k then Without(s[1..], k)
    else [s[0]] + Without(s[1..], k)
  }

  datatype Dict<V> = Dict(keys: seq<Key>, vals: map<Key, V>) {
    ghost predicate Valid() {
      NoDuplicates(keys) && forall k :: k in keys <==> k in vals
    }

    /** Assigning to a present key keeps its place; a new key goes to the end. */
    function Put(k: Key, v: V): Dict<V> {
      Dict(if k in vals then keys else keys + [k], vals[k := v])
    }

    function Pop(k: Key): Dict<V> {
      Dict(Without(keys, k), vals - {k})
    }

    function PopAll(ks: seq<Key>): Dict<V>
      decreases |ks|
    {
      if ks == [] then this else Pop(ks[0]).PopAll(ks[1..])
    }
  }

  lemma ConsNoDuplicates(x: Key, s: seq<Key>)
    requires NoDuplicates(s) && x !in s
    ensures NoDuplicates([x] + s)
  {
  }

  lemma {:induction false} WithoutContents(s: seq<Key>, k: Key)
    ensures forall x :: x in Without(s, k) <==> x in s && x != k
    ensures NoDuplicates(s) ==> NoDuplicates(Without(s, k))
  {
    if s == [] {
    } else {
      var rest := s[1..];
      WithoutContents(rest, k);
      assert s == [s[0]] + rest;
      if NoDuplicates(s) {
        assert NoDuplicates(rest);
        assert s[0] !in rest;
        ConsNoDuplicates(s[0], Without(rest, k));
      }
    }
  }

  lemma {:induction false} WithoutKeepsOrder(s: seq<Key>, k: Key)
    ensures Subsequence(Without(s, k), s)
  {
    if s == [] {
    } else {
      var tail := Without(s[1..], k);
      WithoutKeepsOrder(s[1..], k);
      assert ([s[0]] + tail)[1..] == tail;
    }
  }

  lemma PutIsValid<V>(d: Dict<V>, k: Key, v: V)
    requires d.Valid()
    ensures d.Put(k, v).Valid()
    ensures |d.Put(k, v).keys| == |d.keys| + if k in d.vals then 0 else 1
  {
  }

  lemma {:induction false} WithoutShrinks(s: seq<Key>, k: Key)
    ensures |Without(s, k)| <= |s|
  {
    if s == [] {
    } else {
      WithoutShrinks(s[1..], k);
    }
  }

  lemma PopIsValid<V>(d: Dict<V>, k: Key)
    requires d.Valid()
    ensures d.Pop(k).Valid()
    ensures |d.Pop(k).keys| <= |d.keys|
  {
    WithoutContents(d.keys, k);
    WithoutShrinks(d.keys, k);
  }

  function EmptyDict<V>(): Dict<V> {
    Dict([], map[])
  }

  /** The keys of group g, in the order they are in. */
  function Filter(keys: seq<Key>, g: Group): seq<Key> {
    if keys == [] then []
    else if GroupOf(keys[0]) == g then [keys[0]] + Filter(keys[1..], g)
    else Filter(keys[1..], g)
  }

  /** The master restricted to one group, in the same order. */
  ghost function Select<V>(d: Dict<V>, g: Group): Dict<V> {
    Dict(Filter(d.keys, g), map k | k in d.vals && GroupOf(k) == g :: d.vals[k])
  }

  ghost function Groups<V>(d: Dict<V>): set<Group> {
    set k | k in d.vals :: GroupOf(k)
  }

  /** The index a master dictionary ought to have: one bucket for each group that occurs in it. */
  ghost function IndexOf<V>(d: Dict<V>): map<Group, Dict<V>> {
    map g | g in Groups(d) :: Select(d, g)
  }

  /** The keys whose group is not in gs, in order. */
  function Outside(keys: seq<Key>, gs: set<Group>): seq<Key> {
    if keys == [] then []
    else if GroupOf(keys[0]) in gs then Outside(keys[1..], gs)
    else [keys[0]] + Outside(keys[1..], gs)
  }

  datatype Table<V> = Table(master: Dict<V>, index: map<Group, Dict<V>>) {
    /** The index is nothing but the master, bucket by bucket. */
    ghost predicate Consistent() {
      master.Valid() && index == IndexOf(master)
    }

    function Insert(k: Key, v: V): Table<V> {
      var bucket := if GroupOf(k) in index then index[GroupOf(k)] else EmptyDict();
      Table(master.Put(k, v), index[GroupOf(k) := bucket.Put(k, v)])
    }

    function Remove(k: Key): Table<V> {
      if k !in master.vals then this
      else if GroupOf(k) !in index then Table(master.Pop(k), index)
      else
        var bucket := index[GroupOf(k)].Pop(k);
        Table(master.Pop(k), if bucket.keys == [] then index - {GroupOf(k)} else index[GroupOf(k) := bucket])
    }

    /** Everything but the groups gs. */
    function WithoutGroups(gs: set<Group>): Table<V> {
      Table(Dict(Outside(master.keys, gs), map k | k in master.vals && GroupOf(k) !in gs :: master.vals[k]), index - gs)
    }

    /** Drop a whole bucket, and its keys from the master. */
    function RemoveGroup(g: Group): Table<V> {
      if g !in index then this else Table(master.PopAll(index[g].keys), index - {g})
    }
  }

  function EmptyTable<V>(): Table<V> {
    Table(EmptyDict(), map[])
  }

  lemma {:induction false} FilterSnoc(keys: seq<Key>, k: Key, g: Group)
    ensures Filter(keys + [k], g) == Filter(keys, g) + if GroupOf(k) == g then [k] else []
  {
    if keys == [] {
      assert [k][1..] == [];
    } else {
      assert (keys + [k])[1..] == keys[1..] + [k];
      FilterSnoc(keys[1..], k, g);
    }
  }

  lemma {:induction false} FilterWithout(keys: seq<Key>, k: Key, g: Group)
    ensures Filter(Without(keys, k), g) == Without(Filter(keys, g), k)
  {
    if keys == [] {
    } else {
      FilterWithout(keys[1..], k, g);
      var tail := Without(keys[1..], k);
      if keys[0] != k {
        assert ([keys[0]] + tail)[1..] == tail;
      }
      if GroupOf(keys[0]) == g {
        assert ([keys[0]] + Filter(keys[1..], g))[1..] == Filter(keys[1..], g);
      }
    }
  }

  lemma {:induction false} FilterContents(keys: seq<Key>, g: Group)
    ensures forall k :: k in Filter(keys, g) <==> k in keys && GroupOf(k) == g
    ensures NoDuplicates(keys) ==> NoDuplicates(Filter(keys, g))
  {
    if keys == [] {
    } else {
      var rest := keys[1..];
      FilterContents(rest, g);
      assert keys == [keys[0]] + rest;
      if NoDuplicates(keys) {
        assert NoDuplicates(rest);
        assert keys[0] !in rest;
        ConsNoDuplicates(keys[0], Filter(rest, g));
      }
    }
  }

  lemma {:induction false} FilterKeepsOrder(keys: seq<Key>, g: Group)
    ensures Subsequence(Filter(keys, g), keys)
  {
    if keys == [] {
    } else {
      var tail := Filter(keys[1..], g);
      FilterKeepsOrder(keys[1..], g);
      assert ([keys[0]] + tail)[1..] == tail;
    }
  }

  lemma {:induction false} WithoutAbsent(s: seq<Key>, k: Key)
    requires k !in s
    ensures Without(s, k) == s
  {
    if s == [] {
    } else {
      assert s == [s[0]] + s[1..];
      WithoutAbsent(s[1..], k);
    }
  }

  lemma SelectPutVals<V>(d: Dict<V>, k: Key, v: V, g: Group)
    ensures Select(d.Put(k, v), g).vals == if GroupOf(k) == g then Select(d, g).vals[k := v] else Select(d, g).vals
  {
  }

  lemma SelectPut<V>(d: Dict<V>, k: Key, v: V, g: Group)
    requires d.Valid()
    ensures Select(d.Put(k, v), g) == if GroupOf(k) == g then Select(d, g).Put(k, v) else Select(d, g)
  {
    FilterSnoc(d.keys, k, g);
    SelectPutVals(d, k, v, g);
  }

  lemma SelectPop<V>(d: Dict<V>, k: Key, g: Group)
    requires d.Valid()
    ensures Select(d.Pop(k), g) == if GroupOf(k) == g then Select(d, g).Pop(k) else Select(d, g)
  {
    FilterWithout(d.keys, k, g);
    var left := Select(d.Pop(k), g);
    var right := if GroupOf(k) == g then Select(d, g).Pop(k) else Select(d, g);
    assert left.vals == right.vals;
    if GroupOf(k) != g {
      FilterContents(d.keys, g);
      WithoutAbsent(Filter(d.keys, g), k);
    }
  }

  lemma GroupEmptyIff<V>(d: Dict<V>, g: Group)
    requires d.Valid()
    ensures g in Groups(d) <==> Select(d, g).keys != []
  {
    var ks := Filter(d.keys, g);
    FilterContents(d.keys, g);
    assert ks != [] ==> ks[0] in ks;
    if g in Groups(d) {
      var k :| k in d.vals && GroupOf(k) == g;
      assert k in ks;
    }
  }

  /** No bucket is empty, and every bucket lists exactly its group's keys with the master's values. */
  lemma {:induction false} BucketsMirrorMaster<V>(t: Table<V>, g: Group)
    requires t.Consistent()
    ensures g in t.index <==> exists k :: k in t.master.vals && GroupOf(k) == g
    ensures g in t.index ==>
              && t.index[g].keys != []
              && t.index[g].keys == Filter(t.master.keys, g)
              && Subsequence(t.index[g].keys, t.master.keys)
              && t.index[g].Valid()
              && (forall k :: k in t.master.keys && GroupOf(k) == g ==> k in t.index[g].keys)
              && forall k :: k in t.index[g].vals ==> k in t.master.vals && t.index[g].vals[k] == t.master.vals[k]
  {
    GroupEmptyIff(t.master, g);
    FilterContents(t.master.keys, g);
    FilterKeepsOrder(t.master.keys, g);
  }

  lemma GroupsPut<V>(d: Dict<V>, k: Key, v: V)
    ensures Groups(d.Put(k, v)) == Groups(d) + {GroupOf(k)}
  {
    var d' := d.Put(k, v);
    assert k in d'.vals;
    forall g | g in Groups(d)
      ensures g in Groups(d')
    {
      var k0 :| k0 in d.vals && GroupOf(k0) == g;
      assert k0 in d'.vals;
    }
  }

  lemma GroupsPop<V>(d: Dict<V>, k: Key)
    requires k in d.vals
    ensures Groups(d.Pop(k)) + {GroupOf(k)} == Groups(d)
  {
    var d' := d.Pop(k);
    forall g | g in Groups(d) && g != GroupOf(k)
      ensures g in Groups(d')
    {
      var k0 :| k0 in d.vals && GroupOf(k0) == g;
      assert k0 in d'.vals;
    }
    forall g | g in Groups(d')
      ensures g in Groups(d)
    {
      var k0 :| k0 in d'.vals && GroupOf(k0) == g;
      assert k0 in d.vals;
    }
  }

  lemma EmptyGroup<V>(d: Dict<V>, g: Group)
    requires d.Valid()
    ensures g !in Groups(d) ==> Select(d, g) == EmptyDict()
  {
    GroupEmptyIff(d, g);
  }

  lemma IndexPut<V>(d: Dict<V>, k: Key, v: V)
    requires d.Valid()
    ensures var index := IndexOf(d);
            var bucket := if GroupOf(k) in index then index[GroupOf(k)] else EmptyDict();
            IndexOf(d.Put(k, v)) == index[GroupOf(k) := bucket.Put(k, v)]
  {
    var d', g0 := d.Put(k, v), GroupOf(k);
    GroupsPut(d, k, v);
    EmptyGroup(d, g0);
    SelectPut(d, k, v, g0);
    forall g | g != g0
      ensures Select(d', g) == Select(d, g)
    {
      SelectPut(d, k, v, g);
    }
  }

  lemma IndexWithOneChanged<V>(d: Dict<V>, d': Dict<V>, g0: Group)
    requires Groups(d') == Groups(d) && g0 in Groups(d)
    requires forall g :: g != g0 ==> Select(d', g) == Select(d, g)
    ensures IndexOf(d') == IndexOf(d)[g0 := Select(d', g0)]
  {
  }

  lemma IndexWithOneGone<V>(d: Dict<V>, d': Dict<V>, g0: Group)
    requires Groups(d') == Groups(d) - {g0}
    requires forall g :: g != g0 ==> Select(d', g) == Select(d, g)
    ensures IndexOf(d') == IndexOf(d) - {g0}
  {
  }

  lemma IndexPop<V>(d: Dict<V>, k: Key)
    requires d.Valid() && k in d.vals
    ensures d.Pop(k).Valid() && GroupOf(k) in IndexOf(d)
    ensures var bucket := Select(d, GroupOf(k)).Pop(k);
            IndexOf(d.Pop(k)) ==
            if bucket.keys == [] then IndexOf(d) - {GroupOf(k)} else IndexOf(d)[GroupOf(k) := bucket]
  {
    var d', g0 := d.Pop(k), GroupOf(k);
    PopIsValid(d, k);
    GroupsPop(d, k);
    GroupEmptyIff(d', g0);
    SelectPop(d, k, g0);
    forall g | g != g0
      ensures Select(d', g) == Select(d, g)
    {
      SelectPop(d, k, g);
    }
    if g0 in Groups(d') {
      IndexWithOneChanged(d, d', g0);
    } else {
      assert Groups(d') == Groups(d) - {g0};
      IndexWithOneGone(d, d', g0);
    }
  }

  /** Filing a new value, or replacing one in place, keeps the index in agreement. */
  lemma InsertKeepsAgreement<V>(t: Table<V>, k: Key, v: V)
    requires t.Consistent()
    ensures t.Insert(k, v).Consistent()
  {
    PutIsValid(t.master, k, v);
    IndexPut(t.master, k, v);
  }

  lemma RemoveKeepsAgreement<V>(t: Table<V>, k: Key)
    requires t.Consistent()
    ensures t.Remove(k).Consistent()
  {
    if k in t.master.vals {
      IndexPop(t.master, k);
    }
  }

  lemma {:induction false} PopAllContents<V>(d: Dict<V>, ks: seq<Key>)
    requires d.Valid()
    ensures d.PopAll(ks).Valid()
    ensures d.PopAll(ks).vals == map k | k in d.vals && k !in ks :: d.vals[k]
    ensures |d.PopAll(ks).keys| <= |d.keys|
    decreases |ks|
  {
    if ks == [] {
    } else {
      PopIsValid(d, ks[0]);
      PopAllContents(d.Pop(ks[0]), ks[1..]);
      assert ks == [ks[0]] + ks[1..];
    }
  }

  lemma {:induction false} SelectPopAll<V>(d: Dict<V>, ks: seq<Key>, g: Group)
    requires d.Valid() && forall k :: k in ks ==> GroupOf(k) != g
    ensures Select(d.PopAll(ks), g) == Select(d, g)
    decreases |ks|
  {
    if ks == [] {
    } else {
      PopIsValid(d, ks[0]);
      SelectPop(d, ks[0], g);
      SelectPopAll(d.Pop(ks[0]), ks[1..], g);
    }
  }

  /** The master without the keys of one group. */
  ghost predicate LacksGroup<V>(d: Dict<V>, g0: Group, d': Dict<V>) {
    d'.vals == map k | k in d.vals && GroupOf(k) != g0 :: d.vals[k]
  }

  lemma IndexWithoutGroup<V>(d: Dict<V>, g0: Group, d': Dict<V>)
    requires LacksGroup(d, g0, d')
    requires forall g :: g != g0 ==> Select(d', g) == Select(d, g)
    ensures IndexOf(d') == IndexOf(d) - {g0}
  {
    forall g
      ensures g in Groups(d') <==> g in Groups(d) && g != g0
    {
      if g in Groups(d) && g != g0 {
        var k :| k in d.vals && GroupOf(k) == g;
        assert k in d'.vals;
      }
    }
    assert Groups(d') == Groups(d) - {g0};
    IndexWithOneGone(d, d', g0);
  }

  lemma RemoveGroupKeepsAgreement<V>(t: Table<V>, g0: Group)
    requires t.Consistent()
    ensures t.RemoveGroup(g0).Consistent()
    ensures LacksGroup(t.master, g0, t.RemoveGroup(g0).master)
    ensures |t.RemoveGroup(g0).master.keys| <= |t.master.keys|
  {
    var d := t.master;
    if g0 in t.index {
      var ks := t.index[g0].keys;
      var d' := d.PopAll(ks);
      FilterContents(d.keys, g0);
      PopAllContents(d, ks);
      forall g | g != g0
        ensures Select(d', g) == Select(d, g)
      {
        SelectPopAll(d, ks, g);
      }
      IndexWithoutGroup(d, g0, d');
    } else {
      assert forall k :: k in d.vals ==> GroupOf(k) in Groups(d);
    }
  }

  // --- Removing an object's groups ------------------------------------------

  /** The keys of other objects, in order. */
  function Elsewhere(keys: seq<Key>, oid: nat): seq<Key> {
    if keys == [] then []
    else if keys[0].oid == oid then Elsewhere(keys[1..], oid)
    else [keys[0]] + Elsewhere(keys[1..], oid)
  }

  lemma {:induction false} ElsewhereExactly(keys: seq<Key>, oid: nat)
    ensures Subsequence(Elsewhere(keys, oid), keys)
    ensures forall k :: k in Elsewhere(keys, oid) <==> k in keys && k.oid != oid
    ensures NoDuplicates(keys) ==> NoDuplicates(Elsewhere(keys, oid))
  {
    if keys == [] {
    } else {
      var rest, tail := keys[1..], Elsewhere(keys[1..], oid);
      ElsewhereExactly(rest, oid);
      assert keys == [keys[0]] + rest;
      assert ([keys[0]] + tail)[1..] == tail;
      if NoDuplicates(keys) {
        assert NoDuplicates(rest);
        assert keys[0] !in rest;
        ConsNoDuplicates(keys[0], tail);
      }
    }
  }

  lemma {:induction false} OutsideNothing(keys: seq<Key>)
    ensures Outside(keys, {}) == keys
  {
    if keys == [] {
    } else {
      OutsideNothing(keys[1..]);
    }
  }

  lemma {:induction false} OutsideTwice(keys: seq<Key>, gs: set<Group>, g: Group)
    ensures Outside(Outside(keys, gs), {g}) == Outside(keys, gs + {g})
  {
    if keys == [] {
    } else {
      OutsideTwice(keys[1..], gs, g);
    }
  }

  lemma {:induction false} OutsideIsElsewhere(keys: seq<Key>, gs: set<Group>, oid: nat)
    requires forall k :: k in keys ==> (GroupOf(k) in gs <==> k.oid == oid)
    ensures Outside(keys, gs) == Elsewhere(keys, oid)
  {
    if keys == [] {
    } else {
      assert keys == [keys[0]] + keys[1..];
      OutsideIsElsewhere(keys[1..], gs, oid);
    }
  }

  /** Popping a list of keys one by one leaves the others in their order. */
  ghost function WithoutAll(s: seq<Key>, ks: seq<Key>): seq<Key>
    decreases |ks|
  {
    if ks == [] then s else WithoutAll(Without(s, ks[0]), ks[1..])
  }

  lemma {:induction false} PopAllKeys<V>(d: Dict<V>, ks: seq<Key>)
    ensures d.PopAll(ks).keys == WithoutAll(d.keys, ks)
    decreases |ks|
  {
    if ks == [] {
    } else {
      PopAllKeys(d.Pop(ks[0]), ks[1..]);
    }
  }

  lemma {:induction false} WithoutAllCons(x: Key, s: seq<Key>, ks: seq<Key>)
    ensures WithoutAll([x] + s, ks) == if x in ks then WithoutAll(s, ks) else [x] + WithoutAll(s, ks)
    decreases |ks|
  {
    if ks == [] {
    } else {
      assert ks == [ks[0]] + ks[1..];
      assert ([x] + s)[1..] == s;
      if x != ks[0] {
        assert Without([x] + s, ks[0]) == [x] + Without(s, ks[0]);
        WithoutAllCons(x, Without(s, ks[0]), ks[1..]);
      } else {
        assert Without([x] + s, x) == Without(s, x);
      }
    }
  }

  lemma {:induction false} WithoutAllEmpty(ks: seq<Key>)
    ensures WithoutAll([], ks) == []
    decreases |ks|
  {
    if ks == [] {
    } else {
      WithoutAllEmpty(ks[1..]);
    }
  }

  lemma {:induction false} WithoutAllIsOutside(s: seq<Key>, ks: seq<Key>, g: Group)
    requires forall k :: k in s ==> (k in ks <==> GroupOf(k) == g)
    ensures WithoutAll(s, ks) == Outside(s, {g})
  {
    if s == [] {
      WithoutAllEmpty(ks);
    } else {
      assert s == [s[0]] + s[1..];
      WithoutAllCons(s[0], s[1..], ks);
      WithoutAllIsOutside(s[1..], ks, g);
    }
  }

  lemma RemoveGroupKeys<V>(t: Table<V>, g: Group)
    requires t.Consistent()
    ensures t.RemoveGroup(g).master.keys == Outside(t.master.keys, {g})
  {
    var keys := t.master.keys;
    FilterContents(keys, g);
    if g in t.index {
      PopAllKeys(t.master, t.index[g].keys);
      WithoutAllIsOutside(keys, t.index[g].keys, g);
    } else {
      assert forall k :: k in keys ==> GroupOf(k) in Groups(t.master);
      WithoutAllIsOutside(keys, [], g);
    }
  }

  lemma RemoveGroupIndex<V>(t: Table<V>, g: Group)
    ensures t.RemoveGroup(g).index == t.index - {g}
  {
  }

  lemma WithoutOneMore<V>(t: Table<V>, gs: set<Group>, g: Group, u: Table<V>)
    requires u.master.keys == Outside(Outside(t.master.keys, gs), {g})
    requires LacksGroup(t.WithoutGroups(gs).master, g, u.master)
    requires u.index == t.WithoutGroups(gs).index - {g}
    ensures u == t.WithoutGroups(gs + {g})
  {
    OutsideTwice(t.master.keys, gs, g);
    assert u.index == t.index - (gs + {g});
    assert u.master.vals == t.WithoutGroups(gs + {g}).master.vals;
  }

  /** Dropping buckets one after the other amounts to leaving out all their groups. */
  lemma DropOneMore<V>(t: Table<V>, gs: set<Group>, g: Group)
    requires t.WithoutGroups(gs).Consistent()
    ensures t.WithoutGroups(gs).RemoveGroup(g) == t.WithoutGroups(gs + {g})
  {
    var u := t.WithoutGroups(gs);
    RemoveGroupKeepsAgreement(u, g);
    RemoveGroupKeys(u, g);
    RemoveGroupIndex(u, g);
    WithoutOneMore(t, gs, g, u.RemoveGroup(g));
  }

  lemma WithoutNoGroups<V>(t: Table<V>)
    ensures t.WithoutGroups({}) == t
  {
    OutsideNothing(t.master.keys);
    assert t.index - {} == t.index;
    assert t.WithoutGroups({}).master.vals == t.master.vals;
  }

  /** The keys of one bucket; none if there is no such bucket. */
  function BucketKeys<V>(t: Table<V>, g: Group): set<Key> {
    if g in t.index then t.index[g].vals.Keys else {}
  }

  lemma BucketIsGroup<V>(t: Table<V>, g: Group)
    requires t.Consistent()
    ensures forall k :: k in BucketKeys(t, g) <==> k in t.master.vals && GroupOf(k) == g
  {
    GroupEmptyIff(t.master, g);
    forall k | k in t.master.vals && GroupOf(k) == g
      ensures g in t.index && k in t.index[g].vals
    {
      assert g in Groups(t.master);
    }
  }

  lemma RemoveGroupVals<V>(t: Table<V>, g: Group)
    requires t.Consistent()
    ensures forall k :: k in BucketKeys(t, g) <==> k in t.master.vals && GroupOf(k) == g
    ensures t.RemoveGroup(g).master.vals == t.master.vals - BucketKeys(t, g)
  {
    RemoveGroupKeepsAgreement(t, g);
    BucketIsGroup(t, g);
  }

  /** A bucket is a dictionary of its own, with values of the master. */
  lemma BucketShape<V>(t: Table<V>, g: Group)
    requires t.Consistent() && g in t.index
    ensures NoDuplicates(t.index[g].keys)
    ensures forall k :: k in t.index[g].keys <==> k in BucketKeys(t, g)
    ensures forall k :: k in t.index[g].keys ==>
              k in t.index[g].vals && k in t.master.vals && t.index[g].vals[k] == t.master.vals[k]
  {
    BucketsMirrorMaster(t, g);
  }

  /** The groups of one object that occur in a table. */
  function GroupsOfObject<V>(t: Table<V>, oid: nat): set<Group> {
    set g | g in t.index && g.oid == oid
  }

  /** What is left without an object's groups is what belongs to other objects, in its order. */
  lemma WithoutObject<V>(t: Table<V>, oid: nat)
    requires t.Consistent()
    ensures var u := t.WithoutGroups(GroupsOfObject(t, oid));
            && u.master.keys == Elsewhere(t.master.keys, oid)
            && u.master.vals == map k | k in t.master.vals && k.oid != oid :: t.master.vals[k]
  {
    var gs := GroupsOfObject(t, oid);
    forall k | k in t.master.vals
      ensures GroupOf(k) in gs <==> k.oid == oid
    {
      assert GroupOf(k) in Groups(t.master);
    }
    OutsideIsElsewhere(t.master.keys, gs, oid);
  }

  lemma {:induction false} WithoutGroupsAgrees<V>(t: Table<V>, gs: set<Group>)
    requires t.Consistent()
    ensures t.WithoutGroups(gs).Consistent()
    ensures |t.WithoutGroups(gs).master.keys| <= |t.master.keys|
  {
    if gs == {} {
      WithoutNoGroups(t);
    } else {
      var g :| g in gs;
      WithoutGroupsAgrees(t, gs - {g});
      DropOneMore(t, gs - {g}, g);
      assert gs - {g} + {g} == gs;
      RemoveGroupKeepsAgreement(t.WithoutGroups(gs - {g}), g);
    }
  }
}
