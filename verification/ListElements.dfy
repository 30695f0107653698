/** AddListElement and RemoveListElement (Clauses 15.1 and 15.2) on a list property. */
module ListElements {
  import opened Prelude

  datatype Error = UnknownObject | UnknownProperty | WriteAccessDenied | NotAList | Malformed

  /** What the handlers look up in a property's definition. */
  datatype Definition = Definition(readOnly: bool, datatypeIsList: bool)

  datatype Content<T> = Elements(list: seq<T>) | Scalar

  /** list.remove: drop the first occurrence, if there is one. */
  function RemoveFirst<T(==)>(s: seq<T>, x: T): seq<T> {
    if s == [] then []
    else if s[0] == x then s[1..]
    else [s[0]] + RemoveFirst(s[1..], x)
  }

  function RemoveEach<T(==)>(s: seq<T>, xs: seq<T>): seq<T>
    decreases |xs|
  {
    if xs == [] then s else RemoveEach(RemoveFirst(s, xs[0]), xs[1..])
  }

  class BACnetObject<T(==)> {
    const definitions: map<nat, Definition>
    var properties: map<nat, Content<T>>

    constructor (definitions: map<nat, Definition>, properties: map<nat, Content<T>>)
      ensures this.definitions == definitions && this.properties == properties
    {
      this.definitions, this.properties := definitions, properties;
    }
  }

  /** The first check a request fails, in the order the handlers make them. */
  ghost function Refusal<T>(obj: BACnetObject?<T>, prop: nat, createsMissing: bool): Option<Error>
    reads obj
  {
    if obj == null then Some(UnknownObject)
    else if prop !in obj.definitions then Some(UnknownProperty)
    else if obj.definitions[prop].readOnly then Some(WriteAccessDenied)
    else if prop !in obj.properties then
      if createsMissing && obj.definitions[prop].datatypeIsList then None else Some(NotAList)
    else if obj.properties[prop].Scalar? then Some(NotAList)
    else None
  }

  /**
   * Appends the decoded elements.  A missing list property is created even when decoding
   * then fails; nothing else changes on failure.
   */
  method HandleAddListElement<T(==)>(obj: BACnetObject?<T>, prop: nat, decoded: Option<seq<T>>)
    returns (outcome: Outcome<(), Error>)
    modifies obj
    ensures var refusal := old(Refusal(obj, prop, true));
            if refusal.Some? then
              && outcome == Failed(refusal.value)
              && (obj != null ==> obj.properties == old(obj.properties))
            else if decoded.None? then
              && outcome == Failed(Malformed)
              && obj.properties ==
                 old(obj.properties)[prop := if prop in old(obj.properties) then old(obj.properties)[prop]
                                             else Elements([])]
            else
              && outcome == Ok(())
              && obj.properties ==
                 old(obj.properties)[prop := Elements((if prop in old(obj.properties)
                                                       then old(obj.properties)[prop].list else [])
                                                      + decoded.value)]
    ensures outcome == Failed(UnknownObject) <==> obj == null
    ensures outcome == Failed(UnknownProperty) <==> obj != null && prop !in obj.definitions
    ensures outcome == Failed(WriteAccessDenied) <==>
              obj != null && prop in obj.definitions && obj.definitions[prop].readOnly
    ensures outcome == Failed(NotAList) <==>
              && obj != null && prop in obj.definitions && !obj.definitions[prop].readOnly
              && if prop in old(obj.properties) then old(obj.properties)[prop].Scalar?
                 else !obj.definitions[prop].datatypeIsList
  {
    if obj == null {
      return Failed(UnknownObject);
    }
    if prop !in obj.definitions {
      return Failed(UnknownProperty);
    }
    if obj.definitions[prop].readOnly {
      return Failed(WriteAccessDenied);
    }
    if prop !in obj.properties || obj.properties[prop].Scalar? {
      if prop !in obj.properties && obj.definitions[prop].datatypeIsList {
        obj.properties := obj.properties[prop := Elements([])];
      } else {
        return Failed(NotAList);
      }
    }
    if decoded.None? {
      return Failed(Malformed);
    }
    obj.properties := obj.properties[prop := Elements(obj.properties[prop].list + decoded.value)];
    return Ok(());
  }

  method HandleRemoveListElement<T(==)>(obj: BACnetObject?<T>, prop: nat, decoded: Option<seq<T>>)
    returns (outcome: Outcome<(), Error>)
    modifies obj
    ensures var refusal := old(Refusal(obj, prop, false));
            if refusal.Some? || decoded.None? then
              && outcome == Failed(if refusal.Some? then refusal.value else Malformed)
              && (obj != null ==> obj.properties == old(obj.properties))
            else
              && outcome == Ok(())
              && obj.properties ==
                 old(obj.properties)[prop := Elements(RemoveEach(old(obj.properties)[prop].list, decoded.value))]
    ensures outcome == Failed(UnknownObject) <==> obj == null
    ensures outcome == Failed(UnknownProperty) <==> obj != null && prop !in obj.definitions
    ensures outcome == Failed(WriteAccessDenied) <==>
              obj != null && prop in obj.definitions && obj.definitions[prop].readOnly
    ensures outcome == Failed(NotAList) <==>
              && obj != null && prop in obj.definitions && !obj.definitions[prop].readOnly
              && (prop in old(obj.properties) ==> old(obj.properties)[prop].Scalar?)
  {
    if obj == null {
      return Failed(UnknownObject);
    }
    if prop !in obj.definitions {
      return Failed(UnknownProperty);
    }
    if obj.definitions[prop].readOnly {
      return Failed(WriteAccessDenied);
    }
    if prop !in obj.properties || obj.properties[prop].Scalar? {
      return Failed(NotAList);
    }
    if decoded.None? {
      return Failed(Malformed);
    }
    var xs := decoded.value;
    ghost var start := obj.properties[prop].list;
    for i := 0 to |xs|
      invariant prop in obj.properties && obj.properties[prop].Elements?
      invariant obj.properties == old(obj.properties)[prop := obj.properties[prop]]
      invariant RemoveEach(obj.properties[prop].list, xs[i..]) == RemoveEach(start, xs)
    {
      assert xs[i..][1..] == xs[i + 1..];
      obj.properties := obj.properties[prop := Elements(RemoveFirst(obj.properties[prop].list, xs[i]))];
    }
    return Ok(());
  }

  // ---------------------------------------------------------------------
  // What removal means.
  // ---------------------------------------------------------------------

  /** One pass over the list that drops an element as long as the budget still holds a copy of it. */
  ghost function DropWithin<T>(s: seq<T>, budget: multiset<T>): seq<T> {
    if s == [] then []
    else if s[0] in budget then DropWithin(s[1..], budget - multiset{s[0]})
    else [s[0]] + DropWithin(s[1..], budget)
  }

  lemma {:induction false} DropNothing<T>(s: seq<T>)
    ensures DropWithin(s, multiset{}) == s
  {
    if s == [] {
    } else {
      DropNothing(s[1..]);
    }
  }

  lemma {:induction false} DropOneFirst<T>(s: seq<T>, x: T, budget: multiset<T>)
    ensures DropWithin(RemoveFirst(s, x), budget) == DropWithin(s, budget + multiset{x})
  {
    if s == [] {
    } else if s[0] == x {
      assert budget + multiset{x} - multiset{x} == budget;
    } else {
      var rest := [s[0]] + RemoveFirst(s[1..], x);
      assert rest[1..] == RemoveFirst(s[1..], x);
      if s[0] in budget {
        DropOneFirst(s[1..], x, budget - multiset{s[0]});
        assert budget - multiset{s[0]} + multiset{x} == budget + multiset{x} - multiset{s[0]};
      } else {
        DropOneFirst(s[1..], x, budget);
      }
    }
  }

  /** Removing element by element is the single pass, so the order of the request does not matter. */
  lemma {:induction false} RemovalIsOnePass<T>(s: seq<T>, xs: seq<T>)
    ensures RemoveEach(s, xs) == DropWithin(s, multiset(xs))
    decreases |xs|
  {
    if xs == [] {
      DropNothing(s);
    } else {
      RemovalIsOnePass(RemoveFirst(s, xs[0]), xs[1..]);
      DropOneFirst(s, xs[0], multiset(xs[1..]));
      assert xs == [xs[0]] + xs[1..];
      assert multiset(xs) == multiset(xs[1..]) + multiset{xs[0]};
    }
  }

  lemma {:induction false} DropConserves<T>(s: seq<T>, budget: multiset<T>)
    ensures multiset(DropWithin(s, budget)) == multiset(s) - budget
  {
    if s == [] {
    } else {
      assert s == [s[0]] + s[1..];
      DropConserves(s[1..], if s[0] in budget then budget - multiset{s[0]} else budget);
    }
  }

  lemma {:induction false} DropKeepsOrder<T>(s: seq<T>, budget: multiset<T>)
    ensures Subsequence(DropWithin(s, budget), s)
  {
    if s == [] {
    } else if s[0] in budget {
      DropKeepsOrder(s[1..], budget - multiset{s[0]});
    } else {
      DropKeepsOrder(s[1..], budget);
      assert DropWithin(s, budget)[1..] == DropWithin(s[1..], budget);
    }
  }

  /** RemoveListElement leaves a subsequence whose multiset is the saturating difference. */
  lemma {:induction false} RemovalConserves<T>(s: seq<T>, xs: seq<T>)
    ensures multiset(RemoveEach(s, xs)) == multiset(s) - multiset(xs)
    ensures Subsequence(RemoveEach(s, xs), s)
  {
    RemovalIsOnePass(s, xs);
    DropConserves(s, multiset(xs));
    DropKeepsOrder(s, multiset(xs));
  }

  /** Adding elements and removing them again restores the elements, though not always their order. */
  lemma {:induction false} AddThenRemove<T>(s: seq<T>, xs: seq<T>)
    ensures multiset(RemoveEach(s + xs, xs)) == multiset(s)
  {
    RemovalConserves(s + xs, xs);
  }

  lemma {:induction false} DropAll<T>(xs: seq<T>)
    ensures DropWithin(xs, multiset(xs)) == []
  {
    if xs == [] {
    } else {
      assert xs == [xs[0]] + xs[1..];
      assert multiset(xs) - multiset{xs[0]} == multiset(xs[1..]);
      DropAll(xs[1..]);
    }
  }

  lemma {:induction false} DropSuffix<T>(s: seq<T>, xs: seq<T>, budget: multiset<T>)
    requires budget == multiset(xs) && forall x :: x in xs ==> x !in s
    ensures DropWithin(s + xs, budget) == s
  {
    if s == [] {
      assert s + xs == xs;
      DropAll(xs);
    } else {
      assert (s + xs)[1..] == s[1..] + xs;
      assert s[0] in s && s[0] !in xs && s[0] !in budget;
      forall x | x in xs
        ensures x !in s[1..]
      {
        assert x !in s;
      }
      DropSuffix(s[1..], xs, budget);
    }
  }

  /** The order is restored as well when none of the elements was there before. */
  lemma {:induction false} AddThenRemoveFresh<T>(s: seq<T>, xs: seq<T>)
    requires forall x :: x in xs ==> x !in s
    ensures RemoveEach(s + xs, xs) == s
  {
    RemovalIsOnePass(s + xs, xs);
    DropSuffix(s, xs, multiset(xs));
  }

  lemma OrderMayChange()
    ensures RemoveEach([1, 2] + [1], [1]) == [2, 1]
  {
    assert [1, 2] + [1] == [1, 2, 1];
    assert RemoveFirst([1, 2, 1], 1) == [2, 1];
  }
}
