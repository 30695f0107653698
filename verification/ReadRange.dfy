/** The by-position window of ReadRange (Clause 15.8) and paging through a list with it. */
module ReadRange {
  /** The slice to return and the result flags. */
  datatype Window<T> = Window(items: seq<T>, start: nat, firstItem: bool, lastItem: bool, moreItems: bool)

  function MaxInt(a: int, b: int): int {
    if a < b then b else a
  }

  function MinInt(a: int, b: int): int {
    if b < a then b else a
  }

  /** value[start:end] with nonnegative bounds. */
  function Slice<T>(value: seq<T>, start: nat, end: nat): seq<T> {
    var e := MinInt(end, |value|);
    if start <= e then value[start..e] else []
  }

  function ByPosition<T>(value: seq<T>, reference: nat, count: int): Window<T> {
    var total := |value|;
    var start := if count >= 0 then MaxInt(0, reference - 1) else MaxInt(0, MinInt(total, reference) + count);
    var end := if count >= 0 then MinInt(total, start + count) else MinInt(total, reference);
    Window(Slice(value, start, end), start, start == 0, end >= total, !(end >= total))
  }

  /** Ask for count items from index on, then for the following ones, until no more are announced. */
  ghost function PageForward<T>(value: seq<T>, index: nat, count: int): seq<seq<T>>
    requires 1 <= index && 1 <= count
    decreases |value| + 1 - index
  {
    var w := ByPosition(value, index, count);
    if w.moreItems then [w.items] + PageForward(value, index + count, count) else [w.items]
  }

  /** Ask for the count items ending at index, then for those before them, until the first is included. */
  ghost function PageBackward<T>(value: seq<T>, index: nat, count: int): seq<seq<T>>
    requires 1 <= count && index <= |value|
    decreases index
  {
    var w := ByPosition(value, index, -count);
    if w.firstItem then [w.items] else PageBackward(value, index - count, count) + [w.items]
  }

  function Flatten<T>(pages: seq<seq<T>>): seq<T> {
    if pages == [] then [] else pages[0] + Flatten(pages[1..])
  }

  lemma {:induction false} FlattenSnoc<T>(pages: seq<seq<T>>, last: seq<T>)
    ensures Flatten(pages + [last]) == Flatten(pages) + last
  {
    if pages == [] {
      assert [last][1..] == [];
    } else {
      assert (pages + [last])[1..] == pages[1..] + [last];
      FlattenSnoc(pages[1..], last);
    }
  }

  /** The number of requests for n items, c at a time; one request is made even for none. */
  function Requests(n: nat, c: int): (r: nat)
    requires 1 <= c
    ensures 1 <= r
    decreases n
  {
    if n <= c then 1 else 1 + Requests(n - c, c)
  }

  /** That is max(1, ceil(n / c)): the least positive number of requests that can carry n items. */
  lemma {:induction false} RequestsIsCeiling(n: nat, c: int)
    requires 1 <= c
    ensures n <= Requests(n, c) * c && (Requests(n, c) == 1 || (Requests(n, c) - 1) * c < n)
    decreases n
  {
    if n <= c {
    } else {
      RequestsIsCeiling(n - c, c);
      var r := Requests(n - c, c);
      assert (1 + r) * c == c + r * c;
      assert r * c == (r - 1) * c + c;
    }
  }

  lemma FlattenCons<T>(first: seq<T>, pages: seq<seq<T>>)
    ensures Flatten([first] + pages) == first + Flatten(pages)
  {
    assert ([first] + pages)[1..] == pages;
  }

  lemma ForwardWindow<T>(value: seq<T>, index: nat, count: int)
    requires 1 <= index <= |value| + 1 && 1 <= count
    ensures var w := ByPosition(value, index, count);
            if index - 1 + count < |value| then w.moreItems && w.items == value[index - 1..index - 1 + count]
            else !w.moreItems && w.items == value[index - 1..]
  {
  }

  lemma {:induction false} PageForwardFrom<T>(value: seq<T>, index: nat, count: int)
    requires 1 <= index <= |value| + 1 && 1 <= count
    ensures Flatten(PageForward(value, index, count)) == value[index - 1..]
    ensures |PageForward(value, index, count)| == Requests(|value| + 1 - index, count)
    decreases |value| + 1 - index
  {
    var w := ByPosition(value, index, count);
    ForwardWindow(value, index, count);
    if w.moreItems {
      PageForwardFrom(value, index + count, count);
      FlattenCons(w.items, PageForward(value, index + count, count));
      assert value[index - 1..index - 1 + count] + value[index - 1 + count..] == value[index - 1..];
    } else {
      FlattenCons(w.items, []);
      assert [w.items] + [] == [w.items];
    }
  }

  /** Paging forward from index 1 returns the whole list, in max(1, ceil(n / c)) requests. */
  lemma {:induction false} PagingForwardReassembles<T>(value: seq<T>, count: int)
    requires 1 <= count
    ensures Flatten(PageForward(value, 1, count)) == value
    ensures |PageForward(value, 1, count)| == Requests(|value|, count)
  {
    PageForwardFrom(value, 1, count);
  }

  lemma BackwardWindow<T>(value: seq<T>, index: nat, count: int)
    requires 1 <= count && index <= |value|
    ensures var w := ByPosition(value, index, -count);
            if index <= count then w.firstItem && w.items == value[..index]
            else !w.firstItem && w.items == value[index - count..index]
  {
  }

  lemma {:induction false} PageBackwardFrom<T>(value: seq<T>, index: nat, count: int)
    requires 1 <= count && index <= |value|
    ensures Flatten(PageBackward(value, index, count)) == value[..index]
    ensures |PageBackward(value, index, count)| == Requests(index, count)
    decreases index
  {
    var w := ByPosition(value, index, -count);
    BackwardWindow(value, index, count);
    if w.firstItem {
      FlattenCons(w.items, []);
      assert [w.items] + [] == [w.items];
    } else {
      PageBackwardFrom(value, index - count, count);
      FlattenSnoc(PageBackward(value, index - count, count), w.items);
      assert value[..index - count] + w.items == value[..index];
    }
  }

  /** Paging backward from the last index with a negative count rebuilds the same list. */
  lemma {:induction false} PagingBackwardReassembles<T>(value: seq<T>, count: int)
    requires 1 <= count
    ensures Flatten(PageBackward(value, |value|, count)) == value
    ensures |PageBackward(value, |value|, count)| == Requests(|value|, count)
  {
    PageBackwardFrom(value, |value|, count);
    assert value[..|value|] == value;
  }

  /** A negative count ending at an existing index is the positive window of the same items, flags included. */
  lemma NegativeCountMatchesPositive<T>(value: seq<T>, reference: nat, count: int)
    requires 1 <= reference <= |value| && 1 <= count
    ensures ByPosition(value, reference, -count) ==
            if count < reference then ByPosition(value, reference - count + 1, count)
            else ByPosition(value, 1, reference)
  {
  }

  /** Position i (counting from 0) lies in the requested range; a negative count ends at the reference. */
  ghost predicate Requested(total: nat, reference: nat, count: int, i: nat) {
    if count >= 0 then reference <= i + 1 < reference + count
    else (if reference < total then reference else total) + count < i + 1 <= reference
  }

  ghost predicate Includes<T>(w: Window<T>, i: int) {
    w.start <= i < w.start + |w.items|
  }

  /** A window holds exactly the requested positions of the list, in order. */
  lemma WindowItems<T>(value: seq<T>, reference: nat, count: int)
    requires 1 <= reference
    ensures var w := ByPosition(value, reference, count);
            && (forall i: nat :: i < |value| ==> (Includes(w, i) <==> Requested(|value|, reference, count, i)))
            && forall i :: 0 <= i < |w.items| ==> w.start + i < |value| && w.items[i] == value[w.start + i]
  {
  }

  /**
   * The flags say which ends of the list the window includes, except that an empty window at
   * either end still claims that end: the exceptions, in terms of the request, are these.
   */
  lemma FlagsExactly<T>(value: seq<T>, reference: nat, count: int)
    ensures var w := ByPosition(value, reference, count);
            && ((w.firstItem <==> Includes(w, 0)) <==>
                !(if value == [] then count < 0 || reference <= 1
                  else if count < 0 then reference == 0
                  else count == 0 && reference <= 1))
            && ((w.lastItem <==> Includes(w, |value| - 1)) <==>
                !(value == [] || (count >= 0 && reference > |value|)))
            && (w.moreItems <==> !w.lastItem)
  {
  }

  /** Flags that mislead: the only window of an empty list, and an empty window behind the last item. */
  lemma EmptyWindowsClaimEnds<T>(value: seq<T>, count: int)
    requires count >= 1
    ensures var w := ByPosition<T>([], 1, count); w.items == [] && w.firstItem && w.lastItem && !Includes(w, 0)
    ensures var w := ByPosition(value, |value| + 1, count);
            w.items == [] && w.lastItem && !Includes(w, |value| - 1)
  {
  }
}
