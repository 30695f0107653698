/**
 * Traversal of a Structured View hierarchy: a depth-limited depth-first search that shares
 * one visited set and one result list, over a graph that may contain cycles.
 */
module Hierarchy {
  import opened Prelude

  const STRUCTURED_VIEW := 29

  predicate IsView(o: ObjectIdentifier) {
    o.objectType == STRUCTURED_VIEW
  }

  /** A decoded element of a subordinate list; anything but an object identifier is skipped. */
  datatype Element = Object(oid: ObjectIdentifier) | Other

  /**
   * What reading SUBORDINATE_LIST yields: an error or a timeout, which are caught; a Reject, an
   * Abort or bytes that do not decode, which are not; a value that is no list; or a list.
   */
  datatype Reply = ReadFailed | Uncaught | NotAList | Subordinates(elements: seq<Element>)

  /** The replies of the remote device; an object it does not have answers with an error. */
  type Device = map<ObjectIdentifier, Reply>

  function Elements(d: Device, node: ObjectIdentifier): seq<Element> {
    if node in d && d[node].Subordinates? then d[node].elements else []
  }

  /** Reading one of the views raises what nothing catches. */
  ghost predicate Breaks(d: Device, views: seq<ObjectIdentifier>) {
    exists v :: v in views && v in d && d[v].Uncaught?
  }

  function Objects(es: seq<Element>): seq<ObjectIdentifier> {
    if es == [] then []
    else (if es[0].Object? then [es[0].oid] else []) + Objects(es[1..])
  }

  /** What a visit adds to the result, the visited set after it, and the views it expanded, in order. */
  datatype Trip = Trip(found: seq<ObjectIdentifier>, visited: set<ObjectIdentifier>, expanded: seq<ObjectIdentifier>)

  function Visit(d: Device, node: ObjectIdentifier, depth: int, visited: set<ObjectIdentifier>): Trip
    decreases depth, |Elements(d, node)| + 1
  {
    if node in visited || depth <= 0 then Trip([], visited, [])
    else var below := VisitAll(d, Elements(d, node), depth, visited + {node});
         below.(expanded := [node] + below.expanded)
  }

  function VisitAll(d: Device, es: seq<Element>, depth: int, visited: set<ObjectIdentifier>): Trip
    requires depth > 0
    decreases depth, |es|
  {
    if es == [] then Trip([], visited, [])
    else if es[0].Other? then VisitAll(d, es[1..], depth, visited)
    else
      var first := if IsView(es[0].oid) then Visit(d, es[0].oid, depth - 1, visited) else Trip([], visited, []);
      var rest := VisitAll(d, es[1..], depth, first.visited);
      Trip([es[0].oid] + first.found + rest.found, rest.visited, first.expanded + rest.expanded)
  }

  /** What is still to be found makes up the whole: `start` and `now` are the results before it and by now. */
  ghost predicate Remains(d: Device, whole: Trip, start: seq<ObjectIdentifier>, rest: Trip,
                          now: seq<ObjectIdentifier>) {
    && start + whole.found == now + rest.found
    && whole.visited == rest.visited
    && (Breaks(d, whole.expanded) <==> Breaks(d, rest.expanded))
  }

  lemma BreaksConcat(d: Device, a: seq<ObjectIdentifier>, b: seq<ObjectIdentifier>)
    ensures Breaks(d, a + b) <==> Breaks(d, a) || Breaks(d, b)
  {
    assert forall v :: v in a + b <==> v in a || v in b;
  }

  /** Taking element i of a list out of what remains. */
  lemma VisitNext(d: Device, raw: seq<Element>, i: nat, depth: int, visited: set<ObjectIdentifier>, whole: Trip,
                  start: seq<ObjectIdentifier>, now: seq<ObjectIdentifier>)
    requires i < |raw| && depth > 0 && Remains(d, whole, start, VisitAll(d, raw[i..], depth, visited), now)
    ensures raw[i].Other? ==> Remains(d, whole, start, VisitAll(d, raw[i + 1..], depth, visited), now)
    ensures raw[i].Object? && !IsView(raw[i].oid) ==>
              Remains(d, whole, start, VisitAll(d, raw[i + 1..], depth, visited), now + [raw[i].oid])
    ensures raw[i].Object? && IsView(raw[i].oid) ==>
              var first := Visit(d, raw[i].oid, depth - 1, visited);
              var rest := VisitAll(d, raw[i + 1..], depth, first.visited);
              if Breaks(d, first.expanded) then Breaks(d, whole.expanded)
              else Remains(d, whole, start, rest, now + [raw[i].oid] + first.found)
  {
    assert raw[i..][1..] == raw[i + 1..] && raw[i..][0] == raw[i];
    if raw[i].Object? {
      var first := if IsView(raw[i].oid) then Visit(d, raw[i].oid, depth - 1, visited) else Trip([], visited, []);
      var rest := VisitAll(d, raw[i + 1..], depth, first.visited);
      BreaksConcat(d, first.expanded, rest.expanded);
      assert now + ([raw[i].oid] + first.found + rest.found) == now + [raw[i].oid] + first.found + rest.found;
    }
  }

  class Traversal {
    var result: seq<ObjectIdentifier>
    var visited: set<ObjectIdentifier>

    constructor ()
      ensures result == [] && visited == {}
    {
      result, visited := [], {};
    }

    /** What is not caught raises out of the whole traversal, and what was found is lost. */
    method Recurse(d: Device, node: ObjectIdentifier, depth: int) returns (raised: bool)
      modifies this
      ensures raised <==> Breaks(d, Visit(d, node, depth, old(visited)).expanded)
      ensures !raised ==> result == old(result) + Visit(d, node, depth, old(visited)).found
      ensures !raised ==> visited == Visit(d, node, depth, old(visited)).visited
      decreases depth
    {
      if node in visited || depth <= 0 {
        return false;
      }
      visited := visited + {node};
      ghost var whole := VisitAll(d, Elements(d, node), depth, visited);
      BreaksConcat(d, [node], whole.expanded);
      if node !in d || !d[node].Subordinates? {
        return node in d && d[node].Uncaught?;
      }
      var raw := d[node].elements;
      for i := 0 to |raw|
        invariant Remains(d, whole, old(result), VisitAll(d, raw[i..], depth, visited), result)
      {
        VisitNext(d, raw, i, depth, visited, whole, old(result), result);
        if raw[i].Object? {
          result := result + [raw[i].oid];
          if IsView(raw[i].oid) {
            raised := Recurse(d, raw[i].oid, depth - 1);
            if raised {
              return;
            }
          }
        }
      }
      return false;
    }
  }

  method TraverseHierarchy(d: Device, root: ObjectIdentifier, maxDepth: int := 10)
    returns (result: Option<seq<ObjectIdentifier>>)
    ensures var t := Visit(d, root, maxDepth, {});
            result == if Breaks(d, t.expanded) then None else Some(t.found)
  {
    ghost var found := Visit(d, root, maxDepth, {}).found;
    assert [] + found == found;
    var t := new Traversal();
    var raised := t.Recurse(d, root, maxDepth);
    result := if raised then None else Some(t.result);
  }

  // ---------------------------------------------------------------------
  // No view is expanded twice, and every expanded list is reported whole.
  // ---------------------------------------------------------------------

  ghost predicate ExpandsOnce(t: Trip, visited: set<ObjectIdentifier>) {
    && NoDuplicates(t.expanded)
    && visited <= t.visited
    && forall v :: v in t.expanded <==> v in t.visited && v !in visited
  }

  lemma NoDuplicatesConcat<T>(a: seq<T>, b: seq<T>)
    requires NoDuplicates(a) && NoDuplicates(b) && forall x :: x in a ==> x !in b
    ensures NoDuplicates(a + b)
  {
    var ab := a + b;
    forall i, j | 0 <= i < j < |ab|
      ensures ab[i] != ab[j]
    {
      assert i < |a| ==> ab[i] in a;
      assert j >= |a| ==> ab[j] in b;
    }
  }

  lemma {:induction false} VisitExpandsOnce(d: Device, node: ObjectIdentifier, depth: int,
                                            visited: set<ObjectIdentifier>)
    ensures ExpandsOnce(Visit(d, node, depth, visited), visited)
    decreases depth, |Elements(d, node)| + 1
  {
    if node !in visited && depth > 0 {
      VisitAllExpandsOnce(d, Elements(d, node), depth, visited + {node});
    }
  }

  lemma {:induction false} VisitAllExpandsOnce(d: Device, es: seq<Element>, depth: int, visited: set<ObjectIdentifier>)
    requires depth > 0
    ensures ExpandsOnce(VisitAll(d, es, depth, visited), visited)
    decreases depth, |es|
  {
    if es == [] {
    } else if es[0].Other? {
      VisitAllExpandsOnce(d, es[1..], depth, visited);
    } else {
      var o := es[0].oid;
      var first := if IsView(o) then Visit(d, o, depth - 1, visited) else Trip([], visited, []);
      if IsView(o) {
        VisitExpandsOnce(d, o, depth - 1, visited);
      }
      VisitAllExpandsOnce(d, es[1..], depth, first.visited);
      var rest := VisitAll(d, es[1..], depth, first.visited);
      forall v | v in first.expanded
        ensures v !in rest.expanded
      {
        assert v in first.visited;
      }
      NoDuplicatesConcat(first.expanded, rest.expanded);
    }
  }

  /** All subordinates of the given views together, with their multiplicities. */
  ghost function Gather(d: Device, views: seq<ObjectIdentifier>): multiset<ObjectIdentifier> {
    if views == [] then multiset{}
    else multiset(Objects(Elements(d, views[0]))) + Gather(d, views[1..])
  }

  lemma {:induction false} GatherConcat(d: Device, a: seq<ObjectIdentifier>, b: seq<ObjectIdentifier>)
    ensures Gather(d, a + b) == Gather(d, a) + Gather(d, b)
  {
    if a == [] {
      assert a + b == b;
    } else {
      assert (a + b)[1..] == a[1..] + b;
      GatherConcat(d, a[1..], b);
    }
  }

  /** What a walk over the list es found: its objects, and the lists of the views it expanded. */
  ghost predicate FindsExpanded(d: Device, es: seq<Element>, t: Trip) {
    multiset(t.found) == multiset(Objects(es)) + Gather(d, t.expanded)
  }

  /** What a visit found: the lists of the views it expanded. */
  ghost predicate FindsAll(d: Device, t: Trip) {
    multiset(t.found) == Gather(d, t.expanded)
  }

  lemma ExpandingFinds(d: Device, node: ObjectIdentifier, below: Trip)
    requires FindsExpanded(d, Elements(d, node), below)
    ensures FindsAll(d, below.(expanded := [node] + below.expanded))
  {
    assert ([node] + below.expanded)[1..] == below.expanded;
  }

  lemma SkippingFinds(d: Device, es: seq<Element>, t: Trip)
    requires es != [] && es[0].Other? && FindsExpanded(d, es[1..], t)
    ensures FindsExpanded(d, es, t)
  {
    assert Objects(es) == Objects(es[1..]);
  }

  lemma Splice<T>(o: T, a: seq<T>, b: seq<T>, tail: seq<T>, ga: multiset<T>, gb: multiset<T>)
    requires multiset(a) == ga && multiset(b) == multiset(tail) + gb
    ensures multiset([o] + a + b) == multiset([o] + tail) + (ga + gb)
  {
  }

  lemma FoundTogether(d: Device, es: seq<Element>, first: Trip, rest: Trip)
    requires es != [] && es[0].Object?
    requires FindsAll(d, first)
    requires FindsExpanded(d, es[1..], rest)
    ensures FindsExpanded(d, es,
              Trip([es[0].oid] + first.found + rest.found, rest.visited, first.expanded + rest.expanded))
  {
    GatherConcat(d, first.expanded, rest.expanded);
    Splice(es[0].oid, first.found, rest.found, Objects(es[1..]), Gather(d, first.expanded), Gather(d, rest.expanded));
  }

  lemma {:induction false} VisitFindsExpanded(d: Device, node: ObjectIdentifier, depth: int,
                                              visited: set<ObjectIdentifier>)
    ensures FindsAll(d, Visit(d, node, depth, visited))
    decreases depth, |Elements(d, node)| + 1
  {
    if node !in visited && depth > 0 {
      VisitAllFindsExpanded(d, Elements(d, node), depth, visited + {node});
      ExpandingFinds(d, node, VisitAll(d, Elements(d, node), depth, visited + {node}));
    }
  }

  lemma {:induction false} VisitAllFindsExpanded(d: Device, es: seq<Element>, depth: int,
                                                 visited: set<ObjectIdentifier>)
    requires depth > 0
    ensures FindsExpanded(d, es, VisitAll(d, es, depth, visited))
    decreases depth, |es|
  {
    if es == [] {
      assert Gather(d, []) == multiset{};
    } else if es[0].Other? {
      VisitAllFindsExpanded(d, es[1..], depth, visited);
      SkippingFinds(d, es, VisitAll(d, es[1..], depth, visited));
    } else {
      var o := es[0].oid;
      var first := if IsView(o) then Visit(d, o, depth - 1, visited) else Trip([], visited, []);
      if IsView(o) {
        VisitFindsExpanded(d, o, depth - 1, visited);
      }
      assert FindsAll(d, first);
      var rest := VisitAll(d, es[1..], depth, first.visited);
      VisitAllFindsExpanded(d, es[1..], depth, first.visited);
      FoundTogether(d, es, first, rest);
    }
  }

  // ---------------------------------------------------------------------
  // The list of every expanded view keeps its order.
  // ---------------------------------------------------------------------

  /** The subordinates of view v are found in the order they are listed in. */
  ghost predicate InOrder(d: Device, v: ObjectIdentifier, found: seq<ObjectIdentifier>) {
    Subsequence(Objects(Elements(d, v)), found)
  }

  lemma OrderTogether(d: Device, es: seq<Element>, first: Trip, rest: Trip)
    requires es != [] && es[0].Object?
    requires forall v :: v in first.expanded ==> InOrder(d, v, first.found)
    requires Subsequence(Objects(es[1..]), rest.found) && forall v :: v in rest.expanded ==> InOrder(d, v, rest.found)
    ensures var found := [es[0].oid] + first.found + rest.found;
            && Subsequence(Objects(es), found)
            && forall v :: v in first.expanded + rest.expanded ==> InOrder(d, v, found)
  {
    var o, found := es[0].oid, [es[0].oid] + first.found + rest.found;
    assert found[1..] == first.found + rest.found;
    assert Objects(es) == [o] + Objects(es[1..]) && ([o] + Objects(es[1..]))[1..] == Objects(es[1..]);
    SubsequenceInFront(Objects(es[1..]), first.found, rest.found);
    forall v | v in first.expanded + rest.expanded
      ensures InOrder(d, v, found)
    {
      var list := Objects(Elements(d, v));
      if v in first.expanded {
        SubsequenceInFront(list, [o], first.found);
        SubsequenceBehind(list, [o] + first.found, rest.found);
      } else {
        SubsequenceInFront(list, [o] + first.found, rest.found);
      }
    }
  }

  lemma {:induction false} VisitKeepsOrder(d: Device, node: ObjectIdentifier, depth: int,
                                           visited: set<ObjectIdentifier>)
    ensures var t := Visit(d, node, depth, visited); forall v :: v in t.expanded ==> InOrder(d, v, t.found)
    decreases depth, |Elements(d, node)| + 1
  {
    if node in visited || depth <= 0 {
    } else {
      VisitAllKeepsOrder(d, Elements(d, node), depth, visited + {node});
    }
  }

  lemma {:induction false} VisitAllKeepsOrder(d: Device, es: seq<Element>, depth: int, visited: set<ObjectIdentifier>)
    requires depth > 0
    ensures var t := VisitAll(d, es, depth, visited);
            && Subsequence(Objects(es), t.found)
            && forall v :: v in t.expanded ==> InOrder(d, v, t.found)
    decreases depth, |es|
  {
    if es == [] {
    } else if es[0].Other? {
      VisitAllKeepsOrder(d, es[1..], depth, visited);
      assert Objects(es) == Objects(es[1..]);
    } else {
      var o := es[0].oid;
      var first := if IsView(o) then Visit(d, o, depth - 1, visited) else Trip([], visited, []);
      if IsView(o) {
        VisitKeepsOrder(d, o, depth - 1, visited);
      }
      forall v | v in first.expanded
        ensures InOrder(d, v, first.found)
      {
        assert first == Visit(d, o, depth - 1, visited);
      }
      VisitAllKeepsOrder(d, es[1..], depth, first.visited);
      OrderTogether(d, es, first, VisitAll(d, es[1..], depth, first.visited));
    }
  }

  // ---------------------------------------------------------------------
  // Reachability.
  // ---------------------------------------------------------------------

  /** w is a Structured View (object type 29) listed in the subordinates of v. */
  ghost predicate Edge(d: Device, v: ObjectIdentifier, w: ObjectIdentifier) {
    w.objectType == 29 && v in d && d[v].Subordinates? && Object(w) in d[v].elements
  }

  ghost predicate IsPath(d: Device, path: seq<ObjectIdentifier>) {
    path != [] && forall i :: 0 <= i < |path| - 1 ==> Edge(d, path[i], path[i + 1])
  }

  ghost predicate Reaches(d: Device, a: ObjectIdentifier, b: ObjectIdentifier) {
    exists path :: IsPath(d, path) && path[0] == a && path[|path| - 1] == b
  }

  ghost predicate Closed(d: Device, s: set<ObjectIdentifier>) {
    forall v, w :: v in s && Edge(d, v, w) ==> w in s
  }

  lemma ReachesItself(d: Device, a: ObjectIdentifier)
    ensures Reaches(d, a, a)
  {
    assert IsPath(d, [a]);
  }

  lemma ReachesFurther(d: Device, a: ObjectIdentifier, v: ObjectIdentifier, w: ObjectIdentifier)
    requires Reaches(d, a, v) && Edge(d, v, w)
    ensures Reaches(d, a, w)
  {
    var path :| IsPath(d, path) && path[0] == a && path[|path| - 1] == v;
    assert IsPath(d, path + [w]);
  }

  lemma {:induction false} ClosedHoldsPaths(d: Device, s: set<ObjectIdentifier>, path: seq<ObjectIdentifier>)
    requires Closed(d, s) && IsPath(d, path) && path[0] in s
    ensures path[|path| - 1] in s
  {
    if |path| == 1 {
    } else {
      assert Edge(d, path[0], path[1]);
      ClosedHoldsPaths(d, s, path[1..]);
    }
  }

  /** Whatever the depth, only views reachable from root are expanded. */
  lemma {:induction false} VisitIsSound(d: Device, root: ObjectIdentifier, node: ObjectIdentifier, depth: int,
                                        visited: set<ObjectIdentifier>)
    requires Reaches(d, root, node)
    ensures forall v :: v in Visit(d, node, depth, visited).visited ==> v in visited || Reaches(d, root, v)
    decreases depth, |Elements(d, node)| + 1
  {
    if node !in visited && depth > 0 {
      VisitAllIsSound(d, root, node, Elements(d, node), depth, visited + {node});
    }
  }

  lemma {:induction false} VisitAllIsSound(d: Device, root: ObjectIdentifier, node: ObjectIdentifier, es: seq<Element>,
                                           depth: int, visited: set<ObjectIdentifier>)
    requires depth > 0 && Reaches(d, root, node)
    requires forall e :: e in es ==> e in Elements(d, node)
    ensures forall v :: v in VisitAll(d, es, depth, visited).visited ==> v in visited || Reaches(d, root, v)
    decreases depth, |es|
  {
    if es == [] {
    } else if es[0].Other? {
      VisitAllIsSound(d, root, node, es[1..], depth, visited);
    } else {
      var o := es[0].oid;
      assert es[0] in es;
      var first := if IsView(o) then Visit(d, o, depth - 1, visited) else Trip([], visited, []);
      if IsView(o) {
        ReachesFurther(d, root, node, o);
        VisitIsSound(d, root, o, depth - 1, visited);
      }
      VisitAllIsSound(d, root, node, es[1..], depth, first.visited);
    }
  }

  /** The views expanded since `before` have all their subordinate views in `after`. */
  ghost predicate ClosedSince(d: Device, before: set<ObjectIdentifier>, after: set<ObjectIdentifier>) {
    before <= after && forall v, w :: v in after && v !in before && Edge(d, v, w) ==> w in after
  }

  lemma RemovingOne(r: set<ObjectIdentifier>, visited: set<ObjectIdentifier>, node: ObjectIdentifier)
    requires node in r && node !in visited
    ensures |r - (visited + {node})| == |r - visited| - 1
  {
    assert r - (visited + {node}) == (r - visited) - {node};
  }

  lemma {:induction false} SubsetSize(a: set<ObjectIdentifier>, b: set<ObjectIdentifier>)
    requires a <= b
    ensures |a| <= |b|
  {
    if a == {} {
    } else {
      var x :| x in a;
      SubsetSize(a - {x}, b - {x});
    }
  }

  lemma SmallerRest(r: set<ObjectIdentifier>, a: set<ObjectIdentifier>, b: set<ObjectIdentifier>)
    requires a <= b
    ensures |r - b| <= |r - a|
  {
    SubsetSize(r - b, r - a);
  }

  /**
   * A depth of at least the number of views not yet visited is never exhausted: the visit is
   * complete, and any other such depth gives the same trip.
   */
  lemma {:induction false} VisitIsComplete(d: Device, r: set<ObjectIdentifier>, node: ObjectIdentifier,
                                           depth: int, depth': int, visited: set<ObjectIdentifier>)
    requires Closed(d, r) && node in r && visited <= r
    requires depth >= |r - visited| && depth' >= |r - visited|
    ensures var t := Visit(d, node, depth, visited);
            && node in t.visited
            && t.visited <= r
            && ClosedSince(d, visited, t.visited)
            && t == Visit(d, node, depth', visited)
    decreases depth, |Elements(d, node)| + 1
  {
    if node !in visited {
      RemovingOne(r, visited, node);
      forall o | Object(o) in Elements(d, node) && IsView(o)
        ensures o in r
      {
        assert Edge(d, node, o);
      }
      VisitAllIsComplete(d, r, Elements(d, node), depth, depth', visited + {node});
    }
  }

  lemma {:induction false} VisitAllIsComplete(d: Device, r: set<ObjectIdentifier>, es: seq<Element>,
                                              depth: int, depth': int, visited: set<ObjectIdentifier>)
    requires Closed(d, r) && visited <= r
    requires forall o :: Object(o) in es && IsView(o) ==> o in r
    requires depth > |r - visited| && depth' > |r - visited|
    ensures var t := VisitAll(d, es, depth, visited);
            && (forall o :: Object(o) in es && IsView(o) ==> o in t.visited)
            && t.visited <= r
            && ClosedSince(d, visited, t.visited)
            && t == VisitAll(d, es, depth', visited)
    decreases depth, |es|
  {
    if es == [] {
    } else if es[0].Other? {
      VisitAllIsComplete(d, r, es[1..], depth, depth', visited);
    } else {
      var o := es[0].oid;
      assert es[0] == Object(o);
      var first := if IsView(o) then Visit(d, o, depth - 1, visited) else Trip([], visited, []);
      if IsView(o) {
        VisitIsComplete(d, r, o, depth - 1, depth' - 1, visited);
      }
      SmallerRest(r, visited, first.visited);
      VisitAllIsComplete(d, r, es[1..], depth, depth', first.visited);
    }
  }

  /** Every object the device mentions, and the root. */
  ghost function Mentioned(d: Device, root: ObjectIdentifier): set<ObjectIdentifier> {
    {root} + set v, e | v in d && e in Elements(d, v) && e.Object? :: e.oid
  }

  /** The views reachable from root (root included). */
  ghost function ReachableViews(d: Device, root: ObjectIdentifier): set<ObjectIdentifier> {
    Visit(d, root, |Mentioned(d, root)|, {}).visited
  }

  lemma MentionedIsClosed(d: Device, root: ObjectIdentifier)
    ensures Closed(d, Mentioned(d, root))
  {
    forall v, w | Edge(d, v, w)
      ensures w in Mentioned(d, root)
    {
      assert Object(w) in Elements(d, v) && Object(w).oid == w;
    }
  }

  lemma {:induction false} ReachableViewsAreReachable(d: Device, root: ObjectIdentifier)
    ensures root in ReachableViews(d, root) && Closed(d, ReachableViews(d, root))
    ensures forall v :: v in ReachableViews(d, root) <==> Reaches(d, root, v)
  {
    var all := Mentioned(d, root);
    MentionedIsClosed(d, root);
    assert all - {} == all;
    VisitIsComplete(d, all, root, |all|, |all|, {});
    ReachesItself(d, root);
    VisitIsSound(d, root, root, |all|, {});
    forall v | Reaches(d, root, v)
      ensures v in ReachableViews(d, root)
    {
      var path :| IsPath(d, path) && path[0] == root && path[|path| - 1] == v;
      ClosedHoldsPaths(d, ReachableViews(d, root), path);
    }
  }

  /**
   * Complete and once: with a depth of at least the number of reachable views, the views
   * expanded are exactly the reachable ones, each once, the result holds exactly their
   * subordinate lists, each in its own order, and it is the same (order included) for every such
   * depth; and the traversal raises exactly when reading a reachable view raises what is not caught.
   */
  lemma {:induction false} TraversalIsComplete(d: Device, root: ObjectIdentifier, maxDepth: int, deeper: int)
    requires maxDepth >= |ReachableViews(d, root)| && deeper >= maxDepth
    ensures var t := Visit(d, root, maxDepth, {});
            && (forall v :: v in t.expanded <==> Reaches(d, root, v))
            && NoDuplicates(t.expanded)
            && FindsAll(d, t)
            && (forall v :: Reaches(d, root, v) ==> InOrder(d, v, t.found))
            && t.found == Visit(d, root, deeper, {}).found
            && (Breaks(d, t.expanded) <==> exists v :: Reaches(d, root, v) && v in d && d[v].Uncaught?)
  {
    VisitKeepsOrder(d, root, maxDepth, {});
    var r := ReachableViews(d, root);
    ReachableViewsAreReachable(d, root);
    assert r - {} == r;
    VisitIsComplete(d, r, root, maxDepth, deeper, {});
    VisitExpandsOnce(d, root, maxDepth, {});
    VisitFindsExpanded(d, root, maxDepth, {});
    var t := Visit(d, root, maxDepth, {});
    forall v | Reaches(d, root, v)
      ensures v in t.visited
    {
      var path :| IsPath(d, path) && path[0] == root && path[|path| - 1] == v;
      assert Closed(d, t.visited);
      ClosedHoldsPaths(d, t.visited, path);
    }
  }

  lemma {:induction false} ObjectsAreElements(es: seq<Element>, o: ObjectIdentifier)
    ensures o in Objects(es) <==> Object(o) in es
  {
    if es == [] {
    } else {
      ObjectsAreElements(es[1..], o);
      assert es == [es[0]] + es[1..];
    }
  }

  lemma {:induction false} GatheredFrom(d: Device, views: seq<ObjectIdentifier>, o: ObjectIdentifier)
    returns (v: ObjectIdentifier)
    requires o in Gather(d, views)
    ensures v in views && Object(o) in Elements(d, v)
  {
    if o in multiset(Objects(Elements(d, views[0]))) {
      v := views[0];
      assert o in Objects(Elements(d, v));
      ObjectsAreElements(Elements(d, v), o);
    } else {
      v := GatheredFrom(d, views[1..], o);
    }
  }

  /** For any depth and any graph: no view twice, and everything reported hangs below a reachable view. */
  lemma {:induction false} TraversalIsSound(d: Device, root: ObjectIdentifier, maxDepth: int)
    ensures var t := Visit(d, root, maxDepth, {});
            && NoDuplicates(t.expanded)
            && FindsAll(d, t)
            && (forall v :: v in t.expanded ==> Reaches(d, root, v) && InOrder(d, v, t.found))
            && forall o :: o in t.found ==> exists v :: Reaches(d, root, v) && Object(o) in Elements(d, v)
  {
    var t := Visit(d, root, maxDepth, {});
    VisitKeepsOrder(d, root, maxDepth, {});
    VisitExpandsOnce(d, root, maxDepth, {});
    VisitFindsExpanded(d, root, maxDepth, {});
    ReachesItself(d, root);
    VisitIsSound(d, root, root, maxDepth, {});
    forall o | o in t.found
      ensures exists v :: Reaches(d, root, v) && Object(o) in Elements(d, v)
    {
      assert o in multiset(t.found);
      var v := GatheredFrom(d, t.expanded, o);
    }
  }

  /** They come in the order of the list, wherever it is split. */
  lemma {:induction false} ObjectsConcat(a: seq<Element>, b: seq<Element>)
    ensures Objects(a + b) == Objects(a) + Objects(b)
  {
    if a == [] {
      assert a + b == b;
    } else {
      assert (a + b)[1..] == a[1..] + b;
      ObjectsConcat(a[1..], b);
      var first, rest := if a[0].Object? then [a[0].oid] else [], Objects(a[1..]);
      assert Objects(a) == first + rest && Objects(a + b) == first + (rest + Objects(b));
      assert first + (rest + Objects(b)) == first + rest + Objects(b);
    }
  }

  /** The objects of a list are its object identifiers, each as often as it is listed. */
  lemma {:induction false} ObjectsExactly(es: seq<Element>, o: ObjectIdentifier)
    ensures multiset(Objects(es))[o] == multiset(es)[Object(o)]
  {
    if es == [] {
    } else {
      ObjectsExactly(es[1..], o);
      assert es == [es[0]] + es[1..];
    }
  }

  lemma {:induction false} GatherOnce(d: Device, views: seq<ObjectIdentifier>, v: ObjectIdentifier, o: ObjectIdentifier)
    requires v in views
    ensures Gather(d, views)[o] >= multiset(Objects(Elements(d, v)))[o]
  {
    if v != views[0] {
      GatherOnce(d, views[1..], v, o);
    }
  }

  /** Nothing listed by a reachable view is missing: the result holds it at least as often as that view lists it. */
  lemma NothingIsMissing(d: Device, root: ObjectIdentifier, maxDepth: int, v: ObjectIdentifier, o: ObjectIdentifier)
    requires maxDepth >= |ReachableViews(d, root)| && Reaches(d, root, v) && v in d && d[v].Subordinates?
    ensures multiset(Visit(d, root, maxDepth, {}).found)[o] >= multiset(d[v].elements)[Object(o)]
  {
    TraversalIsComplete(d, root, maxDepth, maxDepth);
    GatherOnce(d, Visit(d, root, maxDepth, {}).expanded, v, o);
    ObjectsExactly(d[v].elements, o);
  }

  // ---------------------------------------------------------------------
  // A view is descended into as soon as it is found.
  // ---------------------------------------------------------------------

  /** What comes first below view v, if anything does, is the object it lists first. */
  ghost predicate StartsBelow(d: Device, v: ObjectIdentifier, found: seq<ObjectIdentifier>) {
    Objects(Elements(d, v)) != [] ==> found != [] && found[0] == Objects(Elements(d, v))[0]
  }

  /** View v is found somewhere, with what it lists first, if anything, right behind it. */
  ghost predicate Descends(d: Device, v: ObjectIdentifier, found: seq<ObjectIdentifier>) {
    exists i :: 0 <= i < |found| && found[i] == v && StartsBelow(d, v, found[i + 1..])
  }

  lemma DescendsWithin(d: Device, v: ObjectIdentifier, a: seq<ObjectIdentifier>, found: seq<ObjectIdentifier>,
                       b: seq<ObjectIdentifier>)
    requires Descends(d, v, found)
    ensures Descends(d, v, a + found + b)
  {
    var i :| 0 <= i < |found| && found[i] == v && StartsBelow(d, v, found[i + 1..]);
    var all, j := a + found + b, |a| + i;
    assert all[j] == v;
    assert all[j + 1..] == found[i + 1..] + b;
  }

  lemma DescendsFirst(d: Device, v: ObjectIdentifier, below: seq<ObjectIdentifier>, rest: seq<ObjectIdentifier>)
    requires StartsBelow(d, v, below)
    ensures Descends(d, v, [v] + below + rest)
  {
    var all := [v] + below + rest;
    assert all[0] == v && all[1..] == below + rest;
  }

  /** All of the views but `apart` are descended into at once. */
  ghost predicate AllDescend(d: Device, views: seq<ObjectIdentifier>, apart: Option<ObjectIdentifier>,
                             found: seq<ObjectIdentifier>) {
    forall v :: v in views && apart != Some(v) ==> Descends(d, v, found)
  }

  lemma DescendTogether(d: Device, o: ObjectIdentifier, first: Trip, rest: Trip)
    requires o in first.expanded ==> StartsBelow(d, o, first.found)
    requires AllDescend(d, first.expanded, Some(o), first.found) && AllDescend(d, rest.expanded, None, rest.found)
    ensures AllDescend(d, first.expanded + rest.expanded, None, [o] + first.found + rest.found)
  {
    var found := [o] + first.found + rest.found;
    forall v | v in first.expanded + rest.expanded
      ensures Descends(d, v, found)
    {
      if v in rest.expanded {
        DescendsWithin(d, v, [o] + first.found, rest.found, []);
        assert found + [] == found;
      } else if v == o {
        DescendsFirst(d, o, first.found, rest.found);
      } else {
        DescendsWithin(d, v, [o], first.found, rest.found);
      }
    }
  }

  lemma {:induction false} VisitDescends(d: Device, node: ObjectIdentifier, depth: int, visited: set<ObjectIdentifier>)
    ensures var t := Visit(d, node, depth, visited);
            (node in t.expanded ==> StartsBelow(d, node, t.found)) && AllDescend(d, t.expanded, Some(node), t.found)
    decreases depth, |Elements(d, node)| + 1
  {
    if node in visited || depth <= 0 {
    } else {
      VisitAllDescends(d, Elements(d, node), depth, visited + {node});
    }
  }

  lemma {:induction false} VisitAllDescends(d: Device, es: seq<Element>, depth: int, visited: set<ObjectIdentifier>)
    requires depth > 0
    ensures var t := VisitAll(d, es, depth, visited);
            && (Objects(es) != [] ==> t.found != [] && t.found[0] == Objects(es)[0])
            && AllDescend(d, t.expanded, None, t.found)
    decreases depth, |es|
  {
    if es == [] {
    } else if es[0].Other? {
      VisitAllDescends(d, es[1..], depth, visited);
      assert Objects(es) == Objects(es[1..]);
    } else {
      var o := es[0].oid;
      var first := if IsView(o) then Visit(d, o, depth - 1, visited) else Trip([], visited, []);
      if IsView(o) {
        VisitDescends(d, o, depth - 1, visited);
      }
      VisitAllDescends(d, es[1..], depth, first.visited);
      DescendTogether(d, o, first, VisitAll(d, es[1..], depth, first.visited));
    }
  }

  /** Depth first, at any depth: every expanded view below the root is followed at once by what it lists first. */
  lemma {:induction false} TraversalDescendsAtOnce(d: Device, root: ObjectIdentifier, maxDepth: int)
    ensures var t := Visit(d, root, maxDepth, {});
            && (root in t.expanded ==> StartsBelow(d, root, t.found))
            && forall v :: v in t.expanded && v != root ==> Descends(d, v, t.found)
  {
    VisitDescends(d, root, maxDepth, {});
  }

  // ---------------------------------------------------------------------
  // The depth bound is the best one that depends on the number of views.
  // ---------------------------------------------------------------------

  function View(i: nat): ObjectIdentifier {
    ObjectIdentifier(STRUCTURED_VIEW, i)
  }

  function ChainViews(k: nat): set<ObjectIdentifier> {
    set i: nat | i < k :: View(i)
  }

  /** k views in a row, each the only subordinate of the one before it. */
  function Chain(k: nat): Device {
    map v | v in (set i: nat | i < k - 1 :: View(i)) :: Subordinates([Object(View(v.instance + 1))])
  }

  lemma ChainElements(k: nat, i: nat)
    ensures Elements(Chain(k), View(i)) == if i < k - 1 then [Object(View(i + 1))] else []
  {
  }

  lemma ChainKeeps(k: nat, i: nat, depth: int, visited: set<ObjectIdentifier>)
    ensures visited <= Visit(Chain(k), View(i), depth, visited).visited
  {
    VisitExpandsOnce(Chain(k), View(i), depth, visited);
  }

  lemma {:induction false} ChainVisit(k: nat, i: nat, depth: int, visited: set<ObjectIdentifier>)
    requires i < k
    requires forall j: nat :: i <= j ==> View(j) !in visited
    ensures forall j: nat :: i <= j ==>
              (View(j) in Visit(Chain(k), View(i), depth, visited).visited <==> j < k && j < i + depth)
    decreases depth
  {
    if depth <= 0 {
    } else {
      ChainElements(k, i);
      var more := visited + {View(i)};
      if i < k - 1 {
        var es := [Object(View(i + 1))];
        assert es[1..] == [];
        assert VisitAll(Chain(k), es, depth, more).visited
            == Visit(Chain(k), View(i + 1), depth - 1, more).visited;
        ChainVisit(k, i + 1, depth - 1, more);
        ChainKeeps(k, i + 1, depth - 1, more);
      }
    }
  }

  lemma ChainIsClosed(k: nat)
    requires 0 < k
    ensures Mentioned(Chain(k), View(0)) == ChainViews(k)
    ensures Closed(Chain(k), ChainViews(k))
  {
    var d := Chain(k);
    forall v, e | v in d && e in Elements(d, v)
      ensures e == Object(View(v.instance + 1)) && v.instance < k - 1
    {
      ChainElements(k, v.instance);
    }
    forall i: nat | i < k
      ensures View(i) in Mentioned(d, View(0))
    {
      if i > 0 {
        ChainElements(k, i - 1);
        assert View(i - 1) in d && Object(View(i)) in Elements(d, View(i - 1));
      }
    }
    forall v, w | Edge(d, v, w)
      ensures exists i: nat :: i < k && w == View(i)
    {
      assert v in d;
    }
  }

  lemma {:induction false} ChainSize(k: nat)
    ensures |ChainViews(k)| == k
  {
    if k == 0 {
    } else {
      ChainSize(k - 1);
      assert ChainViews(k) == ChainViews(k - 1) + {View(k - 1)};
    }
  }

  lemma ChainReachable(k: nat)
    requires 0 < k
    ensures ReachableViews(Chain(k), View(0)) == ChainViews(k)
  {
    var d, views := Chain(k), ChainViews(k);
    ChainSize(k);
    ChainIsClosed(k);
    assert views - {} == views;
    VisitIsComplete(d, views, View(0), k, k, {});
    ChainVisit(k, 0, k, {});
  }

  /** Some device with k views, reached from View(0), is traversed incompletely by every smaller depth. */
  lemma {:induction false} ShallowerDepthMisses(k: nat, maxDepth: int)
    requires 0 < k && maxDepth < k
    ensures var d := Chain(k);
            && ReachableViews(d, View(0)) == ChainViews(k)
            && |ReachableViews(d, View(0))| == k
            && exists v :: Reaches(d, View(0), v) && v !in Visit(d, View(0), maxDepth, {}).expanded
  {
    var d, views := Chain(k), ChainViews(k);
    ChainSize(k);
    ChainReachable(k);
    ReachableViewsAreReachable(d, View(0));
    ChainVisit(k, 0, maxDepth, {});
    VisitExpandsOnce(d, View(0), maxDepth, {});
    assert View(k - 1) in views;
  }
}
