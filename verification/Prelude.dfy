/** Vocabulary shared by the models: options, outcomes, object identifiers and total variation. */
module Prelude {
  datatype Option<+T> = None | Some(value: T)

  datatype Outcome<+T, +E> = Ok(value: T) | Failed(error: E)

  /** The property identifier of Present_Value. */
  const PRESENT_VALUE := 85

  datatype ObjectIdentifier = ObjectIdentifier(objectType: nat, instance: nat)

  function Abs(x: real): real {
    if x < 0.0 then -x else x
  }

  function Min(x: real, y: real): real {
    if x < y then x else y
  }

  function Max(x: real, y: real): real {
    if x < y then y else x
  }

  /** The sum of the distances between neighbouring values. */
  function Variation(vs: seq<real>): (r: real)
    ensures 0.0 <= r
  {
    if |vs| <= 1 then 0.0
    else Variation(vs[..|vs| - 1]) + Abs(vs[|vs| - 1] - vs[|vs| - 2])
  }

  /** n times w, by repeated addition. */
  ghost function Scale(n: int, w: real): real
    decreases if n < 0 then -n else n
  {
    if n == 0 then 0.0
    else if n < 0 then Scale(n + 1, w) - w
    else Scale(n - 1, w) + w
  }

  lemma ScaleSucc(n: int, w: real)
    ensures Scale(n + 1, w) == Scale(n, w) + w
  {
  }

  lemma {:induction false} ScaleIsProduct(n: int, w: real)
    ensures Scale(n, w) == n as real * w
    decreases if n < 0 then -n else n
  {
    if n < 0 {
      ScaleIsProduct(n + 1, w);
      assert n as real * w == ((n + 1) as real - 1.0) * w == (n + 1) as real * w - w;
    } else if n > 0 {
      ScaleIsProduct(n - 1, w);
      assert n as real * w == ((n - 1) as real + 1.0) * w == (n - 1) as real * w + w;
    }
  }

  ghost predicate NoDuplicates<T>(s: seq<T>) {
    forall i, j :: 0 <= i < j < |s| ==> s[i] != s[j]
  }

  ghost predicate Subsequence<T>(a: seq<T>, b: seq<T>) {
    if a == [] then true
    else if b == [] then false
    else (a[0] == b[0] && Subsequence(a[1..], b[1..])) || Subsequence(a, b[1..])
  }

  lemma {:induction false} SubsequenceInFront<T>(a: seq<T>, x: seq<T>, b: seq<T>)
    requires Subsequence(a, b)
    ensures Subsequence(a, x + b)
  {
    if x == [] {
      assert x + b == b;
    } else {
      assert (x + b)[1..] == x[1..] + b;
      SubsequenceInFront(a, x[1..], b);
    }
  }

  lemma {:induction false} SubsequenceBehind<T>(a: seq<T>, b: seq<T>, x: seq<T>)
    requires Subsequence(a, b)
    ensures Subsequence(a, b + x)
    decreases |b|
  {
    if a == [] {
    } else {
      assert (b + x)[1..] == b[1..] + x;
      if a[0] == b[0] && Subsequence(a[1..], b[1..]) {
        SubsequenceBehind(a[1..], b[1..], x);
      } else {
        SubsequenceBehind(a, b[1..], x);
      }
    }
  }
}
