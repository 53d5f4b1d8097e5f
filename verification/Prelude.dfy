/** Small shared vocabulary: optional values, Python's `int()` on a float, and
    the ascending enumeration of a finite set of ids. */
module Prelude {

  datatype Option<+T> = None | Some(value: T)

  /** Payloads and results are opaque JSON text. */
  type Json = string

  function Max(a: int, b: int): int {
    if a < b then b else a
  }

  /** `str.lower`, on ASCII letters. */
  function Lower(s: string): string {
    seq(|s|, i requires 0 <= i < |s| => if 'A' <= s[i] <= 'Z' then s[i] - 'A' + 'a' else s[i])
  }

  /** No capital is left, and nothing else has changed. */
  lemma LowerMeans(s: string)
    ensures |Lower(s)| == |s| && Lower(Lower(s)) == Lower(s)
    ensures forall i :: 0 <= i < |s| ==>
              && !('A' <= Lower(s)[i] <= 'Z')
              && (Lower(s)[i] == s[i] || ('A' <= s[i] <= 'Z' && Lower(s)[i] as int == s[i] as int + 32))
  {
  }

  /** `int(t)` for a float: truncation toward zero. */
  function Trunc(t: real): (n: int)
    ensures 0.0 <= t ==> n as real <= t < n as real + 1.0
    ensures t <= 0.0 ==> n as real - 1.0 < t <= n as real
  {
    if 0.0 <= t then t.Floor else -((-t).Floor)
  }

  lemma TruncMonotone(a: real, b: real)
    requires a <= b
    ensures Trunc(a) <= Trunc(b)
  {
  }

  ghost predicate NoDup<T>(q: seq<T>) {
    forall i, j :: 0 <= i < j < |q| ==> q[i] != q[j]
  }

  ghost predicate IsLeast(s: set<nat>, x: nat) {
    x in s && forall y :: y in s ==> x <= y
  }

  lemma {:induction false} LeastExists(s: set<nat>)
    requires s != {}
    ensures exists x :: IsLeast(s, x)
    decreases |s|
  {
    var z :| z in s;
    var rest := s - {z};
    assert s == rest + {z};
    if rest == {} {
      assert IsLeast(s, z);
    } else {
      LeastExists(rest);
      var x :| IsLeast(rest, x);
      assert IsLeast(s, if x <= z then x else z);
    }
  }

  function Least(s: set<nat>): (x: nat)
    requires s != {}
    ensures IsLeast(s, x)
  {
    LeastExists(s);
    assert exists x :: x in s && forall y :: y in s ==> x <= y by {
      var x :| IsLeast(s, x);
    }
    var x :| x in s && forall y :: y in s ==> x <= y;
    x
  }

  /** The members of `s` in increasing order: the order in which a JSON object
      dumped with sorted keys is visited after it is loaded again. */
  function Ascending(s: set<nat>): (q: seq<nat>)
    ensures forall x :: x in q <==> x in s
    ensures |q| == |s|
    decreases |s|
  {
    if s == {} then [] else
      var x := Least(s);
      var rest := s - {x};
      assert s == rest + {x};
      [x] + Ascending(rest)
  }

  ghost predicate Sorted(q: seq<nat>) {
    forall i, j :: 0 <= i < j < |q| ==> q[i] < q[j]
  }

  lemma SortedCons(x: nat, r: seq<nat>)
    requires Sorted(r) && forall y :: y in r ==> x < y
    ensures Sorted([x] + r) && NoDup([x] + r)
  {
    var q := [x] + r;
    forall i, j | 0 <= i < j < |q| ensures q[i] < q[j] {
      assert q[j] == r[j - 1] && r[j - 1] in r;
    }
  }

  lemma {:induction false} AscendingIsSorted(s: set<nat>)
    ensures Sorted(Ascending(s)) && NoDup(Ascending(s))
    decreases |s|
  {
    if s != {} {
      var x := Least(s);
      var rest := s - {x};
      assert s == rest + {x};
      AscendingIsSorted(rest);
      SortedCons(x, Ascending(rest));
    }
  }
}
