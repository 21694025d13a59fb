/** The two ways the tools walk a store: stop at the first record that
    passes a test (a `for` loop with an early `return`, or `next(...)` over
    a generator), and keep, in order, every record that passes it. */
module Seqs {

  /** Index of the first element of `s` satisfying `p`, or `|s|` if none does. */
  function FirstIndex<T>(s: seq<T>, p: T -> bool): (k: nat)
    ensures k <= |s|
    ensures k < |s| ==> p(s[k])
    ensures forall j :: 0 <= j < k ==> !p(s[j])
  {
    if s == [] then 0
    else if p(s[0]) then 0
    else 1 + FirstIndex(s[1..], p)
  }

  /** The elements of `s` that satisfy `p`, in the order of `s`. */
  function Filter<T(==)>(s: seq<T>, p: T -> bool): (r: seq<T>)
    ensures |r| <= |s|
    ensures forall i :: 0 <= i < |r| ==> r[i] in s && p(r[i])
    ensures forall i :: 0 <= i < |s| && p(s[i]) ==> s[i] in r
  {
    if s == [] then []
    else
      var r := Filter(s[..|s| - 1], p);
      assert s == s[..|s| - 1] + [s[|s| - 1]];
      if p(s[|s| - 1]) then r + [s[|s| - 1]] else r
  }

  /** Every position that passes is kept, repeats included: the element
      at position `j` comes right after what filtering the positions before
      `j` keeps. */
  lemma {:induction false} FilterKeeps<T>(s: seq<T>, p: T -> bool, j: nat)
    requires j < |s| && p(s[j])
    ensures |Filter(s[..j], p)| < |Filter(s, p)|
    ensures Filter(s, p)[|Filter(s[..j], p)|] == s[j]
  {
    var init := s[..|s| - 1];
    if j == |s| - 1 {
      assert s[..j] == init;
    } else {
      FilterKeeps(init, p, j);
      assert init[..j] == s[..j];
    }
  }

  /** Every kept element comes from some position of `s`. */
  lemma {:induction false} FilterSource<T>(s: seq<T>, p: T -> bool, i: nat) returns (a: nat)
    requires i < |Filter(s, p)|
    ensures a < |s| && Filter(s, p)[i] == s[a]
  {
    var init := s[..|s| - 1];
    if i < |Filter(init, p)| {
      a := FilterSource(init, p, i);
    } else {
      a := |s| - 1;
    }
  }

  /** Filtering keeps the relative order of the kept elements. */
  lemma {:induction false} FilterOrder<T>(s: seq<T>, p: T -> bool, i: nat, j: nat) returns (a: nat, b: nat)
    requires i < j < |Filter(s, p)|
    ensures a < b < |s|
    ensures Filter(s, p)[i] == s[a] && Filter(s, p)[j] == s[b]
  {
    var init := s[..|s| - 1];
    if j < |Filter(init, p)| {
      a, b := FilterOrder(init, p, i, j);
    } else {
      a := FilterSource(init, p, i);
      b := |s| - 1;
    }
  }

  /** The first `k` kept elements are exactly what filtering some prefix of
      `s` keeps. */
  lemma {:induction false} FilterPrefix<T>(s: seq<T>, p: T -> bool, k: nat) returns (n: nat)
    requires k <= |Filter(s, p)|
    ensures n <= |s| && Filter(s[..n], p) == Filter(s, p)[..k]
  {
    if k == |Filter(s, p)| {
      n := |s|;
      assert s[..n] == s;
    } else {
      var init := s[..|s| - 1];
      n := FilterPrefix(init, p, k);
      assert init[..n] == s[..n];
    }
  }
}
