/**
  Row selection as pandas performs it with a boolean mask (`frame[mask]`) and
  with `head(n)`: the kept rows are a subsequence of the input, in input order.
  The table-specific operations in module Transactions are instances of these.
 */
module Selection {

  /** The rows of `s` that satisfy `p`, in the order they appear in `s`. */
  function Keep<T>(s: seq<T>, p: T -> bool): (r: seq<T>)
    ensures |r| <= |s|
    ensures forall x :: x in r ==> x in s && p(x)
  {
    if s == [] then []
    else if p(s[0]) then [s[0]] + Keep(s[1..], p)
    else Keep(s[1..], p)
  }

  /** Every row that satisfies `p` is kept. */
  lemma {:induction false} KeepKeepsMatches<T>(s: seq<T>, p: T -> bool)
    ensures forall x :: x in s && p(x) ==> x in Keep(s, p)
  {
    if s != [] {
      KeepKeepsMatches(s[1..], p);
      assert forall x :: x in s ==> x == s[0] || x in s[1..];
    }
  }

  /** Conjunction of two row predicates. */
  function Both<T>(p: T -> bool, q: T -> bool): T -> bool
  {
    x => p(x) && q(x)
  }

  /**
    `idx` lists, in strictly increasing order, the positions of `s` whose rows
    make up `r`, and every position of `s` whose row satisfies `p` is listed.
   */
  ghost predicate SelectsAll<T>(s: seq<T>, r: seq<T>, idx: seq<nat>, p: T -> bool)
  {
    && |idx| == |r|
    && (forall k :: 0 <= k < |idx| ==> idx[k] < |s| && r[k] == s[idx[k]])
    && (forall k, l :: 0 <= k < l < |idx| ==> idx[k] < idx[l])
    && (forall i :: 0 <= i < |s| && p(s[i]) ==> i in idx)
  }

  /**
    Completeness and order: `Keep(s, p)` is exactly the increasing-position
    subsequence of `s` made of every row satisfying `p` (soundness is in the
    contract of Keep).
   */
  lemma {:induction false} KeepSelectsAll<T>(s: seq<T>, p: T -> bool) returns (idx: seq<nat>)
    ensures SelectsAll(s, Keep(s, p), idx, p)
  {
    if s == [] {
      idx := [];
    } else {
      var tail := KeepSelectsAll(s[1..], p);
      var shifted := Shift(s, Keep(s[1..], p), tail, p);
      if p(s[0]) {
        idx := TakeFirst(s, Keep(s[1..], p), shifted, p);
      } else {
        idx := shifted;
        assert Keep(s, p) == Keep(s[1..], p);
      }
    }
  }

  /** A selection of `s[1..]`, shifted, extended by a first row that is kept. */
  lemma TakeFirst<T>(s: seq<T>, rest: seq<T>, shifted: seq<nat>, p: T -> bool) returns (idx: seq<nat>)
    requires s != [] && p(s[0])
    requires |shifted| == |rest|
    requires forall k :: 0 <= k < |shifted| ==> 0 < shifted[k] < |s| && rest[k] == s[shifted[k]]
    requires forall k, l :: 0 <= k < l < |shifted| ==> shifted[k] < shifted[l]
    requires forall i :: 1 <= i < |s| && p(s[i]) ==> i in shifted
    ensures SelectsAll(s, [s[0]] + rest, idx, p)
  {
    idx := [0] + shifted;
    var r := [s[0]] + rest;
    forall k | 0 < k < |idx|
      ensures idx[k] < |s| && r[k] == s[idx[k]]
    {
      assert idx[k] == shifted[k - 1] && r[k] == rest[k - 1];
    }
    forall k, l | 0 <= k < l < |idx|
      ensures idx[k] < idx[l]
    {
      assert idx[l] == shifted[l - 1];
      if k > 0 {
        assert idx[k] == shifted[k - 1];
      }
    }
    forall i | 0 < i < |s| && p(s[i])
      ensures i in idx
    {
      assert i in shifted;
    }
  }

  /** Positions in `s[1..]` become positions in `s` by adding one. */
  lemma Shift<T>(s: seq<T>, r: seq<T>, tail: seq<nat>, p: T -> bool) returns (shifted: seq<nat>)
    requires s != []
    requires SelectsAll(s[1..], r, tail, p)
    ensures |shifted| == |r|
    ensures forall k :: 0 <= k < |shifted| ==> 0 < shifted[k] < |s| && r[k] == s[shifted[k]]
    ensures forall k, l :: 0 <= k < l < |shifted| ==> shifted[k] < shifted[l]
    ensures forall i :: 1 <= i < |s| && p(s[i]) ==> i in shifted
  {
    shifted := seq(|tail|, k requires 0 <= k < |tail| => tail[k] + 1);
    forall i | 1 <= i < |s| && p(s[i])
      ensures i in shifted
    {
      assert s[1..][i - 1] == s[i];
      var k :| 0 <= k < |tail| && tail[k] == i - 1;
      assert shifted[k] == i;
    }
  }

  /** Keeping by `p` and then by `q` is keeping once by both. */
  lemma {:induction false} KeepKeep<T>(s: seq<T>, p: T -> bool, q: T -> bool)
    ensures Keep(Keep(s, p), q) == Keep(s, Both(p, q))
  {
    if s != [] {
      KeepKeep(s[1..], p, q);
      if p(s[0]) {
        assert Keep(s, p) == [s[0]] + Keep(s[1..], p);
        assert Keep(s, p)[1..] == Keep(s[1..], p);
      }
    }
  }

  /** Predicates that agree on every row keep the same rows. */
  lemma {:induction false} KeepCongruent<T>(s: seq<T>, p: T -> bool, q: T -> bool)
    requires forall x :: x in s ==> p(x) == q(x)
    ensures Keep(s, p) == Keep(s, q)
  {
    if s != [] {
      assert forall x :: x in s[1..] ==> x in s;
      KeepCongruent(s[1..], p, q);
    }
  }

  /** A predicate that no row satisfies keeps nothing. */
  lemma {:induction false} KeepNone<T>(s: seq<T>, p: T -> bool)
    requires forall x :: x in s ==> !p(x)
    ensures Keep(s, p) == []
  {
    if s != [] {
      assert forall x :: x in s[1..] ==> x in s;
      KeepNone(s[1..], p);
    }
  }

  function Min(a: int, b: int): int
  {
    if a <= b then a else b
  }

  /** `head(n)`: the first `n` rows, or all of them when there are fewer. */
  function Head<T>(s: seq<T>, n: nat): (r: seq<T>)
    ensures |r| == Min(n, |s|)
    ensures r <= s
  {
    if |s| <= n then s else s[..n]
  }
}
