/** Sequence operations that Python expresses with built-ins: `range` and `list(set(...))`. */
module Seqs {

  /** Python's `range(lo, hi)`: the integers lo, lo+1, ..., hi-1, ascending; empty when hi <= lo. */
  function Range(lo: int, hi: int): (r: seq<int>)
    ensures |r| == if lo < hi then hi - lo else 0
    ensures forall i :: 0 <= i < |r| ==> r[i] == lo + i
    decreases hi - lo
  {
    if lo >= hi then [] else [lo] + Range(lo + 1, hi)
  }

  /** Every integer lo <= k < hi occurs in Range(lo, hi), and nothing else does. */
  lemma RangeMembers(lo: int, hi: int, k: int)
    ensures k in Range(lo, hi) <==> lo <= k < hi
  {
    var r := Range(lo, hi);
    if lo <= k < hi {
      assert r[k - lo] == k;
    }
  }

  predicate Distinct(s: seq<string>)
  {
    forall i, j :: 0 <= i < j < |s| ==> s[i] != s[j]
  }

  /** The elements of `s` without repetition, each at its first occurrence. */
  function Dedup(s: seq<string>): (r: seq<string>)
    ensures Distinct(r)
    ensures forall x :: x in r <==> x in s
    ensures |r| <= |s|
  {
    if s == [] then []
    else
      var rest := Dedup(s[..|s| - 1]);
      if s[|s| - 1] in rest then rest else rest + [s[|s| - 1]]
  }

  /** The position of the first occurrence of `x` in `s` (Python's `s.index(x)`). */
  function FirstIndex(s: seq<string>, x: string): (i: nat)
    requires x in s
    ensures i < |s| && s[i] == x && x !in s[..i]
  {
    if s[0] == x then 0
    else
      var i := 1 + FirstIndex(s[1..], x);
      assert s[..i] == [s[0]] + s[1..][..i - 1];
      i
  }

  /** An occurrence of `x` with no `x` before it is the first one. */
  lemma FirstIndexAt(s: seq<string>, x: string, k: nat)
    requires k < |s| && s[k] == x && x !in s[..k]
    ensures FirstIndex(s, x) == k
  {
  }

  /** Every element of `r` occurs in `s`, and an element listed before another
      in `r` first occurs before it in `s`. */
  predicate FirstOccurrenceOrder(s: seq<string>, r: seq<string>)
  {
    (forall x :: x in r ==> x in s) &&
    forall i, j :: 0 <= i < j < |r| ==> FirstIndex(s, r[i]) < FirstIndex(s, r[j])
  }

  /** An element of a prefix first occurs in the whole sequence where it first occurs in the prefix. */
  lemma FirstIndexInPrefix(s: seq<string>, n: nat, x: string)
    requires n <= |s| && x in s[..n]
    ensures FirstIndex(s, x) == FirstIndex(s[..n], x)
  {
    var k := FirstIndex(s[..n], x);
    assert s[..k] == s[..n][..k];
    FirstIndexAt(s, x, k);
  }

  /** Deduplication keeps the order of first appearance. */
  lemma {:induction false} DedupFirstOccurrenceOrder(s: seq<string>)
    ensures FirstOccurrenceOrder(s, Dedup(s))
  {
    if s != [] {
      var n := |s| - 1;
      var init := s[..n];
      var rest := Dedup(init);
      DedupFirstOccurrenceOrder(init);
      var r := Dedup(s);
      assert r == if s[n] in rest then rest else rest + [s[n]];
      if s[n] !in rest {
        assert s[n] !in s[..n];
        FirstIndexAt(s, s[n], n);
      }
      forall i, j | 0 <= i < j < |r| ensures FirstIndex(s, r[i]) < FirstIndex(s, r[j]) {
        assert r[i] == rest[i] && rest[i] in init;
        FirstIndexInPrefix(s, n, rest[i]);
        if j < |rest| {
          assert r[j] == rest[j] && rest[j] in init;
          FirstIndexInPrefix(s, n, rest[j]);
        }
      }
    }
  }
}
