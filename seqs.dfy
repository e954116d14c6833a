/**
 * The array operations the components use: `filter`, and the first-seen
 * order of `Array.from(new Set(...))`. Both are defined element by element
 * from the back, as JavaScript appends.
 */
module Seqs {

  /** `sub` is `s` with some elements removed, the rest in their original order. */
  predicate IsSubsequence<T(==,!new)>(sub: seq<T>, s: seq<T>)
    decreases |s|
  {
    if s == [] then sub == []
    else
      (sub != [] && sub[|sub| - 1] == s[|s| - 1] && IsSubsequence(sub[..|sub| - 1], s[..|s| - 1]))
      || IsSubsequence(sub, s[..|s| - 1])
  }

  /** `s.filter(keep)`: the elements that pass, in their original order. */
  function Filter<T(==,!new)>(s: seq<T>, keep: T -> bool): (r: seq<T>)
    ensures |r| <= |s|
    ensures forall x :: x in r ==> keep(x)
    ensures forall x :: multiset(r)[x] == if keep(x) then multiset(s)[x] else 0
    ensures IsSubsequence(r, s)
  {
    if s == [] then []
    else
      var init, last := s[..|s| - 1], s[|s| - 1];
      assert s == init + [last];
      var prev := Filter(init, keep);
      if keep(last) then
        var r := prev + [last];
        assert r[..|r| - 1] == prev;
        assert multiset(r) == multiset(prev) + multiset{last};
        r
      else
        prev
  }

  /** Filtering one more element adds it at the end exactly when it passes. */
  lemma FilterSnoc<T(!new)>(s: seq<T>, x: T, keep: T -> bool)
    ensures Filter(s + [x], keep) == Filter(s, keep) + (if keep(x) then [x] else [])
  {
    assert (s + [x])[..|s|] == s;
  }

  predicate NoDuplicates<T(==,!new)>(s: seq<T>)
  {
    forall i, j :: 0 <= i < j < |s| ==> s[i] != s[j]
  }

  /**
   * The distinct elements of `s` in order of first occurrence, which is
   * the iteration order of a `Set` built from `s`.
   */
  function Dedup<T(==,!new)>(s: seq<T>): (d: seq<T>)
    ensures NoDuplicates(d)
    ensures forall x :: x in d <==> x in s
    ensures forall i, j, k :: 0 <= i < j < |d| && 0 <= k < |s| && s[k] == d[j] ==> d[i] in s[..k]
  {
    if s == [] then []
    else
      var init, last := s[..|s| - 1], s[|s| - 1];
      assert s == init + [last];
      var prev := Dedup(init);
      if last in prev then
        forall i, j, k | 0 <= i < j < |prev| && 0 <= k < |s| && s[k] == prev[j]
          ensures prev[i] in s[..k]
        {
          if k < |init| {
            assert s[..k] == init[..k];
          } else {
            assert prev[i] in init;
            assert s[..k] == init;
          }
        }
        prev
      else
        var d := prev + [last];
        forall i, j, k | 0 <= i < j < |d| && 0 <= k < |s| && s[k] == d[j]
          ensures d[i] in s[..k]
        {
          if j < |prev| {
            if k < |init| {
              assert s[..k] == init[..k];
            }
          } else if k == |init| {
            assert s[..k] == init;
            assert d[i] in prev;
          }
        }
        d
  }

  /** Deduplicating one more element appends it exactly when it is new. */
  lemma DedupSnoc<T(!new)>(s: seq<T>, x: T)
    ensures Dedup(s + [x]) == if x in Dedup(s) then Dedup(s) else Dedup(s) + [x]
  {
    assert (s + [x])[..|s|] == s;
  }
}
