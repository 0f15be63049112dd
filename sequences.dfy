/** Order-preserving filtering, the meaning of Python's `[x for x in xs if keep(x)]`
    and of a pandas boolean row mask. */
module Sequences {

  /** The elements of `s` that satisfy `keep`, in their original order. */
  function Filter<T>(s: seq<T>, keep: T -> bool): (r: seq<T>)
    ensures |r| <= |s|
    ensures forall i :: 0 <= i < |r| ==> keep(r[i])
    ensures forall i :: 0 <= i < |r| ==> r[i] in s
    ensures forall i :: 0 <= i < |s| && keep(s[i]) ==> s[i] in r
  {
    if s == [] then [] else (if keep(s[0]) then [s[0]] else []) + Filter(s[1..], keep)
  }

  /** Filtering distributes over concatenation: no element is moved across another. */
  lemma {:induction false} FilterConcat<T>(a: seq<T>, b: seq<T>, keep: T -> bool)
    ensures Filter(a + b, keep) == Filter(a, keep) + Filter(b, keep)
  {
    if a == [] {
      assert a + b == b;
    } else {
      assert (a + b)[1..] == a[1..] + b;
      FilterConcat(a[1..], b, keep);
    }
  }

  /** Filtering keeps each kept value as often as it occurs and drops the rest entirely:
      nothing is duplicated or lost. */
  lemma {:induction false} FilterMultiplicity<T>(s: seq<T>, keep: T -> bool)
    ensures forall x :: multiset(Filter(s, keep))[x] == if keep(x) then multiset(s)[x] else 0
  {
    if s != [] {
      assert s == [s[0]] + s[1..];
      FilterMultiplicity(s[1..], keep);
    }
  }

  /** When the kept elements form a prefix of `s` (everything kept comes before everything
      dropped), the filter is that prefix, and exactly the remaining elements are dropped. */
  lemma {:induction false} FilterOfPrefixClosed<T>(s: seq<T>, keep: T -> bool)
    requires forall i, j :: 0 <= i < j < |s| && keep(s[j]) ==> keep(s[i])
    ensures |Filter(s, keep)| <= |s|
    ensures Filter(s, keep) == s[..|Filter(s, keep)|]
    ensures forall j :: |Filter(s, keep)| <= j < |s| ==> !keep(s[j])
  {
    if s != [] {
      FilterOfPrefixClosed(s[1..], keep);
      if !keep(s[0]) {
        assert forall j :: 0 < j < |s| ==> !keep(s[j]);
        FilterDropsAll(s[1..], keep);
      }
    }
  }

  /** A filter that keeps nothing is empty. */
  lemma {:induction false} FilterDropsAll<T>(s: seq<T>, keep: T -> bool)
    requires forall i :: 0 <= i < |s| ==> !keep(s[i])
    ensures Filter(s, keep) == []
  {
    if s != [] {
      FilterDropsAll(s[1..], keep);
    }
  }
}
