/** Sequence helpers shared by the model: reversal, filtering by set membership,
    duplicate-freedom and index lookup. */
module Seqs {

  /** Reversal, defined from the last element so that Reverse(s + [x]) == [x] + Reverse(s) unfolds directly. */
  function Reverse<T>(s: seq<T>): (r: seq<T>)
    ensures |r| == |s|
  {
    if s == [] then [] else [s[|s| - 1]] + Reverse(s[..|s| - 1])
  }

  /** The elements of s that are (keep == true) or are not (keep == false) in the set I, in their order in s. */
  function Filter<T>(s: seq<T>, I: set<T>, keep: bool): seq<T>
  {
    if s == [] then []
    else Filter(s[..|s| - 1], I, keep) + (if (s[|s| - 1] in I) == keep then [s[|s| - 1]] else [])
  }

  ghost predicate Distinct<T>(s: seq<T>)
  {
    forall i, j :: 0 <= i < j < |s| ==> s[i] != s[j]
  }

  /** The position of x in s. */
  function IndexOf<T(==)>(s: seq<T>, x: T): (k: nat)
    requires x in s
    ensures k < |s| && s[k] == x
  {
    if s[0] == x then 0 else 1 + IndexOf(s[1..], x)
  }

  lemma {:induction false} ReversePreservesMultiset<T>(s: seq<T>)
    ensures multiset(Reverse(s)) == multiset(s)
  {
    if s != [] {
      ReversePreservesMultiset(s[..|s| - 1]);
      assert s == s[..|s| - 1] + [s[|s| - 1]];
    }
  }

  lemma {:induction false} FilterSplitsMultiset<T>(s: seq<T>, I: set<T>)
    ensures multiset(Filter(s, I, true)) + multiset(Filter(s, I, false)) == multiset(s)
  {
    if s != [] {
      var init, x := s[..|s| - 1], s[|s| - 1];
      FilterSplitsMultiset(init, I);
      assert s == init + [x];
      if x in I {
        assert Filter(s, I, true) == Filter(init, I, true) + [x];
        assert Filter(s, I, false) == Filter(init, I, false);
      } else {
        assert Filter(s, I, true) == Filter(init, I, true);
        assert Filter(s, I, false) == Filter(init, I, false) + [x];
      }
    }
  }

  /** Two positions holding the same value give that value multiplicity at least two. */
  lemma RepeatedMultiplicity<T>(s: seq<T>, i: nat, j: nat)
    requires i < j < |s| && s[i] == s[j]
    ensures multiset(s)[s[i]] >= 2
  {
    assert s == s[..i] + [s[i]] + s[i + 1..j] + [s[j]] + s[j + 1..];
  }

  lemma {:induction false} DistinctMultiplicity<T>(s: seq<T>, x: T)
    requires Distinct(s)
    ensures multiset(s)[x] <= 1
  {
    if s != [] {
      assert s == [s[0]] + s[1..];
      DistinctMultiplicity(s[1..], x);
      if s[0] == x {
        assert x !in s[1..];
      }
    }
  }

  /** A sequence with the same elements (with multiplicity) as a duplicate-free one is duplicate-free. */
  lemma DistinctByMultiset<T>(s: seq<T>, t: seq<T>)
    requires multiset(s) == multiset(t) && Distinct(t)
    ensures Distinct(s)
  {
    forall i, j | 0 <= i < j < |s| ensures s[i] != s[j] {
      if s[i] == s[j] {
        RepeatedMultiplicity(s, i, j);
        DistinctMultiplicity(t, s[i]);
      }
    }
  }

  lemma ReverseAppend<T>(s: seq<T>, x: T)
    ensures Reverse(s + [x]) == [x] + Reverse(s)
  {
    assert (s + [x])[..|s|] == s;
  }

  lemma FilterAppend<T>(s: seq<T>, x: T, I: set<T>, keep: bool)
    ensures Filter(s + [x], I, keep) == Filter(s, I, keep) + (if (x in I) == keep then [x] else [])
  {
    assert (s + [x])[..|s|] == s;
  }

  /** Element k of the reversal is element |s| - 1 - k of s. */
  lemma {:induction false} ReverseAt<T>(s: seq<T>, k: nat)
    requires k < |s|
    ensures Reverse(s)[k] == s[|s| - 1 - k]
  {
    if k > 0 {
      ReverseAt(s[..|s| - 1], k - 1);
    }
  }

  /** Filtering keeps only elements of s that satisfy the membership test. */
  lemma {:induction false} FilterMembers<T>(s: seq<T>, I: set<T>, keep: bool)
    ensures forall x :: x in Filter(s, I, keep) ==> x in s && (x in I) == keep
  {
    if s != [] {
      FilterMembers(s[..|s| - 1], I, keep);
      assert s == s[..|s| - 1] + [s[|s| - 1]];
    }
  }

  /** The elements of s without repetitions, in order of first occurrence (an insertion-ordered set). */
  function Dedup<T(==)>(s: seq<T>): (d: seq<T>)
  {
    if s == [] then []
    else
      var d := Dedup(s[..|s| - 1]);
      if s[|s| - 1] in d then d else d + [s[|s| - 1]]
  }

  lemma {:induction false} DedupFacts<T>(s: seq<T>)
    ensures Distinct(Dedup(s)) && |Dedup(s)| <= |s|
    ensures forall x :: x in Dedup(s) <==> x in s
  {
    if s != [] {
      var init := s[..|s| - 1];
      DedupFacts(init);
      assert s == init + [s[|s| - 1]];
    }
  }

  /** Filtering by the empty set keeps nothing in, everything out. */
  lemma {:induction false} FilterEmptySet<T>(s: seq<T>)
    ensures Filter(s, {}, true) == [] && Filter(s, {}, false) == s
  {
    if s != [] {
      FilterEmptySet(s[..|s| - 1]);
      assert s == s[..|s| - 1] + [s[|s| - 1]];
    }
  }
}
