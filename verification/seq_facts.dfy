/** Facts about sequences without repeated elements. */
module SeqFacts {

  /** No element occurs twice. */
  predicate Distinct<T(==)>(s: seq<T>) {
    forall i, j :: 0 <= i < j < |s| ==> s[i] != s[j]
  }

  /** Dropping the head keeps a sequence repetition-free, and the head does not recur. */
  lemma DistinctTail<T>(s: seq<T>)
    requires |s| > 0
    ensures Distinct(s) ==> Distinct(s[1..]) && s[0] !in s[1..]
  {
  }

  /** Prepending a new element keeps a sequence repetition-free. */
  lemma DistinctCons<T>(x: T, s: seq<T>)
    ensures Distinct(s) && x !in s ==> Distinct([x] + s)
  {
  }

  /** In a sequence without repetitions every element occurs exactly once. */
  lemma {:induction false} DistinctMultiplicity<T>(s: seq<T>)
    requires Distinct(s)
    ensures forall x :: multiset(s)[x] == if x in s then 1 else 0
  {
    if |s| > 0 {
      assert s == [s[0]] + s[1..];
      DistinctTail(s);
      DistinctMultiplicity(s[1..]);
    }
  }

  /** Two repetition-free sequences with the same elements are permutations of each other. */
  lemma DistinctSameElements<T>(s1: seq<T>, s2: seq<T>)
    requires Distinct(s1) && Distinct(s2)
    requires forall x :: x in s1 <==> x in s2
    ensures multiset(s1) == multiset(s2)
  {
    DistinctMultiplicity(s1);
    DistinctMultiplicity(s2);
    assert forall x :: multiset(s1)[x] == multiset(s2)[x];
  }

  /** An element at two positions occurs at least twice. */
  lemma RepeatedMultiplicity<T>(s: seq<T>, i: int, j: int)
    requires 0 <= i < j < |s| && s[i] == s[j]
    ensures multiset(s)[s[i]] >= 2
  {
    assert s == s[..i] + [s[i]] + s[i + 1..j] + [s[j]] + s[j + 1..];
  }

  /** A permutation of a repetition-free sequence is repetition-free. */
  lemma DistinctPermutation<T>(s1: seq<T>, s2: seq<T>)
    requires Distinct(s1)
    requires multiset(s1) == multiset(s2)
    ensures Distinct(s2)
  {
    DistinctMultiplicity(s1);
    forall i, j | 0 <= i < j < |s2| ensures s2[i] != s2[j] {
      if s2[i] == s2[j] {
        RepeatedMultiplicity(s2, i, j);
      }
    }
  }

  /** A permutation has the same elements. */
  lemma PermutationElements<T>(s1: seq<T>, s2: seq<T>)
    requires multiset(s1) == multiset(s2)
    ensures forall x :: x in s1 <==> x in s2
  {
    forall x ensures x in s1 <==> x in s2 {
      assert x in s1 <==> x in multiset(s1);
      assert x in s2 <==> x in multiset(s2);
    }
  }
}
