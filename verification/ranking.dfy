/**
 Leaderboard entries and the two `ORDER BY` rules of the leaderboard query:
 `total_climbs DESC, hardest_grade DESC` and `hardest_grade DESC, total_climbs DESC`.
 SQL leaves the order of rows that tie on both keys unspecified, so sortedness
 is a relation between neighbours, not one fixed permutation.
 */
module Ranking {
  import opened GradeOrder
  import opened SeqFacts

  /** The two values of the `sort_by` query parameter. */
  datatype SortOptions = TotalClimbs | HardestGrade

  /** One row of the leaderboard result. */
  datatype LeaderboardEntry<G> = LeaderboardEntry(userId: int, name: string, totalClimbs: int, hardestGrade: G)

  /** The pair of aggregates an entry is ranked by. */
  datatype Rank<G> = Rank(totalClimbs: int, hardestGrade: G)

  function RankOf<G>(e: LeaderboardEntry<G>): Rank<G> {
    Rank(e.totalClimbs, e.hardestGrade)
  }

  /** `a` is at least `b` under the lexicographic descending order selected by `key`. */
  predicate AtLeast<G(==)>(le: (G, G) -> bool, key: SortOptions, a: Rank<G>, b: Rank<G>) {
    match key
    case TotalClimbs =>
      a.totalClimbs > b.totalClimbs
      || (a.totalClimbs == b.totalClimbs && le(b.hardestGrade, a.hardestGrade))
    case HardestGrade =>
      (le(b.hardestGrade, a.hardestGrade) && a.hardestGrade != b.hardestGrade)
      || (a.hardestGrade == b.hardestGrade && a.totalClimbs >= b.totalClimbs)
  }

  /** Entry `a` may be listed before entry `b`. */
  predicate Precedes<G(==)>(le: (G, G) -> bool, key: SortOptions, a: LeaderboardEntry<G>, b: LeaderboardEntry<G>) {
    AtLeast(le, key, RankOf(a), RankOf(b))
  }

  /** Adjacent entries are non-increasing in the selected pair of keys. */
  predicate Sorted<G(==)>(le: (G, G) -> bool, key: SortOptions, s: seq<LeaderboardEntry<G>>) {
    forall i :: 0 <= i < |s| - 1 ==> Precedes(le, key, s[i], s[i + 1])
  }

  /** Adjacent ranks are non-increasing. */
  predicate RanksSorted<G(==)>(le: (G, G) -> bool, key: SortOptions, ks: seq<Rank<G>>) {
    forall i :: 0 <= i < |ks| - 1 ==> AtLeast(le, key, ks[i], ks[i + 1])
  }

  function Ranks<G>(s: seq<LeaderboardEntry<G>>): (ks: seq<Rank<G>>)
    ensures |ks| == |s|
    ensures forall i :: 0 <= i < |s| ==> ks[i] == RankOf(s[i])
  {
    seq(|s|, i requires 0 <= i < |s| => RankOf(s[i]))
  }

  // ----- the order on ranks -------------------------------------------------

  /** Both keys are compared by a total order, so their lexicographic combination is one too. */
  lemma AtLeastTotalOrder<G(!new)>(le: (G, G) -> bool, key: SortOptions)
    requires TotalOrder(le)
    ensures forall a :: AtLeast(le, key, a, a)
    ensures forall a, b :: AtLeast(le, key, a, b) || AtLeast(le, key, b, a)
    ensures forall a, b :: AtLeast(le, key, a, b) && AtLeast(le, key, b, a) ==> a == b
    ensures forall a, b, c :: AtLeast(le, key, a, b) && AtLeast(le, key, b, c) ==> AtLeast(le, key, a, c)
  {
  }

  /** Any two ranks are comparable; `Insert` uses it to place an entry after a neighbour it may not precede. */
  lemma AtLeastConnected<G(!new)>(le: (G, G) -> bool, key: SortOptions, a: Rank<G>, b: Rank<G>)
    requires TotalOrder(le)
    ensures AtLeast(le, key, a, b) || AtLeast(le, key, b, a)
  {
  }

  /** In a sorted sequence every entry may precede every later one, not only its neighbour. */
  lemma SortedAllPairs<G(!new)>(le: (G, G) -> bool, key: SortOptions, s: seq<LeaderboardEntry<G>>)
    requires TotalOrder(le)
    requires Sorted(le, key, s)
    ensures forall i, j :: 0 <= i < j < |s| ==> Precedes(le, key, s[i], s[j])
  {
    var ks := Ranks(s);
    assert RanksSorted(le, key, ks);
    RanksSortedAllPairs(le, key, ks);
  }

  /** In a sorted sequence of ranks every rank is at least every later one. */
  lemma {:induction false} RanksSortedAllPairs<G(!new)>(le: (G, G) -> bool, key: SortOptions, ks: seq<Rank<G>>)
    requires TotalOrder(le)
    requires RanksSorted(le, key, ks)
    ensures forall i, j :: 0 <= i < j < |ks| ==> AtLeast(le, key, ks[i], ks[j])
  {
    AtLeastTotalOrder(le, key);
    forall i, j | 0 <= i < j < |ks|
      ensures AtLeast(le, key, ks[i], ks[j])
    {
      var k := i;
      while k < j
        invariant i <= k <= j
        invariant AtLeast(le, key, ks[i], ks[k])
      {
        k := k + 1;
      }
    }
  }

  // ----- one ordering that satisfies ORDER BY -------------------------------

  /** Places `e` before the first entry it may precede. */
  function Insert<G(==,!new)>(le: (G, G) -> bool, key: SortOptions, e: LeaderboardEntry<G>, s: seq<LeaderboardEntry<G>>)
    : (r: seq<LeaderboardEntry<G>>)
    requires TotalOrder(le)
    requires Sorted(le, key, s)
    ensures Sorted(le, key, r)
    ensures multiset(r) == multiset(s) + multiset{e}
    ensures r[0] == e || (|s| > 0 && r[0] == s[0])
    ensures Distinct(s) && e !in s ==> Distinct(r)
  {
    if |s| == 0 then [e]
    else if Precedes(le, key, e, s[0]) then
      DistinctCons(e, s);
      [e] + s
    else
      AtLeastConnected(le, key, RankOf(e), RankOf(s[0]));
      assert s == [s[0]] + s[1..];
      var rest := Insert(le, key, e, s[1..]);
      DistinctTail(s);
      DistinctCons(s[0], rest);
      assert s[0] in rest <==> s[0] in multiset(rest);
      [s[0]] + rest
  }

  /** Insertion sort: a sorted permutation of `s`. */
  function SortBy<G(==,!new)>(le: (G, G) -> bool, key: SortOptions, s: seq<LeaderboardEntry<G>>)
    : (r: seq<LeaderboardEntry<G>>)
    requires TotalOrder(le)
    ensures Sorted(le, key, r)
    ensures multiset(r) == multiset(s)
    ensures Distinct(s) ==> Distinct(r)
  {
    if |s| == 0 then []
    else
      assert s == [s[0]] + s[1..];
      DistinctTail(s);
      var r := SortBy(le, key, s[1..]);
      assert s[0] in r <==> s[0] in multiset(s[1..]);
      Insert(le, key, s[0], r)
  }

  // ----- orderings differ only among ties -----------------------------------

  /** Two sorted sequences of ranks holding the same ranks are equal. */
  lemma {:induction false} SortedRanksUnique<G(!new)>(le: (G, G) -> bool, key: SortOptions, k1: seq<Rank<G>>, k2: seq<Rank<G>>)
    requires TotalOrder(le)
    requires RanksSorted(le, key, k1) && RanksSorted(le, key, k2)
    requires multiset(k1) == multiset(k2)
    ensures k1 == k2
    decreases |k1|
  {
    if |k1| == 0 {
      assert |multiset(k2)| == 0;
    } else {
      assert |multiset(k2)| == |k1|;
      AtLeastTotalOrder(le, key);
      RanksSortedAllPairs(le, key, k1);
      RanksSortedAllPairs(le, key, k2);
      assert k1[0] in multiset(k2);
      var j :| 0 <= j < |k2| && k2[j] == k1[0];
      assert k2[0] in multiset(k1);
      var i :| 0 <= i < |k1| && k1[i] == k2[0];
      assert AtLeast(le, key, k1[0], k1[i]);
      assert AtLeast(le, key, k2[0], k2[j]);
      assert k1[0] == k2[0];
      assert k1 == [k1[0]] + k1[1..];
      assert k2 == [k2[0]] + k2[1..];
      assert multiset(k1) == multiset{k1[0]} + multiset(k1[1..]);
      assert multiset(k2) == multiset{k2[0]} + multiset(k2[1..]);
      assert multiset(k1[1..]) == multiset(k1) - multiset{k1[0]};
      assert multiset(k2[1..]) == multiset(k2) - multiset{k2[0]};
      SortedRanksUnique(le, key, k1[1..], k2[1..]);
    }
  }

  lemma RanksAppend<G>(a: seq<LeaderboardEntry<G>>, b: seq<LeaderboardEntry<G>>)
    ensures Ranks(a + b) == Ranks(a) + Ranks(b)
  {
  }

  /** Permuting entries permutes their ranks. */
  lemma {:induction false} RanksPermute<G>(s1: seq<LeaderboardEntry<G>>, s2: seq<LeaderboardEntry<G>>)
    requires multiset(s1) == multiset(s2)
    ensures multiset(Ranks(s1)) == multiset(Ranks(s2))
    decreases |s1|
  {
    if |s1| == 0 {
      assert |multiset(s2)| == 0;
    } else {
      var x := s1[0];
      assert x in multiset(s2);
      var j :| 0 <= j < |s2| && s2[j] == x;
      var u := s2[..j] + s2[j + 1..];
      assert s2 == s2[..j] + [x] + s2[j + 1..];
      assert s1 == [x] + s1[1..];
      assert multiset(s1) == multiset{x} + multiset(s1[1..]);
      assert multiset(s2) == multiset(s2[..j]) + multiset{x} + multiset(s2[j + 1..]);
      assert multiset(u) == multiset(s2[..j]) + multiset(s2[j + 1..]);
      assert multiset(s1[1..]) == multiset(s1) - multiset{x};
      assert multiset(u) == multiset(s2) - multiset{x};
      RanksPermute(s1[1..], u);
      RanksAppend(s2[..j] + [x], s2[j + 1..]);
      RanksAppend(s2[..j], [x]);
      RanksAppend(s2[..j], s2[j + 1..]);
      RanksAppend([x], s1[1..]);
    }
  }

  /**
   Any two orderings of the same entries that both satisfy the `ORDER BY` rule
   agree, position by position, on both sort keys: they can differ only in the
   order of entries that tie on both.
   */
  lemma SortedUpToTies<G(!new)>(le: (G, G) -> bool, key: SortOptions, s1: seq<LeaderboardEntry<G>>, s2: seq<LeaderboardEntry<G>>)
    requires TotalOrder(le)
    requires Sorted(le, key, s1) && Sorted(le, key, s2)
    requires multiset(s1) == multiset(s2)
    ensures |s1| == |s2|
    ensures forall i :: 0 <= i < |s1| ==>
              s1[i].totalClimbs == s2[i].totalClimbs && s1[i].hardestGrade == s2[i].hardestGrade
  {
    RanksPermute(s1, s2);
    SortedRanksUnique(le, key, Ranks(s1), Ranks(s2));
    assert |Ranks(s1)| == |Ranks(s2)|;
    forall i | 0 <= i < |s1|
      ensures s1[i].totalClimbs == s2[i].totalClimbs && s1[i].hardestGrade == s2[i].hardestGrade
    {
      assert Ranks(s1)[i] == Ranks(s2)[i];
    }
  }
}
