/**
 The leaderboard query: `users` joined with `climbing` joined with `routes`,
 rows with a null grade dropped, grouped by user, each group reduced to its
 row count and its greatest grade, and ordered by one of two rules.
 */
module Leaderboard {
  import opened Wrappers
  import opened GradeOrder
  import opened SeqFacts
  import opened Schema
  import opened Ranking

  // ----- query parameters ---------------------------------------------------

  datatype LeaderboardQueryParams = LeaderboardQueryParams(sortBy: SortOptions)

  /** The string value of each `SortOptions` member. */
  function WireName(k: SortOptions): string {
    match k
    case TotalClimbs => "total_climbs"
    case HardestGrade => "hardest_grade"
  }

  /**
   Reads the optional `sort_by` parameter: when it is absent the default is
   `total_climbs`; a value that names no option is rejected.
   */
  function ParseQueryParams(sortBy: Option<string>): (p: Option<LeaderboardQueryParams>)
    ensures sortBy.None? ==> p == Some(LeaderboardQueryParams(TotalClimbs))
    ensures sortBy.Some? ==> (p.Some? <==> exists k :: sortBy.value == WireName(k))
    ensures sortBy.Some? && p.Some? ==> WireName(p.value.sortBy) == sortBy.value
  {
    match sortBy
    case None => Some(LeaderboardQueryParams(TotalClimbs))
    case Some(s) =>
      if s == WireName(TotalClimbs) then Some(LeaderboardQueryParams(TotalClimbs))
      else if s == WireName(HardestGrade) then Some(LeaderboardQueryParams(HardestGrade))
      else None
  }

  /** Every option's string value reads back as that option. */
  lemma ParseWireName(k: SortOptions)
    ensures ParseQueryParams(Some(WireName(k))) == Some(LeaderboardQueryParams(k))
  {
  }

  // ----- join and filter ----------------------------------------------------

  /** A climbing row survives both inner joins and the `IS NOT NULL` filter. */
  predicate Joins<G>(t: Tables<G>, c: ClimbRow) {
    c.userId in t.users && c.routeId in t.routes && t.routes[c.routeId].grade.Some?
  }

  function GradeOf<G>(t: Tables<G>, c: ClimbRow): G
    requires Joins(t, c)
  {
    t.routes[c.routeId].grade.value
  }

  /** Row `i` of `climbing` is a graded climb by user `uid`. */
  predicate GradedClimbOf<G>(t: Tables<G>, i: int, uid: int) {
    0 <= i < |t.climbing| && Joins(t, t.climbing[i]) && t.climbing[i].userId == uid
  }

  /** `uid` has a graded climb among the first `n` climbing rows. */
  ghost predicate HasGradedClimbBefore<G>(t: Tables<G>, uid: int, n: int) {
    exists i :: 0 <= i < n && GradedClimbOf(t, i, uid)
  }

  ghost predicate HasGradedClimb<G>(t: Tables<G>, uid: int) {
    HasGradedClimbBefore(t, uid, |t.climbing|)
  }

  /** Indices, among the first `n` climbing rows, of the graded climbs of `uid`. */
  ghost function GradedClimbsBefore<G>(t: Tables<G>, uid: int, n: int): set<int> {
    set i | 0 <= i < n && GradedClimbOf(t, i, uid)
  }

  /** Indices of all graded climbs of `uid`. */
  ghost function GradedClimbs<G>(t: Tables<G>, uid: int): set<int> {
    GradedClimbsBefore(t, uid, |t.climbing|)
  }

  /** `g` is the grade of one of `uid`'s graded climbs, and no such climb has a higher grade. */
  ghost predicate IsHardestGrade<G(!new)>(le: (G, G) -> bool, t: Tables<G>, uid: int, g: G) {
    && (exists i :: GradedClimbOf(t, i, uid) && GradeOf(t, t.climbing[i]) == g)
    && (forall i :: GradedClimbOf(t, i, uid) ==> le(GradeOf(t, t.climbing[i]), g))
  }

  // ----- group by user ------------------------------------------------------

  /** The grades of `uid`'s graded climbs among the first `n` rows: the input of `MAX` for that group. */
  function GradesOf<G>(t: Tables<G>, uid: int, n: nat): seq<G>
    requires n <= |t.climbing|
  {
    if n == 0 then []
    else GradesOf(t, uid, n - 1) + (if GradedClimbOf(t, n - 1, uid) then [GradeOf(t, t.climbing[n - 1])] else [])
  }

  /** The group has one grade per graded climbing row: `COUNT` of the group. */
  lemma {:induction false} GradesOfCount<G>(t: Tables<G>, uid: int, n: nat)
    requires n <= |t.climbing|
    ensures |GradesOf(t, uid, n)| == |GradedClimbsBefore(t, uid, n)|
  {
    if n > 0 {
      GradesOfCount(t, uid, n - 1);
      var before := GradedClimbsBefore(t, uid, n - 1);
      if GradedClimbOf(t, n - 1, uid) {
        assert GradedClimbsBefore(t, uid, n) == before + {n - 1};
        assert n - 1 !in before;
      } else {
        assert GradedClimbsBefore(t, uid, n) == before;
      }
    }
  }

  /** The group's grades are exactly the grades of `uid`'s graded climbs. */
  lemma {:induction false} GradesOfMembers<G>(t: Tables<G>, uid: int, n: nat)
    requires n <= |t.climbing|
    ensures forall g :: g in GradesOf(t, uid, n) <==>
              exists i :: 0 <= i < n && GradedClimbOf(t, i, uid) && GradeOf(t, t.climbing[i]) == g
  {
    if n > 0 {
      GradesOfMembers(t, uid, n - 1);
    }
  }

  /**
   The distinct users with a graded climb among the first `n` rows, in order
   of their first such climb: the `GROUP BY u.user_id, u.name` keys.
   */
  function GroupKeys<G>(t: Tables<G>, n: nat): (ks: seq<int>)
    requires n <= |t.climbing|
    ensures Distinct(ks)
    ensures forall uid :: uid in ks <==> HasGradedClimbBefore(t, uid, n)
  {
    if n == 0 then []
    else
      var ks := GroupKeys(t, n - 1);
      var c := t.climbing[n - 1];
      HasGradedClimbBeforeStep(t, n);
      if Joins(t, c) && c.userId !in ks then ks + [c.userId] else ks
  }

  /** Extending the prefix by one row adds that row's user, if the row is a graded climb. */
  lemma HasGradedClimbBeforeStep<G>(t: Tables<G>, n: int)
    requires 0 < n <= |t.climbing|
    ensures forall uid :: HasGradedClimbBefore(t, uid, n) <==>
              HasGradedClimbBefore(t, uid, n - 1) || (Joins(t, t.climbing[n - 1]) && uid == t.climbing[n - 1].userId)
  {
    forall uid ensures HasGradedClimbBefore(t, uid, n) <==>
              HasGradedClimbBefore(t, uid, n - 1) || (Joins(t, t.climbing[n - 1]) && uid == t.climbing[n - 1].userId)
    {
      if Joins(t, t.climbing[n - 1]) && uid == t.climbing[n - 1].userId {
        assert GradedClimbOf(t, n - 1, uid);
      }
    }
  }

  // ----- aggregate ----------------------------------------------------------

  /** `e` is the aggregate row of its user. */
  ghost predicate IsEntryOf<G(!new)>(le: (G, G) -> bool, t: Tables<G>, e: LeaderboardEntry<G>) {
    // the user has at least one climb on a graded route
    && HasGradedClimb(t, e.userId)
    // the name is the user's own
    && e.userId in t.users && e.name == t.users[e.userId].name
    // `total_climbs` counts the user's graded climbing rows
    && e.totalClimbs == |GradedClimbs(t, e.userId)|
    // `hardest_grade` is the greatest grade among them
    && IsHardestGrade(le, t, e.userId, e.hardestGrade)
  }

  /** Each group yields one row: user id, name, `COUNT(c.climbing_id)` and `MAX(r.grade)`. */
  function EntryFor<G(==,!new)>(le: (G, G) -> bool, t: Tables<G>, uid: int): (e: LeaderboardEntry<G>)
    requires TotalOrder(le)
    requires HasGradedClimb(t, uid)
    ensures e.userId == uid
    ensures IsEntryOf(le, t, e)
    ensures e.totalClimbs >= 1
  {
    var n := |t.climbing|;
    var gs := GradesOf(t, uid, n);
    GradesOfCount(t, uid, n);
    GradesOfMembers(t, uid, n);
    var i :| GradedClimbOf(t, i, uid);
    assert i in GradedClimbs(t, uid);
    assert GradeOf(t, t.climbing[i]) in gs;
    LeaderboardEntry(uid, t.users[uid].name, |gs|, MaxGrade(le, gs))
  }

  /** A user's aggregate row is determined by the tables. */
  lemma EntryOfUnique<G(!new)>(le: (G, G) -> bool, t: Tables<G>, e1: LeaderboardEntry<G>, e2: LeaderboardEntry<G>)
    requires TotalOrder(le)
    requires IsEntryOf(le, t, e1) && IsEntryOf(le, t, e2)
    ensures e1.userId == e2.userId ==> e1 == e2
  {
  }

  /** The grouped, aggregated rows before ordering. */
  function Aggregate<G(==,!new)>(le: (G, G) -> bool, t: Tables<G>): (es: seq<LeaderboardEntry<G>>)
    requires TotalOrder(le)
    ensures forall i :: 0 <= i < |es| ==> IsEntryOf(le, t, es[i])
    ensures forall uid :: HasGradedClimb(t, uid) ==> exists i :: 0 <= i < |es| && es[i].userId == uid
    ensures forall i, j :: 0 <= i < j < |es| ==> es[i].userId != es[j].userId
  {
    var ks := GroupKeys(t, |t.climbing|);
    assert forall i :: 0 <= i < |ks| ==> HasGradedClimb(t, ks[i]);
    var es := seq(|ks|, i requires 0 <= i < |ks| && HasGradedClimb(t, ks[i]) => EntryFor(le, t, ks[i]));
    assert forall i :: 0 <= i < |es| ==> es[i] == EntryFor(le, t, ks[i]) && es[i].userId == ks[i];
    assert forall uid :: HasGradedClimb(t, uid) ==> uid in ks;
    es
  }

  // ----- the result ---------------------------------------------------------

  /**
   `r` is a correct answer to the leaderboard query ordered by `key`. The
   order among entries that tie on both keys is left open, as in SQL.
   */
  ghost predicate IsLeaderboard<G(!new)>(le: (G, G) -> bool, t: Tables<G>, key: SortOptions, r: seq<LeaderboardEntry<G>>) {
    // every entry is the aggregate row of a user with a graded climb
    && (forall i :: 0 <= i < |r| ==> IsEntryOf(le, t, r[i]))
    // every user with a graded climb has an entry: no limit, no pagination
    && (forall uid :: HasGradedClimb(t, uid) ==> exists i :: 0 <= i < |r| && r[i].userId == uid)
    // no user has two entries
    && (forall i, j :: 0 <= i < j < |r| ==> r[i].userId != r[j].userId)
    // the selected ORDER BY rule holds between neighbours
    && Sorted(le, key, r)
  }

  /** One ordering of the aggregated rows that satisfies `ORDER BY`. */
  function Leaderboard<G(==,!new)>(le: (G, G) -> bool, t: Tables<G>, key: SortOptions): (r: seq<LeaderboardEntry<G>>)
    requires TotalOrder(le)
    ensures IsLeaderboard(le, t, key, r)
  {
    var es := Aggregate(le, t);
    var r := SortBy(le, key, es);
    OrderedAggregateIsLeaderboard(le, t, key, es, r);
    r
  }

  /** Reordering the aggregated rows keeps them correct; the ordering is then the only obligation left. */
  lemma OrderedAggregateIsLeaderboard<G(!new)>(le: (G, G) -> bool, t: Tables<G>, key: SortOptions,
                                               es: seq<LeaderboardEntry<G>>, r: seq<LeaderboardEntry<G>>)
    requires TotalOrder(le)
    requires forall i :: 0 <= i < |es| ==> IsEntryOf(le, t, es[i])
    requires forall uid :: HasGradedClimb(t, uid) ==> exists i :: 0 <= i < |es| && es[i].userId == uid
    requires forall i, j :: 0 <= i < j < |es| ==> es[i].userId != es[j].userId
    requires multiset(r) == multiset(es)
    requires Sorted(le, key, r)
    ensures IsLeaderboard(le, t, key, r)
  {
    assert Distinct(es);
    DistinctPermutation(es, r);
    PermutationElements(es, r);
    forall i | 0 <= i < |r| ensures IsEntryOf(le, t, r[i]) {
      assert r[i] in es;
    }
    forall uid | HasGradedClimb(t, uid) ensures exists i :: 0 <= i < |r| && r[i].userId == uid {
      var j :| 0 <= j < |es| && es[j].userId == uid;
      assert es[j] in r;
    }
    forall i, j | 0 <= i < j < |r| ensures r[i].userId != r[j].userId {
      assert r[i] in es && r[j] in es;
      EntryOfUnique(le, t, r[i], r[j]);
    }
  }

  /**
   Every correct answer holds the same entries, and any two agree position by
   position on `total_climbs` and `hardest_grade`: they differ at most in the
   order of entries that tie on both.
   */
  lemma LeaderboardUniqueUpToTies<G(!new)>(le: (G, G) -> bool, t: Tables<G>, key: SortOptions,
                                          r1: seq<LeaderboardEntry<G>>, r2: seq<LeaderboardEntry<G>>)
    requires TotalOrder(le)
    requires IsLeaderboard(le, t, key, r1) && IsLeaderboard(le, t, key, r2)
    ensures multiset(r1) == multiset(r2)
    ensures |r1| == |r2|
    ensures forall i :: 0 <= i < |r1| ==>
              r1[i].totalClimbs == r2[i].totalClimbs && r1[i].hardestGrade == r2[i].hardestGrade
  {
    forall e | e in r1 ensures e in r2 {
      var i :| 0 <= i < |r1| && r1[i] == e;
      var j :| 0 <= j < |r2| && r2[j].userId == e.userId;
      EntryOfUnique(le, t, e, r2[j]);
    }
    forall e | e in r2 ensures e in r1 {
      var i :| 0 <= i < |r2| && r2[i] == e;
      var j :| 0 <= j < |r1| && r1[j].userId == e.userId;
      EntryOfUnique(le, t, e, r1[j]);
    }
    assert Distinct(r1) && Distinct(r2);
    DistinctSameElements(r1, r2);
    SortedUpToTies(le, key, r1, r2);
  }

  // ----- the response envelope ----------------------------------------------

  datatype LeaderboardResponse<G> = Ranked(leaderboard: seq<LeaderboardEntry<G>>) | QueryFailed(errorMessage: string) {
    /** The `success` field of the response. */
    predicate Success() {
      Ranked?
    }
  }

  /**
   The endpoint: `fault` is the exception the database raised while running
   the query, if any; its text becomes the error message.
   */
  function GetLeaderboard<G(==,!new)>(le: (G, G) -> bool, t: Tables<G>, params: LeaderboardQueryParams, fault: Option<string>)
    : (r: LeaderboardResponse<G>)
    requires TotalOrder(le)
    ensures r.Success() <==> fault.None?
    ensures r.Ranked? ==> IsLeaderboard(le, t, params.sortBy, r.leaderboard)
    ensures r.QueryFailed? ==> r.errorMessage == fault.value
  {
    match fault
    case Some(message) => QueryFailed(message)
    case None => Ranked(Leaderboard(le, t, params.sortBy))
  }
}
