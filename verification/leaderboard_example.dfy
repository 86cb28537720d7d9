/**
 A worked instance of the leaderboard query with integer grades: user 1 has
 three climbs of grade 10, user 2 one climb of grade 12, and user 3 only a
 climb of a route without a grade.
 */
module LeaderboardExample {
  import opened Wrappers
  import opened GradeOrder
  import opened Schema
  import opened Ranking
  import opened Leaderboard

  function IntLe(a: int, b: int): bool {
    a <= b
  }

  lemma IntLeTotalOrder()
    ensures TotalOrder(IntLe)
  {
  }

  function ExampleTables(): Tables<int> {
    Tables(
      map[1 := UserRow("Ada", "ada@example.org", 30, "d1"),
          2 := UserRow("Ben", "ben@example.org", 25, "d2"),
          3 := UserRow("Cy", "cy@example.org", 40, "d3")],
      map[10 := RouteRow(Some(10)), 12 := RouteRow(Some(12)), 99 := RouteRow(None)],
      [ClimbRow(100, 1, 10), ClimbRow(101, 1, 10), ClimbRow(102, 2, 12), ClimbRow(103, 1, 10), ClimbRow(104, 3, 99)])
  }

  function EntryAda(): LeaderboardEntry<int> {
    LeaderboardEntry(1, "Ada", 3, 10)
  }

  function EntryBen(): LeaderboardEntry<int> {
    LeaderboardEntry(2, "Ben", 1, 12)
  }

  lemma AdaEntry()
    ensures IsEntryOf(IntLe, ExampleTables(), EntryAda())
  {
    var t := ExampleTables();
    assert GradedClimbOf(t, 0, 1);
    assert GradedClimbs(t, 1) == {0, 1, 3};
  }

  lemma BenEntry()
    ensures IsEntryOf(IntLe, ExampleTables(), EntryBen())
  {
    var t := ExampleTables();
    assert GradedClimbOf(t, 2, 2);
    assert GradedClimbs(t, 2) == {2};
  }

  /** User 3 climbed only an ungraded route, so only users 1 and 2 have graded climbs. */
  lemma OnlyAdaAndBenClimbed(uid: int)
    requires HasGradedClimb(ExampleTables(), uid)
    ensures uid == 1 || uid == 2
  {
  }

  /** The expected answer for each sort option. */
  function Expected(key: SortOptions): seq<LeaderboardEntry<int>> {
    match key
    case TotalClimbs => [EntryAda(), EntryBen()]
    case HardestGrade => [EntryBen(), EntryAda()]
  }

  lemma ExpectedIsLeaderboard(key: SortOptions)
    ensures IsLeaderboard(IntLe, ExampleTables(), key, Expected(key))
  {
    AdaEntry();
    BenEntry();
    ExpectedComplete(key);
    var expected := Expected(key);
    assert expected == [EntryAda(), EntryBen()] || expected == [EntryBen(), EntryAda()];
    assert Sorted(IntLe, key, expected);
  }

  lemma ExpectedComplete(key: SortOptions)
    ensures forall uid :: HasGradedClimb(ExampleTables(), uid) ==>
              exists i :: 0 <= i < |Expected(key)| && Expected(key)[i].userId == uid
  {
    var expected := Expected(key);
    forall uid | HasGradedClimb(ExampleTables(), uid)
      ensures exists i :: 0 <= i < |expected| && expected[i].userId == uid
    {
      OnlyAdaAndBenClimbed(uid);
      var i := if (uid == 1) == (key == TotalClimbs) then 0 else 1;
      assert expected[i].userId == uid;
    }
  }

  /**
   Ordered by `total_climbs` every correct answer is [user 1, user 2]; ordered
   by `hardest_grade` it is [user 2, user 1]; user 3 appears in neither.
   */
  lemma ExampleOrderings(r: seq<LeaderboardEntry<int>>, key: SortOptions)
    requires IsLeaderboard(IntLe, ExampleTables(), key, r)
    ensures r == Expected(key)
  {
    IntLeTotalOrder();
    var expected := Expected(key);
    ExpectedIsLeaderboard(key);
    LeaderboardUniqueUpToTies(IntLe, ExampleTables(), key, r, expected);
    NoTiesPinsOrder(r, expected[0], expected[1]);
  }

  /** Two entries with different ranks leave no freedom of order. */
  lemma NoTiesPinsOrder(r: seq<LeaderboardEntry<int>>, a: LeaderboardEntry<int>, b: LeaderboardEntry<int>)
    requires a.totalClimbs != b.totalClimbs
    requires multiset(r) == multiset([a, b]) && |r| == 2
    requires forall i :: 0 <= i < |r| ==>
               r[i].totalClimbs == [a, b][i].totalClimbs && r[i].hardestGrade == [a, b][i].hardestGrade
    ensures r == [a, b]
  {
  }
}
