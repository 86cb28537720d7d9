/**
 The route grade column is compared by the database with `MAX` and `ORDER BY`;
 its concrete representation is not part of this model. All the leaderboard
 assumes of a grade type is a comparison `le` that is a total order.
 */
module GradeOrder {

  /** `le` is reflexive, antisymmetric, transitive and total. */
  ghost predicate TotalOrder<G(!new)>(le: (G, G) -> bool) {
    && (forall x :: le(x, x))
    && (forall x, y :: le(x, y) && le(y, x) ==> x == y)
    && (forall x, y, z :: le(x, y) && le(y, z) ==> le(x, z))
    && (forall x, y :: le(x, y) || le(y, x))
  }

  /** SQL `MAX` over a non-empty column of grades: a greatest element of `gs`. */
  function MaxGrade<G(!new)>(le: (G, G) -> bool, gs: seq<G>): (m: G)
    requires TotalOrder(le)
    requires |gs| > 0
    ensures m in gs
    ensures forall g :: g in gs ==> le(g, m)
  {
    if |gs| == 1 then gs[0]
    else
      var init := gs[..|gs| - 1];
      var m := MaxGrade(le, init);
      assert gs == init + [gs[|gs| - 1]];
      if le(m, gs[|gs| - 1]) then gs[|gs| - 1] else m
  }
}
