/**
 The persisted tables the core reads and writes, as immutable values.
 Primary keys become map keys, so `user_id` and `route_id` are unique by
 construction; the `climbing` table is a sequence of rows.
 */
module Schema {
  import opened Wrappers

  /** A row of `users`, keyed by `user_id`; `password` holds the digest. */
  datatype UserRow = UserRow(name: string, email: string, age: int, password: string)

  type UsersTable = map<int, UserRow>

  /** A row of `routes`, keyed by `route_id`; only the nullable grade column is read. */
  datatype RouteRow<G> = RouteRow(grade: Option<G>)

  type RoutesTable<G> = map<int, RouteRow<G>>

  /** A row of `climbing`: one logged climb of a route by a user. */
  datatype ClimbRow = ClimbRow(climbingId: int, userId: int, routeId: int)

  /** The three tables the leaderboard query joins. */
  datatype Tables<G> = Tables(users: UsersTable, routes: RoutesTable<G>, climbing: seq<ClimbRow>)
}
