/** The board's row-level security: the policy builders, and what Postgres makes of a SELECT policy. A sub-select
    in a policy reads its table under that table's own policies; the membership helper reads `team_member` with
    none. */
module BoardRowSecurity {
  import opened Options
  import opened BoardDatabase

  datatype Expr =
    | EqText(col: string, literal: string)
    | EqUid(col: string)
    | UidIsNotNull
    | Admin
    | MemberOfTeam(teamColumn: string)
    | AnyOfSelect(col: string, project: string, from_: Table, where_: Expr)
    | OrElse(left: Expr, right: Expr)

  datatype Command = Select | Insert | Update | Delete

  datatype Policy = Policy(name: string, command: Command, using: Option<Expr>, withCheck: Option<Expr>)

  // ---- The builders ----

  function MakePolicy(name: string, command: Command, predicate_: Expr, using: bool, withCheck: bool): Policy {
    Policy(name, command, if using then Some(predicate_) else None, if withCheck then Some(predicate_) else None)
  }

  function BuildProfilePolicies(): seq<Policy> {
    [MakePolicy("profile_select", Select, UidIsNotNull, true, false)]
  }

  function BuildTeamPolicies(id: string): seq<Policy> {
    var memberOrAdmin := OrElse(MemberOfTeam(id), Admin);
    [MakePolicy("team_select", Select, memberOrAdmin, true, false),
     MakePolicy("team_insert", Insert, Admin, false, true),
     MakePolicy("team_update", Update, Admin, true, true),
     MakePolicy("team_delete", Delete, Admin, true, false)]
  }

  function BuildChannelPolicies(kind: string, teamId: string): seq<Policy> {
    [MakePolicy("channel_select", Select, OrElse(OrElse(EqText(kind, "global"), MemberOfTeam(teamId)), Admin), true, false)]
  }

  function BuildIssuePolicies(teamId: string): seq<Policy> {
    var memberOrAdmin := OrElse(MemberOfTeam(teamId), Admin);
    [MakePolicy("issue_select", Select, memberOrAdmin, true, false),
     MakePolicy("issue_insert", Insert, memberOrAdmin, false, true),
     MakePolicy("issue_update", Update, memberOrAdmin, true, true),
     MakePolicy("issue_delete", Delete, memberOrAdmin, true, false)]
  }

  function BuildTeamMemberPolicies(teamId: string): seq<Policy> {
    [MakePolicy("team_member_select", Select, OrElse(MemberOfTeam(teamId), Admin), true, false),
     MakePolicy("team_member_insert", Insert, Admin, false, true),
     MakePolicy("team_member_update", Update, Admin, true, true),
     MakePolicy("team_member_delete", Delete, Admin, true, false)]
  }

  function BuildMessagePolicies(channelId: string, authorId: string): seq<Policy> {
    var channelVisible := AnyOfSelect(channelId, "id", Channel, OrElse(EqText("kind", "global"), MemberOfTeam("team_id")));
    var visibleOrAdmin := OrElse(channelVisible, Admin);
    var authorOrAdmin := OrElse(EqUid(authorId), Admin);
    [MakePolicy("message_select", Select, visibleOrAdmin, true, false),
     MakePolicy("message_insert", Insert, visibleOrAdmin, false, true),
     MakePolicy("message_update", Update, authorOrAdmin, true, true),
     MakePolicy("message_delete", Delete, authorOrAdmin, true, false)]
  }

  function Policies(table: Table): seq<Policy> {
    match table
    case Profile => BuildProfilePolicies()
    case Team => BuildTeamPolicies("id")
    case TeamMember => BuildTeamMemberPolicies("team_id")
    case Channel => BuildChannelPolicies("kind", "team_id")
    case Message => BuildMessagePolicies("channel_id", "author_id")
    case Issue => BuildIssuePolicies("team_id")
  }

  // ---- Evaluation ----

  function AuthUid(claims: Claims): Value {
    if HasSubject(claims) then Text(claims.sub.value) else Null
  }

  /** `app_metadata.roles` unnested, an absent one as the empty array. */
  predicate AdminClaim(claims: Claims) {
    var elements := if claims.roles.Some? then claims.roles.value else [];
    exists role | role in elements :: role == "admin"
  }

  /** `board_member_team_ids()`, which bypasses row-level security. */
  function BoardMemberTeamIds(rows: seq<Row>, claims: Claims): seq<Value> {
    if rows == [] then []
    else
      (if Equal3(Cell(rows[0], "user_id"), AuthUid(claims)).True? then [Cell(rows[0], "team_id")] else [])
      + BoardMemberTeamIds(rows[1..], claims)
  }

  /** How deep a table's policies read other tables under theirs. */
  function Rank(table: Table): nat {
    if table.Message? then 1 else 0
  }

  /** The expression's sub-selects read only tables of a lower rank. */
  predicate Below(e: Expr, rank: nat) {
    match e
    case AnyOfSelect(_, _, from_, where_) => Rank(from_) < rank && Below(where_, rank)
    case OrElse(left, right) => Below(left, rank) && Below(right, rank)
    case _ => true
  }

  /** No policy reads its own table under its own policies, however many tables on: evaluation never recurses. */
  lemma PoliciesDoNotRecurse(table: Table, policy: Policy)
    requires policy in Policies(table)
    ensures policy.using.Some? ==> Below(policy.using.value, Rank(table))
    ensures policy.withCheck.Some? ==> Below(policy.withCheck.value, Rank(table))
  {
    var global := OrElse(EqText("kind", "global"), MemberOfTeam("team_id"));
    assert Below(global, 0) && Below(global, 1);
    assert Below(AnyOfSelect("channel_id", "id", Channel, global), 1);
    assert Below(MemberOfTeam("id"), 0) && Below(MemberOfTeam("team_id"), 0);
  }

  /** A sub-select of too high a rank would be a recursion, which Postgres refuses; no policy has one. */
  function Eval(e: Expr, r: Row, claims: Claims, db: Db, rank: nat): Tri
    decreases 2 * rank, e, 0
  {
    match e
    case EqText(col, literal) => Equal3(Cell(r, col), Text(literal))
    case EqUid(col) => Equal3(Cell(r, col), AuthUid(claims))
    case UidIsNotNull => Of(!AuthUid(claims).Null?)
    case Admin => Of(AdminClaim(claims))
    case MemberOfTeam(teamColumn) => EqualsAny(Cell(r, teamColumn), BoardMemberTeamIds(db(TeamMember), claims))
    case AnyOfSelect(col, project, from_, where_) =>
      if Rank(from_) >= rank then Unknown
      else EqualsAny(Cell(r, col), Selected(project, from_, where_, db(from_), claims, db, rank))
    case OrElse(left, right) => Or3(Eval(left, r, claims, db, rank), Eval(right, r, claims, db, rank))
  }

  function Selected(project: string, from_: Table, where_: Expr, rows: seq<Row>, claims: Claims, db: Db, rank: nat): seq<Value>
    requires Rank(from_) < rank
    decreases 2 * rank, where_, |rows| + 1
  {
    if rows == [] then []
    else
      (if Visible(from_, rows[0], claims, db) && Eval(where_, rows[0], claims, db, rank).True? then [Cell(rows[0], project)] else [])
      + Selected(project, from_, where_, rows[1..], claims, db, rank)
  }

  /** A row is visible where some SELECT policy of its table accepts it. */
  predicate Visible(table: Table, r: Row, claims: Claims, db: Db)
    decreases 2 * Rank(table) + 1
  {
    exists policy | policy in Policies(table) ::
      policy.command.Select? && policy.using.Some? && Eval(policy.using.value, r, claims, db, Rank(table)).True?
  }

  /** What a sub-select reads: what its table's own policies show, and its condition keeps. */
  predicate Reads(from_: Table, where_: Expr, r: Row, claims: Claims, db: Db, rank: nat)
  {
    Visible(from_, r, claims, db) && Eval(where_, r, claims, db, rank).True?
  }

  lemma {:induction false} SelectedIs(project: string, from_: Table, where_: Expr, rows: seq<Row>,
                                      claims: Claims, db: Db, rank: nat, v: Value)
    requires Rank(from_) < rank
    ensures v in Selected(project, from_, where_, rows, claims, db, rank) <==>
            exists r :: r in rows && Cell(r, project) == v && Reads(from_, where_, r, claims, db, rank)
  {
    if rows != [] {
      SelectedIs(project, from_, where_, rows[1..], claims, db, rank, v);
      var rest := Selected(project, from_, where_, rows[1..], claims, db, rank);
      assert Selected(project, from_, where_, rows, claims, db, rank)
        == (if Reads(from_, where_, rows[0], claims, db, rank) then [Cell(rows[0], project)] else []) + rest;
      assert rows == [rows[0]] + rows[1..];
    }
  }

  lemma {:induction false} MemberTeamIdsAre(rows: seq<Row>, claims: Claims, v: Value)
    ensures v in BoardMemberTeamIds(rows, claims) <==>
            exists r :: r in rows && Cell(r, "team_id") == v && Equal3(Cell(r, "user_id"), AuthUid(claims)).True?
  {
    if rows != [] {
      MemberTeamIdsAre(rows[1..], claims, v);
      assert rows == [rows[0]] + rows[1..];
    }
  }
}
