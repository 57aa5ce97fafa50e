/** The read filters of the board's six tables: functions of the claims that return a predicate, or nothing where
    no row is to be held back. */
module BoardReadFilters {
  import opened Options
  import opened BoardDatabase
  import opened ReadPredicate

  const DENY_ALL_PREDICATE := Any([])
  const MS_PER_DAY := 86_400_000
  const CHAT_WINDOW_DAYS := 21

  predicate IsAdmin(claims: Claims) {
    claims.roles.Some? && "admin" in claims.roles.value
  }

  function MemberTeams(sub: string): Subquery {
    Subquery(TeamMember, "team_id", Some(Eq("user_id", Text(sub))))
  }

  function MemberChatWindowCutoffMicros(nowMs: int): int {
    var startOfTodayMs := nowMs / MS_PER_DAY * MS_PER_DAY;
    (startOfTodayMs - CHAT_WINDOW_DAYS * MS_PER_DAY) * 1000
  }

  function VisibleChannels(sub: string): Subquery {
    Subquery(Channel, "id", Some(Any([Eq("kind", Text("global")), In("team_id", MemberTeams(sub), false)])))
  }

  function ReadFilter(table: Table, claims: Claims, nowMs: int): Option<Predicate> {
    if table.Profile? then if HasSubject(claims) then None else Some(DENY_ALL_PREDICATE)
    else if IsAdmin(claims) then None
    else if !HasSubject(claims) then Some(DENY_ALL_PREDICATE)
    else
      var sub := claims.sub.value;
      match table
      case Team => Some(In("id", MemberTeams(sub), false))
      case TeamMember => Some(In("team_id", MemberTeams(sub), false))
      case Channel => Some(Any([Eq("kind", Text("global")), In("team_id", MemberTeams(sub), false)]))
      case Message =>
        Some(All([In("channel_id", VisibleChannels(sub), false),
                  Gte("created_at_us", Int(MemberChatWindowCutoffMicros(nowMs)))]))
      case Issue => Some(In("team_id", MemberTeams(sub), false))
  }

  predicate Accepts(table: Table, r: Row, claims: Claims, nowMs: int, db: Db) {
    Shows(ReadFilter(table, claims, nowMs), r, db)
  }
}
