/** The read path and the write path agree: the filters a client's shapes are compiled with show exactly the rows
    the database would. */
module BoardVisibility {
  import opened Options
  import opened BoardDatabase
  import opened ReadPredicate
  import opened BoardReadFilters
  import opened BoardRowSecurity

  /** The teams of a subject, by the filter's subquery and by the helper function. */
  lemma SameMemberTeams(claims: Claims, db: Db, v: Value)
    requires HasSubject(claims)
    ensures v in Projected(MemberTeams(claims.sub.value), db(TeamMember), db) <==> v in BoardMemberTeamIds(db(TeamMember), claims)
  {
    var q := MemberTeams(claims.sub.value);
    ProjectedIs(q, db(TeamMember), db, v);
    MemberTeamIdsAre(db(TeamMember), claims, v);
  }

  lemma TeamTestsAgree(r: Row, col: string, claims: Claims, db: Db, rank: nat)
    requires HasSubject(claims)
    ensures Holds(In(col, MemberTeams(claims.sub.value), false), r, db).True?
            <==> Eval(MemberOfTeam(col), r, claims, db, rank).True?
  {
    SameMemberTeams(claims, db, Cell(r, col));
  }

  lemma ChannelTestsAgree(r: Row, claims: Claims, db: Db, rank: nat)
    requires HasSubject(claims)
    ensures Holds(VisibleChannels(claims.sub.value).where_.value, r, db).True?
            <==> Eval(GlobalOrMember(), r, claims, db, rank).True?
  {
    TeamTestsAgree(r, "team_id", claims, db, rank);
    var nodes := VisibleChannels(claims.sub.value).where_.value.nodes;
    HoldsAnyTwo(nodes[0], nodes[1], r, db);
  }

  lemma HoldsAnyTwo(p: Predicate, q: Predicate, r: Row, db: Db)
    ensures Holds(Any([p, q]), r, db).True? <==> Holds(p, r, db).True? || Holds(q, r, db).True?
    ensures Holds(All([p, q]), r, db).True? <==> Holds(p, r, db).True? && Holds(q, r, db).True?
  {
    var nodes := [p, q];
    assert nodes[1..] == [q] && [q][1..] == [];
    assert HoldsAny([q], r, db) == Or3(Holds(q, r, db), HoldsAny([], r, db));
    assert HoldsAny(nodes, r, db) == Or3(Holds(p, r, db), HoldsAny([q], r, db));
    assert Holds(Any(nodes), r, db) == HoldsAny(nodes, r, db);
    assert HoldsAll([q], r, db) == And3(Holds(q, r, db), HoldsAll([], r, db));
    assert HoldsAll(nodes, r, db) == And3(Holds(p, r, db), HoldsAll([q], r, db));
    assert Holds(All(nodes), r, db) == HoldsAll(nodes, r, db);
  }

  function GlobalOrMember(): Expr {
    OrElse(EqText("kind", "global"), MemberOfTeam("team_id"))
  }

  /** What decides a SELECT on each table, next to the Admin claim. */
  function Deciding(table: Table): Expr {
    match table
    case Profile => UidIsNotNull
    case Channel => GlobalOrMember()
    case Message => AnyOfSelect("channel_id", "id", Channel, GlobalOrMember())
    case Team => MemberOfTeam("id")
    case _ => MemberOfTeam("team_id")
  }

  function SelectUsing(table: Table): Expr {
    if table.Profile? then Deciding(table) else OrElse(Deciding(table), Admin)
  }

  lemma OneSelectPolicy(table: Table, policy: Policy)
    ensures policy in Policies(table) && policy.command.Select? ==> policy.using == Some(SelectUsing(table))
    ensures exists q :: q in Policies(table) && q.command.Select? && q.using == Some(SelectUsing(table))
  {
    assert Policies(table)[0] in Policies(table);
  }

  lemma VisibleIs(table: Table, r: Row, claims: Claims, db: Db)
    ensures Visible(table, r, claims, db) <==>
            Eval(Deciding(table), r, claims, db, Rank(table)).True? || (!table.Profile? && AdminClaim(claims))
  {
    ghost var rank := Rank(table);
    ghost var using := SelectUsing(table);
    EvalOr(Deciding(table), r, claims, db, rank);
    OneSelectPolicy(table, Policies(table)[0]);
    var one :| one in Policies(table) && one.command.Select? && one.using == Some(using);
    if Visible(table, r, claims, db) {
      var q :| q in Policies(table) && q.command.Select? && q.using.Some? && Eval(q.using.value, r, claims, db, rank).True?;
      OneSelectPolicy(table, q);
    }
  }

  lemma EvalOr(e: Expr, r: Row, claims: Claims, db: Db, rank: nat)
    ensures Eval(OrElse(e, Admin), r, claims, db, rank).True? <==> Eval(e, r, claims, db, rank).True? || AdminClaim(claims)
  {
  }

  /** The channels a message may be in: the sub-select runs under the channel's own policy, which adds nothing. */
  lemma ChannelSetsAgree(claims: Claims, db: Db, v: Value)
    requires HasSubject(claims)
    ensures v in Projected(VisibleChannels(claims.sub.value), db(Channel), db) <==>
            v in Selected("id", Channel, GlobalOrMember(), db(Channel), claims, db, 1)
  {
    var where_ := GlobalOrMember();
    ProjectedIs(VisibleChannels(claims.sub.value), db(Channel), db, v);
    SelectedIs("id", Channel, where_, db(Channel), claims, db, 1, v);
    forall r | r in db(Channel)
      ensures Holds(VisibleChannels(claims.sub.value).where_.value, r, db).True? <==>
              Visible(Channel, r, claims, db) && Eval(where_, r, claims, db, 1).True?
    {
      ChannelTestsAgree(r, claims, db, 1);
      ChannelTestsAgree(r, claims, db, 0);
      VisibleIs(Channel, r, claims, db);
    }
  }

  /** Sent no earlier than the midnight (UTC) three weeks before the last one. */
  ghost predicate InChatWindow(r: Row, nowMs: int) {
    var sentAt := Cell(r, "created_at_us");
    sentAt.Int? && exists midnightMs :: IsLastMidnight(midnightMs, nowMs) && sentAt.num >= (midnightMs - 21 * 24 * 3_600_000) * 1000
  }

  predicate IsLastMidnight(midnightMs: int, nowMs: int) {
    midnightMs % (24 * 3_600_000) == 0 && midnightMs <= nowMs < midnightMs + 24 * 3_600_000
  }

  lemma CutoffIsMidnight(r: Row, nowMs: int)
    ensures var sentAt := Cell(r, "created_at_us");
            InChatWindow(r, nowMs) <==> sentAt.Int? && sentAt.num >= MemberChatWindowCutoffMicros(nowMs)
  {
    var midnightMs := nowMs / MS_PER_DAY * MS_PER_DAY;
    assert IsLastMidnight(midnightMs, nowMs);
    forall m | IsLastMidnight(m, nowMs) ensures m == midnightMs {
      assert m == m / MS_PER_DAY * MS_PER_DAY;
      assert m / MS_PER_DAY == nowMs / MS_PER_DAY;
    }
  }

  /** For a subject, or an Admin with or without one, a filter shows a row exactly when the table's SELECT policy
      does, but that a Member's messages are cut by the chat window too. */
  lemma FilterAgreesWithPolicy(table: Table, r: Row, claims: Claims, nowMs: int, db: Db)
    requires (claims.sub.Some? && claims.sub.value != "") || IsAdmin(claims)
    ensures Accepts(table, r, claims, nowMs, db) <==>
            Visible(table, r, claims, db) && (table.Message? && !IsAdmin(claims) ==> InChatWindow(r, nowMs))
  {
    VisibleIs(table, r, claims, db);
    if !IsAdmin(claims) {
      match table
      case Profile =>
      case Channel => ChannelTestsAgree(r, claims, db, 0);
      case Message => MessageTestsAgree(r, claims, nowMs, db);
      case Team => TeamTestsAgree(r, "id", claims, db, 0);
      case _ => TeamTestsAgree(r, "team_id", claims, db, 0);
    }
  }

  lemma MessageTestsAgree(r: Row, claims: Claims, nowMs: int, db: Db)
    requires HasSubject(claims) && !IsAdmin(claims)
    ensures Accepts(Message, r, claims, nowMs, db) <==>
            Eval(Deciding(Message), r, claims, db, 1).True? && InChatWindow(r, nowMs)
  {
    var nodes := ReadFilter(Message, claims, nowMs).value.nodes;
    HoldsAnyTwo(nodes[0], nodes[1], r, db);
    ChannelSetsAgree(claims, db, Cell(r, "channel_id"));
    CutoffIsMidnight(r, nowMs);
  }

  /** With neither a subject nor the Admin role the filters show nothing; the policies still show the global
      channels and what was said in them, and nothing else. */
  lemma WithoutStandingTheySplit(table: Table, r: Row, claims: Claims, nowMs: int, db: Db)
    requires (claims.sub.None? || claims.sub.value == "") && !IsAdmin(claims)
    ensures !Accepts(table, r, claims, nowMs, db)
    ensures Visible(table, r, claims, db) <==>
            match table
            case Channel => Cell(r, "kind") == Text("global")
            case Message => !Cell(r, "channel_id").Null? &&
                            exists c :: c in db(Channel) && Cell(c, "id") == Cell(r, "channel_id") && Cell(c, "kind") == Text("global")
            case _ => false
  {
    VisibleIs(table, r, claims, db);
    NoTeams(r, claims, db, Rank(table));
    if table.Message? { GlobalChannelsOnly(r, claims, db); }
  }

  lemma GlobalChannelsOnly(r: Row, claims: Claims, db: Db)
    requires !HasSubject(claims) && !IsAdmin(claims)
    ensures Eval(Deciding(Message), r, claims, db, 1).True? <==>
            !Cell(r, "channel_id").Null? &&
            exists c :: c in db(Channel) && Cell(c, "id") == Cell(r, "channel_id") && Cell(c, "kind") == Text("global")
  {
    SelectedIs("id", Channel, GlobalOrMember(), db(Channel), claims, db, 1, Cell(r, "channel_id"));
    forall c ensures Reads(Channel, GlobalOrMember(), c, claims, db, 1) <==> Cell(c, "kind") == Text("global") {
      NoTeams(c, claims, db, 0);
      NoTeams(c, claims, db, 1);
      VisibleIs(Channel, c, claims, db);
    }
  }

  lemma NoTeams(r: Row, claims: Claims, db: Db, rank: nat)
    requires !HasSubject(claims)
    ensures !Eval(MemberOfTeam("id"), r, claims, db, rank).True? && !Eval(MemberOfTeam("team_id"), r, claims, db, rank).True?
    ensures Eval(GlobalOrMember(), r, claims, db, rank).True? <==> Cell(r, "kind") == Text("global")
  {
    MemberTeamIdsAre(db(TeamMember), claims, Cell(r, "id"));
    MemberTeamIdsAre(db(TeamMember), claims, Cell(r, "team_id"));
  }

  // ---- What is visible with a row ----

  /** Primary keys, and the references the schema declares. */
  ghost predicate WellFormed(db: Db) {
    && KeyOf(db(Channel)) && KeyOf(db(Team))
    && Refers(db(Message), "channel_id", db(Channel)) && Refers(db(Issue), "team_id", db(Team))
    && Refers(db(TeamMember), "team_id", db(Team))
    && (forall c | c in db(Channel) && !Cell(c, "team_id").Null? :: References(c, "team_id", db(Team)))
  }

  ghost predicate KeyOf(rows: seq<Row>) {
    forall r, q | r in rows && q in rows && Cell(r, "id") == Cell(q, "id") :: r == q
  }

  ghost predicate References(r: Row, col: string, rows: seq<Row>) {
    !Cell(r, col).Null? && exists q :: q in rows && Cell(q, "id") == Cell(r, col)
  }

  ghost predicate Refers(from_: seq<Row>, col: string, rows: seq<Row>) {
    forall r | r in from_ :: References(r, col, rows)
  }

  /** A visible message comes with its channel. */
  lemma VisibleMessageHasItsChannel(m: Row, claims: Claims, nowMs: int, db: Db)
    requires WellFormed(db) && m in db(Message) && Accepts(Message, m, claims, nowMs, db)
    ensures exists c :: c in db(Channel) && Cell(c, "id") == Cell(m, "channel_id") && Accepts(Channel, c, claims, nowMs, db)
    ensures forall c | c in db(Channel) && Cell(c, "id") == Cell(m, "channel_id") :: Accepts(Channel, c, claims, nowMs, db)
  {
    assert References(m, "channel_id", db(Channel));
    if !IsAdmin(claims) {
      WithSubject(Message, m, claims, nowMs, db);
      var nodes := ReadFilter(Message, claims, nowMs).value.nodes;
      HoldsAnyTwo(nodes[0], nodes[1], m, db);
      ProjectedIs(VisibleChannels(claims.sub.value), db(Channel), db, Cell(m, "channel_id"));
    }
  }

  lemma WithSubject(table: Table, r: Row, claims: Claims, nowMs: int, db: Db)
    requires Accepts(table, r, claims, nowMs, db)
    ensures HasSubject(claims) || IsAdmin(claims)
  {
  }

  /** A visible issue or membership comes with its team, and so does a visible channel of a team. */
  lemma VisibleRowHasItsTeam(table: Table, r: Row, claims: Claims, nowMs: int, db: Db)
    requires WellFormed(db) && r in db(table) && Accepts(table, r, claims, nowMs, db)
    requires table.Issue? || table.TeamMember? || (table.Channel? && Cell(r, "kind") != Text("global") && !Cell(r, "team_id").Null?)
    ensures exists t :: t in db(Team) && Cell(t, "id") == Cell(r, "team_id") && Accepts(Team, t, claims, nowMs, db)
    ensures forall t | t in db(Team) && Cell(t, "id") == Cell(r, "team_id") :: Accepts(Team, t, claims, nowMs, db)
  {
    assert References(r, "team_id", db(Team));
    if !IsAdmin(claims) {
      WithSubject(table, r, claims, nowMs, db);
      if table.Channel? {
        var nodes := ReadFilter(Channel, claims, nowMs).value.nodes;
        HoldsAnyTwo(nodes[0], nodes[1], r, db);
      }
    }
  }
}
