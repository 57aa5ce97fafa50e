/** The lazy-relation guard: which relations a compiled statement reads, found by a substring scan. */
module LazyGuard {
  import opened Options
  import opened Characters
  import opened Sequences
  import opened SqlText

  // ---- The scan, on text ----

  predicate MatchesAt(sql: string, token: string, at: nat) {
    at + |token| <= |sql| && sql[at..at + |token|] == token
  }

  predicate SpellsAs(a: char, s: char) {
    (a == 'a' || a == 'A') && (s == 's' || s == 'S')
  }

  function TrimEnd(s: string): string {
    if s != [] && IsSpace(s[|s| - 1]) then TrimEnd(s[..|s| - 1]) else s
  }

  /** `/\bas\s+$/i` */
  predicate EndsInAs(s: string) {
    TrimEnd(s) != s && EndsWithAs(TrimEnd(s))
  }

  /** `/\bas$/i` */
  predicate EndsWithAs(t: string) {
    |t| >= 2 && SpellsAs(t[|t| - 2], t[|t| - 1]) && (|t| > 2 ==> !IsWord(t[|t| - 3]))
  }

  function Window(sql: string, at: nat): string
    requires at <= |sql|
  {
    sql[(if at < 16 then 0 else at - 16)..at]
  }

  /** Whether the token occurs from `from` on other than as an alias, each search going on behind the last find. */
  predicate Scan(sql: string, token: string, from: nat)
    requires token != []
    decreases |sql| - from
  {
    from + |token| <= |sql|
    && if MatchesAt(sql, token, from)
       then !EndsInAs(Window(sql, from)) || Scan(sql, token, from + |token|)
       else Scan(sql, token, from + 1)
  }

  lemma {:induction false} ScanSkips(sql: string, token: string, a: nat, b: nat)
    requires token != [] && a <= b && forall p | a <= p < b :: !MatchesAt(sql, token, p)
    ensures Scan(sql, token, a) == Scan(sql, token, b)
    decreases b - a
  {
    if a < b { ScanSkips(sql, token, a + 1, b); }
  }

  lemma ScanHere(sql: string, token: string, at: nat)
    requires token != [] && MatchesAt(sql, token, at)
    ensures Scan(sql, token, at) == (!EndsInAs(Window(sql, at)) || Scan(sql, token, at + |token|))
  {
  }

  method IndexOf(sql: string, token: string, from: nat) returns (at: Option<nat>)
    ensures at.Some? ==> from <= at.value && MatchesAt(sql, token, at.value) && forall p | from <= p < at.value :: !MatchesAt(sql, token, p)
    ensures at.None? ==> forall p | from <= p :: !MatchesAt(sql, token, p)
  {
    var p := from;
    while p + |token| <= |sql|
      invariant from <= p && forall q | from <= q < p :: !MatchesAt(sql, token, q)
    {
      if sql[p..p + |token|] == token {
        return Some(p);
      }
      p := p + 1;
    }
    return None;
  }

  method SqlReferencesToken(sql: string, token: string) returns (found: bool)
    requires token != []
    ensures found == Scan(sql, token, 0)
  {
    var from := 0;
    while true
      invariant from <= |sql| && Scan(sql, token, from) == Scan(sql, token, 0)
      decreases |sql| - from
    {
      var at := IndexOf(sql, token, from);
      if at.None? {
        ScanSkips(sql, token, from, |sql|);
        return false;
      }
      ScanSkips(sql, token, from, at.value);
      ScanHere(sql, token, at.value);
      if !EndsInAs(Window(sql, at.value)) {
        return true;
      }
      from := at.value + |token|;
    }
  }

  // ---- References in a list of lexemes ----

  datatype Ref = Ref(name: string, schema: Option<string>)

  predicate Qualified(ref: Ref) {
    ref.schema.Some? && ref.schema.value != ""
  }

  /** How a reference is spelled: an empty schema counts as none. */
  function QuotedRef(ref: Ref): (token: string)
    ensures token != []
  {
    if Qualified(ref) then "\"" + ref.schema.value + "\".\"" + ref.name + "\"" else "\"" + ref.name + "\""
  }

  /** A schema that is empty or left out is not spelled; any other stands before the name. */
  lemma SchemaIsSpelled(name: string, schema: string)
    ensures QuotedRef(Ref(name, None)) == QuotedRef(Ref(name, Some(""))) == "\"" + name + "\""
    ensures schema != "" ==> QuotedRef(Ref(name, Some(schema))) == "\"" + schema + "\"" + "." + "\"" + name + "\""
  {
    assert "\".\"" == "\"" + "." + "\"";
  }

  function First(ref: Ref): string {
    if Qualified(ref) then ref.schema.value else ref.name
  }

  /** No quotes. */
  predicate Plain(ref: Ref) {
    '"' !in ref.name && '"' !in First(ref)
  }

  /** No quotes, and a word unit first. */
  predicate RefOk(ref: Ref) {
    Plain(ref) && First(ref) != [] && IsWord(First(ref)[0])
  }

  /** The reference stands at the `i`-th lexeme. */
  predicate Occurs(lexemes: seq<Lexeme>, ref: Ref, i: nat) {
    if Qualified(ref)
    then i + 2 < |lexemes| && lexemes[i] == Ident(ref.schema.value) && lexemes[i + 1] == Punct('.') && lexemes[i + 2] == Ident(ref.name)
    else i < |lexemes| && lexemes[i] == Ident(ref.name)
  }

  predicate IsAs(word: string) {
    word in {"as", "As", "aS", "AS"}
  }

  function Width(ref: Ref): nat {
    if Qualified(ref) then 3 else 1
  }

  /** The lexeme follows the word `as` and a space. */
  predicate Aliased(lexemes: seq<Lexeme>, i: nat) {
    2 <= i <= |lexemes| && lexemes[i - 1] == Space && lexemes[i - 2].Word? && IsAs(lexemes[i - 2].text)
  }

  /** The occurrence shares its first identifier with one in alias position. */
  predicate Shadowed(lexemes: seq<Lexeme>, ref: Ref, i: nat) {
    Qualified(ref) && i >= 2 && Occurs(lexemes, ref, i - 2) && Aliased(lexemes, i - 2)
  }

  ghost predicate Referenced(lexemes: seq<Lexeme>, ref: Ref) {
    exists i: nat :: Occurs(lexemes, ref, i) && !Aliased(lexemes, i)
  }

  ghost predicate Reported(lexemes: seq<Lexeme>, ref: Ref) {
    exists i: nat :: Occurs(lexemes, ref, i) && !Aliased(lexemes, i) && !Shadowed(lexemes, ref, i)
  }

  // ---- Where the token's text occurs ----

  lemma {:induction false} SameName(m: string, n: string, r: string, t: string)
    requires '"' !in m && '"' !in n && n + "\"" + t <= m + "\"" + r
    ensures m == n && t <= r
  {
    var a, b := n + "\"" + t, m + "\"" + r;
    assert a[0] == b[0] && a[1..] <= b[1..];
    if n != [] && m != [] {
      assert a[1..] == n[1..] + "\"" + t && b[1..] == m[1..] + "\"" + r;
      SameName(m[1..], n[1..], r, t);
    } else {
      assert n == [] ==> a[1..] == t;
      assert m == [] ==> b[1..] == r;
    }
  }

  lemma OccursWhereItMatches(lexemes: seq<Lexeme>, ref: Ref)
    requires Statement(lexemes) && Plain(ref) && QuotedRef(ref) <= Render(lexemes)
    ensures Occurs(lexemes, ref, 0)
  {
    var token, text := QuotedRef(ref), Render(lexemes);
    assert text[0] == token[0] == '"';
    StartsWithQuote(lexemes);
    QuotedParts(ref);
    SameNameFrom(lexemes, First(ref), AfterFirst(ref));
    if Qualified(ref) { DotThenName(lexemes[1..], ref.name); }
  }

  /** What follows the first identifier of a reference. */
  function AfterFirst(ref: Ref): string {
    if Qualified(ref) then ".\"" + ref.name + "\"" else []
  }

  lemma QuotedParts(ref: Ref)
    ensures QuotedRef(ref) == "\"" + First(ref) + "\"" + AfterFirst(ref)
  {
    if Qualified(ref) {
      var schema, name := ref.schema.value, ref.name;
      assert "\".\"" == "\"" + ".\"";
      Associative("\"" + schema, "\"", ".\"");
      Associative("\"" + schema + "\"", ".\"", name);
      Associative("\"" + schema + "\"", ".\"" + name, "\"");
    }
  }

  lemma DotThenName(lexemes: seq<Lexeme>, name: string)
    requires Statement(lexemes) && '"' !in name && ".\"" + name + "\"" <= Render(lexemes)
    ensures |lexemes| >= 2 && lexemes[0] == Punct('.') && lexemes[1] == Ident(name)
  {
    var quoted := "\"" + name + "\"";
    PrefixTail(".\"" + name + "\"", Render(lexemes));
    BehindDot(name);
    StartsWithDot(lexemes);
    assert quoted <= Render(lexemes[1..]);
    StartsWithQuote(lexemes[1..]);
    assert quoted + [] == quoted;
    SameNameFrom(lexemes[1..], name, []);
  }

  lemma BehindDot(name: string)
    ensures (".\"" + name + "\"")[1..] == "\"" + name + "\""
  {
  }

  lemma PrefixTail<T>(a: seq<T>, b: seq<T>)
    requires a <= b && a != []
    ensures a[0] == b[0] && a[1..] <= b[1..]
  {
  }

  lemma StartsWithDot(lexemes: seq<Lexeme>)
    requires Statement(lexemes) && Render(lexemes) != [] && Render(lexemes)[0] == '.'
    ensures lexemes[0] == Punct('.') && Render(lexemes)[1..] == Render(lexemes[1..]) && Statement(lexemes[1..])
  {
    WordUnits(lexemes[0]);
    assert Spell(lexemes[0])[0] == '.';
  }

  lemma WordUnits(l: Lexeme)
    requires LexemeOk(l)
    ensures |Spell(l)| > 0
    ensures l.Word? ==> IsWord(l.text[0]) && IsWord(l.text[|l.text| - 1])
  {
  }

  lemma StartsWithQuote(lexemes: seq<Lexeme>)
    requires Statement(lexemes) && lexemes != []
    ensures Render(lexemes) != [] && (Render(lexemes)[0] == '"' <==> lexemes[0].Ident?)
    ensures IsWord(Render(lexemes)[0]) <==> lexemes[0].Word?
  {
    WordUnits(lexemes[0]);
  }

  lemma SameNameFrom(lexemes: seq<Lexeme>, n: string, t: string)
    requires Statement(lexemes) && lexemes != [] && lexemes[0].Ident? && '"' !in n
    requires "\"" + n + "\"" + t <= Render(lexemes)
    ensures lexemes[0] == Ident(n) && t <= Render(lexemes[1..])
  {
    var m, r := lexemes[0].name, Render(lexemes[1..]);
    Regroup(m, r);
    Regroup(n, t);
    PrefixTail("\"" + n + "\"" + t, Render(lexemes));
    SameName(m, n, r, t);
  }

  lemma Regroup(n: string, t: string)
    ensures ("\"" + n + "\"" + t)[1..] == n + "\"" + t
  {
  }
}
