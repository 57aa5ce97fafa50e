/** The substring scan of the lazy guard against the references a statement makes. */
module LazyGuardExact {
  import opened Options
  import opened Characters
  import opened SqlText
  import opened LazyGuard

  // ---- The token's text occurs where the reference does ----

  /** What stands between two identifiers never spells `name`. */
  ghost predicate NoGapSpells(lexemes: seq<Lexeme>, name: string) {
    forall i, j | 0 <= i < j < |lexemes| && lexemes[i].Ident? && lexemes[j].Ident? :: Render(lexemes[i + 1..j]) != name
  }

  /** The text of a token matches where the token occurs and nowhere else. */
  lemma {:induction false} MatchIsOccurrence(lexemes: seq<Lexeme>, ref: Ref, at: nat) returns (i: nat)
    requires Statement(lexemes) && Plain(ref) && NoGapSpells(lexemes, First(ref)) && MatchesAt(Render(lexemes), QuotedRef(ref), at)
    ensures i < |lexemes| && at == Start(lexemes, i) && Occurs(lexemes, ref, i)
  {
    var token := QuotedRef(ref);
    if at == 0 {
      OccursWhereItMatches(lexemes, ref);
      i := 0;
    } else {
      var one, rest := Spell(lexemes[0]), lexemes[1..];
      MatchBehindFirst(lexemes, ref, at);
      MatchInTail(one, Render(rest), token, at);
      NoGapInTail(lexemes, First(ref));
      i := MatchIsOccurrence(rest, ref, at - |one|);
      i := i + 1;
      assert Start(lexemes, i) == |one| + Start(rest, i - 1);
    }
  }

  lemma NoGapInTail(lexemes: seq<Lexeme>, name: string)
    requires lexemes != [] && NoGapSpells(lexemes, name)
    ensures NoGapSpells(lexemes[1..], name)
  {
    var rest := lexemes[1..];
    forall i, j | 0 <= i < j < |rest| && rest[i].Ident? && rest[j].Ident? ensures Render(rest[i + 1..j]) != name {
      assert rest[i + 1..j] == lexemes[i + 2..j + 1] && lexemes[i + 1].Ident? && lexemes[j + 1].Ident?;
    }
  }

  lemma MatchInTail<T>(one: seq<T>, rest: seq<T>, token: seq<T>, at: nat)
    requires |one| <= at && at + |token| <= |one + rest| && (one + rest)[at..at + |token|] == token
    ensures at - |one| + |token| <= |rest| && rest[at - |one|..at - |one| + |token|] == token
  {
  }

  /** No match begins inside the first lexeme: there is no quote in it but the closing one of an identifier, and
      what stands between that and the next is not the name. */
  lemma MatchBehindFirst(lexemes: seq<Lexeme>, ref: Ref, at: nat)
    requires Statement(lexemes) && Plain(ref) && NoGapSpells(lexemes, First(ref))
    requires at > 0 && MatchesAt(Render(lexemes), QuotedRef(ref), at)
    ensures lexemes != [] && |Spell(lexemes[0])| <= at
  {
    if lexemes != [] && at < |Spell(lexemes[0])| { NoMatchInside(lexemes, ref, at); }
  }

  lemma NoMatchInside(lexemes: seq<Lexeme>, ref: Ref, at: nat)
    requires Statement(lexemes) && Plain(ref) && NoGapSpells(lexemes, First(ref))
    requires lexemes != [] && 0 < at < |Spell(lexemes[0])|
    ensures !MatchesAt(Render(lexemes), QuotedRef(ref), at)
  {
    var one, rest := Spell(lexemes[0]), lexemes[1..];
    assert Render(lexemes)[at] == one[at];
    if lexemes[0].Ident? && at == |one| - 1 {
      assert Render(lexemes)[at + 1..] == Render(rest);
      NoGapBehindFirst(lexemes, First(ref));
      if MatchesAt(Render(lexemes), QuotedRef(ref), at) {
        MatchBehindQuote(Render(lexemes), ref, at);
        var j := FirstQuote(rest, First(ref));
      }
    } else {
      NoQuoteInside(lexemes[0], at);
      assert QuotedRef(ref)[0] == '"';
    }
  }

  lemma NoGapBehindFirst(lexemes: seq<Lexeme>, name: string)
    requires lexemes != [] && lexemes[0].Ident? && NoGapSpells(lexemes, name)
    ensures forall j | 0 <= j < |lexemes| - 1 && lexemes[1..][j].Ident? :: Render(lexemes[1..][..j]) != name
  {
    forall j | 0 <= j < |lexemes| - 1 && lexemes[1..][j].Ident? ensures Render(lexemes[1..][..j]) != name {
      assert lexemes[0 + 1..j + 1] == lexemes[1..][..j] && lexemes[j + 1].Ident?;
    }
  }

  lemma MatchBehindQuote(text: string, ref: Ref, at: nat)
    requires MatchesAt(text, QuotedRef(ref), at)
    ensures First(ref) + "\"" <= text[at + 1..]
  {
    var token := QuotedRef(ref);
    assert "\"" + (First(ref) + "\"") <= token;
    PrefixTail("\"" + (First(ref) + "\""), token);
    assert ("\"" + (First(ref) + "\""))[1..] == First(ref) + "\"";
    assert token[1..] <= text[at + 1..];
  }

  /** A text that runs up to a quote ends where an identifier begins. */
  lemma {:induction false} FirstQuote(lexemes: seq<Lexeme>, name: string) returns (j: nat)
    requires Statement(lexemes) && '"' !in name && name + "\"" <= Render(lexemes)
    ensures j < |lexemes| && lexemes[j].Ident? && Render(lexemes[..j]) == name
  {
    var one, rest := Spell(lexemes[0]), lexemes[1..];
    assert Render(lexemes)[|name|] == (name + "\"")[|name|] == '"';
    if lexemes[0].Ident? {
      j := 0;
      assert (name + "\"")[0] == Render(lexemes)[0] == '"';
    } else {
      NoQuoteIn(lexemes[0]);
      PrefixPast(one, Render(rest), name, '"');
      j := FirstQuote(rest, name[|one|..]);
      assert lexemes[..j + 1] == [lexemes[0]] + rest[..j];
      RenderCons(lexemes[0], rest[..j]);
      j := j + 1;
    }
  }

  lemma PrefixPast<T>(one: seq<T>, rest: seq<T>, s: seq<T>, q: T)
    requires s + [q] <= one + rest && q !in one
    ensures |one| <= |s| && s == one + s[|one|..] && s[|one|..] + [q] <= rest
  {
    assert (one + rest)[|s|] == (s + [q])[|s|] == q;
    assert one == (one + rest)[..|one|] == (s + [q])[..|one|];
    assert (s + [q])[|one|..] <= (one + rest)[|one|..];
    assert (one + rest)[|one|..] == rest;
  }

  lemma NoQuoteIn(l: Lexeme)
    requires LexemeOk(l) && !l.Ident?
    ensures '"' !in Spell(l)
  {
  }

  lemma NoQuoteInside(l: Lexeme, at: nat)
    requires LexemeOk(l) && 0 < at < |Spell(l)| && !(l.Ident? && at == |Spell(l)| - 1)
    ensures Spell(l)[at] != '"'
  {
    if l.Ident? { assert Spell(l)[at] == l.name[at - 1]; }
    if l.Word? { assert l.text[at] in l.text; }
  }

  lemma OccurrenceMatches(lexemes: seq<Lexeme>, ref: Ref, i: nat)
    requires Statement(lexemes) && Occurs(lexemes, ref, i)
    ensures MatchesAt(Render(lexemes), QuotedRef(ref), Start(lexemes, i))
  {
    RenderFrom(lexemes, i);
    OccurrenceSpells(lexemes, ref, i);
    PrefixOfTail(Render(lexemes), QuotedRef(ref), Start(lexemes, i));
  }

  lemma OccurrenceEnds(lexemes: seq<Lexeme>, ref: Ref, i: nat)
    requires Statement(lexemes) && Occurs(lexemes, ref, i)
    ensures i + Width(ref) <= |lexemes| && Start(lexemes, i) + |QuotedRef(ref)| == Start(lexemes, i + Width(ref))
  {
    StartNext(lexemes, i);
    if Qualified(ref) {
      ThreeOn(lexemes, i);
      assert |QuotedRef(ref)| == |ref.schema.value| + |ref.name| + 5;
    }
  }

  lemma ThreeOn(lexemes: seq<Lexeme>, i: nat)
    requires Statement(lexemes) && i + 2 < |lexemes|
    ensures Start(lexemes, i + 3) ==
            Start(lexemes, i) + |Spell(lexemes[i])| + |Spell(lexemes[i + 1])| + |Spell(lexemes[i + 2])|
  {
    StartNext(lexemes, i);
    StartNext(lexemes, i + 1);
    StartNext(lexemes, i + 2);
  }

  lemma OccurrenceSpells(lexemes: seq<Lexeme>, ref: Ref, i: nat)
    requires Occurs(lexemes, ref, i)
    ensures QuotedRef(ref) <= Render(lexemes[i..])
  {
    if Qualified(ref) {
      RenderThree(lexemes[i], lexemes[i + 1], lexemes[i + 2], lexemes[i + 3..]);
      FirstThree(lexemes, i);
      assert QuotedRef(ref) == Spell(lexemes[i]) + Spell(lexemes[i + 1]) + Spell(lexemes[i + 2]);
    }
  }

  lemma FirstThree<T>(s: seq<T>, i: nat)
    requires i + 2 < |s|
    ensures s[i..] == [s[i]] + ([s[i + 1]] + ([s[i + 2]] + s[i + 3..]))
  {
  }

  lemma RenderCons(a: Lexeme, rest: seq<Lexeme>)
    ensures Render([a] + rest) == Spell(a) + Render(rest)
  {
    assert ([a] + rest)[1..] == rest;
  }

  lemma RenderThree(a: Lexeme, b: Lexeme, c: Lexeme, rest: seq<Lexeme>)
    ensures Spell(a) + Spell(b) + Spell(c) <= Render([a] + ([b] + ([c] + rest)))
  {
    RenderCons(a, [b] + ([c] + rest));
    RenderCons(b, [c] + rest);
    RenderCons(c, rest);
    ThreeFirst(Spell(a), Spell(b), Spell(c), Render(rest));
  }

  lemma ThreeFirst<T>(a: seq<T>, b: seq<T>, c: seq<T>, d: seq<T>)
    ensures a + b + c <= a + (b + (c + d))
  {
    assert a + (b + (c + d)) == a + b + c + d;
  }

  lemma PrefixOfTail<T>(s: seq<T>, t: seq<T>, n: nat)
    requires n <= |s| && t <= s[n..]
    ensures n + |t| <= |s| && s[n..n + |t|] == t
  {
  }

  // ---- The alias test ----

  /** The last unit of a lexeme. */
  lemma LastUnit(l: Lexeme)
    requires LexemeOk(l)
    ensures var c := Spell(l)[|Spell(l)| - 1];
            && (IsSpace(c) <==> l.Space?)
            && (IsWord(c) <==> l.Word?)
  {
    if l.Word? {
      assert l.text[|l.text| - 1] in l.text;
    }
  }

  lemma {:induction false} LastOfRender(lexemes: seq<Lexeme>, i: nat)
    requires Statement(lexemes) && 0 < i <= |lexemes|
    ensures Render(lexemes[..i]) == Render(lexemes[..i - 1]) + Spell(lexemes[i - 1])
  {
    assert lexemes[..i] == lexemes[..i - 1] + [lexemes[i - 1]];
    RenderConcat(lexemes[..i - 1], [lexemes[i - 1]]);
    assert Render([lexemes[i - 1]]) == Spell(lexemes[i - 1]) + [];
  }

  function LastUnits(s: string, n: nat): string {
    if |s| <= n then s else s[|s| - n..]
  }

  lemma AliasTest(lexemes: seq<Lexeme>, i: nat)
    requires Statement(lexemes) && i < |lexemes|
    ensures Start(lexemes, i) <= |Render(lexemes)|
    ensures EndsInAs(Window(Render(lexemes), Start(lexemes, i))) <==> Aliased(lexemes, i)
  {
    WindowIsLast(lexemes, i);
    if i > 0 && lexemes[i - 1].Space? {
      LastOfRender(lexemes, i);
      NoSpaceBefore(lexemes, i - 1);
      AfterSpace(Render(lexemes[..i - 1]));
      AliasWord(lexemes, i - 1);
    } else {
      EndsInNoSpace(lexemes, i);
      WithoutSpace(Render(lexemes[..i]));
    }
  }

  lemma WindowIsLast(lexemes: seq<Lexeme>, i: nat)
    requires i <= |lexemes|
    ensures Start(lexemes, i) <= |Render(lexemes)|
    ensures Window(Render(lexemes), Start(lexemes, i)) == LastUnits(Render(lexemes[..i]), 16)
  {
    RenderFrom(lexemes, i);
    WindowIsTail(Render(lexemes), Start(lexemes, i));
  }

  lemma WindowIsTail(sql: string, at: nat)
    requires at <= |sql|
    ensures Window(sql, at) == LastUnits(sql[..at], 16)
  {
  }

  lemma EndsInNoSpace(lexemes: seq<Lexeme>, i: nat)
    requires Statement(lexemes) && i <= |lexemes| && (i > 0 ==> !lexemes[i - 1].Space?)
    ensures !EndsInSpace(Render(lexemes[..i]))
  {
    if i > 0 {
      LastOfRender(lexemes, i);
      StatementAt(lexemes, i - 1);
      LastUnit(lexemes[i - 1]);
    }
  }

  predicate EndsInSpace(s: string) {
    s != [] && IsSpace(s[|s| - 1])
  }

  lemma WithoutSpace(s: string)
    requires !EndsInSpace(s)
    ensures !EndsInAs(LastUnits(s, 16))
  {
    assert TrimEnd(LastUnits(s, 16)) == LastUnits(s, 16);
  }

  lemma AfterSpace(before: string)
    requires !EndsInSpace(before)
    ensures EndsInAs(LastUnits(before + " ", 16)) <==> EndsWithAs(before)
  {
    var w := LastUnits(before, 15);
    assert LastUnits(before + " ", 16) == w + " " && (w + " ")[..|w|] == w;
    assert TrimEnd(w + " ") == TrimEnd(w) == w;
    WindowSuffices(before);
  }

  lemma WindowSuffices(s: string)
    ensures EndsWithAs(LastUnits(s, 15)) <==> EndsWithAs(s)
  {
  }

  lemma NoSpaceBefore(lexemes: seq<Lexeme>, i: nat)
    requires Statement(lexemes) && i < |lexemes| && lexemes[i].Space?
    ensures !EndsInSpace(Render(lexemes[..i]))
  {
    if i > 0 { StatementAt(lexemes, i - 1); }
    EndsInNoSpace(lexemes, i);
  }

  /** What stands before the space ends in the word `as`. */
  lemma AliasWord(lexemes: seq<Lexeme>, i: nat)
    requires Statement(lexemes) && i < |lexemes| && lexemes[i].Space?
    ensures EndsWithAs(Render(lexemes[..i])) <==> i > 0 && lexemes[i - 1].Word? && IsAs(lexemes[i - 1].text)
  {
    if i > 0 {
      LastOfRender(lexemes, i);
      StatementAt(lexemes, i - 1);
      LastUnit(lexemes[i - 1]);
      if lexemes[i - 1].Word? { AsIsAWord(lexemes, i - 1); } else { NoWordNoAs(Render(lexemes[..i])); }
    }
  }

  lemma NoWordNoAs(s: string)
    requires s != [] && !IsWord(s[|s| - 1])
    ensures !EndsWithAs(s)
  {
  }

  lemma AsIsAWord(lexemes: seq<Lexeme>, i: nat)
    requires Statement(lexemes) && i < |lexemes| && lexemes[i].Word?
    ensures EndsWithAs(Render(lexemes[..i]) + lexemes[i].text) <==> IsAs(lexemes[i].text)
  {
    StatementAt(lexemes, i);
    if i > 0 {
      LastOfRender(lexemes, i);
      StatementAt(lexemes, i - 1);
      LastUnit(lexemes[i - 1]);
    }
    WordAtEnd(Render(lexemes[..i]), lexemes[i].text);
  }

  lemma AsIs(word: string)
    ensures IsAs(word) <==> |word| == 2 && SpellsAs(word[0], word[1])
  {
    if |word| == 2 { assert word == [word[0], word[1]]; }
  }

  lemma WordAtEnd(before: string, word: string)
    requires word != [] && (forall c | c in word :: IsWord(c)) && (before != [] ==> !IsWord(before[|before| - 1]))
    ensures EndsWithAs(before + word) <==> IsAs(word)
  {
    var all := before + word;
    AsIs(word);
    if |word| >= 3 {
      assert all[|all| - 3] == word[|word| - 3] && word[|word| - 3] in word;
    }
  }

  // ---- The scan ----

  /** The scan's walk over lexemes: an occurrence in alias position is left behind as a whole. */
  predicate Walk(lexemes: seq<Lexeme>, ref: Ref, i: nat)
    decreases |lexemes| - i
  {
    i < |lexemes|
    && if Occurs(lexemes, ref, i)
       then !Aliased(lexemes, i) || Walk(lexemes, ref, i + Width(ref))
       else Walk(lexemes, ref, i + 1)
  }

  lemma {:induction false} StartGrows(lexemes: seq<Lexeme>, i: nat, j: nat)
    requires Statement(lexemes) && i < j <= |lexemes|
    ensures Start(lexemes, i) < Start(lexemes, j)
  {
    StartNext(lexemes, j - 1);
    if i < j - 1 { StartGrows(lexemes, i, j - 1); }
  }

  lemma {:induction false} ScanIsWalk(lexemes: seq<Lexeme>, ref: Ref, i: nat)
    requires Statement(lexemes) && Plain(ref) && NoGapSpells(lexemes, First(ref)) && i <= |lexemes|
    ensures Scan(Render(lexemes), QuotedRef(ref), Start(lexemes, i)) == Walk(lexemes, ref, i)
    decreases |lexemes| - i
  {
    if i == |lexemes| {
      NothingAtEnd(lexemes, QuotedRef(ref));
    } else if Occurs(lexemes, ref, i) {
      ScanAtOccurrence(lexemes, ref, i);
      ScanIsWalk(lexemes, ref, i + Width(ref));
    } else {
      ScanBetween(lexemes, ref, i);
      ScanIsWalk(lexemes, ref, i + 1);
    }
  }

  lemma NothingAtEnd(lexemes: seq<Lexeme>, token: string)
    requires token != []
    ensures !Scan(Render(lexemes), token, Start(lexemes, |lexemes|))
  {
    RenderFrom(lexemes, |lexemes|);
    assert lexemes[|lexemes|..] == [];
  }

  lemma ScanAtOccurrence(lexemes: seq<Lexeme>, ref: Ref, i: nat)
    requires Statement(lexemes) && Occurs(lexemes, ref, i)
    ensures i + Width(ref) <= |lexemes|
    ensures Scan(Render(lexemes), QuotedRef(ref), Start(lexemes, i)) ==
            (!Aliased(lexemes, i) || Scan(Render(lexemes), QuotedRef(ref), Start(lexemes, i + Width(ref))))
  {
    OccurrenceMatches(lexemes, ref, i);
    OccurrenceEnds(lexemes, ref, i);
    AliasTest(lexemes, i);
    ScanJumps(Render(lexemes), QuotedRef(ref), Start(lexemes, i), Start(lexemes, i + Width(ref)), Aliased(lexemes, i));
  }

  lemma ScanJumps(sql: string, token: string, at: nat, next: nat, aliased: bool)
    requires token != [] && MatchesAt(sql, token, at) && next == at + |token|
    requires EndsInAs(Window(sql, at)) == aliased
    ensures Scan(sql, token, at) == (!aliased || Scan(sql, token, next))
  {
    ScanHere(sql, token, at);
  }

  lemma ScanBetween(lexemes: seq<Lexeme>, ref: Ref, i: nat)
    requires Statement(lexemes) && Plain(ref) && NoGapSpells(lexemes, First(ref)) && i < |lexemes| && !Occurs(lexemes, ref, i)
    ensures Scan(Render(lexemes), QuotedRef(ref), Start(lexemes, i)) == Scan(Render(lexemes), QuotedRef(ref), Start(lexemes, i + 1))
  {
    StartNext(lexemes, i);
    NoMatchWithin(lexemes, ref, i);
    ScanSkips(Render(lexemes), QuotedRef(ref), Start(lexemes, i), Start(lexemes, i + 1));
  }

  lemma NoMatchWithin(lexemes: seq<Lexeme>, ref: Ref, i: nat)
    requires Statement(lexemes) && Plain(ref) && NoGapSpells(lexemes, First(ref)) && i < |lexemes| && !Occurs(lexemes, ref, i)
    ensures forall p | Start(lexemes, i) <= p < Start(lexemes, i + 1) :: !MatchesAt(Render(lexemes), QuotedRef(ref), p)
  {
    forall p | Start(lexemes, i) <= p < Start(lexemes, i + 1) ensures !MatchesAt(Render(lexemes), QuotedRef(ref), p) {
      if MatchesAt(Render(lexemes), QuotedRef(ref), p) {
        var j := MatchIsOccurrence(lexemes, ref, p);
        if j < i { StartGrows(lexemes, j, i); }
        if i + 1 < j { StartGrows(lexemes, i + 1, j); }
      }
    }
  }

  ghost predicate Finds(lexemes: seq<Lexeme>, ref: Ref, i: nat, j: nat) {
    i <= j && Occurs(lexemes, ref, j) && !Aliased(lexemes, j) && !(i <= j - 2 && Shadowed(lexemes, ref, j))
  }

  ghost predicate Found(lexemes: seq<Lexeme>, ref: Ref, i: nat) {
    exists j: nat :: Finds(lexemes, ref, i, j)
  }

  lemma SameFound(lexemes: seq<Lexeme>, ref: Ref, a: nat, b: nat)
    requires forall j: nat :: Finds(lexemes, ref, a, j) <==> Finds(lexemes, ref, b, j)
    ensures Found(lexemes, ref, a) <==> Found(lexemes, ref, b)
  {
    if Found(lexemes, ref, a) {
      var j: nat :| Finds(lexemes, ref, a, j);
      assert Finds(lexemes, ref, b, j);
    }
  }

  lemma {:induction false} WalkFinds(lexemes: seq<Lexeme>, ref: Ref, i: nat)
    ensures Walk(lexemes, ref, i) <==> Found(lexemes, ref, i)
    decreases |lexemes| - i
  {
    if i < |lexemes| {
      if !Occurs(lexemes, ref, i) {
        WalkFinds(lexemes, ref, i + 1);
        forall j: nat ensures Finds(lexemes, ref, i, j) <==> Finds(lexemes, ref, i + 1, j) {
          NothingHere(lexemes, ref, i, j);
        }
        assert Walk(lexemes, ref, i) == Walk(lexemes, ref, i + 1);
        SameFound(lexemes, ref, i, i + 1);
      } else if Aliased(lexemes, i) {
        WalkFinds(lexemes, ref, i + Width(ref));
        forall j: nat ensures Finds(lexemes, ref, i, j) <==> Finds(lexemes, ref, i + Width(ref), j) {
          AliasHides(lexemes, ref, i, j);
        }
        assert Walk(lexemes, ref, i) == Walk(lexemes, ref, i + Width(ref));
        SameFound(lexemes, ref, i, i + Width(ref));
      } else {
        assert Finds(lexemes, ref, i, i);
      }
    }
  }

  lemma NothingHere(lexemes: seq<Lexeme>, ref: Ref, i: nat, j: nat)
    requires !Occurs(lexemes, ref, i)
    ensures Finds(lexemes, ref, i, j) <==> Finds(lexemes, ref, i + 1, j)
  {
  }

  lemma AliasHides(lexemes: seq<Lexeme>, ref: Ref, i: nat, j: nat)
    requires Occurs(lexemes, ref, i) && Aliased(lexemes, i)
    ensures Finds(lexemes, ref, i, j) <==> Finds(lexemes, ref, i + Width(ref), j)
  {
  }

  /** A name with a word unit first is never what stands between two identifiers. */
  lemma WordsAreNoGaps(lexemes: seq<Lexeme>, ref: Ref)
    requires Statement(lexemes) && RefOk(ref)
    ensures NoGapSpells(lexemes, First(ref))
  {
    forall i, j | 0 <= i < j < |lexemes| && lexemes[i].Ident? && lexemes[j].Ident?
      ensures Render(lexemes[i + 1..j]) != First(ref)
    {
      StatementAt(lexemes, i);
      StatementAt(lexemes, i + 1);
      if i + 1 < j {
        WordUnits(lexemes[i + 1]);
        assert Render(lexemes[i + 1..j])[0] == Spell(lexemes[i + 1])[0];
      }
    }
  }

  /** What the scan reports: the token of a reference is found exactly when it occurs outside alias position, and
      outside the shadow of an occurrence in alias position. */
  lemma ScanIsExact(lexemes: seq<Lexeme>, ref: Ref)
    requires Statement(lexemes) && RefOk(ref)
    ensures Scan(Render(lexemes), QuotedRef(ref), 0) <==> Reported(lexemes, ref)
  {
    WordsAreNoGaps(lexemes, ref);
    ScanIsExactWithoutGap(lexemes, ref);
  }

  /** So it is for every name without quotes that no gap of this statement spells. */
  lemma ScanIsExactWithoutGap(lexemes: seq<Lexeme>, ref: Ref)
    requires Statement(lexemes) && Plain(ref) && NoGapSpells(lexemes, First(ref))
    ensures Scan(Render(lexemes), QuotedRef(ref), 0) <==> Reported(lexemes, ref)
  {
    ScanIsWalk(lexemes, ref, 0);
    WalkFinds(lexemes, ref, 0);
    forall j: nat ensures Finds(lexemes, ref, 0, j) <==>
      Occurs(lexemes, ref, j) && !Aliased(lexemes, j) && !Shadowed(lexemes, ref, j)
    {
    }
  }

  /** Only a relation named as its schema can be shadowed: for every other the scan is exact. */
  lemma NotShadowed(lexemes: seq<Lexeme>, ref: Ref)
    requires Qualified(ref) ==> ref.schema.value != ref.name
    ensures Reported(lexemes, ref) <==> Referenced(lexemes, ref)
  {
    forall i: nat | Occurs(lexemes, ref, i) ensures !Shadowed(lexemes, ref, i) {
    }
  }

  /** What follows `as` is a name of one part or two: an alias, or the type of a cast. */
  predicate AliasesAreShort(lexemes: seq<Lexeme>) {
    forall i | 0 <= i < |lexemes| - 3 && Aliased(lexemes, i) && lexemes[i].Ident? :: ShortAt(lexemes, i)
  }

  predicate ShortAt(lexemes: seq<Lexeme>, i: nat)
    requires i + 3 < |lexemes|
  {
    !(lexemes[i + 1] == Punct('.') && lexemes[i + 3] == Punct('.'))
  }

  lemma ShortThere(lexemes: seq<Lexeme>, ref: Ref, i: nat)
    requires AliasesAreShort(lexemes) && Qualified(ref) && i >= 2
    ensures !(Occurs(lexemes, ref, i - 2) && Aliased(lexemes, i - 2) && Occurs(lexemes, ref, i))
  {
    var k := i - 2;
    assert Occurs(lexemes, ref, i) ==> lexemes[k + 3] == Punct('.');
  }

  /** There, too, nothing is shadowed: the scan is exact whatever the relations are called. */
  lemma NotShadowedByAliases(lexemes: seq<Lexeme>, ref: Ref)
    requires AliasesAreShort(lexemes)
    ensures Reported(lexemes, ref) <==> Referenced(lexemes, ref)
  {
    forall i: nat | Occurs(lexemes, ref, i) ensures !Shadowed(lexemes, ref, i) {
      if i >= 2 && Qualified(ref) { ShortThere(lexemes, ref, i); }
    }
  }

  /** A list of lexemes that meets neither condition, `as "a"."a"."a"`, and on which the scan is not exact. It stands
      for no read: neither an alias nor a type has three parts. */
  lemma ShadowedReferenceIsMissed()
    ensures var ref := Ref("a", Some("a"));
            && Statement(SHADOWED) && RefOk(ref) && !AliasesAreShort(SHADOWED)
            && Referenced(SHADOWED, ref) && !Scan(Render(SHADOWED), QuotedRef(ref), 0)
  {
    var ref := Ref("a", Some("a"));
    ShadowedIsStatement();
    assert Occurs(SHADOWED, ref, 4) && !Aliased(SHADOWED, 4) && Aliased(SHADOWED, 2);
    ScanIsExact(SHADOWED, ref);
    forall i: nat | Occurs(SHADOWED, ref, i) && !Aliased(SHADOWED, i) ensures Shadowed(SHADOWED, ref, i) {
      assert i == 2 || i == 4;
    }
  }

  const SHADOWED := [Word("as"), Space, Ident("a"), Punct('.'), Ident("a"), Punct('.'), Ident("a")]

  lemma StatementCons(l: Lexeme, rest: seq<Lexeme>)
    requires LexemeOk(l) && Statement(rest) && (rest != [] ==> MayFollow(l, rest[0]))
    ensures Statement([l] + rest)
  {
    assert ([l] + rest)[1..] == rest;
  }

  lemma DottedIsStatement()
    ensures Statement([Ident("a"), Punct('.'), Ident("a")])
  {
    var name, dot := Ident("a"), Punct('.');
    StatementCons(name, []);
    StatementCons(dot, [name]);
    StatementCons(name, [dot, name]);
    assert [name] + [] == [name] && [dot] + [name] == [dot, name] && [name] + [dot, name] == [name, dot, name];
  }

  lemma ShadowedIsStatement()
    ensures Statement(SHADOWED)
  {
    var name, dot := Ident("a"), Punct('.');
    var tail := [name, dot, name];
    DottedIsStatement();
    StatementCons(dot, tail);
    StatementCons(name, [dot] + tail);
    StatementCons(Space, [name] + ([dot] + tail));
    StatementCons(Word("as"), [Space] + ([name] + ([dot] + tail)));
    assert SHADOWED == [Word("as")] + ([Space] + ([name] + ([dot] + tail)));
  }

  // ---- Names no word starts ----

  ghost predicate Between(x: string, gap: seq<Lexeme>, y: string) {
    && Statement([Ident(x)] + gap + [Ident(y)])
    && gap != [] && '"' !in Render(gap) && x != Render(gap) && y != Render(gap) && !EndsInSpace(x)
  }

  /** A name that spells what stands between two identifiers is found there, though nothing refers to it: the
      quotes that close the one and open the other enclose it. No word starts such a name. */
  lemma GapIsMisread(x: string, gap: seq<Lexeme>, y: string)
    requires Between(x, gap, y)
    ensures var lexemes, ref := [Ident(x)] + gap + [Ident(y)], Ref(Render(gap), None);
            Scan(Render(lexemes), QuotedRef(ref), 0) && !Referenced(lexemes, ref)
    ensures Render(gap) != [] && !IsWord(Render(gap)[0])
  {
    var lexemes := [Ident(x)] + gap + [Ident(y)];
    assert lexemes[0] == Ident(x) && LexemeOk(lexemes[0]) && lexemes[1] == gap[0];
    GapStarts(lexemes, gap);
    GapText(x, gap, y);
    TextIsMisread(x, Render(gap), y);
    GapHasNoIdent(gap);
    assert forall l | l in lexemes :: l.Ident? ==> l.name != Render(gap);
  }

  lemma TextIsMisread(x: string, gap: string, y: string)
    requires '"' !in x && '"' !in gap && x != gap && !EndsInSpace(x)
    ensures Scan("\"" + x + "\"" + gap + "\"" + y + "\"", "\"" + gap + "\"", 0)
  {
    var before, token := "\"" + x, "\"" + gap + "\"";
    var sql, at := "\"" + x + "\"" + gap + "\"" + y + "\"", |before|;
    assert sql == before + (token + (y + "\"")) == before + token + (y + "\"");
    assert sql == before + "\"" + gap + ("\"" + y + "\"");
    forall p | 0 <= p < at ensures !MatchesAt(sql, token, p) { NoEarlierGap(x, gap, "\"" + y + "\"", p); }
    ScanSkips(sql, token, 0, at);
    MatchBetween(before, token, y + "\"");
    ScanHere(sql, token, at);
    WindowBehind(before, token + (y + "\""));
    WithoutSpace(before);
  }

  lemma GapStarts(lexemes: seq<Lexeme>, gap: seq<Lexeme>)
    requires |lexemes| > 1 && gap != [] && Statement(lexemes) && lexemes[0].Ident? && lexemes[1] == gap[0]
    ensures Render(gap) != [] && !IsWord(Render(gap)[0])
  {
    StatementAt(lexemes, 1);
    WordUnits(gap[0]);
    assert Render(gap)[0] == Spell(gap[0])[0];
  }

  lemma WindowBehind(before: string, rest: string)
    ensures Window(before + rest, |before|) == LastUnits(before, 16)
  {
  }

  lemma MatchBetween(a: string, token: string, b: string)
    ensures MatchesAt(a + token + b, token, |a|)
  {
  }

  lemma GapText(x: string, gap: seq<Lexeme>, y: string)
    ensures Render([Ident(x)] + gap + [Ident(y)]) == "\"" + x + "\"" + Render(gap) + "\"" + y + "\""
  {
    RenderConcat([Ident(x)] + gap, [Ident(y)]);
    RenderCons(Ident(x), gap);
    RenderCons(Ident(y), []);
    assert [Ident(y)] + [] == [Ident(y)];
  }

  lemma NoEarlierGap(x: string, gap: string, rest: string, p: nat)
    requires p <= |x| && '"' !in x && '"' !in gap && x != gap
    ensures !MatchesAt("\"" + x + "\"" + gap + rest, "\"" + gap + "\"", p)
  {
    var sql, token := "\"" + x + "\"" + gap + rest, "\"" + gap + "\"";
    assert MatchesAt(sql, token, p) ==> sql[p] == token[0];
    if p > 0 {
      assert sql[p] == x[p - 1];
    } else if MatchesAt(sql, token, p) {
      PrefixTail(token, sql);
      assert sql[1..] == x + "\"" + (gap + rest) && token[1..] == gap + "\"" + [];
      SameName(x, gap, gap + rest, []);
    }
  }

  lemma {:induction false} GapHasNoIdent(gap: seq<Lexeme>)
    requires '"' !in Render(gap)
    ensures forall l | l in gap :: !l.Ident?
  {
    if gap != [] {
      assert Render(gap) == Spell(gap[0]) + Render(gap[1..]);
      assert Spell(gap[0]) <= Render(gap);
      GapHasNoIdent(gap[1..]);
    }
  }

  // ---- Which names are read exactly ----

  ghost predicate SpellsGap(name: string) {
    exists x, gap, y :: Statement([Ident(x)] + gap + [Ident(y)]) && Render(gap) == name
  }

  /** The scan reports the name on exactly the statements that refer to it. */
  ghost predicate ReadExactly(name: string) {
    forall lexemes | Statement(lexemes) ::
      Scan(Render(lexemes), QuotedRef(Ref(name, None)), 0) <==> Referenced(lexemes, Ref(name, None))
  }

  /** An unqualified name without quotes is read exactly, on all statements, if and only if nothing that can stand
      between two identifiers spells it. */
  lemma ReadExactlyUnlessGap(name: string)
    requires '"' !in name
    ensures ReadExactly(name) <==> !SpellsGap(name)
  {
    if !SpellsGap(name) {
      forall lexemes | Statement(lexemes)
        ensures Scan(Render(lexemes), QuotedRef(Ref(name, None)), 0) <==> Referenced(lexemes, Ref(name, None))
      {
        GapsAreSpelled(lexemes, name);
        ScanIsExactWithoutGap(lexemes, Ref(name, None));
        NotShadowed(lexemes, Ref(name, None));
      }
    } else {
      GapIsReadWrongly(name);
    }
  }

  lemma GapIsReadWrongly(name: string)
    requires '"' !in name && SpellsGap(name)
    ensures !ReadExactly(name)
  {
    var x, gap, y :| Statement([Ident(x)] + gap + [Ident(y)]) && Render(gap) == name;
    GapIsThere(x, gap, y);
    GapIsBetween(x, gap, y, name);
    GapIsMisread(name + "x", gap, name + "x");
  }

  /** A name no gap is: this one, and a unit more. */
  lemma GapIsBetween(x: string, gap: seq<Lexeme>, y: string, name: string)
    requires Statement([Ident(x)] + gap + [Ident(y)]) && gap != [] && Render(gap) == name && '"' !in name
    ensures Between(name + "x", gap, name + "x")
  {
    var other := name + "x";
    Renamed(x, gap, y, other);
    assert other[|other| - 1] == 'x' && |other| != |name|;
  }

  lemma GapIsThere(x: string, gap: seq<Lexeme>, y: string)
    requires Statement([Ident(x)] + gap + [Ident(y)])
    ensures gap != []
  {
    StatementAt([Ident(x)] + gap + [Ident(y)], 0);
  }

  lemma GapsAreSpelled(lexemes: seq<Lexeme>, name: string)
    requires Statement(lexemes) && !SpellsGap(name)
    ensures NoGapSpells(lexemes, name)
  {
    forall i, j | 0 <= i < j < |lexemes| && lexemes[i].Ident? && lexemes[j].Ident? ensures Render(lexemes[i + 1..j]) != name {
      GapIsSpelled(lexemes, i, j);
    }
  }

  lemma GapIsSpelled(lexemes: seq<Lexeme>, i: nat, j: nat)
    requires Statement(lexemes) && i < j < |lexemes| && lexemes[i].Ident? && lexemes[j].Ident?
    ensures SpellsGap(Render(lexemes[i + 1..j]))
  {
    StatementAt(lexemes, i);
    StatementPrefix(lexemes[i..], j + 1 - i);
    SliceOut(lexemes, i, j);
    var x, gap, y := lexemes[i].name, lexemes[i + 1..j], lexemes[j].name;
    assert [lexemes[i]] + gap + [lexemes[j]] == [Ident(x)] + gap + [Ident(y)];
  }

  lemma SliceOut<T>(s: seq<T>, i: nat, j: nat)
    requires i < j < |s|
    ensures s[i..][..j + 1 - i] == [s[i]] + s[i + 1..j] + [s[j]]
  {
  }

  lemma {:induction false} StatementPrefix(lexemes: seq<Lexeme>, n: nat)
    requires Statement(lexemes) && n <= |lexemes|
    ensures Statement(lexemes[..n])
  {
    if n > 0 {
      StatementPrefix(lexemes[1..], n - 1);
      assert lexemes[..n][1..] == lexemes[1..][..n - 1];
    }
  }

  /** What may stand between two identifiers may stand between any. */
  lemma Renamed(x: string, gap: seq<Lexeme>, y: string, other: string)
    requires Statement([Ident(x)] + gap + [Ident(y)]) && '"' !in other
    ensures Statement([Ident(other)] + gap + [Ident(other)])
  {
    var was := [Ident(x)] + gap + [Ident(y)];
    RenamedLast([Ident(x)] + gap, y, other);
    assert [Ident(x)] + gap + [Ident(other)] == [Ident(x)] + (gap + [Ident(other)]);
    assert [Ident(other)] + gap + [Ident(other)] == [Ident(other)] + (gap + [Ident(other)]);
    StatementAt([Ident(x)] + (gap + [Ident(other)]), 0);
    StatementAt([Ident(x)] + (gap + [Ident(other)]), 1);
    assert ([Ident(x)] + (gap + [Ident(other)]))[1..] == gap + [Ident(other)];
    StatementCons(Ident(other), gap + [Ident(other)]);
  }

  lemma {:induction false} RenamedLast(front: seq<Lexeme>, y: string, other: string)
    requires Statement(front + [Ident(y)]) && '"' !in other
    ensures Statement(front + [Ident(other)])
  {
    if front != [] {
      assert (front + [Ident(y)])[1..] == front[1..] + [Ident(y)];
      assert (front + [Ident(other)])[1..] == front[1..] + [Ident(other)];
      RenamedLast(front[1..], y, other);
    }
  }
}
