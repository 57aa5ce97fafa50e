/** `applyPropertyFixes` of the rename codemod: edits made in place, right to left, against one substitution that
    decides every edit on the text as it was. A text is its sequence of code units. */
module PropertyFixes {
  import opened Characters
  import opened Options
  import opened Sequences

  datatype Diagnostic = Diagnostic(line: nat, column: nat, property: string)

  const TYPECHECK_PROPERTY_RENAMES: map<string, string> := map["pglite" := "pgwasm"]

  const OLD := "pglite"
  const NEW := "pgwasm"

  // ---- What the patterns test ----

  predicate IsWordUnit(c: char) {
    IsWord(c) || c == '$'
  }

  predicate StartsInWord(s: string) {
    s != [] && IsWordUnit(s[0])
  }

  predicate EndsInWord(s: string) {
    s != [] && IsWordUnit(s[|s| - 1])
  }

  /** The first unit that is not white space. */
  function Lead(s: string): Option<char> {
    if s == [] then None else if IsSpace(s[0]) then Lead(s[1..]) else Some(s[0])
  }

  /** The last unit that is not white space. */
  function Trail(s: string): Option<char> {
    if s == [] then None else if IsSpace(s[|s| - 1]) then Trail(s[..|s| - 1]) else Some(s[|s| - 1])
  }

  predicate IsMember(before: string) {
    Trail(before) == Some('.')
  }

  predicate IsKey(after: string) {
    Lead(after) in {Some(':'), Some('?'), Some('(')}
  }

  // ---- What they come to, unit by unit ----

  /** The last unit before `at` that is not white space is `c`. */
  ghost predicate LastVisible(text: string, at: int, c: char) {
    exists k :: 0 <= k < at <= |text| && text[k] == c && !IsSpace(c) && forall j | k < j < at :: IsSpace(text[j])
  }

  /** The first unit from `from` on that is not white space is `c`. */
  ghost predicate FirstVisible(text: string, from: int, c: char) {
    exists k :: 0 <= from <= k < |text| && text[k] == c && !IsSpace(c) && forall j | from <= j < k :: IsSpace(text[j])
  }

  /** A member access or a key: it is renamed in place. */
  ghost predicate InPlace(text: string, at: int) {
    LastVisible(text, at, '.') || FirstVisible(text, at + 6, ':') || FirstVisible(text, at + 6, '?') || FirstVisible(text, at + 6, '(')
  }

  /** The place holds the whole word. */
  ghost predicate WholeWord(text: string, at: int) {
    && 0 <= at && at + 6 <= |text| && text[at..at + 6] == "pglite"
    && (at > 0 ==> !IsNameUnit(text[at - 1])) && (at + 6 < |text| ==> !IsNameUnit(text[at + 6]))
  }

  predicate IsNameUnit(c: char) {
    'a' <= c <= 'z' || 'A' <= c <= 'Z' || '0' <= c <= '9' || c == '_' || c == '$'
  }

  lemma {:induction false} TrailIsLastVisible(text: string, at: nat, c: char)
    requires at <= |text|
    ensures Trail(text[..at]) == Some(c) <==> LastVisible(text, at, c)
  {
    if at > 0 {
      assert text[..at][..at - 1] == text[..at - 1];
      TrailIsLastVisible(text, at - 1, c);
      if IsSpace(text[at - 1]) {
        if LastVisible(text, at, c) {
          var k :| 0 <= k < at && text[k] == c && !IsSpace(c) && forall j | k < j < at :: IsSpace(text[j]);
          assert LastVisible(text, at - 1, c);
        }
      } else if LastVisible(text, at, c) {
        var k :| 0 <= k < at && text[k] == c && !IsSpace(c) && forall j | k < j < at :: IsSpace(text[j]);
        assert k == at - 1;
      }
    }
  }

  lemma {:induction false} LeadIsFirstVisible(text: string, from: nat, c: char)
    requires from <= |text|
    ensures Lead(text[from..]) == Some(c) <==> FirstVisible(text, from, c)
    decreases |text| - from
  {
    if from < |text| {
      assert text[from..][1..] == text[from + 1..];
      LeadIsFirstVisible(text, from + 1, c);
      if IsSpace(text[from]) {
        if FirstVisible(text, from, c) {
          var k :| from <= k < |text| && text[k] == c && !IsSpace(c) && forall j | from <= j < k :: IsSpace(text[j]);
          assert FirstVisible(text, from + 1, c);
        }
      } else if FirstVisible(text, from, c) {
        var k :| from <= k < |text| && text[k] == c && !IsSpace(c) && forall j | from <= j < k :: IsSpace(text[j]);
        assert k == from;
      }
    }
  }

  predicate HoldsAt(text: string, at: int, property: string) {
    0 <= at && at + |property| <= |text| && text[at..at + |property|] == property
  }

  predicate Fixable(text: string, at: int) {
    HoldsAt(text, at, OLD) && !EndsInWord(text[..at]) && !StartsInWord(text[at + |OLD|..])
  }

  function Replacement(text: string, at: int): string
    requires HoldsAt(text, at, OLD)
  {
    if IsMember(text[..at]) || IsKey(text[at + |OLD|..]) then NEW else NEW + ": " + OLD
  }

  /** Which places are fixed, and what they become: a member access or a key keeps its line's length, anything else keeps
      its local name. */
  lemma FixedPlaces(text: string, at: int)
    ensures Fixable(text, at) <==> WholeWord(text, at)
    ensures Fixable(text, at) ==> Replacement(text, at) == if InPlace(text, at) then "pgwasm" else "pgwasm: pglite"
  {
    if Fixable(text, at) {
      TrailIsLastVisible(text, at, '.');
      LeadIsFirstVisible(text, at + 6, ':');
      LeadIsFirstVisible(text, at + 6, '?');
      LeadIsFirstVisible(text, at + 6, '(');
    }
  }

  // ---- The simultaneous substitution ----

  /** `text` from `i` on, with the property replaced at each fixable one of the positions. Whether a position is
      fixable, and by what, is decided on the text as it was. */
  function Substituted(text: string, ats: set<int>, i: nat): string
    decreases |text| - i
  {
    if i >= |text| then []
    else if i in ats && Fixable(text, i) then Replacement(text, i) + Substituted(text, ats, i + |OLD|)
    else [text[i]] + Substituted(text, ats, i + 1)
  }

  lemma SubstitutedNext(text: string, ats: set<int>, i: nat)
    requires i < |text| && !(i in ats && Fixable(text, i))
    ensures Substituted(text, ats, i) == [text[i]] + Substituted(text, ats, i + 1)
  {
  }

  lemma Prepended<T>(s: seq<T>, i: nat, j: nat, t: seq<T>)
    requires i < j <= |s|
    ensures s[i..j] + t == [s[i]] + (s[i + 1..j] + t)
  {
  }

  lemma {:induction false} SubstitutedSkips(text: string, ats: set<int>, i: nat, j: nat)
    requires i <= j <= |text| && forall k | i <= k < j && k in ats :: !Fixable(text, k)
    ensures Substituted(text, ats, i) == text[i..j] + Substituted(text, ats, j)
    decreases j - i
  {
    if i < j {
      SubstitutedSkips(text, ats, i + 1, j);
      SubstitutedNext(text, ats, i);
      Prepended(text, i, j, Substituted(text, ats, j));
    }
  }

  lemma HoldsUnit(text: string, at: int, k: nat)
    requires k < |OLD|
    ensures HoldsAt(text, at, OLD) ==> text[at + k] == OLD[k]
  {
    assert HoldsAt(text, at, OLD) ==> text[at + k] == text[at..at + |OLD|][k];
  }

  /** Two edits never overlap: no proper suffix of the property starts it again, and a word before rules one out. */
  lemma FixableApart(text: string, a: nat, b: nat)
    requires a < b && HoldsAt(text, a, OLD) && Fixable(text, b)
    ensures a + |OLD| < b
  {
    HoldsUnit(text, b, 0);
    if b <= a + |OLD| { HoldsUnit(text, a, if b < a + |OLD| then b - a else |OLD| - 1); }
  }

  /** Edits leave the first unit of what follows, and its first visible one, alone. */
  lemma {:induction false} SubstitutedLeads(text: string, ats: set<int>, i: nat)
    ensures var s := Substituted(text, ats, i);
            var was := if i <= |text| then text[i..] else [];
            Lead(s) == Lead(was) && StartsInWord(s) == StartsInWord(was)
    decreases |text| - i
  {
    if i < |text| {
      var s := Substituted(text, ats, i);
      if i in ats && Fixable(text, i) {
        assert text[i..][0] == text[i..i + |OLD|][0] == 'p';
        assert s[0] == 'p';
      } else {
        SubstitutedLeads(text, ats, i + 1);
        assert s[1..] == Substituted(text, ats, i + 1) && text[i..][1..] == text[i + 1..];
      }
    }
  }

  /** A line on which the positions in `done`, none left of `at`, have been edited, decides on `at` as the text
      did; `at` itself among them no longer holds the property. */
  lemma DecidesAsBefore(text: string, done: set<int>, at: nat)
    requires forall d | d in done :: at <= d
    ensures var now := Substituted(text, done, 0);
            && (at in done ==> !Fixable(now, at))
            && (at !in done ==>
                 && (Fixable(now, at) <==> Fixable(text, at))
                 && (Fixable(text, at) ==>
                      && Replacement(now, at) == Replacement(text, at)
                      && now[..at] == text[..at] && now[at + |OLD|..] == Substituted(text, done, at + |OLD|)))
  {
    var now := Substituted(text, done, 0);
    if at >= |text| {
      SubstitutedSkips(text, done, 0, |text|);
      assert now == text;
    } else if HoldsAt(text, at, OLD) {
      SubstitutedSkips(text, done, 0, at);
      assert now[..at] == text[..at];
      HoldingDecides(text, done, at);
    } else {
      NotHoldingDecides(text, done, at);
    }
  }

  lemma HoldingDecides(text: string, done: set<int>, at: nat)
    requires (forall d | d in done :: at <= d) && HoldsAt(text, at, OLD)
    requires Substituted(text, done, 0) == text[..at] + Substituted(text, done, at)
    ensures var now := Substituted(text, done, 0);
            && (at in done ==> !Fixable(now, at))
            && (at !in done ==>
                 && (Fixable(now, at) <==> Fixable(text, at))
                 && (Fixable(text, at) ==>
                      && Replacement(now, at) == Replacement(text, at)
                      && now[at + |OLD|..] == Substituted(text, done, at + |OLD|)))
  {
    var now := Substituted(text, done, 0);
    var end := at + |OLD|;
    if at in done && Fixable(text, at) {
      EditedHoldsNoLonger(text, done, at);
    } else {
      forall k | at <= k < end && k in done ensures !Fixable(text, k) {
        if k > at && Fixable(text, k) { FixableApart(text, at, k); }
      }
      SubstitutedSkips(text, done, at, end);
      SubstitutedLeads(text, done, end);
      assert now == text[..at] + OLD + Substituted(text, done, end);
      assert now[..at] == text[..at] && now[at..end] == OLD && now[end..] == Substituted(text, done, end);
    }
  }

  lemma EditedHoldsNoLonger(text: string, done: set<int>, at: nat)
    requires at in done && Fixable(text, at) && Substituted(text, done, 0) == text[..at] + Substituted(text, done, at)
    ensures !HoldsAt(Substituted(text, done, 0), at, OLD)
  {
    var now := Substituted(text, done, 0);
    assert Substituted(text, done, at) == Replacement(text, at) + Substituted(text, done, at + |OLD|);
    assert now[at + 2] == Replacement(text, at)[2] == 'w';
    HoldsUnit(now, at, 2);
  }

  lemma NotHoldingDecides(text: string, done: set<int>, at: nat)
    requires (forall d | d in done :: at <= d) && at < |text| && !HoldsAt(text, at, OLD)
    ensures !HoldsAt(Substituted(text, done, 0), at, OLD)
  {
    var end := if at + |OLD| <= |text| then at + |OLD| else |text|;
    var k := FirstFixable(text, done, at, end);
    SubstitutedSkips(text, done, 0, k);
    if k < end {
      EditAheadBreaks(text, done, at, k);
    } else if end < at + |OLD| {
      assert Substituted(text, done, 0) == text;
    } else {
      SliceOfPrefix(text, Substituted(text, done, k), at, k);
    }
  }

  lemma EditAheadBreaks(text: string, done: set<int>, at: nat, k: nat)
    requires at < k < at + |OLD| && k in done && Fixable(text, k)
    requires Substituted(text, done, 0) == text[..k] + Substituted(text, done, k)
    ensures !HoldsAt(Substituted(text, done, 0), at, OLD)
  {
    assert Substituted(text, done, k)[0] == 'p';
    HoldsUnit(Substituted(text, done, 0), at, k - at);
  }

  lemma SliceOfPrefix<T>(s: seq<T>, t: seq<T>, i: nat, j: nat)
    requires i <= j <= |s|
    ensures (s[..j] + t)[i..j] == s[i..j]
  {
  }

  lemma {:induction false} FirstFixable(text: string, done: set<int>, i: nat, end: nat) returns (k: nat)
    requires i <= end <= |text|
    ensures i <= k <= end && forall j | i <= j < k && j in done :: !Fixable(text, j)
    ensures k < end ==> k in done && Fixable(text, k)
    decreases end - i
  {
    if i == end || (i in done && Fixable(text, i)) {
      k := i;
    } else {
      k := FirstFixable(text, done, i + 1, end);
    }
  }

  /** One edit, made on the line as edited so far, is one more position of the substitution. */
  lemma EditIsSubstitution(text: string, done: set<int>, at: int)
    requires forall d | d in done :: at <= d
    ensures var now := Substituted(text, done, 0);
            && (Fixable(now, at) <==> at !in done && Fixable(text, at))
            && Substituted(text, done + {at}, 0) ==
                 if Fixable(now, at) then now[..at] + Replacement(now, at) + now[at + |OLD|..] else now
  {
    if at >= 0 { DecidesAsBefore(text, done, at); }
    if at !in done && Fixable(text, at) {
      NewEdit(text, done, at);
    } else {
      SamePositions(text, done, done + {at}, 0);
    }
  }

  lemma NewEdit(text: string, done: set<int>, at: nat)
    requires (forall d | d in done :: at <= d) && at !in done && Fixable(text, at)
    ensures Substituted(text, done + {at}, 0) == text[..at] + Replacement(text, at) + Substituted(text, done, at + |OLD|)
  {
    UnchangedBefore(text, done + {at}, at);
    EditHere(text, done + {at}, at);
    SamePositions(text, done, done + {at}, at + |OLD|);
    Associative(text[..at], Replacement(text, at), Substituted(text, done, at + |OLD|));
  }

  lemma UnchangedBefore(text: string, ats: set<int>, at: nat)
    requires at <= |text| && forall d | d in ats :: at <= d
    ensures Substituted(text, ats, 0) == text[..at] + Substituted(text, ats, at)
  {
    SubstitutedSkips(text, ats, 0, at);
    assert text[0..at] == text[..at];
  }

  lemma EditHere(text: string, ats: set<int>, at: nat)
    requires at in ats && Fixable(text, at)
    ensures Substituted(text, ats, at) == Replacement(text, at) + Substituted(text, ats, at + |OLD|)
  {
  }

  lemma {:induction false} SamePositions(text: string, a: set<int>, b: set<int>, i: nat)
    requires forall k | i <= k < |text| && Fixable(text, k) :: k in a <==> k in b
    ensures Substituted(text, a, i) == Substituted(text, b, i)
    decreases |text| - i
  {
    if i < |text| {
      SamePositions(text, a, b, if i in a && Fixable(text, i) then i + |OLD| else i + 1);
    }
  }

  // ---- Lines ----

  function Split(source: string): (lines: seq<string>)
    ensures lines != []
  {
    if source == [] then [[]]
    else
      var rest := Split(source[1..]);
      if source[0] == '\n' then [[]] + rest else [[source[0]] + rest[0]] + rest[1..]
  }

  function Join(lines: seq<string>): string {
    if lines == [] then [] else if |lines| == 1 then lines[0] else lines[0] + "\n" + Join(lines[1..])
  }

  /** A text without edits is given back as it came. */
  lemma {:induction false} JoinSplit(source: string)
    ensures Join(Split(source)) == source
  {
    if source != [] {
      JoinSplit(source[1..]);
      var rest := Split(source[1..]);
      if source[0] == '\n' {
        assert ([[]] + rest)[1..] == rest;
      } else {
        assert ([[source[0]] + rest[0]] + rest[1..])[1..] == rest[1..];
      }
    }
  }

  /** And the lines are its lines. */
  lemma {:induction false} LinesHoldNoBreak(source: string)
    ensures forall line | line in Split(source) :: '\n' !in line
  {
    if source != [] {
      LinesHoldNoBreak(source[1..]);
      var rest := Split(source[1..]);
      assert rest[0] in rest && forall line | line in rest[1..] :: line in rest;
    }
  }

  // ---- The order ----

  /** By line, and from right to left within one. */
  predicate Before(a: Diagnostic, b: Diagnostic) {
    a.line < b.line || (a.line == b.line && a.column >= b.column)
  }

  ghost predicate Ordered(s: seq<Diagnostic>) {
    forall i, j | 0 <= i < j < |s| :: Before(s[i], s[j])
  }

  lemma OrderedFrom(d: Diagnostic, s: seq<Diagnostic>)
    requires Ordered(s) && forall e | e in s :: Before(d, e)
    ensures Ordered([d] + s)
  {
    forall i, j | 0 <= i < j < |s| + 1 ensures Before(([d] + s)[i], ([d] + s)[j]) {
      assert s[j - 1] in s;
    }
  }

  function Inserted(d: Diagnostic, s: seq<Diagnostic>): (r: seq<Diagnostic>)
    requires Ordered(s)
    ensures Ordered(r) && multiset(r) == multiset(s) + multiset{d}
    ensures forall e | e in r :: e == d || e in s
  {
    if s == [] then [d]
    else
      assert s == [s[0]] + s[1..];
      assert forall e | e in s[1..] :: Before(s[0], e);
      if Before(d, s[0]) then
        OrderedFrom(d, s);
        [d] + s
      else
        var rest := Inserted(d, s[1..]);
        OrderedFrom(s[0], rest);
        [s[0]] + rest
  }

  function Sorted(s: seq<Diagnostic>): (r: seq<Diagnostic>)
    ensures Ordered(r) && multiset(r) == multiset(s)
  {
    if s == [] then []
    else
      assert s == [s[0]] + s[1..];
      Inserted(s[0], Sorted(s[1..]))
  }

  // ---- The specification ----

  predicate Names(d: Diagnostic, line: int) {
    d.line - 1 == line && d.property == OLD
  }

  /** The positions of a line that some diagnostic names. */
  function Positions(ds: seq<Diagnostic>, line: int): set<int> {
    set d | d in ds && Names(d, line) :: d.column - 1
  }

  function Fixed(lines: seq<string>, ds: seq<Diagnostic>): seq<string> {
    seq(|lines|, line requires 0 <= line < |lines| => Substituted(lines[line], Positions(ds, line), 0))
  }

  /** The diagnostic names a fixable place of the lines. */
  predicate Edits(lines: seq<string>, d: Diagnostic) {
    0 <= d.line - 1 < |lines| && d.property == OLD && Fixable(lines[d.line - 1], d.column - 1)
  }

  function Place(d: Diagnostic): (int, int) {
    (d.line - 1, d.column - 1)
  }

  /** The distinct places that are edited. */
  function Places(lines: seq<string>, ds: seq<Diagnostic>): set<(int, int)> {
    set d | d in ds && Edits(lines, d) :: Place(d)
  }

  lemma PositionsNext(ds: seq<Diagnostic>, k: nat, line: int)
    requires k < |ds|
    ensures Positions(ds[..k + 1], line) == Positions(ds[..k], line) + if Names(ds[k], line) then {ds[k].column - 1} else {}
  {
    assert ds[..k + 1] == ds[..k] + [ds[k]];
  }

  lemma PlacesNext(lines: seq<string>, ds: seq<Diagnostic>, k: nat)
    requires k < |ds|
    ensures Places(lines, ds[..k + 1]) == Places(lines, ds[..k]) + if Edits(lines, ds[k]) then {Place(ds[k])} else {}
  {
    assert ds[..k + 1] == ds[..k] + [ds[k]];
  }

  /** What one diagnostic does to a line as edited so far. */
  function EditedLine(now: string, at: int): string {
    if Fixable(now, at) then now[..at] + Replacement(now, at) + now[at + |OLD|..] else now
  }

  function Edited(now: seq<string>, d: Diagnostic): seq<string> {
    if Edits(now, d) then now[d.line - 1 := EditedLine(now[d.line - 1], d.column - 1)] else now
  }

  lemma EditLineStep(text: string, ordered: seq<Diagnostic>, k: nat, line: int)
    requires Ordered(ordered) && k < |ordered|
    ensures Substituted(text, Positions(ordered[..k + 1], line), 0) ==
            var now := Substituted(text, Positions(ordered[..k], line), 0);
            if Names(ordered[k], line) then EditedLine(now, ordered[k].column - 1) else now
    ensures Names(ordered[k], line) ==>
              var at := ordered[k].column - 1;
              Fixable(Substituted(text, Positions(ordered[..k], line), 0), at)
              <==> at !in Positions(ordered[..k], line) && Fixable(text, at)
  {
    PositionsNext(ordered, k, line);
    assert Positions(ordered[..k], line) + {} == Positions(ordered[..k], line);
    if Names(ordered[k], line) { EditIsSubstitution(text, Positions(ordered[..k], line), ordered[k].column - 1); }
  }

  lemma EditStep(lines: seq<string>, ordered: seq<Diagnostic>, k: nat)
    requires Ordered(ordered) && k < |ordered|
    ensures Edited(Fixed(lines, ordered[..k]), ordered[k]) == Fixed(lines, ordered[..k + 1])
  {
    var d, now := ordered[k], Fixed(lines, ordered[..k]);
    var edited, fixed := Edited(now, d), Fixed(lines, ordered[..k + 1]);
    forall l | 0 <= l < |lines| ensures edited[l] == fixed[l] {
      EditStepAt(lines, ordered, k, l);
    }
    assert |edited| == |fixed| == |lines|;
  }

  lemma EditStepAt(lines: seq<string>, ordered: seq<Diagnostic>, k: nat, l: nat)
    requires Ordered(ordered) && k < |ordered| && l < |lines|
    ensures Edited(Fixed(lines, ordered[..k]), ordered[k])[l] == Fixed(lines, ordered[..k + 1])[l]
  {
    EditLineStep(lines[l], ordered, k, l);
    FixedAt(lines, ordered[..k], l);
    FixedAt(lines, ordered[..k + 1], l);
    EditedAt(Fixed(lines, ordered[..k]), ordered[k], l);
  }

  lemma FixedAt(lines: seq<string>, ds: seq<Diagnostic>, l: nat)
    requires l < |lines|
    ensures Fixed(lines, ds)[l] == Substituted(lines[l], Positions(ds, l), 0)
  {
  }

  lemma EditedAt(now: seq<string>, d: Diagnostic, l: nat)
    requires l < |now|
    ensures Edited(now, d)[l] == if Names(d, l) then EditedLine(now[l], d.column - 1) else now[l]
  {
    if Edits(now, d) {
      UpdatedAt(now, d.line - 1, EditedLine(now[d.line - 1], d.column - 1), l);
    } else if Names(d, l) {
      assert !Fixable(now[l], d.column - 1);
    }
  }

  lemma UpdatedAt<T>(s: seq<T>, i: nat, x: T, l: nat)
    requires i < |s| && l < |s|
    ensures s[i := x][l] == if l == i then x else s[l]
  {
  }

  lemma CountIn<T>(s: set<T>, x: T, add: bool)
    ensures |s + if add then {x} else {}| == |s| + if add && x !in s then 1 else 0
  {
    assert add && x in s ==> s + {x} == s;
    assert !add ==> s + {} == s;
  }

  /** A place is edited the first time it is named. */
  lemma EditsOnce(lines: seq<string>, ordered: seq<Diagnostic>, k: nat)
    requires Ordered(ordered) && k < |ordered|
    ensures Edits(Fixed(lines, ordered[..k]), ordered[k]) <==>
            Edits(lines, ordered[k]) && Place(ordered[k]) !in Places(lines, ordered[..k])
  {
    var d := ordered[k];
    if 0 <= d.line - 1 < |lines| && d.property == OLD {
      EditLineStep(lines[d.line - 1], ordered, k, d.line - 1);
      AmongPlaces(lines, ordered[..k], d);
    }
  }

  lemma AmongPlaces(lines: seq<string>, ds: seq<Diagnostic>, d: Diagnostic)
    requires 0 <= d.line - 1 < |lines| && d.property == OLD
    ensures Place(d) in Places(lines, ds) <==> d.column - 1 in Positions(ds, d.line - 1) && Edits(lines, d)
  {
    if d.column - 1 in Positions(ds, d.line - 1) {
      var e :| e in ds && Names(e, d.line - 1) && e.column - 1 == d.column - 1;
      assert Place(e) == Place(d);
    }
  }

  // ---- The rewritten line, unit by unit ----

  /** How many units the edits of `text[i..n]` add: eight for each shorthand. */
  ghost function Grown(text: string, ats: set<int>, i: nat, n: nat): nat
    decreases n - i
  {
    if i >= n then 0
    else (if i in ats && WholeWord(text, i) && !InPlace(text, i) then 8 else 0) + Grown(text, ats, i + 1, n)
  }

  ghost predicate Covered(text: string, ats: set<int>, k: int) {
    exists p :: p in ats && WholeWord(text, p) && p <= k < p + 6
  }

  /** Each whole word named is replaced where it stands: a member access or a key by the new name alone, any other by the
      new name with the old one behind it. Every unit outside them is kept, and nothing else is added. */
  ghost predicate Rewritten(text: string, ats: set<int>, out: string) {
    && |out| == |text| + Grown(text, ats, 0, |text|)
    && (forall at: nat | at in ats && WholeWord(text, at) ::
          HoldsAt(out, at + Grown(text, ats, 0, at), if InPlace(text, at) then "pgwasm" else "pgwasm: pglite"))
    && forall k: nat | k < |text| && !Covered(text, ats, k) :: HoldsAt(out, k + Grown(text, ats, 0, k), [text[k]])
  }

  lemma {:induction false} GrownSkips(text: string, ats: set<int>, i: nat, j: nat, n: nat)
    requires i <= j <= n && forall k | i <= k < j && k in ats :: !WholeWord(text, k)
    ensures Grown(text, ats, i, n) == Grown(text, ats, j, n)
    decreases j - i
  {
    if i < j { GrownSkips(text, ats, i + 1, j, n); }
  }

  lemma GrownPast(text: string, ats: set<int>, i: nat, n: nat)
    requires i in ats && Fixable(text, i) && i + 6 <= n
    ensures Grown(text, ats, i, n) == |Replacement(text, i)| - 6 + Grown(text, ats, i + 6, n)
  {
    FixedPlaces(text, i);
    forall k | i + 1 <= k < i + 6 && k in ats ensures !WholeWord(text, k) {
      FixedPlaces(text, k);
      if Fixable(text, k) { FixableApart(text, i, k); }
    }
    GrownSkips(text, ats, i + 1, i + 6, n);
  }

  /** What the edits make of `text[i..n]`, `n` not within one. */
  lemma {:induction false} SubstitutedUpTo(text: string, ats: set<int>, i: nat, n: nat) returns (before: string)
    requires i <= n <= |text| && forall p | i <= p < n && p in ats && Fixable(text, p) :: p + 6 <= n
    ensures Substituted(text, ats, i) == before + Substituted(text, ats, n)
    ensures |before| == n - i + Grown(text, ats, i, n)
    decreases n - i
  {
    if i == n {
      before := [];
    } else if i in ats && Fixable(text, i) {
      before := SubstitutedUpTo(text, ats, i + 6, n);
      GrownPast(text, ats, i, n);
      Associative(Replacement(text, i), before, Substituted(text, ats, n));
      before := Replacement(text, i) + before;
    } else {
      FixedPlaces(text, i);
      before := SubstitutedUpTo(text, ats, i + 1, n);
      Associative([text[i]], before, Substituted(text, ats, n));
      before := [text[i]] + before;
    }
  }

  lemma HoldsBehind(before: string, word: string, rest: string, at: nat)
    requires |before| == at
    ensures HoldsAt(before + (word + rest), at, word)
  {
  }

  lemma EditIsThere(text: string, ats: set<int>, at: nat)
    requires at in ats && WholeWord(text, at)
    ensures HoldsAt(Substituted(text, ats, 0), at + Grown(text, ats, 0, at), if InPlace(text, at) then "pgwasm" else "pgwasm: pglite")
  {
    FixedPlaces(text, at);
    forall p | 0 <= p < at && p in ats && Fixable(text, p) ensures p + 6 <= at { FixableApart(text, p, at); }
    var before := SubstitutedUpTo(text, ats, 0, at);
    HoldsBehind(before, Replacement(text, at), Substituted(text, ats, at + 6), at + Grown(text, ats, 0, at));
  }

  lemma UnitIsThere(text: string, ats: set<int>, k: nat)
    requires k < |text| && !Covered(text, ats, k)
    ensures HoldsAt(Substituted(text, ats, 0), k + Grown(text, ats, 0, k), [text[k]])
  {
    forall p | 0 <= p <= k && p in ats && Fixable(text, p) ensures p + 6 <= k { FixedPlaces(text, p); }
    var before := SubstitutedUpTo(text, ats, 0, k);
    SubstitutedNext(text, ats, k);
    HoldsBehind(before, [text[k]], Substituted(text, ats, k + 1), k + Grown(text, ats, 0, k));
  }

  lemma SubstitutedIsRewritten(text: string, ats: set<int>)
    ensures Rewritten(text, ats, Substituted(text, ats, 0))
  {
    var out := Substituted(text, ats, 0);
    var all := SubstitutedUpTo(text, ats, 0, |text|);
    assert out == all;
    forall at: nat | at in ats && WholeWord(text, at)
      ensures HoldsAt(out, at + Grown(text, ats, 0, at), if InPlace(text, at) then "pgwasm" else "pgwasm: pglite")
    {
      EditIsThere(text, ats, at);
    }
    forall k: nat | k < |text| && !Covered(text, ats, k) ensures HoldsAt(out, k + Grown(text, ats, 0, k), [text[k]]) {
      UnitIsThere(text, ats, k);
    }
  }

  /** Line by line, at the places the diagnostics name. */
  ghost predicate AllRewritten(lines: seq<string>, ds: seq<Diagnostic>, out: seq<string>) {
    |out| == |lines| && forall l | 0 <= l < |lines| :: Rewritten(lines[l], Positions(ds, l), out[l])
  }

  lemma FixedIsRewritten(lines: seq<string>, ds: seq<Diagnostic>)
    ensures AllRewritten(lines, ds, Fixed(lines, ds))
  {
    forall l | 0 <= l < |lines| ensures Rewritten(lines[l], Positions(ds, l), Fixed(lines, ds)[l]) {
      FixedAt(lines, ds, l);
      SubstitutedIsRewritten(lines[l], Positions(ds, l));
    }
  }

  // ---- The code ----

  /** The edit at one position of a line, if it may be edited there. */
  method FixAt(text: string, at: int, property: string) returns (fixed: Option<string>)
    requires property in TYPECHECK_PROPERTY_RENAMES
    ensures fixed.Some? <==> Fixable(text, at)
    ensures fixed.Some? ==> fixed.value == EditedLine(text, at)
    ensures fixed.Some? <==> WholeWord(text, at)
    ensures fixed.Some? ==> fixed.value == text[..at] + (if InPlace(text, at) then "pgwasm" else "pgwasm: pglite") + text[at + 6..]
  {
    FixedPlaces(text, at);
    if !HoldsAt(text, at, property) {
      return None;
    }
    var renamed := TYPECHECK_PROPERTY_RENAMES[property];
    var before, after := text[..at], text[at + |property|..];
    if EndsInWord(before) || StartsInWord(after) {
      return None;
    }
    var replacement := if IsMember(before) || IsKey(after) then renamed else renamed + ": " + property;
    assert replacement == Replacement(text, at);
    return Some(before + replacement + after);
  }

  /** One diagnostic: the line it names is overwritten, or it is skipped. */
  method ApplyOne(lines: seq<string>, d: Diagnostic) returns (lines': seq<string>, changed: bool)
    ensures lines' == Edited(lines, d) && (changed <==> Edits(lines, d))
  {
    if d.line == 0 || d.line > |lines| || d.property !in TYPECHECK_PROPERTY_RENAMES {
      return lines, false;
    }
    EditedHere(lines, d);
    var fixed := FixAt(lines[d.line - 1], d.column - 1, d.property);
    if fixed.None? {
      return lines, false;
    }
    return lines[d.line - 1 := fixed.value], true;
  }

  lemma EditedHere(lines: seq<string>, d: Diagnostic)
    requires 0 < d.line <= |lines| && d.property == OLD
    ensures Edits(lines, d) <==> Fixable(lines[d.line - 1], d.column - 1)
    ensures Edits(lines, d) ==> Edited(lines, d) == lines[d.line - 1 := EditedLine(lines[d.line - 1], d.column - 1)]
    ensures !Edits(lines, d) ==> Edited(lines, d) == lines
  {
  }

  /** The in-place edits come to the simultaneous substitution at the places the diagnostics name, whatever their
      order and however often one is repeated: a change for each distinct fixable place, a skip for all else. */
  method ApplyPropertyFixes(source: string, diagnostics: seq<Diagnostic>) returns (text: string, changes: nat, skipped: nat)
    ensures text == Join(Fixed(Split(source), diagnostics))
    ensures exists lines :: text == Join(lines) && AllRewritten(Split(source), diagnostics, lines)
    ensures changes == |Places(Split(source), diagnostics)|
    ensures changes + skipped == |diagnostics|
  {
    var lines := Split(source);
    ghost var original := lines;
    changes, skipped := 0, 0;
    var ordered := Sorted(diagnostics);
    assert |multiset(ordered)| == |multiset(diagnostics)|;
    assert ordered[..0] == [];
    NothingToFix(original);
    for k := 0 to |ordered|
      invariant lines == Fixed(original, ordered[..k])
      invariant changes == |Places(original, ordered[..k])| && changes + skipped == k
    {
      EditStep(original, ordered, k);
      PlacesNext(original, ordered, k);
      EditsOnce(original, ordered, k);
      CountIn(Places(original, ordered[..k]), Place(ordered[k]), Edits(original, ordered[k]));
      var changed;
      lines, changed := ApplyOne(lines, ordered[k]);
      if changed {
        changes := changes + 1;
      } else {
        skipped := skipped + 1;
      }
    }
    assert ordered[..|ordered|] == ordered;
    SameElements(original, ordered, diagnostics);
    FixedIsRewritten(original, diagnostics);
    text := Join(lines);
  }

  lemma NothingToFix(lines: seq<string>)
    ensures Fixed(lines, []) == lines
  {
    forall l | 0 <= l < |lines| ensures Fixed(lines, [])[l] == lines[l] {
      SubstitutedSkips(lines[l], {}, 0, |lines[l]|);
      assert Positions([], l) == {};
    }
  }

  lemma SameElements(lines: seq<string>, a: seq<Diagnostic>, b: seq<Diagnostic>)
    requires multiset(a) == multiset(b)
    ensures Fixed(lines, a) == Fixed(lines, b) && Places(lines, a) == Places(lines, b)
  {
    assert forall d :: d in a <==> d in multiset(a);
    assert forall d :: d in b <==> d in multiset(b);
    assert forall line :: Positions(a, line) == Positions(b, line);
  }
}
