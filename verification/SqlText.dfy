/** Compiled SQL as a list of lexemes and as text. Identifiers are quoted and hold no quote. */
module SqlText {
  import opened Characters
  import opened Sequences

  datatype Lexeme = Ident(name: string) | Word(text: string) | Punct(sign: char) | Space

  function Spell(l: Lexeme): string {
    match l
    case Ident(name) => "\"" + name + "\""
    case Word(text) => text
    case Punct(sign) => [sign]
    case Space => " "
  }

  function Render(lexemes: seq<Lexeme>): string {
    if lexemes == [] then [] else Spell(lexemes[0]) + Render(lexemes[1..])
  }

  predicate LexemeOk(l: Lexeme) {
    match l
    case Ident(name) => '"' !in name
    case Word(text) => text != [] && forall c | c in text :: IsWord(c)
    case Punct(sign) => !IsWord(sign) && !IsSpace(sign) && sign != '"'
    case Space => true
  }

  /** Two words or two spaces never stand side by side, and an identifier is set off from what follows it. */
  predicate MayFollow(a: Lexeme, b: Lexeme) {
    && (a.Word? || a.Ident? ==> !b.Word?)
    && (a.Ident? ==> !b.Ident?)
    && (a.Space? ==> !b.Space?)
  }

  predicate Statement(lexemes: seq<Lexeme>) {
    lexemes != [] ==>
      && LexemeOk(lexemes[0])
      && (|lexemes| > 1 ==> MayFollow(lexemes[0], lexemes[1]))
      && Statement(lexemes[1..])
  }

  lemma {:induction false} StatementAt(lexemes: seq<Lexeme>, i: nat)
    requires Statement(lexemes) && i < |lexemes|
    ensures LexemeOk(lexemes[i]) && (i + 1 < |lexemes| ==> MayFollow(lexemes[i], lexemes[i + 1])) && Statement(lexemes[i..])
  {
    if i > 0 {
      StatementAt(lexemes[1..], i - 1);
      assert lexemes[1..][i - 1..] == lexemes[i..];
    }
  }

  /** Where a lexeme starts in the text. */
  function Start(lexemes: seq<Lexeme>, i: nat): nat
    requires i <= |lexemes|
  {
    if i == 0 then 0 else |Spell(lexemes[0])| + Start(lexemes[1..], i - 1)
  }

  lemma {:induction false} RenderFrom(lexemes: seq<Lexeme>, i: nat)
    requires i <= |lexemes|
    ensures Start(lexemes, i) <= |Render(lexemes)|
    ensures Render(lexemes)[..Start(lexemes, i)] == Render(lexemes[..i])
    ensures Render(lexemes)[Start(lexemes, i)..] == Render(lexemes[i..])
  {
    if i > 0 {
      var rest := lexemes[1..];
      RenderFrom(rest, i - 1);
      assert rest[i - 1..] == lexemes[i..];
      assert lexemes[..i][1..] == rest[..i - 1] && lexemes[..i][0] == lexemes[0];
      SplitConcat(Spell(lexemes[0]), Render(rest), Start(rest, i - 1));
    }
  }

  lemma SplitConcat<T>(a: seq<T>, b: seq<T>, n: nat)
    requires n <= |b|
    ensures (a + b)[..|a| + n] == a + b[..n] && (a + b)[|a| + n..] == b[n..]
  {
  }

  lemma {:induction false} RenderConcat(a: seq<Lexeme>, b: seq<Lexeme>)
    ensures Render(a + b) == Render(a) + Render(b)
  {
    if a == [] {
      assert a + b == b;
    } else {
      RenderConcat(a[1..], b);
      assert (a + b)[1..] == a[1..] + b && (a + b)[0] == a[0];
      Associative(Spell(a[0]), Render(a[1..]), Render(b));
    }
  }

  lemma {:induction false} StartNext(lexemes: seq<Lexeme>, i: nat)
    requires Statement(lexemes) && i < |lexemes|
    ensures Start(lexemes, i + 1) == Start(lexemes, i) + |Spell(lexemes[i])| && |Spell(lexemes[i])| > 0
  {
    if i > 0 { StartNext(lexemes[1..], i - 1); }
  }
}
