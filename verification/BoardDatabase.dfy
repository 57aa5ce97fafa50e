/** The board's tables as rows of nullable cells, SQL's three truth values, and the claims a request carries. */
module BoardDatabase {
  import opened Options

  datatype Value = Null | Text(text: string) | Int(num: int)

  type Row = map<string, Value>

  datatype Table = Profile | Team | TeamMember | Channel | Message | Issue

  type Db = Table -> seq<Row>

  function Cell(r: Row, col: string): Value {
    if col in r then r[col] else Null
  }

  /** The claims of a verified token; `roles` is `app_metadata.roles`, absent or an array. */
  datatype Claims = Claims(sub: Option<string>, roles: Option<seq<string>>)

  predicate HasSubject(claims: Claims) {
    claims.sub.Some? && claims.sub.value != ""
  }

  // ---- Three-valued logic ----

  datatype Tri = True | False | Unknown

  function Of(b: bool): Tri {
    if b then True else False
  }

  function And3(a: Tri, b: Tri): Tri {
    if a.False? || b.False? then False else if a.True? && b.True? then True else Unknown
  }

  function Or3(a: Tri, b: Tri): Tri {
    if a.True? || b.True? then True else if a.False? && b.False? then False else Unknown
  }

  function Not3(a: Tri): Tri {
    match a case True => False case False => True case Unknown => Unknown
  }

  /** Truth is ordered: false, unknown, true. */
  function Degree(t: Tri): nat {
    match t case False => 0 case Unknown => 1 case True => 2
  }

  /** Kleene's logic: a conjunction is the lesser, a disjunction the greater, and a negation turns the order round. */
  lemma Kleene(a: Tri, b: Tri)
    ensures Degree(And3(a, b)) == if Degree(a) < Degree(b) then Degree(a) else Degree(b)
    ensures Degree(Or3(a, b)) == if Degree(a) < Degree(b) then Degree(b) else Degree(a)
    ensures Degree(Not3(a)) == 2 - Degree(a)
  {
  }

  function Equal3(a: Value, b: Value): Tri {
    if a.Null? || b.Null? then Unknown else Of(a == b)
  }

  function AtLeast3(a: Value, b: Value): Tri {
    if a.Int? && b.Int? then Of(a.num >= b.num) else Unknown
  }

  /** `v = ANY(array)`: the disjunction of the comparisons. */
  function EqualsAny(v: Value, array_: seq<Value>): (t: Tri)
    ensures t.True? <==> !v.Null? && v in array_
  {
    if array_ == [] then False else Or3(Equal3(v, array_[0]), EqualsAny(v, array_[1..]))
  }
}
