/** The native predicate a shape is filtered with, as far as the board uses it, and what the engine makes of it:
    three-valued, with subqueries that read whole tables. */
module ReadPredicate {
  import opened Options
  import opened BoardDatabase

  datatype Predicate =
    | Eq(col: string, value: Value)
    | Gte(col: string, value: Value)
    | IsNull(col: string, isNull: bool)
    | All(nodes: seq<Predicate>)
    | Any(nodes: seq<Predicate>)
    | Not(node: Predicate)
    | In(col: string, set_: Subquery, negated: bool)

  /** The values of one column over the rows of a table that match. */
  datatype Subquery = Subquery(table: Table, project: string, where_: Option<Predicate>)

  /** The engine's index test: a value is in a set or not; a NULL on either side leaves it open. */
  function InSet(v: Value, values: set<Value>): Tri {
    if values == {} then False
    else if v.Null? then Unknown
    else if v in values then True
    else if Null in values then Unknown
    else False
  }

  /** It comes to SQL's comparison with each of them. */
  lemma {:induction false} InSetIsAny(v: Value, values: seq<Value>)
    ensures InSet(v, set x | x in values) == EqualsAny(v, values)
  {
    if values != [] {
      InSetIsAny(v, values[1..]);
      assert values == [values[0]] + values[1..];
      assert (set x | x in values) == {values[0]} + set x | x in values[1..];
    }
  }

  function Holds(p: Predicate, r: Row, db: Db): Tri
    decreases p, 0
  {
    match p
    case Eq(col, value) => Equal3(Cell(r, col), value)
    case Gte(col, value) => AtLeast3(Cell(r, col), value)
    case IsNull(col, isNull) => Of(Cell(r, col).Null? == isNull)
    case All(nodes) => HoldsAll(nodes, r, db)
    case Any(nodes) => HoldsAny(nodes, r, db)
    case Not(node) => Not3(Holds(node, r, db))
    case In(col, set_, negated) =>
      var t := InSet(Cell(r, col), Projected(set_, db(set_.table), db));
      if negated then Not3(t) else t
  }

  function HoldsAll(nodes: seq<Predicate>, r: Row, db: Db): Tri
    decreases nodes, 0
  {
    if nodes == [] then True else And3(Holds(nodes[0], r, db), HoldsAll(nodes[1..], r, db))
  }

  function HoldsAny(nodes: seq<Predicate>, r: Row, db: Db): Tri
    decreases nodes, 0
  {
    if nodes == [] then False else Or3(Holds(nodes[0], r, db), HoldsAny(nodes[1..], r, db))
  }

  function Projected(q: Subquery, rows: seq<Row>, db: Db): set<Value>
    decreases q, |rows|
  {
    if rows == [] then {}
    else
      Projected(q, rows[1..], db)
      + if q.where_.None? || Holds(q.where_.value, rows[0], db).True? then {Cell(rows[0], q.project)} else {}
  }

  lemma {:induction false} ProjectedIs(q: Subquery, rows: seq<Row>, db: Db, v: Value)
    ensures v in Projected(q, rows, db) <==>
            exists r :: r in rows && Cell(r, q.project) == v && (q.where_.None? || Holds(q.where_.value, r, db).True?)
  {
    if rows != [] {
      ProjectedIs(q, rows[1..], db, v);
      assert rows == [rows[0]] + rows[1..];
    }
  }

  /** No filter shows every row. */
  predicate Shows(filter: Option<Predicate>, r: Row, db: Db) {
    filter.None? || Holds(filter.value, r, db).True?
  }
}
