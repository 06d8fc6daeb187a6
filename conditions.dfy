/**
 * The condition compiler: `condition2Cql` and `relation2Cql` turn a query's
 * condition tree into one CQL clause. Conjunction compiles both sides,
 * disjunction is refused, and each supported relation becomes its clause.
 */
module Conditions {
  import opened Wrappers
  import opened Values
  import opened Keys
  import opened Cql
  import opened Tables

  /** The relation types a condition can carry. */
  datatype RelOp =
    | EqRel | GtRel | GteRel | LtRel | LteRel
    | NeqRel | InRel | ContainsKeyRel | ScanRel
      /** Any other relation type of the graph layer (none of them has a CQL form here). */
    | Unmapped(name: string)

  /** A relation: a key (rendered as text), a relation type and a value. */
  datatype Relation = Relation(key: string, op: RelOp, value: Value)

  datatype Condition =
    | AndCond(left: Condition, right: Condition)
    | OrCond(left: Condition, right: Condition)
    | Rel(relation: Relation)
      /** Any other condition type of the graph layer, which the compiler does not expect. */
    | OtherCond(kind: string)

  /** The comparison a relation type maps to directly, if any. */
  function ComparisonOf(op: RelOp): Option<CmpOp> {
    match op
    case EqRel => Some(Eq)
    case GtRel => Some(Gt)
    case GteRel => Some(Gte)
    case LtRel => Some(Lt)
    case LteRel => Some(Lte)
    case _ => None
  }

  /**
   * Which relations compile, stated apart from the compiler: the five
   * comparisons and CONTAINS_KEY always, IN on a list, SCAN on a text end
   * (after serialisation), never NEQ nor an unmapped type.
   */
  predicate RelationSupported(r: Relation) {
    var v := SerializeValue(r.value);
    match r.op
    case InRel => v.ListOf?
    case ScanRel => v.Single? && v.x.Text?
    case NeqRel => false
    case Unmapped(_) => false
    case _ => true
  }

  /** `relation2Cql`. The value is serialised first; `t` supplies the partition key for SCAN. */
  function Relation2Cql(t: Table, r: Relation): (c: Result<Clause, Error>)
    ensures c.Ok? <==> RelationSupported(r)
    ensures ComparisonOf(r.op).Some? ==>
      c == Ok(Compare(r.key, ComparisonOf(r.op).value, SerializeValue(r.value)))
    ensures r.op.ContainsKeyRel? ==> c == Ok(ContainsKey(r.key, SerializeValue(r.value)))
    ensures r.op.NeqRel? || r.op.Unmapped? ==> c == Err(UnsupportedRelation(r.key))
  {
    var value := SerializeValue(r.value);
    match r.op
    case EqRel => Ok(Compare(r.key, Eq, value))
    case GtRel => Ok(Compare(r.key, Gt, value))
    case GteRel => Ok(Compare(r.key, Gte, value))
    case LtRel => Ok(Compare(r.key, Lt, value))
    case LteRel => Ok(Compare(r.key, Lte, value))
    case InRel =>
      if value.ListOf? then
        Ok(Clause.In(r.key, seq(|value.items|, i requires 0 <= i < |value.items| => SerializeScalar(value.items[i]))))
      else Err(ClassCast("List"))
    case ContainsKeyRel => Ok(ContainsKey(r.key, value))
    case ScanRel =>
      if value.Single? && value.x.Text? then
        var cols := seq(|t.PkColumns()|, i requires 0 <= i < |t.PkColumns()| => Format(t.PkColumns()[i]));
        Ok(And(TokenCompare(cols, Gte, r.key), TokenCompare(cols, Lt, value.x.s)))
      else Err(ClassCast("String"))
    case NeqRel => Err(UnsupportedRelation(r.key))
    case Unmapped(_) => Err(UnsupportedRelation(r.key))
  }

  /**
   * Which condition trees compile: no disjunction and no other condition type
   * anywhere, and every relation supported.
   */
  predicate Compilable(c: Condition) {
    match c
    case AndCond(l, r) => Compilable(l) && Compilable(r)
    case OrCond(_, _) => false
    case Rel(rel) => RelationSupported(rel)
    case OtherCond(_) => false
  }

  /**
   * `condition2Cql`: AND compiles left then right, OR is refused, a relation
   * goes to `relation2Cql`, and any other condition type fails an assertion.
   */
  function Condition2Cql(t: Table, c: Condition): (r: Result<Clause, Error>)
    ensures r.Ok? <==> Compilable(c)
    ensures c.OrCond? ==> r == Err(UnsupportedOr)
    ensures c.OtherCond? ==> r.Err? && r.error.IsAssertion()
  {
    match c
    case AndCond(l, rt) =>
      var left :- Condition2Cql(t, l);
      var right :- Condition2Cql(t, rt);
      Ok(And(left, right))
    case OrCond(_, _) => Err(UnsupportedOr)
    case Rel(rel) => Relation2Cql(t, rel)
    case OtherCond(_) => Err(AssertionFailed("Unsupported condition"))
  }

  /** The number of relations in a condition tree. */
  function RelationCount(c: Condition): nat {
    match c
    case AndCond(l, r) => RelationCount(l) + RelationCount(r)
    case OrCond(l, r) => RelationCount(l) + RelationCount(r)
    case Rel(_) => 1
    case OtherCond(_) => 0
  }

  /** The number of column or token predicates in a clause. */
  function PredicateCount(c: Clause): nat {
    match c
    case And(l, r) => PredicateCount(l) + PredicateCount(r)
    case _ => 1
  }

  /** The number of SCAN relations in a condition tree. */
  function ScanCount(c: Condition): nat {
    match c
    case AndCond(l, r) => ScanCount(l) + ScanCount(r)
    case OrCond(l, r) => ScanCount(l) + ScanCount(r)
    case Rel(rel) => if rel.op.ScanRel? then 1 else 0
    case OtherCond(_) => 0
  }

  /**
   * Compilation keeps every relation: the compiled clause has one predicate
   * per relation, plus one for each SCAN, which becomes the two bounds of a
   * token range.
   */
  lemma {:induction false} CompiledPredicateCount(t: Table, c: Condition)
    requires Condition2Cql(t, c).Ok?
    ensures PredicateCount(Condition2Cql(t, c).value) == RelationCount(c) + ScanCount(c)
  {
    match c
    case AndCond(l, r) =>
      CompiledPredicateCount(t, l);
      CompiledPredicateCount(t, r);
    case Rel(rel) =>
  }

  /** AND compiles to the conjunction of its two sides' clauses, and to nothing else. */
  lemma AndCompiles(t: Table, l: Condition, r: Condition, a: Clause, b: Clause)
    ensures Condition2Cql(t, AndCond(l, r)) == Ok(And(a, b))
        <==> Condition2Cql(t, l) == Ok(a) && Condition2Cql(t, r) == Ok(b)
  {
  }

  /** An error inside the left side of a conjunction is the conjunction's error. */
  lemma AndLeftErrorFirst(t: Table, l: Condition, r: Condition)
    requires Condition2Cql(t, l).Err?
    ensures Condition2Cql(t, AndCond(l, r)) == Condition2Cql(t, l)
  {
  }

  /**
   * SCAN compiles to the half-open token range [key, value) over the table's
   * partition key columns.
   */
  lemma ScanIsHalfOpenRange(t: Table, key: string, v: Value)
    requires SerializeValue(v).Single? && SerializeValue(v).x.Text?
    ensures var cols := seq(|t.PkColumns()|, i requires 0 <= i < |t.PkColumns()| => Format(t.PkColumns()[i]));
      Relation2Cql(t, Relation(key, ScanRel, v))
        == Ok(And(TokenCompare(cols, Gte, key), TokenCompare(cols, Lt, SerializeValue(v).x.s)))
  {
  }

  /** IN serialises each list element on its own, so ids and directions reach the clause as text. */
  lemma InSerialisesEachElement(t: Table, key: string, items: seq<Scalar>)
    ensures Relation2Cql(t, Relation(key, InRel, ListOf(items))).Ok?
    ensures var c := Relation2Cql(t, Relation(key, InRel, ListOf(items))).value;
      c.In? && |c.values| == |items| &&
      forall i :: 0 <= i < |items| ==> c.values[i] == SerializeScalar(items[i])
  {
  }
}
