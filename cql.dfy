/**
 * CQL statements as values: the clauses, orderings and assignments that the
 * DataStax query builder would assemble, the four statement kinds the adapter
 * issues, and the errors the adapter raises.
 */
module Cql {
  import opened Wrappers
  import opened Values
  import opened Keys

  /** The comparison operators of a column or token clause. */
  datatype CmpOp = Eq | Gt | Gte | Lt | Lte

  /** A WHERE clause. */
  datatype Clause =
    | Compare(column: string, op: CmpOp, value: Value)
    | In(column: string, values: seq<Scalar>)
    | ContainsKey(column: string, key: Value)
      /** `token(columns) op raw`: a position on the partitioner's ring. */
    | TokenCompare(columns: seq<string>, op: CmpOp, raw: string)
    | And(left: Clause, right: Clause)

  /** `QueryBuilder.eq(name, value)` on a text value. */
  function EqText(column: string, s: string): Clause {
    Compare(column, Eq, TextValue(s))
  }

  datatype Order = Asc | Desc

  datatype Ordering = Ordering(column: string, order: Order)

  /** A SET assignment of an UPDATE on a collection column. */
  datatype Assignment =
    | Append(column: string, value: Value)
    | RemoveAll(column: string, elements: set<Scalar>)
    | Remove(column: string, value: Value)
  {
    function Column(): string {
      match this
      case Append(c, _) => c
      case RemoveAll(c, _) => c
      case Remove(c, _) => c
    }
  }

  /** A SELECT * with its optional LIMIT, orderings, WHERE clauses and ALLOW FILTERING. */
  datatype Select = Select(
    table: string,
    limit: Option<int>,
    orders: seq<Ordering>,
    where: seq<Clause>,
    allowFiltering: bool)

  datatype Statement =
    | SelectStmt(select: Select)
    | InsertStmt(table: string, values: seq<(string, Value)>)
    | UpdateStmt(table: string, assignments: seq<Assignment>, where: seq<Clause>)
    | DeleteStmt(table: string, where: seq<Clause>)

  /** Whether `where` binds each name to its value by equality, position by position. */
  predicate BindsPositionally(where: seq<Clause>, names: seq<Key>, values: seq<string>) {
    |where| == |names| == |values| &&
    forall i :: 0 <= i < |where| ==> where[i] == EqText(Format(names[i]), values[i])
  }

  /** The failures the adapter raises. */
  datatype Error =
    | InvalidMetadataName(meta: string)
    | IllegalArgument(message: string)
    | UnsupportedIdFormat(id: Id, columns: seq<Key>)
    | UnsupportedOr
    | UnsupportedRelation(key: string)
    | ClassCast(expected: string)
    | UnknownColumn(name: string)
    | MissingColumn(name: string)
    | NullId
    | NullPointer
    | AssertionFailed(check: string)
    | InsertNotSupported(table: string)
    | IndexDeleteHasFieldValues(table: string)
    | IndexDeleteNeedsLabel(table: string)
    | DeleteScanFailed(table: string, labelName: string)
    | QueryFailed(cause: Error)
    | DriverFailure
  {
    /** Raised as `java.lang.AssertionError`, which is not an `Exception`. */
    predicate IsAssertion() {
      UnsupportedRelation? || AssertionFailed?
    }
  }
}
