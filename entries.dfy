/**
 * Entries: the generic column containers the graph layer hands to the store
 * and gets back from it, and the rows the Cassandra driver returns.
 */
module Entries {
  import opened Wrappers
  import opened Values
  import opened Keys

  /** The kind of graph element an entry holds (HugeType). */
  datatype HugeType =
    | VertexLabelType | EdgeLabelType | PropertyKeyType | IndexLabelType
    | VertexType | EdgeType | SecondaryIndexType | SearchIndexType

  /** `CassandraBackendEntry.Row`: a kind, an optional id and the columns by key. */
  datatype Row = Row(kind: HugeType, id: Option<Id>, columns: map<Key, Value>)

  /** `CassandraBackendEntry`: its own row plus the nested rows merged into it. */
  datatype BackendEntry = BackendEntry(row: Row, subRows: seq<Row>)

  /** A driver row: its column definitions, in order, with their values. */
  type CqlRow = seq<(string, Value)>

  /** The value of a column when it holds text, as `Row.get(name, String.class)` reads it. */
  function TextColumn(r: Row, k: Key): Option<string> {
    if k in r.columns && r.columns[k].Single? && r.columns[k].x.Text?
    then Some(r.columns[k].x.s) else None
  }

  /** Whether the column at `i` is the first whose name matches `name` case-insensitively. */
  predicate FirstMatch(row: CqlRow, name: string, i: int) {
    0 <= i < |row| && ToUpper(row[i].0) == ToUpper(name) &&
    forall j :: 0 <= j < i ==> ToUpper(row[j].0) != ToUpper(name)
  }

  /** Whether a column value holds text. */
  predicate IsText(v: Value) {
    v.Single? && v.x.Text?
  }

  /**
   * `Row.getObject(name)` on a driver row: the value of the first column whose
   * name matches case-insensitively; none when no column matches.
   */
  function GetObject(row: CqlRow, name: string): (r: Option<Value>)
    ensures r.None? <==> forall i :: 0 <= i < |row| ==> ToUpper(row[i].0) != ToUpper(name)
    ensures r.Some? ==> exists i :: FirstMatch(row, name, i) && row[i].1 == r.value
    ensures forall i :: FirstMatch(row, name, i) ==> r == Some(row[i].1)
  {
    if row == [] then None
    else if ToUpper(row[0].0) == ToUpper(name) then
      assert FirstMatch(row, name, 0);
      assert forall i :: FirstMatch(row, name, i) ==> i == 0;
      Some(row[0].1)
    else
      var r := GetObject(row[1..], name);
      FirstMatchShift(row, name);
      if r.Some? then
        ghost var i :| FirstMatch(row[1..], name, i) && row[1..][i].1 == r.value;
        assert FirstMatch(row, name, i + 1);
        r
      else r
  }

  /**
   * `Row.get(name, String.class)` on a driver row: the first column whose name
   * matches case-insensitively, when it holds text. There is none when no
   * column matches or when the first matching column does not hold text.
   */
  function RowText(row: CqlRow, name: string): (r: Option<string>)
    ensures r.Some? ==> exists i :: FirstMatch(row, name, i) && row[i].1 == Single(Text(r.value))
    ensures r.None? <==>
      (forall i :: 0 <= i < |row| ==> ToUpper(row[i].0) != ToUpper(name)) ||
      (exists i :: FirstMatch(row, name, i) && !IsText(row[i].1))
  {
    match GetObject(row, name)
    case Some(v) => if IsText(v) then Some(v.x.s) else None
    case None => None
  }

  /** Past a non-matching first column, the first match is one further along. */
  lemma FirstMatchShift(row: CqlRow, name: string)
    requires |row| > 0 && ToUpper(row[0].0) != ToUpper(name)
    ensures forall i :: FirstMatch(row, name, i) <==> i >= 1 && FirstMatch(row[1..], name, i - 1)
    ensures (forall i :: 0 <= i < |row| ==> ToUpper(row[i].0) != ToUpper(name)) <==>
            (forall i :: 0 <= i < |row[1..]| ==> ToUpper(row[1..][i].0) != ToUpper(name))
  {
    forall i ensures FirstMatch(row, name, i) <==> i >= 1 && FirstMatch(row[1..], name, i - 1) {
      if i >= 1 && FirstMatch(row[1..], name, i - 1) {
        forall j | 0 <= j < i ensures ToUpper(row[j].0) != ToUpper(name) {
          if j > 0 { assert row[j] == row[1..][j - 1]; }
        }
      }
      if FirstMatch(row, name, i) {
        assert i >= 1;
        forall j | 0 <= j < i - 1 ensures ToUpper(row[1..][j].0) != ToUpper(name) {
          assert row[1..][j] == row[j + 1];
        }
      }
    }
    if forall i :: 0 <= i < |row[1..]| ==> ToUpper(row[1..][i].0) != ToUpper(name) {
      forall i | 0 <= i < |row| ensures ToUpper(row[i].0) != ToUpper(name) {
        if i > 0 { assert row[i] == row[1..][i - 1]; }
      }
    }
  }
}
