/**
 * The statements `CassandraTable` stages for the graph layer's mutations:
 * `insert` (a whole row), `append` and `eliminate` (elements added to or
 * removed from collection columns, the row addressed by its id) and `delete`
 * (by id, or by the entry's columns). The entry's columns are a hash map,
 * visited in an order the model leaves open: every statement is specified
 * for an arbitrary order that visits each column once.
 */
module Mutations {
  import opened Wrappers
  import opened Values
  import opened Keys
  import opened Entries
  import opened Cql
  import opened Tables
  import opened Queries
  import opened Sessions
  import opened Seqs

  /** `ks` visits each column of `m` exactly once: an iteration order of the map. */
  ghost predicate IsOrderOf<V>(ks: seq<Key>, m: map<Key, V>) {
    Distinct(ks) && forall k :: k in ks <==> k in m
  }

  /** Iterating a map's entry set: some order that visits each key once. */
  method VisitOrder<V>(m: map<Key, V>) returns (ks: seq<Key>)
    ensures IsOrderOf(ks, m)
  {
    ks := [];
    var rest := m.Keys;
    while rest != {}
      invariant rest <= m.Keys
      invariant Distinct(ks)
      invariant forall k :: k in ks <==> k in m && k !in rest
      decreases |rest|
    {
      var k :| k in rest;
      ks := ks + [k];
      rest := rest - {k};
    }
  }

  /** An order visits as many keys as the map holds. */
  lemma OrderLength<V>(ks: seq<Key>, m: map<Key, V>)
    requires IsOrderOf(ks, m)
    ensures |ks| == |m|
  {
    DistinctCardinality(ks);
    assert (set x | x in ks) == m.Keys;
  }

  // ----- the id binding of append, eliminate and delete -----

  /**
   * The WHERE of a statement addressed by id: one equality per id column, in
   * order. A missing id fails on decoding; a part count other than the
   * id-column count fails the source's size assertion.
   */
  function IdWhere(t: Table, id: Option<Id>): (r: Result<seq<Clause>, Error>)
    ensures r.Ok? <==> id.Some? && !ArityMismatch(t, id.value)
    ensures id.None? ==> r == Err(NullId)
    ensures r.Ok? ==> BindsPositionally(r.value, t.IdColumns(), t.IdColumnValue(id.value))
  {
    if id.None? then Err(NullId)
    else if ArityMismatch(t, id.value) then Err(AssertionFailed("id arity"))
    else Ok(IdEquals(t.IdColumns(), t.IdColumnValue(id.value)))
  }

  /** The loop that adds one equality per id column to a statement's WHERE. */
  method BindId(t: Table, id: Option<Id>) returns (r: Result<seq<Clause>, Error>)
    ensures r == IdWhere(t, id)
  {
    if id.None? {
      return Err(NullId);
    }
    var idNames := t.IdColumns();
    var idValues := DecodeId(t, id.value);
    if |idNames| != |idValues| {
      return Err(AssertionFailed("id arity"));
    }
    var where: seq<Clause> := [];
    for i := 0 to |idNames|
      invariant where == IdEquals(idNames[..i], idValues[..i])
    {
      assert IdEquals(idNames[..i + 1], idValues[..i + 1])
          == IdEquals(idNames[..i], idValues[..i]) + [EqText(Format(idNames[i]), idValues[i])];
      where := where + [EqText(Format(idNames[i]), idValues[i])];
    }
    assert idNames[..|idNames|] == idNames && idValues[..|idValues|] == idValues;
    return Ok(where);
  }

  // ----- insert -----

  /** The (column name, value) pairs of an INSERT, in the order the columns are visited. */
  function InsertPairs(cols: map<Key, Value>, ks: seq<Key>): seq<(string, Value)>
    requires forall k :: k in ks ==> k in cols
  {
    seq(|ks|, i requires 0 <= i < |ks| => (Format(ks[i]), cols[ks[i]]))
  }

  /** What `insert` stages for the row when its columns are visited in order `ks`. */
  function InsertSpec(t: Table, row: Row, ks: seq<Key>): Result<Statement, Error>
    requires forall k :: k in ks ==> k in row.columns
  {
    if |row.columns| == 0 then Err(AssertionFailed("columns not empty"))
    else Ok(InsertStmt(t.Name(), InsertPairs(row.columns, ks)))
  }

  /** `insert`'s statement: every column of the entry, under its formatted name. */
  method BuildInsert(t: Table, row: Row) returns (r: Result<Statement, Error>)
    ensures exists ks :: IsOrderOf(ks, row.columns) && r == InsertSpec(t, row, ks)
  {
    var ks := VisitOrder(row.columns);
    if |row.columns| == 0 {
      return Err(AssertionFailed("columns not empty"));
    }
    var values: seq<(string, Value)> := [];
    for i := 0 to |ks|
      invariant values == InsertPairs(row.columns, ks[..i])
    {
      values := values + [(Format(ks[i]), row.columns[ks[i]])];
    }
    assert ks[..|ks|] == ks;
    r := Ok(InsertStmt(t.Name(), values));
    assert r == InsertSpec(t, row, ks);
  }

  /**
   * An insert names each column of the entry exactly once, with the entry's
   * value, whatever order the columns are visited in; an entry without
   * columns is refused.
   */
  lemma InsertCarriesEveryColumn(t: Table, row: Row, ks: seq<Key>)
    requires IsOrderOf(ks, row.columns)
    ensures InsertSpec(t, row, ks).Err? <==> |row.columns| == 0
    ensures InsertSpec(t, row, ks).Ok? ==>
              var s := InsertSpec(t, row, ks).value;
              s == InsertStmt(t.Name(), s.values) &&
              |s.values| == |row.columns| &&
              (forall k :: k in row.columns ==> (Format(k), row.columns[k]) in s.values) &&
              (forall i :: 0 <= i < |s.values| ==>
                 exists k :: k in row.columns && s.values[i] == (Format(k), row.columns[k])) &&
              (forall i, j :: 0 <= i < j < |s.values| ==> s.values[i].0 != s.values[j].0)
  {
    OrderLength(ks, row.columns);
    var ps := InsertPairs(row.columns, ks);
    forall k | k in row.columns
      ensures (Format(k), row.columns[k]) in ps
    {
      var i :| 0 <= i < |ks| && ks[i] == k;
      assert ps[i] == (Format(k), row.columns[k]);
    }
    forall i | 0 <= i < |ps|
      ensures exists k :: k in row.columns && ps[i] == (Format(k), row.columns[k])
    {
      assert ks[i] in row.columns;
    }
    forall i, j | 0 <= i < j < |ps|
      ensures ps[i].0 != ps[j].0
    {
      if ps[i].0 == ps[j].0 {
        FormatInjective(ks[i], ks[j]);
      }
    }
  }

  // ----- append and eliminate -----

  /** The two collection updates: `append` adds elements, `eliminate` removes them. */
  datatype UpdateKind = AppendKind | EliminateKind

  /**
   * `eliminate`'s removal by the value's shape: a map by its keys, a set as
   * is, a list as the set of its items, anything else as a single element.
   */
  function Removal(name: string, v: Value): (a: Assignment)
    ensures a.Column() == name
    ensures a.Remove? <==> v.Single?
    ensures a.Remove? ==> a.value == v
    ensures a.RemoveAll? ==> forall x ::
              x in a.elements <==> (v.MapOf? && x in v.entries) || (v.SetOf? && x in v.elements)
                                   || (v.ListOf? && x in v.items)
  {
    match v
    case MapOf(m) => RemoveAll(name, m.Keys)
    case SetOf(e) => RemoveAll(name, e)
    case ListOf(xs) => RemoveAll(name, set x | x in xs)
    case Single(_) => Remove(name, v)
  }

  /** The assignment one non-id column contributes. */
  function Assign(kind: UpdateKind, name: string, v: Value): (a: Assignment)
    ensures a.Column() == name
  {
    match kind
    case AppendKind => Append(name, v)
    case EliminateKind => Removal(name, v)
  }

  /** The assignments of the visited columns, id columns skipped. */
  function Assignments(t: Table, kind: UpdateKind, cols: map<Key, Value>, ks: seq<Key>): seq<Assignment>
    requires forall k :: k in ks ==> k in cols
    decreases |ks|
  {
    if ks == [] then []
    else
      var init := Assignments(t, kind, cols, ks[..|ks| - 1]);
      var k := ks[|ks| - 1];
      if k in t.IdColumns() then init else init + [Assign(kind, Format(k), cols[k])]
  }

  /** What `append` (or `eliminate`) stages for the row when its columns are visited in order `ks`. */
  function UpdateSpec(t: Table, kind: UpdateKind, row: Row, ks: seq<Key>): Result<Statement, Error>
    requires forall k :: k in ks ==> k in row.columns
  {
    match IdWhere(t, row.id)
    case Err(e) => Err(e)
    case Ok(where) => Ok(UpdateStmt(t.Name(), Assignments(t, kind, row.columns, ks), where))
  }

  /** `append`/`eliminate`'s statement: decode the id, assign the non-id columns, bind the id. */
  method BuildUpdate(t: Table, kind: UpdateKind, row: Row) returns (r: Result<Statement, Error>)
    ensures exists ks :: IsOrderOf(ks, row.columns) && r == UpdateSpec(t, kind, row, ks)
  {
    var ks := VisitOrder(row.columns);
    if row.id.None? {
      r := Err(NullId);
      assert r == UpdateSpec(t, kind, row, ks);
      return;
    }
    var idNames := t.IdColumns();
    var idValues := DecodeId(t, row.id.value);
    if |idNames| != |idValues| {
      r := Err(AssertionFailed("id arity"));
      assert r == UpdateSpec(t, kind, row, ks);
      return;
    }
    var assignments: seq<Assignment> := [];
    for i := 0 to |ks|
      invariant assignments == Assignments(t, kind, row.columns, ks[..i])
    {
      assert ks[..i + 1][..i] == ks[..i];
      var key := Format(ks[i]);
      if ks[i] !in idNames {
        assignments := assignments + [Assign(kind, key, row.columns[ks[i]])];
      }
    }
    assert ks[..|ks|] == ks;
    var where := BindId(t, row.id);
    r := Ok(UpdateStmt(t.Name(), assignments, where.value));
    assert r == UpdateSpec(t, kind, row, ks);
  }

  /** The visited columns that are not id columns, in order. */
  function NonIdKeys(t: Table, ks: seq<Key>): seq<Key>
    decreases |ks|
  {
    if ks == [] then []
    else
      var init := NonIdKeys(t, ks[..|ks| - 1]);
      var k := ks[|ks| - 1];
      if k in t.IdColumns() then init else init + [k]
  }

  /** The non-id columns are exactly the visited columns outside the id, each as often as visited. */
  lemma {:induction false} NonIdKeysMeaning(t: Table, ks: seq<Key>)
    ensures forall k :: k in NonIdKeys(t, ks) <==> k in ks && k !in t.IdColumns()
    ensures Distinct(ks) ==> Distinct(NonIdKeys(t, ks))
    decreases |ks|
  {
    if ks != [] {
      var init := ks[..|ks| - 1];
      NonIdKeysMeaning(t, init);
      SplitLast(ks);
    }
  }

  /** The assignments are those of the non-id columns, one each, in visiting order. */
  lemma {:induction false} AssignmentsFollowKeys(t: Table, kind: UpdateKind, cols: map<Key, Value>, ks: seq<Key>)
    requires forall k :: k in ks ==> k in cols
    ensures var asg, nk := Assignments(t, kind, cols, ks), NonIdKeys(t, ks);
            |asg| == |nk| &&
            forall i :: 0 <= i < |asg| ==> nk[i] in cols && asg[i] == Assign(kind, Format(nk[i]), cols[nk[i]])
    decreases |ks|
  {
    if ks != [] {
      AssignmentsFollowKeys(t, kind, cols, ks[..|ks| - 1]);
    }
  }

  /**
   * `append` and `eliminate` assign every non-id column of the entry exactly
   * once and never an id column, and bind every id column by equality, in
   * order; a missing id or one of the wrong part count fails.
   */
  lemma UpdateAssignsEachColumnOnce(t: Table, kind: UpdateKind, row: Row, ks: seq<Key>)
    requires IsOrderOf(ks, row.columns)
    ensures UpdateSpec(t, kind, row, ks).Ok? <==> row.id.Some? && !ArityMismatch(t, row.id.value)
    ensures UpdateSpec(t, kind, row, ks).Ok? ==>
              var s := UpdateSpec(t, kind, row, ks).value;
              s.UpdateStmt? && s.table == t.Name() &&
              BindsPositionally(s.where, t.IdColumns(), t.IdColumnValue(row.id.value)) &&
              s.assignments == Assignments(t, kind, row.columns, ks)
  {
  }

  /** The assignments name every non-id column of the entry once, and no id column. */
  lemma AssignmentsCoverNonIdColumns(t: Table, kind: UpdateKind, row: Row, ks: seq<Key>)
    requires IsOrderOf(ks, row.columns)
    ensures var asg := Assignments(t, kind, row.columns, ks);
            (forall k :: k in row.columns && k !in t.IdColumns() ==>
               Assign(kind, Format(k), row.columns[k]) in asg) &&
            (forall i, c :: 0 <= i < |asg| && c in t.IdColumns() ==> asg[i].Column() != Format(c)) &&
            (forall i, j :: 0 <= i < j < |asg| ==> asg[i].Column() != asg[j].Column())
  {
    var asg, nk := Assignments(t, kind, row.columns, ks), NonIdKeys(t, ks);
    NonIdKeysMeaning(t, ks);
    AssignmentsFollowKeys(t, kind, row.columns, ks);
    forall k | k in row.columns && k !in t.IdColumns()
      ensures Assign(kind, Format(k), row.columns[k]) in asg
    {
      var i :| 0 <= i < |nk| && nk[i] == k;
      assert asg[i] == Assign(kind, Format(k), row.columns[k]);
    }
    forall i, c | 0 <= i < |asg| && c in t.IdColumns()
      ensures asg[i].Column() != Format(c)
    {
      assert asg[i].Column() == Format(nk[i]);
      if Format(nk[i]) == Format(c) {
        FormatInjective(nk[i], c);
      }
    }
    forall i, j | 0 <= i < j < |asg|
      ensures asg[i].Column() != asg[j].Column()
    {
      assert asg[i].Column() == Format(nk[i]) && asg[j].Column() == Format(nk[j]);
      if Format(nk[i]) == Format(nk[j]) {
        FormatInjective(nk[i], nk[j]);
      }
    }
  }

  // ----- what the collection updates do to a stored column -----

  /** The items of `xs` that are not in `es`, in order. */
  function Without(xs: seq<Scalar>, es: set<Scalar>): seq<Scalar>
    decreases |xs|
  {
    if xs == [] then []
    else (if xs[0] in es then [] else [xs[0]]) + Without(xs[1..], es)
  }

  /**
   * CQL's effect of a collection assignment on the column's stored value:
   * `+` adds the value's elements (a map's entries), `-` removes elements (a
   * map's keys); an assignment that does not fit the column leaves it.
   */
  function Apply(a: Assignment, current: Value): Value {
    match (a, current)
    case (Append(_, SetOf(e)), SetOf(cur)) => SetOf(cur + e)
    case (Append(_, MapOf(m)), MapOf(cur)) => MapOf(cur + m)
    case (Append(_, ListOf(xs)), ListOf(cur)) => ListOf(cur + xs)
    case (Append(_, Single(x)), ListOf(cur)) => ListOf(cur + [x])
    case (RemoveAll(_, es), SetOf(cur)) => SetOf(cur - es)
    case (RemoveAll(_, es), MapOf(cur)) => MapOf(cur - es)
    case (RemoveAll(_, es), ListOf(cur)) => ListOf(Without(cur, es))
    case (Remove(_, Single(x)), SetOf(cur)) => SetOf(cur - {x})
    case _ => current
  }

  lemma {:induction false} WithoutAppend(a: seq<Scalar>, b: seq<Scalar>, es: set<Scalar>)
    ensures Without(a + b, es) == Without(a, es) + Without(b, es)
    decreases |a|
  {
    if a != [] {
      assert (a + b)[1..] == a[1..] + b;
      WithoutAppend(a[1..], b, es);
    } else {
      assert a + b == b;
    }
  }

  lemma {:induction false} WithoutNone(xs: seq<Scalar>, es: set<Scalar>)
    requires forall x :: x in xs ==> x !in es
    ensures Without(xs, es) == xs
    decreases |xs|
  {
    if xs != [] {
      WithoutNone(xs[1..], es);
    }
  }

  lemma {:induction false} WithoutAll(xs: seq<Scalar>, es: set<Scalar>)
    requires forall x :: x in xs ==> x in es
    ensures Without(xs, es) == []
    decreases |xs|
  {
    if xs != [] {
      WithoutAll(xs[1..], es);
    }
  }

  /**
   * Eliminating what was appended restores a collection column, provided the
   * appended elements (a map's keys) were new to it: the removal policy
   * removes exactly what the append added, a list's repeated items included.
   */
  lemma EliminateUndoesAppend(name: string, v: Value, current: Value)
    requires || (v.SetOf? && current.SetOf? && current.elements !! v.elements)
             || (v.MapOf? && current.MapOf? && current.entries.Keys !! v.entries.Keys)
             || (v.ListOf? && current.ListOf? && forall x :: x in v.items ==> x !in current.items)
    ensures Apply(Assign(EliminateKind, name, v), Apply(Assign(AppendKind, name, v), current)) == current
  {
    match (v, current)
    case (SetOf(e), SetOf(cur)) =>
      assert (cur + e) - e == cur;
    case (MapOf(m), MapOf(cur)) =>
      assert (cur + m) - m.Keys == cur;
    case (ListOf(xs), ListOf(cur)) =>
      var es := set x | x in xs;
      WithoutAppend(cur, xs, es);
      WithoutNone(cur, es);
      WithoutAll(xs, es);
      assert cur + [] == cur;
    case _ =>
  }

  // ----- delete -----

  /** One equality per visited column, with the entry's value. */
  function ColumnEquals(cols: map<Key, Value>, ks: seq<Key>): seq<Clause>
    requires forall k :: k in ks ==> k in cols
  {
    seq(|ks|, i requires 0 <= i < |ks| => Compare(Format(ks[i]), Eq, cols[ks[i]]))
  }

  /** What `delete` stages for the row when its columns are visited in order `ks`. */
  function DeleteSpec(t: Table, row: Row, ks: seq<Key>): Result<Statement, Error>
    requires forall k :: k in ks ==> k in row.columns
  {
    if |row.columns| == 0 then
      match IdWhere(t, row.id)
      case Err(e) => Err(e)
      case Ok(where) => Ok(DeleteStmt(t.Name(), where))
    else
      Ok(DeleteStmt(t.Name(), ColumnEquals(row.columns, ks)))
  }

  /** `delete`'s statement: by id when the entry has no columns, else by its columns. */
  method BuildDelete(t: Table, row: Row) returns (r: Result<Statement, Error>)
    ensures exists ks :: IsOrderOf(ks, row.columns) && r == DeleteSpec(t, row, ks)
  {
    var ks := VisitOrder(row.columns);
    if |row.columns| == 0 {
      var where := BindId(t, row.id);
      if where.Err? {
        r := Err(where.error);
      } else {
        r := Ok(DeleteStmt(t.Name(), where.value));
      }
      assert r == DeleteSpec(t, row, ks);
      return;
    }
    var where: seq<Clause> := [];
    for i := 0 to |ks|
      invariant where == ColumnEquals(row.columns, ks[..i])
    {
      where := where + [Compare(Format(ks[i]), Eq, row.columns[ks[i]])];
    }
    assert ks[..|ks|] == ks;
    r := Ok(DeleteStmt(t.Name(), where));
    assert r == DeleteSpec(t, row, ks);
  }

  /**
   * An entry without columns is deleted by equality on every id column; an
   * entry with columns by equality on each of its columns, once each, and
   * its id plays no part.
   */
  lemma DeleteBindsIdOrColumns(t: Table, row: Row, ks: seq<Key>, other: Option<Id>)
    requires IsOrderOf(ks, row.columns)
    ensures |row.columns| == 0 ==>
              (DeleteSpec(t, row, ks).Ok? <==> row.id.Some? && !ArityMismatch(t, row.id.value))
    ensures |row.columns| == 0 && DeleteSpec(t, row, ks).Ok? ==>
              var s := DeleteSpec(t, row, ks).value;
              s.DeleteStmt? && s.table == t.Name() &&
              BindsPositionally(s.where, t.IdColumns(), t.IdColumnValue(row.id.value))
    ensures |row.columns| > 0 ==>
              DeleteSpec(t, row, ks) == DeleteSpec(t, row.(id := other), ks) &&
              DeleteSpec(t, row, ks).Ok? &&
              var s := DeleteSpec(t, row, ks).value;
              s.DeleteStmt? && s.table == t.Name() && |s.where| == |row.columns| &&
              (forall k :: k in row.columns ==> Compare(Format(k), Eq, row.columns[k]) in s.where) &&
              (forall i :: 0 <= i < |s.where| ==>
                 exists k :: k in row.columns && s.where[i] == Compare(Format(k), Eq, row.columns[k]))
  {
    OrderLength(ks, row.columns);
    var w := ColumnEquals(row.columns, ks);
    forall k | k in row.columns
      ensures Compare(Format(k), Eq, row.columns[k]) in w
    {
      var i :| 0 <= i < |ks| && ks[i] == k;
      assert w[i] == Compare(Format(k), Eq, row.columns[k]);
    }
    forall i | 0 <= i < |w|
      ensures exists k :: k in row.columns && w[i] == Compare(Format(k), Eq, row.columns[k])
    {
      assert ks[i] in row.columns;
    }
  }

  // ----- staging on the session -----

  /** `insert`: stage the insert of the whole row, or fail and stage nothing. */
  method BaseInsert(t: Table, session: Session, row: Row) returns (o: Outcome<Error>)
    modifies session
    ensures exists ks :: IsOrderOf(ks, row.columns) &&
              match InsertSpec(t, row, ks)
              case Err(e) => o == Fail(e) && session.batch == old(session.batch)
              case Ok(s) => o == Pass && session.batch == old(session.batch) + [s]
    ensures session.executed == old(session.executed) && session.schema == old(session.schema)
  {
    var r := BuildInsert(t, row);
    if r.Err? {
      return Fail(r.error);
    }
    session.Add(r.value);
    return Pass;
  }

  /** `append` (`kind == AppendKind`) or `eliminate`: stage the update, or fail and stage nothing. */
  method Update(t: Table, session: Session, kind: UpdateKind, row: Row) returns (o: Outcome<Error>)
    modifies session
    ensures exists ks :: IsOrderOf(ks, row.columns) &&
              match UpdateSpec(t, kind, row, ks)
              case Err(e) => o == Fail(e) && session.batch == old(session.batch)
              case Ok(s) => o == Pass && session.batch == old(session.batch) + [s]
    ensures session.executed == old(session.executed) && session.schema == old(session.schema)
  {
    var r := BuildUpdate(t, kind, row);
    if r.Err? {
      return Fail(r.error);
    }
    session.Add(r.value);
    return Pass;
  }

  /** `delete`: stage exactly one delete, or fail and stage nothing. */
  method BaseDelete(t: Table, session: Session, row: Row) returns (o: Outcome<Error>)
    modifies session
    ensures exists ks :: IsOrderOf(ks, row.columns) &&
              match DeleteSpec(t, row, ks)
              case Err(e) => o == Fail(e) && session.batch == old(session.batch)
              case Ok(s) => o == Pass && session.batch == old(session.batch) + [s]
    ensures session.executed == old(session.executed) && session.schema == old(session.schema)
  {
    var r := BuildDelete(t, row);
    if r.Err? {
      return Fail(r.error);
    }
    session.Add(r.value);
    return Pass;
  }
}
