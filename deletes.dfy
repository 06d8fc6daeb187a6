/**
 * The writes the tables of `CassandraTables` override: the index tables
 * refuse inserts, the edge table deletes all edges of a label by scanning
 * for them first, the secondary index table deletes an index label by
 * scanning its rows, and the search index table deletes an index label's
 * partition at once. Every other write is the base one of `Mutations`.
 */
module TableWrites {
  import opened Wrappers
  import opened Values
  import opened Keys
  import opened Entries
  import opened Cql
  import opened Tables
  import opened Sessions
  import opened Mutations

  /**
   * What a write did: the selects it executed, the statements it staged (in
   * order) and the error that stopped it, if any. Statements staged before a
   * failure stay staged.
   */
  datatype Staged = Staged(scans: seq<Select>, stmts: seq<Statement>, error: Option<Error>)

  /** The outcome a write reports for the error that stopped it. */
  function OutcomeOf(error: Option<Error>): Outcome<Error> {
    if error.None? then Pass else Fail(error.value)
  }

  /** A write that stages one statement, or fails and stages nothing. */
  function StageOne(r: Result<Statement, Error>): Staged {
    match r
    case Ok(s) => Staged([], [s], None)
    case Err(e) => Staged([], [], Some(e))
  }

  // ----- scan-then-delete -----

  /** The two scans that find the rows to delete. */
  datatype ScanKind =
      /** `Edge.deleteEdgesByLabel`: all edges of a label. */
    | EdgesOfLabel(edgeLabel: string)
      /** `SecondaryIndex.delete`: all index rows of an index label. */
    | IndexesOfLabel(indexLabel: string)

  /** The select a scan executes. */
  function ScanSelect(k: ScanKind): Select {
    match k
    case EdgesOfLabel(l) => Select(EdgeTable.Name(), None, [], [EqText(Format(Label), l)], false)
    case IndexesOfLabel(l) => Select(SecondaryIndexTable.Name(), None, [], [EqText(Format(IndexLabelName), l)], true)
  }

  /** The error a driver failure on the scan is reported as. */
  function ScanFailure(k: ScanKind): Error {
    match k
    case EdgesOfLabel(l) => DeleteScanFailed(EdgeTable.Name(), l)
    case IndexesOfLabel(l) => DeleteScanFailed(SecondaryIndexTable.Name(), l)
  }

  /**
   * The delete one scanned row calls for. An edge row must carry the label
   * scanned for (the source asserts it) and is deleted by its owner vertex,
   * direction and label; an index row is deleted by the index label and its
   * field values.
   */
  function RowDelete(k: ScanKind, row: CqlRow): (r: Result<Statement, Error>)
    ensures k.EdgesOfLabel? ==>
              (r.Ok? <==> RowText(row, Format(Label)) == Some(k.edgeLabel) &&
                          RowText(row, Format(OwnerVertex)).Some? && RowText(row, Format(Key.Direction)).Some?)
    ensures k.IndexesOfLabel? ==> (r.Ok? <==> RowText(row, Format(FieldValues)).Some?)
    ensures k.EdgesOfLabel? && RowText(row, Format(Label)) != Some(k.edgeLabel) ==> r.Err? && r.error.IsAssertion()
    ensures r.Err? ==> r.error.AssertionFailed? || r.error.MissingColumn?
    ensures r.Ok? ==>
              r.value.DeleteStmt? &&
              r.value.table == (if k.EdgesOfLabel? then EdgeTable.Name() else SecondaryIndexTable.Name())
    ensures r.Ok? && k.EdgesOfLabel? ==> EqText(Format(Label), k.edgeLabel) in r.value.where
    ensures r.Ok? && k.IndexesOfLabel? ==> EqText(Format(IndexLabelName), k.indexLabel) in r.value.where
  {
    match k
    case EdgesOfLabel(l) =>
      if RowText(row, Format(Label)) != Some(l) then Err(AssertionFailed("row label"))
      else (
        match RowText(row, Format(OwnerVertex))
        case None => Err(MissingColumn(Format(OwnerVertex)))
        case Some(owner) => (
          match RowText(row, Format(Key.Direction))
          case None => Err(MissingColumn(Format(Key.Direction)))
          case Some(dir) =>
            Ok(DeleteStmt(EdgeTable.Name(),
                          [EqText(Format(OwnerVertex), owner), EqText(Format(Key.Direction), dir),
                           EqText(Format(Label), l)]))))
    case IndexesOfLabel(l) =>
      match RowText(row, Format(FieldValues))
      case None => Err(MissingColumn(Format(FieldValues)))
      case Some(fv) =>
        Ok(DeleteStmt(SecondaryIndexTable.Name(),
                      [EqText(Format(IndexLabelName), l), EqText(Format(FieldValues), fv)]))
  }

  /**
   * The staging of a sequence of deletes, each possibly failing: staged in
   * order until the first failure, whose error stops the staging.
   */
  function Stage(ds: seq<Result<Statement, Error>>): (r: Staged)
    ensures r.scans == []
    ensures |r.stmts| <= |ds|
    ensures forall i :: 0 <= i < |r.stmts| ==> ds[i] == Ok(r.stmts[i])
    ensures r.error.None? <==> forall i :: 0 <= i < |ds| ==> ds[i].Ok?
    ensures r.error.None? ==> |r.stmts| == |ds|
    ensures r.error.Some? ==> |r.stmts| < |ds| && ds[|r.stmts|] == Err(r.error.value)
    decreases |ds|
  {
    if ds == [] then Staged([], [], None)
    else
      var init := ds[..|ds| - 1];
      assert forall i :: 0 <= i < |init| ==> init[i] == ds[i];
      var prev := Stage(init);
      if prev.error.Some? then prev
      else
        match ds[|ds| - 1]
        case Err(e) => Staged([], prev.stmts, Some(e))
        case Ok(s) => Staged([], prev.stmts + [s], None)
  }

  /** The delete each scanned row calls for, in order. */
  function RowDeletes(k: ScanKind, rows: seq<CqlRow>): (ds: seq<Result<Statement, Error>>)
    ensures |ds| == |rows| && forall i :: 0 <= i < |rows| ==> ds[i] == RowDelete(k, rows[i])
  {
    seq(|rows|, i requires 0 <= i < |rows| => RowDelete(k, rows[i]))
  }

  /**
   * The deletes staged for the scanned rows: one per row, in order, until a
   * row fails, whose error stops the scan.
   */
  function StageRows(k: ScanKind, rows: seq<CqlRow>): (r: Staged)
    ensures r.scans == []
    ensures |r.stmts| <= |rows|
    ensures forall i :: 0 <= i < |r.stmts| ==> RowDelete(k, rows[i]) == Ok(r.stmts[i])
    ensures r.error.None? <==> forall i :: 0 <= i < |rows| ==> RowDelete(k, rows[i]).Ok?
    ensures r.error.None? ==> |r.stmts| == |rows|
    ensures r.error.Some? ==> |r.stmts| < |rows| && RowDelete(k, rows[|r.stmts|]) == Err(r.error.value)
  {
    Stage(RowDeletes(k, rows))
  }

  /** What a scan-then-delete does: execute the scan, then stage the rows' deletes. */
  function ScanOutcome(k: ScanKind, store: Select -> Option<seq<CqlRow>>): Staged {
    match store(ScanSelect(k))
    case None => Staged([ScanSelect(k)], [], Some(ScanFailure(k)))
    case Some(rows) =>
      var st := StageRows(k, rows);
      Staged([ScanSelect(k)], st.stmts, st.error)
  }

  lemma {:induction false} StagePrefixError(ds: seq<Result<Statement, Error>>, j: nat)
    requires j <= |ds| && Stage(ds[..j]).error.Some?
    ensures Stage(ds) == Stage(ds[..j])
    decreases |ds| - j
  {
    if j < |ds| {
      assert ds[..j + 1][..j] == ds[..j];
      StagePrefixError(ds, j + 1);
    } else {
      assert ds[..j] == ds;
    }
  }

  /** One more delete: its failure stops the staging, its statement extends it. */
  lemma StageStep(ds: seq<Result<Statement, Error>>, i: nat)
    requires i < |ds| && Stage(ds[..i]).error.None?
    ensures ds[i].Err? ==> Stage(ds) == Staged([], Stage(ds[..i]).stmts, Some(ds[i].error))
    ensures ds[i].Ok? ==> Stage(ds[..i + 1]) == Staged([], Stage(ds[..i]).stmts + [ds[i].value], None)
  {
    assert ds[..i + 1][..i] == ds[..i];
    if ds[i].Err? {
      StagePrefixError(ds, i + 1);
    }
  }

  /** The loop over the scanned rows: stage each row's delete, stop at the first failing row. */
  method StageScanned(session: Session, k: ScanKind, rows: seq<CqlRow>) returns (o: Outcome<Error>)
    modifies session
    ensures session.batch == old(session.batch) + StageRows(k, rows).stmts
    ensures o == OutcomeOf(StageRows(k, rows).error)
    ensures session.executed == old(session.executed) && session.schema == old(session.schema)
  {
    ghost var ds := RowDeletes(k, rows);
    for i := 0 to |rows|
      invariant Stage(ds[..i]).error.None?
      invariant session.batch == old(session.batch) + Stage(ds[..i]).stmts
      invariant session.executed == old(session.executed) && session.schema == old(session.schema)
    {
      StageStep(ds, i);
      var d := RowDelete(k, rows[i]);
      assert d == ds[i];
      if d.Err? {
        return Fail(d.error);
      }
      session.Add(d.value);
    }
    assert ds[..|rows|] == ds;
    return Pass;
  }

  /** `deleteEdgesByLabel` and the scan of `SecondaryIndex.delete`: select, then delete each row. */
  method ScanThenDelete(session: Session, k: ScanKind) returns (o: Outcome<Error>)
    modifies session
    ensures var st := ScanOutcome(k, session.store);
            session.executed == old(session.executed) + st.scans &&
            session.batch == old(session.batch) + st.stmts && o == OutcomeOf(st.error)
    ensures session.schema == old(session.schema)
  {
    var rows := session.Execute(ScanSelect(k));
    if rows.None? {
      return Fail(ScanFailure(k));
    }
    o := StageScanned(session, k, rows.value);
  }

  // ----- the index tables' preconditions -----

  /**
   * `entry.column(key)` read into a `String`: absent is null, a text value
   * is the string, any other value fails the cast.
   */
  function StringColumn(row: Row, k: Key): Result<Option<string>, Error> {
    if k !in row.columns then Ok(None)
    else if row.columns[k].Single? && row.columns[k].x.Text? then Ok(Some(row.columns[k].x.s))
    else Err(ClassCast("String"))
  }

  /**
   * The index label an index delete is for: the entry must not carry field
   * values (checked first) and must carry a non-empty index label name.
   */
  function IndexDeleteLabel(t: Table, row: Row): (r: Result<string, Error>)
    ensures r.Ok? <==> FieldValues !in row.columns && TextColumn(row, IndexLabelName).Some?
                       && TextColumn(row, IndexLabelName).value != ""
    ensures r.Ok? ==> r.value == TextColumn(row, IndexLabelName).value
    ensures TextColumn(row, FieldValues).Some? ==> r == Err(IndexDeleteHasFieldValues(t.Name()))
    ensures FieldValues !in row.columns && IndexLabelName !in row.columns ==> r == Err(IndexDeleteNeedsLabel(t.Name()))
  {
    match StringColumn(row, FieldValues)
    case Err(e) => Err(e)
    case Ok(Some(_)) => Err(IndexDeleteHasFieldValues(t.Name()))
    case Ok(None) =>
      match StringColumn(row, IndexLabelName)
      case Err(e) => Err(e)
      case Ok(None) => Err(IndexDeleteNeedsLabel(t.Name()))
      case Ok(Some(name)) => if name == "" then Err(IndexDeleteNeedsLabel(t.Name())) else Ok(name)
  }

  // ----- what each table's delete does -----

  /** The effect of `delete` on table `t` with the entry's columns visited in order `ks`. */
  function DeleteOutcome(t: Table, row: Row, ks: seq<Key>, store: Select -> Option<seq<CqlRow>>): Staged
    requires forall k :: k in ks ==> k in row.columns
  {
    match t
    case EdgeTable =>
      if row.id.None? then Staged([], [], Some(NullId))
      else
        var parts := EdgeIdParts(row.id.value, Out);
        if |parts| > 1 || |row.columns| > 0 then StageOne(DeleteSpec(t, row, ks))
        else ScanOutcome(EdgesOfLabel(row.id.value[0]), store)
    case SecondaryIndexTable => (
      match IndexDeleteLabel(t, row)
      case Err(e) => Staged([], [], Some(e))
      case Ok(name) => ScanOutcome(IndexesOfLabel(name), store))
    case SearchIndexTable => (
      match IndexDeleteLabel(t, row)
      case Err(e) => Staged([], [], Some(e))
      case Ok(name) => Staged([], [DeleteStmt(t.Name(), [EqText(Format(IndexLabelName), name)])], None))
    case _ => StageOne(DeleteSpec(t, row, ks))
  }

  /** `Edge.delete`: the base delete, unless the id is a single part and there are no columns. */
  method EdgeDelete(session: Session, row: Row) returns (o: Outcome<Error>)
    modifies session
    ensures exists ks :: IsOrderOf(ks, row.columns) &&
              var st := DeleteOutcome(EdgeTable, row, ks, session.store);
              session.executed == old(session.executed) + st.scans &&
              session.batch == old(session.batch) + st.stmts && o == OutcomeOf(st.error)
    ensures session.schema == old(session.schema)
  {
    var ks := VisitOrder(row.columns);
    if row.id.None? {
      return Fail(NullId);
    }
    var idParts := EdgeIdColumnValue(row.id.value, Out);
    if |idParts| > 1 || |row.columns| > 0 {
      o := BaseDelete(EdgeTable, session, row);
      return;
    }
    o := ScanThenDelete(session, EdgesOfLabel(idParts[0]));
    assert DeleteOutcome(EdgeTable, row, ks, session.store) == ScanOutcome(EdgesOfLabel(idParts[0]), session.store);
  }

  /** `SecondaryIndex.delete`: check the entry, then delete every row of its index label. */
  method SecondaryIndexDelete(session: Session, row: Row) returns (o: Outcome<Error>)
    modifies session
    ensures forall ks :: IsOrderOf(ks, row.columns) ==>
              var st := DeleteOutcome(SecondaryIndexTable, row, ks, session.store);
              session.executed == old(session.executed) + st.scans &&
              session.batch == old(session.batch) + st.stmts && o == OutcomeOf(st.error)
    ensures session.schema == old(session.schema)
  {
    var name := IndexDeleteLabel(SecondaryIndexTable, row);
    if name.Err? {
      return Fail(name.error);
    }
    o := ScanThenDelete(session, IndexesOfLabel(name.value));
  }

  /** `SearchIndex.delete`: check the entry, then delete its index label's partition. */
  method SearchIndexDelete(session: Session, row: Row) returns (o: Outcome<Error>)
    modifies session
    ensures forall ks :: IsOrderOf(ks, row.columns) ==>
              var st := DeleteOutcome(SearchIndexTable, row, ks, session.store);
              session.executed == old(session.executed) + st.scans &&
              session.batch == old(session.batch) + st.stmts && o == OutcomeOf(st.error)
    ensures session.schema == old(session.schema)
  {
    var name := IndexDeleteLabel(SearchIndexTable, row);
    if name.Err? {
      return Fail(name.error);
    }
    session.Add(DeleteStmt(SearchIndexTable.Name(), [EqText(Format(IndexLabelName), name.value)]));
    return Pass;
  }

  /** `delete` on table `t`, dispatched to the table's override. */
  method Delete(t: Table, session: Session, row: Row) returns (o: Outcome<Error>)
    modifies session
    ensures exists ks :: IsOrderOf(ks, row.columns) &&
              var st := DeleteOutcome(t, row, ks, session.store);
              session.executed == old(session.executed) + st.scans &&
              session.batch == old(session.batch) + st.stmts && o == OutcomeOf(st.error)
    ensures session.schema == old(session.schema)
  {
    match t
    case EdgeTable =>
      o := EdgeDelete(session, row);
    case SecondaryIndexTable =>
      var ks := VisitOrder(row.columns);
      o := SecondaryIndexDelete(session, row);
      assert IsOrderOf(ks, row.columns);
    case SearchIndexTable =>
      var ks := VisitOrder(row.columns);
      o := SearchIndexDelete(session, row);
      assert IsOrderOf(ks, row.columns);
    case _ =>
      o := BaseDelete(t, session, row);
  }

  /** `insert` on table `t`: the index tables refuse it and stage nothing. */
  method Insert(t: Table, session: Session, row: Row) returns (o: Outcome<Error>)
    modifies session
    ensures t.IsIndex() ==> o == Fail(InsertNotSupported(t.Name())) && session.batch == old(session.batch)
    ensures !t.IsIndex() ==>
              exists ks :: IsOrderOf(ks, row.columns) &&
                var st := StageOne(InsertSpec(t, row, ks));
                session.batch == old(session.batch) + st.stmts && o == OutcomeOf(st.error)
    ensures session.executed == old(session.executed) && session.schema == old(session.schema)
  {
    if t.IsIndex() {
      return Fail(InsertNotSupported(t.Name()));
    }
    o := BaseInsert(t, session, row);
  }

  // ----- properties of the overrides -----

  /** The edge table scans exactly when the id is a single part (a label) and the entry has no columns. */
  lemma EdgeDeleteScansOnlyForLabel(row: Row, ks: seq<Key>, store: Select -> Option<seq<CqlRow>>)
    requires IsOrderOf(ks, row.columns)
    ensures DeleteOutcome(EdgeTable, row, ks, store).scans != []
            <==> row.id.Some? && |row.id.value| == 1 && |row.columns| == 0
    ensures row.id.Some? && !(|row.id.value| == 1 && |row.columns| == 0) ==>
              DeleteOutcome(EdgeTable, row, ks, store) == StageOne(DeleteSpec(EdgeTable, row, ks))
    ensures row.id.None? ==> DeleteOutcome(EdgeTable, row, ks, store) == Staged([], [], Some(NullId))
  {
    if row.id.Some? {
      var p := row.id.value;
      assert |EdgeIdParts(p, Out)| == (if |p| == 4 then 5 else |p|);
    }
  }

  /**
   * Deleting edges by label executes one select on the label. A driver
   * failure stages nothing; otherwise every returned row of the label yields
   * one delete, in order, keyed by that row's owner vertex and direction
   * and the label.
   */
  lemma DeleteByLabelOnePerRow(row: Row, ks: seq<Key>, store: Select -> Option<seq<CqlRow>>, l: string)
    requires IsOrderOf(ks, row.columns) && row.id == Some([l]) && |row.columns| == 0
    ensures var st := DeleteOutcome(EdgeTable, row, ks, store);
            var scan := Select(EdgeTable.Name(), None, [], [EqText(Format(Label), l)], false);
            st.scans == [scan] &&
            (store(scan).None? ==> st.stmts == [] && st.error == Some(DeleteScanFailed(EdgeTable.Name(), l))) &&
            (store(scan).Some? &&
             (forall r :: r in store(scan).value ==>
                RowText(r, Format(Label)) == Some(l) &&
                RowText(r, Format(OwnerVertex)).Some? && RowText(r, Format(Key.Direction)).Some?) ==>
               st.error.None? && |st.stmts| == |store(scan).value| &&
               forall i :: 0 <= i < |st.stmts| ==>
                 var r := store(scan).value[i];
                 st.stmts[i] == DeleteStmt(EdgeTable.Name(),
                                  [EqText(Format(OwnerVertex), RowText(r, Format(OwnerVertex)).value),
                                   EqText(Format(Key.Direction), RowText(r, Format(Key.Direction)).value),
                                   EqText(Format(Label), l)]))
  {
    assert EdgeIdParts([l], Out) == [l];
    var scan := Select(EdgeTable.Name(), None, [], [EqText(Format(Label), l)], false);
    assert DeleteOutcome(EdgeTable, row, ks, store) == ScanOutcome(EdgesOfLabel(l), store);
    if store(scan).Some? {
      var rows := store(scan).value;
      var st := StageRows(EdgesOfLabel(l), rows);
      if forall r :: r in rows ==>
           RowText(r, Format(Label)) == Some(l) &&
           RowText(r, Format(OwnerVertex)).Some? && RowText(r, Format(Key.Direction)).Some? {
        forall i | 0 <= i < |rows|
          ensures RowDelete(EdgesOfLabel(l), rows[i]).Ok?
        {
          assert rows[i] in rows;
        }
        forall i | 0 <= i < |st.stmts|
          ensures st.stmts[i] == DeleteStmt(EdgeTable.Name(),
                                   [EqText(Format(OwnerVertex), RowText(rows[i], Format(OwnerVertex)).value),
                                    EqText(Format(Key.Direction), RowText(rows[i], Format(Key.Direction)).value),
                                    EqText(Format(Label), l)])
        {
          assert rows[i] in rows;
          assert RowDelete(EdgesOfLabel(l), rows[i]) == Ok(st.stmts[i]);
        }
      }
    }
  }

  /**
   * An index delete checks the entry before anything else: field values
   * present fail first, a missing or empty index label fails next, and a
   * failed check neither scans nor stages.
   */
  lemma IndexDeleteChecksFirst(t: Table, row: Row, ks: seq<Key>, store: Select -> Option<seq<CqlRow>>)
    requires t.IsIndex() && IsOrderOf(ks, row.columns)
    ensures TextColumn(row, FieldValues).Some? ==>
              DeleteOutcome(t, row, ks, store) == Staged([], [], Some(IndexDeleteHasFieldValues(t.Name())))
    ensures FieldValues !in row.columns && (TextColumn(row, IndexLabelName) == Some("") || IndexLabelName !in row.columns) ==>
              DeleteOutcome(t, row, ks, store) == Staged([], [], Some(IndexDeleteNeedsLabel(t.Name())))
    ensures DeleteOutcome(t, row, ks, store).scans != [] ==> IndexDeleteLabel(t, row).Ok?
  {
  }

  /**
   * A secondary index delete of a label selects the label's rows with
   * filtering allowed, then stages one delete per row, keyed by the label and
   * that row's field values.
   */
  lemma SecondaryIndexDeleteOnePerRow(row: Row, ks: seq<Key>, store: Select -> Option<seq<CqlRow>>, l: string)
    requires IsOrderOf(ks, row.columns) && FieldValues !in row.columns
    requires TextColumn(row, IndexLabelName) == Some(l) && l != ""
    ensures var st := DeleteOutcome(SecondaryIndexTable, row, ks, store);
            var scan := Select(SecondaryIndexTable.Name(), None, [], [EqText(Format(IndexLabelName), l)], true);
            st.scans == [scan] &&
            (store(scan).None? ==> st.stmts == [] && st.error == Some(DeleteScanFailed(SecondaryIndexTable.Name(), l))) &&
            (store(scan).Some? && (forall r :: r in store(scan).value ==> RowText(r, Format(FieldValues)).Some?) ==>
               st.error.None? && |st.stmts| == |store(scan).value| &&
               forall i :: 0 <= i < |st.stmts| ==>
                 st.stmts[i] == DeleteStmt(SecondaryIndexTable.Name(),
                                  [EqText(Format(IndexLabelName), l),
                                   EqText(Format(FieldValues), RowText(store(scan).value[i], Format(FieldValues)).value)]))
  {
    var scan := Select(SecondaryIndexTable.Name(), None, [], [EqText(Format(IndexLabelName), l)], true);
    assert DeleteOutcome(SecondaryIndexTable, row, ks, store) == ScanOutcome(IndexesOfLabel(l), store);
    if store(scan).Some? {
      var rows := store(scan).value;
      var st := StageRows(IndexesOfLabel(l), rows);
      if forall r :: r in rows ==> RowText(r, Format(FieldValues)).Some? {
        forall i | 0 <= i < |rows|
          ensures RowDelete(IndexesOfLabel(l), rows[i]).Ok?
        {
          assert rows[i] in rows;
        }
      }
    }
  }

  /** A search index delete of a label stages exactly one delete, keyed by the label alone, and selects nothing. */
  lemma SearchIndexDeleteOne(row: Row, ks: seq<Key>, store: Select -> Option<seq<CqlRow>>, l: string)
    requires IsOrderOf(ks, row.columns) && FieldValues !in row.columns
    requires TextColumn(row, IndexLabelName) == Some(l) && l != ""
    ensures DeleteOutcome(SearchIndexTable, row, ks, store)
         == Staged([], [DeleteStmt(SearchIndexTable.Name(), [EqText(Format(IndexLabelName), l)])], None)
  {
  }
}

