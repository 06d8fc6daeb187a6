/**
 * Reading results back: `result2Entry` turns a driver row into an entry,
 * `results2Entries` converts every row and then lets the table merge them
 * (`mergeEntries`): the vertex table sets each entry's id from its ID column,
 * the edge table groups edge rows under one synthesised vertex per owner, and
 * every other table keeps the entries as they are.
 */
module Merge {
  import opened Wrappers
  import opened Keys
  import opened Values
  import opened Entries
  import opened Cql
  import opened Tables
  import opened Seqs

  /** A driver column with the key its name parses to. */
  datatype ParsedColumn = ParsedColumn(name: string, key: Option<Key>, value: Value)

  /**
   * The value `getObject` reads for column `i`'s name: the value of the first
   * column whose name matches it case-insensitively, which may be an earlier one.
   */
  function ColumnObject(cols: CqlRow, i: int): (v: Value)
    requires 0 <= i < |cols|
    ensures GetObject(cols, cols[i].0) == Some(v)
  {
    GetObject(cols, cols[i].0).value
  }

  /** Every column of a driver row with its name parsed by `parseKey` and its value read by name. */
  function ParseColumns(cols: CqlRow): (ps: seq<ParsedColumn>)
    ensures |ps| == |cols|
    ensures forall i :: 0 <= i < |cols| ==>
              ps[i].name == cols[i].0 && ps[i].key == ParseKey(cols[i].0) &&
              ps[i].value == ColumnObject(cols, i)
  {
    seq(|cols|, i requires 0 <= i < |cols| => ParsedColumn(cols[i].0, ParseKey(cols[i].0), ColumnObject(cols, i)))
  }

  /** Whether no later column names the same key as column `i`. */
  predicate LastForKey(ps: seq<ParsedColumn>, i: int)
    requires 0 <= i < |ps|
  {
    forall j :: i < j < |ps| ==> ps[j].key != ps[i].key
  }

  /**
   * The columns `result2Entry` collects: each parsed column put in turn (a
   * later column of the same key replacing an earlier one); the first column
   * whose name is no key fails.
   */
  function Collect(ps: seq<ParsedColumn>): (r: Result<map<Key, Value>, Error>)
    ensures r.Ok? <==> forall i :: 0 <= i < |ps| ==> ps[i].key.Some?
    ensures r.Err? ==> exists i :: 0 <= i < |ps| && ps[i].key.None? && r.error == UnknownColumn(ps[i].name)
                        && forall j :: 0 <= j < i ==> ps[j].key.Some?
    decreases |ps|
  {
    if ps == [] then Ok(map[])
    else
      var init := ps[..|ps| - 1];
      var last := ps[|ps| - 1];
      var m := Collect(init);
      assert forall i :: 0 <= i < |init| ==> init[i] == ps[i];
      if m.Err? then m
      else
        match last.key
        case None => Err(UnknownColumn(last.name))
        case Some(k) => Ok(m.value[k := last.value])
  }

  /** The columns of the entry `result2Entry` builds from a driver row. */
  function EntryColumns(cols: CqlRow): Result<map<Key, Value>, Error> {
    Collect(ParseColumns(cols))
  }

  /** One more column: the first unknown one fails the whole row, a known one is put. */
  lemma CollectStep(ps: seq<ParsedColumn>, i: nat)
    requires i < |ps| && Collect(ps[..i]).Ok?
    ensures ps[i].key.None? ==> Collect(ps) == Err(UnknownColumn(ps[i].name))
    ensures ps[i].key.Some? ==>
              Collect(ps[..i + 1]) == Ok(Collect(ps[..i]).value[ps[i].key.value := ps[i].value])
  {
    assert ps[..i + 1][..i] == ps[..i];
    if ps[i].key.None? {
      var r := Collect(ps);
      var j :| 0 <= j < |ps| && ps[j].key.None? && r.error == UnknownColumn(ps[j].name)
                && forall j' :: 0 <= j' < j ==> ps[j'].key.Some?;
      assert forall j' :: 0 <= j' < i ==> ps[..i][j'] == ps[j'];
      assert j == i;
    }
  }

  /** `result2Entry`: a new entry of the given kind, without id, holding the row's columns. */
  method Result2Entry(kind: HugeType, row: CqlRow) returns (r: Result<BackendEntry, Error>)
    ensures EntryColumns(row).Err? ==> r == Err(EntryColumns(row).error)
    ensures EntryColumns(row).Ok? ==> r == Ok(BackendEntry(Row(kind, None, EntryColumns(row).value), []))
  {
    ghost var ps := ParseColumns(row);
    var columns: map<Key, Value> := map[];
    for i := 0 to |row|
      invariant Collect(ps[..i]) == Ok(columns)
    {
      var name := row[i].0;
      var value := GetObject(row, name).value;
      var key := ParseKey(name);
      assert ps[i] == ParsedColumn(name, key, value);
      CollectStep(ps, i);
      if key.None? {
        return Err(UnknownColumn(name));
      }
      columns := columns[key.value := value];
    }
    assert ps[..|row|] == ps;
    return Ok(BackendEntry(Row(kind, None, columns), []));
  }

  /** The collected columns are exactly the keys the columns parse to. */
  lemma {:induction false} CollectKeys(ps: seq<ParsedColumn>)
    requires Collect(ps).Ok?
    ensures forall k :: k in Collect(ps).value <==> exists i :: 0 <= i < |ps| && ps[i].key == Some(k)
    decreases |ps|
  {
    if ps != [] {
      var n := |ps| - 1;
      var init := ps[..n];
      assert forall i :: 0 <= i < n ==> init[i] == ps[i];
      CollectKeys(init);
      var k0 := ps[n].key.value;
      assert Collect(ps).value == Collect(init).value[k0 := ps[n].value];
      forall k
        ensures k in Collect(ps).value <==> exists i :: 0 <= i < |ps| && ps[i].key == Some(k)
      {
        if k in Collect(ps).value && k != k0 {
          var i :| 0 <= i < n && init[i].key == Some(k);
          assert ps[i].key == Some(k);
        }
        if exists i :: 0 <= i < |ps| && ps[i].key == Some(k) {
          var i :| 0 <= i < |ps| && ps[i].key == Some(k);
          if i < n {
            assert init[i].key == Some(k);
          }
        }
      }
    }
  }

  /** A later column of the same key replaces an earlier one: each key holds its last column's value. */
  lemma {:induction false} CollectLastWins(ps: seq<ParsedColumn>, i: nat)
    requires Collect(ps).Ok? && i < |ps| && LastForKey(ps, i)
    ensures ps[i].key.value in Collect(ps).value
    ensures Collect(ps).value[ps[i].key.value] == ps[i].value
    decreases |ps|
  {
    var n := |ps| - 1;
    var init := ps[..n];
    assert Collect(ps).value == Collect(init).value[ps[n].key.value := ps[n].value];
    if i < n {
      assert init[i] == ps[i];
      assert LastForKey(init, i) by {
        forall j | i < j < |init|
          ensures init[j].key != init[i].key
        {
          assert init[j] == ps[j];
        }
      }
      CollectLastWins(init, i);
    }
  }

  /** When every column of a key carries the same value, the key collects to that value. */
  lemma {:induction false} CollectUniform(ps: seq<ParsedColumn>, k: Key, v: Value)
    requires Collect(ps).Ok? && k in Collect(ps).value
    requires forall j :: 0 <= j < |ps| && ps[j].key == Some(k) ==> ps[j].value == v
    ensures Collect(ps).value[k] == v
    decreases |ps|
  {
    var n := |ps| - 1;
    var init := ps[..n];
    assert forall j :: 0 <= j < n ==> init[j] == ps[j];
    assert Collect(ps).value == Collect(init).value[ps[n].key.value := ps[n].value];
    if ps[n].key != Some(k) {
      CollectUniform(init, k, v);
    }
  }

  /**
   * On a driver row, the first of several columns whose names parse to the
   * same key decides its value: `getObject` reads each of them from the first
   * column matching its name, so the later puts repeat the first value.
   */
  lemma EntryColumnsFirstWins(cols: CqlRow, i: nat)
    requires EntryColumns(cols).Ok? && i < |cols|
    requires forall j :: 0 <= j < i ==> ParseKey(cols[j].0) != ParseKey(cols[i].0)
    ensures ParseKey(cols[i].0).Some? && ParseKey(cols[i].0).value in EntryColumns(cols).value
    ensures EntryColumns(cols).value[ParseKey(cols[i].0).value] == cols[i].1
  {
    var ps := ParseColumns(cols);
    assert ps[i].key.Some?;
    var k := ps[i].key.value;
    ParseKeyMeaning(cols[i].0, k);
    forall j | 0 <= j < |ps| && ps[j].key == Some(k)
      ensures ps[j].value == cols[i].1
    {
      ParseKeyMeaning(cols[j].0, k);
      assert FirstMatch(cols, cols[j].0, i);
    }
    CollectKeys(ps);
    CollectUniform(ps, k, cols[i].1);
  }

  /** Columns of distinct keys collect to exactly those keys, each with its column's value. */
  lemma {:induction false} CollectDistinct(ps: seq<ParsedColumn>, ks: seq<Key>, vs: seq<Value>)
    requires |ks| == |vs| == |ps| && Distinct(ks)
    requires forall i :: 0 <= i < |ps| ==> ps[i].key == Some(ks[i]) && ps[i].value == vs[i]
    ensures Collect(ps).Ok?
    ensures forall k :: k in Collect(ps).value <==> k in ks
    ensures forall i :: 0 <= i < |ks| ==> Collect(ps).value[ks[i]] == vs[i]
  {
    CollectKeys(ps);
    forall i | 0 <= i < |ps|
      ensures Collect(ps).value[ks[i]] == vs[i]
    {
      assert LastForKey(ps, i) by {
        forall j | i < j < |ps|
          ensures ps[j].key != ps[i].key
        {
          assert ks[i] != ks[j];
        }
      }
      CollectLastWins(ps, i);
    }
    forall k
      ensures k in Collect(ps).value <==> k in ks
    {
      if k in Collect(ps).value {
        var i :| 0 <= i < |ps| && ps[i].key == Some(k);
        assert ks[i] == k;
      }
      if k in ks {
        var i :| 0 <= i < |ks| && ks[i] == k;
        assert ps[i].key == Some(k);
      }
    }
  }

  /**
   * Cassandra reports column names in lower case: a row whose columns are the
   * lower-cased names of distinct keys reads back as exactly those keys with
   * their values.
   */
  lemma ParseLowerCasedColumns(ks: seq<Key>, vs: seq<Value>, cols: CqlRow)
    requires |ks| == |vs| == |cols| && Distinct(ks)
    requires forall i :: 0 <= i < |cols| ==> cols[i] == (ToLower(Format(ks[i])), vs[i])
    ensures EntryColumns(cols).Ok?
    ensures forall k :: k in EntryColumns(cols).value <==> k in ks
    ensures forall i :: 0 <= i < |ks| ==> EntryColumns(cols).value[ks[i]] == vs[i]
  {
    var ps := ParseColumns(cols);
    forall a: Key, b: Key | Format(a) == Format(b)
      ensures a == b
    {
      FormatInjective(a, b);
    }
    forall i | 0 <= i < |cols|
      ensures ps[i].key == Some(ks[i]) && ps[i].value == vs[i]
    {
      ParseFormatted(ks[i]);
      ParseKeyMeaning(cols[i].0, ks[i]);
      forall j | 0 <= j < i
        ensures ToUpper(cols[j].0) != ToUpper(cols[i].0)
      {
        ParseFormatted(ks[j]);
        ParseKeyMeaning(cols[j].0, ks[j]);
      }
      assert FirstMatch(cols, cols[i].0, i);
    }
    CollectDistinct(ps, ks, vs);
  }

  // ----- Vertex.mergeEntries -----

  /** The text of an entry's ID column, the vertex id as a string. */
  function VertexIdText(e: BackendEntry): Option<string> {
    TextColumn(e.row, Key.Id)
  }

  /**
   * What `Vertex.mergeEntries` returns: the same entries in the same order,
   * each with its id set from its own ID column; an entry without one fails.
   */
  function VertexIdsAssigned(entries: seq<BackendEntry>): (r: Result<seq<BackendEntry>, Error>)
    ensures r.Err? <==> exists i :: 0 <= i < |entries| && VertexIdText(entries[i]).None?
    ensures r.Err? ==> r.error == MissingColumn(Format(Key.Id))
    ensures r.Ok? ==> |r.value| == |entries| && forall i :: 0 <= i < |entries| ==>
                        && r.value[i].row.id.Some?
                        && AsString(r.value[i].row.id.value) == VertexIdText(entries[i]).value
                        && r.value[i].row.kind == entries[i].row.kind
                        && r.value[i].row.columns == entries[i].row.columns
                        && r.value[i].subRows == entries[i].subRows
  {
    if exists i :: 0 <= i < |entries| && VertexIdText(entries[i]).None?
    then Err(MissingColumn(Format(Key.Id)))
    else Ok(seq(|entries|, i requires 0 <= i < |entries| =>
                  entries[i].(row := entries[i].row.(id := Some(IdOf(VertexIdText(entries[i]).value))))))
  }

  /** `Vertex.mergeEntries`: set every entry's id from its ID column, in order. */
  method VertexMergeEntries(entries: seq<BackendEntry>) returns (r: Result<seq<BackendEntry>, Error>)
    ensures r == VertexIdsAssigned(entries)
  {
    var merged: seq<BackendEntry> := [];
    for i := 0 to |entries|
      invariant |merged| == i
      invariant forall k :: 0 <= k < i ==> VertexIdText(entries[k]).Some?
      invariant forall k :: 0 <= k < i ==>
                  merged[k] == entries[k].(row := entries[k].row.(id := Some(IdOf(VertexIdText(entries[k]).value))))
    {
      var entry := entries[i];
      var id := VertexIdText(entry);
      if id.None? {
        return Err(MissingColumn(Format(Key.Id)));
      }
      merged := merged + [entry.(row := entry.row.(id := Some(IdOf(id.value))))];
    }
    assert !exists i :: 0 <= i < |entries| && VertexIdText(entries[i]).None?;
    assert merged == VertexIdsAssigned(entries).value;
    return Ok(merged);
  }

  // ----- Edge.mergeEntries -----

  /** The text of an edge entry's OWNER_VERTEX column. */
  function OwnerOf(e: BackendEntry): Option<string> {
    TextColumn(e.row, OwnerVertex)
  }

  /** The distinct owners of the entries, in order of first appearance. */
  function Owners(es: seq<BackendEntry>): (r: seq<string>)
    ensures Distinct(r)
    decreases |es|
  {
    if es == [] then []
    else
      var owners := Owners(es[..|es| - 1]);
      match OwnerOf(es[|es| - 1])
      case None => owners
      case Some(o) => if o in owners then owners else owners + [o]
  }

  /** The owners are exactly the owners of the entries that have one. */
  lemma {:induction false} OwnersMembers(es: seq<BackendEntry>)
    ensures forall i :: 0 <= i < |es| && OwnerOf(es[i]).Some? ==> OwnerOf(es[i]).value in Owners(es)
    ensures forall o :: o in Owners(es) ==> exists i :: 0 <= i < |es| && OwnerOf(es[i]) == Some(o)
    decreases |es|
  {
    if es != [] {
      var init := es[..|es| - 1];
      OwnersMembers(init);
      assert forall i :: 0 <= i < |init| ==> init[i] == es[i];
    }
  }

  /** The rows of the entries owned by `o`, in order. */
  function RowsOf(es: seq<BackendEntry>, o: string): (r: seq<Row>)
    ensures |r| <= |es|
    decreases |es|
  {
    if es == [] then []
    else
      var init := RowsOf(es[..|es| - 1], o);
      if OwnerOf(es[|es| - 1]) == Some(o) then init + [es[|es| - 1].row] else init
  }

  /** The vertex entry that gathers the edges owned by `o`. */
  function VertexFor(es: seq<BackendEntry>, o: string): BackendEntry {
    BackendEntry(
      Row(VertexType, Some(IdOf(o)), map[Key.Id := TextValue(o), Properties := MapOf(map[])]),
      RowsOf(es, o))
  }

  /** One vertex per distinct owner, in order of first appearance. */
  function MergedVertices(es: seq<BackendEntry>): seq<BackendEntry> {
    MapSeq(o => VertexFor(es, o), Owners(es))
  }

  /** What `Edge.mergeEntries` returns, up to order; an entry without an owner fails. */
  function EdgesGrouped(es: seq<BackendEntry>): Result<seq<BackendEntry>, Error> {
    if exists i :: 0 <= i < |es| && OwnerOf(es[i]).None?
    then Err(MissingColumn(Format(OwnerVertex)))
    else Ok(MergedVertices(es))
  }

  /** Adding an owned entry adds its owner, if new, and its row to that owner's rows. */
  lemma OwnersStep(es: seq<BackendEntry>, x: BackendEntry, o: string, next: seq<BackendEntry>)
    requires OwnerOf(x) == Some(o) && next == es + [x]
    ensures Owners(next) == if o in Owners(es) then Owners(es) else Owners(es) + [o]
  {
    assert next[..|es|] == es;
  }

  /** Adding an owned entry appends its row to that owner's rows and to no other. */
  lemma RowsStep(es: seq<BackendEntry>, x: BackendEntry, o: string, next: seq<BackendEntry>)
    requires OwnerOf(x) == Some(o) && next == es + [x]
    ensures forall o' :: RowsOf(next, o') == if o' == o then RowsOf(es, o') + [x.row] else RowsOf(es, o')
  {
    assert next[..|es|] == es;
  }

  /** The vertex map after some entries: one vertex per owner seen, keyed by the owner's id. */
  ghost predicate GroupsSoFar(vertices: map<Id, BackendEntry>, es: seq<BackendEntry>) {
    && |vertices| == |Owners(es)|
    && (forall o :: IdOf(o) in vertices <==> o in Owners(es))
    && (forall id :: id in vertices ==> |id| == 1 && id[0] in Owners(es))
    && (forall o :: o in Owners(es) ==> vertices[IdOf(o)] == VertexFor(es, o))
  }

  /** One step of the grouping loop: create the owner's vertex if new, then add the row to it. */
  function AddToGroup(vertices: map<Id, BackendEntry>, x: BackendEntry, o: string): map<Id, BackendEntry>
    requires OwnerOf(x) == Some(o)
  {
    var id := IdOf(o);
    var vs := if id in vertices then vertices
              else vertices[id := BackendEntry(
                     Row(VertexType, Some(id), map[Key.Id := x.row.columns[OwnerVertex], Properties := MapOf(map[])]),
                     [])];
    vs[id := vs[id].(subRows := vs[id].subRows + [x.row])]
  }

  lemma GroupStepSize(vertices: map<Id, BackendEntry>, es: seq<BackendEntry>, x: BackendEntry, o: string,
                      next: seq<BackendEntry>)
    requires GroupsSoFar(vertices, es) && OwnerOf(x) == Some(o) && next == es + [x]
    ensures |AddToGroup(vertices, x, o)| == |Owners(next)|
  {
    OwnersStep(es, x, o, next);
    var r := AddToGroup(vertices, x, o);
    if o !in Owners(es) {
      assert IdOf(o) !in vertices;
      assert |r| == |vertices| + 1;
    } else {
      assert r.Keys == vertices.Keys;
    }
  }

  /** A step adds the owner's id to the map's keys and no other. */
  lemma AddToGroupKeys(vertices: map<Id, BackendEntry>, x: BackendEntry, o: string)
    requires OwnerOf(x) == Some(o)
    ensures AddToGroup(vertices, x, o).Keys == vertices.Keys + {IdOf(o)}
  {
  }

  /** After a step the map is keyed by the ids of the owners seen, and by nothing else. */
  lemma GroupStepKeys(vertices: map<Id, BackendEntry>, es: seq<BackendEntry>, x: BackendEntry, o: string,
                      next: seq<BackendEntry>)
    requires OwnerOf(x) == Some(o) && next == es + [x]
    requires forall p :: IdOf(p) in vertices <==> p in Owners(es)
    requires forall id :: id in vertices ==> |id| == 1 && id[0] in Owners(es)
    ensures forall p :: IdOf(p) in AddToGroup(vertices, x, o) <==> p in Owners(next)
    ensures forall id :: id in AddToGroup(vertices, x, o) ==> |id| == 1 && id[0] in Owners(next)
  {
    OwnersStep(es, x, o, next);
    AddToGroupKeys(vertices, x, o);
    var keys := AddToGroup(vertices, x, o).Keys;
    forall p
      ensures IdOf(p) in keys <==> p in Owners(next)
    {
      assert p in Owners(next) <==> p in Owners(es) || p == o;
      assert IdOf(p) == IdOf(o) <==> p == o;
    }
    forall id | id in keys
      ensures |id| == 1 && id[0] in Owners(next)
    {
      if id != IdOf(o) {
        assert id in vertices;
      }
    }
  }

  /** The owner's vertex after a step holds its earlier rows and then the new one. */
  lemma GroupStepOwner(vertices: map<Id, BackendEntry>, es: seq<BackendEntry>, x: BackendEntry, o: string,
                       next: seq<BackendEntry>)
    requires OwnerOf(x) == Some(o) && next == es + [x]
    requires IdOf(o) in vertices <==> o in Owners(es)
    requires o in Owners(es) ==> vertices[IdOf(o)] == VertexFor(es, o)
    ensures AddToGroup(vertices, x, o)[IdOf(o)] == VertexFor(next, o)
  {
    OwnersStep(es, x, o, next);
    RowsStep(es, x, o, next);
    if o !in Owners(es) {
      RowsOfStranger(es, o);
    }
  }

  /** The other owners' vertices are untouched by a step. */
  lemma GroupStepOthers(vertices: map<Id, BackendEntry>, es: seq<BackendEntry>, x: BackendEntry, o: string,
                        next: seq<BackendEntry>)
    requires OwnerOf(x) == Some(o) && next == es + [x]
    requires forall p :: p in Owners(es) ==> IdOf(p) in vertices && vertices[IdOf(p)] == VertexFor(es, p)
    ensures forall p :: p in Owners(next) && p != o ==> AddToGroup(vertices, x, o)[IdOf(p)] == VertexFor(next, p)
  {
    OwnersStep(es, x, o, next);
    RowsStep(es, x, o, next);
    forall p | p in Owners(next) && p != o
      ensures AddToGroup(vertices, x, o)[IdOf(p)] == VertexFor(next, p)
    {
      assert IdOf(p) != IdOf(o);
    }
  }

  lemma GroupStepVertices(vertices: map<Id, BackendEntry>, es: seq<BackendEntry>, x: BackendEntry, o: string,
                          next: seq<BackendEntry>)
    requires GroupsSoFar(vertices, es) && OwnerOf(x) == Some(o) && next == es + [x]
    ensures forall p :: p in Owners(next) ==> AddToGroup(vertices, x, o)[IdOf(p)] == VertexFor(next, p)
  {
    GroupStepOwner(vertices, es, x, o, next);
    GroupStepOthers(vertices, es, x, o, next);
  }

  /** One step of the grouping loop, on any map that groups the entries before it. */
  lemma GroupStep(vertices: map<Id, BackendEntry>, es: seq<BackendEntry>, x: BackendEntry, o: string,
                  next: seq<BackendEntry>)
    requires GroupsSoFar(vertices, es) && OwnerOf(x) == Some(o) && next == es + [x]
    ensures GroupsSoFar(AddToGroup(vertices, x, o), next)
  {
    GroupStepSize(vertices, es, x, o, next);
    GroupStepKeys(vertices, es, x, o, next);
    GroupStepVertices(vertices, es, x, o, next);
  }

  /** The vertex map after grouping every entry in order. */
  function Grouping(es: seq<BackendEntry>): map<Id, BackendEntry>
    requires forall i :: 0 <= i < |es| ==> OwnerOf(es[i]).Some?
    decreases |es|
  {
    if es == [] then map[]
    else
      var init := es[..|es| - 1];
      assert forall i :: 0 <= i < |init| ==> init[i] == es[i];
      AddToGroup(Grouping(init), es[|es| - 1], OwnerOf(es[|es| - 1]).value)
  }

  /** Grouping the entries gives one vertex per owner, holding exactly that owner's rows. */
  lemma {:induction false} GroupingGroups(es: seq<BackendEntry>)
    requires forall i :: 0 <= i < |es| ==> OwnerOf(es[i]).Some?
    ensures GroupsSoFar(Grouping(es), es)
    decreases |es|
  {
    if es != [] {
      var init := es[..|es| - 1];
      assert forall i :: 0 <= i < |init| ==> init[i] == es[i];
      GroupingGroups(init);
      var x := es[|es| - 1];
      SplitLast(es);
      GroupStep(Grouping(init), init, x, OwnerOf(x).value, es);
    }
  }

  /** The first loop of `Edge.mergeEntries`: group every entry under its owner's vertex. */
  method GroupByOwner(entries: seq<BackendEntry>) returns (r: Result<map<Id, BackendEntry>, Error>)
    ensures r.Err? <==> exists i :: 0 <= i < |entries| && OwnerOf(entries[i]).None?
    ensures r.Err? ==> r.error == MissingColumn(Format(OwnerVertex))
    ensures r.Ok? ==> (forall i :: 0 <= i < |entries| ==> OwnerOf(entries[i]).Some?)
                      && r.value == Grouping(entries)
  {
    var vertices: map<Id, BackendEntry> := map[];
    for i := 0 to |entries|
      invariant forall k :: 0 <= k < i ==> OwnerOf(entries[k]).Some?
      invariant vertices == Grouping(entries[..i])
    {
      var entry := entries[i];
      var owner := OwnerOf(entry);
      if owner.None? {
        return Err(MissingColumn(Format(OwnerVertex)));
      }
      assert entries[..i + 1][..i] == entries[..i];
      ghost var next := AddToGroup(vertices, entry, owner.value);
      var srcVertexId := IdOf(owner.value);
      if srcVertexId !in vertices {
        var vertex := BackendEntry(
          Row(VertexType, Some(srcVertexId),
              map[Key.Id := entry.row.columns[OwnerVertex], Properties := MapOf(map[])]),
          []);
        vertices := vertices[srcVertexId := vertex];
      }
      var v := vertices[srcVertexId];
      vertices := vertices[srcVertexId := v.(subRows := v.subRows + [entry.row])];
      assert vertices == next;
    }
    assert entries[..|entries|] == entries;
    return Ok(vertices);
  }

  /** `vertices.values()`: the map's values in an unspecified order, with the keys they came from. */
  method MapValues<K, V>(m: map<K, V>) returns (vs: seq<V>, ghost ks: seq<K>)
    ensures Distinct(ks) && |ks| == |m| && (forall k :: k in ks <==> k in m)
    ensures |vs| == |ks| && forall j :: 0 <= j < |ks| ==> vs[j] == m[ks[j]]
  {
    var remaining := m.Keys;
    vs, ks := [], [];
    while remaining != {}
      invariant remaining <= m.Keys
      invariant Distinct(ks) && |ks| + |remaining| == |m|
      invariant forall k :: k in ks <==> k in m && k !in remaining
      invariant |vs| == |ks| && forall j :: 0 <= j < |ks| ==> vs[j] == m[ks[j]]
      decreases |remaining|
    {
      var k :| k in remaining;
      vs, ks := vs + [m[k]], ks + [k];
      remaining := remaining - {k};
    }
  }

  /**
   * `Edge.mergeEntries`: one vertex per distinct owner, holding every edge row
   * of that owner in input order, returned in the hash map's order.
   */
  method EdgeMergeEntries(entries: seq<BackendEntry>) returns (r: Result<seq<BackendEntry>, Error>)
    ensures EdgesGrouped(entries).Err? ==> r == EdgesGrouped(entries)
    ensures EdgesGrouped(entries).Ok? ==> r.Ok? && multiset(r.value) == multiset(EdgesGrouped(entries).value)
  {
    var grouped := GroupByOwner(entries);
    if grouped.Err? {
      return Err(grouped.error);
    }
    var vertices := grouped.value;
    GroupingGroups(entries);
    ghost var keys;
    var values;
    values, keys := MapValues(vertices);
    ValuesAreMergedVertices(entries, vertices, values, keys);
    return Ok(values);
  }

  /** The owners behind distinct one-part vertex ids are distinct. */
  lemma OwnerIdsDistinct(ks: seq<Id>, os: seq<string>)
    requires |os| == |ks| && Distinct(ks)
    requires forall j :: 0 <= j < |ks| ==> ks[j] == IdOf(os[j])
    ensures Distinct(os)
  {
    forall i, j | 0 <= i < j < |os|
      ensures os[i] != os[j]
    {
      assert ks[i] != ks[j];
    }
  }

  /** The owners behind every key of the vertex map are exactly the owners grouped. */
  lemma OwnerIdsCover(vertices: map<Id, BackendEntry>, ks: seq<Id>, os: seq<string>, owners: seq<string>)
    requires forall k :: k in ks <==> k in vertices
    requires forall o :: IdOf(o) in vertices <==> o in owners
    requires |os| == |ks| && forall j :: 0 <= j < |ks| ==> ks[j] == IdOf(os[j])
    ensures forall o :: o in os <==> o in owners
  {
    forall o
      ensures o in os <==> o in owners
    {
      if o in os {
        var j :| 0 <= j < |os| && os[j] == o;
        assert ks[j] in vertices;
      }
      if o in owners {
        assert IdOf(o) in ks;
        var j :| 0 <= j < |ks| && ks[j] == IdOf(o);
        assert os[j] == o;
      }
    }
  }

  /** The map's values, read in key order, are the owners' vertices in the same order. */
  lemma OwnerIdsValues(es: seq<BackendEntry>, vertices: map<Id, BackendEntry>,
                       vs: seq<BackendEntry>, ks: seq<Id>, os: seq<string>)
    requires forall o :: o in os ==> IdOf(o) in vertices && vertices[IdOf(o)] == VertexFor(es, o)
    requires |os| == |ks| == |vs|
    requires forall j :: 0 <= j < |ks| ==> ks[j] == IdOf(os[j]) && vs[j] == vertices[ks[j]]
    ensures vs == MapSeq(o => VertexFor(es, o), os)
  {
    forall j | 0 <= j < |vs|
      ensures vs[j] == VertexFor(es, os[j])
    {
      assert os[j] in os;
    }
  }

  /** The values of the grouped map, in any order, are the merged vertices up to order. */
  lemma ValuesAreMergedVertices(es: seq<BackendEntry>, vertices: map<Id, BackendEntry>,
                                vs: seq<BackendEntry>, ks: seq<Id>)
    requires GroupsSoFar(vertices, es)
    requires Distinct(ks) && |ks| == |vertices| && (forall k :: k in ks <==> k in vertices)
    requires |vs| == |ks| && forall j :: 0 <= j < |ks| ==> vs[j] == vertices[ks[j]]
    ensures multiset(vs) == multiset(MergedVertices(es))
  {
    var owners := Owners(es);
    var os := seq(|ks|, j requires 0 <= j < |ks| => ks[j][0]);
    forall j | 0 <= j < |ks|
      ensures ks[j] == IdOf(os[j])
    {
      assert ks[j] in vertices;
    }
    OwnerIdsDistinct(ks, os);
    OwnerIdsCover(vertices, ks, os, owners);
    DistinctSameElements(os, owners);
    OwnerIdsValues(es, vertices, vs, ks, os);
    MapPermutation(o => VertexFor(es, o), os, owners);
  }

  // ----- properties of the edge grouping -----

  /** An owner's rows are those of the entries it owns: none for a stranger. */
  lemma {:induction false} RowsOfStranger(es: seq<BackendEntry>, o: string)
    requires o !in Owners(es)
    ensures RowsOf(es, o) == []
    decreases |es|
  {
    if es != [] {
      var init := es[..|es| - 1];
      assert forall i :: 0 <= i < |init| ==> init[i] == es[i];
      RowsOfStranger(init, o);
    }
  }

  /** Every input row lands in the vertex of its owner. */
  lemma {:induction false} RowInItsOwnersVertex(es: seq<BackendEntry>, i: nat)
    requires i < |es| && OwnerOf(es[i]).Some?
    ensures es[i].row in RowsOf(es, OwnerOf(es[i]).value)
    decreases |es|
  {
    var init := es[..|es| - 1];
    if i < |es| - 1 {
      assert init[i] == es[i];
      RowInItsOwnersVertex(init, i);
    }
  }

  /** The total number of sub-rows of some entries. */
  function SubRowCount(vs: seq<BackendEntry>): int {
    Sum(MapSeq((v: BackendEntry) => |v.subRows|, vs))
  }

  /** Adding 1 at one element of a duplicate-free sequence adds 1 to the sum over it. */
  lemma {:induction false} SumBump(os: seq<string>, o: string, g: string -> int, g': string -> int)
    requires Distinct(os) && o in os
    requires forall x :: g'(x) == if x == o then g(x) + 1 else g(x)
    ensures Sum(MapSeq(g', os)) == Sum(MapSeq(g, os)) + 1
    decreases |os|
  {
    var init := os[..|os| - 1];
    var last := os[|os| - 1];
    assert MapSeq(g', os)[..|os| - 1] == MapSeq(g', init);
    assert MapSeq(g, os)[..|os| - 1] == MapSeq(g, init);
    if last == o {
      assert o !in init;
      assert MapSeq(g', init) == MapSeq(g, init);
    } else {
      assert o in init;
      SumBump(init, o, g, g');
    }
  }

  /** The merged vertices' sub-rows count, owner by owner, the rows each owner owns. */
  lemma MergedCounts(es: seq<BackendEntry>, g: string -> int)
    requires forall p :: g(p) == |RowsOf(es, p)|
    ensures SubRowCount(MergedVertices(es)) == Sum(MapSeq(g, Owners(es)))
  {
    assert MapSeq((v: BackendEntry) => |v.subRows|, MergedVertices(es)) == MapSeq(g, Owners(es));
  }

  /** Adding a new element worth 1 adds 1 to the sum over a sequence. */
  lemma SumNew(os: seq<string>, o: string, g: string -> int, g': string -> int)
    requires o !in os && g(o) == 0
    requires forall x :: g'(x) == if x == o then g(x) + 1 else g(x)
    ensures Sum(MapSeq(g', os + [o])) == Sum(MapSeq(g, os)) + 1
  {
    assert MapSeq(g', os) == MapSeq(g, os);
    MapAppend(g', os, [o]);
    SumAppend(MapSeq(g', os), [g'(o)]);
    assert [g'(o)][..0] == [];
  }

  /** One more owned entry adds one sub-row to the merged vertices. */
  lemma CountStep(init: seq<BackendEntry>, x: BackendEntry, o: string, es: seq<BackendEntry>)
    requires OwnerOf(x) == Some(o) && es == init + [x]
    ensures SubRowCount(MergedVertices(es)) == SubRowCount(MergedVertices(init)) + 1
  {
    OwnersStep(init, x, o, es);
    RowsStep(init, x, o, es);
    var g := (p: string) => |RowsOf(init, p)|;
    var g' := (p: string) => |RowsOf(es, p)|;
    MergedCounts(init, g);
    MergedCounts(es, g');
    if o in Owners(init) {
      SumBump(Owners(init), o, g, g');
    } else {
      RowsOfStranger(init, o);
      SumNew(Owners(init), o, g, g');
    }
  }

  /** Grouping loses no row: the vertices' sub-rows add up to the number of entries. */
  lemma {:induction false} GroupingKeepsEveryRow(es: seq<BackendEntry>)
    requires forall i :: 0 <= i < |es| ==> OwnerOf(es[i]).Some?
    ensures SubRowCount(MergedVertices(es)) == |es|
    decreases |es|
  {
    if es != [] {
      var init := es[..|es| - 1];
      var x := es[|es| - 1];
      assert forall i :: 0 <= i < |init| ==> init[i] == es[i];
      GroupingKeepsEveryRow(init);
      SplitLast(es);
      CountStep(init, x, OwnerOf(x).value, es);
    }
  }

  /** Whatever order the map yields, the merged vertices hold every input row. */
  lemma MergeKeepsEveryRow(es: seq<BackendEntry>, vs: seq<BackendEntry>)
    requires EdgesGrouped(es).Ok? && multiset(vs) == multiset(EdgesGrouped(es).value)
    ensures SubRowCount(vs) == |es|
    ensures |vs| == |Owners(es)|
  {
    GroupingKeepsEveryRow(es);
    var size := (v: BackendEntry) => |v.subRows|;
    MapPermutation(size, vs, MergedVertices(es));
    SumPermutation(MapSeq(size, vs), MapSeq(size, MergedVertices(es)));
    assert |vs| == |multiset(vs)|;
  }

  /** Three edges of two owners: two vertices, the first holding the first and last edge. */
  lemma TwoOwnersExample(r1: Row, r2: Row, r3: Row)
    requires r1.columns == map[OwnerVertex := TextValue("A")]
    requires r2.columns == map[OwnerVertex := TextValue("B")]
    requires r3.columns == map[OwnerVertex := TextValue("A")]
    ensures var es := [BackendEntry(r1, []), BackendEntry(r2, []), BackendEntry(r3, [])];
      EdgesGrouped(es) == Ok([VertexFor(es, "A"), VertexFor(es, "B")])
      && VertexFor(es, "A").subRows == [r1, r3] && VertexFor(es, "B").subRows == [r2]
  {
    var e1, e2, e3 := BackendEntry(r1, []), BackendEntry(r2, []), BackendEntry(r3, []);
    assert OwnerOf(e1) == Some("A") && OwnerOf(e2) == Some("B") && OwnerOf(e3) == Some("A");
    var es := [e1, e2, e3];
    assert Owners(es) == ["A", "B"] by {
      OwnersStep([], e1, "A", [e1]);
      OwnersStep([e1], e2, "B", [e1, e2]);
      OwnersStep([e1, e2], e3, "A", es);
    }
    assert RowsOf(es, "A") == [r1, r3] && RowsOf(es, "B") == [r2] by {
      RowsStep([], e1, "A", [e1]);
      RowsStep([e1], e2, "B", [e1, e2]);
      RowsStep([e1, e2], e3, "A", es);
    }
    assert forall i :: 0 <= i < |es| ==> OwnerOf(es[i]).Some?;
    assert MergedVertices(es) == [VertexFor(es, "A"), VertexFor(es, "B")];
  }

  // ----- results2Entries -----

  /** The columns of each driver row, in order. */
  function RowColumns(rows: seq<CqlRow>): (cs: seq<Result<map<Key, Value>, Error>>)
    ensures |cs| == |rows| && forall i :: 0 <= i < |rows| ==> cs[i] == EntryColumns(rows[i])
  {
    seq(|rows|, i requires 0 <= i < |rows| => EntryColumns(rows[i]))
  }

  /** One entry per row's columns, in order; the first row that failed fails the whole. */
  function Assemble(kind: HugeType, cs: seq<Result<map<Key, Value>, Error>>): Result<seq<BackendEntry>, Error>
    decreases |cs|
  {
    if cs == [] then Ok([])
    else
      var front := cs[..|cs| - 1];
      match Assemble(kind, front)
      case Err(e) => Err(e)
      case Ok(init) =>
        match cs[|cs| - 1]
        case Err(e) => Err(e)
        case Ok(cols) => Ok(init + [BackendEntry(Row(kind, None, cols), [])])
  }

  /**
   * Assembling succeeds exactly when every row's columns do, with one entry
   * per row in order; otherwise it fails with the first row's error.
   */
  lemma {:induction false} AssembleMeaning(kind: HugeType, cs: seq<Result<map<Key, Value>, Error>>)
    ensures var r := Assemble(kind, cs);
            (r.Ok? <==> forall i :: 0 <= i < |cs| ==> cs[i].Ok?) &&
            (r.Ok? ==> |r.value| == |cs| && forall i :: 0 <= i < |cs| ==>
               r.value[i] == BackendEntry(Row(kind, None, cs[i].value), [])) &&
            (r.Err? ==> exists i :: 0 <= i < |cs| && cs[i] == Err(r.error) && forall j :: 0 <= j < i ==> cs[j].Ok?)
    decreases |cs|
  {
    if cs != [] {
      var front := cs[..|cs| - 1];
      AssembleMeaning(kind, front);
      assert forall i :: 0 <= i < |front| ==> front[i] == cs[i];
    }
  }

  /** Once a prefix has failed, the whole fails with the same error. */
  lemma {:induction false} AssemblePrefixError(kind: HugeType, cs: seq<Result<map<Key, Value>, Error>>, j: nat)
    requires j <= |cs| && Assemble(kind, cs[..j]).Err?
    ensures Assemble(kind, cs) == Assemble(kind, cs[..j])
    decreases |cs| - j
  {
    if j < |cs| {
      assert cs[..j + 1][..j] == cs[..j];
      AssemblePrefixError(kind, cs, j + 1);
    } else {
      assert cs[..j] == cs;
    }
  }

  /** One more row's columns: a failed one fails the whole, a good one adds its entry. */
  lemma AssembleStep(kind: HugeType, cs: seq<Result<map<Key, Value>, Error>>, i: nat)
    requires i < |cs| && Assemble(kind, cs[..i]).Ok?
    ensures cs[i].Err? ==> Assemble(kind, cs) == Err(cs[i].error)
    ensures cs[i].Ok? ==> Assemble(kind, cs[..i + 1])
                          == Ok(Assemble(kind, cs[..i]).value + [BackendEntry(Row(kind, None, cs[i].value), [])])
  {
    assert cs[..i + 1][..i] == cs[..i];
    if cs[i].Err? {
      AssemblePrefixError(kind, cs, i + 1);
    }
  }

  /** The entries `result2Entry` makes of all rows, in order; the first row with an unknown column fails. */
  function EntriesOf(kind: HugeType, rows: seq<CqlRow>): Result<seq<BackendEntry>, Error> {
    Assemble(kind, RowColumns(rows))
  }

  /** What the table's `mergeEntries` returns (the edge table's up to order). */
  function MergeSpec(t: Table, es: seq<BackendEntry>): Result<seq<BackendEntry>, Error> {
    match t
    case VertexTable => VertexIdsAssigned(es)
    case EdgeTable => EdgesGrouped(es)
    case _ => Ok(es)
  }

  /** `mergeEntries`, dispatched on the table. */
  method MergeEntries(t: Table, es: seq<BackendEntry>) returns (r: Result<seq<BackendEntry>, Error>)
    ensures MergeSpec(t, es).Err? ==> r == MergeSpec(t, es)
    ensures MergeSpec(t, es).Ok? ==> r.Ok? && multiset(r.value) == multiset(MergeSpec(t, es).value)
    ensures t != EdgeTable ==> r == MergeSpec(t, es)
  {
    match t
    case VertexTable => r := VertexMergeEntries(es);
    case EdgeTable => r := EdgeMergeEntries(es);
    case _ => r := Ok(es);
  }

  /** What `results2Entries` returns: every row converted, then merged by the table. */
  function Results2EntriesSpec(t: Table, kind: HugeType, rows: seq<CqlRow>): Result<seq<BackendEntry>, Error> {
    var es :- EntriesOf(kind, rows);
    MergeSpec(t, es)
  }

  /** `results2Entries`: convert each row with `result2Entry`, then merge. */
  method Results2Entries(t: Table, kind: HugeType, rows: seq<CqlRow>) returns (r: Result<seq<BackendEntry>, Error>)
    ensures Results2EntriesSpec(t, kind, rows).Err? ==> r == Results2EntriesSpec(t, kind, rows)
    ensures Results2EntriesSpec(t, kind, rows).Ok? ==>
              r.Ok? && multiset(r.value) == multiset(Results2EntriesSpec(t, kind, rows).value)
    ensures t != EdgeTable ==> r == Results2EntriesSpec(t, kind, rows)
  {
    var entries := ConvertRows(kind, rows);
    if entries.Err? {
      return Err(entries.error);
    }
    r := MergeEntries(t, entries.value);
  }

  /** The loop of `results2Entries` that converts each row in turn. */
  method ConvertRows(kind: HugeType, rows: seq<CqlRow>) returns (r: Result<seq<BackendEntry>, Error>)
    ensures r == EntriesOf(kind, rows)
  {
    ghost var cs := RowColumns(rows);
    var entries: seq<BackendEntry> := [];
    for i := 0 to |rows|
      invariant Assemble(kind, cs[..i]) == Ok(entries)
    {
      var entry := Result2Entry(kind, rows[i]);
      AssembleStep(kind, cs, i);
      if entry.Err? {
        return Err(entry.error);
      }
      entries := entries + [entry.value];
    }
    assert cs[..|rows|] == cs;
    return Ok(entries);
  }
}
