/**
 * The schema statements a table executes: `createTable`, which writes a
 * CREATE TABLE statement with the columns, their types and the primary key
 * (partition keys, then clustering keys), in four overloads, and
 * `createIndex`, which writes a CREATE INDEX statement on one column.
 */
module Schema {
  import opened Wrappers
  import opened Keys
  import opened Cql
  import opened Tables
  import opened Sessions

  /** The column types the tables declare, as CQL renders them. */
  datatype ColumnType = TextType | DecimalType | SetOfText | MapOfText {
    function Render(): string {
      match this
      case TextType => "text"
      case DecimalType => "decimal"
      case SetOfText => "set<text>"
      case MapOfText => "map<text, text>"
    }
  }

  /** The formatted names of the keys, in order. */
  function Names(ks: seq<Key>): (names: seq<string>)
    ensures |names| == |ks| && forall i :: 0 <= i < |ks| ==> names[i] == Format(ks[i])
  {
    seq(|ks|, i requires 0 <= i < |ks| => Format(ks[i]))
  }

  lemma NamesSnoc(ks: seq<Key>)
    requires ks != []
    ensures Names(ks) == Names(ks[..|ks| - 1]) + [Format(ks[|ks| - 1])]
  {
    var n := |ks| - 1;
    var a, b := Names(ks), Names(ks[..n]) + [Format(ks[n])];
    assert |a| == |b|;
    forall i | 0 <= i < |a|
      ensures a[i] == b[i]
    {
      if i < n {
        assert ks[..n][i] == ks[i];
      }
    }
  }

  // ----- CREATE TABLE -----

  /** `<column> <type>, ` for each column, in order. */
  function ColumnDecls(columns: seq<Key>, types: seq<ColumnType>): string
    requires |columns| == |types|
    decreases |columns|
  {
    if columns == [] then ""
    else
      var n := |columns| - 1;
      ColumnDecls(columns[..n], types[..n]) + Format(columns[n]) + " " + types[n].Render() + ", "
  }

  /**
   * The partition keys as the loop writes them: a separator before each key
   * that is not the first key (compared by identity, so a repeat of the first
   * key is written without one).
   */
  function PartitionList(pKeys: seq<Key>, first: Key): string
    decreases |pKeys|
  {
    if pKeys == [] then ""
    else
      var k := pKeys[|pKeys| - 1];
      PartitionList(pKeys[..|pKeys| - 1], first) + (if k != first then ", " else "") + Format(k)
  }

  lemma PartitionListStep(pKeys: seq<Key>, i: nat)
    requires i < |pKeys|
    ensures PartitionList(pKeys[..i + 1], pKeys[0])
         == PartitionList(pKeys[..i], pKeys[0]) + (if pKeys[i] != pKeys[0] then ", " else "") + Format(pKeys[i])
  {
    assert pKeys[..i + 1][..i] == pKeys[..i];
  }

  /** `, <key>` for each clustering key, in order. */
  function ClusterList(cKeys: seq<Key>): string
    decreases |cKeys|
  {
    if cKeys == [] then ""
    else ClusterList(cKeys[..|cKeys| - 1]) + ", " + Format(cKeys[|cKeys| - 1])
  }

  /** The partition keys in their parentheses, as `createTable` writes them. */
  function PartitionText(pKeys: seq<Key>): string {
    "(" + (if pKeys == [] then "" else PartitionList(pKeys, pKeys[0])) + ")"
  }

  /** The PRIMARY KEY clause: the partition keys, then the clustering keys. */
  function KeyClause(pKeys: seq<Key>, cKeys: seq<Key>): string {
    "PRIMARY KEY (" + PartitionText(pKeys) + ClusterList(cKeys) + ")"
  }

  /** The CREATE TABLE statement `createTable` writes. */
  function CreateTableDdl(table: string, columns: seq<Key>, types: seq<ColumnType>, pKeys: seq<Key>, cKeys: seq<Key>): string
    requires |columns| == |types|
  {
    "CREATE TABLE IF NOT EXISTS " + table + "(" + ColumnDecls(columns, types) + KeyClause(pKeys, cKeys) + ");"
  }

  /** The loop that declares each column with its type. */
  method AppendColumns(columns: seq<Key>, types: seq<ColumnType>) returns (sb: string)
    requires |columns| == |types|
    ensures sb == ColumnDecls(columns, types)
  {
    sb := "";
    for i := 0 to |columns|
      invariant sb == ColumnDecls(columns[..i], types[..i])
    {
      assert columns[..i + 1][..i] == columns[..i] && types[..i + 1][..i] == types[..i];
      sb := sb + Format(columns[i]) + " " + types[i].Render() + ", ";
    }
    assert columns[..|columns|] == columns && types[..|types|] == types;
  }

  /** The loop that writes the partition keys, a separator before each one but the first key. */
  method AppendPartitionKeys(pKeys: seq<Key>) returns (sb: string)
    ensures sb == PartitionText(pKeys)
  {
    if pKeys == [] {
      return "()";
    }
    var list := PartitionLoop(pKeys);
    sb := "(" + list + ")";
  }

  method PartitionLoop(pKeys: seq<Key>) returns (list: string)
    requires pKeys != []
    ensures list == PartitionList(pKeys, pKeys[0])
  {
    list := "";
    for i := 0 to |pKeys|
      invariant list == PartitionList(pKeys[..i], pKeys[0])
    {
      PartitionListStep(pKeys, i);
      var sep := if pKeys[i] != pKeys[0] then ", " else "";
      list := list + sep + Format(pKeys[i]);
    }
    assert pKeys[..|pKeys|] == pKeys;
  }

  /** The loop that writes `, <key>` for each clustering key. */
  method AppendClusteringKeys(cKeys: seq<Key>) returns (sb: string)
    ensures sb == ClusterList(cKeys)
  {
    sb := "";
    for i := 0 to |cKeys|
      invariant sb == ClusterList(cKeys[..i])
    {
      assert cKeys[..i + 1][..i] == cKeys[..i];
      sb := sb + ", " + Format(cKeys[i]);
    }
    assert cKeys[..|cKeys|] == cKeys;
  }

  /** The string builder of `createTable`: columns, partition keys, clustering keys. */
  method BuildCreateTable(table: string, columns: seq<Key>, types: seq<ColumnType>, pKeys: seq<Key>, cKeys: seq<Key>)
    returns (r: Result<string, Error>)
    ensures |columns| != |types| ==> r == Err(AssertionFailed("column types"))
    ensures |columns| == |types| ==> r == Ok(CreateTableDdl(table, columns, types, pKeys, cKeys))
  {
    if |columns| != |types| {
      return Err(AssertionFailed("column types"));
    }
    var decls := AppendColumns(columns, types);
    var partition := AppendPartitionKeys(pKeys);
    var clustering := AppendClusteringKeys(cKeys);
    var sb := "CREATE TABLE IF NOT EXISTS " + table + "(" + decls;
    sb := sb + ("PRIMARY KEY (" + partition + clustering + ")");
    sb := sb + ");";
    return Ok(sb);
  }

  /** A column type for each of `n` columns, all text: the array the text overloads fill. */
  method TextTypes(n: nat) returns (types: seq<ColumnType>)
    ensures |types| == n && forall i :: 0 <= i < n ==> types[i] == TextType
  {
    var a := new ColumnType[n];
    for i := 0 to n
      invariant forall j :: 0 <= j < i ==> a[j] == TextType
    {
      a[i] := TextType;
    }
    types := a[..];
  }

  /** The first primary key as the only partition key, the rest as clustering keys. */
  function SplitPrimaryKeys(primaryKeys: seq<Key>): (r: Result<(seq<Key>, seq<Key>), Error>)
    ensures r.Ok? <==> primaryKeys != []
    ensures r.Ok? ==> r.value.0 + r.value.1 == primaryKeys && |r.value.0| == 1
  {
    if primaryKeys == [] then Err(AssertionFailed("primary keys"))
    else Ok(([primaryKeys[0]], primaryKeys[1..]))
  }

  /**
   * `createTable(columns, columnTypes, pKeys, cKeys)`: send the statement, or
   * fail before it; the driver's refusal of the statement is a failure too.
   */
  method CreateTable(t: Table, session: Session, columns: seq<Key>, types: seq<ColumnType>, pKeys: seq<Key>, cKeys: seq<Key>)
    returns (o: Outcome<Error>)
    modifies session
    ensures |columns| != |types| ==> o == Fail(AssertionFailed("column types")) && session.schema == old(session.schema)
    ensures |columns| == |types| ==>
              var ddl := CreateTableDdl(t.Name(), columns, types, pKeys, cKeys);
              session.schema == old(session.schema) + [ddl] &&
              o == if session.accepts(ddl) then Pass else Fail(DriverFailure)
    ensures session.batch == old(session.batch) && session.executed == old(session.executed)
  {
    var ddl := BuildCreateTable(t.Name(), columns, types, pKeys, cKeys);
    if ddl.Err? {
      return Fail(ddl.error);
    }
    var ok := session.ExecuteSchema(ddl.value);
    if !ok {
      return Fail(DriverFailure);
    }
    return Pass;
  }

  /** `createTable(columns, pKeys, cKeys)`: every column of type text. */
  method CreateTextTable(t: Table, session: Session, columns: seq<Key>, pKeys: seq<Key>, cKeys: seq<Key>)
    returns (o: Outcome<Error>)
    modifies session
    ensures exists types :: |types| == |columns| && (forall i :: 0 <= i < |types| ==> types[i] == TextType) &&
              var ddl := CreateTableDdl(t.Name(), columns, types, pKeys, cKeys);
              session.schema == old(session.schema) + [ddl] &&
              o == if session.accepts(ddl) then Pass else Fail(DriverFailure)
    ensures session.batch == old(session.batch) && session.executed == old(session.executed)
  {
    var types := TextTypes(|columns|);
    o := CreateTable(t, session, columns, types, pKeys, cKeys);
  }

  /** `createTable(columns, columnTypes, primaryKeys)`: the first primary key partitions, the rest cluster. */
  method CreateTableByPrimaryKeys(t: Table, session: Session, columns: seq<Key>, types: seq<ColumnType>, primaryKeys: seq<Key>)
    returns (o: Outcome<Error>)
    modifies session
    ensures primaryKeys == [] ==> o == Fail(AssertionFailed("primary keys")) && session.schema == old(session.schema)
    ensures primaryKeys != [] && |columns| != |types| ==>
              o == Fail(AssertionFailed("column types")) && session.schema == old(session.schema)
    ensures primaryKeys != [] && |columns| == |types| ==>
              var ddl := CreateTableDdl(t.Name(), columns, types, [primaryKeys[0]], primaryKeys[1..]);
              session.schema == old(session.schema) + [ddl] &&
              o == if session.accepts(ddl) then Pass else Fail(DriverFailure)
    ensures session.batch == old(session.batch) && session.executed == old(session.executed)
  {
    var keys := SplitPrimaryKeys(primaryKeys);
    if keys.Err? {
      return Fail(keys.error);
    }
    o := CreateTable(t, session, columns, types, keys.value.0, keys.value.1);
  }

  /** `createTable(columns, primaryKeys)`: every column of type text. */
  method CreateTextTableByPrimaryKeys(t: Table, session: Session, columns: seq<Key>, primaryKeys: seq<Key>)
    returns (o: Outcome<Error>)
    modifies session
    ensures primaryKeys == [] ==> o == Fail(AssertionFailed("primary keys")) && session.schema == old(session.schema)
    ensures primaryKeys != [] ==>
              exists types :: |types| == |columns| && (forall i :: 0 <= i < |types| ==> types[i] == TextType) &&
                var ddl := CreateTableDdl(t.Name(), columns, types, [primaryKeys[0]], primaryKeys[1..]);
                session.schema == old(session.schema) + [ddl] &&
                o == if session.accepts(ddl) then Pass else Fail(DriverFailure)
    ensures session.batch == old(session.batch) && session.executed == old(session.executed)
  {
    var types := TextTypes(|columns|);
    o := CreateTableByPrimaryKeys(t, session, columns, types, primaryKeys);
  }

  // ----- reading the key lists back -----

  /** Items joined with ", ". */
  function Join(xs: seq<string>): string
    decreases |xs|
  {
    if |xs| == 0 then ""
    else if |xs| == 1 then xs[0]
    else xs[0] + ", " + Join(xs[1..])
  }

  /** The position of the first comma in `s`, or `|s|` when it has none. */
  function CommaAt(s: string): (i: nat)
    ensures i <= |s| && (i < |s| ==> s[i] == ',')
    ensures forall j :: 0 <= j < i ==> s[j] != ','
    decreases |s|
  {
    if s == [] || s[0] == ',' then 0 else 1 + CommaAt(s[1..])
  }

  /** Cut a ", "-separated list into its items. */
  function Split(s: string): seq<string>
    decreases |s|
  {
    var i := CommaAt(s);
    if i + 2 <= |s| then [s[..i]] + Split(s[i + 2..]) else [s[..i]]
  }

  /** Joining one more item adds a separator and the item. */
  lemma {:induction false} JoinSnoc(xs: seq<string>, y: string)
    requires xs != []
    ensures Join(xs + [y]) == Join(xs) + ", " + y
    decreases |xs|
  {
    var ys := xs + [y];
    if |xs| == 1 {
      assert Join(ys) == xs[0] + ", " + Join([y]);
    } else {
      assert ys[1..] == xs[1..] + [y];
      JoinSnoc(xs[1..], y);
      calc {
        Join(ys);
        xs[0] + ", " + Join(xs[1..] + [y]);
        xs[0] + ", " + (Join(xs[1..]) + ", " + y);
        (xs[0] + ", " + Join(xs[1..])) + ", " + y;
      }
    }
  }

  lemma CommaAtNone(s: string)
    requires ',' !in s
    ensures CommaAt(s) == |s|
  {
  }

  lemma CommaAtSeparator(a: string, rest: string)
    requires ',' !in a
    ensures CommaAt(a + ", " + rest) == |a|
  {
    var s := a + ", " + rest;
    assert s[|a|] == ',';
    assert forall j :: 0 <= j < |a| ==> s[j] == a[j];
  }

  /** Splitting a joined list of comma-free items gives the items back. */
  lemma {:induction false} SplitJoin(xs: seq<string>)
    requires xs != [] && forall x :: x in xs ==> ',' !in x
    ensures Split(Join(xs)) == xs
    decreases |xs|
  {
    if |xs| == 1 {
      assert Join(xs) == xs[0];
      assert xs[0] in xs;
      CommaAtNone(xs[0]);
      assert xs[0][..|xs[0]|] == xs[0];
    } else {
      var x, rest := xs[0], Join(xs[1..]);
      assert x in xs;
      assert Join(xs) == x + ", " + rest;
      CommaAtSeparator(x, rest);
      var s := x + ", " + rest;
      assert s[..|x|] == x;
      assert s[|x| + 2..] == rest;
      assert Split(s) == [x] + Split(rest);
      SplitJoin(xs[1..]);
      assert xs == [x] + xs[1..];
    }
  }

  /** A key list written as names and split again reads back as the keys. */
  lemma KeyListReadsBack(ks: seq<Key>)
    requires ks != []
    ensures var names := Split(Join(Names(ks)));
            |names| == |ks| && forall i :: 0 <= i < |ks| ==> ParseKey(names[i]) == Some(ks[i])
  {
    forall x | x in Names(ks)
      ensures ',' !in x
    {
      var i :| 0 <= i < |ks| && Names(ks)[i] == x;
    }
    SplitJoin(Names(ks));
    forall i | 0 <= i < |ks|
      ensures ParseKey(Names(ks)[i]) == Some(ks[i])
    {
      ParseFormatted(ks[i]);
    }
  }

  /** The partition list is the keys joined with ", " when the first key does not recur. */
  lemma {:induction false} PartitionListIsJoin(pKeys: seq<Key>, first: Key)
    requires pKeys != [] && pKeys[0] == first && first !in pKeys[1..]
    ensures PartitionList(pKeys, first) == Join(Names(pKeys))
    decreases |pKeys|
  {
    var n := |pKeys| - 1;
    var init := pKeys[..n];
    if n == 0 {
      assert init == [];
    } else {
      assert init[1..] == pKeys[1..n];
      PartitionListIsJoin(init, first);
      assert pKeys[n] in pKeys[1..];
      NamesSnoc(pKeys);
      JoinSnoc(Names(init), Format(pKeys[n]));
    }
  }

  /** One more name on a list written as ", " followed by the join. */
  lemma ClusterJoinStep(c: string, names: seq<string>, last: string)
    requires c == if names == [] then "" else ", " + Join(names)
    ensures c + ", " + last == ", " + Join(names + [last])
  {
    if names == [] {
      assert names + [last] == [last];
    } else {
      JoinSnoc(names, last);
    }
  }

  /** The clustering list is the keys joined with ", ", after one more ", ". */
  lemma {:induction false} ClusterListIsJoin(cKeys: seq<Key>)
    ensures ClusterList(cKeys) == if cKeys == [] then "" else ", " + Join(Names(cKeys))
    decreases |cKeys|
  {
    if cKeys != [] {
      var n := |cKeys| - 1;
      var init, last := cKeys[..n], Format(cKeys[n]);
      ClusterListIsJoin(init);
      NamesSnoc(cKeys);
      ClusterJoinStep(ClusterList(init), Names(init), last);
    }
  }

  /**
   * The separator test compares keys with the first key, so a list that
   * repeats its first key loses a separator.
   */
  lemma RepeatedFirstKeyLosesSeparator()
    ensures PartitionList([Label, Name, Label], Label) == "LABEL, NAMELABEL"
    ensures Join(Names([Label, Name, Label])) == "LABEL, NAME, LABEL"
  {
    assert [Label, Name, Label][..2] == [Label, Name];
    assert [Label, Name][..1] == [Label];
    assert [Label][..0] == [];
  }

  /**
   * The primary key clause of a table: the partition keys in inner
   * parentheses, then the clustering keys, each list joined with ", " and
   * reading back into its keys.
   */
  lemma PrimaryKeyClause(pKeys: seq<Key>, cKeys: seq<Key>)
    requires pKeys != [] && pKeys[0] !in pKeys[1..]
    ensures PartitionText(pKeys) == "(" + Join(Names(pKeys)) + ")"
    ensures ClusterList(cKeys) == if cKeys == [] then "" else ", " + Join(Names(cKeys))
    ensures |Split(Join(Names(pKeys)))| == |pKeys|
    ensures forall i :: 0 <= i < |pKeys| ==> ParseKey(Split(Join(Names(pKeys)))[i]) == Some(pKeys[i])
    ensures cKeys != [] ==> |Split(Join(Names(cKeys)))| == |cKeys|
    ensures cKeys != [] ==> forall i :: 0 <= i < |cKeys| ==> ParseKey(Split(Join(Names(cKeys)))[i]) == Some(cKeys[i])
  {
    PartitionListIsJoin(pKeys, pKeys[0]);
    ClusterListIsJoin(cKeys);
    KeyListReadsBack(pKeys);
    if cKeys != [] {
      KeyListReadsBack(cKeys);
    }
  }

  // ----- CREATE INDEX -----

  /** The CREATE INDEX statement `createIndex` writes. */
  function CreateIndexDdl(indexName: string, table: string, column: Key): string {
    "CREATE INDEX IF NOT EXISTS " + indexName + " ON " + table + "(" + Format(column) + ");"
  }

  /** `createIndex`: send the index statement on the table's column; the driver's refusal is a failure. */
  method CreateIndex(t: Table, session: Session, indexName: string, column: Key)
    returns (o: Outcome<Error>)
    modifies session
    ensures var ddl := CreateIndexDdl(indexName, t.Name(), column);
            session.schema == old(session.schema) + [ddl] &&
            o == if session.accepts(ddl) then Pass else Fail(DriverFailure)
    ensures session.batch == old(session.batch) && session.executed == old(session.executed)
  {
    var sb := "CREATE INDEX IF NOT EXISTS ";
    sb := sb + indexName;
    sb := sb + " ON ";
    sb := sb + t.Name();
    sb := sb + "(";
    sb := sb + Format(column);
    sb := sb + ");";
    var ok := session.ExecuteSchema(sb);
    o := if ok then Pass else Fail(DriverFailure);
  }

  /** The indexed column reads back from the end of the statement. */
  lemma IndexedColumnReadsBack(indexName: string, table: string, column: Key)
    ensures var ddl := CreateIndexDdl(indexName, table, column);
            var n := |Format(column)|;
            |ddl| >= n + 3 && ddl[|ddl| - n - 3] == '(' &&
            ParseKey(ddl[|ddl| - n - 2..|ddl| - 2]) == Some(column)
  {
    var ddl := CreateIndexDdl(indexName, table, column);
    var n := |Format(column)|;
    assert ddl[|ddl| - n - 2..|ddl| - 2] == Format(column);
    ParseFormatted(column);
  }
}
