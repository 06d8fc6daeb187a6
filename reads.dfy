/**
 * `CassandraTable.query`: a query with a zero limit returns nothing; any
 * other query is translated into selects, each select is executed in turn,
 * and the entries of all of them are concatenated. Every failure except an
 * assertion error is reported as a failed query.
 */
module Reads {
  import opened Wrappers
  import opened Entries
  import opened Cql
  import opened Tables
  import opened Queries
  import opened Merge
  import opened Sessions
  import opened Seqs

  /**
   * The catch-all of `query`: an exception becomes a `BackendException`
   * wrapping it, while an `AssertionError` (not an `Exception`) escapes as is.
   */
  function Wrap(e: Error): (r: Error)
    ensures e.IsAssertion() ==> r == e
    ensures !e.IsAssertion() ==> r == QueryFailed(e)
  {
    if e.IsAssertion() then e else QueryFailed(e)
  }

  /** Whether the query's limit is zero, which `query` answers without any select. */
  predicate ZeroLimit(q: Query) {
    q.limit == 0 && q.limit != NoLimit
  }

  /** The entries one select yields: the driver's rows converted and merged by the table. */
  function SelectEntries(t: Table, kind: HugeType, store: Select -> Option<seq<CqlRow>>, s: Select)
    : (r: Result<seq<BackendEntry>, Error>)
    ensures r.Err? ==> r.error.IsAssertion() || r.error.QueryFailed?
  {
    match store(s)
    case None => Err(QueryFailed(DriverFailure))
    case Some(rows) =>
      match Results2EntriesSpec(t, kind, rows)
      case Err(e) => Err(Wrap(e))
      case Ok(es) => Ok(es)
  }

  /** The outcomes of several steps, concatenated in order; the first failing step fails the whole. */
  function Gather(rs: seq<Result<seq<BackendEntry>, Error>>): Result<seq<BackendEntry>, Error>
    decreases |rs|
  {
    if rs == [] then Ok([])
    else
      var front := rs[..|rs| - 1];
      match Gather(front)
      case Err(e) => Err(e)
      case Ok(prev) =>
        match rs[|rs| - 1]
        case Err(e) => Err(e)
        case Ok(es) => Ok(prev + es)
  }

  /** The outcome of each select, in order. */
  function PerSelect(t: Table, kind: HugeType, store: Select -> Option<seq<CqlRow>>, sels: seq<Select>)
    : (rs: seq<Result<seq<BackendEntry>, Error>>)
    ensures |rs| == |sels| && forall i :: 0 <= i < |sels| ==> rs[i] == SelectEntries(t, kind, store, sels[i])
  {
    seq(|sels|, i requires 0 <= i < |sels| => SelectEntries(t, kind, store, sels[i]))
  }

  /**
   * The entries of the selects, executed in order against the store and
   * concatenated; the first failing select fails the whole.
   */
  function RunSelects(t: Table, kind: HugeType, store: Select -> Option<seq<CqlRow>>, sels: seq<Select>)
    : Result<seq<BackendEntry>, Error>
  {
    Gather(PerSelect(t, kind, store, sels))
  }

  /** What `query` returns (the edge table's entries up to order). */
  function QuerySpec(t: Table, q: Query, needsFiltering: Clause -> bool, store: Select -> Option<seq<CqlRow>>)
    : Result<seq<BackendEntry>, Error>
  {
    if ZeroLimit(q) then Ok([])
    else
      match Query2SelectSpec(t, q, needsFiltering)
      case Err(e) => Err(Wrap(e))
      case Ok(sels) => RunSelects(t, q.resultType, store, sels)
  }

  /** Gathering succeeds exactly when every step does; otherwise it fails with the first step's error. */
  lemma {:induction false} GatherMeaning(rs: seq<Result<seq<BackendEntry>, Error>>)
    ensures Gather(rs).Ok? <==> forall i :: 0 <= i < |rs| ==> rs[i].Ok?
    ensures Gather(rs).Err? ==>
              exists i :: 0 <= i < |rs| && rs[i] == Err(Gather(rs).error) && forall j :: 0 <= j < i ==> rs[j].Ok?
    decreases |rs|
  {
    if rs != [] {
      var front := rs[..|rs| - 1];
      GatherMeaning(front);
      assert forall i :: 0 <= i < |front| ==> front[i] == rs[i];
    }
  }

  /** Once some steps have failed, more steps fail the same way. */
  lemma {:induction false} GatherPrefixError(rs: seq<Result<seq<BackendEntry>, Error>>, j: nat)
    requires j <= |rs| && Gather(rs[..j]).Err?
    ensures Gather(rs) == Gather(rs[..j])
    decreases |rs| - j
  {
    if j < |rs| {
      assert rs[..j + 1][..j] == rs[..j];
      GatherPrefixError(rs, j + 1);
    } else {
      assert rs[..j] == rs;
    }
  }

  /** One more step: its failure fails the whole, its entries extend the outcome so far. */
  lemma GatherStep(rs: seq<Result<seq<BackendEntry>, Error>>, i: nat)
    requires i < |rs| && Gather(rs[..i]).Ok?
    ensures rs[i].Err? ==> Gather(rs) == rs[i]
    ensures rs[i].Ok? ==> Gather(rs[..i + 1]) == Ok(Gather(rs[..i]).value + rs[i].value)
  {
    assert rs[..i + 1][..i] == rs[..i];
    if rs[i].Err? {
      GatherPrefixError(rs, i + 1);
    }
  }

  /** One pass of the loop of `query`: execute one select and convert its rows. */
  method RunOne(t: Table, session: Session, kind: HugeType, s: Select) returns (r: Result<seq<BackendEntry>, Error>)
    modifies session
    ensures SelectEntries(t, kind, session.store, s).Err? ==> r == SelectEntries(t, kind, session.store, s)
    ensures SelectEntries(t, kind, session.store, s).Ok? ==>
              r.Ok? && multiset(r.value) == multiset(SelectEntries(t, kind, session.store, s).value)
    ensures t != EdgeTable ==> r == SelectEntries(t, kind, session.store, s)
    ensures session.executed == old(session.executed) + [s]
    ensures session.batch == old(session.batch) && session.schema == old(session.schema)
  {
    var results := session.Execute(s);
    if results.None? {
      return Err(QueryFailed(DriverFailure));
    }
    var entries := Results2Entries(t, kind, results.value);
    if entries.Err? {
      return Err(Wrap(entries.error));
    }
    return entries;
  }

  /** Select `n` is the first of `sels` whose execution or conversion fails. */
  predicate FirstFailure(t: Table, kind: HugeType, store: Select -> Option<seq<CqlRow>>, sels: seq<Select>, n: int) {
    0 <= n < |sels| && SelectEntries(t, kind, store, sels[n]).Err? &&
    forall j :: 0 <= j < n ==> SelectEntries(t, kind, store, sels[j]).Ok?
  }

  /** A select that fails after the earlier ones succeeded is the first failure, and decides the result. */
  lemma FailureStops(t: Table, kind: HugeType, store: Select -> Option<seq<CqlRow>>, sels: seq<Select>, i: nat)
    requires i < |sels| && Gather(PerSelect(t, kind, store, sels)[..i]).Ok?
    requires SelectEntries(t, kind, store, sels[i]).Err?
    ensures FirstFailure(t, kind, store, sels, i)
    ensures RunSelects(t, kind, store, sels) == SelectEntries(t, kind, store, sels[i])
  {
    var outcomes := PerSelect(t, kind, store, sels);
    GatherStep(outcomes, i);
    GatherMeaning(outcomes[..i]);
    assert forall j :: 0 <= j < i ==> outcomes[..i][j] == outcomes[j];
  }

  /**
   * The loop of `query`: execute each select in turn and collect the entries
   * of its rows. A failure stops the loop right after the failing select.
   */
  method RunAll(t: Table, session: Session, kind: HugeType, sels: seq<Select>)
    returns (r: Result<seq<BackendEntry>, Error>)
    modifies session
    ensures RunSelects(t, kind, session.store, sels).Err? ==> r == RunSelects(t, kind, session.store, sels)
    ensures RunSelects(t, kind, session.store, sels).Ok? ==>
              r.Ok? && multiset(r.value) == multiset(RunSelects(t, kind, session.store, sels).value)
    ensures t != EdgeTable ==> r == RunSelects(t, kind, session.store, sels)
    ensures r.Ok? ==> session.executed == old(session.executed) + sels
    ensures r.Err? ==> exists n :: FirstFailure(t, kind, session.store, sels, n) &&
                                   session.executed == old(session.executed) + sels[..n + 1]
    ensures session.batch == old(session.batch) && session.schema == old(session.schema)
  {
    ghost var outcomes := PerSelect(t, kind, session.store, sels);
    ghost var spec: seq<BackendEntry> := [];
    var rs: seq<BackendEntry> := [];
    for i := 0 to |sels|
      invariant Gather(outcomes[..i]) == Ok(spec)
      invariant multiset(rs) == multiset(spec)
      invariant t != EdgeTable ==> rs == spec
      invariant session.executed == old(session.executed) + sels[..i]
      invariant session.batch == old(session.batch) && session.schema == old(session.schema)
    {
      PrefixSnoc(sels, i);
      GatherStep(outcomes, i);
      var entries := RunOne(t, session, kind, sels[i]);
      if entries.Err? {
        FailureStops(t, kind, session.store, sels, i);
        assert session.executed == old(session.executed) + sels[..i + 1];
        return entries;
      }
      spec := spec + outcomes[i].value;
      rs := rs + entries.value;
    }
    assert outcomes[..|sels|] == outcomes;
    assert sels[..|sels|] == sels;
    return Ok(rs);
  }

  /** `query`: execute the query's selects on the session and collect their entries. */
  method Query(t: Table, session: Session, q: Query, needsFiltering: Clause -> bool)
    returns (r: Result<seq<BackendEntry>, Error>)
    modifies session
    ensures ZeroLimit(q) ==> r == Ok([]) && session.executed == old(session.executed)
    ensures QuerySpec(t, q, needsFiltering, session.store).Err? ==> r == QuerySpec(t, q, needsFiltering, session.store)
    ensures QuerySpec(t, q, needsFiltering, session.store).Ok? ==>
              r.Ok? && multiset(r.value) == multiset(QuerySpec(t, q, needsFiltering, session.store).value)
    ensures t != EdgeTable ==> r == QuerySpec(t, q, needsFiltering, session.store)
    ensures r.Ok? && !ZeroLimit(q) ==>
              session.executed == old(session.executed) + Query2SelectSpec(t, q, needsFiltering).value
    ensures Query2SelectSpec(t, q, needsFiltering).Err? ==> session.executed == old(session.executed)
    ensures r.Err? && Query2SelectSpec(t, q, needsFiltering).Ok? ==>
              var sels := Query2SelectSpec(t, q, needsFiltering).value;
              exists n :: FirstFailure(t, q.resultType, session.store, sels, n) &&
                          session.executed == old(session.executed) + sels[..n + 1]
    ensures session.batch == old(session.batch) && session.schema == old(session.schema)
  {
    if q.limit == 0 && q.limit != NoLimit {
      return Ok([]);
    }
    var selections := Query2Select(t, q, needsFiltering);
    if selections.Err? {
      return Err(Wrap(selections.error));
    }
    r := RunAll(t, session, q.resultType, selections.value);
  }

  // ----- properties of query -----

  /** `query` raises only assertion errors and `BackendException`s. */
  lemma QueryErrorsWrapped(t: Table, q: Query, needsFiltering: Clause -> bool, store: Select -> Option<seq<CqlRow>>)
    requires QuerySpec(t, q, needsFiltering, store).Err?
    ensures QuerySpec(t, q, needsFiltering, store).error.IsAssertion()
            || QuerySpec(t, q, needsFiltering, store).error.QueryFailed?
  {
    if !ZeroLimit(q) && Query2SelectSpec(t, q, needsFiltering).Ok? {
      var rs := PerSelect(t, q.resultType, store, Query2SelectSpec(t, q, needsFiltering).value);
      GatherMeaning(rs);
      var i :| 0 <= i < |rs| && rs[i] == Err(Gather(rs).error);
    }
  }

  /** The outcome of consecutive steps is the outcome of each, concatenated. */
  lemma {:induction false} GatherAppend(a: seq<Result<seq<BackendEntry>, Error>>, b: seq<Result<seq<BackendEntry>, Error>>)
    requires Gather(a).Ok? && Gather(b).Ok?
    ensures Gather(a + b) == Ok(Gather(a).value + Gather(b).value)
    decreases |b|
  {
    if b == [] {
      assert a + b == a;
      assert Gather(a).value + [] == Gather(a).value;
    } else {
      var b' := b[..|b| - 1];
      assert (a + b)[..|a + b| - 1] == a + b';
      assert (a + b)[|a + b| - 1] == b[|b| - 1];
      GatherAppend(a, b');
      var A, B', es := Gather(a).value, Gather(b').value, b[|b| - 1].value;
      assert (A + B') + es == A + (B' + es);
    }
  }

  lemma PerSelectAppend(t: Table, kind: HugeType, store: Select -> Option<seq<CqlRow>>, a: seq<Select>, b: seq<Select>)
    ensures PerSelect(t, kind, store, a + b) == PerSelect(t, kind, store, a) + PerSelect(t, kind, store, b)
  {
    var l, r := PerSelect(t, kind, store, a + b), PerSelect(t, kind, store, a) + PerSelect(t, kind, store, b);
    assert forall i :: 0 <= i < |l| ==> l[i] == r[i];
  }

  /** The entries of consecutive selects are the entries of each, concatenated. */
  lemma RunSelectsAppend(t: Table, kind: HugeType, store: Select -> Option<seq<CqlRow>>, a: seq<Select>, b: seq<Select>)
    requires RunSelects(t, kind, store, a).Ok? && RunSelects(t, kind, store, b).Ok?
    ensures RunSelects(t, kind, store, a + b)
         == Ok(RunSelects(t, kind, store, a).value + RunSelects(t, kind, store, b).value)
  {
    PerSelectAppend(t, kind, store, a, b);
    GatherAppend(PerSelect(t, kind, store, a), PerSelect(t, kind, store, b));
  }

  /** A select the driver fails on fails the query, once the selects before it have run. */
  lemma DriverFailureFailsQuery(t: Table, kind: HugeType, store: Select -> Option<seq<CqlRow>>,
                                sels: seq<Select>, i: nat)
    requires i < |sels| && RunSelects(t, kind, store, sels[..i]).Ok? && store(sels[i]).None?
    ensures RunSelects(t, kind, store, sels) == Err(QueryFailed(DriverFailure))
  {
    var rs := PerSelect(t, kind, store, sels);
    assert PerSelect(t, kind, store, sels[..i]) == rs[..i];
    assert rs[..i + 1][..i] == rs[..i];
    GatherPrefixError(rs, i + 1);
  }

  /** On a table that does not merge, each select contributes one entry per row it returns. */
  lemma {:induction false} PlainTableKeepsEveryRow(t: Table, kind: HugeType, store: Select -> Option<seq<CqlRow>>,
                                                   sels: seq<Select>)
    requires t != VertexTable && t != EdgeTable
    requires RunSelects(t, kind, store, sels).Ok?
    ensures forall s :: s in sels ==> store(s).Some?
    ensures |RunSelects(t, kind, store, sels).value| == RowCount(store, sels)
    decreases |sels|
  {
    if sels != [] {
      var init := sels[..|sels| - 1];
      var last := sels[|sels| - 1];
      SplitLast(sels);
      assert PerSelect(t, kind, store, sels) == PerSelect(t, kind, store, init) + [SelectEntries(t, kind, store, last)];
      PlainTableKeepsEveryRow(t, kind, store, init);
      var rows := store(last).value;
      assert Results2EntriesSpec(t, kind, rows) == EntriesOf(kind, rows);
      AssembleMeaning(kind, RowColumns(rows));
    }
  }

  /** The number of rows the store answers the selects with. */
  function RowCount(store: Select -> Option<seq<CqlRow>>, sels: seq<Select>): nat
    decreases |sels|
  {
    if sels == [] then 0
    else
      var last := store(sels[|sels| - 1]);
      RowCount(store, sels[..|sels| - 1]) + (if last.Some? then |last.value| else 0)
  }
}
