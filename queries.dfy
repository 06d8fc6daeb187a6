/**
 * The query translator: `query2Select`, `queryId2Select` and
 * `queryCondition2Select` turn a graph query into the CQL selects that answer
 * it. A base select carries the table, limit and orderings; the query's ids
 * become one IN select or one select per id; the conditions are compiled and
 * added to every select.
 */
module Queries {
  import opened Wrappers
  import opened Keys
  import opened Values
  import opened Entries
  import opened Cql
  import opened Tables
  import opened Conditions

  /** A graph query: ids, conditions, orderings, a limit and an offset. */
  datatype Query = Query(
    resultType: HugeType,
    ids: seq<Id>,
    conditions: seq<Condition>,
    orders: seq<(Key, Order)>,
    limit: int,
    offset: int)

  /** `Query.NO_LIMIT`: `Long.MAX_VALUE`. */
  const NoLimit: int := 0x7FFF_FFFF_FFFF_FFFF

  /** Java's `(int)` cast of a `long`: the low 32 bits, read as two's complement. */
  function ToInt32(x: int): (r: int)
    ensures -0x8000_0000 <= r < 0x8000_0000
    ensures (r - x) % 0x1_0000_0000 == 0
  {
    var low := x % 0x1_0000_0000;
    if low < 0x8000_0000 then low else low - 0x1_0000_0000
  }

  /** A limit that fits in an `int` reaches the select unchanged. */
  lemma ToInt32InRange(x: int)
    requires -0x8000_0000 <= x < 0x8000_0000
    ensures ToInt32(x) == x
  {
  }

  function Orderings(orders: seq<(Key, Order)>): (r: seq<Ordering>)
    ensures |r| == |orders|
    ensures forall i :: 0 <= i < |orders| ==> r[i] == Ordering(Format(orders[i].0), orders[i].1)
  {
    seq(|orders|, i requires 0 <= i < |orders| => Ordering(Format(orders[i].0), orders[i].1))
  }

  /** The select `query2Select` starts from: table, limit unless unbounded, orderings; the offset is dropped. */
  function BaseSelect(t: Table, q: Query): Select {
    Select(t.Name(),
           if q.limit != NoLimit then Some(ToInt32(q.limit)) else None,
           Orderings(q.orders), [], false)
  }

  predicate ArityMismatch(t: Table, id: Id) {
    |t.IdColumnValue(id)| != |t.IdColumns()|
  }

  /** The position of the first id whose part count differs from the id-column count. */
  function FirstMismatch(t: Table, ids: seq<Id>): (r: Option<nat>)
    ensures r.Some? ==> r.value < |ids| && ArityMismatch(t, ids[r.value])
                        && forall k :: 0 <= k < r.value ==> !ArityMismatch(t, ids[k])
    ensures r.None? ==> forall k :: 0 <= k < |ids| ==> !ArityMismatch(t, ids[k])
  {
    if ids == [] then None
    else if ArityMismatch(t, ids[0]) then Some(0)
    else
      match FirstMismatch(t, ids[1..])
      case None => None
      case Some(j) => Some(j + 1)
  }

  /** One equality per id column, pairing `names[i]` with `values[i]`. */
  function IdEquals(names: seq<Key>, values: seq<string>): (w: seq<Clause>)
    requires |names| == |values|
    ensures BindsPositionally(w, names, values)
  {
    seq(|names|, i requires 0 <= i < |names| => EqText(Format(names[i]), values[i]))
  }

  /** The first part of every id, as the IN list of a single-column lookup. */
  function FirstParts(t: Table, ids: seq<Id>): (r: seq<Scalar>)
    ensures |r| == |ids|
  {
    seq(|ids|, i requires 0 <= i < |ids| => Text(t.IdColumnValue(ids[i])[0]))
  }

  /** A single-column lookup: one select with an IN clause over every id's only part. */
  function InSelect(t: Table, ids: seq<Id>, base: Select): Select
    requires |t.IdColumns()| == 1
  {
    base.(where := base.where + [Clause.In(Format(t.IdColumns()[0]), FirstParts(t, ids))])
  }

  /** A multi-column lookup: one select per id, binding every id column by equality. */
  function EachIdSelect(t: Table, ids: seq<Id>, base: Select): (r: seq<Select>)
    requires forall k :: 0 <= k < |ids| ==> !ArityMismatch(t, ids[k])
    ensures |r| == |ids|
  {
    seq(|ids|, i requires 0 <= i < |ids| =>
          assert !ArityMismatch(t, ids[i]);
          base.(where := base.where + IdEquals(t.IdColumns(), t.IdColumnValue(ids[i]))))
  }

  /** What `queryId2Select` returns for `ids` and the base select. */
  function IdSelects(t: Table, ids: seq<Id>, base: Select): Result<seq<Select>, Error> {
    if ids == [] then Ok([base])
    else
      match FirstMismatch(t, ids)
      case Some(j) => Err(UnsupportedIdFormat(ids[j], t.IdColumns()))
      case None =>
        if |t.IdColumns()| == 1 then Ok([InSelect(t, ids, base)])
        else Ok(EachIdSelect(t, ids, base))
  }

  /** Decodes every id, failing on the first whose part count differs from the id-column count. */
  method DecodeIds(t: Table, ids: seq<Id>) returns (r: Result<seq<seq<string>>, Error>)
    ensures FirstMismatch(t, ids).Some? ==> r == Err(UnsupportedIdFormat(ids[FirstMismatch(t, ids).value], t.IdColumns()))
    ensures FirstMismatch(t, ids).None? ==>
              r.Ok? && |r.value| == |ids| && forall k :: 0 <= k < |ids| ==> r.value[k] == t.IdColumnValue(ids[k])
  {
    var nameParts := t.IdColumns();
    var parts: seq<seq<string>> := [];
    var i := 0;
    while i < |ids|
      invariant 0 <= i <= |ids| && |parts| == i
      invariant forall k :: 0 <= k < i ==> parts[k] == t.IdColumnValue(ids[k])
      invariant forall k :: 0 <= k < i ==> !ArityMismatch(t, ids[k])
    {
      var idParts := DecodeId(t, ids[i]);
      if |nameParts| != |idParts| {
        return Err(UnsupportedIdFormat(ids[i], nameParts));
      }
      parts := parts + [idParts];
      i := i + 1;
    }
    return Ok(parts);
  }

  /** The IN list of a single-column lookup: the first part of every decoded id. */
  method InList(parts: seq<seq<string>>) returns (idList: seq<Scalar>)
    requires forall k :: 0 <= k < |parts| ==> |parts[k]| == 1
    ensures |idList| == |parts|
    ensures forall k :: 0 <= k < |parts| ==> idList[k] == Text(parts[k][0])
  {
    idList := [];
    for j := 0 to |parts|
      invariant |idList| == j
      invariant forall k :: 0 <= k < j ==> idList[k] == Text(parts[k][0])
    {
      // The source asserts each id has exactly one part here.
      idList := idList + [Text(parts[j][0])];
    }
  }

  lemma IdEqualsStep(names: seq<Key>, values: seq<string>, n: nat)
    requires |names| == |values| && n < |names|
    ensures IdEquals(names[..n + 1], values[..n + 1])
         == IdEquals(names[..n], values[..n]) + [EqText(Format(names[n]), values[n])]
  {
    var a, b := IdEquals(names[..n + 1], values[..n + 1]), IdEquals(names[..n], values[..n]);
    forall i | 0 <= i < n
      ensures a[i] == b[i]
    {
      assert names[..n + 1][i] == names[..n][i] && values[..n + 1][i] == values[..n][i];
    }
    assert a[n] == EqText(Format(names[n]), values[n]) by {
      assert names[..n + 1][n] == names[n] && values[..n + 1][n] == values[n];
    }
  }

  /** A copy of `base` that binds every id column to the matching id part by equality. */
  method IdSelection(base: Select, names: seq<Key>, values: seq<string>) returns (s: Select)
    requires |names| == |values|
    ensures s == base.(where := base.where + IdEquals(names, values))
  {
    s := base;
    for n := 0 to |names|
      invariant s == base.(where := base.where + IdEquals(names[..n], values[..n]))
    {
      IdEqualsStep(names, values, n);
      s := s.(where := s.where + [EqText(Format(names[n]), values[n])]);
    }
    assert names[..|names|] == names && values[..|values|] == values;
  }

  /**
   * `queryId2Select`: decode every id and check its part count, then build one
   * IN select (one id column) or one select per id (several id columns).
   */
  method QueryId2Select(t: Table, ids: seq<Id>, base: Select) returns (r: Result<seq<Select>, Error>)
    ensures r == IdSelects(t, ids, base)
  {
    if ids == [] {
      return Ok([base]);
    }
    var nameParts := t.IdColumns();
    var decoded := DecodeIds(t, ids);
    if decoded.Err? {
      return Err(decoded.error);
    }
    var parts := decoded.value;

    if |nameParts| == 1 {
      var idList := InList(parts);
      assert idList == FirstParts(t, ids);
      return Ok([base.(where := base.where + [Clause.In(Format(nameParts[0]), idList)])]);
    }

    var selections := IdSelections(base, nameParts, parts);
    assert selections == EachIdSelect(t, ids, base);
    return Ok(selections);
  }

  /** The loop of a multi-column lookup: one select per decoded id. */
  method IdSelections(base: Select, names: seq<Key>, parts: seq<seq<string>>) returns (selections: seq<Select>)
    requires forall k :: 0 <= k < |parts| ==> |parts[k]| == |names|
    ensures |selections| == |parts|
    ensures forall k :: 0 <= k < |parts| ==> selections[k] == base.(where := base.where + IdEquals(names, parts[k]))
  {
    selections := [];
    for j := 0 to |parts|
      invariant |selections| == j
      invariant forall k :: 0 <= k < j ==> selections[k] == base.(where := base.where + IdEquals(names, parts[k]))
    {
      var idSelection := IdSelection(base, names, parts[j]);
      ghost var before := selections;
      selections := selections + [idSelection];
      assert forall k :: 0 <= k < j ==> selections[k] == before[k];
    }
  }

  /** The clauses of all conditions, compiled left to right; the first failure is the result. */
  function CompileAll(t: Table, conds: seq<Condition>): (r: Result<seq<Clause>, Error>)
    ensures r.Ok? <==> forall i :: 0 <= i < |conds| ==> Compilable(conds[i])
    ensures r.Ok? ==> |r.value| == |conds|
                      && forall i :: 0 <= i < |conds| ==> Condition2Cql(t, conds[i]) == Ok(r.value[i])
    decreases |conds|
  {
    if conds == [] then Ok([])
    else
      var init :- CompileAll(t, conds[..|conds| - 1]);
      var last :- Condition2Cql(t, conds[|conds| - 1]);
      Ok(init + [last])
  }

  /** Once a prefix of the conditions fails to compile, so do all of them, with the same error. */
  lemma {:induction false} CompileAllPrefixError(t: Table, conds: seq<Condition>, j: nat)
    requires j <= |conds| && CompileAll(t, conds[..j]).Err?
    ensures CompileAll(t, conds) == CompileAll(t, conds[..j])
    decreases |conds| - j
  {
    if j < |conds| {
      assert conds[..j + 1][..j] == conds[..j];
      CompileAllPrefixError(t, conds, j + 1);
    } else {
      assert conds[..j] == conds;
    }
  }

  /** Whether some compiled clause needs ALLOW FILTERING (as `needsFiltering` judges it). */
  predicate AnyNeedsFiltering(cs: seq<Clause>, needsFiltering: Clause -> bool) {
    exists i :: 0 <= i < |cs| && needsFiltering(cs[i])
  }

  /** `sel` extended with every compiled clause, filtering allowed when some clause needs it. */
  function WithClauses(sel: Select, cs: seq<Clause>, needsFiltering: Clause -> bool): Select {
    sel.(where := sel.where + cs,
         allowFiltering := sel.allowFiltering || AnyNeedsFiltering(cs, needsFiltering))
  }

  /** One more condition: the compiled prefix grows by its clause, or fails with its error. */
  lemma CompileAllStep(t: Table, conds: seq<Condition>, i: nat)
    requires i < |conds| && CompileAll(t, conds[..i]).Ok?
    ensures Condition2Cql(t, conds[i]).Err? ==>
              CompileAll(t, conds[..i + 1]) == Err(Condition2Cql(t, conds[i]).error)
    ensures Condition2Cql(t, conds[i]).Ok? ==>
              CompileAll(t, conds[..i + 1])
              == Ok(CompileAll(t, conds[..i]).value + [Condition2Cql(t, conds[i]).value])
  {
    assert conds[..i + 1][..i] == conds[..i];
    assert conds[..i + 1][i] == conds[i];
  }

  lemma WithClausesStep(sel: Select, cs: seq<Clause>, c: Clause, needsFiltering: Clause -> bool)
    ensures WithClauses(sel, cs + [c], needsFiltering)
         == WithClauses(sel, cs, needsFiltering).(
              where := sel.where + cs + [c],
              allowFiltering := WithClauses(sel, cs, needsFiltering).allowFiltering || needsFiltering(c))
  {
    if needsFiltering(c) {
      assert (cs + [c])[|cs|] == c;
    }
    if AnyNeedsFiltering(cs, needsFiltering) {
      var k :| 0 <= k < |cs| && needsFiltering(cs[k]);
      assert (cs + [c])[k] == cs[k];
    }
    assert sel.where + (cs + [c]) == sel.where + cs + [c];
  }

  /**
   * `queryCondition2Select`: compile each condition, add its clause to the
   * select, and allow filtering when the clause needs it.
   */
  method QueryCondition2Select(t: Table, conds: seq<Condition>, sel: Select,
                               needsFiltering: Clause -> bool)
    returns (r: Result<Select, Error>)
    ensures CompileAll(t, conds).Err? ==> r == Err(CompileAll(t, conds).error)
    ensures CompileAll(t, conds).Ok? ==> r == Ok(WithClauses(sel, CompileAll(t, conds).value, needsFiltering))
  {
    var select := sel;
    assert conds[..0] == [];
    for i := 0 to |conds|
      invariant CompileAll(t, conds[..i]).Ok?
      invariant select == WithClauses(sel, CompileAll(t, conds[..i]).value, needsFiltering)
    {
      var clause := Condition2Cql(t, conds[i]);
      CompileAllStep(t, conds, i);
      if clause.Err? {
        CompileAllPrefixError(t, conds, i + 1);
        return Err(clause.error);
      }
      WithClausesStep(sel, CompileAll(t, conds[..i]).value, clause.value, needsFiltering);
      select := select.(where := select.where + [clause.value]);
      if needsFiltering(clause.value) {
        select := select.(allowFiltering := true);
      }
    }
    assert conds[..|conds|] == conds;
    return Ok(select);
  }

  /** Every select extended with the same compiled clauses. */
  function AllWithClauses(sels: seq<Select>, cs: seq<Clause>, needsFiltering: Clause -> bool): (r: seq<Select>)
    ensures |r| == |sels|
  {
    seq(|sels|, i requires 0 <= i < |sels| => WithClauses(sels[i], cs, needsFiltering))
  }

  /** What `query2Select` returns. */
  function Query2SelectSpec(t: Table, q: Query, needsFiltering: Clause -> bool): Result<seq<Select>, Error> {
    var ids :- IdSelects(t, q.ids, BaseSelect(t, q));
    if q.conditions == [] then Ok(ids)
    else
      var cs :- CompileAll(t, q.conditions);
      Ok(AllWithClauses(ids, cs, needsFiltering))
  }

  /** A successful id resolution always yields at least one select. */
  lemma IdSelectsNonEmpty(t: Table, ids: seq<Id>, base: Select)
    requires IdSelects(t, ids, base).Ok?
    ensures |IdSelects(t, ids, base).value| > 0
  {
  }

  /** The table, the limit unless unbounded, and the orderings in order; the offset is only reported. */
  method NewBaseSelect(t: Table, q: Query) returns (select: Select)
    ensures select == BaseSelect(t, q)
  {
    select := Select(t.Name(), None, [], [], false);
    if q.limit != NoLimit {
      select := select.(limit := Some(ToInt32(q.limit)));
    }
    for i := 0 to |q.orders|
      invariant select == BaseSelect(t, q).(orders := Orderings(q.orders[..i]))
    {
      var (key, order) := q.orders[i];
      if order == Asc {
        select := select.(orders := select.orders + [Ordering(Format(key), Asc)]);
      } else {
        select := select.(orders := select.orders + [Ordering(Format(key), Desc)]);
      }
      assert Orderings(q.orders[..i + 1]) == Orderings(q.orders[..i]) + [Ordering(Format(key), order)];
    }
    assert q.orders[..|q.orders|] == q.orders;
  }

  /** The conditions applied to every id select in turn; the first compile error ends the loop. */
  method ConditionsOnEach(t: Table, conds: seq<Condition>, sels: seq<Select>, needsFiltering: Clause -> bool)
    returns (r: Result<seq<Select>, Error>)
    requires sels != []
    ensures CompileAll(t, conds).Err? ==> r == Err(CompileAll(t, conds).error)
    ensures CompileAll(t, conds).Ok? ==> r == Ok(AllWithClauses(sels, CompileAll(t, conds).value, needsFiltering))
  {
    var result: seq<Select> := [];
    for i := 0 to |sels|
      invariant i > 0 ==> CompileAll(t, conds).Ok?
      invariant |result| == i
      invariant forall k :: 0 <= k < i ==>
                  result[k] == WithClauses(sels[k], CompileAll(t, conds).value, needsFiltering)
    {
      var s := QueryCondition2Select(t, conds, sels[i], needsFiltering);
      if s.Err? {
        return Err(s.error);
      }
      result := result + [s.value];
    }
    assert result == AllWithClauses(sels, CompileAll(t, conds).value, needsFiltering);
    return Ok(result);
  }

  /** `query2Select`: the base select, its id selects, then the conditions on each of them. */
  method Query2Select(t: Table, q: Query, needsFiltering: Clause -> bool)
    returns (r: Result<seq<Select>, Error>)
    ensures r == Query2SelectSpec(t, q, needsFiltering)
  {
    var select := NewBaseSelect(t, q);
    var ids := QueryId2Select(t, q.ids, select);
    if ids.Err? {
      return Err(ids.error);
    }
    if q.conditions == [] {
      return ids;
    }
    IdSelectsNonEmpty(t, q.ids, select);
    r := ConditionsOnEach(t, q.conditions, ids.value, needsFiltering);
  }

  /** Every select of a translation carries the query's table, limit and orderings. */
  lemma {:induction false} SelectsKeepBase(t: Table, q: Query, needsFiltering: Clause -> bool)
    requires Query2SelectSpec(t, q, needsFiltering).Ok?
    ensures forall s :: s in Query2SelectSpec(t, q, needsFiltering).value ==>
      s.table == t.Name() && s.limit == BaseSelect(t, q).limit && s.orders == Orderings(q.orders)
  {
    var base := BaseSelect(t, q);
    var ids := IdSelects(t, q.ids, base).value;
    assert forall s :: s in ids ==> s.table == t.Name() && s.limit == base.limit && s.orders == base.orders;
  }

  /** Without conditions the id selects are the result, unchanged. */
  lemma NoConditionsGiveIdSelects(t: Table, q: Query, needsFiltering: Clause -> bool)
    requires q.conditions == []
    ensures Query2SelectSpec(t, q, needsFiltering) == IdSelects(t, q.ids, BaseSelect(t, q))
  {
  }

  /**
   * With conditions, each id select gets every compiled clause after its own,
   * and ALLOW FILTERING exactly when it had it or some clause needs it; the
   * number of selects does not change.
   */
  lemma ConditionsExtendEverySelect(t: Table, q: Query, needsFiltering: Clause -> bool)
    requires q.conditions != [] && Query2SelectSpec(t, q, needsFiltering).Ok?
    ensures var ids := IdSelects(t, q.ids, BaseSelect(t, q)).value;
            var cs := CompileAll(t, q.conditions).value;
            var r := Query2SelectSpec(t, q, needsFiltering).value;
      && |r| == |ids| && |cs| == |q.conditions|
      && forall i :: 0 <= i < |r| ==>
           r[i].where == ids[i].where + cs && r[i].table == ids[i].table
           && (r[i].allowFiltering <==> ids[i].allowFiltering || exists j :: 0 <= j < |cs| && needsFiltering(cs[j]))
  {
  }

  /** An OR anywhere in the conditions fails the whole translation (when the ids are well formed). */
  lemma OrConditionFails(t: Table, q: Query, needsFiltering: Clause -> bool, i: nat)
    requires i < |q.conditions| && q.conditions[i].OrCond?
    requires IdSelects(t, q.ids, BaseSelect(t, q)).Ok?
    ensures Query2SelectSpec(t, q, needsFiltering).Err?
  {
    assert !Compilable(q.conditions[i]);
  }

  /** The offset never reaches a select. */
  lemma OffsetIgnored(t: Table, q: Query, needsFiltering: Clause -> bool, offset: int)
    ensures Query2SelectSpec(t, q.(offset := offset), needsFiltering) == Query2SelectSpec(t, q, needsFiltering)
  {
    assert BaseSelect(t, q.(offset := offset)) == BaseSelect(t, q);
  }

  /** The base select's LIMIT: absent when unbounded, else the limit truncated to an `int`. */
  lemma LimitOfBaseSelect(t: Table, q: Query)
    ensures q.limit == NoLimit ==> BaseSelect(t, q).limit == None
    ensures 0 < q.limit < 0x8000_0000 ==> BaseSelect(t, q).limit == Some(q.limit)
    ensures q.limit == 0x1_0000_0001 ==> BaseSelect(t, q).limit == Some(1)
  {
  }

  /** Any id whose part count is wrong for the table fails translation, naming the first such id. */
  lemma {:induction false} MalformedIdFails(t: Table, q: Query, needsFiltering: Clause -> bool, j: nat)
    requires j < |q.ids| && ArityMismatch(t, q.ids[j])
    ensures var r := Query2SelectSpec(t, q, needsFiltering);
      r.Err? && exists k :: 0 <= k <= j && r.error == UnsupportedIdFormat(q.ids[k], t.IdColumns())
  {
    var m := FirstMismatch(t, q.ids);
    assert m.Some?;
  }

  /**
   * Statement count from ids: one id column gives one select with one IN
   * clause over every id's part, in id order; several id columns give one
   * select per id, in id order, binding every id column by equality.
   */
  lemma {:induction false} IdSelectShapes(t: Table, ids: seq<Id>, base: Select)
    requires ids != [] && IdSelects(t, ids, base).Ok?
    ensures var r := IdSelects(t, ids, base).value; var names := t.IdColumns();
      && (|names| == 1 ==>
            |r| == 1 && r[0].where == base.where + [Clause.In(Format(names[0]), FirstParts(t, ids))]
            && forall i :: 0 <= i < |ids| ==> [FirstParts(t, ids)[i].s] == t.IdColumnValue(ids[i]))
      && (|names| > 1 ==>
            |r| == |ids| && forall i :: 0 <= i < |ids| ==>
              && r[i].table == base.table && r[i].limit == base.limit && r[i].orders == base.orders
              && |r[i].where| == |base.where| + |names|
              && r[i].where[..|base.where|] == base.where
              && BindsPositionally(r[i].where[|base.where|..], names, t.IdColumnValue(ids[i])))
  {
    var names := t.IdColumns();
    assert FirstMismatch(t, ids).None?;
    if |names| > 1 {
      var r := IdSelects(t, ids, base).value;
      forall i | 0 <= i < |ids|
        ensures r[i].where[..|base.where|] == base.where
        ensures BindsPositionally(r[i].where[|base.where|..], names, t.IdColumnValue(ids[i]))
      {
        assert r[i].where == base.where + IdEquals(names, t.IdColumnValue(ids[i]));
        assert r[i].where[|base.where|..] == IdEquals(names, t.IdColumnValue(ids[i]));
      }
    } else {
      forall i | 0 <= i < |ids|
        ensures [FirstParts(t, ids)[i].s] == t.IdColumnValue(ids[i])
      {
        assert !ArityMismatch(t, ids[i]);
      }
    }
  }
}
