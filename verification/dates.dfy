/** The date loop: for every record of `date_data`, resolve its month name,
    insert one Date_Dim row, and remember the new row's identity under the
    `(year, quarter, month, day)` tuple in `date_id_map`. */
module Dates {
  import opened Wrappers
  import opened Relational
  import opened KeyMaps
  import opened Growth

  datatype DateRecord = DateRecord(year: Value, quarter: Value, month: Value, day: Value, weekday: Value)

  /** The key of `date_id_map`; the month is keyed by its name, not by its
      Month_Dim identity. The weekday is not part of the key. */
  datatype DateKey = DateKey(year: Value, quarter: Value, month: Value, day: Value)

  function KeyOf(rec: DateRecord): DateKey {
    DateKey(rec.year, rec.quarter, rec.month, rec.day)
  }

  /** The key a `KeyError` on `date_id_map` reports. */
  function DateKeyValues(k: DateKey): seq<Value> {
    [k.year, k.quarter, k.month, k.day]
  }

  /** The relations the date loop writes to. */
  const DateTables: set<TableName> := {MonthDim, DateDim}

  /** The cells the loop writes into Date_Dim: every column of the relation
      but its identity. */
  function DateCells(rec: DateRecord, monthId: nat): (cells: map<string, Value>)
    ensures cells.Keys == Columns(DateDim)
  {
    map["year" := rec.year, "quarter" := rec.quarter, "month_id" := Int(monthId),
        "day" := rec.day, "weekday" := rec.weekday]
  }

  /** `row` is the Date_Dim row written for `rec`: its calendar fields and
      the identity under which Month_Dim holds its month name. */
  predicate DateRowFor(st: Store, rec: DateRecord, row: Row) {
    && Resolved(st, MonthDim, "month_name", rec.month)
    && row.fields == DateCells(rec, ResolvedId(st, MonthDim, "month_name", rec.month))
  }

  lemma DateRowForStable(st: Store, st': Store, rec: DateRecord, row: Row)
    requires Extends(st, st') && DateRowFor(st, rec, row)
    ensures DateRowFor(st', rec, row)
  {
    ResolvedStable(st, st', MonthDim, "month_name", rec.month);
  }

  /** Rows describing their records keep doing so while the store grows. */
  lemma DateRowsStable(st: Store, st': Store, recs: seq<DateRecord>, rows: seq<Row>)
    requires Extends(st, st') && |rows| == |recs|
    requires forall i :: 0 <= i < |recs| ==> DateRowFor(st, recs[i], rows[i])
    ensures forall i :: 0 <= i < |recs| ==> DateRowFor(st', recs[i], rows[i])
  {
    forall i | 0 <= i < |recs|
      ensures DateRowFor(st', recs[i], rows[i])
    {
      DateRowForStable(st, st', recs[i], rows[i]);
    }
  }

  /** One iteration of the date loop. On a conforming store it cannot fail;
      it appends exactly one Date_Dim row, describing the record, and maps the
      record's key to that row's identity. */
  method DateStep(st: Store, ids: map<DateKey, nat>, rec: DateRecord)
    returns (r: Result<(Store, map<DateKey, nat>), Error>)
    ensures Conforms(st) ==> r.Success?
    ensures r.Success? ==>
      var (st', ids') := r.value;
      && Grew(st, st', DateTables)
      && OneRowAdded(st, st', DateDim)
      && DateRowFor(st', rec, NewRow(st, st', DateDim))
      && ids' == ids[KeyOf(rec) := NewRow(st, st', DateDim).id]
      && DateLeaves(st, [rec], st')
  {
    var month :- ResolveLeaf(st, MonthDim, rec.month);
    var date :- InsertRow(month.1, DateDim, DateCells(rec, month.0), Some("date_id"));
    DateStepDone(st, month.1, date.1, rec, month.0, date.0);
    LeafGrewKept(st, month.1, date.1, {DateDim}, MonthDim, [rec.month]);
    assert Months([rec]) == [rec.month];
    r := Success((date.1, ids[KeyOf(rec) := date.0]));
  }

  /** The statements of one iteration, composed. */
  lemma DateStepDone(st: Store, st1: Store, st2: Store, rec: DateRecord, monthId: nat, dateId: nat)
    requires Grew(st, st1, {MonthDim}) && Resolved(st1, MonthDim, "month_name", rec.month)
    requires ResolvedId(st1, MonthDim, "month_name", rec.month) == monthId
    requires Grew(st1, st2, {DateDim}) && OneRowAdded(st1, st2, DateDim)
    requires NewRow(st1, st2, DateDim) == Row(dateId, DateCells(rec, monthId))
    ensures Grew(st, st2, DateTables) && OneRowAdded(st, st2, DateDim)
    ensures NewRow(st, st2, DateDim) == Row(dateId, DateCells(rec, monthId))
    ensures DateRowFor(st2, rec, NewRow(st, st2, DateDim))
  {
    GrewTransitive(st, st1, st2, {MonthDim}, {DateDim}, DateTables);
    ResolvedStable(st1, st2, MonthDim, "month_name", rec.month);
  }

  /** The month names of the records, in order. */
  function Months(recs: seq<DateRecord>): (vs: seq<Value>)
    ensures |vs| == |recs|
    ensures forall i :: 0 <= i < |recs| ==> vs[i] == recs[i].month
  {
    seq(|recs|, i requires 0 <= i < |recs| => recs[i].month)
  }

  /** The only rows the date loop adds to Month_Dim are one per month name
      of its records that Month_Dim did not hold yet, each holding that name
      alone. */
  predicate DateLeaves(st: Store, recs: seq<DateRecord>, st': Store) {
    LeafGrewBy(st, st', MonthDim, Months(recs))
  }

  lemma DateLeavesSnoc(st: Store, recs: seq<DateRecord>, st1: Store, rec: DateRecord, st2: Store)
    requires DateLeaves(st, recs, st1) && DateLeaves(st1, [rec], st2)
    ensures DateLeaves(st, recs + [rec], st2)
  {
    LeafGrewTransitive(st, st1, st2, MonthDim, Months(recs), Months([rec]));
    assert Months(recs + [rec]) == Months(recs) + Months([rec]);
  }

  /** The keys of `date_id_map`, one per source record. */
  function DateKeys(recs: seq<DateRecord>): (keys: seq<DateKey>)
    ensures |keys| == |recs|
    ensures forall i :: 0 <= i < |recs| ==> keys[i] == KeyOf(recs[i])
  {
    seq(|recs|, i requires 0 <= i < |recs| => KeyOf(recs[i]))
  }

  lemma DateKeysSnoc(recs: seq<DateRecord>, rec: DateRecord)
    ensures DateKeys(recs + [rec]) == DateKeys(recs) + [KeyOf(rec)]
  {
  }

  /** What the date loop has done after the records `recs`: it touched only
      the date tables, appended one Date_Dim row per record, in order and even
      for repeated records, each describing its record under a fresh
      identity, and built `date_id_map` by assigning each row's identity to
      its record's key in turn. */
  predicate DateStaged(st: Store, recs: seq<DateRecord>, st': Store, m: map<DateKey, nat>) {
    && Appended(st, st', DateTables, DateDim, |recs|)
    && (forall i :: 0 <= i < |recs| ==> DateRowFor(st', recs[i], Added(st, st', DateDim)[i]))
    && m == Assign(DateKeys(recs), RowIds(Added(st, st', DateDim)))
    && DateLeaves(st, recs, st')
  }

  lemma DateStagedNothing(st: Store)
    ensures DateStaged(st, [], st, map[])
  {
    AppendedNothing(st, DateTables, DateDim);
    LeafGrewUntouched(st, st, {}, MonthDim, []);
  }

  /** The loop's description extends by one iteration. */
  lemma DateStagedNext(st: Store, recs: seq<DateRecord>, i: nat, st1: Store, m1: map<DateKey, nat>,
                       st2: Store, m2: map<DateKey, nat>)
    requires i < |recs| && DateStaged(st, recs[..i], st1, m1)
    requires Grew(st1, st2, DateTables) && OneRowAdded(st1, st2, DateDim)
    requires DateRowFor(st2, recs[i], NewRow(st1, st2, DateDim))
    requires m2 == m1[KeyOf(recs[i]) := NewRow(st1, st2, DateDim).id]
    requires DateLeaves(st1, [recs[i]], st2)
    ensures DateStaged(st, recs[..i + 1], st2, m2)
  {
    TakeSnoc(recs, i);
    DateStagedSnoc(st, recs[..i], st1, m1, recs[i], st2, m2);
  }

  lemma DateStagedSnoc(st: Store, recs: seq<DateRecord>, st1: Store, m1: map<DateKey, nat>,
                       rec: DateRecord, st2: Store, m2: map<DateKey, nat>)
    requires DateStaged(st, recs, st1, m1)
    requires Grew(st1, st2, DateTables) && OneRowAdded(st1, st2, DateDim)
    requires DateRowFor(st2, rec, NewRow(st1, st2, DateDim))
    requires m2 == m1[KeyOf(rec) := NewRow(st1, st2, DateDim).id]
    requires DateLeaves(st1, [rec], st2)
    ensures DateStaged(st, recs + [rec], st2, m2)
  {
    DateLeavesSnoc(st, recs, st1, rec, st2);
    AppendedSnoc(st, st1, st2, DateTables, DateDim, |recs|);
    var before, row := Added(st, st1, DateDim), NewRow(st1, st2, DateDim);
    DateRowsSnoc(st1, st2, recs, before, rec, row);
    DateKeysSnoc(recs, rec);
    MapSnoc(DateKeys(recs), before, m1, KeyOf(rec), row);
  }

  lemma DateRowsSnoc(st1: Store, st2: Store, recs: seq<DateRecord>, rows: seq<Row>, rec: DateRecord, row: Row)
    requires Extends(st1, st2) && |rows| == |recs|
    requires forall i :: 0 <= i < |recs| ==> DateRowFor(st1, recs[i], rows[i])
    requires DateRowFor(st2, rec, row)
    ensures forall i :: 0 <= i < |recs| + 1 ==> DateRowFor(st2, (recs + [rec])[i], (rows + [row])[i])
  {
    forall i | 0 <= i < |recs| + 1
      ensures DateRowFor(st2, (recs + [rec])[i], (rows + [row])[i])
    {
      if i < |recs| {
        DateRowForStable(st1, st2, recs[i], rows[i]);
      }
    }
  }

  /** The loop over `date_data`, in file order; the first failing statement
      aborts it. On a conforming store it cannot fail. */
  method DateStage(st: Store, recs: seq<DateRecord>)
    returns (r: Result<(Store, map<DateKey, nat>), Error>)
    ensures Conforms(st) ==> r.Success?
    ensures r.Success? ==> DateStaged(st, recs, r.value.0, r.value.1)
  {
    var cur, ids := st, map[];
    DateStagedNothing(st);
    var i := 0;
    while i < |recs|
      invariant 0 <= i <= |recs|
      invariant DateStaged(st, recs[..i], cur, ids)
    {
      var next :- DateStep(cur, ids, recs[i]);
      DateStagedNext(st, recs, i, cur, ids, next.0, next.1);
      cur, ids := next.0, next.1;
      i := i + 1;
    }
    assert recs[..i] == recs;
    r := Success((cur, ids));
  }
}
