/** Facts shared by the loader's stages: which rows a run of statements
    appended to a relation, that the identities they carry are fresh, and
    that the schema and the leaf dimensions' key uniqueness survive. */
module Growth {
  import opened Wrappers
  import opened Relational
  import opened Resolver
  import opened KeyMaps

  /** The natural-key column the loader passes to `get_or_insert` for each
      leaf dimension. */
  function LeafColumn(t: TableName): string
    requires IsLeaf(t)
  {
    match t
    case CategoryDim => "category_name"
    case BrandDim => "brand_name"
    case CityDim => "city_name"
    case StateDim => "state_name"
    case CountryDim => "country_name"
    case MonthDim => "month_name"
  }

  /** The rows `st'` appended to `table` beyond those of `st`. */
  function Added(st: Store, st': Store, table: TableName): seq<Row>
    requires Extends(st, st')
  {
    if table in st.tables then st'.tables[table][|st.tables[table]|..] else []
  }

  lemma AddedNothing(st: Store, table: TableName)
    ensures Added(st, st, table) == []
  {
  }

  /** The identities of a run of rows, in order. */
  function RowIds(rows: seq<Row>): (ids: seq<nat>)
    ensures |ids| == |rows|
    ensures forall i :: 0 <= i < |rows| ==> ids[i] == rows[i].id
  {
    seq(|rows|, i requires 0 <= i < |rows| => rows[i].id)
  }

  lemma RowIdsSnoc(rows: seq<Row>, row: Row)
    ensures RowIds(rows + [row]) == RowIds(rows) + [row.id]
  {
  }

  /** Identities drawn in increasing order from the counter range
      `[lo, hi)`: all distinct, and none handed out before `lo`. */
  predicate FreshIds(ids: seq<nat>, lo: nat, hi: nat) {
    && (forall i :: 0 <= i < |ids| ==> lo <= ids[i] < hi)
    && (forall i, j :: 0 <= i < j < |ids| ==> ids[i] < ids[j])
  }

  /** `t` exists and none of its rows share a natural key. */
  predicate LeafKeyUnique(st: Store, t: TableName)
    requires IsLeaf(t)
  {
    t in st.tables && KeyUnique(st.tables[t], LeafColumn(t))
  }

  /** No leaf dimension holds two rows with the same natural key. */
  predicate LeafKeysUnique(st: Store) {
    && LeafKeyUnique(st, CategoryDim)
    && LeafKeyUnique(st, BrandDim)
    && LeafKeyUnique(st, CityDim)
    && LeafKeyUnique(st, StateDim)
    && LeafKeyUnique(st, CountryDim)
    && LeafKeyUnique(st, MonthDim)
  }

  /** `st'` grew from `st` by appending rows to `touched` only, and kept the
      schema and the uniqueness of leaf keys. */
  predicate Grew(st: Store, st': Store, touched: set<TableName>) {
    && Extends(st, st')
    && Untouched(st, st', touched)
    && (Conforms(st) ==> Conforms(st'))
    && (LeafKeysUnique(st) ==> LeafKeysUnique(st'))
  }

  lemma GrewNothing(st: Store, touched: set<TableName>)
    ensures Grew(st, st, touched)
  {
  }

  lemma UntouchedKeepsLeafKeysUnique(st: Store, st': Store, table: TableName)
    requires !IsLeaf(table) && Untouched(st, st', {table})
    ensures LeafKeysUnique(st) ==> LeafKeysUnique(st')
  {
  }

  /** Two growth steps make one, touching what either step touched. */
  lemma GrewTransitive(a: Store, b: Store, c: Store, ab: set<TableName>, bc: set<TableName>, abc: set<TableName>)
    requires Grew(a, b, ab) && Grew(b, c, bc)
    requires ab <= abc && bc <= abc
    ensures Grew(a, c, abc)
  {
    ExtendsTransitive(a, b, c);
    UntouchedTransitive(a, b, c, ab, bc, abc);
  }

  /** Exactly one row was appended to `table`, under an identity drawn from
      the counter between the two stores. */
  predicate OneRowAdded(st: Store, st': Store, table: TableName) {
    && Extends(st, st') && table in st.tables
    && |Added(st, st', table)| == 1
    && st.nextId <= Added(st, st', table)[0].id < st'.nextId
  }

  function NewRow(st: Store, st': Store, table: TableName): Row
    requires OneRowAdded(st, st', table)
  {
    Added(st, st', table)[0]
  }

  /** Rows appended by a run of statements followed by one more row: the
      run's rows then the new one, with the identities still fresh and
      increasing. */
  lemma AddedSnoc(st: Store, st1: Store, st2: Store, table: TableName)
    requires Extends(st, st1) && table in st.tables
    requires FreshIds(RowIds(Added(st, st1, table)), st.nextId, st1.nextId)
    requires OneRowAdded(st1, st2, table)
    ensures Extends(st, st2)
    ensures Added(st, st2, table) == Added(st, st1, table) + [NewRow(st1, st2, table)]
    ensures FreshIds(RowIds(Added(st, st2, table)), st.nextId, st2.nextId)
  {
    ExtendsTransitive(st, st1, st2);
    var r0, r1, r2 := st.tables[table], st1.tables[table], st2.tables[table];
    assert r2 == r1 + r2[|r1|..];
    assert r1 == r0 + r1[|r0|..];
    var before, row := Added(st, st1, table), NewRow(st1, st2, table);
    assert Added(st, st2, table) == before + [row];
    RowIdsSnoc(before, row);
  }

  lemma TakeSnoc<T>(s: seq<T>, i: nat)
    requires i < |s|
    ensures s[..i + 1] == s[..i] + [s[i]]
  {
  }

  /** `st'` grew from `st` touching `touched` only, and `table` gained `n`
      rows whose identities were drawn in increasing order from the counter
      range the growth used. */
  predicate Appended(st: Store, st': Store, touched: set<TableName>, table: TableName, n: nat) {
    && Grew(st, st', touched)
    && |Added(st, st', table)| == n
    && FreshIds(RowIds(Added(st, st', table)), st.nextId, st'.nextId)
  }

  lemma AppendedNothing(st: Store, touched: set<TableName>, table: TableName)
    ensures Appended(st, st, touched, table, 0)
  {
    GrewNothing(st, touched);
    AddedNothing(st, table);
  }

  /** Appended rows are never merged: two of them, even written for equal
      records, carry different identities, both new to the store. */
  lemma AppendedDistinct(st: Store, st': Store, touched: set<TableName>, table: TableName, n: nat, i: nat, j: nat)
    requires Appended(st, st', touched, table, n) && i < j < n
    ensures Added(st, st', table)[i].id != Added(st, st', table)[j].id
    ensures Added(st, st', table)[i].id >= st.nextId && Added(st, st', table)[j].id >= st.nextId
  {
    assert RowIds(Added(st, st', table))[i] < RowIds(Added(st, st', table))[j];
    assert RowIds(Added(st, st', table))[i] >= st.nextId;
  }

  /** One more row appended by a further growth step. */
  lemma AppendedSnoc(st: Store, st1: Store, st2: Store, touched: set<TableName>, table: TableName, n: nat)
    requires Appended(st, st1, touched, table, n)
    requires Grew(st1, st2, touched) && OneRowAdded(st1, st2, table)
    ensures Appended(st, st2, touched, table, n + 1)
    ensures Added(st, st2, table) == Added(st, st1, table) + [NewRow(st1, st2, table)]
  {
    GrewTransitive(st, st1, st2, touched, touched, touched);
    AddedSnoc(st, st1, st2, table);
  }

  /** The dict a stage builds, one assignment per appended row. */
  lemma MapSnoc<K>(keys: seq<K>, rows: seq<Row>, m: map<K, nat>, k: K, row: Row)
    requires |keys| == |rows| && m == Assign(keys, RowIds(rows))
    ensures m[k := row.id] == Assign(keys + [k], RowIds(rows + [row]))
  {
    RowIdsSnoc(rows, row);
    AssignSnoc(keys, RowIds(rows), k, row.id);
  }

  /** The identity `table` holds for `value` in `column`, when it has one. */
  predicate Resolved(st: Store, table: TableName, column: string, value: Value) {
    table in st.tables && Lookup(st.tables[table], column, value).Some?
  }

  function ResolvedId(st: Store, table: TableName, column: string, value: Value): nat
    requires Resolved(st, table, column, value)
  {
    Lookup(st.tables[table], column, value).value
  }

  lemma ResolvedStable(st: Store, st': Store, table: TableName, column: string, value: Value)
    requires Extends(st, st') && Resolved(st, table, column, value)
    ensures Resolved(st', table, column, value)
    ensures ResolvedId(st', table, column, value) == ResolvedId(st, table, column, value)
  {
    LookupStable(st, st', table, column, value);
  }

  /** On a conforming store, resolving a leaf value succeeds. */
  lemma ResolveOk(st: Store, table: TableName, value: Value)
    requires Conforms(st) && IsLeaf(table)
    ensures GetOrInsert(st, table, LeafColumn(table), value).Success?
  {
    LeafIdColumns(table);
  }

  /** `get_or_insert` as the loops call it on a leaf dimension, with the
      leaf's natural-key column. On a conforming store it cannot fail; it
      grows the leaf's relation only, and afterwards a lookup of the value
      finds the returned identity. */
  method ResolveLeaf(st: Store, table: TableName, value: Value) returns (r: Result<(nat, Store), Error>)
    requires IsLeaf(table)
    ensures Conforms(st) ==> r.Success?
    ensures r.Success? ==>
      var (id, st') := r.value;
      && Grew(st, st', {table})
      && Resolved(st', table, LeafColumn(table), value)
      && ResolvedId(st', table, LeafColumn(table), value) == id
      && LeafGrewBy(st, st', table, [value])
    ensures r.Success? && Resolved(st, table, LeafColumn(table), value) ==>
      r.value == (ResolvedId(st, table, LeafColumn(table), value), st)
    ensures r.Success? && !Resolved(st, table, LeafColumn(table), value) ==>
      && Extends(st, r.value.1)
      && Added(st, r.value.1, table) == [Row(r.value.0, map[LeafColumn(table) := value])]
  {
    if Conforms(st) {
      ResolveOk(st, table, value);
    }
    r := GetOrInsert(st, table, LeafColumn(table), value);
    if r.Success? {
      if Conforms(st) {
        ExtendsKeepsConforms(st, r.value.1);
      }
      ResolveKeepsLeafKeysUnique(st, table, value);
      ResolveLeafGrowth(st, table, value);
    }
  }

  /** The two outcomes of `get_or_insert` on a leaf: a value the leaf holds
      writes nothing; any other value is appended as one row holding it
      alone. */
  lemma ResolveLeafGrowth(st: Store, table: TableName, value: Value)
    requires IsLeaf(table) && GetOrInsert(st, table, LeafColumn(table), value).Success?
    ensures var (id, st') := GetOrInsert(st, table, LeafColumn(table), value).value;
      && Extends(st, st')
      && (Resolved(st, table, LeafColumn(table), value) ==> id == ResolvedId(st, table, LeafColumn(table), value) && st' == st)
      && (!Resolved(st, table, LeafColumn(table), value) ==>
            Added(st, st', table) == [Row(id, map[LeafColumn(table) := value])])
      && LeafGrewBy(st, st', table, [value])
  {
    var column := LeafColumn(table);
    var (id, st') := GetOrInsert(st, table, column, value).value;
    if Resolved(st, table, column, value) {
      GetOrInsertFound(st, table, column, value);
    } else {
      GetOrInsertAbsent(st, table, column, value);
      assert Added(st, st', table) == [Row(id, map[column := value])];
      assert NewLeafRow(st, table, [value], Added(st, st', table)[0]);
    }
  }

  /** `row` is a leaf row a run appended for one of `values`: it holds that
      value alone, and the leaf did not hold the value before the run. */
  predicate NewLeafRow(st: Store, t: TableName, values: seq<Value>, row: Row)
    requires IsLeaf(t)
  {
    && LeafColumn(t) in row.fields
    && row.fields == map[LeafColumn(t) := row.fields[LeafColumn(t)]]
    && row.fields[LeafColumn(t)] in values
    && !Resolved(st, t, LeafColumn(t), row.fields[LeafColumn(t)])
  }

  /** Every row `st'` appended to the leaf `t` is a new row for one of
      `values`. */
  predicate LeafGrewBy(st: Store, st': Store, t: TableName, values: seq<Value>)
    requires IsLeaf(t)
  {
    Extends(st, st') && forall i :: 0 <= i < |Added(st, st', t)| ==> NewLeafRow(st, t, values, Added(st, st', t)[i])
  }

  /** A growth step that does not write the leaf appends nothing to it. */
  lemma LeafGrewUntouched(st: Store, st': Store, touched: set<TableName>, t: TableName, values: seq<Value>)
    requires IsLeaf(t) && Grew(st, st', touched) && t !in touched
    ensures LeafGrewBy(st, st', t, values)
  {
    if t in st.tables {
      assert st'.tables[t] == st.tables[t];
    }
  }

  /** Two runs' leaf rows make one run's, for the values of both. */
  lemma LeafGrewTransitive(st: Store, st1: Store, st2: Store, t: TableName, vs: seq<Value>, ws: seq<Value>)
    requires IsLeaf(t) && LeafGrewBy(st, st1, t, vs) && LeafGrewBy(st1, st2, t, ws)
    ensures LeafGrewBy(st, st2, t, vs + ws)
  {
    ExtendsTransitive(st, st1, st2);
    if t in st.tables {
      var r0, r1, r2 := st.tables[t], st1.tables[t], st2.tables[t];
      assert r1 == r0 + r1[|r0|..];
      assert r2 == r1 + r2[|r1|..];
      var a, b := Added(st, st1, t), Added(st1, st2, t);
      assert Added(st, st2, t) == a + b;
      forall i | 0 <= i < |a + b|
        ensures NewLeafRow(st, t, vs + ws, (a + b)[i])
      {
        if i < |a| {
          assert NewLeafRow(st, t, vs, a[i]);
        } else {
          var row := b[i - |a|];
          assert NewLeafRow(st1, t, ws, row);
          var v := row.fields[LeafColumn(t)];
          if Resolved(st, t, LeafColumn(t), v) {
            ResolvedStable(st, st1, t, LeafColumn(t), v);
          }
        }
      }
    }
  }

  lemma ResolveKeepsLeafKeysUnique(st: Store, table: TableName, value: Value)
    requires IsLeaf(table) && GetOrInsert(st, table, LeafColumn(table), value).Success?
    ensures LeafKeysUnique(st) ==> LeafKeysUnique(GetOrInsert(st, table, LeafColumn(table), value).value.1)
  {
    if LeafKeysUnique(st) {
      GetOrInsertKeepsKeyUnique(st, table, LeafColumn(table), value);
      var st' := GetOrInsert(st, table, LeafColumn(table), value).value.1;
      assert LeafKeyUnique(st', table);
    }
  }

  /** Leaf rows a run appended survive a later step that does not write the
      leaf. */
  lemma LeafGrewKept(st: Store, st1: Store, st2: Store, touched: set<TableName>, t: TableName, vs: seq<Value>)
    requires IsLeaf(t) && LeafGrewBy(st, st1, t, vs) && Grew(st1, st2, touched) && t !in touched
    ensures LeafGrewBy(st, st2, t, vs)
  {
    LeafGrewUntouched(st1, st2, touched, t, []);
    LeafGrewTransitive(st, st1, st2, t, vs, []);
    assert vs + [] == vs;
  }

  /** Leaf rows a run appended after an earlier step that did not write the
      leaf are all the leaf rows appended since before that step. */
  lemma LeafGrewAfter(st: Store, st1: Store, st2: Store, touched: set<TableName>, t: TableName, vs: seq<Value>)
    requires IsLeaf(t) && Grew(st, st1, touched) && t !in touched && LeafGrewBy(st1, st2, t, vs)
    ensures LeafGrewBy(st, st2, t, vs)
  {
    LeafGrewUntouched(st, st1, touched, t, []);
    LeafGrewTransitive(st, st1, st2, t, [], vs);
    assert [] + vs == vs;
  }

  /** A run whose leaf rows are all for values the leaf already held
      appended nothing to the leaf. */
  lemma NoNewLeafRows(st: Store, st': Store, t: TableName, values: seq<Value>)
    requires IsLeaf(t) && LeafGrewBy(st, st', t, values) && t in st.tables
    requires forall i :: 0 <= i < |values| ==> Resolved(st, t, LeafColumn(t), values[i])
    ensures st'.tables[t] == st.tables[t]
  {
    FirstLeafRowNotNew(st, st', t, values);
    var rows, rows' := st.tables[t], st'.tables[t];
    assert rows' == rows + rows'[|rows|..];
  }

  /** A row holding a value the leaf already held is not a new leaf row. */
  lemma FirstLeafRowNotNew(st: Store, st': Store, t: TableName, values: seq<Value>)
    requires IsLeaf(t) && Extends(st, st')
    requires forall i :: 0 <= i < |values| ==> Resolved(st, t, LeafColumn(t), values[i])
    ensures |Added(st, st', t)| > 0 ==> !NewLeafRow(st, t, values, Added(st, st', t)[0])
  {
  }

  /** An INSERT into a composite dimension or the fact table, as the loops
      issue it: all of the relation's columns but its identity, optionally
      returning the identity. On a conforming store it cannot fail; it
      appends exactly the one row to that relation and leaves the leaves
      alone. */
  method InsertRow(st: Store, table: TableName, cells: map<string, Value>, returning: Option<string>)
    returns (r: Result<(nat, Store), Error>)
    requires !IsLeaf(table)
    ensures Conforms(st) && cells.Keys <= Columns(table) && (returning.None? || returning.value == IdentityColumn(table))
      ==> r.Success?
    ensures r.Success? ==>
      var (id, st') := r.value;
      && Grew(st, st', {table})
      && OneRowAdded(st, st', table)
      && NewRow(st, st', table) == Row(id, cells)
  {
    r := Insert(st, table, cells, returning);
    if r.Success? {
      var (id, st') := r.value;
      if Conforms(st) {
        ExtendsKeepsConforms(st, st');
      }
      assert Added(st, st', table) == [Row(id, cells)];
      UntouchedKeepsLeafKeysUnique(st, st', table);
    }
  }

  /** A relation a later growth step leaves alone keeps the rows appended
      to it so far. */
  lemma AddedUntouched(st: Store, st1: Store, st2: Store, touched: set<TableName>, table: TableName)
    requires Extends(st, st1) && Grew(st1, st2, touched) && table !in touched
    ensures Extends(st, st2)
    ensures Added(st, st2, table) == Added(st, st1, table)
  {
    ExtendsTransitive(st, st1, st2);
  }

  /** Rows appended to a relation an earlier growth step left alone are the
      rows the later step appended. */
  lemma AddedAfterUntouched(st: Store, st1: Store, st2: Store, touched: set<TableName>, table: TableName)
    requires Grew(st, st1, touched) && table !in touched && Extends(st1, st2)
    ensures Extends(st, st2)
    ensures Added(st, st2, table) == Added(st1, st2, table)
  {
    ExtendsTransitive(st, st1, st2);
  }

  /** Appended rows are rows of the relation. */
  lemma AddedIds(st: Store, st': Store, table: TableName)
    requires Extends(st, st') && table in st.tables
    ensures Ids(Added(st, st', table)) <= Ids(st'.tables[table])
  {
    var rows, rows' := st.tables[table], st'.tables[table];
    forall id | id in Ids(Added(st, st', table))
      ensures id in Ids(rows')
    {
      var i :| 0 <= i < |Added(st, st', table)| && Added(st, st', table)[i].id == id;
      assert rows'[|rows| + i].id == id;
    }
  }

  /** A stage's dict maps every key to the identity of one of the rows the
      stage appended. */
  lemma AssignIds<K>(keys: seq<K>, rows: seq<Row>, m: map<K, nat>)
    requires |keys| == |rows| && m == Assign(keys, RowIds(rows))
    ensures forall k | k in m :: m[k] in Ids(rows)
  {
    AssignLastWriteWins(keys, RowIds(rows));
    forall k | k in m
      ensures m[k] in Ids(rows)
    {
      var i :| 0 <= i < |rows| && RowIds(rows)[i] == m[k];
    }
  }

  /** A leaf that was empty and grew only by the name `v`, keeps its key
      unique and holds `v`, holds it in exactly one row: the row `v`
      resolves to. */
  lemma SingleLeafRow(st: Store, st': Store, t: TableName, v: Value)
    requires IsLeaf(t) && t in st.tables && st.tables[t] == []
    requires LeafGrewBy(st, st', t, [v]) && LeafKeyUnique(st', t)
    requires Resolved(st', t, LeafColumn(t), v)
    ensures |st'.tables[t]| == 1
    ensures st'.tables[t][0].fields == map[LeafColumn(t) := v]
    ensures ResolvedId(st', t, LeafColumn(t), v) == st'.tables[t][0].id
  {
    var rows := st'.tables[t];
    assert Added(st, st', t) == rows;
    FindFromFirst(rows, LeafColumn(t), v, 0);
    if |rows| > 1 {
      assert NewLeafRow(st, t, [v], rows[1]);
      assert Matches(rows[0], LeafColumn(t), rows[1].fields[LeafColumn(t)]);
      assert false;
    }
    assert NewLeafRow(st, t, [v], rows[0]);
  }

  /** Identities fresh within a counter range are fresh within any wider
      range. */
  lemma FreshIdsWiden(ids: seq<nat>, lo: nat, hi: nat, lo': nat, hi': nat)
    requires FreshIds(ids, lo, hi) && lo' <= lo && hi <= hi'
    ensures FreshIds(ids, lo', hi')
  {
  }

  /** On a well-formed store, the rows a run appended under fresh
      identities are told apart by their identities: they increase in
      insertion order, and no other row of the relation, old or new,
      carries the identity of one of them. */
  lemma FreshRowsIdentified(st: Store, st': Store, t: TableName)
    requires WellFormed(st) && Extends(st, st') && t in st.tables
    requires FreshIds(RowIds(Added(st, st', t)), st.nextId, st'.nextId)
    ensures forall i, j :: 0 <= i < j < |Added(st, st', t)| ==> Added(st, st', t)[i].id < Added(st, st', t)[j].id
    ensures forall j, k ::
      0 <= j < |Added(st, st', t)| && 0 <= k < |st'.tables[t]| && st'.tables[t][k].id == Added(st, st', t)[j].id
      ==> k == |st.tables[t]| + j
  {
    var rows, rows', added := st.tables[t], st'.tables[t], Added(st, st', t);
    forall i, j | 0 <= i < j < |added|
      ensures added[i].id < added[j].id
    {
      assert RowIds(added)[i] < RowIds(added)[j];
    }
    forall j, k | 0 <= j < |added| && 0 <= k < |rows'| && rows'[k].id == added[j].id
      ensures k == |rows| + j
    {
      assert RowIds(added)[j] >= st.nextId;
      assert k >= |rows|;
      assert rows'[k] == added[k - |rows|];
      assert RowIds(added)[k - |rows|] == RowIds(added)[j];
    }
  }

  /** The fresh identities one stage gave the rows it appended to `t`, seen
      across earlier and later stages that do not write `t`. */
  lemma FreshAcross(st: Store, s1: Store, s2: Store, s3: Store, t: TableName,
                    before: set<TableName>, after: set<TableName>)
    requires Extends(st, s1) && Untouched(st, s1, before) && t !in before
    requires Extends(s1, s2) && FreshIds(RowIds(Added(s1, s2, t)), s1.nextId, s2.nextId)
    requires Extends(s2, s3) && Untouched(s2, s3, after) && t !in after
    ensures Extends(st, s3)
    ensures Added(st, s3, t) == Added(s1, s2, t)
    ensures FreshIds(RowIds(Added(st, s3, t)), st.nextId, s3.nextId)
  {
    ExtendsTransitive(st, s1, s2);
    ExtendsTransitive(st, s2, s3);
    FreshIdsWiden(RowIds(Added(s1, s2, t)), s1.nextId, s2.nextId, st.nextId, s3.nextId);
  }
}
