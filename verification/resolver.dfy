/** The check-then-insert resolver for leaf dimensions (`get_or_insert`):
    look a natural-key value up in a table and return the identity of the row
    holding it, inserting exactly one row when none does. */
module Resolver {
  import opened Wrappers
  import opened Relational

  /** The statements the resolver issues name an existing relation, one of
      its columns and, through `IdColumn`, its identity column. */
  predicate Resolvable(st: Store, table: TableName, column: string) {
    && table in st.tables
    && column in Columns(table)
    && IdColumn(Name(table)) == IdentityColumn(table)
  }

  /** `get_or_insert(cursor, table, column, value)`. */
  function GetOrInsert(st: Store, table: TableName, column: string, value: Value)
    : (r: Result<(nat, Store), Error>)
    ensures r.Success? <==> Resolvable(st, table, column)
    ensures r.Success? ==>
      var (id, st') := r.value;
      && Extends(st, st')
      && Untouched(st, st', {table})
      && Lookup(st'.tables[table], column, value) == Some(id)
      && (WellFormed(st) ==> WellFormed(st'))
  {
    var idColumn := IdColumn(Name(table));
    if table !in st.tables then Failure(UnknownTable(table))
    else if column !in Columns(table) then Failure(UnknownColumns(table, {column}))
    else if idColumn != IdentityColumn(table) then Failure(UnknownColumns(table, {idColumn}))
    else
      match Lookup(st.tables[table], column, value)
      case Some(id) => Success((id, st))
      case None =>
        var r := Insert(st, table, map[column := value], Some(idColumn));
        LookupAppended(st.tables[table], Row(r.value.0, map[column := value]), column, value);
        r
  }

  /** A value already present: its row's identity, and nothing is written. */
  lemma GetOrInsertFound(st: Store, table: TableName, column: string, value: Value)
    requires GetOrInsert(st, table, column, value).Success?
    requires Lookup(st.tables[table], column, value).Some?
    ensures GetOrInsert(st, table, column, value).value == (Lookup(st.tables[table], column, value).value, st)
  {
  }

  /** An absent value: exactly one new row holding it, under the next
      identity of the store. */
  lemma GetOrInsertAbsent(st: Store, table: TableName, column: string, value: Value)
    requires GetOrInsert(st, table, column, value).Success?
    requires Lookup(st.tables[table], column, value).None?
    ensures var (id, st') := GetOrInsert(st, table, column, value).value;
      && st'.tables[table] == st.tables[table] + [Row(id, map[column := value])]
      && id == st.nextId
      && st'.nextId == st.nextId + 1
  {
  }

  /** A second resolution of the same value returns the same identity and
      writes nothing. */
  lemma GetOrInsertIdempotent(st: Store, table: TableName, column: string, value: Value)
    requires GetOrInsert(st, table, column, value).Success?
    ensures var (id, st') := GetOrInsert(st, table, column, value).value;
      GetOrInsert(st', table, column, value) == Success((id, st'))
  {
  }

  /** A value absent from the table gets an identity that differs from every
      identity already in the table. */
  lemma GetOrInsertFresh(st: Store, table: TableName, column: string, value: Value)
    requires WellFormed(st) && GetOrInsert(st, table, column, value).Success?
    requires Lookup(st.tables[table], column, value).None?
    ensures GetOrInsert(st, table, column, value).value.0 !in Ids(st.tables[table])
  {
    NextIdFresh(st, table);
  }

  /** No two of the rows hold the same value in `column`. */
  predicate KeyUnique(rows: seq<Row>, column: string) {
    forall i, j :: 0 <= i < j < |rows| && column in rows[j].fields ==>
      !Matches(rows[i], column, rows[j].fields[column])
  }

  /** Resolution keeps a table's natural key unique, and afterwards exactly
      one row holds the resolved value: the one with the returned identity. */
  lemma GetOrInsertKeepsKeyUnique(st: Store, table: TableName, column: string, value: Value)
    requires GetOrInsert(st, table, column, value).Success?
    requires KeyUnique(st.tables[table], column)
    ensures var (id, st') := GetOrInsert(st, table, column, value).value;
      && KeyUnique(st'.tables[table], column)
      && forall i :: 0 <= i < |st'.tables[table]| && Matches(st'.tables[table][i], column, value) ==>
           st'.tables[table][i].id == id
  {
    var (id, st') := GetOrInsert(st, table, column, value).value;
    var rows, rows' := st.tables[table], st'.tables[table];
    if Lookup(st.tables[table], column, value).None? {
      LookupNone(st.tables[table], column, value);
      GetOrInsertAbsent(st, table, column, value);
      forall i, j | 0 <= i < j < |rows'| && column in rows'[j].fields
        ensures !Matches(rows'[i], column, rows'[j].fields[column])
      {
        if j < |rows| {
          assert rows'[i] == rows[i] && rows'[j] == rows[j];
        } else {
          assert rows'[i] == rows[i];
        }
      }
    } else {
      GetOrInsertFound(st, table, column, value);
    }
    LookupFound(rows', column, value);
    var k := FindFrom(rows', column, value, 0).value;
    forall i | 0 <= i < |rows'| && Matches(rows'[i], column, value)
      ensures i == k
    {
    }
  }
}
