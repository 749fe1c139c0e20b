/** An abstract relational store standing in for the PostgreSQL database the
    loader writes to. A table is a sequence of rows in insertion order; the
    store hands every inserted row a fresh identity value from one counter,
    as a serial column's `RETURNING ..._id` would. No SQL is parsed: each
    statement the loader issues is one function here. */
module Relational {
  import opened Wrappers

  /** A cell of a source record, as read from the flat files. Measures such
      as a sales amount are kept as opaque `Decimal` text. */
  datatype Value = Int(i: int) | Text(s: string) | Decimal(repr: string)

  /** A stored row: its identity value and the cells written by the INSERT. */
  datatype Row = Row(id: nat, fields: map<string, Value>)

  /** The relations of the snowflake schema: six leaf dimensions, four
      composite dimensions and the fact table. */
  datatype TableName =
    | CategoryDim | BrandDim | CityDim | StateDim | CountryDim | MonthDim
    | ProductDim | LocationDim | CustomerDim | DateDim
    | SalesFact

  /** The name a statement uses for the relation. */
  function Name(t: TableName): string {
    match t
    case CategoryDim => "Category_Dim"
    case BrandDim => "Brand_Dim"
    case CityDim => "City_Dim"
    case StateDim => "State_Dim"
    case CountryDim => "Country_Dim"
    case MonthDim => "Month_Dim"
    case ProductDim => "Product_Dim"
    case LocationDim => "Location_Dim"
    case CustomerDim => "Customer_Dim"
    case DateDim => "Date_Dim"
    case SalesFact => "Sales_Fact"
  }

  predicate IsLeaf(t: TableName) {
    t.CategoryDim? || t.BrandDim? || t.CityDim? || t.StateDim? || t.CountryDim? || t.MonthDim?
  }

  /** The database: the rows of every relation that exists, in insertion
      order, and the counter identity values are drawn from. Which columns a
      relation has is fixed by the schema (`IdentityColumn`, `Columns`). */
  datatype Store = Store(tables: map<TableName, seq<Row>>, nextId: nat)

  /** Everything that aborts a load: a statement naming a relation or column
      the store does not have, or a natural key missing from an in-memory map
      (Python's `KeyError`). */
  datatype Error =
    | UnknownTable(table: TableName)
    | UnknownColumns(table: TableName, columns: set<string>)
    | KeyError(cache: string, key: seq<Value>)

  /** The identity column the resolver names for `table`: the table name
      without its last four characters, followed by `_id`. Python's `s[:-4]`
      is the empty string when `s` has fewer than four characters. */
  function IdColumn(table: string): string {
    (if |table| >= 4 then table[..|table| - 4] else "") + "_id"
  }

  /** Every `X_Dim` table gets the identity column `X_id`. */
  lemma IdColumnOfDimTable(base: string)
    ensures IdColumn(base + "_Dim") == base + "_id"
  {
    assert (base + "_Dim")[..|base|] == base;
  }

  /** The identity column the schema gives each relation. */
  function IdentityColumn(t: TableName): string {
    match t
    case CategoryDim => "Category_id"
    case BrandDim => "Brand_id"
    case CityDim => "City_id"
    case StateDim => "State_id"
    case CountryDim => "Country_id"
    case MonthDim => "Month_id"
    case ProductDim => "product_id"
    case LocationDim => "location_id"
    case CustomerDim => "customer_id"
    case DateDim => "date_id"
    case SalesFact => "sales_id"
  }

  /** The other columns the schema gives each relation. */
  function Columns(t: TableName): set<string> {
    match t
    case CategoryDim => {"category_name"}
    case BrandDim => {"brand_name"}
    case CityDim => {"city_name"}
    case StateDim => {"state_name"}
    case CountryDim => {"country_name"}
    case MonthDim => {"month_name"}
    case ProductDim => {"product_name", "category_id", "brand_id"}
    case LocationDim => {"city_id", "state_id", "country_id"}
    case CustomerDim => {"customer_name", "gender", "age_group", "location_id"}
    case DateDim => {"year", "quarter", "month_id", "day", "weekday"}
    case SalesFact => {"product_id", "customer_id", "date_id", "location_id", "sales_amount", "quantity_sold"}
  }

  /** For each leaf dimension, the column the resolver derives from the
      relation's name is the relation's identity column. */
  lemma LeafIdColumns(t: TableName)
    requires IsLeaf(t)
    ensures IdColumn(Name(t)) == IdentityColumn(t)
  {
    match t
    case CategoryDim => IdColumnOfDimTable("Category");
    case BrandDim => IdColumnOfDimTable("Brand");
    case CityDim => IdColumnOfDimTable("City");
    case StateDim => IdColumnOfDimTable("State");
    case CountryDim => IdColumnOfDimTable("Country");
    case MonthDim => IdColumnOfDimTable("Month");
  }

  /** The identity values present in a relation's rows. */
  function Ids(rows: seq<Row>): set<nat> {
    set i | 0 <= i < |rows| :: rows[i].id
  }

  /** `WHERE column = value` holds of a row. */
  predicate Matches(r: Row, column: string, value: Value) {
    column in r.fields && r.fields[column] == value
  }

  /** No row of `rows` at or after `from` satisfies `column = value`. */
  predicate NoMatchFrom(rows: seq<Row>, column: string, value: Value, from: nat) {
    forall j :: from <= j < |rows| ==> !Matches(rows[j], column, value)
  }

  /** Row `i` is the first row at or after `from` satisfying
      `column = value`. */
  predicate FirstMatchFrom(rows: seq<Row>, column: string, value: Value, from: nat, i: nat) {
    && from <= i < |rows|
    && Matches(rows[i], column, value)
    && forall j :: from <= j < i ==> !Matches(rows[j], column, value)
  }

  /** The index of the first row at or after `from` satisfying
      `column = value`, if any. */
  function FindFrom(rows: seq<Row>, column: string, value: Value, from: nat): (r: Option<nat>)
    requires from <= |rows|
    ensures r.Some? ==> from <= r.value < |rows|
    decreases |rows| - from
  {
    if from == |rows| then None
    else if Matches(rows[from], column, value) then Some(from)
    else FindFrom(rows, column, value, from + 1)
  }

  /** The scan finds the first match, and finds nothing exactly when no row
      matches. */
  lemma {:induction false} FindFromFirst(rows: seq<Row>, column: string, value: Value, from: nat)
    requires from <= |rows|
    ensures FindFrom(rows, column, value, from).Some? ==>
      FirstMatchFrom(rows, column, value, from, FindFrom(rows, column, value, from).value)
    ensures FindFrom(rows, column, value, from).None? <==> NoMatchFrom(rows, column, value, from)
    decreases |rows| - from
  {
    if from < |rows| && !Matches(rows[from], column, value) {
      FindFromFirst(rows, column, value, from + 1);
    }
  }

  /** `SELECT <identity> FROM t WHERE column = value` followed by a fetch of
      one row: the identity of the first matching row, or None when no row
      matches. */
  function Lookup(rows: seq<Row>, column: string, value: Value): Option<nat> {
    match FindFrom(rows, column, value, 0)
    case Some(i) => Some(rows[i].id)
    case None => None
  }

  /** A lookup finds nothing exactly when no row matches. */
  lemma LookupNone(rows: seq<Row>, column: string, value: Value)
    ensures Lookup(rows, column, value).None? <==> NoMatchFrom(rows, column, value, 0)
  {
    FindFromFirst(rows, column, value, 0);
  }

  /** A lookup that finds something returns the identity of the first
      matching row. */
  lemma LookupFirst(rows: seq<Row>, column: string, value: Value, i: nat)
    requires FirstMatchFrom(rows, column, value, 0, i)
    ensures Lookup(rows, column, value) == Some(rows[i].id)
  {
    FindFromFirst(rows, column, value, 0);
    var k := FindFrom(rows, column, value, 0).value;
    assert !(k < i) && !(i < k);
  }

  /** The row a successful lookup found. */
  lemma LookupFound(rows: seq<Row>, column: string, value: Value)
    requires Lookup(rows, column, value).Some?
    ensures var i := FindFrom(rows, column, value, 0).value;
      FirstMatchFrom(rows, column, value, 0, i) && Lookup(rows, column, value) == Some(rows[i].id)
  {
    FindFromFirst(rows, column, value, 0);
  }

  /** Every identity already handed out is below the counter. */
  predicate RowsWellFormed(rows: seq<Row>, nextId: nat) {
    forall i :: 0 <= i < |rows| ==> rows[i].id < nextId
  }

  predicate WellFormed(st: Store) {
    forall name | name in st.tables :: RowsWellFormed(st.tables[name], st.nextId)
  }

  /** `st` evolves into `st'` by appending rows only: the same relations,
      every old row kept in place, the counter not reset. */
  predicate Extends(st: Store, st': Store) {
    && st.tables.Keys == st'.tables.Keys
    && st.nextId <= st'.nextId
    && forall name | name in st.tables :: st.tables[name] <= st'.tables[name]
  }

  /** Only the relations in `touched` may differ between `st` and `st'`. */
  predicate Untouched(st: Store, st': Store, touched: set<TableName>) {
    forall name | name in st.tables && name !in touched ::
      name in st'.tables && st'.tables[name] == st.tables[name]
  }

  /** `INSERT INTO table (cells' columns) VALUES (cells' values)`, optionally
      `RETURNING` a column. The statement fails without effect when the
      relation does not exist or a named column is not one of its columns;
      only the identity column can be returned. On success the new row
      carries the next identity. */
  function Insert(st: Store, table: TableName, cells: map<string, Value>, returning: Option<string>)
    : (r: Result<(nat, Store), Error>)
    ensures r.Success? <==>
      && table in st.tables
      && cells.Keys <= Columns(table)
      && (returning.None? || returning.value == IdentityColumn(table))
    ensures r.Success? ==>
      var (id, st') := r.value;
      && Extends(st, st')
      && Untouched(st, st', {table})
      && st'.tables[table] == st.tables[table] + [Row(id, cells)]
      && id == st.nextId && st'.nextId == st.nextId + 1
      && (WellFormed(st) ==> WellFormed(st'))
  {
    if table !in st.tables then Failure(UnknownTable(table))
    else if !(cells.Keys <= Columns(table)) then Failure(UnknownColumns(table, cells.Keys - Columns(table)))
    else if returning.Some? && returning.value != IdentityColumn(table) then Failure(UnknownColumns(table, {returning.value}))
    else
      AppendKeepsWellFormed(st, table, cells);
      Success((st.nextId, Append(st, table, cells)))
  }

  /** The store after appending a row with the next identity to `table`. */
  function Append(st: Store, table: TableName, cells: map<string, Value>): Store
    requires table in st.tables
  {
    Store(st.tables[table := st.tables[table] + [Row(st.nextId, cells)]], st.nextId + 1)
  }

  lemma AppendKeepsWellFormed(st: Store, table: TableName, cells: map<string, Value>)
    requires table in st.tables
    ensures WellFormed(st) ==> WellFormed(Append(st, table, cells))
  {
    var st' := Append(st, table, cells);
    if WellFormed(st) {
      forall name | name in st'.tables
        ensures RowsWellFormed(st'.tables[name], st'.nextId)
      {
        assert RowsWellFormed(st.tables[name], st.nextId);
      }
    }
  }

  /** The counter's value is not yet the identity of any row. */
  lemma NextIdFresh(st: Store, table: TableName)
    requires WellFormed(st) && table in st.tables
    ensures st.nextId !in Ids(st.tables[table])
  {
    assert RowsWellFormed(st.tables[table], st.nextId);
  }

  /** A lookup that finds a row keeps finding that row while the store only
      grows. */
  lemma LookupStable(st: Store, st': Store, table: TableName, column: string, value: Value)
    requires Extends(st, st') && table in st.tables
    requires Lookup(st.tables[table], column, value).Some?
    ensures Lookup(st'.tables[table], column, value) == Lookup(st.tables[table], column, value)
  {
    var rows, rows' := st.tables[table], st'.tables[table];
    LookupFound(rows, column, value);
    var i := FindFrom(rows, column, value, 0).value;
    assert rows'[i] == rows[i];
    assert forall j :: 0 <= j < i ==> rows'[j] == rows[j];
    LookupFirst(rows', column, value, i);
  }

  /** A row appended to rows in which none matched becomes the first
      match. */
  lemma LookupAppended(rows: seq<Row>, row: Row, column: string, value: Value)
    requires Lookup(rows, column, value).None? && Matches(row, column, value)
    ensures Lookup(rows + [row], column, value) == Some(row.id)
  {
    LookupNone(rows, column, value);
    var rows' := rows + [row];
    assert rows'[|rows|] == row;
    assert forall j :: 0 <= j < |rows| ==> rows'[j] == rows[j];
    LookupFirst(rows', column, value, |rows|);
  }

  lemma ExtendsTransitive(a: Store, b: Store, c: Store)
    requires Extends(a, b) && Extends(b, c)
    ensures Extends(a, c)
  {
  }

  lemma UntouchedTransitive(a: Store, b: Store, c: Store, ab: set<TableName>, bc: set<TableName>, abc: set<TableName>)
    requires Extends(a, b) && Untouched(a, b, ab) && Untouched(b, c, bc)
    requires ab <= abc && bc <= abc
    ensures Untouched(a, c, abc)
  {
  }

  /** The store the loader's statements presuppose: every relation of the
      schema exists. */
  predicate Conforms(st: Store) {
    && WellFormed(st)
    && forall t: TableName :: t in st.tables
  }

  /** A store grown from a conforming one, and still well formed, conforms. */
  lemma ExtendsKeepsConforms(st: Store, st': Store)
    requires Conforms(st) && Extends(st, st') && WellFormed(st')
    ensures Conforms(st')
  {
  }

  const AllTables: set<TableName> := {
    CategoryDim, BrandDim, CityDim, StateDim, CountryDim, MonthDim,
    ProductDim, LocationDim, CustomerDim, DateDim, SalesFact}

  lemma SchemaTable(t: TableName)
    ensures t in AllTables
  {
    match t
    case CategoryDim =>
    case BrandDim =>
    case CityDim =>
    case StateDim =>
    case CountryDim =>
    case MonthDim =>
    case ProductDim =>
    case LocationDim =>
    case CustomerDim =>
    case DateDim =>
    case SalesFact =>
  }

  /** The schema with every relation empty. */
  function EmptySnowflake(): (st: Store)
    ensures Conforms(st)
    ensures forall t | t in st.tables :: st.tables[t] == []
  {
    var st := Store(map t | t in AllTables :: [], 1);
    forall t: TableName ensures t in AllTables {
      SchemaTable(t);
    }
    st
  }
}
