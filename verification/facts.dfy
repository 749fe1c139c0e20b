/** The fact loop: for every record of `sales_data`, read the product,
    customer, date and location identities from the four in-memory maps, in
    that order, and insert one Sales_Fact row holding them and the record's
    two measures. The first key missing from its map raises `KeyError`
    before anything is inserted for the record. */
module Facts {
  import opened Wrappers
  import opened Relational
  import opened Growth
  import opened Locations
  import opened Dates

  datatype SaleRecord = SaleRecord(
    productName: Value, customerName: Value,
    year: Value, quarter: Value, month: Value, day: Value,
    city: Value, state: Value, country: Value,
    salesAmount: Value, quantitySold: Value)

  /** The four maps the earlier loops built. */
  datatype IdMaps = IdMaps(
    products: map<Value, nat>, customers: map<Value, nat>,
    dates: map<DateKey, nat>, locations: map<Place, nat>)

  /** The keys each map holds. */
  datatype KeySets = KeySets(
    products: set<Value>, customers: set<Value>,
    dates: set<DateKey>, locations: set<Place>)

  function KeysOf(maps: IdMaps): KeySets {
    KeySets(maps.products.Keys, maps.customers.Keys, maps.dates.Keys, maps.locations.Keys)
  }

  function SaleDate(s: SaleRecord): DateKey {
    DateKey(s.year, s.quarter, s.month, s.day)
  }

  function SalePlace(s: SaleRecord): Place {
    Place(s.city, s.state, s.country)
  }

  /** All four of the record's keys are known. */
  predicate SaleKnown(keys: KeySets, s: SaleRecord) {
    && s.productName in keys.products
    && s.customerName in keys.customers
    && SaleDate(s) in keys.dates
    && SalePlace(s) in keys.locations
  }

  /** The `KeyError` a record with an unknown key raises: the first of the
      four lookups, in the loop's order, that misses. */
  function MissingKey(keys: KeySets, s: SaleRecord): (e: Error)
    requires !SaleKnown(keys, s)
    ensures e.KeyError?
  {
    if s.productName !in keys.products then KeyError("product_id_map", [s.productName])
    else if s.customerName !in keys.customers then KeyError("customer_id_map", [s.customerName])
    else if SaleDate(s) !in keys.dates then KeyError("date_id_map", DateKeyValues(SaleDate(s)))
    else KeyError("location_id_map", PlaceKey(SalePlace(s)))
  }

  /** The cells the loop writes into Sales_Fact: every column of the
      relation but its identity. */
  function FactCells(s: SaleRecord, productId: nat, customerId: nat, dateId: nat, locationId: nat)
    : (cells: map<string, Value>)
    ensures cells.Keys == Columns(SalesFact)
  {
    map["product_id" := Int(productId), "customer_id" := Int(customerId),
        "date_id" := Int(dateId), "location_id" := Int(locationId),
        "sales_amount" := s.salesAmount, "quantity_sold" := s.quantitySold]
  }

  /** `row` is the Sales_Fact row written for `s`: the identities the maps
      hold for its four keys and its two measures. */
  predicate FactRowFor(maps: IdMaps, s: SaleRecord, row: Row) {
    && SaleKnown(KeysOf(maps), s)
    && row.fields == FactCells(s,
         maps.products[s.productName], maps.customers[s.customerName],
         maps.dates[SaleDate(s)], maps.locations[SalePlace(s)])
  }

  /** One iteration of the fact loop. An unknown key aborts with the
      `KeyError` of the first lookup that misses and nothing is written;
      otherwise, on a conforming store, it appends exactly one Sales_Fact
      row describing the record. */
  method FactStep(st: Store, maps: IdMaps, s: SaleRecord) returns (r: Result<Store, Error>)
    ensures !SaleKnown(KeysOf(maps), s) ==> r == Failure(MissingKey(KeysOf(maps), s))
    ensures Conforms(st) && SaleKnown(KeysOf(maps), s) ==> r.Success?
    ensures r.Success? ==>
      && Grew(st, r.value, {SalesFact})
      && OneRowAdded(st, r.value, SalesFact)
      && FactRowFor(maps, s, NewRow(st, r.value, SalesFact))
  {
    if s.productName !in maps.products {
      return Failure(KeyError("product_id_map", [s.productName]));
    }
    var productId := maps.products[s.productName];
    if s.customerName !in maps.customers {
      return Failure(KeyError("customer_id_map", [s.customerName]));
    }
    var customerId := maps.customers[s.customerName];
    if SaleDate(s) !in maps.dates {
      return Failure(KeyError("date_id_map", DateKeyValues(SaleDate(s))));
    }
    var dateId := maps.dates[SaleDate(s)];
    if SalePlace(s) !in maps.locations {
      return Failure(KeyError("location_id_map", PlaceKey(SalePlace(s))));
    }
    var locationId := maps.locations[SalePlace(s)];
    var fact :- InsertRow(st, SalesFact, FactCells(s, productId, customerId, dateId, locationId), None);
    r := Success(fact.1);
  }

  /** Every record's keys are known. */
  predicate SalesKnown(keys: KeySets, sales: seq<SaleRecord>) {
    forall i :: 0 <= i < |sales| ==> SaleKnown(keys, sales[i])
  }

  /** Record `i` is the first with an unknown key. */
  predicate FirstUnknownSale(keys: KeySets, sales: seq<SaleRecord>, i: int) {
    && 0 <= i < |sales|
    && !SaleKnown(keys, sales[i])
    && forall j :: 0 <= j < i ==> SaleKnown(keys, sales[j])
  }

  /** What the fact loop has done after the records `sales`: it touched
      Sales_Fact only and appended one row per record, in order, each
      describing its record under a fresh identity. */
  predicate FactStaged(st: Store, maps: IdMaps, sales: seq<SaleRecord>, st': Store) {
    && Appended(st, st', {SalesFact}, SalesFact, |sales|)
    && forall i :: 0 <= i < |sales| ==> FactRowFor(maps, sales[i], Added(st, st', SalesFact)[i])
  }

  lemma FactStagedNothing(st: Store, maps: IdMaps)
    ensures FactStaged(st, maps, [], st)
  {
    AppendedNothing(st, {SalesFact}, SalesFact);
  }

  /** The loop's description extends by one iteration. */
  lemma FactStagedNext(st: Store, maps: IdMaps, sales: seq<SaleRecord>, i: nat, st1: Store, st2: Store)
    requires i < |sales| && FactStaged(st, maps, sales[..i], st1)
    requires Grew(st1, st2, {SalesFact}) && OneRowAdded(st1, st2, SalesFact)
    requires FactRowFor(maps, sales[i], NewRow(st1, st2, SalesFact))
    ensures FactStaged(st, maps, sales[..i + 1], st2)
  {
    TakeSnoc(sales, i);
    FactStagedSnoc(st, maps, sales[..i], st1, sales[i], st2);
  }

  lemma FactStagedSnoc(st: Store, maps: IdMaps, sales: seq<SaleRecord>, st1: Store, s: SaleRecord, st2: Store)
    requires FactStaged(st, maps, sales, st1)
    requires Grew(st1, st2, {SalesFact}) && OneRowAdded(st1, st2, SalesFact)
    requires FactRowFor(maps, s, NewRow(st1, st2, SalesFact))
    ensures FactStaged(st, maps, sales + [s], st2)
  {
    AppendedSnoc(st, st1, st2, {SalesFact}, SalesFact, |sales|);
    var before, row := Added(st, st1, SalesFact), NewRow(st1, st2, SalesFact);
    assert forall i :: 0 <= i < |sales| + 1 ==> FactRowFor(maps, (sales + [s])[i], (before + [row])[i]);
  }

  /** The records before `i` all had their keys known. */
  lemma StagedSalesKnown(st: Store, maps: IdMaps, sales: seq<SaleRecord>, i: nat, st': Store)
    requires i <= |sales| && FactStaged(st, maps, sales[..i], st')
    ensures forall j :: 0 <= j < i ==> SaleKnown(KeysOf(maps), sales[j])
  {
    forall j | 0 <= j < i
      ensures SaleKnown(KeysOf(maps), sales[j])
    {
      assert sales[..i][j] == sales[j];
    }
  }

  /** The loop over `sales_data`, in file order. On a conforming store it
      succeeds exactly when every record's four keys are in their maps, and
      otherwise fails with the `KeyError` of the first record with an unknown
      key. */
  method FactStage(st: Store, maps: IdMaps, sales: seq<SaleRecord>) returns (r: Result<Store, Error>)
    ensures Conforms(st) ==> (r.Success? <==> SalesKnown(KeysOf(maps), sales))
    ensures Conforms(st) && r.Failure? ==>
      exists i :: FirstUnknownSale(KeysOf(maps), sales, i) && r.error == MissingKey(KeysOf(maps), sales[i])
    ensures r.Success? ==> FactStaged(st, maps, sales, r.value)
  {
    var cur := st;
    FactStagedNothing(st, maps);
    var i := 0;
    while i < |sales|
      invariant 0 <= i <= |sales|
      invariant FactStaged(st, maps, sales[..i], cur)
    {
      var next := FactStep(cur, maps, sales[i]);
      if next.Failure? {
        if Conforms(st) {
          StagedSalesKnown(st, maps, sales, i, cur);
          assert FirstUnknownSale(KeysOf(maps), sales, i);
        }
        return Failure(next.error);
      }
      FactStagedNext(st, maps, sales, i, cur, next.value);
      cur := next.value;
      i := i + 1;
    }
    assert sales[..i] == sales;
    r := Success(cur);
  }
}
