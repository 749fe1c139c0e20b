/** The whole load: the product, location, customer and date loops, then
    the fact loop, then the commit. Nothing is committed unless every loop
    finishes; a `KeyError` anywhere aborts the run with no store. */
module Loader {
  import opened Wrappers
  import opened Relational
  import opened KeyMaps
  import opened Growth
  import opened Products
  import opened Locations
  import opened Customers
  import opened Dates
  import opened Facts

  /** The five flat files, each as its records in file order. */
  datatype SourceData = SourceData(
    sales: seq<SaleRecord>, customers: seq<CustomerRecord>,
    products: seq<ProductRecord>, locations: seq<Place>, dates: seq<DateRecord>)

  /** The keys the dimension files provide: the maps built from them hold
      exactly these. */
  function SourceKeys(data: SourceData): KeySets {
    KeySets(
      set k | k in ProductNames(data.products),
      set k | k in CustomerNames(data.customers),
      set k | k in DateKeys(data.dates),
      set k | k in data.locations)
  }

  /** Every key the customer and sales files refer to is provided by the
      file it refers into. */
  predicate Closed(data: SourceData) {
    && PlacesKnown(data.customers, SourceKeys(data).locations)
    && SalesKnown(SourceKeys(data), data.sales)
  }

  /** The dimension relations the first four loops write to. */
  const DimensionTables: set<TableName> := {
    CategoryDim, BrandDim, CityDim, StateDim, CountryDim, MonthDim,
    ProductDim, LocationDim, CustomerDim, DateDim}

  /** `column` of `row` holds the identity of one of `rows`. */
  predicate RefersTo(row: Row, column: string, rows: seq<Row>) {
    column in row.fields && row.fields[column].Int? && row.fields[column].i in Ids(rows)
  }

  /** The Customer_Dim row written for `rec`, as committed: the record's
      attributes and the identity of the Location_Dim row appended for the
      last occurrence of its place among `places`. */
  predicate CustomerRowLoaded(places: seq<Place>, locationRows: seq<Row>, rec: CustomerRecord, row: Row) {
    && |locationRows| == |places|
    && PlaceOf(rec) in places
    && row.fields == CustomerCells(rec, locationRows[LastIndex(places, PlaceOf(rec))].id)
  }

  /** The composite-dimension rows the load appended: one per record of each
      dimension file, in file order, each describing its record. */
  predicate DimensionRowsLoaded(st: Store, data: SourceData, st': Store)
    requires Extends(st, st')
  {
    var products, locations := Added(st, st', ProductDim), Added(st, st', LocationDim);
    var customers, dates := Added(st, st', CustomerDim), Added(st, st', DateDim);
    && |products| == |data.products| && |locations| == |data.locations|
    && |customers| == |data.customers| && |dates| == |data.dates|
    && (forall j :: 0 <= j < |data.products| ==> ProductRowFor(st', data.products[j], products[j]))
    && (forall j :: 0 <= j < |data.locations| ==> LocationRowFor(st', data.locations[j], locations[j]))
    && (forall j :: 0 <= j < |data.customers| ==>
          CustomerRowLoaded(data.locations, locations, data.customers[j], customers[j]))
    && (forall j :: 0 <= j < |data.dates| ==> DateRowFor(st', data.dates[j], dates[j]))
  }

  /** The leaf rows the load appended: only for names its dimension files
      hold, one per name the leaf did not hold before, holding it alone. */
  predicate LeavesLoaded(st: Store, data: SourceData, st': Store) {
    && ProductLeaves(st, data.products, st')
    && LocationLeaves(st, data.locations, st')
    && DateLeaves(st, data.dates, st')
  }

  /** Each map is the last-write-wins assignment of the appended rows'
      identities to their records' keys. */
  predicate MapsBuilt(st: Store, data: SourceData, st': Store, maps: IdMaps)
    requires Extends(st, st')
  {
    var products, locations := Added(st, st', ProductDim), Added(st, st', LocationDim);
    var customers, dates := Added(st, st', CustomerDim), Added(st, st', DateDim);
    && |products| == |data.products| && |locations| == |data.locations|
    && |customers| == |data.customers| && |dates| == |data.dates|
    && maps.products == Assign(ProductNames(data.products), RowIds(products))
    && maps.locations == Assign(data.locations, RowIds(locations))
    && maps.customers == Assign(CustomerNames(data.customers), RowIds(customers))
    && maps.dates == Assign(DateKeys(data.dates), RowIds(dates))
  }

  /** The composite-dimension rows the load appended carry fresh
      identities, drawn from the counter during the load and increasing in
      file order. */
  predicate DimensionIdsFresh(st: Store, st': Store)
    requires Extends(st, st')
  {
    && FreshIds(RowIds(Added(st, st', ProductDim)), st.nextId, st'.nextId)
    && FreshIds(RowIds(Added(st, st', LocationDim)), st.nextId, st'.nextId)
    && FreshIds(RowIds(Added(st, st', CustomerDim)), st.nextId, st'.nextId)
    && FreshIds(RowIds(Added(st, st', DateDim)), st.nextId, st'.nextId)
  }

  /** What the four dimension loops have done: grown the dimensions only,
      appended one composite row per source record, grown the leaves only by
      the names the records hold, given every composite row a fresh identity,
      and built four maps that hold exactly the source's keys, each for the
      row appended at the key's last occurrence. */
  predicate DimensionsLoaded(st: Store, data: SourceData, st': Store, maps: IdMaps) {
    && Grew(st, st', DimensionTables)
    && DimensionRowsLoaded(st, data, st')
    && DimensionIdsFresh(st, st')
    && MapsBuilt(st, data, st', maps)
    && KeysOf(maps) == SourceKeys(data)
    && LeavesLoaded(st, data, st')
  }

  /** The relations written by the customer and date loops. */
  const LateTables: set<TableName> := {CustomerDim, MonthDim, DateDim}

  /** The product and location loops' effect, seen from after the customer
      and date loops. */
  lemma EarlyStagesDone(st: Store, data: SourceData, s1: Store, m1: map<Value, nat>,
                        s2: Store, m2: map<Place, nat>, s4: Store)
    requires ProductStaged(st, data.products, s1, m1)
    requires LocationStaged(s1, data.locations, s2, m2)
    requires Grew(s2, s4, LateTables)
    ensures Extends(st, s4)
    ensures Added(st, s4, ProductDim) == Added(st, s1, ProductDim)
    ensures Added(st, s4, LocationDim) == Added(s1, s2, LocationDim)
    ensures |Added(st, s4, ProductDim)| == |data.products| && |Added(st, s4, LocationDim)| == |data.locations|
    ensures m1 == Assign(ProductNames(data.products), RowIds(Added(st, s4, ProductDim)))
    ensures m2 == Assign(data.locations, RowIds(Added(st, s4, LocationDim)))
    ensures m1.Keys == SourceKeys(data).products && m2.Keys == SourceKeys(data).locations
  {
    AddedUntouched(st, s1, s2, LocationTables, ProductDim);
    AddedUntouched(st, s2, s4, LateTables, ProductDim);
    AddedAfterUntouched(st, s1, s2, ProductTables, LocationDim);
    AddedUntouched(st, s2, s4, LateTables, LocationDim);
    AssignKeys(ProductNames(data.products), RowIds(Added(st, s1, ProductDim)));
    AssignKeys(data.locations, RowIds(Added(s1, s2, LocationDim)));
  }

  /** The product and location rows keep describing their records after
      the later loops. */
  lemma EarlyRowsDone(st: Store, data: SourceData, s1: Store, m1: map<Value, nat>,
                      s2: Store, m2: map<Place, nat>, s4: Store)
    requires ProductStaged(st, data.products, s1, m1)
    requires LocationStaged(s1, data.locations, s2, m2)
    requires Extends(s2, s4) && Extends(st, s4)
    requires Added(st, s4, ProductDim) == Added(st, s1, ProductDim)
    requires Added(st, s4, LocationDim) == Added(s1, s2, LocationDim)
    ensures forall j :: 0 <= j < |data.products| ==> ProductRowFor(s4, data.products[j], Added(st, s4, ProductDim)[j])
    ensures forall j :: 0 <= j < |data.locations| ==> LocationRowFor(s4, data.locations[j], Added(st, s4, LocationDim)[j])
  {
    ExtendsTransitive(s1, s2, s4);
    ProductRowsStable(s1, s4, data.products, Added(st, s1, ProductDim));
    LocationRowsStable(s2, s4, data.locations, Added(s1, s2, LocationDim));
  }

  /** The relations written before the customer loop. */
  const EarlyTables: set<TableName> := {
    CategoryDim, BrandDim, ProductDim, CityDim, StateDim, CountryDim, LocationDim}

  /** The relations written before the date loop. */
  const PreDateTables: set<TableName> := {
    CategoryDim, BrandDim, ProductDim, CityDim, StateDim, CountryDim, LocationDim, CustomerDim}

  /** Customer rows built from a location map that assigns the appended
      Location_Dim rows to their places refer to the row appended for the
      place's last occurrence. */
  lemma CustomerRowsLoaded(places: seq<Place>, locationRows: seq<Row>, m: map<Place, nat>,
                           recs: seq<CustomerRecord>, rows: seq<Row>)
    requires |locationRows| == |places| && m == Assign(places, RowIds(locationRows))
    requires |rows| == |recs|
    requires forall j :: 0 <= j < |recs| ==> CustomerRowFor(m, recs[j], rows[j])
    ensures forall j :: 0 <= j < |recs| ==> CustomerRowLoaded(places, locationRows, recs[j], rows[j])
  {
    forall j | 0 <= j < |recs|
      ensures CustomerRowLoaded(places, locationRows, recs[j], rows[j])
    {
      AssignAt(places, RowIds(locationRows), PlaceOf(recs[j]));
    }
  }

  /** The customer loop's effect, seen from the start and from after the
      date loop. */
  lemma CustomerStageDone(st: Store, data: SourceData, s2: Store, m2: map<Place, nat>,
                          s3: Store, m3: map<Value, nat>, s4: Store, locationRows: seq<Row>)
    requires Grew(st, s2, EarlyTables)
    requires CustomerStaged(s2, m2, data.customers, s3, m3)
    requires Grew(s3, s4, DateTables)
    requires |locationRows| == |data.locations| && m2 == Assign(data.locations, RowIds(locationRows))
    ensures Extends(st, s4)
    ensures Added(st, s4, CustomerDim) == Added(s2, s3, CustomerDim)
    ensures |Added(st, s4, CustomerDim)| == |data.customers|
    ensures m3 == Assign(CustomerNames(data.customers), RowIds(Added(st, s4, CustomerDim)))
    ensures m3.Keys == SourceKeys(data).customers
    ensures forall j :: 0 <= j < |data.customers| ==>
      CustomerRowLoaded(data.locations, locationRows, data.customers[j], Added(st, s4, CustomerDim)[j])
  {
    AddedAfterUntouched(st, s2, s3, EarlyTables, CustomerDim);
    AddedUntouched(st, s3, s4, DateTables, CustomerDim);
    AssignKeys(CustomerNames(data.customers), RowIds(Added(s2, s3, CustomerDim)));
    CustomerRowsLoaded(data.locations, locationRows, m2, data.customers, Added(s2, s3, CustomerDim));
  }

  /** The date loop's effect, seen from the start. */
  lemma DateStageDone(st: Store, data: SourceData, s3: Store, s4: Store, m4: map<DateKey, nat>)
    requires Grew(st, s3, PreDateTables)
    requires DateStaged(s3, data.dates, s4, m4)
    ensures Extends(st, s4)
    ensures Added(st, s4, DateDim) == Added(s3, s4, DateDim)
    ensures |Added(st, s4, DateDim)| == |data.dates|
    ensures m4 == Assign(DateKeys(data.dates), RowIds(Added(st, s4, DateDim)))
    ensures m4.Keys == SourceKeys(data).dates
    ensures forall j :: 0 <= j < |data.dates| ==> DateRowFor(s4, data.dates[j], Added(st, s4, DateDim)[j])
  {
    AddedAfterUntouched(st, s3, s4, PreDateTables, DateDim);
    AssignKeys(DateKeys(data.dates), RowIds(Added(s3, s4, DateDim)));
  }

  /** The product loop's leaf rows, seen from after the date loop. */
  lemma ProductLeavesKept(st: Store, data: SourceData, s1: Store, s2: Store, s4: Store)
    requires Grew(s1, s2, LocationTables) && Grew(s2, s4, LateTables)
    requires ProductLeaves(st, data.products, s1)
    ensures ProductLeaves(st, data.products, s4)
  {
    LeafGrewKept(st, s1, s2, LocationTables, CategoryDim, Categories(data.products));
    LeafGrewKept(st, s2, s4, LateTables, CategoryDim, Categories(data.products));
    LeafGrewKept(st, s1, s2, LocationTables, BrandDim, Brands(data.products));
    LeafGrewKept(st, s2, s4, LateTables, BrandDim, Brands(data.products));
  }

  /** The location loop's leaf rows, seen from the start and from after the
      date loop. */
  lemma LocationLeavesDone(st: Store, data: SourceData, s1: Store, s2: Store, s4: Store)
    requires Grew(st, s1, ProductTables) && Grew(s2, s4, LateTables)
    requires LocationLeaves(s1, data.locations, s2)
    ensures LocationLeaves(st, data.locations, s4)
  {
    LeafGrewAfter(st, s1, s2, ProductTables, CityDim, Cities(data.locations));
    LeafGrewKept(st, s2, s4, LateTables, CityDim, Cities(data.locations));
    LeafGrewAfter(st, s1, s2, ProductTables, StateDim, States(data.locations));
    LeafGrewKept(st, s2, s4, LateTables, StateDim, States(data.locations));
    LeafGrewAfter(st, s1, s2, ProductTables, CountryDim, Countries(data.locations));
    LeafGrewKept(st, s2, s4, LateTables, CountryDim, Countries(data.locations));
  }

  /** The leaf rows of the four dimension loops, composed. */
  lemma LeavesDone(st: Store, data: SourceData, s1: Store, s2: Store, s3: Store, s4: Store)
    requires Grew(st, s1, ProductTables) && Grew(s1, s2, LocationTables)
    requires Grew(s2, s4, LateTables) && Grew(st, s3, PreDateTables)
    requires ProductLeaves(st, data.products, s1)
    requires LocationLeaves(s1, data.locations, s2)
    requires DateLeaves(s3, data.dates, s4)
    ensures LeavesLoaded(st, data, s4)
  {
    ProductLeavesKept(st, data, s1, s2, s4);
    LocationLeavesDone(st, data, s1, s2, s4);
    LeafGrewAfter(st, s3, s4, PreDateTables, MonthDim, Months(data.dates));
  }

  /** The composite rows of the four dimension loops, composed. */
  lemma DimensionRowsDone(st: Store, data: SourceData, s1: Store, m1: map<Value, nat>,
                          s2: Store, m2: map<Place, nat>, s3: Store, m3: map<Value, nat>,
                          s4: Store, m4: map<DateKey, nat>)
    requires ProductStaged(st, data.products, s1, m1)
    requires LocationStaged(s1, data.locations, s2, m2)
    requires CustomerStaged(s2, m2, data.customers, s3, m3)
    requires DateStaged(s3, data.dates, s4, m4)
    requires Grew(st, s2, EarlyTables) && Grew(st, s3, PreDateTables)
    requires Grew(s2, s4, LateTables) && Grew(s3, s4, DateTables)
    ensures Extends(st, s4)
    ensures DimensionRowsLoaded(st, data, s4)
  {
    EarlyStagesDone(st, data, s1, m1, s2, m2, s4);
    EarlyRowsDone(st, data, s1, m1, s2, m2, s4);
    CustomerStageDone(st, data, s2, m2, s3, m3, s4, Added(st, s4, LocationDim));
    DateStageDone(st, data, s3, s4, m4);
  }

  /** The maps of the four dimension loops, composed. */
  lemma DimensionMapsDone(st: Store, data: SourceData, s1: Store, m1: map<Value, nat>,
                          s2: Store, m2: map<Place, nat>, s3: Store, m3: map<Value, nat>,
                          s4: Store, m4: map<DateKey, nat>)
    requires ProductStaged(st, data.products, s1, m1)
    requires LocationStaged(s1, data.locations, s2, m2)
    requires CustomerStaged(s2, m2, data.customers, s3, m3)
    requires DateStaged(s3, data.dates, s4, m4)
    requires Grew(st, s2, EarlyTables) && Grew(st, s3, PreDateTables)
    requires Grew(s2, s4, LateTables) && Grew(s3, s4, DateTables)
    ensures Extends(st, s4)
    ensures MapsBuilt(st, data, s4, IdMaps(m1, m3, m4, m2))
    ensures KeysOf(IdMaps(m1, m3, m4, m2)) == SourceKeys(data)
  {
    EarlyStagesDone(st, data, s1, m1, s2, m2, s4);
    CustomerStageDone(st, data, s2, m2, s3, m3, s4, Added(st, s4, LocationDim));
    DateStageDone(st, data, s3, s4, m4);
  }

  /** The identities the product and location loops gave their composite
      rows, seen from the start and from after the date loop. */
  lemma EarlyIdsDone(st: Store, s1: Store, s2: Store, s4: Store)
    requires Extends(st, s1) && Untouched(st, s1, ProductTables)
    requires Extends(s1, s2) && Untouched(s1, s2, LocationTables)
    requires Extends(s2, s4) && Untouched(s2, s4, LateTables)
    requires FreshIds(RowIds(Added(st, s1, ProductDim)), st.nextId, s1.nextId)
    requires FreshIds(RowIds(Added(s1, s2, LocationDim)), s1.nextId, s2.nextId)
    ensures Extends(st, s4)
    ensures FreshIds(RowIds(Added(st, s4, ProductDim)), st.nextId, s4.nextId)
    ensures FreshIds(RowIds(Added(st, s4, LocationDim)), st.nextId, s4.nextId)
  {
    FreshAcross(st, st, s1, s2, ProductDim, {}, LocationTables);
    FreshAcross(st, st, s2, s4, ProductDim, {}, LateTables);
    FreshAcross(st, s1, s2, s4, LocationDim, ProductTables, LateTables);
  }

  /** The identities the customer loop gave its rows, seen from the start
      and from after the date loop. */
  lemma CustomerIdsDone(st: Store, s2: Store, s3: Store, s4: Store)
    requires Extends(st, s2) && Untouched(st, s2, EarlyTables)
    requires Extends(s2, s3) && Extends(s3, s4) && Untouched(s3, s4, DateTables)
    requires FreshIds(RowIds(Added(s2, s3, CustomerDim)), s2.nextId, s3.nextId)
    ensures Extends(st, s4)
    ensures FreshIds(RowIds(Added(st, s4, CustomerDim)), st.nextId, s4.nextId)
  {
    FreshAcross(st, s2, s3, s4, CustomerDim, EarlyTables, DateTables);
  }

  /** The identities the date loop gave its rows, seen from the start. */
  lemma DateIdsDone(st: Store, s3: Store, s4: Store)
    requires Extends(st, s3) && Untouched(st, s3, PreDateTables) && Extends(s3, s4)
    requires FreshIds(RowIds(Added(s3, s4, DateDim)), s3.nextId, s4.nextId)
    ensures Extends(st, s4)
    ensures FreshIds(RowIds(Added(st, s4, DateDim)), st.nextId, s4.nextId)
  {
    FreshAcross(st, s3, s4, s4, DateDim, PreDateTables, {});
  }

  /** The four dimension loops, composed. */
  lemma DimensionsDone(st: Store, data: SourceData, s1: Store, m1: map<Value, nat>,
                       s2: Store, m2: map<Place, nat>, s3: Store, m3: map<Value, nat>,
                       s4: Store, m4: map<DateKey, nat>)
    requires ProductStaged(st, data.products, s1, m1)
    requires LocationStaged(s1, data.locations, s2, m2)
    requires CustomerStaged(s2, m2, data.customers, s3, m3)
    requires DateStaged(s3, data.dates, s4, m4)
    ensures DimensionsLoaded(st, data, s4, IdMaps(m1, m3, m4, m2))
  {
    DimensionsGrew(st, s1, s2, s3, s4);
    DimensionRowsDone(st, data, s1, m1, s2, m2, s3, m3, s4, m4);
    DimensionMapsDone(st, data, s1, m1, s2, m2, s3, m3, s4, m4);
    EarlyIdsDone(st, s1, s2, s4);
    CustomerIdsDone(st, s2, s3, s4);
    DateIdsDone(st, s3, s4);
    LeavesDone(st, data, s1, s2, s3, s4);
  }

  lemma DimensionsGrew(st: Store, s1: Store, s2: Store, s3: Store, s4: Store)
    requires Grew(st, s1, ProductTables) && Grew(s1, s2, LocationTables)
    requires Grew(s2, s3, {CustomerDim}) && Grew(s3, s4, DateTables)
    ensures Grew(st, s2, EarlyTables) && Grew(st, s3, PreDateTables)
    ensures Grew(s2, s4, LateTables) && Grew(s3, s4, DateTables)
    ensures Grew(st, s4, DimensionTables)
  {
    GrewTransitive(st, s1, s2, ProductTables, LocationTables, EarlyTables);
    GrewTransitive(st, s2, s3, EarlyTables, {CustomerDim}, PreDateTables);
    GrewTransitive(s2, s3, s4, {CustomerDim}, DateTables, LateTables);
    GrewTransitive(st, s3, s4, PreDateTables, DateTables, DimensionTables);
  }

  /** The four dimension loops in the loader's order. On a conforming store
      they fail only when a customer's place is missing from
      `location_id_map`, and then with the `KeyError` of the first such
      customer. */
  method LoadDimensions(st: Store, data: SourceData) returns (r: Result<(Store, IdMaps), Error>)
    ensures Conforms(st) ==> (r.Success? <==> PlacesKnown(data.customers, SourceKeys(data).locations))
    ensures Conforms(st) && r.Failure? ==>
      exists i :: FirstUnknownPlace(data.customers, SourceKeys(data).locations, i)
               && r.error == UnknownPlace(data.customers[i])
    ensures r.Success? ==> DimensionsLoaded(st, data, r.value.0, r.value.1)
  {
    var products :- ProductStage(st, data.products);
    var (s1, m1) := products;
    var locations :- LocationStage(s1, data.locations);
    var (s2, m2) := locations;
    GrewTransitive(st, s1, s2, ProductTables, LocationTables, EarlyTables);
    AssignKeys(data.locations, RowIds(Added(s1, s2, LocationDim)));
    var customers := CustomerStage(s2, m2, data.customers);
    if customers.Failure? {
      return Failure(customers.error);
    }
    var (s3, m3) := customers.value;
    GrewTransitive(st, s2, s3, EarlyTables, {CustomerDim}, PreDateTables);
    var dates :- DateStage(s3, data.dates);
    var (s4, m4) := dates;
    DimensionsDone(st, data, s1, m1, s2, m2, s3, m3, s4, m4);
    r := Success((s4, IdMaps(m1, m3, m4, m2)));
  }

  /** The Sales_Fact row written for `s`, as committed: its four keys occur
      in their dimension files, its foreign keys are the identities of the
      rows the load appended for the keys' last occurrences in those files,
      and its measures are the record's, unchanged. */
  predicate FactRowLoaded(st: Store, data: SourceData, st': Store, s: SaleRecord, row: Row)
    requires Extends(st, st')
  {
    var products, locations := Added(st, st', ProductDim), Added(st, st', LocationDim);
    var customers, dates := Added(st, st', CustomerDim), Added(st, st', DateDim);
    && |products| == |data.products| && |locations| == |data.locations|
    && |customers| == |data.customers| && |dates| == |data.dates|
    && SaleKnown(SourceKeys(data), s)
    && row.fields == FactCells(s,
         products[LastIndex(ProductNames(data.products), s.productName)].id,
         customers[LastIndex(CustomerNames(data.customers), s.customerName)].id,
         dates[LastIndex(DateKeys(data.dates), SaleDate(s))].id,
         locations[LastIndex(data.locations, SalePlace(s))].id)
  }

  /** What a successful load has committed: one composite-dimension row per
      dimension record and one fact row per sales record, in order, each
      describing its record under a fresh identity, increasing in file order;
      leaf rows only for names the files hold that were new; every foreign
      key the identity of the row appended for the key's last occurrence. */
  predicate Loaded(st: Store, data: SourceData, st': Store) {
    && Grew(st, st', AllTables)
    && DimensionRowsLoaded(st, data, st')
    && DimensionIdsFresh(st, st')
    && FreshIds(RowIds(Added(st, st', SalesFact)), st.nextId, st'.nextId)
    && LeavesLoaded(st, data, st')
    && |Added(st, st', SalesFact)| == |data.sales|
    && forall i :: 0 <= i < |data.sales| ==>
         FactRowLoaded(st, data, st', data.sales[i], Added(st, st', SalesFact)[i])
  }

  /** The dimension loops' effect, seen from after the fact loop. */
  lemma DimensionsKept(st: Store, data: SourceData, s4: Store, maps: IdMaps, s5: Store)
    requires DimensionsLoaded(st, data, s4, maps) && Grew(s4, s5, {SalesFact})
    ensures Extends(st, s5)
    ensures Added(st, s5, ProductDim) == Added(st, s4, ProductDim)
    ensures Added(st, s5, LocationDim) == Added(st, s4, LocationDim)
    ensures Added(st, s5, CustomerDim) == Added(st, s4, CustomerDim)
    ensures Added(st, s5, DateDim) == Added(st, s4, DateDim)
    ensures MapsBuilt(st, data, s5, maps)
  {
    AddedUntouched(st, s4, s5, {SalesFact}, ProductDim);
    AddedUntouched(st, s4, s5, {SalesFact}, LocationDim);
    AddedUntouched(st, s4, s5, {SalesFact}, CustomerDim);
    AddedUntouched(st, s4, s5, {SalesFact}, DateDim);
  }

  /** The composite rows keep describing their records after the fact
      loop. */
  lemma DimensionRowsKept(st: Store, data: SourceData, s4: Store, s5: Store)
    requires Extends(st, s4) && DimensionRowsLoaded(st, data, s4) && Extends(s4, s5) && Extends(st, s5)
    requires Added(st, s5, ProductDim) == Added(st, s4, ProductDim)
    requires Added(st, s5, LocationDim) == Added(st, s4, LocationDim)
    requires Added(st, s5, CustomerDim) == Added(st, s4, CustomerDim)
    requires Added(st, s5, DateDim) == Added(st, s4, DateDim)
    ensures DimensionRowsLoaded(st, data, s5)
  {
    ProductRowsStable(s4, s5, data.products, Added(st, s4, ProductDim));
    LocationRowsStable(s4, s5, data.locations, Added(st, s4, LocationDim));
    DateRowsStable(s4, s5, data.dates, Added(st, s4, DateDim));
  }

  /** The composite rows' identities stay fresh, seen from after the fact
      loop. */
  lemma DimensionIdsKept(st: Store, s4: Store, s5: Store)
    requires Extends(st, s4) && DimensionIdsFresh(st, s4) && Extends(s4, s5) && Extends(st, s5)
    requires Added(st, s5, ProductDim) == Added(st, s4, ProductDim)
    requires Added(st, s5, LocationDim) == Added(st, s4, LocationDim)
    requires Added(st, s5, CustomerDim) == Added(st, s4, CustomerDim)
    requires Added(st, s5, DateDim) == Added(st, s4, DateDim)
    ensures DimensionIdsFresh(st, s5)
  {
    FreshIdsWiden(RowIds(Added(st, s4, ProductDim)), st.nextId, s4.nextId, st.nextId, s5.nextId);
    FreshIdsWiden(RowIds(Added(st, s4, LocationDim)), st.nextId, s4.nextId, st.nextId, s5.nextId);
    FreshIdsWiden(RowIds(Added(st, s4, CustomerDim)), st.nextId, s4.nextId, st.nextId, s5.nextId);
    FreshIdsWiden(RowIds(Added(st, s4, DateDim)), st.nextId, s4.nextId, st.nextId, s5.nextId);
  }

  /** The leaf rows are unchanged by the fact loop. */
  lemma LeavesKept(st: Store, data: SourceData, s4: Store, s5: Store)
    requires LeavesLoaded(st, data, s4) && Grew(s4, s5, {SalesFact})
    ensures LeavesLoaded(st, data, s5)
  {
    LeafGrewKept(st, s4, s5, {SalesFact}, CategoryDim, Categories(data.products));
    LeafGrewKept(st, s4, s5, {SalesFact}, BrandDim, Brands(data.products));
    LeafGrewKept(st, s4, s5, {SalesFact}, CityDim, Cities(data.locations));
    LeafGrewKept(st, s4, s5, {SalesFact}, StateDim, States(data.locations));
    LeafGrewKept(st, s4, s5, {SalesFact}, CountryDim, Countries(data.locations));
    LeafGrewKept(st, s4, s5, {SalesFact}, MonthDim, Months(data.dates));
  }

  /** Fact rows built from the maps the dimension loops built refer to the
      rows appended for their keys' last occurrences. */
  lemma FactsLoaded(st: Store, data: SourceData, st': Store, maps: IdMaps, sales: seq<SaleRecord>, rows: seq<Row>)
    requires Extends(st, st') && MapsBuilt(st, data, st', maps) && KeysOf(maps) == SourceKeys(data)
    requires |rows| == |sales|
    requires forall i :: 0 <= i < |sales| ==> FactRowFor(maps, sales[i], rows[i])
    ensures forall i :: 0 <= i < |sales| ==> FactRowLoaded(st, data, st', sales[i], rows[i])
  {
    forall i | 0 <= i < |sales|
      ensures FactRowLoaded(st, data, st', sales[i], rows[i])
    {
      var s := sales[i];
      AssignAt(ProductNames(data.products), RowIds(Added(st, st', ProductDim)), s.productName);
      AssignAt(CustomerNames(data.customers), RowIds(Added(st, st', CustomerDim)), s.customerName);
      AssignAt(DateKeys(data.dates), RowIds(Added(st, st', DateDim)), SaleDate(s));
      AssignAt(data.locations, RowIds(Added(st, st', LocationDim)), SalePlace(s));
    }
  }

  /** The dimension loops followed by the fact loop, composed. */
  lemma LoadDone(st: Store, data: SourceData, s4: Store, maps: IdMaps, s5: Store)
    requires DimensionsLoaded(st, data, s4, maps)
    requires FactStaged(s4, maps, data.sales, s5)
    ensures Loaded(st, data, s5)
  {
    GrewTransitive(st, s4, s5, DimensionTables, {SalesFact}, AllTables);
    DimensionsKept(st, data, s4, maps, s5);
    DimensionRowsKept(st, data, s4, s5);
    DimensionIdsKept(st, s4, s5);
    LeavesKept(st, data, s4, s5);
    AddedAfterUntouched(st, s4, s5, DimensionTables, SalesFact);
    FreshIdsWiden(RowIds(Added(s4, s5, SalesFact)), s4.nextId, s5.nextId, st.nextId, s5.nextId);
    FactsLoaded(st, data, s5, maps, data.sales, Added(st, s5, SalesFact));
  }

  /** The script: the four dimension loops, the fact loop, then the commit.
      On a conforming store the load commits exactly when every key the
      customer and sales files refer to is provided; otherwise it fails with
      the `KeyError` the first missing key raises, and commits nothing. */
  method Load(st: Store, data: SourceData) returns (r: Result<Store, Error>)
    ensures Conforms(st) ==> (r.Success? <==> Closed(data))
    ensures Conforms(st) && !PlacesKnown(data.customers, SourceKeys(data).locations) ==>
      exists i :: FirstUnknownPlace(data.customers, SourceKeys(data).locations, i)
               && r == Failure(UnknownPlace(data.customers[i]))
    ensures Conforms(st) && PlacesKnown(data.customers, SourceKeys(data).locations)
                         && !SalesKnown(SourceKeys(data), data.sales) ==>
      exists i :: FirstUnknownSale(SourceKeys(data), data.sales, i)
               && r == Failure(MissingKey(SourceKeys(data), data.sales[i]))
    ensures r.Success? ==> Loaded(st, data, r.value)
  {
    var dims := LoadDimensions(st, data);
    if dims.Failure? {
      return Failure(dims.error);
    }
    var (s4, maps) := dims.value;
    var facts := FactStage(s4, maps, data.sales);
    if facts.Failure? {
      return Failure(facts.error);
    }
    LoadDone(st, data, s4, maps, facts.value);
    r := Success(facts.value);
  }

  /** Loaded into the empty schema, the database afterwards is exactly what
      the load appended: the leaf dimensions hold each natural key once, and
      every Sales_Fact row refers to existing dimension rows. */
  lemma LoadedFromEmpty(data: SourceData, st': Store)
    requires Loaded(EmptySnowflake(), data, st')
    ensures Conforms(st') && LeafKeysUnique(st')
    ensures |st'.tables[SalesFact]| == |data.sales|
    ensures forall i :: 0 <= i < |data.sales| ==>
      FactRowLoaded(EmptySnowflake(), data, st', data.sales[i], st'.tables[SalesFact][i])
    ensures forall t :: Added(EmptySnowflake(), st', t) == st'.tables[t]
  {
    var st := EmptySnowflake();
    assert LeafKeysUnique(st);
    forall t
      ensures Added(st, st', t) == st'.tables[t]
    {
      assert t in st.tables;
    }
  }

  /** A foreign key holding the identity of an appended row refers to a row
      of the relation afterwards. */
  lemma RefersToAdded(st: Store, st': Store, t: TableName, row: Row, column: string, k: int)
    requires Extends(st, st') && 0 <= k < |Added(st, st', t)|
    requires column in row.fields && row.fields[column] == Int(Added(st, st', t)[k].id)
    ensures t in st'.tables && RefersTo(row, column, st'.tables[t])
  {
    AddedIds(st, st', t);
  }

  /** The relations whose rows the load appends without looking for an
      equal row first. */
  const AppendedTables: set<TableName> := {ProductDim, LocationDim, CustomerDim, DateDim, SalesFact}

  /** The freshness facts of a load, for one of the relations it appends to. */
  lemma AppendedIdsFresh(st: Store, st': Store, t: TableName)
    requires Extends(st, st') && DimensionIdsFresh(st, st') && t in AppendedTables
    requires FreshIds(RowIds(Added(st, st', SalesFact)), st.nextId, st'.nextId)
    ensures FreshIds(RowIds(Added(st, st', t)), st.nextId, st'.nextId)
  {
  }

  /** On a well-formed store, every composite or fact row a load appended is
      told apart by its identity: the identities increase in file order,
      and no other row of the relation, older or appended by the load,
      carries one of them. So a foreign key holding such an identity names
      exactly one row. */
  lemma LoadedRowsIdentified(st: Store, data: SourceData, st': Store, t: TableName)
    requires Loaded(st, data, st') && WellFormed(st) && t in AppendedTables && t in st.tables
    ensures forall i, j :: 0 <= i < j < |Added(st, st', t)| ==> Added(st, st', t)[i].id < Added(st, st', t)[j].id
    ensures forall j, k ::
      0 <= j < |Added(st, st', t)| && 0 <= k < |st'.tables[t]| && st'.tables[t][k].id == Added(st, st', t)[j].id
      ==> k == |st.tables[t]| + j
  {
    AppendedIdsFresh(st, st', t);
    FreshRowsIdentified(st, st', t);
  }

  /** Composite rows are not deduplicated: two equal product records give
      two Product_Dim rows with the same cells under different
      identities. */
  lemma EqualProductsTwoRows(st: Store, data: SourceData, st': Store, i: nat, j: nat)
    requires Loaded(st, data, st') && i < j < |data.products| && data.products[i] == data.products[j]
    ensures Added(st, st', ProductDim)[i].fields == Added(st, st', ProductDim)[j].fields
    ensures Added(st, st', ProductDim)[i].id < Added(st, st', ProductDim)[j].id
  {
    assert ProductRowFor(st', data.products[i], Added(st, st', ProductDim)[i]);
    assert ProductRowFor(st', data.products[j], Added(st, st', ProductDim)[j]);
    assert RowIds(Added(st, st', ProductDim))[i] < RowIds(Added(st, st', ProductDim))[j];
  }

  /** The four foreign keys of a committed Sales_Fact row refer to existing
      rows. */
  lemma FactRowRefers(st: Store, data: SourceData, st': Store, s: SaleRecord, row: Row)
    requires Extends(st, st') && FactRowLoaded(st, data, st', s, row)
    ensures ProductDim in st'.tables && RefersTo(row, "product_id", st'.tables[ProductDim])
    ensures CustomerDim in st'.tables && RefersTo(row, "customer_id", st'.tables[CustomerDim])
    ensures DateDim in st'.tables && RefersTo(row, "date_id", st'.tables[DateDim])
    ensures LocationDim in st'.tables && RefersTo(row, "location_id", st'.tables[LocationDim])
  {
    RefersToAdded(st, st', ProductDim, row, "product_id", LastIndex(ProductNames(data.products), s.productName));
    RefersToAdded(st, st', CustomerDim, row, "customer_id", LastIndex(CustomerNames(data.customers), s.customerName));
    RefersToAdded(st, st', DateDim, row, "date_id", LastIndex(DateKeys(data.dates), SaleDate(s)));
    RefersToAdded(st, st', LocationDim, row, "location_id", LastIndex(data.locations, SalePlace(s)));
  }

  /** The location key of a committed Customer_Dim row refers to an existing
      row. */
  lemma CustomerRowRefers(st: Store, data: SourceData, st': Store, rec: CustomerRecord, row: Row)
    requires Extends(st, st') && CustomerRowLoaded(data.locations, Added(st, st', LocationDim), rec, row)
    ensures LocationDim in st'.tables && RefersTo(row, "location_id", st'.tables[LocationDim])
  {
    RefersToAdded(st, st', LocationDim, row, "location_id", LastIndex(data.locations, PlaceOf(rec)));
  }

  /** The location keys of the committed Customer_Dim rows refer to
      existing rows. */
  lemma CustomersRefer(st: Store, data: SourceData, st': Store)
    requires Extends(st, st') && DimensionRowsLoaded(st, data, st')
    ensures forall j :: 0 <= j < |data.customers| ==>
      LocationDim in st'.tables && RefersTo(Added(st, st', CustomerDim)[j], "location_id", st'.tables[LocationDim])
  {
    var rows := Added(st, st', CustomerDim);
    if |data.customers| > 0 {
      CustomerRowRefers(st, data, st', data.customers[0], rows[0]);
    }
    forall j | 0 <= j < |data.customers|
      ensures LocationDim in st'.tables && RefersTo(rows[j], "location_id", st'.tables[LocationDim])
    {
      CustomerRowRefers(st, data, st', data.customers[j], rows[j]);
    }
  }

  /** After a load, every foreign key it wrote refers to an existing row: the
      four keys of each Sales_Fact row and the location of each Customer_Dim
      row. */
  lemma CommittedReferences(st: Store, data: SourceData, st': Store)
    requires Loaded(st, data, st')
    ensures forall i :: 0 <= i < |data.sales| ==>
      var row := Added(st, st', SalesFact)[i];
      && ProductDim in st'.tables && RefersTo(row, "product_id", st'.tables[ProductDim])
      && CustomerDim in st'.tables && RefersTo(row, "customer_id", st'.tables[CustomerDim])
      && DateDim in st'.tables && RefersTo(row, "date_id", st'.tables[DateDim])
      && LocationDim in st'.tables && RefersTo(row, "location_id", st'.tables[LocationDim])
    ensures forall j :: 0 <= j < |data.customers| ==>
      LocationDim in st'.tables && RefersTo(Added(st, st', CustomerDim)[j], "location_id", st'.tables[LocationDim])
  {
    forall i | 0 <= i < |data.sales| {
      FactRowRefers(st, data, st', data.sales[i], Added(st, st', SalesFact)[i]);
    }
    CustomersRefer(st, data, st');
  }

  /** A second load of the same files adds no rows to Category_Dim or
      Brand_Dim: every name the product file holds resolves after the first
      load. */
  lemma ProductLeavesRerun(st0: Store, data: SourceData, st1: Store, st2: Store)
    requires Extends(st0, st1) && DimensionRowsLoaded(st0, data, st1)
    requires ProductLeaves(st1, data.products, st2)
    ensures CategoryDim in st1.tables ==> st2.tables[CategoryDim] == st1.tables[CategoryDim]
    ensures BrandDim in st1.tables ==> st2.tables[BrandDim] == st1.tables[BrandDim]
  {
    if CategoryDim in st1.tables {
      NoNewLeafRows(st1, st2, CategoryDim, Categories(data.products));
    }
    if BrandDim in st1.tables {
      NoNewLeafRows(st1, st2, BrandDim, Brands(data.products));
    }
  }

  /** A second load of the same files adds no rows to City_Dim, State_Dim or
      Country_Dim. */
  lemma LocationLeavesRerun(st0: Store, data: SourceData, st1: Store, st2: Store)
    requires Extends(st0, st1) && DimensionRowsLoaded(st0, data, st1)
    requires LocationLeaves(st1, data.locations, st2)
    ensures CityDim in st1.tables ==> st2.tables[CityDim] == st1.tables[CityDim]
    ensures StateDim in st1.tables ==> st2.tables[StateDim] == st1.tables[StateDim]
    ensures CountryDim in st1.tables ==> st2.tables[CountryDim] == st1.tables[CountryDim]
  {
    if CityDim in st1.tables {
      NoNewLeafRows(st1, st2, CityDim, Cities(data.locations));
    }
    if StateDim in st1.tables {
      NoNewLeafRows(st1, st2, StateDim, States(data.locations));
    }
    if CountryDim in st1.tables {
      NoNewLeafRows(st1, st2, CountryDim, Countries(data.locations));
    }
  }

  /** Running the load a second time on the same files resolves every leaf
      name by lookup and adds no leaf rows, while the composite dimensions
      and the fact table receive a second copy of their rows. */
  lemma ReloadAddsNoLeafRows(st0: Store, data: SourceData, st1: Store, st2: Store)
    requires Loaded(st0, data, st1) && Loaded(st1, data, st2)
    ensures forall t | IsLeaf(t) && t in st1.tables :: st2.tables[t] == st1.tables[t]
    ensures |Added(st1, st2, ProductDim)| == |Added(st0, st1, ProductDim)|
    ensures |Added(st1, st2, LocationDim)| == |Added(st0, st1, LocationDim)|
    ensures |Added(st1, st2, CustomerDim)| == |Added(st0, st1, CustomerDim)|
    ensures |Added(st1, st2, DateDim)| == |Added(st0, st1, DateDim)|
    ensures |Added(st1, st2, SalesFact)| == |Added(st0, st1, SalesFact)|
  {
    ProductLeavesRerun(st0, data, st1, st2);
    LocationLeavesRerun(st0, data, st1, st2);
    if MonthDim in st1.tables {
      NoNewLeafRows(st1, st2, MonthDim, Months(data.dates));
    }
  }

  /** In a load into the empty schema of the one product record `rec`,
      Product_Dim, Category_Dim and Brand_Dim each hold one row: the
      product's, linked to the one row of its category and of its brand. */
  lemma SingleProductLoaded(data: SourceData, st': Store, rec: ProductRecord)
    requires data.products == [rec]
    requires Extends(EmptySnowflake(), st') && LeafKeysUnique(st')
    requires DimensionRowsLoaded(EmptySnowflake(), data, st')
    requires ProductLeaves(EmptySnowflake(), data.products, st')
    ensures ProductDim in st'.tables && CategoryDim in st'.tables && BrandDim in st'.tables
    ensures |st'.tables[ProductDim]| == 1 && |st'.tables[CategoryDim]| == 1 && |st'.tables[BrandDim]| == 1
    ensures st'.tables[CategoryDim][0].fields == map["category_name" := rec.category]
    ensures st'.tables[BrandDim][0].fields == map["brand_name" := rec.brand]
    ensures st'.tables[ProductDim][0].fields == ProductCells(rec, st'.tables[CategoryDim][0].id, st'.tables[BrandDim][0].id)
  {
    var st := EmptySnowflake();
    assert ProductDim in st.tables;
    assert ProductRowFor(st', rec, Added(st, st', ProductDim)[0]);
    assert Categories(data.products) == [rec.category] && Brands(data.products) == [rec.brand];
    SingleLeafRow(st, st', CategoryDim, rec.category);
    SingleLeafRow(st, st', BrandDim, rec.brand);
  }

  /** A committed sale when the product file holds one record refers to the
      one Product_Dim row the load appended. */
  lemma SaleOfOnlyProduct(st: Store, data: SourceData, st': Store, s: SaleRecord, row: Row)
    requires Extends(st, st') && |data.products| == 1 && FactRowLoaded(st, data, st', s, row)
    ensures "product_id" in row.fields && row.fields["product_id"] == Int(Added(st, st', ProductDim)[0].id)
  {
    assert LastIndex(ProductNames(data.products), s.productName) == 0;
  }

  /** One product "Widget" of category "Tools" and brand "Acme", and one
      sale of it, loaded into the empty schema: Product_Dim holds one row for
      "Widget" linked to the one Category_Dim row "Tools" and the one
      Brand_Dim row "Acme", and Sales_Fact holds one row whose product key is
      that Product_Dim row's identity. */
  lemma WidgetLoaded(data: SourceData, st': Store)
    requires data.products == [ProductRecord(Text("Widget"), Text("Tools"), Text("Acme"))]
    requires |data.sales| == 1 && data.sales[0].productName == Text("Widget")
    requires Loaded(EmptySnowflake(), data, st')
    ensures ProductDim in st'.tables && CategoryDim in st'.tables && BrandDim in st'.tables && SalesFact in st'.tables
    ensures |st'.tables[ProductDim]| == 1 && |st'.tables[CategoryDim]| == 1
    ensures |st'.tables[BrandDim]| == 1 && |st'.tables[SalesFact]| == 1
    ensures st'.tables[CategoryDim][0].fields == map["category_name" := Text("Tools")]
    ensures st'.tables[BrandDim][0].fields == map["brand_name" := Text("Acme")]
    ensures st'.tables[ProductDim][0].fields == map[
      "product_name" := Text("Widget"),
      "category_id" := Int(st'.tables[CategoryDim][0].id),
      "brand_id" := Int(st'.tables[BrandDim][0].id)]
    ensures "product_id" in st'.tables[SalesFact][0].fields
    ensures st'.tables[SalesFact][0].fields["product_id"] == Int(st'.tables[ProductDim][0].id)
  {
    var st := EmptySnowflake();
    assert LeafKeysUnique(st);
    assert SalesFact in st.tables && ProductDim in st.tables;
    SingleProductLoaded(data, st', data.products[0]);
    SaleOfOnlyProduct(st, data, st', data.sales[0], Added(st, st', SalesFact)[0]);
  }
}
