/** The customer loop: for every record of `customer_data`, look its
    `(city, state, country)` up in `location_id_map`, insert one
    Customer_Dim row referring to that location, and remember the new row's
    identity under the customer's name in `customer_id_map`. A place missing
    from the map raises `KeyError` before anything is inserted for the
    record. */
module Customers {
  import opened Wrappers
  import opened Relational
  import opened KeyMaps
  import opened Growth
  import opened Locations

  datatype CustomerRecord = CustomerRecord(
    customerName: Value, gender: Value, ageGroup: Value,
    city: Value, state: Value, country: Value)

  /** The key the loop reads `location_id_map` with. */
  function PlaceOf(rec: CustomerRecord): Place {
    Place(rec.city, rec.state, rec.country)
  }

  /** The cells the loop writes into Customer_Dim: every column of the
      relation but its identity. */
  function CustomerCells(rec: CustomerRecord, locationId: nat): (cells: map<string, Value>)
    ensures cells.Keys == Columns(CustomerDim)
  {
    map["customer_name" := rec.customerName, "gender" := rec.gender,
        "age_group" := rec.ageGroup, "location_id" := Int(locationId)]
  }

  /** `row` is the Customer_Dim row written for `rec`: its attributes and the
      identity `location_id_map` holds for its place. */
  predicate CustomerRowFor(locations: map<Place, nat>, rec: CustomerRecord, row: Row) {
    PlaceOf(rec) in locations && row.fields == CustomerCells(rec, locations[PlaceOf(rec)])
  }

  /** Every record's place is among the `known` ones. */
  predicate PlacesKnown(recs: seq<CustomerRecord>, known: set<Place>) {
    forall i :: 0 <= i < |recs| ==> PlaceOf(recs[i]) in known
  }

  /** Record `i` is the first whose place is not among the `known` ones. */
  predicate FirstUnknownPlace(recs: seq<CustomerRecord>, known: set<Place>, i: int) {
    && 0 <= i < |recs|
    && PlaceOf(recs[i]) !in known
    && forall j :: 0 <= j < i ==> PlaceOf(recs[j]) in known
  }

  /** The error a missing place raises. */
  function UnknownPlace(rec: CustomerRecord): Error {
    KeyError("location_id_map", PlaceKey(PlaceOf(rec)))
  }

  /** One iteration of the customer loop. A place missing from the map
      aborts with `KeyError` and nothing is written; otherwise, on a
      conforming store, it appends exactly one Customer_Dim row, describing
      the record, and maps the customer's name to that row's identity. */
  method CustomerStep(st: Store, locations: map<Place, nat>, ids: map<Value, nat>, rec: CustomerRecord)
    returns (r: Result<(Store, map<Value, nat>), Error>)
    ensures PlaceOf(rec) !in locations ==> r == Failure(UnknownPlace(rec))
    ensures Conforms(st) && PlaceOf(rec) in locations ==> r.Success?
    ensures r.Success? ==>
      var (st', ids') := r.value;
      && Grew(st, st', {CustomerDim})
      && OneRowAdded(st, st', CustomerDim)
      && CustomerRowFor(locations, rec, NewRow(st, st', CustomerDim))
      && ids' == ids[rec.customerName := NewRow(st, st', CustomerDim).id]
  {
    if PlaceOf(rec) !in locations {
      return Failure(UnknownPlace(rec));
    }
    var customer :- InsertRow(st, CustomerDim, CustomerCells(rec, locations[PlaceOf(rec)]), Some("customer_id"));
    r := Success((customer.1, ids[rec.customerName := customer.0]));
  }

  /** The keys of `customer_id_map`, one per source record. */
  function CustomerNames(recs: seq<CustomerRecord>): (keys: seq<Value>)
    ensures |keys| == |recs|
    ensures forall i :: 0 <= i < |recs| ==> keys[i] == recs[i].customerName
  {
    seq(|recs|, i requires 0 <= i < |recs| => recs[i].customerName)
  }

  lemma CustomerNamesSnoc(recs: seq<CustomerRecord>, rec: CustomerRecord)
    ensures CustomerNames(recs + [rec]) == CustomerNames(recs) + [rec.customerName]
  {
  }

  /** What the customer loop has done after the records `recs`: it touched
      Customer_Dim only, appended one row per record, in order and even for
      repeated records, each describing its record under a fresh identity,
      and built `customer_id_map` by assigning each row's identity to its
      customer's name in turn. */
  predicate CustomerStaged(st: Store, locations: map<Place, nat>, recs: seq<CustomerRecord>,
                           st': Store, m: map<Value, nat>) {
    && Appended(st, st', {CustomerDim}, CustomerDim, |recs|)
    && (forall i :: 0 <= i < |recs| ==> CustomerRowFor(locations, recs[i], Added(st, st', CustomerDim)[i]))
    && m == Assign(CustomerNames(recs), RowIds(Added(st, st', CustomerDim)))
  }

  lemma CustomerStagedNothing(st: Store, locations: map<Place, nat>)
    ensures CustomerStaged(st, locations, [], st, map[])
  {
    AppendedNothing(st, {CustomerDim}, CustomerDim);
  }

  /** The loop's description extends by one iteration. */
  lemma CustomerStagedNext(st: Store, locations: map<Place, nat>, recs: seq<CustomerRecord>, i: nat,
                           st1: Store, m1: map<Value, nat>, st2: Store, m2: map<Value, nat>)
    requires i < |recs| && CustomerStaged(st, locations, recs[..i], st1, m1)
    requires Grew(st1, st2, {CustomerDim}) && OneRowAdded(st1, st2, CustomerDim)
    requires CustomerRowFor(locations, recs[i], NewRow(st1, st2, CustomerDim))
    requires m2 == m1[recs[i].customerName := NewRow(st1, st2, CustomerDim).id]
    ensures CustomerStaged(st, locations, recs[..i + 1], st2, m2)
  {
    TakeSnoc(recs, i);
    CustomerStagedSnoc(st, locations, recs[..i], st1, m1, recs[i], st2, m2);
  }

  lemma CustomerStagedSnoc(st: Store, locations: map<Place, nat>, recs: seq<CustomerRecord>,
                           st1: Store, m1: map<Value, nat>, rec: CustomerRecord, st2: Store, m2: map<Value, nat>)
    requires CustomerStaged(st, locations, recs, st1, m1)
    requires Grew(st1, st2, {CustomerDim}) && OneRowAdded(st1, st2, CustomerDim)
    requires CustomerRowFor(locations, rec, NewRow(st1, st2, CustomerDim))
    requires m2 == m1[rec.customerName := NewRow(st1, st2, CustomerDim).id]
    ensures CustomerStaged(st, locations, recs + [rec], st2, m2)
  {
    AppendedSnoc(st, st1, st2, {CustomerDim}, CustomerDim, |recs|);
    var before, row := Added(st, st1, CustomerDim), NewRow(st1, st2, CustomerDim);
    assert forall i :: 0 <= i < |recs| + 1 ==>
      CustomerRowFor(locations, (recs + [rec])[i], (before + [row])[i]);
    CustomerNamesSnoc(recs, rec);
    MapSnoc(CustomerNames(recs), before, m1, rec.customerName, row);
  }

  /** The records before `i` all had their place in the map. */
  lemma StagedPlacesKnown(st: Store, locations: map<Place, nat>, recs: seq<CustomerRecord>, i: nat,
                          st': Store, m: map<Value, nat>)
    requires i <= |recs| && CustomerStaged(st, locations, recs[..i], st', m)
    ensures forall j :: 0 <= j < i ==> PlaceOf(recs[j]) in locations
  {
    forall j | 0 <= j < i
      ensures PlaceOf(recs[j]) in locations
    {
      assert recs[..i][j] == recs[j];
    }
  }

  /** The loop over `customer_data`, in file order. On a conforming store it
      succeeds exactly when every record's place is in `location_id_map`, and
      otherwise fails with the `KeyError` of the first record whose place is
      not. */
  method CustomerStage(st: Store, locations: map<Place, nat>, recs: seq<CustomerRecord>)
    returns (r: Result<(Store, map<Value, nat>), Error>)
    ensures Conforms(st) ==> (r.Success? <==> PlacesKnown(recs, locations.Keys))
    ensures Conforms(st) && r.Failure? ==>
      exists i :: FirstUnknownPlace(recs, locations.Keys, i) && r.error == UnknownPlace(recs[i])
    ensures r.Success? ==> CustomerStaged(st, locations, recs, r.value.0, r.value.1)
  {
    var cur, ids := st, map[];
    CustomerStagedNothing(st, locations);
    var i := 0;
    while i < |recs|
      invariant 0 <= i <= |recs|
      invariant CustomerStaged(st, locations, recs[..i], cur, ids)
    {
      var next := CustomerStep(cur, locations, ids, recs[i]);
      if next.Failure? {
        if Conforms(st) {
          StagedPlacesKnown(st, locations, recs, i, cur, ids);
          assert FirstUnknownPlace(recs, locations.Keys, i);
        }
        return Failure(next.error);
      }
      CustomerStagedNext(st, locations, recs, i, cur, ids, next.value.0, next.value.1);
      cur, ids := next.value.0, next.value.1;
      i := i + 1;
    }
    assert recs[..i] == recs;
    r := Success((cur, ids));
  }
}
