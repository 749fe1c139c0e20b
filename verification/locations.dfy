/** The location loop: for every record of `location_data`, resolve its
    city, state and country, insert one Location_Dim row, and remember the
    new row's identity under the `(city, state, country)` triple in
    `location_id_map`. */
module Locations {
  import opened Wrappers
  import opened Relational
  import opened KeyMaps
  import opened Growth

  /** A record of `location_data`, which is also the key of
      `location_id_map`. */
  datatype Place = Place(city: Value, state: Value, country: Value)

  /** The key a `KeyError` on `location_id_map` reports. */
  function PlaceKey(p: Place): seq<Value> {
    [p.city, p.state, p.country]
  }

  /** The relations the location loop writes to. */
  const LocationTables: set<TableName> := {CityDim, StateDim, CountryDim, LocationDim}

  /** The leaf relations a place is resolved against. */
  const PlaceLeaves: set<TableName> := {CityDim, StateDim, CountryDim}

  /** The cells the loop writes into Location_Dim: every column of the
      relation but its identity. */
  function LocationCells(cityId: nat, stateId: nat, countryId: nat): (cells: map<string, Value>)
    ensures cells.Keys == Columns(LocationDim)
  {
    map["city_id" := Int(cityId), "state_id" := Int(stateId), "country_id" := Int(countryId)]
  }

  /** `row` is the Location_Dim row written for `p`: the identities under
      which City_Dim, State_Dim and Country_Dim hold its three names. */
  predicate LocationRowFor(st: Store, p: Place, row: Row) {
    && Resolved(st, CityDim, "city_name", p.city)
    && Resolved(st, StateDim, "state_name", p.state)
    && Resolved(st, CountryDim, "country_name", p.country)
    && row.fields == LocationCells(
         ResolvedId(st, CityDim, "city_name", p.city),
         ResolvedId(st, StateDim, "state_name", p.state),
         ResolvedId(st, CountryDim, "country_name", p.country))
  }

  lemma LocationRowForStable(st: Store, st': Store, p: Place, row: Row)
    requires Extends(st, st') && LocationRowFor(st, p, row)
    ensures LocationRowFor(st', p, row)
  {
    ResolvedStable(st, st', CityDim, "city_name", p.city);
    ResolvedStable(st, st', StateDim, "state_name", p.state);
    ResolvedStable(st, st', CountryDim, "country_name", p.country);
  }

  /** Rows describing their records keep doing so while the store grows. */
  lemma LocationRowsStable(st: Store, st': Store, recs: seq<Place>, rows: seq<Row>)
    requires Extends(st, st') && |rows| == |recs|
    requires forall i :: 0 <= i < |recs| ==> LocationRowFor(st, recs[i], rows[i])
    ensures forall i :: 0 <= i < |recs| ==> LocationRowFor(st', recs[i], rows[i])
  {
    forall i | 0 <= i < |recs|
      ensures LocationRowFor(st', recs[i], rows[i])
    {
      LocationRowForStable(st, st', recs[i], rows[i]);
    }
  }

  /** The three `get_or_insert` calls of one iteration: the identities of
      the place's city, state and country. On a conforming store they cannot
      fail; they grow the three leaf relations only. */
  method ResolvePlace(st: Store, p: Place) returns (r: Result<(nat, nat, nat, Store), Error>)
    ensures Conforms(st) ==> r.Success?
    ensures r.Success? ==>
      var (cityId, stateId, countryId, st') := r.value;
      && Grew(st, st', PlaceLeaves)
      && Resolved(st', CityDim, "city_name", p.city)
      && Resolved(st', StateDim, "state_name", p.state)
      && Resolved(st', CountryDim, "country_name", p.country)
      && cityId == ResolvedId(st', CityDim, "city_name", p.city)
      && stateId == ResolvedId(st', StateDim, "state_name", p.state)
      && countryId == ResolvedId(st', CountryDim, "country_name", p.country)
      && LocationLeaves(st, [p], st')
  {
    var city :- ResolveLeaf(st, CityDim, p.city);
    var state :- ResolveLeaf(city.1, StateDim, p.state);
    var country :- ResolveLeaf(state.1, CountryDim, p.country);
    ResolvePlaceDone(st, city.1, state.1, country.1, p);
    PlaceLeavesDone(st, city.1, state.1, country.1, p);
    r := Success((city.0, state.0, country.0, country.1));
  }

  lemma ResolvePlaceDone(st: Store, st1: Store, st2: Store, st3: Store, p: Place)
    requires Grew(st, st1, {CityDim}) && Resolved(st1, CityDim, "city_name", p.city)
    requires Grew(st1, st2, {StateDim}) && Resolved(st2, StateDim, "state_name", p.state)
    requires Grew(st2, st3, {CountryDim}) && Resolved(st3, CountryDim, "country_name", p.country)
    ensures Grew(st, st3, PlaceLeaves)
    ensures Resolved(st3, CityDim, "city_name", p.city)
    ensures ResolvedId(st3, CityDim, "city_name", p.city) == ResolvedId(st1, CityDim, "city_name", p.city)
    ensures Resolved(st3, StateDim, "state_name", p.state)
    ensures ResolvedId(st3, StateDim, "state_name", p.state) == ResolvedId(st2, StateDim, "state_name", p.state)
  {
    GrewTransitive(st, st1, st2, {CityDim}, {StateDim}, PlaceLeaves);
    GrewTransitive(st, st2, st3, PlaceLeaves, {CountryDim}, PlaceLeaves);
    ResolvedStable(st1, st3, CityDim, "city_name", p.city);
    ResolvedStable(st2, st3, StateDim, "state_name", p.state);
  }

  /** The city, state and country names of the places, in order. */
  function Cities(places: seq<Place>): (vs: seq<Value>)
    ensures |vs| == |places|
    ensures forall i :: 0 <= i < |places| ==> vs[i] == places[i].city
  {
    seq(|places|, i requires 0 <= i < |places| => places[i].city)
  }

  function States(places: seq<Place>): (vs: seq<Value>)
    ensures |vs| == |places|
    ensures forall i :: 0 <= i < |places| ==> vs[i] == places[i].state
  {
    seq(|places|, i requires 0 <= i < |places| => places[i].state)
  }

  function Countries(places: seq<Place>): (vs: seq<Value>)
    ensures |vs| == |places|
    ensures forall i :: 0 <= i < |places| ==> vs[i] == places[i].country
  {
    seq(|places|, i requires 0 <= i < |places| => places[i].country)
  }

  /** The only rows the location loop adds to City_Dim, State_Dim and
      Country_Dim are one per name of its places that the leaf did not hold
      yet, each holding that name alone. */
  predicate LocationLeaves(st: Store, places: seq<Place>, st': Store) {
    && LeafGrewBy(st, st', CityDim, Cities(places))
    && LeafGrewBy(st, st', StateDim, States(places))
    && LeafGrewBy(st, st', CountryDim, Countries(places))
  }

  /** The leaf rows of the three resolutions, composed. */
  lemma PlaceLeavesDone(st: Store, st1: Store, st2: Store, st3: Store, p: Place)
    requires Grew(st, st1, {CityDim}) && LeafGrewBy(st, st1, CityDim, [p.city])
    requires Grew(st1, st2, {StateDim}) && LeafGrewBy(st1, st2, StateDim, [p.state])
    requires Grew(st2, st3, {CountryDim}) && LeafGrewBy(st2, st3, CountryDim, [p.country])
    ensures LocationLeaves(st, [p], st3)
  {
    LeafGrewKept(st, st1, st2, {StateDim}, CityDim, [p.city]);
    LeafGrewKept(st, st2, st3, {CountryDim}, CityDim, [p.city]);
    LeafGrewAfter(st, st1, st2, {CityDim}, StateDim, [p.state]);
    LeafGrewKept(st, st2, st3, {CountryDim}, StateDim, [p.state]);
    GrewTransitive(st, st1, st2, {CityDim}, {StateDim}, {CityDim, StateDim});
    LeafGrewAfter(st, st2, st3, {CityDim, StateDim}, CountryDim, [p.country]);
    assert Cities([p]) == [p.city] && States([p]) == [p.state] && Countries([p]) == [p.country];
  }

  /** Leaf rows survive the Location_Dim insert. */
  lemma LocationLeavesKept(st: Store, st1: Store, st2: Store, places: seq<Place>)
    requires LocationLeaves(st, places, st1) && Grew(st1, st2, {LocationDim})
    ensures LocationLeaves(st, places, st2)
  {
    LeafGrewKept(st, st1, st2, {LocationDim}, CityDim, Cities(places));
    LeafGrewKept(st, st1, st2, {LocationDim}, StateDim, States(places));
    LeafGrewKept(st, st1, st2, {LocationDim}, CountryDim, Countries(places));
  }

  lemma LocationLeavesSnoc(st: Store, places: seq<Place>, st1: Store, p: Place, st2: Store)
    requires LocationLeaves(st, places, st1) && LocationLeaves(st1, [p], st2)
    ensures LocationLeaves(st, places + [p], st2)
  {
    LeafGrewTransitive(st, st1, st2, CityDim, Cities(places), Cities([p]));
    LeafGrewTransitive(st, st1, st2, StateDim, States(places), States([p]));
    LeafGrewTransitive(st, st1, st2, CountryDim, Countries(places), Countries([p]));
    assert Cities(places + [p]) == Cities(places) + Cities([p]);
    assert States(places + [p]) == States(places) + States([p]);
    assert Countries(places + [p]) == Countries(places) + Countries([p]);
  }

  /** One iteration of the location loop. On a conforming store it cannot
      fail; it appends exactly one Location_Dim row, describing the place,
      and maps the place to that row's identity. */
  method LocationStep(st: Store, ids: map<Place, nat>, p: Place)
    returns (r: Result<(Store, map<Place, nat>), Error>)
    ensures Conforms(st) ==> r.Success?
    ensures r.Success? ==>
      var (st', ids') := r.value;
      && Grew(st, st', LocationTables)
      && OneRowAdded(st, st', LocationDim)
      && LocationRowFor(st', p, NewRow(st, st', LocationDim))
      && ids' == ids[p := NewRow(st, st', LocationDim).id]
      && LocationLeaves(st, [p], st')
  {
    var leaves :- ResolvePlace(st, p);
    var (cityId, stateId, countryId, st1) := leaves;
    var location :- InsertRow(st1, LocationDim, LocationCells(cityId, stateId, countryId), Some("location_id"));
    LocationStepDone(st, st1, location.1, p, cityId, stateId, countryId, location.0);
    LocationLeavesKept(st, st1, location.1, [p]);
    r := Success((location.1, ids[p := location.0]));
  }

  /** The statements of one iteration, composed. */
  lemma LocationStepDone(st: Store, st1: Store, st2: Store, p: Place,
                         cityId: nat, stateId: nat, countryId: nat, locationId: nat)
    requires Grew(st, st1, PlaceLeaves)
    requires Resolved(st1, CityDim, "city_name", p.city) && cityId == ResolvedId(st1, CityDim, "city_name", p.city)
    requires Resolved(st1, StateDim, "state_name", p.state) && stateId == ResolvedId(st1, StateDim, "state_name", p.state)
    requires Resolved(st1, CountryDim, "country_name", p.country) && countryId == ResolvedId(st1, CountryDim, "country_name", p.country)
    requires Grew(st1, st2, {LocationDim}) && OneRowAdded(st1, st2, LocationDim)
    requires NewRow(st1, st2, LocationDim) == Row(locationId, LocationCells(cityId, stateId, countryId))
    ensures Grew(st, st2, LocationTables) && OneRowAdded(st, st2, LocationDim)
    ensures NewRow(st, st2, LocationDim) == Row(locationId, LocationCells(cityId, stateId, countryId))
    ensures LocationRowFor(st2, p, NewRow(st, st2, LocationDim))
  {
    GrewTransitive(st, st1, st2, PlaceLeaves, {LocationDim}, LocationTables);
    LocationRowForStable(st1, st2, p, Row(locationId, LocationCells(cityId, stateId, countryId)));
  }

  /** What the location loop has done after the places `places`: it touched
      only the location tables, appended one Location_Dim row per record, in
      order and even for repeated places, each describing its place under a
      fresh identity, and built `location_id_map` by assigning each row's
      identity to its place in turn. */
  predicate LocationStaged(st: Store, places: seq<Place>, st': Store, m: map<Place, nat>) {
    && Appended(st, st', LocationTables, LocationDim, |places|)
    && (forall i :: 0 <= i < |places| ==> LocationRowFor(st', places[i], Added(st, st', LocationDim)[i]))
    && m == Assign(places, RowIds(Added(st, st', LocationDim)))
    && LocationLeaves(st, places, st')
  }

  lemma LocationStagedNothing(st: Store)
    ensures LocationStaged(st, [], st, map[])
  {
    AppendedNothing(st, LocationTables, LocationDim);
    LeafGrewUntouched(st, st, {}, CityDim, []);
    LeafGrewUntouched(st, st, {}, StateDim, []);
    LeafGrewUntouched(st, st, {}, CountryDim, []);
  }

  /** The loop's description extends by one iteration. */
  lemma LocationStagedNext(st: Store, places: seq<Place>, i: nat, st1: Store, m1: map<Place, nat>,
                           st2: Store, m2: map<Place, nat>)
    requires i < |places| && LocationStaged(st, places[..i], st1, m1)
    requires Grew(st1, st2, LocationTables) && OneRowAdded(st1, st2, LocationDim)
    requires LocationRowFor(st2, places[i], NewRow(st1, st2, LocationDim))
    requires m2 == m1[places[i] := NewRow(st1, st2, LocationDim).id]
    requires LocationLeaves(st1, [places[i]], st2)
    ensures LocationStaged(st, places[..i + 1], st2, m2)
  {
    TakeSnoc(places, i);
    LocationStagedSnoc(st, places[..i], st1, m1, places[i], st2, m2);
  }

  lemma LocationStagedSnoc(st: Store, places: seq<Place>, st1: Store, m1: map<Place, nat>,
                           p: Place, st2: Store, m2: map<Place, nat>)
    requires LocationStaged(st, places, st1, m1)
    requires Grew(st1, st2, LocationTables) && OneRowAdded(st1, st2, LocationDim)
    requires LocationRowFor(st2, p, NewRow(st1, st2, LocationDim))
    requires m2 == m1[p := NewRow(st1, st2, LocationDim).id]
    requires LocationLeaves(st1, [p], st2)
    ensures LocationStaged(st, places + [p], st2, m2)
  {
    LocationLeavesSnoc(st, places, st1, p, st2);
    AppendedSnoc(st, st1, st2, LocationTables, LocationDim, |places|);
    var before, row := Added(st, st1, LocationDim), NewRow(st1, st2, LocationDim);
    LocationRowsSnoc(st1, st2, places, before, p, row);
    MapSnoc(places, before, m1, p, row);
  }

  lemma LocationRowsSnoc(st1: Store, st2: Store, places: seq<Place>, rows: seq<Row>, p: Place, row: Row)
    requires Extends(st1, st2) && |rows| == |places|
    requires forall i :: 0 <= i < |places| ==> LocationRowFor(st1, places[i], rows[i])
    requires LocationRowFor(st2, p, row)
    ensures forall i :: 0 <= i < |places| + 1 ==> LocationRowFor(st2, (places + [p])[i], (rows + [row])[i])
  {
    forall i | 0 <= i < |places| + 1
      ensures LocationRowFor(st2, (places + [p])[i], (rows + [row])[i])
    {
      if i < |places| {
        LocationRowForStable(st1, st2, places[i], rows[i]);
      }
    }
  }

  /** The loop over `location_data`, in file order; the first failing
      statement aborts it. On a conforming store it cannot fail. */
  method LocationStage(st: Store, places: seq<Place>)
    returns (r: Result<(Store, map<Place, nat>), Error>)
    ensures Conforms(st) ==> r.Success?
    ensures r.Success? ==> LocationStaged(st, places, r.value.0, r.value.1)
  {
    var cur, ids := st, map[];
    LocationStagedNothing(st);
    var i := 0;
    while i < |places|
      invariant 0 <= i <= |places|
      invariant LocationStaged(st, places[..i], cur, ids)
    {
      var next :- LocationStep(cur, ids, places[i]);
      LocationStagedNext(st, places, i, cur, ids, next.0, next.1);
      cur, ids := next.0, next.1;
      i := i + 1;
    }
    assert places[..i] == places;
    r := Success((cur, ids));
  }
}
