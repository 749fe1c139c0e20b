/** The product loop: for every record of `product_data`, resolve its
    category and brand, insert one Product_Dim row, and remember the new
    row's identity under the product's name in `product_id_map`. */
module Products {
  import opened Wrappers
  import opened Relational
  import opened KeyMaps
  import opened Growth

  datatype ProductRecord = ProductRecord(productName: Value, category: Value, brand: Value)

  /** The relations the product loop writes to. */
  const ProductTables: set<TableName> := {CategoryDim, BrandDim, ProductDim}

  /** The cells the loop writes into Product_Dim: every column of the
      relation but its identity. */
  function ProductCells(rec: ProductRecord, categoryId: nat, brandId: nat): (cells: map<string, Value>)
    ensures cells.Keys == Columns(ProductDim)
  {
    map["product_name" := rec.productName, "category_id" := Int(categoryId), "brand_id" := Int(brandId)]
  }

  /** `row` is the Product_Dim row written for `rec`: the product's name and
      the identities under which Category_Dim and Brand_Dim hold its category
      and brand. */
  predicate ProductRowFor(st: Store, rec: ProductRecord, row: Row) {
    && Resolved(st, CategoryDim, "category_name", rec.category)
    && Resolved(st, BrandDim, "brand_name", rec.brand)
    && row.fields == ProductCells(rec,
         ResolvedId(st, CategoryDim, "category_name", rec.category),
         ResolvedId(st, BrandDim, "brand_name", rec.brand))
  }

  lemma ProductRowForStable(st: Store, st': Store, rec: ProductRecord, row: Row)
    requires Extends(st, st') && ProductRowFor(st, rec, row)
    ensures ProductRowFor(st', rec, row)
  {
    ResolvedStable(st, st', CategoryDim, "category_name", rec.category);
    ResolvedStable(st, st', BrandDim, "brand_name", rec.brand);
  }

  /** Rows describing their records keep doing so while the store grows. */
  lemma ProductRowsStable(st: Store, st': Store, recs: seq<ProductRecord>, rows: seq<Row>)
    requires Extends(st, st') && |rows| == |recs|
    requires forall i :: 0 <= i < |recs| ==> ProductRowFor(st, recs[i], rows[i])
    ensures forall i :: 0 <= i < |recs| ==> ProductRowFor(st', recs[i], rows[i])
  {
    forall i | 0 <= i < |recs|
      ensures ProductRowFor(st', recs[i], rows[i])
    {
      ProductRowForStable(st, st', recs[i], rows[i]);
    }
  }

  /** One iteration of the product loop. On a conforming store it cannot
      fail; it appends exactly one Product_Dim row, describing the record,
      and maps the product's name to that row's identity. */
  method ProductStep(st: Store, ids: map<Value, nat>, rec: ProductRecord)
    returns (r: Result<(Store, map<Value, nat>), Error>)
    ensures Conforms(st) ==> r.Success?
    ensures r.Success? ==>
      var (st', ids') := r.value;
      && Grew(st, st', ProductTables)
      && OneRowAdded(st, st', ProductDim)
      && ProductRowFor(st', rec, NewRow(st, st', ProductDim))
      && ids' == ids[rec.productName := NewRow(st, st', ProductDim).id]
      && ProductLeaves(st, [rec], st')
  {
    var category :- ResolveLeaf(st, CategoryDim, rec.category);
    var brand :- ResolveLeaf(category.1, BrandDim, rec.brand);
    var product :- InsertRow(brand.1, ProductDim, ProductCells(rec, category.0, brand.0), Some("product_id"));
    ProductStepDone(st, category.1, brand.1, product.1, rec, category.0, brand.0, product.0);
    ProductLeavesDone(st, category.1, brand.1, product.1, rec);
    r := Success((product.1, ids[rec.productName := product.0]));
  }

  /** The statements of one iteration, composed. */
  lemma ProductStepDone(st: Store, st1: Store, st2: Store, st3: Store, rec: ProductRecord,
                        categoryId: nat, brandId: nat, productId: nat)
    requires Grew(st, st1, {CategoryDim}) && Resolved(st1, CategoryDim, "category_name", rec.category)
    requires ResolvedId(st1, CategoryDim, "category_name", rec.category) == categoryId
    requires Grew(st1, st2, {BrandDim}) && Resolved(st2, BrandDim, "brand_name", rec.brand)
    requires ResolvedId(st2, BrandDim, "brand_name", rec.brand) == brandId
    requires Grew(st2, st3, {ProductDim}) && OneRowAdded(st2, st3, ProductDim)
    requires NewRow(st2, st3, ProductDim) == Row(productId, ProductCells(rec, categoryId, brandId))
    ensures Grew(st, st3, ProductTables) && OneRowAdded(st, st3, ProductDim)
    ensures NewRow(st, st3, ProductDim) == Row(productId, ProductCells(rec, categoryId, brandId))
    ensures ProductRowFor(st3, rec, NewRow(st, st3, ProductDim))
  {
    GrewTransitive(st, st1, st2, {CategoryDim}, {BrandDim}, ProductTables);
    GrewTransitive(st, st2, st3, ProductTables, {ProductDim}, ProductTables);
    ResolvedStable(st1, st3, CategoryDim, "category_name", rec.category);
    ResolvedStable(st2, st3, BrandDim, "brand_name", rec.brand);
  }

  /** The category and brand names of the records, in order. */
  function Categories(recs: seq<ProductRecord>): (vs: seq<Value>)
    ensures |vs| == |recs|
    ensures forall i :: 0 <= i < |recs| ==> vs[i] == recs[i].category
  {
    seq(|recs|, i requires 0 <= i < |recs| => recs[i].category)
  }

  function Brands(recs: seq<ProductRecord>): (vs: seq<Value>)
    ensures |vs| == |recs|
    ensures forall i :: 0 <= i < |recs| ==> vs[i] == recs[i].brand
  {
    seq(|recs|, i requires 0 <= i < |recs| => recs[i].brand)
  }

  /** The only rows the product loop adds to Category_Dim and Brand_Dim are
      one per category and brand name of its records that the leaf did not
      hold yet, each holding that name alone. */
  predicate ProductLeaves(st: Store, recs: seq<ProductRecord>, st': Store) {
    && LeafGrewBy(st, st', CategoryDim, Categories(recs))
    && LeafGrewBy(st, st', BrandDim, Brands(recs))
  }

  /** The leaf rows of one iteration, composed. */
  lemma ProductLeavesDone(st: Store, st1: Store, st2: Store, st3: Store, rec: ProductRecord)
    requires Grew(st, st1, {CategoryDim}) && LeafGrewBy(st, st1, CategoryDim, [rec.category])
    requires Grew(st1, st2, {BrandDim}) && LeafGrewBy(st1, st2, BrandDim, [rec.brand])
    requires Grew(st2, st3, {ProductDim})
    ensures ProductLeaves(st, [rec], st3)
  {
    LeafGrewKept(st, st1, st2, {BrandDim}, CategoryDim, [rec.category]);
    LeafGrewKept(st, st2, st3, {ProductDim}, CategoryDim, [rec.category]);
    LeafGrewAfter(st, st1, st2, {CategoryDim}, BrandDim, [rec.brand]);
    LeafGrewKept(st, st2, st3, {ProductDim}, BrandDim, [rec.brand]);
    assert Categories([rec]) == [rec.category] && Brands([rec]) == [rec.brand];
  }

  lemma ProductLeavesSnoc(st: Store, recs: seq<ProductRecord>, st1: Store, rec: ProductRecord, st2: Store)
    requires ProductLeaves(st, recs, st1) && ProductLeaves(st1, [rec], st2)
    ensures ProductLeaves(st, recs + [rec], st2)
  {
    LeafGrewTransitive(st, st1, st2, CategoryDim, Categories(recs), Categories([rec]));
    LeafGrewTransitive(st, st1, st2, BrandDim, Brands(recs), Brands([rec]));
    assert Categories(recs + [rec]) == Categories(recs) + Categories([rec]);
    assert Brands(recs + [rec]) == Brands(recs) + Brands([rec]);
  }

  /** The keys of `product_id_map`, one per source record. */
  function ProductNames(recs: seq<ProductRecord>): (keys: seq<Value>)
    ensures |keys| == |recs|
    ensures forall i :: 0 <= i < |recs| ==> keys[i] == recs[i].productName
  {
    seq(|recs|, i requires 0 <= i < |recs| => recs[i].productName)
  }

  lemma ProductNamesSnoc(recs: seq<ProductRecord>, rec: ProductRecord)
    ensures ProductNames(recs + [rec]) == ProductNames(recs) + [rec.productName]
  {
  }

  /** What the product loop has done after the records `recs`: it touched
      only the product tables, appended one Product_Dim row per record, in
      order and even for repeated records, each describing its record under
      a fresh identity, and built `product_id_map` by assigning each row's
      identity to its product's name in turn. */
  predicate ProductStaged(st: Store, recs: seq<ProductRecord>, st': Store, m: map<Value, nat>) {
    && Appended(st, st', ProductTables, ProductDim, |recs|)
    && (forall i :: 0 <= i < |recs| ==> ProductRowFor(st', recs[i], Added(st, st', ProductDim)[i]))
    && m == Assign(ProductNames(recs), RowIds(Added(st, st', ProductDim)))
    && ProductLeaves(st, recs, st')
  }

  lemma ProductStagedNothing(st: Store)
    ensures ProductStaged(st, [], st, map[])
  {
    AppendedNothing(st, ProductTables, ProductDim);
    LeafGrewUntouched(st, st, {}, CategoryDim, []);
    LeafGrewUntouched(st, st, {}, BrandDim, []);
  }

  /** The loop's description extends by one iteration. */
  lemma ProductStagedNext(st: Store, recs: seq<ProductRecord>, i: nat, st1: Store, m1: map<Value, nat>,
                          st2: Store, m2: map<Value, nat>)
    requires i < |recs| && ProductStaged(st, recs[..i], st1, m1)
    requires Grew(st1, st2, ProductTables) && OneRowAdded(st1, st2, ProductDim)
    requires ProductRowFor(st2, recs[i], NewRow(st1, st2, ProductDim))
    requires m2 == m1[recs[i].productName := NewRow(st1, st2, ProductDim).id]
    requires ProductLeaves(st1, [recs[i]], st2)
    ensures ProductStaged(st, recs[..i + 1], st2, m2)
  {
    TakeSnoc(recs, i);
    ProductStagedSnoc(st, recs[..i], st1, m1, recs[i], st2, m2);
  }

  lemma ProductStagedSnoc(st: Store, recs: seq<ProductRecord>, st1: Store, m1: map<Value, nat>,
                          rec: ProductRecord, st2: Store, m2: map<Value, nat>)
    requires ProductStaged(st, recs, st1, m1)
    requires Grew(st1, st2, ProductTables) && OneRowAdded(st1, st2, ProductDim)
    requires ProductRowFor(st2, rec, NewRow(st1, st2, ProductDim))
    requires m2 == m1[rec.productName := NewRow(st1, st2, ProductDim).id]
    requires ProductLeaves(st1, [rec], st2)
    ensures ProductStaged(st, recs + [rec], st2, m2)
  {
    ProductLeavesSnoc(st, recs, st1, rec, st2);
    AppendedSnoc(st, st1, st2, ProductTables, ProductDim, |recs|);
    var before, row := Added(st, st1, ProductDim), NewRow(st1, st2, ProductDim);
    ProductRowsSnoc(st1, st2, recs, before, rec, row);
    ProductNamesSnoc(recs, rec);
    MapSnoc(ProductNames(recs), before, m1, rec.productName, row);
  }

  lemma ProductRowsSnoc(st1: Store, st2: Store, recs: seq<ProductRecord>, rows: seq<Row>, rec: ProductRecord, row: Row)
    requires Extends(st1, st2) && |rows| == |recs|
    requires forall i :: 0 <= i < |recs| ==> ProductRowFor(st1, recs[i], rows[i])
    requires ProductRowFor(st2, rec, row)
    ensures forall i :: 0 <= i < |recs| + 1 ==> ProductRowFor(st2, (recs + [rec])[i], (rows + [row])[i])
  {
    forall i | 0 <= i < |recs| + 1
      ensures ProductRowFor(st2, (recs + [rec])[i], (rows + [row])[i])
    {
      if i < |recs| {
        ProductRowForStable(st1, st2, recs[i], rows[i]);
      }
    }
  }

  /** The loop over `product_data`, in file order; the first failing
      statement aborts it. On a conforming store it cannot fail. */
  method ProductStage(st: Store, recs: seq<ProductRecord>)
    returns (r: Result<(Store, map<Value, nat>), Error>)
    ensures Conforms(st) ==> r.Success?
    ensures r.Success? ==> ProductStaged(st, recs, r.value.0, r.value.1)
  {
    var cur, ids := st, map[];
    ProductStagedNothing(st);
    var i := 0;
    while i < |recs|
      invariant 0 <= i <= |recs|
      invariant ProductStaged(st, recs[..i], cur, ids)
    {
      var next :- ProductStep(cur, ids, recs[i]);
      ProductStagedNext(st, recs, i, cur, ids, next.0, next.1);
      cur, ids := next.0, next.1;
      i := i + 1;
    }
    assert recs[..i] == recs;
    r := Success((cur, ids));
  }
}
