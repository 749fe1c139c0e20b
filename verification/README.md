# Snowflake-schema loader, modelled in Dafny

The modelled script, `Snowflake_schema/snowflake.py`, loads five flat files
into a PostgreSQL snowflake schema:

- The leaf dimensions are Category, Brand, City, State, Country and Month.
  Each holds one natural-key column.
- The composite dimensions are Product, Location, Customer and Date. Their
  rows refer to leaf or other dimension rows.
- The fact table is Sales_Fact.

The leaves are filled through `get_or_insert`. It returns the identity of the
row holding a value, and inserts the row first when none exists. Each
composite dimension is filled by a loop that inserts one fresh row per source
record, with no check for an existing equal row. The loop also remembers the
new identity under the record's natural key in an in-memory dict
(`product_id_map`, `location_id_map`, `customer_id_map`, `date_id_map`). The
customer loop and the fact loop read those dicts. A key missing from a dict
raises `KeyError`, and the run aborts before the single commit at the end.

The model replaces the database with an immutable store, threaded through the
load:

- Each relation is a sequence of rows in insertion order.
- Each row is an identity plus a map from column name to value.
- One counter hands out fresh identities.

Each statement the script issues is one function over the store:
`Relational.Insert` is an `INSERT … RETURNING`, and `Relational.Lookup` is
the `SELECT … WHERE column = value` followed by `fetchone()`. Failure is
modelled as a `Result`. A `Failure` carries no store, so an aborted run
commits nothing.

The modules follow the script:

- `Wrappers`: `Option` and `Result`.
- `Relational`: the store, the schema and the two statements.
- `Resolver`: `get_or_insert`.
- `KeyMaps`: the dicts and their last-write-wins assignment.
- `Growth`: facts shared by the stages. These say which rows a run of
  statements appended, that their identities are fresh, and that the leaves'
  key uniqueness survives.
- `Products`, `Locations`, `Customers` and `Dates`: the four dimension loops.
- `Facts`: the sales loop.
- `Loader`: the script end to end, including the commit.

Each loop is a method with a `while` loop. Its invariant is a "staged"
predicate describing everything the loop has done so far. Each loop body is
one method ("step").

The script differs from a generic description of the resolution pattern in
two places, and the model follows the script:

- Leaf values are never cached in memory. Every `get_or_insert` asks the
  store again, and its idempotence comes from the lookup.
- A dimension's own dict is never consulted before an insert into that
  dimension, so composite rows are not deduplicated, even for identical
  records. Other dicts are read: the customer loop reads `location_id_map`,
  and the fact loop reads all four.

## Model

| member | source | states |
|---|---|---|
| Relational.IdColumnOfDimTable | Snowflake_schema/snowflake.py:29 | the identity column the resolver derives from a table named `X_Dim` (drop the last four characters, append `_id`) is `X_id` |
| Relational.LeafIdColumns | Snowflake_schema/snowflake.py:29 | for each of the six leaf dimensions, the derived column is that relation's identity column, so the resolver's SELECT and RETURNING name an existing column |
| Relational.Insert | Snowflake_schema/snowflake.py:48-53 | an INSERT succeeds exactly when the relation exists, every named column is one of its columns, and only the identity column is returned; it then appends exactly one row with those cells under the next identity, leaves every other relation and every earlier row alone, and keeps identities below the counter |
| Relational.LookupNone | Snowflake_schema/snowflake.py:28-33 | the SELECT finds nothing exactly when no row holds the value in the column |
| Relational.LookupFirst | Snowflake_schema/snowflake.py:28-34 | when row `i` is the first row holding the value, `fetchone` yields row `i`'s identity |
| Relational.LookupStable | Snowflake_schema/snowflake.py:28-34 | a value found in a relation is found again, under the same identity, after any number of appends |
| Relational.LookupAppended | Snowflake_schema/snowflake.py:36-40 | a row appended for a value no row held becomes the row the SELECT finds |
| Relational.NextIdFresh | Snowflake_schema/snowflake.py:37-40 | on a well-formed store the identity the next INSERT returns is not yet the identity of any row |
| Resolver.GetOrInsert | Snowflake_schema/snowflake.py:26-40 | `get_or_insert` succeeds exactly when the relation, its key column and the derived identity column exist; it then changes only the named relation, only by appending, and afterwards the SELECT for the value yields the returned identity |
| Resolver.GetOrInsertFound | Snowflake_schema/snowflake.py:28-34 | a value already present: the identity of the first row holding it is returned and the store is unchanged |
| Resolver.GetOrInsertAbsent | Snowflake_schema/snowflake.py:36-40 | an absent value: exactly one row holding only that value is appended, under the next identity, and the counter advances by one |
| Resolver.GetOrInsertIdempotent | Snowflake_schema/snowflake.py:26-40 | resolving the same value again returns the same identity and writes nothing |
| Resolver.GetOrInsertFresh | Snowflake_schema/snowflake.py:36-40 | the identity given to an absent value differs from every identity already in the relation |
| Resolver.GetOrInsertKeepsKeyUnique | Snowflake_schema/snowflake.py:26-40 | if no two rows share a key before resolution, none do after, and the only row holding the value is the one with the returned identity |
| KeyMaps.AssignLastWriteWins | Snowflake_schema/snowflake.py:54 | the dict built by `m[key] = id` per record holds exactly the keys that occur, each mapped to the identity written at its last occurrence, and every value is one of the written identities |
| KeyMaps.AssignOverwrites | Snowflake_schema/snowflake.py:69 | a record whose key occurs again later is overwritten: the dict maps the key to the identity written at its last occurrence |
| KeyMaps.LastIndex | Snowflake_schema/snowflake.py:54 | the position of a key's last occurrence among the records, and none (-1) exactly when the key does not occur |
| KeyMaps.AssignAt | Snowflake_schema/snowflake.py:54 | the dict holds a key exactly when some record has it, and then maps it to the identity written at the key's last occurrence |
| KeyMaps.AssignSnoc | Snowflake_schema/snowflake.py:82 | one more loop iteration updates the dict built so far at the new key |
| KeyMaps.AssignKeys | Snowflake_schema/snowflake.py:95 | the dict's keys are exactly the keys occurring in the source records |
| Growth.ResolveLeaf | Snowflake_schema/snowflake.py:45-46 | resolving a leaf value cannot fail on a store that has the schema; it grows only that leaf, keeps the schema and the uniqueness of all leaf keys, and returns the identity the SELECT now yields; a value the leaf holds yields the existing row's identity and writes nothing; an absent value appends exactly one row, holding only that value |
| Growth.ResolveLeafGrowth | Snowflake_schema/snowflake.py:28-40 | `get_or_insert` on a leaf: the found branch returns the first matching identity with the store unchanged, the insert branch appends exactly the one row holding the value, and in both the leaf grows only by rows holding a value it did not hold |
| Growth.LeafGrewTransitive | Snowflake_schema/snowflake.py:44-95 | leaf growth composes: the rows two runs appended hold, each alone, a name one of the runs was given that the leaf did not hold before |
| Growth.NoNewLeafRows | Snowflake_schema/snowflake.py:28-34 | a leaf grown only by names it already held is unchanged, since each of them is found by the SELECT |
| Growth.SingleLeafRow | Snowflake_schema/snowflake.py:26-40 | an empty leaf resolved only for one name holds exactly one row, holding only that name, and the name resolves to it |
| Growth.ResolveKeepsLeafKeysUnique | Snowflake_schema/snowflake.py:59-61 | no leaf dimension ever holds two rows with the same natural key after a resolution, if none did before |
| Growth.InsertRow | Snowflake_schema/snowflake.py:89-93 | a composite or fact INSERT naming the relation's columns cannot fail on a store that has the schema; it appends exactly the one row with the given cells and touches no other relation |
| Growth.AppendedDistinct | Snowflake_schema/snowflake.py:48-53 | composite rows are never merged: two rows a loop appended, even for equal records, carry different identities, both new to the store |
| Growth.AppendedSnoc | Snowflake_schema/snowflake.py:44 | one more iteration adds exactly its row after the rows appended so far, with identities still fresh and increasing |
| Growth.AssignIds | Snowflake_schema/snowflake.py:53-54 | every value of a loop's dict is the identity of one of the rows that loop appended |
| Growth.AddedIds | Snowflake_schema/snowflake.py:43-112 | the identities of the rows a run appended are identities of rows of the relation afterwards |
| Growth.FreshRowsIdentified | Snowflake_schema/snowflake.py:48-53 | on a well-formed store, rows appended under fresh identities carry increasing identities, and no other row of the relation, old or new, carries one of them |
| Growth.FreshAcross | Snowflake_schema/snowflake.py:43-95 | the fresh identities a loop gave its rows stay fresh, for the same rows, across earlier and later loops that do not write that relation |
| Growth.AddedUntouched | Snowflake_schema/snowflake.py:57-95 | a later loop that does not write a relation leaves the rows earlier loops appended to it as they were |
| Products.ProductStep | Snowflake_schema/snowflake.py:45-54 | one product iteration cannot fail on a store with the schema; it writes only Category_Dim, Brand_Dim and Product_Dim, appends exactly one Product_Dim row holding the name and the identities Category_Dim and Brand_Dim hold for the record's category and brand, and maps the name to that row |
| Products.ProductLeavesDone | Snowflake_schema/snowflake.py:45-53 | one product iteration adds to Category_Dim and Brand_Dim only a row for the record's category or brand, and only when that name was new |
| Locations.LocationLeavesSnoc | Snowflake_schema/snowflake.py:58-61 | the location loop's growth of City_Dim, State_Dim and Country_Dim extends by one iteration: only rows for the names of its places that were new |
| Dates.DateLeavesSnoc | Snowflake_schema/snowflake.py:86-87 | the date loop's growth of Month_Dim extends by one iteration: only rows for the month names of its records that were new |
| Products.ProductStagedSnoc | Snowflake_schema/snowflake.py:44-54 | the description of the loop after `k` records extends to `k + 1` records |
| Products.ProductStage | Snowflake_schema/snowflake.py:43-54 | the product loop cannot fail on a store with the schema; it appends one Product_Dim row per record, in file order, each describing its record under a fresh, increasing identity, and `product_id_map` is the last-write-wins assignment of those identities to the product names |
| Locations.ResolvePlace | Snowflake_schema/snowflake.py:59-61 | the three resolutions of a place grow only City_Dim, State_Dim and Country_Dim and return the identities those relations hold for its names |
| Locations.LocationStep | Snowflake_schema/snowflake.py:59-69 | one location iteration appends exactly one Location_Dim row holding the place's three leaf identities and maps the place to it |
| Locations.LocationStage | Snowflake_schema/snowflake.py:57-69 | the location loop cannot fail on a store with the schema; one Location_Dim row per record, in order, under fresh identities; `location_id_map` is keyed by `(city, state, country)` with last write winning |
| Customers.CustomerStep | Snowflake_schema/snowflake.py:74-82 | a place missing from `location_id_map` raises `KeyError` with that place and writes nothing; otherwise one Customer_Dim row holding the record's attributes and the place's location identity is appended and the name mapped to it |
| Customers.CustomerStage | Snowflake_schema/snowflake.py:72-82 | on a store with the schema the loop succeeds exactly when every record's place is a key of `location_id_map`, fails otherwise with the `KeyError` of the first record whose place is not, and on success appended one row per record as the step describes |
| Dates.DateStep | Snowflake_schema/snowflake.py:87-95 | one date iteration resolves the month name, appends exactly one Date_Dim row holding year, quarter, month identity, day and weekday, and maps `(year, quarter, month name, day)` to it |
| Dates.DateStage | Snowflake_schema/snowflake.py:85-95 | the date loop cannot fail on a store with the schema; one Date_Dim row per record, in order, under fresh identities; `date_id_map` is the last-write-wins assignment keyed without the weekday |
| Facts.FactStep | Snowflake_schema/snowflake.py:99-112 | a sales record with a key missing from its dict raises the `KeyError` of the first lookup, in the order product, customer, date, location, and writes nothing; otherwise exactly one Sales_Fact row is appended, holding the four looked-up identities and the two measures |
| Facts.FactStage | Snowflake_schema/snowflake.py:98-112 | on a store with the schema the sales loop succeeds exactly when every record's four keys are known, fails otherwise with the `KeyError` of the first record with an unknown key, and on success appended one fact row per record, in order |
| Loader.EarlyStagesDone | Snowflake_schema/snowflake.py:43-69 | after all four dimension loops, `product_id_map` and `location_id_map` hold exactly the source's product names and places, each mapped to the identity of the row appended at its last occurrence; later loops leave those rows as they were |
| Loader.EarlyRowsDone | Snowflake_schema/snowflake.py:48-67 | the Product_Dim and Location_Dim rows keep describing their records, with leaf identities that still resolve, after the later loops |
| Loader.CustomerStageDone | Snowflake_schema/snowflake.py:72-82 | after the customer loop, `customer_id_map` holds exactly the source's customer names, each mapped to the row appended at its last occurrence, and each Customer_Dim row holds the identity of the Location_Dim row appended at its place's last occurrence |
| Loader.DateStageDone | Snowflake_schema/snowflake.py:85-95 | after the date loop, `date_id_map` holds exactly the source's date keys, each mapped to the row appended at its last occurrence, and each Date_Dim row describes its record |
| Loader.LeavesDone | Snowflake_schema/snowflake.py:43-95 | across the four dimension loops the leaves gain rows only for category, brand, city, state, country and month names of the files that they did not hold, one name per row |
| Loader.DimensionRowsDone | Snowflake_schema/snowflake.py:43-95 | the four dimension loops append one composite row per record, in file order, each describing its record |
| Loader.DimensionMapsDone | Snowflake_schema/snowflake.py:43-95 | the four dicts hold exactly the source's keys, each mapped to the identity of the row appended at the key's last occurrence |
| Loader.EarlyIdsDone | Snowflake_schema/snowflake.py:48-68 | the Product_Dim and Location_Dim rows keep the fresh, increasing identities their loops gave them, counted from the start of the run |
| Loader.CustomerIdsDone | Snowflake_schema/snowflake.py:76-81 | the Customer_Dim rows keep the fresh, increasing identities their loop gave them, counted from the start of the run |
| Loader.DateIdsDone | Snowflake_schema/snowflake.py:89-94 | the Date_Dim rows keep the fresh, increasing identities their loop gave them, counted from the start of the run |
| Loader.DimensionsDone | Snowflake_schema/snowflake.py:43-95 | the four dimension loops together: the composite rows under fresh identities, the dicts and the leaf growth above, touching only dimension relations |
| Loader.LoadDimensions | Snowflake_schema/snowflake.py:43-95 | the dimension loops in the script's order fail, on a store with the schema, exactly when some customer's place is not in the location file, and then with that first customer's `KeyError` |
| Loader.FactsLoaded | Snowflake_schema/snowflake.py:98-112 | each Sales_Fact row's product, customer, date and location keys are the identities of the rows appended for the last record with that product name, customer name, date key and place, and its measures are the sale's |
| Loader.LoadDone | Snowflake_schema/snowflake.py:98-112 | the fact loop keeps the dimension rows, their fresh identities and the leaf growth, and appends one Sales_Fact row per sale, under fresh identities, whose foreign keys are those of the rows appended for the keys' last occurrences |
| Loader.Load | Snowflake_schema/snowflake.py:43-115 | on a store with the schema the run commits exactly when every key the customer and sales files use is provided by its dimension file; otherwise it fails with the first `KeyError` and commits nothing; a committed store holds, in order, one composite row per dimension record and one fact row per sale, each describing its record under a fresh identity drawn during the run and increasing in file order, with every foreign key the identity of the row appended for the key's last occurrence, and leaf rows only for names that were new |
| Loader.LoadedFromEmpty | Snowflake_schema/snowflake.py:98-115 | a run committed on the empty schema leaves a database in which every relation holds exactly what the run appended, every leaf key occurs once, and every Sales_Fact row is the one described for its sale |
| Loader.LoadedRowsIdentified | Snowflake_schema/snowflake.py:43-115 | on a well-formed store, every composite or fact row a committed load appended carries an identity larger than the one before it, and no other row of its relation carries that identity, so each foreign key names exactly one row |
| Loader.EqualProductsTwoRows | Snowflake_schema/snowflake.py:44-53 | two equal product records give two Product_Dim rows with equal cells under different identities: composite rows are not deduplicated |
| Loader.FactRowRefers | Snowflake_schema/snowflake.py:99-112 | the four foreign keys of a committed Sales_Fact row are identities of rows of Product_Dim, Customer_Dim, Date_Dim and Location_Dim |
| Loader.CommittedReferences | Snowflake_schema/snowflake.py:74-112 | after a load no foreign key it wrote dangles: every Sales_Fact key and every Customer_Dim location refers to a row of the committed relation |
| Loader.ReloadAddsNoLeafRows | Snowflake_schema/snowflake.py:26-115 | loading the same files a second time adds no leaf rows, since every name resolves by lookup, while every composite relation and the fact table receive as many rows again |
| Loader.SingleProductLoaded | Snowflake_schema/snowflake.py:43-54 | one product record loaded into the empty schema gives one Product_Dim row linked to the one Category_Dim row of its category and the one Brand_Dim row of its brand |
| Loader.WidgetLoaded | Snowflake_schema/snowflake.py:43-115 | the product "Widget" of category "Tools" and brand "Acme" with one sale, loaded into the empty schema: one Product_Dim row for "Widget" linked to the one "Tools" and the one "Acme" row, and one Sales_Fact row whose product key is that Product_Dim row's identity |

## Left out

- The database connection, its credentials and the cursor lifecycle (Snowflake_schema/snowflake.py:11-17, 116-117) are I/O through a foreign library.
- Reading the CSV files (Snowflake_schema/snowflake.py:20-24) is file I/O. Each file is given as a sequence of typed records, so a missing source column cannot occur.
- Cell values are opaque (`Value`). Pandas type inference, NaN and NULL, and Python's equal hashing of `1` and `1.0` as dict keys are not modelled.
- The measures `sales_amount` and `quantity_sold` are copied, never interpreted, so their numeric meaning is not modelled.
- SQL text and f-string interpolation are not parsed. PostgreSQL folds unquoted identifiers to lower case; the model does not, and compares names as the script spells them.
- The modelled script issues no DDL. The columns of each relation are inferred from the statements it issues. Sales_Fact's identity column is assumed to be `sales_id`, a name the script never uses. Constraints the real schema may declare are not modelled: NOT NULL, UNIQUE, foreign keys and column types. Apart from unknown relations and unknown columns, the model rejects two statements PostgreSQL would accept; the script issues neither, so no run of it is affected:
  - `Relational.Insert` rejects a RETURNING of an existing column other than the identity column.
  - `Resolver.GetOrInsert` rejects a table whose derived `X_id` column is not its identity column, even when `X_id` is some other existing column.
- PostgreSQL gives each serial column its own sequence. The model draws every identity from one counter. Only freshness and increasing order are used.
- A SELECT without ORDER BY may return any matching row. The model returns the first in insertion order. A relation loaded only by this script never holds two matching rows, so the choice does not matter there (`Growth.LeafKeysUnique`).
- Database errors other than an unknown relation or column (connection loss, type errors, constraint violations) are not modelled.
- An aborted run is a `Failure` with no store. What the database does with the uncommitted transaction is not modelled.
- Concurrent runs are not modelled; the script is single-threaded.
- Loader.Load: the committed-store properties are stated for the rows this run appended. Rows present before the run are only known to be kept.
- Loader.Load: the if-and-only-if success condition and the error description are stated for stores that already hold every relation of the schema. For other stores the contract only says what a success implies.
