# Country cache service: a Dafny model

The service keeps a MySQL table `countries` of enriched country records.
`POST /countries/refresh` fetches a country directory and a USD exchange-rate
table, computes for each country its currency code, exchange rate and a
randomised "estimated GDP", and upserts the rows in one transaction.
`GET /countries` filters the table by region and currency and can sort it by
estimated GDP. `GET /countries/:name` and `DELETE /countries/:name` match the
name without regard to case. `GET /status` reports the row count and the latest
refresh time.

The model, module by module:

- `Wrappers`: `Option`, which stands for JavaScript's `null`.
- `Text`: `toLowerCase` / SQL `LOWER`, and equality up to case.
- `Sequences`: `Array.prototype.filter` and the subsequence relation.
- `Country`: the directory record, the eight columns a refresh writes, and a table row.
- `Enrichment`: the `countries.map` step, with each `Math.random()` draw passed in as a parameter.
- `Query`: the `GET /countries` handler as a function of the rows read from the table.
- `Store`: what the upsert and delete statements do to the table, written as functions on a map from name to row, with their lemmas.
- `Table`: the class `CountryTable`, which holds that map. `Upsert`, `Delete`, `FindByName`, `Status` and `Refresh` are its methods.

Behaviour of the code that the model keeps, including where it is surprising:

- A chart step that throws makes the refresh roll back and answer 500 (index.js:178-184). The chart is not a best-effort step after the write, which would have left the refresh successful.
- An empty directory makes the refresh answer 500 with nothing written. The upsert's `VALUES ?` then has no row list and the statement is rejected (index.js:175, 181-184).
- An empty table gives the 404 outcome. A non-empty table on which no row matches gives a successful empty list.
- A region filter on a table that has a row without a region fails with 500, because `item.region.toLowerCase()` throws. This holds even when the failing row would not have matched.
- An unknown sort key is the 400 outcome. The code sends the 400, and its `res.json` afterwards fails because the headers are already sent.
- `x || null` makes an empty capital, region, flag or first currency code absent. It also makes a population of 0 absent, while the GDP is still computed from the raw population. So such a row can store an estimate of 0 with no population.
- When both fetches fail, `Promise.all` reports whichever fails first. The parameter `ratesFailFirst` says which one that is.
- Rows inside one batch are applied in order, so a later entry with the same name wins. The INSERT does not list `last_refreshed_at`. The model assumes the column defaults to the insert time, so inserted and updated rows alike get `now`. The table's schema is not part of this repository.

## Model

| member | source | states |
|---|---|---|
| Text.Lower | index.js:41 | the lower-case form has the input's length, no upper-case letter, and each character is either unchanged or its upper-case letter folded |
| Text.LowerIdempotent | index.js:191-196 | lower-casing twice equals lower-casing once, so lower-casing the parameter before `LOWER(name) = ?` changes nothing |
| Sequences.Filter | index.js:41-45 | every kept element satisfies the predicate; a satisfying element occurs as often as in the input, any other not at all |
| Sequences.FilterIsSubsequence | index.js:41-45 | a filter's result is an order-preserving subsequence of its input |
| Sequences.FilterTwice | index.js:39-46 | filtering by one predicate and then another equals filtering once by their conjunction |
| Enrichment.StringOrNull | index.js:151-157 | JavaScript's falsy-to-null idiom on a string: absent exactly when the string is missing or empty, otherwise the string itself |
| Enrichment.RandomFactor | index.js:144 | `floor(u*1001)+1000` for a draw u in [0,1) lies in [1000, 2000] |
| Enrichment.FirstCurrencyCode | index.js:135-141 | the code is present exactly when the currency list is present and non-empty and its first code is a non-empty string, and it is then that code |
| Enrichment.RateFor | index.js:139 | the rate is present exactly when the code is present and the table holds a non-zero rate for it, and it is then that rate |
| Enrichment.EstimatedGdp | index.js:146 | population times the factor divided by the rate; for a factor in [1000, 2000] and a positive rate it lies in [population*1000/rate, population*2000/rate] |
| Enrichment.GdpWithinFactorBounds | index.js:143-147 | for a factor in [1000, 2000] and a positive rate, population*factor/rate lies in [population*1000/rate, population*2000/rate] |
| Enrichment.Enrich | index.js:130-158 | the name is kept; empty or missing capital, region and flag become absent; a 0 population becomes absent; the currency code is the first listed one; the rate is present exactly when a non-zero rate exists for it; the estimate is present exactly when the rate is, then equals population*factor/rate for some integer factor in [1000, 2000] whatever the sign of the rate, and lies within the factor bounds for a positive rate |
| Enrichment.EnrichAll | index.js:130-159 | one row per directory country, in order, with the same name, and none has an estimate without a rate |
| Query.InsertByGdp | index.js:50 | inserting into a list with non-increasing estimated GDP (absent counts as 0) keeps it non-increasing and adds exactly that element |
| Query.SortByGdpDesc | index.js:50 | the sorted list is a permutation of the input with non-increasing estimated GDP (absent counts as 0) |
| Query.ByRegion | index.js:40-42 | with no region query the rows are unchanged; otherwise each row whose region matches up to case is kept as often as it occurs, and no other row |
| Query.ByCurrency | index.js:44-46 | with no currency query the rows are unchanged; otherwise each row with a non-empty currency code matching up to case is kept as often as it occurs, and no other row |
| Query.QueryCountries | index.js:31-62 | 404 exactly when the table is empty; 500 exactly when a region filter meets a row without a region; 400 exactly when otherwise the sort key is given and is not `gdp_desc`; a list only for no sort or `gdp_desc` |
| Query.FiltersSelectWanted | index.js:39-46 | the region filter followed by the currency filter gives an order-preserving subsequence holding each wanted row as often as the table does and nothing else |
| Query.QueryReturnsWantedRows | index.js:39-56 | a successful answer holds exactly the wanted rows; it is a subsequence of the table when unsorted and has non-increasing GDP when sorted |
| Query.SortReordersFilteredRows | index.js:39-50 | with `gdp_desc` the answer is a list exactly when it is without a sort, and it is a permutation of the unsorted answer, so filtering happens before sorting |
| Query.NoMatchIsEmptySuccess | index.js:35-56 | a non-empty table on which nothing matches gives a successful empty list |
| Query.GdpDescOrdersAbsentLast | index.js:48-50 | rows with estimates absent, 5 and 10 are answered in the order 10, 5, absent |
| Store.UpsertAll | index.js:161-175 | the batch upsert, applied row by row in batch order; the keys after it are the old keys together with the batch's names |
| Store.UpsertCount | index.js:161-175 | the row count becomes the size of the union of the old keys and the batch's names |
| Store.RepeatedUpsertKeepsCount | index.js:161-175 | a second upsert that brings no new name leaves the row count unchanged |
| Store.UpsertLeavesOthers | index.js:161-175 | a row whose name is not in the batch is unchanged |
| Store.UpsertLastWins | index.js:161-172 | a name in the batch holds the batch's last entry under that name, with all columns overwritten and `last_refreshed_at` set to now |
| Store.UpsertKeepsKeyedByName | index.js:161-175 | every row stays stored under its own name |
| Store.UpsertKeepsConsistent | index.js:161-175 | a table where no estimate lacks a rate keeps that property under an upsert of such rows |
| Store.UpsertTimestampsMonotone | index.js:172 | when now is not earlier than any stored time, no row's `last_refreshed_at` decreases |
| Store.RemoveMatching | index.js:196 | exactly the rows whose lower-cased name differs from the lower-cased parameter remain, unchanged |
| Store.DeleteThenNotFound | index.js:190-198 | after a delete no stored name matches the parameter, so a lookup finds nothing |
| Store.DeleteWithoutMatchIsIdentity | index.js:192-195 | a delete with no case-insensitive match leaves the table as it was |
| Store.DeleteByLoweredName | index.js:191-196 | deleting by the lower-cased parameter removes the same rows as deleting by the parameter |
| Store.DeleteKeepsInvariants | index.js:196 | the remaining rows stay under their own names and keep every estimate backed by a rate |
| Table.FirstFailure | index.js:111-120 | no failure exactly when both fetches succeed; a single failing fetch is reported with its source and response; a reported source failed |
| Table.UpstreamOutcome | index.js:118-127 | the answer carries the failing source and the upstream status and body, or 502 and the fixed message when there was no response |
| Table.CountryTable.Upsert | index.js:161-175 | for a non-empty batch, the rows become the upsert of the batch at now, the keys grow by the batch's names, and rows stay keyed by name |
| Table.CountryTable.Delete | index.js:190-198 | returns true exactly when some name matches up to case, and then removes every matching row; otherwise nothing changes |
| Table.CountryTable.FindByName | index.js:92-98 | returns nothing exactly when no name matches up to case, and otherwise a stored row whose name matches |
| Table.CountryTable.Status | index.js:76-90 | the total is the row count; the last refresh is absent exactly on an empty table and is otherwise the maximum `last_refreshed_at` of the rows |
| Table.CountryTable.Refresh | index.js:101-188 | a failed fetch answers with the upstream outcome and writes nothing; an empty directory or a throwing upsert or chart step answers 500 and rolls back; otherwise it answers 201 and the rows become the upsert of the enriched directory at now; a table where every estimate has a rate keeps that property |
| Table.RefreshWritesDirectoryNames | index.js:130-159 | the names a refresh writes are the directory's names, whatever the rates and draws |
| Table.RepeatedRefreshKeepsCount | index.js:101-188 | refreshing twice from the same directory leaves the row count the first refresh left |
| Table.RefreshKeepsRowsConsistent | index.js:130-175 | a committed refresh keeps every stored estimate backed by an exchange rate |
| Table.TestlandRefresh | index.js:130-175 | Testland, population 1000, currency TST at rate 2: the stored row has rate 2, an estimate in [500000, 1000000] and the refresh time |

## Left out

- Table.CountryTable.Refresh: assumes that `db` is a connection pool. db.js:4 creates a single `mysql2/promise` connection, which has no `getConnection`. As written, `db.getConnection()` at index.js:102 throws before the `try`, and the handler never writes or commits, and itself sends no response.

- HTTP routing, the redirect from `/`, body parsing, static serving of `cache/` and `GET /countries/image`: framework plumbing, not logic. The handlers' status codes appear as outcome datatypes.
- The two axios requests: network I/O. Each is a given `Fetch` result. A response that is not an array, or one without `rates`, is not modelled.
- `Math.random()`: each draw is a parameter in [0, 1). The clock (`NOW()`) is the parameter `now`.
- `generateSummaryChart` and the rest of generate_image.js: chart rendering, date formatting and file writes. In the refresh it is a step that may throw (`chartThrows`).
- db.js and test-db.js: a connection built from the environment, and a connectivity smoke test.
- Storage errors on reads and connection failures. In particular, a failing `SELECT` in `GET /countries` (the 500 of index.js:57-59 for that cause) is not modelled; the handler is a function of the rows read. The lookup, delete and status handlers have no catch in the source.
- The unused module-level `countries` array and `global_last_refreshed_at`: dead state.
- JavaScript numbers: populations, rates and estimates are `nat`/`real`. NaN from a missing population, float rounding and a non-string query parameter (a repeated `?region=`) are not modelled.
- Text.Lower: folds only the ASCII letters A-Z. JavaScript's `toLowerCase` and MySQL's `LOWER` apply full Unicode case mapping.
- MySQL collation: a case- or accent-insensitive primary key would merge names that the model keys apart. The model keys rows by the exact stored name.
- Query.SortByGdpDesc: does not state that the sort is stable, although `Array.prototype.sort` is stable.
- Table.CountryTable.FindByName: when several rows match, the source returns the first row of an unordered `SELECT`. The model returns some matching row.
- Concurrency: two refreshes racing on the same names, and readers during a refresh.
