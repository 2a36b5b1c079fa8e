# Census lens and census-block service, modelled in Dafny

This project models the two computational parts of a census-data dashboard for the
Gran Concepción area.

- **The lens aggregator** (`src/lib/stores/lensStore.js`). The user selects census blocks
  ("manzanas") on the map. Eight statistics are then derived from that selection:
  total population, gender breakdown, INE age groups, employment, literacy, housing,
  average age and households. Each one is a reduction over the selected features. A
  missing property counts as 0, and every percentage is guarded against a total that
  is not positive. The file also holds the table of heatmap variables and the
  calculated `sin_internet` variable.
- **The census-block service** (`src/lib/services/manzanasService.js`). It reads the
  `manzanas` table in pages of 1000 rows, turns rows into GeoJSON features, and falls
  back to the full read when the bounding-box procedure fails. It also lists the
  comunas and sums four columns for one comuna.

Modules:

| file | module | content |
|---|---|---|
| `wrappers.dfy` | `Wrappers` | `Option` (null/undefined) and `Result` (rows or the reported error) |
| `tally.dfy` | `Tally` | `Count` reads a column, with absent read as 0. `Sum` is the left-fold `reduce`. Lemmas cover concatenation, reordering and bounds. |
| `lens.dfy` | `Lens` | the eight statistics and their lemmas |
| `heatmap.dfy` | `Heatmap` | the heatmap variable table and `sin_internet`'s `calculateFn` |
| `pagination.dfy` | `Pagination` | the remote table as a sequence of rows that may fail per request, and the `while (hasMore)` loop as the method `FetchPages` |
| `manzanas.dfy` | `Manzanas` | `convertToGeoJSON`, the four fetches, `getComunasList`, `getComunaStats` |

How things are represented:

- A selected feature's `properties` is a `map<string, int>`.
- A percentage is `Zero` (the literal `0` of the source) or `Exact(100 * part / total)` as a `real`. Rounding is not modelled.
- The remote table is a `Store`. It holds:
  - the rows, in server order;
  - a map from a request's start offset to the error the server reports for it.
- A range request returns `rows[lo .. min(hi + 1, |rows|)]`, or that error.
- Network calls, awaiting and the server-side filters (`.eq`, `.in`, `.order`, the PostGIS procedure) are not modelled. Each fetch is given the table or response that the filter would have produced.

At three edges the model follows the code as written:

- Percentages are `0` whenever `total > 0` fails. This includes a negative total, not only a total of 0.
- The third request against 2500 rows asks for range `[2000, 2999]`, exactly as the code computes `(page + 1) * pageSize - 1`. The server answers it with rows 2000–2499.
- A table of exactly 1000 rows causes a second request, and that request's page is empty. The loop stops only on a page shorter than 1000 rows.

## Model

| member | source | states |
|---|---|---|
| `Tally.Count` | src/lib/stores/lensStore.js:182 | (no contract) the value of a column in one record, with an absent column read as 0 (the default to 0 at each read); the same reader serves src/lib/services/manzanasService.js:191-194 |
| `Tally.Sum` | src/lib/stores/lensStore.js:182 | (no contract) the left fold `reduce((sum, x) => sum + f(x), 0)`: 0 for no records, otherwise the fold of all but the last plus the last's value; its meaning is pinned by `SumSingleton`, `SumAppend` and `SumPermutation` |
| `Tally.SumSingleton` | src/lib/stores/lensStore.js:182 | the reduction over one record is that record's value |
| `Tally.SumAppend` | src/lib/stores/lensStore.js:182 | the reduction over a concatenation is the sum of the reductions of the parts |
| `Tally.SumPermutation` | src/lib/stores/lensStore.js:182 | reordering the records leaves the reduction unchanged |
| `Tally.SumWithout` | src/lib/stores/lensStore.js:182 | taking one record out lowers the reduction by exactly that record's value |
| `Tally.SumAtLeast` | src/lib/stores/lensStore.js:265 | a lower bound on every term gives `lo * n` as a lower bound on the sum |
| `Tally.SumNonNegative` | src/lib/stores/lensStore.js:182 | non-negative terms give a non-negative sum |
| `Tally.SumAtMost` | src/lib/stores/lensStore.js:265 | an upper bound on every term gives `hi * n` as an upper bound on the sum |
| `Lens.Total` | src/lib/stores/lensStore.js:182-276 | (no contract) one column summed over the selection with absent read as 0, the reduce each statistic repeats per key |
| `Lens.TotalsOfBlock` | src/lib/stores/lensStore.js:182 | over one block, every column total is that block's value, absent read as 0 |
| `Lens.TotalAppend` | src/lib/stores/lensStore.js:182 | a column total is additive over concatenated selections |
| `Lens.TotalPermutation` | src/lib/stores/lensStore.js:182 | a column total does not depend on selection order |
| `Lens.Share` | src/lib/stores/lensStore.js:194-195 | `Zero` when the total is not positive; otherwise an exact value `p` with `p * total == 100 * part` |
| `Lens.SharesAdd` | src/lib/stores/lensStore.js:194-195 | shares of one positive total add up like their parts |
| `Lens.ShareOfWhole` | src/lib/stores/lensStore.js:194-195 | the share of the whole is exactly 100 |
| `Lens.ShareBounds` | src/lib/stores/lensStore.js:194-195 | a part between 0 and the total has a share between 0 and 100 |
| `Lens.TotalPopulation` | src/lib/stores/lensStore.js:181-183 | 0 for an empty selection; non-negative when every block's `n_per` is non-negative |
| `Lens.GenderBreakdown` | src/lib/stores/lensStore.js:186-197 | `male` and `female` are the column sums; `total == male + female`; both percentages are `Zero` when the total is not positive; otherwise each is exactly 100·part/total and the two add up to 100 |
| `Lens.GenderExample` | src/lib/stores/lensStore.js:186-197 | one block with 60 men and 40 women gives total 100 and percentages 60 and 40 |
| `Lens.AgeGroupsData` | src/lib/stores/lensStore.js:200-215 | exactly 7 entries, labelled 0-5, 6-13, 14-17, 18-24, 25-44, 45-59, 60+ in that order; entry i counts the i-th bracket column |
| `Lens.EmploymentData` | src/lib/stores/lensStore.js:218-232 | `total == employed + unemployed + inactive`; all three percentages `Zero` when the total is not positive; otherwise each is exactly 100·part/total and the three add up to 100 |
| `Lens.LiteracyData` | src/lib/stores/lensStore.js:235-246 | `total` is the total population; `literate + illiterate == total`; percentages `Zero` when the total is not positive; otherwise each is exactly 100·part/total and they add up to 100 |
| `Lens.HousingData` | src/lib/stores/lensStore.js:249-259 | all seven counts are 0 for an empty selection |
| `Lens.HousingOfBlock` | src/lib/stores/lensStore.js:249-259 | for one block the seven counts are that block's own seven columns, absent read as 0 |
| `Lens.HouseholdData` | src/lib/stores/lensStore.js:270-278 | all five counts are 0 for an empty selection |
| `Lens.HouseholdsOfBlock` | src/lib/stores/lensStore.js:270-278 | for one block the five counts are that block's own five columns, absent read as 0 |
| `Lens.HasAge` | src/lib/stores/lensStore.js:263 | (no contract) the filter test `prom_edad > 0`, absent read as 0 |
| `Lens.Dated` | src/lib/stores/lensStore.js:263 | the filter keeps only blocks with `prom_edad > 0` and never grows the selection |
| `Lens.DatedMembers` | src/lib/stores/lensStore.js:263 | a block survives the filter exactly when it is selected and reports `prom_edad > 0` |
| `Lens.DatedAppend` | src/lib/stores/lensStore.js:263 | filtering distributes over concatenation (order is kept) |
| `Lens.DatedSums` | src/lib/stores/lensStore.js:263-266 | the number of filtered blocks and their `prom_edad` total are sums, block by block, over the whole selection of 1 and of `prom_edad` for each block that reports an age |
| `Lens.Mean` | src/lib/stores/lensStore.js:266 | `r * count == sum` exactly, and `r >= 1` when `sum >= count` |
| `Lens.AvgAge` | src/lib/stores/lensStore.js:262-267 | 0 when no block reports an age; otherwise the exact mean over the reporting blocks only, which is at least 1 under the integer reading of `prom_edad` |
| `Lens.AvgAgeAtMost` | src/lib/stores/lensStore.js:262-267 | the mean never exceeds an upper bound on the reported ages |
| `Lens.MeanAtMost` | src/lib/stores/lensStore.js:266 | a mean of terms bounded by `hi` is at most `hi` |
| `Lens.AvgAgeIgnoresUndated` | src/lib/stores/lensStore.js:263-266 | inserting a block with `prom_edad <= 0` anywhere changes neither numerator nor denominator |
| `Lens.AvgAgeOfPair` | src/lib/stores/lensStore.js:262-267 | for two blocks that both report an age, the result is the mean of the two ages |
| `Lens.AvgAgeExample` | src/lib/stores/lensStore.js:262-267 | ages 40, 0, 60 give 50, not 33.3 |
| `Lens.TotalsAppend` | src/lib/stores/lensStore.js:181-278 | every column total is additive over concatenated selections |
| `Lens.SelectionAppend` | src/lib/stores/lensStore.js:181-246 | population, men, women, employment total and literate count of two selections together are the sums of their parts |
| `Lens.AgeGroupsAppend` | src/lib/stores/lensStore.js:211-214 | each age-bracket count is additive over concatenated selections |
| `Lens.HousingAppend` | src/lib/stores/lensStore.js:249-259 | housing counts of two selections together are the field-wise sums (each key an independent sum) |
| `Lens.HouseholdAppend` | src/lib/stores/lensStore.js:270-278 | household counts of two selections together are the field-wise sums |
| `Lens.TotalsReordered` | src/lib/stores/lensStore.js:181-278 | no column total depends on selection order |
| `Lens.GenderReordered` | src/lib/stores/lensStore.js:186-197 | the gender breakdown does not depend on selection order |
| `Lens.AgeGroupsReordered` | src/lib/stores/lensStore.js:200-215 | the age groups do not depend on selection order |
| `Lens.EmploymentReordered` | src/lib/stores/lensStore.js:218-232 | the employment figures do not depend on selection order |
| `Lens.LiteracyReordered` | src/lib/stores/lensStore.js:235-246 | the literacy figures do not depend on selection order |
| `Lens.PopulationReordered` | src/lib/stores/lensStore.js:181-183 | the total population does not depend on selection order |
| `Lens.HousingReordered` | src/lib/stores/lensStore.js:249-259 | the housing counts do not depend on selection order |
| `Lens.HouseholdReordered` | src/lib/stores/lensStore.js:270-278 | the household counts do not depend on selection order |
| `Lens.AvgAgeReordered` | src/lib/stores/lensStore.js:262-267 | the average age does not depend on selection order |
| `Lens.ReorderedSelection` | src/lib/stores/lensStore.js:181-278 | all eight statistics are identical for any reordering of the selection |
| `Lens.EmptySelection` | src/lib/stores/lensStore.js:181-267 | with nothing selected every count is 0 and every percentage is the literal 0 |
| `Heatmap.HeatmapVariablesConsistent` | src/lib/stores/lensStore.js:53-178 | every compared variable's `field` is one of its `compareFields`; a variable has no field exactly when it is calculated |
| `Heatmap.HeatmapIdsDistinct` | src/lib/stores/lensStore.js:53-178 | the thirteen variable ids are distinct |
| `Heatmap.SinInternet` | src/lib/stores/lensStore.js:162-167 | the result is either 0 or `n_hog - n_internet` (absent read as 0). It is non-zero only when households without internet are a strict majority, and it equals `n_hog - n_internet` whenever they are. It is non-negative when `n_internet` is. |
| `Heatmap.SinInternetExamples` | src/lib/stores/lensStore.js:162-167 | empty properties give 0; 10 households with 3 connected give 7; with 5 connected, 0; with `n_internet` missing, 10 |
| `Pagination.PageRange` | src/lib/services/manzanasService.js:20 | request p asks for `[p*1000, (p+1)*1000-1]`: it starts at `p*1000` and covers exactly 1000 rows (the same bounds as :108) |
| `Pagination.Page` | src/lib/services/manzanasService.js:17-20 | a range request fails exactly when the server reports an error for it; otherwise it returns the table's rows from `lo` through `hi`, cut at the table's end |
| `Pagination.FirstFailure` | src/lib/services/manzanasService.js:22-25 | the first failing request among those the loop needs, or none |
| `Pagination.PageIsPageRows` | src/lib/services/manzanasService.js:17-20 | a successful request for page p returns exactly the p-th slice of 1000 rows |
| `Pagination.PageLengths` | src/lib/services/manzanasService.js:28 | every needed page before the last is full (1000 rows), and the last needed page is short |
| `Pagination.ConcatIsPrefix` | src/lib/services/manzanasService.js:27 | the pages of the first k requests, concatenated in order, are the table's first `min(1000k, n)` rows |
| `Pagination.PagesRebuildTable` | src/lib/services/manzanasService.js:16-32 | the concatenated pages of all `n/1000 + 1` requests are the whole table |
| `Pagination.FullPageMeansMore` | src/lib/services/manzanasService.js:28 | `data.length === pageSize` after request p holds exactly when another request is needed |
| `Pagination.RangesStep` | src/lib/services/manzanasService.js:17-20 | each request appends the range `[k*1000, (k+1)*1000-1]` after the k earlier ones |
| `Pagination.FirstFailureAt` | src/lib/services/manzanasService.js:22-25 | a failing request that follows only successful ones is the first failure |
| `Pagination.NoFailure` | src/lib/services/manzanasService.js:22-25 | when no needed request fails there is no first failure |
| `Pagination.FetchPages` | src/lib/services/manzanasService.js:16-32 | the requested ranges are `[p*1000, (p+1)*1000-1]` for p = 0, 1, … in order; they run up to and including the first failing request, or number `n/1000 + 1` when none fails. The result is the whole table in order, or the first failure's error with no partial rows. |
| `Pagination.TwoThousandFiveHundredRows` | src/lib/services/manzanasService.js:16-32 | 2500 rows: 3 requests `[0,999]`, `[1000,1999]`, `[2000,2999]`; pages of 1000, 1000 and the last 500 rows; all 2500 rows returned |
| `Pagination.OneThousandRows` | src/lib/services/manzanasService.js:28 | 1000 rows: 2 requests, the second answered with an empty page; all 1000 rows returned |
| `Pagination.FetchedOutcome` | src/lib/services/manzanasService.js:22-25 | success exactly when no needed request fails, and then the value is the table. On failure the error is the one from the first failing request, and the request count stops there. |
| `Manzanas.ToFeature` | src/lib/services/manzanasService.js:140-147 | type is `Feature`; geometry is the row's `geom` (absent when the row has none); properties hold exactly the other columns with their values |
| `Manzanas.RowRoundTrip` | src/lib/services/manzanasService.js:141 | putting the geometry back into the properties rebuilds the row |
| `Manzanas.ConvertToGeoJSON` | src/lib/services/manzanasService.js:132-154 | a `FeatureCollection`; empty for `null` or no rows; otherwise one feature per row, in row order |
| `Manzanas.ConvertRecoversRows` | src/lib/services/manzanasService.js:140-153 | every row can be read back from its feature, in order |
| `Manzanas.Converted` | src/lib/services/manzanasService.js:22-35 | an error passes through unchanged; rows are converted |
| `Manzanas.FetchAllManzanas` | src/lib/services/manzanasService.js:8-36 | the converted result of the paginated read of the whole table (one feature per row), or its error |
| `Manzanas.FetchGranConcepcionManzanas` | src/lib/services/manzanasService.js:85-126 | the same paginated read and conversion, over the table filtered to the nine comunas |
| `Manzanas.FetchManzanasInBounds` | src/lib/services/manzanasService.js:43-61 | converted procedure rows on success; the result of the full paginated read when the procedure fails |
| `Manzanas.FetchManzanasByComuna` | src/lib/services/manzanasService.js:67-79 | the query's error is passed on; otherwise the `FeatureCollection` of the returned rows, converted in order, one feature per row |
| `Manzanas.Dedup` | src/lib/services/manzanasService.js:171 | no duplicates; every input value appears and nothing else does |
| `Manzanas.FirstIndex` | src/lib/services/manzanasService.js:171 | the first position of a value in the sequence |
| `Manzanas.FirstIndexOfPrefix` | src/lib/services/manzanasService.js:171 | appending values does not move an existing first occurrence |
| `Manzanas.FirstIndexOfNew` | src/lib/services/manzanasService.js:171 | a new value appended at the end first occurs there |
| `Manzanas.DedupStep` | src/lib/services/manzanasService.js:171 | adding one value to the input keeps the output in first-occurrence order |
| `Manzanas.DedupFirstOccurrenceOrder` | src/lib/services/manzanasService.js:171 | the kept values come in the order of their first occurrences |
| `Manzanas.Comunas` | src/lib/services/manzanasService.js:171 | (no contract) `data.map(row => row.comuna)`: each row's comuna in row order, absent as `None` |
| `Manzanas.GetComunasList` | src/lib/services/manzanasService.js:159-173 | `[]` on error; otherwise each row's comuna exactly once, nothing else, in first-occurrence order |
| `Manzanas.Stats` | src/lib/services/manzanasService.js:190-196 | (no contract) the `stats` object: the sums of `n_per`, `n_hombres`, `n_mujeres` and `n_vp` with absent read as 0, and the row count; pinned by `StatsOfBlock` and `StatsAppend` |
| `Manzanas.GetComunaStats` | src/lib/services/manzanasService.js:178-199 | nothing on error; otherwise the `Stats` of the returned rows, so `manzanas` is the row count and all figures are 0 for no rows |
| `Manzanas.StatsOfBlock` | src/lib/services/manzanasService.js:190-196 | one row contributes its own four columns (absent read as 0) and counts as one block |
| `Manzanas.StatsAppend` | src/lib/services/manzanasService.js:190-196 | the figures for two groups of rows together are the field-wise sums |

## Left out

- Svelte reactivity (`writable`, `derived`, subscriptions) is framework plumbing and is not modelled. Each statistic is a plain function of the selection. Being functions, the statistics give identical results for an unchanged selection.
- The UI-state stores are not modelled: lens centre and radius, drag/draw flags, visualization mode, map toggles and the `topics` list. They hold no logic.
- The `label`, `description` and `icon` of each heatmap variable are presentation only, and so are the SVG imports.
- `toFixed(1)` rounding, floating-point division and the string type of the percentage fields are not modelled. Percentages are exact reals.
- `prom_edad` is read as an integer, because properties are integer-valued. The mean itself is an exact real.
- Lens.AvgAge: the bound `r >= 1` (and `Mean`'s and `DatedSumAtLeastCount`'s bounds behind it) holds only because `prom_edad` is read as an integer. In the program `prom_edad` is a fraction, and a block with `0 < prom_edad < 1` passes the filter at `src/lib/stores/lensStore.js:263`, so there the mean can be below 1. Only `r > 0` for a non-empty filter carries over.
- Pagination.FetchPages: the table and its row order are taken to be the same across all requests of one loop. The range queries at `src/lib/services/manzanasService.js:17-20` and `104-108` have no `.order(...)`, and nothing prevents the table changing between requests, so the promise "the whole table in order" rests on that assumption.
- Pagination.Page: the server is taken to answer every range with all of its rows, which is at most 1000. The stop rule at `src/lib/services/manzanasService.js:28` is right only when the server's row cap is exactly `pageSize`. A lower cap would end the loop after its first page, and this is not modelled.
- Manzanas.GetComunasList, Manzanas.GetComunaStats, Manzanas.FetchManzanasByComuna: these queries are not paginated (`src/lib/services/manzanasService.js:160-163`, `179-182`, `68-71`). Their response is an input, so their properties are about the rows returned, not about the table. Under the same server cap those rows may be only the first 1000 of the 14,511 blocks mentioned at line 6 (this depends on the server's row cap, which the code does not set).
- The database client, network I/O and `await` are replaced by the `Store` and by given responses.
- The server-side filters are outside the model, namely `.eq('comuna', …)`, `.in('comuna', comunas)`, the bounding-box procedure and `.order('comuna')`. The filtered table is an input, so the sort order of `getComunasList` is not modelled.
- Pagination requests starting beyond the end of the table are not modelled. The loop never issues one, and `Page` answers such a request with an empty page.
- Logging (`console.log`, `console.error`) is not modelled.
- Geometry contents are an opaque value that is passed through unchanged.
- JavaScript falsiness (NaN, `""`, `false` read as 0) and mixing strings with numbers in sums are not modelled. Absence is the only value read as 0.
- A selected feature whose `properties` object is itself missing (the `?.` of the source) is not modelled. Every modelled feature has a properties map, as every converted row does.
- "Dominant field" and threshold highlighting are not modelled. Comments in the heatmap table describe them, but the code does not implement them.
- Cancellation and stale responses are not modelled. The code has neither.
