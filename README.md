# Marketing engagements sync, modelled in Dafny

`marketing_engagements_etl.py` is a single script that keeps a warehouse
table of HubSpot marketing engagements up to date. Its run has five steps:

1. It pages through the members of list 9705.
2. It reads the IDs already in the `MARKETING_ENGAGEMENTS` table.
3. It batch-reads the properties of the IDs that are new, 100 at a time.
4. It reshapes the columns of the resulting DataFrame.
5. It appends the rows to the table in chunks of 10000.

Any exception inside the one `try` block ends the run, and the handler logs
it.

This project models that algorithm with every external call replaced by an
input value:

- The listing responses are a finite sequence of `Paging.Page` values.
- The table's ID column is a sequence of `Basics.Value` cells.
- The batch-read endpoint is a function from (request number, request body)
  to a response, `BatchFetch.Server`.
- The warehouse writes are the list of row slices handed to `to_sql`.

Each step is one module, and `Sync` composes them:

- `Paging`: the `while next_url` loop. `Walk` specifies it and the method
  `Paginate` implements it. Pages are consumed in order: a non-200 page ends
  the walk and keeps what was gathered, a missing or empty `next`, or a null
  or empty `link`, ends it, and a non-empty `next` object without `link` raises.
- `IdDiff`: `int(x)` on each table cell (Python's base-10 `int()` on ASCII
  text: surrounding tabs, newlines, vertical tabs, form feeds, carriage
  returns and spaces, one sign, single underscores between digits),
  then the order-preserving filter of the listing.
- `BatchFetch`: the batch `for` loop. `FetchFrom` specifies it, and the
  methods `FetchDetails` and `CollectRows` implement it, with the `break` on
  the first non-200 answer. Rows are insertion-ordered dictionaries, because
  their key order decides the DataFrame's column order.
- `Columns`: the transformation on column names. `Reshaped` specifies it, and
  the class `Frame` holds the columns and rows and has one in-place method per
  pandas operation the script applies.
- `Loading`: the boundary list `range(0, M, 10000) + [M]` and the load loop
  over consecutive boundaries.
- `Slicing` and `Dicts`: Python's `range`, clamped slicing, chunking and
  `dict.update` / DataFrame column-union semantics, which the other modules
  share.

Three consequences of the code as written are proved:

- When every listed ID is already in the table, no batch request is sent and
  the DataFrame has no columns, so the run ends in the `KeyError` on
  `hs_createdate` instead of loading nothing (`Sync.NothingNewFails`).
- A 200 batch answer without `results`, and an item without `id` or
  `properties`, also end the run with an exception, unlike a non-200 answer,
  which only stops the fetch (`BatchFetch.FirstUnsuccessful`).
- A non-empty `paging.next` object without a `link` key raises, where a
  missing or empty `next` simply ends the walk (`Paging.WalkShape`).

When every batch succeeds, the fetcher sends ceil(N/100) requests
(`BatchFetch.AllSucceed`). When batch j is the first that does not succeed,
it sends j + 1 (`BatchFetch.FirstUnsuccessful`), which is also ceil(N/100)
when j is the last batch.

## Model

| member | source | states |
|---|---|---|
| Paging.Paginate | marketing_engagements_etl.py:40-60 | the pagination loop returns exactly `Walk(pages)` and requests exactly the URLs `Urls(ListingUrl, pages)`, starting at the list-memberships URL |
| Paging.Walk | marketing_engagements_etl.py:43-60 | the only error the walk raises is the missing `link`, and a successful walk starts with the first page's contribution |
| Paging.Urls | marketing_engagements_etl.py:43-57 | at least one and at most as many requests as there are responses, the first at the initial URL |
| Paging.WalkShape | marketing_engagements_etl.py:43-60 | the walk requests n pages, each after the first at the link of the page before; every page but the n-th sends it on, the n-th does not; the result is the in-order concatenation of the n pages' contributions, or the error when the n-th page has `next` without `link` |
| Paging.ErrorPageKeepsEarlierIds | marketing_engagements_etl.py:46-60 | when the walk ends at a non-200 page, that page adds nothing and the IDs of all earlier pages are kept in order |
| Paging.MissingResultsDoNotStop | marketing_engagements_etl.py:49-57 | a 200 page without `results` contributes nothing, and whether the walk goes on depends only on its next link, exactly as if it had results |
| IdDiff.ParseInt | marketing_engagements_etl.py:82 | `int()` of blank text fails, and a negative result comes only from text whose first non-space character is `-` |
| IdDiff.ParseShow | marketing_engagements_etl.py:82 | `int(str(n)) == n`: the decimal text of any integer converts back to it |
| IdDiff.ParseIgnoresPadding | marketing_engagements_etl.py:82 | any run of whitespace before and any run after the text leave what `int()` returns, or whether it fails, unchanged |
| IdDiff.SkippedCharacters | marketing_engagements_etl.py:82 | `int()` skips a tab or newline around a numeral, but a leading U+001C makes it fail |
| IdDiff.ToInt | marketing_engagements_etl.py:82 | a NULL cell fails, an integer cell converts to itself, and a cell holding the decimal text of n converts to n |
| IdDiff.TableIds | marketing_engagements_etl.py:82 | the conversion succeeds iff every cell converts; then it yields one integer per cell, in order; otherwise the error names the first cell that does not convert |
| IdDiff.NetNew | marketing_engagements_etl.py:85 | `non_matches` is no longer than the listing and holds exactly the listed IDs that are not table IDs |
| IdDiff.NetNewCounts | marketing_engagements_etl.py:85 | an ID occurs in `non_matches` as often as in the listing when no table ID equals it, and never otherwise; duplicates are kept |
| IdDiff.NetNewSplit | marketing_engagements_etl.py:85 | the filter distributes over concatenation, so it keeps the listing's order |
| IdDiff.Diff | marketing_engagements_etl.py:82-85 | the diff fails iff the table conversion fails, with its error; otherwise it holds exactly the listed IDs that no table cell converts to |
| IdDiff.DiffSpec | marketing_engagements_etl.py:80-85 | the diff fails iff some table cell does not convert; otherwise each ID's multiplicity in the result is its multiplicity in the listing when no cell converts to it, and zero when one does |
| IdDiff.DiffExample | marketing_engagements_etl.py:80-85 | listing [1, 2, 3] against the table text "2" gives [1, 3] |
| BatchFetch.RowOf | marketing_engagements_etl.py:118-119 | an item gives a row iff it has both `id` and `properties`; a missing `id` is reported before missing `properties` |
| BatchFetch.RowShape | marketing_engagements_etl.py:118-119 | a row's keys are `id` followed by the item's other property names in their order, each once (exactly `id` plus the property names when no property is named `id`); a property named `id` keeps the first position but overrides the item's id |
| BatchFetch.RowsOf | marketing_engagements_etl.py:117-120 | the rows of a batch succeed iff every item has `id` and `properties`; then there is one row per item, in order; otherwise the error is that of the first bad item |
| BatchFetch.CollectRows | marketing_engagements_etl.py:117-120 | the inner item loop yields `RowsOf(items)` |
| BatchFetch.FetchFrom | marketing_engagements_etl.py:101-122 | the fetch from batch k on sends between k and the number of batches requests, at least one when a batch is left |
| BatchFetch.FirstUnsuccessful | marketing_engagements_etl.py:113-122 | when batch j is the first that does not succeed, exactly j + 1 requests are sent; on a non-200 answer the result is the rows of batches before j, in order; on a 200 answer with a missing key the run fails with that error |
| BatchFetch.AllSucceed | marketing_engagements_etl.py:101-120 | when every batch succeeds, every batch is requested and the result is all their rows, in batch order |
| BatchFetch.BatchPartition | marketing_engagements_etl.py:96-104 | there are ceil(N / 100) batches, each non-empty with at most 100 IDs, concatenating back to `non_matches`; no request is sent iff N = 0 |
| BatchFetch.FetchDetails | marketing_engagements_etl.py:96-122 | the batch loop returns `FetchFrom(batches, server, 0).result`, sends exactly that many requests, and the k-th request asks for the 19 properties of batch k |
| Slicing.Slice | marketing_engagements_etl.py:102 | `xs[lo:hi]` has `min(hi, len) - lo` elements when non-empty, element i being `xs[lo + i]` |
| Slicing.Chunked | marketing_engagements_etl.py:101-102 | there are no chunks exactly when the list is empty |
| Slicing.ChunkedShape | marketing_engagements_etl.py:101-102 | chunking gives ceil(len / size) chunks, chunk k being `xs[k*size : k*size + size]`, each non-empty and at most size long, concatenating back to xs |
| Dicts.PutLaws | marketing_engagements_etl.py:118 | setting a key appends it when new and keeps its place otherwise; the key then maps to the new value and the other keys are unchanged |
| Dicts.UpdateLaws | marketing_engagements_etl.py:119 | `d.update(e)` has the keys of d followed by the new keys of e, and each key maps to e's value if e has it, d's otherwise |
| Dicts.AddKeysOrder | marketing_engagements_etl.py:119 | adding distinct keys keeps the existing key order and appends the keys that are new, in their order |
| Columns.ColumnsOf | marketing_engagements_etl.py:126 | `pd.DataFrame(records)` has distinct columns, one for each key of some row and no other |
| Columns.AllKeysShape | marketing_engagements_etl.py:126 | the DataFrame's columns are the distinct keys of the rows, and nothing else |
| Columns.Frame.constructor | marketing_engagements_etl.py:126 | the frame holds the rows, with the columns in order of first appearance |
| Dicts.Without | marketing_engagements_etl.py:144-147 | after a drop a label is a column iff it was one and is not among the dropped names |
| Columns.FirstMissing | marketing_engagements_etl.py:144-147 | the drop finds nothing missing iff every name is a column; otherwise it reports a name that is not |
| Columns.Frame.Derive | marketing_engagements_etl.py:129-141 | `df[target] = f(df[source])` succeeds iff source is a column; then a new target goes last and an existing one keeps its place; the rows are unchanged |
| Columns.Frame.Drop | marketing_engagements_etl.py:144-147 | an in-place drop is all or nothing: it reports the first missing name and changes nothing, or removes every copy of the names |
| Columns.Frame.Rename | marketing_engagements_etl.py:145-147 | an in-place rename replaces every mapped label and keeps the rows |
| Columns.Frame.UpperCaseColumns | marketing_engagements_etl.py:150 | the columns become their upper-cased names; the rows are unchanged |
| Columns.Frame.Convert | marketing_engagements_etl.py:129-141 | the six column assignments give `Converted` of the old columns, or its error |
| Columns.Frame.Trim | marketing_engagements_etl.py:144-148 | the drops and renames give `Trimmed` of the old columns, or its error |
| Columns.Frame.Reshape | marketing_engagements_etl.py:129-150 | the whole transformation gives `Reshaped` of the old columns, or its error, and leaves the rows and their number unchanged |
| Columns.Converted | marketing_engagements_etl.py:129-141 | the conversions succeed iff both `hs_createdate` and `hs_lastmodifieddate` are columns |
| Columns.ConvertedShape | marketing_engagements_etl.py:129-141 | a failed conversion names the first missing of `hs_createdate` and `hs_lastmodifieddate`; a successful one appends the four derived columns that are new |
| Columns.ConvertedProvenance | marketing_engagements_etl.py:129-141 | the conversions add only the names the script introduces |
| Columns.Trimmed | marketing_engagements_etl.py:144-148 | after the drops and renames `hs_lastmodifieddate` is not a column, and a failure is a KeyError on a column |
| Columns.TrimmedDrops | marketing_engagements_etl.py:144-148 | once the derived columns are there, the drops and renames fail iff `hs_object_id` is missing, with the KeyError on it |
| Columns.LastModifiedRestored | marketing_engagements_etl.py:145-148 | the rename of `hs_lastmodifieddate_est` brings back an `hs_lastmodifieddate` column, so the last drop finds it |
| Columns.Reshaped | marketing_engagements_etl.py:129-150 | the transformation fails only with a KeyError on a column |
| Columns.ReshapedUpper | marketing_engagements_etl.py:150 | every output name is its own upper-case form: no lower-case ASCII letter is left |
| Columns.ReshapeFailure | marketing_engagements_etl.py:129-150 | the transformation fails iff `hs_createdate`, `hs_lastmodifieddate` or `hs_object_id` is missing, and the KeyError names the first missing one in that order |
| Columns.EmptyFetchFails | marketing_engagements_etl.py:126-129 | a DataFrame built from no rows fails at `hs_createdate` |
| Columns.ReshapeOutput | marketing_engagements_etl.py:126-150 | for fresh columns, the output is the upper-cased input columns without `hs_createdate`, `hs_lastmodifieddate` and `hs_object_id`, in order, with `hubspot_contact_record_id` renamed to `hs_contact_id`, followed by the Eastern-time `hs_createdate` |
| Columns.TrimmedProvenance | marketing_engagements_etl.py:144-148 | every column left after the drops and renames was already a column or is one the script introduces, and none is `hs_lastmodifieddate` |
| Columns.NoLastModifiedOut | marketing_engagements_etl.py:144-150 | `HS_LASTMODIFIEDDATE` is not an output column |
| Loading.Boundaries | marketing_engagements_etl.py:156 | the boundary list is non-empty, starts at 0 and ends at M |
| Loading.BoundariesShape | marketing_engagements_etl.py:155-156 | the boundaries start at 0 and end at M; there are ceil(M / 10000) + 1 of them; boundary k is 10000k and the next is min(10000k + 10000, M), so they strictly increase by at most 10000 |
| Loading.SliceBetween | marketing_engagements_etl.py:156-161 | the slice between boundaries k and k + 1 is the k-th 10000-row chunk |
| Loading.Load | marketing_engagements_etl.py:155-161 | the load writes the ceil(M / 10000) chunks of the rows, each non-empty and at most 10000 long, which concatenate to the rows; the table ends as its old rows followed by the new ones; M = 0 writes nothing |
| Sync.Sync | marketing_engagements_etl.py:20-165 | a non-empty `next` object without `link` ends the run with MissingNextLink before the table is read, and a successful run's column names are upper-case |
| Sync.SyncLoadsFetchedRows | marketing_engagements_etl.py:101-161 | a successful run appends exactly the fetched rows of the net-new batches, in order, in ceil(M / 10000) slices of 1 to 10000 rows |
| Sync.NothingNewFails | marketing_engagements_etl.py:85-129 | with no net-new ID no batch request is sent and the run fails with the KeyError on `hs_createdate` |
| Sync.SampleRun | marketing_engagements_etl.py:40-161 | listing [1, 2, 3] against table ID "2": one batch [1, 3], two rows, output columns `ID` and `HS_CREATEDATE`, one load slice holding both rows |
| Sync.Run | marketing_engagements_etl.py:20-165 | the script's statements, stage after stage, give `Sync(pages, cells, server)`: the first error ends the run |

## Left out

- HTTP, JSON decoding, headers and the bearer token are out of scope. The responses are inputs, and only the keys the script reads are modelled.
- The Snowflake connection, the `select *` query, SQLAlchemy and `to_sql` are not modelled. The table's `ID` column is an input, so a table without an `ID` column is not modelled either. A load is the list of slices written.
- Timestamp parsing, the US/Eastern conversion and `strftime` are not modelled, because they depend on library calendar and DST data. Cell values travel with their rows unchanged, and only the column names are transformed.
- Environment variables, logging setup, the log-level toggling and the `print` in the load loop are not modelled: they have no effect on the data.
- Paging.Walk: termination is an assumption (`EndsWithin`) that some response ends the walk. A listing that links forever is not modelled.
- Paging.Page: listing IDs are integers. If the listing sent IDs as JSON strings, they would never equal the converted table IDs at line 85, and nothing would be filtered out.
- Paging.CursorOf: a `paging` or `next` value that is not an object is not modelled. A null link is written as the empty link.
- Paging.Contribution: a `results` value that is not a list is not modelled.
- IdDiff.ParseInt: only ASCII whitespace and digits are modelled. `int()` also accepts Unicode digits and spaces. Text of more than 4300 digits, which `int()` refuses since Python 3.11, is accepted.
- IdDiff.ToInt: cells are text, integers or NULL. Float and Decimal cells, which `int()` would truncate, are not modelled.
- Columns.UpperName: only ASCII letters are upper-cased. `str.upper()` also maps other Unicode letters.
- Columns.Dropped: pandas' KeyError lists every missing label, while the model reports the first one. Whether the run fails does not change.
- Columns.ReshapeOutput: requires that the fetched columns contain none of the four derived names. A property already named, say, `hs_createdate_est` would be overwritten in place and keep its position.
- Columns.NoLastModifiedOut: requires that no fetched column other than `hs_lastmodifieddate` upper-cases to `HS_LASTMODIFIEDDATE`. A property spelled in capitals would survive the drop.
- Loading.Load: a failure of one `to_sql` call part-way through the load is not modelled.
