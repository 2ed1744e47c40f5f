# C3.ai COVID-19 Data Lake helpers — a Dafny model

`c3aidatalake.py` is the small client the analysis notebooks use to read the
C3.ai COVID-19 Data Lake. It has four functions:

- `read_data_json` posts one request and accepts only status 200.
- `fetch` reads records. With `get_all` it pages through them 2000 at a time.
- `evalmetrics` reads time series. With `get_all` it cuts the ids into slices
  of 10 and the expressions into slices of 4, and issues one request per pair
  of slices.
- `getprojectionhistory` reads the projection history.

After the requests, each function reshapes column labels. It drops metadata
columns, keeps the `dates|data|missing` (or `…|expr`) columns, keeps a single
`dates` column, and removes `.value` from labels.

This project models the request planning, the error rule and the column
selection. The HTTP call is replaced by a *server*: a pure function from the
request spec to a `Reply(status, payload, message)`. A table is modelled by its
column labels, plus for `fetch` an opaque sequence of rows.

Modules:

- `Wrappers`: `Option` and `Result`.
- `Strings`: Python's `sub in s` (`Contains`) and `s.replace(pat, "")` (`RemoveAll`).
- `Seqs`: `Flatten`, an order-preserving `Filter` and `Map`.
- `Api`: the error type, the reply and `ReadDataJson`.
- `Columns`: the label filters, the `dates` selection and the `.value` strip.
- `Pagination`: `fetch`, its `get_all` loop, and a reference server holding a record store.
- `Batching`: the slicing of ids and expressions and the request plan.
- `Metrics`: `evalmetrics` (nested loops and post-processing) and `getprojectionhistory`.

Behaviour of the code worth noting:

- A reply with status 200 but without `hasMore` does not end the `get_all` loop
  quietly. The code indexes `response_json['hasMore']`, so the call fails
  (`MissingKey("hasMore")`).
- A failing request raises with the server's `message` only; the status code is
  not carried. A failing reply without `message` raises a KeyError
  (`MissingKey("message")`).
- `evalmetrics` with `remove_meta` keeps the columns that match
  `dates|data|missing`. It does not drop a fixed list of bookkeeping columns.
- With `get_all`, `evalmetrics` always goes through the slicing loops, even
  when the lists are small. A list of at most 10 ids and 4 expressions gives
  one request.
- With `get_all` and an empty id or expression list, no request is sent. The
  table is then empty, and `date_cols[0]` raises. The model fails with
  `NoDatesColumn`.
- `fetch` parses no date fields. Only the `dates` column of `evalmetrics` and
  `getprojectionhistory` is converted.
- `getprojectionhistory` derives no `projection_date` column.
- `df.filter(items = keep_cols)` returns the labels in the order of
  `keep_cols`. So the selected table is the first `dates` column, renamed
  `"dates"`, followed by every label without `dates`, in table order.

## Model

| member | source | states |
|---|---|---|
| Api.ReadDataJson | c3aidatalake.py:22-26 | the call succeeds exactly when the status is 200 and then returns the payload unchanged; otherwise it fails with the server's `message` (or a missing-key error when there is none) |
| Strings.ContainsIffOccurs | c3aidatalake.py:58 | the substring test used by every column filter holds exactly when the pattern occurs at some position of the label |
| Strings.RemoveAllFixpoint | c3aidatalake.py:127 | deleting every occurrence of a pattern leaves a label unchanged exactly when the pattern does not occur in it |
| Strings.RemoveAllShrinks | c3aidatalake.py:127 | when the pattern occurs, the label loses at least the pattern's length |
| Seqs.Filter | c3aidatalake.py:58 | the list comprehension keeps exactly the labels that pass the test and never grows the list |
| Seqs.FilterCount | c3aidatalake.py:58 | a kept label occurs as many times as in the input; a dropped one does not occur at all |
| Seqs.FilterConcat | c3aidatalake.py:95 | filtering a concatenation is concatenating the filtered parts, so kept labels keep their original order |
| Seqs.FilterIdempotent | c3aidatalake.py:95 | filtering twice by the same test gives the same labels as filtering once |
| Seqs.FilterFilter | c3aidatalake.py:94-99 | the `remove_meta` filter followed by the `dates` split is one filter by both tests, in table order |
| Columns.DropMeta | c3aidatalake.py:57-58 | with `remove_meta`, `fetch` keeps exactly the labels containing neither `meta` nor `version`, each as often as before |
| Columns.DropMetaIdempotent | c3aidatalake.py:57-58 | dropping the metadata columns twice equals dropping them once |
| Columns.DropMetaConcat | c3aidatalake.py:57-58 | dropping metadata from two tables joined side by side gives the two drops joined |
| Columns.KeepMetricColumns | c3aidatalake.py:94-95 | with `remove_meta`, `evalmetrics` keeps exactly the labels containing `dates`, `data` or `missing`, with their multiplicities |
| Columns.KeepProjectionColumns | c3aidatalake.py:117-118 | with `remove_meta`, `getprojectionhistory` keeps exactly the labels containing `dates`, `data`, `missing` or `expr` |
| Columns.FirstDatesIndex | c3aidatalake.py:98 | finds the first label containing `dates`: no earlier label contains it, and the index is the length when no label does |
| Columns.KeptColumnsShape | c3aidatalake.py:98-100 | `KeptColumns`, the labels `filter(items = keep_cols)` keeps, are the table's first `dates` label followed by all labels without `dates` |
| Columns.SelectDates | c3aidatalake.py:97-100 | fails exactly when no label contains `dates`, with the `NoDatesColumn` error; otherwise `KeptColumns` after `Rename` of the first `dates` label is `"dates"` followed by the labels without `dates` in table order |
| Columns.SelectDatesTail | c3aidatalake.py:99-100 | every label after `"dates"` comes from the table and does not contain `dates` |
| Columns.SelectDatesIdempotent | c3aidatalake.py:97-100 | the selected table has a single `dates` label, so selecting again changes nothing |
| Columns.StripValue | c3aidatalake.py:127 | removing `.value` changes a label exactly when it contains `.value` |
| Pagination.FetchAll | c3aidatalake.py:39-51 | request k carries `limit = 2000` and `offset = 2000 * k`; the loop sends exactly one request more than the number of pages that say `hasMore`; it returns the records of all pages in order, or the error of the last request with no records |
| Pagination.Fetch | c3aidatalake.py:28-60 | without `get_all` exactly one request with the caller's spec, succeeding exactly on status 200; with it the requests of `FetchAll`, succeeding exactly when the last reply is a 200 with `hasMore` false, and the rows of all pages in order; any failure gives no table and carries the error; the labels are the normalised labels minus the metadata ones when `remove_meta` is set |
| Pagination.StorePrefix | c3aidatalake.py:45-51 | against a server that pages a record store, n pages hold exactly the first `2000 * n` stored records |
| Pagination.StoreStops | c3aidatalake.py:45-50 | against that server, request k is the last exactly when the store ends within its page |
| Pagination.StoreFetchComplete | c3aidatalake.py:39-51 | whenever the loop stops against that server it has every stored record exactly once, in order |
| Pagination.StoreTerminates | c3aidatalake.py:45-51 | against that server every request before page `ceil(n / 2000) - 1` continues and that page stops, so the loop sends `ceil(n / 2000)` requests, and one request when the store is empty |
| Batching.Chunks | c3aidatalake.py:77-81 | every slice has between 1 and the slice size elements |
| Batching.ChunksCount | c3aidatalake.py:77-78 | there are just enough slices to hold every element: `ceil(n / size)` |
| Batching.ChunksFlatten | c3aidatalake.py:80-81 | concatenating the slices in order gives back the ids (or the expressions) |
| Batching.ChunkAt | c3aidatalake.py:77-81 | slice i is `s[i*size : i*size + size]`, clipped at the end as Python slicing does |
| Batching.Pairs | c3aidatalake.py:77-78 | the two nested loops issue one request per (id slice, expression slice) pair: `|id slices| * |expression slices|` in all |
| Batching.PairsAt | c3aidatalake.py:77-78 | request `i * m + j` pairs id slice i with expression slice j, so all requests of one id slice come before the next |
| Batching.Plan | c3aidatalake.py:77-81 | the plan has `|id slices| * |expression slices|` requests, each with 1 to 10 ids and 1 to 4 expressions |
| Batching.PlanCount | c3aidatalake.py:77-83 | one call issues `ceil(|ids|/10) * ceil(|expressions|/4)` requests, and none when either list is empty |
| Batching.PlanAt | c3aidatalake.py:77-81 | the request for loop positions `(10*i, 4*j)` carries `ids[10i : 10i+10]` and `expressions[4j : 4j+4]` |
| Batching.PlanCovers | c3aidatalake.py:77-81 | every requested id and expression travel together in one request, at the positions given by `/` and `%` |
| Metrics.Gather | c3aidatalake.py:77-86 | running a plan succeeds exactly when every request returns 200 |
| Metrics.GatherColumns | c3aidatalake.py:84-86 | on success the labels are every chunk's labels joined side by side in request order |
| Metrics.GatherFirstFailure | c3aidatalake.py:83 | the first failing request decides the outcome: its error, and no columns from earlier chunks |
| Metrics.EvalIdSlice | c3aidatalake.py:78-86 | the inner loop sends one request per expression slice for the current id slice, following the plan; it stops at the first failure |
| Metrics.EvalAll | c3aidatalake.py:72-86 | the nested loops send a prefix of the plan, all of it on success; the result equals running the plan; on failure only the last request failed |
| Metrics.MetricFrame | c3aidatalake.py:93-101 | a request failure passes through; the selection fails exactly when no label contains `dates`; otherwise the table is `"dates"` followed by every label without `dates` in table order, and under `remove_meta` by every such label that contains `data` or `missing` |
| Metrics.MetricFrameIdempotent | c3aidatalake.py:93-101 | cleaning a cleaned table changes nothing |
| Metrics.EvalMetrics | c3aidatalake.py:62-103 | without `get_all` one request with the caller's spec; with it the requests follow the plan, all of them are sent when every request returns 200, and otherwise the last one sent is the first that failed; the table is the clean-up of what the requests returned |
| Metrics.ProjectionFrame | c3aidatalake.py:116-127 | fails exactly when no label contains `dates`; otherwise the table is `"dates"` followed by every label without `dates` (under `remove_meta`, every such label with `data`, `missing` or `expr`), in table order, each with `.value` removed |
| Metrics.ProjectionHistory | c3aidatalake.py:105-129 | a status other than 200 fails with the reply's error; a 200 reply fails exactly when no label contains `dates`; otherwise the table is `"dates"` followed by the kept labels without `dates`, in order, with `.value` removed |
| Metrics.StrippedSelection | c3aidatalake.py:123-127 | the `.value` strip leaves the `"dates"` label alone and renames every other label on its own |
| Metrics.ProjectionWithoutValueLabels | c3aidatalake.py:126-127 | when no label contains `.value`, the renaming step changes nothing and the result is the `dates` selection |

## Left out

- The HTTP POST, URL and headers, and JSON decoding (c3aidatalake.py:13-20) are I/O. A server function from the request spec to a reply stands in for them. Transport failures and non-JSON error bodies are not modelled.
- `pd.json_normalize`, `Series.explode`, `DataFrame.append`, `pd.concat` cell alignment and `pd.to_datetime` are library behaviour. `fetch` takes the label derivation as a parameter, `normalize`. An `evalmetrics` or projection-history reply carries its normalised labels as its payload. Date parsing is not modelled.
- Row contents are opaque. Dropping a column acts on the labels only.
- Metric values are never computed on, so no numbers are modelled.
- `body['spec'].update(…)` also mutates the caller's body, which keeps the last `limit`/`offset` or slices after the call. The model passes specs by value and does not expose this side effect.
- Pagination.FetchAll: requires a page on which the loop stops (the ghost `bound`), because the Python loop runs forever against a server that always reports `hasMore`.
- Pagination.Fetch: with `get_all` it requires a page on which the loop stops, as `FetchAll` does.
- A 200 reply without `objs` or `result`, which raises a KeyError in the Python code, is not modelled. Every reply payload carries its records or its labels.
- `hasMore` is modelled as a boolean or an absent key. Other JSON values and their Python truthiness are not modelled.
- Duplicate column labels are not modelled. For example, the same id requested twice gives duplicate labels, and then pandas raises in `filter(items = …)`.
- The `typename` argument only chooses the URL, so it is not modelled.
