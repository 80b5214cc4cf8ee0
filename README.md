# Temporal-graph data preparation, modelled in Dafny

This project models the two offline data-preparation scripts of a temporal
graph learning repository:

- **The connectome preprocessor** (`preprocess_data/preprocess_connectome.py`).
  It reads a timestamped edge list with a header line. It parses every data
  line into a row `(u, i, ts, label, idx)` and a feature row, and asserts
  that timestamps never decrease. It then reindexes node and edge ids. In
  bipartite mode it first checks that the source and target ids are each
  dense and start at 0, then moves the target ids past the source ids. In
  both modes it makes every id 1-based. Finally it stacks a zero row on top
  of the edge features and allocates a zero node-feature matrix.
- **The row truncator** (`DG_data/truncate_csv.py`). It reads a CSV file and
  writes back the Python slice `data[:-n]`.

Modules:

- `Edges` (`connectome_edges.dfy`) holds the edge row, the faults, and the
  column statistics pandas provides. These are max, min, the distinct
  values, and the density test `max - min + 1 == len(unique())`.
- `ConnectomeParse` (`connectome_parse.dfy`) models `preprocess`. It has the
  per-line step `ParseLine`, the loop as a tail-recursive function `Run`, and
  the whole parse as `Preprocessed`. The method `Preprocess` is the source's
  loop: six lists are appended to and a running `previousTime` is kept. It
  is proved equal to `Preprocessed`.
- `ConnectomeReindex` (`connectome_reindex.dfy`) models `reindex` as a
  function on tables. A table is a value, so the source's `df.copy()` is
  implicit: the input is never changed.
- `ConnectomeOutputs` (`connectome_outputs.dfy`) models the assembly of the
  feature matrices and the whole `preprocess_data` run.
- `TruncateCsv` (`truncate_csv.dfy`) models the slice `data[:-n]` with
  Python's exact slice rules.

The input file is a sequence of lines. Each line is already stripped and
split at commas, and line 0 is the header. Python's `int()` and `float()` are
passed in as the two functions of `Numbers`. Each returns `None` where
Python raises `ValueError`. Timestamps, labels and features are `real`.
Every way a run stops is a `Fault`. A run either yields all three artifacts
or one fault, never a partial result.

Some helpers model source lines but carry no contract of their own. Their
behaviour is stated by the members that use them:

- `ConnectomeParse.Run` is the loop at lines 24-49, described by
  `RunSucceedsIff`, `RunRows` and `RunStopsAt`.
- `ConnectomeReindex.ShiftTargets` and `OneBased` are the id shifts at lines
  72-80, described by `Reindex`'s contract.
- `ConnectomeOutputs.MaxNodeId` is `max(max(u), max(i))` at line 115,
  described by `Assemble`'s contract.

Three behaviours of the code that a reader might not expect, all modelled
as written:

- Outside bipartite mode, `reindex` checks nothing. Ids with gaps, or ids
  that do not start at 0, are accepted (`NonBipartiteAcceptsGaps`). The
  command line always runs in this mode.
- `data[:-0]` is empty, so truncating by 0 rows empties the file rather than
  leaving it unchanged (see Findings).
- The source's assertion failures carry no message. The model's faults name
  the data line and field. `RunStopsAt` and `PreprocessedStopsAt` prove that a
  run stops at the first data line that fails, with that line's fault.
  `PreprocessedOutOfOrderAt` proves that falling timestamps stop a run with
  the order violation at the first line where they fall. `Processed` passes
  a parse fault through unchanged.

## Model

| member | source | states |
|---|---|---|
| `Edges.Max` | preprocess_data/preprocess_connectome.py:67-72 | the column max is a value of the column and no value exceeds it |
| `Edges.Min` | preprocess_data/preprocess_connectome.py:67-69 | the column min is a value of the column and no value is below it |
| `Edges.Contiguous` | preprocess_data/preprocess_connectome.py:67-68 | the density test `max - min + 1 == len(unique())` holds iff the distinct ids are exactly min..max, with no gap |
| `ConnectomeParse.ParseFeatures` | preprocess_data/preprocess_connectome.py:40 | the feature comprehension succeeds iff float() accepts every field; the values are those fields in order; on failure it names the first rejected field |
| `ConnectomeParse.ParseLine` | preprocess_data/preprocess_connectome.py:25-49 | one loop step succeeds iff the line is well formed and its timestamp is at least the previous one; the row is fields 0-3 with idx k, the features are fields 4..end. A fault names line k. It is the time-order fault iff fields 0-2 convert and the timestamp is below the previous one. A missing field is the first absent one (field count below 4, every present field converts). A non-number is the first field int() or float() rejects |
| `ConnectomeParse.Preprocessed` | preprocess_data/preprocess_connectome.py:20-54 | on success the header is gone: one row and one feature row per data line, and the feature rows form a matrix |
| `ConnectomeParse.Preprocess` | preprocess_data/preprocess_connectome.py:16-54 | the loop over the six lists with the running previous time returns exactly `Preprocessed` |
| `ConnectomeParse.RunSucceedsIff` | preprocess_data/preprocess_connectome.py:23-35 | the loop from line k succeeds iff every remaining line is well formed, line k's timestamp is at least the running value, and no later timestamp is below its predecessor |
| `ConnectomeParse.RunRows` | preprocess_data/preprocess_connectome.py:24-49 | a successful loop keeps the rows collected so far and appends one row and one feature row per remaining line, in order |
| `ConnectomeParse.RectangularIffSameWidth` | preprocess_data/preprocess_connectome.py:40-54 | the stacked feature rows form a matrix iff all data lines have the same number of fields |
| `ConnectomeParse.PreprocessedSucceedsIff` | preprocess_data/preprocess_connectome.py:20-54 | parsing succeeds iff there is a header, every data line is well formed, the first timestamp is at least -1, no timestamp is below its predecessor (ties allowed), and the lines have equal widths |
| `ConnectomeParse.RunStopsAt` | preprocess_data/preprocess_connectome.py:24-49 | when lines j..k-1 are well formed and in order and line k fails, the loop from j fails with line k's fault |
| `ConnectomeParse.DataLinesSucceedIff` | preprocess_data/preprocess_connectome.py:23-54 | the loop from previous time -1 succeeds iff all data lines are well formed and in time order; its feature rows then form a matrix iff the lines have equal widths |
| `ConnectomeParse.PreprocessedStopsAt` | preprocess_data/preprocess_connectome.py:20-49 | a file whose data lines before line k are well formed and in order and whose data line k fails is rejected with that line's fault, which names line k |
| `ConnectomeParse.PreprocessedOutOfOrderAt` | preprocess_data/preprocess_connectome.py:24-35 | well-formed lines in order up to line k-1, with line k's timestamp below its predecessor's (below -1 for k == 0), give the order violation at line k |
| `ConnectomeParse.PreprocessedRow` | preprocess_data/preprocess_connectome.py:22-49 | on success row k and feature row k come from data line k (file line k+1): u, i, ts, label from fields 0-3, idx == k, features from fields 4..end |
| `ConnectomeReindex.Reindex` | preprocess_data/preprocess_connectome.py:57-82 | fails iff bipartite mode's three id checks fail; otherwise keeps row count, order, ts and label, and gives u+1, idx+1 and i+1, or i + max(u) + 2 in bipartite mode |
| `ConnectomeReindex.DenseFromZero` | preprocess_data/preprocess_connectome.py:67-69 | a column passes the density test with min 0 iff its distinct ids are exactly 0..max |
| `ConnectomeReindex.BipartiteAcceptsIff` | preprocess_data/preprocess_connectome.py:65-69 | bipartite reindexing succeeds iff the table has rows and the source ids and the target ids are each exactly 0..max |
| `ConnectomeReindex.BipartiteIdsDisjoint` | preprocess_data/preprocess_connectome.py:71-79 | in bipartite mode source ids lie in 1..max(u)+1 and target ids are at least max(u)+2, so no source id equals a target id |
| `ConnectomeReindex.ReindexOneToOne` | preprocess_data/preprocess_connectome.py:72-80 | two rows share an output source (target) id iff they share the input one: the renaming is one to one |
| `ConnectomeReindex.NonBipartiteAcceptsGaps` | preprocess_data/preprocess_connectome.py:65-69 | a source column 0, 1, 3 is accepted outside bipartite mode and rejected in it |
| `ConnectomeOutputs.Assemble` | preprocess_data/preprocess_connectome.py:109-116 | succeeds iff there are edges, the node width is not negative and max id + 1 is not negative; edge features get one more row, row 0 zero, row k+1 the old row k; node features are all-zero rows, every node id is below the row count, and some id equals the last row |
| `ConnectomeOutputs.PreprocessData` | preprocess_data/preprocess_connectome.py:106-116 | parse, reindex and assemble, stopping at the first fault, return exactly `Processed` |
| `ConnectomeOutputs.ProcessedSucceedsIff` | preprocess_data/preprocess_connectome.py:106-116 | a run succeeds iff parsing succeeds with at least one edge, the node width is not negative, and either bipartite checks pass or (outside bipartite mode) the largest raw id is at least -2 |
| `ConnectomeOutputs.Processed` | preprocess_data/preprocess_connectome.py:106-116 | on success there is one edge row per data line, the edge feature matrix has one more row and its row 0 is zero, and every node feature row is zero; a parse fault is the run's fault |
| `ConnectomeOutputs.ProcessedRow` | preprocess_data/preprocess_connectome.py:106-116 | on success output row k is data line k with u+1, i shifted by max(u)+2 (bipartite) or 1, ts and label as read, and edge index k+1 |
| `ConnectomeOutputs.ProcessedFeatureRow` | preprocess_data/preprocess_connectome.py:106-116 | on success edge feature row k+1, the row of the edge with index k+1, holds data line k's features |
| `TruncateCsv.SliceStop` | DG_data/truncate_csv.py:11 | a slice stop is clamped to 0..len, and a negative stop counts from the end |
| `TruncateCsv.Truncate` | DG_data/truncate_csv.py:11 | `data[:-n]` is a prefix of the input and never longer; it drops exactly n rows for 0 < n <= len, is empty for n >= len and for n == 0, and keeps min(-n, len) rows for negative n |
| `TruncateCsv.TruncateZeroIsNotIdentity` | DG_data/truncate_csv.py:11 | truncating a non-empty table by 0 rows empties it |
| `TruncateCsv.DropLast` | DG_data/truncate_csv.py:10-11 | dropping n >= 0 rows keeps the first len - n rows (none if n > len) and leaves the table unchanged for n == 0 |
| `TruncateCsv.DropLastAgreesWhenPositive` | DG_data/truncate_csv.py:11 | the corrected truncation equals the slice for every n > 0 and differs from it only at n == 0 |

## Left out

- Command-line parsing, printing and the unused `--check` flag
  (preprocess_data/preprocess_connectome.py:124-135, DG_data/truncate_csv.py:20-30).
- File I/O: opening and reading lines, `os.makedirs`, path construction,
  `to_csv`, `np.save`, and the csv module's quoting. Inputs and outputs are
  sequences. A partly written output file after an I/O failure is not
  modelled.
- `line.strip().split(',')` is taken as already done: each line arrives as its list of
  fields. The header line's content is never inspected, as in the source.
- Python's `int()` and `float()` are parameters (`Numbers`). Which strings
  they accept is not modelled.
- Floating point: timestamps, labels and features are reals. NaN and
  infinities, which make the order check and numpy behave differently, are
  not modelled. The running start value -1 is the real -1.
- numpy's handling of ragged feature rows is taken as an error
  (`RaggedFeatures`), the behaviour of numpy 1.24 and later. Older numpy
  builds an object array and fails later, at line 110. Either way the run
  stops before writing anything.
- pandas and numpy integer widths: ids are unbounded integers. int64
  overflow of `max(u) + 1` is not modelled.
- pandas `max`/`min` of an empty column (NaN) is modelled only through its
  effect: the density checks fail on an empty table, and assembly stops
  with `NoEdges` because an empty feature array has no second dimension.

## Findings

| source | as written | input that shows it | evidently intended | confidence | as-written member | corrected member |
|---|---|---|---|---|---|---|
| DG_data/truncate_csv.py:11 | `data[:-n]` with `n == 0` is `data[:0]`, which keeps no rows | any non-empty file with `--rows 0` | removing the last 0 rows leaves the file unchanged | high for the slice semantics; not executed | `TruncateCsv.TruncateZeroIsNotIdentity` | `TruncateCsv.DropLast` |
