# meld: column-header codec and database merger, modelled in Dafny

meld loads CellProfiler output (`.csv` files spread over a directory tree)
into tables of an SQLite database. This project models two parts of it:

- **The column-header codec** (`meld/colfuncs.py`).
  - `collapse_cols` turns multi-level column labels into flat names. It joins each column's labels with a separator and strips the result.
  - `inflate_cols` reads a `(top, sub)` pair back from each flat name. It takes the first two tokens of Python's no-argument `str.split()`.
- **The decisions `Merger` makes around its I/O** (`meld/merge_to_db.py`):
  - normalising the database file name;
  - building the SQLite handle and refusing an existing database file;
  - selecting the input files by the suffix `select + ".csv"`;
  - refusing an empty selection;
  - deciding for each file whether its header rows must be collapsed;
  - naming the output table (`select` or `select + "_agg"`).

Files:

- `results.dfy` (module `Results`): the exceptions the code raises, as `Error` values. Also holds `Option`, `Result` and `Outcome`.
- `pytext.dfy` (module `PyText`): the Python string operations the code relies on: `isspace`, `endswith`, `startswith`, `sep.join`, `strip()` and no-argument `split()`. Whitespace is the full set Python's `str.isspace` accepts. Lemmas cover what `strip()` removes, and the round trip of `split()` and `join` with a whitespace separator.
- `colfuncs.dfy` (module `ColFuncs`): `Collapse` and `Inflate`, their round trips in both directions, and the ways the round trip fails (default separator, dropped tokens, non-injective collapsing).
- `merge_to_db.dfy` (module `MergeToDb`): `create_db`, file selection, header dispatch, and `to_db` / `to_db_agg`.
  - Reading a file is a function parameter, and so is `utils.aggregate`.
  - "The file exists" is membership in a given set of paths.
  - Each `to_sql(..., if_exists="append")` is recorded as an `Append` value.
  - Both loop methods return the appends made together with an `Outcome`. A file that raises stops the loop, but the appends before it stay made.

Behaviour of the code that the model keeps as written:

- `inflate_cols` splits each name on whitespace, not on the separator `collapse_cols` joins with.
- A name with fewer than two tokens raises `IndexError`.
- Tokens after the second are dropped.
- A frame with no columns raises `TypeError` in `MultiIndex.from_tuples`.
- Columns that collapse to the same name are accepted silently (`ColFuncs.CollapseNotInjective`).
- An append attempted while the merger has no engine fails (`Results.NoEngine`). This is the case for a fresh merger, and after `create_db` raised its `Warning`.

## Model

| member | source | states |
|---|---|---|
| PyText.Strip | meld/colfuncs.py:25 | the stripped name has no whitespace at either end |
| PyText.StripCutsOnlySpace | meld/colfuncs.py:25 | `strip()` keeps a contiguous middle part of its input; everything it removes before and after that part is whitespace |
| PyText.StripKeeps | meld/colfuncs.py:25 | a string with no whitespace at either end is left unchanged by `strip()` |
| PyText.StripIdempotent | meld/colfuncs.py:25 | stripping twice is stripping once |
| PyText.Split | meld/colfuncs.py:15 | every token `split()` returns is non-empty and free of whitespace |
| PyText.SplitSkipsSpace | meld/colfuncs.py:15 | leading whitespace does not change the tokens `split()` returns |
| PyText.SplitAllSpace | meld/colfuncs.py:15 | a name made only of whitespace has no tokens |
| PyText.SplitAtSpace | meld/colfuncs.py:15 | any non-empty run of whitespace, whatever characters it is made of, acts as one separator: the tokens of `x + w + y` are those of `x` followed by those of `y` |
| PyText.SplitDropsTrailingSpace | meld/colfuncs.py:15 | trailing whitespace yields no token |
| PyText.SplitNoSpace | meld/colfuncs.py:15 | a whitespace-free name such as `A_x` splits into at most one token |
| PyText.SplitJoin | meld/colfuncs.py:15 | tokens joined by a non-empty whitespace separator split back into exactly those tokens, in order |
| ColFuncs.Collapse | meld/colfuncs.py:23-25 | one name per column, in column order; each name is the column's labels joined by `sep` and stripped, so no name has whitespace at either end |
| ColFuncs.NamePair | meld/colfuncs.py:15-17 | a name yields a pair exactly when it has at least two whitespace-separated tokens; otherwise `IndexError` |
| ColFuncs.InflatePairs | meld/colfuncs.py:13-18 | the loop succeeds exactly when every name has two tokens; then one pair per name, in input order, built from that name's first two tokens, so both header lists have the same length; otherwise `IndexError` and no pairs |
| ColFuncs.Inflate | meld/colfuncs.py:13-20 | succeeds exactly when there is at least one name and every name has two tokens, giving the pairs of `InflatePairs`; a name without two tokens raises `IndexError`; an empty list of names raises `TypeError` in `MultiIndex.from_tuples` |
| ColFuncs.PairLabels | meld/colfuncs.py:19-20 | every pair becomes a two-level column label, and `TopTwo` reads the original pairs back from those labels |
| ColFuncs.PairLabelsTopTwo | meld/colfuncs.py:19-20 | the other direction: two-level columns are the labels of their own pairs |
| ColFuncs.InflateCollapse | meld/colfuncs.py:7-25 | inflating names collapsed with a whitespace separator gives back the first two labels of every column, for any number of levels, when every label is a non-empty whitespace-free token; with no columns the result is `TypeError` |
| ColFuncs.InflateCollapseTwoLevels | meld/colfuncs.py:7-25 | with separator `" "` and two-level columns the round trip succeeds exactly when there is a column, and then returns the original columns exactly |
| ColFuncs.CollapseInflate | meld/colfuncs.py:7-25 | a non-empty list of names, each written as two tokens around one space, collapses back to itself after inflating; an empty list does not inflate |
| ColFuncs.InflateRejectsCollapsed | meld/colfuncs.py:7-25 | with a whitespace-free separator such as the default `_`, one column of whitespace-free labels is enough to make inflating the collapsed names raise `IndexError` |
| ColFuncs.CollapseDefaultExample | meld/colfuncs.py:23-25 | `("A","x")` collapses to `A_x` with the default separator |
| ColFuncs.CollapsePair | meld/colfuncs.py:23-25 | two labels with no outer whitespace collapse to their concatenation around the separator |
| ColFuncs.CollapseNotInjective | meld/colfuncs.py:23-25 | distinct columns `(a+sep+b, c)` and `(a, b+sep+c)` collapse to the same name |
| ColFuncs.InflateDropsExtraTokens | meld/colfuncs.py:15-17 | a name of three tokens inflates to the pair of its first two; the third is dropped |
| ColFuncs.InflateUnderscoreName | meld/colfuncs.py:15-17 | `A_x` is a single token, so inflating it raises `IndexError` |
| MergeToDb.PathJoin | meld/merge_to_db.py:64 | the joined path ends with the file name. An absolute name is the result alone. Otherwise the result is the location, then exactly one `/` when the location is non-empty and does not already end in `/` (nothing otherwise), then the name |
| MergeToDb.DbFileName | meld/merge_to_db.py:62-63 | the database name always ends in `.sqlite` and starts with the given name; it is unchanged exactly when the given name already ends in `.sqlite`, and otherwise it is the given name with `.sqlite` appended |
| MergeToDb.DbFileNameIdempotent | meld/merge_to_db.py:62-63 | normalising the name twice is normalising it once |
| MergeToDb.DefaultDbFileName | meld/merge_to_db.py:46-63 | the default name `results` becomes `results.sqlite` |
| MergeToDb.CreateDb | meld/merge_to_db.py:62-69 | raises `Warning` ("… already exists …") exactly when the joined path is an existing file, and then leaves the merger unchanged; otherwise the handle is `sqlite:///` followed by the joined path, the engine is built for that handle, and the file paths are untouched |
| MergeToDb.CreateDbHandle | meld/merge_to_db.py:64-69 | after a successful `create_db` the handle starts with `sqlite:///` and ends with `.sqlite`, and the engine is built for exactly that handle |
| MergeToDb.CreateDbExistingLeavesNoEngine | meld/merge_to_db.py:57-69 | a fresh merger pointed at an existing database raises `Warning` and keeps no handle and no engine, although the documentation says the existing database is acted on |
| MergeToDb.CreateDbExtending | meld/merge_to_db.py:57-69 | the documented behaviour: handle and engine are always set to the joined path, and the warning message is produced exactly when the file exists |
| MergeToDb.CreateDbExtendingAgrees | meld/merge_to_db.py:57-69 | the documented behaviour and the code give the same merger when the file does not exist; when it does, only the documented behaviour leaves an engine |
| MergeToDb.CreateDbNormalisedName | meld/merge_to_db.py:62-64 | passing an already normalised name to `create_db` gives the same result as passing the bare name |
| MergeToDb.SelectPaths | meld/merge_to_db.py:86 | a path is selected exactly when it is an input path ending with `select + ".csv"`; no more paths than the input |
| MergeToDb.SelectPathsInOrder | meld/merge_to_db.py:86 | the selected paths occur in the input at strictly increasing positions, so the selection keeps the input order |
| MergeToDb.SelectPathsCounts | meld/merge_to_db.py:139 | every path is selected as many times as it occurs in the input when it has the suffix, and never otherwise |
| MergeToDb.SelectPathsIdempotent | meld/merge_to_db.py:86 | selecting again with the same suffix changes nothing |
| MergeToDb.CollapseHeaders | meld/merge_to_db.py:91-108 | header `0` or `[0]` keeps the frame as read; any other header with flat columns raises `ValueError`; with multi-indexed columns the rows are kept and each column is renamed to its collapsed name (separator `_`) |
| MergeToDb.AggregateFrame | meld/merge_to_db.py:144-163 | fails exactly when `CollapseHeaders` fails, and then with `to_db_agg`'s own message; header `0`/`[0]` aggregates the frame as read with `prefix` and no options; otherwise the collapsed frame is aggregated with the caller's options and no `prefix` |
| MergeToDb.AppendEach | meld/merge_to_db.py:90-111 | appends one frame per file, in file order, through the engine. It stops at the first file that raises, or at the first append with no engine. It passes exactly when every file loads and there is an engine (or nothing to append). On failure the appends so far are kept, and the error is the one of the next file, or the missing-engine error |
| MergeToDb.ToDb | meld/merge_to_db.py:85-111 | an empty selection raises `ValueError` ("No files found matching …") before any append. Every append goes to table `select` on the merger's engine, and without an engine nothing is appended. It passes exactly when the selection is non-empty, there is an engine, and either the header is `0`/`[0]` or every selected file has multi-indexed columns. Otherwise it stops at the first file that has flat columns (`ValueError`) or cannot be appended (no engine) |
| MergeToDb.ToDbAgg | meld/merge_to_db.py:138-165 | as `ToDb`, but every append goes to table `select + "_agg"` and holds the aggregated frame; a flat-columned file raises `to_db_agg`'s own message |

## Left out

- The directory walk in `Merger.__init__` (`os.walk`, `meld/merge_to_db.py:34-40`) is not modelled. `NewMerger` takes the list of file paths as given. Because of the indentation of line 40, `file_paths` is never assigned when the walk yields no directory at all. The model always has a list.
- SQLAlchemy is not modelled: `create_engine` and `to_sql`. An engine is known only by its URL, and an append is a record of the table and the frame.
- pandas is not modelled: `read_csv`, chunked reading and `concat`. Reading one file is a function parameter from path to frame, and the keyword arguments forwarded to the reader are folded into that parameter. A reader that raises is not modelled.
- `Results.NoEngine` stands for whatever `to_sql` raises when its connection is `None`. The exception's type and message depend on the pandas version, so the model does not name them.
- `tqdm` progress bars are not modelled; they have no effect on the result.
- `utils.aggregate` is not part of this model. It is a function parameter, and its own failures (a missing group column, an unknown method) are not modelled.
- `os.path.isfile` is membership of the path in a given set of existing files.
- `MergeToDb.PathJoin` is the POSIX form of `os.path.join`. Windows drive and separator rules are not modelled.
- `MergeToDb.SingleHeaderRow` recognises `0` and `[0]` only. Python also treats `False` and `0.0` as equal to `0`, but the `Header` type has no such values.
- The `assert len(header_1) == len(header_2)` at `meld/colfuncs.py:18` cannot fail. `ColFuncs.Inflate` states the equal lengths instead of raising.
- `pd.MultiIndex.from_tuples` is modelled as the list of pairs (`ColFuncs.PairLabels`), not as a pandas index object.
- Cell values are modelled as text. Column dtypes and numeric conversion are not modelled.
- `setup.py` is packaging metadata and is not part of this model.

## Findings

| source | as written | input that shows it | evidently intended | confidence | as-written member | corrected member |
|---|---|---|---|---|---|---|
| meld/merge_to_db.py:57-69 | the documentation says an existing database is acted on rather than overwritten, and the message says "database will be extended", but `raise Warning(msg)` leaves before `db_handle` and `engine` are set | a fresh merger and a `location`/`db_name` whose `.sqlite` file exists: the handle and engine stay `None`, so a following `to_db` cannot append | warn without raising, then set the handle and the engine for the existing file | medium, not executed | MergeToDb.CreateDbExistingLeavesNoEngine | MergeToDb.CreateDbExtending |
