# GNPS FBMN group selector — group-selection pipeline in Dafny

This project models the logic of the GNPS feature-based molecular networking
(FBMN) group selector dashboard. The dashboard lets a user pick a GNPS task,
a metadata column and two groups of terms within that column. It then builds
the query parameters of a link to the GNPS LC-MS viewer. The link compares
the files of the two groups, and it can also zoom on one selected feature.

The model covers the chain of derived values in `app.py`:

- **task from the page path** (`determine_task`): the path without its
  leading `/`, or the fixed default task when the path is missing or has at
  most one character;
- **metadata columns** (`determine_columns`): the columns whose name does
  not contain `filename`, in table order, and the first of them as default;
- **group terms** (`determine_terms`): the union of the comma-separated
  pieces of the distinct non-null cells of the column, with Python
  `str.split` semantics (empty pieces kept). The first and last terms of an
  enumeration of that set are the defaults of group 1 and group 2;
- **group to USI string** (`_get_group_usi_string`): the base name of each
  file's `full_CCMS_path` becomes its `filename`, the metadata is
  left-merged with the file statistics on `filename`, the rows whose column
  equals the term exactly are kept, and each is formatted as
  `mzspec:GNPS:TASK-<task>-f.<full_CCMS_path>:scan:1`. The USIs are joined
  with newlines;
- **link parameters** (`create_link`): an insertion-ordered dict holding
  `usi` and `usi2`, and, only when a table row is selected, `xicmz` and
  `xic_rt_window`.

Modules:

- `PyStrings` (`pystrings.dfy`): Python's `in` on strings, `str.split` and
  `str.join` with a one-character separator, and `os.path.basename`.
- `DataFrames` (`dataframes.dfy`): `Option`, `Result` and the raised Python
  exceptions (`KeyError`, `IndexError`, `TypeError`). It also holds tables as
  a column list plus rows that map column names to optional strings (`None`
  is NaN), list indexing with negative indices, order-preserving filtering,
  and pandas' left merge on one key.
- `App` (`app.dfy`): the callbacks above.
- `Scenarios` (`scenarios.dfy`): worked examples on small tables.

Modelling choices:

- The three GNPS downloads are parameters (`Table` values), not fetched.
- A Python exception is a `Failure` result with the exception's kind. Two
  examples are `acceptable_columns[0]` on an empty list and a column the
  table lacks.
- Python's set iteration order is unspecified. `App.Enumerate` models
  `list(some_set)` by picking each next element with a nondeterministic
  choice. The contracts therefore hold for every enumeration order.
- The loops of the source (building option lists, the union of term
  pieces) are methods with loop invariants, proved against the functions
  that specify them. The straight-line dict assignments of `create_link`
  are methods too, with each assignment stated through `App.Assign`. The
  comprehensions, the basename/merge/filter/format chain and the task
  conditional are functions.
- Feature-table numbers are `real`. The retention-time window is the pair
  `(RTMean - 1, RTMean + 1)`, not its text.
- Behaviours kept as `app.py` has them:
  - each USI embeds the full `full_CCMS_path`, not its base name
    (app.py:174-175);
  - a metadata table whose every column name contains `filename` raises
    IndexError instead of yielding an empty selection (app.py:142);
  - a page path of exactly one character (`/`) also yields the default
    task (app.py:127).

## Model

| member | source | states |
|---|---|---|
| `App.DetermineTask` | app.py:125-130 | For a non-null path longer than one character, the task is that path with its first character removed. Otherwise the task is the default id `2532c7a7069b4fa69db9c89b4e1431cb`. |
| `App.AcceptableColumns` | app.py:138 | A column is offered exactly when it is a table column whose name does not contain "filename". |
| `PyStrings.ContainsIsSubstring` | app.py:138 | The executable `"filename" in column` test holds exactly when the name occurs as a contiguous slice. |
| `App.OptionsFor` | app.py:139-141 | The options loop yields one entry per name, in order, labelled and valued by that name. |
| `App.DetermineColumns` | app.py:134-144 | Without a task id longer than one character: the single placeholder entry X/Y, handed over as a bare entry rather than a list, and no update. Otherwise: IndexError exactly when every column name contains "filename". On success, the options are the acceptable columns and the value is the first column not containing "filename". |
| `DataFrames.FilterFirst` | app.py:142 | The first kept element is the first element of the input that the predicate accepts. |
| `App.Enumerate` | app.py:159 | `list(set)`: every element exactly once, no element outside the set, in some order. |
| `App.UnionOfPieces` | app.py:155-157 | The accumulation loop ends with the union of the comma-split pieces of all enumerated cells. |
| `App.NonNullCells` | app.py:153 | A string is among the distinct cells exactly when some row holds it, not NaN, under the column. |
| `App.TermSetMembership` | app.py:153-159 | A string is a term iff it is a comma-split piece of some non-null cell of the column. Every term comes from a cell, and every piece of every non-null cell is a term. |
| `App.NullCellAddsNoTerm` | app.py:153 | Adding a row whose cell is null (dropped by `dropna`) leaves the term set unchanged. |
| `App.PiecesEmpty` | app.py:155-165 | The term set is empty exactly when the column has no non-null cell, because a split always yields a piece. |
| `App.DetermineTerms` | app.py:151-165 | A missing column raises KeyError. No non-null cell raises IndexError. Otherwise the options are the term set, each term once. Group 1 is the first option and group 2 the last. Both are terms, and they are equal exactly when there is one term. |
| `PyStrings.Split` | app.py:157 | `str.split(",")` yields at least one piece, and no piece contains the separator. |
| `PyStrings.JoinOfSplit` | app.py:157 | Re-joining the pieces of a split with the separator gives back the cell. |
| `PyStrings.Join` | app.py:176 | `"\n".join`: the empty string for no USI, and otherwise it starts with the first USI and is at least as long as the separators between them. |
| `PyStrings.SplitOfJoin` | app.py:176 | Splitting the join of a non-empty list whose items lack the separator gives back the list. |
| `PyStrings.SplitPrefix` | app.py:157 | A separator-free prefix is glued onto the first piece of whatever follows it. |
| `PyStrings.Basename` | app.py:170 | `os.path.basename`: a suffix of the path with no '/'. It is the whole path or is preceded by '/', and it is the path itself when the path has no '/'. |
| `PyStrings.BasenameAfterDirectory` | app.py:170 | The base name of `dir + "/" + name` is `name` whenever `name` has no '/'. |
| `App.NamedRows` | app.py:170 | Row by row, every cell is kept but `filename`, which becomes the base name of the row's path. |
| `App.WithFilenames` | app.py:170 | A missing `full_CCMS_path` column raises KeyError and a NaN path raises TypeError. Otherwise every row gains `filename` = basename of its path, and no other cell changes. |
| `DataFrames.JoinRow` | app.py:172 | A metadata row yields at least one joined row, and every one of them carries all of that metadata row's cells. |
| `DataFrames.LeftJoin` | app.py:172 | The left join has at least as many rows as the metadata. |
| `DataFrames.LeftJoinAppend` | app.py:172 | Joining a concatenation gives the concatenation of the joins, so metadata order is kept. |
| `DataFrames.LeftJoinOrigin` | app.py:172 | Every joined row extends some metadata row. |
| `DataFrames.LeftJoinOneToOne` | app.py:172 | When each metadata row matches at most one file row, the join has one row per metadata row, in order. That row is the metadata row merged with its match, or the metadata row alone when it has no match. |
| `DataFrames.Merge` | app.py:172 | A missing `filename` on either side raises KeyError. Otherwise the merged columns are exactly the columns of either table. |
| `App.JoinedTable` | app.py:168-172 | A failed basename step is raised unchanged (KeyError for a missing `full_CCMS_path`, TypeError for a NaN path). After it, metadata without `filename` raises KeyError for `filename`. So the join succeeds exactly when the basename step succeeds and the metadata has `filename`. Its rows are the left join, and its columns are those of either table plus `filename`. |
| `DataFrames.Filter` | app.py:174 | The mask filter keeps no more elements than it is given, and only accepted ones. |
| `DataFrames.FilterIndices` | app.py:174 | The kept positions are strictly increasing, each one is accepted, and every accepted position occurs. |
| `DataFrames.FilterAt` | app.py:174 | The k-th kept element is the input element at the k-th kept position. |
| `DataFrames.FilterCountsSelected` | app.py:174 | The filter keeps exactly as many elements as there are accepted positions. |
| `DataFrames.FilterMembership` | app.py:138 | An element is kept iff it occurs in the input and is accepted. |
| `DataFrames.FilterAppend` | app.py:174 | Filtering distributes over concatenation, so relative order is kept. |
| `App.GroupUsis` | app.py:174-175 | A failed join is raised with the join's own exception. After a successful join, a column the merged table lacks raises KeyError for that column. On success there is one USI per joined row whose column equals the term exactly, as many as such rows, in join order. Each USI is `mzspec:GNPS:TASK-<task>-f.<that row's full_CCMS_path, or "nan">:scan:1`. |
| `App.GroupNeedsExactCell` | app.py:174 | In a metadata table with a cell under every column, a group is empty when no metadata cell equals the term exactly. This holds even when the term is a piece of a combined cell. |
| `App.FormatUsi` | app.py:175 | The USI starts with `mzspec:GNPS:TASK-<task>-f.` and ends with `:scan:1`. The path can be read back from between the two. |
| `App.CellText` | app.py:175 | A cell is printed as its text. The text is "nan" exactly when the cell is NaN or is the literal string "nan". |
| `App.ParseUsi` | app.py:175 | Whatever the USI parser accepts is exactly a formatted USI of that task and path. |
| `App.UsiRoundTrip` | app.py:175 | Parsing a formatted USI gives back the path it was built from. |
| `App.GroupUsiString` | app.py:167-178 | It fails exactly when the USI list does, with the same exception. An empty group gives the empty string. For a non-empty list without newlines, splitting the string on "\n" gives back the list. |
| `App.Assign` | app.py:193-200 | `dict[key] = value`: afterwards the key maps to the value and every other key is unchanged. A new key is appended to the key order, and an existing one keeps its place. |
| `App.KeysLookup` | app.py:193-200 | A key can be looked up exactly when it is among the dict's keys. |
| `App.BuildParams` | app.py:193-200 | The parameters satisfy `App.LinkParams`. The keys are `usi`, `usi2`, then `xicmz` and `xic_rt_window` iff the selection is non-empty. `usi`/`usi2` hold the two USI strings. `xicmz` is the first selected row's precursor mass, and the window is its RTMean minus and plus one. An out-of-range first index raises IndexError, and a missing column raises KeyError. Nothing selected always succeeds. |
| `App.AddFeatureWindow` | app.py:197-200 | The row's precursor mass becomes `xicmz` and its RTMean minus and plus one becomes `xic_rt_window`, after `usi` and `usi2`, whose values stay. A row without "precursor mass" raises KeyError for it, and one without "RTMean" raises KeyError for that. |
| `App.CreateLink` | app.py:187-200 | Rows not yet reported (`None`) raise TypeError before anything else. Then a failure resolving group 1 is raised. A selection not yet reported raises TypeError. Otherwise the parameters satisfy `App.LinkParams` for the two groups' USI strings: when a link is built, its keys, the USI strings, and the `xicmz` and `xic_rt_window` values, with every error case. |
| `App.GroupFailureIgnoresTerm` | app.py:190-191 | On the same tables and column, resolving either term fails or succeeds alike, with the same exception. |
| `DataFrames.PyIndex` | app.py:165 | `s[i]` succeeds iff `-len(s) <= i < len(s)`, counting negative indices from the end, and otherwise raises IndexError. |
| `Scenarios.TypedMetadataTerms` | app.py:153-159 | Cells "case", "control,case", "control" give exactly the terms {case, control}. |
| `Scenarios.CombinedTermOffered` | app.py:153-159 | With cells "control,case" and "control", "case" is offered as a term. |
| `Scenarios.CombinedGroupEmpty` | app.py:174 | With those cells, the group "case" resolves to no file. |
| `Scenarios.SplitPair` | app.py:157 | Two comma-free words joined by a comma split into exactly those two words. |

## Left out

- Dash layout, navigation bar, the reactive callback wiring and the web server start-up (app.py:21-104, 221-222): UI plumbing.
- The GNPS downloads through `pd.read_csv` (app.py:107-120): network I/O. The tables are parameters instead, and a failed download is not modelled.
- `create_table` (app.py:208-217): it only hands the downloaded cluster summary to the grid, so it has no logic of its own.
- The viewer's base address and `urllib.parse.urlencode` percent-encoding (app.py:202-203): a library call. The model stops at the ordered parameter list.
- The text of the retention-time window, `"{}-{}".format(rt-1, rt+1)` (app.py:200): float-to-text formatting. The window is kept as the pair of reals.
- Floating point in general: feature masses and retention times are exact `real` values.
- pandas type inference: every metadata cell is a string or NaN. Numeric columns are not modelled, so neither is the crash of `split` on a number nor the number-versus-string comparison.
- pandas' `_x`/`_y` suffixes for non-key columns present in both merged tables. A merged row takes the metadata value on such a column.
- App.GroupFailureIgnoresTerm: both groups are resolved from the same tables, so the re-download between the two calls (app.py:190-191) and its possible failure are not modelled.
- Multi-select term dropdowns pass a list as the term (app.py:66, 73). The term is modelled as a single string, as the defaults are.
- The output of the `print` calls (app.py:188, 215). The one thing they do that the model keeps is the TypeError that `len` raises on missing feature rows (app.py:188).
- Calls with a missing task or column before the page has filled them in: task and column are strings, never `None`.
