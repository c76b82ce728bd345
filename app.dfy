/**
 * The group-selection pipeline of the GNPS feature-based molecular
 * networking group selector dashboard: task id from the page path, the
 * selectable metadata columns, the group terms of a column, the USI list of
 * one group, and the query parameters of the outbound comparison link.
 *
 * The three GNPS downloads (cluster summary, merged metadata, file
 * statistics) are not fetched here: each operation takes the tables as
 * parameters. Python exceptions become `Failure` results.
 */
module App {
  import opened PyStrings
  import opened DataFrames

  /** The task shown when the page path names none. */
  const DefaultTask: string := "2532c7a7069b4fa69db9c89b4e1431cb"

  /** Column of the file statistics table holding each file's full path. */
  const PathColumn: string := "full_CCMS_path"

  /** Join key between the metadata and the file statistics tables. */
  const FilenameColumn: string := "filename"

  const UsiPrefix: string := "mzspec:GNPS:TASK-"
  const UsiFileMarker: string := "-f."
  const UsiSuffix: string := ":scan:1"

  // ---------------------------------------------------------------------
  // Task from the page path

  /** The task id is the page path without its leading '/', or the default. */
  function DetermineTask(pathname: Option<string>): (task: string)
    ensures pathname.Some? && |pathname.value| > 1 ==>
      |task| >= 1 && [pathname.value[0]] + task == pathname.value
    ensures pathname.None? || |pathname.value| <= 1 ==> task == DefaultTask
  {
    if pathname.Some? && |pathname.value| > 1 then pathname.value[1..]
    else DefaultTask
  }

  // ---------------------------------------------------------------------
  // Metadata columns

  /** A dropdown entry. */
  datatype Choice = Choice(caption: string, value: string)

  /** A callback output: either a new value, or `dash.no_update`. */
  datatype Update<T> = NoUpdate | Set(value: T)

  /**
   * The options output of the column callback: a list of entries, or the
   * single placeholder entry handed over as a bare dict, not in a list.
   */
  datatype ColumnOptions = Entries(entries: seq<Choice>) | Placeholder(entry: Choice)

  /** The outputs of the column callback: the dropdown options and its value. */
  datatype ColumnsUpdate = ColumnsUpdate(options: ColumnOptions, value: Update<string>)

  /** A column may be grouped on unless its name contains "filename". */
  predicate IsAcceptableColumn(column: string)
  {
    !Contains(column, "filename")
  }

  /**
   * The groupable columns, in table order: exactly the columns whose name
   * does not contain "filename".
   */
  function AcceptableColumns(columns: seq<string>): (acceptable: seq<string>)
    ensures forall c :: c in acceptable <==> c in columns && !IsSubstring("filename", c)
  {
    var acceptable := Filter(columns, IsAcceptableColumn);
    assert forall c :: c in acceptable <==> c in columns && !IsSubstring("filename", c) by {
      forall c
        ensures c in acceptable <==> c in columns && !IsSubstring("filename", c)
      {
        FilterMembership(columns, IsAcceptableColumn, c);
        ContainsIsSubstring(c, "filename");
      }
    }
    acceptable
  }

  /** One dropdown entry per name, labelled and valued by that name. */
  ghost predicate ChoicesFor(options: seq<Choice>, names: seq<string>)
  {
    |options| == |names| && forall k :: 0 <= k < |names| ==> options[k] == Choice(names[k], names[k])
  }

  /** The loop that turns names into dropdown entries, one per name, in order. */
  method OptionsFor(names: seq<string>) returns (options: seq<Choice>)
    ensures ChoicesFor(options, names)
  {
    options := [];
    for i := 0 to |names|
      invariant ChoicesFor(options, names[..i])
    {
      options := options + [Choice(names[i], names[i])];
    }
    assert names[..|names|] == names;
  }

  /**
   * The column callback. Without a task id longer than one character it
   * leaves the value alone and hands over the placeholder entry as a bare
   * dict. Otherwise the options are the acceptable columns and the value is
   * the first column whose name does not contain "filename"; when there is
   * none, taking the first acceptable column raises IndexError.
   */
  method DetermineColumns(gnpsTask: Option<string>, metadata: Table) returns (r: Result<ColumnsUpdate>)
    ensures gnpsTask.None? || |gnpsTask.value| <= 1 ==>
      r == Success(ColumnsUpdate(Placeholder(Choice("X", "Y")), NoUpdate))
    ensures gnpsTask.Some? && |gnpsTask.value| > 1 ==>
      (r.Failure? <==> forall c :: c in metadata.columns ==> IsSubstring("filename", c))
    ensures r.Failure? ==> r.error == IndexError
    ensures gnpsTask.Some? && |gnpsTask.value| > 1 && r.Success? ==>
      && r.value.options.Entries?
      && ChoicesFor(r.value.options.entries, AcceptableColumns(metadata.columns))
      && r.value.value.Set?
      && exists i :: 0 <= i < |metadata.columns| && metadata.columns[i] == r.value.value.value &&
                     !IsSubstring("filename", metadata.columns[i]) &&
                     (forall j :: 0 <= j < i ==> IsSubstring("filename", metadata.columns[j]))
  {
    if gnpsTask.None? || |gnpsTask.value| <= 1 {
      return Success(ColumnsUpdate(Placeholder(Choice("X", "Y")), NoUpdate));
    }
    var acceptable := AcceptableColumns(metadata.columns);
    var options := OptionsFor(acceptable);
    var first := PyIndex(acceptable, 0);
    if first.Failure? {
      return Failure(first.error);
    }
    assert first.value == acceptable[0];
    FilterFirst(metadata.columns, IsAcceptableColumn);
    forall c | c in metadata.columns {
      ContainsIsSubstring(c, "filename");
    }
    return Success(ColumnsUpdate(Entries(options), Set(first.value)));
  }

  // ---------------------------------------------------------------------
  // Group terms

  /** The distinct non-null cells of `column`. */
  function NonNullCells(t: Table, column: string): (cells: set<string>)
    ensures forall x :: x in cells <==> exists i :: 0 <= i < |t.rows| && Cell(t.rows[i], column) == Some(x)
  {
    set i | 0 <= i < |t.rows| && Cell(t.rows[i], column).Some? :: Cell(t.rows[i], column).value
  }

  /** The union of the comma-separated pieces of each cell. */
  function PiecesOf(cells: set<string>): set<string>
  {
    set c, p | c in cells && p in Split(c, ',') :: p
  }

  /** The term set of `column`: every piece of every non-null cell of the column. */
  function TermSet(t: Table, column: string): set<string>
  {
    PiecesOf(NonNullCells(t, column))
  }

  /**
   * A term is a comma-separated piece of some non-null cell of the column,
   * and every piece of every non-null cell is a term.
   */
  lemma TermSetMembership(t: Table, column: string, term: string)
    ensures term in TermSet(t, column) <==>
      exists i :: 0 <= i < |t.rows| && Cell(t.rows[i], column).Some? &&
                  term in Split(Cell(t.rows[i], column).value, ',')
  {
    if term in TermSet(t, column) {
      var c :| c in NonNullCells(t, column) && term in Split(c, ',');
      var i :| 0 <= i < |t.rows| && Cell(t.rows[i], column).Some? && Cell(t.rows[i], column).value == c;
    }
  }

  /** A row whose cell is null adds no term. */
  lemma NullCellAddsNoTerm(t: Table, column: string, row: Row)
    requires Cell(row, column).None?
    ensures TermSet(Table(t.columns, t.rows + [row]), column) == TermSet(t, column)
  {
    var t' := Table(t.columns, t.rows + [row]);
    assert forall i :: 0 <= i < |t.rows| ==> t'.rows[i] == t.rows[i];
    assert NonNullCells(t', column) == NonNullCells(t, column);
  }

  /** Splitting always yields a piece, so the terms are empty exactly when the cells are. */
  lemma PiecesEmpty(cells: set<string>)
    ensures PiecesOf(cells) == {} <==> cells == {}
  {
    if cells != {} {
      var c :| c in cells;
      var p := Split(c, ',')[0];
      assert p in Split(c, ',');
      assert p in PiecesOf(cells);
    }
  }

  /** Adding one cell adds exactly its pieces. */
  lemma PiecesOfAddedCell(cells: set<string>, c: string)
    ensures PiecesOf(cells + {c}) == PiecesOf(cells) + set p | p in Split(c, ',')
  {
  }

  /**
   * `list(s)` for a Python set: the elements of `s`, each once, in an order
   * the language does not fix. The order is left to the nondeterministic
   * choice of the next element.
   */
  method Enumerate(s: set<string>) returns (order: seq<string>)
    ensures |order| == |s|
    ensures forall x :: x in order <==> x in s
    ensures forall i, j :: 0 <= i < j < |order| ==> order[i] != order[j]
  {
    order := [];
    var rest := s;
    while rest != {}
      invariant rest <= s
      invariant forall x :: x in order <==> x in s && x !in rest
      invariant |order| + |rest| == |s|
      invariant forall i, j :: 0 <= i < j < |order| ==> order[i] != order[j]
      decreases |rest|
    {
      var x :| x in rest;
      order := order + [x];
      rest := rest - {x};
    }
  }

  /** The loop that unions the comma-separated pieces of each cell. */
  method UnionOfPieces(cells: seq<string>) returns (terms: set<string>)
    ensures terms == PiecesOf(set k | 0 <= k < |cells| :: cells[k])
  {
    terms := {};
    for i := 0 to |cells|
      invariant terms == PiecesOf(set k | 0 <= k < i :: cells[k])
    {
      PiecesOfAddedCell(set k | 0 <= k < i :: cells[k], cells[i]);
      assert (set k | 0 <= k < i + 1 :: cells[k]) == (set k | 0 <= k < i :: cells[k]) + {cells[i]};
      terms := terms + set p | p in Split(cells[i], ',');
    }
  }

  /** The outputs of the term callback: one option list for both dropdowns, and their values. */
  datatype TermsUpdate = TermsUpdate(options: seq<Choice>, group1: string, group2: string)

  /**
   * The term callback. A column the table lacks raises KeyError. Otherwise
   * the options are the term set of the column, each once; group 1 defaults
   * to the first option and group 2 to the last, which coincide exactly when
   * there is a single term. A column with no non-null cell has no term and
   * taking the first one raises IndexError.
   */
  method DetermineTerms(metadata: Table, column: string) returns (r: Result<TermsUpdate>)
    ensures column !in metadata.columns ==> r == Failure(KeyError(column))
    ensures column in metadata.columns ==>
      (r.Failure? <==> NonNullCells(metadata, column) == {})
    ensures column in metadata.columns && r.Failure? ==> r.error == IndexError
    ensures r.Success? ==>
      var terms := TermSet(metadata, column);
      var options := r.value.options;
      && |options| == |terms| && options != []
      && (forall x :: x in terms <==> Choice(x, x) in options)
      && (forall k :: 0 <= k < |options| ==> options[k].caption == options[k].value)
      && r.value.group1 == options[0].value && r.value.group1 in terms
      && r.value.group2 == options[|options| - 1].value && r.value.group2 in terms
      && (r.value.group1 == r.value.group2 <==> |terms| == 1)
  {
    if column !in metadata.columns {
      return Failure(KeyError(column));
    }
    var cells := NonNullCells(metadata, column);
    var mergedTerms := Enumerate(cells);
    var termsToConsider := UnionOfPieces(mergedTerms);
    assert (set k | 0 <= k < |mergedTerms| :: mergedTerms[k]) == cells;
    PiecesEmpty(cells);

    var order := Enumerate(termsToConsider);
    var options := OptionsFor(order);
    var first := PyIndex(order, 0);
    var last := PyIndex(order, -1);
    if first.Failure? || last.Failure? {
      return Failure(IndexError);
    }
    forall x
      ensures x in termsToConsider <==> Choice(x, x) in options
    {
      if x in termsToConsider {
        var k :| 0 <= k < |order| && order[k] == x;
        assert options[k] == Choice(x, x);
      }
    }
    if |order| > 1 {
      assert order[0] != order[|order| - 1];
    }
    return Success(TermsUpdate(options, first.value, last.value));
  }

  // ---------------------------------------------------------------------
  // Group to USI string

  /**
   * The universal spectrum identifier of scan 1 of one file of a task: it
   * starts with the task's prefix, ends with the scan suffix, and the path
   * can be read back from between them.
   */
  function FormatUsi(task: string, path: string): (usi: string)
    ensures UsiPrefix + task + UsiFileMarker <= usi
    ensures |usi| == |UsiPrefix + task + UsiFileMarker| + |path| + |UsiSuffix|
    ensures usi[|usi| - |UsiSuffix|..] == UsiSuffix
    ensures usi[|UsiPrefix + task + UsiFileMarker|..|usi| - |UsiSuffix|] == path
  {
    var head := UsiPrefix + task + UsiFileMarker;
    var usi := head + path + UsiSuffix;
    assert usi == head + (path + UsiSuffix);
    assert usi[|head|..|usi| - |UsiSuffix|] == path;
    usi
  }

  /** Recovers the file part of a USI of `task`, if `usi` has that shape. */
  function ParseUsi(task: string, usi: string): (path: Option<string>)
    ensures path.Some? ==> FormatUsi(task, path.value) == usi
  {
    var head := UsiPrefix + task + UsiFileMarker;
    if |head| + |UsiSuffix| <= |usi| && usi[..|head|] == head && usi[|usi| - |UsiSuffix|..] == UsiSuffix then
      var path := usi[|head|..|usi| - |UsiSuffix|];
      assert usi == head + path + UsiSuffix;
      Some(path)
    else
      None
  }

  /** Parsing a formatted USI gives back the file path. */
  lemma UsiRoundTrip(task: string, path: string)
    ensures ParseUsi(task, FormatUsi(task, path)) == Some(path)
  {
    var head := UsiPrefix + task + UsiFileMarker;
    var usi := FormatUsi(task, path);
    assert usi == head + path + UsiSuffix;
    assert usi[..|head|] == head;
    assert usi[|usi| - |UsiSuffix|..] == UsiSuffix;
    assert usi[|head|..|usi| - |UsiSuffix|] == path;
  }

  /**
   * How `str.format` renders a cell: its text, or "nan" for NaN. A NaN path
   * and the literal path "nan" render alike, and nothing else renders as
   * "nan".
   */
  function CellText(cell: Option<string>): (text: string)
    ensures cell.Some? ==> text == cell.value
    ensures text == "nan" <==> cell == None || cell == Some("nan")
  {
    match cell
    case Some(text) => text
    case None => "nan"
  }

  /**
   * Adds the `filename` column to the file statistics table: the base name
   * of each row's full path. A table without the path column raises
   * KeyError; a NaN path raises TypeError in `os.path.basename`.
   */
  function WithFilenames(filesummary: Table): (r: Result<Table>)
    ensures PathColumn !in filesummary.columns ==> r == Failure(KeyError(PathColumn))
    ensures r.Success? <==> PathColumn in filesummary.columns && PathsPresent(filesummary.rows)
    ensures r.Failure? && PathColumn in filesummary.columns ==> r.error == TypeError
    ensures r.Success? ==>
      && (forall c :: c in r.value.columns <==> c in filesummary.columns || c == FilenameColumn)
      && |r.value.rows| == |filesummary.rows|
      && (forall i :: 0 <= i < |filesummary.rows| ==>
            Cell(r.value.rows[i], FilenameColumn) == Some(Basename(Cell(filesummary.rows[i], PathColumn).value)))
      && (forall i, c :: 0 <= i < |filesummary.rows| && c != FilenameColumn ==>
            Cell(r.value.rows[i], c) == Cell(filesummary.rows[i], c))
  {
    if PathColumn !in filesummary.columns then
      Failure(KeyError(PathColumn))
    else if !PathsPresent(filesummary.rows) then
      Failure(TypeError)
    else
      var columns := if FilenameColumn in filesummary.columns then filesummary.columns
                     else filesummary.columns + [FilenameColumn];
      Success(Table(columns, NamedRows(filesummary.rows)))
  }

  /** No row has a NaN path. */
  predicate PathsPresent(rows: seq<Row>)
  {
    forall i :: 0 <= i < |rows| ==> Cell(rows[i], PathColumn).Some?
  }

  /** Each row with its `filename` cell set to the base name of its path. */
  function NamedRows(rows: seq<Row>): (named: seq<Row>)
    requires PathsPresent(rows)
    ensures |named| == |rows|
    ensures forall i :: 0 <= i < |rows| ==>
      Cell(named[i], FilenameColumn) == Some(Basename(Cell(rows[i], PathColumn).value))
    ensures forall i, c :: 0 <= i < |rows| && c != FilenameColumn ==> Cell(named[i], c) == Cell(rows[i], c)
  {
    seq(|rows|, i requires 0 <= i < |rows| =>
      rows[i][FilenameColumn := Some(Basename(Cell(rows[i], PathColumn).value))])
  }

  /** The metadata left-merged with the file statistics on `filename`. */
  function JoinedTable(metadata: Table, filesummary: Table): (r: Result<Table>)
    ensures WithFilenames(filesummary).Failure? ==> r == WithFilenames(filesummary)
    ensures WithFilenames(filesummary).Success? && FilenameColumn !in metadata.columns ==>
      r == Failure(KeyError(FilenameColumn))
    ensures r.Success? <== WithFilenames(filesummary).Success? && FilenameColumn in metadata.columns
    ensures r.Success? ==>
      && r.value.rows == LeftJoin(metadata.rows, WithFilenames(filesummary).value.rows, FilenameColumn)
      && forall c :: c in r.value.columns <==> c in metadata.columns || c in filesummary.columns || c == FilenameColumn
  {
    match WithFilenames(filesummary)
    case Failure(e) => Failure(e)
    case Success(files) => Merge(metadata, files, FilenameColumn)
  }

  /** The USIs of the files of one group, in join order. */
  function GroupUsis(task: string, column: string, term: string, metadata: Table, filesummary: Table)
    : (r: Result<seq<string>>)
    ensures r.Success? <==>
      JoinedTable(metadata, filesummary).Success? && column in JoinedTable(metadata, filesummary).value.columns
    ensures JoinedTable(metadata, filesummary).Failure? ==> r == Failure(JoinedTable(metadata, filesummary).error)
    ensures JoinedTable(metadata, filesummary).Success? && r.Failure? ==> r.error == KeyError(column)
    ensures r.Success? ==>
      var rows := JoinedTable(metadata, filesummary).value.rows;
      var idx := FilterIndices(rows, KeyEquals(column, Some(term)));
      && |r.value| == |idx| == |Selected(rows, KeyEquals(column, Some(term)))|
      && forall k :: 0 <= k < |idx| ==>
        r.value[k] == FormatUsi(task, CellText(Cell(rows[idx[k]], PathColumn)))
  {
    match JoinedTable(metadata, filesummary)
    case Failure(e) => Failure(e)
    case Success(joined) =>
      if column !in joined.columns then Failure(KeyError(column))
      else
        var kept := Filter(joined.rows, KeyEquals(column, Some(term)));
        FilterAt(joined.rows, KeyEquals(column, Some(term)));
        FilterCountsSelected(joined.rows, KeyEquals(column, Some(term)));
        Success(seq(|kept|, k requires 0 <= k < |kept| => FormatUsi(task, CellText(Cell(kept[k], PathColumn)))))
  }

  /** Every row of the table has a cell, possibly NaN, under each of its columns. */
  ghost predicate Rectangular(t: Table)
  {
    forall i, c :: 0 <= i < |t.rows| && c in t.columns ==> c in t.rows[i]
  }

  /**
   * Group resolution compares whole cells with the term: a group is empty
   * when no metadata row holds exactly the term, even when the term is a
   * comma-separated piece of some cell and so offered as a term.
   */
  lemma GroupNeedsExactCell(task: string, column: string, term: string, metadata: Table, filesummary: Table)
    requires Rectangular(metadata) && column in metadata.columns
    requires GroupUsis(task, column, term, metadata, filesummary).Success?
    requires forall i :: 0 <= i < |metadata.rows| ==> Cell(metadata.rows[i], column) != Some(term)
    ensures GroupUsis(task, column, term, metadata, filesummary).value == []
  {
    var files := WithFilenames(filesummary).value;
    var rows := JoinedTable(metadata, filesummary).value.rows;
    LeftJoinOrigin(metadata.rows, files.rows, FilenameColumn);
    forall j | 0 <= j < |rows|
      ensures !KeyEquals(column, Some(term))(rows[j])
    {
      var i :| 0 <= i < |metadata.rows| && Extends(rows[j], metadata.rows[i]);
      assert column in metadata.rows[i];
    }
    assert Selected(rows, KeyEquals(column, Some(term))) == {};
  }

  /**
   * `_get_group_usi_string`: the group's USIs joined by newlines. It is
   * empty when no row matches, and splitting it on newlines gives the USIs
   * back when there is at least one and none contains a newline.
   */
  function GroupUsiString(task: string, column: string, term: string, metadata: Table, filesummary: Table)
    : (r: Result<string>)
    ensures r.Success? <==> GroupUsis(task, column, term, metadata, filesummary).Success?
    ensures r.Failure? ==> r.error == GroupUsis(task, column, term, metadata, filesummary).error
    ensures r.Success? ==>
      var usis := GroupUsis(task, column, term, metadata, filesummary).value;
      && (usis == [] ==> r.value == "")
      && (usis != [] && (forall k :: 0 <= k < |usis| ==> '\n' !in usis[k]) ==> Split(r.value, '\n') == usis)
  {
    match GroupUsis(task, column, term, metadata, filesummary)
    case Failure(e) => Failure(e)
    case Success(usis) =>
      var text := Join(usis, '\n');
      assert usis != [] && (forall k :: 0 <= k < |usis| ==> '\n' !in usis[k]) ==> Split(text, '\n') == usis by {
        if usis != [] && (forall k :: 0 <= k < |usis| ==> '\n' !in usis[k]) {
          SplitOfJoin(usis, '\n');
        }
      }
      Success(text)
  }

  // ---------------------------------------------------------------------
  // Link parameters

  /** A query parameter value: text, a number, or the retention-time window `low-high`. */
  datatype ParamValue = Text(text: string) | Number(number: real) | RtWindow(low: real, high: real)

  /** A row of the feature table as the grid hands it over. */
  type FeatureRow = map<string, real>

  /** An insertion-ordered Python dict of query parameters. */
  type Params = seq<(string, ParamValue)>

  /** The keys of `params`, in insertion order. */
  function Keys(params: Params): seq<string>
  {
    seq(|params|, k requires 0 <= k < |params| => params[k].0)
  }

  /** `params.get(key)`. */
  function Lookup(params: Params, key: string): Option<ParamValue>
  {
    if params == [] then None
    else if params[0].0 == key then Some(params[0].1)
    else Lookup(params[1..], key)
  }

  /**
   * `params[key] = value`: a new key goes last, an existing key keeps its
   * place and takes the new value; no other entry changes.
   */
  function Assign(params: Params, key: string, value: ParamValue): (r: Params)
    ensures Lookup(r, key) == Some(value)
    ensures forall other :: other != key ==> Lookup(r, other) == Lookup(params, other)
    ensures Keys(r) == if key in Keys(params) then Keys(params) else Keys(params) + [key]
    decreases |params|
  {
    if params == [] then [(key, value)]
    else if params[0].0 == key then
      assert Keys(params) == [key] + Keys(params[1..]);
      assert Keys([(key, value)] + params[1..]) == [key] + Keys(params[1..]);
      [(key, value)] + params[1..]
    else
      var rest := Assign(params[1..], key, value);
      assert Keys(params) == [params[0].0] + Keys(params[1..]);
      assert Keys([params[0]] + rest) == [params[0].0] + Keys(rest);
      [params[0]] + rest
  }

  /**
   * What the parameter-filling part of `create_link` yields for the two USI
   * strings and the grid's rows and selection: success when nothing is
   * selected; IndexError when the first selected index is outside the data;
   * KeyError for a missing "precursor mass" or "RTMean" column of that row.
   * On success the keys are `usi`, `usi2`, then `xicmz` and
   * `xic_rt_window` exactly when a row is selected, holding the two USI
   * strings, the row's precursor mass and its mean retention time minus and
   * plus one.
   */
  ghost predicate LinkParams(r: Result<Params>, usi1: string, usi2: string,
                             featureData: seq<FeatureRow>, selected: seq<int>)
  {
    && (|selected| == 0 ==> r.Success?)
    && (|selected| > 0 && PyIndex(featureData, selected[0]).Failure? ==> r == Failure(IndexError))
    && (|selected| > 0 && PyIndex(featureData, selected[0]).Success? ==>
          var row := PyIndex(featureData, selected[0]).value;
          && ("precursor mass" !in row ==> r == Failure(KeyError("precursor mass")))
          && ("precursor mass" in row && "RTMean" !in row ==> r == Failure(KeyError("RTMean")))
          && ("precursor mass" in row && "RTMean" in row ==> r.Success?))
    && (r.Success? ==>
          && Keys(r.value) == ["usi", "usi2"] + (if |selected| > 0 then ["xicmz", "xic_rt_window"] else [])
          && Lookup(r.value, "usi") == Some(Text(usi1))
          && Lookup(r.value, "usi2") == Some(Text(usi2))
          && (Lookup(r.value, "xicmz").Some? <==> |selected| > 0)
          && (Lookup(r.value, "xic_rt_window").Some? <==> |selected| > 0))
    && (r.Success? && |selected| > 0 ==>
          var row := PyIndex(featureData, selected[0]).value;
          && Lookup(r.value, "xicmz") == Some(Number(row["precursor mass"]))
          && Lookup(r.value, "xic_rt_window") == Some(RtWindow(row["RTMean"] - 1.0, row["RTMean"] + 1.0)))
  }

  /**
   * The parameter-filling part of `create_link`: `usi` and `usi2` always;
   * with a selected row, `xicmz` and `xic_rt_window` as `AddFeatureWindow`
   * adds them. Only the first selected index is used, and a selected index
   * outside the data raises IndexError.
   */
  method BuildParams(usi1: string, usi2: string, featureData: seq<FeatureRow>, selected: seq<int>)
    returns (r: Result<Params>)
    ensures LinkParams(r, usi1, usi2, featureData, selected)
  {
    DistinctParamKeys();
    var urlParams: Params := [];
    urlParams := Assign(urlParams, "usi", Text(usi1));
    urlParams := Assign(urlParams, "usi2", Text(usi2));
    assert Keys(urlParams) == ["usi", "usi2"];
    if |selected| == 0 {
      KeysLookup(urlParams, "xicmz");
      KeysLookup(urlParams, "xic_rt_window");
      return Success(urlParams);
    }
    var picked := PyIndex(featureData, selected[0]);
    if picked.Failure? {
      return Failure(picked.error);
    }
    r := AddFeatureWindow(urlParams, picked.value);
  }

  /**
   * The selected-row part of `create_link`: `xicmz` takes the row's
   * precursor mass, then `xic_rt_window` its mean retention time minus and
   * plus one; a row without either column raises KeyError for it. The
   * entries already present keep their values.
   */
  method AddFeatureWindow(params: Params, row: FeatureRow) returns (r: Result<Params>)
    requires Keys(params) == ["usi", "usi2"]
    ensures "precursor mass" !in row ==> r == Failure(KeyError("precursor mass"))
    ensures "precursor mass" in row && "RTMean" !in row ==> r == Failure(KeyError("RTMean"))
    ensures r.Success? <==> "precursor mass" in row && "RTMean" in row
    ensures r.Success? ==>
      && Keys(r.value) == ["usi", "usi2", "xicmz", "xic_rt_window"]
      && Lookup(r.value, "usi") == Lookup(params, "usi")
      && Lookup(r.value, "usi2") == Lookup(params, "usi2")
      && Lookup(r.value, "xicmz") == Some(Number(row["precursor mass"]))
      && Lookup(r.value, "xic_rt_window") == Some(RtWindow(row["RTMean"] - 1.0, row["RTMean"] + 1.0))
  {
    DistinctParamKeys();
    if "precursor mass" !in row {
      return Failure(KeyError("precursor mass"));
    }
    var urlParams := Assign(params, "xicmz", Number(row["precursor mass"]));
    assert Keys(urlParams) == ["usi", "usi2", "xicmz"];
    if "RTMean" !in row {
      return Failure(KeyError("RTMean"));
    }
    var rt := row["RTMean"];
    urlParams := Assign(urlParams, "xic_rt_window", RtWindow(rt - 1.0, rt + 1.0));
    return Success(urlParams);
  }

  /** The four parameter names are pairwise distinct. */
  lemma DistinctParamKeys()
    ensures "usi" != "usi2" && "usi" != "xicmz" && "usi" != "xic_rt_window"
    ensures "usi2" != "xicmz" && "usi2" != "xic_rt_window" && "xicmz" != "xic_rt_window"
    ensures "xicmz" !in ["usi", "usi2"] && "xic_rt_window" !in ["usi", "usi2", "xicmz"]
  {
    assert |"usi"| == 3 && |"usi2"| == 4 && |"xicmz"| == 5 && |"xic_rt_window"| == 13;
    assert "xicmz"[0] != "usi"[0] && "xic_rt_window"[0] != "usi"[0];
  }

  /**
   * `create_link`. The grid hands over its rows and its selection, each
   * `None` until the table reports them. The debug print takes the length
   * of the rows first, so missing rows raise TypeError before anything else.
   * Then both groups' USI strings are resolved, and a failure resolving
   * group 1 is raised. A missing selection raises TypeError when its length
   * is taken. Otherwise the parameters are those of `LinkParams`.
   */
  method CreateLink(task: string, column: string, term1: string, term2: string,
                    metadata: Table, filesummary: Table,
                    featureData: Option<seq<FeatureRow>>, selected: Option<seq<int>>)
    returns (r: Result<Params>)
    ensures featureData.None? ==> r == Failure(TypeError)
    ensures featureData.Some? && GroupUsiString(task, column, term1, metadata, filesummary).Failure? ==>
      r == Failure(GroupUsiString(task, column, term1, metadata, filesummary).error)
    ensures featureData.Some? && GroupUsiString(task, column, term1, metadata, filesummary).Success? ==>
      && (selected.None? ==> r == Failure(TypeError))
      && (selected.Some? ==>
            LinkParams(r, GroupUsiString(task, column, term1, metadata, filesummary).value,
                       GroupUsiString(task, column, term2, metadata, filesummary).value,
                       featureData.value, selected.value))
  {
    if featureData.None? {
      return Failure(TypeError);
    }
    var group1 := GroupUsiString(task, column, term1, metadata, filesummary);
    if group1.Failure? {
      return Failure(group1.error);
    }
    var group2 := GroupUsiString(task, column, term2, metadata, filesummary);
    GroupFailureIgnoresTerm(task, column, term1, term2, metadata, filesummary);
    if selected.None? {
      return Failure(TypeError);
    }
    r := BuildParams(group1.value, group2.value, featureData.value, selected.value);
  }

  /**
   * Whether resolving a group fails depends on the tables and the column,
   * not on the term: both groups of one link fail or succeed together.
   */
  lemma GroupFailureIgnoresTerm(task: string, column: string, term1: string, term2: string,
                                metadata: Table, filesummary: Table)
    ensures GroupUsiString(task, column, term1, metadata, filesummary).Success? <==>
            GroupUsiString(task, column, term2, metadata, filesummary).Success?
    ensures GroupUsiString(task, column, term1, metadata, filesummary).Failure? ==>
      GroupUsiString(task, column, term1, metadata, filesummary).error ==
      GroupUsiString(task, column, term2, metadata, filesummary).error
  {
  }

  /** A key is present in the dict exactly when it is among its keys. */
  lemma {:induction false} KeysLookup(params: Params, key: string)
    ensures Lookup(params, key).Some? <==> key in Keys(params)
    decreases |params|
  {
    if params != [] {
      KeysLookup(params[1..], key);
      assert Keys(params) == [params[0].0] + Keys(params[1..]);
    }
  }
}
