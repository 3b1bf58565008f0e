/** The decisions `Merger` makes around its I/O: naming the SQLite database,
    choosing the input files, refusing an empty selection, deciding per file
    whether the header rows must be collapsed, and naming the output table.

    Reading a CSV file, the aggregation routine and the SQL engine stay outside
    the model: the reader and the aggregator are function parameters, the
    engine is known only by the URL it was created for, and each append to a
    table is recorded as an `Append` value instead of being performed. */
module MergeToDb {
  import opened Results
  import opened PyText
  import ColFuncs

  /** Extension every database file name is given. */
  const SqliteSuffix := ".sqlite"
  /** Scheme prefix of an SQLAlchemy SQLite URL for a file path. */
  const HandlePrefix := "sqlite:///"
  /** Extension of the input files. */
  const CsvSuffix := ".csv"
  /** Suffix of the table that aggregated rows go to. */
  const AggSuffix := "_agg"

  /** Database name `create_db` uses when none is given. */
  const DefaultDbName := "results"

  /** Text after the path in the `Warning` raised for an existing database. */
  const AlreadyExists := "' already exists, database will be extended"
  /** `to_db`'s message when several header rows give flat columns. */
  const NotMultiIndexed := "Multiple headers selected, yet dataframe is not multi-indexed"
  /** `to_db_agg`'s message for the same case. Its literal is continued with a
      backslash inside the string, so the 38 spaces that indent the next source
      line are part of the message. */
  const AggNotMultiIndexed :=
    "Multiple headers selected, yet dataframe is not"
    + "                                      "
    + "multi-indexed"

  /** The engine `create_engine` builds; only the URL it was given is visible. */
  datatype Engine = Engine(url: string)

  /** The state of a `Merger`: the discovered file paths, and the database
      handle and engine, both `None` until `create_db` succeeds. */
  datatype Merger = Merger(filePaths: seq<string>, dbHandle: Option<string>, engine: Option<Engine>)

  /** A statement's effect on the merger together with whether it raised. */
  datatype Step = Step(merger: Merger, outcome: Outcome)

  /** The `header` argument handed to the CSV reader: a row number, a list of
      row numbers, or `None`. */
  datatype Header = Row(n: int) | Rows(ns: seq<int>) | NoHeader

  /** Column labels of a data frame: plain names, or one list of labels per
      column when the header spans several rows. */
  datatype Columns = Flat(names: seq<string>) | MultiIndex(labels: seq<seq<string>>)

  /** A data frame: its column labels and its rows of cell text. */
  datatype Frame = Frame(columns: Columns, rows: seq<seq<string>>)

  /** One `to_sql(..., if_exists="append")` call that went through: the engine
      used, the table name and the frame appended. */
  datatype Append = Append(engine: Engine, table: string, frame: Frame)

  /** The arguments of one `utils.aggregate` call. `prefix` is `None` when the
      caller leaves it to the aggregator's default, and `options` holds the
      keyword arguments forwarded to it. */
  datatype AggregateCall = AggregateCall(
    frame: Frame, on: string, aggMethod: string, prefix: Option<bool>, options: map<string, string>)

  /** A merger as `__init__` leaves it once the walk has produced `filePaths`. */
  function NewMerger(filePaths: seq<string>): Merger {
    Merger(filePaths, None, None)
  }

  // ---------------------------------------------------------------------------
  // create_db
  // ---------------------------------------------------------------------------

  /** `os.path.join(a, b)` on POSIX: an absolute `b` replaces `a`; otherwise a
      single `/` is inserted unless `a` is empty or already ends with one. */
  function PathJoin(a: string, b: string): (r: string)
    ensures EndsWith(r, b)
    ensures StartsWith(b, "/") ==> r == b
    ensures !StartsWith(b, "/") ==>
      && |a| + |b| <= |r| && StartsWith(r, a)
      && var between := r[|a|..|r| - |b|];
         && (between == "/" <==> a != [] && !EndsWith(a, "/"))
         && (between == [] <==> a == [] || EndsWith(a, "/"))
  {
    if StartsWith(b, "/") then b
    else if a == [] || EndsWith(a, "/") then a + b
    else a + "/" + b
  }

  /** The database file name `create_db` uses: `name` itself when it already
      ends in `.sqlite`, otherwise `name` with `.sqlite` appended. */
  function DbFileName(name: string): (r: string)
    ensures EndsWith(r, SqliteSuffix)
    ensures StartsWith(r, name)
    ensures r == name <==> EndsWith(name, SqliteSuffix)
    ensures !EndsWith(name, SqliteSuffix) ==> r == name + SqliteSuffix
  {
    if EndsWith(name, SqliteSuffix) then name else name + SqliteSuffix
  }

  /** `create_db(location, db_name)`. `existing` is the set of paths that are
      files. If the database file exists a `Warning` is raised before anything
      is assigned; otherwise the handle and the engine are set. */
  function CreateDb(m: Merger, location: string, dbName: string, existing: set<string>): (r: Step)
    ensures var path := PathJoin(location, DbFileName(dbName));
      && (r.outcome.Fail? <==> path in existing)
      && (r.outcome.Fail? ==> r.merger == m && r.outcome.error == Warning(path + AlreadyExists))
      && (r.outcome.Pass? ==>
            && r.merger.filePaths == m.filePaths
            && r.merger.dbHandle == Some(HandlePrefix + path)
            && r.merger.engine == Some(Engine(HandlePrefix + path)))
  {
    var path := PathJoin(location, DbFileName(dbName));
    if path in existing then
      Step(m, Fail(Warning(path + AlreadyExists)))
    else
      var handle := HandlePrefix + path;
      Step(m.(dbHandle := Some(handle), engine := Some(Engine(handle))), Pass)
  }

  /** A successful `create_db` leaves a handle that is an SQLite URL naming a
      `.sqlite` file, and an engine created for exactly that handle. */
  lemma CreateDbHandle(m: Merger, location: string, dbName: string, existing: set<string>)
    requires CreateDb(m, location, dbName, existing).outcome.Pass?
    ensures var r := CreateDb(m, location, dbName, existing).merger;
      && r.dbHandle.Some? && StartsWith(r.dbHandle.value, HandlePrefix)
      && EndsWith(r.dbHandle.value, SqliteSuffix)
      && r.engine == Some(Engine(r.dbHandle.value))
  {
    var name := DbFileName(dbName);
    var path := PathJoin(location, name);
    var handle := HandlePrefix + path;
    EndsWithTrans(path, name, SqliteSuffix);
    EndsWithAfter(HandlePrefix, path, SqliteSuffix);
    assert handle[..|HandlePrefix|] == HandlePrefix;
  }

  /** Putting something in front of a string keeps its suffixes. */
  lemma EndsWithAfter(a: string, b: string, c: string)
    requires EndsWith(b, c)
    ensures EndsWith(a + b, c)
  {
    assert (a + b)[|a + b| - |c|..] == b[|b| - |c|..];
  }

  /** A string ending in `b`, where `b` ends in `c`, ends in `c`. */
  lemma EndsWithTrans(a: string, b: string, c: string)
    requires EndsWith(a, b) && EndsWith(b, c)
    ensures EndsWith(a, c)
  {
    assert a[|a| - |c|..] == a[|a| - |b|..][|b| - |c|..];
  }

  /** Normalising a database name twice is normalising it once. */
  lemma DbFileNameIdempotent(name: string)
    ensures DbFileName(DbFileName(name)) == DbFileName(name)
  {
  }

  /** The default name `results` becomes `results.sqlite`. */
  lemma DefaultDbFileName()
    ensures DbFileName(DefaultDbName) == DefaultDbName + SqliteSuffix
  {
  }

  /** Passing an already normalised name to `create_db` changes nothing. */
  lemma CreateDbNormalisedName(m: Merger, location: string, dbName: string, existing: set<string>)
    ensures CreateDb(m, location, DbFileName(dbName), existing) == CreateDb(m, location, dbName, existing)
  {
    DbFileNameIdempotent(dbName);
  }

  /** The documentation of `create_db` says an existing database is acted on
      rather than overwritten, and the message says it will be extended. But
      the `Warning` is raised before the handle and the engine are set, so a
      fresh merger pointed at an existing database is left without an engine,
      and every later append on it fails. */
  lemma CreateDbExistingLeavesNoEngine(paths: seq<string>, location: string, dbName: string, existing: set<string>)
    requires PathJoin(location, DbFileName(dbName)) in existing
    ensures var r := CreateDb(NewMerger(paths), location, dbName, existing);
      r.outcome.Fail? && r.merger.dbHandle.None? && r.merger.engine.None?
  {
  }

  /** `create_db` as documented: the handle and the engine are set whether or
      not the database file exists, and an existing file only yields the
      warning message, reported next to the merger instead of raised. */
  function CreateDbExtending(m: Merger, location: string, dbName: string, existing: set<string>)
    : (r: (Merger, Option<string>))
    ensures var path := PathJoin(location, DbFileName(dbName));
      && r.0.filePaths == m.filePaths
      && r.0.dbHandle == Some(HandlePrefix + path)
      && r.0.engine == Some(Engine(HandlePrefix + path))
      && (r.1.Some? <==> path in existing)
      && (r.1.Some? ==> r.1.value == path + AlreadyExists)
  {
    var path := PathJoin(location, DbFileName(dbName));
    var handle := HandlePrefix + path;
    (m.(dbHandle := Some(handle), engine := Some(Engine(handle))),
     if path in existing then Some(path + AlreadyExists) else None)
  }

  /** Where the database file does not exist yet, the documented behaviour and
      the code agree; where it does, only the documented one has an engine. */
  lemma CreateDbExtendingAgrees(m: Merger, location: string, dbName: string, existing: set<string>)
    ensures var path := PathJoin(location, DbFileName(dbName));
      && (path !in existing ==>
            CreateDbExtending(m, location, dbName, existing).0 == CreateDb(m, location, dbName, existing).merger)
      && (path in existing ==>
            CreateDbExtending(m, location, dbName, existing).0.engine.Some?
            && CreateDb(m, location, dbName, existing).merger.engine == m.engine)
  {
  }

  // ---------------------------------------------------------------------------
  // Selecting the input files
  // ---------------------------------------------------------------------------

  /** The paths `to_db` and `to_db_agg` process: those ending with
      `select + ".csv"`, in their original order. */
  function SelectPaths(paths: seq<string>, select: string): (r: seq<string>)
    ensures forall f :: f in r <==> f in paths && EndsWith(f, select + CsvSuffix)
    ensures |r| <= |paths|
  {
    if paths == [] then []
    else if EndsWith(paths[0], select + CsvSuffix) then [paths[0]] + SelectPaths(paths[1..], select)
    else SelectPaths(paths[1..], select)
  }

  /** `idx` places every element of `xs` at a strictly later position of `ys`
      than the one before it: `xs` is an order-preserving subsequence of `ys`. */
  ghost predicate SubsequenceAt<T>(xs: seq<T>, ys: seq<T>, idx: seq<int>) {
    && |idx| == |xs|
    && (forall k :: 0 <= k < |idx| ==> 0 <= idx[k] < |ys| && xs[k] == ys[idx[k]])
    && (forall k, l :: 0 <= k < l < |idx| ==> idx[k] < idx[l])
  }

  /** The selected paths appear in the input in the same order: the lemma
      returns the position of each selected path in the input. */
  lemma {:induction false} SelectPathsInOrder(paths: seq<string>, select: string)
    returns (idx: seq<int>)
    ensures SubsequenceAt(SelectPaths(paths, select), paths, idx)
  {
    if paths == [] {
      idx := [];
    } else {
      var tail := SelectPathsInOrder(paths[1..], select);
      var shifted := SubsequenceShift(SelectPaths(paths[1..], select), paths, tail);
      if EndsWith(paths[0], select + CsvSuffix) {
        idx := SubsequenceCons(SelectPaths(paths[1..], select), paths, shifted);
      } else {
        idx := shifted;
      }
    }
  }

  /** Positions in the tail of `ys` are positions in `ys`, one further on. */
  lemma SubsequenceShift<T>(xs: seq<T>, ys: seq<T>, idx: seq<int>) returns (shifted: seq<int>)
    requires ys != [] && SubsequenceAt(xs, ys[1..], idx)
    ensures SubsequenceAt(xs, ys, shifted)
    ensures forall k :: 0 <= k < |shifted| ==> shifted[k] >= 1
  {
    shifted := seq(|idx|, k requires 0 <= k < |idx| => idx[k] + 1);
    forall k | 0 <= k < |idx|
      ensures xs[k] == ys[shifted[k]]
    {
      assert ys[1..][idx[k]] == ys[idx[k] + 1];
    }
  }

  /** The head of `ys`, placed at position 0, extends a subsequence that uses
      only later positions. */
  lemma SubsequenceCons<T>(xs: seq<T>, ys: seq<T>, idx: seq<int>) returns (ext: seq<int>)
    requires ys != [] && SubsequenceAt(xs, ys, idx)
    requires forall k :: 0 <= k < |idx| ==> idx[k] >= 1
    ensures SubsequenceAt([ys[0]] + xs, ys, ext)
  {
    ext := [0] + idx;
    var zs := [ys[0]] + xs;
    forall k | 0 <= k < |ext|
      ensures 0 <= ext[k] < |ys| && zs[k] == ys[ext[k]]
    {
      if k > 0 {
        assert ext[k] == idx[k - 1] && zs[k] == xs[k - 1];
      }
    }
    forall k, l | 0 <= k < l < |ext|
      ensures ext[k] < ext[l]
    {
      if k > 0 {
        assert ext[k] == idx[k - 1] && ext[l] == idx[l - 1];
      } else {
        assert ext[l] == idx[l - 1];
      }
    }
  }

  /** Each path is selected exactly as many times as it occurs in the input
      when it has the suffix, and never otherwise. */
  lemma {:induction false} SelectPathsCounts(paths: seq<string>, select: string, f: string)
    ensures multiset(SelectPaths(paths, select))[f] ==
            if EndsWith(f, select + CsvSuffix) then multiset(paths)[f] else 0
  {
    if paths != [] {
      SelectPathsCounts(paths[1..], select, f);
      assert paths == [paths[0]] + paths[1..];
    }
  }

  /** Selecting again with the same suffix keeps every path. */
  lemma {:induction false} SelectPathsIdempotent(paths: seq<string>, select: string)
    ensures SelectPaths(SelectPaths(paths, select), select) == SelectPaths(paths, select)
  {
    if paths != [] {
      SelectPathsIdempotent(paths[1..], select);
    }
  }

  // ---------------------------------------------------------------------------
  // Header dispatch
  // ---------------------------------------------------------------------------

  /** `header == 0 or header == [0]`: a single header row, so no collapsing. */
  predicate SingleHeaderRow(h: Header) {
    h == Row(0) || h == Rows([0])
  }

  /** The columns a frame is written with. With a single header row the frame
      is used as read; otherwise multi-indexed columns are replaced by their
      collapsed names (default separator), and flat columns raise `ValueError`
      with `notMulti` as message. */
  function CollapseHeaders(header: Header, f: Frame, notMulti: string): (r: Result<Frame>)
    ensures r.Err? <==> !SingleHeaderRow(header) && !f.columns.MultiIndex?
    ensures r.Err? ==> r.error == ValueError(notMulti)
    ensures r.Ok? ==> r.value.rows == f.rows
    ensures SingleHeaderRow(header) ==> r == Ok(f)
    ensures r.Ok? && !SingleHeaderRow(header) ==>
      && r.value.columns.Flat?
      && |r.value.columns.names| == |f.columns.labels|
      && (forall i :: 0 <= i < |f.columns.labels| ==>
            r.value.columns.names[i] == Strip(Join(ColFuncs.DefaultSep, f.columns.labels[i])))
  {
    if SingleHeaderRow(header) then Ok(f)
    else if f.columns.MultiIndex? then
      Ok(Frame(Flat(ColFuncs.Collapse(f.columns.labels, ColFuncs.DefaultSep)), f.rows))
    else Err(ValueError(notMulti))
  }

  /** What `to_db_agg` appends for one frame: the frame, collapsed as
      `CollapseHeaders` says, passed to the aggregator. With a single header
      row the call carries `prefix` and no other options; otherwise it carries
      the caller's keyword options and leaves `prefix` to the aggregator's
      default. */
  function AggregateFrame(
    header: Header, f: Frame, on: string, aggMethod: string, prefix: bool,
    options: map<string, string>, aggregate: AggregateCall -> Frame): (r: Result<Frame>)
    ensures r.Err? <==> CollapseHeaders(header, f, AggNotMultiIndexed).Err?
    ensures r.Err? ==> r.error == ValueError(AggNotMultiIndexed)
    ensures SingleHeaderRow(header) ==>
      r == Ok(aggregate(AggregateCall(f, on, aggMethod, Some(prefix), map[])))
    ensures !SingleHeaderRow(header) && r.Ok? ==>
      r == Ok(aggregate(AggregateCall(CollapseHeaders(header, f, AggNotMultiIndexed).value,
                                      on, aggMethod, None, options)))
  {
    match CollapseHeaders(header, f, AggNotMultiIndexed)
    case Err(e) => Err(e)
    case Ok(g) =>
      if SingleHeaderRow(header) then Ok(aggregate(AggregateCall(g, on, aggMethod, Some(prefix), map[])))
      else Ok(aggregate(AggregateCall(g, on, aggMethod, None, options)))
  }

  // ---------------------------------------------------------------------------
  // to_db and to_db_agg
  // ---------------------------------------------------------------------------

  /** Message of the `ValueError` raised when no file matches. */
  function NoFilesMessage(select: string): string {
    "No files found matching '" + select + "'"
  }

  /** The per-file loop of `to_db` and `to_db_agg`: each file in turn is loaded
      and appended to `table`. The first load that raises stops the loop, and
      so does the first append attempted without an engine; the appends made
      before either stay made. */
  method AppendEach(files: seq<string>, engine: Option<Engine>, table: string, load: string -> Result<Frame>)
    returns (written: seq<Append>, outcome: Outcome)
    ensures |written| <= |files|
    ensures engine.None? ==> written == []
    ensures forall k :: 0 <= k < |written| ==>
      load(files[k]).Ok? && engine == Some(written[k].engine)
      && written[k] == Append(engine.value, table, load(files[k]).value)
    ensures outcome.Pass? <==>
      (files == [] || engine.Some?) && forall k :: 0 <= k < |files| ==> load(files[k]).Ok?
    ensures outcome.Pass? ==> |written| == |files|
    ensures outcome.Fail? ==>
      && |written| < |files|
      && if load(files[|written|]).Err? then outcome.error == load(files[|written|]).error
         else engine.None? && outcome.error == NoEngine
  {
    written := [];
    var i := 0;
    while i < |files|
      invariant i <= |files| && |written| == i
      invariant engine.None? ==> i == 0
      invariant forall k :: 0 <= k < i ==>
        load(files[k]).Ok? && engine == Some(written[k].engine)
        && written[k] == Append(engine.value, table, load(files[k]).value)
    {
      match load(files[i])
      case Err(e) =>
        outcome := Fail(e);
        return;
      case Ok(frame) =>
        if engine.None? {
          outcome := Fail(NoEngine);
          return;
        }
        written := written + [Append(engine.value, table, frame)];
      i := i + 1;
    }
    outcome := Pass;
  }

  /** `to_db(select, header)` (by default `select` is `DATA` and `header` is
      `0`): the selected files, each with its headers collapsed when needed,
      appended to the table named `select` through the merger's engine. `read`
      stands for reading one file with the given header rows. */
  method ToDb(m: Merger, select: string, header: Header, read: string -> Frame)
    returns (written: seq<Append>, outcome: Outcome)
    ensures var files := SelectPaths(m.filePaths, select);
      && (files == [] ==> written == [] && outcome == Fail(ValueError(NoFilesMessage(select))))
      && (m.engine.None? ==> written == [])
      && |written| <= |files|
      && (forall k :: 0 <= k < |written| ==>
            && written[k].table == select && m.engine == Some(written[k].engine)
            && CollapseHeaders(header, read(files[k]), NotMultiIndexed) == Ok(written[k].frame))
      && (outcome.Pass? <==>
            && files != [] && m.engine.Some?
            && (SingleHeaderRow(header) || forall k :: 0 <= k < |files| ==> read(files[k]).columns.MultiIndex?))
      && (outcome.Pass? ==> |written| == |files|)
      && (outcome.Fail? && files != [] ==>
            && |written| < |files|
            && if SingleHeaderRow(header) || read(files[|written|]).columns.MultiIndex?
               then m.engine.None? && outcome.error == NoEngine
               else outcome.error == ValueError(NotMultiIndexed))
  {
    var files := SelectPaths(m.filePaths, select);
    if |files| == 0 {
      return [], Fail(ValueError(NoFilesMessage(select)));
    }
    written, outcome := AppendEach(files, m.engine, select, f => CollapseHeaders(header, read(f), NotMultiIndexed));
  }

  /** `to_db_agg(select, header, by, method, prefix, **options)` (by default
      `DATA`, `0`, `Image_ImageNumber`, `median` and `False`): like `ToDb`, but
      each frame is aggregated before it is appended, and the table is named
      `select + "_agg"`. */
  method ToDbAgg(
    m: Merger, select: string, header: Header, on: string, aggMethod: string, prefix: bool,
    options: map<string, string>, read: string -> Frame, aggregate: AggregateCall -> Frame)
    returns (written: seq<Append>, outcome: Outcome)
    ensures var files := SelectPaths(m.filePaths, select);
      && (files == [] ==> written == [] && outcome == Fail(ValueError(NoFilesMessage(select))))
      && (m.engine.None? ==> written == [])
      && |written| <= |files|
      && (forall k :: 0 <= k < |written| ==>
            && written[k].table == select + AggSuffix && m.engine == Some(written[k].engine)
            && AggregateFrame(header, read(files[k]), on, aggMethod, prefix, options, aggregate)
               == Ok(written[k].frame))
      && (outcome.Pass? <==>
            && files != [] && m.engine.Some?
            && (SingleHeaderRow(header) || forall k :: 0 <= k < |files| ==> read(files[k]).columns.MultiIndex?))
      && (outcome.Pass? ==> |written| == |files|)
      && (outcome.Fail? && files != [] ==>
            && |written| < |files|
            && if SingleHeaderRow(header) || read(files[|written|]).columns.MultiIndex?
               then m.engine.None? && outcome.error == NoEngine
               else outcome.error == ValueError(AggNotMultiIndexed))
  {
    var files := SelectPaths(m.filePaths, select);
    if |files| == 0 {
      return [], Fail(ValueError(NoFilesMessage(select)));
    }
    written, outcome := AppendEach(files, m.engine, select + AggSuffix,
      f => AggregateFrame(header, read(f), on, aggMethod, prefix, options, aggregate));
  }
}
