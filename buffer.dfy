/**
 * The write buffer `ClickhouseBuffer` (src/index.ts). Rows pushed by the
 * application are serialised and kept in memory; when `maxRowsInMemory` of
 * them have gathered they are detached and, on the next turn of the event
 * loop, written as segment files to the staging directory. The names of the
 * staged files, and the number of rows they hold, are kept until a load
 * condition (elapsed time or staged rows) is met, when the whole list is
 * detached and handed to a load.
 *
 * `setImmediate` and `setInterval` are not modelled as timers: `Push` and
 * `MaxTimeHandler` return the flush they schedule, and the caller runs it
 * with `FlushToFiles`. The clocks (`Date.now()`, `hrtime`) are parameters.
 */
module Buffer {
  import opened Wrappers
  import opened Strings
  import opened Codec
  import opened Rows
  import opened FileNames
  import opened Segments

  datatype Conditions = Conditions(maxTime: Option<int>, maxRows: Option<int>)

  datatype FieldSettings = FieldSettings(name: string)

  /** The constructor's options, without the ClickHouse client settings. */
  datatype Options = Options(
    database: Option<string>,
    table: string,
    maxRowsInMemory: Option<int>,
    maxRowsPerFile: Option<int>,
    maxFilesPerLoad: Option<int>,
    directoryPath: string,
    fsMode: Option<int>,
    conditions: Option<Conditions>,
    fields: Option<seq<FieldSettings>>,
    compressed: Option<CompressionFormat>,
    compressedFiles: Option<CompressionFormat>)

  /** The settings a buffer runs with once the defaults are filled in. */
  datatype Config = Config(
    directoryPath: string,
    fsMode: int,
    database: string,
    table: string,
    fields: Option<seq<FieldSettings>>,
    compressed: Option<CompressionFormat>,
    compressedFiles: Option<CompressionFormat>,
    maxRowsPerFile: int,
    maxRowsInMemory: int,
    maxFilesPerLoad: int,
    conditions: Conditions)

  /** `DEFAULT_DATABASE` of the ClickHouse client package. */
  const DefaultDatabase: string := "default"

  /** The file mode `0o777`. */
  const FsModeDefault: int := 0x1FF

  /** `if (options.x)` on a number: set and not zero. */
  predicate Truthy(x: Option<int>) {
    x.Some? && x.value != 0
  }

  function OrDefault(x: Option<int>, default: int): int {
    if Truthy(x) then x.value else default
  }

  /** The field initialisers and the constructor's overrides. */
  function Configure(o: Options): Config {
    Config(
      directoryPath := o.directoryPath,
      fsMode := OrDefault(o.fsMode, FsModeDefault),
      database := if o.database.Some? then o.database.value else DefaultDatabase,
      table := o.table,
      fields := o.fields,
      compressed := o.compressed,
      compressedFiles := o.compressedFiles,
      maxRowsPerFile := OrDefault(o.maxRowsPerFile, 1000),
      maxRowsInMemory := OrDefault(o.maxRowsInMemory, 1000),
      maxFilesPerLoad := OrDefault(o.maxFilesPerLoad, 100),
      conditions := if o.conditions.Some? then o.conditions.value else Conditions(Some(5000), None))
  }

  /** Options the model accepts: a row count per file that is absent, zero (so the default) or positive. */
  predicate SupportedOptions(o: Options) {
    o.maxRowsPerFile.None? || o.maxRowsPerFile.value >= 0
  }

  /**
   * With only the table and the directory given, a buffer keeps 1000 rows in
   * memory and per file, 100 files per load, mode 0o777, the default database
   * and a five-second time condition.
   */
  lemma ConfigureDefaults(table: string, directoryPath: string)
    ensures var c := Configure(Options(None, table, None, None, None, directoryPath, None, None, None, None, None));
      && c.maxRowsInMemory == 1000 && c.maxRowsPerFile == 1000 && c.maxFilesPerLoad == 100
      && c.fsMode == FsModeDefault && c.database == "default"
      && c.conditions == Conditions(Some(5000), None)
  {
  }

  /** A number option replaces its default exactly when it is truthy; a zero falls back to the default. */
  lemma ConfigureOverrides(o: Options)
    ensures Configure(o).maxRowsPerFile == if Truthy(o.maxRowsPerFile) then o.maxRowsPerFile.value else 1000
    ensures Configure(o).maxRowsInMemory == if Truthy(o.maxRowsInMemory) then o.maxRowsInMemory.value else 1000
    ensures Configure(o).maxFilesPerLoad == if Truthy(o.maxFilesPerLoad) then o.maxFilesPerLoad.value else 100
    ensures Configure(o).fsMode == if Truthy(o.fsMode) then o.fsMode.value else FsModeDefault
    ensures SupportedOptions(o) ==> Configure(o).maxRowsPerFile > 0
  {
  }

  function Quote(name: string): string {
    "\"" + name + "\""
  }

  function QuotedNames(fields: seq<FieldSettings>): (r: seq<string>)
    ensures |r| == |fields|
  {
    seq(|fields|, i requires 0 <= i < |fields| => Quote(fields[i].name))
  }

  /** The column list: empty without fields, otherwise the quoted names in parentheses. */
  function Columns(fields: Option<seq<FieldSettings>>): string {
    if fields.None? then "" else " (" + Join(QuotedNames(fields.value), ',') + ")"
  }

  function InsertStatement(c: Config): string {
    "INSERT INTO " + Quote(c.database) + "." + Quote(c.table) + Columns(c.fields) + " FORMAT JSONCompactEachRow"
  }

  /**
   * The column list names every field in order: between the parentheses it
   * splits on `,` back into the quoted names, when no name holds a comma.
   */
  lemma ColumnsRoundTrip(fields: seq<FieldSettings>)
    requires |fields| > 0
    requires forall i :: 0 <= i < |fields| ==> ',' !in fields[i].name
    ensures var s := Columns(Some(fields));
      && |s| >= 3 && s[..2] == " (" && s[|s| - 1] == ')'
      && Split(s[2..|s| - 1], ',') == QuotedNames(fields)
  {
    var names := QuotedNames(fields);
    forall i | 0 <= i < |names|
      ensures ',' !in names[i]
    {
      assert names[i] == "\"" + fields[i].name + "\"";
    }
    SplitJoin(names, ',');
    var s := Columns(Some(fields));
    assert s[2..|s| - 1] == Join(names, ',');
  }

  /** An empty field list is truthy: it gives an empty pair of parentheses, not no list. */
  lemma ColumnsOfNoFields()
    ensures Columns(Some([])) == " ()"
    ensures Columns(None) == ""
  {
  }

  /** The statement of the field-settings test, piece by piece. */
  lemma InsertStatementExample(o: Options)
    requires o.database == Some("default") && o.table == "fieldSettings0"
    requires o.fields == Some([FieldSettings("id")])
    ensures InsertStatement(Configure(o))
      == "INSERT INTO " + "\"default\"" + "." + "\"fieldSettings0\"" + " (\"id\")" + " FORMAT JSONCompactEachRow"
  {
    var c := Configure(o);
    assert c.database == "default" && c.table == "fieldSettings0" && c.fields == Some([FieldSettings("id")]);
    QuotesOfExample();
    ColumnsOfId();
  }

  lemma QuotesOfExample()
    ensures Quote("default") == "\"default\"" && Quote("fieldSettings0") == "\"fieldSettings0\""
  {
  }

  lemma ColumnsOfId()
    ensures Columns(Some([FieldSettings("id")])) == " (\"id\")"
  {
    var names := QuotedNames([FieldSettings("id")]);
    assert names[0] == "\"id\"";
    assert names == ["\"id\""];
    assert Join(names, ',') == "\"id\"";
  }

  /** `isConditionMet`: enough time since the last load, or enough rows staged. */
  predicate ConditionMet(c: Conditions, elapsed: int, rowsInFiles: nat) {
    (Truthy(c.maxTime) && elapsed >= c.maxTime.value) || (Truthy(c.maxRows) && rowsInFiles >= c.maxRows.value)
  }

  /** A met condition stays met as time passes and rows are staged. */
  lemma ConditionMetMonotone(c: Conditions, e1: int, e2: int, r1: nat, r2: nat)
    requires e1 <= e2 && r1 <= r2
    ensures ConditionMet(c, e1, r1) ==> ConditionMet(c, e2, r2)
  {
  }

  /** Without a truthy limit nothing ever triggers a load, in particular with `conditions: {}`. */
  lemma NoConditionNeverMet(c: Conditions, elapsed: int, rowsInFiles: nat)
    requires !Truthy(c.maxTime) && !Truthy(c.maxRows)
    ensures !ConditionMet(c, elapsed, rowsInFiles)
  {
  }

  /** A flush scheduled with `setImmediate(flushToFiles, self, rows, checkConditions)`. */
  datatype ScheduledFlush = ScheduledFlush(rows: seq<string>, checkConditions: bool)

  class ClickhouseBuffer {
    const config: Config
    /** The statement every load sends, built once from the settings. */
    const insertStatement: string := InsertStatement(config)
    /** The staging directory the segment files are written to. */
    const disk: Disk

    var rows: seq<string>
    var files: seq<string>
    var statsRowsInFiles: nat
    var lastLoadDate: int
    /** Whether the `maxTime` interval is running. */
    var intervalActive: bool
    /** The number of rows of each staged file. */
    ghost var fileRows: seq<nat>

    /**
     * Every staged name carries its file's row count and the counter of staged
     * rows is their sum, memory never holds a full batch, and files are cut in
     * positive sizes.
     */
    ghost predicate Valid()
      reads this
    {
      && StagingValid()
      && (|rows| < config.maxRowsInMemory || rows == [])
    }

    /** Everything `Valid` says except the bound on the rows in memory. */
    ghost predicate StagingValid()
      reads this
    {
      && RowCounts(files, fileRows) && Sum(fileRows) == statsRowsInFiles
      && config.maxRowsPerFile > 0
      && (intervalActive ==> Truthy(config.conditions.maxTime))
    }

    /** `new ClickhouseBuffer(options)` at time `now`, staging into `disk`. */
    constructor (options: Options, now: int, disk: Disk)
      requires SupportedOptions(options)
      ensures Valid()
      ensures config == Configure(options) && this.disk == disk
      ensures rows == [] && files == [] && statsRowsInFiles == 0 && lastLoadDate == now
      ensures intervalActive == Truthy(config.conditions.maxTime)
    {
      var c := Configure(options);
      config := c;
      this.disk := disk;
      rows, files, statsRowsInFiles, lastLoadDate := [], [], 0, now;
      fileRows := [];
      intervalActive := Truthy(c.conditions.maxTime);
    }

    /** `resetRows()`: detaches the rows in memory. */
    method ResetRows() returns (detached: seq<string>)
      requires StagingValid()
      modifies this`rows
      ensures Valid()
      ensures detached == old(rows) && rows == []
    {
      detached := rows;
      rows := [];
    }

    /** `resetFiles()`: detaches the staged names and zeroes their row counter. */
    method ResetFiles() returns (detached: seq<string>)
      requires Valid()
      modifies this`files, this`statsRowsInFiles, this`fileRows
      ensures Valid()
      ensures detached == old(files) && files == [] && statsRowsInFiles == 0
      ensures FileNames.RowsInFiles(detached) == Some(old(statsRowsInFiles))
    {
      RowCountsTotal(files, fileRows);
      detached := files;
      files := [];
      statsRowsInFiles := 0;
      fileRows := [];
    }

    /**
     * `push(row)`: normalises the caller's row in place, appends its
     * serialisation, and once `maxRowsInMemory` rows have gathered detaches
     * them and schedules their flush, with the condition check on exactly
     * when a row condition is set.
     */
    method Push(row: array<Column>) returns (scheduled: Option<ScheduledFlush>)
      requires Valid()
      modifies this`rows, row
      ensures Valid()
      ensures row[..] == NormalizeRow(old(row[..])) && Normalized(row[..])
      ensures var pushed := old(rows) + [Stringify(row[..])];
        if |pushed| >= config.maxRowsInMemory then
          rows == [] && scheduled == Some(ScheduledFlush(pushed, Truthy(config.conditions.maxRows)))
        else
          rows == pushed && scheduled == None
    {
      var rowValue := FmtRow(row);
      rows := rows + [rowValue];
      scheduled := None;
      if |rows| >= config.maxRowsInMemory {
        var detached := ResetRows();
        scheduled := Some(ScheduledFlush(detached, Truthy(config.conditions.maxRows)));
      }
    }

    /** `maxTimeHandler(self)`: each tick detaches the rows in memory and, if there are any, schedules their flush with the check on. */
    method MaxTimeHandler() returns (scheduled: Option<ScheduledFlush>)
      requires Valid()
      modifies this`rows
      ensures Valid()
      ensures rows == []
      ensures scheduled == if old(rows) == [] then None else Some(ScheduledFlush(old(rows), true))
    {
      var detached := ResetRows();
      scheduled := None;
      if |detached| > 0 {
        scheduled := Some(ScheduledFlush(detached, true));
      }
    }

    /** `isConditionMet(self)` at time `now`. */
    predicate IsConditionMet(now: int)
      reads this
    {
      ConditionMet(config.conditions, now - lastLoadDate, statsRowsInFiles)
    }

    /**
     * `flushToFiles(self, batch, checkConditions)`: stages the batch as
     * segment files and records their names and rows; then, when asked to and
     * a condition is met, detaches every staged name and returns them as the
     * load to schedule, unless there are none. `now` is the clock read by the
     * condition check, `nowMs` and `hrtime` the clocks of the sort key.
     */
    method FlushToFiles(batch: seq<string>, checkConditions: bool, now: int, nowMs: int, hrtime: nat)
      returns (load: Option<seq<string>>)
      requires Valid()
      modifies this`files, this`statsRowsInFiles, this`fileRows, disk
      ensures Valid()
      ensures var staged := Names(SortKey(nowMs, hrtime), Chunks(batch, config.maxRowsPerFile), config.compressedFiles);
        var all := old(files) + staged;
        var total := old(statsRowsInFiles) + |batch|;
        if checkConditions && ConditionMet(config.conditions, now - lastLoadDate, total) then
          files == [] && statsRowsInFiles == 0 && load == (if all == [] then None else Some(all))
        else
          files == all && statsRowsInFiles == total && load == None
      ensures disk.files == Written(old(disk.files),
                                    Names(SortKey(nowMs, hrtime), Chunks(batch, config.maxRowsPerFile), config.compressedFiles),
                                    Segments.Segments(Chunks(batch, config.maxRowsPerFile), config.compressedFiles))
      ensures load.Some? ==> RowCounts(load.value, old(fileRows) + Sizes(Chunks(batch, config.maxRowsPerFile)))
    {
      var staged := Stage(batch, nowMs, hrtime);
      load := DetachIfConditionMet(checkConditions, now);
    }

    /**
     * The start of `flushToFiles`: the batch is written as segment files, and
     * their names and rows are recorded together
     * (`self.files.push(...files); self.statsRowsInFiles += stats.rows`).
     */
    method Stage(batch: seq<string>, nowMs: int, hrtime: nat) returns (staged: seq<string>)
      requires Valid()
      modifies this`files, this`statsRowsInFiles, this`fileRows, disk
      ensures Valid()
      ensures staged == Names(SortKey(nowMs, hrtime), Chunks(batch, config.maxRowsPerFile), config.compressedFiles)
      ensures files == old(files) + staged && statsRowsInFiles == old(statsRowsInFiles) + |batch|
      ensures fileRows == old(fileRows) + Sizes(Chunks(batch, config.maxRowsPerFile))
      ensures disk.files == Written(old(disk.files), staged, Segments.Segments(Chunks(batch, config.maxRowsPerFile), config.compressedFiles))
    {
      var stats;
      staged, stats := RowsToFiles(batch, config.maxRowsPerFile, config.compressedFiles, nowMs, hrtime, disk);
      SizesSum(batch, config.maxRowsPerFile);
      Record(staged, stats.rows, Sizes(Chunks(batch, config.maxRowsPerFile)));
    }

    /**
     * The end of `flushToFiles`: when asked to and a condition is met, every
     * staged name is detached and, unless there are none, returned as the load.
     */
    method DetachIfConditionMet(checkConditions: bool, now: int) returns (load: Option<seq<string>>)
      requires Valid()
      modifies this`files, this`statsRowsInFiles, this`fileRows
      ensures Valid()
      ensures if checkConditions && old(IsConditionMet(now)) then
          files == [] && statsRowsInFiles == 0 && load == (if old(files) == [] then None else Some(old(files)))
        else
          files == old(files) && statsRowsInFiles == old(statsRowsInFiles) && load == None
      ensures load.Some? ==> RowCounts(load.value, old(fileRows))
    {
      load := None;
      if checkConditions && IsConditionMet(now) {
        var detached := ResetFiles();
        if |detached| > 0 {
          load := Some(detached);
        }
      }
    }

    /** Appends staged names whose row counts are `counts`, and adds their sum `n` to the counter. */
    method Record(staged: seq<string>, n: nat, ghost counts: seq<nat>)
      requires Valid() && RowCounts(staged, counts) && Sum(counts) == n
      modifies this`files, this`statsRowsInFiles, this`fileRows
      ensures Valid()
      ensures files == old(files) + staged && statsRowsInFiles == old(statsRowsInFiles) + n
      ensures fileRows == old(fileRows) + counts
    {
      RowCountsAppend(files, fileRows, staged, counts);
      SumAppend(fileRows, counts);
      files, statsRowsInFiles := files + staged, statsRowsInFiles + n;
      fileRows := fileRows + counts;
    }

    /**
     * The first step of `loadToDatabase`: the load is dated when it starts,
     * before anything is sent. `load` holds the names handed over by
     * `FlushToFiles`; sending and removing those files is not modelled.
     */
    method LoadToDatabase(load: seq<string>, now: int)
      requires Valid()
      modifies this`lastLoadDate
      ensures Valid()
      ensures lastLoadDate == now
    {
      lastLoadDate := now;
    }

    /** `release()`: stops the interval and flushes the rows in memory without checking conditions. */
    method Release(nowMs: int, hrtime: nat)
      requires Valid()
      modifies this`intervalActive, this`rows, this`files, this`statsRowsInFiles, this`fileRows, disk
      ensures Valid()
      ensures !intervalActive && rows == []
      ensures files == old(files) + Names(SortKey(nowMs, hrtime), Chunks(old(rows), config.maxRowsPerFile), config.compressedFiles)
      ensures statsRowsInFiles == old(statsRowsInFiles) + |old(rows)|
      ensures disk.files == Written(old(disk.files),
                                    Names(SortKey(nowMs, hrtime), Chunks(old(rows), config.maxRowsPerFile), config.compressedFiles),
                                    Segments.Segments(Chunks(old(rows), config.maxRowsPerFile), config.compressedFiles))
    {
      if Truthy(config.conditions.maxTime) {
        intervalActive := false;
      }
      var detached := ResetRows();
      var load := FlushToFiles(detached, false, lastLoadDate, nowMs, hrtime);
    }

    /** `rowsInMemory()`: under `maxRowsInMemory`, unless memory is empty. */
    function RowsInMemory(): (n: nat)
      requires Valid()
      reads this
      ensures n < config.maxRowsInMemory || n == 0
      ensures n == |rows|
    {
      |rows|
    }

    /** `filesInMemory()`: with no staged names there are no staged rows either. */
    function FilesInMemory(): (n: nat)
      requires Valid()
      reads this
      ensures n == |files|
      ensures n == 0 ==> statsRowsInFiles == 0
    {
      |files|
    }

    /** `rowsInFiles()`: the rows the staged names say they hold. */
    function RowsInFiles(): (n: nat)
      requires Valid()
      reads this
      ensures FileNames.RowsInFiles(files) == Some(n)
    {
      RowCountsTotal(files, fileRows);
      statsRowsInFiles
    }
  }

  /** Ten single-column rows for the row-condition scenario. */
  method NewRow(i: int) returns (row: array<Column>)
    ensures fresh(row) && row[..] == [Number(i)]
  {
    row := new Column[1](_ => Number(i));
  }

  /** The options of the row-condition test: ten rows in memory, a load after ten staged rows. */
  function MaxRowsOptions(): Options {
    Options(Some(DefaultDatabase), "events", Some(10), None, None, "buffer", None,
            Some(Conditions(None, Some(10))), None, None, None)
  }

  /** Nine pushes under the row-condition options stay in memory. */
  method PushNine(now: int) returns (buffer: ClickhouseBuffer)
    ensures fresh(buffer) && fresh(buffer.disk) && buffer.Valid()
    ensures buffer.config == Configure(MaxRowsOptions())
    ensures |buffer.rows| == 9 && buffer.files == [] && buffer.statsRowsInFiles == 0
    ensures buffer.lastLoadDate == now
  {
    var disk := new Disk(map[]);
    buffer := new ClickhouseBuffer(MaxRowsOptions(), now, disk);
    for i := 0 to 9
      invariant buffer.Valid() && fresh(buffer) && fresh(buffer.disk)
      invariant buffer.config == Configure(MaxRowsOptions())
      invariant |buffer.rows| == i && buffer.files == [] && buffer.statsRowsInFiles == 0
      invariant buffer.lastLoadDate == now
    {
      var row := NewRow(i);
      var scheduled := buffer.Push(row);
    }
  }

  /** The tenth push fills memory: the ten rows are detached as a batch whose flush checks the conditions. */
  method PushTenth(buffer: ClickhouseBuffer) returns (batch: seq<string>)
    requires buffer.Valid() && buffer.config == Configure(MaxRowsOptions())
    requires |buffer.rows| == 9 && buffer.files == [] && buffer.statsRowsInFiles == 0
    modifies buffer
    ensures buffer.Valid() && |batch| == 10
    ensures buffer.rows == [] && buffer.files == [] && buffer.statsRowsInFiles == 0
    ensures buffer.lastLoadDate == old(buffer.lastLoadDate)
  {
    var row := NewRow(9);
    var scheduled := buffer.Push(row);
    batch := scheduled.value.rows;
    assert scheduled.value.checkConditions;
  }

  /** Flushing the ten rows stages one file of ten rows, meets the row condition and hands the file to a load. */
  method FlushTen(buffer: ClickhouseBuffer, batch: seq<string>, now: int, nowMs: int, hrtime: nat)
    returns (load: Option<seq<string>>)
    requires buffer.Valid() && buffer.config == Configure(MaxRowsOptions()) && |batch| == 10
    requires buffer.rows == [] && buffer.files == [] && buffer.statsRowsInFiles == 0
    modifies buffer, buffer.disk
    ensures buffer.Valid() && load.Some? && RowCounts(load.value, [10])
    ensures buffer.rows == [] && buffer.files == [] && buffer.statsRowsInFiles == 0
  {
    load := buffer.FlushToFiles(batch, true, now, nowMs, hrtime);
    SingleSlice(batch, 1000);
  }

  /** A batch no larger than the file size makes one file holding all of it. */
  lemma SingleSlice(batch: seq<string>, k: nat)
    requires 0 < |batch| <= k
    ensures Sizes(Chunks(batch, k)) == [|batch|]
  {
    assert batch[..|batch|] == batch && batch[|batch|..] == [];
    assert Chunks(batch, k) == [batch];
  }

  /**
   * The row-condition test: with ten rows in memory and a ten-row condition,
   * nine pushes stay in memory; the tenth schedules a flush that stages one
   * file of ten rows and hands it straight to a load, leaving nothing in
   * memory or in files.
   */
  method MaxRowsScenario(now: int, nowMs: int, hrtime: nat)
    returns (afterNine: nat, filesAfterNine: nat, load: Option<seq<string>>,
             rowsInMemory: nat, filesInMemory: nat, rowsInFiles: nat)
    ensures afterNine == 9 && filesAfterNine == 0
    ensures load.Some? && RowCounts(load.value, [10])
    ensures rowsInMemory == 0 && filesInMemory == 0 && rowsInFiles == 0
  {
    var buffer := PushNine(now);
    afterNine := buffer.RowsInMemory();
    filesAfterNine := buffer.FilesInMemory();
    var batch := PushTenth(buffer);
    load := FlushTen(buffer, batch, now, nowMs, hrtime);
    rowsInMemory := buffer.RowsInMemory();
    filesInMemory := buffer.FilesInMemory();
    rowsInFiles := buffer.RowsInFiles();
  }
}
