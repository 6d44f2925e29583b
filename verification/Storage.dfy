/**
 Telemetry storage (data/storage.py and data/rotation.py): opening with retries, run ids,
 telemetry rows, run summaries and the forensic export that finds them again.

 The disk is shared by every storage instance. A telemetry file is pinned when an instance
 opens; `pins` remembers which file every run id was pinned to, `written` every telemetry row
 that was ever persisted, in order, and `lost` every file that was archived or deleted.
 */
module Storage {
  import opened Results
  import opened RunSequence

  datatype Path = Path(dir: string, base: string)

  datatype Settings = Settings(dataDir: string, telemetryOverride: Option<Path>)

  datatype Table = Measurements | EventLog

  datatype Row = Row(table: Table, runId: string, body: string)

  /** A run_summary row; rows older than the telemetry/index split name no telemetry file. */
  datatype Summary = Summary(sequenceNumber: Option<nat>, telemetryDb: Option<string>)

  datatype Failure = NotOpen | Locked | DatabaseError | OsFailure | DuplicateRun

  const OPEN_MAX_RETRIES: nat := 5

  /** What an instance is asked to do with its databases during a run. */
  datatype Op = NewRunNumber | InsertSummary | Insert(table: Table, body: string) | RecordState | FinishSummary | QueryIndex

  /** One of them, and the error it raised, if any. */
  datatype Statement = Statement(op: Op, refused: Option<Failure>)

  function Refusal<T>(r: Result<T, Failure>): Option<Failure> {
    if r.Err? then Some(r.error) else None
  }

  /** What a statement comes to: done, or an error raised, after which its row may have been kept nevertheless. */
  datatype Reply = Done | Failed(kept: bool)

  /** How far an attempt gets with the directories, the index file and the telemetry file. */
  datatype Files = Opened | NoDirectories | NoIndex(lockError: bool) | NoTelemetry(lockError: bool)

  /** The error of an attempt that did not reach both files. */
  ghost function FilesError(reached: Files): Failure
    requires reached != Opened
  {
    if reached.NoDirectories? then OsFailure else if reached.lockError then Locked else DatabaseError
  }

  /** Tries made one after the other, each but the last ended by a lock; the last comes out as `end`. */
  ghost predicate RetriedOnLocks(before: seq<Option<Failure>>, after: seq<Option<Failure>>, end: Option<Failure>, max: nat) {
    && before <= after && |before| < |after| <= |before| + max
    && after[|after| - 1] == end
    && (forall i :: |before| <= i < |after| - 1 ==> after[i] == Some(Locked))
    && (end == Some(Locked) ==> |after| == |before| + max)
  }

  /** `telemetry_database_file`. */
  function TelemetryFile(s: Settings, month: string): Path {
    match s.telemetryOverride
    case Some(path) => path
    case None => Path(s.dataDir, "nipxi_" + month + ".db")
  }

  /** Without an override every month has a file of its own in the data directory; with one, the month plays no part. */
  lemma MonthlyFiles(s: Settings, month: string, other: string)
    ensures s.telemetryOverride.None? ==>
              && TelemetryFile(s, month).dir == s.dataDir && "nipxi_" <= TelemetryFile(s, month).base
              && (TelemetryFile(s, month).base == TelemetryFile(s, other).base <==> month == other)
    ensures s.telemetryOverride.Some? ==> TelemetryFile(s, month) == s.telemetryOverride.value
  {
    if s.telemetryOverride.None? && TelemetryFile(s, month).base == TelemetryFile(s, other).base {
      var prefix := "nipxi_";
      var base := TelemetryFile(s, month).base;
      assert base[|prefix|..|base| - 3] == month;
      assert base[|prefix|..|base| - 3] == other;
    }
  }

  /** Where the export looks for a file that a run summary names. */
  function ExportPath(s: Settings, name: string): Path {
    Path(s.dataDir, name)
  }

  /** The export looks in a resolved file exactly when no override places that file outside the data directory. */
  lemma ExportFindsResolvedFile(s: Settings, month: string)
    ensures ExportPath(s, TelemetryFile(s, month).base) == TelemetryFile(s, month) <==>
            s.telemetryOverride.None? || s.telemetryOverride.value.dir == s.dataDir
  {
  }

  /** The rows of one run in one table, in order (`WHERE run_id = ? ORDER BY id`). */
  function RowsOf(rows: seq<Row>, table: Table, runId: string): seq<Row> {
    if rows == [] then []
    else
      var rest := RowsOf(rows[..|rows| - 1], table, runId);
      var last := rows[|rows| - 1];
      if last.table == table && last.runId == runId then rest + [last] else rest
  }

  lemma RowsOfAppend(rows: seq<Row>, row: Row, table: Table, runId: string)
    ensures RowsOf(rows + [row], table, runId) ==
            RowsOf(rows, table, runId) + if row.table == table && row.runId == runId then [row] else []
  {
    assert (rows + [row])[..|rows|] == rows;
  }

  /** Two row lists agree on one run. */
  ghost predicate SameRows(a: seq<Row>, b: seq<Row>, runId: string) {
    forall table :: RowsOf(a, table, runId) == RowsOf(b, table, runId)
  }

  lemma SameRowsAppend(a: seq<Row>, b: seq<Row>, row: Row, runId: string)
    requires SameRows(a, b, runId)
    ensures SameRows(a + [row], b + [row], runId)
    ensures row.runId != runId ==> SameRows(a, b + [row], runId)
  {
    forall table
      ensures RowsOf(a + [row], table, runId) == RowsOf(b + [row], table, runId)
      ensures row.runId != runId ==> RowsOf(a, table, runId) == RowsOf(b + [row], table, runId)
    {
      RowsOfAppend(a, row, table, runId);
      RowsOfAppend(b, row, table, runId);
    }
  }

  /** `a` can be had from `b` by leaving rows out. */
  ghost predicate Subsequence(a: seq<Row>, b: seq<Row>) {
    || a == []
    || (b != []
        && var shorter := b[..|b| - 1];
           Subsequence(a, shorter) || (a[|a| - 1] == b[|b| - 1] && Subsequence(a[..|a| - 1], shorter)))
  }

  /** What `a` holds of one run, `b` holds too, in the same order. */
  ghost predicate Genuine(a: seq<Row>, b: seq<Row>, runId: string) {
    forall table :: Subsequence(RowsOf(a, table, runId), RowsOf(b, table, runId))
  }

  lemma SubsequenceAppend(a: seq<Row>, b: seq<Row>, row: Row)
    requires Subsequence(a, b)
    ensures Subsequence(a, b + [row]) && Subsequence(a + [row], b + [row])
  {
    assert (b + [row])[..|b|] == b && (a + [row])[..|a|] == a;
  }

  lemma GenuineAppend(a: seq<Row>, b: seq<Row>, row: Row, runId: string)
    requires Genuine(a, b, runId)
    ensures Genuine(a + [row], b + [row], runId) && Genuine(a, b + [row], runId)
  {
    forall table
      ensures Subsequence(RowsOf(a + [row], table, runId), RowsOf(b + [row], table, runId))
      ensures Subsequence(RowsOf(a, table, runId), RowsOf(b + [row], table, runId))
    {
      RowsOfAppend(a, row, table, runId);
      RowsOfAppend(b, row, table, runId);
      SubsequenceAppend(RowsOf(a, table, runId), RowsOf(b, table, runId), row);
    }
  }

  // ------------------------------------------------------------------ disk

  /** Every pinned run id was made from its own number, below the counter. */
  ghost predicate Numbered(stationId: string, next: nat, pins: map<string, Path>, numbers: map<string, nat>) {
    && pins.Keys == numbers.Keys
    && (forall id {:trigger Labelled(stationId, id, numbers[id])} :: id in numbers ==> Labelled(stationId, id, numbers[id]))
    && (forall id :: id in numbers ==> numbers[id] < next)
  }

  ghost predicate Labelled(stationId: string, id: string, n: nat) {
    id == RunId(stationId, n)
  }

  /** A summary names the file its run was pinned to. */
  ghost predicate Named(summaries: map<string, Summary>, pins: map<string, Path>) {
    forall id :: id in summaries && summaries[id].telemetryDb.Some? ==>
                   id in pins && summaries[id].telemetryDb.value == pins[id].base
  }

  /**
   A pinned file that was never lost holds exactly the rows persisted for its runs, one made anew
   after it was lost some of them; rows of a run are nowhere else.
   */
  ghost predicate Located(telemetry: map<Path, seq<Row>>, lost: set<Path>, pins: map<string, Path>, written: seq<Row>) {
    && (forall id :: id in pins && pins[id] !in lost ==> pins[id] in telemetry)
    && (forall id {:trigger SameRows(telemetry[pins[id]], written, id)} ::
          id in pins && pins[id] !in lost ==> SameRows(telemetry[pins[id]], written, id))
    && (forall id {:trigger Genuine(telemetry[pins[id]], written, id)} ::
          id in pins && pins[id] in telemetry ==> Genuine(telemetry[pins[id]], written, id))
    && (forall id {:trigger SameRows(written, [], id)} :: id !in pins ==> SameRows(written, [], id))
    && (forall id, p {:trigger SameRows(telemetry[p], [], id)} ::
          p in telemetry && (id !in pins || pins[id] != p) ==> SameRows(telemetry[p], [], id))
  }

  lemma LocatedAfterPin(telemetry: map<Path, seq<Row>>, lost: set<Path>, pins: map<string, Path>, written: seq<Row>, id: string, p: Path)
    requires Located(telemetry, lost, pins, written) && id !in pins && (p in telemetry || p in lost)
    ensures Located(telemetry, lost, pins[id := p], written)
  {
    if p in telemetry {
      assert SameRows(telemetry[p], [], id) && SameRows(written, [], id);
    }
  }

  lemma LocatedAfterWrite(telemetry: map<Path, seq<Row>>, lost: set<Path>, pins: map<string, Path>, written: seq<Row>, row: Row)
    requires Located(telemetry, lost, pins, written) && row.runId in pins
    ensures var p := pins[row.runId];
            && (p in telemetry ==> Located(telemetry[p := telemetry[p] + [row]], lost, pins, written + [row]))
            && (p in lost ==> Located(telemetry, lost, pins, written + [row]))
  {
    var p := pins[row.runId];
    forall id | id in pins && pins[id] !in lost
      ensures SameRows(telemetry[pins[id]] + [row], written + [row], id)
      ensures row.runId != id ==> SameRows(telemetry[pins[id]], written + [row], id)
    {
      SameRowsAppend(telemetry[pins[id]], written, row, id);
    }
    forall id | id in pins && pins[id] in telemetry
      ensures Genuine(telemetry[pins[id]] + [row], written + [row], id)
      ensures Genuine(telemetry[pins[id]], written + [row], id)
    {
      GenuineAppend(telemetry[pins[id]], written, row, id);
    }
    forall id | id !in pins ensures SameRows(written + [row], [], id) {
      OtherRow(written, row, id);
    }
    forall id | p in telemetry && (id !in pins || pins[id] != p) ensures SameRows(telemetry[p] + [row], [], id) {
      OtherRow(telemetry[p], row, id);
    }
  }

  lemma OtherRow(a: seq<Row>, row: Row, id: string)
    requires SameRows(a, [], id) && row.runId != id
    ensures SameRows(a + [row], [], id)
  {
    forall table ensures RowsOf(a + [row], table, id) == RowsOf([], table, id) {
      RowsOfAppend(a, row, table, id);
    }
  }

  /** The index database and the telemetry files. */
  class Disk {
    const stationId: string
    var month: string
    var indexExists: bool
    var next: nat
    var summaries: map<string, Summary>
    var telemetry: map<Path, seq<Row>>
    var lost: set<Path>
    ghost var pins: map<string, Path>
    ghost var numbers: map<string, nat>
    ghost var written: seq<Row>

    constructor (stationId: string, month: string, next: nat)
      ensures Valid() && this.stationId == stationId && pins == map[] && written == []
    {
      this.stationId, this.month, this.next, indexExists := stationId, month, next, false;
      summaries, telemetry, lost := map[], map[], {};
      pins, numbers, written := map[], map[], [];
    }

    ghost predicate Valid()
      reads this
    {
      && Numbered(stationId, next, pins, numbers)
      && Named(summaries, pins)
      && Located(telemetry, lost, pins, written)
    }

    /** The calendar moves on. */
    method ChangeMonth(month: string)
      requires Valid()
      modifies `month
      ensures Valid() && this.month == month
    {
      this.month := month;
    }

    /** Someone archives or deletes a telemetry file. */
    method Archive(p: Path)
      requires Valid()
      modifies `telemetry, `lost
      ensures Valid() && p !in telemetry && lost == old(lost) + {p}
    {
      telemetry := telemetry - {p};
      lost := lost + {p};
    }

    /** An increment whose commit failed reaches the counter after all: its number is never handed out. */
    method BurnNumber()
      requires Valid()
      modifies `next
      ensures Valid() && next == old(next) + 1
    {
      next := next + 1;
    }

    /** Opening a telemetry file creates it with empty tables if it is not there. */
    method CreateTables(p: Path)
      requires Valid()
      modifies `telemetry
      ensures Valid() && p in telemetry
      ensures p in old(telemetry) ==> telemetry == old(telemetry)
    {
      if p !in telemetry {
        telemetry := telemetry[p := []];
      }
    }

    /** Registers a freshly numbered run as pinned to `p`; no run had this id before. */
    ghost method Pin(id: string, n: nat, p: Path)
      requires Valid() && (p in telemetry || p in lost)
      requires id == RunId(stationId, n) && n < next
      requires forall i :: i in numbers ==> numbers[i] < n
      modifies `pins, `numbers
      ensures Valid() && id !in old(pins)
      ensures pins == old(pins)[id := p] && numbers == old(numbers)[id := n]
    {
      assert id in numbers ==> Labelled(stationId, id, numbers[id]);
      if id in numbers { RunIdsDistinct(stationId, n, numbers[id]); }
      assert id !in pins;
      LocatedAfterPin(telemetry, lost, pins, written, id, p);
      pins, numbers := pins[id := p], numbers[id := n];
    }

    /** Persists one telemetry row for a run. Once its file is lost, the row may or may not reach the file now in its place. */
    method Append(p: Path, row: Row)
      requires Valid() && row.runId in pins && pins[row.runId] == p
      modifies `telemetry, `written
      ensures Valid() && written == old(written) + [row]
      ensures p !in lost ==> telemetry == old(telemetry)[p := old(telemetry)[p] + [row]]
    {
      LocatedAfterWrite(telemetry, lost, pins, written, row);
      var reaches: bool := *;
      if p in telemetry && (p !in lost || reaches) {
        telemetry := telemetry[p := telemetry[p] + [row]];
      }
      written := written + [row];
    }
  }

  /**
   After any history of the disk, a summarised run's rows, measurements and events alike, sit in
   the file its summary names, complete and in order unless that file was archived, and in no other file.
   */
  lemma RunSitsInItsFile(disk: Disk, id: string, table: Table, other: Path)
    requires disk.Valid() && id in disk.summaries && disk.summaries[id].telemetryDb.Some?
    ensures id in disk.pins && disk.pins[id].base == disk.summaries[id].telemetryDb.value
    ensures disk.pins[id] !in disk.lost ==>
              disk.pins[id] in disk.telemetry && RowsOf(disk.telemetry[disk.pins[id]], table, id) == RowsOf(disk.written, table, id)
    ensures other in disk.telemetry && other != disk.pins[id] ==> RowsOf(disk.telemetry[other], table, id) == []
  {
    if disk.pins[id] !in disk.lost {
      assert SameRows(disk.telemetry[disk.pins[id]], disk.written, id);
    }
    if other in disk.telemetry && other != disk.pins[id] {
      assert SameRows(disk.telemetry[other], [], id);
    }
  }

  // --------------------------------------------------------------- storage

  /** `DataStorage`: one instance, writing to the telemetry file it resolved when it was opened. */
  class DataStorage {
    const disk: Disk
    const settings: Settings
    var runId: Option<string>
    var sequenceNumber: Option<nat>
    var telemetryName: Option<string>
    var db: Option<Path>
    var indexOpen: bool

    // every statement of a run, every increment of the counter and every attempt to open, with its outcome,
    // and how far each attempt to open got with the files
    ghost var journal: seq<Statement>
    ghost var increments: seq<Option<Failure>>
    ghost var openings: seq<Option<Failure>>
    ghost var files: seq<Files>

    /** An open instance's run is numbered and pinned to the file the instance writes to. */
    ghost predicate Attached()
      reads this, disk
    {
      && (indexOpen <==> db.Some?)
      && (db.Some? ==>
            && runId.Some? && runId.value in disk.pins && disk.pins[runId.value] == db.value
            && sequenceNumber.Some? && disk.numbers.Keys == disk.pins.Keys
            && disk.numbers[runId.value] == sequenceNumber.value
            && telemetryName == Some(db.value.base))
    }

    constructor (disk: Disk, settings: Settings)
      ensures Attached() && this.disk == disk && this.settings == settings && !indexOpen && runId == None
      ensures journal == [] && increments == openings == [] && files == []
    {
      this.disk, this.settings := disk, settings;
      journal, increments, openings, files := [], [], [], [];
      runId, sequenceNumber, telemetryName, db, indexOpen := None, None, None, None, false;
    }

    /** Everything registered before is registered still, the same way. */
    twostate predicate DiskGrew()
      reads this, disk
    {
      && old(disk.next) <= disk.next
      && (forall id :: id in old(disk.pins) ==> id in disk.pins && disk.pins[id] == old(disk.pins)[id])
      && (forall id :: id in old(disk.numbers) ==> id in disk.numbers && disk.numbers[id] == old(disk.numbers)[id])
      && old(disk.written) <= disk.written
      && old(disk.summaries).Keys <= disk.summaries.Keys
    }

    /** One attempt at the counter transaction: it commits, hits a lock, or fails otherwise. */
    method Increment() returns (r: Result<nat, Failure>)
      requires disk.Valid()
      modifies disk`next, `increments
      ensures disk.Valid() && increments == old(increments) + [Refusal(r)]
      ensures r.Ok? ==> r.value == old(disk.next) && disk.next == old(disk.next) + 1
      ensures r.Err? ==> disk.next == old(disk.next) && (r.error == Locked || r.error == DatabaseError)
    {
      var committed, lockError: bool := *, *;
      r := Err(if lockError then Locked else DatabaseError);
      if committed {
        r := Ok(disk.next);
        disk.next := disk.next + 1;
      }
      increments := increments + [Refusal(r)];
    }

    /**
     `_allocate_sequence_number`: at most five attempts at the counter transaction, every one but the
     last ended by a lock. It gives up on locks only after all five, on any other error at once, and
     the loop cannot end in any other way.
     */
    method AllocateSequenceNumber() returns (r: Result<nat, Failure>)
      requires disk.Valid()
      modifies disk`next, `increments
      ensures disk.Valid()
      ensures !indexOpen ==> r == Err(NotOpen) && increments == old(increments)
      ensures r.Ok? ==> r.value == old(disk.next) && disk.next == old(disk.next) + 1
      ensures r.Err? ==> disk.next == old(disk.next) && (r.error == NotOpen || r.error == Locked || r.error == DatabaseError)
      ensures indexOpen ==> r != Err(NotOpen) && RetriedOnLocks(old(increments), increments, Refusal(r), MAX_RETRIES)
    {
      if !indexOpen {
        return Err(NotOpen);
      }
      var attempt := 0;
      while attempt < MAX_RETRIES
        invariant attempt < MAX_RETRIES && disk.Valid() && disk.next == old(disk.next)
        invariant old(increments) <= increments && |increments| == |old(increments)| + attempt
        invariant forall i :: |old(increments)| <= i < |increments| ==> increments[i] == Some(Locked)
        decreases MAX_RETRIES - attempt
      {
        r := Increment();
        if r.Ok? || r.error != Locked || attempt == MAX_RETRIES - 1 {
          return;
        }
        attempt := attempt + 1;
      }
      assert false;
    }

    /** `_new_run_id`: a run id nobody had before, pinned to the file this instance writes to. */
    method NewRunId(p: Path) returns (r: Result<string, Failure>)
      requires disk.Valid() && (p in disk.telemetry || p in disk.lost)
      modifies disk`next, disk`pins, disk`numbers, `sequenceNumber, `increments
      ensures disk.Valid() && DiskGrew()
      ensures r == Err(NotOpen) <==> !indexOpen
      ensures !indexOpen ==> increments == old(increments)
      ensures indexOpen ==> RetriedOnLocks(old(increments), increments, Refusal(r), MAX_RETRIES)
      ensures r.Ok? ==>
                && r.value !in old(disk.pins) && r.value in disk.pins && disk.pins[r.value] == p
                && sequenceNumber == Some(old(disk.next)) && r.value == RunId(disk.stationId, old(disk.next))
                && disk.next == old(disk.next) + 1 && disk.numbers[r.value] == old(disk.next)
      ensures r.Err? ==> sequenceNumber == old(sequenceNumber) && disk.pins == old(disk.pins) && disk.numbers == old(disk.numbers)
    {
      var n := AllocateSequenceNumber();
      if n.Err? {
        return Err(n.error);
      }
      sequenceNumber := Some(n.value);
      var id := RunId(disk.stationId, n.value);
      disk.Pin(id, n.value, p);
      return Ok(id);
    }

    /** `begin_new_run_id`: a fresh run on the same files. */
    method BeginNewRunId() returns (r: Result<string, Failure>)
      requires disk.Valid() && Attached()
      modifies disk`next, disk`pins, disk`numbers, `sequenceNumber, `runId, `increments, `journal
      ensures disk.Valid() && Attached() && DiskGrew()
      ensures journal == old(journal) + [Statement(NewRunNumber, Refusal(r))]
      ensures r.Ok? ==>
                && runId == Some(r.value) && r.value !in old(disk.pins)
                && r.value == RunId(disk.stationId, old(disk.next)) && disk.next == old(disk.next) + 1
      ensures r.Err? ==> runId == old(runId)
      ensures r == Err(NotOpen) <==> !indexOpen
      ensures indexOpen ==> RetriedOnLocks(old(increments), increments, Refusal(r), MAX_RETRIES)
    {
      if !indexOpen {
        r := Err(NotOpen);
      } else {
        if db.value !in disk.telemetry {
          assert db.value in disk.lost;
        }
        r := NewRunId(db.value);
        if r.Ok? {
          runId := Some(r.value);
        }
      }
      journal := journal + [Statement(NewRunNumber, Refusal(r))];
    }

    /** `_close_partial` and the connection part of `close`. */
    method CloseConnections()
      modifies `db, `indexOpen
      ensures db == None && !indexOpen
    {
      db, indexOpen := None, false;
    }

    /** The directories and the two files, as the operating system and the database let them be opened. */
    method Reach() returns (reached: Files)
      modifies `files
      ensures files == old(files) + [reached]
    {
      reached := *;
      files := files + [reached];
    }

    /** The connecting half of `_open_once`: both files are resolved once, here, and opened, as far as they can be reached. */
    method OpenFiles() returns (r: Result<Path, Failure>)
      requires disk.Valid()
      modifies `telemetryName, `indexOpen, `db, `files, disk`indexExists, disk`telemetry
      ensures disk.Valid() && |files| == |old(files)| + 1 && old(files) <= files
      ensures r.Ok? <==> files[|files| - 1] == Opened
      ensures r.Err? ==> r.error == FilesError(files[|files| - 1])
      ensures r.Ok? ==>
                && r.value == TelemetryFile(settings, disk.month) && r.value in disk.telemetry
                && indexOpen && db == Some(r.value) && telemetryName == Some(r.value.base)
    {
      var reached := Reach();
      if reached.NoDirectories? {
        return Err(OsFailure);
      }
      var path := TelemetryFile(settings, disk.month);
      telemetryName := Some(path.base);
      if reached.NoIndex? {
        return Err(if reached.lockError then Locked else DatabaseError);
      }
      indexOpen, disk.indexExists := true, true;
      if reached.NoTelemetry? {
        return Err(if reached.lockError then Locked else DatabaseError);
      }
      disk.CreateTables(path);
      db := Some(path);
      return Ok(path);
    }

    /** The numbering half of `_open_once`, over files that are open. */
    method FirstRun(p: Path) returns (r: Result<(), Failure>)
      requires disk.Valid() && p in disk.telemetry && indexOpen && db == Some(p) && telemetryName == Some(p.base)
      modifies disk`next, disk`pins, disk`numbers, `sequenceNumber, `runId, `increments
      ensures disk.Valid() && DiskGrew()
      ensures r.Ok? ==> Attached() && runId.Some? && runId.value !in old(disk.pins)
      ensures r.Err? ==> runId == old(runId) && r.error != NotOpen
      ensures |old(increments)| < |increments| && increments[|increments| - 1] == Refusal(r)
    {
      var id := NewRunId(p);
      if id.Err? {
        return Err(id.error);
      }
      runId := Some(id.value);
      return Ok(());
    }

    /** `_open_once`: the files, then the first run id. */
    method OpenOnce() returns (r: Result<(), Failure>)
      requires disk.Valid()
      modifies `telemetryName, `indexOpen, `db, `sequenceNumber, `runId, `increments, `openings, `files
      modifies disk`indexExists, disk`telemetry, disk`next, disk`pins, disk`numbers
      ensures disk.Valid() && DiskGrew()
      ensures openings == old(openings) + [Refusal(r)]
      ensures r.Ok? ==>
                && Attached() && db == Some(TelemetryFile(settings, disk.month))
                && runId.Some? && runId.value !in old(disk.pins)
      ensures r.Err? ==> runId == old(runId) && r.error != NotOpen
      ensures |files| == |old(files)| + 1 && old(files) <= files
      ensures files[|files| - 1] == Opened ==> |old(increments)| < |increments| && increments[|increments| - 1] == Refusal(r)
      ensures files[|files| - 1] != Opened ==> r == Err(FilesError(files[|files| - 1])) && increments == old(increments)
    {
      var path := OpenFiles();
      if path.Err? {
        r := Err(path.error);
      } else {
        r := FirstRun(path.value);
      }
      openings := openings + [Refusal(r)];
    }

    /** One turn of the loop of `open`: an attempt, whose connections are discarded if it failed. */
    method TryOpen() returns (r: Result<(), Failure>)
      requires disk.Valid()
      modifies `telemetryName, `indexOpen, `db, `sequenceNumber, `runId, `increments, `openings, `files
      modifies disk`indexExists, disk`telemetry, disk`next, disk`pins, disk`numbers
      ensures disk.Valid() && DiskGrew() && Attached()
      ensures openings == old(openings) + [Refusal(r)] && |files| == |old(files)| + 1 && old(files) <= files
      ensures files[|files| - 1] == Opened ==> increments != [] && increments[|increments| - 1] == Refusal(r)
      ensures files[|files| - 1] != Opened ==> r == Err(FilesError(files[|files| - 1]))
      ensures r.Ok? ==> db == Some(TelemetryFile(settings, disk.month)) && runId.Some? && runId.value !in old(disk.pins)
      ensures r.Err? ==> db == None && !indexOpen && runId == old(runId)
    {
      r := OpenOnce();
      if r.Err? {
        CloseConnections();
      }
    }

    /**
     `open`: only an attempt ended by a lock is followed by another, at most five in all, from a clean
     slate, and the month may change in between. On success the instance has a fresh run pinned to the
     file of the month of its last attempt; on failure nothing stays open.
     */
    method Open() returns (r: Result<(), Failure>)
      requires disk.Valid()
      modifies `telemetryName, `indexOpen, `db, `sequenceNumber, `runId, `increments, `openings, `files
      modifies disk`month, disk`indexExists, disk`telemetry, disk`next, disk`pins, disk`numbers
      ensures RetriedOnLocks(old(openings), openings, Refusal(r), OPEN_MAX_RETRIES)
      ensures |files| - |old(files)| == |openings| - |old(openings)| && old(files) <= files
      ensures files[|files| - 1] == Opened ==> increments != [] && increments[|increments| - 1] == Refusal(r)
      ensures files[|files| - 1] != Opened ==> r == Err(FilesError(files[|files| - 1]))
      ensures disk.Valid() && Attached() && DiskGrew()
      ensures r.Ok? ==> db == Some(TelemetryFile(settings, disk.month)) && runId.value !in old(disk.pins)
      ensures r.Err? ==> db == None && !indexOpen && runId == old(runId)
    {
      var attempt := 0;
      while attempt < OPEN_MAX_RETRIES
        invariant attempt < OPEN_MAX_RETRIES
        invariant old(openings) <= openings && |openings| == |old(openings)| + attempt
        invariant old(files) <= files && |files| == |old(files)| + attempt
        invariant forall i :: |old(openings)| <= i < |openings| ==> openings[i] == Some(Locked)
        invariant disk.Valid() && DiskGrew() && runId == old(runId)
        decreases OPEN_MAX_RETRIES - attempt
      {
        r := TryOpen();
        if r.Ok? || r.error != Locked || attempt == OPEN_MAX_RETRIES - 1 {
          return;
        }
        var month: string := *;
        disk.ChangeMonth(month);
        attempt := attempt + 1;
      }
      assert false;
    }

    /** The database answers a statement, and the journal says how. */
    method Ask(op: Op) returns (reply: Reply)
      modifies `journal
      ensures journal == old(journal) + [Statement(op, if reply.Done? then None else Some(DatabaseError))]
    {
      reply := *;
      journal := journal + [Statement(op, if reply.Done? then None else Some(DatabaseError))];
    }

    /** A statement refused on what is known already: the connection is missing, or the run has its summary. */
    ghost method NotAsked(op: Op, refused: Failure)
      requires refused == NotOpen || refused == DuplicateRun
      modifies `journal
      ensures journal == old(journal) + [Statement(op, Some(refused))]
    {
      journal := journal + [Statement(op, Some(refused))];
    }

    /**
     `record_measurement` and `log_event`: the row goes to the pinned file, under the current run.
     An error may be raised after the row was persisted, never a row persisted elsewhere.
     */
    method Write(table: Table, body: string) returns (r: Result<(), Failure>)
      requires disk.Valid() && Attached()
      modifies disk`telemetry, disk`written, `journal
      ensures disk.Valid() && Attached()
      ensures journal == old(journal) + [Statement(Insert(table, body), Refusal(r))]
      ensures r == Err(NotOpen) <==> db.None?
      ensures r.Err? ==> r.error == NotOpen || r.error == DatabaseError
      ensures r.Ok? ==> disk.written == old(disk.written) + [Row(table, runId.value, body)]
      ensures r.Err? ==> disk.written == old(disk.written) ||
                         (db.Some? && disk.written == old(disk.written) + [Row(table, runId.value, body)])
    {
      if db.None? {
        NotAsked(Insert(table, body), NotOpen);
        return Err(NotOpen);
      }
      var reply := Ask(Insert(table, body));
      if reply != Failed(false) {
        disk.Append(db.value, Row(table, runId.value, body));
      }
      return if reply.Done? then Ok(()) else Err(DatabaseError);
    }

    /**
     `start_run_summary`: names the file this instance was pinned to; a run has at most one
     summary. An insert whose commit failed may still land, with the next commit on the connection.
     */
    method StartRunSummary() returns (r: Result<(), Failure>)
      requires disk.Valid() && Attached()
      modifies disk`summaries, `journal
      ensures disk.Valid() && Attached()
      ensures journal == old(journal) + [Statement(InsertSummary, Refusal(r))]
      ensures r == Err(NotOpen) <==> !indexOpen
      ensures r.Ok? ==>
                && runId.value !in old(disk.summaries)
                && disk.summaries == old(disk.summaries)[runId.value := Summary(sequenceNumber, Some(db.value.base))]
      ensures r.Err? ==>
                || disk.summaries == old(disk.summaries)
                || (r.error == DatabaseError && runId.value !in old(disk.summaries)
                    && disk.summaries == old(disk.summaries)[runId.value := Summary(sequenceNumber, Some(db.value.base))])
      ensures r == Err(DuplicateRun) <==> indexOpen && runId.value in old(disk.summaries)
      ensures r.Err? ==> r.error == NotOpen || r.error == DuplicateRun || r.error == DatabaseError
    {
      if !indexOpen {
        NotAsked(InsertSummary, NotOpen);
        return Err(NotOpen);
      }
      if runId.value in disk.summaries {
        NotAsked(InsertSummary, DuplicateRun);
        return Err(DuplicateRun);
      }
      var reply := Ask(InsertSummary);
      if reply != Failed(false) {
        disk.summaries := disk.summaries[runId.value := Summary(sequenceNumber, telemetryName)];
      }
      return if reply.Done? then Ok(()) else Err(DatabaseError);
    }

    /** `record_execution_state`, `finish_run_summary` and queries of the index: they may fail, and touch nothing modelled here. */
    method UseIndex(op: Op) returns (r: Result<(), Failure>)
      requires op == RecordState || op == FinishSummary || op == QueryIndex
      modifies `journal
      ensures journal == old(journal) + [Statement(op, Refusal(r))]
      ensures !indexOpen ==> r == Err(NotOpen)
      ensures r.Err? ==> r.error == if indexOpen then DatabaseError else NotOpen
    {
      if !indexOpen {
        NotAsked(op, NotOpen);
        return Err(NotOpen);
      }
      var reply := Ask(op);
      return if reply.Done? then Ok(()) else Err(DatabaseError);
    }

    /** One operation of this instance, whatever comes of it. */
    method Do(op: Operation)
      requires disk.Valid() && Attached()
      modifies this, disk
      ensures disk.Valid() && Attached() && DiskGrew()
    {
      match op
      case OpenIt => var _ := Open();
      case CloseIt => CloseConnections();
      case NewRun => var _ := BeginNewRunId();
      case Measure(body) => var _ := Write(Measurements, body);
      case Log(body) => var _ := Write(EventLog, body);
      case Summarise => var _ := StartRunSummary();
    }
  }

  // --------------------------------------------------------------- export

  /** What `open_for_forensic_export` hands back for a run it found. */
  datatype Export = Export(runId: string, sequenceNumber: Option<nat>, db: Option<Path>, unavailable: bool)

  /** What the databases answer a retrieval: the index can be read, the telemetry file opened, the query done. */
  datatype Answers = Answers(readable: bool, opens: bool, queried: bool)

  /**
   `open_for_forensic_export`: the run is found exactly if the index is there, can be read and has
   its summary, and its telemetry is opened exactly if the summary names a file that is in the data
   directory and can be opened. Otherwise the run comes back with a reason. Nothing is written.
   */
  method OpenForForensicExport(disk: Disk, settings: Settings, runId: string, answers: Answers) returns (e: Option<Export>)
    ensures e.Some? <==> answers.readable && disk.indexExists && runId in disk.summaries
    ensures e.Some? ==> e.value.runId == runId && e.value.sequenceNumber == disk.summaries[runId].sequenceNumber
    ensures e.Some? ==> (e.value.unavailable <==> e.value.db.None?)
    ensures e.Some? ==>
              (e.value.db.Some? <==>
                 answers.opens && disk.summaries[runId].telemetryDb.Some?
                 && Path(settings.dataDir, disk.summaries[runId].telemetryDb.value) in disk.telemetry)
    ensures e.Some? && e.value.db.Some? ==> e.value.db.value == Path(settings.dataDir, disk.summaries[runId].telemetryDb.value)
  {
    if !disk.indexExists || !answers.readable || runId !in disk.summaries {
      return None;
    }
    var summary := disk.summaries[runId];
    var found := Export(runId, summary.sequenceNumber, None, true);
    if summary.telemetryDb.None? {
      return Some(found);
    }
    var path := ExportPath(settings, summary.telemetryDb.value);
    if path !in disk.telemetry || !answers.opens {
      return Some(found);
    }
    return Some(found.(db := Some(path), unavailable := false));
  }

  /** `get_measurements(run_id)`; a failing query is swallowed and returns nothing. */
  method GetMeasurements(disk: Disk, db: Option<Path>, runId: string, answers: Answers) returns (rows: seq<Row>)
    requires db.Some? ==> db.value in disk.telemetry
    ensures rows == if db.Some? && answers.queried then RowsOf(disk.telemetry[db.value], Measurements, runId) else []
  {
    if db.None? {
      return [];
    }
    if !answers.queried {
      return [];
    }
    rows := RowsOf(disk.telemetry[db.value], Measurements, runId);
  }

  /**
   Retrieval, after any history of the disk. A summarised run that was pinned to a file of the
   export's data directory that was never archived comes back as exactly the measurement rows ever
   persisted for it, in order, whenever the index can be read, the file opened and the query done.
   Whatever else happened, no row comes back that was not persisted for this run; but the caller is
   not told of rows missing: a failed query and a same-named file in another directory return
   nothing, and a file made anew after an archival returns some of the rows, all without
   `unavailable` being set.
   */
  method RetrieveRun(disk: Disk, settings: Settings, runId: string, answers: Answers)
    returns (e: Option<Export>, rows: seq<Row>)
    requires disk.Valid()
    ensures e.Some? <==> answers.readable && disk.indexExists && runId in disk.summaries
    ensures e.None? ==> rows == []
    ensures e.Some? && e.value.db.None? ==> e.value.unavailable && rows == []
    ensures answers == Answers(true, true, true) && disk.indexExists
            && runId in disk.summaries && disk.summaries[runId].telemetryDb.Some?
            && disk.pins[runId].dir == settings.dataDir && disk.pins[runId] !in disk.lost ==>
              && e.Some? && !e.value.unavailable && e.value.db == Some(disk.pins[runId])
              && rows == RowsOf(disk.written, Measurements, runId)
    ensures e.Some? && e.value.db.Some? ==>
              && !e.value.unavailable && runId in disk.pins
              && (e.value.db.value == disk.pins[runId] <==> disk.pins[runId].dir == settings.dataDir)
              && (disk.pins[runId].dir != settings.dataDir ==> rows == [])
    ensures !answers.queried ==> rows == []
    ensures Subsequence(rows, RowsOf(disk.written, Measurements, runId))
  {
    e := OpenForForensicExport(disk, settings, runId, answers);
    if e.None? {
      return e, [];
    }
    rows := GetMeasurements(disk, e.value.db, runId, answers);
    if e.value.db.Some? {
      if disk.pins[runId].dir != settings.dataDir {
        assert SameRows(disk.telemetry[e.value.db.value], [], runId);
      } else if disk.pins[runId] !in disk.lost {
        assert SameRows(disk.telemetry[disk.pins[runId]], disk.written, runId);
      }
      assert disk.pins[runId].dir == settings.dataDir ==> Genuine(disk.telemetry[disk.pins[runId]], disk.written, runId);
    }
  }

  // ------------------------------------------------------------- workloads

  datatype Operation = OpenIt | CloseIt | NewRun | Measure(body: string) | Log(body: string) | Summarise

  datatype Happening = Act(who: nat, op: Operation) | NextMonth(month: string) | ArchiveFile(path: Path) | LateCommit

  /**
   Any interleaving of operations by any number of instances on one disk, across month changes
   and archived files, however each operation ends: the disk stays consistent, every instance
   stays attached to its own pinned file, and run ids once pinned keep their file.
   */
  method Workload(disk: Disk, instances: seq<DataStorage>, script: seq<Happening>)
    requires disk.Valid()
    requires forall s :: s in instances ==> s.disk == disk && s.Attached()
    modifies disk, instances
    ensures disk.Valid()
    ensures forall s :: s in instances ==> s.Attached()
    ensures forall id :: id in old(disk.pins) ==> id in disk.pins && disk.pins[id] == old(disk.pins)[id]
    ensures old(disk.written) <= disk.written
  {
    for k := 0 to |script|
      invariant disk.Valid()
      invariant forall s :: s in instances ==> s.Attached()
      invariant forall id :: id in old(disk.pins) ==> id in disk.pins && disk.pins[id] == old(disk.pins)[id]
      invariant old(disk.written) <= disk.written
    {
      match script[k]
      case Act(w, op) => if w < |instances| { instances[w].Do(op); }
      case NextMonth(month) => disk.ChangeMonth(month);
      case ArchiveFile(path) => disk.Archive(path);
      case LateCommit => disk.BurnNumber();
    }
  }
}
