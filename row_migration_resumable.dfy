/** The chunked migrator (scripts/row_migration_resumable.js) as statements:
    the module-level `state` offsets and `migration_state.json` as an object,
    `processChunk`, the five `while (true)` table loops, the single page of
    `migrateCaseTags`, and `run`.  Each method is proved to do exactly what
    the corresponding function of `ResumableRun` says; the converters are the
    ones of `RowMigration`. */
module ResumableMigration {
  import opened Wrappers
  import opened MigrationSchema
  import opened MigrationSpec
  import opened TargetDatabase
  import opened RowMigration
  import opened ResumableRun
  import ExhaustiveRun

  /** The in-memory `state` record and the contents of `migration_state.json`
      (`None` while there is no such file). */
  class Progress {
    var state: Offsets
    var file: Option<Offsets>

    /** Whenever the script is between chunks, the file holds what a fresh
        start would read back as `state`. */
    ghost predicate Valid()
      reads this
    {
      InitialOffsets(file) == state
    }

    /** Start-up: all zeros, or the saved record when the file exists. */
    constructor Load(saved: Option<Offsets>)
      ensures file == saved && state == InitialOffsets(saved)
      ensures Valid()
    {
      file := saved;
      state := InitialOffsets(saved);
    }

    /** `state.<table> += processed` followed by `fs.writeFileSync`. */
    method Advance(t: Table, processed: nat)
      modifies this
      ensures state == old(state).Set(t, old(state).Get(t) + processed)
      ensures file == Some(state)
      ensures Valid()
    {
      state := state.Set(t, state.Get(t) + processed);
      file := Some(state);
    }
  }

  /** `processChunk`: the page at `off` (a failing SELECT escapes), each of
      its rows to the converter once, and the page's row count. */
  method ProcessChunkAt(db: TargetDb, t: Table, rows: seq<SourceRow>, off: nat, chunk: nat, f: Oracle)
    returns (processed: nat, halted: bool)
    modifies db
    ensures Chunk(db.Snapshot(), processed, halted) == ProcessChunk(old(db.Snapshot()), t, rows, off, chunk, f)
  {
    if f(Fetch(t, off)) == FatalFault {
      return 0, true;
    }
    var page := Page(rows, off, chunk);
    if |page| == 0 {
      return 0, false;
    }
    halted := MigrateRows(db, page, f);
    processed := |page|;
  }

  /** One turn of a table's `while (true)`: the chunk at the table's offset;
      unless the loop stops there, the offset advanced and written out. */
  method ChunkTurn(db: TargetDb, progress: Progress, t: Table, rows: seq<SourceRow>, chunk: nat, f: Oracle)
    returns (done: bool, halted: bool)
    requires progress.Valid()
    modifies db, progress
    ensures progress.Valid()
    ensures done ==>
      && progress.state == old(progress.state)
      && ResumeTable(old(db.Snapshot()), t, rows, old(progress.state).Get(t), chunk, f)
         == Resume(db.Snapshot(), progress.state.Get(t), halted)
    ensures !done ==>
      && !halted
      && old(progress.state).Get(t) < progress.state.Get(t) <= |rows|
      && progress.state == old(progress.state).Set(t, progress.state.Get(t))
      && ResumeTable(old(db.Snapshot()), t, rows, old(progress.state).Get(t), chunk, f)
         == ResumeTable(db.Snapshot(), t, rows, progress.state.Get(t), chunk, f)
  {
    var off := progress.state.Get(t);
    ResumeTableStep(db.Snapshot(), t, rows, off, chunk, f);
    var processed;
    processed, halted := ProcessChunkAt(db, t, rows, off, chunk, f);
    done := halted || processed == 0;
    if !done {
      progress.Advance(t, processed);
    }
  }

  /** `migrateUsers` ... `migrateCaseEvents`: chunk after chunk from the
      table's offset until an empty page; after each non-empty page the offset
      rises by the page's row count and the state file is rewritten. */
  method MigrateTableChunked(db: TargetDb, progress: Progress, t: Table, rows: seq<SourceRow>, chunk: nat, f: Oracle)
    returns (halted: bool)
    requires progress.Valid()
    modifies db, progress
    ensures var r := ResumeTable(old(db.Snapshot()), t, rows, old(progress.state).Get(t), chunk, f);
      && db.Snapshot() == r.db
      && halted == r.halted
      && progress.state == old(progress.state).Set(t, r.offset)
      && progress.Valid()
  {
    ghost var goal := ResumeTable(db.Snapshot(), t, rows, progress.state.Get(t), chunk, f);
    ghost var start := progress.state;
    while true
      invariant progress.Valid()
      invariant ResumeTable(db.Snapshot(), t, rows, progress.state.Get(t), chunk, f) == goal
      invariant progress.state == start.Set(t, progress.state.Get(t))
      decreases |rows| - progress.state.Get(t)
    {
      var done;
      done, halted := ChunkTurn(db, progress, t, rows, chunk, f);
      if done {
        return;
      }
      OffsetsExtensional(progress.state, start.Set(t, progress.state.Get(t)));
    }
  }

  /** `migrateCaseTags`: a single page (ordered by case_id), each of its rows
      to the CaseTag converter, then the offset advanced by the page's row
      count and the file rewritten; nothing is written for an empty page. */
  method MigrateCaseTagsChunk(db: TargetDb, progress: Progress, rows: seq<SourceRow>, chunk: nat, f: Oracle)
    returns (halted: bool)
    requires progress.Valid()
    modifies db, progress
    ensures var r := ResumeCaseTags(old(db.Snapshot()), rows, old(progress.state).Get(CaseTagTable), chunk, f);
      && db.Snapshot() == r.db
      && halted == r.halted
      && progress.state == old(progress.state).Set(CaseTagTable, r.offset)
      && progress.Valid()
  {
    var off := progress.state.Get(CaseTagTable);
    var processed;
    processed, halted := ProcessChunkAt(db, CaseTagTable, rows, off, chunk, f);
    if halted || processed == 0 {
      OffsetsExtensional(progress.state, progress.state.Set(CaseTagTable, off));
      return;
    }
    progress.Advance(CaseTagTable, processed);
  }

  /** `run`: ensure the mapping table, then the six tables in order; the
      first exception that escapes is caught, logged, and ends the run. */
  method RunChunked(db: TargetDb, progress: Progress, src: Source, chunk: nat, f: Oracle) returns (halted: bool)
    requires progress.Valid()
    modifies db, progress
    ensures var r := RunResumable(old(db.Snapshot()), src, old(progress.file), chunk, f);
      && db.Snapshot() == r.db
      && halted == r.halted
      && progress.state == r.offsets
      && progress.Valid()
  {
    if f(Bootstrap) == FatalFault {
      return true;
    }
    db.CreateMappingsTable();
    var plan := ExhaustiveRun.Plan(src);
    ghost var goal := ResumeTables(db.Snapshot(), plan, progress.state, chunk, f);
    var i := 0;
    halted := false;
    while i < |plan| && !halted
      invariant 0 <= i <= |plan|
      invariant progress.Valid()
      invariant !halted ==> ResumeTables(db.Snapshot(), plan[i..], progress.state, chunk, f) == goal
      invariant halted ==> ResumeRun(db.Snapshot(), progress.state, true) == goal
    {
      assert plan[i..][1..] == plan[i + 1..];
      if plan[i].0 == CaseTagTable {
        halted := MigrateCaseTagsChunk(db, progress, plan[i].1, chunk, f);
      } else {
        halted := MigrateTableChunked(db, progress, plan[i].0, plan[i].1, chunk, f);
      }
      i := i + 1;
    }
  }
}
