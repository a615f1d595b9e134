/** The chunked migrator (scripts/row_migration_resumable.js) as a function of
    the source, the target, the offsets read from `migration_state.json`, the
    chunk size and the failure oracle.  Its converters are the ones of the
    exhaustive migrator, row for row; what differs is the table loop: pages of
    at most `chunk` rows in ascending id order, one offset per table that
    rises by each page's row count once the page is done. */
module ResumableRun {
  import opened Wrappers
  import opened MigrationSchema
  import opened MigrationSpec
  import opened BatchProperties
  import opened ExhaustiveRun

  function Min(a: int, b: int): int { if a <= b then a else b }
  function Max(a: int, b: int): int { if a <= b then b else a }

  /** The progress record `{ users, tags, cases, evidence, caseevents, casetags }`. */
  datatype Offsets = Offsets(users: nat, tags: nat, cases: nat, evidence: nat, caseEvents: nat, caseTags: nat)
  {
    function Get(t: Table): nat {
      match t
      case UserTable => users
      case TagTable => tags
      case CaseTable => cases
      case EvidenceTable => evidence
      case CaseEventTable => caseEvents
      case CaseTagTable => caseTags
    }

    function Set(t: Table, n: nat): (o: Offsets)
      ensures o.Get(t) == n
      ensures forall u :: u != t ==> o.Get(u) == Get(u)
    {
      match t
      case UserTable => this.(users := n)
      case TagTable => this.(tags := n)
      case CaseTable => this.(cases := n)
      case EvidenceTable => this.(evidence := n)
      case CaseEventTable => this.(caseEvents := n)
      case CaseTagTable => this.(caseTags := n)
    }
  }

  /** Two records with the same offset for every table are the same record. */
  lemma OffsetsExtensional(a: Offsets, b: Offsets)
    requires forall t :: a.Get(t) == b.Get(t)
    ensures a == b
  {
    assert a.Get(UserTable) == b.Get(UserTable) && a.Get(TagTable) == b.Get(TagTable);
    assert a.Get(CaseTable) == b.Get(CaseTable) && a.Get(EvidenceTable) == b.Get(EvidenceTable);
    assert a.Get(CaseEventTable) == b.Get(CaseEventTable) && a.Get(CaseTagTable) == b.Get(CaseTagTable);
  }

  /** The offsets the script starts from: the saved record, or all zeros when
      there is no state file. */
  function InitialOffsets(saved: Option<Offsets>): (o: Offsets)
    ensures saved.None? ==> forall t :: o.Get(t) == 0
    ensures saved.Some? ==> o == saved.value
  {
    match saved
    case None => Offsets(0, 0, 0, 0, 0, 0)
    case Some(s) => s
  }

  /** `ORDER BY id ASC LIMIT chunk OFFSET off` over the table's rows in id
      order: the rows from position `off` on, at most `chunk` of them. */
  function Page(rows: seq<SourceRow>, off: nat, chunk: nat): (page: seq<SourceRow>)
    ensures |page| <= chunk
    ensures page == [] <==> chunk == 0 || off >= |rows|
    ensures page != [] ==> |page| == Min(chunk, |rows| - off)
  {
    if off >= |rows| then [] else rows[off..off + Min(chunk, |rows| - off)]
  }

  /** The page is the run of rows that starts at position `off`. */
  lemma PageContents(rows: seq<SourceRow>, off: nat, chunk: nat)
    ensures var page := Page(rows, off, chunk);
      forall i :: 0 <= i < |page| ==> off + i < |rows| && page[i] == rows[off + i]
  {
  }

  /** What `processChunk` leaves behind: the target, the row count it
      returns, and whether an exception escaped it. */
  datatype Chunk = Chunk(db: Db, processed: nat, halted: bool)

  /** `processChunk`: fetch the page at `off`, feed each of its rows to the
      converter once, and return the page's row count (0 for an empty page). */
  function ProcessChunk(db: Db, t: Table, rows: seq<SourceRow>, off: nat, chunk: nat, f: Oracle): (c: Chunk)
    ensures c.processed <= chunk
    ensures c.processed == 0 || off + c.processed <= |rows|
    ensures !c.halted ==> c.processed == |Page(rows, off, chunk)|
    ensures !c.halted ==> (c.processed == 0 <==> (chunk == 0 || off >= |rows|))
    ensures f(Fetch(t, off)) == FatalFault ==> c == Chunk(db, 0, true)
    ensures f(Fetch(t, off)) != FatalFault ==>
      c.db == ConvertAll(db, Page(rows, off, chunk), f).db && c.halted == ConvertAll(db, Page(rows, off, chunk), f).halted
  {
    if f(Fetch(t, off)) == FatalFault then Chunk(db, 0, true)
    else
      var page := Page(rows, off, chunk);
      if page == [] then Chunk(db, 0, false)
      else
        var s := ConvertAll(db, page, f);
        Chunk(s.db, |page|, s.halted)
  }

  /** A table's effect: the target, the offset persisted for the table when
      the loop ends, and whether an exception escaped. */
  datatype Resume = Resume(db: Db, offset: nat, halted: bool)

  /** The chunk processor of one table: `processChunk` with the table, its
      rows, the chunk size and the oracle fixed, as a function of the target
      and the offset. */
  function ChunkRunner(t: Table, rows: seq<SourceRow>, chunk: nat, f: Oracle): (Db, nat) -> Chunk {
    (d: Db, o: nat) => ProcessChunk(d, t, rows, o, chunk, f)
  }

  /** A chunk processor never reports more rows than remain before `n`. */
  ghost predicate Fits(run: (Db, nat) -> Chunk, n: nat) {
    forall d: Db, o: nat :: run(d, o).processed == 0 || o + run(d, o).processed <= n
  }

  /** The shape of the five `while (true)` loops, for a chunk processor
      `run`: process the chunk at the offset; stop when it escapes (the
      offset is not advanced) or reports 0 rows; else add its row count. */
  function Loop(db: Db, off: nat, n: nat, run: (Db, nat) -> Chunk): Resume
    requires Fits(run, n)
    decreases n - off
  {
    var c := run(db, off);
    if c.halted then Resume(c.db, off, true)
    else if c.processed == 0 then Resume(c.db, off, false)
    else Loop(c.db, off + c.processed, n, run)
  }

  /** The loop of one of the five tables with its own ids. */
  function ResumeTable(db: Db, t: Table, rows: seq<SourceRow>, off: nat, chunk: nat, f: Oracle): Resume {
    Loop(db, off, |rows|, ChunkRunner(t, rows, chunk, f))
  }

  /** One turn of a table's loop: process the chunk at `off`, then stop or
      go on from the advanced offset. */
  lemma ResumeTableStep(db: Db, t: Table, rows: seq<SourceRow>, off: nat, chunk: nat, f: Oracle)
    ensures var c := ProcessChunk(db, t, rows, off, chunk, f);
      ResumeTable(db, t, rows, off, chunk, f) ==
        if c.halted then Resume(c.db, off, true)
        else if c.processed == 0 then Resume(c.db, off, false)
        else ResumeTable(c.db, t, rows, off + c.processed, chunk, f)
  {
  }

  /** `migrateCaseTags`: one page per run, with the offset advanced by its
      row count. */
  function ResumeCaseTags(db: Db, rows: seq<SourceRow>, off: nat, chunk: nat, f: Oracle): (r: Resume)
    ensures !r.halted ==> r.offset == off + |Page(rows, off, chunk)|
    ensures r.offset <= off + chunk
  {
    var c := ProcessChunk(db, CaseTagTable, rows, off, chunk, f);
    if c.halted then Resume(c.db, off, true) else Resume(c.db, off + c.processed, false)
  }

  function ResumeStep(db: Db, t: Table, rows: seq<SourceRow>, off: nat, chunk: nat, f: Oracle): Resume {
    if t == CaseTagTable then ResumeCaseTags(db, rows, off, chunk, f) else ResumeTable(db, t, rows, off, chunk, f)
  }

  /** The target, the offsets record as last written, and whether the run
      ended with an escaping exception. */
  datatype ResumeRun = ResumeRun(db: Db, offsets: Offsets, halted: bool)

  function ResumeTables(db: Db, plan: seq<(Table, seq<SourceRow>)>, offs: Offsets, chunk: nat, f: Oracle): ResumeRun
    decreases |plan|
  {
    if plan == [] then ResumeRun(db, offs, false)
    else
      var t := plan[0].0;
      var r := ResumeStep(db, t, plan[0].1, offs.Get(t), chunk, f);
      var offs' := offs.Set(t, r.offset);
      if r.halted then ResumeRun(r.db, offs', true) else ResumeTables(r.db, plan[1..], offs', chunk, f)
  }

  /** `run` of the chunked script, started with the state file `saved`. */
  function RunResumable(db: Db, src: Source, saved: Option<Offsets>, chunk: nat, f: Oracle): ResumeRun {
    var offs := InitialOffsets(saved);
    if f(Bootstrap) == FatalFault then ResumeRun(db, offs, true)
    else ResumeTables(EnsureMappingsTable(db), Plan(src), offs, chunk, f)
  }

  // ----- the table loop -----

  /** The page holds rows of the table it was read from. */
  lemma PageSameTable(rows: seq<SourceRow>, off: nat, chunk: nat, t: Table)
    requires SameTable(rows, t)
    ensures SameTable(Page(rows, off, chunk), t)
  {
    var page := Page(rows, off, chunk);
    PageContents(rows, off, chunk);
    forall i | 0 <= i < |page| ensures page[i].TableOf() == t {
      assert page[i] == rows[off + i];
    }
  }

  // ----- the loop, for any chunk processor -----

  /** While the mapping table exists, no chunk escapes and the table stays. */
  ghost predicate NeverHalts(run: (Db, nat) -> Chunk) {
    forall d: Db, o: nat :: d.hasMappingTable ==> !run(d, o).halted && run(d, o).db.hasMappingTable
  }

  /** Wherever a chunk of `run` does not escape, it does what the chunk of
      `clean` does, and it keeps the mapping table. */
  ghost predicate AgreesUnlessHalted(run: (Db, nat) -> Chunk, clean: (Db, nat) -> Chunk) {
    forall d: Db, o: nat {:trigger run(d, o), clean(d, o)} :: d.hasMappingTable && !run(d, o).halted ==>
      run(d, o) == clean(d, o) && run(d, o).db.hasMappingTable
  }

  /** Re-processing with `clean` a chunk at which `run` escaped does what
      `clean` does on the target from before the escaped chunk. */
  ghost predicate ReplaysAfterHalt(run: (Db, nat) -> Chunk, clean: (Db, nat) -> Chunk) {
    forall d: Db, o: nat {:trigger clean(run(d, o).db, o)} ::
      d.hasMappingTable && run(d, o).halted ==> clean(run(d, o).db, o) == clean(d, o)
  }

  /** A chunk that reports no rows and did not escape wrote nothing. */
  ghost predicate EmptyIsNoop(run: (Db, nat) -> Chunk) {
    forall d: Db, o: nat :: !run(d, o).halted && run(d, o).processed == 0 ==> run(d, o).db == d
  }

  /** Every chunk only adds to the target. */
  ghost predicate Grows(run: (Db, nat) -> Chunk) {
    forall d: Db, o: nat :: Extends(d, run(d, o).db)
  }

  /** A loop of chunks that only add to the target only adds to it. */
  lemma {:induction false} LoopGrows(db: Db, off: nat, n: nat, run: (Db, nat) -> Chunk)
    requires Fits(run, n) && Grows(run)
    ensures Extends(db, Loop(db, off, n, run).db)
    decreases n - off
  {
    var c := run(db, off);
    if !c.halted && c.processed != 0 {
      LoopGrows(c.db, off + c.processed, n, run);
      ExtendsTransitive(db, c.db, Loop(c.db, off + c.processed, n, run).db);
    }
  }

  /** A loop's offset only rises, and past its start it stays within `n`;
      a loop that did not escape stopped at a chunk reporting no rows; and a
      first chunk reporting no rows is where the loop stops. */
  lemma {:induction false} LoopProgress(db: Db, off: nat, n: nat, run: (Db, nat) -> Chunk)
    requires Fits(run, n) && EmptyIsNoop(run)
    ensures var r := Loop(db, off, n, run);
      && off <= r.offset
      && (r.offset == off || r.offset <= n)
      && (!r.halted ==> !run(r.db, r.offset).halted && run(r.db, r.offset).processed == 0)
      && (run(db, off).processed == 0 ==> r.db == run(db, off).db && r.offset == off)
    decreases n - off
  {
    var c := run(db, off);
    if !c.halted && c.processed == 0 {
      assert c.db == db;
    } else if !c.halted {
      LoopProgress(c.db, off + c.processed, n, run);
    }
  }

  lemma {:induction false} LoopNeverHalts(db: Db, off: nat, n: nat, run: (Db, nat) -> Chunk)
    requires Fits(run, n) && NeverHalts(run) && db.hasMappingTable
    ensures !Loop(db, off, n, run).halted
    decreases n - off
  {
    var c := run(db, off);
    if c.processed != 0 {
      LoopNeverHalts(c.db, off + c.processed, n, run);
    }
  }

  lemma {:induction false} LoopUnhaltedIsClean(db: Db, off: nat, n: nat, run: (Db, nat) -> Chunk, clean: (Db, nat) -> Chunk)
    requires Fits(run, n) && Fits(clean, n) && AgreesUnlessHalted(run, clean) && db.hasMappingTable
    requires !Loop(db, off, n, run).halted
    ensures Loop(db, off, n, run) == Loop(db, off, n, clean)
    decreases n - off
  {
    var c := run(db, off);
    assert !c.halted && clean(db, off) == c;
    if c.processed != 0 {
      LoopUnhaltedIsClean(c.db, off + c.processed, n, run, clean);
    }
  }

  /** A loop that escaped, re-started at the offset it persisted, ends where
      a loop that never escaped ends. */
  lemma {:induction false} LoopConverges(db: Db, off: nat, n: nat, run: (Db, nat) -> Chunk, clean: (Db, nat) -> Chunk)
    requires Fits(run, n) && Fits(clean, n) && EmptyIsNoop(clean) && db.hasMappingTable
    requires AgreesUnlessHalted(run, clean) && ReplaysAfterHalt(run, clean)
    ensures var i := Loop(db, off, n, run);
      Loop(i.db, i.offset, n, clean) == Loop(db, off, n, clean)
    decreases n - off
  {
    var c := run(db, off);
    if c.halted {
      assert Loop(db, off, n, run) == Resume(c.db, off, true);
      assert clean(c.db, off) == clean(db, off);
      LoopFollowsFirstChunk(c.db, db, off, n, clean);
    } else {
      assert clean(db, off) == c;
      if c.processed == 0 {
        assert c.db == db;
      } else {
        assert Loop(db, off, n, run) == Loop(c.db, off + c.processed, n, run);
        assert Loop(db, off, n, clean) == Loop(c.db, off + c.processed, n, clean);
        LoopConverges(c.db, off + c.processed, n, run, clean);
      }
    }
  }

  /** Two loops whose first chunks agree end alike. */
  lemma LoopFollowsFirstChunk(d1: Db, d2: Db, off: nat, n: nat, run: (Db, nat) -> Chunk)
    requires Fits(run, n) && run(d1, off) == run(d2, off)
    ensures Loop(d1, off, n, run) == Loop(d2, off, n, run)
  {
  }

  /** Chunk processors that agree from `off` on give the same loop from `off`. */
  lemma {:induction false} LoopAgrees(db: Db, off: nat, n: nat, run1: (Db, nat) -> Chunk, run2: (Db, nat) -> Chunk)
    requires Fits(run1, n) && Fits(run2, n)
    requires forall d: Db, o: nat :: off <= o ==> run1(d, o) == run2(d, o)
    ensures Loop(db, off, n, run1) == Loop(db, off, n, run2)
    decreases n - off
  {
    var c := run1(db, off);
    if !c.halted && c.processed != 0 {
      LoopAgrees(c.db, off + c.processed, n, run1, run2);
    }
  }

  // ----- the chunks of one table -----

  /** A page processed without failures does not halt and keeps the
      mapping table. */
  lemma CleanChunk(db: Db, t: Table, rows: seq<SourceRow>, off: nat, chunk: nat)
    requires db.hasMappingTable && SameTable(rows, t)
    ensures var c := ProcessChunk(db, t, rows, off, chunk, NoFaults);
      !c.halted && c.db.hasMappingTable
  {
    var page := Page(rows, off, chunk);
    PageSameTable(rows, off, chunk, t);
    ConvertAllSettles(db, page, t);
    ConvertAllExtends(db, page, NoFaults);
  }

  /** A crash-only chunk that did not halt met no failure. */
  lemma UnhaltedChunkIsClean(db: Db, t: Table, rows: seq<SourceRow>, off: nat, chunk: nat, f: Oracle)
    requires db.hasMappingTable && CrashOnly(f)
    requires !ProcessChunk(db, t, rows, off, chunk, f).halted
    ensures ProcessChunk(db, t, rows, off, chunk, f) == ProcessChunk(db, t, rows, off, chunk, NoFaults)
    ensures ProcessChunk(db, t, rows, off, chunk, f).db.hasMappingTable
  {
    var page := Page(rows, off, chunk);
    CrashedBatch(db, page, f);
    ConvertAllExtends(db, page, f);
  }

  /** Re-processing, without failures, the page of a chunk that crashed
      does what processing it once without failures does: its rows that had
      been converted before the crash are skipped by the mapping check. */
  lemma HaltedChunkReplays(db: Db, t: Table, rows: seq<SourceRow>, off: nat, chunk: nat, f: Oracle)
    requires db.hasMappingTable && CrashOnly(f) && SameTable(rows, t)
    requires ProcessChunk(db, t, rows, off, chunk, f).halted
    ensures ProcessChunk(ProcessChunk(db, t, rows, off, chunk, f).db, t, rows, off, chunk, NoFaults)
         == ProcessChunk(db, t, rows, off, chunk, NoFaults)
  {
    var page := Page(rows, off, chunk);
    if f(Fetch(t, off)) != FatalFault {
      PageSameTable(rows, off, chunk, t);
      CrashedBatch(db, page, f);
      var k := HaltIndex(page, f);
      assert page[..k] + page[k..] == page;
      Replay(db, page[..k], page[k..], t);
    }
  }

  lemma RunnerFits(t: Table, rows: seq<SourceRow>, chunk: nat, f: Oracle)
    ensures Fits(ChunkRunner(t, rows, chunk, f), |rows|)
    ensures EmptyIsNoop(ChunkRunner(t, rows, chunk, f))
  {
  }

  lemma CleanRunner(t: Table, rows: seq<SourceRow>, chunk: nat)
    requires SameTable(rows, t)
    ensures NeverHalts(ChunkRunner(t, rows, chunk, NoFaults))
  {
    var run := ChunkRunner(t, rows, chunk, NoFaults);
    forall d: Db, o: nat | d.hasMappingTable ensures !run(d, o).halted && run(d, o).db.hasMappingTable {
      CleanChunk(d, t, rows, o, chunk);
    }
  }

  lemma CrashOnlyRunner(t: Table, rows: seq<SourceRow>, chunk: nat, f: Oracle)
    requires CrashOnly(f)
    ensures AgreesUnlessHalted(ChunkRunner(t, rows, chunk, f), ChunkRunner(t, rows, chunk, NoFaults))
  {
    var run, clean := ChunkRunner(t, rows, chunk, f), ChunkRunner(t, rows, chunk, NoFaults);
    forall d: Db, o: nat | d.hasMappingTable && !run(d, o).halted
      ensures run(d, o) == clean(d, o) && run(d, o).db.hasMappingTable
    {
      UnhaltedChunkIsClean(d, t, rows, o, chunk, f);
    }
  }

  lemma ReplayRunner(t: Table, rows: seq<SourceRow>, chunk: nat, f: Oracle)
    requires CrashOnly(f) && SameTable(rows, t)
    ensures ReplaysAfterHalt(ChunkRunner(t, rows, chunk, f), ChunkRunner(t, rows, chunk, NoFaults))
  {
    var run, clean := ChunkRunner(t, rows, chunk, f), ChunkRunner(t, rows, chunk, NoFaults);
    forall d: Db, o: nat | d.hasMappingTable && run(d, o).halted ensures clean(run(d, o).db, o) == clean(d, o) {
      HaltedChunkReplays(d, t, rows, o, chunk, f);
    }
  }

  // ----- the loop of one table -----

  /** The loop terminates on the first empty page: with a positive chunk size
      that is once the offset reaches the row count; with chunk size 0 the
      first page is already empty.  Offsets never go down. */
  lemma ResumeTableProgress(db: Db, t: Table, rows: seq<SourceRow>, off: nat, chunk: nat, f: Oracle)
    ensures var r := ResumeTable(db, t, rows, off, chunk, f);
      && off <= r.offset <= Max(off, |rows|)
      && (!r.halted ==> Page(rows, r.offset, chunk) == [])
      && (!r.halted && chunk > 0 ==> r.offset == Max(off, |rows|))
      && (chunk == 0 ==> r.db == db && r.offset == off)
  {
    var run := ChunkRunner(t, rows, chunk, f);
    RunnerFits(t, rows, chunk, f);
    LoopProgress(db, off, |rows|, run);
    var r := ResumeTable(db, t, rows, off, chunk, f);
    assert r == Loop(db, off, |rows|, run);
    assert ProcessChunk(r.db, t, rows, r.offset, chunk, f) == run(r.db, r.offset);
    assert ProcessChunk(db, t, rows, off, chunk, f) == run(db, off);
  }

  /** A table's loop only adds to the target. */
  lemma ResumeTableExtends(db: Db, t: Table, rows: seq<SourceRow>, off: nat, chunk: nat, f: Oracle)
    ensures Extends(db, ResumeTable(db, t, rows, off, chunk, f).db)
  {
    var run := ChunkRunner(t, rows, chunk, f);
    forall d: Db, o: nat ensures Extends(d, run(d, o).db) {
      ProcessChunkExtends(d, t, rows, o, chunk, f);
    }
    LoopGrows(db, off, |rows|, run);
  }

  /** A chunk only adds to the target. */
  lemma ProcessChunkExtends(db: Db, t: Table, rows: seq<SourceRow>, off: nat, chunk: nat, f: Oracle)
    ensures Extends(db, ProcessChunk(db, t, rows, off, chunk, f).db)
  {
    if f(Fetch(t, off)) != FatalFault {
      ConvertAllExtends(db, Page(rows, off, chunk), f);
    }
  }

  lemma ResumeStepExtends(db: Db, t: Table, rows: seq<SourceRow>, off: nat, chunk: nat, f: Oracle)
    ensures Extends(db, ResumeStep(db, t, rows, off, chunk, f).db)
  {
    if t == CaseTagTable {
      ProcessChunkExtends(db, t, rows, off, chunk, f);
    } else {
      ResumeTableExtends(db, t, rows, off, chunk, f);
    }
  }

  /** A page that starts past a prefix does not depend on the prefix. */
  lemma PageAfterPrefix(p: seq<SourceRow>, p': seq<SourceRow>, q: seq<SourceRow>, o: nat, chunk: nat)
    requires |p| == |p'| <= o
    ensures Page(p + q, o, chunk) == Page(p' + q, o, chunk)
  {
    if o < |p + q| {
      var m := Min(chunk, |p + q| - o);
      var w := q[o - |p|..o - |p| + m];
      forall i | 0 <= i < m ensures (p + q)[o + i] == w[i] == (p' + q)[o + i] { }
      assert (p + q)[o..o + m] == w;
      assert (p' + q)[o..o + m] == w;
    }
  }

  /** Rows before the stored offset are never read: whatever they are, the
      loop does the same. */
  lemma PrefixNeverRead(db: Db, t: Table, p: seq<SourceRow>, p': seq<SourceRow>, q: seq<SourceRow>,
                        off: nat, chunk: nat, f: Oracle)
    requires |p| == |p'| <= off
    ensures ResumeTable(db, t, p + q, off, chunk, f) == ResumeTable(db, t, p' + q, off, chunk, f)
  {
    var run1, run2 := ChunkRunner(t, p + q, chunk, f), ChunkRunner(t, p' + q, chunk, f);
    forall d: Db, o: nat | off <= o ensures run1(d, o) == run2(d, o) {
      PageAfterPrefix(p, p', q, o, chunk);
    }
    RunnerFits(t, p + q, chunk, f);
    RunnerFits(t, p' + q, chunk, f);
    var n := |p + q|;
    assert |p' + q| == n;
    LoopAgrees(db, off, n, run1, run2);
    assert ResumeTable(db, t, p + q, off, chunk, f) == Loop(db, off, n, run1);
    assert ResumeTable(db, t, p' + q, off, chunk, f) == Loop(db, off, n, run2);
  }

  /** The loop of a run without failures never halts. */
  lemma CleanResumeTable(db: Db, t: Table, rows: seq<SourceRow>, off: nat, chunk: nat)
    requires db.hasMappingTable && SameTable(rows, t)
    ensures !ResumeTable(db, t, rows, off, chunk, NoFaults).halted
  {
    RunnerFits(t, rows, chunk, NoFaults);
    CleanRunner(t, rows, chunk);
    LoopNeverHalts(db, off, |rows|, ChunkRunner(t, rows, chunk, NoFaults));
  }

  /** A crash-only loop that did not halt met no failure at all. */
  lemma UnhaltedResumeTableIsClean(db: Db, t: Table, rows: seq<SourceRow>, off: nat, chunk: nat, f: Oracle)
    requires db.hasMappingTable && CrashOnly(f)
    requires !ResumeTable(db, t, rows, off, chunk, f).halted
    ensures ResumeTable(db, t, rows, off, chunk, f) == ResumeTable(db, t, rows, off, chunk, NoFaults)
  {
    RunnerFits(t, rows, chunk, f);
    RunnerFits(t, rows, chunk, NoFaults);
    CrashOnlyRunner(t, rows, chunk, f);
    LoopUnhaltedIsClean(db, off, |rows|, ChunkRunner(t, rows, chunk, f), ChunkRunner(t, rows, chunk, NoFaults));
  }

  /** Resumability of one table: a loop interrupted by a crash anywhere (in a
      fetch or in a row), re-started without failures from the offset it
      persisted, ends exactly where a loop without failures ends. */
  lemma ResumeTableConverges(db: Db, t: Table, rows: seq<SourceRow>, off: nat, chunk: nat, f: Oracle)
    requires db.hasMappingTable && CrashOnly(f) && SameTable(rows, t)
    ensures var i := ResumeTable(db, t, rows, off, chunk, f);
      ResumeTable(i.db, t, rows, i.offset, chunk, NoFaults) == ResumeTable(db, t, rows, off, chunk, NoFaults)
  {
    RunnerFits(t, rows, chunk, f);
    RunnerFits(t, rows, chunk, NoFaults);
    CrashOnlyRunner(t, rows, chunk, f);
    ReplayRunner(t, rows, chunk, f);
    LoopConverges(db, off, |rows|, ChunkRunner(t, rows, chunk, f), ChunkRunner(t, rows, chunk, NoFaults));
  }

  lemma ResumeStepConverges(db: Db, t: Table, rows: seq<SourceRow>, off: nat, chunk: nat, f: Oracle)
    requires db.hasMappingTable && CrashOnly(f) && SameTable(rows, t)
    ensures var i := ResumeStep(db, t, rows, off, chunk, f);
      i.halted ==> ResumeStep(i.db, t, rows, i.offset, chunk, NoFaults) == ResumeStep(db, t, rows, off, chunk, NoFaults)
    ensures !ResumeStep(db, t, rows, off, chunk, NoFaults).halted
    ensures !ResumeStep(db, t, rows, off, chunk, f).halted ==>
      ResumeStep(db, t, rows, off, chunk, f) == ResumeStep(db, t, rows, off, chunk, NoFaults)
  {
    if t == CaseTagTable {
      CleanChunk(db, t, rows, off, chunk);
      if ProcessChunk(db, t, rows, off, chunk, f).halted {
        HaltedChunkReplays(db, t, rows, off, chunk, f);
      } else {
        UnhaltedChunkIsClean(db, t, rows, off, chunk, f);
      }
    } else {
      ResumeTableConverges(db, t, rows, off, chunk, f);
      CleanResumeTable(db, t, rows, off, chunk);
      if !ResumeTable(db, t, rows, off, chunk, f).halted {
        UnhaltedResumeTableIsClean(db, t, rows, off, chunk, f);
      }
    }
  }

  // ----- the whole run -----

  /** A table that is not in the plan keeps its offset. */
  lemma {:induction false} ResumeTablesKeepsOtherOffsets(db: Db, plan: seq<(Table, seq<SourceRow>)>, offs: Offsets,
                                                        chunk: nat, f: Oracle, u: Table)
    requires forall i :: 0 <= i < |plan| ==> plan[i].0 != u
    ensures ResumeTables(db, plan, offs, chunk, f).offsets.Get(u) == offs.Get(u)
    decreases |plan|
  {
    if plan != [] {
      var t := plan[0].0;
      var r := ResumeStep(db, t, plan[0].1, offs.Get(t), chunk, f);
      if !r.halted {
        assert forall i :: 0 <= i < |plan[1..]| ==> plan[1..][i] == plan[i + 1];
        ResumeTablesKeepsOtherOffsets(r.db, plan[1..], offs.Set(t, r.offset), chunk, f, u);
      }
    }
  }

  lemma {:induction false} ResumeTablesKeepsMappingTable(db: Db, plan: seq<(Table, seq<SourceRow>)>, offs: Offsets,
                                                        chunk: nat, f: Oracle)
    ensures ResumeTables(db, plan, offs, chunk, f).db.hasMappingTable == db.hasMappingTable
    decreases |plan|
  {
    if plan != [] {
      var t := plan[0].0;
      ResumeStepExtends(db, t, plan[0].1, offs.Get(t), chunk, f);
      var r := ResumeStep(db, t, plan[0].1, offs.Get(t), chunk, f);
      if !r.halted {
        ResumeTablesKeepsMappingTable(r.db, plan[1..], offs.Set(t, r.offset), chunk, f);
      }
    }
  }

  lemma {:induction false} ResumeTablesConverge(db: Db, plan: seq<(Table, seq<SourceRow>)>, offs: Offsets,
                                               chunk: nat, f: Oracle)
    requires db.hasMappingTable && CrashOnly(f) && WellFormedPlan(plan)
    ensures var i := ResumeTables(db, plan, offs, chunk, f);
      i.halted ==> ResumeTables(i.db, plan, i.offsets, chunk, NoFaults) == ResumeTables(db, plan, offs, chunk, NoFaults)
    decreases |plan|
  {
    if plan != [] {
      var t, rows := plan[0].0, plan[0].1;
      var r := ResumeStep(db, t, rows, offs.Get(t), chunk, f);
      var offs1 := offs.Set(t, r.offset);
      ResumeStepConverges(db, t, rows, offs.Get(t), chunk, f);
      var clean := ResumeStep(db, t, rows, offs.Get(t), chunk, NoFaults);
      if r.halted {
        OffsetsExtensional(offs1.Set(t, clean.offset), offs.Set(t, clean.offset));
      } else {
        var rest := plan[1..];
        WellFormedTail(plan);
        ResumeStepExtends(db, t, rows, offs.Get(t), chunk, f);
        var i := ResumeTables(r.db, rest, offs1, chunk, f);
        if i.halted {
          assert rest != [];
          assert t != CaseTagTable;
          ResumeTablesConverge(r.db, rest, offs1, chunk, f);
          assert forall j :: 0 <= j < |rest| ==> rest[j] == plan[j + 1];
          ResumeTablesKeepsOtherOffsets(r.db, rest, offs1, chunk, f, t);
          ResumeTablesKeepsMappingTable(r.db, rest, offs1, chunk, f);
          ResumeTableProgress(db, t, rows, offs.Get(t), chunk, f);
          OffsetsExtensional(i.offsets.Set(t, r.offset), i.offsets);
        }
      }
    }
  }

  /** Resumability of the whole run: whatever crashed the chunked migrator,
      re-invoking it without failures on the target and the state file the
      crashed run left behind ends with the same target and the same state
      file as one run without failures. */
  lemma ResumedRunConverges(db: Db, src: Source, saved: Option<Offsets>, chunk: nat, f: Oracle)
    requires CrashOnly(f)
    ensures var i := RunResumable(db, src, saved, chunk, f);
      i.halted ==> RunResumable(i.db, src, Some(i.offsets), chunk, NoFaults) == RunResumable(db, src, saved, chunk, NoFaults)
  {
    if f(Bootstrap) != FatalFault {
      var d := EnsureMappingsTable(db);
      var i := ResumeTables(d, Plan(src), InitialOffsets(saved), chunk, f);
      ResumeTablesKeepsMappingTable(d, Plan(src), InitialOffsets(saved), chunk, f);
      assert EnsureMappingsTable(i.db) == i.db;
      ResumeTablesConverge(d, Plan(src), InitialOffsets(saved), chunk, f);
    }
  }

  /** A crash-only run that did not halt met no failure. */
  lemma {:induction false} UnhaltedResumeTablesIsClean(db: Db, plan: seq<(Table, seq<SourceRow>)>, offs: Offsets,
                                                      chunk: nat, f: Oracle)
    requires db.hasMappingTable && CrashOnly(f) && WellFormedPlan(plan)
    requires !ResumeTables(db, plan, offs, chunk, f).halted
    ensures ResumeTables(db, plan, offs, chunk, f) == ResumeTables(db, plan, offs, chunk, NoFaults)
    decreases |plan|
  {
    if plan != [] {
      var t, rows := plan[0].0, plan[0].1;
      ResumeStepConverges(db, t, rows, offs.Get(t), chunk, f);
      ResumeStepExtends(db, t, rows, offs.Get(t), chunk, f);
      var r := ResumeStep(db, t, rows, offs.Get(t), chunk, f);
      var rest := plan[1..];
      WellFormedTail(plan);
      UnhaltedResumeTablesIsClean(r.db, rest, offs.Set(t, r.offset), chunk, f);
    }
  }
}
