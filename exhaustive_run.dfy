/** The whole-table migrator (scripts/row_migration.js) as a function of the
    source, the target and the failure oracle: bootstrap `migration_mappings`,
    then the six tables in dependency order, each read in full, in the
    unspecified order the unordered SELECT returns. */
module ExhaustiveRun {
  import opened Wrappers
  import opened MigrationSchema
  import opened MigrationSpec
  import opened BatchProperties
  import ConversionProperties

  // ----- the rows of each table as converter input -----

  function UserRows(us: seq<SourceUser>): (r: seq<SourceRow>)
    ensures |r| == |us| && forall i :: 0 <= i < |us| ==> r[i] == UserRow(us[i])
  { seq(|us|, i requires 0 <= i < |us| => UserRow(us[i])) }

  function TagRows(ts: seq<SourceTag>): (r: seq<SourceRow>)
    ensures |r| == |ts| && forall i :: 0 <= i < |ts| ==> r[i] == TagRow(ts[i])
  { seq(|ts|, i requires 0 <= i < |ts| => TagRow(ts[i])) }

  function CaseRows(cs: seq<SourceCase>): (r: seq<SourceRow>)
    ensures |r| == |cs| && forall i :: 0 <= i < |cs| ==> r[i] == CaseRow(cs[i])
  { seq(|cs|, i requires 0 <= i < |cs| => CaseRow(cs[i])) }

  function EvidenceRows(es: seq<SourceEvidence>): (r: seq<SourceRow>)
    ensures |r| == |es| && forall i :: 0 <= i < |es| ==> r[i] == EvidenceRow(es[i])
  { seq(|es|, i requires 0 <= i < |es| => EvidenceRow(es[i])) }

  function CaseEventRows(evs: seq<SourceCaseEvent>): (r: seq<SourceRow>)
    ensures |r| == |evs| && forall i :: 0 <= i < |evs| ==> r[i] == CaseEventRow(evs[i])
  { seq(|evs|, i requires 0 <= i < |evs| => CaseEventRow(evs[i])) }

  function CaseTagRows(cts: seq<SourceCaseTag>): (r: seq<SourceRow>)
    ensures |r| == |cts| && forall i :: 0 <= i < |cts| ==> r[i] == CaseTagRow(cts[i])
  { seq(|cts|, i requires 0 <= i < |cts| => CaseTagRow(cts[i])) }

  /** The tables in the order `run` migrates them: parents before children. */
  function Plan(src: Source): (plan: seq<(Table, seq<SourceRow>)>)
    ensures |plan| == 6
    ensures plan[0].0 == UserTable && plan[1].0 == TagTable && plan[2].0 == CaseTable
    ensures plan[3].0 == EvidenceTable && plan[4].0 == CaseEventTable && plan[5].0 == CaseTagTable
    ensures WellFormedPlan(plan)
  {
    [(UserTable, UserRows(src.users)), (TagTable, TagRows(src.tags)), (CaseTable, CaseRows(src.cases)),
     (EvidenceTable, EvidenceRows(src.evidence)), (CaseEventTable, CaseEventRows(src.caseEvents)),
     (CaseTagTable, CaseTagRows(src.caseTags))]
  }

  /** Each entry holds rows of its own table, the tables are distinct, and
      CaseTag, the only table without mappings, comes last. */
  ghost predicate WellFormedPlan(plan: seq<(Table, seq<SourceRow>)>) {
    && (forall i :: 0 <= i < |plan| ==> SameTable(plan[i].1, plan[i].0))
    && (forall i, j :: 0 <= i < j < |plan| ==> plan[i].0 != plan[j].0)
    && (forall i :: 0 <= i < |plan| - 1 ==> plan[i].0 != CaseTagTable)
  }

  /** Dropping the first entry keeps a plan well formed. */
  lemma WellFormedTail(plan: seq<(Table, seq<SourceRow>)>)
    requires plan != [] && WellFormedPlan(plan)
    ensures WellFormedPlan(plan[1..])
  {
    var rest := plan[1..];
    forall i | 0 <= i < |rest| ensures SameTable(rest[i].1, rest[i].0) {
      assert rest[i] == plan[i + 1];
    }
    forall i, j | 0 <= i < j < |rest| ensures rest[i].0 != rest[j].0 {
      assert rest[i] == plan[i + 1] && rest[j] == plan[j + 1];
    }
  }

  // ----- the run -----

  /** `ensureMappingsTable`: CREATE TABLE / UNIQUE INDEX IF NOT EXISTS. */
  function EnsureMappingsTable(db: Db): (db': Db)
    ensures db'.hasMappingTable
    ensures db.hasMappingTable ==> db' == db
  {
    db.(hasMappingTable := true)
  }

  /** One `migrate*` function: fetch the table (a failing SELECT escapes)
      and feed every row to the converter. */
  function MigrateTable(db: Db, t: Table, rows: seq<SourceRow>, f: Oracle): Step {
    if f(Fetch(t, 0)) == FatalFault then Step(db, true) else ConvertAll(db, rows, f)
  }

  function RunTables(db: Db, plan: seq<(Table, seq<SourceRow>)>, f: Oracle): Step
    decreases |plan|
  {
    if plan == [] then Step(db, false)
    else
      var s := MigrateTable(db, plan[0].0, plan[0].1, f);
      if s.halted then s else RunTables(s.db, plan[1..], f)
  }

  /** `run`: the first exception that escapes ends the run (its catch only
      logs, so the process exit status is not affected). */
  function Run(db: Db, src: Source, f: Oracle): Step {
    if f(Bootstrap) == FatalFault then Step(db, true)
    else RunTables(EnsureMappingsTable(db), Plan(src), f)
  }

  // ----- basic facts -----

  lemma {:induction false} RunTablesExtends(db: Db, plan: seq<(Table, seq<SourceRow>)>, f: Oracle)
    ensures Extends(db, RunTables(db, plan, f).db)
    decreases |plan|
  {
    if plan != [] {
      var s := MigrateTable(db, plan[0].0, plan[0].1, f);
      ConvertAllExtends(db, plan[0].1, f);
      if !s.halted {
        RunTablesExtends(s.db, plan[1..], f);
        ExtendsTransitive(db, s.db, RunTables(s.db, plan[1..], f).db);
      }
    }
  }

  /** The mapping table exists before the first row is read: a run that gets
      past the bootstrap leaves it in place. */
  lemma RunEnsuresMappingTable(db: Db, src: Source, f: Oracle)
    ensures f(Bootstrap) == FatalFault ==> Run(db, src, f) == Step(db, true)
    ensures f(Bootstrap) != FatalFault ==> Run(db, src, f).db.hasMappingTable
  {
    if f(Bootstrap) != FatalFault {
      RunTablesExtends(EnsureMappingsTable(db), Plan(src), f);
    }
  }

  /** An exception that escapes while migrating table k ends the run: the
      tables after k are never touched. */
  lemma {:induction false} HaltStopsLaterTables(db: Db, plan: seq<(Table, seq<SourceRow>)>, k: nat, f: Oracle)
    requires k < |plan|
    requires RunTables(db, plan[..k + 1], f).halted
    ensures RunTables(db, plan, f) == RunTables(db, plan[..k + 1], f)
    decreases k
  {
    var s := MigrateTable(db, plan[0].0, plan[0].1, f);
    assert plan[..k + 1][0] == plan[0];
    if !s.halted {
      assert plan[..k + 1][1..] == plan[1..][..k];
      HaltStopsLaterTables(s.db, plan[1..], k - 1, f);
    }
  }

  /** The whole run keeps the target consistent. */
  lemma {:induction false} RunTablesPreservesConsistent(db: Db, plan: seq<(Table, seq<SourceRow>)>, f: Oracle)
    requires Consistent(db)
    ensures Consistent(RunTables(db, plan, f).db)
    decreases |plan|
  {
    if plan != [] {
      var s := MigrateTable(db, plan[0].0, plan[0].1, f);
      ConvertAllPreservesConsistent(db, plan[0].1, f);
      if !s.halted {
        RunTablesPreservesConsistent(s.db, plan[1..], f);
      }
    }
  }

  lemma RunPreservesConsistent(db: Db, src: Source, f: Oracle)
    requires Consistent(db)
    ensures Consistent(Run(db, src, f).db)
  {
    if f(Bootstrap) != FatalFault {
      RunTablesPreservesConsistent(EnsureMappingsTable(db), Plan(src), f);
    }
  }

  // ----- re-runs -----

  /** Every row of every table of the plan is settled. */
  ghost predicate PlanSettled(db: Db, plan: seq<(Table, seq<SourceRow>)>) {
    forall i :: 0 <= i < |plan| ==> AllSettled(db, plan[i].1)
  }

  /** Once every row is settled a run writes nothing, whatever fails. */
  lemma {:induction false} SettledRunIsNoop(db: Db, plan: seq<(Table, seq<SourceRow>)>, f: Oracle)
    requires db.hasMappingTable && PlanSettled(db, plan)
    ensures RunTables(db, plan, f).db == db
    decreases |plan|
  {
    if plan != [] {
      SettledBatchIsNoop(db, plan[0].1, f);
      SettledRunIsNoop(db, plan[1..], f);
    }
  }

  /** Settledness of a row of table `t` survives migrating later tables. */
  lemma {:induction false} SettledStableRun(db: Db, row: SourceRow, plan: seq<(Table, seq<SourceRow>)>, f: Oracle)
    requires Settled(db, row) && !row.CaseTagRow?
    ensures Settled(RunTables(db, plan, f).db, row)
    decreases |plan|
  {
    if plan != [] {
      var s := MigrateTable(db, plan[0].0, plan[0].1, f);
      if f(Fetch(plan[0].0, 0)) != FatalFault {
        SettledStableAll(db, row, plan[0].1, f);
      }
      if !s.halted {
        SettledStableRun(s.db, row, plan[1..], f);
      }
    }
  }

  /** Rows of a table settled before the later tables run stay settled. */
  lemma SettledThroughRest(d: Db, t: Table, rows: seq<SourceRow>, rest: seq<(Table, seq<SourceRow>)>, f: Oracle)
    requires AllSettled(d, rows) && SameTable(rows, t)
    requires rest != [] ==> t != CaseTagTable
    ensures AllSettled(RunTables(d, rest, f).db, rows)
  {
    if rest == [] {
      assert RunTables(d, rest, f).db == d;
    } else {
      forall j | 0 <= j < |rows| ensures Settled(RunTables(d, rest, f).db, rows[j]) {
        assert Settled(d, rows[j]);
        SettledStableRun(d, rows[j], rest, f);
      }
    }
  }

  /** A run in which no row fails leaves every source row settled. */
  lemma {:induction false} CleanRunSettles(db: Db, plan: seq<(Table, seq<SourceRow>)>)
    requires db.hasMappingTable && WellFormedPlan(plan)
    ensures !RunTables(db, plan, NoFaults).halted
    ensures PlanSettled(RunTables(db, plan, NoFaults).db, plan)
    decreases |plan|
  {
    if plan != [] {
      var rows := plan[0].1;
      ConvertAllSettles(db, rows, plan[0].0);
      ConvertAllExtends(db, rows, NoFaults);
      var d := ConvertAll(db, rows, NoFaults).db;
      WellFormedTail(plan);
      CleanRunSettles(d, plan[1..]);
      var end := RunTables(d, plan[1..], NoFaults).db;
      forall i | 0 <= i < |plan| ensures AllSettled(end, plan[i].1) {
        if i == 0 {
          SettledThroughRest(d, plan[0].0, rows, plan[1..], NoFaults);
        } else {
          assert plan[i] == plan[1..][i - 1];
        }
      }
    }
  }

  /** Two reads of the source that hold the same rows in each table,
      possibly in another order: the SELECTs have no ORDER BY. */
  ghost predicate SameRows(src: Source, src2: Source) {
    && multiset(src2.users) == multiset(src.users)
    && multiset(src2.tags) == multiset(src.tags)
    && multiset(src2.cases) == multiset(src.cases)
    && multiset(src2.evidence) == multiset(src.evidence)
    && multiset(src2.caseEvents) == multiset(src.caseEvents)
    && multiset(src2.caseTags) == multiset(src.caseTags)
  }

  /** Converter input built from a reordering of a table holds only rows of
      the original. */
  lemma RowsReordered<T>(xs: seq<T>, ys: seq<T>, rows: seq<SourceRow>, rows2: seq<SourceRow>, mk: T -> SourceRow)
    requires multiset(ys) == multiset(xs)
    requires |rows| == |xs| && forall i :: 0 <= i < |xs| ==> rows[i] == mk(xs[i])
    requires |rows2| == |ys| && forall i :: 0 <= i < |ys| ==> rows2[i] == mk(ys[i])
    ensures forall r :: r in rows2 ==> r in rows
  {
    forall r | r in rows2 ensures r in rows {
      var j :| 0 <= j < |ys| && rows2[j] == r;
      assert ys[j] in multiset(xs);
      var k :| 0 <= k < |xs| && xs[k] == ys[j];
      assert rows[k] == r;
    }
  }

  /** Settledness is about rows, not positions. */
  lemma SettledSubset(db: Db, rows: seq<SourceRow>, rows2: seq<SourceRow>)
    requires AllSettled(db, rows) && forall r :: r in rows2 ==> r in rows
    ensures AllSettled(db, rows2)
  {
    forall j | 0 <= j < |rows2| ensures Settled(db, rows2[j]) {
      assert rows2[j] in rows;
      var k :| 0 <= k < |rows| && rows[k] == rows2[j];
    }
  }

  /** A plan settled for one read of the source is settled for any read of
      the same rows. */
  lemma PlanSettledReordered(db: Db, src: Source, src2: Source)
    requires SameRows(src, src2) && PlanSettled(db, Plan(src))
    ensures PlanSettled(db, Plan(src2))
  {
    var p, p2 := Plan(src), Plan(src2);
    RowsReordered(src.users, src2.users, p[0].1, p2[0].1, x => UserRow(x));
    RowsReordered(src.tags, src2.tags, p[1].1, p2[1].1, x => TagRow(x));
    RowsReordered(src.cases, src2.cases, p[2].1, p2[2].1, x => CaseRow(x));
    RowsReordered(src.evidence, src2.evidence, p[3].1, p2[3].1, x => EvidenceRow(x));
    RowsReordered(src.caseEvents, src2.caseEvents, p[4].1, p2[4].1, x => CaseEventRow(x));
    RowsReordered(src.caseTags, src2.caseTags, p[5].1, p2[5].1, x => CaseTagRow(x));
    forall i | 0 <= i < 6 ensures AllSettled(db, p2[i].1) {
      assert AllSettled(db, p[i].1);
      SettledSubset(db, p[i].1, p2[i].1);
    }
  }

  /** Idempotency: after a run in which no row failed, running again, on
      the same rows read in any order and with any failures at all, leaves
      the target exactly as it is. */
  lemma RerunIsIdempotent(db: Db, src: Source, src2: Source, g: Oracle)
    requires SameRows(src, src2)
    requires !Run(db, src, NoFaults).halted
    ensures Run(Run(db, src, NoFaults).db, src2, g).db == Run(db, src, NoFaults).db
  {
    var d := EnsureMappingsTable(db);
    CleanRunSettles(d, Plan(src));
    var once := RunTables(d, Plan(src), NoFaults).db;
    RunTablesExtends(d, Plan(src), NoFaults);
    if g(Bootstrap) != FatalFault {
      assert EnsureMappingsTable(once) == once;
      PlanSettledReordered(once, src, src2);
      SettledRunIsNoop(once, Plan(src2), g);
    }
  }

  /** Recovery: a run that crashed anywhere, followed by a run without
      failures, leaves the same target as one run without failures. */
  lemma {:induction false} RunTablesConverge(db: Db, plan: seq<(Table, seq<SourceRow>)>, f: Oracle)
    requires db.hasMappingTable && CrashOnly(f) && WellFormedPlan(plan)
    ensures RunTables(RunTables(db, plan, f).db, plan, NoFaults) == RunTables(db, plan, NoFaults)
    decreases |plan|
  {
    if plan != [] {
      var t, rows := plan[0].0, plan[0].1;
      var m := MigrateTable(db, t, rows, f);
      ConvertAllSettles(db, rows, t);
      var clean := ConvertAll(db, rows, NoFaults).db;
      WellFormedTail(plan);
      if m.halted {
        if f(Fetch(t, 0)) != FatalFault {
          var k := HaltIndex(rows, f);
          CrashedBatch(db, rows, f);
          assert rows[..k] + rows[k..] == rows;
          Replay(db, rows[..k], rows[k..], t);
        }
      } else {
        CrashedBatch(db, rows, f);
        assert m == Step(clean, false);
        ConvertAllExtends(db, rows, NoFaults);
        RunTablesConverge(clean, plan[1..], f);
        var crashed := RunTables(clean, plan[1..], f).db;
        RunTablesExtends(clean, plan[1..], f);
        SettledThroughRest(clean, t, rows, plan[1..], f);
        SettledBatchIsNoop(crashed, rows, NoFaults);
      }
    }
  }

  lemma CrashedRunThenRerunConverges(db: Db, src: Source, f: Oracle)
    requires CrashOnly(f)
    ensures Run(Run(db, src, f).db, src, NoFaults) == Run(db, src, NoFaults)
  {
    var d := EnsureMappingsTable(db);
    if f(Bootstrap) != FatalFault {
      RunTablesExtends(d, Plan(src), f);
      assert EnsureMappingsTable(RunTables(d, Plan(src), f).db) == RunTables(d, Plan(src), f).db;
      RunTablesConverge(d, Plan(src), f);
    }
  }
}
