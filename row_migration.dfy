/** The whole-table migrator (scripts/row_migration.js) as statements over a
    `TargetDb`.  Every converter, table loop and the run itself is proved to
    leave the database exactly as the corresponding function of
    `MigrationSpec` / `ExhaustiveRun` says, so the properties proved about
    those functions are properties of these methods.

    `fault` is the failure oracle's verdict for the row: `FatalFault` when a
    query outside the transaction throws (the exception leaves the converter
    and ends the run), `TxFault` when a statement between BEGIN and COMMIT
    throws (ROLLBACK, logged, next row). */
module RowMigration {
  import opened Wrappers
  import opened MigrationSchema
  import opened MigrationSpec
  import opened BatchProperties
  import opened TargetDatabase
  import ExhaustiveRun

  /** The `event_type` of an audit event: "migration:import:user" and so on. */
  function ImportEventType(entity: string): (t: string)
    ensures t == AuditEvent(0, None, None, entity, 0, None).eventType
  {
    "migration:import:" + entity
  }

  /** `migrateUsers`' loop body: skip if mapped, adopt a user with the same
      email, else user + mapping + audit event in one transaction. */
  method MigrateUser(db: TargetDb, u: SourceUser, fault: Fault) returns (halted: bool)
    modifies db
    ensures Step(db.Snapshot(), halted) == ConvertUser(old(db.Snapshot()), u, fault)
  {
    if fault == FatalFault || !db.hasMappingTable {
      return true;
    }
    var key := (UserTable, u.id);
    var mapped := db.SelectMapping(UserTable, Some(u.id));
    if mapped.Some? {
      return false;
    }
    var existing := db.SelectUserByEmail(u.email);
    if existing.Some? {
      db.InsertMappingOnConflictDoNothing(key, existing.value);
      return false;
    }
    var begin := db.Snapshot();
    var uid := db.InsertUser(u.email, u.role, u.mfaEnabled);
    db.InsertMapping(key, uid);
    var _ := db.InsertEvent(None, Some(uid), ImportEventType("user"), ImportPayload(u.id, Some(u.email)));
    if fault == TxFault {
      db.Rollback(begin);
    }
    return false;
  }

  /** `migrateTags`' loop body: as for users, adopting by name. */
  method MigrateTag(db: TargetDb, t: SourceTag, fault: Fault) returns (halted: bool)
    modifies db
    ensures Step(db.Snapshot(), halted) == ConvertTag(old(db.Snapshot()), t, fault)
  {
    if fault == FatalFault || !db.hasMappingTable {
      return true;
    }
    var key := (TagTable, t.id);
    var mapped := db.SelectMapping(TagTable, Some(t.id));
    if mapped.Some? {
      return false;
    }
    var existing := db.SelectTagByName(t.name);
    if existing.Some? {
      db.InsertMappingOnConflictDoNothing(key, existing.value);
      return false;
    }
    var begin := db.Snapshot();
    var tid := db.InsertTag(t.name);
    db.InsertMapping(key, tid);
    var _ := db.InsertEvent(None, None, ImportEventType("tag"), ImportPayload(t.id, Some(t.name)));
    if fault == TxFault {
      db.Rollback(begin);
    }
    return false;
  }

  /** `migrateCases`' loop body: the reporter is resolved through the
      mapping table before the transaction. */
  method MigrateCase(db: TargetDb, c: SourceCase, fault: Fault) returns (halted: bool)
    modifies db
    ensures Step(db.Snapshot(), halted) == ConvertCase(old(db.Snapshot()), c, fault)
  {
    if fault == FatalFault || !db.hasMappingTable {
      return true;
    }
    var key := (CaseTable, c.id);
    var mapped := db.SelectMapping(CaseTable, Some(c.id));
    if mapped.Some? {
      return false;
    }
    var reporter := db.SelectMapping(UserTable, c.reporterId);
    var begin := db.Snapshot();
    var cid := db.InsertCase(reporter, c.kind, c.status, c.lossAmount, c.currency);
    db.InsertMapping(key, cid);
    var _ := db.InsertEvent(Some(cid), reporter, ImportEventType("case"), ImportPayload(c.id, None));
    if fault == TxFault {
      db.Rollback(begin);
    }
    return false;
  }

  /** `migrateEvidence`' loop body: the case is resolved before the
      transaction. */
  method MigrateEvidence(db: TargetDb, e: SourceEvidence, fault: Fault) returns (halted: bool)
    modifies db
    ensures Step(db.Snapshot(), halted) == ConvertEvidence(old(db.Snapshot()), e, fault)
  {
    if fault == FatalFault || !db.hasMappingTable {
      return true;
    }
    var key := (EvidenceTable, e.id);
    var mapped := db.SelectMapping(EvidenceTable, Some(e.id));
    if mapped.Some? {
      return false;
    }
    var caseTarget := db.SelectMapping(CaseTable, e.caseId);
    var begin := db.Snapshot();
    var eid := db.InsertEvidence(caseTarget, e.fileName, e.sha256, e.mimeType, e.storageUrl);
    db.InsertMapping(key, eid);
    var _ := db.InsertEvent(caseTarget, None, ImportEventType("evidence"), ImportPayload(e.id, Some(e.fileName)));
    if fault == TxFault {
      db.Rollback(begin);
    }
    return false;
  }

  /** `migrateCaseEvents`' loop body: the event is copied with its case and
      actor resolved, and gets no audit event. */
  method MigrateCaseEvent(db: TargetDb, ev: SourceCaseEvent, fault: Fault) returns (halted: bool)
    modifies db
    ensures Step(db.Snapshot(), halted) == ConvertCaseEvent(old(db.Snapshot()), ev, fault)
  {
    if fault == FatalFault || !db.hasMappingTable {
      return true;
    }
    var key := (CaseEventTable, ev.id);
    var mapped := db.SelectMapping(CaseEventTable, Some(ev.id));
    if mapped.Some? {
      return false;
    }
    var caseTarget := db.SelectMapping(CaseTable, ev.caseId);
    var actorTarget := db.SelectMapping(UserTable, ev.actorId);
    var begin := db.Snapshot();
    var eid := db.InsertEvent(caseTarget, actorTarget, ev.eventType, CopiedPayload(ev.payloadJson));
    db.InsertMapping(key, eid);
    if fault == TxFault {
      db.Rollback(begin);
    }
    return false;
  }

  /** `migrateCaseTags`' loop body: skipped while the case or the tag is
      unmapped; a failing insert is caught and logged. */
  method MigrateCaseTag(db: TargetDb, ct: SourceCaseTag, fault: Fault) returns (halted: bool)
    modifies db
    ensures Step(db.Snapshot(), halted) == ConvertCaseTag(old(db.Snapshot()), ct, fault)
  {
    if fault == FatalFault || !db.hasMappingTable {
      return true;
    }
    var caseTarget := db.SelectMapping(CaseTable, Some(ct.caseId));
    var tagTarget := db.SelectMapping(TagTable, Some(ct.tagId));
    if caseTarget.None? || tagTarget.None? {
      return false;
    }
    if fault != TxFault {
      db.InsertCaseTag(caseTarget.value, tagTarget.value);
    }
    return false;
  }

  /** The converter of the row's table. */
  method MigrateRow(db: TargetDb, row: SourceRow, fault: Fault) returns (halted: bool)
    modifies db
    ensures Step(db.Snapshot(), halted) == Convert(old(db.Snapshot()), row, fault)
  {
    match row
    case UserRow(u) => halted := MigrateUser(db, u, fault);
    case TagRow(t) => halted := MigrateTag(db, t, fault);
    case CaseRow(c) => halted := MigrateCase(db, c, fault);
    case EvidenceRow(e) => halted := MigrateEvidence(db, e, fault);
    case CaseEventRow(ev) => halted := MigrateCaseEvent(db, ev, fault);
    case CaseTagRow(ct) => halted := MigrateCaseTag(db, ct, fault);
  }

  /** `for (const row of res.rows)`: each row to its converter, in order; an
      exception that escapes a converter ends the loop. */
  method MigrateRows(db: TargetDb, rows: seq<SourceRow>, f: Oracle) returns (halted: bool)
    modifies db
    ensures Step(db.Snapshot(), halted) == ConvertAll(old(db.Snapshot()), rows, f)
  {
    ghost var start := db.Snapshot();
    var i := 0;
    halted := false;
    while i < |rows| && !halted
      invariant 0 <= i <= |rows|
      invariant !halted ==> ConvertAll(start, rows[..i], f) == Step(db.Snapshot(), false)
      invariant halted ==> ConvertAll(start, rows, f) == Step(db.Snapshot(), true)
    {
      ConvertAllSnoc(start, rows[..i], rows[i], f);
      assert rows[..i] + [rows[i]] == rows[..i + 1];
      halted := MigrateRow(db, rows[i], f(AtRow(rows[i])));
      if halted {
        ConvertAllAppend(start, rows[..i + 1], rows[i + 1..], f);
        assert rows[..i + 1] + rows[i + 1..] == rows;
      }
      i := i + 1;
    }
    if !halted {
      assert rows[..i] == rows;
    }
  }

  /** One `migrate*` function: the table's SELECT (which may throw), then the
      loop over its rows. */
  method MigrateTable(db: TargetDb, t: Table, rows: seq<SourceRow>, f: Oracle) returns (halted: bool)
    modifies db
    ensures Step(db.Snapshot(), halted) == ExhaustiveRun.MigrateTable(old(db.Snapshot()), t, rows, f)
  {
    if f(Fetch(t, 0)) == FatalFault {
      return true;
    }
    halted := MigrateRows(db, rows, f);
  }

  /** `run`: ensure the mapping table, then the six tables in order; the
      first exception that escapes is caught, logged, and ends the run. */
  method Run(db: TargetDb, src: Source, f: Oracle) returns (halted: bool)
    modifies db
    ensures Step(db.Snapshot(), halted) == ExhaustiveRun.Run(old(db.Snapshot()), src, f)
  {
    if f(Bootstrap) == FatalFault {
      return true;
    }
    db.CreateMappingsTable();
    ghost var start := db.Snapshot();
    var plan := ExhaustiveRun.Plan(src);
    var i := 0;
    halted := false;
    while i < |plan| && !halted
      invariant 0 <= i <= |plan|
      invariant !halted ==> ExhaustiveRun.RunTables(db.Snapshot(), plan[i..], f) == ExhaustiveRun.RunTables(start, plan, f)
      invariant halted ==> Step(db.Snapshot(), true) == ExhaustiveRun.RunTables(start, plan, f)
    {
      assert plan[i..][1..] == plan[i + 1..];
      halted := MigrateTable(db, plan[i].0, plan[i].1, f);
      i := i + 1;
    }
  }
}
