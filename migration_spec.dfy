/** What one row conversion does to the target, as a function of the target
    before it, the source row and the oracle's verdict for that row; and what a
    sequence of conversions does.  The imperative converters in RowMigration
    are proved to change the target exactly as these functions say. */
module MigrationSpec {
  import opened Wrappers
  import opened MigrationSchema

  /** The target after a step, and whether an exception escaped (which ends
      the run: `run`'s catch only logs). */
  datatype Step = Step(db: Db, halted: bool)

  /** The audit event every imported User, Tag, Case and Evidence row gets. */
  function AuditEvent(id: int, caseId: Option<int>, actorId: Option<int>, entity: string,
                      sourceId: int, detail: Option<string>): CaseEvent
  {
    CaseEvent(id, caseId, actorId, "migration:import:" + entity, ImportPayload(sourceId, detail))
  }

  /** The guard every converter starts with: a failing query outside the row's
      transaction (also the mapping lookup when `migration_mappings` does not
      exist) ends the run before anything is written. */
  predicate Escapes(db: Db, f: Fault) {
    f == FatalFault || !db.hasMappingTable
  }

  function ConvertUser(db: Db, u: SourceUser, f: Fault): Step {
    var key := (UserTable, u.id);
    if Escapes(db, f) then Step(db, true)
    else if key in db.mappings then Step(db, false)
    else match FindUserByEmail(db.users, u.email)
      case Some(existing) =>
        // adoption: INSERT ... ON CONFLICT DO NOTHING, outside any transaction
        Step(db.(mappings := db.mappings[key := existing]), false)
      case None =>
        if f == TxFault then Step(db, false)
        else
          var uid := db.nextId;
          Step(db.(users := db.users + [User(uid, u.email, u.role, u.mfaEnabled)],
                   mappings := db.mappings[key := uid],
                   events := db.events + [AuditEvent(uid + 1, None, Some(uid), "user", u.id, Some(u.email))],
                   nextId := uid + 2), false)
  }

  function ConvertTag(db: Db, t: SourceTag, f: Fault): Step {
    var key := (TagTable, t.id);
    if Escapes(db, f) then Step(db, true)
    else if key in db.mappings then Step(db, false)
    else match FindTagByName(db.tags, t.name)
      case Some(existing) => Step(db.(mappings := db.mappings[key := existing]), false)
      case None =>
        if f == TxFault then Step(db, false)
        else
          var tid := db.nextId;
          Step(db.(tags := db.tags + [Tag(tid, t.name)],
                   mappings := db.mappings[key := tid],
                   events := db.events + [AuditEvent(tid + 1, None, None, "tag", t.id, Some(t.name))],
                   nextId := tid + 2), false)
  }

  function ConvertCase(db: Db, c: SourceCase, f: Fault): Step {
    var key := (CaseTable, c.id);
    if Escapes(db, f) then Step(db, true)
    else if key in db.mappings then Step(db, false)
    else
      var reporter := Lookup(db, UserTable, c.reporterId);
      if f == TxFault then Step(db, false)
      else
        var cid := db.nextId;
        Step(db.(cases := db.cases + [Case(cid, reporter, c.kind, c.status, c.lossAmount, c.currency)],
                 mappings := db.mappings[key := cid],
                 events := db.events + [AuditEvent(cid + 1, Some(cid), reporter, "case", c.id, None)],
                 nextId := cid + 2), false)
  }

  function ConvertEvidence(db: Db, e: SourceEvidence, f: Fault): Step {
    var key := (EvidenceTable, e.id);
    if Escapes(db, f) then Step(db, true)
    else if key in db.mappings then Step(db, false)
    else
      var caseTarget := Lookup(db, CaseTable, e.caseId);
      if f == TxFault then Step(db, false)
      else
        var eid := db.nextId;
        Step(db.(evidence := db.evidence + [Evidence(eid, caseTarget, e.fileName, e.sha256, e.mimeType, e.storageUrl)],
                 mappings := db.mappings[key := eid],
                 events := db.events + [AuditEvent(eid + 1, caseTarget, None, "evidence", e.id, Some(e.fileName))],
                 nextId := eid + 2), false)
  }

  /** A source CaseEvent is copied with its foreign keys resolved; it gets no
      audit event of its own. */
  function ConvertCaseEvent(db: Db, ev: SourceCaseEvent, f: Fault): Step {
    var key := (CaseEventTable, ev.id);
    if Escapes(db, f) then Step(db, true)
    else if key in db.mappings then Step(db, false)
    else
      var caseTarget := Lookup(db, CaseTable, ev.caseId);
      var actorTarget := Lookup(db, UserTable, ev.actorId);
      if f == TxFault then Step(db, false)
      else
        var eid := db.nextId;
        Step(db.(events := db.events + [CaseEvent(eid, caseTarget, actorTarget, ev.eventType, CopiedPayload(ev.payloadJson))],
                 mappings := db.mappings[key := eid],
                 nextId := eid + 1), false)
  }

  /** A CaseTag is skipped while its Case or its Tag is unmapped; otherwise the
      pair is inserted with ON CONFLICT DO NOTHING (a failing insert is only
      logged). */
  function ConvertCaseTag(db: Db, ct: SourceCaseTag, f: Fault): Step {
    if Escapes(db, f) then Step(db, true)
    else
      var caseTarget := Lookup(db, CaseTable, Some(ct.caseId));
      var tagTarget := Lookup(db, TagTable, Some(ct.tagId));
      if caseTarget.None? || tagTarget.None? || f == TxFault then Step(db, false)
      else Step(db.(caseTags := db.caseTags + {(caseTarget.value, tagTarget.value)}), false)
  }

  function Convert(db: Db, row: SourceRow, f: Fault): Step {
    match row
    case UserRow(u) => ConvertUser(db, u, f)
    case TagRow(t) => ConvertTag(db, t, f)
    case CaseRow(c) => ConvertCase(db, c, f)
    case EvidenceRow(e) => ConvertEvidence(db, e, f)
    case CaseEventRow(ev) => ConvertCaseEvent(db, ev, f)
    case CaseTagRow(ct) => ConvertCaseTag(db, ct, f)
  }

  /** Feeding `rows` to the converter one after the other, stopping at the
      first exception that escapes a converter. */
  function ConvertAll(db: Db, rows: seq<SourceRow>, f: Oracle): Step
    decreases |rows|
  {
    if rows == [] then Step(db, false)
    else
      var s := Convert(db, rows[0], f(AtRow(rows[0])));
      if s.halted then s else ConvertAll(s.db, rows[1..], f)
  }
}
