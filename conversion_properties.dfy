/** Properties of single row conversions: skip, adopt, atomic import with its
    audit event, foreign-key resolution, and the integrity invariant of the
    target that every conversion preserves. */
module ConversionProperties {
  import opened Wrappers
  import opened MigrationSchema
  import opened MigrationSpec

  /** The number of rows of target table `t`. */
  function RowCount(db: Db, t: Table): nat {
    match t
    case UserTable => |db.users|
    case TagTable => |db.tags|
    case CaseTable => |db.cases|
    case EvidenceTable => |db.evidence|
    case CaseEventTable => |db.events|
    case CaseTagTable => |db.caseTags|
  }

  /** The converter would adopt an existing target row: a User whose email,
      or a Tag whose name, is already in the target. */
  predicate Adoptable(db: Db, row: SourceRow) {
    || (row.UserRow? && FindUserByEmail(db.users, row.user.email).Some?)
    || (row.TagRow? && FindTagByName(db.tags, row.tag.name).Some?)
  }

  /** Whatever the oracle says, a conversion only adds to the target, and an
      escaping exception leaves it as it was. */
  lemma ConvertExtends(db: Db, row: SourceRow, f: Fault)
    ensures Extends(db, Convert(db, row, f).db)
    ensures Convert(db, row, f).halted <==> Escapes(db, f)
    ensures Convert(db, row, f).halted ==> Convert(db, row, f).db == db
  {
    match row
    case UserRow(u) => UserExtends(db, u, f);
    case TagRow(t) => TagExtends(db, t, f);
    case CaseRow(c) => CaseExtends(db, c, f);
    case EvidenceRow(e) => EvidenceExtends(db, e, f);
    case CaseEventRow(ev) => CaseEventExtends(db, ev, f);
    case CaseTagRow(ct) => CaseTagExtends(db, ct, f);
  }

  lemma UserExtends(db: Db, u: SourceUser, f: Fault)
    ensures Extends(db, ConvertUser(db, u, f).db)
    ensures ConvertUser(db, u, f).halted <==> Escapes(db, f)
    ensures ConvertUser(db, u, f).halted ==> ConvertUser(db, u, f).db == db
  {
  }

  lemma TagExtends(db: Db, t: SourceTag, f: Fault)
    ensures Extends(db, ConvertTag(db, t, f).db)
    ensures ConvertTag(db, t, f).halted <==> Escapes(db, f)
    ensures ConvertTag(db, t, f).halted ==> ConvertTag(db, t, f).db == db
  {
  }

  lemma CaseExtends(db: Db, c: SourceCase, f: Fault)
    ensures Extends(db, ConvertCase(db, c, f).db)
    ensures ConvertCase(db, c, f).halted <==> Escapes(db, f)
    ensures ConvertCase(db, c, f).halted ==> ConvertCase(db, c, f).db == db
  {
  }

  lemma EvidenceExtends(db: Db, e: SourceEvidence, f: Fault)
    ensures Extends(db, ConvertEvidence(db, e, f).db)
    ensures ConvertEvidence(db, e, f).halted <==> Escapes(db, f)
    ensures ConvertEvidence(db, e, f).halted ==> ConvertEvidence(db, e, f).db == db
  {
  }

  lemma CaseEventExtends(db: Db, ev: SourceCaseEvent, f: Fault)
    ensures Extends(db, ConvertCaseEvent(db, ev, f).db)
    ensures ConvertCaseEvent(db, ev, f).halted <==> Escapes(db, f)
    ensures ConvertCaseEvent(db, ev, f).halted ==> ConvertCaseEvent(db, ev, f).db == db
  {
  }

  lemma CaseTagExtends(db: Db, ct: SourceCaseTag, f: Fault)
    ensures Extends(db, ConvertCaseTag(db, ct, f).db)
    ensures ConvertCaseTag(db, ct, f).halted <==> Escapes(db, f)
    ensures ConvertCaseTag(db, ct, f).halted ==> ConvertCaseTag(db, ct, f).db == db
  {
  }

  /** A row of User, Tag, Case, Evidence or CaseEvent that already has a
      mapping is skipped without any write. */
  lemma MappedRowIsSkipped(db: Db, row: SourceRow, f: Fault)
    requires !row.CaseTagRow? && row.Key() in db.mappings
    ensures Convert(db, row, f).db == db
  {
  }

  /** A User whose email (a Tag whose name) is already in the target is
      adopted: the mapping points at that target row and nothing else is
      written, no entity row and no audit event. */
  lemma ExistingRowIsAdopted(db: Db, row: SourceRow, f: Fault)
    requires db.hasMappingTable && f != FatalFault
    requires !row.CaseTagRow? && row.Key() !in db.mappings && Adoptable(db, row)
    ensures var r := Convert(db, row, f);
      && !r.halted
      && row.Key() in r.db.mappings
      && r.db == db.(mappings := db.mappings[row.Key() := r.db.mappings[row.Key()]])
      && (row.UserRow? ==> exists i :: 0 <= i < |db.users| && db.users[i].email == row.user.email
                                       && db.users[i].id == r.db.mappings[row.Key()])
      && (row.TagRow? ==> exists i :: 0 <= i < |db.tags| && db.tags[i].name == row.tag.name
                                      && db.tags[i].id == r.db.mappings[row.Key()])
  {
  }

  /** The transaction of a row that is neither mapped nor adoptable: on
      success exactly one entity row, one mapping to that row's fresh id and
      one CaseEvent (the audit event, or for a CaseEvent row the copy itself)
      are written; on failure none of them. */
  lemma ImportIsAllOrNothing(db: Db, row: SourceRow, f: Fault)
    requires db.hasMappingTable && f != FatalFault
    requires !row.CaseTagRow? && row.Key() !in db.mappings && !Adoptable(db, row)
    ensures var r := Convert(db, row, f);
      && !r.halted
      && (f == TxFault ==> r.db == db)
      && (f == NoFault ==>
            && Extends(db, r.db)
            && r.db.mappings == db.mappings[row.Key() := db.nextId]
            && RowCount(r.db, row.TableOf()) == RowCount(db, row.TableOf()) + 1
            && |r.db.events| == |db.events| + 1
            && (forall t :: t != row.TableOf() && t != CaseEventTable ==> RowCount(r.db, t) == RowCount(db, t))
            && r.db.caseTags == db.caseTags)
  {
  }

  /** The imported row and the audit event carry the fields the migrator
      writes: the new row has the mapped id and the source's data, its foreign
      keys are the parents' mapped target ids (NULL when a parent is not
      mapped), and the audit event's case and actor are as listed per entity. */
  lemma ImportedFields(db: Db, row: SourceRow)
    requires db.hasMappingTable && !row.CaseTagRow? && row.Key() !in db.mappings && !Adoptable(db, row)
    ensures var db' := Convert(db, row, NoFault).db;
      var id := db'.mappings[row.Key()];
      var audit := db'.events[|db'.events| - 1];
      match row
      case UserRow(u) =>
        && db'.users[|db'.users| - 1] == User(id, u.email, u.role, u.mfaEnabled)
        && audit == AuditEvent(id + 1, None, Some(id), "user", u.id, Some(u.email))
      case TagRow(t) =>
        && db'.tags[|db'.tags| - 1] == Tag(id, t.name)
        && audit == AuditEvent(id + 1, None, None, "tag", t.id, Some(t.name))
      case CaseRow(c) =>
        && db'.cases[|db'.cases| - 1] == Case(id, Lookup(db, UserTable, c.reporterId), c.kind, c.status, c.lossAmount, c.currency)
        && audit == AuditEvent(id + 1, Some(id), Lookup(db, UserTable, c.reporterId), "case", c.id, None)
      case EvidenceRow(e) =>
        && db'.evidence[|db'.evidence| - 1] ==
             Evidence(id, Lookup(db, CaseTable, e.caseId), e.fileName, e.sha256, e.mimeType, e.storageUrl)
        && audit == AuditEvent(id + 1, Lookup(db, CaseTable, e.caseId), None, "evidence", e.id, Some(e.fileName))
      case CaseEventRow(ev) =>
        // the copy is the only event written: no audit event for CaseEvents
        audit == CaseEvent(id, Lookup(db, CaseTable, ev.caseId), Lookup(db, UserTable, ev.actorId),
                           ev.eventType, CopiedPayload(ev.payloadJson))
  {
  }

  /** A foreign key the migrator resolves is NULL or the target id of a row
      that exists in the parent table, provided the target was consistent. */
  lemma ResolvedKeyExists(db: Db, t: Table, id: Option<int>)
    requires MappingsResolve(db)
    ensures Lookup(db, t, id).None? || RowExists(db, t, Lookup(db, t, id).value)
  {
  }

  /** A CaseTag whose Case or Tag is unmapped is skipped; otherwise exactly
      the pair of mapped target ids is added, and adding it again changes
      nothing (ON CONFLICT DO NOTHING). */
  lemma CaseTagConversion(db: Db, ct: SourceCaseTag, f: Fault)
    requires db.hasMappingTable && f != FatalFault
    ensures var r := Convert(db, CaseTagRow(ct), f);
      var c := Lookup(db, CaseTable, Some(ct.caseId));
      var t := Lookup(db, TagTable, Some(ct.tagId));
      && !r.halted
      && r.db.mappings == db.mappings
      && ((c.None? || t.None? || f == TxFault) ==> r.db == db)
      && ((c.Some? && t.Some? && f == NoFault) ==>
            && r.db == db.(caseTags := db.caseTags + {(c.value, t.value)})
            && Convert(r.db, CaseTagRow(ct), f) == r)
  {
  }

  /** Every conversion keeps the target consistent: ids stay below the id
      counter (so each new id is fresh) and every mapping points at an
      existing row of its own table. */
  lemma ConvertPreservesConsistent(db: Db, row: SourceRow, f: Fault)
    requires Consistent(db)
    ensures Consistent(Convert(db, row, f).db)
  {
    match row
    case UserRow(u) => UserKeepsConsistent(db, u, f);
    case TagRow(t) => TagKeepsConsistent(db, t, f);
    case CaseRow(c) => CaseKeepsConsistent(db, c, f);
    case EvidenceRow(e) => EvidenceKeepsConsistent(db, e, f);
    case CaseEventRow(ev) => CaseEventKeepsConsistent(db, ev, f);
    case CaseTagRow(ct) => AppendPreservesRowExists(db, ConvertCaseTag(db, ct, f).db);
  }

  /** Adding one mapping that points at an existing row, and otherwise only
      appending, keeps every mapping resolving. */
  lemma MappingAddedKeepsResolving(db: Db, db': Db, key: MappingKey)
    requires MappingsResolve(db) && Extends(db, db')
    requires key in db'.mappings && db'.mappings == db.mappings[key := db'.mappings[key]]
    requires RowExists(db', key.0, db'.mappings[key])
    ensures MappingsResolve(db')
  {
    AppendPreservesRowExists(db, db');
    forall k | k in db'.mappings ensures RowExists(db', k.0, db'.mappings[k]) {
      if k != key {
        assert RowExists(db, k.0, db.mappings[k]);
      }
    }
  }

  /** Adoption: a mapping to a row that is already there. */
  lemma AdoptionKeepsConsistent(db: Db, key: MappingKey, id: int)
    requires Consistent(db) && key !in db.mappings && RowExists(db, key.0, id)
    ensures Consistent(db.(mappings := db.mappings[key := id]))
  {
    var db' := db.(mappings := db.mappings[key := id]);
    assert RowExists(db', key.0, id);
    MappingAddedKeepsResolving(db, db', key);
  }

  /** A freshly inserted User (and its audit event) under the next two ids. */
  lemma UserInsertKeepsConsistent(db: Db, key: MappingKey, row: User, audit: CaseEvent)
    requires Consistent(db) && key !in db.mappings && key.0 == UserTable
    requires row.id == db.nextId && audit.id == db.nextId + 1
    ensures Consistent(db.(users := db.users + [row], mappings := db.mappings[key := row.id],
                           events := db.events + [audit], nextId := db.nextId + 2))
  {
    var db' := db.(users := db.users + [row], mappings := db.mappings[key := row.id],
                   events := db.events + [audit], nextId := db.nextId + 2);
    assert db'.users[|db.users|].id == row.id;
    MappingAddedKeepsResolving(db, db', key);
  }

  /** A freshly inserted Tag (and its audit event) under the next two ids. */
  lemma TagInsertKeepsConsistent(db: Db, key: MappingKey, row: Tag, audit: CaseEvent)
    requires Consistent(db) && key !in db.mappings && key.0 == TagTable
    requires row.id == db.nextId && audit.id == db.nextId + 1
    ensures Consistent(db.(tags := db.tags + [row], mappings := db.mappings[key := row.id],
                           events := db.events + [audit], nextId := db.nextId + 2))
  {
    var db' := db.(tags := db.tags + [row], mappings := db.mappings[key := row.id],
                   events := db.events + [audit], nextId := db.nextId + 2);
    assert db'.tags[|db.tags|].id == row.id;
    MappingAddedKeepsResolving(db, db', key);
  }

  lemma UserKeepsConsistent(db: Db, u: SourceUser, f: Fault)
    requires Consistent(db)
    ensures Consistent(ConvertUser(db, u, f).db)
  {
    var r := ConvertUser(db, u, f);
    var key := (UserTable, u.id);
    if Escapes(db, f) || key in db.mappings {
      assert r.db == db;
    } else {
      var found := FindUserByEmail(db.users, u.email);
      if found.Some? {
        var db' := db.(mappings := db.mappings[key := found.value]);
        assert r.db == db';
        var i :| 0 <= i < |db.users| && db.users[i].email == u.email && db.users[i].id == found.value;
        assert RowExists(db, UserTable, found.value);
        AdoptionKeepsConsistent(db, key, found.value);
        assert Consistent(db');
      } else if f == TxFault {
        assert r.db == db;
      } else {
        var uid := db.nextId;
        var row, audit := User(uid, u.email, u.role, u.mfaEnabled), AuditEvent(uid + 1, None, Some(uid), "user", u.id, Some(u.email));
        var db' := db.(users := db.users + [row], mappings := db.mappings[key := row.id],
                       events := db.events + [audit], nextId := db.nextId + 2);
        assert r.db == db';
        UserInsertKeepsConsistent(db, key, row, audit);
        assert Consistent(db');
      }
    }
  }

  lemma TagKeepsConsistent(db: Db, t: SourceTag, f: Fault)
    requires Consistent(db)
    ensures Consistent(ConvertTag(db, t, f).db)
  {
    var r := ConvertTag(db, t, f);
    var key := (TagTable, t.id);
    if Escapes(db, f) || key in db.mappings {
      assert r.db == db;
    } else {
      var found := FindTagByName(db.tags, t.name);
      if found.Some? {
        var db' := db.(mappings := db.mappings[key := found.value]);
        assert r.db == db';
        var i :| 0 <= i < |db.tags| && db.tags[i].name == t.name && db.tags[i].id == found.value;
        assert RowExists(db, TagTable, found.value);
        AdoptionKeepsConsistent(db, key, found.value);
        assert Consistent(db');
      } else if f == TxFault {
        assert r.db == db;
      } else {
        var tid := db.nextId;
        var row, audit := Tag(tid, t.name), AuditEvent(tid + 1, None, None, "tag", t.id, Some(t.name));
        var db' := db.(tags := db.tags + [row], mappings := db.mappings[key := row.id],
                       events := db.events + [audit], nextId := db.nextId + 2);
        assert r.db == db';
        TagInsertKeepsConsistent(db, key, row, audit);
        assert Consistent(db');
      }
    }
  }

  lemma CaseKeepsConsistent(db: Db, c: SourceCase, f: Fault)
    requires Consistent(db)
    ensures Consistent(ConvertCase(db, c, f).db)
  {
    var db' := ConvertCase(db, c, f).db;
    var key := (CaseTable, c.id);
    if db' != db {
      assert db'.cases[|db.cases|].id == db'.mappings[key];
      MappingAddedKeepsResolving(db, db', key);
    }
  }

  lemma EvidenceKeepsConsistent(db: Db, e: SourceEvidence, f: Fault)
    requires Consistent(db)
    ensures Consistent(ConvertEvidence(db, e, f).db)
  {
    var db' := ConvertEvidence(db, e, f).db;
    var key := (EvidenceTable, e.id);
    if db' != db {
      assert db'.evidence[|db.evidence|].id == db'.mappings[key];
      MappingAddedKeepsResolving(db, db', key);
    }
  }

  lemma CaseEventKeepsConsistent(db: Db, ev: SourceCaseEvent, f: Fault)
    requires Consistent(db)
    ensures Consistent(ConvertCaseEvent(db, ev, f).db)
  {
    var db' := ConvertCaseEvent(db, ev, f).db;
    var key := (CaseEventTable, ev.id);
    if db' != db {
      assert db'.events[|db.events|].id == db'.mappings[key];
      MappingAddedKeepsResolving(db, db', key);
    }
  }

  /** Rows are only ever appended, so a row that exists keeps existing. */
  lemma AppendPreservesRowExists(db: Db, db': Db)
    requires Extends(db, db')
    ensures forall t, id :: RowExists(db, t, id) ==> RowExists(db', t, id)
  {
    forall t, id | RowExists(db, t, id) ensures RowExists(db', t, id) {
      match t
      case UserTable =>
        var i :| 0 <= i < |db.users| && db.users[i].id == id;
        assert db'.users[i] == db.users[i];
      case TagTable =>
        var i :| 0 <= i < |db.tags| && db.tags[i].id == id;
        assert db'.tags[i] == db.tags[i];
      case CaseTable =>
        var i :| 0 <= i < |db.cases| && db.cases[i].id == id;
        assert db'.cases[i] == db.cases[i];
      case EvidenceTable =>
        var i :| 0 <= i < |db.evidence| && db.evidence[i].id == id;
        assert db'.evidence[i] == db.evidence[i];
      case CaseEventTable =>
        var i :| 0 <= i < |db.events| && db.events[i].id == id;
        assert db'.events[i] == db.events[i];
      case CaseTagTable =>
    }
  }
}
