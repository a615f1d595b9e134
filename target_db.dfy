/** The target Postgres database as an object the migrator's queries read
    and write.  Its fields are the tables of `MigrationSchema.Db`; each
    method is one SQL statement the migrator issues, and states the whole new
    state as a change to the `Db` value before it. */
module TargetDatabase {
  import opened Wrappers
  import opened MigrationSchema

  class TargetDb {
    var hasMappingTable: bool
    var mappings: map<MappingKey, int>
    var users: seq<User>
    var tags: seq<Tag>
    var cases: seq<Case>
    var evidence: seq<Evidence>
    var events: seq<CaseEvent>
    var caseTags: set<(int, int)>
    var nextId: int

    /** The database as a value. */
    function Snapshot(): Db
      reads this
    {
      Db(hasMappingTable, mappings, users, tags, cases, evidence, events, caseTags, nextId)
    }

    /** A connection to a database holding `db`. */
    constructor (db: Db)
      ensures Snapshot() == db
    {
      hasMappingTable := db.hasMappingTable;
      mappings := db.mappings;
      users := db.users;
      tags := db.tags;
      cases := db.cases;
      evidence := db.evidence;
      events := db.events;
      caseTags := db.caseTags;
      nextId := db.nextId;
    }

    /** `CREATE TABLE IF NOT EXISTS migration_mappings ...` with its unique
        index on (source_table, source_id): an existing table is kept. */
    method CreateMappingsTable()
      modifies this
      ensures Snapshot() == old(Snapshot()).(hasMappingTable := true)
    {
      hasMappingTable := true;
    }

    /** `SELECT target_id FROM migration_mappings WHERE source_table=$1 AND
        source_id=$2`; a NULL source id matches nothing. */
    method SelectMapping(t: Table, id: Option<int>) returns (r: Option<int>)
      ensures r.Some? <==> id.Some? && (t, id.value) in mappings
      ensures r.Some? ==> r.value == mappings[(t, id.value)]
    {
      if id.Some? && (t, id.value) in mappings {
        r := Some(mappings[(t, id.value)]);
      } else {
        r := None;
      }
    }

    /** `SELECT id FROM "User" WHERE email=$1`: the id of the first user with
        that email, scanning the table in order. */
    method SelectUserByEmail(email: string) returns (r: Option<int>)
      ensures r == FindUserByEmail(users, email)
    {
      var i := 0;
      while i < |users| && users[i].email != email
        invariant 0 <= i <= |users|
        invariant FindUserByEmail(users[i..], email) == FindUserByEmail(users, email)
      {
        assert users[i..][1..] == users[i + 1..];
        i := i + 1;
      }
      r := if i < |users| then Some(users[i].id) else None;
    }

    /** `SELECT id FROM "Tag" WHERE name=$1`: the id of the first tag with
        that name. */
    method SelectTagByName(name: string) returns (r: Option<int>)
      ensures r == FindTagByName(tags, name)
    {
      var i := 0;
      while i < |tags| && tags[i].name != name
        invariant 0 <= i <= |tags|
        invariant FindTagByName(tags[i..], name) == FindTagByName(tags, name)
      {
        assert tags[i..][1..] == tags[i + 1..];
        i := i + 1;
      }
      r := if i < |tags| then Some(tags[i].id) else None;
    }

    /** `INSERT INTO "User"(...) RETURNING id`: the row gets the next id. */
    method InsertUser(email: string, role: string, mfaEnabled: bool) returns (id: int)
      modifies this
      ensures id == old(nextId)
      ensures Snapshot() == old(Snapshot()).(users := old(users) + [User(id, email, role, mfaEnabled)], nextId := id + 1)
    {
      id := nextId;
      users := users + [User(id, email, role, mfaEnabled)];
      nextId := nextId + 1;
    }

    /** `INSERT INTO "Tag"(name) RETURNING id`. */
    method InsertTag(name: string) returns (id: int)
      modifies this
      ensures id == old(nextId)
      ensures Snapshot() == old(Snapshot()).(tags := old(tags) + [Tag(id, name)], nextId := id + 1)
    {
      id := nextId;
      tags := tags + [Tag(id, name)];
      nextId := nextId + 1;
    }

    /** `INSERT INTO "Case"(reporter_id, type, status, loss_amount, currency, ...) RETURNING id`. */
    method InsertCase(reporterId: Option<int>, kind: string, status: string, lossAmount: string, currency: string)
      returns (id: int)
      modifies this
      ensures id == old(nextId)
      ensures Snapshot() == old(Snapshot()).(cases := old(cases) + [Case(id, reporterId, kind, status, lossAmount, currency)],
                                             nextId := id + 1)
    {
      id := nextId;
      cases := cases + [Case(id, reporterId, kind, status, lossAmount, currency)];
      nextId := nextId + 1;
    }

    /** `INSERT INTO "Evidence"(case_id, file_name, sha256, mime_type, storage_url, ...) RETURNING id`. */
    method InsertEvidence(caseId: Option<int>, fileName: string, sha256: string, mimeType: string, storageUrl: string)
      returns (id: int)
      modifies this
      ensures id == old(nextId)
      ensures Snapshot() == old(Snapshot()).(evidence := old(evidence) + [Evidence(id, caseId, fileName, sha256, mimeType, storageUrl)],
                                             nextId := id + 1)
    {
      id := nextId;
      evidence := evidence + [Evidence(id, caseId, fileName, sha256, mimeType, storageUrl)];
      nextId := nextId + 1;
    }

    /** `INSERT INTO "CaseEvent"(case_id, actor_id, event_type, payload_json, ...)`. */
    method InsertEvent(caseId: Option<int>, actorId: Option<int>, eventType: string, payload: Payload)
      returns (id: int)
      modifies this
      ensures id == old(nextId)
      ensures Snapshot() == old(Snapshot()).(events := old(events) + [CaseEvent(id, caseId, actorId, eventType, payload)],
                                             nextId := id + 1)
    {
      id := nextId;
      events := events + [CaseEvent(id, caseId, actorId, eventType, payload)];
      nextId := nextId + 1;
    }

    /** `INSERT INTO migration_mappings(source_table, source_id, target_id)`,
        issued inside a row's transaction once the lookup found no mapping. */
    method InsertMapping(key: MappingKey, target: int)
      modifies this
      ensures Snapshot() == old(Snapshot()).(mappings := old(mappings)[key := target])
    {
      mappings := mappings[key := target];
    }

    /** The same insert with `ON CONFLICT DO NOTHING`: an existing mapping for
        the key is kept. */
    method InsertMappingOnConflictDoNothing(key: MappingKey, target: int)
      modifies this
      ensures Snapshot() == old(Snapshot()).(mappings := if key in old(mappings) then old(mappings)
                                                         else old(mappings)[key := target])
    {
      if key !in mappings {
        mappings := mappings[key := target];
      }
    }

    /** `INSERT INTO "CaseTag"(case_id, tag_id) ... ON CONFLICT DO NOTHING`. */
    method InsertCaseTag(caseId: int, tagId: int)
      modifies this
      ensures Snapshot() == old(Snapshot()).(caseTags := old(caseTags) + {(caseId, tagId)})
    {
      caseTags := caseTags + {(caseId, tagId)};
    }

    /** `ROLLBACK`: every table returns to its state at `BEGIN`. */
    method Rollback(begin: Db)
      modifies this
      ensures Snapshot() == begin
    {
      hasMappingTable := begin.hasMappingTable;
      mappings := begin.mappings;
      users := begin.users;
      tags := begin.tags;
      cases := begin.cases;
      evidence := begin.evidence;
      events := begin.events;
      caseTags := begin.caseTags;
      nextId := begin.nextId;
    }
  }
}
