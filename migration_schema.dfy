/** The relational schema the row migrator copies, the target database as a
    value, and the failure oracle that stands for every query that can throw.

    Timestamps (`created_at`, `migrated_at`, `new Date()`) are not modelled;
    `loss_amount` is NUMERIC, which the Postgres driver hands over as text. */
module MigrationSchema {
  import opened Wrappers

  /** The source tables, in the order the migrator visits them. */
  datatype Table = UserTable | TagTable | CaseTable | EvidenceTable | CaseEventTable | CaseTagTable

  /** The `source_table` text written into `migration_mappings`. */
  function TableName(t: Table): string {
    match t
    case UserTable => "User"
    case TagTable => "Tag"
    case CaseTable => "Case"
    case EvidenceTable => "Evidence"
    case CaseEventTable => "CaseEvent"
    case CaseTagTable => "CaseTag"
  }

  /** A `migration_mappings` key: (source_table, source_id). */
  type MappingKey = (Table, int)

  // ----- rows as read from the source database -----

  datatype SourceUser = SourceUser(id: int, email: string, role: string, mfaEnabled: bool)
  datatype SourceTag = SourceTag(id: int, name: string)
  datatype SourceCase = SourceCase(id: int, reporterId: Option<int>, kind: string, status: string,
                                   lossAmount: string, currency: string)
  datatype SourceEvidence = SourceEvidence(id: int, caseId: Option<int>, fileName: string, sha256: string,
                                           mimeType: string, storageUrl: string)
  datatype SourceCaseEvent = SourceCaseEvent(id: int, caseId: Option<int>, actorId: Option<int>,
                                             eventType: string, payloadJson: string)
  datatype SourceCaseTag = SourceCaseTag(caseId: int, tagId: int)

  /** One source row of any of the six tables. */
  datatype SourceRow =
    | UserRow(user: SourceUser)
    | TagRow(tag: SourceTag)
    | CaseRow(kase: SourceCase)
    | EvidenceRow(evidence: SourceEvidence)
    | CaseEventRow(event: SourceCaseEvent)
    | CaseTagRow(caseTag: SourceCaseTag)
  {
    function TableOf(): Table {
      match this
      case UserRow(_) => UserTable
      case TagRow(_) => TagTable
      case CaseRow(_) => CaseTable
      case EvidenceRow(_) => EvidenceTable
      case CaseEventRow(_) => CaseEventTable
      case CaseTagRow(_) => CaseTagTable
    }

    /** The mapping key of a row that has its own id (every table but CaseTag). */
    function Key(): MappingKey
      requires !CaseTagRow?
    {
      match this
      case UserRow(u) => (UserTable, u.id)
      case TagRow(t) => (TagTable, t.id)
      case CaseRow(c) => (CaseTable, c.id)
      case EvidenceRow(e) => (EvidenceTable, e.id)
      case CaseEventRow(ev) => (CaseEventTable, ev.id)
    }
  }

  /** The whole source database: one sequence of rows per table, in the order
      the query returns them. */
  datatype Source = Source(users: seq<SourceUser>, tags: seq<SourceTag>, cases: seq<SourceCase>,
                           evidence: seq<SourceEvidence>, caseEvents: seq<SourceCaseEvent>,
                           caseTags: seq<SourceCaseTag>)

  // ----- rows of the target database -----

  datatype User = User(id: int, email: string, role: string, mfaEnabled: bool)
  datatype Tag = Tag(id: int, name: string)
  datatype Case = Case(id: int, reporterId: Option<int>, kind: string, status: string,
                       lossAmount: string, currency: string)
  datatype Evidence = Evidence(id: int, caseId: Option<int>, fileName: string, sha256: string,
                               mimeType: string, storageUrl: string)
  /** `payload_json`: for an audit event, the source id and the descriptive
      field the migrator serialises; for a copied event, the source text. */
  datatype Payload = ImportPayload(sourceId: int, detail: Option<string>) | CopiedPayload(json: string)
  datatype CaseEvent = CaseEvent(id: int, caseId: Option<int>, actorId: Option<int>,
                                 eventType: string, payload: Payload)

  /** The target database: whether `migration_mappings` exists, its contents,
      the five entity tables, the CaseTag join table (a set: the pair is its
      key) and the next id the database will hand out. */
  datatype Db = Db(hasMappingTable: bool,
                   mappings: map<MappingKey, int>,
                   users: seq<User>,
                   tags: seq<Tag>,
                   cases: seq<Case>,
                   evidence: seq<Evidence>,
                   events: seq<CaseEvent>,
                   caseTags: set<(int, int)>,
                   nextId: int)

  // ----- failures -----

  /** What happens at one point of the run.  `TxFault`: a statement between
      BEGIN and COMMIT throws, so the row's transaction is rolled back.
      `FatalFault`: a query outside the transaction throws (or the process
      dies there), which ends the whole run. */
  datatype Fault = NoFault | TxFault | FatalFault

  /** The points of a run at which the oracle is consulted: creating the
      mapping table, fetching a table (or one page of it), converting a row. */
  datatype Site = Bootstrap | Fetch(table: Table, offset: nat) | AtRow(row: SourceRow)

  type Oracle = Site -> Fault

  /** The oracle of a run in which nothing fails. */
  function NoFaults(s: Site): Fault { NoFault }

  /** A run whose only failures are crashes: nothing is rolled back. */
  ghost predicate CrashOnly(f: Oracle) {
    forall s :: f(s) == NoFault || f(s) == FatalFault
  }

  // ----- queries -----

  /** `SELECT target_id FROM migration_mappings WHERE source_table=$1 AND
      source_id=$2`; a NULL source id matches no row. */
  function Lookup(db: Db, t: Table, id: Option<int>): (r: Option<int>)
    ensures r.Some? <==> id.Some? && (t, id.value) in db.mappings
    ensures r.Some? ==> r.value == db.mappings[(t, id.value)]
  {
    if id.Some? && (t, id.value) in db.mappings then Some(db.mappings[(t, id.value)]) else None
  }

  /** `SELECT id FROM "User" WHERE email=$1`, first row. */
  function FindUserByEmail(users: seq<User>, email: string): (r: Option<int>)
    ensures r.None? <==> forall i :: 0 <= i < |users| ==> users[i].email != email
    ensures r.Some? ==> exists i :: 0 <= i < |users| && users[i].email == email && users[i].id == r.value
  {
    if users == [] then None
    else if users[0].email == email then Some(users[0].id)
    else
      var r := FindUserByEmail(users[1..], email);
      assert r.Some? ==> exists i :: 1 <= i < |users| && users[i].email == email && users[i].id == r.value by {
        if r.Some? {
          var j :| 0 <= j < |users[1..]| && users[1..][j].email == email && users[1..][j].id == r.value;
          assert users[j + 1] == users[1..][j];
        }
      }
      r
  }

  /** `SELECT id FROM "Tag" WHERE name=$1`, first row: the same first-match
      search as `FindUserByEmail`, keyed on the tag name instead of the email. */
  function FindTagByName(tags: seq<Tag>, name: string): (r: Option<int>)
    ensures r.None? <==> forall i :: 0 <= i < |tags| ==> tags[i].name != name
    ensures r.Some? ==> exists i :: 0 <= i < |tags| && tags[i].name == name && tags[i].id == r.value
  {
    if tags == [] then None
    else if tags[0].name == name then Some(tags[0].id)
    else
      var r := FindTagByName(tags[1..], name);
      assert r.Some? ==> exists i :: 1 <= i < |tags| && tags[i].name == name && tags[i].id == r.value by {
        if r.Some? {
          var j :| 0 <= j < |tags[1..]| && tags[1..][j].name == name && tags[1..][j].id == r.value;
          assert tags[j + 1] == tags[1..][j];
        }
      }
      r
  }

  // ----- the integrity invariant of the target -----

  /** Every id in the target is below the next id the database hands out. */
  ghost predicate IdsBelowNext(db: Db) {
    && (forall i :: 0 <= i < |db.users| ==> db.users[i].id < db.nextId)
    && (forall i :: 0 <= i < |db.tags| ==> db.tags[i].id < db.nextId)
    && (forall i :: 0 <= i < |db.cases| ==> db.cases[i].id < db.nextId)
    && (forall i :: 0 <= i < |db.evidence| ==> db.evidence[i].id < db.nextId)
    && (forall i :: 0 <= i < |db.events| ==> db.events[i].id < db.nextId)
  }

  /** `id` is the id of a row of table `t` of the target. */
  ghost predicate RowExists(db: Db, t: Table, id: int) {
    match t
    case UserTable => exists i :: 0 <= i < |db.users| && db.users[i].id == id
    case TagTable => exists i :: 0 <= i < |db.tags| && db.tags[i].id == id
    case CaseTable => exists i :: 0 <= i < |db.cases| && db.cases[i].id == id
    case EvidenceTable => exists i :: 0 <= i < |db.evidence| && db.evidence[i].id == id
    case CaseEventTable => exists i :: 0 <= i < |db.events| && db.events[i].id == id
    case CaseTagTable => false
  }

  /** Every mapping points at an existing target row of its own table. */
  ghost predicate MappingsResolve(db: Db) {
    forall k :: k in db.mappings ==> RowExists(db, k.0, db.mappings[k])
  }

  ghost predicate Consistent(db: Db) {
    IdsBelowNext(db) && MappingsResolve(db)
  }

  /** `db'` is `db` with rows, mappings and join pairs only added: nothing the
      migrator wrote earlier is changed or removed. */
  ghost predicate Extends(db: Db, db': Db) {
    && db'.hasMappingTable == db.hasMappingTable
    && (forall k :: k in db.mappings ==> k in db'.mappings && db'.mappings[k] == db.mappings[k])
    && db.users <= db'.users && db.tags <= db'.tags && db.cases <= db'.cases
    && db.evidence <= db'.evidence && db.events <= db'.events
    && db.caseTags <= db'.caseTags
    && db.nextId <= db'.nextId
  }

  lemma ExtendsTransitive(a: Db, b: Db, c: Db)
    requires Extends(a, b) && Extends(b, c)
    ensures Extends(a, c)
  {
  }
}
