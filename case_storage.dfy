/** The browser's case store (lib/storage.ts): a list of case records kept
    under one storage key, read back on every call.  `upsertCase` changes the
    stored list, `getCase` only looks it up, `removeCase` replaces it with a
    filtered copy. */
module CaseStorage {
  import opened Wrappers
  import opened CaseTypes

  /** What is under the storage key: nothing, text `JSON.parse` rejects, or
      a list of records. */
  datatype Stored = Missing | Unparsable | Saved(cases: seq<CaseRecord>)

  /** `loadCases`: the stored list, or the empty list when nothing usable is
      stored. */
  function LoadCases(s: Stored): (cases: seq<CaseRecord>)
    ensures !s.Saved? ==> cases == []
    ensures s.Saved? ==> cases == s.cases
  {
    if s.Saved? then s.cases else []
  }

  /** `cases.findIndex(c => c.id === id)`. */
  function IndexOfId(cases: seq<CaseRecord>, id: string): (idx: int)
    ensures -1 <= idx < |cases|
    ensures idx == -1 <==> forall i :: 0 <= i < |cases| ==> cases[i].id != id
    ensures idx >= 0 ==> cases[idx].id == id && forall i :: 0 <= i < idx ==> cases[i].id != id
  {
    if cases == [] then -1
    else if cases[0].id == id then 0
    else
      var k := IndexOfId(cases[1..], id);
      assert forall i :: 1 <= i < |cases| ==> cases[i] == cases[1..][i - 1];
      if k == -1 then -1 else k + 1
  }

  /** `cases.find(c => c.id === id) || null`. */
  function FindCase(cases: seq<CaseRecord>, id: string): (r: Option<CaseRecord>)
    ensures r.None? <==> forall i :: 0 <= i < |cases| ==> cases[i].id != id
    ensures r.Some? ==> r.value.id == id && r.value in cases
    ensures r.Some? ==>
      exists k :: 0 <= k < |cases| && cases[k] == r.value && forall i :: 0 <= i < k ==> cases[i].id != id
  {
    var idx := IndexOfId(cases, id);
    if idx >= 0 then Some(cases[idx]) else None
  }

  /** The list `upsertCase` saves: the first record with the same id
      replaced, or the record put in front. */
  function Upserted(cases: seq<CaseRecord>, record: CaseRecord): seq<CaseRecord> {
    var idx := IndexOfId(cases, record.id);
    if idx >= 0 then cases[idx := record] else [record] + cases
  }

  /** `cases.filter(c => c.id !== id)`. */
  function Removed(cases: seq<CaseRecord>, id: string): (out: seq<CaseRecord>)
    ensures |out| <= |cases|
    ensures forall i :: 0 <= i < |out| ==> out[i].id != id && out[i] in cases
  {
    if cases == [] then []
    else if cases[0].id == id then Removed(cases[1..], id)
    else [cases[0]] + Removed(cases[1..], id)
  }

  /** No two records share an id. */
  ghost predicate IdsDistinct(cases: seq<CaseRecord>) {
    forall i, j :: 0 <= i < j < |cases| ==> cases[i].id != cases[j].id
  }

  // ----- properties -----

  /** The first position holding the id is the one `findIndex` returns. */
  lemma FirstMatch(cases: seq<CaseRecord>, id: string, k: int)
    requires 0 <= k < |cases| && cases[k].id == id
    requires forall i :: 0 <= i < k ==> cases[i].id != id
    ensures IndexOfId(cases, id) == k
  {
  }

  /** After an upsert, looking the id up gives the record just written. */
  lemma UpsertThenGet(cases: seq<CaseRecord>, record: CaseRecord)
    ensures FindCase(Upserted(cases, record), record.id) == Some(record)
  {
    var idx := IndexOfId(cases, record.id);
    var out := Upserted(cases, record);
    if idx >= 0 {
      assert forall i :: 0 <= i < idx ==> out[i] == cases[i];
      FirstMatch(out, record.id, idx);
    } else {
      assert out[0] == record;
    }
  }

  /** An upsert of a known id replaces the first record with that id in
      place; the length and every other position are unchanged. */
  lemma UpsertReplacesInPlace(cases: seq<CaseRecord>, record: CaseRecord)
    requires exists i :: 0 <= i < |cases| && cases[i].id == record.id
    ensures var out, k := Upserted(cases, record), IndexOfId(cases, record.id);
      && |out| == |cases|
      && 0 <= k < |cases| && cases[k].id == record.id && (forall j :: 0 <= j < k ==> cases[j].id != record.id)
      && out[k] == record
      && (forall i :: 0 <= i < |cases| && i != k ==> out[i] == cases[i])
  {
  }

  /** An upsert of a new id puts the record in front; the list grows by one. */
  lemma UpsertPrependsNew(cases: seq<CaseRecord>, record: CaseRecord)
    requires forall i :: 0 <= i < |cases| ==> cases[i].id != record.id
    ensures Upserted(cases, record) == [record] + cases
    ensures |Upserted(cases, record)| == |cases| + 1
  {
  }

  /** Upserting keeps ids distinct. */
  lemma UpsertKeepsIdsDistinct(cases: seq<CaseRecord>, record: CaseRecord)
    requires IdsDistinct(cases)
    ensures IdsDistinct(Upserted(cases, record))
  {
    var out := Upserted(cases, record);
    var idx := IndexOfId(cases, record.id);
    if idx < 0 {
      forall i, j | 0 <= i < j < |out| ensures out[i].id != out[j].id {
        if i > 0 {
          assert out[i] == cases[i - 1] && out[j] == cases[j - 1];
        } else {
          assert out[j] == cases[j - 1];
        }
      }
    }
  }

  /** Removing drops exactly the records with that id and keeps the others
      in their order: it distributes over concatenation, keeps a record with
      another id, and leaves nothing to find under the id. */
  lemma {:induction false} RemovedSplits(p: seq<CaseRecord>, q: seq<CaseRecord>, id: string)
    ensures Removed(p + q, id) == Removed(p, id) + Removed(q, id)
    decreases |p|
  {
    if p == [] {
      assert p + q == q;
    } else {
      assert (p + q)[1..] == p[1..] + q;
      RemovedSplits(p[1..], q, id);
    }
  }

  lemma RemovedSingle(c: CaseRecord, id: string)
    ensures Removed([c], id) == if c.id == id then [] else [c]
  {
    assert [c][1..] == [];
  }

  lemma {:induction false} RemovedKeepsOthers(cases: seq<CaseRecord>, id: string)
    ensures forall i :: 0 <= i < |cases| && cases[i].id != id ==> cases[i] in Removed(cases, id)
    ensures FindCase(Removed(cases, id), id).None?
    decreases |cases|
  {
    if cases != [] {
      RemovedKeepsOthers(cases[1..], id);
      forall i | 0 <= i < |cases| && cases[i].id != id ensures cases[i] in Removed(cases, id) {
        if i > 0 {
          assert cases[i] == cases[1..][i - 1];
        }
      }
    }
  }

  /** Without any record under the id, removing changes nothing. */
  lemma {:induction false} RemoveAbsentIsIdentity(cases: seq<CaseRecord>, id: string)
    requires forall i :: 0 <= i < |cases| ==> cases[i].id != id
    ensures Removed(cases, id) == cases
    decreases |cases|
  {
    if cases != [] {
      assert cases[0].id != id;
      assert forall i :: 0 <= i < |cases[1..]| ==> cases[1..][i] == cases[i + 1];
      RemoveAbsentIsIdentity(cases[1..], id);
      assert Removed(cases, id) == [cases[0]] + Removed(cases[1..], id);
      assert cases == [cases[0]] + cases[1..];
    }
  }

  // ----- the store -----

  /** The storage key `csr_cases_v1` of the browser's local storage. */
  class LocalCaseStore {
    var stored: Stored

    constructor (s: Stored)
      ensures stored == s
    {
      stored := s;
    }

    /** `getCase`. */
    function GetCase(id: string): Option<CaseRecord>
      reads this
    {
      FindCase(LoadCases(stored), id)
    }

    /** `upsertCase`: load, replace the first match or put the record in
        front, save. */
    method UpsertCase(record: CaseRecord)
      modifies this
      ensures stored == Saved(Upserted(LoadCases(old(stored)), record))
      ensures GetCase(record.id) == Some(record)
    {
      var cases := LoadCases(stored);
      var idx := IndexOfId(cases, record.id);
      if idx >= 0 {
        cases := cases[idx := record];
      } else {
        cases := [record] + cases;
      }
      stored := Saved(cases);
      UpsertThenGet(LoadCases(old(stored)), record);
    }

    /** `removeCase`: save the loaded list without the records with that id. */
    method RemoveCase(id: string)
      modifies this
      ensures stored == Saved(Removed(LoadCases(old(stored)), id))
      ensures GetCase(id).None?
    {
      var cases := LoadCases(stored);
      stored := Saved(Removed(cases, id));
      RemovedKeepsOthers(cases, id);
    }
  }
}
