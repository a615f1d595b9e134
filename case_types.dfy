/** The case record the browser front end stores (types/case.ts), with the
    two extra fields the report wizard writes into it: `email` and message
    ids.  `type` is a reserved word in Dafny and is called `kind` here;
    statuses and kinds are plain strings because records come back from JSON
    unchecked. */
module CaseTypes {
  import opened Wrappers

  datatype EvidenceItem = EvidenceItem(name: string, size: int, kind: string, hash: Option<string>)

  datatype Message = Message(id: Option<string>, from: string, text: string, at: int)

  datatype CaseRecord = CaseRecord(
    id: string,
    createdAt: int,
    kind: string,
    amount: real,
    currency: string,
    timeline: string,
    description: string,
    txHashes: seq<string>,
    bankRefs: seq<string>,
    evidence: seq<EvidenceItem>,
    status: string,
    classification: Option<string>,
    email: Option<string>,
    messages: Option<seq<Message>>)
}
