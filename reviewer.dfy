/** The reviewer's case list (app/reviewer/page.tsx): the `filtered` list of
    loaded cases under a status filter, a type filter and a search query. */
module Reviewer {
  import opened CaseTypes
  import opened TextUtil

  /** The predicate handed to `cases.filter`: `"all"` disables a filter; a
      non-empty query must occur in the lower-cased description (against the
      lower-cased query) or, exactly as typed, in the id. */
  predicate Matches(c: CaseRecord, query: string, status: string, kind: string) {
    && (status == "all" || c.status == status)
    && (kind == "all" || c.kind == kind)
    && (query == "" || Includes(Lower(c.description), Lower(query)) || Includes(c.id, query))
  }

  /** `cases.filter(...)`. */
  function Filtered(cases: seq<CaseRecord>, query: string, status: string, kind: string): (r: seq<CaseRecord>)
    ensures |r| <= |cases|
    ensures forall i :: 0 <= i < |r| ==> Matches(r[i], query, status, kind) && r[i] in cases
    ensures forall c :: c in cases && Matches(c, query, status, kind) ==> c in r
  {
    if cases == [] then []
    else
      var rest := Filtered(cases[1..], query, status, kind);
      assert forall c :: c in cases[1..] ==> c in cases;
      assert forall c :: c in cases ==> c == cases[0] || c in cases[1..];
      (if Matches(cases[0], query, status, kind) then [cases[0]] else []) + rest
  }

  /** Filtering keeps the loaded order: it distributes over concatenation. */
  lemma {:induction false} FilteredAppend(a: seq<CaseRecord>, b: seq<CaseRecord>, query: string, status: string, kind: string)
    ensures Filtered(a + b, query, status, kind) == Filtered(a, query, status, kind) + Filtered(b, query, status, kind)
    decreases |a|
  {
    if a == [] {
      assert a + b == b;
    } else {
      assert (a + b)[1..] == a[1..] + b;
      FilteredAppend(a[1..], b, query, status, kind);
    }
  }

  /** With no filter and no query the whole list comes back. */
  lemma {:induction false} NoFilterKeepsAll(cases: seq<CaseRecord>)
    ensures Filtered(cases, "", "all", "all") == cases
    decreases |cases|
  {
    if cases != [] {
      NoFilterKeepsAll(cases[1..]);
      assert cases == [cases[0]] + cases[1..];
    }
  }

  /** Filters that select nothing of a stretch drop it entirely. */
  lemma {:induction false} NoMatchDropsAll(cases: seq<CaseRecord>, query: string, status: string, kind: string)
    requires forall i :: 0 <= i < |cases| ==> !Matches(cases[i], query, status, kind)
    ensures Filtered(cases, query, status, kind) == []
    decreases |cases|
  {
    if cases != [] {
      assert forall i :: 0 <= i < |cases[1..]| ==> cases[1..][i] == cases[i + 1];
      NoMatchDropsAll(cases[1..], query, status, kind);
    }
  }

  lemma IncludesSelf(s: string)
    ensures Includes(s, s)
  {
    assert s[0..] == s;
    assert StartsWith(s[0..], s);
  }

  /** Searching for a case's own id (with both filters off) finds it. */
  lemma SearchByIdFindsCase(cases: seq<CaseRecord>, c: CaseRecord)
    requires c in cases
    ensures c in Filtered(cases, c.id, "all", "all")
  {
    IncludesSelf(c.id);
  }
}
