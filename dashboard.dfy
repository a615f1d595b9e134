/** The case dashboard (app/dashboard/page.tsx): the status a case moves to
    when advanced, the label its badge shows, and `advanceStatus`, which
    writes the advanced case through the browser store and reloads the list. */
module Dashboard {
  import opened Wrappers
  import opened CaseTypes
  import opened CaseStorage

  /** `order` in `advanceStatus`. */
  const StatusOrder: seq<string> := ["intake", "under_review", "action_recommended"]

  /** `order.indexOf(s)`: the first position holding `s`, or -1. */
  function IndexOf(order: seq<string>, s: string): (i: int)
    ensures -1 <= i < |order|
    ensures i >= 0 ==> order[i] == s && forall k :: 0 <= k < i ==> order[k] != s
    ensures i == -1 <==> s !in order
  {
    if order == [] then -1
    else if order[0] == s then 0
    else
      var j := IndexOf(order[1..], s);
      assert order == [order[0]] + order[1..];
      if j == -1 then -1 else j + 1
  }

  /** `order[Math.min(order.indexOf(c.status) + 1, order.length - 1)]`. */
  function NextStatus(status: string): (next: string)
    ensures next in StatusOrder
    ensures status == "intake" ==> next == "under_review"
    ensures status == "under_review" ==> next == "action_recommended"
    ensures status == "action_recommended" ==> next == "action_recommended"
    ensures status !in StatusOrder ==> next == "intake"
  {
    var i := IndexOf(StatusOrder, status) + 1;
    StatusOrder[if i < |StatusOrder| - 1 then i else |StatusOrder| - 1]
  }

  /** Advancing never moves a case back in the order. */
  lemma NextStatusNeverGoesBack(status: string)
    requires status in StatusOrder
    ensures IndexOf(StatusOrder, NextStatus(status)) >= IndexOf(StatusOrder, status)
    ensures IndexOf(StatusOrder, NextStatus(status)) == IndexOf(StatusOrder, status) <==> status == "action_recommended"
  {
  }

  /** Two advances bring any case of the order to the final status. */
  lemma TwoAdvancesReachTheEnd(status: string)
    requires status in StatusOrder
    ensures NextStatus(NextStatus(status)) == "action_recommended"
  {
  }

  /** `{ ...c, status: next }`. */
  function Advanced(c: CaseRecord): (u: CaseRecord)
    ensures u.id == c.id
    ensures u.status == NextStatus(c.status)
    ensures u.(status := c.status) == c
  {
    c.(status := NextStatus(c.status))
  }

  /** `status.replace('_', ' ')`: a string pattern, so only the first
      underscore becomes a space. */
  function BadgeLabel(status: string): (shown: string)
    ensures |shown| == |status|
    ensures forall i :: 0 <= i < |status| ==>
      (shown[i] != status[i] <==> (status[i] == '_' && forall k :: 0 <= k < i ==> status[k] != '_'))
    ensures forall i :: 0 <= i < |status| && shown[i] != status[i] ==> shown[i] == ' '
  {
    if status == [] then []
    else if status[0] == '_' then " " + status[1..]
    else
      var rest := BadgeLabel(status[1..]);
      assert forall i :: 1 <= i < |status| ==> status[i] == status[1..][i - 1];
      [status[0]] + rest
  }

  /** The first underscore becomes a space; later ones stay. */
  lemma BadgeLabelOfSplit(a: string, b: string)
    requires forall i :: 0 <= i < |a| ==> a[i] != '_'
    ensures BadgeLabel(a + "_" + b) == a + " " + b
  {
    var s, t := a + "_" + b, a + " " + b;
    var l := BadgeLabel(s);
    assert |l| == |t|;
    forall i | 0 <= i < |s| ensures l[i] == t[i] {
      if i < |a| {
        assert s[i] == a[i] && t[i] == a[i];
      } else if i == |a| {
        assert forall k :: 0 <= k < i ==> s[k] == a[k];
        assert s[i] == '_' && t[i] == ' ';
      } else {
        assert s[|a|] == '_';
        assert s[i] == t[i];
      }
    }
    assert l == t;
  }

  /** The label of the review status. */
  lemma UnderReviewLabel()
    ensures BadgeLabel("under_review") == "under review"
  {
    var a, b := "under", "review";
    BadgeLabelOfSplit(a, b);
    assert a + "_" + b == "under_review";
    assert a + " " + b == "under review";
  }

  /** `advanceStatus(c)`: upsert the advanced case, then `loadCases()`. */
  method AdvanceStatus(store: LocalCaseStore, c: CaseRecord) returns (cases: seq<CaseRecord>)
    modifies store
    ensures store.stored == Saved(Upserted(LoadCases(old(store.stored)), Advanced(c)))
    ensures store.GetCase(c.id) == Some(Advanced(c))
    ensures cases == LoadCases(store.stored)
  {
    var updated := Advanced(c);
    store.UpsertCase(updated);
    cases := LoadCases(store.stored);
  }
}
