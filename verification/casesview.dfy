/** The case list page (`Cases`): the filter and sort behind the table, and
    the save handler that the case dialog calls. */
module CasesView {
  import opened Wrappers
  import opened Seqs
  import opened Text
  import opened Entities
  import opened MockData
  import opened ActivityLogService
  import opened Session

  const AllStatuses := "ALL"

  /** The row filter: the status matches (or the filter is "ALL"), and the
      search text occurs in the lower-cased customer name ignoring case, or in
      the case id exactly as typed. */
  function CaseVisible(search: string, statusFilter: string): Case -> bool
  {
    (c: Case) =>
      && (statusFilter == AllStatuses || c.status == statusFilter)
      && (Contains(Lower(c.customer), Lower(search)) || Contains(c.id, search))
  }

  function AmountOf(c: Case): int
  {
    c.amount
  }

  function CreatedAtOf(c: Case): int
  {
    c.createdAt
  }

  /** The comparator chosen by the sort setting: "amount" puts larger amounts
      first, "customer" orders customer names, anything else puts newer cases
      first. */
  function Before(sortBy: string): (Case, Case) -> bool
  {
    if sortBy == "amount" then KeyDesc(AmountOf)
    else if sortBy == "customer" then (a: Case, b: Case) => StrBefore(a.customer, b.customer)
    else KeyDesc(CreatedAtOf)
  }

  /** `filteredCases`: the visible cases, sorted. */
  function FilteredCases(cases: seq<Case>, search: string, statusFilter: string, sortBy: string): (r: seq<Case>)
    ensures forall i :: 0 <= i < |r| ==> CaseVisible(search, statusFilter)(r[i])
    ensures forall i :: 0 <= i < |r| ==> statusFilter == AllStatuses || r[i].status == statusFilter
    ensures multiset(r) == multiset(Filter(CaseVisible(search, statusFilter), cases))
    ensures forall i :: 0 <= i < |cases| && CaseVisible(search, statusFilter)(cases[i]) ==>
      multiset(r)[cases[i]] == multiset(cases)[cases[i]]
    ensures |r| == Count(CaseVisible(search, statusFilter), cases)
    ensures sortBy == "amount" ==> forall i, j :: 0 <= i < j < |r| ==> r[i].amount >= r[j].amount
    ensures sortBy != "amount" && sortBy != "customer" ==>
      forall i, j :: 0 <= i < j < |r| ==> r[i].createdAt >= r[j].createdAt
  {
    var kept := Filter(CaseVisible(search, statusFilter), cases);
    FilterSpec(CaseVisible(search, statusFilter), cases);
    var r := SortBy(kept, Before(sortBy));
    PermutationKeepsAll(CaseVisible(search, statusFilter), r, kept);
    if sortBy == "amount" then
      SortByKeySorted(kept, AmountOf);
      r
    else if sortBy == "customer" then
      r
    else
      SortByKeySorted(kept, CreatedAtOf);
      r
  }

  /** The sort is stable: visible cases with equal amount (or equal creation
      time, under the date sort) keep their store order. */
  lemma FilteredCasesStable(cases: seq<Case>, search: string, statusFilter: string, sortBy: string, k: int)
    requires sortBy != "customer"
    ensures var key := if sortBy == "amount" then AmountOf else CreatedAtOf;
      Filter(KeyIs(key, k), FilteredCases(cases, search, statusFilter, sortBy))
        == Filter(KeyIs(key, k), Filter(CaseVisible(search, statusFilter), cases))
  {
    var kept := Filter(CaseVisible(search, statusFilter), cases);
    if sortBy == "amount" {
      SortByKeyStable(kept, AmountOf, k);
    } else {
      SortByKeyStable(kept, CreatedAtOf, k);
    }
  }

  /** The id search is case-sensitive where the customer search is not: a
      lower-case query does not find an upper-case id. */
  lemma IdSearchIsCaseSensitive()
    ensures var c := Case("LN-1", "", "", 0, Assigned, None, UnassignedName, 0, [], []);
      Contains(Lower(c.id), "ln-1") && !CaseVisible("ln-1", AllStatuses)(c)
  {
    var c := Case("LN-1", "", "", 0, Assigned, None, UnassignedName, 0, [], []);
    assert Lower(c.id) == "ln-1";
    assert OccursAt(Lower(c.id), "ln-1", 0);
    ContainsIffOccurs(c.id, "ln-1");
    ContainsIffOccurs(Lower(c.customer), "ln-1");
    forall i | 0 <= i && i + 4 <= |c.id|
      ensures !OccursAt(c.id, "ln-1", i)
    {
      assert c.id[i..i + 4][0] == 'L';
    }
  }

  /** The save handler `updateCase(updated, actionDetails)`: sends the whole
      edited case to the store under its id; on success, logs the action with
      entity "case" when details were given; on failure, swallows the error
      and changes nothing. */
  function HandleUpdateCase(s: Session, u: User, t: Stamp, updated: Case, details: Option<ActionDetails>): (r: Session)
    ensures CaseIndex(s.store.cases, updated.id) < 0 ==> r == s
    ensures 0 <= CaseIndex(s.store.cases, updated.id) ==>
      var i := CaseIndex(s.store.cases, updated.id);
      && r.store.agents == s.store.agents
      && |r.store.cases| == |s.store.cases|
      && r.store.cases[i] == updated
      && (forall j :: 0 <= j < |s.store.cases| && j != i ==> r.store.cases[j] == s.store.cases[j])
      && (details.None? ==> r.log == s.log)
      && (details.Some? ==>
            r.log.logs == [LogEntry(t.id, t.timestamp, u.name, u.role, details.value.action, "case", details.value.details)] + s.log.logs)
  {
    var step := UpdateCase(s.store, updated.id, WholeCase(updated));
    MergeCaseLaws(if 0 <= CaseIndex(s.store.cases, updated.id) then s.store.cases[CaseIndex(s.store.cases, updated.id)] else updated, updated);
    if step.result.Err? then s
    else
      var saved := Session(step.store, s.log);
      match details
      case None => saved
      case Some(d) => Record(saved, u, t, d.action, "case", d.details)
  }

  /** The handler logs exactly when the save succeeded and details were given. */
  lemma HandleUpdateCaseLogs(s: Session, u: User, t: Stamp, updated: Case, details: Option<ActionDetails>)
    ensures |HandleUpdateCase(s, u, t, updated, details).log.logs| ==
      |s.log.logs| + (if 0 <= CaseIndex(s.store.cases, updated.id) && details.Some? then 1 else 0)
  {
  }
}
