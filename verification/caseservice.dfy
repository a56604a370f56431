/** The case service (`CaseService`): the queries it computes itself on top of
    the store's case list. Its other operations hand their arguments to the
    store unchanged and are the store's operations. */
module CaseService {
  import opened Wrappers
  import opened Seqs
  import opened Text
  import opened Entities
  import opened MockData

  /** `getCaseById`: the first case with the id, or the "Case with id … not
      found" error. */
  function GetCaseById(s: Store, id: string): (r: Result<Case, Error>)
    ensures r.Ok? <==> exists j :: 0 <= j < |s.cases| && s.cases[j].id == id
    ensures r.Ok? ==> r.value.id == id
    ensures r.Ok? ==> exists j :: 0 <= j < |s.cases| && s.cases[j] == r.value
                                 && (forall m :: 0 <= m < j ==> s.cases[m].id != id)
    ensures r.Err? ==> r.error == NoCaseWithId(id)
  {
    var i := CaseIndex(s.cases, id);
    if i < 0 then Err(NoCaseWithId(id)) else Ok(s.cases[i])
  }

  /** Reading a case back after updating it gives what the update returned,
      provided the update leaves the id alone; and both calls fail together. */
  lemma UpdateCaseThenGet(s: Store, id: string, p: CasePatch)
    requires p.id == None || p.id == Some(id)
    ensures var u := UpdateCase(s, id, p);
      && (u.result.Err? <==> GetCaseById(s, id).Err?)
      && (u.result.Ok? ==> GetCaseById(u.store, id) == u.result)
  {
    var u := UpdateCase(s, id, p);
    var i := CaseIndex(s.cases, id);
    if 0 <= i {
      assert forall j :: 0 <= j < i ==> u.store.cases[j] == s.cases[j];
      assert CaseIndex(u.store.cases, id) == i;
    }
  }

  /** `getCasesByStatus`: the cases with exactly that status, in store order. */
  function GetCasesByStatus(s: Store, status: string): (r: seq<Case>)
    ensures forall j :: 0 <= j < |r| ==> r[j].status == status
    ensures forall j :: 0 <= j < |s.cases| && s.cases[j].status == status ==>
      multiset(r)[s.cases[j]] == multiset(s.cases)[s.cases[j]]
    ensures IsSubsequence(r, s.cases)
    ensures |r| == Count(StatusIs(status), s.cases)
  {
    FilterSpec(StatusIs(status), s.cases);
    Filter(StatusIs(status), s.cases)
  }

  /** Any list with the three properties above is the status query's answer:
      they pin the result down completely. */
  lemma GetCasesByStatusUnique(s: Store, status: string, r: seq<Case>)
    requires forall j :: 0 <= j < |r| ==> r[j].status == status
    requires forall j :: 0 <= j < |s.cases| && s.cases[j].status == status ==>
      multiset(r)[s.cases[j]] == multiset(s.cases)[s.cases[j]]
    requires IsSubsequence(r, s.cases)
    ensures r == GetCasesByStatus(s, status)
  {
    FilterCharacterization(StatusIs(status), r, s.cases);
  }

  /** The search predicate for an already lower-cased query. */
  function CaseMatches(lowerQuery: string): Case -> bool
  {
    (c: Case) => Contains(Lower(c.customer), lowerQuery) || Contains(Lower(c.id), lowerQuery)
  }

  /** `searchCases`: the cases whose customer name or id contains the query,
      ignoring case, in store order. */
  function SearchCases(s: Store, query: string): (r: seq<Case>)
    ensures forall j :: 0 <= j < |r| ==>
      Contains(Lower(r[j].customer), Lower(query)) || Contains(Lower(r[j].id), Lower(query))
    ensures forall j :: 0 <= j < |s.cases| && CaseMatches(Lower(query))(s.cases[j]) ==>
      multiset(r)[s.cases[j]] == multiset(s.cases)[s.cases[j]]
    ensures IsSubsequence(r, s.cases)
  {
    FilterSpec(CaseMatches(Lower(query)), s.cases);
    Filter(CaseMatches(Lower(query)), s.cases)
  }

  /** The empty query matches every case. */
  lemma SearchCasesEmptyQuery(s: Store)
    ensures SearchCases(s, "") == s.cases
  {
    forall j | 0 <= j < |s.cases|
      ensures CaseMatches(Lower(""))(s.cases[j])
    {
      ContainsEmpty(Lower(s.cases[j].customer));
    }
    FilterKeepsAll(CaseMatches(Lower("")), s.cases);
  }

  /** The search ignores the case of the query. */
  lemma SearchCasesIgnoresQueryCase(s: Store, query: string)
    ensures SearchCases(s, Lower(query)) == SearchCases(s, query)
  {
    LowerIdempotent(query);
  }

  /** A case matches when the query occurs at some position of its lower-cased
      customer name or id. */
  lemma SearchCasesFindsOccurrence(s: Store, query: string, j: int, at: int)
    requires 0 <= j < |s.cases|
    requires OccursAt(Lower(s.cases[j].customer), Lower(query), at) || OccursAt(Lower(s.cases[j].id), Lower(query), at)
    ensures s.cases[j] in SearchCases(s, query)
  {
    ContainsIffOccurs(Lower(s.cases[j].customer), Lower(query));
    ContainsIffOccurs(Lower(s.cases[j].id), Lower(query));
    var r := SearchCases(s, query);
    assert s.cases[j] in multiset(s.cases);
    assert multiset(r)[s.cases[j]] > 0;
  }
}
