/** The in-memory mock backend (`MockDataService`): the agent and case
    collections, agent and case updates, and the two operations that keep
    cases and agents consistent, case assignment and unassignment.

    The service mutates its arrays in place; here a call takes the store and
    returns the store it leaves behind together with what it resolved or
    rejected with. */
module MockData {
  import opened Wrappers
  import opened Seqs
  import opened Text
  import opened Entities

  datatype Store = Store(agents: seq<Agent>, cases: seq<Case>)

  /** The store after a call and what the call resolved (`Ok`) or rejected
      (`Err`) with. */
  datatype Step<T> = Step(store: Store, result: Result<T, Error>)

  // ---------------------------------------------------------------- seed data

  const SeedCustomers: seq<string> := ["Asha Rao", "Vikram Singh", "Neha Sharma", "Ravi Kumar", "Priya Patel"]
  const SeedPhones: seq<string> := ["+91 98765 43210", "+91 98765 43211", "+91 98765 43212", "+91 98765 43213", "+91 98765 43214"]
  const SeedStatuses: seq<string> := [Assigned, FollowUp, Resolved, Closed]
  const DayMs := 86400000

  function SeedAgents(): seq<Agent>
  {
    [ Agent(1, "Ravi Kumar", "ravi@example.com", 5, 72),
      Agent(2, "Priya Patel", "priya@example.com", 8, 68),
      Agent(3, "Arun Jain", "arun@example.com", 4, 50) ]
  }

  /** Case `i` of the seed. `draw` supplies the random amounts: the loan amount
      of case `i` is `draw(3 * i)`, its two payments `draw(3 * i + 1)` and
      `draw(3 * i + 2)`. */
  function SeedCase(i: nat, now: int, draw: nat -> int): Case
  {
    Case(
      "LN-" + NatToString(1000 + i),
      SeedCustomers[i % 5],
      SeedPhones[i % 5],
      draw(3 * i),
      SeedStatuses[i % 4],
      Some(i % 3 + 1),
      SeedAgents()[i % 3].name,
      now - i * DayMs,
      [ Payment("2025-10-01", draw(3 * i + 1), "Received", "UPI"),
        Payment("2025-10-15", draw(3 * i + 2), "Pending", "Bank Transfer") ],
      [ HistoryEntry(Assigned, "Assigned to agent", "2025-11-01"),
        HistoryEntry(FollowUp, "Follow-up call done", "2025-11-03") ])
  }

  /** The store the service starts with: three agents and 25 cases spread
      round-robin over them. */
  function Seed(now: int, draw: nat -> int): (s: Store)
    ensures |s.agents| == 3 && |s.cases| == 25
    ensures forall i :: 0 <= i < 25 ==> s.cases[i].agentId == Some(i % 3 + 1)
    ensures forall i :: 0 <= i < 25 ==> s.cases[i].agentName == s.agents[i % 3].name
    ensures forall i :: 0 <= i < 25 ==> s.cases[i].status in SeedStatuses
  {
    Store(SeedAgents(), seq(25, i requires 0 <= i => SeedCase(i, now, draw)))
  }

  // ---------------------------------------------------------------- lookups

  /** `cases.findIndex(c => c.id === id)`. */
  function CaseIndex(cases: seq<Case>, id: string): (i: int)
    ensures -1 <= i < |cases|
    ensures 0 <= i ==> cases[i].id == id && forall j :: 0 <= j < i ==> cases[j].id != id
    ensures i < 0 ==> forall j :: 0 <= j < |cases| ==> cases[j].id != id
  {
    FindIndex(CaseIdIs(id), cases)
  }

  /** `agents.findIndex(a => a.id === id)`; `find` returns the same agent. */
  function AgentIndex(agents: seq<Agent>, id: int): (k: int)
    ensures -1 <= k < |agents|
    ensures 0 <= k ==> agents[k].id == id && forall j :: 0 <= j < k ==> agents[j].id != id
    ensures k < 0 ==> forall j :: 0 <= j < |agents| ==> agents[j].id != id
  {
    FindIndex(AgentIdIs(id), agents)
  }

  /** Number of cases whose `agentId` is `id`. */
  function CaseCount(cases: seq<Case>, id: int): nat
  {
    Count(HeldBy(id), cases)
  }

  /** Every agent's `cases` equals the number of cases assigned to it. */
  predicate CountsConsistent(s: Store)
  {
    forall k :: 0 <= k < |s.agents| ==> s.agents[k].cases == CaseCount(s.cases, s.agents[k].id)
  }

  /** `b` is `a` with possibly different `cases` counts and nothing else changed. */
  predicate SameExceptCounts(a: seq<Agent>, b: seq<Agent>)
  {
    |a| == |b| && forall k :: 0 <= k < |a| ==> b[k] == a[k].(cases := b[k].cases)
  }

  /** Every case that refers to an existing agent carries the name of the
      first agent with that id. */
  predicate NamesInSync(s: Store)
  {
    forall j :: 0 <= j < |s.cases| && s.cases[j].agentId.Some? && AgentIndex(s.agents, s.cases[j].agentId.value) >= 0 ==>
      s.cases[j].agentName == s.agents[AgentIndex(s.agents, s.cases[j].agentId.value)].name
  }

  /** Every `agentId` a case holds belongs to some agent. */
  predicate ReferencesResolve(s: Store)
  {
    forall j :: 0 <= j < |s.cases| && s.cases[j].agentId.Some? ==> AgentIndex(s.agents, s.cases[j].agentId.value) >= 0
  }

  // ---------------------------------------------------------------- agents

  /** `updateAgentCaseCount`: recomputes every agent's count from the cases. */
  function UpdateAgentCaseCount(s: Store): (r: Store)
    ensures r.cases == s.cases
    ensures SameExceptCounts(s.agents, r.agents)
    ensures CountsConsistent(r)
  {
    Store(seq(|s.agents|, k requires 0 <= k < |s.agents| => s.agents[k].(cases := CaseCount(s.cases, s.agents[k].id))), s.cases)
  }

  /** Recounting a store whose counts are right changes nothing. */
  lemma RecountKeepsConsistent(s: Store)
    requires CountsConsistent(s)
    ensures UpdateAgentCaseCount(s) == s
  {
    var r := UpdateAgentCaseCount(s);
    assert r.agents == s.agents;
  }

  /** `addAgent`: appends an agent with no cases and no recovery. Its id is
      the clock reading `now` unless the agent data carries an id of its own,
      which the spread lets win. Nothing is checked, not even that the id is
      fresh, and the counts are not recomputed. */
  function AddAgent(s: Store, now: int, dataId: Option<int>, name: string, email: string): (r: Step<Agent>)
    ensures r.result.Ok?
    ensures r.store.agents == s.agents + [r.result.value]
    ensures r.result.value == Agent(if dataId.Some? then dataId.value else now, name, email, 0, 0)
    ensures r.store.cases == s.cases
  {
    var a := Agent(Pick(dataId, now), name, email, 0, 0);
    Step(Store(s.agents + [a], s.cases), Ok(a))
  }

  /** A new agent holds no case when its id is fresh, so adding it keeps the
      counts right; an id some case already refers to breaks them. */
  lemma AddAgentCounts(s: Store, now: int, dataId: Option<int>, name: string, email: string)
    requires CountsConsistent(s)
    ensures var r := AddAgent(s, now, dataId, name, email);
      CountsConsistent(r.store) <==> CaseCount(s.cases, r.result.value.id) == 0
  {
    var r := AddAgent(s, now, dataId, name, email);
    assert r.store.agents[|s.agents|] == r.result.value;
    assert forall k :: 0 <= k < |s.agents| ==> r.store.agents[k] == s.agents[k];
  }

  /** `updateAgent`: merges the update into the first agent with the id.
      Cases are left alone, so a rename does not reach `agentName`. */
  function UpdateAgent(s: Store, id: int, updates: AgentPatch): (r: Step<Agent>)
    ensures AgentIndex(s.agents, id) < 0 ==> r == Step(s, Err(AgentNotFound))
    ensures 0 <= AgentIndex(s.agents, id) ==>
      var k := AgentIndex(s.agents, id);
      && r.store.cases == s.cases
      && |r.store.agents| == |s.agents|
      && r.store.agents[k] == MergeAgent(s.agents[k], updates)
      && (forall j :: 0 <= j < |s.agents| && j != k ==> r.store.agents[j] == s.agents[j])
      && r.result == Ok(r.store.agents[k])
  {
    var k := AgentIndex(s.agents, id);
    if k < 0 then Step(s, Err(AgentNotFound))
    else
      var a := MergeAgent(s.agents[k], updates);
      Step(Store(s.agents[k := a], s.cases), Ok(a))
  }

  /** `a => a.id !== id`. */
  function OtherThan(id: int): Agent -> bool
  {
    (a: Agent) => a.id != id
  }

  /** `deleteAgent`: drops every agent with the id and never fails. Cases that
      referred to it keep their `agentId` and `agentName`. */
  function DeleteAgent(s: Store, id: int): (r: Store)
    ensures r.cases == s.cases
    ensures forall k :: 0 <= k < |r.agents| ==> r.agents[k].id != id
    ensures IsSubsequence(r.agents, s.agents)
    ensures forall k :: 0 <= k < |s.agents| && s.agents[k].id != id ==>
      multiset(r.agents)[s.agents[k]] == multiset(s.agents)[s.agents[k]]
  {
    FilterSpec(OtherThan(id), s.agents);
    Store(Filter(OtherThan(id), s.agents), s.cases)
  }

  /** Deleting keeps the remaining counts right: the survivors are agents of
      the old store and the cases have not moved. */
  lemma DeleteAgentKeepsCounts(s: Store, id: int)
    requires CountsConsistent(s)
    ensures CountsConsistent(DeleteAgent(s, id))
  {
    var r := DeleteAgent(s, id);
    FilterSpec(OtherThan(id), s.agents);
    forall k | 0 <= k < |r.agents|
      ensures r.agents[k].cases == CaseCount(r.cases, r.agents[k].id)
    {
      assert r.agents[k] in multiset(s.agents);
      var j :| 0 <= j < |s.agents| && s.agents[j] == r.agents[k];
    }
  }

  /** Deleting an agent that still holds a case leaves that case pointing at
      an agent that no longer exists. */
  lemma DeleteAgentLeavesDangling(s: Store, id: int, j: int)
    requires 0 <= j < |s.cases| && s.cases[j].agentId == Some(id)
    ensures !ReferencesResolve(DeleteAgent(s, id))
  {
    var r := DeleteAgent(s, id);
    assert r.cases[j].agentId == Some(id);
    assert AgentIndex(r.agents, id) < 0;
  }

  // ---------------------------------------------------------------- cases

  /** `updateCase`: merges the update into the first case with the id. The
      counts are not recomputed, even when the update moves `agentId`. */
  function UpdateCase(s: Store, id: string, updates: CasePatch): (r: Step<Case>)
    ensures CaseIndex(s.cases, id) < 0 ==> r == Step(s, Err(CaseNotFound))
    ensures 0 <= CaseIndex(s.cases, id) ==>
      var i := CaseIndex(s.cases, id);
      && r.store.agents == s.agents
      && |r.store.cases| == |s.cases|
      && r.store.cases[i] == MergeCase(s.cases[i], updates)
      && (forall j :: 0 <= j < |s.cases| && j != i ==> r.store.cases[j] == s.cases[j])
      && r.result == Ok(r.store.cases[i])
  {
    var i := CaseIndex(s.cases, id);
    if i < 0 then Step(s, Err(CaseNotFound))
    else
      var c := MergeCase(s.cases[i], updates);
      Step(Store(s.agents, s.cases[i := c]), Ok(c))
  }

  /** `assignCase`: points the first case with `caseId` at the first agent
      with `agentId`, copies that agent's name, and recomputes every count. */
  function AssignCase(s: Store, caseId: string, agentId: int): (r: Step<Case>)
    ensures CaseIndex(s.cases, caseId) < 0 || AgentIndex(s.agents, agentId) < 0 <==> r.result.Err?
    ensures r.result.Err? ==> r == Step(s, Err(CaseOrAgentNotFound))
    ensures r.result.Ok? ==>
      var i, k := CaseIndex(s.cases, caseId), AgentIndex(s.agents, agentId);
      && |r.store.cases| == |s.cases|
      && r.store.cases[i] == s.cases[i].(agentId := Some(agentId), agentName := s.agents[k].name)
      && (forall j :: 0 <= j < |s.cases| && j != i ==> r.store.cases[j] == s.cases[j])
      && r.result == Ok(r.store.cases[i])
    ensures r.result.Ok? ==> CountsConsistent(r.store) && SameExceptCounts(s.agents, r.store.agents)
  {
    var i := CaseIndex(s.cases, caseId);
    var k := AgentIndex(s.agents, agentId);
    if i < 0 || k < 0 then Step(s, Err(CaseOrAgentNotFound))
    else
      var c := s.cases[i].(agentId := Some(agentId), agentName := s.agents[k].name);
      var t := UpdateAgentCaseCount(Store(s.agents, s.cases[i := c]));
      Step(t, Ok(t.cases[i]))
  }

  /** `unassignCase`: clears `agentId` on the first case with the id, names it
      "Unassigned", and recomputes every count. */
  function UnassignCase(s: Store, caseId: string): (r: Step<Case>)
    ensures CaseIndex(s.cases, caseId) < 0 <==> r.result.Err?
    ensures r.result.Err? ==> r == Step(s, Err(CaseNotFound))
    ensures r.result.Ok? ==>
      var i := CaseIndex(s.cases, caseId);
      && |r.store.cases| == |s.cases|
      && r.store.cases[i] == s.cases[i].(agentId := None, agentName := UnassignedName)
      && (forall j :: 0 <= j < |s.cases| && j != i ==> r.store.cases[j] == s.cases[j])
      && r.result == Ok(r.store.cases[i])
    ensures r.result.Ok? ==> CountsConsistent(r.store) && SameExceptCounts(s.agents, r.store.agents)
  {
    var i := CaseIndex(s.cases, caseId);
    if i < 0 then Step(s, Err(CaseNotFound))
    else
      var c := s.cases[i].(agentId := None, agentName := UnassignedName);
      var t := UpdateAgentCaseCount(Store(s.agents, s.cases[i := c]));
      Step(t, Ok(t.cases[i]))
  }

  /** Assigning twice is assigning once: the second call finds the same case
      and agent, changes nothing and recounts to the same numbers. */
  lemma AssignCaseIdempotent(s: Store, caseId: string, agentId: int)
    ensures AssignCase(AssignCase(s, caseId, agentId).store, caseId, agentId) == AssignCase(s, caseId, agentId)
  {
    var r := AssignCase(s, caseId, agentId);
    if r.result.Ok? {
      var t := r.store;
      var i, k := CaseIndex(s.cases, caseId), AgentIndex(s.agents, agentId);
      assert forall j :: 0 <= j < |t.cases| ==> t.cases[j].id == s.cases[j].id;
      assert CaseIndex(t.cases, caseId) == i;
      assert AgentIndex(t.agents, agentId) == k;
      assert t.cases[i := t.cases[i]] == t.cases;
      RecountKeepsConsistent(t);
    }
  }

  /** Unassigning twice is unassigning once. */
  lemma UnassignCaseIdempotent(s: Store, caseId: string)
    ensures UnassignCase(UnassignCase(s, caseId).store, caseId) == UnassignCase(s, caseId)
  {
    var r := UnassignCase(s, caseId);
    if r.result.Ok? {
      var t := r.store;
      var i := CaseIndex(s.cases, caseId);
      assert forall j :: 0 <= j < |t.cases| ==> t.cases[j].id == s.cases[j].id;
      assert CaseIndex(t.cases, caseId) == i;
      assert t.cases[i := t.cases[i]] == t.cases;
      RecountKeepsConsistent(t);
    }
  }

  /** Assignment keeps the cached agent names right. */
  lemma AssignCaseKeepsNames(s: Store, caseId: string, agentId: int)
    requires NamesInSync(s)
    ensures NamesInSync(AssignCase(s, caseId, agentId).store)
  {
    var r := AssignCase(s, caseId, agentId);
    if r.result.Ok? {
      var t := r.store;
      forall j | 0 <= j < |t.cases| && t.cases[j].agentId.Some? && AgentIndex(t.agents, t.cases[j].agentId.value) >= 0
        ensures t.cases[j].agentName == t.agents[AgentIndex(t.agents, t.cases[j].agentId.value)].name
      {
        var a := t.cases[j].agentId.value;
        assert AgentIndex(t.agents, a) == AgentIndex(s.agents, a);
      }
    }
  }

  /** Unassignment keeps the cached agent names right. */
  lemma UnassignCaseKeepsNames(s: Store, caseId: string)
    requires NamesInSync(s)
    ensures NamesInSync(UnassignCase(s, caseId).store)
  {
    var r := UnassignCase(s, caseId);
    if r.result.Ok? {
      var t := r.store;
      forall j | 0 <= j < |t.cases| && t.cases[j].agentId.Some? && AgentIndex(t.agents, t.cases[j].agentId.value) >= 0
        ensures t.cases[j].agentName == t.agents[AgentIndex(t.agents, t.cases[j].agentId.value)].name
      {
        var a := t.cases[j].agentId.value;
        assert AgentIndex(t.agents, a) == AgentIndex(s.agents, a);
      }
    }
  }

  /** `getCasesByAgent`: the cases whose `agentId` is `agentId`, in store order. */
  function GetCasesByAgent(s: Store, agentId: int): (r: seq<Case>)
    ensures forall j :: 0 <= j < |r| ==> r[j].agentId == Some(agentId)
    ensures forall j :: 0 <= j < |s.cases| && s.cases[j].agentId == Some(agentId) ==>
      multiset(r)[s.cases[j]] == multiset(s.cases)[s.cases[j]]
    ensures IsSubsequence(r, s.cases)
    ensures |r| == CaseCount(s.cases, agentId)
  {
    FilterSpec(HeldBy(agentId), s.cases);
    Filter(HeldBy(agentId), s.cases)
  }

  /** `!c.agentId`: no agent, or the falsy id 0. */
  predicate NoAgent(c: Case)
  {
    c.agentId == None || c.agentId == Some(0)
  }

  /** `getUnassignedCases`: the cases whose `agentId` is falsy, in store order. */
  function GetUnassignedCases(s: Store): (r: seq<Case>)
    ensures forall j :: 0 <= j < |r| ==> r[j].agentId == None || r[j].agentId == Some(0)
    ensures forall j :: 0 <= j < |s.cases| && (s.cases[j].agentId == None || s.cases[j].agentId == Some(0)) ==>
      multiset(r)[s.cases[j]] == multiset(s.cases)[s.cases[j]]
    ensures IsSubsequence(r, s.cases)
  {
    FilterSpec(NoAgent, s.cases);
    Filter(NoAgent, s.cases)
  }

  // ---------------------------------------------------------------- as written

  /** The seeded counts are stale: agent 1 is stored with 5 cases but holds 9
      of the 25 seeded cases. */
  lemma SeedCountsStale(now: int, draw: nat -> int)
    ensures Seed(now, draw).agents[0].cases == 5
    ensures CaseCount(Seed(now, draw).cases, 1) == 9
    ensures !CountsConsistent(Seed(now, draw))
  {
    SeedHeldByFirst(Seed(now, draw).cases, 0);
    assert Seed(now, draw).cases[0..] == Seed(now, draw).cases;
  }

  /** Of the seeded cases from position `k` on, those of agent 1 are the ones
      at positions divisible by 3. */
  lemma {:induction false} SeedHeldByFirst(cases: seq<Case>, k: nat)
    requires |cases| == 25 && k <= 25
    requires forall i :: 0 <= i < 25 ==> cases[i].agentId == Some(i % 3 + 1)
    ensures Count(HeldBy(1), cases[k..]) == (27 - k) / 3
    decreases 25 - k
  {
    if k < 25 {
      SeedHeldByFirst(cases, k + 1);
      assert cases[k..][1..] == cases[k + 1..];
      assert cases[k..][0] == cases[k];
    }
  }

  /** `updateCase` moves a case between agents without recounting. */
  lemma UpdateCaseSkipsRecount()
    ensures var s := Store([Agent(1, "Ravi", "r", 1, 0)], [Case("LN-1", "A", "", 0, Assigned, Some(1), "Ravi", 0, [], [])]);
      && CountsConsistent(s)
      && !CountsConsistent(UpdateCase(s, "LN-1", NoCaseChange.(agentId := Some(None))).store)
  {
    var s := Store([Agent(1, "Ravi", "r", 1, 0)], [Case("LN-1", "A", "", 0, Assigned, Some(1), "Ravi", 0, [], [])]);
    assert CaseIndex(s.cases, "LN-1") == 0;
    var t := UpdateCase(s, "LN-1", NoCaseChange.(agentId := Some(None))).store;
    assert t.cases[0].agentId == None && t.cases[1..] == [];
    assert !HeldBy(1)(t.cases[0]);
    assert Count(HeldBy(1), t.cases[1..]) == 0;
    assert Count(HeldBy(1), t.cases) == 0;
    assert CaseCount(t.cases, 1) == 0;
    assert t.agents[0].cases == 1;
  }

  /** `updateAgent` renames an agent without touching the cases that carry
      the old name. */
  lemma RenameLeavesStaleNames()
    ensures var s := Store([Agent(1, "Ravi", "r", 1, 0)], [Case("LN-1", "A", "", 0, Assigned, Some(1), "Ravi", 0, [], [])]);
      && NamesInSync(s)
      && !NamesInSync(UpdateAgent(s, 1, NoAgentChange.(name := Some("Ravi K"))).store)
  {
    var s := Store([Agent(1, "Ravi", "r", 1, 0)], [Case("LN-1", "A", "", 0, Assigned, Some(1), "Ravi", 0, [], [])]);
    assert AgentIndex(s.agents, 1) == 0;
    var t := UpdateAgent(s, 1, NoAgentChange.(name := Some("Ravi K"))).store;
    assert AgentIndex(t.agents, 1) == 0;
    assert t.cases[0].agentName != t.agents[0].name;
  }

  /** The walk-through of assignment and unassignment on two agents and one
      unassigned case. */
  lemma AssignUnassignScenario()
    ensures
      var s := Store([Agent(1, "Ravi", "ravi@example.com", 0, 0), Agent(2, "Priya", "priya@example.com", 0, 0)],
                     [Case("LN-1000", "Asha Rao", "", 10000, Assigned, None, UnassignedName, 0, [], [])]);
      var a := AssignCase(s, "LN-1000", 1);
      var u := UnassignCase(a.store, "LN-1000");
      && a.result.Ok? && a.store.cases[0].agentId == Some(1) && a.store.cases[0].agentName == "Ravi"
      && a.store.agents[0].cases == 1 && a.store.agents[1].cases == 0
      && u.result.Ok? && u.store.cases[0].agentId == None && u.store.cases[0].agentName == UnassignedName
      && u.store.agents[0].cases == 0
  {
    var s := Store([Agent(1, "Ravi", "ravi@example.com", 0, 0), Agent(2, "Priya", "priya@example.com", 0, 0)],
                   [Case("LN-1000", "Asha Rao", "", 10000, Assigned, None, UnassignedName, 0, [], [])]);
    assert CaseIndex(s.cases, "LN-1000") == 0;
    assert AgentIndex(s.agents, 1) == 0;
    var a := AssignCase(s, "LN-1000", 1);
    assert a.store.cases[1..] == [];
    assert HeldBy(1)(a.store.cases[0]) && !HeldBy(2)(a.store.cases[0]);
    assert Count(HeldBy(1), a.store.cases[1..]) == 0 && Count(HeldBy(2), a.store.cases[1..]) == 0;
    assert CaseCount(a.store.cases, 1) == 1;
    assert CaseCount(a.store.cases, 2) == 0;
    assert CaseIndex(a.store.cases, "LN-1000") == 0;
    var u := UnassignCase(a.store, "LN-1000");
    assert u.store.cases[1..] == [];
    assert !HeldBy(1)(u.store.cases[0]) && Count(HeldBy(1), u.store.cases[1..]) == 0;
    assert CaseCount(u.store.cases, 1) == 0;
  }
}
