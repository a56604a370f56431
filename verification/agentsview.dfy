/** The agent management page (`Agents`): the five admin handlers, each a
    store call followed by a log entry, and the two case lists of the
    assignment dialog.

    `shown` is the agents and cases the page loaded last; the handlers look
    names up there, while the store call works on the current store. */
module AgentsView {
  import opened Wrappers
  import opened Seqs
  import opened Entities
  import opened MockData
  import opened ActivityLogService
  import opened Session

  /** How a handler ends: normally, with an alert, or by throwing (an unhandled
      rejection or a `TypeError`). */
  datatype Outcome = Done | Alerted(message: string) | Threw(error: Error)

  datatype Reaction = Reaction(session: Session, outcome: Outcome)

  const MissingFields := "Enter name and email"

  /** How a template literal renders an optional chain: the text, or
      "undefined" when the lookup found nothing. */
  function Shown(o: Option<string>): string
  {
    if o.Some? then o.value else "undefined"
  }

  /** `agents.find(a => a.id === id)?.name`. */
  function AgentNameIn(agents: seq<Agent>, id: int): (r: Option<string>)
    ensures r.Some? <==> AgentIndex(agents, id) >= 0
    ensures r.Some? ==> r.value == agents[AgentIndex(agents, id)].name
  {
    var k := AgentIndex(agents, id);
    if k < 0 then None else Some(agents[k].name)
  }

  /** `cases.find(c => c.id === id)?.customer`. */
  function CustomerIn(cases: seq<Case>, id: string): (r: Option<string>)
    ensures r.Some? <==> CaseIndex(cases, id) >= 0
    ensures r.Some? ==> r.value == cases[CaseIndex(cases, id)].customer
  {
    var i := CaseIndex(cases, id);
    if i < 0 then None else Some(cases[i].customer)
  }

  /** `addAgent`: refuses an empty name or email with an alert; otherwise adds
      the agent (its id the clock reading `now`) and logs "created". */
  function HandleAddAgent(s: Session, u: User, t: Stamp, now: int, name: string, email: string): (r: Reaction)
    ensures name == "" || email == "" ==> r == Reaction(s, Alerted(MissingFields))
    ensures name != "" && email != "" ==>
      && r.outcome == Done
      && r.session.store.agents == s.store.agents + [Agent(now, name, email, 0, 0)]
      && r.session.store.cases == s.store.cases
      && r.session.log.logs ==
           [LogEntry(t.id, t.timestamp, u.name, u.role, "created", "agent",
                     "Created new agent: " + name + " (" + email + ")")] + s.log.logs
  {
    if name == "" || email == "" then Reaction(s, Alerted(MissingFields))
    else
      var added := AddAgent(s.store, now, None, name, email);
      Reaction(Record(Session(added.store, s.log), u, t, "created", "agent",
                      "Created new agent: " + name + " (" + email + ")"), Done)
  }

  /** `updateAgent`: refuses an empty name or email; otherwise sends only the
      name and email, so the counts and recovery are never overwritten. A
      store rejection is thrown before anything is logged. */
  function HandleUpdateAgent(s: Session, u: User, t: Stamp, id: int, name: string, email: string): (r: Reaction)
    ensures name == "" || email == "" ==> r == Reaction(s, Alerted(MissingFields))
    ensures name != "" && email != "" && AgentIndex(s.store.agents, id) < 0 ==> r == Reaction(s, Threw(AgentNotFound))
    ensures name != "" && email != "" && 0 <= AgentIndex(s.store.agents, id) ==>
      var k := AgentIndex(s.store.agents, id);
      && r.outcome == Done
      && r.session.store.cases == s.store.cases
      && SameExceptNameAndEmail(s.store.agents, r.session.store.agents, k)
      && r.session.store.agents[k].name == name && r.session.store.agents[k].email == email
      && r.session.log.logs ==
           [LogEntry(t.id, t.timestamp, u.name, u.role, "updated", "agent",
                     "Updated agent: " + name + " (" + email + ")")] + s.log.logs
  {
    if name == "" || email == "" then Reaction(s, Alerted(MissingFields))
    else
      var step := UpdateAgent(s.store, id, NoAgentChange.(name := Some(name), email := Some(email)));
      if step.result.Err? then Reaction(s, Threw(step.result.error))
      else Reaction(Record(Session(step.store, s.log), u, t, "updated", "agent",
                           "Updated agent: " + name + " (" + email + ")"), Done)
  }

  /** `b` is `a` except for the name and email of agent `k`. */
  predicate SameExceptNameAndEmail(a: seq<Agent>, b: seq<Agent>, k: int)
  {
    && |a| == |b| && 0 <= k < |a|
    && b[k].(name := a[k].name, email := a[k].email) == a[k]
    && forall j :: 0 <= j < |a| && j != k ==> b[j] == a[j]
  }

  /** `deleteAgent(id)`: does nothing unless confirmed; then deletes and logs
      "deleted" with the name the page showed. When the page showed no agent
      with that id, the delete still happens and reading its name throws, so
      nothing is logged. */
  function HandleDeleteAgent(s: Session, u: User, t: Stamp, shown: seq<Agent>, id: int, confirmed: bool): (r: Reaction)
    ensures !confirmed ==> r == Reaction(s, Done)
    ensures confirmed ==> r.session.store == DeleteAgent(s.store, id)
    ensures confirmed && AgentIndex(shown, id) < 0 ==> r.outcome == Threw(UndefinedAgent) && r.session.log == s.log
    ensures confirmed && 0 <= AgentIndex(shown, id) ==>
      && r.outcome == Done
      && r.session.log.logs ==
           [LogEntry(t.id, t.timestamp, u.name, u.role, "deleted", "agent",
                     "Deleted agent: " + shown[AgentIndex(shown, id)].name)] + s.log.logs
  {
    if !confirmed then Reaction(s, Done)
    else
      var deleted := Session(DeleteAgent(s.store, id), s.log);
      match AgentNameIn(shown, id)
      case None => Reaction(deleted, Threw(UndefinedAgent))
      case Some(name) => Reaction(Record(deleted, u, t, "deleted", "agent", "Deleted agent: " + name), Done)
  }

  /** `assignCase(caseId, agentId)`: assigns in the store, then logs
      "assigned" with the customer and agent name the page showed; a store
      rejection is thrown before the log. */
  function HandleAssignCase(s: Session, u: User, t: Stamp, shown: Store, caseId: string, agentId: int): (r: Reaction)
    ensures AssignCase(s.store, caseId, agentId).result.Err? ==> r == Reaction(s, Threw(CaseOrAgentNotFound))
    ensures AssignCase(s.store, caseId, agentId).result.Ok? ==>
      && r.outcome == Done
      && r.session.store == AssignCase(s.store, caseId, agentId).store
      && r.session.log.logs ==
           [LogEntry(t.id, t.timestamp, u.name, u.role, "assigned", "case",
                     "Assigned case " + caseId + " (" + Shown(CustomerIn(shown.cases, caseId)) + ") to "
                     + Shown(AgentNameIn(shown.agents, agentId)))] + s.log.logs
  {
    var step := AssignCase(s.store, caseId, agentId);
    if step.result.Err? then Reaction(s, Threw(step.result.error))
    else
      Reaction(Record(Session(step.store, s.log), u, t, "assigned", "case",
                      "Assigned case " + caseId + " (" + Shown(CustomerIn(shown.cases, caseId)) + ") to "
                      + Shown(AgentNameIn(shown.agents, agentId))), Done)
  }

  /** `unassignCase(caseId)`: unassigns in the store, then logs "unassigned"
      with the customer the page showed; a store rejection is thrown before
      the log. */
  function HandleUnassignCase(s: Session, u: User, t: Stamp, shown: Store, caseId: string): (r: Reaction)
    ensures UnassignCase(s.store, caseId).result.Err? ==> r == Reaction(s, Threw(CaseNotFound))
    ensures UnassignCase(s.store, caseId).result.Ok? ==>
      && r.outcome == Done
      && r.session.store == UnassignCase(s.store, caseId).store
      && r.session.log.logs ==
           [LogEntry(t.id, t.timestamp, u.name, u.role, "unassigned", "case",
                     "Unassigned case " + caseId + " (" + Shown(CustomerIn(shown.cases, caseId)) + ")")] + s.log.logs
  {
    var step := UnassignCase(s.store, caseId);
    if step.result.Err? then Reaction(s, Threw(step.result.error))
    else
      Reaction(Record(Session(step.store, s.log), u, t, "unassigned", "case",
                      "Unassigned case " + caseId + " (" + Shown(CustomerIn(shown.cases, caseId)) + ")"), Done)
  }

  /** When the page shows the current store, a successful assignment logs the
      real customer and agent names, never "undefined". */
  lemma AssignLogsRealNames(s: Session, u: User, t: Stamp, caseId: string, agentId: int)
    requires AssignCase(s.store, caseId, agentId).result.Ok?
    ensures var r := HandleAssignCase(s, u, t, s.store, caseId, agentId);
      var c := s.store.cases[CaseIndex(s.store.cases, caseId)];
      var a := s.store.agents[AgentIndex(s.store.agents, agentId)];
      r.session.log.logs[0].details == "Assigned case " + caseId + " (" + c.customer + ") to " + a.name
  {
  }

  /** A handler that throws leaves the log as it was: every log entry records
      a store call that succeeded, except that a delete whose agent was not on
      the page is carried out without one. */
  lemma ThrowLeavesLogAlone(s: Session, u: User, t: Stamp, shown: Store, caseId: string, agentId: int)
    ensures HandleAssignCase(s, u, t, shown, caseId, agentId).outcome.Threw? ==>
      HandleAssignCase(s, u, t, shown, caseId, agentId).session == s
    ensures HandleUnassignCase(s, u, t, shown, caseId).outcome.Threw? ==>
      HandleUnassignCase(s, u, t, shown, caseId).session == s
  {
  }

  /** `c => c.agentId !== agent.id`. */
  function NotHeldBy(id: int): Case -> bool
  {
    (c: Case) => c.agentId != Some(id)
  }

  /** The dialog's two lists for an agent: the cases assigned to it and the
      cases available to assign to it. */
  datatype Lists = Lists(current: seq<Case>, available: seq<Case>)

  function AssignmentLists(cases: seq<Case>, agentId: int): (l: Lists)
    ensures forall i :: 0 <= i < |l.current| ==> l.current[i].agentId == Some(agentId)
    ensures forall i :: 0 <= i < |l.available| ==> l.available[i].agentId != Some(agentId)
    ensures multiset(l.current) + multiset(l.available) == multiset(cases)
    ensures |l.current| + |l.available| == |cases|
  {
    FilterPartition(HeldBy(agentId), NotHeldBy(agentId), cases);
    Lists(Filter(HeldBy(agentId), cases), Filter(NotHeldBy(agentId), cases))
  }

  /** Assigning a case from the available list moves it to the assigned list. */
  lemma AssignMovesCase(s: Session, u: User, t: Stamp, shown: Store, caseId: string, agentId: int)
    requires AssignCase(s.store, caseId, agentId).result.Ok?
    ensures var after := HandleAssignCase(s, u, t, shown, caseId, agentId).session.store;
      var c := after.cases[CaseIndex(s.store.cases, caseId)];
      c in multiset(AssignmentLists(after.cases, agentId).current)
      && c !in multiset(AssignmentLists(after.cases, agentId).available)
  {
    var after := HandleAssignCase(s, u, t, shown, caseId, agentId).session.store;
    var i := CaseIndex(s.store.cases, caseId);
    var l := AssignmentLists(after.cases, agentId);
    assert after.cases[i].agentId == Some(agentId);
    assert after.cases[i] !in l.available;
    assert after.cases[i] in multiset(after.cases);
  }
}
