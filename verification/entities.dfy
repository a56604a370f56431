/** The records the store keeps: collection agents and loan cases, the
    partial updates the store merges into them, and the store's errors. */
module Entities {
  import opened Wrappers

  /** A collection agent. `cases` is meant to count the cases assigned to the
      agent, but the store only recomputes it on assignment and unassignment. */
  datatype Agent = Agent(id: int, name: string, email: string, cases: int, recovery: int)

  /** One payment on a loan; the modelled operations only carry it along.
      `mode` is the payment method (`method` is a Dafny keyword). */
  datatype Payment = Payment(date: string, amount: int, status: string, mode: string)

  /** One timeline entry of a case. */
  datatype HistoryEntry = HistoryEntry(stage: string, note: string, date: string)

  /** A loan case. `agentId` is `None` for `null` or a missing field;
      `createdAt` is a timestamp in milliseconds. */
  datatype Case = Case(
    id: string,
    customer: string,
    phone: string,
    amount: int,
    status: string,
    agentId: Option<int>,
    agentName: string,
    createdAt: int,
    paymentHistory: seq<Payment>,
    history: seq<HistoryEntry>)

  /** The four statuses the user interface offers; the store accepts any string. */
  const Assigned := "ASSIGNED"
  const FollowUp := "FOLLOW_UP"
  const Resolved := "RESOLVED"
  const Closed := "CLOSED"

  /** The `agentName` an unassigned case shows. */
  const UnassignedName := "Unassigned"

  /** The keys an update object may carry, for `{ ...agent, ...updates }`. */
  datatype AgentPatch = AgentPatch(
    id: Option<int>,
    name: Option<string>,
    email: Option<string>,
    cases: Option<int>,
    recovery: Option<int>)

  /** The keys an update object may carry, for `{ ...case, ...updates }`. */
  datatype CasePatch = CasePatch(
    id: Option<string>,
    customer: Option<string>,
    phone: Option<string>,
    amount: Option<int>,
    status: Option<string>,
    agentId: Option<Option<int>>,
    agentName: Option<string>,
    createdAt: Option<int>,
    paymentHistory: Option<seq<Payment>>,
    history: Option<seq<HistoryEntry>>)

  function Pick<T>(o: Option<T>, current: T): T
  {
    match o
    case Some(v) => v
    case None => current
  }

  /** Object spread: every key the patch carries overrides the record's. */
  function MergeAgent(a: Agent, p: AgentPatch): Agent
  {
    Agent(Pick(p.id, a.id), Pick(p.name, a.name), Pick(p.email, a.email),
          Pick(p.cases, a.cases), Pick(p.recovery, a.recovery))
  }

  function MergeCase(c: Case, p: CasePatch): Case
  {
    Case(Pick(p.id, c.id), Pick(p.customer, c.customer), Pick(p.phone, c.phone),
         Pick(p.amount, c.amount), Pick(p.status, c.status), Pick(p.agentId, c.agentId),
         Pick(p.agentName, c.agentName), Pick(p.createdAt, c.createdAt),
         Pick(p.paymentHistory, c.paymentHistory), Pick(p.history, c.history))
  }

  const NoAgentChange := AgentPatch(None, None, None, None, None)
  const NoCaseChange := CasePatch(None, None, None, None, None, None, None, None, None, None)

  /** The patch carrying every key of `c`, as the case view sends when it
      saves a whole edited case. */
  function WholeCase(c: Case): CasePatch
  {
    CasePatch(Some(c.id), Some(c.customer), Some(c.phone), Some(c.amount), Some(c.status),
              Some(c.agentId), Some(c.agentName), Some(c.createdAt),
              Some(c.paymentHistory), Some(c.history))
  }

  /** An empty patch changes nothing; a whole-case patch replaces the record. */
  lemma MergeCaseLaws(c: Case, d: Case)
    ensures MergeCase(c, NoCaseChange) == c
    ensures MergeCase(c, WholeCase(d)) == d
  {
  }

  /** The errors with which the store and the services reject a call. */
  datatype Error =
    | AgentNotFound            // "Agent not found"
    | CaseNotFound             // "Case not found"
    | CaseOrAgentNotFound      // "Case or Agent not found"
    | NoAgentWithId(aid: int)  // "Agent with id ${id} not found"
    | NoCaseWithId(cid: string) // "Case with id ${id} not found"
    | UndefinedAgent           // a TypeError reading `name` of `undefined`

  /** `c => c.agentId === id`. */
  function HeldBy(id: int): Case -> bool
  {
    (c: Case) => c.agentId == Some(id)
  }

  /** `c => c.id === id`. */
  function CaseIdIs(id: string): Case -> bool
  {
    (c: Case) => c.id == id
  }

  /** `a => a.id === id`. */
  function AgentIdIs(id: int): Agent -> bool
  {
    (a: Agent) => a.id == id
  }

  /** `c => c.status === status`. */
  function StatusIs(status: string): Case -> bool
  {
    (c: Case) => c.status == status
  }
}
