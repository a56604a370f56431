/** The agent service (`AgentService`): the queries it computes itself on top
    of the store's agent list. Its other operations hand their arguments to
    the store unchanged and are the store's operations. */
module AgentService {
  import opened Wrappers
  import opened Seqs
  import opened Text
  import opened Entities
  import opened MockData

  /** `getAgentById`: the first agent with the id, or the "Agent with id … not
      found" error. */
  function GetAgentById(s: Store, id: int): (r: Result<Agent, Error>)
    ensures r.Ok? <==> exists k :: 0 <= k < |s.agents| && s.agents[k].id == id
    ensures r.Ok? ==> r.value.id == id
    ensures r.Ok? ==> exists k :: 0 <= k < |s.agents| && s.agents[k] == r.value
                                 && (forall m :: 0 <= m < k ==> s.agents[m].id != id)
    ensures r.Err? ==> r.error == NoAgentWithId(id)
  {
    var k := AgentIndex(s.agents, id);
    if k < 0 then Err(NoAgentWithId(id)) else Ok(s.agents[k])
  }

  /** Reading an agent back after updating it gives what the update returned,
      provided the update leaves the id alone; and both calls fail together. */
  lemma UpdateAgentThenGet(s: Store, id: int, p: AgentPatch)
    requires p.id == None || p.id == Some(id)
    ensures var u := UpdateAgent(s, id, p);
      && (u.result.Err? <==> GetAgentById(s, id).Err?)
      && (u.result.Ok? ==> GetAgentById(u.store, id) == u.result)
  {
    var u := UpdateAgent(s, id, p);
    var k := AgentIndex(s.agents, id);
    if 0 <= k {
      assert forall j :: 0 <= j < k ==> u.store.agents[j] == s.agents[j];
      assert AgentIndex(u.store.agents, id) == k;
    }
  }

  /** A deleted agent can no longer be read. */
  lemma DeleteAgentThenGet(s: Store, id: int)
    ensures GetAgentById(DeleteAgent(s, id), id) == Err(NoAgentWithId(id))
  {
  }

  // ---------------------------------------------------------------- performance

  function Abs(n: int): nat
  {
    if n < 0 then -n else n
  }

  /** `agent.cases / 30` in hundredths, rounded to the nearest: `toFixed(2)`
      rounds the magnitude, and `cases / 30` is never halfway between two
      hundredths. */
  function PerDayHundredths(cases: int): (h: int)
    ensures -1 <= 3 * h - 10 * cases <= 1
    ensures (h < 0) == (cases < 0)
  {
    var m := (10 * Abs(cases) + 1) / 3;
    if cases < 0 then -m else m
  }

  /** The two-digit rendering of a number below 100, with a leading zero. */
  function TwoDigits(n: nat): (r: string)
    requires n < 100
    ensures |r| == 2 && IsDigit(r[0]) && IsDigit(r[1])
    ensures DecimalValue(r) == n
  {
    var r := [DigitChar(n / 10), DigitChar(n % 10)];
    assert r[..1] == [DigitChar(n / 10)];
    assert r[..1][..0] == [];
    assert DecimalValue(r[..1]) == n / 10;
    r
  }

  /** `toFixed(2)` of `h` hundredths: a sign for negatives, the whole part
      without leading zeros, a point, and two digits. */
  function Fixed2(h: int): (r: string)
    ensures |r| >= 4 && r[|r| - 3] == '.'
    ensures (h < 0) == (r[0] == '-')
    ensures var start := if h < 0 then 1 else 0;
      && (forall i :: start <= i < |r| - 3 ==> IsDigit(r[i]))
      && DecimalValue(r[start..|r| - 3]) == Abs(h) / 100
      && |r| - 3 - start >= 1
      && (|r| - 3 - start > 1 ==> r[start] != '0')
    ensures IsDigit(r[|r| - 2]) && IsDigit(r[|r| - 1]) && DecimalValue(r[|r| - 2..]) == Abs(h) % 100
  {
    var whole := NatToString(Abs(h) / 100);
    var frac := TwoDigits(Abs(h) % 100);
    var unsigned := whole + "." + frac;
    var r := if h < 0 then "-" + unsigned else unsigned;
    var start := if h < 0 then 1 else 0;
    DecimalRoundTrip(Abs(h) / 100);
    assert r[start..|r| - 3] == whole;
    assert r[|r| - 2..] == frac;
    assert whole[0] != '-';
    r
  }

  /** What `getAgentPerformance` reports. */
  datatype Performance = Performance(
    id: int,
    name: string,
    totalCases: int,
    recoveryRate: int,
    avgCasesPerDay: string)

  /** `getAgentPerformance`: the agent's figures, with cases per day over a
      30-day month; fails as `getAgentById` does. */
  function GetAgentPerformance(s: Store, id: int): (r: Result<Performance, Error>)
    ensures r.Err? <==> GetAgentById(s, id).Err?
    ensures r.Err? ==> r.error == NoAgentWithId(id)
    ensures r.Ok? ==>
      var a := GetAgentById(s, id).value;
      && r.value.id == a.id && r.value.name == a.name
      && r.value.totalCases == a.cases && r.value.recoveryRate == a.recovery
      && r.value.avgCasesPerDay == Fixed2(PerDayHundredths(a.cases))
  {
    match GetAgentById(s, id)
    case Err(e) => Err(e)
    case Ok(a) => Ok(Performance(a.id, a.name, a.cases, a.recovery, Fixed2(PerDayHundredths(a.cases))))
  }

  /** Nine cases a month make 0.30 a day. */
  lemma NineCasesPerMonth()
    ensures PerDayHundredths(9) == 30
  {
  }

  // ---------------------------------------------------------------- search

  /** The search predicate for an already lower-cased query. */
  function AgentMatches(lowerQuery: string): Agent -> bool
  {
    (a: Agent) => Contains(Lower(a.name), lowerQuery) || Contains(Lower(a.email), lowerQuery)
  }

  /** `searchAgents`: the agents whose name or email contains the query,
      ignoring case, in store order. */
  function SearchAgents(s: Store, query: string): (r: seq<Agent>)
    ensures forall k :: 0 <= k < |r| ==>
      Contains(Lower(r[k].name), Lower(query)) || Contains(Lower(r[k].email), Lower(query))
    ensures forall k :: 0 <= k < |s.agents| && AgentMatches(Lower(query))(s.agents[k]) ==>
      multiset(r)[s.agents[k]] == multiset(s.agents)[s.agents[k]]
    ensures IsSubsequence(r, s.agents)
  {
    FilterSpec(AgentMatches(Lower(query)), s.agents);
    Filter(AgentMatches(Lower(query)), s.agents)
  }

  /** The empty query matches every agent. */
  lemma SearchAgentsEmptyQuery(s: Store)
    ensures SearchAgents(s, "") == s.agents
  {
    forall k | 0 <= k < |s.agents|
      ensures AgentMatches(Lower(""))(s.agents[k])
    {
      ContainsEmpty(Lower(s.agents[k].name));
    }
    FilterKeepsAll(AgentMatches(Lower("")), s.agents);
  }

  /** The search ignores the case of the query. */
  lemma SearchAgentsIgnoresQueryCase(s: Store, query: string)
    ensures SearchAgents(s, Lower(query)) == SearchAgents(s, query)
  {
    LowerIdempotent(query);
  }

  // ---------------------------------------------------------------- ranking

  function RecoveryOf(a: Agent): int
  {
    a.recovery
  }

  /** The agents ordered by the comparator `b.recovery - a.recovery`. */
  function ByRecovery(agents: seq<Agent>): (t: seq<Agent>)
    ensures multiset(t) == multiset(agents)
    ensures SortedDesc(t, RecoveryOf)
  {
    SortByKeySorted(agents, RecoveryOf);
    SortBy(agents, KeyDesc(RecoveryOf))
  }

  /** `getTopPerformers(limit)`: the agents by recovery, highest first, cut by
      `slice(0, limit)`. The sort works on a copy, so the store is not
      reordered. */
  function GetTopPerformers(s: Store, limit: int): (r: seq<Agent>)
    ensures |r| == SliceEnd(|s.agents|, limit)
    ensures forall i, j :: 0 <= i < j < |r| ==> r[i].recovery >= r[j].recovery
    ensures multiset(r) <= multiset(s.agents)
    ensures |r| == |s.agents| ==> multiset(r) == multiset(s.agents)
  {
    var t := ByRecovery(s.agents);
    var r := Take(t, limit);
    assert t == r + t[|r|..];
    r
  }

  /** No agent left out of the top list has a higher recovery than any agent
      on it. */
  lemma TopPerformersAreBest(s: Store, limit: int, a: Agent, i: int)
    requires multiset(GetTopPerformers(s, limit))[a] < multiset(s.agents)[a]
    requires 0 <= i < |GetTopPerformers(s, limit)|
    ensures GetTopPerformers(s, limit)[i].recovery >= a.recovery
  {
    var t := ByRecovery(s.agents);
    var r := GetTopPerformers(s, limit);
    var n := |r|;
    assert t == r + t[n..];
    assert multiset(t) == multiset(r) + multiset(t[n..]);
    assert a in multiset(t[n..]);
    var m :| 0 <= m < |t[n..]| && t[n..][m] == a;
    assert t[n + m] == a && t[i] == r[i];
  }

  /** Agents with equal recovery appear in the top list in store order: those
      with recovery `k` on the list are the first ones with recovery `k` in
      the store. */
  lemma TopPerformersStable(s: Store, limit: int, k: int)
    ensures var top := Filter(KeyIs(RecoveryOf, k), GetTopPerformers(s, limit));
      var all := Filter(KeyIs(RecoveryOf, k), s.agents);
      |top| <= |all| && top == all[..|top|]
  {
    var t := ByRecovery(s.agents);
    var r := GetTopPerformers(s, limit);
    assert t == r + t[|r|..];
    FilterAppend(KeyIs(RecoveryOf, k), r, t[|r|..]);
    SortByKeyStable(s.agents, RecoveryOf, k);
  }

  const DefaultTopLimit := 5

  /** `getTopPerformers()` with its default limit. */
  function GetTopPerformersDefault(s: Store): (r: seq<Agent>)
    ensures |r| == if |s.agents| < DefaultTopLimit then |s.agents| else DefaultTopLimit
    ensures r == GetTopPerformers(s, DefaultTopLimit)
  {
    GetTopPerformers(s, DefaultTopLimit)
  }

  /** A reordering of three agents with strictly decreasing recovery that
      keeps recovery non-increasing is no reordering at all. */
  lemma SortedOfThree(top: seq<Agent>, xs: seq<Agent>)
    requires |xs| == 3 && xs[0].recovery > xs[1].recovery > xs[2].recovery
    requires multiset(top) == multiset(xs)
    requires forall i, j :: 0 <= i < j < |top| ==> top[i].recovery >= top[j].recovery
    ensures top == xs
  {
    assert xs == [xs[0], xs[1], xs[2]];
    assert |top| == 3;
    assert xs[0] in multiset(top) && xs[1] in multiset(top) && xs[2] in multiset(top);
    assert top[0] in multiset(xs) && top[1] in multiset(xs) && top[2] in multiset(xs);
  }

  /** Three agents listed by strictly decreasing recovery keep their order
      in the ranking. */
  lemma RankingOfThree(s: Store)
    requires |s.agents| == 3
    requires s.agents[0].recovery > s.agents[1].recovery > s.agents[2].recovery
    ensures GetTopPerformersDefault(s) == s.agents
  {
    var top := GetTopPerformersDefault(s);
    SortedOfThree(top, s.agents);
  }

  /** On the seed agents the ranking is Ravi (72), Priya (68), Arun (50). */
  lemma SeedRanking(cases: seq<Case>)
    ensures GetTopPerformersDefault(Store(SeedAgents(), cases)) == SeedAgents()
  {
    RankingOfThree(Store(SeedAgents(), cases));
  }
}
