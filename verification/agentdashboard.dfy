/** The agent's own dashboard (`AgentDashboard`): which cases count as the
    agent's, the status tallies shown on it, the recent-case list and the
    resolution rate. */
module AgentDashboard {
  import opened Wrappers
  import opened Seqs
  import opened Entities
  import opened Session

  /** `c => c.agentName === name`: the dashboard selects by name, not id. */
  function NamedFor(name: string): Case -> bool
  {
    (c: Case) => c.agentName == name
  }

  /** `myCases`: the cases carrying the user's name, in store order. */
  function MyCases(cases: seq<Case>, u: User): (r: seq<Case>)
    ensures forall i :: 0 <= i < |r| ==> r[i].agentName == u.name
    ensures forall i :: 0 <= i < |cases| && cases[i].agentName == u.name ==>
      multiset(r)[cases[i]] == multiset(cases)[cases[i]]
    ensures IsSubsequence(r, cases)
  {
    FilterSpec(NamedFor(u.name), cases);
    Filter(NamedFor(u.name), cases)
  }

  datatype Stats = Stats(totalCases: nat, resolvedCases: nat, pendingCases: nat, followUpCases: nat)

  /** A status outside the four the interface offers. */
  function OtherStatus(): Case -> bool
  {
    (c: Case) => c.status != Resolved && c.status != Closed && c.status != Assigned && c.status != FollowUp
  }

  /** The tallies of `loadAgentData`: resolved counts RESOLVED and CLOSED
      together, pending is ASSIGNED, follow-up is FOLLOW_UP. */
  function StatsOf(mine: seq<Case>): (st: Stats)
    ensures st.totalCases == |mine|
    ensures st.resolvedCases == Count(StatusIs(Resolved), mine) + Count(StatusIs(Closed), mine)
    ensures st.pendingCases == Count(StatusIs(Assigned), mine)
    ensures st.followUpCases == Count(StatusIs(FollowUp), mine)
  {
    Stats(|mine|,
          Count(StatusIs(Resolved), mine) + Count(StatusIs(Closed), mine),
          Count(StatusIs(Assigned), mine),
          Count(StatusIs(FollowUp), mine))
  }

  /** Every case has one status, so the four tallies and the cases with any
      other status add up to the total. */
  lemma {:induction false} StatusTally(s: seq<Case>)
    ensures Count(StatusIs(Resolved), s) + Count(StatusIs(Closed), s) + Count(StatusIs(Assigned), s)
            + Count(StatusIs(FollowUp), s) + Count(OtherStatus(), s) == |s|
    decreases |s|
  {
    if |s| > 0 {
      StatusTally(s[1..]);
    }
  }

  /** The three figures never exceed the total, and reach it exactly when
      every case has one of the four known statuses. */
  lemma StatsAddUp(mine: seq<Case>)
    ensures var st := StatsOf(mine);
      && st.resolvedCases + st.pendingCases + st.followUpCases <= st.totalCases
      && (st.resolvedCases + st.pendingCases + st.followUpCases == st.totalCases <==>
            forall i :: 0 <= i < |mine| ==> mine[i].status in [Resolved, Closed, Assigned, FollowUp])
  {
    StatusTally(mine);
    CountZero(OtherStatus(), mine);
  }

  const RecentLimit := 10

  /** What the dashboard shows. */
  datatype View = View(stats: Stats, recentCases: seq<Case>)

  /** `loadAgentData`: the user's cases, their tallies, and the first ten. */
  function LoadAgentData(cases: seq<Case>, u: User): (v: View)
    ensures v.stats == StatsOf(MyCases(cases, u))
    ensures v.stats.totalCases == |MyCases(cases, u)|
    ensures v.stats.resolvedCases + v.stats.pendingCases + v.stats.followUpCases <= v.stats.totalCases
    ensures |v.recentCases| == if v.stats.totalCases < RecentLimit then v.stats.totalCases else RecentLimit
    ensures v.recentCases == MyCases(cases, u)[..|v.recentCases|]
  {
    var mine := MyCases(cases, u);
    StatsAddUp(mine);
    View(StatsOf(mine), Take(mine, RecentLimit))
  }

  /** A case renamed away from the user drops off their dashboard although
      its `agentId` still points at them. */
  lemma SelectionIsByName()
    ensures var c := Case("LN-1", "A", "", 0, Assigned, Some(1), "Ravi K", 0, [], []);
      MyCases([c], User("Ravi", "AGENT")) == []
  {
    var c := Case("LN-1", "A", "", 0, Assigned, Some(1), "Ravi K", 0, [], []);
    FilterKeepsNone(NamedFor("Ravi"), [c]);
  }

  /** The resolution rate in percent: 0 with no cases, otherwise
      `Math.round(resolved / total * 100)`, the nearest integer with halves
      rounded up. */
  function ResolutionRate(st: Stats): (r: int)
    ensures st.totalCases == 0 ==> r == 0
    ensures st.totalCases > 0 ==>
      2 * st.totalCases * r <= 200 * st.resolvedCases + st.totalCases < 2 * st.totalCases * (r + 1)
  {
    if st.totalCases > 0 then (200 * st.resolvedCases + st.totalCases) / (2 * st.totalCases) else 0
  }

  /** Multiplying by a positive number keeps strict order. */
  lemma LessByFactor(d: int, q: int, m: int)
    requires d > 0 && d * q < d * m
    ensures q < m
  {
    assert d * (m - q) > 0;
  }

  /** The rate of the dashboard's own figures is a percentage. */
  lemma ResolutionRateBounded(cases: seq<Case>, u: User)
    ensures 0 <= ResolutionRate(LoadAgentData(cases, u).stats) <= 100
  {
    var st := LoadAgentData(cases, u).stats;
    if st.totalCases > 0 {
      var r := ResolutionRate(st);
      var d := 2 * st.totalCases;
      assert st.resolvedCases <= st.totalCases;
      assert d * r <= 200 * st.resolvedCases + st.totalCases <= 201 * st.totalCases < d * 101;
      LessByFactor(d, r, 101);
      assert 0 < d * (r + 1);
      LessByFactor(d, -1, r + 1);
    }
  }
}
