# Debt-collection dashboard: store, activity log and page logic

A Dafny model of the core of a debt-collection dashboard written in React. It covers:

- the in-memory mock backend (`MockDataService`): collection agents and loan cases, agent and case updates, and case assignment and unassignment. Assignment rewrites a case's agent and then recounts every agent's cases.
- the activity log (`ActivityLogService`): a newest-first audit list mirrored into browser storage.
- the case and agent services, which add lookups, searches, a status filter, a top-performer ranking and per-agent figures on top of the store.
- the logic embedded in five pages:
  - the case list's filter, sort and save handler;
  - the activity log's filter, expanded rows, row heights and relative timestamps;
  - the agent dashboard's case selection and tallies;
  - the case dialog's note and call actions;
  - the agent admin page's handlers, each a store call followed by a log entry.

The store and the log are singletons that the source mutates in place. Here they are values:

- A store operation takes a `Store` and returns a `Step` holding the store it leaves and what it resolved (`Ok`) or rejected (`Err`) with. A rejected call leaves the store as it was.
- A page handler takes a `Session` (store plus log) and returns the next one.
- Lookups take the first match, as `find` and `findIndex` do. Ids are not assumed unique.
- `agentId` is an `Option<int>`. `null` or a missing field is `None`.
- Timestamps are integers in milliseconds.

The store is modelled as written:

- The seeded counts disagree with the seeded cases. Agent 1 is stored with 5 cases but holds 9 (`MockData.SeedCountsStale`).
- A rename does not reach the cases that carry the old name.
- Deleting an agent leaves cases pointing at it.
- `updateCase` can move a case between agents without recounting.

The lemmas show where the counts and names stay right and where they go stale.

Modules:

- `Wrappers`: `Option` and `Result`.
- `Seqs`: stand-ins for `filter`, `findIndex`, `slice(0, k)` and the stable `sort`, with their laws.
- `Text`: ASCII `toLowerCase`, `includes` and decimal rendering.
- `Entities`: the records and the object-spread merge.
- `MockData`, `ActivityLogService`, `CaseService`, `AgentService`: the services.
- `Session`: the store plus the log, the signed-in user, and the log call the pages make.
- `CasesView`, `ActivityLogView`, `AgentDashboard`, `CaseModal`, `AgentsView`: the pages.

## Model

| member | source | states |
|---|---|---|
| MockData.Seed | src/services/mockData.js:3-27 | three agents and 25 cases; case i is assigned to agent i%3+1 under that agent's name and carries one of the four statuses |
| MockData.SeedCountsStale | src/services/mockData.js:4-17 | agent 1 is seeded with a count of 5 but holds 9 of the seeded cases, so the seed's counts are not consistent |
| MockData.AddAgent | src/services/mockData.js:35-44 | appends exactly one agent at the end with 0 cases and 0 recovery; its id is the clock reading unless the data carries one; cases untouched |
| MockData.AddAgentCounts | src/services/mockData.js:35-44 | adding an agent keeps every count right exactly when no case already refers to the new id |
| MockData.UpdateAgent | src/services/mockData.js:46-53 | unknown id: rejected, store unchanged; otherwise only the first agent with the id is merged with the update, and the cases are untouched |
| MockData.RenameLeavesStaleNames | src/services/mockData.js:46-53 | a rename leaves the cases' cached agent name behind, breaking name consistency |
| MockData.DeleteAgent | src/services/mockData.js:55-58 | never fails; no agent with the id remains; every other agent stays with its multiplicity, in order; cases untouched |
| MockData.DeleteAgentKeepsCounts | src/services/mockData.js:55-58 | deleting keeps the remaining agents' counts right |
| MockData.DeleteAgentLeavesDangling | src/services/mockData.js:55-58 | deleting an agent that holds a case leaves that case referring to no agent |
| MockData.UpdateCase | src/services/mockData.js:65-72 | unknown id: rejected, store unchanged; otherwise only the first case with the id is merged with the update, and the agents are untouched |
| MockData.UpdateCaseSkipsRecount | src/services/mockData.js:65-72 | an update that clears a case's agent leaves that agent's count stale |
| MockData.AssignCase | src/services/mockData.js:75-90 | fails, store unchanged, exactly when the case or the agent is unknown; otherwise that case gets the agent's id and name, all other cases are unchanged, and every count equals the agent's number of cases |
| MockData.UnassignCase | src/services/mockData.js:92-105 | fails, store unchanged, exactly when the case is unknown; otherwise that case gets no agent and the name "Unassigned", other cases are unchanged, and every count is recomputed |
| MockData.UpdateAgentCaseCount | src/services/mockData.js:108-112 | cases unchanged; agents unchanged except their counts; afterwards every count equals the number of cases with that agent id |
| MockData.RecountKeepsConsistent | src/services/mockData.js:108-112 | recounting a store whose counts are right changes nothing |
| MockData.AssignCaseIdempotent | src/services/mockData.js:75-90 | assigning twice with the same arguments gives the same store and result as assigning once |
| MockData.UnassignCaseIdempotent | src/services/mockData.js:92-105 | unassigning twice gives the same store and result as unassigning once |
| MockData.AssignCaseKeepsNames | src/services/mockData.js:75-90 | if every case carries its agent's name before an assignment, it still does afterwards |
| MockData.UnassignCaseKeepsNames | src/services/mockData.js:92-105 | if every case carries its agent's name before an unassignment, it still does afterwards |
| MockData.AssignUnassignScenario | src/services/mockData.js:75-105 | assigning an unassigned case to Ravi sets his count to 1; unassigning it brings it back to 0 and renames the case "Unassigned" |
| MockData.GetCasesByAgent | src/services/mockData.js:115-117 | exactly the cases with that agent id, each with its multiplicity, in store order; as many as the agent's recount |
| MockData.GetUnassignedCases | src/services/mockData.js:120-122 | exactly the cases whose agent id is falsy (absent or 0), in store order |
| Entities.MergeCaseLaws | src/services/mockData.js:65-72 | merging an empty update changes nothing; merging a whole case replaces the record by it |
| ActivityLogService.SeedLogs | src/services/activityLogService.js:15-44 | three entries with ids 1, 2, 3, one, two and three hours old |
| ActivityLogService.Load | src/services/activityLogService.js:9-50 | unreadable storage or unparsable text: empty log; nothing or the empty string stored: the seed entries; a stored list: that list |
| ActivityLogService.Save | src/services/activityLogService.js:53-59 | a writable storage gets the list under "activityLogs"; a failed write leaves storage unchanged |
| ActivityLogService.New | src/services/activityLogService.js:3-6 | the log starts with what loading its storage gives and keeps that storage |
| ActivityLogService.SaveLoadRoundTrip | src/services/activityLogService.js:9-59 | loading what was saved gives back the same list, the empty list included |
| ActivityLogService.SyncedReloads | src/services/activityLogService.js:3-14 | a log whose storage holds its entries reloads to the same entries |
| ActivityLogService.FreshBrowserSeeds | src/services/activityLogService.js:9-45 | with nothing stored the constructor seeds three entries, ids 1 to 3 in order, not yet saved |
| ActivityLogService.AddLog | src/services/activityLogService.js:62-76 | the entry carries exactly the given fields and stamps; the new log is the entry followed by the old log; the log is saved |
| ActivityLogService.GetLogs | src/services/activityLogService.js:79-81 | a list equal to the log's entries, in the same order |
| ActivityLogService.GetLogsByEntity | src/services/activityLogService.js:84-86 | exactly the entries with that entity, each with its multiplicity, in log order |
| ActivityLogService.GetLogsByUser | src/services/activityLogService.js:89-91 | exactly the entries by that user, in log order |
| ActivityLogService.GetLogsByAction | src/services/activityLogService.js:94-96 | exactly the entries with that action, in log order |
| ActivityLogService.GetLogsByDateRange | src/services/activityLogService.js:99-104 | exactly the entries with start <= timestamp <= end, both ends inclusive, in log order |
| ActivityLogService.AddLogThenSelect | src/services/activityLogService.js:62-96 | after adding, any query returns the new entry, if it matches, in front of what it returned before |
| ActivityLogService.ClearLogs | src/services/activityLogService.js:107-110 | the log becomes empty and the empty list is saved |
| ActivityLogService.ClearedStaysEmpty | src/services/activityLogService.js:107-110 | a cleared log reloads empty; it is not seeded again |
| ActivityLogService.ClearThenAdd | src/services/activityLogService.js:62-110 | after clearing, one addition leaves a one-entry log that storage holds |
| ActivityLogService.GetRecentLogs | src/services/activityLogService.js:113-115 | a prefix of the log of length min(limit, size) for limit >= 0; a negative limit drops that many from the end |
| ActivityLogService.GetRecentLogsDefault | src/services/activityLogService.js:113-115 | the default limit is 10, so at most ten entries |
| ActivityLogService.AddLogIsMostRecent | src/services/activityLogService.js:62-115 | the most recent entry after an addition is the one added |
| CaseService.GetCaseById | src/services/caseService.js:38-52 | succeeds exactly when some case has the id, with the first such case; otherwise the "Case with id … not found" error |
| CaseService.UpdateCaseThenGet | src/services/caseService.js:87-98 | an update that keeps the id, read back by id, gives what the update returned; both fail together |
| CaseService.GetCasesByStatus | src/services/caseService.js:142-150 | exactly the cases with that status, each with its multiplicity, in store order |
| CaseService.GetCasesByStatusUnique | src/services/caseService.js:142-150 | any list with those properties equals the status query's answer |
| CaseService.SearchCases | src/services/caseService.js:157-170 | exactly the cases whose lower-cased customer or lower-cased id contains the lower-cased query, in store order |
| CaseService.SearchCasesEmptyQuery | src/services/caseService.js:157-165 | the empty query returns every case |
| CaseService.SearchCasesIgnoresQueryCase | src/services/caseService.js:160-165 | lower-casing the query first changes nothing |
| CaseService.SearchCasesFindsOccurrence | src/services/caseService.js:162-165 | a case whose lower-cased customer or id holds the query at some position is returned |
| AgentService.GetAgentById | src/services/agentService.js:37-51 | succeeds exactly when some agent has the id, with the first such agent; otherwise the "Agent with id … not found" error |
| AgentService.UpdateAgentThenGet | src/services/agentService.js:77-88 | an update that keeps the id, read back by id, gives what the update returned; both fail together |
| AgentService.DeleteAgentThenGet | src/services/agentService.js:95-105 | a deleted agent can no longer be read |
| AgentService.PerDayHundredths | src/services/agentService.js:121 | the nearest number of hundredths to cases/30, with the sign of the case count |
| AgentService.Fixed2 | src/services/agentService.js:121 | a sign for negatives, at least one whole digit with no leading zero, a point and two digits, together denoting the value |
| AgentService.GetAgentPerformance | src/services/agentService.js:112-127 | fails exactly when the agent lookup fails; reports the agent's id, name, case count and recovery, and its cases per day to two decimals |
| AgentService.NineCasesPerMonth | src/services/agentService.js:121 | nine cases give 0.30 a day |
| AgentService.SearchAgents | src/services/agentService.js:134-147 | exactly the agents whose lower-cased name or email contains the lower-cased query, in store order |
| AgentService.SearchAgentsEmptyQuery | src/services/agentService.js:134-147 | the empty query returns every agent |
| AgentService.SearchAgentsIgnoresQueryCase | src/services/agentService.js:137-142 | lower-casing the query first changes nothing |
| AgentService.ByRecovery | src/services/agentService.js:158-159 | a permutation of the agents with recovery non-increasing |
| AgentService.GetTopPerformers | src/services/agentService.js:154-165 | length is the slice length (min(limit, size) for limit >= 0); recovery non-increasing; drawn from the agents without duplication; all agents when the limit covers them |
| AgentService.TopPerformersAreBest | src/services/agentService.js:158-160 | no agent left out has higher recovery than any agent on the list |
| AgentService.TopPerformersStable | src/services/agentService.js:158-160 | agents with equal recovery appear in store order: those listed are the first ones in the store |
| AgentService.GetTopPerformersDefault | src/services/agentService.js:154-160 | the default limit is 5 |
| AgentService.RankingOfThree | src/services/agentService.js:158-160 | three agents already in strictly decreasing recovery keep their order |
| AgentService.SeedRanking | src/services/agentService.js:154-160 | the seed agents rank Ravi, Priya, Arun |
| Session.Record | src/components/Cases.js:53-59 | the log gains exactly one entry, by the signed-in user, at its head; the store is untouched |
| CasesView.FilteredCases | src/components/Cases.js:32-45 | only visible cases: status filter met or "ALL", customer containing the query ignoring case, or id containing the query case-sensitively; a permutation of the visible cases; amount sort non-increasing in amount, date sort non-increasing in creation time |
| CasesView.FilteredCasesStable | src/components/Cases.js:40-44 | visible cases with equal sort key keep their store order |
| CasesView.IdSearchIsCaseSensitive | src/components/Cases.js:37-38 | a lower-case query does not find an upper-case id that the lower-casing services would find |
| CasesView.HandleUpdateCase | src/components/Cases.js:48-66 | unknown case: nothing changes and nothing is logged; otherwise the store's case becomes the edited one, other cases are unchanged, and one "case" entry is logged only when details were given |
| CasesView.HandleUpdateCaseLogs | src/components/Cases.js:48-66 | the log grows by one exactly when the save succeeded and details were given |
| ActivityLogView.FilteredLogs | src/components/ActivityLog.js:41-48 | exactly the entries with entity equal to the lower-cased filter (or any, under "ALL") whose details or user contain the term ignoring case (or any, for an empty term), in log order |
| ActivityLogView.FilteredLogsShowAll | src/components/ActivityLog.js:41-48 | "ALL" and an empty term show every entry |
| ActivityLogView.FilteredLogsIsEntityQuery | src/components/ActivityLog.js:42 | an entity filter with no term shows what the log's entity query returns for the lower-cased filter |
| ActivityLogView.ToggleLog | src/components/ActivityLog.js:28-39 | the given id's membership flips and no other id's changes |
| ActivityLogView.ToggleLogTwice | src/components/ActivityLog.js:28-35 | toggling twice restores the set |
| ActivityLogView.ItemSize | src/components/ActivityLog.js:180-182 | 320 for an expanded entry, 140 otherwise |
| ActivityLogView.ToggleGrowsRow | src/components/ActivityLog.js:180-182 | expanding a row makes it 320 high and leaves rows with other ids alone |
| ActivityLogView.AgeOf | src/components/ActivityLog.js:89-96 | under a minute: seconds as is; under an hour, a day, a week: whole minutes, hours, days with their bounds; a week or more: the absolute date |
| ActivityLogView.FormatTimestamp | src/components/ActivityLog.js:86-97 | the seconds, minutes, hours or days of the entry's age followed by "s ago", "m ago", "h ago" or "d ago", as the age bucket says; a week or more: the locale text given |
| ActivityLogView.SeedEntriesAge | src/components/ActivityLog.js:86-97 | the seed entries read "1h ago", "2h ago", "3h ago" |
| ActivityLogView.FutureEntryAge | src/components/ActivityLog.js:89-91 | an entry five seconds in the future reads "-5s ago" |
| ActivityLogView.ClearAllLogs | src/components/ActivityLog.js:99-104 | clears and saves only when confirmed; otherwise nothing changes |
| AgentDashboard.MyCases | src/components/AgentDashboard.js:26-27 | exactly the cases carrying the user's name, in store order |
| AgentDashboard.SelectionIsByName | src/components/AgentDashboard.js:26-27 | a case still assigned to the agent's id but carrying another name is not shown |
| AgentDashboard.StatsOf | src/components/AgentDashboard.js:32-43 | total is the number of cases; resolved is RESOLVED plus CLOSED; pending is ASSIGNED; follow-up is FOLLOW_UP |
| AgentDashboard.StatusTally | src/components/AgentDashboard.js:32-36 | the four status counts and the count of other statuses add up to the total |
| AgentDashboard.StatsAddUp | src/components/AgentDashboard.js:32-43 | resolved + pending + follow-up <= total, with equality exactly when every status is one of the four |
| AgentDashboard.LoadAgentData | src/components/AgentDashboard.js:21-46 | the stats are exactly the tallies of the user's cases, so they never exceed the total; the recent list is the first min(10, n) of those cases in order |
| AgentDashboard.ResolutionRate | src/components/AgentDashboard.js:172-174 | 0 with no cases; otherwise the nearest integer to resolved/total*100, halves rounded up |
| AgentDashboard.ResolutionRateBounded | src/components/AgentDashboard.js:172-174 | the rate is between 0 and 100 |
| CaseModal.AddNote | src/components/CaseModal.js:8-26 | status set to the chosen one; history is the old history plus one entry (status, note, date); every other field unchanged; details "Updated case {id} status to {status}" plus ": {note}" only for a non-empty note; action "updated" |
| CaseModal.InitiateCall | src/components/CaseModal.js:28-54 | history grows by one CALL_INITIATED entry naming the customer and time; status and every other field unchanged; details "Initiated call to {customer} for case {id}" |
| CaseModal.SaveNote | src/components/CaseModal.js:8-23 | saving a note updates the store's case status and history and logs one "updated" entry for entity "case" in front of the old log |
| CaseModal.SaveCall | src/components/CaseModal.js:28-47 | saving a call keeps the case's status and agent, grows its history by one, and logs the call details |
| AgentsView.HandleAddAgent | src/components/Agents.js:27-42 | empty name or email: an alert and no change; otherwise one agent appended and one "created"/"agent" entry logged |
| AgentsView.HandleUpdateAgent | src/components/Agents.js:44-61 | empty fields: alert, no change; unknown id: thrown, no change; otherwise only name and email of that agent change, and an "updated"/"agent" entry is logged |
| AgentsView.HandleDeleteAgent | src/components/Agents.js:63-78 | unconfirmed: nothing; confirmed: deleted; logs "deleted"/"agent" with the shown name, or throws without logging when the page showed no such agent |
| AgentsView.HandleAssignCase | src/components/Agents.js:80-96 | a store rejection is thrown with nothing changed and nothing logged; otherwise the store is assigned and one "assigned"/"case" entry names case, customer and agent |
| AgentsView.HandleUnassignCase | src/components/Agents.js:98-113 | a store rejection is thrown with nothing changed and nothing logged; otherwise the store is unassigned and one "unassigned"/"case" entry is logged |
| AgentsView.AssignLogsRealNames | src/components/Agents.js:80-96 | when the page shows the current store, the logged customer and agent names are the real ones |
| AgentsView.ThrowLeavesLogAlone | src/components/Agents.js:80-113 | an assign or unassign handler that throws leaves store and log unchanged |
| AgentsView.AssignmentLists | src/components/Agents.js:266-322 | the "currently assigned" and "available" lists split the cases: each case is in exactly one |
| AgentsView.AssignMovesCase | src/components/Agents.js:319-333 | a case assigned from the dialog is afterwards in the agent's assigned list and not in the available list |

## Left out

- `src/services/baseApiService.js` is not part of this model: nothing in the modelled paths calls it.
- `src/components/Dashboard.js`, `src/App.js`, `src/components/Login.js`, `src/context/AuthContext.js` and `src/services/index.js` are not part of this model. They hold random statistics, routing, login and token storage, and re-exports.
- Service facades that only delegate are not separate members. `getCases` and `getAgents` return a copy of the store's list. The case service's `updateCase`, `assignCase`, `unassignCase`, `getCasesByAgent` and `getUnassignedCases`, and the agent service's `createAgent`, `updateAgent` and `deleteAgent`, await the store call and rethrow its error unchanged. The model calls the `MockData` operations directly.
- Object aliasing: the store's lists share case objects with the copies pages hold, so an assignment also changes a page's copy. Value semantics do not model this.
- Promises: every call is synchronous, and a rejection is an `Err` result.
- Console logging is left out.
- Clock readings are parameters: `Date.now()` ids, `new Date()` timestamps, and the locale date, time and date-time strings. `addLog`'s two clock readings are separate parameters.
- MockData.Seed and ActivityLogService.SeedLogs each take one clock reading `now`. The source reads the clock again for each of the 25 seeded cases and each of the three seeded log entries, and those readings can differ by a few milliseconds. So the seeded creation times are all equal here, and the log seeds are exactly one hour apart.
- Random amounts are a parameter `draw`. The ranges the source draws from (10000–59999 and 1000–5999) are not constrained.
- Timestamps are integer milliseconds. The ISO strings the source stores and the `Date` parsing of them are left out.
- JSON text in storage is abstracted to the list it encodes. Text that parses to something other than a list of entries is not modelled.
- `toLowerCase` is ASCII only. Unicode case mapping is left out.
- Strings are sequences of Unicode scalar values, not UTF-16 code units. A character above U+FFFF is one element here but two code units in the source. This changes `.length`, `includes` on a lone surrogate, and the order between such characters and those in U+E000–U+FFFF.
- CasesView.FilteredCases: for the "customer" sort it claims only that the result is a permutation of the visible cases. `localeCompare` depends on the locale, and the model orders by Unicode scalar values instead.
- AgentService.Fixed2: `toFixed` switches to exponent notation at 1e21 and above; this is not modelled.
- AgentDashboard.ResolutionRate: it rounds the exact ratio. The source's double arithmetic can differ by one at an exact half (for example 29/200).
- Rendering, virtualised lists, polling, `listRef.resetAfterIndex` and form state are left out. `window.confirm` is a boolean input and `alert` is an outcome.
- A page's copy of the agents and cases is the `shown` parameter of the admin handlers. When or how the page reloads it is not modelled.
- The admin update handler reads the agent being edited. The case where no agent is being edited, which would throw, is not modelled.
- Values of the wrong type are not modelled: a string where the source expects a number, or a case without a customer.
