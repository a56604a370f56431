/** The activity log page (`ActivityLog`): the entity and text filter, the
    set of expanded rows, row heights, relative timestamps, and the clear
    button. */
module ActivityLogView {
  import opened Seqs
  import opened Text
  import opened ActivityLogService

  const AllEntities := "ALL"

  /** The row filter: the entity equals the lower-cased filter (or the filter
      is "ALL"), and the search term is empty or occurs, ignoring case, in the
      details or the user name. */
  function LogVisible(filter: string, term: string): LogEntry -> bool
  {
    (e: LogEntry) =>
      && (filter == AllEntities || e.entity == Lower(filter))
      && (term == "" || Contains(Lower(e.details), Lower(term)) || Contains(Lower(e.user), Lower(term)))
  }

  /** `filteredLogs`: the visible entries in log order, newest first. */
  function FilteredLogs(logs: seq<LogEntry>, filter: string, term: string): (r: seq<LogEntry>)
    ensures forall i :: 0 <= i < |r| ==> filter == AllEntities || r[i].entity == Lower(filter)
    ensures forall i :: 0 <= i < |r| ==> LogVisible(filter, term)(r[i])
    ensures forall i :: 0 <= i < |logs| && LogVisible(filter, term)(logs[i]) ==>
      multiset(r)[logs[i]] == multiset(logs)[logs[i]]
    ensures IsSubsequence(r, logs)
  {
    FilterSpec(LogVisible(filter, term), logs);
    Filter(LogVisible(filter, term), logs)
  }

  /** With no filter and no search term every entry is shown. */
  lemma FilteredLogsShowAll(logs: seq<LogEntry>)
    ensures FilteredLogs(logs, AllEntities, "") == logs
  {
    FilterKeepsAll(LogVisible(AllEntities, ""), logs);
  }

  /** With an entity filter and no search term the page shows what the
      service's entity query returns for the lower-cased filter. */
  lemma FilteredLogsIsEntityQuery(l: ActivityLog, filter: string)
    requires filter != AllEntities
    ensures FilteredLogs(l.logs, filter, "") == GetLogsByEntity(l, Lower(filter))
  {
    FilterCongruent(LogVisible(filter, ""), EntityIs(Lower(filter)), l.logs);
  }

  /** `toggleLog`: adds the id to the expanded set when absent, removes it
      when present. */
  function ToggleLog(expanded: set<int>, id: int): (r: set<int>)
    ensures id in r <==> id !in expanded
    ensures forall x :: x != id ==> (x in r <==> x in expanded)
  {
    if id in expanded then expanded - {id} else expanded + {id}
  }

  /** Toggling the same row twice restores the expanded set. */
  lemma ToggleLogTwice(expanded: set<int>, id: int)
    ensures ToggleLog(ToggleLog(expanded, id), id) == expanded
  {
    var r := ToggleLog(ToggleLog(expanded, id), id);
    assert forall x :: x in r <==> x in expanded;
  }

  const ExpandedHeight := 320
  const CollapsedHeight := 140

  /** `itemSize(index)`: the height of row `index` of the shown entries. */
  function ItemSize(expanded: set<int>, shown: seq<LogEntry>, index: int): (h: int)
    requires 0 <= index < |shown|
    ensures shown[index].id in expanded ==> h == ExpandedHeight
    ensures shown[index].id !in expanded ==> h == CollapsedHeight
  {
    if shown[index].id in expanded then ExpandedHeight else CollapsedHeight
  }

  /** Expanding a row grows exactly that row, and only rows that share its id. */
  lemma ToggleGrowsRow(expanded: set<int>, shown: seq<LogEntry>, index: int, other: int)
    requires 0 <= index < |shown| && 0 <= other < |shown|
    requires shown[index].id !in expanded
    ensures ItemSize(ToggleLog(expanded, shown[index].id), shown, index) == ExpandedHeight
    ensures shown[other].id != shown[index].id ==>
      ItemSize(ToggleLog(expanded, shown[index].id), shown, other) == ItemSize(expanded, shown, other)
  {
  }

  /** How long ago an entry was made, in the bucket the page shows. */
  datatype Age =
    | SecondsAgo(n: int)
    | MinutesAgo(n: int)
    | HoursAgo(n: int)
    | DaysAgo(n: int)
    | Absolute           // a week or more: the page shows the locale date

  const Minute := 60
  const Hour := 3600
  const Day := 86400
  const Week := 604800

  /** `Math.floor((now - date) / 1000)`. Dafny's division by a positive number
      already rounds down, negative differences included. */
  function DiffSeconds(timestamp: int, now: int): int
  {
    (now - timestamp) / 1000
  }

  /** The bucket `formatTimestamp` picks for a difference of `d` seconds. */
  function AgeOf(d: int): (a: Age)
    ensures a.SecondsAgo? <==> d < Minute
    ensures a.SecondsAgo? ==> a.n == d
    ensures a.MinutesAgo? <==> Minute <= d < Hour
    ensures a.MinutesAgo? ==> 1 <= a.n < 60 && Minute * a.n <= d < Minute * (a.n + 1)
    ensures a.HoursAgo? <==> Hour <= d < Day
    ensures a.HoursAgo? ==> 1 <= a.n < 24 && Hour * a.n <= d < Hour * (a.n + 1)
    ensures a.DaysAgo? <==> Day <= d < Week
    ensures a.DaysAgo? ==> 1 <= a.n < 7 && Day * a.n <= d < Day * (a.n + 1)
    ensures a == Absolute <==> Week <= d
  {
    if d < Minute then SecondsAgo(d)
    else if d < Hour then MinutesAgo(d / Minute)
    else if d < Day then HoursAgo(d / Hour)
    else if d < Week then DaysAgo(d / Day)
    else Absolute
  }

  /** `formatTimestamp`: the relative text, or `localeText` (the entry's
      `toLocaleString()`) for entries a week old or more. */
  function FormatTimestamp(timestamp: int, now: int, localeText: string): (r: string)
    ensures AgeOf(DiffSeconds(timestamp, now)) == Absolute ==> r == localeText
    ensures AgeOf(DiffSeconds(timestamp, now)).SecondsAgo? ==>
      r == IntToString(AgeOf(DiffSeconds(timestamp, now)).n) + "s ago"
    ensures AgeOf(DiffSeconds(timestamp, now)).MinutesAgo? ==>
      r == IntToString(AgeOf(DiffSeconds(timestamp, now)).n) + "m ago"
    ensures AgeOf(DiffSeconds(timestamp, now)).HoursAgo? ==>
      r == IntToString(AgeOf(DiffSeconds(timestamp, now)).n) + "h ago"
    ensures AgeOf(DiffSeconds(timestamp, now)).DaysAgo? ==>
      r == IntToString(AgeOf(DiffSeconds(timestamp, now)).n) + "d ago"
  {
    match AgeOf(DiffSeconds(timestamp, now))
    case SecondsAgo(n) => IntToString(n) + "s ago"
    case MinutesAgo(n) => IntToString(n) + "m ago"
    case HoursAgo(n) => IntToString(n) + "h ago"
    case DaysAgo(n) => IntToString(n) + "d ago"
    case Absolute => localeText
  }

  /** The seed entries, one, two and three hours old, show as "1h ago",
      "2h ago" and "3h ago". */
  lemma SeedEntriesAge(now: int, localeText: string)
    ensures forall i :: 0 <= i < 3 ==>
      FormatTimestamp(SeedLogs(now)[i].timestamp, now, localeText) == NatToString(i + 1) + "h ago"
  {
    forall i | 0 <= i < 3
      ensures FormatTimestamp(SeedLogs(now)[i].timestamp, now, localeText) == NatToString(i + 1) + "h ago"
    {
      assert DiffSeconds(SeedLogs(now)[i].timestamp, now) == (i + 1) * Hour;
    }
  }

  /** An entry from the future reads as a negative number of seconds. */
  lemma FutureEntryAge(now: int, localeText: string)
    ensures FormatTimestamp(now + 5000, now, localeText) == "-5s ago"
  {
    assert DiffSeconds(now + 5000, now) == -5;
    assert NatToString(5) == "5";
  }

  /** `clearAllLogs`: clears only when the user confirms. */
  function ClearAllLogs(l: ActivityLog, confirmed: bool): (r: ActivityLog)
    ensures !confirmed ==> r == l
    ensures confirmed ==> r.logs == [] && r.storage == Save(l.storage, [])
  {
    if confirmed then ClearLogs(l) else l
  }
}
