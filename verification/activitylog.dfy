/** The activity log (`ActivityLogService`): a newest-first list of audit
    entries mirrored into browser storage under one key, with filters over it.

    Browser storage is a parameter: a map from keys to what is stored there,
    plus whether reads and writes succeed. JSON text is abstracted to the list
    it encodes; a value that does not parse is `Unparsable`. */
module ActivityLogService {
  import opened Wrappers
  import opened Seqs

  /** One audit entry. `id` comes from the clock at creation; `timestamp` is
      in milliseconds (the source stores its ISO rendering, which keeps
      millisecond precision). */
  datatype LogEntry = LogEntry(
    id: int,
    timestamp: int,
    user: string,
    role: string,
    action: string,
    entity: string,
    details: string)

  /** What `localStorage.getItem` can return for the key. */
  datatype Stored =
    | Json(entries: seq<LogEntry>)  // the JSON text of a list of entries
    | Blank                         // the empty string, which is falsy
    | Unparsable                    // text `JSON.parse` rejects

  datatype Storage = Storage(items: map<string, Stored>, readable: bool, writable: bool)

  const StorageKey := "activityLogs"

  datatype ActivityLog = ActivityLog(logs: seq<LogEntry>, storage: Storage)

  /** The entries a fresh browser starts with, one, two and three hours old. */
  function SeedLogs(now: int): (r: seq<LogEntry>)
    ensures |r| == 3
    ensures forall i :: 0 <= i < 3 ==> r[i].id == i + 1 && r[i].timestamp == now - (i + 1) * 3600000
  {
    [ LogEntry(1, now - 3600000, "Admin User", "ADMIN", "created", "agent", "Added new agent: Ravi Kumar"),
      LogEntry(2, now - 7200000, "Agent User", "AGENT", "updated", "case", "Updated case LN-1001 status to FOLLOW_UP"),
      LogEntry(3, now - 10800000, "Admin User", "ADMIN", "assigned", "case", "Assigned case LN-1005 to Priya Patel") ]
  }

  /** `loadFromStorage`: the stored list if there is one; the seed entries if
      nothing (or the empty string) is stored; no entries if storage cannot be
      read or the stored text does not parse. */
  function Load(st: Storage, now: int): (r: seq<LogEntry>)
    ensures !st.readable ==> r == []
    ensures st.readable && StorageKey in st.items && st.items[StorageKey].Json? ==> r == st.items[StorageKey].entries
    ensures st.readable && (StorageKey !in st.items || st.items[StorageKey] == Blank) ==> r == SeedLogs(now)
    ensures st.readable && StorageKey in st.items && st.items[StorageKey] == Unparsable ==> r == []
  {
    if !st.readable then []
    else if StorageKey !in st.items then SeedLogs(now)
    else
      match st.items[StorageKey]
      case Json(entries) => entries
      case Blank => SeedLogs(now)
      case Unparsable => []
  }

  /** `saveToStorage`: writes the list under the key, or leaves storage as it
      was when the write fails. */
  function Save(st: Storage, logs: seq<LogEntry>): (r: Storage)
    ensures r.readable == st.readable && r.writable == st.writable
    ensures st.writable ==> r.items == st.items[StorageKey := Json(logs)]
    ensures !st.writable ==> r == st
  {
    if st.writable then st.(items := st.items[StorageKey := Json(logs)]) else st
  }

  /** Saving and loading back gives the list saved, whatever it is, as long as
      storage can be written and read. */
  lemma SaveLoadRoundTrip(st: Storage, logs: seq<LogEntry>, now: int)
    requires st.readable && st.writable
    ensures Load(Save(st, logs), now) == logs
  {
  }

  /** The constructor: a log loaded from the given storage. */
  function New(st: Storage, now: int): (r: ActivityLog)
    ensures r.storage == st
    ensures r.logs == Load(st, now)
  {
    ActivityLog(Load(st, now), st)
  }

  /** Storage holds exactly the log's entries. */
  predicate Synced(l: ActivityLog)
  {
    StorageKey in l.storage.items && l.storage.items[StorageKey] == Json(l.logs)
  }

  /** A synced log reloads to itself. */
  lemma SyncedReloads(l: ActivityLog, now: int)
    requires Synced(l) && l.storage.readable
    ensures New(l.storage, now).logs == l.logs
  {
  }

  /** The log after `addLog` and the entry it returned. */
  datatype Added = Added(log: ActivityLog, entry: LogEntry)

  /** `addLog`: puts a new entry at the front and saves. `id` and `timestamp`
      are the two clock readings the source takes. */
  function AddLog(l: ActivityLog, id: int, timestamp: int,
                  user: string, role: string, action: string, entity: string, details: string): (r: Added)
    ensures r.entry == LogEntry(id, timestamp, user, role, action, entity, details)
    ensures r.log.logs == [r.entry] + l.logs
    ensures r.log.storage == Save(l.storage, r.log.logs)
    ensures l.storage.writable ==> Synced(r.log)
  {
    var e := LogEntry(id, timestamp, user, role, action, entity, details);
    var logs := [e] + l.logs;
    Added(ActivityLog(logs, Save(l.storage, logs)), e)
  }

  /** `getLogs`: a copy of the entries. */
  function GetLogs(l: ActivityLog): (r: seq<LogEntry>)
    ensures r == l.logs
  {
    l.logs
  }

  function EntityIs(entity: string): LogEntry -> bool
  {
    (e: LogEntry) => e.entity == entity
  }

  function UserIs(user: string): LogEntry -> bool
  {
    (e: LogEntry) => e.user == user
  }

  function ActionIs(action: string): LogEntry -> bool
  {
    (e: LogEntry) => e.action == action
  }

  /** `start <= timestamp <= end`, both ends included. */
  function Within(start: int, end: int): LogEntry -> bool
  {
    (e: LogEntry) => start <= e.timestamp <= end
  }

  /** The entries satisfying `p`, newest first; the four query functions are
      this with the predicates above. */
  function Select(l: ActivityLog, p: LogEntry -> bool): (r: seq<LogEntry>)
    ensures forall i :: 0 <= i < |r| ==> p(r[i])
    ensures forall i :: 0 <= i < |l.logs| && p(l.logs[i]) ==> multiset(r)[l.logs[i]] == multiset(l.logs)[l.logs[i]]
    ensures IsSubsequence(r, l.logs)
  {
    FilterSpec(p, l.logs);
    Filter(p, l.logs)
  }

  /** `getLogsByEntity`. */
  function GetLogsByEntity(l: ActivityLog, entity: string): (r: seq<LogEntry>)
    ensures forall i :: 0 <= i < |r| ==> r[i].entity == entity
    ensures forall i :: 0 <= i < |l.logs| && l.logs[i].entity == entity ==> multiset(r)[l.logs[i]] == multiset(l.logs)[l.logs[i]]
    ensures IsSubsequence(r, l.logs)
  {
    Select(l, EntityIs(entity))
  }

  /** `getLogsByUser`. */
  function GetLogsByUser(l: ActivityLog, user: string): (r: seq<LogEntry>)
    ensures forall i :: 0 <= i < |r| ==> r[i].user == user
    ensures forall i :: 0 <= i < |l.logs| && l.logs[i].user == user ==> multiset(r)[l.logs[i]] == multiset(l.logs)[l.logs[i]]
    ensures IsSubsequence(r, l.logs)
  {
    Select(l, UserIs(user))
  }

  /** `getLogsByAction`. */
  function GetLogsByAction(l: ActivityLog, action: string): (r: seq<LogEntry>)
    ensures forall i :: 0 <= i < |r| ==> r[i].action == action
    ensures forall i :: 0 <= i < |l.logs| && l.logs[i].action == action ==> multiset(r)[l.logs[i]] == multiset(l.logs)[l.logs[i]]
    ensures IsSubsequence(r, l.logs)
  {
    Select(l, ActionIs(action))
  }

  /** `getLogsByDateRange`: both ends inclusive. */
  function GetLogsByDateRange(l: ActivityLog, start: int, end: int): (r: seq<LogEntry>)
    ensures forall i :: 0 <= i < |r| ==> start <= r[i].timestamp <= end
    ensures forall i :: 0 <= i < |l.logs| && start <= l.logs[i].timestamp <= end ==>
      multiset(r)[l.logs[i]] == multiset(l.logs)[l.logs[i]]
    ensures IsSubsequence(r, l.logs)
  {
    Select(l, Within(start, end))
  }

  /** A query run after `addLog` sees the new entry in front of what it saw
      before, when the entry matches, and exactly what it saw before otherwise. */
  lemma AddLogThenSelect(l: ActivityLog, id: int, timestamp: int,
                         user: string, role: string, action: string, entity: string, details: string,
                         p: LogEntry -> bool)
    ensures var a := AddLog(l, id, timestamp, user, role, action, entity, details);
      Select(a.log, p) == (if p(a.entry) then [a.entry] else []) + Select(l, p)
  {
    var a := AddLog(l, id, timestamp, user, role, action, entity, details);
    assert a.log.logs[1..] == l.logs;
  }

  /** `clearLogs`: no entries, and the empty list saved. */
  function ClearLogs(l: ActivityLog): (r: ActivityLog)
    ensures r.logs == []
    ensures r.storage == Save(l.storage, [])
    ensures l.storage.writable ==> Synced(r)
  {
    ActivityLog([], Save(l.storage, []))
  }

  /** A cleared log stays empty across a reload; it is not re-seeded. */
  lemma ClearedStaysEmpty(l: ActivityLog, now: int)
    requires l.storage.readable && l.storage.writable
    ensures New(ClearLogs(l).storage, now).logs == []
  {
  }

  /** `getRecentLogs(limit)`: `slice(0, limit)`, so a negative limit drops
      that many entries from the end. */
  function GetRecentLogs(l: ActivityLog, limit: int): (r: seq<LogEntry>)
    ensures 0 <= limit ==> |r| == if limit < |l.logs| then limit else |l.logs|
    ensures limit < 0 ==> |r| == if |l.logs| + limit < 0 then 0 else |l.logs| + limit
    ensures r == l.logs[..|r|]
  {
    Take(l.logs, limit)
  }

  const DefaultRecentLimit := 10

  /** `getRecentLogs()` with its default limit. */
  function GetRecentLogsDefault(l: ActivityLog): (r: seq<LogEntry>)
    ensures |r| <= DefaultRecentLimit
    ensures r == GetRecentLogs(l, DefaultRecentLimit)
  {
    GetRecentLogs(l, DefaultRecentLimit)
  }

  /** The most recent entry after `addLog` is the one just added. */
  lemma AddLogIsMostRecent(l: ActivityLog, id: int, timestamp: int,
                           user: string, role: string, action: string, entity: string, details: string)
    ensures var a := AddLog(l, id, timestamp, user, role, action, entity, details);
      GetRecentLogs(a.log, 1) == [a.entry]
  {
  }

  /** After clearing, adding one entry leaves exactly that entry, in memory and
      in storage. */
  lemma ClearThenAdd(l: ActivityLog, id: int, timestamp: int,
                     user: string, role: string, action: string, entity: string, details: string)
    requires l.storage.writable
    ensures var a := AddLog(ClearLogs(l), id, timestamp, user, role, action, entity, details);
      a.log.logs == [a.entry] && Synced(a.log)
  {
  }

  /** A fresh browser: nothing stored, so the constructor seeds three entries,
      newest first, with ids 1, 2 and 3. */
  lemma FreshBrowserSeeds(now: int)
    ensures var l := New(Storage(map[], true, true), now);
      |l.logs| == 3 && l.logs[0].id == 1 && l.logs[2].id == 3 && !Synced(l)
  {
  }
}
