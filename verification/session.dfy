/** What a page of the dashboard works against: the store and the activity
    log (both singletons in the source), the signed-in user, and the clock
    readings a log entry takes. */
module Session {
  import opened ActivityLogService
  import opened MockData

  datatype Session = Session(store: Store, log: ActivityLog)

  /** The signed-in user, as far as the pages use it. */
  datatype User = User(name: string, role: string)

  /** The two clock readings `addLog` takes: the entry id and its timestamp. */
  datatype Stamp = Stamp(id: int, timestamp: int)

  /** The `{ action, details }` object a page hands to the log. */
  datatype ActionDetails = ActionDetails(action: string, details: string)

  /** `activityLogService.addLog(user.name, user.role, action, entity, details)`:
      the store is untouched and the log gains one entry at its head. */
  function Record(s: Session, u: User, t: Stamp, action: string, entity: string, details: string): (r: Session)
    ensures r.store == s.store
    ensures r.log.logs == [LogEntry(t.id, t.timestamp, u.name, u.role, action, entity, details)] + s.log.logs
    ensures s.log.storage.writable ==> Synced(r.log)
  {
    Session(s.store, AddLog(s.log, t.id, t.timestamp, u.name, u.role, action, entity, details).log)
  }
}
