/** The case dialog (`CaseModal`): the edited case and the log details that
    its two actions hand to the save handler of the case list. */
module CaseModal {
  import opened Wrappers
  import opened Entities
  import opened MockData
  import opened ActivityLogService
  import opened Session
  import opened CasesView

  /** The edited case and the `{ action, details }` passed along with it. */
  datatype Edit = Edit(updated: Case, details: ActionDetails)

  const CallInitiated := "CALL_INITIATED"

  /** `addNote`: sets the chosen status and appends a history entry with that
      status, the note and today's date (`date`, the locale date string). */
  function AddNote(data: Case, status: string, note: string, date: string): (e: Edit)
    ensures e.updated.(status := data.status, history := data.history) == data
    ensures e.updated.status == status
    ensures |e.updated.history| == |data.history| + 1
    ensures e.updated.history[..|data.history|] == data.history
    ensures e.updated.history[|data.history|] == HistoryEntry(status, note, date)
    ensures e.details.action == "updated"
    ensures note == "" ==> e.details.details == "Updated case " + data.id + " status to " + status
    ensures note != "" ==> e.details.details == "Updated case " + data.id + " status to " + status + ": " + note
  {
    var updated := data.(status := status, history := data.history + [HistoryEntry(status, note, date)]);
    var suffix := if note != "" then ": " + note else "";
    Edit(updated, ActionDetails("updated", "Updated case " + data.id + " status to " + status + suffix))
  }

  /** `initiateCall`: appends a CALL_INITIATED entry naming the customer and
      the time (`time`, the locale time string); the status is kept. */
  function InitiateCall(data: Case, time: string, date: string): (e: Edit)
    ensures e.updated.(history := data.history) == data
    ensures |e.updated.history| == |data.history| + 1
    ensures e.updated.history[..|data.history|] == data.history
    ensures e.updated.history[|data.history|].stage == CallInitiated
    ensures e.updated.history[|data.history|] ==
      HistoryEntry(CallInitiated, "Call initiated to " + data.customer + " at " + time, date)
    ensures e.details == ActionDetails("updated", "Initiated call to " + data.customer + " for case " + data.id)
  {
    var entry := HistoryEntry(CallInitiated, "Call initiated to " + data.customer + " at " + time, date);
    Edit(data.(history := data.history + [entry]),
         ActionDetails("updated", "Initiated call to " + data.customer + " for case " + data.id))
  }

  /** Saving a note on a case the store holds: the store's case becomes the
      edited one, with the note at the end of its history, and the log gains
      one "updated" entry for entity "case" at its head. */
  lemma SaveNote(s: Session, u: User, t: Stamp, i: int, status: string, note: string, date: string)
    requires 0 <= i < |s.store.cases| && CaseIndex(s.store.cases, s.store.cases[i].id) == i
    ensures var e := AddNote(s.store.cases[i], status, note, date);
      var r := HandleUpdateCase(s, u, t, e.updated, Some(e.details));
      && r.store.cases[i].status == status
      && r.store.cases[i].history == s.store.cases[i].history + [HistoryEntry(status, note, date)]
      && |r.log.logs| == |s.log.logs| + 1
      && r.log.logs[0].action == "updated" && r.log.logs[0].entity == "case"
      && r.log.logs[1..] == s.log.logs
  {
    var e := AddNote(s.store.cases[i], status, note, date);
    assert e.updated.id == s.store.cases[i].id;
    assert e.updated.history == e.updated.history[..|s.store.cases[i].history|] + [e.updated.history[|s.store.cases[i].history|]];
  }

  /** A call record changes the history only: the case keeps its status and
      its assignment. */
  lemma SaveCall(s: Session, u: User, t: Stamp, i: int, time: string, date: string)
    requires 0 <= i < |s.store.cases| && CaseIndex(s.store.cases, s.store.cases[i].id) == i
    ensures var e := InitiateCall(s.store.cases[i], time, date);
      var r := HandleUpdateCase(s, u, t, e.updated, Some(e.details));
      && r.store.cases[i].status == s.store.cases[i].status
      && r.store.cases[i].agentId == s.store.cases[i].agentId
      && |r.store.cases[i].history| == |s.store.cases[i].history| + 1
      && r.log.logs[0].details == "Initiated call to " + s.store.cases[i].customer + " for case " + s.store.cases[i].id
  {
    var e := InitiateCall(s.store.cases[i], time, date);
    assert e.updated.id == s.store.cases[i].id;
  }
}
