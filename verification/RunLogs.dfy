/** The two tables a pipeline run writes, its row and its audit events, kept as the history of attempted writes. */
module RunLogs {
  import opened Text
  import opened Uuids
  import opened ExecutionGates
  import opened Persistence

  datatype Status = Running | Completed | Failed
  datatype Kind =
    | PipelineStarted | PhaseStarted(phase: nat) | PhaseCompleted(phase: nat) | PipelineCompleted | PipelineFailed

  datatype Row = Row(status: Status, signal: Signal)

  datatype Write =
    | Create(id: Uuid, row: Row)
    | Update(id: Uuid, status: Status, signal: Option<Signal>)
    | Audit(id: Uuid, kind: Kind)
    | Queue(id: Uuid, queued: Signal)

  datatype Attempt = Attempt(write: Write, outcome: Outcome)

  type Log = seq<Attempt>

  // ---------------------------------------------------------------- what the tables hold

  /** The row of a run: an update without a signal keeps the stored one, and updates no row that is not there. */
  function Stored(log: Log, id: Uuid): Option<Row> {
    if log == [] then None
    else
      var before, last := Stored(log[..|log| - 1], id), log[|log| - 1];
      if last.outcome == Lost || last.write.id != id then before
      else match last.write
        case Create(_, row) => if before.None? then Some(row) else before
        case Update(_, status, signal) => if before.None?
          then None else Some(Row(status, if signal.Some? then signal.value else before.value.signal))
        case _ => before
  }

  predicate Holds(log: Log, id: Uuid, kind: Kind) {
    exists i :: 0 <= i < |log| && log[i].outcome != Lost && log[i].write == Audit(id, kind)
  }

  lemma StoredNext(log: Log, a: Attempt, id: Uuid)
    ensures Stored(log + [a], id) ==
      if a.outcome == Lost || a.write.id != id then Stored(log, id)
      else match a.write
        case Create(_, row) => if Stored(log, id).None? then Some(row) else Stored(log, id)
        case Update(_, status, signal) => if Stored(log, id).None?
          then None else Some(Row(status, if signal.Some? then signal.value else Stored(log, id).value.signal))
        case _ => Stored(log, id)
  {
    assert (log + [a])[..|log|] == log;
  }

  lemma HoldsNext(log: Log, a: Attempt, id: Uuid, kind: Kind)
    ensures Holds(log + [a], id, kind) <==> Holds(log, id, kind) || (a.outcome != Lost && a.write == Audit(id, kind))
  {
    var next := log + [a];
    if Holds(log, id, kind) {
      var i :| 0 <= i < |log| && log[i].outcome != Lost && log[i].write == Audit(id, kind);
      assert next[i] == log[i];
    }
    assert next[|log|] == a;
  }

  /** Every attempt in the log is about this run. */
  ghost predicate About(log: Log, id: Uuid) { forall i :: 0 <= i < |log| ==> log[i].write.id == id }

  /** A run's writes leave every other run alone. */
  lemma {:induction false} OthersUntouched(log: Log, more: Log, id: Uuid, other: Uuid)
    requires About(more, id) && other != id
    ensures Stored(log + more, other) == Stored(log, other) && forall kind :: Holds(log + more, other, kind) <==>
      Holds(log, other, kind)
    decreases |more|
  {
    if more == [] {
      assert log + more == log;
    } else {
      var n := |more| - 1;
      OthersUntouched(log, more[..n], id, other);
      assert log + more == (log + more[..n]) + [more[n]];
      StoredNext(log + more[..n], more[n], other);
      forall kind ensures Holds(log + more, other, kind) <==> Holds(log, other, kind) {
        HoldsNext(log + more[..n], more[n], other, kind);
      }
    }
  }

  // ---------------------------------------------------------------- auditability

  /** A completed row without its completion event. */
  predicate Unaudited(log: Log, id: Uuid) {
    Stored(log, id).Some? && Stored(log, id).value.status == Completed && !Holds(log, id, PipelineCompleted)
  }

  /** Something the runner could not see or could not repair: a completion reported as failed, or a repair that was
      lost. */
  predicate Excused(log: Log, id: Uuid) {
    exists i :: 0 <= i < |log| && log[i].write.Update? && log[i].write.id == id
      && ((log[i].write.status == Completed && log[i].outcome == Unacknowledged) ||
        (log[i].write.status == Failed && log[i].outcome == Lost))
  }

  ghost predicate Auditable(log: Log) { forall id :: Unaudited(log, id) ==> Excused(log, id) }

  /** An opportunity is queued only for a run already stored as completed, with that signal and with its completion
      event. */
  ghost predicate QueuedAfterAudit(log: Log) {
    forall k :: 0 <= k < |log| && log[k].write.Queue? ==>
      Stored(log[..k], log[k].write.id) == Some(Row(Completed, log[k].write.queued))
        && Holds(log[..k], log[k].write.id, PipelineCompleted)
  }

  lemma {:induction false} ExcusedGrows(log: Log, more: Log, id: Uuid)
    requires Excused(log, id)
    ensures Excused(log + more, id)
  {
    var i :| 0 <= i < |log| && log[i].write.Update? && log[i].write.id == id
      && ((log[i].write.status == Completed && log[i].outcome == Unacknowledged) ||
        (log[i].write.status == Failed && log[i].outcome == Lost));
    assert (log + more)[i] == log[i];
  }

  /** A run whose own row stays auditable keeps the whole store auditable. */
  lemma AuditableExtends(log: Log, more: Log, id: Uuid)
    requires Auditable(log) && About(more, id) && (Unaudited(log + more, id) ==> Excused(log + more, id))
    ensures Auditable(log + more)
  {
    hide Stored, Holds, Excused, About;
    forall other | Unaudited(log + more, other) ensures Excused(log + more, other) {
      if other != id {
        OthersUntouched(log, more, id, other);
        ExcusedGrows(log, more, other);
      }
    }
  }

  lemma {:induction false} QueuedExtends(log: Log, more: Log)
    requires QueuedAfterAudit(log) && forall i :: 0 <= i < |more| ==> !more[i].write.Queue?
    ensures QueuedAfterAudit(log + more)
  {
    hide Stored, Holds;
    forall k | 0 <= k < |log + more| && (log + more)[k].write.Queue?
      ensures var w := (log + more)[k].write;
        Stored((log + more)[..k], w.id) == Some(Row(Completed, w.queued))
        && Holds((log + more)[..k], w.id, PipelineCompleted)
    {
      assert k < |log| && (log + more)[..k] == log[..k];
    }
  }

  lemma QueueNext(log: Log, a: Attempt)
    requires QueuedAfterAudit(log) && a.write.Queue?
    requires Stored(log, a.write.id) == Some(Row(Completed, a.write.queued))
      && Holds(log, a.write.id, PipelineCompleted)
    ensures QueuedAfterAudit(log + [a])
  {
    hide Stored, Holds;
    assert (log + [a])[..|log|] == log;
    forall k | 0 <= k < |log| ensures (log + [a])[..k] == log[..k] && (log + [a])[k] == log[k] {}
  }

  // ---------------------------------------------------------------- the store

  /** A store whose writes may fail in any pattern. */
  class Store {
    var log: Log
    const fate: nat -> Outcome

    constructor (fate: nat -> Outcome)
      ensures log == [] && this.fate == fate
    {
      this.fate, log := fate, [];
    }

    /** Creating a row twice and updating a missing row fail without effect. */
    method Try(write: Write) returns (ok: bool)
      modifies this
      ensures exists outcome :: log == old(log) + [Attempt(write, outcome)] && ok == outcome.Applied?
      ensures log == old(log) + [Attempt(write, if ok then Applied else log[|old(log)|].outcome)]
      ensures ok && write.Update? ==> Stored(old(log), write.id).Some?
      ensures ok && write.Create? ==> Stored(old(log), write.id).None?
    {
      var outcome := fate(|log|);
      if write.Update? && Stored(log, write.id).None? { outcome := Lost; }
      if write.Create? && Stored(log, write.id).Some? { outcome := Lost; }
      log := log + [Attempt(write, outcome)];
      return outcome.Applied?;
    }
  }
}
