/** Native runs of the production strategy runner (prod_strategy_runner.go). */
module NativeRuns {
  import opened Text
  import opened Uuids
  import opened ExecutionGates
  import opened Persistence
  import opened RunLogs
  import opened AgentRuns

  /** The run as the runner holds it. */
  class NativeRun {
    const id: Uuid
    var status: Status
    var signal: Signal

    constructor (id: Uuid)
      ensures this.id == id && status == Running && signal == Unset
    {
      this.id, status, signal := id, Running, Unset;
    }
  }

  /** A run that starts has a running row and its start event; one that does not is marked failed if the
      store allows. */
  method StartNativeRun(store: Store, run: NativeRun) returns (ok: bool)
    modifies store, run
    ensures |old(store.log)| <= |store.log| && store.log[..|old(store.log)|] == old(store.log)
    ensures Starting(store.log[|old(store.log)|..], run.id, Row(old(run.status), old(run.signal)), ok)
    ensures ok ==>
      run.status == old(run.status) && run.signal == old(run.signal) && Stored(old(store.log), run.id).None?
  {
    hide Stored;
    var created := store.Try(Create(run.id, Row(run.status, run.signal)));
    if !created { return false; }
    var audited := store.Try(Audit(run.id, PipelineStarted));
    if audited { return true; }
    run.status, run.signal := Failed, Hold;
    var _ := store.Try(Update(run.id, Failed, Some(Hold)));
    return false;
  }

  ghost predicate Starting(more: Log, id: Uuid, row: Row, ok: bool) {
    && |more| >= 1 && more[0].write == Create(id, row)
    && if more[0].outcome != Applied then !ok && |more| == 1
       else
         && |more| >= 2 && more[1].write == Audit(id, PipelineStarted)
         && if more[1].outcome == Applied then ok && |more| == 2
            else !ok && |more| == 3 && more[2].write == Update(id, Failed, Some(Hold))
  }

  function TerminalKind(status: Status): Kind { if status == Completed then PipelineCompleted else PipelineFailed }

  ghost predicate NativeEnding(more: Log, id: Uuid, status: Status, signal: Signal, ok: bool) {
    && |more| >= 1 && more[0].write == Update(id, status, Some(signal))
    && if more[0].outcome != Applied then !ok && |more| == 1
       else
         && |more| >= 2 && more[1].write == Audit(id, TerminalKind(status))
         && if more[1].outcome == Applied then ok && |more| == 2
            else !ok && if status != Completed then |more| == 2
                        else |more| == 3 && more[2].write == Update(id, Failed, Some(Hold))
  }

  /** The only two ways in which a native run leaves a completed row without its event. */
  ghost predicate NativeStranded(more: Log, id: Uuid, signal: Signal) {
    || (|more| == 1 && more[0] == Attempt(Update(id, Completed, Some(signal)), Unacknowledged))
    || (|more| == 3 && more[0] == Attempt(Update(id, Completed, Some(signal)), Applied)
        && more[1] == Attempt(Audit(id, PipelineCompleted), Lost)
          && more[2] == Attempt(Update(id, Failed, Some(Hold)), Lost))
  }

  /** completeNativeRun */
  method CompleteNativeRun(store: Store, run: NativeRun, status: Status, signal: Signal) returns (ok: bool)
    modifies store, run
    ensures |old(store.log)| <= |store.log| && store.log[..|old(store.log)|] == old(store.log)
    ensures NativeEnding(store.log[|old(store.log)|..], run.id, status, signal, ok)
    ensures ok ==> run.status == status && run.signal == signal && Stored(old(store.log), run.id).Some?
    ensures run.status == Completed ==> status == Completed && run.signal == signal
  {
    hide Stored;
    run.status, run.signal := status, signal;
    var stored := store.Try(Update(run.id, status, Some(signal)));
    if !stored { return false; }
    var audited := store.Try(Audit(run.id, TerminalKind(status)));
    if audited { return true; }
    if status != Completed { return false; }
    run.status, run.signal := Failed, Hold;
    var _ := store.Try(Update(run.id, Failed, Some(Hold)));
    return false;
  }

  // ---------------------------------------------------------------- what starting and ending leave

  lemma NativeEndingExact(log: Log, more: Log, id: Uuid, status: Status, signal: Signal, ok: bool)
    requires NativeEnding(more, id, status, signal, ok) && Stored(log, id).Some?
    ensures ok ==> Stored(log + more, id) == Some(Row(status, signal)) && Holds(log + more, id, TerminalKind(status))
    ensures Stored(log, id).value.status != Completed && !Holds(log, id, PipelineCompleted) ==>
      (Unaudited(log + more, id) <==> NativeStranded(more, id, signal))
  {
    hide Stored, Holds;
    var one := log + [more[0]];
    StoredNext(log, more[0], id);
    HoldsNext(log, more[0], id, PipelineCompleted);
    if |more| == 1 {
      assert log + more == one;
    } else {
      var two := one + [more[1]];
      StoredNext(one, more[1], id);
      HoldsNext(one, more[1], id, PipelineCompleted);
      HoldsNext(one, more[1], id, TerminalKind(status));
      if |more| == 2 {
        assert log + more == two;
      } else {
        assert log + more == two + [more[2]];
        StoredNext(two, more[2], id);
        HoldsNext(two, more[2], id, PipelineCompleted);
      }
    }
  }

  /** The same for a native run, which then writes no event at all. */
  lemma NativeCompletionMayLackEvent(id: Uuid, signal: Signal)
    ensures var log := [Attempt(Create(id, Row(Running, Unset)), Applied)];
      var more := [Attempt(Update(id, Completed, Some(signal)), Unacknowledged)];
      NativeEnding(more, id, Completed, signal, false) && Unaudited(log + more, id)
  {
    var created := Attempt(Create(id, Row(Running, Unset)), Applied);
    StoredNext([], created, id);
    HoldsNext([], created, id, PipelineCompleted);
    assert [] + [created] == [created];
    NativeEndingExact([created], [Attempt(Update(id, Completed, Some(signal)), Unacknowledged)], id, Completed, signal,
      false);
  }

  lemma NativeStrandedExcused(log: Log, more: Log, id: Uuid, signal: Signal)
    requires NativeStranded(more, id, signal)
    ensures Excused(log + more, id)
  {
    var k := if |more| == 1 then 0 else 2;
    assert (log + more)[|log| + k] == more[k];
  }

  lemma NativeEndingAbout(more: Log, id: Uuid, status: Status, signal: Signal, ok: bool)
    requires NativeEnding(more, id, status, signal, ok)
    ensures About(more, id) && forall i :: 0 <= i < |more| ==> !more[i].write.Queue? && !more[i].write.Create?
  {
  }

  lemma NativeEndingAuditable(log: Log, more: Log, id: Uuid, status: Status, signal: Signal, ok: bool)
    requires NativeEnding(more, id, status, signal, ok) && Auditable(log)
    ensures Auditable(log + more)
  {
    hide Stored, Holds, Excused;
    NativeEndingAbout(more, id, status, signal, ok);
    if Unaudited(log + more, id) {
      if Holds(log, id, PipelineCompleted) {
        HoldsGrows(log, more, id, PipelineCompleted);
      } else if Unaudited(log, id) {
        ExcusedGrows(log, more, id);
      } else if Stored(log, id).None? {
        NoRowNoUpdate(log, more, id);
      } else {
        NativeEndingExact(log, more, id, status, signal, ok);
        NativeStrandedExcused(log, more, id, signal);
      }
    }
    AuditableExtends(log, more, id);
  }

  lemma StartingAbout(more: Log, id: Uuid, row: Row, ok: bool)
    requires Starting(more, id, row, ok)
    ensures About(more, id) && forall i :: 0 <= i < |more| ==> !more[i].write.Queue?
  {
  }

  /** Starting never completes a run; a start that succeeds leaves a running row and the start event. */
  lemma StartingExact(log: Log, more: Log, id: Uuid, row: Row, ok: bool)
    requires Starting(more, id, row, ok) && row.status == Running
    ensures Holds(log + more, id, PipelineCompleted) <==> Holds(log, id, PipelineCompleted)
    ensures ok && Stored(log, id).None? ==>
      Stored(log + more, id) == Some(row) && Holds(log + more, id, PipelineStarted)
    ensures Unaudited(log + more, id) ==> Unaudited(log, id)
  {
    hide Stored, Holds;
    var one := log + [more[0]];
    StoredNext(log, more[0], id);
    HoldsNext(log, more[0], id, PipelineCompleted);
    if |more| == 1 {
      assert log + more == one;
    } else {
      var two := one + [more[1]];
      StoredNext(one, more[1], id);
      HoldsNext(one, more[1], id, PipelineCompleted);
      HoldsNext(one, more[1], id, PipelineStarted);
      if |more| == 2 {
        assert log + more == two;
      } else {
        assert log + more == two + [more[2]];
        StoredNext(two, more[2], id);
        HoldsNext(two, more[2], id, PipelineCompleted);
      }
    }
  }

  lemma StartingAuditable(log: Log, more: Log, id: Uuid, row: Row, ok: bool)
    requires Starting(more, id, row, ok) && row.status == Running && Auditable(log)
    ensures Auditable(log + more)
  {
    hide Stored, Holds, Excused;
    StartingAbout(more, id, row, ok);
    StartingExact(log, more, id, row, ok);
    if Unaudited(log + more, id) { ExcusedGrows(log, more, id); }
    AuditableExtends(log, more, id);
  }

  // ---------------------------------------------------------------- the Kalshi run

  datatype Build = BuildFails | NothingToQueue | Opportunity

  /** What the run meets outside: any step before the decision may fail, so may the steps between an action and its
      completion,
      and so may reading the orders and positions back at the end. */
  datatype Kalshi = Kalshi(
    decision: Option<Signal>, acted: bool, repository: bool, paperAllocator: bool, build: Build, ordersRead: bool,
      positionsRead: bool)

  /** recordPortfolioOpportunity */
  method RecordOpportunity(store: Store, run: NativeRun, signal: Signal, k: Kalshi) returns (ok: bool)
    modifies store
    ensures store.log == old(store.log) || exists outcome ::
      && store.log == old(store.log) + [Attempt(Queue(run.id, signal), outcome)]
      && run.status == Completed && run.signal == signal && Actionable(signal) && (ok <==> outcome == Applied)
    ensures ok && Actionable(signal) && k.repository && k.build == Opportunity ==>
      store.log == old(store.log) + [Attempt(Queue(run.id, signal), Applied)]
  {
    hide Stored;
    if signal != Buy && signal != Sell { return true; }
    if !k.repository { return !k.paperAllocator; }
    if run.id == NIL || run.status != Completed || run.signal != signal { return false; }
    if k.build == BuildFails { return false; }
    if k.build == NothingToQueue { return true; }
    ok := store.Try(Queue(run.id, signal));
  }

  /** The row after the run and everything queued for it agree. */
  ghost predicate KeepsLaws(before: Log, after: Log) {
    && (Auditable(before) ==> Auditable(after))
    && (QueuedAfterAudit(before) ==> QueuedAfterAudit(after))
  }

  /** runKalshiNative: a run that succeeds is stored as completed with its signal and its completion event, and nothing
      is
      queued for a run before that. */
  method RunKalshi(store: Store, newID: Uuid, k: Kalshi) returns (ok: bool, signal: Signal)
    modifies store
    ensures |old(store.log)| <= |store.log| && store.log[..|old(store.log)|] == old(store.log)
    ensures About(store.log[|old(store.log)|..], newID)
    ensures KeepsLaws(old(store.log), store.log)
    ensures ok ==>
      Stored(store.log, newID) == Some(Row(Completed, signal)) && Holds(store.log, newID, PipelineCompleted)
      && signal != Unset
    ensures ok && signal != Hold ==> k.acted && k.ordersRead && k.positionsRead
    ensures ok ==> k.decision.Some? && (signal == k.decision.value || (k.decision.value == Unset && signal == Hold))
    ensures ok && Actionable(signal) && k.repository && k.build == Opportunity ==>
      store.log[|store.log| - 1] == Attempt(Queue(newID, signal), Applied)
  {
    hide Stored, Holds, Auditable, QueuedAfterAudit, Starting, NativeEnding;
    signal := Hold;
    ghost var log0 := store.log;
    var run := new NativeRun(newID);
    var started := StartNativeRun(store, run);
    ghost var log1 := store.log;
    Started(log0, log1, newID, Row(Running, Unset), started);
    if !started { return false, signal; }
    if k.decision.None? {
      var _ := CompleteNativeRun(store, run, Failed, Hold);
      Ended(log0, log1, store.log, newID, Failed, Hold, store.log[|log1|..]);
      return false, signal;
    }
    signal := if k.decision.value == Unset then Hold else k.decision.value;
    if signal == Hold {
      ok := CompleteNativeRun(store, run, Completed, signal);
      Ended(log0, log1, store.log, newID, Completed, signal, store.log[|log1|..]);
      return;
    }
    if !k.acted {
      var _ := CompleteNativeRun(store, run, Failed, Hold);
      Ended(log0, log1, store.log, newID, Failed, Hold, store.log[|log1|..]);
      return false, signal;
    }
    ok := CompleteNativeRun(store, run, Completed, signal);
    ghost var log2 := store.log;
    Ended(log0, log1, log2, newID, Completed, signal, log2[|log1|..]);
    if !ok { return; }
    ok := RecordOpportunity(store, run, signal, k);
    if store.log != log2 {
      ghost var a := store.log[|log2|];
      assert store.log == log2 + [a];
      Queued(log0, log2, a, newID, signal);
    }
    if ok && !(k.ordersRead && k.positionsRead) { ok := false; }
  }

  lemma Started(log0: Log, log1: Log, id: Uuid, row: Row, ok: bool)
    requires log0 <= log1 && Starting(log1[|log0|..], id, row, ok) && row.status == Running
      && (ok ==> Stored(log0, id).None?)
    ensures KeepsLaws(log0, log1) && About(log1[|log0|..], id) && (ok ==> Stored(log1, id).Some?)
  {
    hide Stored, Holds, Auditable, QueuedAfterAudit, Starting, About;
    var more := log1[|log0|..];
    assert log1 == log0 + more;
    StartingAbout(more, id, row, ok);
    StartingExact(log0, more, id, row, ok);
    if Auditable(log0) { StartingAuditable(log0, more, id, row, ok); }
    if QueuedAfterAudit(log0) { QueuedExtends(log0, more); }
  }

  lemma Ended(log0: Log, log1: Log, log2: Log, id: Uuid, status: Status, signal: Signal, more: Log)
    requires log0 <= log1 <= log2 && KeepsLaws(log0, log1) && About(log1[|log0|..], id) && Stored(log1, id).Some?
    requires more == log2[|log1|..]
      && (NativeEnding(more, id, status, signal, true) || NativeEnding(more, id, status, signal, false))
    ensures KeepsLaws(log0, log2) && About(log2[|log0|..], id)
    ensures NativeEnding(more, id, status, signal, true) ==>
      Stored(log2, id) == Some(Row(status, signal)) && Holds(log2, id, TerminalKind(status))
  {
    hide Stored, Holds, Auditable, QueuedAfterAudit, NativeEnding;
    assert log2 == log1 + more;
    var ok := NativeEnding(more, id, status, signal, true);
    NativeEndingAbout(more, id, status, signal, ok);
    AboutBoth(log0, log1, log2, id);
    if Auditable(log1) { NativeEndingAuditable(log1, more, id, status, signal, ok); }
    if QueuedAfterAudit(log1) { QueuedExtends(log1, more); }
    NativeEndingExact(log1, more, id, status, signal, ok);
  }

  lemma Queued(log0: Log, log2: Log, a: Attempt, id: Uuid, signal: Signal)
    requires log0 <= log2 && KeepsLaws(log0, log2) && About(log2[|log0|..], id) && a.write == Queue(id, signal)
    requires Stored(log2, id) == Some(Row(Completed, signal)) && Holds(log2, id, PipelineCompleted)
    ensures KeepsLaws(log0, log2 + [a]) && About((log2 + [a])[|log0|..], id)
    ensures Stored(log2 + [a], id) == Stored(log2, id) && Holds(log2 + [a], id, PipelineCompleted)
  {
    hide Stored, Holds, Auditable, QueuedAfterAudit, Excused;
    StoredNext(log2, a, id);
    HoldsNext(log2, a, id, PipelineCompleted);
    if Auditable(log2) { AuditableExtends(log2, [a], id); }
    if QueuedAfterAudit(log2) { QueueNext(log2, a); }
    assert (log2 + [a])[|log0|..] == log2[|log0|..] + [a];
  }
}
