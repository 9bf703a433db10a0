/** One agent pipeline run against a store whose writes may fail (agent/runner.go). */
module AgentRuns {
  import opened Text
  import opened Uuids
  import opened ExecutionGates
  import opened Persistence
  import opened RunLogs

  /** The phases before the gate either fail or leave a new plan and final signal; any phase may be skipped. */
  datatype Prepared = Prepared(
    runID: Uuid, seed: (Plan, FinalSignal), skip: nat -> bool,
    step: (nat, Plan, FinalSignal) -> Option<(Plan, FinalSignal)>, minConfidence: real, note: string)

  datatype Finished = Finished(status: Status, signal: Signal, plan: Plan, final: FinalSignal)

  const GATE: nat := 4
  const PHASES: nat := 5

  /** Progress events only: nothing that ends a run and nothing that touches its row. */
  ghost predicate Progress(more: Log, id: Uuid) {
    forall i :: 0 <= i < |more| ==>
      more[i].write.Audit? && more[i].write.id == id && !more[i].write.kind.PipelineCompleted?
        && !more[i].write.kind.PipelineFailed?
  }

  lemma {:induction false} ProgressKeeps(log: Log, more: Log, id: Uuid)
    requires Progress(more, id)
    ensures Stored(log + more, id) == Stored(log, id)
      && (Holds(log + more, id, PipelineCompleted) <==> Holds(log, id, PipelineCompleted))
    decreases |more|
  {
    hide Stored, Holds;
    if more == [] {
      assert log + more == log;
    } else {
      var n := |more| - 1;
      ProgressKeeps(log, more[..n], id);
      assert log + more == (log + more[..n]) + [more[n]];
      StoredNext(log + more[..n], more[n], id);
      HoldsNext(log + more[..n], more[n], id, PipelineCompleted);
    }
  }

  /** The phases in order, up to the first that fails. */
  method RunPhases(store: Store, state: PipelineState, id: Uuid, prepared: Prepared) returns (ok: bool)
    modifies store, state
    ensures |old(store.log)| <= |store.log| && store.log[..|old(store.log)|] == old(store.log)
    ensures Progress(store.log[|old(store.log)|..], id)
    ensures ok && !prepared.skip(GATE) ==>
      ValidPlan(state.plan, CanonicalSignal(state.plan, state.final), prepared.minConfidence)
  {
    hide Stored, ValidPlan;
    for phase := 0 to PHASES
      invariant |old(store.log)| <= |store.log| && store.log[..|old(store.log)|] == old(store.log)
      invariant Progress(store.log[|old(store.log)|..], id)
      invariant phase > GATE && !prepared.skip(GATE) ==>
        ValidPlan(state.plan, CanonicalSignal(state.plan, state.final), prepared.minConfidence)
    {
      if prepared.skip(phase) { continue; }
      var _ := store.Try(Audit(id, PhaseStarted(phase)));
      if phase == GATE {
        var passed := state.RunGate(prepared.minConfidence, prepared.note);
        if !passed { return false; }
      } else {
        var next := prepared.step(phase, state.plan, state.final);
        if next.None? { return false; }
        state.plan, state.final := next.value.0, next.value.1;
      }
      var _ := store.Try(Audit(id, PhaseCompleted(phase)));
    }
    return true;
  }

  // ---------------------------------------------------------------- ending a run

  /** The only two ways in which a completed row can end up without its event. */
  ghost predicate Stranded(ending: Log, id: Uuid) {
    || (|ending| == 2 && ending[0] == Attempt(Update(id, Completed, None), Unacknowledged))
    || (|ending| == 3 && ending[0] == Attempt(Update(id, Completed, None), Applied)
        && ending[1] == Attempt(Audit(id, PipelineCompleted), Lost)
          && ending[2] == Attempt(Update(id, Failed, None), Lost))
  }

  /** The sequences of writes that end a run. */
  ghost predicate Ending(ending: Log, id: Uuid, phasesOk: bool, ok: bool) {
    if !phasesOk then
      !ok && |ending| == 2 && ending[0].write == Update(id, Failed, None)
        && ending[1].write == Audit(id, PipelineFailed)
    else
      && |ending| >= 2 && ending[0].write == Update(id, Completed, None)
      && if ending[0].outcome != Applied then !ok && |ending| == 2 && ending[1].write == Audit(id, PipelineFailed)
         else
           && ending[1].write == Audit(id, PipelineCompleted)
           && if ending[1].outcome == Applied then ok && |ending| == 2
              else !ok && |ending| == 3 && ending[2].write == Update(id, Failed, None)
  }

  /** Exactly when an ending leaves a completed row without its event, and what an ending that succeeds leaves. */
  lemma EndingExact(log: Log, ending: Log, id: Uuid, phasesOk: bool, ok: bool)
    requires Ending(ending, id, phasesOk, ok) && Stored(log, id).Some?
    ensures ok ==>
      Stored(log + ending, id) == Some(Row(Completed, Stored(log, id).value.signal))
      && Holds(log + ending, id, PipelineCompleted)
    ensures Stored(log + ending, id).Some?
    ensures Stored(log, id).value.status != Completed && !Holds(log, id, PipelineCompleted) ==>
      (Unaudited(log + ending, id) <==> Stranded(ending, id))
  {
    hide Stored, Holds;
    var one := log + [ending[0]];
    var two := one + [ending[1]];
    StoredNext(log, ending[0], id);
    HoldsNext(log, ending[0], id, PipelineCompleted);
    StoredNext(one, ending[1], id);
    HoldsNext(one, ending[1], id, PipelineCompleted);
    if |ending| == 2 {
      assert log + ending == two;
    } else {
      assert log + ending == two + [ending[2]];
      StoredNext(two, ending[2], id);
      HoldsNext(two, ending[2], id, PipelineCompleted);
    }
  }

  /** A run whose completion was stored but reported as failed is left completed, without its event. */
  lemma CompletionMayLackEvent(id: Uuid)
    ensures var log := [Attempt(Create(id, Row(Running, Unset)), Applied)];
      var ending := [Attempt(Update(id, Completed, None), Unacknowledged), Attempt(Audit(id, PipelineFailed), Applied)];
      Ending(ending, id, true, false) && Unaudited(log + ending, id)
  {
    var created := Attempt(Create(id, Row(Running, Unset)), Applied);
    StoredNext([], created, id);
    HoldsNext([], created, id, PipelineCompleted);
    assert [] + [created] == [created];
    EndingExact([created], [Attempt(Update(id, Completed, None), Unacknowledged),
      Attempt(Audit(id, PipelineFailed), Applied)], id, true, false);
  }

  lemma StrandedExcused(log: Log, ending: Log, id: Uuid)
    requires Stranded(ending, id)
    ensures Excused(log + ending, id)
  {
    var k := if |ending| == 2 then 0 else 2;
    assert (log + ending)[|log| + k] == ending[k];
  }

  /** The terminal writes of a run whose phases have ended. */
  method Finish(store: Store, id: Uuid, phasesOk: bool) returns (ok: bool)
    modifies store
    ensures |old(store.log)| <= |store.log| && store.log[..|old(store.log)|] == old(store.log)
    ensures Ending(store.log[|old(store.log)|..], id, phasesOk, ok)
    ensures ok ==> Stored(old(store.log), id).Some?
  {
    hide Stored;
    if !phasesOk {
      var _ := store.Try(Update(id, Failed, None));
      var _ := store.Try(Audit(id, PipelineFailed));
      return false;
    }
    var stored := store.Try(Update(id, Completed, None));
    if !stored {
      var _ := store.Try(Audit(id, PipelineFailed));
      return false;
    }
    var audited := store.Try(Audit(id, PipelineCompleted));
    if !audited {
      var _ := store.Try(Update(id, Failed, None));
      return false;
    }
    return true;
  }

  lemma EndingAbout(ending: Log, id: Uuid, phasesOk: bool, ok: bool)
    requires Ending(ending, id, phasesOk, ok)
    ensures About(ending, id) && forall i :: 0 <= i < |ending| ==> !ending[i].write.Queue?
  {
  }

  lemma {:induction false} HoldsGrows(log: Log, more: Log, id: Uuid, kind: Kind)
    requires Holds(log, id, kind)
    ensures Holds(log + more, id, kind)
  {
    var i :| 0 <= i < |log| && log[i].outcome != Lost && log[i].write == Audit(id, kind);
    assert (log + more)[i] == log[i];
  }

  lemma {:induction false} NoRowNoUpdate(log: Log, ending: Log, id: Uuid)
    requires Stored(log, id).None? && forall i :: 0 <= i < |ending| ==> !ending[i].write.Create?
    ensures Stored(log + ending, id).None?
    decreases |ending|
  {
    hide Stored;
    if ending == [] {
      assert log + ending == log;
    } else {
      var n := |ending| - 1;
      NoRowNoUpdate(log, ending[..n], id);
      assert log + ending == log + ending[..n] + [ending[n]];
      StoredNext(log + ending[..n], ending[n], id);
    }
  }

  /** Whatever the store looked like, an ending leaves the run auditable or excused. */
  lemma EndingAuditable(log: Log, ending: Log, id: Uuid, phasesOk: bool, ok: bool)
    requires Ending(ending, id, phasesOk, ok) && Auditable(log)
    ensures Auditable(log + ending)
  {
    hide Stored, Holds, Excused;
    EndingAbout(ending, id, phasesOk, ok);
    if Unaudited(log + ending, id) {
      if Holds(log, id, PipelineCompleted) {
        HoldsGrows(log, ending, id, PipelineCompleted);
      } else if Unaudited(log, id) {
        ExcusedGrows(log, ending, id);
      } else if Stored(log, id).None? {
        NoRowNoUpdate(log, ending, id);
      } else {
        EndingExact(log, ending, id, phasesOk, ok);
        StrandedExcused(log, ending, id);
      }
    }
    AuditableExtends(log, ending, id);
  }

  lemma ProgressAuditable(log: Log, more: Log, id: Uuid)
    requires Progress(more, id) && Auditable(log)
    ensures Auditable(log + more)
  {
    hide Stored, Holds, Excused;
    ProgressKeeps(log, more, id);
    if Unaudited(log + more, id) { ExcusedGrows(log, more, id); }
    AuditableExtends(log, more, id);
  }

  lemma CreateAuditable(log: Log, a: Attempt)
    requires Auditable(log) && a.write.Create? && a.write.row.status == Running
    ensures Auditable(log + [a])
  {
    hide Stored, Holds, Excused;
    StoredNext(log, a, a.write.id);
    HoldsNext(log, a, a.write.id, PipelineCompleted);
    if Unaudited(log + [a], a.write.id) { ExcusedGrows(log, [a], a.write.id); }
    AuditableExtends(log, [a], a.write.id);
  }

  // ---------------------------------------------------------------- Runner.Run

  function RunID(prepared: Prepared, newID: Uuid): Uuid { if prepared.runID != NIL then prepared.runID else newID }

  lemma Split(log: Log, n: nat)
    requires n <= |log|
    ensures log == log[..n] + log[n..]
  {
  }

  /** The part of a run that follows its row: the phases and the terminal writes. */
  method RunStarted(store: Store, prepared: Prepared, id: Uuid) returns (result: Finished, ok: bool, ghost start: nat)
    modifies store
    ensures |old(store.log)| <= start <= |store.log| && store.log[..|old(store.log)|] == old(store.log)
    ensures About(store.log[|old(store.log)|..], id)
    ensures Stored(store.log[..start], id) == old(Stored(store.log, id))
    ensures Holds(store.log[..start], id, PipelineCompleted) <==> old(Holds(store.log, id, PipelineCompleted))
    ensures ok ==> old(Stored(store.log, id)).Some?
    ensures exists phasesOk :: Ending(store.log[start..], id, phasesOk, ok)
    ensures old(Auditable(store.log)) ==> Auditable(store.log)
    ensures result.status == (if ok then Completed else Failed)
      && result.signal == CanonicalSignal(result.plan, result.final)
    ensures ok && !prepared.skip(GATE) ==> ValidPlan(result.plan, result.signal, prepared.minConfidence)
  {
    hide Stored, Holds, Auditable, ValidPlan, Progress, Ending, About;
    ghost var log1 := store.log;
    var state := new PipelineState(prepared.seed.0, prepared.seed.1);
    var _ := store.Try(Audit(id, PipelineStarted));
    ghost var log2 := store.log;
    var phasesOk := RunPhases(store, state, id, prepared);
    ghost var log3 := store.log;
    StartedProgress(log1, log2, log3, id);
    ProgressKeeps(log1, log3[|log1|..], id);
    if old(Auditable(store.log)) { ProgressAuditable(log1, log3[|log1|..], id); }
    start := |log3|;
    ok := Finish(store, id, phasesOk);
    ghost var ending := store.log[start..];
    Split(store.log, start);
    EndingAbout(ending, id, phasesOk, ok);
    EndingOk(ending, id, phasesOk, ok);
    AboutAll(log1, log3, store.log, id);
    if old(Auditable(store.log)) { EndingAuditable(log3, ending, id, phasesOk, ok); }
    result := Finished(if ok then Completed else Failed, CanonicalSignal(state.plan, state.final), state.plan,
      state.final);
  }

  /** A run returns no error only if its completed row and its completion event are both stored; a completed row without
      its event is left behind exactly when the runner was not told of the completion or could not store the repair. */
  method Run(store: Store, prepared: Prepared, newID: Uuid)
    returns (result: Option<Finished>, ok: bool, ghost start: nat)
    modifies store
    ensures |old(store.log)| <= start <= |store.log| && store.log[..|old(store.log)|] == old(store.log)
    ensures var id := RunID(prepared, newID);
      && (ok ==>
        Stored(store.log, id).Some? && Stored(store.log, id).value.status == Completed
        && Holds(store.log, id, PipelineCompleted))
      && (ok ==> result.Some? && result.value.status == Completed)
      && (!ok && result.Some? ==> result.value.status == Failed)
      && (result.None? ==>
        prepared.runID == NIL && exists outcome ::
          outcome != Applied && store.log == old(store.log) + [Attempt(Create(id, Row(Running, Unset)), outcome)])
      && About(store.log[|old(store.log)|..], id)
    // exactly when a completed row is left without its event
    ensures var id := RunID(prepared, newID);
      result.Some? && !Holds(store.log[..start], id, PipelineCompleted) && Stored(store.log[..start], id).Some?
        && Stored(store.log[..start], id).value.status != Completed ==>
        (Unaudited(store.log, id) <==> Stranded(store.log[start..], id))
    ensures result.Some? && prepared.runID == NIL && !Holds(old(store.log), newID, PipelineCompleted) ==>
      Stored(store.log[..start], newID) == Some(Row(Running, Unset))
        && !Holds(store.log[..start], newID, PipelineCompleted)
    // across all runs
    ensures old(Auditable(store.log)) ==> Auditable(store.log)
    ensures ok && !prepared.skip(GATE) ==> ValidPlan(result.value.plan, result.value.signal, prepared.minConfidence)
  {
    hide Stored, Holds, Auditable, ValidPlan, Stranded, Ending, Unaudited, About;
    var id := RunID(prepared, newID);
    ghost var log0 := store.log;
    if prepared.runID == NIL {
      var created := store.Try(Create(id, Row(Running, Unset)));
      if old(Auditable(store.log)) { CreateAuditable(log0, store.log[|log0|]); }
      StoredNext(log0, store.log[|log0|], id);
      HoldsNext(log0, store.log[|log0|], id, PipelineCompleted);
      AboutOne(log0, store.log, id);
      if !created { return None, false, |store.log|; }
    }
    ghost var log1 := store.log;
    AboutOne(log0, log1, id);
    var finished;
    finished, ok, start := RunStarted(store, prepared, id);
    AboutBoth(log0, log1, store.log, id);
    Split(store.log, start);
    ghost var phasesOk :| Ending(store.log[start..], id, phasesOk, ok);
    if Stored(store.log[..start], id).Some? { EndingExact(store.log[..start], store.log[start..], id, phasesOk, ok); }
    result := Some(finished);
  }

  lemma AboutOne(before: Log, after: Log, id: Uuid)
    requires after == before || (|after| == |before| + 1 && before <= after && after[|before|].write.id == id)
    ensures before <= after && About(after[|before|..], id)
  {
  }

  lemma EndingOk(ending: Log, id: Uuid, phasesOk: bool, ok: bool)
    requires Ending(ending, id, phasesOk, ok)
    ensures ok ==> phasesOk
  {
  }

  lemma StartedProgress(log1: Log, log2: Log, log3: Log, id: Uuid)
    requires log1 <= log2 <= log3 && |log2| == |log1| + 1 && log2[|log1|].write == Audit(id, PipelineStarted)
      && Progress(log3[|log2|..], id)
    ensures Progress(log3[|log1|..], id) && log3 == log1 + log3[|log1|..]
  {
    var more := log3[|log1|..];
    assert more[0] == log2[|log1|];
    assert forall i :: 1 <= i < |more| ==> more[i] == log3[|log2|..][i - 1];
  }

  lemma AboutBoth(log0: Log, log1: Log, log2: Log, id: Uuid)
    requires log0 <= log1 <= log2 && About(log1[|log0|..], id) && About(log2[|log1|..], id)
    ensures log0 <= log2 && About(log2[|log0|..], id)
  {
    assert log2[|log0|..] == log1[|log0|..] + log2[|log1|..];
  }

  lemma AboutAll(log1: Log, log3: Log, log: Log, id: Uuid)
    requires log1 <= log3 <= log && Progress(log3[|log1|..], id) && About(log[|log3|..], id)
    ensures About(log[|log1|..], id)
  {
    assert About(log3[|log1|..], id);
    AboutBoth(log1, log3, log, id);
  }
}
