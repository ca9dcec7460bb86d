/** internal/controller/kustomization_controller.go: one reconcile run after another
    against an API server and a cluster that may fail, crash the run or be edited by
    users at any step. */
module Controller {
  import opened Text
  import opened Inventory
  import opened SourceRefs
  import Dependencies
  import opened Journal

  // ------------------------------------------------------------ the in-memory object

  /** The object a run works on: its metadata and spec as read, its status updated in place. */
  class Kustomization {
    const key: Key
    const generation: int
    const spec: Spec
    const deleting: bool
    const hadFinalizer: bool
    var finalizer: bool
    var report: Report
    var inventory: ResourceInventory?

    constructor (o: Stored)
      ensures key == o.key && generation == o.generation && spec == o.spec && deleting == o.deleting
      ensures hadFinalizer == finalizer == o.finalizer
      ensures Snapshot() == o.status
      ensures inventory == null || fresh(inventory)
    {
      key, generation, spec, deleting := o.key, o.generation, o.spec, o.deleting;
      hadFinalizer, finalizer := o.finalizer, o.finalizer;
      report := o.status.report;
      inventory := null;
      new;
      if o.status.inventory.Some? {
        var inv := new ResourceInventory();
        inv.entries := o.status.inventory.value;
        inventory := inv;
      }
    }

    /** The status a patch would write now. */
    function Snapshot(): Status
      reads this, inventory
    {
      Status(report, if inventory == null then None else Some(inventory.entries))
    }

    method MarkReady(status: Truth, reason: Reason)
      modifies this`report
      ensures report == old(report).(ready := Condition(status, reason))
    {
      report := report.(ready := Condition(status, reason));
    }

    method FinalizeStatus()
      modifies this`report
      ensures ReadyMeansApplied(old(report)) ==> Consistent(report, generation)
      ensures report.ready == old(report).ready && report.stalled == old(report).stalled
      ensures report.healthy == old(report).healthy
      ensures report.lastApplied == old(report).lastApplied && report.lastAttempted == old(report).lastAttempted
      ensures report.lastAppliedOrigin == old(report).lastAppliedOrigin
      ensures IsTrue(report.ready) ==> report == old(report).(reconciling := Absent, observedGeneration := generation)
      ensures !IsTrue(report.ready) ==> report.observedGeneration == old(report).observedGeneration
      ensures !IsTrue(report.ready) ==> (report.reconciling.Absent? <==> old(report).reconciling.Absent?)
      ensures Retrying(report)
    {
      if IsTrue(report.ready) {
        report := report.(reconciling := Absent, observedGeneration := generation);
      }
      if report.ready.Condition? && report.ready.status == False && report.reconciling.Condition? {
        report := report.(reconciling := report.reconciling.(reason := ProgressingWithRetry));
      }
    }
  }

  /** A failed run that is still in progress says that it will be retried. */
  predicate Retrying(r: Report) {
    r.ready.Condition? && r.ready.status == False && r.reconciling.Condition? ==>
      r.reconciling.reason == ProgressingWithRetry
  }

  // ------------------------------------------------------------ the environment

  datatype Outcome =
    | Reconciled                 // applied, pruned and healthy
    | Crashed                   // the process died; nothing in memory survives
    | StatusNotUpdated          // a progress patch failed
    | ArtifactNotReady          // the artifact is missing or its digest changed
    | Canceled                  // a newer event interrupted the health checks
    | Failed(reason: Reason)    // Ready is False with this reason
    | NotRead                   // the object could not be read, or is gone
    | FinalizerAdded
    | Suspended
    | Finalized                 // the finalizer is off the object
    | FinalizeFailed            // the run will be retried

  /** An answer of the environment that a run does not get past. */
  datatype Trouble =
    | ReadFailed
    | InvalidExpressions
    | SourceMissing
    | SourceDenied
    | ArtifactMissing
    | DependenciesClosed
    | DependenciesTerminal
    | PatchLost(checking: bool)       // a status patch failed, during the health checks or not
    | NoTmpDir
    | NotFetched(retry: bool)         // a download failed, to be retried when the artifact is missing or changed
    | NoBuildPath
    | NoClient
    | NotBuilt
    | ApplyRejected
    | DeleteRejected
    | InvalidChecks
    | Unhealthy(superseded: bool)     // a newer event interrupted the wait, or not
    | Crash

  /** How a run ends that meets this trouble. */
  ghost function Ending(t: Trouble, deleting: bool): Outcome {
    match t
    case ReadFailed => NotRead
    case InvalidExpressions => Failed(InvalidCELExpression)
    case SourceMissing => Failed(ArtifactFailed)
    case SourceDenied => Failed(AccessDenied)
    case ArtifactMissing => Failed(ArtifactFailed)
    case DependenciesClosed => Failed(DependencyNotReady)
    case DependenciesTerminal => Failed(InvalidCELExpression)
    case PatchLost(checking) => if checking then Failed(HealthCheckFailed) else StatusNotUpdated
    case NoTmpDir => Failed(DirCreationFailed)
    case NotFetched(retry) => if retry then ArtifactNotReady else Failed(ArtifactFailed)
    case NoBuildPath => Failed(ArtifactFailed)
    case NoClient => if deleting then FinalizeFailed else Failed(ReconciliationFailed)
    case NotBuilt => Failed(BuildFailed)
    case ApplyRejected => Failed(ReconciliationFailed)
    case DeleteRejected => if deleting then FinalizeFailed else Failed(PruneFailed)
    case InvalidChecks => Failed(HealthCheckFailed)
    case Unhealthy(superseded) => if superseded then Canceled else Failed(HealthCheckFailed)
    case Crash => Crashed
  }

  /** A run goes well, or ends with the first trouble it meets. */
  ghost predicate Ends(troubles: seq<Trouble>, deleting: bool, good: Outcome, outcome: Outcome) {
    |troubles| <= 1 && outcome == if troubles == [] then good else Ending(troubles[0], deleting)
  }

  datatype PatchResult = PatchOk | PatchFailed | PatchCrashed

  datatype ApplyResult = ApplyOk(entries: seq<ChangeSetEntry>) | ApplyFailed | ApplyCrashed

  datatype DeleteResult = DeleteDone(changeSet: Option<seq<ChangeSetEntry>>, failed: bool) | DeleteCrashed

  function EntryMetas(entries: seq<ChangeSetEntry>): set<ObjMetadata> {
    set e | e in entries :: e.meta
  }

  /** Something was applied that is not skipped, so there is something to check. */
  predicate Checkable(entries: seq<ChangeSetEntry>) {
    exists e :: e in entries && e.action != Skipped
  }

  /** The API server, holding one Kustomization, and the cluster it manages. */
  class ApiServer {
    var stored: Stored
    var present: bool
    ghost var log: seq<Event>
    ghost var troubles: seq<Trouble>   // of the current run

    ghost predicate Valid()
      reads this
    {
      && Good(log)
      && stored.status == Replay(log).status
      && (present && stored.deleting ==> stored.finalizer)
    }

    constructor (key: Key, spec: Spec)
      ensures Valid() && log == [] && present && !stored.deleting
    {
      stored := Stored(key, 1, spec, false, false, NewStatus);
      present := true;
      log := [];
      troubles := [];
    }

    /** A call into code outside the model, which may fail. */
    method Fails(ghost trouble: Trouble) returns (failed: bool)
      modifies this`troubles
      ensures troubles == if failed then old(troubles) + [trouble] else old(troubles)
    {
      failed := *;
      if failed {
        troubles := troubles + [trouble];
      }
    }

    /** The process may crash at any time. */
    method Crashes() returns (crashed: bool)
      modifies this`troubles
      ensures troubles == if crashed then old(troubles) + [Crash] else old(troubles)
    {
      crashed := Fails(Crash);
    }

    /** The kustomize build.  Object metadata is assumed to be free of underscores. */
    method BuildObjects() returns (ok: bool, objects: seq<Object>)
      modifies this`troubles
      ensures ok ==> AllPrintable(objects)
      ensures troubles == if ok then old(troubles) else old(troubles) + [NotBuilt]
    {
      objects := *;
      var failed: bool := *;
      ok := !failed && AllPrintable(objects);
      if !ok {
        troubles := troubles + [NotBuilt];
      }
    }

    /** Users may edit the spec, request deletion or strip the finalizer whenever they like;
        only the controller writes status. */
    method UsersAct()
      requires Valid()
      modifies this`stored, this`present
      ensures Valid() && stored.status == old(stored.status)
      ensures old(stored.deleting) ==> stored.deleting
      ensures !old(present) ==> !present
    {
      var spec: Spec := *;
      var delete: bool := *;
      var strip: bool := *;
      if spec != stored.spec {
        stored := stored.(spec := spec, generation := stored.generation + 1);
      }
      if strip {
        stored := stored.(finalizer := false);
      }
      if delete {
        stored := stored.(deleting := true);
      }
      present := present && !(stored.deleting && !stored.finalizer);
    }

    /** A fresh read, which starts a run. */
    method Get() returns (o: Kustomization?)
      requires Valid()
      modifies this
      ensures Valid() && stored.status == old(stored.status)
      ensures o == null ==> log == old(log) && (troubles == [ReadFailed] || (troubles == [] && !present))
      ensures o != null ==> troubles == []
      ensures o != null ==> fresh(o) && (o.inventory != null ==> fresh(o.inventory)) && InRun(this, o)
      ensures o != null ==> log == old(log) + [Read(stored)] && o.finalizer == o.hadFinalizer
      ensures o != null ==> o.Snapshot() == stored.status && o.hadFinalizer == stored.finalizer
      ensures o != null ==> o.spec == stored.spec && o.generation == stored.generation && o.deleting == stored.deleting
      ensures o != null && o.deleting ==> o.hadFinalizer
    {
      UsersAct();
      troubles := [];
      if !present {
        return null;
      }
      var failed := Fails(ReadFailed);
      if failed {
        return null;
      }
      Extend(log, Read(stored));
      OwedIsTracked(log);
      log := log + [Read(stored)];
      o := new Kustomization(stored);
      RunStarts(this, o);
    }

    /** SerialPatcher.Patch: the finalizer is written first and the status afterwards; either
        write may fail, and the process may crash before, between and after them. */
    method Patch(o: Kustomization, ghost checking: bool) returns (r: PatchResult)
      requires InRun(this, o) && Consistent(o.report, o.generation)
      requires o.hadFinalizer && !o.finalizer ==> ReleaseAllowed(Replay(log))
      requires o.finalizer && !o.hadFinalizer ==> !o.deleting
      modifies this
      ensures InRun(this, o)
      ensures troubles == PatchTroubles(old(troubles), r, checking)
      ensures old(log) <= log
      ensures o.finalizer == o.hadFinalizer ==> log == old(log) || log == old(log) + [Persisted(o.Snapshot())]
      ensures r == PatchOk && o.finalizer == o.hadFinalizer ==> log == old(log) + [Persisted(o.Snapshot())]
      ensures r == PatchOk && o.finalizer && !o.hadFinalizer ==>
                log == old(log) + [FinalizerSet] + [Persisted(o.Snapshot())]
      ensures r == PatchOk && o.hadFinalizer && !o.finalizer ==> log == old(log) + [Released] && !present
      ensures r == PatchFailed && o.finalizer == o.hadFinalizer ==> log == old(log)
      ensures Replay(log) == Replay(old(log)).(status := Replay(log).status, owed := Replay(log).owed)
      ensures r == PatchOk && !(o.hadFinalizer && !o.finalizer) ==> Replay(log).status == o.Snapshot()
    {
      hide Good, Replay, RunState, Consistent, ReleaseAllowed, Tracked;
      UsersAct();
      var before := Crashes();
      if before {
        return PatchCrashed;
      }
      var failed: bool := *;
      if failed || !present || (o.finalizer && !o.hadFinalizer && stored.deleting) {
        troubles := troubles + [PatchLost(checking)];
        return PatchFailed;
      }
      if o.hadFinalizer && !o.finalizer {
        RemoveFinalizer(o);
      } else {
        if o.finalizer && !o.hadFinalizer {
          r := AddFinalizer(o, checking);
          if r != PatchOk {
            return;
          }
        }
        WriteStatus(o);
      }
      var after := Crashes();
      return if after then PatchCrashed else PatchOk;
    }

    /** The first of the two writes of a patch that adds the finalizer, and what may happen before
        the second. */
    method AddFinalizer(ghost o: Kustomization, ghost checking: bool) returns (r: PatchResult)
      requires InRun(this, o) && !o.hadFinalizer && !o.deleting && present && !stored.deleting
      modifies this
      ensures InRun(this, o) && log == old(log) + [FinalizerSet] && Replay(log) == Replay(old(log))
      ensures troubles == PatchTroubles(old(troubles), r, checking)
    {
      hide Good, Replay, RunState;
      SetFinalizer(o);
      var crashed := Crashes();
      if crashed {
        return PatchCrashed;
      }
      UsersAct();
      var failed: bool := *;
      if failed || !present {
        troubles := troubles + [PatchLost(checking)];
        return PatchFailed;
      }
      return PatchOk;
    }

    method RemoveFinalizer(ghost o: Kustomization)
      requires InRun(this, o) && ReleaseAllowed(Replay(log))
      modifies this
      ensures InRun(this, o) && log == old(log) + [Released] && !present && Replay(log) == Replay(old(log))
      ensures troubles == old(troubles)
    {
      hide Good, Replay, RunState, ReleaseAllowed;
      ReleaseExtends(log);
      log := log + [Released];
      stored := stored.(finalizer := false);
      present := false;
    }

    method SetFinalizer(ghost o: Kustomization)
      requires InRun(this, o) && !o.hadFinalizer && !o.deleting && present && !stored.deleting
      modifies this`stored, this`log
      ensures InRun(this, o) && log == old(log) + [FinalizerSet] && stored == old(stored).(finalizer := true)
      ensures Replay(log) == Replay(old(log))
    {
      hide Good, Replay;
      Extend(log, FinalizerSet);
      log := log + [FinalizerSet];
      stored := stored.(finalizer := true);
    }

    method WriteStatus(o: Kustomization)
      requires InRun(this, o) && Consistent(o.report, o.generation)
      modifies this`stored, this`log
      ensures InRun(this, o) && log == old(log) + [Persisted(o.Snapshot())]
      ensures Replay(log) == Replay(old(log)).(status := o.Snapshot(), owed := Replay(log).owed)
    {
      hide Good, Replay, RunState, Consistent, Tracked;
      var st := o.Snapshot();
      PersistInRun(log, o.key, o.generation, o.spec, o.deleting, o.hadFinalizer, st);
      log := log + [Persisted(st)];
      stored := stored.(status := st);
    }

    /** Server-side apply: an entry for each object, or an error. */
    method ApplyAllStaged(ghost o: Kustomization, objects: seq<Object>, revision: string) returns (r: ApplyResult)
      requires InRun(this, o) && AllPrintable(objects)
      requires Replay(log).status == o.Snapshot()
      requires o.hadFinalizer && !o.deleting && !o.spec.suspend
      requires o.spec.dependsOn != [] ==> Replay(log).gate == Some(revision)
      requires Replay(log).sourced == Some(revision)
      modifies this
      ensures Valid() && (r.ApplyFailed? ==> InRun(this, o))
      ensures r.ApplyOk? ==>
                var e := Applied(revision, true, Checkable(r.entries), ObjectIds(objects));
                && log == old(log) + [e] && Replay(log) == After(Replay(old(log)), e)
                && RunState(Replay(log).(made := {}), o.key, o.generation, o.spec, o.deleting, o.hadFinalizer, o.Snapshot())
      ensures r.ApplyOk? ==> Metas(objects) == EntryMetas(r.entries)
      ensures troubles == match r
                          case ApplyOk(_) => old(troubles)
                          case ApplyFailed => old(troubles) + [ApplyRejected]
                          case ApplyCrashed => old(troubles) + [Crash]
      ensures old(log) <= log
    {
      hide Good, Replay, RunState, Checkable, Metas, EntryMetas, AllPrintable, ObjectIds;
      UsersAct();
      var before := Crashes();
      if before {
        return ApplyCrashed;
      }
      var entries: seq<ChangeSetEntry> := *;
      var failed: bool := *;
      var ok := !failed && Metas(objects) == EntryMetas(entries);
      ApplyInRun(log, o.key, o.generation, o.spec, o.deleting, o.hadFinalizer, o.Snapshot(), revision, ok,
                 Checkable(entries), ObjectIds(objects));
      log := log + [Applied(revision, ok, Checkable(entries), ObjectIds(objects))];
      var after := Crashes();
      if after {
        return ApplyCrashed;
      }
      if !ok {
        troubles := troubles + [ApplyRejected];
        return ApplyFailed;
      }
      return ApplyOk(entries);
    }

    /** Reads one dependency: anything may be there, and CEL may say anything of it. */
    method ReadDependency(ghost o: Kustomization) returns (a: Dependencies.Answer)
      requires InRun(this, o)
      modifies this`stored, this`present
      ensures InRun(this, o)
    {
      UsersAct();
      a := *;
    }

    /** checkDependencies on what is read of each dependency at its moment.  Only when each of them
        meets its criteria for the revision does the gate open. */
    method DependenciesReady(o: Kustomization, revision: string, additive: bool)
      returns (gate: Dependencies.Gate, ghost answers: seq<Dependencies.Answer>)
      requires InRun(this, o)
      modifies this
      ensures InRun(this, o) && Replay(log) == Replay(old(log)).(gate := Replay(log).gate)
      ensures gate.Open? ==> Replay(log).gate == Some(revision)
      ensures |answers| == |o.spec.dependsOn|
      ensures gate.Open? <==> DependenciesMet(o.key, o.spec, revision, additive, answers)
      ensures log == if gate.Open? then old(log) + [GateOpen(revision, additive, answers)] else old(log)
      ensures troubles == match gate
                          case Open => old(troubles)
                          case Closed(_) => old(troubles) + [DependenciesClosed]
                          case Terminal(_) => old(troubles) + [DependenciesTerminal]
      ensures gate.Terminal? ==> gate.first < |answers| && answers[gate.first].Found?
                                 && answers[gate.first].eval == Dependencies.EvalFailed(true)
    {
      hide Good, Replay, RunState, Dependencies.Meets;
      var found := [];
      for i := 0 to |o.spec.dependsOn|
        invariant |found| == i && InRun(this, o) && log == old(log) && troubles == old(troubles)
      {
        var a := ReadDependency(o);
        found := found + [a];
      }
      answers := found;
      gate := Dependencies.CheckDependencies(
        o.key, Dependencies.Spec(o.generation, o.spec.source, o.spec.dependsOn), revision, additive, found);
      if gate.Open? {
        GateInRun(log, o.key, o.generation, o.spec, o.deleting, o.hadFinalizer, o.Snapshot(), revision, additive, answers);
        log := log + [GateOpen(revision, additive, answers)];
      } else {
        troubles := troubles + [if gate.Terminal? then DependenciesTerminal else DependenciesClosed];
      }
    }

    /** WaitForSetWithContext: the objects become healthy, or they do not. */
    method WaitForSet(ghost o: Kustomization) returns (healthy: bool, superseded: bool)
      requires InRun(this, o) && Replay(log).applied.Some? && !IsTrue(o.report.ready)
      modifies this
      ensures InRun(this, o) && log == old(log) + [Probed(healthy)]
      ensures Replay(log) == Replay(old(log)).(probed := healthy)
      ensures troubles == if healthy then old(troubles) else old(troubles) + [Unhealthy(superseded)]
    {
      UsersAct();
      healthy := *;
      superseded := *;
      if !healthy {
        troubles := troubles + [Unhealthy(superseded)];
      }
      Extend(log, Probed(healthy));
      log := log + [Probed(healthy)];
    }

    /** CanImpersonate: false when the account is gone. */
    method CanImpersonate(ghost o: Kustomization) returns (ok: bool)
      requires InRun(this, o) && o.deleting
      modifies this
      ensures InRun(this, o)
      ensures ok ==> log == old(log)
      ensures !ok ==> log == old(log) + [AccountGone] && Replay(log) == Replay(old(log)).(accountGone := true)
      ensures troubles == old(troubles)
    {
      UsersAct();
      ok := *;
      if !ok {
        Extend(log, AccountGone);
        log := log + [AccountGone];
      }
    }

    /** spec.prune is false: the stale objects stay in the cluster, untracked. */
    ghost method Abandon(objects: seq<Object>)
      requires Valid() && Replay(log).read.Some? && !Replay(log).read.value.spec.prune
      modifies this`log
      ensures Valid() && log == old(log) + [Abandoned(ObjectIds(objects))]
      ensures Replay(log) == Replay(old(log)).(owed := Replay(old(log)).owed - ObjectIds(objects))
    {
      Extend(log, Abandoned(ObjectIds(objects)));
      log := log + [Abandoned(ObjectIds(objects))];
    }

    /** DeleteAll: any subset may be rejected or missing; no error only if everything has a Deleted
        or Skipped entry. */
    method DeleteAll(objects: seq<Object>) returns (r: DeleteResult)
      requires Valid() && Warranted(Replay(log)) && ObjectIds(objects) <= Tracked(Replay(log).status)
      modifies this
      ensures Valid() && old(log) <= log
      ensures r.DeleteDone? ==> log == old(log) + [Deletion(ObjectIds(objects), r.changeSet, r.failed)]
      ensures r.DeleteDone? ==> Replay(log) == Replay(old(log)).(owed := Replay(old(log)).owed - SettledIds(r.changeSet))
      ensures r.DeleteDone? && !r.failed ==> ObjectIds(objects) <= SettledIds(r.changeSet)
      ensures troubles == match r
                          case DeleteCrashed => old(troubles) + [Crash]
                          case DeleteDone(_, failed) => if failed then old(troubles) + [DeleteRejected] else old(troubles)
    {
      hide Good, Replay, Tracked, ObjectIds, SettledIds;
      UsersAct();
      var before := Crashes();
      if before {
        return DeleteCrashed;
      }
      var changeSet: Option<seq<ChangeSetEntry>> := *;
      var failed: bool := *;
      if !(ObjectIds(objects) <= SettledIds(changeSet)) {
        failed := true;
      }
      Extend(log, Deletion(ObjectIds(objects), changeSet, failed));
      log := log + [Deletion(ObjectIds(objects), changeSet, failed)];
      var after := Crashes();
      if after {
        return DeleteCrashed;
      }
      if failed {
        troubles := troubles + [DeleteRejected];
      }
      return DeleteDone(changeSet, failed);
    }

    /** The artifact of the source. */
    method Artifact(ghost o: Kustomization) returns (revision: string, originRevision: string)
      requires InRun(this, o)
      modifies this`log
      ensures InRun(this, o) && log == old(log) + [Sourced(revision, originRevision)]
      ensures Replay(log) == Replay(old(log)).(sourced := Some(revision))
    {
      revision, originRevision := *, *;
      Extend(log, Sourced(revision, originRevision));
      log := log + [Sourced(revision, originRevision)];
    }
  }

  /** The run may delete objects. */
  ghost predicate Warranted(v: View) {
    && v.read.Some?
    && if v.read.value.deleting then PolicyDeletes(v.read.value.spec) else v.read.value.spec.prune && v.applied.Some?
  }

  // ------------------------------------------------------------ the run invariant

  /** What holds between any two steps of a run: writing the object's status at this
      very moment would not lose track of anything. */
  ghost predicate InRun(s: ApiServer, o: Kustomization)
    reads s, o, o.inventory
  {
    s.Valid() && RunState(Replay(s.log), o.key, o.generation, o.spec, o.deleting, o.hadFinalizer, o.Snapshot())
  }

  /** The same on values: what was read, and the status in memory. */
  ghost predicate RunState(v: View, key: Key, generation: int, spec: Spec, deleting: bool, finalizer: bool, st: Status) {
    && v.read.Some? && v.read.value.key == key
    && v.read.value.generation == generation && v.read.value.spec == spec
    && v.read.value.deleting == deleting && v.read.value.finalizer == finalizer
    && Writable(v, st)
    && ReadyMeansApplied(st.report)
  }

  /** The status in memory may be persisted, and then still be persisted again. */
  lemma PersistInRun(log: seq<Event>, key: Key, generation: int, spec: Spec, deleting: bool, finalizer: bool, st: Status)
    requires Good(log) && RunState(Replay(log), key, generation, spec, deleting, finalizer, st)
    requires Consistent(st.report, generation)
    ensures Good(log + [Persisted(st)])
    ensures Replay(log + [Persisted(st)]) == Replay(log).(status := st, owed := Replay(log).owed + Tracked(st))
    ensures RunState(Replay(log + [Persisted(st)]), key, generation, spec, deleting, finalizer, st)
  {
    hide Good, Replay, Writable, Consistent, Tracked;
    Extend(log, Persisted(st));
    WritableOnceWritten(Replay(log), st);
  }

  lemma ApplyInRun(log: seq<Event>, key: Key, generation: int, spec: Spec, deleting: bool, finalizer: bool, st: Status,
                   revision: string, ok: bool, checkable: bool, ids: set<string>)
    requires Good(log) && RunState(Replay(log), key, generation, spec, deleting, finalizer, st)
    requires Replay(log).status == st && finalizer && !deleting && !spec.suspend
    requires spec.dependsOn != [] ==> Replay(log).gate == Some(revision)
    requires Replay(log).sourced == Some(revision)
    ensures var log' := log + [Applied(revision, ok, checkable, ids)];
            && Good(log') && Replay(log') == After(Replay(log), Applied(revision, ok, checkable, ids))
            && RunState(Replay(log').(made := {}), key, generation, spec, deleting, finalizer, st)
            && (!ok ==> RunState(Replay(log'), key, generation, spec, deleting, finalizer, st))
  {
    hide Good, Replay, Tracked, WellFormed, Earned;
    Extend(log, Applied(revision, ok, checkable, ids));
  }

  lemma GateInRun(log: seq<Event>, key: Key, generation: int, spec: Spec, deleting: bool, finalizer: bool, st: Status,
                  revision: string, additive: bool, answers: seq<Dependencies.Answer>)
    requires Good(log) && RunState(Replay(log), key, generation, spec, deleting, finalizer, st)
    requires DependenciesMet(key, spec, revision, additive, answers)
    ensures var log' := log + [GateOpen(revision, additive, answers)];
            && Good(log') && Replay(log') == Replay(log).(gate := Some(revision))
            && RunState(Replay(log'), key, generation, spec, deleting, finalizer, st)
  {
    hide Good, Replay, DependenciesMet;
    Extend(log, GateOpen(revision, additive, answers));
  }

  lemma ReleaseExtends(log: seq<Event>)
    requires Good(log) && ReleaseAllowed(Replay(log))
    ensures Good(log + [Released]) && Replay(log + [Released]) == Replay(log)
  {
    Extend(log, Released);
  }

  /** Conditions short of Ready may change at any time. */
  lemma NotReadyInRun(v: View, key: Key, generation: int, spec: Spec, deleting: bool, finalizer: bool, st: Status, report: Report)
    requires RunState(v, key, generation, spec, deleting, finalizer, st)
    requires !IsTrue(report.ready) && report.lastApplied == st.report.lastApplied
    ensures RunState(v, key, generation, spec, deleting, finalizer, st.(report := report))
  {
    WritableWhenNotReady(v, st, report);
  }

  lemma RunStarts(s: ApiServer, o: Kustomization)
    requires s.Valid() && s.log != [] && s.log[|s.log| - 1] == Read(s.stored)
    requires o.key == s.stored.key && o.generation == s.stored.generation && o.spec == s.stored.spec
    requires o.deleting == s.stored.deleting && o.hadFinalizer == s.stored.finalizer
    requires o.Snapshot() == s.stored.status
    ensures InRun(s, o)
  {
    OwedIsTracked(s.log);
  }

  // ------------------------------------------------------------ apply and prune

  lemma OwedInRun(v: View, key: Key, generation: int, spec: Spec, deleting: bool, finalizer: bool, st: Status)
    requires RunState(v, key, generation, spec, deleting, finalizer, st)
    ensures v.read.Some? && v.read.value.spec == spec && v.read.value.deleting == deleting
    ensures v.owed <= Ids(Entries(st)) && WellFormed(Entries(st))
  {
  }

  /** Another inventory may be persisted once something was applied, if it covers what is owed. */
  lemma NewInventoryInRun(v: View, v': View, key: Key, generation: int, spec: Spec, deleting: bool, finalizer: bool,
                          st: Status, entries: seq<ResourceRef>)
    requires RunState(v.(made := {}), key, generation, spec, deleting, finalizer, st)
    requires v' == v.(owed := v'.owed) && v.applied.Some? && !IsTrue(st.report.ready)
    requires v'.owed <= Ids(entries) && v.made <= Ids(entries) && WellFormed(entries)
    ensures RunState(v', key, generation, spec, deleting, finalizer, Status(st.report, Some(entries)))
  {
    hide Ids, WellFormed;
  }

  /** From the apply to the garbage collection of stale objects. */
  method ApplyAndPrune(s: ApiServer, o: Kustomization, oldInventory: ResourceInventory,
                       objects: seq<Object>, revision: string)
    returns (outcome: Outcome, entries: seq<ChangeSetEntry>, ghost collected: Event)
    requires InRun(s, o) && AllPrintable(objects) && !IsTrue(o.report.ready)
    requires o.hadFinalizer && !o.deleting && !o.spec.suspend && Replay(s.log).status == o.Snapshot()
    requires o.spec.dependsOn != [] ==> Replay(s.log).gate == Some(revision)
    requires Replay(s.log).sourced == Some(revision) && s.troubles == []
    requires oldInventory != o.inventory && oldInventory.entries == Entries(o.Snapshot())
    modifies s, o`inventory, o`report
    ensures Ends(s.troubles, false, Reconciled, outcome)
    ensures outcome in {Reconciled, Crashed, Failed(ReconciliationFailed), Failed(PruneFailed)}
    ensures s.Valid() && old(s.log) <= s.log
    ensures outcome != Crashed ==> InRun(s, o) && !IsTrue(o.report.ready)
    ensures outcome == Reconciled ==> o.report == old(o.report) && Replay(s.log).applied == Some(revision)
    ensures outcome == Reconciled ==> Replay(s.log).checkable == Checkable(entries)
    ensures outcome == Reconciled ==> o.Snapshot().inventory == Some(EntriesOf(entries))
    ensures outcome == Reconciled ==> Tracked(o.Snapshot()) == ObjectIds(objects)
    ensures outcome == Reconciled ==> s.log == old(s.log) + [Applied(revision, true, Checkable(entries), ObjectIds(objects)), collected]
    ensures outcome == Reconciled ==>
              CollectsIds(o.spec.prune, Tracked(old(o.Snapshot())) - Tracked(o.Snapshot()), collected)
    ensures outcome.Failed? ==> o.report == old(o.report).(ready := Condition(False, outcome.reason))
    ensures outcome == Failed(ReconciliationFailed) ==> o.Snapshot().inventory == old(o.Snapshot().inventory)
    ensures outcome == Failed(PruneFailed) ==>
              && s.log[|s.log| - 1].Deletion?
              && s.log[|s.log| - 1].asked == Tracked(old(o.Snapshot())) - ObjectIds(objects)
              && Tracked(o.Snapshot())
                 == ObjectIds(objects) + (Tracked(old(o.Snapshot())) - SettledIds(s.log[|s.log| - 1].changeSet))
  {
    hide Good, Replay, RunState, WellFormed, AllPrintable, Ids, ObjectIds, Metas, EntryMetas, CollectsIds;
    collected := Released;
    ghost var st := o.Snapshot();
    var applied := s.ApplyAllStaged(o, objects, revision);
    entries := [];
    match applied {
      case ApplyCrashed => return Crashed, [], Released;
      case ApplyFailed =>
        SetConditions(s, o, o.report.(ready := Condition(False, ReconciliationFailed)));
        return Failed(ReconciliationFailed), [], Released;
      case ApplyOk(es) => entries := es;
    }
    ghost var v := Replay(s.log);
    OwedInRun(v.(made := {}), o.key, o.generation, o.spec, o.deleting, o.hadFinalizer, st);
    var newInventory := NewInventory(objects, entries);
    o.inventory := newInventory;
    outcome, collected := CollectGarbage(s, o.spec, oldInventory, newInventory);
    if outcome == Crashed {
      return;
    }
    NewInventoryInRun(v, Replay(s.log), o.key, o.generation, o.spec, o.deleting, o.hadFinalizer, st, newInventory.entries);
    if outcome.Failed? {
      SetConditions(s, o, o.report.(ready := Condition(False, PruneFailed)));
    }
  }

  /** Prunes what the old inventory has and the new one has not; on failure the survivors go
      back into the new inventory.  Either way, what it tracks covers what is owed. */
  method CollectGarbage(s: ApiServer, spec: Spec, oldInventory: ResourceInventory, inventory: ResourceInventory)
    returns (outcome: Outcome, ghost collected: Event)
    requires s.Valid() && Collecting(Replay(s.log), spec) && s.troubles == []
    requires WellFormed(oldInventory.entries) && WellFormed(inventory.entries) && oldInventory != inventory
    requires Replay(s.log).owed <= Ids(oldInventory.entries) == Tracked(Replay(s.log).status)
    modifies s, inventory
    ensures Ends(s.troubles, false, Reconciled, outcome)
    ensures outcome in {Reconciled, Crashed, Failed(PruneFailed)}
    ensures s.Valid() && old(s.log) <= s.log
    ensures outcome != Crashed ==> s.log == old(s.log) + [collected]
    ensures outcome != Crashed ==> Replay(s.log) == Replay(old(s.log)).(owed := Replay(s.log).owed)
    ensures outcome != Crashed ==> Replay(s.log).owed <= Ids(inventory.entries) && WellFormed(inventory.entries)
    ensures !spec.prune ==> outcome == Reconciled
    ensures outcome == Reconciled ==> inventory.entries == old(inventory.entries)
    ensures outcome == Reconciled ==>
              CollectsIds(spec.prune, Ids(oldInventory.entries) - Ids(inventory.entries), collected)
    ensures outcome == Failed(PruneFailed) ==>
              && collected.Deletion? && collected.failed
              && collected.asked == Ids(oldInventory.entries) - Ids(old(inventory.entries))
              && old(inventory.entries) <= inventory.entries
              && Ids(inventory.entries)
                 == Ids(old(inventory.entries)) + (Ids(oldInventory.entries) - SettledIds(collected.changeSet))
  {
    hide Good, Replay, Ids, ObjectIds, SettledIds, Merged, Survivors;
    var stale := Diff(oldInventory, inventory);
    // The error exit after Diff is unreachable: both inventories parse.
    assert stale.Ok?;
    var survivors;
    outcome, survivors, collected := Prune(s, spec, stale.value);
    if outcome.Failed? {
      ghost var done := SettledIds(collected.changeSet);
      RetrackSurvivors(oldInventory.entries, inventory.entries, stale.value, done);
      SurvivorsFacts(stale.value, done);
      MergedWellFormed(inventory.entries, survivors);
      Merge(inventory, survivors);
    }
  }

  /** The run has applied, and spec is what it read. */
  ghost predicate Collecting(v: View, spec: Spec) {
    v.read.Some? && v.read.value.spec == spec && !v.read.value.deleting && v.applied.Some?
  }

  /** Deletes the stale objects, or leaves them alone when spec.prune is false.  On failure it
      returns the objects whose deletion was not confirmed. */
  method Prune(s: ApiServer, spec: Spec, stale: seq<Object>)
    returns (outcome: Outcome, survivors: seq<Object>, ghost collected: Event)
    requires s.Valid() && Collecting(Replay(s.log), spec) && s.troubles == []
    requires ObjectIds(stale) <= Tracked(Replay(s.log).status)
    modifies s
    ensures Ends(s.troubles, false, Reconciled, outcome)
    ensures outcome in {Reconciled, Crashed, Failed(PruneFailed)}
    ensures s.Valid() && old(s.log) <= s.log
    ensures outcome != Crashed ==> s.log == old(s.log) + [collected]
    ensures outcome != Crashed ==> Replay(s.log) == After(Replay(old(s.log)), collected)
    ensures !spec.prune ==> outcome == Reconciled && collected == Abandoned(ObjectIds(stale))
    ensures outcome == Reconciled ==> CollectsIds(spec.prune, ObjectIds(stale), collected)
    ensures outcome == Failed(PruneFailed) ==>
              && collected.Deletion? && collected.failed && collected.asked == ObjectIds(stale)
              && survivors == Survivors(stale, SettledIds(collected.changeSet))
  {
    hide Good, Replay, Tracked, ObjectIds, SettledIds;
    survivors, collected := [], Released;
    if !spec.prune {
      s.Abandon(stale);
      return Reconciled, [], Abandoned(ObjectIds(stale));
    }
    var deleted := s.DeleteAll(stale);
    match deleted {
      case DeleteCrashed => return Crashed, [], Released;
      case DeleteDone(changeSet, failed) =>
        collected := Deletion(ObjectIds(stale), changeSet, failed);
        if failed {
          survivors := PruneSurvivors(stale, changeSet);
          return Failed(PruneFailed), survivors, collected;
        }
    }
    return Reconciled, [], collected;
  }

  method NewInventory(ghost objects: seq<Object>, entries: seq<ChangeSetEntry>) returns (inv: ResourceInventory)
    requires AllPrintable(objects) && Metas(objects) == EntryMetas(entries)
    ensures fresh(inv) && inv.entries == EntriesOf(entries)
    ensures Ids(inv.entries) == ObjectIds(objects) && WellFormed(inv.entries)
  {
    inv := new ResourceInventory();
    AddChangeSet(inv, Some(entries));
    assert inv.entries == EntriesOf(entries);
    AppliedIds(objects, entries);
  }

  lemma AppliedIds(objects: seq<Object>, entries: seq<ChangeSetEntry>)
    requires AllPrintable(objects)
    requires Metas(objects) == EntryMetas(entries)
    ensures Ids(EntriesOf(entries)) == ObjectIds(objects)
    ensures WellFormed(EntriesOf(entries))
  {
    forall e | e in entries
      ensures Printable(e.meta) && Print(e.meta) in ObjectIds(objects)
    {
      assert e.meta in Metas(objects);
    }
    EntriesWellFormed(entries);
    forall id | id in ObjectIds(objects)
      ensures id in Ids(EntriesOf(entries))
    {
      var o :| o in objects && Print(o.meta) == id;
      assert o.meta in Metas(objects);
      var i :| 0 <= i < |entries| && entries[i].meta == o.meta;
      assert EntriesOf(entries)[i] in EntriesOf(entries);
    }
    forall id | id in Ids(EntriesOf(entries))
      ensures id in ObjectIds(objects)
    {
      var i :| 0 <= i < |entries| && EntriesOf(entries)[i].id == id;
      assert entries[i] in entries;
    }
  }

  // ------------------------------------------------------------ health and success

  datatype Health = HealthOk | HealthCrashed | HealthCanceled | HealthFailed

  ghost function HealthOutcome(h: Health): Outcome {
    match h
    case HealthOk => Reconciled
    case HealthCrashed => Crashed
    case HealthCanceled => Canceled
    case HealthFailed => Failed(HealthCheckFailed)
  }

  /** Health checks of the applied objects; skipped entries are not checked. */
  method CheckHealth(s: ApiServer, o: Kustomization, entries: seq<ChangeSetEntry>) returns (h: Health)
    requires InRun(s, o) && !IsTrue(o.report.ready)
    requires o.finalizer == o.hadFinalizer && Replay(s.log).applied.Some? && s.troubles == []
    modifies s, o`report
    ensures Ends(s.troubles, false, Reconciled, HealthOutcome(h))
    ensures s.Valid() && old(s.log) <= s.log
    ensures h != HealthCrashed ==> InRun(s, o) && !IsTrue(o.report.ready)
    ensures o.report.lastApplied == old(o.report).lastApplied && o.report.lastAttempted == old(o.report).lastAttempted
    ensures o.report.stalled.Absent? || o.report.stalled == old(o.report).stalled
    ensures h == HealthOk ==> o.report.ready == old(o.report).ready
    ensures h == HealthOk ==> (o.report.healthy.Absent? || IsTrue(o.report.healthy))
    ensures h == HealthOk ==> (o.report.healthy.Absent? <==> !NeedsProbe(o.spec, Checkable(entries)))
    ensures h == HealthOk && NeedsProbe(o.spec, Checkable(entries)) ==> Replay(s.log).probed
    ensures h == HealthOk && o.spec.wait ==> (IsTrue(o.report.healthy) <==> exists e :: e in entries && e.action != Skipped)
    ensures h == HealthOk && !o.spec.wait ==> (IsTrue(o.report.healthy) <==> o.spec.healthChecks)
    ensures !o.spec.healthChecks && !o.spec.wait ==>
              h == HealthOk && s.log == old(s.log) && o.report == old(o.report).(healthy := Absent)
    ensures h == HealthOk ==> o.report.lastAppliedOrigin == old(o.report).lastAppliedOrigin
    ensures h != HealthCrashed ==>
              Replay(s.log).applied == Replay(old(s.log)).applied && Replay(s.log).checkable == Replay(old(s.log)).checkable
  {
    hide Good, Replay, WellFormed, AllPrintable, Ids, ObjectIds;
    var checkable := Checkable(entries);
    if !o.spec.healthChecks && !o.spec.wait {
      o.report := o.report.(healthy := Absent);
      return HealthOk;
    }
    if !o.spec.wait {
      var invalid := s.Fails(InvalidChecks);
      if invalid {
        return HealthFailed;
      }
    } else if !checkable {
      o.report := o.report.(healthy := Absent);
      return HealthOk;
    }

    h := Probe(s, o);
  }

  /** The health checks proper, between two progress patches. */
  method Probe(s: ApiServer, o: Kustomization) returns (h: Health)
    requires InRun(s, o) && !IsTrue(o.report.ready)
    requires o.finalizer == o.hadFinalizer && Replay(s.log).applied.Some? && s.troubles == []
    modifies s, o`report
    ensures Ends(s.troubles, false, Reconciled, HealthOutcome(h))
    ensures s.Valid() && old(s.log) <= s.log
    ensures h != HealthCrashed ==> InRun(s, o) && !IsTrue(o.report.ready)
    ensures o.report.lastApplied == old(o.report).lastApplied && o.report.lastAttempted == old(o.report).lastAttempted
    ensures o.report.stalled.Absent?
    ensures h == HealthOk ==> o.report.ready == old(o.report).ready && o.report.healthy == Condition(True, Succeeded)
    ensures o.report.lastAppliedOrigin == old(o.report).lastAppliedOrigin
    ensures h == HealthOk ==>
              && Replay(s.log).probed && o.report == WithReconciling(old(o.report)).(healthy := Condition(True, Succeeded))
              && s.log == old(s.log) + [Persisted(o.Snapshot().(report := o.report.(healthy := Condition(Unknown, Progressing)))),
                                        Probed(true), Persisted(o.Snapshot())]
    ensures s.troubles == [Unhealthy(false)] ==>
              o.report.ready == Condition(False, HealthCheckFailed) && o.report.healthy == Condition(False, HealthCheckFailed)
    ensures h == HealthCanceled ==>
              o.report.ready == old(o.report).ready && o.report.healthy == Condition(Unknown, Progressing)
    ensures h != HealthCrashed ==>
              Replay(s.log).applied == Replay(old(s.log)).applied && Replay(s.log).checkable == Replay(old(s.log)).checkable
  {
    hide Good, Replay, RunState;
    SetConditions(s, o, WithReconciling(o.report));
    var patched := PatchHealth(s, o, Condition(Unknown, Progressing));
    if patched != PatchOk {
      return if patched == PatchCrashed then HealthCrashed else HealthFailed;
    }
    h := AwaitHealth(s, o);
  }

  /** The wait, and the second of the two patches. */
  method AwaitHealth(s: ApiServer, o: Kustomization) returns (h: Health)
    requires InRun(s, o) && !IsTrue(o.report.ready) && o.report.healthy == Condition(Unknown, Progressing)
    requires o.finalizer == o.hadFinalizer && Replay(s.log).applied.Some? && s.troubles == []
    modifies s, o`report
    ensures Ends(s.troubles, false, Reconciled, HealthOutcome(h))
    ensures s.Valid() && old(s.log) <= s.log
    ensures h != HealthCrashed ==> InRun(s, o) && !IsTrue(o.report.ready)
    ensures h == HealthOk ==>
              && Replay(s.log).probed && o.report == old(o.report).(healthy := Condition(True, Succeeded))
              && s.log == old(s.log) + [Probed(true)] + [Persisted(o.Snapshot())]
    ensures h == HealthCanceled ==> o.report == old(o.report)
    ensures o.report == old(o.report).(healthy := o.report.healthy, ready := o.report.ready)
    ensures s.troubles == [Unhealthy(false)] ==>
              o.report.ready == Condition(False, HealthCheckFailed) && o.report.healthy == Condition(False, HealthCheckFailed)
    ensures h != HealthCrashed ==>
              Replay(s.log).applied == Replay(old(s.log)).applied && Replay(s.log).checkable == Replay(old(s.log)).checkable
  {
    hide Good, Replay, RunState;
    var healthy, superseded := s.WaitForSet(o);
    if !healthy {
      if superseded {
        return HealthCanceled;
      }
      SetConditions(s, o, o.report.(ready := Condition(False, HealthCheckFailed),
                                    healthy := Condition(False, HealthCheckFailed)));
      return HealthFailed;
    }
    var patched := PatchHealth(s, o, Condition(True, Succeeded));
    if patched != PatchOk {
      return if patched == PatchCrashed then HealthCrashed else HealthFailed;
    }
    return HealthOk;
  }

  /** Changes the report in memory, short of Ready and of the applied revision. */
  method SetConditions(ghost s: ApiServer, o: Kustomization, report: Report)
    requires InRun(s, o) && !IsTrue(report.ready) && report.lastApplied == o.report.lastApplied
    modifies o`report
    ensures InRun(s, o) && o.report == report
  {
    hide Good, Replay, RunState;
    ghost var st := o.Snapshot();
    o.report := report;
    NotReadyInRun(Replay(s.log), o.key, o.generation, o.spec, o.deleting, o.hadFinalizer, st, report);
  }

  /** Sets the Healthy condition and reports it. */
  method PatchHealth(s: ApiServer, o: Kustomization, healthy: Condition) returns (r: PatchResult)
    requires InRun(s, o) && !IsTrue(o.report.ready) && o.finalizer == o.hadFinalizer
    modifies s, o`report
    ensures InRun(s, o) && o.report == old(o.report).(healthy := healthy)
    ensures s.troubles == PatchTroubles(old(s.troubles), r, true)
    ensures r == PatchOk ==> s.log == old(s.log) + [Persisted(o.Snapshot())]
    ensures s.log == old(s.log) || s.log == old(s.log) + [Persisted(o.Snapshot())]
    ensures Replay(s.log) == Replay(old(s.log)).(status := Replay(s.log).status, owed := Replay(s.log).owed)
  {
    hide Good, Replay, RunState;
    SetConditions(s, o, o.report.(healthy := healthy));
    r := PatchProgress(s, o, true);
  }

  ghost function PatchTroubles(before: seq<Trouble>, r: PatchResult, checking: bool): seq<Trouble> {
    match r
    case PatchOk => before
    case PatchFailed => before + [PatchLost(checking)]
    case PatchCrashed => before + [Crash]
  }

  /** A patch in the middle of a run, with Ready not True. */
  method PatchProgress(s: ApiServer, o: Kustomization, ghost checking: bool) returns (r: PatchResult)
    requires InRun(s, o) && !IsTrue(o.report.ready)
    requires o.finalizer == o.hadFinalizer
    modifies s
    ensures InRun(s, o)
    ensures s.troubles == PatchTroubles(old(s.troubles), r, checking)
    ensures r == PatchOk ==> s.log == old(s.log) + [Persisted(o.Snapshot())] && Replay(s.log).status == o.Snapshot()
    ensures s.log == old(s.log) || s.log == old(s.log) + [Persisted(o.Snapshot())]
    ensures Replay(s.log) == Replay(old(s.log)).(status := Replay(s.log).status, owed := Replay(s.log).owed)
  {
    r := s.Patch(o, checking);
  }

  /** The first thing that is persisted says that a reconciliation is in progress. */
  ghost predicate Announced(before: seq<Event>, log: seq<Event>) {
    && |before| < |log| && log[|before|].Persisted?
    && log[|before|].status.report.ready == Condition(Unknown, Progressing)
    && log[|before|].status.report.reconciling == Condition(True, Progressing)
    && log[|before|].status.report.stalled.Absent?
  }

  /** What reconcile leaves when it succeeds: the ids that are no longer tracked were settled by
      this run, or abandoned when spec.prune is false; and without health checks, exactly these
      events happened and exactly this status is in memory. */
  ghost predicate RevisionDone(log0: seq<Event>, st0: Status, spec: Spec, log: seq<Event>, st: Status, did: Success) {
    && st.inventory == Some(did.inventory)
    && CollectsIds(spec.prune, Tracked(st0) - Tracked(st), did.collected)
    && log0 <= log && did.collected in log[|log0|..]
    && st.report.lastApplied == st.report.lastAttempted == did.revision && st.report.lastAppliedOrigin == did.origin
    && (!spec.healthChecks && !spec.wait ==>
          log == log0 + Applying(st0, did) && st.report == Finished(st0.report, did))
  }

  lemma RevisionIsDone(log0: seq<Event>, st0: Status, spec: Spec, applied: seq<Event>, log: seq<Event>, st: Status,
                       did: Success)
    requires st.inventory == Some(did.inventory) && CollectsIds(spec.prune, Tracked(st0) - Tracked(st), did.collected)
    requires var begun := Status(Progress(st0.report), st0.inventory);
             var attempted := Status(begun.report.(lastAttempted := did.revision), st0.inventory);
             applied == log0 + [Persisted(begun)] + [Persisted(attempted), Persisted(attempted)]
                        + [Applied(did.revision, true, did.checkable, Ids(did.inventory)), did.collected]
    requires applied <= log
    requires st.report.lastApplied == st.report.lastAttempted == did.revision && st.report.lastAppliedOrigin == did.origin
    requires !spec.healthChecks && !spec.wait ==>
               && log == applied
               && st.report == Progress(st0.report).(lastAttempted := did.revision,
                                                     ready := Condition(True, ReconciliationSucceeded), healthy := Absent,
                                                     lastApplied := did.revision, lastAppliedOrigin := did.origin)
    ensures RevisionDone(log0, st0, spec, log, st, did)
  {
    hide CollectsIds, Tracked;
    assert applied == log0 + Applying(st0, did);
    assert log[|log0| + 4] == applied[|log0| + 4] == did.collected;
    assert log[|log0|..][4] == did.collected;
  }

  /** Outcomes of reconcile that leave the inventory alone: nothing was applied without an error. */
  predicate Early(outcome: Outcome) {
    outcome in {StatusNotUpdated, ArtifactNotReady, Failed(DirCreationFailed), Failed(ArtifactFailed),
                Failed(BuildFailed), Failed(ReconciliationFailed)}
  }

  /** reconcile: fetch, build, apply, prune and check one revision. */
  method ReconcileRevision(s: ApiServer, o: Kustomization, revision: string, originRevision: string)
    returns (outcome: Outcome, ghost built: seq<Object>, ghost did: Success)
    requires InRun(s, o)
    requires o.hadFinalizer && o.finalizer && !o.deleting && !o.spec.suspend
    requires o.spec.dependsOn != [] ==> Replay(s.log).gate == Some(revision)
    requires Replay(s.log).sourced == Some(revision) && s.troubles == []
    modifies s, o`report, o`inventory
    ensures Ends(s.troubles, false, Reconciled, outcome)
    ensures outcome in {Reconciled, Crashed, StatusNotUpdated, ArtifactNotReady, Canceled} || outcome.Failed?
    ensures s.Valid() && old(s.log) <= s.log
    ensures outcome != Crashed ==> InRun(s, o)
    ensures outcome !in {Crashed, StatusNotUpdated} ==> Announced(old(s.log), s.log)
    ensures outcome == Reconciled ==>
              && o.report.ready == Condition(True, ReconciliationSucceeded)
              && o.report.lastApplied == o.report.lastAttempted == revision
              && o.report.lastAppliedOrigin == originRevision
              && Replay(s.log).applied == Some(revision)
              && Tracked(o.Snapshot()) == ObjectIds(built)
    ensures outcome == Reconciled ==> RevisionDone(old(s.log), old(o.Snapshot()), o.spec, s.log, o.Snapshot(), did)
    ensures outcome == Reconciled ==> did.revision == revision && did.origin == originRevision
    ensures outcome !in {Reconciled, Crashed} ==>
              && !IsTrue(o.report.ready)
              && o.report.lastApplied == old(o.report).lastApplied
    ensures outcome.Failed? ==> o.report.ready == Condition(False, outcome.reason)
    ensures outcome == Failed(PruneFailed) ==>
              && s.log[|s.log| - 1].Deletion?
              && s.log[|s.log| - 1].asked == Tracked(old(o.Snapshot())) - ObjectIds(built)
              && Tracked(o.Snapshot())
                 == ObjectIds(built) + (Tracked(old(o.Snapshot())) - SettledIds(s.log[|s.log| - 1].changeSet))
    ensures Early(outcome) ==> o.Snapshot().inventory == old(o.Snapshot().inventory)
    ensures outcome in {Canceled, Failed(HealthCheckFailed)} ==> Tracked(o.Snapshot()) == ObjectIds(built)
  {
    hide Good, Replay, RunState, AllPrintable, Ids, ObjectIds, CollectsIds, WellFormed, RevisionDone, Applying, Finished,
         SettledIds;
    ghost var st := o.Snapshot();
    built, did := [], Success(revision, originRevision, false, Released, []);
    var oldInventory, objects;
    outcome, oldInventory, objects := StartRevision(s, o, revision);
    if outcome != Reconciled {
      return;
    }
    built := objects;
    ghost var applied;
    outcome, did, applied := ApplyRevision(s, o, oldInventory, objects, revision, originRevision);
    if outcome == Reconciled {
      RevisionIsDone(old(s.log), st, o.spec, applied, s.log, o.Snapshot(), did);
    }
  }

  /** Progress is announced, the inventory is remembered, and everything is built. */
  method StartRevision(s: ApiServer, o: Kustomization, revision: string)
    returns (outcome: Outcome, oldInventory: ResourceInventory, objects: seq<Object>)
    requires InRun(s, o) && o.finalizer == o.hadFinalizer && s.troubles == []
    modifies s, o`report
    ensures Ends(s.troubles, false, Reconciled, outcome) && (outcome in {Reconciled, Crashed} || Early(outcome))
    ensures InRun(s, o) && old(s.log) <= s.log && fresh(oldInventory)
    ensures outcome !in {Crashed, StatusNotUpdated} ==> Announced(old(s.log), s.log)
    ensures !IsTrue(o.report.ready) && o.report.lastApplied == old(o.report).lastApplied
    ensures outcome.Failed? ==> o.report.ready == Condition(False, outcome.reason)
    ensures outcome == Reconciled ==>
              && AllPrintable(objects) && oldInventory.entries == Entries(o.Snapshot())
              && o.report == Progress(old(o.report)).(lastAttempted := revision)
              && Replay(s.log).status == o.Snapshot() && Replay(s.log).gate == Replay(old(s.log)).gate
              && s.log == old(s.log) + [Persisted(old(o.Snapshot()).(report := Progress(old(o.report))))]
                          + [Persisted(o.Snapshot()), Persisted(o.Snapshot())]
    ensures Replay(s.log).sourced == Replay(old(s.log)).sourced
  {
    hide Good, Replay, RunState, AllPrintable;
    objects := [];
    oldInventory := new ResourceInventory();
    outcome := Advance(s, o, Progress(o.report));
    if outcome != Reconciled {
      return;
    }
    if o.inventory != null {
      oldInventory.entries := o.inventory.entries;
    }
    outcome, objects := FetchAndBuild(s, o, revision);
  }

  /** From the apply to the end. */
  method ApplyRevision(s: ApiServer, o: Kustomization, oldInventory: ResourceInventory, objects: seq<Object>,
                       revision: string, originRevision: string)
    returns (outcome: Outcome, ghost did: Success, ghost applied: seq<Event>)
    requires InRun(s, o) && AllPrintable(objects) && !IsTrue(o.report.ready)
    requires o.hadFinalizer && o.finalizer && !o.deleting && !o.spec.suspend && Replay(s.log).status == o.Snapshot()
    requires o.spec.dependsOn != [] ==> Replay(s.log).gate == Some(revision)
    requires Replay(s.log).sourced == Some(revision) && s.troubles == []
    requires oldInventory != o.inventory && oldInventory.entries == Entries(o.Snapshot())
    requires o.report.stalled.Absent? && o.report.lastAttempted == revision
    modifies s, o`inventory, o`report
    ensures Ends(s.troubles, false, Reconciled, outcome)
    ensures outcome in {Reconciled, Crashed, Canceled} || outcome.Failed?
    ensures outcome.Failed? ==> outcome.reason in {ReconciliationFailed, PruneFailed, HealthCheckFailed}
    ensures s.Valid() && old(s.log) <= s.log
    ensures outcome != Crashed ==> InRun(s, o)
    ensures outcome == Reconciled ==>
              && o.report.ready == Condition(True, ReconciliationSucceeded)
              && o.report.lastApplied == o.report.lastAttempted == revision
              && o.report.lastAppliedOrigin == originRevision
              && Replay(s.log).applied == Some(revision)
              && Tracked(o.Snapshot()) == ObjectIds(objects)
    ensures outcome == Reconciled ==>
              && did.revision == revision && did.origin == originRevision && o.Snapshot().inventory == Some(did.inventory)
              && applied == old(s.log) + [Applied(revision, true, did.checkable, Ids(did.inventory)), did.collected]
              && applied <= s.log
              && CollectsIds(o.spec.prune, Tracked(old(o.Snapshot())) - Tracked(o.Snapshot()), did.collected)
    ensures outcome == Reconciled && !o.spec.healthChecks && !o.spec.wait ==>
              && s.log == applied
              && o.report == old(o.report).(ready := Condition(True, ReconciliationSucceeded), healthy := Absent,
                                            lastApplied := revision, lastAppliedOrigin := originRevision)
    ensures outcome !in {Reconciled, Crashed} ==>
              !IsTrue(o.report.ready) && o.report.lastApplied == old(o.report).lastApplied
    ensures outcome.Failed? ==> o.report.ready == Condition(False, outcome.reason)
    ensures outcome == Failed(PruneFailed) ==>
              && s.log[|s.log| - 1].Deletion?
              && s.log[|s.log| - 1].asked == Tracked(old(o.Snapshot())) - ObjectIds(objects)
              && Tracked(o.Snapshot())
                 == ObjectIds(objects) + (Tracked(old(o.Snapshot())) - SettledIds(s.log[|s.log| - 1].changeSet))
    ensures outcome == Failed(ReconciliationFailed) ==> o.Snapshot().inventory == old(o.Snapshot().inventory)
    ensures outcome in {Canceled, Failed(HealthCheckFailed)} ==> Tracked(o.Snapshot()) == ObjectIds(objects)
  {
    hide Good, Replay, RunState, AllPrintable, Ids, ObjectIds, CollectsIds, WellFormed;
    var entries;
    ghost var collected;
    outcome, entries, collected := ApplyAndPrune(s, o, oldInventory, objects, revision);
    did, applied := Success(revision, originRevision, Checkable(entries), collected, EntriesOf(entries)), s.log;
    if outcome == Reconciled {
      outcome := ConcludeRevision(s, o, entries, revision, originRevision);
    }
  }

  /** Download, attempted revision and build, with a progress patch after each. */
  method FetchAndBuild(s: ApiServer, o: Kustomization, revision: string)
    returns (outcome: Outcome, objects: seq<Object>)
    requires InRun(s, o) && !IsTrue(o.report.ready) && o.finalizer == o.hadFinalizer && s.troubles == []
    modifies s, o`report
    ensures Ends(s.troubles, false, Reconciled, outcome)
    ensures outcome in {Reconciled, Crashed, StatusNotUpdated, ArtifactNotReady, Failed(DirCreationFailed),
                        Failed(ArtifactFailed), Failed(BuildFailed), Failed(ReconciliationFailed)}
    ensures InRun(s, o) && old(s.log) <= s.log
    ensures !IsTrue(o.report.ready) && o.report.lastApplied == old(o.report).lastApplied
    ensures outcome == Reconciled ==>
              && AllPrintable(objects)
              && o.report == WithReconciling(old(o.report)).(lastAttempted := revision)
    ensures outcome == Reconciled ==> Replay(s.log).status == o.Snapshot() && Replay(s.log).gate == Replay(old(s.log)).gate
    ensures Replay(s.log).sourced == Replay(old(s.log)).sourced
    ensures outcome == Reconciled ==> s.log == old(s.log) + [Persisted(o.Snapshot()), Persisted(o.Snapshot())]
    ensures outcome.Failed? ==> o.report.ready == Condition(False, outcome.reason)
  {
    hide Good, Replay, RunState, AllPrintable;
    objects := [];
    ghost var st := o.Snapshot();
    outcome := Prepare(s, o);
    NotReadyInRun(Replay(s.log), o.key, o.generation, o.spec, o.deleting, o.hadFinalizer, st, o.report);
    if outcome != Reconciled {
      return outcome, [];
    }
    outcome := Advance(s, o, WithReconciling(o.report).(lastAttempted := revision));
    if outcome != Reconciled {
      return outcome, [];
    }
    st := o.Snapshot();
    outcome, objects := Build(s, o);
    NotReadyInRun(Replay(s.log), o.key, o.generation, o.spec, o.deleting, o.hadFinalizer, st, o.report);
    if outcome != Reconciled {
      return outcome, [];
    }
    outcome := Advance(s, o, WithReconciling(o.report));
  }

  /** Reports progress. */
  method Advance(s: ApiServer, o: Kustomization, report: Report) returns (outcome: Outcome)
    requires InRun(s, o) && o.finalizer == o.hadFinalizer && s.troubles == []
    requires !IsTrue(report.ready) && report.lastApplied == o.report.lastApplied
    modifies s, o`report
    ensures Ends(s.troubles, false, Reconciled, outcome) && outcome in {Reconciled, Crashed, StatusNotUpdated}
    ensures InRun(s, o) && o.report == report && old(s.log) <= s.log
    ensures outcome == Reconciled ==> s.log == old(s.log) + [Persisted(o.Snapshot())] && Replay(s.log).status == o.Snapshot()
    ensures Replay(s.log) == Replay(old(s.log)).(status := Replay(s.log).status, owed := Replay(s.log).owed)
  {
    hide Good, Replay, RunState;
    SetConditions(s, o, report);
    var patched := PatchProgress(s, o, false);
    return match patched case PatchOk => Reconciled case PatchFailed => StatusNotUpdated case PatchCrashed => Crashed;
  }

  /** Health checks, then the applied revision and Ready=True. */
  method ConcludeRevision(s: ApiServer, o: Kustomization, entries: seq<ChangeSetEntry>,
                          revision: string, originRevision: string) returns (outcome: Outcome)
    requires InRun(s, o) && !IsTrue(o.report.ready) && Replay(s.log).applied == Some(revision)
    requires o.finalizer == o.hadFinalizer
    requires o.report.stalled.Absent? && o.report.lastAttempted == revision
    requires Replay(s.log).checkable == Checkable(entries) && s.troubles == []
    modifies s, o`report
    ensures Ends(s.troubles, false, Reconciled, outcome)
    ensures outcome in {Reconciled, Crashed, Canceled, Failed(HealthCheckFailed)}
    ensures s.Valid() && old(s.log) <= s.log
    ensures outcome != Crashed ==> InRun(s, o)
    ensures outcome == Reconciled ==>
              && o.report.ready == Condition(True, ReconciliationSucceeded)
              && o.report.lastApplied == o.report.lastAttempted == revision
              && o.report.lastAppliedOrigin == originRevision
              && Replay(s.log).applied == Some(revision)
    ensures outcome == Reconciled && !o.spec.wait ==> (IsTrue(o.report.healthy) <==> o.spec.healthChecks)
    ensures outcome == Reconciled && o.spec.wait ==>
              (IsTrue(o.report.healthy) <==> exists e :: e in entries && e.action != Skipped)
    ensures !o.spec.healthChecks && !o.spec.wait ==>
              && outcome == Reconciled && s.log == old(s.log)
              && o.report == old(o.report).(ready := Condition(True, ReconciliationSucceeded), healthy := Absent,
                                            lastApplied := revision, lastAppliedOrigin := originRevision)
    ensures outcome !in {Reconciled, Crashed} ==>
              !IsTrue(o.report.ready) && o.report.lastApplied == old(o.report).lastApplied
    ensures outcome.Failed? ==> o.report.ready == Condition(False, HealthCheckFailed)
  {
    hide Good, Replay, WellFormed, AllPrintable, Ids, ObjectIds;
    var health := CheckHealth(s, o, entries);
    match health {
      case HealthCrashed => return Crashed;
      case HealthCanceled => return Canceled;
      case HealthFailed =>
        o.MarkReady(False, HealthCheckFailed);
        return Failed(HealthCheckFailed);
      case HealthOk =>
    }
    o.report := o.report.(lastApplied := revision, lastAppliedOrigin := originRevision);
    o.MarkReady(True, ReconciliationSucceeded);
    return Reconciled;
  }

  /** Temporary directory, artifact download and build path. */
  method Prepare(s: ApiServer, o: Kustomization) returns (outcome: Outcome)
    requires s.troubles == []
    modifies s`troubles, o`report
    ensures Ends(s.troubles, false, Reconciled, outcome)
    ensures outcome in {Reconciled, ArtifactNotReady, Failed(DirCreationFailed), Failed(ArtifactFailed)}
    ensures outcome == Reconciled ==> o.report == old(o.report)
    ensures outcome.Failed? ==> o.report == old(o.report).(ready := Condition(False, outcome.reason))
    ensures outcome == ArtifactNotReady ==> o.report == old(o.report).(ready := Condition(False, ArtifactFailed))
  {
    var noTmpDir := s.Fails(NoTmpDir);
    if noTmpDir {
      o.MarkReady(False, DirCreationFailed);
      return Failed(DirCreationFailed);
    }
    var retry: bool := *;
    var notFetched := s.Fails(NotFetched(retry));
    if notFetched {
      o.MarkReady(False, ArtifactFailed);
      return if retry then ArtifactNotReady else Failed(ArtifactFailed);
    }
    var noPath := s.Fails(NoBuildPath);
    if noPath {
      o.MarkReady(False, ArtifactFailed);
      return Failed(ArtifactFailed);
    }
    return Reconciled;
  }

  /** Client, generated kustomization.yaml and build. */
  method Build(s: ApiServer, o: Kustomization) returns (outcome: Outcome, objects: seq<Object>)
    requires s.troubles == []
    modifies s`troubles, o`report
    ensures Ends(s.troubles, false, Reconciled, outcome)
    ensures outcome in {Reconciled, Failed(ReconciliationFailed), Failed(BuildFailed)}
    ensures outcome == Reconciled ==> o.report == old(o.report) && AllPrintable(objects)
    ensures outcome.Failed? ==> o.report == old(o.report).(ready := Condition(False, outcome.reason))
  {
    objects := [];
    var noClient := s.Fails(NoClient);
    if noClient {
      o.MarkReady(False, ReconciliationFailed);
      return Failed(ReconciliationFailed), [];
    }
    var built;
    built, objects := s.BuildObjects();
    if !built {
      o.MarkReady(False, BuildFailed);
      return Failed(BuildFailed), [];
    }
    return Reconciled, objects;
  }

  // ------------------------------------------------------------ finalization

  function FinalizerShouldDeleteResources(spec: Spec, inventory: Option<seq<ResourceRef>>): (r: bool)
    ensures r <==> PolicyDeletes(spec) && inventory.Some? && inventory.value != []
  {
    if spec.suspend then false
    else if inventory.None? || |inventory.value| == 0 then false
    else
      var policy := if spec.deletionPolicy == "" then "MirrorPrune" else spec.deletionPolicy;
      if policy == "MirrorPrune" then spec.prune
      else if policy == "Delete" then true
      else if policy == "WaitForTermination" then true
      else false
  }

  /** Deletes what is tracked and takes the finalizer off, unless a deletion failed. */
  method Finalize(s: ApiServer, o: Kustomization) returns (outcome: Outcome)
    requires InRun(s, o) && o.deleting && o.finalizer && s.troubles == []
    requires Tracked(Replay(s.log).status) == Tracked(o.Snapshot())
    modifies s, o`finalizer
    ensures Ends(s.troubles, true, Finalized, outcome)
    ensures outcome in {Finalized, FinalizeFailed, Crashed}
    ensures s.Valid() && old(s.log) <= s.log
    ensures outcome != Crashed ==> InRun(s, o)
    ensures outcome == Finalized ==> !o.finalizer && ReleaseAllowed(Replay(s.log))
    ensures outcome == FinalizeFailed ==> o.finalizer
    ensures !PolicyDeletes(o.spec) || Tracked(o.Snapshot()) == {} ==> outcome == Finalized && s.log == old(s.log)
    ensures outcome == FinalizeFailed ==>
              || (s.troubles == [NoClient] && s.log == old(s.log))
              || exists cs :: s.log == old(s.log) + [Deletion(Tracked(o.Snapshot()), cs, true)]
    ensures outcome == Finalized && PolicyDeletes(o.spec) && Tracked(o.Snapshot()) != {} ==>
              || s.log == old(s.log) + [AccountGone]
              || exists cs :: s.log == old(s.log) + [Deletion(Tracked(o.Snapshot()), cs, false)]
  {
    hide Good, Replay, RunState, WellFormed, AllPrintable, Tracked, ReleaseAllowed, ObjectIds, Ids, PolicyDeletes;
    ghost var v, st := Replay(s.log), o.Snapshot();
    OwedInRun(v, o.key, o.generation, o.spec, o.deleting, o.hadFinalizer, st);
    TrackedEntries(st);
    if FinalizerShouldDeleteResources(o.spec, o.Snapshot().inventory) {
      var objects := List(o.inventory);
      // The discarded error of List is unreachable: the inventory parses.
      assert objects.Ok?;
      var canImpersonate := s.CanImpersonate(o);
      if canImpersonate {
        outcome := DeleteTracked(s, o, objects.value);
        if outcome != Finalized {
          return;
        }
      }
    }
    MayRelease(v, Replay(s.log), o.key, o.generation, o.spec, o.hadFinalizer, st);
    o.finalizer := false;
    return Finalized;
  }

  /** The client, and the deletion of everything that is tracked. */
  method DeleteTracked(s: ApiServer, o: Kustomization, objects: seq<Object>) returns (outcome: Outcome)
    requires InRun(s, o) && o.deleting && s.troubles == [] && PolicyDeletes(o.spec)
    requires ObjectIds(objects) == Tracked(o.Snapshot()) == Tracked(Replay(s.log).status)
    modifies s
    ensures Ends(s.troubles, true, Finalized, outcome)
    ensures outcome in {Finalized, FinalizeFailed, Crashed}
    ensures s.Valid() && old(s.log) <= s.log
    ensures outcome != Crashed ==> InRun(s, o) && Replay(s.log).owed <= Replay(old(s.log)).owed
    ensures outcome != Crashed ==> Replay(s.log) == Replay(old(s.log)).(owed := Replay(s.log).owed)
    ensures outcome == FinalizeFailed ==>
              || (s.troubles == [NoClient] && s.log == old(s.log))
              || exists cs :: s.log == old(s.log) + [Deletion(Tracked(o.Snapshot()), cs, true)]
    ensures outcome == Finalized ==>
              && Replay(s.log).owed !! Tracked(o.Snapshot())
              && exists cs :: s.log == old(s.log) + [Deletion(Tracked(o.Snapshot()), cs, false)]
  {
    hide Good, Replay, RunState, SettledIds, Tracked, ObjectIds, PolicyDeletes;
    ghost var v, st := Replay(s.log), o.Snapshot();
    OwedInRun(v, o.key, o.generation, o.spec, o.deleting, o.hadFinalizer, st);
    var noClient := s.Fails(NoClient);
    if noClient {
      return FinalizeFailed;
    }
    var deleted := s.DeleteAll(objects);
    match deleted {
      case DeleteCrashed => return Crashed;
      case DeleteDone(changeSet, failed) =>
        OwedMayShrink(v, Replay(s.log), o.key, o.generation, o.spec, o.deleting, o.hadFinalizer, st);
        return if failed then FinalizeFailed else Finalized;
    }
  }

  lemma TrackedEntries(st: Status)
    ensures Tracked(st) == Ids(Entries(st))
    ensures Tracked(st) != {} <==> st.inventory.Some? && st.inventory.value != []
  {
    if Entries(st) != [] {
      assert Entries(st)[0] in Entries(st);
      assert Entries(st)[0].id in Tracked(st);
    }
  }

  lemma OwedMayShrink(v: View, v': View, key: Key, generation: int, spec: Spec, deleting: bool, finalizer: bool, st: Status)
    requires RunState(v, key, generation, spec, deleting, finalizer, st)
    requires v'.owed <= v.owed && v' == v.(owed := v'.owed)
    ensures RunState(v', key, generation, spec, deleting, finalizer, st)
  {
    hide Tracked, WellFormed;
  }

  lemma MayRelease(v: View, v': View, key: Key, generation: int, spec: Spec, finalizer: bool, st: Status)
    requires RunState(v, key, generation, spec, true, finalizer, st)
    requires v'.owed <= v.owed && v' == v.(owed := v'.owed, accountGone := v'.accountGone)
    requires !PolicyDeletes(spec) || Tracked(st) == {} || v'.accountGone || v'.owed !! Tracked(st)
    ensures ReleaseAllowed(v')
  {
    hide WellFormed, PolicyDeletes;
  }

  // ------------------------------------------------------------ the run

  /** What a successful run leaves before the final patch, exactly if there are no dependencies
      to read either. */
  ghost predicate RunSucceeded(log0: seq<Event>, st0: Status, spec: Spec, log: seq<Event>, st: Status, did: Success) {
    && st.inventory == Some(did.inventory)
    && CollectsIds(spec.prune, Tracked(st0) - Tracked(st), did.collected)
    && log0 <= log && did.collected in log[|log0|..]
    && |log| > |log0| && log[|log0|] == Sourced(did.revision, did.origin)
    && st.report.lastApplied == st.report.lastAttempted == did.revision && st.report.lastAppliedOrigin == did.origin
    && (Plain(spec) ==>
          && log == log0 + [Sourced(did.revision, did.origin)] + Applying(st0, did)
          && st.report == Finished(st0.report, did))
  }

  lemma SucceededAfter(log0: seq<Event>, log1: seq<Event>, st0: Status, spec: Spec, log: seq<Event>, st: Status,
                       did: Success)
    requires log0 <= log1 && RevisionDone(log1, st0, spec, log, st, did)
    requires |log1| > |log0| && log1[|log0|] == Sourced(did.revision, did.origin)
    requires Plain(spec) ==> log1 == log0 + [Sourced(did.revision, did.origin)]
    ensures RunSucceeded(log0, st0, spec, log, st, did)
  {
    hide CollectsIds, Tracked, Applying, Finished;
    assert log[|log0|..] == log[|log0|..|log1|] + log[|log1|..];
  }

  /** How a run ends, by the object it read and the first trouble it met, if any: a deleted object
      is finalized, a missing finalizer is added, a suspended object is left alone, and any other
      is reconciled. */
  ghost predicate EndsRun(deleting: bool, finalizer: bool, suspend: bool, troubles: seq<Trouble>, outcome: Outcome) {
    if deleting then Ends(troubles, true, Finalized, outcome)
    else if !finalizer then outcome == FinalizerAdded && troubles == []
    else if suspend then outcome == Suspended && troubles == []
    else Ends(troubles, false, Reconciled, outcome)
  }

  lemma EndsRunCases(deleting: bool, finalizer: bool, suspend: bool, troubles: seq<Trouble>, outcome: Outcome)
    requires EndsRun(deleting, finalizer, suspend, troubles, outcome)
    ensures outcome == Suspended <==> !deleting && finalizer && suspend
    ensures outcome == FinalizerAdded <==> !deleting && !finalizer
    ensures outcome == Reconciled ==> !deleting && finalizer
    ensures troubles == [] && deleting ==> outcome == Finalized
    ensures troubles == [] && !deleting && finalizer && !suspend ==> outcome == Reconciled
  {
  }

  /** Reconcile, up to the deferred final patch. */
  method RunBody(s: ApiServer, o: Kustomization) returns (outcome: Outcome, ghost did: Success)
    requires InRun(s, o) && o.finalizer == o.hadFinalizer
    requires o.deleting ==> o.finalizer
    requires s.troubles == [] && Replay(s.log).status == o.Snapshot()
    modifies s, o
    ensures EndsRun(o.deleting, o.hadFinalizer, o.spec.suspend, s.troubles, outcome)
    ensures s.Valid() && old(s.log) <= s.log
    ensures outcome != NotRead
    ensures outcome != Crashed ==> InRun(s, o)
    ensures outcome != Crashed && o.hadFinalizer && !o.finalizer ==> ReleaseAllowed(Replay(s.log))
    ensures outcome != Crashed ==> (outcome in {Finalized, FinalizeFailed} <==> o.deleting)
    ensures outcome == Finalized ==> !o.finalizer
    ensures outcome !in {Finalized, Crashed} ==> o.finalizer
    ensures outcome == FinalizerAdded ==> !o.hadFinalizer
    ensures outcome in {FinalizerAdded, Suspended, Finalized, FinalizeFailed} ==> o.Snapshot() == old(o.Snapshot())
    ensures outcome in {FinalizerAdded, Suspended} ==> s.log == old(s.log)
    ensures outcome == Reconciled ==>
              && o.report.ready == Condition(True, ReconciliationSucceeded)
              && o.report.lastApplied == o.report.lastAttempted
              && Replay(s.log).applied == Some(o.report.lastApplied)
    ensures outcome == Reconciled ==> RunSucceeded(old(s.log), old(o.Snapshot()), o.spec, s.log, o.Snapshot(), did)
    ensures outcome.Failed? ==> o.report.ready == Condition(False, outcome.reason)
    ensures outcome == ArtifactNotReady ==> o.report.ready == Condition(False, ArtifactFailed)
    ensures outcome == Canceled ==> o.report.ready == Condition(False, HealthCheckCanceled)
    ensures outcome !in {Reconciled, Crashed} ==> o.report.lastApplied == old(o.report).lastApplied
    ensures Early(outcome) ==> o.Snapshot().inventory == old(o.Snapshot().inventory)
  {
    hide Good, Replay, RunState, Ids, RevisionDone, RunSucceeded, Tracked, PolicyDeletes;
    did := Success("", "", false, Released, []);
    if o.deleting {
      outcome := Finalize(s, o);
      return;
    }
    if !o.finalizer {
      o.finalizer := true;
      return FinalizerAdded, did;
    }
    if o.spec.suspend {
      return Suspended, did;
    }

    var revision, originRevision;
    outcome, revision, originRevision := Resolve(s, o);
    if outcome == Reconciled {
      ghost var before := s.log;
      outcome, did := RunRevision(s, o, revision, originRevision);
      if outcome == Reconciled {
        SucceededAfter(old(s.log), before, old(o.Snapshot()), o.spec, s.log, o.Snapshot(), did);
      }
    }
  }

  /** Health expressions, source, artifact and dependencies: the exits before reconcile. */
  method Resolve(s: ApiServer, o: Kustomization) returns (outcome: Outcome, revision: string, originRevision: string)
    requires InRun(s, o) && s.troubles == []
    modifies s, o`report
    ensures Ends(s.troubles, false, Reconciled, outcome)
    ensures InRun(s, o) && old(s.log) <= s.log
    ensures outcome == Reconciled || outcome.Failed?
    ensures outcome == Reconciled ==> Replay(s.log).sourced == Some(revision)
    ensures outcome == Reconciled ==>
              |s.log| > |old(s.log)| && s.log[|old(s.log)|] == Sourced(revision, originRevision)
    ensures outcome == Reconciled && o.spec.dependsOn != [] ==> Replay(s.log).gate == Some(revision)
    ensures outcome == Reconciled && o.spec.dependsOn == [] ==> s.log == old(s.log) + [Sourced(revision, originRevision)]
    ensures outcome == Reconciled ==> o.report == old(o.report)
    ensures outcome.Failed? ==> o.report.ready == Condition(False, outcome.reason)
    ensures o.report.lastApplied == old(o.report).lastApplied && o.report.lastAttempted == old(o.report).lastAttempted
    ensures outcome in {Failed(InvalidCELExpression), Failed(AccessDenied)} ==>
              o.report.stalled == Condition(True, outcome.reason) && o.report.reconciling.Absent?
    ensures outcome == Failed(InvalidCELExpression) ==> o.report.observedGeneration == o.generation
    ensures outcome in {Failed(ArtifactFailed), Failed(DependencyNotReady)} ==>
              o.report == old(o.report).(ready := o.report.ready)
  {
    hide Good, Replay, RunState;
    revision, originRevision := "", "";
    var invalidExprs := s.Fails(InvalidExpressions);
    if invalidExprs {
      MarkTerminal(s, o);
      return Failed(InvalidCELExpression), "", "";
    }
    var denied: bool := *;
    var noSource := s.Fails(if denied then SourceDenied else SourceMissing);
    if noSource {
      if denied {
        SetConditions(s, o, WithStalled(o.report.(ready := Condition(False, AccessDenied)), AccessDenied));
        return Failed(AccessDenied), "", "";
      }
      SetConditions(s, o, o.report.(ready := Condition(False, ArtifactFailed)));
      return Failed(ArtifactFailed), "", "";
    }
    var noArtifact := s.Fails(ArtifactMissing);
    if noArtifact {
      SetConditions(s, o, o.report.(ready := Condition(False, ArtifactFailed)));
      return Failed(ArtifactFailed), "", "";
    }
    revision, originRevision := s.Artifact(o);
    outcome := PassGate(s, o, revision);
  }

  /** The dependencies, if there are any. */
  method PassGate(s: ApiServer, o: Kustomization, revision: string) returns (outcome: Outcome)
    requires InRun(s, o) && s.troubles == []
    modifies s, o`report
    ensures Ends(s.troubles, false, Reconciled, outcome)
    ensures InRun(s, o) && old(s.log) <= s.log && Replay(s.log).sourced == Replay(old(s.log)).sourced
    ensures outcome in {Reconciled, Failed(InvalidCELExpression), Failed(DependencyNotReady)}
    ensures outcome == Reconciled ==> o.report == old(o.report)
    ensures outcome == Reconciled && o.spec.dependsOn != [] ==> Replay(s.log).gate == Some(revision)
    ensures o.spec.dependsOn == [] ==> outcome == Reconciled && s.log == old(s.log)
    ensures outcome == Failed(DependencyNotReady) ==>
              o.report == old(o.report).(ready := Condition(False, DependencyNotReady))
    ensures outcome == Failed(InvalidCELExpression) ==> o.report == Terminally(old(o.report), o.generation)
  {
    hide Good, Replay, RunState, DependenciesMet;
    if |o.spec.dependsOn| > 0 {
      var additive: bool := *;
      var gate, _ := s.DependenciesReady(o, revision, additive);
      if gate.Terminal? {
        MarkTerminal(s, o);
        return Failed(InvalidCELExpression);
      }
      if gate.Closed? {
        SetConditions(s, o, o.report.(ready := Condition(False, DependencyNotReady)));
        return Failed(DependencyNotReady);
      }
    }
    return Reconciled;
  }

  /** An expression will not evaluate until the spec changes. */
  function Terminally(r: Report, generation: int): Report {
    WithStalled(r, InvalidCELExpression).(ready := Condition(False, InvalidCELExpression), observedGeneration := generation)
  }

  method MarkTerminal(ghost s: ApiServer, o: Kustomization)
    requires InRun(s, o)
    modifies o`report
    ensures InRun(s, o)
    ensures o.report == Terminally(old(o.report), o.generation)
  {
    hide Good, Replay, RunState;
    SetConditions(s, o, Terminally(o.report, o.generation));
  }

  /** reconcile and how Reconcile reports its errors. */
  method RunRevision(s: ApiServer, o: Kustomization, revision: string, originRevision: string)
    returns (outcome: Outcome, ghost did: Success)
    requires InRun(s, o) && o.hadFinalizer && o.finalizer && !o.deleting && !o.spec.suspend
    requires o.spec.dependsOn != [] ==> Replay(s.log).gate == Some(revision)
    requires Replay(s.log).sourced == Some(revision) && s.troubles == []
    modifies s, o`report, o`inventory
    ensures Ends(s.troubles, false, Reconciled, outcome)
    ensures outcome in {Reconciled, Crashed, StatusNotUpdated, ArtifactNotReady, Canceled} || outcome.Failed?
    ensures s.Valid() && old(s.log) <= s.log
    ensures outcome != Crashed ==> InRun(s, o)
    ensures outcome == Reconciled ==>
              && o.report.ready == Condition(True, ReconciliationSucceeded)
              && o.report.lastApplied == o.report.lastAttempted
              && Replay(s.log).applied == Some(o.report.lastApplied)
    ensures outcome == Reconciled ==> RevisionDone(old(s.log), old(o.Snapshot()), o.spec, s.log, o.Snapshot(), did)
    ensures outcome == Reconciled ==> did.revision == revision && did.origin == originRevision
    ensures outcome.Failed? ==> o.report.ready == Condition(False, outcome.reason)
    ensures outcome == ArtifactNotReady ==> o.report.ready == Condition(False, ArtifactFailed)
    ensures outcome == Canceled ==> o.report.ready == Condition(False, HealthCheckCanceled)
    ensures outcome !in {Reconciled, Crashed} ==> o.report.lastApplied == old(o.report).lastApplied
    ensures Early(outcome) ==> o.Snapshot().inventory == old(o.Snapshot().inventory)
  {
    hide Good, Replay, RunState, WellFormed, AllPrintable, Ids, ObjectIds, RevisionDone;
    ghost var built;
    outcome, built, did := ReconcileRevision(s, o, revision, originRevision);
    if outcome == ArtifactNotReady {
      SetConditions(s, o, o.report.(ready := Condition(False, ArtifactFailed)));
    } else if outcome == Canceled {
      SetConditions(s, o, o.report.(ready := Condition(False, HealthCheckCanceled)));
    }
  }

  /** Conditions that keep Ready and what it rests on may change at any time. */
  lemma SameReadyInRun(v: View, key: Key, generation: int, spec: Spec, deleting: bool, finalizer: bool, st: Status,
                       report: Report)
    requires RunState(v, key, generation, spec, deleting, finalizer, st)
    requires report.ready == st.report.ready && report.stalled == st.report.stalled && report.healthy == st.report.healthy
    requires report.lastApplied == st.report.lastApplied && report.lastAttempted == st.report.lastAttempted
    ensures RunState(v, key, generation, spec, deleting, finalizer, st.(report := report))
  {
    hide Tracked, WellFormed;
    TrackedByInventory(st, st.(report := report));
  }

  lemma InRunReady(v: View, key: Key, generation: int, spec: Spec, deleting: bool, finalizer: bool, st: Status)
    requires RunState(v, key, generation, spec, deleting, finalizer, st)
    ensures ReadyMeansApplied(st.report)
  {
  }

  /** The deferred patch at the end of a run. */
  method FinalPatch(s: ApiServer, o: Kustomization) returns (patched: bool)
    requires InRun(s, o) && (o.hadFinalizer && !o.finalizer ==> ReleaseAllowed(Replay(s.log)))
    requires o.finalizer && !o.hadFinalizer ==> !o.deleting
    modifies s, o`report
    ensures InRun(s, o) && old(s.log) <= s.log
    ensures patched <==> s.troubles == old(s.troubles)
    ensures !patched ==> |s.troubles| == |old(s.troubles)| + 1 && old(s.troubles) <= s.troubles
    ensures patched && o.hadFinalizer && !o.finalizer ==> s.log == old(s.log) + [Released] && !s.present
    ensures patched && o.finalizer == o.hadFinalizer ==> s.log == old(s.log) + [Persisted(o.Snapshot())]
    ensures patched && o.finalizer && !o.hadFinalizer ==>
              s.log == old(s.log) + [FinalizerSet] + [Persisted(o.Snapshot())]
    ensures patched && !(o.hadFinalizer && !o.finalizer) ==>
              && Replay(s.log).status == o.Snapshot()
              && Replay(s.log).applied == Replay(old(s.log)).applied
    ensures o.report.ready == old(o.report).ready && o.report.lastApplied == old(o.report).lastApplied
    ensures IsTrue(o.report.ready) ==>
              o.report == old(o.report).(reconciling := Absent, observedGeneration := o.generation)
    ensures !IsTrue(o.report.ready) ==> o.report == old(o.report).(reconciling := o.report.reconciling)
    ensures Retrying(o.report)
  {
    hide Good, Replay, RunState, Consistent, ReleaseAllowed, ReadyMeansApplied;
    ghost var st := o.Snapshot();
    InRunReady(Replay(s.log), o.key, o.generation, o.spec, o.deleting, o.hadFinalizer, st);
    o.FinalizeStatus();
    SameReadyInRun(Replay(s.log), o.key, o.generation, o.spec, o.deleting, o.hadFinalizer, st, o.report);
    var r := s.Patch(o, false);
    return r == PatchOk;
  }

  /** What a successful run leaves in the journal: the ids it no longer tracks were settled, or
      abandoned when it read spec.prune false; and a plain run is PlainRun, event by event. */
  ghost predicate RunRecorded(log0: seq<Event>, st0: Status, log: seq<Event>, st: Status, did: Success) {
    && log0 <= log && |log0| < |log| && log[|log0|].Read?
    && st.inventory == Some(did.inventory)
    && CollectsIds(log[|log0|].obj.spec.prune, Tracked(st0) - Tracked(st), did.collected)
    && did.collected in log[|log0|..]
    && Sourced(did.revision, did.origin) in log[|log0|..]
    && st.report.lastApplied == st.report.lastAttempted == did.revision && st.report.lastAppliedOrigin == did.origin
    && (Plain(log[|log0|].obj.spec) ==> log == log0 + PlainRun(log[|log0|].obj, did))
  }

  lemma RecordRun(log0: seq<Event>, read: Stored, ran: seq<Event>, before: Status, st: Status, did: Success)
    requires RunSucceeded(log0 + [Read(read)], read.status, read.spec, ran, before, did)
    requires st.inventory == before.inventory
    requires st.report == before.report.(reconciling := Absent, observedGeneration := read.generation)
    ensures RunRecorded(log0, read.status, ran + [Persisted(st)], st, did)
  {
    hide CollectsIds, Ids;
    var log := ran + [Persisted(st)];
    assert log[|log0|..] == [Read(read)] + ran[|log0| + 1..] + [Persisted(st)];
    assert ran[|log0| + 1..][0] == Sourced(did.revision, did.origin);
    assert Tracked(st) == Tracked(before);
    if Plain(read.spec) {
      assert st == Concluded(read, did);
      assert log == log0 + PlainRun(read, did);
    }
  }

  /** One run of Reconcile.  Whatever fails and wherever it crashes, the journal stays Good. */
  method Reconcile(s: ApiServer) returns (outcome: Outcome, patched: bool, ghost troubles: seq<Trouble>)
    requires s.Valid()
    modifies s
    ensures s.Valid() && old(s.log) <= s.log
    ensures outcome == NotRead <==> s.log == old(s.log)
    ensures outcome != NotRead ==> s.log[|old(s.log)|].Read?
    ensures outcome != NotRead ==>
              var o := s.log[|old(s.log)|].obj;
              && EndsRun(o.deleting, o.finalizer, o.spec.suspend, troubles, outcome)
              && (outcome == Suspended <==> !o.deleting && o.finalizer && o.spec.suspend)
              && (outcome == FinalizerAdded <==> !o.deleting && !o.finalizer)
              && (!o.deleting && o.finalizer && !o.spec.suspend && troubles == [] ==> outcome == Reconciled)
              && (o.deleting && troubles == [] ==> outcome == Finalized)
    ensures outcome == NotRead ==> troubles == s.troubles && (troubles == [ReadFailed] || !s.present)
    ensures outcome !in {NotRead, Crashed} ==> troubles <= s.troubles && (patched <==> s.troubles == troubles)
    ensures patched ==> outcome !in {NotRead, Crashed}
    ensures patched && outcome == FinalizerAdded ==>
              s.log == old(s.log) + [s.log[|old(s.log)|], FinalizerSet, Persisted(s.stored.status)]
    ensures patched && outcome == Suspended ==> s.log == old(s.log) + [s.log[|old(s.log)|], Persisted(s.stored.status)]
    ensures patched && outcome == Finalized ==> s.log[|s.log| - 1] == Released && !s.present
    ensures patched && outcome != Finalized ==> s.log[|s.log| - 1] == Persisted(s.stored.status)
    ensures patched && outcome == Reconciled ==>
              var r := s.stored.status.report;
              r.ready == Condition(True, ReconciliationSucceeded) && Replay(s.log).applied == Some(r.lastApplied)
    ensures patched && outcome == Reconciled ==>
              exists did :: RunRecorded(old(s.log), old(s.stored.status), s.log, s.stored.status, did)
    ensures patched && outcome.Failed? ==> s.stored.status.report.ready == Condition(False, outcome.reason)
    ensures patched && outcome == ArtifactNotReady ==> s.stored.status.report.ready == Condition(False, ArtifactFailed)
    ensures patched && outcome == Canceled ==> s.stored.status.report.ready == Condition(False, HealthCheckCanceled)
    ensures patched && outcome !in {Reconciled, Finalized} ==>
              s.stored.status.report.lastApplied == old(s.stored.status).report.lastApplied
    ensures patched && (outcome in {FinalizerAdded, Suspended, FinalizeFailed} || Early(outcome)) ==>
              s.stored.status.inventory == old(s.stored.status).inventory
    ensures patched && outcome != Finalized ==> Retrying(s.stored.status.report)
  {
    hide Good, Replay, RunState, ReleaseAllowed, RunSucceeded, RunRecorded, Ends;
    var o := s.Get();
    if o == null {
      return NotRead, false, s.troubles;
    }
    ghost var read, started := s.stored, s.log;
    ghost var did;
    outcome, did := RunBody(s, o);
    troubles := s.troubles;
    EndsRunCases(o.deleting, o.hadFinalizer, o.spec.suspend, troubles, outcome);
    if outcome == Crashed {
      return outcome, false, troubles;
    }
    ghost var ran, before := s.log, o.Snapshot();
    patched := FinalPatch(s, o);
    if patched && outcome == Reconciled {
      RecordRun(old(s.log), read, ran, before, o.Snapshot(), did);
    }
  }

  /** Any number of runs and user actions, in any order. */
  method Life(key: Key, spec: Spec, steps: nat) returns (s: ApiServer)
    ensures s.Valid() && Safe(s.log)
  {
    hide Safe;
    s := new ApiServer(key, spec);
    for i := 0 to steps
      invariant fresh(s) && s.Valid()
    {
      var users: bool := *;
      if users {
        s.UsersAct();
      } else {
        var outcome, patched, _ := Reconcile(s);
      }
    }
    GoodIsSafe(s.log);
  }
}
