/** What the API server and the cluster can observe of a Kustomization's life: reads,
    applies, confirmed deletions and status patches, in order.  Good describes the
    journals that are allowed; the controller module shows that no run, failure or
    crash ever produces another one, and the theorems below say what that means. */
module Journal {
  import opened Text
  import opened Inventory
  import opened SourceRefs
  import Dependencies

  datatype Truth = True | False | Unknown

  datatype Reason =
    | Progressing | ProgressingWithRetry | Succeeded | ReconciliationSucceeded
    | InvalidCELExpression | AccessDenied | ArtifactFailed | DependencyNotReady | DirCreationFailed
    | BuildFailed | ReconciliationFailed | PruneFailed | HealthCheckFailed | HealthCheckCanceled

  datatype Condition = Absent | Condition(status: Truth, reason: Reason)

  /** The conditions and revisions of status. */
  datatype Report = Report(ready: Condition, reconciling: Condition, stalled: Condition, healthy: Condition,
                           observedGeneration: int, lastAttempted: string,
                           lastApplied: string, lastAppliedOrigin: string)

  datatype Status = Status(report: Report, inventory: Option<seq<ResourceRef>>)

  datatype Spec = Spec(source: SourceRef, dependsOn: seq<Dependencies.DependencyRef>, suspend: bool, prune: bool,
                       deletionPolicy: string, healthChecks: bool, wait: bool)

  /** A Kustomization as stored by the API server. */
  datatype Stored = Stored(key: Key, generation: int, spec: Spec, deleting: bool, finalizer: bool, status: Status)

  /** The status of a new object, with the default of the CRD. */
  const NewStatus := Status(Report(Absent, Absent, Absent, Absent, -1, "", "", ""), None)

  datatype Event =
    | Read(obj: Stored)                      // a run starts
    | Sourced(revision: string, origin: string)    // the artifact of the source
    | GateOpen(target: string, additive: bool, answers: seq<Dependencies.Answer>)   // every dependency is ready
    | Applied(revision: string, ok: bool, checkable: bool, ids: set<string>)   // server-side apply; checkable: not all skipped
    | Probed(ok: bool)                          // the applied objects were waited for
    | Deletion(asked: set<string>, changeSet: Option<seq<ChangeSetEntry>>, failed: bool)   // a delete call and its answer
    | Abandoned(ids: set<string>)               // stale objects left alone because spec.prune is false
    | FinalizerSet                              // a patch added the finalizer
    | AccountGone                               // nothing to impersonate while finalizing
    | Persisted(status: Status)                 // a patch that reached the API server
    | Released                                  // the patch that removed the finalizer

  ghost function Entries(st: Status): seq<ResourceRef> {
    if st.inventory.None? then [] else st.inventory.value
  }

  ghost function Tracked(st: Status): set<string> {
    Ids(Entries(st))
  }

  predicate IsTrue(c: Condition) {
    c.Condition? && c.status == True
  }

  /** conditions.MarkReconciling also removes Stalled, */
  function WithReconciling(r: Report): Report {
    r.(reconciling := Condition(True, Progressing), stalled := Absent)
  }

  /** and conditions.MarkStalled also removes Reconciling. */
  function WithStalled(r: Report, reason: Reason): Report {
    r.(stalled := Condition(True, reason), reconciling := Absent)
  }

  // --------------------------------------------------- reading a journal

  /** What a journal says so far: the last persisted status, the ids that are owed, and what
      the current run did: the object it read, the revision of its source, the one the dependencies
      were ready for, the one it applied without an error and the ids of its objects, whether there
      is anything to check, whether that was found healthy, and whether no account was left to
      impersonate.  An id is owed when some inventory with it was persisted and it was not settled,
      or knowingly abandoned, since. */
  datatype View = View(status: Status, owed: set<string>, read: Option<Stored>, sourced: Option<string>,
                       gate: Option<string>, applied: Option<string>, made: set<string>, checkable: bool, probed: bool, accountGone: bool)

  ghost function After(v: View, e: Event): View {
    match e
    case Read(o) => View(v.status, v.owed, Some(o), None, None, None, {}, false, false, false)
    case Sourced(revision, _) => v.(sourced := Some(revision))
    case GateOpen(target, _, _) => v.(gate := Some(target))
    case Applied(revision, ok, checkable, ids) =>
      v.(applied := if ok then Some(revision) else v.applied, made := if ok then ids else v.made,
         checkable := checkable, probed := false)
    case Probed(ok) => v.(probed := ok)
    case Deletion(_, changeSet, _) => v.(owed := v.owed - SettledIds(changeSet))
    case FinalizerSet => v
    case Abandoned(ids) => v.(owed := v.owed - ids)
    case AccountGone => v.(accountGone := true)
    case Persisted(st) => v.(status := st, owed := v.owed + Tracked(st))
    case Released => v
  }

  ghost function Replay(log: seq<Event>): View {
    if log == [] then View(NewStatus, {}, None, None, None, None, {}, false, false, false)
    else After(Replay(log[..|log| - 1]), log[|log| - 1])
  }

  // ------------------------------------------------------------ the protocol

  /** Ready=True means: the attempted revision is the applied one, nothing is in progress
      or stalled, and health is either not checked or good. */
  ghost predicate ReadyMeansApplied(r: Report) {
    IsTrue(r.ready) ==>
      r.lastApplied == r.lastAttempted && r.stalled.Absent? && (r.healthy.Absent? || IsTrue(r.healthy))
  }

  ghost predicate Consistent(r: Report, generation: int) {
    ReadyMeansApplied(r) && (IsTrue(r.ready) ==> r.reconciling.Absent? && r.observedGeneration == generation)
  }

  /** The spec asks for health checks and there is something to check. */
  predicate NeedsProbe(spec: Spec, checkable: bool) {
    if spec.wait then checkable else spec.healthChecks
  }

  /** This run applied the revision and found it healthy, if that was asked for. */
  ghost predicate Earned(v: View, revision: string) {
    && v.applied == Some(revision)
    && (v.read.Some? && NeedsProbe(v.read.value.spec, v.checkable) ==> v.probed)
  }

  /** A status that may replace the last persisted one. */
  ghost predicate Writable(v: View, st: Status) {
    && v.owed <= Tracked(st) && v.made <= Tracked(st)
    && WellFormed(Entries(st))
    && (st.report.lastApplied == v.status.report.lastApplied || v.applied == Some(st.report.lastApplied))
    && (IsTrue(st.report.ready) && !IsTrue(v.status.report.ready) ==> Earned(v, st.report.lastApplied))
    && (st.inventory == v.status.inventory || v.applied.Some?)
  }

  /** What is writable stays so once it is written, */
  lemma WritableOnceWritten(v: View, st: Status)
    requires Writable(v, st)
    ensures Writable(v.(status := st, owed := v.owed + Tracked(st)), st)
  {
  }

  /** and under any other conditions short of Ready. */
  lemma WritableWhenNotReady(v: View, st: Status, report: Report)
    requires Writable(v, st) && !IsTrue(report.ready) && report.lastApplied == st.report.lastApplied
    ensures Writable(v, st.(report := report))
  {
  }

  /** Deletion of the object deletes what it manages, impersonation permitting. */
  predicate PolicyDeletes(spec: Spec) {
    && !spec.suspend
    && (spec.deletionPolicy in {"Delete", "WaitForTermination"}
        || (spec.deletionPolicy in {"", "MirrorPrune"} && spec.prune))
  }

  /** The policies in full: MirrorPrune is the default, Orphan and anything unknown delete
      nothing, and a suspended object never does. */
  lemma PolicyTable(spec: Spec)
    ensures spec.suspend ==> !PolicyDeletes(spec)
    ensures !spec.suspend && spec.deletionPolicy == "Delete" ==> PolicyDeletes(spec)
    ensures !spec.suspend && spec.deletionPolicy == "WaitForTermination" ==> PolicyDeletes(spec)
    ensures !spec.suspend && spec.deletionPolicy == "MirrorPrune" ==> (PolicyDeletes(spec) <==> spec.prune)
    ensures PolicyDeletes(spec.(deletionPolicy := "")) <==> PolicyDeletes(spec.(deletionPolicy := "MirrorPrune"))
    ensures !PolicyDeletes(spec.(deletionPolicy := "Orphan"))
    ensures spec.deletionPolicy !in {"", "MirrorPrune", "Delete", "WaitForTermination"} ==> !PolicyDeletes(spec)
  {
  }

  ghost predicate ReleaseAllowed(v: View) {
    && v.read.Some? && v.read.value.deleting
    && (v.owed == {} || !PolicyDeletes(v.read.value.spec) || v.accountGone)
  }

  /** Every dependency, as it was read, meets what checkDependencies documents. */
  ghost predicate DependenciesMet(key: Key, spec: Spec, target: string, additive: bool,
                                  answers: seq<Dependencies.Answer>) {
    && |answers| == |spec.dependsOn|
    && forall i :: 0 <= i < |answers| ==>
         Dependencies.Meets(key, spec.source, target, spec.dependsOn[i], additive, answers[i])
  }

  ghost predicate Allowed(v: View, e: Event) {
    match e
    case Read(o) => o.status == v.status
    case Sourced(_, _) => v.read.Some?
    case GateOpen(target, additive, answers) =>
      v.read.Some? && DependenciesMet(v.read.value.key, v.read.value.spec, target, additive, answers)
    case Applied(revision, _, _, _) =>
      && v.read.Some? && v.read.value.finalizer && !v.read.value.deleting && !v.read.value.spec.suspend
      && (v.read.value.spec.dependsOn != [] ==> v.gate == Some(revision))
      && v.sourced == Some(revision)
    case Probed(_) => v.applied.Some?
    case Deletion(asked, changeSet, failed) =>
      && v.read.Some? && asked <= Tracked(v.status)
      && (if v.read.value.deleting then PolicyDeletes(v.read.value.spec) else v.read.value.spec.prune && v.applied.Some?)
      && (!failed ==> asked <= SettledIds(changeSet))
    case FinalizerSet => v.read.Some? && !v.read.value.finalizer && !v.read.value.deleting
    case Abandoned(_) => v.read.Some? && !v.read.value.spec.prune
    case AccountGone => v.read.Some? && v.read.value.deleting
    case Persisted(st) => v.read.Some? && Writable(v, st) && Consistent(st.report, v.read.value.generation)
    case Released => ReleaseAllowed(v)
  }

  ghost predicate Good(log: seq<Event>) {
    log == [] || (Good(log[..|log| - 1]) && Allowed(Replay(log[..|log| - 1]), log[|log| - 1]))
  }

  // ---------------------------------------------------------------- unfolding

  lemma Extend(log: seq<Event>, e: Event)
    ensures Good(log + [e]) <==> Good(log) && Allowed(Replay(log), e)
    ensures Replay(log + [e]) == After(Replay(log), e)
  {
    assert (log + [e])[..|log + [e]| - 1] == log;
  }

  lemma {:induction false} GoodPrefix(log: seq<Event>, n: nat)
    requires Good(log) && n <= |log|
    ensures Good(log[..n])
    decreases |log|
  {
    if n == |log| {
      assert log[..n] == log;
    } else {
      GoodPrefix(log[..|log| - 1], n);
      assert log[..|log| - 1][..n] == log[..n];
    }
  }

  lemma AllowedAt(log: seq<Event>, i: nat)
    requires Good(log) && i < |log|
    ensures Good(log[..i]) && Allowed(Replay(log[..i]), log[i])
    ensures Replay(log[..i + 1]) == After(Replay(log[..i]), log[i])
  {
    GoodPrefix(log, i + 1);
    assert log[..i + 1][..i] == log[..i];
  }

  lemma EmptyJournal()
    ensures Good([]) && Replay([]).status == NewStatus && Replay([]).owed == {}
  {
  }

  /** What is owed is always tracked by the persisted inventory, which always parses. */
  lemma {:induction false} OwedIsTracked(log: seq<Event>)
    requires Good(log)
    ensures Replay(log).owed <= Tracked(Replay(log).status)
    ensures WellFormed(Entries(Replay(log).status))
    ensures ReadyMeansApplied(Replay(log).status.report)
  {
    hide Parse, Ids, Earned, Good, Replay;
    if log == [] {
      EmptyJournal();
    } else {
      AllowedAt(log, |log| - 1);
      assert log[..|log| - 1 + 1] == log;
      OwedIsTracked(log[..|log| - 1]);
    }
  }

  // ---------------------------------------------------------------- theorems

  /** A delete call answered with a Deleted or Skipped entry for the id. */
  ghost predicate SettledBetween(log: seq<Event>, i: nat, j: nat, id: string)
    requires j <= |log|
  {
    exists k, e :: i < k < j && log[k].Deletion? && log[k].changeSet.Some? && e in log[k].changeSet.value
                   && e.action in {Deleted, Skipped} && Print(e.meta) == id
  }

  ghost predicate AbandonedBetween(log: seq<Event>, i: nat, j: nat, id: string)
    requires j <= |log|
  {
    exists k :: i < k < j && log[k].Abandoned? && id in log[k].ids
  }

  /** spec.prune was true in every run. */
  ghost predicate AlwaysPrunes(log: seq<Event>) {
    forall k :: 0 <= k < |log| && log[k].Read? ==> log[k].obj.spec.prune
  }

  /** The run of the event at i, or of the next one, started at r. */
  ghost predicate RunStart(log: seq<Event>, r: nat, i: nat)
    requires i <= |log|
  {
    r < i && log[r].Read? && forall k :: r < k < i ==> !log[k].Read?
  }

  lemma {:induction false} RunOf(log: seq<Event>) returns (r: nat)
    requires Replay(log).read.Some?
    ensures RunStart(log, r, |log|) && log[r].obj == Replay(log).read.value
  {
    if log[|log| - 1].Read? {
      r := |log| - 1;
    } else {
      r := RunOf(log[..|log| - 1]);
    }
  }

  /** An id that is owed stays owed until it is settled or abandoned. */
  lemma {:induction false} OwedUntilDone(log: seq<Event>, i: nat, j: nat, id: string)
    requires Good(log) && i < j <= |log|
    requires id in Replay(log[..i + 1]).owed
    ensures id in Replay(log[..j]).owed || SettledBetween(log, i, j, id) || AbandonedBetween(log, i, j, id)
    decreases j
  {
    if j > i + 1 {
      OwedUntilDone(log, i, j - 1, id);
      AllowedAt(log, j - 1);
    }
  }

  /** Ids are only ever abandoned by a run that read spec.prune false. */
  lemma AbandonedNeedsNoPrune(log: seq<Event>, k: nat) returns (r: nat)
    requires Good(log) && k < |log| && log[k].Abandoned?
    ensures RunStart(log, r, k) && !log[r].obj.spec.prune
  {
    AllowedAt(log, k);
    r := RunOf(log[..k]);
  }

  /** Only what the persisted inventory tracks is ever deleted, and only by a run that read
      spec.prune true and has applied, or that read a deleted object whose policy deletes. */
  lemma DeletionIsWarranted(log: seq<Event>, k: nat) returns (r: nat)
    requires Good(log) && k < |log| && log[k].Deletion?
    ensures log[k].asked <= Tracked(Replay(log[..k]).status)
    ensures RunStart(log, r, k)
    ensures if log[r].obj.deleting then PolicyDeletes(log[r].obj.spec)
            else log[r].obj.spec.prune && exists m :: r < m < k && log[m].Applied? && log[m].ok
  {
    hide Tracked;
    AllowedAt(log, k);
    r := RunOf(log[..k]);
    RunSoFar(log[..k], r);
    if !log[r].obj.deleting {
      var m :| r < m < k && log[..k][m].Applied? && log[..k][m].ok;
      assert log[m] == log[..k][m];
    }
  }

  lemma NeverAbandoned(log: seq<Event>, i: nat, j: nat, id: string)
    requires Good(log) && AlwaysPrunes(log) && j <= |log|
    ensures !AbandonedBetween(log, i, j, id)
  {
    if AbandonedBetween(log, i, j, id) {
      var k :| i < k < j && log[k].Abandoned? && id in log[k].ids;
      var r := AbandonedNeedsNoPrune(log, k);
    }
  }

  /** Tracking conservation: an id in one persisted inventory and not in a later one has a
      Deleted or Skipped entry in between; consecutive snapshots are one instance.  The only
      other way out is a run that read spec.prune false. */
  lemma TrackingConservation(log: seq<Event>, i: nat, j: nat, id: string)
    requires Good(log) && i < j < |log| && log[i].Persisted? && log[j].Persisted?
    requires id in Tracked(log[i].status) && id !in Tracked(log[j].status)
    ensures SettledBetween(log, i, j, id) || AbandonedBetween(log, i, j, id)
    ensures AlwaysPrunes(log) ==> SettledBetween(log, i, j, id)
  {
    AllowedAt(log, i);
    OwedUntilDone(log, i, j, id);
    AllowedAt(log, j);
    if AlwaysPrunes(log) {
      NeverAbandoned(log, i, j, id);
    }
  }

  /** Whole-life release: when the run that removes the finalizer read a deleting policy and had
      an account to impersonate, every id that any persisted inventory ever held is settled
      after that snapshot, so in particular after the last one, before the finalizer goes. */
  lemma WholeLifeRelease(log: seq<Event>, r: nat, p: nat, i: nat, id: string)
    requires Good(log) && AlwaysPrunes(log)
    requires i < p < |log| && log[p].Released? && log[i].Persisted?
    requires id in Tracked(log[i].status)
    requires RunStart(log, r, p) && PolicyDeletes(log[r].obj.spec) && AccountGone !in log[r..p]
    ensures SettledBetween(log, i, p, id)
  {
    AllowedAt(log, i);
    OwedUntilDone(log, i, p, id);
    NeverAbandoned(log, i, p, id);
    AllowedAt(log, p);
    RunSoFar(log[..p], r);
    assert log[..p][r..] == log[r..p];
  }

  /** A report with Ready=True whose generation is the one that was read. */
  ghost predicate ReadyReport(r: Report, generation: int) {
    && r.lastApplied == r.lastAttempted
    && r.reconciling.Absent? && r.stalled.Absent?
    && (r.healthy.Absent? || IsTrue(r.healthy))
    && r.observedGeneration == generation
  }

  /** Every persisted snapshot: Ready=True is consistent and observes the generation its own
      run read. */
  lemma StatusAtEverySnapshot(log: seq<Event>, i: nat) returns (r: nat)
    requires Good(log) && i < |log| && log[i].Persisted?
    ensures RunStart(log, r, i)
    ensures IsTrue(log[i].status.report.ready) ==> ReadyReport(log[i].status.report, log[r].obj.generation)
  {
    AllowedAt(log, i);
    r := RunOf(log[..i]);
  }

  ghost predicate AppliedIn(log: seq<Event>, r: nat, i: nat, revision: string)
    requires i <= |log|
  {
    exists k :: r < k < i && log[k].Applied? && log[k].ok && log[k].revision == revision
  }

  /** The run that started at r read every dependency and found it ready for the revision. */
  ghost predicate GatePassed(log: seq<Event>, r: nat, i: nat, revision: string)
    requires i <= |log| && RunStart(log, r, i)
  {
    exists k :: r < k < i && log[k].GateOpen? && log[k].target == revision
                && DependenciesMet(log[r].obj.key, log[r].obj.spec, revision, log[k].additive, log[k].answers)
  }

  ghost predicate SourcedIn(log: seq<Event>, r: nat, i: nat, revision: string)
    requires i <= |log|
  {
    exists k :: r < k < i && log[k].Sourced? && log[k].revision == revision
  }

  lemma JustSourced(log: seq<Event>, r: nat)
    requires RunStart(log, r, |log|) && log[|log| - 1].Sourced?
    ensures SourcedIn(log, r, |log|, log[|log| - 1].revision)
  {
  }

  lemma StillSourced(log: seq<Event>, r: nat, n: nat, revision: string)
    requires n <= |log| && SourcedIn(log[..n], r, n, revision)
    ensures SourcedIn(log, r, |log|, revision)
  {
    var k :| r < k < n && log[..n][k].Sourced? && log[..n][k].revision == revision;
    assert log[k] == log[..n][k];
  }

  lemma JustApplied(log: seq<Event>, r: nat)
    requires RunStart(log, r, |log|) && log[|log| - 1].Applied? && log[|log| - 1].ok
    ensures AppliedIn(log, r, |log|, log[|log| - 1].revision)
  {
  }

  lemma GateOpened(log: seq<Event>, r: nat)
    requires RunStart(log, r, |log|) && log[|log| - 1].GateOpen?
    requires DependenciesMet(log[r].obj.key, log[r].obj.spec, log[|log| - 1].target, log[|log| - 1].additive, log[|log| - 1].answers)
    ensures GatePassed(log, r, |log|, log[|log| - 1].target)
  {
    hide DependenciesMet;
  }

  lemma StillApplied(log: seq<Event>, r: nat, n: nat, revision: string)
    requires n <= |log| && AppliedIn(log[..n], r, n, revision)
    ensures AppliedIn(log, r, |log|, revision)
  {
    var k :| r < k < n && log[..n][k].Applied? && log[..n][k].ok && log[..n][k].revision == revision;
    assert log[k] == log[..n][k];
  }

  lemma StillPassed(log: seq<Event>, r: nat, n: nat, revision: string)
    requires n <= |log| && RunStart(log[..n], r, n) && RunStart(log, r, |log|)
    requires GatePassed(log[..n], r, n, revision)
    ensures GatePassed(log, r, |log|, revision)
  {
    hide DependenciesMet;
    var k :| r < k < n && log[..n][k].GateOpen? && log[..n][k].target == revision
             && DependenciesMet(log[..n][r].obj.key, log[..n][r].obj.spec, revision, log[..n][k].additive, log[..n][k].answers);
    assert log[k] == log[..n][k];
  }

  lemma {:induction false} RunMarks(log: seq<Event>, r: nat)
    requires RunStart(log, r, |log|)
    ensures Replay(log).read == Some(log[r].obj)
    ensures Replay(log).probed ==> Probed(true) in log[r..]
    ensures Replay(log).accountGone ==> AccountGone in log[r..]
  {
    hide SettledIds, Tracked;
    var n := |log| - 1;
    if r < n {
      RunMarks(log[..n], r);
      assert log[r..] == log[..n][r..] + [log[n]];
    }
  }

  lemma {:induction false} RunRevisions(log: seq<Event>, r: nat)
    requires Good(log) && RunStart(log, r, |log|)
    ensures Replay(log).applied.Some? ==> AppliedIn(log, r, |log|, Replay(log).applied.value)
    ensures Replay(log).gate.Some? ==> GatePassed(log, r, |log|, Replay(log).gate.value)
    ensures Replay(log).sourced.Some? ==> SourcedIn(log, r, |log|, Replay(log).sourced.value)
  {
    hide DependenciesMet, AppliedIn, GatePassed, SourcedIn, Writable, Consistent, ReleaseAllowed, Tracked, SettledIds,
         PolicyDeletes, Good;
    var n := |log| - 1;
    if r < n {
      AllowedAt(log, n);
      assert log[..n + 1] == log;
      RunRevisions(log[..n], r);
      RunMarks(log[..n], r);
      var v := Replay(log[..n]);
      match log[n] {
        case GateOpen(target, additive, answers) => GateOpened(log, r);
        case Applied(_, ok, _, _) => if ok { JustApplied(log, r); }
        case Sourced(_, _) => JustSourced(log, r);
        case _ =>
      }
      if v.applied.Some? {
        StillApplied(log, r, n, v.applied.value);
      }
      if v.gate.Some? {
        StillPassed(log, r, n, v.gate.value);
      }
      if v.sourced.Some? {
        StillSourced(log, r, n, v.sourced.value);
      }
    }
  }

  /** What the view says of the run that started at r did happen in it. */
  lemma RunSoFar(log: seq<Event>, r: nat)
    requires Good(log) && RunStart(log, r, |log|)
    ensures Replay(log).read == Some(log[r].obj)
    ensures Replay(log).applied.Some? ==> AppliedIn(log, r, |log|, Replay(log).applied.value)
    ensures Replay(log).gate.Some? ==> GatePassed(log, r, |log|, Replay(log).gate.value)
    ensures Replay(log).sourced.Some? ==> SourcedIn(log, r, |log|, Replay(log).sourced.value)
    ensures Replay(log).probed ==> Probed(true) in log[r..]
    ensures Replay(log).accountGone ==> AccountGone in log[r..]
  {
    hide Good, Replay;
    RunMarks(log, r);
    RunRevisions(log, r);
  }

  /** A status that newly says Ready=True was earned by its own run: it applied the recorded
      revision without an error, and its last word on health, if anything was to be checked, was
      a pass. */
  lemma ReadyIsEarned(log: seq<Event>, i: nat) returns (r: nat)
    requires Good(log) && i < |log| && log[i].Persisted?
    requires IsTrue(log[i].status.report.ready) && !IsTrue(Replay(log[..i]).status.report.ready)
    ensures RunStart(log, r, i) && AppliedIn(log, r, i, log[i].status.report.lastApplied)
    ensures log[r].obj.spec.wait && Replay(log[..i]).checkable ==> Probed(true) in log[r..i]
    ensures !log[r].obj.spec.wait && log[r].obj.spec.healthChecks ==> Probed(true) in log[r..i]
  {
    AllowedAt(log, i);
    r := RunOf(log[..i]);
    RunSoFar(log[..i], r);
    assert log[..i][r..] == log[r..i];
  }

  /** The applied revision only ever moves to one that the same run applied without an error. */
  lemma AppliedRevisionWasApplied(log: seq<Event>, i: nat) returns (r: nat)
    requires Good(log) && i < |log| && log[i].Persisted?
    requires log[i].status.report.lastApplied != Replay(log[..i]).status.report.lastApplied
    ensures RunStart(log, r, i) && AppliedIn(log, r, i, log[i].status.report.lastApplied)
  {
    AllowedAt(log, i);
    r := RunOf(log[..i]);
    RunSoFar(log[..i], r);
  }

  /** No apply without the finalizer on the very object its run read, nor of another revision than
      that of the source's artifact, nor before that run read every dependency and found it ready
      for that revision. */
  lemma ApplyIsGuarded(log: seq<Event>, i: nat) returns (r: nat)
    requires Good(log) && i < |log| && log[i].Applied?
    ensures RunStart(log, r, i)
    ensures log[r].obj.finalizer && !log[r].obj.deleting && !log[r].obj.spec.suspend
    ensures SourcedIn(log, r, i, log[i].revision)
    ensures log[r].obj.spec.dependsOn != [] ==> GatePassed(log, r, i, log[i].revision)
  {
    AllowedAt(log, i);
    r := RunOf(log[..i]);
    RunSoFar(log[..i], r);
  }

  lemma {:induction false} MadeUntil(log: seq<Event>, i: nat)
    requires Good(log) && i < |log| && log[i].Applied? && log[i].ok
    requires forall k :: i < k < |log| ==> !log[k].Read? && !log[k].Applied?
    ensures Replay(log).made == log[i].ids
  {
    hide Good, SettledIds, Tracked;
    var n := |log| - 1;
    if i < n {
      GoodPrefix(log, n);
      MadeUntil(log[..n], i);
    }
  }

  /** Whatever a run applied without an error is tracked by every status it persists afterwards:
      no object is created and then forgotten. */
  lemma AppliedIsTracked(log: seq<Event>, i: nat, j: nat)
    requires Good(log) && i < j < |log| && log[i].Applied? && log[i].ok && log[j].Persisted?
    requires forall k :: i < k < j ==> !log[k].Read? && !log[k].Applied?
    ensures log[i].ids <= Tracked(log[j].status)
  {
    AllowedAt(log, j);
    MadeUntil(log[..j], i);
  }

  /** Every id of every persisted inventory parses and prints back to itself. */
  lemma PersistedIdsParse(log: seq<Event>, i: nat, e: ResourceRef)
    requires Good(log) && i < |log| && log[i].Persisted? && e in Entries(log[i].status)
    ensures Parse(e.id).Ok? && Print(Parse(e.id).value) == e.id
  {
    AllowedAt(log, i);
    PrintOfParse(e.id);
  }

  // ---------------------------------------------------------------- the theorems together

  ghost predicate TrackingIsConserved(log: seq<Event>) {
    forall i, j, id :: 0 <= i < j < |log| && log[i].Persisted? && log[j].Persisted?
                       && id in Tracked(log[i].status) && id !in Tracked(log[j].status) ==>
                         && (SettledBetween(log, i, j, id) || AbandonedBetween(log, i, j, id))
                         && (AlwaysPrunes(log) ==> SettledBetween(log, i, j, id))
  }

  ghost predicate ReleaseIsSettled(log: seq<Event>) {
    forall r, p, i, id :: 0 <= i < p < |log| && log[p].Released? && log[i].Persisted? && id in Tracked(log[i].status)
                          && 0 <= r < p && RunStart(log, r, p) && PolicyDeletes(log[r].obj.spec)
                          && AccountGone !in log[r..p] && AlwaysPrunes(log) ==>
                            SettledBetween(log, i, p, id)
  }

  ghost predicate AppliedStaysTracked(log: seq<Event>) {
    forall i, j :: 0 <= i < j < |log| && log[i].Applied? && log[i].ok && log[j].Persisted?
                   && (forall k :: i < k < j ==> !log[k].Read? && !log[k].Applied?) ==>
                     log[i].ids <= Tracked(log[j].status)
  }

  ghost predicate SnapshotIsSound(log: seq<Event>, i: nat)
    requires i < |log| && log[i].Persisted?
  {
    && (exists r: nat :: RunStart(log, r, i)
                         && (IsTrue(log[i].status.report.ready) ==>
                               ReadyReport(log[i].status.report, log[r].obj.generation)))
    && forall e :: e in Entries(log[i].status) ==> Parse(e.id).Ok? && Print(Parse(e.id).value) == e.id
  }

  ghost predicate ApplyIsSound(log: seq<Event>, i: nat)
    requires i < |log| && log[i].Applied?
  {
    exists r: nat :: RunStart(log, r, i)
                     && log[r].obj.finalizer && !log[r].obj.deleting && !log[r].obj.spec.suspend
                     && SourcedIn(log, r, i, log[i].revision)
                     && (log[r].obj.spec.dependsOn != [] ==> GatePassed(log, r, i, log[i].revision))
  }

  ghost predicate DeletionIsSound(log: seq<Event>, k: nat)
    requires k < |log| && log[k].Deletion?
  {
    && log[k].asked <= Tracked(Replay(log[..k]).status)
    && exists r: nat :: RunStart(log, r, k)
                        && (log[r].obj.spec.prune || (log[r].obj.deleting && PolicyDeletes(log[r].obj.spec)))
  }

  /** What a whole life promises, in terms of what can be observed. */
  ghost predicate Safe(log: seq<Event>) {
    && TrackingIsConserved(log)
    && ReleaseIsSettled(log)
    && AppliedStaysTracked(log)
    && (forall i :: 0 <= i < |log| && log[i].Persisted? ==> SnapshotIsSound(log, i))
    && (forall i :: 0 <= i < |log| && log[i].Applied? ==> ApplyIsSound(log, i))
    && (forall i :: 0 <= i < |log| && log[i].Deletion? ==> DeletionIsSound(log, i))
  }

  lemma SnapshotSound(log: seq<Event>, i: nat)
    requires Good(log) && i < |log| && log[i].Persisted?
    ensures SnapshotIsSound(log, i)
  {
    hide Good, Parse, Entries;
    var r := StatusAtEverySnapshot(log, i);
    forall e | e in Entries(log[i].status)
      ensures Parse(e.id).Ok? && Print(Parse(e.id).value) == e.id
    {
      PersistedIdsParse(log, i, e);
    }
  }

  lemma ApplySound(log: seq<Event>, i: nat)
    requires Good(log) && i < |log| && log[i].Applied?
    ensures ApplyIsSound(log, i)
  {
    hide Good, GatePassed;
    var r := ApplyIsGuarded(log, i);
  }

  lemma DeletionSound(log: seq<Event>, i: nat)
    requires Good(log) && i < |log| && log[i].Deletion?
    ensures DeletionIsSound(log, i)
  {
    hide Good, Replay, Tracked;
    var r := DeletionIsWarranted(log, i);
  }

  /** Good journals are safe. */
  lemma GoodIsSafe(log: seq<Event>)
    requires Good(log)
    ensures Safe(log)
  {
    hide Good, Tracked, SettledBetween, AbandonedBetween, AlwaysPrunes, SnapshotIsSound, ApplyIsSound,
         DeletionIsSound;
    forall i, j, id | 0 <= i < j < |log| && log[i].Persisted? && log[j].Persisted?
                      && id in Tracked(log[i].status) && id !in Tracked(log[j].status)
      ensures SettledBetween(log, i, j, id) || AbandonedBetween(log, i, j, id)
      ensures AlwaysPrunes(log) ==> SettledBetween(log, i, j, id)
    {
      TrackingConservation(log, i, j, id);
    }
    forall r, p, i, id | 0 <= i < p < |log| && log[p].Released? && log[i].Persisted? && id in Tracked(log[i].status)
                         && 0 <= r < p && RunStart(log, r, p) && PolicyDeletes(log[r].obj.spec)
                         && AccountGone !in log[r..p] && AlwaysPrunes(log)
      ensures SettledBetween(log, i, p, id)
    {
      WholeLifeRelease(log, r, p, i, id);
    }
    forall i, j | 0 <= i < j < |log| && log[i].Applied? && log[i].ok && log[j].Persisted?
                  && (forall k :: i < k < j ==> !log[k].Read? && !log[k].Applied?)
      ensures log[i].ids <= Tracked(log[j].status)
    {
      AppliedIsTracked(log, i, j);
    }
    forall i | 0 <= i < |log| && log[i].Persisted?
      ensures SnapshotIsSound(log, i)
    {
      SnapshotSound(log, i);
    }
    forall i | 0 <= i < |log| && log[i].Applied?
      ensures ApplyIsSound(log, i)
    {
      ApplySound(log, i);
    }
    forall i | 0 <= i < |log| && log[i].Deletion?
      ensures DeletionIsSound(log, i)
    {
      DeletionSound(log, i);
    }
  }

  // ---------------------------------------------------------------- a plain run, event by event

  /** What a successful run did. */
  datatype Success = Success(revision: string, origin: string, checkable: bool, collected: Event,
                             inventory: seq<ResourceRef>)

  /** No dependencies to read and no health to check. */
  predicate Plain(spec: Spec) {
    spec.dependsOn == [] && !spec.healthChecks && !spec.wait
  }

  function Progress(r: Report): Report {
    WithReconciling(r.(ready := Condition(Unknown, Progressing)))
  }

  /** The report of a success, before the final patch. */
  function Finished(r: Report, d: Success): Report {
    Progress(r).(ready := Condition(True, ReconciliationSucceeded), healthy := Absent,
                 lastAttempted := d.revision, lastApplied := d.revision, lastAppliedOrigin := d.origin)
  }

  /** What reconcile makes observable when nothing fails and no health is checked. */
  ghost function Applying(st: Status, d: Success): seq<Event> {
    var begun := Progress(st.report);
    var attempted := Persisted(Status(begun.(lastAttempted := d.revision), st.inventory));
    [Persisted(Status(begun, st.inventory)), attempted, attempted, Applied(d.revision, true, d.checkable, Ids(d.inventory)),
     d.collected]
  }

  /** The status that such a run leaves. */
  function Concluded(o: Stored, d: Success): Status {
    Status(Finished(o.status.report, d).(reconciling := Absent, observedGeneration := o.generation), Some(d.inventory))
  }

  /** Everything a plain successful run makes observable. */
  ghost function PlainRun(o: Stored, d: Success): seq<Event> {
    [Read(o), Sourced(d.revision, d.origin)] + Applying(o.status, d) + [Persisted(Concluded(o, d))]
  }

  /** The event that takes these ids out of the inventory: settled, or abandoned if spec.prune
      is false. */
  ghost predicate CollectsIds(prune: bool, stale: set<string>, collected: Event) {
    if prune then
      collected.Deletion? && !collected.failed && collected.asked == stale && stale <= SettledIds(collected.changeSet)
    else collected == Abandoned(stale)
  }

  /** So does what a successful run collected, for the ids that are no longer in the inventory. */
  ghost predicate Collects(prune: bool, st: Status, d: Success) {
    CollectsIds(prune, Tracked(st) - Ids(d.inventory), d.collected)
  }

  /** The journal up to the apply. */
  lemma PlainRunStarts(before: seq<Event>, o: Stored, d: Success)
    requires Good(before) && o.status == Replay(before).status
    requires o.finalizer && !o.deleting && !o.spec.suspend && Plain(o.spec)
    ensures Good(before + PlainRun(o, d)[..6])
    ensures var v := Replay(before + PlainRun(o, d)[..6]);
            && v.owed == Tracked(o.status) && v.read == Some(o)
            && v.applied == Some(d.revision) && v.made == Ids(d.inventory) && v.status.inventory == o.status.inventory
  {
    hide Good, Replay, Tracked, WellFormed, Earned;
    OwedIsTracked(before);
    var es := PlainRun(o, d);
    Extend(before, es[0]);
    Extend(before + [es[0]], es[1]);
    Extend(before + [es[0]] + [es[1]], es[2]);
    TrackedByInventory(o.status, es[2].status);
    Extend(before + [es[0]] + [es[1]] + [es[2]], es[3]);
    TrackedByInventory(o.status, es[3].status);
    Extend(before + [es[0]] + [es[1]] + [es[2]] + [es[3]], es[4]);
    Extend(before + [es[0]] + [es[1]] + [es[2]] + [es[3]] + [es[4]], es[5]);
    assert before + es[..6] == before + [es[0]] + [es[1]] + [es[2]] + [es[3]] + [es[4]] + [es[5]];
  }

  lemma TrackedByInventory(a: Status, b: Status)
    requires a.inventory == b.inventory
    ensures Tracked(a) == Tracked(b) && Entries(a) == Entries(b)
  {
  }

  /** Every such run is allowed. */
  lemma PlainRunIsGood(before: seq<Event>, o: Stored, d: Success)
    requires Good(before) && o.status == Replay(before).status
    requires o.finalizer && !o.deleting && !o.spec.suspend && Plain(o.spec)
    requires WellFormed(d.inventory) && Collects(o.spec.prune, o.status, d)
    ensures Good(before + PlainRun(o, d))
    ensures Replay(before + PlainRun(o, d)).status == Concluded(o, d)
  {
    hide Good, Replay, WellFormed, Ids;
    var es := PlainRun(o, d);
    PlainRunStarts(before, o, d);
    Extend(before + es[..6], es[6]);
    TrackedByInventory(Replay(before + es[..6]).status, o.status);
    Extend(before + es[..6] + [es[6]], es[7]);
    assert before + es == before + es[..6] + [es[6]] + [es[7]];
  }

  /** Without pruning, tracking is not conserved: for any two objects, a life of three runs in
      which the finalizer is added, both are applied, and then only one of them, drops the id of
      the other although nothing is ever deleted. */
  lemma PruneIsNeeded(o: Stored, kept: ObjMetadata, dropped: ObjMetadata) returns (log: seq<Event>, i: nat, j: nat)
    requires Printable(kept) && Printable(dropped) && kept != dropped
    requires !o.finalizer && !o.deleting && !o.spec.suspend && Plain(o.spec) && !o.spec.prune && o.status == NewStatus
    ensures Good(log) && i < j < |log| && log[i].Persisted? && log[j].Persisted?
    ensures Print(dropped) in Tracked(log[i].status) && Print(dropped) !in Tracked(log[j].status)
    ensures forall k :: 0 <= k < |log| ==> !log[k].Deletion?
    ensures exists o1: Stored, d1, o2: Stored, d2 ::
              && Collects(false, o1.status, d1) && Collects(false, o2.status, d2)
              && log == [Read(o), FinalizerSet, Persisted(NewStatus)] + PlainRun(o1, d1) + PlainRun(o2, d2)
  {
    hide Good, Replay, Print, Parse, SettledIds, Progress, Finished;
    ParseOfPrint(kept);
    ParseOfPrint(dropped);
    var one := [ResourceRef(Print(kept), "v1")];
    var both := one + [ResourceRef(Print(dropped), "v1")];
    assert Ids(one) == {Print(kept)} && Ids(both) == {Print(kept), Print(dropped)};
    var before := [Read(o), FinalizerSet, Persisted(NewStatus)];
    FirstRun(o);
    var o1 := o.(finalizer := true);
    var d1 := Success("r1", "", true, Abandoned({}), both);
    assert Collects(false, o1.status, d1);
    PlainRunIsGood(before, o1, d1);
    var o2 := o1.(status := Concluded(o1, d1));
    var d2 := Success("r2", "", true, Abandoned({Print(dropped)}), one);
    assert Collects(false, o2.status, d2);
    PlainRunIsGood(before + PlainRun(o1, d1), o2, d2);
    log := before + PlainRun(o1, d1) + PlainRun(o2, d2);
    i, j := 10, 18;
  }

  /** The run that only adds the finalizer. */
  lemma FirstRun(o: Stored)
    requires o.status == NewStatus && !o.finalizer && !o.deleting
    ensures var log := [Read(o), FinalizerSet, Persisted(NewStatus)];
            Good(log) && Replay(log).status == NewStatus
  {
    EmptyJournal();
    Extend([], Read(o));
    Extend([] + [Read(o)], FinalizerSet);
    Extend([] + [Read(o)] + [FinalizerSet], Persisted(NewStatus));
    assert [Read(o), FinalizerSet, Persisted(NewStatus)] == [] + [Read(o)] + [FinalizerSet] + [Persisted(NewStatus)];
  }
}
