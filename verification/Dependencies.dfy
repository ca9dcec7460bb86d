/** checkDependencies, and any number of Kustomizations going through it concurrently.
    Specs are fixed; sources move, runs interleave, fail and crash as they like, and each
    dependency is read in a step of its own. */
module Dependencies {
  import opened SourceRefs

  datatype DependencyRef = DependencyRef(namespace: string, name: string, readyExpr: bool)

  datatype Spec = Spec(generation: int, source: SourceRef, dependsOn: seq<DependencyRef>)

  /** The part of status the gate looks at. */
  datatype Status = Status(conditions: bool, ready: bool, observedGeneration: int, lastApplied: string)

  datatype Dependency = Dependency(key: Key, spec: Spec, status: Status)

  /** What one read of a dependency brings, and what the CEL expression then says. */
  datatype Answer = NotFound | Found(dep: Dependency, eval: Eval)
  datatype Eval = Holds | DoesNotHold | EvalFailed(terminal: bool)

  datatype Gate = Open | Closed(first: nat) | Terminal(first: nat)

  // ------------------------------------------------------------ one check

  function DependencyKey(owner: Key, ref: DependencyRef): (k: Key)
    ensures k.name == ref.name
    ensures ref.namespace == "" ==> k.namespace == owner.namespace
    ensures ref.namespace != "" ==> k.namespace == ref.namespace
  {
    Key(if ref.namespace == "" then owner.namespace else ref.namespace, ref.name)
  }

  /** The built-in readiness check applies unless a CEL expression replaces it. */
  predicate BuiltIn(ref: DependencyRef, additive: bool) {
    !ref.readyExpr || additive
  }

  /** What the documentation of checkDependencies asks of one dependency. */
  ghost predicate Meets(owner: Key, source: SourceRef, revision: string, ref: DependencyRef, additive: bool, a: Answer) {
    && a.Found?
    && (ref.readyExpr ==> a.eval == Holds)
    && (BuiltIn(ref, additive) ==>
          && a.dep.status.conditions
          && a.dep.spec.generation == a.dep.status.observedGeneration
          && a.dep.status.ready
          && (Resolve(a.dep.key, a.dep.spec.source) == Resolve(owner, source) ==> a.dep.status.lastApplied == revision))
  }

  /** Same kind, name and namespace, the namespace defaulting to that of the Kustomization. */
  ghost predicate SameSource(a: Key, x: SourceRef, b: Key, y: SourceRef) {
    && x.kind == y.kind && x.name == y.name
    && (if x.namespace == "" then a.namespace else x.namespace) == (if y.namespace == "" then b.namespace else y.namespace)
  }

  /** The reasons for which a dependency holds the gate closed, one by one; an expression takes the
      place of the built-in check unless both are asked for. */
  lemma MeetsUnless(owner: Key, source: SourceRef, revision: string, ref: DependencyRef, additive: bool, a: Answer)
    ensures !Meets(owner, source, revision, ref, additive, a) <==>
            || a.NotFound?
            || (ref.readyExpr && a.eval.DoesNotHold?)
            || (ref.readyExpr && a.eval.EvalFailed?)
            || ((!ref.readyExpr || additive) && !a.dep.status.conditions)
            || ((!ref.readyExpr || additive) && a.dep.status.observedGeneration != a.dep.spec.generation)
            || ((!ref.readyExpr || additive) && !a.dep.status.ready)
            || ((!ref.readyExpr || additive) && SameSource(a.dep.key, a.dep.spec.source, owner, source)
                && a.dep.status.lastApplied != revision)
  {
  }

  /** The loop over spec.dependsOn.  answers[i] is whatever the i-th read returns at its moment. */
  method CheckDependencies(owner: Key, spec: Spec, revision: string, additive: bool, answers: seq<Answer>)
    returns (gate: Gate)
    requires |answers| == |spec.dependsOn|
    ensures gate.Open? <==>
              forall i :: 0 <= i < |answers| ==>
                Meets(owner, spec.source, revision, spec.dependsOn[i], additive, answers[i])
    ensures !gate.Open? ==>
              && gate.first < |answers|
              && !Meets(owner, spec.source, revision, spec.dependsOn[gate.first], additive, answers[gate.first])
              && forall i :: 0 <= i < gate.first ==>
                   Meets(owner, spec.source, revision, spec.dependsOn[i], additive, answers[i])
    ensures !gate.Open? ==> (gate.Terminal? <==> spec.dependsOn[gate.first].readyExpr && answers[gate.first].Found?
                                                 && answers[gate.first].eval == EvalFailed(true))
  {
    for i := 0 to |spec.dependsOn|
      invariant forall j :: 0 <= j < i ==>
                  Meets(owner, spec.source, revision, spec.dependsOn[j], additive, answers[j])
    {
      var ref := spec.dependsOn[i];
      if answers[i].NotFound? {
        return Closed(i);
      }
      var dep := answers[i].dep;
      if ref.readyExpr {
        if answers[i].eval.EvalFailed? {
          return if answers[i].eval.terminal then Terminal(i) else Closed(i);
        }
        if answers[i].eval == DoesNotHold {
          return Closed(i);
        }
      }
      if ref.readyExpr && !additive {
        continue;
      }
      if !dep.status.conditions || dep.spec.generation != dep.status.observedGeneration {
        return Closed(i);
      }
      if !dep.status.ready {
        return Closed(i);
      }
      var srcNamespace := dep.spec.source.namespace;
      if srcNamespace == "" {
        srcNamespace := dep.key.namespace;
      }
      var depSrcNamespace := spec.source.namespace;
      if depSrcNamespace == "" {
        depSrcNamespace := owner.namespace;
      }
      if dep.spec.source.name == spec.source.name && srcNamespace == depSrcNamespace
         && dep.spec.source.kind == spec.source.kind && dep.status.lastApplied != revision
      {
        return Closed(i);
      }
    }
    return Open;
  }

  // ------------------------------------------------------------ the transition system

  datatype Phase =
    | Idle
    | Checking(revision: string, next: nat)   // the next dependency to read
    | Reconciling(revision: string)

  datatype Success = Success(key: Key, revision: string)

  /** The fixed part: every Kustomization's spec, and the feature gate. */
  datatype World = World(specs: map<Key, Spec>, additive: bool)

  datatype State = State(phase: map<Key, Phase>, status: map<Key, Status>,
                         artifacts: map<SourceId, string>, history: seq<Success>)

  datatype Step =
    | SourceMoves(source: SourceId, revision: string)
    | SourceGone(source: SourceId)
    | Start(k: Key)
    | ReadNext(k: Key, answer: Answer, reported: bool)
    | Proceed(k: Key)
    | Succeed(k: Key)
    | Abort(k: Key, reported: bool)     // a failure, or a crash when nothing is reported
    | Touch(k: Key)                     // a run that only refreshes the observed generation

  const NoStatus := Status(false, false, -1, "")

  ghost predicate Init(w: World, s: State) {
    && s.phase.Keys == s.status.Keys == w.specs.Keys
    && (forall k :: k in s.phase ==> s.phase[k] == Idle && s.status[k] == NoStatus)
    && s.history == []
  }

  /** What reading ref now returns: the current object, if it exists, and any verdict of CEL. */
  ghost predicate IsRead(w: World, s: State, owner: Key, ref: DependencyRef, a: Answer)
    requires s.status.Keys == w.specs.Keys
  {
    var d := DependencyKey(owner, ref);
    if d in w.specs then a.Found? && a.dep == Dependency(d, w.specs[d], s.status[d]) else a == NotFound
  }

  /** Ready is False, and there are conditions, once a run has reported anything else. */
  function NotReady(st: Status): Status {
    st.(conditions := true, ready := false)
  }

  ghost predicate Next(w: World, s: State, step: Step, s': State) {
    && s.phase.Keys == s.status.Keys == w.specs.Keys
    && match step
    case SourceMoves(src, r) => s' == s.(artifacts := s.artifacts[src := r])
    case SourceGone(src) => s' == s.(artifacts := s.artifacts - {src})
    case Start(k) =>
      && k in w.specs && s.phase[k].Idle?
      && var src := Resolve(k, w.specs[k].source);
      && src in s.artifacts
      && s' == s.(phase := s.phase[k := Checking(s.artifacts[src], 0)])
    case ReadNext(k, a, reported) =>
      && k in w.specs && s.phase[k].Checking?
      && var i, r := s.phase[k].next, s.phase[k].revision;
      && i < |w.specs[k].dependsOn|
      && var ref := w.specs[k].dependsOn[i];
      && IsRead(w, s, k, ref, a)
      && if Meets(k, w.specs[k].source, r, ref, w.additive, a) then
           s' == s.(phase := s.phase[k := Checking(r, i + 1)])
         else
           s' == s.(phase := s.phase[k := Idle],
                    status := if reported then s.status[k := NotReady(s.status[k])] else s.status)
    case Proceed(k) =>
      && k in w.specs && s.phase[k].Checking? && s.phase[k].next == |w.specs[k].dependsOn|
      && s' == s.(phase := s.phase[k := Reconciling(s.phase[k].revision)],
                  status := s.status[k := NotReady(s.status[k])])
    case Succeed(k) =>
      && k in w.specs && s.phase[k].Reconciling?
      && var r := s.phase[k].revision;
         s' == s.(phase := s.phase[k := Idle],
                  status := s.status[k := Status(true, true, w.specs[k].generation, r)],
                  history := s.history + [Success(k, r)])
    case Abort(k, reported) =>
      && k in w.specs
      && s' == s.(phase := s.phase[k := Idle],
                  status := if reported then s.status[k := NotReady(s.status[k])] else s.status)
    case Touch(k) =>
      && k in w.specs && s.phase[k].Idle? && s.status[k].ready
      && s' == s.(status := s.status[k := s.status[k].(observedGeneration := w.specs[k].generation)])
  }

  ghost predicate Behavior(w: World, trace: seq<State>, steps: seq<Step>) {
    && |trace| == |steps| + 1
    && Init(w, trace[0])
    && forall i :: 0 <= i < |steps| ==> Next(w, trace[i], steps[i], trace[i + 1])
  }

  // ------------------------------------------------------------ what every step keeps

  ghost predicate SucceededBefore(h: seq<Success>, n: nat, k: Key, r: string)
    requires n <= |h|
  {
    exists q :: 0 <= q < n && h[q] == Success(k, r)
  }

  /** k depends on d through the built-in check, and both use the same source. */
  ghost predicate Edge(w: World, k: Key, i: nat, d: Key) {
    && k in w.specs && d in w.specs && i < |w.specs[k].dependsOn|
    && DependencyKey(k, w.specs[k].dependsOn[i]) == d
    && BuiltIn(w.specs[k].dependsOn[i], w.additive)
    && Resolve(d, w.specs[d].source) == Resolve(k, w.specs[k].source)
  }

  /** The first n dependencies of k have succeeded on r. */
  ghost predicate Cleared(w: World, h: seq<Success>, k: Key, n: nat, r: string) {
    forall i: nat, d :: i < n && Edge(w, k, i, d) ==> SucceededBefore(h, |h|, d, r)
  }

  ghost predicate StatusBacked(h: seq<Success>, k: Key, st: Status) {
    && (st.ready ==> SucceededBefore(h, |h|, k, st.lastApplied))
    && (st.lastApplied == "" || SucceededBefore(h, |h|, k, st.lastApplied))
  }

  ghost predicate PhaseBacked(w: World, h: seq<Success>, k: Key, p: Phase)
    requires k in w.specs
  {
    match p
    case Idle => true
    case Checking(r, n) => Cleared(w, h, k, n, r)
    case Reconciling(r) => Cleared(w, h, k, |w.specs[k].dependsOn|, r)
  }

  /** Each success on a revision comes after successes on it by the direct dependencies. */
  ghost predicate Ordered(w: World, h: seq<Success>) {
    forall p, i: nat, d :: 0 <= p < |h| && Edge(w, h[p].key, i, d) ==> SucceededBefore(h, p, d, h[p].revision)
  }

  ghost predicate Inv(w: World, s: State) {
    && s.phase.Keys == s.status.Keys == w.specs.Keys
    && Ordered(w, s.history)
    && (forall k :: k in w.specs ==> StatusBacked(s.history, k, s.status[k]) && PhaseBacked(w, s.history, k, s.phase[k]))
  }

  lemma HistoryGrows(w: World, h: seq<Success>, e: Success)
    ensures forall k, r :: SucceededBefore(h, |h|, k, r) ==> SucceededBefore(h + [e], |h + [e]|, k, r)
    ensures SucceededBefore(h + [e], |h + [e]|, e.key, e.revision)
    ensures Ordered(w, h) && Cleared(w, h, e.key, if e.key in w.specs then |w.specs[e.key].dependsOn| else 0, e.revision)
            ==> Ordered(w, h + [e])
  {
    var h' := h + [e];
    forall k, r | SucceededBefore(h, |h|, k, r)
      ensures SucceededBefore(h', |h'|, k, r)
    {
      var q :| 0 <= q < |h| && h[q] == Success(k, r);
      assert h'[q] == h[q];
    }
    assert h'[|h|] == e;
    if Ordered(w, h) && Cleared(w, h, e.key, if e.key in w.specs then |w.specs[e.key].dependsOn| else 0, e.revision) {
      forall p, i: nat, d | 0 <= p < |h'| && Edge(w, h'[p].key, i, d)
        ensures SucceededBefore(h', p, d, h'[p].revision)
      {
        if p < |h| {
          assert h'[p] == h[p] && SucceededBefore(h, p, d, h[p].revision);
          var q :| 0 <= q < p && h[q] == Success(d, h[p].revision);
          assert h'[q] == h[q];
        } else {
          assert SucceededBefore(h, |h|, d, e.revision);
          var q :| 0 <= q < |h| && h[q] == Success(d, e.revision);
          assert h'[q] == h[q];
        }
      }
    }
  }

  /** A dependency that meets the built-in check at the moment it is read has succeeded on r. */
  lemma ReadClears(w: World, s: State, k: Key, i: nat, r: string, a: Answer)
    requires Inv(w, s) && k in w.specs && i < |w.specs[k].dependsOn|
    requires Cleared(w, s.history, k, i, r)
    requires IsRead(w, s, k, w.specs[k].dependsOn[i], a)
    requires Meets(k, w.specs[k].source, r, w.specs[k].dependsOn[i], w.additive, a)
    ensures Cleared(w, s.history, k, i + 1, r)
  {
    forall j: nat, d | j < i + 1 && Edge(w, k, j, d)
      ensures SucceededBefore(s.history, |s.history|, d, r)
    {
      if j == i {
        assert a.dep == Dependency(d, w.specs[d], s.status[d]);
        assert StatusBacked(s.history, d, s.status[d]);
      }
    }
  }

  /** A step that touches one Kustomization and records no success. */
  lemma LocalStepKeepsInv(w: World, s: State, s': State, k: Key)
    requires Inv(w, s) && k in w.specs
    requires s'.history == s.history && s'.phase.Keys == s'.status.Keys == w.specs.Keys
    requires forall j :: j in w.specs && j != k ==> s'.status[j] == s.status[j] && s'.phase[j] == s.phase[j]
    requires StatusBacked(s.history, k, s'.status[k]) && PhaseBacked(w, s.history, k, s'.phase[k])
    ensures Inv(w, s')
  {
  }

  lemma SuccessKeepsInv(w: World, s: State, s': State, k: Key)
    requires Inv(w, s) && Next(w, s, Succeed(k), s')
    ensures Inv(w, s')
  {
    HistoryGrows(w, s.history, Success(k, s.phase[k].revision));
    forall j | j in w.specs
      ensures StatusBacked(s'.history, j, s'.status[j]) && PhaseBacked(w, s'.history, j, s'.phase[j])
    {
      assert StatusBacked(s.history, j, s.status[j]) && PhaseBacked(w, s.history, j, s.phase[j]);
    }
  }

  lemma ReadKeepsInv(w: World, s: State, s': State, k: Key, a: Answer, reported: bool)
    requires Inv(w, s) && Next(w, s, ReadNext(k, a, reported), s')
    ensures Inv(w, s')
  {
    var i, r := s.phase[k].next, s.phase[k].revision;
    if Meets(k, w.specs[k].source, r, w.specs[k].dependsOn[i], w.additive, a) {
      ReadClears(w, s, k, i, r, a);
    }
    assert StatusBacked(s.history, k, s.status[k]);
    LocalStepKeepsInv(w, s, s', k);
  }

  lemma SourceStepKeepsInv(w: World, s: State, step: Step, s': State)
    requires Inv(w, s) && Next(w, s, step, s') && (step.SourceMoves? || step.SourceGone?)
    ensures Inv(w, s')
  {
    hide Ordered, StatusBacked, PhaseBacked;
  }

  lemma StartKeepsInv(w: World, s: State, s': State, k: Key)
    requires Inv(w, s) && Next(w, s, Start(k), s')
    ensures Inv(w, s')
  {
    hide Ordered;
    assert StatusBacked(s.history, k, s.status[k]);
    LocalStepKeepsInv(w, s, s', k);
  }

  lemma ProceedKeepsInv(w: World, s: State, s': State, k: Key)
    requires Inv(w, s) && Next(w, s, Proceed(k), s')
    ensures Inv(w, s')
  {
    hide Ordered;
    assert StatusBacked(s.history, k, s.status[k]) && PhaseBacked(w, s.history, k, s.phase[k]);
    LocalStepKeepsInv(w, s, s', k);
  }

  lemma ReportKeepsInv(w: World, s: State, step: Step, s': State)
    requires Inv(w, s) && Next(w, s, step, s') && (step.Abort? || step.Touch?)
    ensures Inv(w, s')
  {
    hide Ordered;
    assert StatusBacked(s.history, step.k, s.status[step.k]) && PhaseBacked(w, s.history, step.k, s.phase[step.k]);
    LocalStepKeepsInv(w, s, s', step.k);
  }

  lemma StepKeepsInv(w: World, s: State, step: Step, s': State)
    requires Inv(w, s) && Next(w, s, step, s')
    ensures Inv(w, s')
  {
    hide Next, Inv;
    match step {
      case SourceMoves(_, _) => SourceStepKeepsInv(w, s, step, s');
      case SourceGone(_) => SourceStepKeepsInv(w, s, step, s');
      case Start(k) => StartKeepsInv(w, s, s', k);
      case ReadNext(k, a, reported) => ReadKeepsInv(w, s, s', k, a, reported);
      case Proceed(k) => ProceedKeepsInv(w, s, s', k);
      case Succeed(k) => SuccessKeepsInv(w, s, s', k);
      case Abort(_, _) => ReportKeepsInv(w, s, step, s');
      case Touch(_) => ReportKeepsInv(w, s, step, s');
    }
  }

  lemma {:induction false} InvAlways(w: World, trace: seq<State>, steps: seq<Step>, n: nat)
    requires Behavior(w, trace, steps) && n < |trace|
    ensures Inv(w, trace[n])
  {
    if n > 0 {
      InvAlways(w, trace, steps, n - 1);
      StepKeepsInv(w, trace[n - 1], steps[n - 1], trace[n]);
    }
  }

  // ------------------------------------------------------------ the gate lets through

  /** Steps from a state to another, in any company. */
  ghost predicate Leads(w: World, trace: seq<State>, steps: seq<Step>, s: State, s': State) {
    && |trace| == |steps| + 1 && trace[0] == s && trace[|steps|] == s'
    && forall i :: 0 <= i < |steps| ==> Next(w, trace[i], steps[i], trace[i + 1])
  }

  lemma LeadsOn(w: World, trace: seq<State>, steps: seq<Step>, s: State, mid: State, step: Step, s': State)
    requires Leads(w, trace, steps, s, mid) && Next(w, mid, step, s')
    ensures Leads(w, trace + [s'], steps + [step], s, s')
  {
    hide Next;
  }

  lemma ReadStep(w: World, s: State, k: Key, r: string, i: nat, a: Answer, s': State)
    requires s.phase.Keys == s.status.Keys == w.specs.Keys && k in w.specs && s.phase[k] == Checking(r, i)
    requires i < |w.specs[k].dependsOn| && IsRead(w, s, k, w.specs[k].dependsOn[i], a)
    requires Meets(k, w.specs[k].source, r, w.specs[k].dependsOn[i], w.additive, a)
    requires s' == s.(phase := s.phase[k := Checking(r, i + 1)])
    ensures Next(w, s, ReadNext(k, a, false), s')
  {
    hide Meets, IsRead;
  }

  /** Reading n dependencies that all meet their criteria. */
  lemma {:induction false} ReadsLead(w: World, s: State, k: Key, r: string, answers: seq<Answer>, n: nat,
                                     trace0: seq<State>, steps0: seq<Step>, s0: State)
    returns (trace: seq<State>, steps: seq<Step>, s': State)
    requires s.phase.Keys == s.status.Keys == w.specs.Keys && k in w.specs && s.phase[k] == Checking(r, 0)
    requires n <= |answers| == |w.specs[k].dependsOn| && Leads(w, trace0, steps0, s0, s)
    requires forall i :: 0 <= i < |answers| ==>
               && IsRead(w, s, k, w.specs[k].dependsOn[i], answers[i])
               && Meets(k, w.specs[k].source, r, w.specs[k].dependsOn[i], w.additive, answers[i])
    ensures Leads(w, trace, steps, s0, s') && s' == s.(phase := s.phase[k := Checking(r, n)])
  {
    hide Meets, Next, Leads;
    if n == 0 {
      trace, steps, s' := trace0, steps0, s;
      assert s.phase == s.phase[k := Checking(r, 0)];
    } else {
      var mid;
      trace, steps, mid := ReadsLead(w, s, k, r, answers, n - 1, trace0, steps0, s0);
      s' := mid.(phase := mid.phase[k := Checking(r, n)]);
      var a := answers[n - 1];
      assert IsRead(w, s, k, w.specs[k].dependsOn[n - 1], a);
      ReadStep(w, mid, k, r, n - 1, a, s');
      LeadsOn(w, trace, steps, s0, mid, ReadNext(k, a, false), s');
      trace, steps := trace + [s'], steps + [ReadNext(k, a, false)];
      assert s'.phase == s.phase[k := Checking(r, n)];
    }
  }

  lemma StartStep(w: World, s: State, k: Key, s': State)
    requires s.phase.Keys == s.status.Keys == w.specs.Keys && k in w.specs && s.phase[k].Idle?
    requires Resolve(k, w.specs[k].source) in s.artifacts
    requires s' == s.(phase := s.phase[k := Checking(s.artifacts[Resolve(k, w.specs[k].source)], 0)])
    ensures Next(w, s, Start(k), s') && Leads(w, [s, s'], [Start(k)], s, s')
  {
  }

  /** From an open gate to success. */
  lemma FinishSteps(w: World, s: State, k: Key, r: string, trace0: seq<State>, steps0: seq<Step>, s0: State)
    returns (trace: seq<State>, steps: seq<Step>, s': State)
    requires s.phase.Keys == s.status.Keys == w.specs.Keys && k in w.specs
    requires s.phase[k] == Checking(r, |w.specs[k].dependsOn|) && Leads(w, trace0, steps0, s0, s)
    ensures Leads(w, trace, steps, s0, s') && s'.history == s.history + [Success(k, r)]
    ensures k in s'.status && s'.status[k] == Status(true, true, w.specs[k].generation, r)
  {
    hide Leads;
    var going := s.(phase := s.phase[k := Reconciling(r)], status := s.status[k := NotReady(s.status[k])]);
    LeadsOn(w, trace0, steps0, s0, s, Proceed(k), going);
    s' := going.(phase := going.phase[k := Idle],
                 status := going.status[k := Status(true, true, w.specs[k].generation, r)],
                 history := going.history + [Success(k, r)]);
    LeadsOn(w, trace0 + [going], steps0 + [Proceed(k)], s0, going, Succeed(k), s');
    trace, steps := trace0 + [going] + [s'], steps0 + [Proceed(k)] + [Succeed(k)];
  }

  /** The gate is no stricter than it says: when the source has an artifact and every dependency
      meets its criteria as it stands, a run can go through and record the revision. */
  lemma GateLetsThrough(w: World, s: State, k: Key, answers: seq<Answer>)
    returns (trace: seq<State>, steps: seq<Step>, s': State)
    requires s.phase.Keys == s.status.Keys == w.specs.Keys && k in w.specs && s.phase[k].Idle?
    requires Resolve(k, w.specs[k].source) in s.artifacts && |answers| == |w.specs[k].dependsOn|
    requires forall i :: 0 <= i < |answers| ==>
               && IsRead(w, s, k, w.specs[k].dependsOn[i], answers[i])
               && Meets(k, w.specs[k].source, s.artifacts[Resolve(k, w.specs[k].source)], w.specs[k].dependsOn[i],
                        w.additive, answers[i])
    ensures Leads(w, trace, steps, s, s')
    ensures s'.history == s.history + [Success(k, s.artifacts[Resolve(k, w.specs[k].source)])]
    ensures k in s'.status && s'.status[k].ready && s'.status[k].lastApplied == s.artifacts[Resolve(k, w.specs[k].source)]
  {
    hide Meets, Next, Leads;
    var r := s.artifacts[Resolve(k, w.specs[k].source)];
    var started := s.(phase := s.phase[k := Checking(r, 0)]);
    StartStep(w, s, k, started);
    forall i | 0 <= i < |answers|
      ensures IsRead(w, started, k, w.specs[k].dependsOn[i], answers[i])
    {
      assert IsRead(w, s, k, w.specs[k].dependsOn[i], answers[i]);
    }
    var checked;
    trace, steps, checked := ReadsLead(w, started, k, r, answers, |answers|, [s, started], [Start(k)], s);
    trace, steps, s' := FinishSteps(w, checked, k, r, trace, steps, s);
  }

  // ------------------------------------------------------------ theorems

  ghost predicate DependsOn(w: World, k: Key, d: Key) {
    exists i: nat :: Edge(w, k, i, d)
  }

  /** A chain of same-source, built-in-checked edges. */
  ghost predicate Chain(w: World, path: seq<Key>) {
    && |path| >= 2
    && DependsOn(w, path[0], path[1])
    && (|path| == 2 || Chain(w, path[1..]))
  }

  lemma {:induction false} ChainOrdered(w: World, h: seq<Success>, path: seq<Key>, p: nat)
    requires Ordered(w, h) && Chain(w, path)
    requires p < |h| && h[p].key == path[0]
    ensures SucceededBefore(h, p, path[|path| - 1], h[p].revision)
    decreases |path|
  {
    var i: nat :| Edge(w, path[0], i, path[1]);
    assert SucceededBefore(h, p, path[1], h[p].revision);
    if |path| > 2 {
      var q :| 0 <= q < p && h[q] == Success(path[1], h[p].revision);
      ChainOrdered(w, h, path[1..], q);
    }
  }

  /** Dependency order: in every interleaving, every success on a revision, the first one
      included, strictly follows a success on it by each transitive dependency. */
  lemma DependencyOrder(w: World, trace: seq<State>, steps: seq<Step>, n: nat, path: seq<Key>, p: nat)
    requires Behavior(w, trace, steps) && n < |trace| && Chain(w, path)
    requires p < |trace[n].history| && trace[n].history[p].key == path[0]
    ensures SucceededBefore(trace[n].history, p, path[|path| - 1], trace[n].history[p].revision)
  {
    InvAlways(w, trace, steps, n);
    ChainOrdered(w, trace[n].history, path, p);
  }

  lemma {:induction false} CycleHasNoSuccess(w: World, h: seq<Success>, path: seq<Key>, p: nat)
    requires Ordered(w, h) && Chain(w, path) && path[0] == path[|path| - 1]
    requires p < |h|
    ensures h[p].key != path[0]
  {
    if h[p].key == path[0] {
      ChainOrdered(w, h, path, p);
      var q :| 0 <= q < p && h[q] == Success(path[0], h[p].revision);
      CycleHasNoSuccess(w, h, path, q);
    }
  }

  /** A Kustomization on a cycle, a self-loop included, never records an applied revision. */
  lemma CycleNeverApplies(w: World, trace: seq<State>, steps: seq<Step>, n: nat, path: seq<Key>)
    requires Behavior(w, trace, steps) && n < |trace|
    requires Chain(w, path) && path[0] == path[|path| - 1]
    ensures path[0] in trace[n].status && trace[n].status[path[0]].lastApplied == ""
    ensures !trace[n].status[path[0]].ready
    ensures forall p :: 0 <= p < |trace[n].history| ==> trace[n].history[p].key != path[0]
  {
    InvAlways(w, trace, steps, n);
    forall p | 0 <= p < |trace[n].history|
      ensures trace[n].history[p].key != path[0]
    {
      CycleHasNoSuccess(w, trace[n].history, path, p);
    }
    assert StatusBacked(trace[n].history, path[0], trace[n].status[path[0]]);
  }
}
