/** cacheVaultTokens, the lazy login-path map and loadVaultLoginPaths of
    internal/decryptor/transit_engine.go, with any number of callers. */
module VaultTokens {
  import opened Text

  // ------------------------------------------------------------ building the login paths

  datatype Instance = Instance(address: string, loginPath: string)

  /** Each address has the path of its last instance, and there are no others. */
  ghost predicate PathsOf(instances: seq<Instance>, paths: map<string, string>) {
    && (forall i :: 0 <= i < |instances| && (forall j :: i < j < |instances| ==> instances[j].address != instances[i].address)
          ==> instances[i].address in paths && paths[instances[i].address] == instances[i].loginPath)
    && (forall a :: a in paths ==> exists i :: 0 <= i < |instances| && instances[i].address == a)
  }

  method LoadVaultLoginPaths(instances: seq<Instance>) returns (paths: map<string, string>)
    ensures PathsOf(instances, paths)
  {
    paths := map[];
    for i := 0 to |instances|
      invariant forall a :: a in paths ==> exists j :: 0 <= j < i && instances[j].address == a
      invariant forall j :: 0 <= j < i && (forall k :: j < k < i ==> instances[k].address != instances[j].address)
                  ==> instances[j].address in paths && paths[instances[j].address] == instances[j].loginPath
    {
      ghost var before := paths;
      paths := paths[instances[i].address := instances[i].loginPath];
      forall j | 0 <= j < i + 1 && (forall k :: j < k < i + 1 ==> instances[k].address != instances[j].address)
        ensures instances[j].address in paths && paths[instances[j].address] == instances[j].loginPath
      {
        if j < i {
          assert forall k :: j < k < i ==> instances[k].address != instances[j].address;
          assert instances[i].address != instances[j].address;
        }
      }
    }
  }

  // ------------------------------------------------------------ the critical section

  datatype Event =
    | LoadFailed
    | Loaded(instances: seq<Instance>, paths: map<string, string>)
    | Fetched(address: string, path: string, token: string)   // a login that succeeded
    | LoginFailed(address: string, path: string)
    | Returned(address: string, result: Result<string>)       // what a caller got

  /** The address is on the allowlist: it has a login path. */
  predicate Configured(paths: map<string, string>, address: string) {
    address in paths && paths[address] != ""
  }

  function LoginEvent(address: string, path: string, r: Result<string>): Event {
    if r.Ok? then Fetched(address, path, r.value) else LoginFailed(address, path)
  }

  /** The closure's state.  Token runs with the mutex held. */
  class TokenCache {
    var tokens: map<string, string>
    var loginPaths: Option<map<string, string>>
    ghost var log: seq<Event>

    constructor ()
      ensures Agrees(tokens, loginPaths, log)
    {
      tokens, loginPaths, log := map[], None, [];
    }

    method Token(address: string) returns (r: Result<string>)
      requires Agrees(tokens, loginPaths, log)
      modifies this
      ensures Agrees(tokens, loginPaths, log) && old(log) <= log
      ensures r.Ok? ==> tokens == old(tokens)[address := r.value]
      ensures r.Err? ==> tokens == old(tokens) && address !in tokens
      ensures address in old(tokens) ==> r == Ok(old(tokens)[address]) && loginPaths == old(loginPaths)
      ensures address in old(tokens) ==> log == old(log) + [Returned(address, r)]
      ensures address !in old(tokens) && r.Ok? ==> loginPaths.Some? && Configured(loginPaths.value, address)
      ensures address !in old(tokens) && loginPaths.Some? && Configured(loginPaths.value, address) ==>
                |log| >= |old(log)| + 2 && log[|log| - 2] == LoginEvent(address, loginPaths.value[address], r)
      ensures address !in old(tokens) && loginPaths.None? ==> log == old(log) + [LoadFailed, Returned(address, r)]
      ensures old(loginPaths).Some? ==> loginPaths == old(loginPaths)
      ensures log != [] && log[|log| - 1] == Returned(address, r)
    {
      hide Agrees;
      if address in tokens {
        r := Ok(tokens[address]);
        Append(tokens, loginPaths, log, Returned(address, r));
        log := log + [Returned(address, r)];
        assert tokens == tokens[address := r.value];
        return;
      }
      r := Fetch(address);
      if r.Ok? {
        tokens := tokens[address := r.value];
      }
      Append(tokens, loginPaths, log, Returned(address, r));
      log := log + [Returned(address, r)];
    }

    /** The fetch of newConfigMapVaultAuthFunc: lazy load, allowlist, then login.  It logs in
        exactly when the address is configured, under its own path, and fails only if the load
        or the login does or the address is not configured. */
    method Fetch(address: string) returns (r: Result<string>)
      requires Agrees(tokens, loginPaths, log) && address !in tokens
      modifies this`loginPaths, this`log
      ensures old(log) <= log && (old(loginPaths).Some? ==> loginPaths == old(loginPaths))
      ensures r.Err? ==> Agrees(tokens, loginPaths, log) && Explained(log, address)
      ensures r.Ok? ==> Agrees(tokens[address := r.value], loginPaths, log)
      ensures loginPaths.None? ==> r.Err? && log == old(log) + [LoadFailed]
      ensures loginPaths.Some? && !Configured(loginPaths.value, address) ==> r.Err?
      ensures loginPaths.Some? && Configured(loginPaths.value, address) ==>
                |log| > |old(log)| && log[|log| - 1] == LoginEvent(address, loginPaths.value[address], r)
      ensures old(loginPaths).Some? && !Configured(loginPaths.value, address) ==> log == old(log)
      ensures old(loginPaths).None? ==> |log| > |old(log)| && (log[|old(log)|].Loaded? || log[|old(log)|].LoadFailed?)
    {
      hide Agrees, Explained;
      if loginPaths.None? {
        var instances := ReadConfigMap();
        if instances.None? {
          JustFailed(log, address);
          return Err;
        }
        var paths := LoadVaultLoginPaths(instances.value);
        Append(tokens, loginPaths, log, Loaded(instances.value, paths));
        loginPaths := Some(paths);
        log := log + [Loaded(instances.value, paths)];
      }
      var loginPath := if address in loginPaths.value then loginPaths.value[address] else "";
      if loginPath == "" {
        JustRefused(tokens, loginPaths.value, log, address);
        return Err;
      }
      r := VaultLogin(address, loginPath);
    }

    /** Reads and decodes the ConfigMap, which may fail. */
    method ReadConfigMap() returns (instances: Option<seq<Instance>>)
      requires Agrees(tokens, loginPaths, log)
      modifies this`log
      ensures Agrees(tokens, loginPaths, log)
      ensures log == if instances.None? then old(log) + [LoadFailed] else old(log)
    {
      instances := *;
      if instances.None? {
        Append(tokens, loginPaths, log, LoadFailed);
        log := log + [LoadFailed];
      }
    }

    /** Issues the Kubernetes token and logs in, which may fail. */
    method VaultLogin(address: string, path: string) returns (r: Result<string>)
      requires Agrees(tokens, loginPaths, log) && address !in tokens && path != ""
      requires loginPaths.Some? && address in loginPaths.value && loginPaths.value[address] == path
      modifies this`log
      ensures log == old(log) + [LoginEvent(address, path, r)]
      ensures r.Err? ==> Agrees(tokens, loginPaths, log) && Explained(log, address)
      ensures r.Ok? ==> Agrees(tokens[address := r.value], loginPaths, log)
    {
      hide Agrees;
      r := *;
      Append(tokens, loginPaths, log, LoginEvent(address, path, r));
      log := log + [LoginEvent(address, path, r)];
    }
  }

  /** The cache holds exactly the successful fetches, at most one per address; every successful
      return is backed by one and every failed one has a reason; the login paths were loaded at
      most once; and no login happened but with the loaded path of its address. */
  ghost predicate Agrees(tokens: map<string, string>, loginPaths: Option<map<string, string>>, log: seq<Event>) {
    TokensAgree(tokens, log) && ReturnsAgree(log) && FailuresAgree(log) && PathsAgree(loginPaths, log) && LoginsAgree(log)
  }

  ghost predicate FetchedIn(log: seq<Event>, address: string, token: string) {
    exists i :: 0 <= i < |log| && log[i].Fetched? && log[i].address == address && log[i].token == token
  }

  ghost predicate TokensAgree(tokens: map<string, string>, log: seq<Event>) {
    && (forall a :: a in tokens ==> FetchedIn(log, a, tokens[a]))
    && (forall i :: 0 <= i < |log| && log[i].Fetched? ==> log[i].address in tokens && tokens[log[i].address] == log[i].token)
    && (forall i, j :: 0 <= i < j < |log| && log[i].Fetched? && log[j].Fetched? ==> log[i].address != log[j].address)
  }

  ghost predicate ReturnsAgree(log: seq<Event>) {
    forall i :: 0 <= i < |log| && log[i].Returned? && log[i].result.Ok? ==>
      FetchedIn(log[..i], log[i].address, log[i].result.value)
  }

  /** The reason why a call for the address fails now: the load or the login just failed, or the
      login paths that were loaded have none for it. */
  ghost predicate Explained(log: seq<Event>, address: string) {
    || (log != [] && log[|log| - 1].LoadFailed?)
    || (log != [] && log[|log| - 1].LoginFailed? && log[|log| - 1].address == address)
    || exists i :: 0 <= i < |log| && log[i].Loaded? && !Configured(log[i].paths, address)
  }

  ghost predicate FailuresAgree(log: seq<Event>) {
    forall i :: 0 <= i < |log| && log[i].Returned? && log[i].result.Err? ==> Explained(log[..i], log[i].address)
  }

  ghost predicate PathsAgree(loginPaths: Option<map<string, string>>, log: seq<Event>) {
    && (forall i :: 0 <= i < |log| && log[i].Loaded? ==>
          loginPaths == Some(log[i].paths) && PathsOf(log[i].instances, log[i].paths))
    && (forall i, j :: 0 <= i < j < |log| && log[i].Loaded? ==> !log[j].Loaded?)
    && (loginPaths.Some? ==> exists i :: 0 <= i < |log| && log[i].Loaded?)
  }

  /** The address and path were loaded. */
  ghost predicate Listed(log: seq<Event>, address: string, path: string) {
    exists i :: 0 <= i < |log| && log[i].Loaded? && Configured(log[i].paths, address) && log[i].paths[address] == path
  }

  ghost predicate LoginsAgree(log: seq<Event>) {
    forall i :: 0 <= i < |log| && (log[i].Fetched? || log[i].LoginFailed?) ==> Listed(log[..i], log[i].address, log[i].path)
  }

  lemma FetchedLater(log: seq<Event>, e: Event, a: string, t: string)
    ensures FetchedIn(log, a, t) ==> FetchedIn(log + [e], a, t)
  {
    if FetchedIn(log, a, t) {
      var i :| 0 <= i < |log| && log[i].Fetched? && log[i].address == a && log[i].token == t;
      assert (log + [e])[i] == log[i];
    }
  }

  lemma TokensAppend(tokens: map<string, string>, log: seq<Event>, e: Event)
    requires TokensAgree(tokens, log) && (e.Fetched? ==> e.address !in tokens)
    ensures TokensAgree(if e.Fetched? then tokens[e.address := e.token] else tokens, log + [e])
  {
    var log' := log + [e];
    assert log'[|log|] == e;
    forall a | a in tokens
      ensures FetchedIn(log', a, tokens[a])
    {
      FetchedLater(log, e, a, tokens[a]);
    }
  }

  lemma ReturnsAppend(log: seq<Event>, e: Event)
    requires ReturnsAgree(log) && FailuresAgree(log) && LoginsAgree(log)
    requires e.Returned? && e.result.Ok? ==> FetchedIn(log, e.address, e.result.value)
    requires e.Returned? && e.result.Err? ==> Explained(log, e.address)
    requires e.Fetched? || e.LoginFailed? ==> Listed(log, e.address, e.path)
    ensures ReturnsAgree(log + [e]) && FailuresAgree(log + [e]) && LoginsAgree(log + [e])
  {
    hide FetchedIn, Explained, Listed;
    var log' := log + [e];
    assert forall i :: 0 <= i <= |log| ==> log'[..i] == log[..i];
    assert log[..|log|] == log;
  }

  /** One more event keeps the agreement, together with the update that goes with it. */
  lemma Append(tokens: map<string, string>, loginPaths: Option<map<string, string>>, log: seq<Event>, e: Event)
    requires Agrees(tokens, loginPaths, log)
    requires e.Fetched? ==> e.address !in tokens
    requires e.Loaded? ==> loginPaths.None? && PathsOf(e.instances, e.paths)
    requires e.Fetched? || e.LoginFailed? ==>
               loginPaths.Some? && Configured(loginPaths.value, e.address) && loginPaths.value[e.address] == e.path
    requires e.Returned? && e.result.Ok? ==> e.address in tokens && tokens[e.address] == e.result.value
    requires e.Returned? && e.result.Err? ==> Explained(log, e.address)
    ensures Agrees(if e.Fetched? then tokens[e.address := e.token] else tokens,
                   if e.Loaded? then Some(e.paths) else loginPaths, log + [e])
    ensures e.LoginFailed? || e.LoadFailed? ==> Explained(log + [e], if e.LoginFailed? then e.address else "")
  {
    hide PathsOf, Explained;
    TokensAppend(tokens, log, e);
    ReturnsAppend(log, e);
    PathsAppend(loginPaths, log, e);
    if e.LoginFailed? {
      JustFailed(log + [e], e.address);
    } else if e.LoadFailed? {
      JustFailed(log + [e], "");
    }
  }

  lemma PathsAppend(loginPaths: Option<map<string, string>>, log: seq<Event>, e: Event)
    requires PathsAgree(loginPaths, log) && (e.Loaded? ==> loginPaths.None? && PathsOf(e.instances, e.paths))
    ensures PathsAgree(if e.Loaded? then Some(e.paths) else loginPaths, log + [e])
  {
    hide PathsOf;
    var log' := log + [e];
    assert log'[|log|] == e;
    if loginPaths.Some? {
      var i :| 0 <= i < |log| && log[i].Loaded?;
      assert log'[i].Loaded?;
    }
  }

  lemma JustFailed(log: seq<Event>, address: string)
    requires log != []
    requires log[|log| - 1].LoadFailed? || (log[|log| - 1].LoginFailed? && log[|log| - 1].address == address)
    ensures Explained(log, address)
  {
  }

  lemma JustRefused(tokens: map<string, string>, paths: map<string, string>, log: seq<Event>, address: string)
    requires Agrees(tokens, Some(paths), log) && !Configured(paths, address)
    ensures Explained(log, address)
  {
    var i :| 0 <= i < |log| && log[i].Loaded?;
    assert log[i].paths == paths;
  }

  // ------------------------------------------------------------ many callers

  type Thread = nat

  /** Where a caller is: the mutex is held from Locked until the call returns. */
  datatype Phase =
    | Idle
    | Waiting(address: string)
    | Locked(address: string)
    | Fetching(address: string)
    | Got(address: string, token: string)   // fetched, not yet stored

  datatype State = State(lock: Option<Thread>, phase: map<Thread, Phase>, tokens: map<string, string>,
                         loginPaths: Option<map<string, string>>, log: seq<Event>)

  datatype Step =
    | Call(t: Thread, address: string)
    | Acquire(t: Thread)
    | Hit(t: Thread)
    | Miss(t: Thread)
    | Load(t: Thread, instances: seq<Instance>, paths: map<string, string>)
    | LoadFails(t: Thread)
    | Refuse(t: Thread)
    | Login(t: Thread, token: string)
    | LoginFails(t: Thread)
    | Store(t: Thread)

  ghost predicate Init(s: State) {
    s.lock.None? && s.tokens == map[] && s.loginPaths.None? && s.log == []
    && forall t :: t in s.phase ==> s.phase[t] == Idle
  }

  ghost function Release(s: State, t: Thread, e: Event): State {
    s.(lock := None, phase := s.phase[t := Idle], log := s.log + [e])
  }

  ghost predicate Next(s: State, step: Step, s': State) {
    && step.t in s.phase
    && var t, p := step.t, s.phase[step.t];
       match step
       case Call(_, a) => p.Idle? && s' == s.(phase := s.phase[t := Waiting(a)])
       case Acquire(_) =>
         p.Waiting? && s.lock.None? && s' == s.(lock := Some(t), phase := s.phase[t := Locked(p.address)])
       case Hit(_) =>
         p.Locked? && p.address in s.tokens && s' == Release(s, t, Returned(p.address, Ok(s.tokens[p.address])))
       case Miss(_) => p.Locked? && p.address !in s.tokens && s' == s.(phase := s.phase[t := Fetching(p.address)])
       case Load(_, instances, paths) =>
         && p.Fetching? && s.loginPaths.None? && PathsOf(instances, paths)
         && s' == s.(loginPaths := Some(paths), log := s.log + [Loaded(instances, paths)])
       case LoadFails(_) =>
         && p.Fetching? && s.loginPaths.None?
         && s' == Release(s.(log := s.log + [LoadFailed]), t, Returned(p.address, Err))
       case Refuse(_) =>
         && p.Fetching? && s.loginPaths.Some? && !Configured(s.loginPaths.value, p.address)
         && s' == Release(s, t, Returned(p.address, Err))
       case Login(_, token) =>
         && p.Fetching? && s.loginPaths.Some? && Configured(s.loginPaths.value, p.address)
         && s' == s.(phase := s.phase[t := Got(p.address, token)],
                     log := s.log + [Fetched(p.address, s.loginPaths.value[p.address], token)])
       case LoginFails(_) =>
         && p.Fetching? && s.loginPaths.Some? && Configured(s.loginPaths.value, p.address)
         && s' == Release(s.(log := s.log + [LoginFailed(p.address, s.loginPaths.value[p.address])]), t,
                          Returned(p.address, Err))
       case Store(_) =>
         p.Got? && s' == Release(s.(tokens := s.tokens[p.address := p.token]), t, Returned(p.address, Ok(p.token)))
  }

  ghost predicate Holds(p: Phase) {
    p.Locked? || p.Fetching? || p.Got?
  }

  /** The tokens, counting the one that is fetched but not yet stored. */
  ghost function Known(s: State): map<string, string> {
    if s.lock.Some? && s.lock.value in s.phase && s.phase[s.lock.value].Got?
    then s.tokens[s.phase[s.lock.value].address := s.phase[s.lock.value].token]
    else s.tokens
  }

  ghost predicate Inv(s: State) {
    && (forall t :: t in s.phase ==> (Holds(s.phase[t]) <==> s.lock == Some(t)))
    && (s.lock.Some? ==> s.lock.value in s.phase)
    && (s.lock.Some? && (s.phase[s.lock.value].Fetching? || s.phase[s.lock.value].Got?) ==>
          s.phase[s.lock.value].address !in s.tokens)
    && Agrees(Known(s), s.loginPaths, s.log)
  }

  lemma FailKeepsAgreement(tokens: map<string, string>, loginPaths: Option<map<string, string>>, log: seq<Event>,
                           e: Event, address: string)
    requires Agrees(tokens, loginPaths, log)
    requires e == LoadFailed
             || (loginPaths.Some? && Configured(loginPaths.value, address) && e == LoginFailed(address, loginPaths.value[address]))
    ensures Agrees(tokens, loginPaths, log + [e] + [Returned(address, Err)])
  {
    hide Agrees, Explained;
    Append(tokens, loginPaths, log, e);
    JustFailed(log + [e], address);
    Append(tokens, loginPaths, log + [e], Returned(address, Err));
  }

  lemma StepKeepsInv(s: State, step: Step, s': State)
    requires Inv(s) && Next(s, step, s')
    ensures Inv(s')
  {
    hide Agrees, PathsOf, Explained;
    var t, p := step.t, s.phase[step.t];
    match step {
      case Hit(_) => Append(s.tokens, s.loginPaths, s.log, Returned(p.address, Ok(s.tokens[p.address])));
      case Load(_, instances, paths) => Append(s.tokens, s.loginPaths, s.log, Loaded(instances, paths));
      case Login(_, token) =>
        Append(s.tokens, s.loginPaths, s.log, Fetched(p.address, s.loginPaths.value[p.address], token));
      case LoadFails(_) => FailKeepsAgreement(s.tokens, s.loginPaths, s.log, LoadFailed, p.address);
      case Refuse(_) =>
        JustRefused(s.tokens, s.loginPaths.value, s.log, p.address);
        Append(s.tokens, s.loginPaths, s.log, Returned(p.address, Err));
      case LoginFails(_) =>
        FailKeepsAgreement(s.tokens, s.loginPaths, s.log, LoginFailed(p.address, s.loginPaths.value[p.address]), p.address);
      case Store(_) => Append(s'.tokens, s.loginPaths, s.log, Returned(p.address, Ok(p.token)));
      case _ =>
    }
  }

  ghost predicate Behavior(trace: seq<State>, steps: seq<Step>) {
    && |trace| == |steps| + 1 && Init(trace[0])
    && forall i :: 0 <= i < |steps| ==> Next(trace[i], steps[i], trace[i + 1])
  }

  lemma {:induction false} InvAlways(trace: seq<State>, steps: seq<Step>, n: nat)
    requires Behavior(trace, steps) && n < |trace|
    ensures Inv(trace[n])
  {
    if n > 0 {
      InvAlways(trace, steps, n - 1);
      StepKeepsInv(trace[n - 1], steps[n - 1], trace[n]);
    }
  }

  /** Any callers, any interleaving: one successful fetch per address at most, every successful
      call returns that fetch's token, and the login paths are loaded at most once. */
  lemma OneFetchPerAddress(trace: seq<State>, steps: seq<Step>, n: nat, i: nat, j: nat)
    requires Behavior(trace, steps) && n < |trace|
    requires i < |trace[n].log| && j < |trace[n].log| && trace[n].log[i].Fetched?
    ensures trace[n].log[j].Fetched? && i != j ==> trace[n].log[i].address != trace[n].log[j].address
    ensures trace[n].log[j].Returned? && trace[n].log[j].result.Ok? && trace[n].log[j].address == trace[n].log[i].address ==>
              i < j && trace[n].log[j].result.value == trace[n].log[i].token
  {
    hide FailuresAgree, PathsAgree, LoginsAgree, ReturnsAgree, Next, FetchedIn;
    InvAlways(trace, steps, n);
    var log := trace[n].log;
    if log[j].Returned? && log[j].result.Ok? && log[j].address == log[i].address {
      var k := ReturnBacked(log, j);
    }
  }

  lemma ReturnBacked(log: seq<Event>, j: nat) returns (k: nat)
    requires ReturnsAgree(log) && j < |log| && log[j].Returned? && log[j].result.Ok?
    ensures k < j && log[k].Fetched? && log[k].address == log[j].address && log[k].token == log[j].result.value
  {
    k :| 0 <= k < j && log[..j][k].Fetched? && log[..j][k].address == log[j].address
         && log[..j][k].token == log[j].result.value;
  }

  /** A successful return always has its fetch before it: failures are never cached. */
  lemma ReturnsAreFetched(trace: seq<State>, steps: seq<Step>, n: nat, j: nat) returns (i: nat)
    requires Behavior(trace, steps) && n < |trace| && j < |trace[n].log|
    requires trace[n].log[j].Returned? && trace[n].log[j].result.Ok?
    ensures i < j && trace[n].log[i].Fetched? && trace[n].log[i].address == trace[n].log[j].address
    ensures trace[n].log[i].token == trace[n].log[j].result.value
  {
    hide TokensAgree, FailuresAgree, PathsAgree, LoginsAgree, ReturnsAgree, Next;
    InvAlways(trace, steps, n);
    i := ReturnBacked(trace[n].log, j);
  }

  lemma LoadedOnce(trace: seq<State>, steps: seq<Step>, n: nat, i: nat, j: nat)
    requires Behavior(trace, steps) && n < |trace| && i < j < |trace[n].log|
    ensures !(trace[n].log[i].Loaded? && trace[n].log[j].Loaded?)
  {
    InvAlways(trace, steps, n);
  }

  /** The ConfigMap is an allowlist: no login is attempted but at an address that some instance
      of the one loaded list names, with the path of its last instance. */
  lemma LoginsAreListed(trace: seq<State>, steps: seq<Step>, n: nat, j: nat) returns (i: nat)
    requires Behavior(trace, steps) && n < |trace| && j < |trace[n].log|
    requires trace[n].log[j].Fetched? || trace[n].log[j].LoginFailed?
    ensures i < j && trace[n].log[i].Loaded? && PathsOf(trace[n].log[i].instances, trace[n].log[i].paths)
    ensures trace[n].log[j].address in trace[n].log[i].paths && trace[n].log[j].path != ""
    ensures trace[n].log[i].paths[trace[n].log[j].address] == trace[n].log[j].path
  {
    hide PathsOf;
    InvAlways(trace, steps, n);
    var log := trace[n].log;
    i :| 0 <= i < j && log[..j][i].Loaded? && Configured(log[..j][i].paths, log[j].address)
         && log[..j][i].paths[log[j].address] == log[j].path;
  }

  /** A call fails only for a reason: its load or its login just failed, or the loaded list has
      no path for its address. */
  lemma FailuresAreExplained(trace: seq<State>, steps: seq<Step>, n: nat, j: nat)
    requires Behavior(trace, steps) && n < |trace| && j < |trace[n].log|
    requires trace[n].log[j].Returned? && trace[n].log[j].result.Err?
    ensures var log := trace[n].log;
            || (j > 0 && log[j - 1].LoadFailed?)
            || (j > 0 && log[j - 1].LoginFailed? && log[j - 1].address == log[j].address)
            || exists i :: 0 <= i < j && log[i].Loaded?
                           && (log[j].address !in log[i].paths || log[i].paths[log[j].address] == "")
  {
    InvAlways(trace, steps, n);
    var log := trace[n].log;
    assert Explained(log[..j], log[j].address);
    assert forall i :: 0 <= i < j ==> log[..j][i] == log[i];
  }
}
