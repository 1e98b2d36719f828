/** What callers are told, compared with what their requests did. */
module RegistryAnswers {
  import opened Bytes
  import opened PortConfigs
  import opened Registries
  import opened RegistryTheorems

  /** A request that is refused before it is queued would have been refused in its turn, too. */
  lemma {:induction false} RefusedBefore(r: Registry, q: Request, env: Environment)
    requires !Queued(q)
    ensures Handle(r, q, env) == Outcome(r, Rejected(422))
  {
  }

  /** Which requests are accepted when their turn comes, said without running them. */
  ghost predicate Accepted(r: Registry, q: Request, env: Environment) {
    match q
    case Create(model) => Acceptable(model) && !PortUsed(r.services, model[TcpPort])
    case Patch(port, patch) =>
      var i := Lookup(r.services, port);
      && PatchValid(patch) && i < |r.services|
      && var merged := Merge(r.services[i].config, PatchFields(patch));
         Acceptable(merged) && Lookup(r.services, merged[TcpPort].i) in {i, |r.services|}
    case Delete(port) => PortUsed(r.services, Int(port))
    case Start(port) =>
      var i := Lookup(r.services, port);
      i < |r.services| && (r.services[i].running || port in env.bindable)
    case Stop(port) => PortUsed(r.services, Int(port))
    case _ => true
  }

  lemma {:induction false} FoundIsUsed(services: seq<Service>, port: int)
    ensures Lookup(services, port) < |services| <==> PortUsed(services, Int(port))
  {
  }

  lemma {:induction false} HandleAccepts(r: Registry, q: Request, env: Environment)
    ensures Handle(r, q, env).reply == Ok <==> Accepted(r, q, env)
  {
    match q {
      case Create(model) =>
        CreateAccepts(r, model, env);
        hide HandleCreate, Acceptable, PortUsed;
      case Patch(port, patch) =>
        if PatchValid(patch) {
          PatchAccepts(r, port, patch, env);
        }
        hide UpdateAt, Acceptable, ModelValid, ToConfig, Merge, PatchFields, PatchValid, Lookup, PortsUnique, PortFreeFor;
      case Delete(port) =>
        FoundIsUsed(r.services, port);
        hide RemoveAt, PortUsed, Lookup;
      case Stop(port) =>
        FoundIsUsed(r.services, port);
        hide PortUsed, Lookup;
      case _ => hide Lookup;
    }
  }

  /** Every service has a configuration that satisfies the request model. */
  ghost predicate AllValid(services: seq<Service>) {
    forall s :: s in services ==> ModelValid(s.config)
  }

  lemma {:induction false} SameConfigsValid(a: seq<Service>, b: seq<Service>)
    requires AllValid(a) && SameButRunning(a, b)
    ensures AllValid(b)
  {
    hide ModelValid;
    forall s | s in b ensures ModelValid(s.config) {
      var i :| 0 <= i < |b| && b[i] == s;
      assert a[i] in a;
    }
  }

  lemma {:induction false} StillValid(a: seq<Service>, b: seq<Service>)
    requires AllValid(a) && forall s :: s in b ==> s in a || ModelValid(s.config)
    ensures AllValid(b)
  {
  }

  lemma {:induction false} HandleKeepsValid(r: Registry, q: Request, env: Environment)
    requires AllValid(r.services)
    ensures AllValid(Handle(r, q, env).registry.services)
  {
    match q {
      case Create(model) =>
        hide AllValid, ModelValid, ToConfig, Lookup;
        StillValid(r.services, Handle(r, q, env).registry.services);
      case Patch(port, patch) => PatchKeepsValid(r, port, patch, env);
      case Delete(port) =>
        hide AllValid, ModelValid, Lookup, Without;
        StillValid(r.services, Handle(r, q, env).registry.services);
      case _ =>
        OnlyRunning(r, q, env);
        hide Handle, SameButRunning;
        SameConfigsValid(r.services, Handle(r, q, env).registry.services);
    }
  }

  lemma {:induction false} PatchKeepsValid(r: Registry, port: int, patch: Dict, env: Environment)
    requires AllValid(r.services)
    ensures AllValid(HandlePatch(r, port, patch, env).registry.services)
  {
    var i, c := PatchUpdates(r, port, patch, env);
    hide HandlePatch, UpdateAt, ModelValid, AllValid, PortsUnique, PortFreeFor, Complete;
    if HandlePatch(r, port, patch, env).reply == Ok {
      UpdateFacts(r, i, c, env);
      StillValid(r.services, UpdateAt(r, i, c, env).services);
    }
  }

  /** Starting and stopping changes nothing about what can be shown. */
  lemma {:induction false} ShownBefore(r: Registry, q: Request, env: Environment)
    ensures Shown(Handle(r, q, env).registry, q) == Shown(r, q)
  {
    if q.Start? || q.Stop? || q.StartAll? || q.StopAll? {
      OnlyRunning(r, q, env);
      SameIsShown(r, Handle(r, q, env).registry, q);
    }
    hide Handle, ModelValid;
  }

  lemma {:induction false} SameIsShown(r: Registry, q: Registry, request: Request)
    requires SameButRunning(r.services, q.services)
    ensures Shown(r, request) == Shown(q, request)
  {
    hide ModelValid;
    var a, b := r.services, q.services;
    if request.Start? || request.Stop? {
      SameLookup(a, b, request.port);
    } else if request.StartAll? || request.StopAll? {
      assert forall i :: 0 <= i < |a| ==> a[i] in a && b[i] in b && a[i].config == b[i].config;
    }
  }

  lemma {:induction false} SameLookup(a: seq<Service>, b: seq<Service>, port: int)
    requires SameButRunning(a, b)
    ensures Lookup(a, port) == Lookup(b, port)
  {
    hide Lookup;
    assert forall i :: 0 <= i < |a| ==> PortOf(a[i]) == PortOf(b[i]);
  }

  lemma {:induction false} ValidIsShown(r: Registry, q: Request)
    requires AllValid(r.services)
    ensures Shown(r, q)
  {
    hide ModelValid, Lookup;
  }

  lemma {:induction false} AnswersAt(r: Registry, jobs: seq<Job>, k: nat)
    requires k < |jobs|
    ensures |Answers(r, jobs)| == |jobs|
    ensures Answers(r, jobs)[k] == Answer(Run(r, jobs[..k]), jobs[k])
    ensures Run(r, jobs[..k + 1]) == Handle(Run(r, jobs[..k]), jobs[k].request, jobs[k].env).registry
    decreases |jobs|
  {
    hide Handle, Answer;
    var first := Handle(r, jobs[0].request, jobs[0].env).registry;
    var more := jobs[1..];
    AnswersLength(first, more);
    assert jobs[..k + 1][1..] == more[..k];
    if k > 0 {
      AnswersAt(first, more, k - 1);
      assert jobs[..k][1..] == more[..k - 1];
    } else {
      assert Run(first, []) == first;
    }
  }

  lemma {:induction false} AnswersLength(r: Registry, jobs: seq<Job>)
    ensures |Answers(r, jobs)| == |jobs|
    decreases |jobs|
  {
    hide Handle, Answer;
    if jobs != [] {
      AnswersLength(Handle(r, jobs[0].request, jobs[0].env).registry, jobs[1..]);
    }
  }

  /** ERROR, AND YET DONE, exactly. Of every job in every queue: an error is answered although the request was
    * accepted and carried out, if and only if it was acceptable in its turn and its caller had stopped waiting or
    * its answer could not be put together. The second cannot happen while all configurations satisfy the request
    * model. Every other error means that nothing has changed, the file included. */
  lemma {:induction false} ErrorYetDone(r: Registry, jobs: seq<Job>, k: nat)
    requires k < |jobs|
    ensures |Answers(r, jobs)| == |jobs|
    ensures var before, job := Run(r, jobs[..k]), jobs[k];
            var done := Handle(before, job.request, job.env).reply == Ok;
            && (Answers(r, jobs)[k].Rejected? && done
                <==> Accepted(before, job.request, job.env) && (job.abandoned || !Shown(before, job.request)))
            && (AllValid(r.services) ==> Shown(before, job.request))
            && (Answers(r, jobs)[k].Rejected? && !done ==> Run(r, jobs[..k + 1]) == before)
  {
    var before, job := Run(r, jobs[..k]), jobs[k];
    AnswersAt(r, jobs, k);
    HandleAccepts(before, job.request, job.env);
    ShownBefore(before, job.request, job.env);
    if AllValid(r.services) {
      RunKeepsValid(r, jobs[..k]);
      ValidIsShown(before, job.request);
    }
    if Handle(before, job.request, job.env).reply != Ok {
      RejectionChangesNothing(before, job.request, job.env);
    } else if !Queued(job.request) {
      RefusedBefore(before, job.request, job.env);
    }
    hide Handle, Queued, Shown, Accepted, AllValid, Run, Answers;
  }

  lemma {:induction false} RunKeepsValid(r: Registry, jobs: seq<Job>)
    requires AllValid(r.services)
    ensures AllValid(Run(r, jobs).services)
    decreases |jobs|
  {
    hide AllValid, Handle;
    if jobs != [] {
      HandleKeepsValid(r, jobs[0].request, jobs[0].env);
      RunKeepsValid(Handle(r, jobs[0].request, jobs[0].env).registry, jobs[1..]);
    }
  }

  /** Which callers give up makes no difference to what becomes of the registry and its file. */
  lemma {:induction false} PatienceDoesNotMatter(r: Registry, jobs: seq<Job>, others: seq<Job>)
    requires |jobs| == |others|
    requires forall k :: 0 <= k < |jobs| ==> jobs[k].request == others[k].request && jobs[k].env == others[k].env
    ensures Run(r, jobs) == Run(r, others)
    decreases |jobs|
  {
    hide Handle;
    if jobs != [] {
      assert jobs[0].request == others[0].request && jobs[0].env == others[0].env;
      PatienceDoesNotMatter(Handle(r, jobs[0].request, jobs[0].env).registry, jobs[1..], others[1..]);
    }
  }

  // -------------------------------------------------------------------------- consequences

  /** Whoever is answered 503 to a new mapping and asks again is told that its port is taken: by the first request. */
  lemma {:induction false} AskingAgainConflicts(r: Registry, model: Config, env: Environment, env': Environment)
    requires Handle(r, Create(model), env).reply == Ok
    ensures var jobs := [Job(Create(model), env, true), Job(Create(model), env', false)];
            && Answers(r, jobs) == [Rejected(503), Rejected(409)]
            && Run(r, jobs) == Handle(r, Create(model), env).registry
  {
    var first, second := Job(Create(model), env, true), Job(Create(model), env', false);
    var q := Handle(r, Create(model), env).registry;
    AddedIsUsed(r, model, env);
    assert Handle(q, Create(model), env') == Outcome(q, Rejected(409)) by { hide AddConfig; }
    assert Answer(r, first) == Rejected(503) && Answer(q, second) == Rejected(409);
    hide Handle, Answer;
    assert [first, second][1..] == [second] && [second][1..] == [];
    assert Answers(q, [second]) == [Answer(q, second)] + Answers(Handle(q, Create(model), env').registry, []);
    assert Run(q, [second]) == Run(Handle(q, Create(model), env').registry, []);
  }

  lemma {:induction false} AddedIsUsed(r: Registry, model: Config, env: Environment)
    requires Handle(r, Create(model), env).reply == Ok
    ensures ModelValid(model) && ToConfig(model).Some? && model[TcpPort].Int?
    ensures var s := Handle(r, Create(model), env).registry.services; Lookup(s, model[TcpPort].i) < |s|
  {
    ConfigsAccepted(model);
    hide ModelValid, ToConfig, Acceptable, Lookup;
    var s := Handle(r, Create(model), env).registry.services;
    assert PortOf(s[|r.services|]) == model[TcpPort];
  }

  const PLUGGED: Config := SAMPLE[Device := Str("COM3")][TcpPort := Int(5000)]
  const ANYWHERE := Environment({5000}, true)

  lemma {:induction false} PluggedIsValid()
    ensures ModelValid(PLUGGED)
  {
    forall k | k in PLUGGED ensures FieldValid(k, PLUGGED[k]) {
    }
  }

  lemma {:induction false} PluggedIsAcceptable()
    ensures ModelValid(PLUGGED) && ToConfig(PLUGGED) == Some(PLUGGED)
  {
    PluggedIsValid();
    assert PLUGGED[Parity] == Str("N") && PLUGGED[LineEnding] == Str("CRLF") && PLUGGED[Device] == Str("COM3");
    assert PLUGGED[Device := Str("COM3")] == PLUGGED;
    hide ModelValid, PLUGGED;
    assert StripLeft("COM3") == "COM3" && StripRight("COM3") == "COM3";
  }

  /** A caller that gives up is answered 503, and its mapping is there all the same, in the file, too. */
  lemma {:induction false} AbandonedIsDone()
    ensures var r := Opened(Nothing, ANYWHERE);
            var jobs := [Job(Create(PLUGGED), ANYWHERE, true)];
            && Answers(r, jobs) == [Rejected(503)]
            && r.services == [] && Run(r, jobs).services == [Service(0, PLUGGED, false)]
            && Load(r.file) == [] && Load(Run(r, jobs).file) == [PLUGGED]
  {
    var r := Opened(Nothing, ANYWHERE);
    var job := Job(Create(PLUGGED), ANYWHERE, true);
    PluggedIsAcceptable();
    assert Load(Nothing) == [] && Services([], 0) == [] && StartAsked([], ANYWHERE) == [];
    hide ModelValid, ToConfig;
    var q := Handle(r, job.request, ANYWHERE).registry;
    assert q.services == [Service(0, PLUGGED, false)];
    assert Configs(q.services) == [PLUGGED] + Configs(q.services[1..]) == [PLUGGED];
    SaveLoadRoundTrip([PLUGGED]);
    assert [job][1..] == [] && Answers(q, []) == [] && Run(q, []) == q;
  }

  const SLOW: Config := PLUGGED[Baudrate := Int(0)][Autostart := Bool(true)]

  lemma {:induction false} SlowFacts()
    ensures Complete(SLOW) && !ModelValid(SLOW) && PortOf(Service(0, SLOW, false)) == Int(5000)
    ensures Truthy(SLOW[Autostart])
  {
    assert !FieldValid(Baudrate, SLOW[Baudrate]);
  }

  lemma {:induction false} SlowIsLoaded()
    ensures Opened(Save([SLOW]), ANYWHERE).services == [Service(0, SLOW, true)]
    ensures Inv(Opened(Save([SLOW]), ANYWHERE)) && !ModelValid(SLOW)
  {
    SlowFacts();
    hide SLOW, Complete, Truthy;
    SaveLoadRoundTrip([SLOW]);
    assert Load(Save([SLOW])) == [SLOW];
    OpenedInv(Save([SLOW]), ANYWHERE);
    hide Load, Save, Inv;
    ServicesAt([SLOW], 0);
    StartAskedAt(Services([SLOW], 0), ANYWHERE);
  }

  /** A file may hold a configuration that the request model refuses. Such a mapping works, but every PATCH that
    * leaves the offending field alone is answered 500 and changes nothing, and so is stopping it, although it
    * does stop. */
  lemma {:induction false} InvalidFromFile()
    ensures var r := Opened(Save([SLOW]), ANYWHERE);
            && Inv(r) && r.services == [Service(0, SLOW, true)]
            && Handle(r, Patch(5000, map[]), ANYWHERE) == Outcome(r, Rejected(500))
            && Answers(r, [Job(Stop(5000), ANYWHERE, false)]) == [Rejected(500)]
            && Run(r, [Job(Stop(5000), ANYWHERE, false)]).services == [Service(0, SLOW, false)]
  {
    var r := Opened(Save([SLOW]), ANYWHERE);
    SlowIsLoaded();
    SlowFacts();
    hide Opened, Save, ModelValid, Inv, SLOW, Complete;
    assert Lookup(r.services, 5000) == 0;
    NothingPatched(SLOW);
    assert Handle(r, Patch(5000, map[]), ANYWHERE) == HandleMerged(r, 0, SLOW, ANYWHERE);
    StoppedAnswer(r, 5000, ANYWHERE);
  }

  lemma NothingPatched(c: Config)
    ensures PatchValid(map[]) && PatchFields(map[]) == map[] && Merge(c, map[]) == c
  {
  }

  lemma {:induction false} StoppedAnswer(r: Registry, port: int, env: Environment)
    requires Lookup(r.services, port) == 0 && |r.services| == 1 && !ModelValid(r.services[0].config)
    ensures Answers(r, [Job(Stop(port), env, false)]) == [Rejected(500)]
    ensures Run(r, [Job(Stop(port), env, false)]).services == [r.services[0].(running := false)]
  {
    hide ModelValid;
    var job := Job(Stop(port), env, false);
    var q := Handle(r, job.request, env).registry;
    assert q.services == [r.services[0].(running := false)];
    assert PortOf(q.services[0]) == Int(port) && Lookup(q.services, port) == 0;
    hide Handle;
    assert [job][1..] == [] && Answers(q, []) == [] && Run(q, []) == q;
  }

  /** `start_all` reports exactly the services that it leaves stopped. */
  lemma {:induction false} FailuresAreTheStopped(services: seq<Service>, env: Environment, id: nat)
    ensures |StartEach(services, env)| == |services|
    ensures id in Failed(services, env)
       <==> exists i :: 0 <= i < |services| && services[i].id == id && !StartEach(services, env)[i].running
  {
    EachFacts(services, env);
    FailedIds(services, env, id);
  }

  lemma {:induction false} FailedIds(services: seq<Service>, env: Environment, id: nat)
    ensures id in Failed(services, env)
       <==> exists i :: 0 <= i < |services| && services[i].id == id && !StartService(services[i], env).running
  {
    hide StartService;
    if services != [] {
      var more := services[1..];
      FailedIds(more, env, id);
      if id in Failed(more, env) {
        var i :| 0 <= i < |more| && more[i].id == id && !StartService(more[i], env).running;
        assert services[i + 1] == more[i];
      }
      if i :| 0 < i < |services| && services[i].id == id && !StartService(services[i], env).running {
        assert more[i - 1] == services[i];
      }
    }
  }
}
