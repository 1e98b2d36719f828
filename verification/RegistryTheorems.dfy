/** What holds of the registry over every sequence of requests. */
module RegistryTheorems {
  import opened Bytes
  import opened PortConfigs
  import opened Registries

  // ------------------------------------------------------------------------------ cards

  lemma {:induction false} WithoutFacts(cards: seq<nat>, id: nat)
    requires CardsDistinct(cards)
    ensures CardsDistinct(Without(cards, id))
    ensures forall x :: x in Without(cards, id) <==> x in cards && x != id
  {
    if cards != [] {
      var more := cards[1..];
      assert CardsDistinct(more);
      WithoutFacts(more, id);
      assert forall x :: x in cards <==> x == cards[0] || x in more;
      if cards[0] != id {
        var w := [cards[0]] + Without(more, id);
        assert forall x :: x in w <==> x == cards[0] || x in Without(more, id);
        assert cards[0] !in more;
        forall i, j | 0 <= i < j < |w| ensures w[i] != w[j] {
          assert w[j] in Without(more, id);
        }
      } else {
        assert id !in more;
      }
    }
  }

  lemma {:induction false} ConfigsAt(services: seq<Service>)
    ensures |Configs(services)| == |services|
    ensures forall i :: 0 <= i < |services| ==> Configs(services)[i] == services[i].config
  {
    if services != [] {
      ConfigsAt(services[1..]);
      forall i | 0 <= i < |services| ensures Configs(services)[i] == services[i].config {
        if i > 0 { assert services[1..][i - 1] == services[i]; }
      }
    }
  }

  /** Saving the services of a good registry makes the file describe them. */
  lemma {:induction false} SavedIsSynced(r: Registry, env: Environment)
    requires AllComplete(r.services) && env.writable
    ensures Synced(SaveFile(r, env))
  {
    ConfigsAt(r.services);
    SaveLoadRoundTrip(Configs(r.services));
  }

  // ---------------------------------------------------------------------- each operation

  lemma {:induction false} AddedPair(services: seq<Service>, cards: seq<nat>, s: Service)
    requires Paired(services, cards) && !HasId(services, s.id)
    ensures Paired(services + [s], cards + [s.id])
    ensures forall id :: HasId(services + [s], id) <==> HasId(services, id) || id == s.id
  {
    var more, n := services + [s], |services|;
    assert more[..n] == services && more[n] == s;
    forall id ensures HasId(more, id) <==> HasId(services, id) || id == s.id {
      if HasId(services, id) {
        var i :| 0 <= i < n && services[i].id == id;
        assert more[i].id == id;
      }
      assert more[n].id == s.id;
      if HasId(more, id) {
        var i :| 0 <= i < |more| && more[i].id == id;
        assert i < n ==> services[i].id == id;
      }
    }
    forall i, j | 0 <= i < j < |more| ensures more[i].id != more[j].id {
      assert services[i].id == more[i].id;
    }
    assert s.id !in cards;
  }

  lemma {:induction false} AddKeepsInv(r: Registry, c: Config, env: Environment)
    requires Inv(r) && Complete(c) && forall j :: 0 <= j < |r.services| ==> PortOf(r.services[j]) != c[TcpPort]
    ensures Inv(AddConfig(r, c, env)) && (env.writable ==> Synced(AddConfig(r, c, env)))
  {
    var s := Service(r.nextId, c, false);
    var q := r.(services := r.services + [s], cards := r.cards + [s.id], nextId := r.nextId + 1);
    assert !HasId(r.services, r.nextId);
    AddedPair(r.services, r.cards, s);
    assert q.services[..|r.services|] == r.services;
    if env.writable {
      SavedIsSynced(q, env);
    }
    hide Paired, HasId, Load, Save, Complete, Synced, Configs;
  }

  lemma {:induction false} CreateKeepsInv(r: Registry, model: Config, env: Environment)
    requires Inv(r)
    ensures var q := HandleCreate(r, model, env).registry;
            Inv(q) && (Synced(r) && env.writable ==> Synced(q))
  {
    ConfigsAccepted(model);
    if ModelValid(model) && ToConfig(model).Some? && Lookup(r.services, model[TcpPort].i) == |r.services| {
      AddKeepsInv(r, ToConfig(model).value, env);
    }
    hide Inv, Synced, AddConfig, ModelValid, ToConfig;
  }

  lemma {:induction false} SameIds(a: seq<Service>, b: seq<Service>)
    requires |a| == |b| && forall i :: 0 <= i < |a| ==> a[i].id == b[i].id
    ensures forall id :: HasId(a, id) <==> HasId(b, id)
    ensures IdsDistinct(a) ==> IdsDistinct(b)
  {
    forall id ensures HasId(a, id) <==> HasId(b, id) {
      if HasId(a, id) {
        var i :| 0 <= i < |a| && a[i].id == id;
        assert b[i].id == id;
      }
      if HasId(b, id) {
        var i :| 0 <= i < |b| && b[i].id == id;
        assert a[i].id == id;
      }
    }
  }

  lemma {:induction false} MovedCard(services: seq<Service>, cards: seq<nat>, id: nat)
    requires Paired(services, cards) && HasId(services, id)
    ensures Paired(services, Without(cards, id) + [id])
  {
    WithoutFacts(cards, id);
    var moved := Without(cards, id) + [id];
    assert forall x :: x in moved <==> x in Without(cards, id) || x == id;
  }

  lemma {:induction false} UpdateKeepsInv(r: Registry, i: nat, c: Config, env: Environment)
    requires Inv(r) && i < |r.services| && Complete(c)
    requires forall j :: 0 <= j < |r.services| && j != i ==> PortOf(r.services[j]) != c[TcpPort]
    ensures Inv(UpdateAt(r, i, c, env)) && (env.writable ==> Synced(UpdateAt(r, i, c, env)))
  {
    var q := UpdateAt(r, i, c, env);
    var id := r.services[i].id;
    SameIds(r.services, q.services);
    assert HasId(r.services, id) && id in r.cards;
    assert Paired(q.services, r.cards);
    MovedCard(q.services, r.cards, id);
    if env.writable {
      SavedIsSynced(q, env);
    }
    hide Paired, HasId, Load, Save, Complete, Configs;
  }

  lemma {:induction false} RemovedIsGone(s: seq<Service>, i: nat, x: nat)
    requires IdsDistinct(s) && i < |s| && HasId(s[..i] + s[i + 1..], x)
    ensures HasId(s, x) && x != s[i].id
  {
    var t := s[..i] + s[i + 1..];
    var k :| 0 <= k < |t| && t[k].id == x;
    var j := if k < i then k else k + 1;
    assert t[k] == s[j];
  }

  lemma {:induction false} OthersRemain(s: seq<Service>, i: nat, x: nat)
    requires i < |s| && HasId(s, x) && x != s[i].id
    ensures HasId(s[..i] + s[i + 1..], x)
  {
    var t := s[..i] + s[i + 1..];
    var k :| 0 <= k < |s| && s[k].id == x;
    var j := if k < i then k else k - 1;
    assert t[j] == s[k];
  }

  lemma {:induction false} RemovedIds(s: seq<Service>, i: nat)
    requires IdsDistinct(s) && i < |s|
    ensures IdsDistinct(s[..i] + s[i + 1..])
    ensures forall x :: HasId(s[..i] + s[i + 1..], x) <==> HasId(s, x) && x != s[i].id
  {
    var t := s[..i] + s[i + 1..];
    assert forall k :: 0 <= k < |t| ==> t[k] == s[if k < i then k else k + 1];
    assert IdsDistinct(t);
    hide IdsDistinct, HasId;
    forall x ensures HasId(t, x) <==> HasId(s, x) && x != s[i].id {
      if HasId(t, x) {
        RemovedIsGone(s, i, x);
      } else if HasId(s, x) && x != s[i].id {
        OthersRemain(s, i, x);
      }
    }
  }

  lemma {:induction false} RemovedPair(s: seq<Service>, cards: seq<nat>, i: nat)
    requires Paired(s, cards) && i < |s|
    ensures Paired(s[..i] + s[i + 1..], Without(cards, s[i].id))
    ensures forall x :: HasId(s[..i] + s[i + 1..], x) <==> HasId(s, x) && x != s[i].id
  {
    WithoutFacts(cards, s[i].id);
    RemovedIds(s, i);
    hide HasId, IdsDistinct, CardsDistinct, Without;
  }

  lemma {:induction false} RemoveKeepsInv(r: Registry, i: nat, env: Environment)
    requires Inv(r) && i < |r.services|
    ensures Inv(RemoveAt(r, i, env)) && (env.writable ==> Synced(RemoveAt(r, i, env)))
  {
    var q := RemoveAt(r, i, env);
    var s, t := r.services, q.services;
    RemovedPair(s, r.cards, i);
    RemovedRest(s, i, r.nextId);
    if t != [] {
      assert HasId(t, t[0].id);
    }
    hide Paired, HasId, Load, Save, Complete, Configs, Without, PortsUnique, AllComplete, Fresh;
    if env.writable {
      SavedIsSynced(q, env);
    }
  }

  lemma {:induction false} RemovedRest(s: seq<Service>, i: nat, nextId: nat)
    requires i < |s| && PortsUnique(s) && AllComplete(s) && Fresh(s, nextId)
    ensures var t := s[..i] + s[i + 1..]; PortsUnique(t) && AllComplete(t) && Fresh(t, nextId)
  {
    hide Complete;
    var t := s[..i] + s[i + 1..];
    assert forall k :: 0 <= k < |t| ==> t[k] == s[if k < i then k else k + 1];
  }

  lemma {:induction false} EachFacts(services: seq<Service>, env: Environment)
    ensures |StartEach(services, env)| == |services| == |StopEach(services)|
    ensures forall i :: 0 <= i < |services| ==>
              && StartEach(services, env)[i] == StartService(services[i], env)
              && StopEach(services)[i] == services[i].(running := false)
  {
    if services != [] {
      EachFacts(services[1..], env);
      forall i | 0 <= i < |services|
        ensures StartEach(services, env)[i] == StartService(services[i], env)
        ensures StopEach(services)[i] == services[i].(running := false)
      {
        if i > 0 { assert services[1..][i - 1] == services[i]; }
      }
    }
  }

  lemma {:induction false} StartAskedAt(services: seq<Service>, env: Environment)
    ensures |StartAsked(services, env)| == |services|
    ensures forall i :: 0 <= i < |services| ==> StartAsked(services, env)[i] == StartIfAsked(services[i], env)
  {
    if services != [] {
      StartAskedAt(services[1..], env);
      forall i | 0 <= i < |services| ensures StartAsked(services, env)[i] == StartIfAsked(services[i], env) {
        if i > 0 { assert services[1..][i - 1] == services[i]; }
      }
    }
  }

  lemma StartKeepsId(s: Service, env: Environment)
    ensures StartService(s, env).id == s.id
  {
  }

  lemma {:induction false} FirstAnswer(r: Registry, jobs: seq<Job>, before: seq<Reply>)
    requires jobs != []
    ensures before + Answers(r, jobs)
         == before + [Answer(r, jobs[0])] + Answers(Handle(r, jobs[0].request, jobs[0].env).registry, jobs[1..])
  {
    hide Answer, Handle;
  }

  lemma {:induction false} FirstFailed(services: seq<Service>, k: nat, env: Environment, before: seq<nat>)
    requires k < |services|
    ensures before + Failed(services[k..], env)
         == before + (if StartService(services[k], env).running then [] else [services[k].id]) + Failed(services[k + 1..], env)
  {
    hide StartService;
    assert services[k..][1..] == services[k + 1..];
  }

  lemma NoneFailed(env: Environment)
    ensures Failed([], env) == []
  {
  }

  /** Only the running flags differ. */
  ghost predicate SameButRunning(a: seq<Service>, b: seq<Service>) {
    |a| == |b| && forall i :: 0 <= i < |a| ==> b[i] == a[i].(running := b[i].running)
  }

  lemma {:induction false} OnlyRunning(r: Registry, q: Request, env: Environment)
    requires q.Start? || q.Stop? || q.StartAll? || q.StopAll?
    ensures var r' := Handle(r, q, env).registry;
            SameButRunning(r.services, r'.services) && r' == r.(services := r'.services)
  {
    hide StartEach, StopEach, Lookup;
    EachFacts(r.services, env);
  }

  lemma {:induction false} RunningKeepsInv(r: Registry, services: seq<Service>)
    requires Inv(r) && SameButRunning(r.services, services)
    ensures Inv(r.(services := services)) && Configs(services) == Configs(r.services)
  {
    SameIds(r.services, services);
    ConfigsAt(r.services);
    ConfigsAt(services);
    assert forall i :: 0 <= i < |services| ==> PortOf(services[i]) == PortOf(r.services[i]);
  }

  lemma {:induction false} OthersFree(services: seq<Service>, i: nat, port: int)
    requires PortsUnique(services) && i < |services|
    requires Lookup(services, port) == |services| || Lookup(services, port) == i
    ensures forall j :: 0 <= j < |services| && j != i ==> PortOf(services[j]) != Int(port)
  {
    var o := Lookup(services, port);
    forall j | 0 <= j < |services| && j != i ensures PortOf(services[j]) != Int(port) {
      if o == i && j > i {
        assert PortOf(services[i]) != PortOf(services[j]);
      }
    }
  }

  ghost predicate PortFreeFor(services: seq<Service>, i: nat, c: Config) {
    forall j :: 0 <= j < |services| && j != i ==> PortOf(services[j]) != c[TcpPort]
  }

  lemma {:induction false} MergedUpdates(r: Registry, i: nat, model: Config, env: Environment) returns (c: Config)
    requires i < |r.services|
    ensures var q := HandleMerged(r, i, model, env);
            if q.reply == Ok then
              && Complete(c) && ModelValid(c) && q.registry == UpdateAt(r, i, c, env)
              && (PortsUnique(r.services) ==> PortFreeFor(r.services, i, c))
            else q.registry == r
  {
    hide PortsUnique, PortFreeFor, Complete, UpdateAt, FieldValid, Lookup, ModelValid;
    c := model;
    if ModelValid(model) && ToConfig(model).Some? {
      c := ToConfig(model).value;
      var _ := PortNumber(c);
      OwnOrFree(r.services, i, c);
    }
    hide ToConfig;
  }

  /** A PATCH either changes nothing or updates one service to a configuration whose port no other one has. */
  lemma {:induction false} PatchUpdates(r: Registry, port: int, patch: Dict, env: Environment)
    returns (i: nat, c: Config)
    ensures var q := HandlePatch(r, port, patch, env);
            if q.reply == Ok then
              && i < |r.services| && Complete(c) && ModelValid(c) && q.registry == UpdateAt(r, i, c, env)
              && (PortsUnique(r.services) ==> PortFreeFor(r.services, i, c))
            else q.registry == r
  {
    i, c := Lookup(r.services, port), SAMPLE;
    if PatchValid(patch) && i < |r.services| {
      FieldsAreKnown(patch);
      hide PortsUnique, PortFreeFor, Complete, UpdateAt, Merge, Lookup, ModelValid, PatchFields, HandleMerged;
      c := MergedUpdates(r, i, Merge(r.services[i].config, PatchFields(patch)), env);
    }
  }

  lemma {:induction false} FieldsAreKnown(patch: Dict)
    requires PatchValid(patch)
    ensures forall k :: k in PatchFields(patch) ==> Known(k)
  {
  }

  lemma {:induction false} PatchKeepsInv(r: Registry, port: int, patch: Dict, env: Environment)
    requires Inv(r)
    ensures var q := HandlePatch(r, port, patch, env).registry;
            Inv(q) && (Synced(r) && env.writable ==> Synced(q))
  {
    var i, c := PatchUpdates(r, port, patch, env);
    if HandlePatch(r, port, patch, env).reply == Ok {
      hide HandlePatch, Complete, Fresh, Paired, HasId, AllComplete, PortsUnique, ModelValid, UpdateAt, Synced;
      UpdateKeepsInv(r, i, c, env);
    }
    hide HandlePatch, Inv, Synced;
  }

  lemma {:induction false} StartStopKeepsInv(r: Registry, q: Request, env: Environment)
    requires Inv(r) && (q.Start? || q.Stop? || q.StartAll? || q.StopAll?)
    ensures var r' := Handle(r, q, env).registry;
            Inv(r') && (Synced(r) ==> Synced(r'))
  {
    OnlyRunning(r, q, env);
    hide Inv, Load, Configs, Handle, SameButRunning;
    RunningKeepsInv(r, Handle(r, q, env).registry.services);
  }

  /** Every request keeps the invariant, and leaves the file up to date if it can be written. */
  lemma {:induction false} HandleKeepsInv(r: Registry, q: Request, env: Environment)
    requires Inv(r)
    ensures Inv(Handle(r, q, env).registry)
    ensures Synced(r) && env.writable ==> Synced(Handle(r, q, env).registry)
  {
    hide Inv, Synced, HandleCreate, HandlePatch, HandleStart, RemoveAt;
    match q {
      case Create(model) => CreateKeepsInv(r, model, env);
      case Patch(port, patch) => PatchKeepsInv(r, port, patch, env);
      case Delete(port) =>
        if Lookup(r.services, port) < |r.services| {
          RemoveKeepsInv(r, Lookup(r.services, port), env);
        }
      case _ => StartStopKeepsInv(r, q, env);
    }
  }

  /** Over every sequence of requests, in whatever order they arrive: TCP ports stay unique, services and cards
    * stay in bijection, and the selection is none or a member; and as long as the file can be written, loading
    * it gives back the current configurations. */
  lemma {:induction false} RunKeepsInv(r: Registry, jobs: seq<Job>)
    requires Inv(r)
    ensures Inv(Run(r, jobs))
    ensures Synced(r) && (forall j :: 0 <= j < |jobs| ==> jobs[j].env.writable) ==> Synced(Run(r, jobs))
    decreases |jobs|
  {
    hide Inv, Synced, Handle;
    if jobs != [] {
      HandleKeepsInv(r, jobs[0].request, jobs[0].env);
      RunKeepsInv(Handle(r, jobs[0].request, jobs[0].env).registry, jobs[1..]);
    }
  }

  lemma {:induction false} ServicesAt(configs: seq<Config>, id: nat)
    ensures |Services(configs, id)| == |configs|
    ensures forall i :: 0 <= i < |configs| ==> Services(configs, id)[i] == Service(id + i, configs[i], false)
    ensures Configs(Services(configs, id)) == configs
  {
    if configs != [] {
      ServicesAt(configs[1..], id + 1);
      var s := Services(configs, id);
      assert s[1..] == Services(configs[1..], id + 1);
      forall i | 0 <= i < |configs| ensures s[i] == Service(id + i, configs[i], false) {
        if i > 0 { assert s[i] == s[1..][i - 1] && configs[i] == configs[1..][i - 1]; }
      }
    }
  }

  lemma {:induction false} OpenedLists(services: seq<Service>, cards: seq<nat>, configs: seq<Config>)
    requires |services| == |cards| == |configs|
    requires forall i :: 0 <= i < |configs| ==> services[i] == Service(i, configs[i], false) && cards[i] == i
    ensures services == Services(configs, 0) && cards == Ids(0, |configs|)
  {
    ServicesAt(configs, 0);
    hide Services;
  }

  lemma {:induction false} OpenedPair(services: seq<Service>, cards: seq<nat>)
    requires |services| == |cards| && forall i :: 0 <= i < |cards| ==> services[i].id == i == cards[i]
    ensures Paired(services, cards)
  {
    forall id ensures id in cards <==> HasId(services, id) {
      if HasId(services, id) {
        var i :| 0 <= i < |services| && services[i].id == id;
        assert cards[i] == id;
      }
      if id in cards {
        var i :| 0 <= i < |cards| && cards[i] == id;
        assert services[i].id == id;
      }
    }
  }

  lemma {:induction false} OpenedServices(services: seq<Service>, configs: seq<Config>)
    requires |services| == |configs| && forall i :: 0 <= i < |configs| ==> services[i].config == configs[i]
    requires forall i, j :: 0 <= i < j < |configs| ==> configs[i][TcpPort] != configs[j][TcpPort]
    requires forall c :: c in configs ==> Complete(c)
    ensures PortsUnique(services) && AllComplete(services)
  {
    hide Complete;
    forall i | 0 <= i < |services| ensures Complete(services[i].config) {
      assert configs[i] in configs;
    }
  }

  /** A file whose complete entries have distinct TCP ports opens into a registry that satisfies all this. */
  lemma {:induction false} OpenedInv(doc: Doc, env: Environment)
    requires forall i, j :: 0 <= i < j < |Load(doc)| ==> Load(doc)[i][TcpPort] != Load(doc)[j][TcpPort]
    ensures Inv(Opened(doc, env)) && Synced(Opened(doc, env))
  {
    hide Load, Services, Complete, Configs, StartAsked, Paired, PortsUnique, AllComplete;
    var stopped := Services(Load(doc), 0);
    var r := Opened(doc, env).(services := stopped);
    ServicesAt(Load(doc), 0);
    AllLoadedAreComplete(doc);
    OpenedServices(stopped, Load(doc));
    OpenedPair(stopped, r.cards);
    if r.selected.Some? {
      assert HasId(stopped, stopped[0].id);
    }
    assert Inv(r);
    StartAskedFacts(stopped, env);
    RunningKeepsInv(r, StartAsked(stopped, env));
    hide Inv;
  }

  lemma {:induction false} StartAskedFacts(services: seq<Service>, env: Environment)
    ensures SameButRunning(services, StartAsked(services, env))
  {
    StartAskedAt(services, env);
  }

  lemma {:induction false} AllLoadedAreComplete(doc: Doc)
    ensures forall c :: c in Load(doc) ==> Complete(c)
  {
    LoadedAreComplete(Entries(doc));
    hide Complete, LoadEntries;
  }

  /** Whatever requests arrive after opening such a file, opening the saved file again gives the same mappings. */
  lemma {:induction false} ReopeningGivesTheSame(doc: Doc, jobs: seq<Job>, env: Environment)
    requires forall i, j :: 0 <= i < j < |Load(doc)| ==> Load(doc)[i][TcpPort] != Load(doc)[j][TcpPort]
    requires forall j :: 0 <= j < |jobs| ==> jobs[j].env.writable
    ensures var r := Run(Opened(doc, env), jobs);
            Configs(Opened(r.file, env).services) == Configs(r.services) && Inv(r)
  {
    var r := Run(Opened(doc, env), jobs);
    OpenedInv(doc, env);
    RunKeepsInv(Opened(doc, env), jobs);
    hide Inv, Run, Load, Services, StartAsked;
    OpenedConfigs(r.file, env);
  }

  lemma {:induction false} OpenedConfigs(doc: Doc, env: Environment)
    ensures Configs(Opened(doc, env).services) == Load(doc)
  {
    hide Load, Services, StartAsked;
    ServicesAt(Load(doc), 0);
    var stopped := Services(Load(doc), 0);
    StartAskedFacts(stopped, env);
    ConfigsAt(stopped);
    ConfigsAt(StartAsked(stopped, env));
  }

  // ---------------------------------------------------------------------- single requests

  /** A rejected request changes nothing, the saved file included. */
  lemma {:induction false} RejectionChangesNothing(r: Registry, q: Request, env: Environment)
    requires Handle(r, q, env).reply.Rejected?
    ensures Handle(r, q, env).registry == r
  {
  }

  ghost predicate PortUsed(services: seq<Service>, port: Value) {
    exists i :: 0 <= i < |services| && PortOf(services[i]) == port
  }

  /** When a mapping is accepted: valid fields, a device that is not blank, choices from their lists, a free port. */
  lemma {:induction false} CreateAccepts(r: Registry, model: Config, env: Environment)
    ensures Handle(r, Create(model), env).reply == Ok <==> Acceptable(model) && !PortUsed(r.services, model[TcpPort])
  {
    ConfigsAccepted(model);
    hide Acceptable, ModelValid, ToConfig, AddConfig;
    if model[TcpPort].Int? {
      assert PortUsed(r.services, model[TcpPort]) <==> Lookup(r.services, model[TcpPort].i) < |r.services|;
    }
  }

  /** When a PATCH with a valid body is accepted: the mapping exists, the merged configuration is acceptable, and
    * its port is free or the mapping's own. It is answered 500 exactly if the merged configuration violates the
    * request model, which only a configuration from the file can cause. */
  lemma {:induction false} PatchAccepts(r: Registry, port: int, patch: Dict, env: Environment)
    requires PatchValid(patch)
    ensures var i := Lookup(r.services, port);
            var reply := HandlePatch(r, port, patch, env).reply;
            if i == |r.services| then reply == Rejected(404)
            else
              var merged := Merge(r.services[i].config, PatchFields(patch));
              && (reply == Ok <==> Acceptable(merged) && Lookup(r.services, merged[TcpPort].i) in {i, |r.services|})
              && (PortsUnique(r.services) ==>
                    (reply == Ok <==> Acceptable(merged) && PortFreeFor(r.services, i, merged)))
              && (reply == Rejected(500) <==> !ModelValid(merged))
              && (ModelValid(r.services[i].config) ==> ModelValid(merged))
  {
    var i := Lookup(r.services, port);
    if i < |r.services| {
      FieldsAreKnown(patch);
      var merged := Merge(r.services[i].config, PatchFields(patch));
      if ModelValid(r.services[i].config) {
        MergeKeepsValid(r.services[i].config, patch);
      }
      MergedAccepts(r, i, merged, env);
      hide HandleMerged, Acceptable, ModelValid, Merge, PatchFields, PatchValid, Lookup, PortsUnique, PortFreeFor;
    }
  }

  lemma {:induction false} MergedAccepts(r: Registry, i: nat, model: Config, env: Environment)
    requires i < |r.services|
    ensures var reply := HandleMerged(r, i, model, env).reply;
            && (reply == Ok <==> Acceptable(model) && Lookup(r.services, model[TcpPort].i) in {i, |r.services|})
            && (PortsUnique(r.services) ==> (reply == Ok <==> Acceptable(model) && PortFreeFor(r.services, i, model)))
            && (reply == Rejected(500) <==> !ModelValid(model))
  {
    ConfigsAccepted(model);
    hide Acceptable, ModelValid, ToConfig, UpdateAt, FieldValid, Lookup;
    if model[TcpPort].Int? {
      OwnOrFree(r.services, i, model);
    }
    hide PortsUnique, PortFreeFor;
  }

  lemma {:induction false} MergeKeepsValid(was: Config, patch: Dict)
    requires PatchValid(patch) && ModelValid(was)
    ensures ModelValid(Merge(was, PatchFields(patch)))
  {
    forall k | Known(k) ensures FieldValid(k, Merge(was, PatchFields(patch))[k]) {
      MergedField(was, patch, k);
    }
  }

  lemma {:induction false} OwnOrFree(services: seq<Service>, i: nat, c: Config)
    requires i < |services| && c[TcpPort].Int?
    ensures PortFreeFor(services, i, c) ==> Lookup(services, c[TcpPort].i) in {i, |services|}
    ensures PortsUnique(services) && Lookup(services, c[TcpPort].i) in {i, |services|} ==> PortFreeFor(services, i, c)
  {
    if PortsUnique(services) && Lookup(services, c[TcpPort].i) in {i, |services|} {
      OthersFree(services, i, c[TcpPort].i);
    }
  }

  /** The value of a field after a PATCH. */
  function PatchedField(was: Config, patch: Dict, k: Key): Value
    requires Known(k)
  {
    if k in patch && patch[k] != Null then patch[k] else was[k]
  }

  /** Each field has the patched value if there is one that is not null and its old value otherwise, except that
    * the device is stripped of surrounding blanks. */
  ghost predicate IsPatched(was: Config, now: Config, patch: Dict) {
    && (forall k :: Known(k) && k != Device ==> now[k] == PatchedField(was, patch, k))
    && PatchedField(was, patch, Device).Str?
    && now[Device] == Str(Strip(PatchedField(was, patch, Device).s))
  }

  lemma {:induction false} MergedField(was: Config, patch: Dict, k: Key)
    requires Known(k) && (forall j :: j in patch ==> Known(j))
    ensures forall k :: k in PatchFields(patch) ==> Known(k)
    ensures Merge(was, PatchFields(patch))[k] == PatchedField(was, patch, k)
  {
  }

  lemma {:induction false} MergeIsPatch(was: Config, patch: Dict)
    requires PatchValid(patch) && ModelValid(Merge(was, PatchFields(patch)))
    requires ToConfig(Merge(was, PatchFields(patch))).Some?
    ensures IsPatched(was, ToConfig(Merge(was, PatchFields(patch))).value, patch)
  {
    forall k | Known(k) ensures Merge(was, PatchFields(patch))[k] == PatchedField(was, patch, k) {
      MergedField(was, patch, k);
    }
    hide Strip, ModelValid, ToConfig, Merge, PatchFields, PatchedField, PatchValid;
  }

  /** An accepted PATCH changes exactly its non-null fields of one service. Identity and order are kept, the
    * service runs afterwards if it ran before and its port can be bound, and all other services and the selection
    * are untouched. */
  lemma {:induction false} PatchIsExact(r: Registry, port: int, patch: Dict, env: Environment)
    requires HandlePatch(r, port, patch, env).reply == Ok
    ensures var q := HandlePatch(r, port, patch, env).registry;
            var i := Lookup(r.services, port);
            && i < |r.services| == |q.services| && q.selected == r.selected
            && (forall j :: 0 <= j < |r.services| && j != i ==> q.services[j] == r.services[j])
            && q.services[i].id == r.services[i].id
            && PortOf(q.services[i]).Int?
            && q.services[i].running == (r.services[i].running && PortOf(q.services[i]).i in env.bindable)
            && IsPatched(r.services[i].config, q.services[i].config, patch)
  {
    var i := Lookup(r.services, port);
    var was := r.services[i].config;
    MergeIsPatch(was, patch);
    var c := ToConfig(Merge(was, PatchFields(patch))).value;
    assert FieldValid(TcpPort, c[TcpPort]);
    UpdateFacts(r, i, c, env);
    hide UpdateAt, Merge, PatchFields, PatchValid, ModelValid, ToConfig, IsPatched;
  }

  lemma {:induction false} UpdateFacts(r: Registry, i: nat, c: Config, env: Environment)
    requires i < |r.services|
    ensures var q := UpdateAt(r, i, c, env);
            && |q.services| == |r.services| && q.selected == r.selected
            && (forall j :: 0 <= j < |r.services| && j != i ==> q.services[j] == r.services[j])
            && q.services[i].id == r.services[i].id && q.services[i].config == c
            && q.services[i].running == (r.services[i].running && c[TcpPort].Int? && c[TcpPort].i in env.bindable)
  {
  }

  /** Deleting a mapping that has just been added restores services, cards and selection. */
  lemma {:induction false} DeleteUndoesCreate(r: Registry, model: Config, env: Environment, env': Environment)
    requires Inv(r) && Handle(r, Create(model), env).reply == Ok
    requires model[TcpPort].Int?
    ensures var added := Handle(r, Create(model), env).registry;
            var removed := Handle(added, Delete(model[TcpPort].i), env');
            && removed.reply == Ok
            && removed.registry.services == r.services
            && removed.registry.cards == r.cards
            && removed.registry.selected == r.selected
  {
    var n, id := |r.services|, r.nextId;
    assert !HasId(r.services, id);
    hide HasId, Inv, Complete, Configs, ModelValid, ToConfig, FieldValid, Load, Save;
    var added := Handle(r, Create(model), env).registry;
    assert added.services == r.services + [added.services[n]];
    assert added.services[..n] == r.services && added.services[n + 1..] == [];
    assert PortOf(added.services[n]) == model[TcpPort];
    LookupLast(r.services, added.services[n], model[TcpPort].i);
    WithoutLast(r.cards, id);
    assert r.services + [] == r.services;
  }

  lemma {:induction false} LookupLast(services: seq<Service>, s: Service, port: int)
    requires PortOf(s) == Int(port) && Lookup(services, port) == |services|
    ensures Lookup(services + [s], port) == |services|
  {
    var more := services + [s];
    assert more[|services|] == s;
    assert forall k :: 0 <= k < |services| ==> more[k] == services[k];
  }

  lemma {:induction false} WithoutLast(cards: seq<nat>, id: nat)
    requires id !in cards
    ensures Without(cards + [id], id) == cards
  {
    if cards == [] {
      assert (cards + [id])[1..] == [];
    } else {
      assert (cards + [id])[1..] == cards[1..] + [id];
      WithoutLast(cards[1..], id);
    }
  }
}
