/** What each request leaves behind, and what it is answered, said without the functions that carry it out. */
module RegistryExact {
  import opened Bytes
  import opened PortConfigs
  import opened Registries
  import opened RegistryTheorems
  import opened RegistryAnswers

  /** The first service on the port is the one at i. */
  ghost predicate FirstOn(services: seq<Service>, i: nat, port: int) {
    && i < |services| && services[i].config[TcpPort] == Int(port)
    && forall j :: 0 <= j < i ==> services[j].config[TcpPort] != Int(port)
  }

  lemma {:induction false} LookupIsFirst(services: seq<Service>, port: int)
    ensures var i := Lookup(services, port);
            if i < |services| then FirstOn(services, i, port)
            else forall j :: 0 <= j < |services| ==> services[j].config[TcpPort] != Int(port)
  {
    hide Lookup;
    assert forall j :: 0 <= j < |services| ==> PortOf(services[j]) == services[j].config[TcpPort];
  }

  // ------------------------------------------------------------------------- create

  /** An accepted new mapping is added at the end, stopped, with the model's fields and the device stripped; nothing
    * else changes but its card at the end of the cards. */
  lemma {:induction false} CreateIsExact(r: Registry, model: Config, env: Environment)
    requires HandleCreate(r, model, env).reply == Ok
    ensures var q := HandleCreate(r, model, env).registry;
            && |q.services| == |r.services| + 1 && q.services[..|r.services|] == r.services
            && q.cards == r.cards + [r.nextId] && q.nextId == r.nextId + 1 && q.selected == r.selected
            && var s := q.services[|r.services|];
               && s.id == r.nextId && !s.running
               && (forall k :: Known(k) && k != Device ==> s.config[k] == model[k])
               && model[Device].Str? && s.config[Device] == Str(Strip(model[Device].s))
  {
    hide Lookup, Strip, ModelValid, Configs, Save;
  }

  // ------------------------------------------------------------------------- delete

  /** What is left of a list of cards is the same list without one. */
  lemma {:induction false} WithoutExact(cards: seq<nat>, id: nat) returns (k: nat)
    ensures if id in cards then k < |cards| && cards[k] == id && Without(cards, id) == cards[..k] + cards[k + 1..]
            else Without(cards, id) == cards
  {
    k := 0;
    if id in cards && cards[0] != id {
      k := WithoutExact(cards[1..], id);
      assert cards[1..][..k] == cards[1..k + 1] && cards[1..][k + 1..] == cards[k + 2..];
      k := k + 1;
      assert cards[..k] == [cards[0]] + cards[1..k];
    } else if id !in cards && cards != [] {
      var _ := WithoutExact(cards[1..], id);
      assert [cards[0]] + cards[1..] == cards;
    }
  }

  /** An accepted DELETE removes exactly the first service on the port, and its card; every other service and card
    * stays as it is and in its order. If ports were unique nothing is left on the port. The selection stays unless it
    * was the removed service; then it is the first one left, or none. */
  lemma {:induction false} DeleteIsExact(r: Registry, port: int, env: Environment) returns (i: nat, k: nat)
    requires Inv(r) && Handle(r, Delete(port), env).reply == Ok
    ensures FirstOn(r.services, i, port) && k < |r.cards| && r.cards[k] == r.services[i].id
    ensures var q := Handle(r, Delete(port), env).registry;
            && q.services == r.services[..i] + r.services[i + 1..]
            && q.cards == r.cards[..k] + r.cards[k + 1..]
            && (forall s :: s in q.services ==> s.config[TcpPort] != Int(port))
            && (r.selected != Some(r.services[i].id) ==> q.selected == r.selected)
            && (r.selected == Some(r.services[i].id) ==>
                  q.selected == if q.services == [] then None else Some(q.services[0].id))
  {
    i := Lookup(r.services, port);
    LookupIsFirst(r.services, port);
    assert HasId(r.services, r.services[i].id);
    assert PortsUnique(r.services) && r.services[i].id in r.cards;
    hide Inv, Lookup, HasId, Complete, Configs, Save, Without;
    k := WithoutExact(r.cards, r.services[i].id);
    OthersElsewhere(r.services, i, port);
  }

  lemma {:induction false} OthersElsewhere(s: seq<Service>, i: nat, port: int)
    requires PortsUnique(s) && i < |s| && s[i].config[TcpPort] == Int(port)
    ensures forall t :: t in s[..i] + s[i + 1..] ==> t.config[TcpPort] != Int(port)
  {
    forall t | t in s[..i] + s[i + 1..] ensures t.config[TcpPort] != Int(port) {
      var j :| 0 <= j < |s| && j != i && s[j] == t;
      assert PortOf(s[i]) != PortOf(s[j]);
    }
  }

  // ------------------------------------------------------------------------- start, stop

  /** The registry with the running flag of one service set. */
  ghost predicate OnlyFlag(r: Registry, q: Registry, i: nat, running: bool) {
    && i < |r.services| && q == r.(services := q.services) && |q.services| == |r.services|
    && q.services[i] == r.services[i].(running := running)
    && forall j :: 0 <= j < |r.services| && j != i ==> q.services[j] == r.services[j]
  }

  /** An accepted start or stop sets the running flag of the first service on the port, and changes nothing else. */
  lemma {:induction false} StartStopExact(r: Registry, port: int, env: Environment, start: bool) returns (i: nat)
    requires Handle(r, if start then Start(port) else Stop(port), env).reply == Ok
    ensures FirstOn(r.services, i, port)
    ensures OnlyFlag(r, Handle(r, if start then Start(port) else Stop(port), env).registry, i, start)
  {
    i := Lookup(r.services, port);
    LookupIsFirst(r.services, port);
    hide Lookup;
  }

  /** `start_all` leaves those services running that ran before or whose port can be bound, `stop_all` none. */
  lemma {:induction false} AllExact(r: Registry, env: Environment)
    ensures var q := Handle(r, StartAll, env).registry;
            && q == r.(services := q.services) && |q.services| == |r.services|
            && forall i :: 0 <= i < |r.services| ==>
                 var port := r.services[i].config[TcpPort];
                 q.services[i] == r.services[i].(running := r.services[i].running || (port.Int? && port.i in env.bindable))
    ensures var q := Handle(r, StopAll, env).registry;
            && q == r.(services := q.services) && |q.services| == |r.services|
            && forall i :: 0 <= i < |r.services| ==> q.services[i] == r.services[i].(running := false)
  {
    EachFacts(r.services, env);
    hide StartEach, StopEach;
  }

  /** After a PATCH the card of the mapping is the last one; the others keep their order. */
  lemma {:induction false} PatchMovesCard(r: Registry, port: int, patch: Dict, env: Environment) returns (i: nat, k: nat)
    requires Inv(r) && HandlePatch(r, port, patch, env).reply == Ok
    ensures FirstOn(r.services, i, port) && k < |r.cards| && r.cards[k] == r.services[i].id
    ensures HandlePatch(r, port, patch, env).registry.cards == r.cards[..k] + r.cards[k + 1..] + [r.cards[k]]
  {
    i := Lookup(r.services, port);
    LookupIsFirst(r.services, port);
    assert HasId(r.services, r.services[i].id);
    assert r.services[i].id in r.cards;
    hide Inv, Lookup, HasId, Complete, Configs, Save, Without, StartService;
    k := WithoutExact(r.cards, r.services[i].id);
    CardsOfPatch(r, port, patch, env);
  }

  lemma {:induction false} CardsOfPatch(r: Registry, port: int, patch: Dict, env: Environment)
    requires HandlePatch(r, port, patch, env).reply == Ok
    ensures var i := Lookup(r.services, port);
            && i < |r.services|
            && HandlePatch(r, port, patch, env).registry.cards
            == if r.services[i].id in r.cards then Without(r.cards, r.services[i].id) + [r.services[i].id] else r.cards
  {
    hide Lookup, Merge, PatchFields, PatchValid, ModelValid, ToConfig, Without, StartService, Save, Configs;
    if PatchValid(patch) {
      FieldsAreKnown(patch);
    }
  }

  /** The file is left alone when it cannot be written, and by everything that only starts and stops. */
  lemma {:induction false} FileStays(r: Registry, q: Request, env: Environment)
    requires !env.writable || q.Start? || q.Stop? || q.StartAll? || q.StopAll?
    ensures Handle(r, q, env).registry.file == r.file
  {
    hide Lookup, Merge, PatchFields, ModelValid, ToConfig, Without, StartService, Save, Configs, StartEach, StopEach;
  }

  // ------------------------------------------------------------------------- loading

  /** The application after loading: one service and one card for each configuration, in order, running exactly if it
    * asks for it and its port can be bound; the first one is selected. */
  lemma {:induction false} OpenedIsExact(doc: Doc, env: Environment)
    ensures var r, configs := Opened(doc, env), Load(doc);
            && |r.services| == |r.cards| == |configs| && r.file == doc
            && r.selected == (if configs == [] then None else Some(0))
            && forall i :: 0 <= i < |configs| ==>
                 && r.cards[i] == i == r.services[i].id && r.services[i].config == configs[i]
                 && (configs[i][Autostart].Bool? ==>
                       (r.services[i].running <==>
                          configs[i][Autostart].b && configs[i][TcpPort].Int? && configs[i][TcpPort].i in env.bindable))
  {
    var configs := Load(doc);
    hide Load, Services, StartAsked;
    ServicesAt(configs, 0);
    StartAskedAt(Services(configs, 0), env);
  }

  // ------------------------------------------------------------------------- replies

  /** The reply to each request, from the registry before it. */
  ghost function ReplyTo(r: Registry, q: Request, env: Environment): Reply {
    match q
    case Create(model) =>
      if !Acceptable(model) then Rejected(422)
      else if PortUsed(r.services, model[TcpPort]) then Rejected(409)
      else Ok
    case Patch(port, patch) =>
      if !PatchValid(patch) then Rejected(422)
      else if !PortUsed(r.services, Int(port)) then Rejected(404)
      else
        var i := Lookup(r.services, port);
        FoundIsUsed(r.services, port);
        var merged := Merge(r.services[i].config, PatchFields(patch));
        if !ModelValid(merged) then Rejected(500)
        else if !Acceptable(merged) then Rejected(422)
        else if Lookup(r.services, PortNumber(merged)) !in {i, |r.services|} then Rejected(409)
        else Ok
    case Delete(port) => if PortUsed(r.services, Int(port)) then Ok else Rejected(404)
    case Start(port) =>
      if !PortUsed(r.services, Int(port)) then Rejected(404)
      else
        FoundIsUsed(r.services, port);
        if r.services[Lookup(r.services, port)].running || port in env.bindable then Ok else Rejected(409)
    case Stop(port) => if PortUsed(r.services, Int(port)) then Ok else Rejected(404)
    case _ => Ok
  }

  lemma {:induction false} MergedReply(r: Registry, i: nat, model: Config, env: Environment)
    requires i < |r.services|
    ensures HandleMerged(r, i, model, env).reply
         == if !ModelValid(model) then Rejected(500)
            else if !Acceptable(model) then Rejected(422)
            else if Lookup(r.services, PortNumber(model)) !in {i, |r.services|} then Rejected(409)
            else Ok
  {
    ConfigsAccepted(model);
    hide Acceptable, ModelValid, UpdateAt, Lookup;
    if ModelValid(model) && ToConfig(model).Some? {
      assert PortNumber(ToConfig(model).value) == PortNumber(model);
    }
    hide ToConfig;
  }

  lemma {:induction false} RepliesExact(r: Registry, q: Request, env: Environment)
    ensures Handle(r, q, env).reply == ReplyTo(r, q, env)
  {
    hide Acceptable, ModelValid, PortUsed, Lookup, HandleMerged, Merge, PatchFields, RemoveAt, PatchValid;
    match q {
      case Create(model) =>
        CreateAccepts(r, model, env);
        CreateCodes(r, model, env);
      case Patch(port, patch) =>
        FoundIsUsed(r.services, port);
        if PatchValid(patch) && Lookup(r.services, port) < |r.services| {
          FieldsAreKnown(patch);
          var i := Lookup(r.services, port);
          MergedReply(r, i, Merge(r.services[i].config, PatchFields(patch)), env);
        }
      case Delete(port) => FoundIsUsed(r.services, port);
      case Start(port) => FoundIsUsed(r.services, port);
      case Stop(port) => FoundIsUsed(r.services, port);
      case _ =>
    }
  }

  lemma {:induction false} CreateCodes(r: Registry, model: Config, env: Environment)
    ensures HandleCreate(r, model, env).reply == Rejected(422) <==> !Acceptable(model)
    ensures HandleCreate(r, model, env).reply in {Ok, Rejected(409), Rejected(422)}
  {
    ConfigsAccepted(model);
    hide Acceptable, ModelValid, ToConfig, AddConfig, Lookup;
  }

  /** What the caller is told: 503 exactly if it stops waiting for a request that was queued; else 500 if the request
    * was accepted and the states to report violate the request model; else the reply to the request. */
  lemma {:induction false} AnswerExact(r: Registry, job: Job)
    ensures Queued(job.request) <==>
              match job.request
              case Create(model) => Acceptable(model)
              case Patch(_, patch) => forall k :: k in patch ==> Known(k) && (patch[k] == Null || FieldValid(k, patch[k]))
              case _ => true
    ensures Answer(r, job) == Rejected(503) <==> Queued(job.request) && job.abandoned
    ensures !(Queued(job.request) && job.abandoned) ==>
              Answer(r, job) == if ReplyTo(r, job.request, job.env) == Ok && Queued(job.request) && !Shown(r, job.request)
                                then Rejected(500) else ReplyTo(r, job.request, job.env)
  {
    RepliesExact(r, job.request, job.env);
    ShownBefore(r, job.request, job.env);
    if job.request.Create? {
      ConfigsAccepted(job.request.model);
    }
    hide Handle, Shown, Acceptable, ModelValid, ToConfig, Merge, PatchFields, Lookup, PortUsed, FieldValid;
  }
}
