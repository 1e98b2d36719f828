/** The application as the object whose lists the requests update, and the queue through which other threads
  * hand requests to the main loop. Each method's contract is the corresponding request of `Registries`. */
module RegistryObject {
  import opened Bytes
  import opened PortConfigs
  import opened Registries
  import RegistryTheorems

  class App {
    var services: seq<Service>
    var cards: seq<nat>
    var selected: Option<nat>
    var nextId: nat
    var file: Doc
    var calls: seq<Job>

    function State(): Registry
      reads this
    {
      Registry(services, cards, selected, nextId, file)
    }

    constructor (doc: Doc, env: Environment)
      ensures State() == Opened(doc, env) && calls == []
    {
      hide LoadEntries, Entries, Services, Ids, StartAsked;
      var configs := LoadConfigs(doc);
      services, cards, nextId := [], [], 0;
      selected, file, calls := None, doc, [];
      new;
      while nextId < |configs|
        invariant 0 <= nextId <= |configs| && |services| == |cards| == nextId
        invariant forall i :: 0 <= i < nextId ==> services[i] == Service(i, configs[i], false) && cards[i] == i
        invariant selected == None && file == doc && calls == []
      {
        services := services + [Service(nextId, configs[nextId], false)];
        cards := cards + [nextId];
        nextId := nextId + 1;
      }
      RegistryTheorems.OpenedLists(services, cards, configs);
      StartAskedPorts(env);
      if |services| > 0 {
        selected := Some(services[0].id);
      }
    }

    method StartAskedPorts(env: Environment)
      modifies this`services
      ensures services == StartAsked(old(services), env)
      ensures |services| == |old(services)| && (services != [] ==> services[0].id == old(services)[0].id)
    {
      hide StartIfAsked;
      RegistryTheorems.StartAskedFacts(services, env);
      RegistryTheorems.StartAskedAt(services, env);
      var k := 0;
      while k < |services|
        invariant 0 <= k <= |services| == |old(services)|
        invariant forall j :: 0 <= j < k ==> services[j] == StartIfAsked(old(services)[j], env)
        invariant forall j :: k <= j < |services| ==> services[j] == old(services)[j]
      {
        services := services[k := StartIfAsked(services[k], env)];
        k := k + 1;
      }
    }

    method Find(port: int) returns (i: nat)
      ensures i == Lookup(services, port)
    {
      i := 0;
      while i < |services| && PortOf(services[i]) != Int(port)
        invariant 0 <= i <= |services|
        invariant i + Lookup(services[i..], port) == Lookup(services, port)
      {
        assert services[i..][1..] == services[i + 1..];
        i := i + 1;
      }
    }

    method SaveNow(env: Environment)
      modifies this`file
      ensures State() == SaveFile(old(State()), env)
    {
      if env.writable {
        file := Save(Configs(services));
      }
    }

    method AddPortConfig(c: Config, env: Environment)
      modifies this`services, this`cards, this`nextId, this`file
      ensures State() == AddConfig(old(State()), c, env)
    {
      services := services + [Service(nextId, c, false)];
      cards := cards + [nextId];
      nextId := nextId + 1;
      SaveNow(env);
    }

    method CreatePort(model: Config, env: Environment) returns (reply: Reply)
      modifies this`services, this`cards, this`nextId, this`file
      ensures Outcome(State(), reply) == HandleCreate(old(State()), model, env)
    {
      ConfigsAccepted(model);
      hide ModelValid, ToConfig, AddConfig, Acceptable;
      if !ModelValid(model) {
        return Rejected(422);
      }
      var config := ToConfig(model);
      if config == None {
        return Rejected(422);
      }
      var i := Find(config.value[TcpPort].i);
      if i < |services| {
        return Rejected(409);
      }
      AddPortConfig(config.value, env);
      reply := Ok;
    }

    method UpdatePortConfig(i: nat, c: Config, env: Environment)
      requires i < |services|
      modifies this`services, this`cards, this`file
      ensures State() == UpdateAt(old(State()), i, c, env)
    {
      var service := services[i];
      var wasRunning := service.running;
      service := service.(running := false, config := c);
      if wasRunning {
        service := StartService(service, env);
      }
      services := services[i := service];
      if service.id in cards {
        cards := Without(cards, service.id) + [service.id];
      }
      SaveNow(env);
    }

    method UpdatePort(port: int, patch: Dict, env: Environment) returns (reply: Reply)
      modifies this`services, this`cards, this`file
      ensures Outcome(State(), reply) == HandlePatch(old(State()), port, patch, env)
    {
      if !PatchValid(patch) {
        return Rejected(422);
      }
      var i := Find(port);
      if i == |services| {
        return Rejected(404);
      }
      var merged := Merge(services[i].config, PatchFields(patch));
      if !ModelValid(merged) {
        return Rejected(500);
      }
      var config := ToConfig(merged);
      if config == None {
        return Rejected(422);
      }
      assert FieldValid(TcpPort, config.value[TcpPort]);
      var other := Find(config.value[TcpPort].i);
      if other < |services| && other != i {
        return Rejected(409);
      }
      hide ModelValid, PatchValid, ToConfig;
      UpdatePortConfig(i, config.value, env);
      reply := Ok;
    }

    method RemovePortConfig(i: nat, env: Environment)
      requires i < |services|
      modifies this`services, this`cards, this`selected, this`file
      ensures State() == RemoveAt(old(State()), i, env)
    {
      var id := services[i].id;
      cards := Without(cards, id);
      services := services[..i] + services[i + 1..];
      if selected == Some(id) {
        selected := if services != [] then Some(services[0].id) else None;
      }
      SaveNow(env);
    }

    method DeletePort(port: int, env: Environment) returns (reply: Reply)
      modifies this`services, this`cards, this`selected, this`file
      ensures Outcome(State(), reply) == Handle(old(State()), Delete(port), env)
    {
      var i := Find(port);
      if i == |services| {
        return Rejected(404);
      }
      RemovePortConfig(i, env);
      reply := Ok;
    }

    method StartPort(port: int, env: Environment) returns (reply: Reply)
      modifies this`services
      ensures Outcome(State(), reply) == HandleStart(old(State()), port, env)
    {
      var i := Find(port);
      if i == |services| {
        return Rejected(404);
      }
      var service := StartService(services[i], env);
      if !service.running {
        return Rejected(409);
      }
      services := services[i := service];
      reply := Ok;
    }

    method StopPort(port: int) returns (reply: Reply)
      modifies this`services
      ensures forall env :: Outcome(State(), reply) == Handle(old(State()), Stop(port), env)
    {
      var i := Find(port);
      if i == |services| {
        return Rejected(404);
      }
      services := services[i := services[i].(running := false)];
      reply := Ok;
    }

    /** Reports the services that do not run afterwards. */
    method StartAllPorts(env: Environment) returns (failed: seq<nat>)
      modifies this`services
      ensures State() == old(State()).(services := StartEach(old(services), env))
      ensures failed == Failed(old(services), env)
    {
      hide StartService;
      RegistryTheorems.EachFacts(services, env);
      ghost var before := services;
      ghost var all := Failed(services, env);
      assert services[0..] == services && [] + all == all;
      hide Failed;
      failed := [];
      var k := 0;
      while k < |services|
        invariant 0 <= k <= |services| == |before|
        invariant forall j :: 0 <= j < k ==> services[j] == StartService(before[j], env)
        invariant forall j :: k <= j < |services| ==> services[j] == before[j]
        invariant failed + Failed(before[k..], env) == all
      {
        RegistryTheorems.FirstFailed(before, k, env, failed);
        var service := StartService(services[k], env);
        failed := failed + if service.running then [] else [services[k].id];
        RegistryTheorems.StartKeepsId(services[k], env);
        services := services[k := service];
        k := k + 1;
      }
      RegistryTheorems.NoneFailed(env);
      assert before[k..] == [] && services == StartEach(before, env);
    }

    method StopAllPorts()
      modifies this`services
      ensures State() == old(State()).(services := StopEach(old(services)))
    {
      RegistryTheorems.EachFacts(services, Environment({}, false));
      var k := 0;
      while k < |services|
        invariant 0 <= k <= |services| == |old(services)|
        invariant forall j :: 0 <= j < k ==> services[j] == old(services)[j].(running := false)
        invariant forall j :: k <= j < |services| ==> services[j] == old(services)[j]
      {
        services := services[k := services[k].(running := false)];
        k := k + 1;
      }
      assert services == StopEach(old(services));
    }

    method Perform(request: Request, env: Environment) returns (reply: Reply)
      modifies this`services, this`cards, this`selected, this`nextId, this`file
      ensures Outcome(State(), reply) == Handle(old(State()), request, env)
    {
      hide HandleCreate, HandlePatch, HandleStart;
      reply := Ok;
      match request {
        case Create(model) => reply := CreatePort(model, env);
        case Patch(port, patch) => reply := UpdatePort(port, patch, env);
        case Delete(port) => reply := DeletePort(port, env);
        case Start(port) => reply := StartPort(port, env);
        case Stop(port) => reply := StopPort(port);
        case StartAll => var _ := StartAllPorts(env);
        case StopAll => StopAllPorts();
      }
    }

    /** Runs the request at once if that is the main thread, and otherwise queues it, unless it is refused before.
      * The caller has its answer, or waits for it. */
    method CallOnMain(job: Job, onMain: bool) returns (answer: Option<Reply>)
      modifies this
      ensures !Queued(job.request) ==> answer == Some(Rejected(422)) && State() == old(State()) && calls == old(calls)
      ensures Queued(job.request) && onMain ==>
                answer.Some? && Outcome(State(), answer.value) == Handle(old(State()), job.request, job.env) && calls == old(calls)
      ensures Queued(job.request) && !onMain ==>
                answer == None && State() == old(State()) && calls == old(calls) + [job]
    {
      hide Handle;
      if !Queued(job.request) {
        return Some(Rejected(422));
      }
      hide Queued;
      if onMain {
        var reply := Perform(job.request, job.env);
        return Some(reply);
      }
      calls := calls + [job];
      answer := None;
    }

    /** A caller stops waiting. Its request stays where it is. */
    method GiveUp(k: nat)
      requires k < |calls|
      modifies this`calls
      ensures calls == old(calls)[k := old(calls)[k].(abandoned := true)]
    {
      calls := calls[k := calls[k].(abandoned := true)];
    }

    /** The turn of one request, and what its caller is told. */
    method Turn(job: Job) returns (answer: Reply)
      modifies this`services, this`cards, this`selected, this`nextId, this`file
      ensures State() == Handle(old(State()), job.request, job.env).registry
      ensures answer == Answer(old(State()), job)
    {
      hide Handle, Queued, Shown;
      answer := Perform(job.request, job.env);
      if Queued(job.request) && job.abandoned {
        answer := Rejected(503);
      } else if Queued(job.request) && answer == Ok && !Shown(State(), job.request) {
        answer := Rejected(500);
      }
    }

    /** The main loop drains the queue; each result is forwarded to the caller that waits for it. */
    method Tick() returns (answers: seq<Reply>)
      modifies this
      ensures State() == Run(old(State()), old(calls)) && calls == []
      ensures answers == Answers(old(State()), old(calls))
    {
      hide Handle, Answer;
      answers := [];
      ghost var all := Answers(State(), calls);
      assert answers + all == all;
      while calls != []
        invariant Run(State(), calls) == Run(old(State()), old(calls))
        invariant answers + Answers(State(), calls) == all
        decreases |calls|
      {
        RegistryTheorems.FirstAnswer(State(), calls, answers);
        var job := calls[0];
        calls := calls[1..];
        var answer := Turn(job);
        answers := answers + [answer];
      }
    }
  }
}
