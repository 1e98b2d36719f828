/** The mapping registry: the application's services, cards, selection and saved file, changed by API requests
  * that run one at a time on the main loop (`GuiController` over the control surface of `App`).
  *
  * `Handle` is one request. A service is a value with an identity; a card is the identity of its service. The
  * environment says at which TCP ports a listener can be bound and whether the file can be written.
  */
module Registries {
  import opened Bytes
  import opened PortConfigs

  datatype Service = Service(id: nat, config: Config, running: bool)

  datatype Registry = Registry(
    services: seq<Service>,
    cards: seq<nat>,
    selected: Option<nat>,
    nextId: nat,
    file: Doc)

  datatype Request =
    | Create(model: Config)
    | Patch(port: int, patch: Dict)
    | Delete(port: int)
    | Start(port: int)
    | Stop(port: int)
    | StartAll
    | StopAll

  datatype Environment = Environment(bindable: set<int>, writable: bool)

  datatype Reply = Ok | Rejected(code: nat)

  datatype Outcome = Outcome(registry: Registry, reply: Reply)

  // ---------------------------------------------------------------------------- lookups

  function PortOf(s: Service): Value {
    s.config[TcpPort]
  }

  /** Index of the first service on a TCP port, or the number of services. */
  function Lookup(services: seq<Service>, port: int): (i: nat)
    ensures i <= |services|
    ensures i < |services| ==> PortOf(services[i]) == Int(port)
    ensures forall j :: 0 <= j < i ==> PortOf(services[j]) != Int(port)
  {
    if services == [] || PortOf(services[0]) == Int(port) then 0 else 1 + Lookup(services[1..], port)
  }

  function Configs(services: seq<Service>): seq<Config> {
    if services == [] then [] else [services[0].config] + Configs(services[1..])
  }

  function Without(cards: seq<nat>, id: nat): seq<nat> {
    if cards == [] then [] else if cards[0] == id then cards[1..] else [cards[0]] + Without(cards[1..], id)
  }

  function SaveFile(r: Registry, env: Environment): Registry {
    if env.writable then r.(file := Save(Configs(r.services))) else r
  }

  // --------------------------------------------------------------------------- requests

  /** The fields a PATCH sets; explicit nulls are ignored. */
  function PatchFields(patch: Dict): Dict {
    map k | k in patch && patch[k] != Null :: patch[k]
  }

  predicate PatchValid(patch: Dict) {
    forall k :: k in patch ==> Known(k) && (patch[k] == Null || FieldValid(k, patch[k]))
  }

  function Merge(c: Config, fields: Dict): Config
    requires forall k :: k in fields ==> Known(k)
  {
    c + fields
  }

  function StartService(s: Service, env: Environment): Service {
    if s.running then s
    else if PortOf(s).Int? && PortOf(s).i in env.bindable then s.(running := true)
    else s
  }

  function StartEach(services: seq<Service>, env: Environment): seq<Service> {
    if services == [] then [] else [StartService(services[0], env)] + StartEach(services[1..], env)
  }

  function StopEach(services: seq<Service>): seq<Service> {
    if services == [] then [] else [services[0].(running := false)] + StopEach(services[1..])
  }

  /** A new configuration; a running service is restarted, and the card moves to the end of the list. */
  function UpdateAt(r: Registry, i: nat, c: Config, env: Environment): Registry
    requires i < |r.services|
  {
    var s := r.services[i];
    var stopped := s.(config := c, running := false);
    var updated := if s.running then StartService(stopped, env) else stopped;
    var cards := if s.id in r.cards then Without(r.cards, s.id) + [s.id] else r.cards;
    SaveFile(r.(services := r.services[i := updated], cards := cards), env)
  }

  function RemoveAt(r: Registry, i: nat, env: Environment): Registry
    requires i < |r.services|
  {
    var id := r.services[i].id;
    var rest := r.services[..i] + r.services[i + 1..];
    var selected := if r.selected != Some(id) then r.selected else if rest != [] then Some(rest[0].id) else None;
    SaveFile(r.(services := rest, cards := Without(r.cards, id), selected := selected), env)
  }

  function AddConfig(r: Registry, c: Config, env: Environment): Registry {
    var s := Service(r.nextId, c, false);
    SaveFile(r.(services := r.services + [s], cards := r.cards + [s.id], nextId := r.nextId + 1), env)
  }

  function HandleCreate(r: Registry, model: Config, env: Environment): Outcome {
    if !ModelValid(model) then Outcome(r, Rejected(422))
    else match ToConfig(model)
      case None => Outcome(r, Rejected(422))
      case Some(c) =>
        if Lookup(r.services, PortNumber(c)) < |r.services| then Outcome(r, Rejected(409))
        else Outcome(AddConfig(r, c, env), Ok)
  }

  /** The update of service i to a merged model, once the request has found it. */
  function HandleMerged(r: Registry, i: nat, model: Config, env: Environment): Outcome
    requires i < |r.services|
  {
    if !ModelValid(model) then Outcome(r, Rejected(500))
    else match ToConfig(model)
      case None => Outcome(r, Rejected(422))
      case Some(c) =>
        var other := Lookup(r.services, PortNumber(c));
        if other < |r.services| && other != i then Outcome(r, Rejected(409))
        else Outcome(UpdateAt(r, i, c, env), Ok)
  }

  function HandlePatch(r: Registry, port: int, patch: Dict, env: Environment): Outcome {
    if !PatchValid(patch) then Outcome(r, Rejected(422))
    else
      var i := Lookup(r.services, port);
      if i == |r.services| then Outcome(r, Rejected(404))
      else HandleMerged(r, i, Merge(r.services[i].config, PatchFields(patch)), env)
  }

  function HandleStart(r: Registry, port: int, env: Environment): Outcome {
    var i := Lookup(r.services, port);
    if i == |r.services| then Outcome(r, Rejected(404))
    else
      var s := StartService(r.services[i], env);
      if s.running then Outcome(r.(services := r.services[i := s]), Ok) else Outcome(r, Rejected(409))
  }

  function Handle(r: Registry, q: Request, env: Environment): Outcome {
    match q
    case Create(model) => HandleCreate(r, model, env)
    case Patch(port, patch) => HandlePatch(r, port, patch, env)
    case Delete(port) =>
      var i := Lookup(r.services, port);
      if i == |r.services| then Outcome(r, Rejected(404)) else Outcome(RemoveAt(r, i, env), Ok)
    case Start(port) => HandleStart(r, port, env)
    case Stop(port) =>
      var i := Lookup(r.services, port);
      if i == |r.services| then Outcome(r, Rejected(404))
      else Outcome(r.(services := r.services[i := r.services[i].(running := false)]), Ok)
    case StartAll => Outcome(r.(services := StartEach(r.services, env)), Ok)
    case StopAll => Outcome(r.(services := StopEach(r.services)), Ok)
  }

  /** The services that `start_all` reports: those that do not run afterwards. */
  function Failed(services: seq<Service>, env: Environment): seq<nat> {
    if services == [] then []
    else (if StartService(services[0], env).running then [] else [services[0].id]) + Failed(services[1..], env)
  }

  // ---------------------------------------------------------------------------- loading

  function Services(configs: seq<Config>, id: nat): seq<Service> {
    if configs == [] then [] else [Service(id, configs[0], false)] + Services(configs[1..], id + 1)
  }

  function Ids(from: nat, n: nat): seq<nat> {
    seq(n, i requires i >= 0 => from + i)
  }

  /** Services that ask for it are started when the file is loaded. */
  function StartIfAsked(s: Service, env: Environment): Service {
    if Truthy(s.config[Autostart]) then StartService(s, env) else s
  }

  function StartAsked(services: seq<Service>, env: Environment): seq<Service> {
    if services == [] then [] else [StartIfAsked(services[0], env)] + StartAsked(services[1..], env)
  }

  /** The application after loading its file. */
  function Opened(doc: Doc, env: Environment): Registry {
    var configs := Load(doc);
    Registry(StartAsked(Services(configs, 0), env), Ids(0, |configs|), if configs == [] then None else Some(0),
             |configs|, doc)
  }

  // ------------------------------------------------------------------- queue and answers

  /** A request with what it meets when its turn comes. An abandoned one is one whose caller stops waiting before
    * it has run: the caller is answered 503, and the request stays in the queue. */
  datatype Job = Job(request: Request, env: Environment, abandoned: bool)

  /** Whether a request gets as far as the queue. Bodies, and the choices and device of a new mapping, are checked
    * before. */
  predicate Queued(q: Request) {
    match q
    case Create(model) => ModelValid(model) && ToConfig(model).Some?
    case Patch(_, patch) => PatchValid(patch)
    case _ => true
  }

  /** Whether the answer to an accepted request can be put together: the states it reports hold configurations,
    * and these have to satisfy the request model, also if they came from the file. */
  predicate Shown(r: Registry, q: Request) {
    match q
    case Start(port) =>
      var i := Lookup(r.services, port); i < |r.services| ==> ModelValid(r.services[i].config)
    case Stop(port) =>
      var i := Lookup(r.services, port); i < |r.services| ==> ModelValid(r.services[i].config)
    case StartAll => forall s :: s in r.services ==> ModelValid(s.config)
    case StopAll => forall s :: s in r.services ==> ModelValid(s.config)
    case _ => true
  }

  /** What the caller is told. */
  function Answer(r: Registry, job: Job): Reply {
    var turn := Handle(r, job.request, job.env);
    if !Queued(job.request) then turn.reply
    else if job.abandoned then Rejected(503)
    else if turn.reply == Ok && !Shown(turn.registry, job.request) then Rejected(500)
    else turn.reply
  }

  function Answers(r: Registry, jobs: seq<Job>): seq<Reply>
    decreases |jobs|
  {
    if jobs == [] then []
    else [Answer(r, jobs[0])] + Answers(Handle(r, jobs[0].request, jobs[0].env).registry, jobs[1..])
  }

  /** Requests run one after the other, in the order in which they were queued. */
  function Run(r: Registry, jobs: seq<Job>): Registry
    decreases |jobs|
  {
    if jobs == [] then r else Run(Handle(r, jobs[0].request, jobs[0].env).registry, jobs[1..])
  }

  // -------------------------------------------------------------------------- invariant

  ghost predicate IdsDistinct(services: seq<Service>) {
    forall i, j :: 0 <= i < j < |services| ==> services[i].id != services[j].id
  }

  ghost predicate PortsUnique(services: seq<Service>) {
    forall i, j :: 0 <= i < j < |services| ==> PortOf(services[i]) != PortOf(services[j])
  }

  ghost predicate CardsDistinct(cards: seq<nat>) {
    forall i, j :: 0 <= i < j < |cards| ==> cards[i] != cards[j]
  }

  ghost predicate HasId(services: seq<Service>, id: nat) {
    exists i :: 0 <= i < |services| && services[i].id == id
  }

  /** Services and cards are in bijection. */
  ghost predicate Paired(services: seq<Service>, cards: seq<nat>) {
    IdsDistinct(services) && CardsDistinct(cards) && forall id :: id in cards <==> HasId(services, id)
  }

  ghost predicate AllComplete(services: seq<Service>) {
    forall i :: 0 <= i < |services| ==> Complete(services[i].config)
  }

  ghost predicate Fresh(services: seq<Service>, nextId: nat) {
    forall i :: 0 <= i < |services| ==> services[i].id < nextId
  }

  ghost predicate Inv(r: Registry) {
    && Fresh(r.services, r.nextId)
    && Paired(r.services, r.cards)
    && PortsUnique(r.services)
    && AllComplete(r.services)
    && (r.selected.Some? ==> HasId(r.services, r.selected.value))
  }

  /** The saved file describes the current services. */
  ghost predicate Synced(r: Registry) {
    Load(r.file) == Configs(r.services)
  }
}
