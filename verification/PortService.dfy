/** One running service: TCP clients, the GUI terminal, the linger timer, the retry counter and the serial port
  * (`PortService`, with the client set of `SerialServer`).
  *
  * `Service` is the shared state and `Next` what one atomic step of one thread does to it. Callbacks are not
  * atomic: a client thread first leaves the client set, then reads the count, then reads the terminal flag,
  * then arms the timer, and the terminal clears its flag before it reads the count; anything may happen in
  * between. Single steps are: the steps of `SerialPorts`, the linger decision together with its close, one poll,
  * and stopping the server together with its accept loop. The control methods run on one thread, the GUI's. A
  * state describes one session, from the listener being up to the end of `stop`.
  */
module PortServices {
  import opened Bytes
  import SP = SerialPorts

  /** Times are in milliseconds. */
  const SERIAL_LINGER: nat := 3000
  const RECONNECT_INTERVAL: nat := 2000

  /** Where the GUI thread is. Booting: the listener is up but the running flag is not set yet. */
  datatype Gui =
    | Booting
    | Idle
    | ConnCancel      // connect_local: flag set, linger not cancelled yet
    | ConnOpen        // connect_local: about to open the port
    | DiscCount       // disconnect_local: flag cleared, count not read yet
    | DiscSchedule    // disconnect_local: no TCP client seen
    | StopLocal       // stop: running cleared
    | StopCancel
    | StopServer
    | StopClose
    | StopReset
    | Stopped

  /** Where a client thread is. Joined, Opening and Serving clients are in the client set. */
  datatype Client =
    | Joined          // in the set, connect callback not begun
    | Opening         // linger cancelled, about to open the port
    | Serving
    | Removed         // out of the set, count not read yet
    | CheckLocal      // no client seen, terminal flag not read yet
    | Schedule        // about to arm the linger timer

  /** A timer that has been started and neither cancelled nor finished. Once it has fired it cannot be cancelled. */
  datatype Timer = Timer(armedAt: nat, fired: bool)

  datatype Service = Service(
    port: SP.Port,
    running: bool,
    local: bool,
    accepting: bool,
    gui: Gui,
    clients: map<nat, Client>,
    timers: map<nat, Timer>,
    lingerTimer: Option<nat>,
    nextTimer: nat,
    now: nat,
    attempt: nat,
    lastRetry: nat,
    // history
    lastReset: nat,        // when the attempt counter was last reset
    lossReset: bool,       // that reset was a device loss with consumers attached
    lastDeparture: nat,    // when a consumer last left
    lastArm: nat,          // when the linger timer was last armed
    missed: bool)          // a close was declined while booting and none has been scheduled since

  function NewService(now: nat): Service {
    Service(SP.NEW_PORT, false, false, true, Booting, map[], map[], None, 0, now, 0, 0, now, false, 0, 0, false)
  }

  predicate InSet(c: Client) {
    c.Joined? || c.Opening? || c.Serving?
  }

  predicate OnTheWayOut(c: Client) {
    c.Removed? || c.CheckLocal? || c.Schedule?
  }

  predicate AnyIn(clients: map<nat, Client>) {
    exists c :: c in clients && InSet(clients[c])
  }

  /** The client set is not empty. */
  predicate Attached(s: Service) {
    AnyIn(s.clients)
  }

  /** `client_count` is zero: always so unless running. */
  predicate CountIsZero(s: Service) {
    !s.running || !Attached(s)
  }

  predicate HasConsumers(s: Service) {
    !CountIsZero(s) || s.local
  }

  datatype Status = StatusStopped | StatusRunning | StatusReconnecting

  function StatusOf(s: Service): Status {
    if !s.running then StatusStopped
    else if HasConsumers(s) && !s.port.isConnected then StatusReconnecting
    else StatusRunning
  }

  // ---------------------------------------------------------------------- atomic operations

  // The contracts below are frames: they say which parts of the state an operation may touch.

  function CancelLinger(s: Service): (q: Service)
    ensures q == s.(lingerTimer := None, timers := q.timers)
  {
    match s.lingerTimer
    case None => s
    case Some(t) =>
      if t in s.timers && s.timers[t].fired then s.(lingerTimer := None)
      else s.(lingerTimer := None, timers := s.timers - {t})
  }

  function ScheduleClose(s: Service): (q: Service)
    ensures q == s.(lingerTimer := q.lingerTimer, timers := q.timers, nextTimer := q.nextTimer,
                    lastArm := q.lastArm, missed := q.missed)
  {
    var q := CancelLinger(s);
    if !q.running then q.(missed := q.missed || q.gui.Booting?)
    else q.(timers := q.timers[q.nextTimer := Timer(q.now, false)], lingerTimer := Some(q.nextTimer),
            nextTimer := q.nextTimer + 1, lastArm := q.now, missed := false)
  }

  /** The disconnect callback of the port: a loss matters only while somebody is attached. */
  function NoteDisconnect(s: Service): (q: Service)
    ensures q == s.(attempt := q.attempt, lastRetry := q.lastRetry, lastReset := q.lastReset, lossReset := q.lossReset)
  {
    if s.running && HasConsumers(s) then s.(attempt := 0, lastRetry := s.now, lastReset := s.now, lossReset := true)
    else s
  }

  function ClosePort(s: Service): (q: Service)
    ensures q == s.(port := SP.Close(s.port), attempt := q.attempt, lastRetry := q.lastRetry,
                    lastReset := q.lastReset, lossReset := q.lossReset)
  {
    var q := if s.port.isConnected then NoteDisconnect(s) else s;
    q.(port := SP.Close(s.port))
  }

  /** A fired timer forgets the armed timer, whichever it is, and closes the port if nobody needs it. */
  function LingerClose(s: Service, t: nat): (q: Service)
    ensures q == s.(timers := s.timers - {t}, lingerTimer := None, port := q.port)
    ensures q.port == if !s.running || HasConsumers(s) then s.port else SP.Close(s.port)
  {
    var q := s.(timers := s.timers - {t}, lingerTimer := None);
    if !q.running || HasConsumers(q) then q else ClosePort(q)
  }

  function ReceiverExit(s: Service, r: nat): (q: Service)
    requires r in s.port.receivers
    ensures q == s.(port := SP.ReceiverExit(s.port, r), attempt := q.attempt, lastRetry := q.lastRetry,
                    lastReset := q.lastReset, lossReset := q.lossReset)
  {
    var closes := s.port.receivers[r].epoch == s.port.epoch && !s.port.closeSet && s.port.isConnected;
    var q := if closes then NoteDisconnect(s) else s;
    q.(port := SP.ReceiverExit(s.port, r))
  }

  function Poll(s: Service): (q: Service)
    ensures q == s.(lastRetry := q.lastRetry, attempt := q.attempt)
  {
    if StatusOf(s) == StatusReconnecting && s.now >= s.lastRetry + RECONNECT_INTERVAL
    then s.(lastRetry := s.now, attempt := s.attempt + 1)
    else s
  }

  function BeginDisconnect(s: Service): Service {
    if !s.local then s else s.(local := false, gui := DiscCount, lastDeparture := s.now)
  }

  function BeginStop(s: Service): Service {
    s.(running := false, gui := StopLocal)
  }

  /** Where the GUI thread goes next in `stop`. */
  function StopGui(g: Gui): Gui {
    match g
    case StopLocal => StopCancel
    case StopCancel => StopServer
    case StopServer => StopClose
    case StopClose => StopReset
    case StopReset => Stopped
    case _ => g
  }

  function StopStep(s: Service): (q: Service)
    ensures q.clients == s.clients && q.missed == s.missed && q.nextTimer == s.nextTimer && q.gui == StopGui(s.gui)
    ensures !s.gui.StopCancel? ==> q.timers == s.timers && q.lingerTimer == s.lingerTimer
    ensures s.gui.StopCancel? ==> q == CancelLinger(s).(gui := StopServer)
  {
    hide CancelLinger, ClosePort;
    match s.gui
    case StopLocal => s.(local := false, gui := StopCancel)
    case StopCancel => CancelLinger(s).(gui := StopServer)
    case StopServer => s.(accepting := false, gui := StopClose)
    case StopClose => ClosePort(s).(gui := StopReset)
    case StopReset => s.(attempt := 0, lastReset := s.now, lossReset := false, gui := Stopped)
    case _ => s
  }

  lemma {:induction false} CancelIgnoresClients(s: Service, clients: map<nat, Client>)
    ensures CancelLinger(s.(clients := clients)) == CancelLinger(s).(clients := clients)
  {
  }

  lemma {:induction false} ScheduleIgnoresClients(s: Service, clients: map<nat, Client>)
    ensures ScheduleClose(s.(clients := clients)) == ScheduleClose(s).(clients := clients)
  {
    CancelIgnoresClients(s, clients);
    hide CancelLinger;
  }

  // ------------------------------------------------------------------------------- steps

  datatype ClientStep = Accept | Cancel | Open(opens: bool) | Leave | Count | CheckFlag | Arm

  datatype GuiStep = Run | Connect | CancelTimer | OpenPort(opens: bool) | Disconnect | CountClients | ArmTimer | Stop | StopNext | DoPoll

  datatype TimerStep = Fire | Close

  /** A step of one thread, or of the clock. The port's own threads are the receivers, the reconnect threads and
    * whoever is at the end of a close. */
  datatype Action =
    | Tick(d: nat)
    | ByClient(c: nat, client: ClientStep)
    | ByGui(gui: GuiStep)
    | ByTimer(t: nat, timer: TimerStep)
    | ByPort(thread: SP.Action)

  predicate At(s: Service, c: nat, pc: Client) {
    c in s.clients && s.clients[c] == pc
  }

  function Go(s: Service, c: nat, pc: Client): Service {
    s.(clients := s.clients[c := pc])
  }

  function Gone(s: Service, c: nat): Service {
    s.(clients := s.clients - {c})
  }

  predicate ClientEnabled(s: Service, c: nat, a: ClientStep) {
    match a
    case Accept => s.accepting && c !in s.clients
    case Cancel => At(s, c, Joined)
    case Open(_) => At(s, c, Opening)
    case Leave => At(s, c, Serving)
    case Count => At(s, c, Removed)
    case CheckFlag => At(s, c, CheckLocal)
    case Arm => At(s, c, Schedule)
  }

  function ClientNext(s: Service, c: nat, a: ClientStep): (q: Service)
    ensures q.gui == s.gui && q.running == s.running && q.local == s.local
    ensures !a.Arm? ==> q.missed == s.missed && q.nextTimer == s.nextTimer
    ensures a.Arm? ==> q.missed == ScheduleClose(s).missed && q.nextTimer == ScheduleClose(s).nextTimer
  {
    match a
    case Accept => Go(s, c, Joined)
    case Cancel => Go(CancelLinger(s), c, Opening)
    case Open(opens) => Go(s, c, Serving).(port := SP.EnsureOpen(s.port, opens))
    case Leave => Go(s, c, Removed).(lastDeparture := s.now)
    case Count => if CountIsZero(s) then Go(s, c, CheckLocal) else Gone(s, c)
    case CheckFlag => if s.local then Gone(s, c) else Go(s, c, Schedule)
    case Arm => Gone(ScheduleClose(s), c)
  }

  predicate GuiEnabled(g: Gui, a: GuiStep) {
    match a
    case Run => g.Booting?
    case Connect => g.Idle?
    case CancelTimer => g.ConnCancel?
    case OpenPort(_) => g.ConnOpen?
    case Disconnect => g.Idle?
    case CountClients => g.DiscCount?
    case ArmTimer => g.DiscSchedule?
    case Stop => g.Idle?
    case StopNext => g.StopLocal? || g.StopCancel? || g.StopServer? || g.StopClose? || g.StopReset?
    case DoPoll => g.Idle?
  }

  function GuiNext(s: Service, a: GuiStep): (q: Service)
    ensures q.clients == s.clients
    ensures !a.ArmTimer? ==> q.missed == s.missed && q.nextTimer == s.nextTimer
    ensures a.ArmTimer? ==> q.missed == ScheduleClose(s).missed && q.nextTimer == ScheduleClose(s).nextTimer
  {
    match a
    case Run => s.(running := true, gui := Idle)
    case Connect => if s.local then s else s.(local := true, gui := ConnCancel)
    case CancelTimer => CancelLinger(s).(gui := ConnOpen)
    case OpenPort(opens) => s.(gui := Idle, port := SP.EnsureOpen(s.port, opens))
    case Disconnect => BeginDisconnect(s)
    case CountClients => s.(gui := if CountIsZero(s) then DiscSchedule else Idle)
    case ArmTimer => ScheduleClose(s).(gui := Idle)
    case Stop => BeginStop(s)
    case StopNext => StopStep(s)
    case DoPoll => Poll(s)
  }

  predicate TimerEnabled(s: Service, t: nat, a: TimerStep) {
    && t in s.timers
    && match a
       case Fire => !s.timers[t].fired && s.timers[t].armedAt + SERIAL_LINGER <= s.now
       case Close => s.timers[t].fired
  }

  function TimerNext(s: Service, t: nat, a: TimerStep): (q: Service)
    requires t in s.timers
    ensures q.gui == s.gui && q.clients == s.clients && q.missed == s.missed && q.nextTimer == s.nextTimer
  {
    match a
    case Fire => s.(timers := s.timers[t := s.timers[t].(fired := true)])
    case Close => LingerClose(s, t)
  }

  predicate PortEnabled(p: SP.Port, a: SP.Action) {
    SP.Enabled(p, a) && !a.DoEnsureOpen? && !a.DoClose?
  }

  function PortNext(s: Service, a: SP.Action): (q: Service)
    requires PortEnabled(s.port, a)
    ensures q.gui == s.gui && q.clients == s.clients && q.missed == s.missed && q.nextTimer == s.nextTimer
  {
    if a.RxStart? then s.(port := SP.Next(s.port, a), attempt := 0, lastReset := s.now, lossReset := false)
    else if a.RxExit? then ReceiverExit(s, a.r)
    else s.(port := SP.Next(s.port, a))
  }

  predicate Enabled(s: Service, a: Action) {
    match a
    case Tick(_) => true
    case ByClient(c, client) => ClientEnabled(s, c, client)
    case ByGui(gui) => GuiEnabled(s.gui, gui)
    case ByTimer(t, timer) => TimerEnabled(s, t, timer)
    case ByPort(thread) => PortEnabled(s.port, thread)
  }

  function Next(s: Service, a: Action): Service
    requires Enabled(s, a)
  {
    match a
    case Tick(d) => s.(now := s.now + d)
    case ByClient(c, client) => ClientNext(s, c, client)
    case ByGui(gui) => GuiNext(s, gui)
    case ByTimer(t, timer) => TimerNext(s, t, timer)
    case ByPort(thread) => PortNext(s, thread)
  }

  ghost predicate Legal(s: Service, run: seq<Action>)
    decreases |run|
  {
    run == [] || (Enabled(s, run[0]) && Legal(Next(s, run[0]), run[1..]))
  }

  ghost function After(s: Service, run: seq<Action>): Service
    requires Legal(s, run)
    decreases |run|
  {
    if run == [] then s else After(Next(s, run[0]), run[1..])
  }

  /** The run leads from one state to the other. */
  ghost predicate Leads(s: Service, run: seq<Action>, q: Service) {
    Legal(s, run) && After(s, run) == q
  }

  lemma {:induction false} LeadsNowhere(s: Service)
    ensures Leads(s, [], s)
  {
  }

  /** A run may be continued. */
  lemma {:induction false} LeadsOn(s: Service, run: seq<Action>, q: Service, a: Action)
    requires Leads(s, run, q) && Enabled(q, a)
    ensures Leads(s, run + [a], Next(q, a))
    decreases |run|
  {
    hide Next, Enabled;
    if run == [] {
      assert (run + [a])[1..] == [];
      assert After(Next(s, a), []) == Next(s, a);
    } else {
      assert (run + [a])[1..] == run[1..] + [a];
      LeadsOn(Next(s, run[0]), run[1..], q, a);
    }
  }

  /** What a step does to the port. */
  function PortAction(s: Service, a: Action): SP.Action {
    match a
    case Tick(_) => SP.Skip
    case ByClient(_, client) => if client.Open? then SP.DoEnsureOpen(client.opens) else SP.Skip
    case ByGui(gui) =>
      if gui.OpenPort? then SP.DoEnsureOpen(gui.opens)
      else if gui.StopNext? && s.gui.StopClose? then SP.DoClose
      else SP.Skip
    case ByTimer(_, timer) => if timer.Close? && s.running && !HasConsumers(s) then SP.DoClose else SP.Skip
    case ByPort(thread) => thread
  }

  lemma {:induction false} ClientStepOnPort(s: Service, c: nat, a: ClientStep)
    requires ClientEnabled(s, c, a)
    ensures ClientNext(s, c, a).port == SP.Next(s.port, PortAction(s, ByClient(c, a)))
  {
    hide SP.EnsureOpen, SP.Close, SP.ReceiverExit, SP.ReconnectRound, AnyIn, CancelLinger, ScheduleClose;
  }

  lemma {:induction false} StopStepOnPort(s: Service)
    ensures StopStep(s).port == if s.gui.StopClose? then SP.Close(s.port) else s.port
  {
    hide SP.Close, CancelLinger, ClosePort;
  }

  lemma {:induction false} GuiStepOnPort(s: Service, a: GuiStep)
    requires GuiEnabled(s.gui, a)
    ensures GuiNext(s, a).port == SP.Next(s.port, PortAction(s, ByGui(a)))
  {
    StopStepOnPort(s);
    hide SP.EnsureOpen, SP.Close, CancelLinger, ScheduleClose, StopStep, Poll, CountIsZero;
  }

  /** Each step of a service is one enabled step of its port. */
  lemma {:induction false} StepIsPortStep(s: Service, a: Action)
    requires Enabled(s, a)
    ensures SP.Enabled(s.port, PortAction(s, a)) && Next(s, a).port == SP.Next(s.port, PortAction(s, a))
  {
    hide SP.EnsureOpen, SP.Close, SP.ReceiverExit, SP.ReconnectRound, AnyIn;
    hide ClientNext, GuiNext, LingerClose, ReceiverExit;
    match a {
      case Tick(_) =>
      case ByClient(c, client) => ClientStepOnPort(s, c, client);
      case ByGui(gui) => GuiStepOnPort(s, gui);
      case ByTimer(_, _) =>
      case ByPort(_) =>
    }
  }
}
