/** What holds over every run of a service session, whatever the interleaving of its threads. */
module PortServiceTheorems {
  import opened Bytes
  import SP = SerialPorts
  import SPT = SerialPortTheorems
  import opened PortServices
  import opened PortServiceInvariant

  // ------------------------------------------------------------------- no lost reconnect

  /** As long as stop has not closed the port, a consumer whose connect callback has finished has an open port
    * with a live receiver of the current epoch, or a live reconnect thread; so under status `reconnecting`
    * somebody is retrying. */
  lemma {:induction false} NoLostReconnect(now: nat, run: seq<Action>)
    requires Legal(NewService(now), run)
    ensures var s := After(NewService(now), run);
            && (!PastClose(s.gui) && Settled(s) ==> (s.port.isOpen && SP.Served(s.port)) || s.port.reconnectors != {})
            && (StatusOf(s) == StatusReconnecting && Settled(s) ==> s.port.reconnectors != {})
  {
    NewServiceInv(now);
    RunKeepsInv(NewService(now), run);
  }

  // --------------------------------------------------------------------- no leaked port

  /** No client gets as far as arming the timer before the running flag is set. */
  ghost predicate NoEarlyDeparture(s: Service, run: seq<Action>)
    requires Legal(s, run)
    decreases |run|
  {
    run == [] ||
    (!(s.gui.Booting? && run[0].ByClient? && run[0].client.Arm?) && NoEarlyDeparture(Next(s, run[0]), run[1..]))
  }

  lemma {:induction false} NotMissed(s: Service, run: seq<Action>)
    requires Inv(s) && Legal(s, run) && NoEarlyDeparture(s, run) && !s.missed
    ensures !After(s, run).missed
    decreases |run|
  {
    if run != [] {
      StepKeepsInv(s, run[0]);
      MissedStep(s, run[0]);
      NotMissed(Next(s, run[0]), run[1..]);
    }
  }

  lemma {:induction false} ScheduleFacts(s: Service)
    ensures !s.running ==> ScheduleClose(s).nextTimer == s.nextTimer
    ensures ScheduleClose(s).missed ==> s.missed || (!s.running && s.gui.Booting?)
  {
  }

  lemma {:induction false} MissedStep(s: Service, a: Action)
    requires GuiInv(s) && Enabled(s, a) && !s.missed && !(s.gui.Booting? && a.ByClient? && a.client.Arm?)
    ensures !Next(s, a).missed
  {
    ScheduleFacts(s);
    hide ClientNext, GuiNext, TimerNext, PortNext, ScheduleClose, SP.Enabled;
  }

  /** When a running service has no consumers and no disconnect callback in flight, a port that is still wanted
    * open has an armed and live linger timer, whoever left last and however the departures interleaved; the one
    * exception is a client that came and went before the running flag was set, and then there is no timer. */
  lemma {:induction false} NoLeakedPort(now: nat, run: seq<Action>)
    requires Legal(NewService(now), run)
    ensures var s := After(NewService(now), run);
            && (s.running && Deserted(s) && !Departing(s) && SP.Wanted(s.port) ==>
                  if s.missed then s.timers == map[] else s.lingerTimer.Some? && s.lingerTimer.value in s.timers)
            && (NoEarlyDeparture(NewService(now), run) ==> !s.missed)
  {
    NewServiceInv(now);
    RunKeepsInv(NewService(now), run);
    if NoEarlyDeparture(NewService(now), run) {
      NotMissed(NewService(now), run);
    }
  }

  // ------------------------------------------------------------------------- linger time

  /** A running service closes its port only because the device failed, or by a timer when nobody is attached. */
  lemma {:induction false} LingerSparesConsumers(s: Service, a: Action)
    requires Inv(s) && Enabled(s, a) && s.running && s.port.isOpen && !Next(s, a).port.isOpen
    ensures (a.ByPort? && a.thread.RxExit?) || (a.ByTimer? && a.timer.Close? && Deserted(s))
  {
    StepIsPortStep(s, a);
  }

  /** A fired timer runs while another one is armed and waiting; it makes the service forget that one. */
  predicate Orphans(s: Service, a: Action) {
    && a.ByTimer? && a.timer.Close?
    && s.lingerTimer.Some? && s.lingerTimer.value != a.t
    && s.lingerTimer.value in s.timers && !s.timers[s.lingerTimer.value].fired
  }

  /** A timer closes at least SERIAL_LINGER, three seconds, after it was armed. With no disconnect callback in flight it closes at
    * least that long after the last departure, unless it has been overtaken by a newer timer that still waits. */
  lemma {:induction false} LingerLasts(s: Service, t: nat)
    requires Inv(s) && TimerEnabled(s, t, Close)
    ensures s.timers[t].armedAt + 3000 <= s.now
    ensures s.running && Deserted(s) && SP.Wanted(s.port) && !Departing(s) && !Orphans(s, ByTimer(t, Close)) ==>
              s.lastDeparture + SERIAL_LINGER <= s.now
  {
    hide SP.Inv, RetryInv, ConsumerInv, AnyIn, AnyOut, SP.Wanted;
  }

  /** A step of a run without device loss or stop in which no timer finds the port deserted. */
  ghost predicate Calm(s: Service, a: Action) {
    && !(a.ByPort? && a.thread.RxBreak?)
    && !(a.ByGui? && a.gui.Stop?)
    && (a.ByTimer? && a.timer.Close? ==> !Deserted(s))
  }

  ghost predicate CalmRun(s: Service, run: seq<Action>)
    requires Legal(s, run)
    decreases |run|
  {
    run == [] || (Calm(s, run[0]) && CalmRun(Next(s, run[0]), run[1..]))
  }

  lemma {:induction false} CalmPortStep(p: SP.Port, a: SP.Action)
    requires SP.Inv(p) && SP.Enabled(p, a) && p.isOpen && SPT.Sound(p) && !a.DoClose? && !a.RxBreak?
    ensures var q := SP.Next(p, a);
            q.isOpen && q.epoch == p.epoch && q.disconnects == p.disconnects && SPT.Sound(q)
  {
  }

  lemma {:induction false} StopMoves(s: Service)
    requires GuiEnabled(s.gui, StopNext)
    ensures Halting(StopStep(s).gui) && (PastClose(s.gui) ==> PastClose(StopStep(s).gui))
  {
    hide CancelLinger, ClosePort;
  }

  lemma {:induction false} GuiMovesItself(s: Service, a: GuiStep)
    requires GuiEnabled(s.gui, a)
    ensures Halting(s.gui) ==> Halting(GuiNext(s, a).gui)
    ensures PastClose(s.gui) ==> PastClose(GuiNext(s, a).gui)
    ensures !Halting(s.gui) && !a.Stop? ==> !Halting(GuiNext(s, a).gui)
  {
    if a.StopNext? {
      StopMoves(s);
    }
    hide CountIsZero, ScheduleClose, CancelLinger, StopStep, Poll, SP.EnsureOpen;
  }

  /** Only the GUI thread moves the GUI thread, and stop does not come back. */
  lemma {:induction false} GuiMoves(s: Service, a: Action)
    requires Enabled(s, a)
    ensures !a.ByGui? ==> Next(s, a).gui == s.gui
    ensures Halting(s.gui) ==> Halting(Next(s, a).gui)
    ensures PastClose(s.gui) ==> PastClose(Next(s, a).gui)
    ensures !Halting(s.gui) && !(a.ByGui? && a.gui.Stop?) ==> !Halting(Next(s, a).gui)
  {
    hide ClientNext, GuiNext, TimerNext, PortNext;
    if a.ByGui? {
      GuiMovesItself(s, a.gui);
    }
  }

  lemma {:induction false} CalmStep(s: Service, a: Action)
    requires Enabled(s, a) && Calm(s, a) && !Halting(s.gui)
    ensures !PortAction(s, a).DoClose? && !PortAction(s, a).RxBreak?
  {
    hide SP.Enabled, AnyIn;
  }

  /** A calm run uses one open epoch throughout. */
  lemma {:induction false} CalmKeepsEpoch(s: Service, run: seq<Action>)
    requires Inv(s) && Legal(s, run) && CalmRun(s, run)
    requires !Halting(s.gui) && s.port.isOpen && SPT.Sound(s.port)
    ensures var q := After(s, run);
            q.port.isOpen && q.port.epoch == s.port.epoch && q.port.disconnects == s.port.disconnects
    decreases |run|
  {
    hide Inv, Next, Enabled;
    if run != [] {
      CalmStep(s, run[0]);
      GuiMoves(s, run[0]);
      StepIsPortStep(s, run[0]);
      InvParts(s);
      CalmPortStep(s.port, PortAction(s, run[0]));
      StepKeepsInv(s, run[0]);
      CalmKeepsEpoch(Next(s, run[0]), run[1..]);
    }
  }

  lemma {:induction false} InvParts(s: Service)
    requires Inv(s)
    ensures SP.Inv(s.port) && GuiInv(s) && TimerInv(s)
  {
  }

  // ---------------------------------------------------------------------------- one timer

  /** Every timer that can still be cancelled is the armed one. */
  ghost predicate OneTimer(s: Service) {
    forall t :: t in s.timers && !s.timers[t].fired ==> s.lingerTimer == Some(t)
  }

  lemma {:induction false} CancelStopsAll(s: Service)
    requires OneTimer(s)
    ensures forall t :: t in CancelLinger(s).timers ==> s.timers[t].fired && CancelLinger(s).timers[t] == s.timers[t]
    ensures OneTimer(ScheduleClose(s))
  {
  }

  lemma {:induction false} GuiTimers(s: Service, a: GuiStep)
    requires OneTimer(s) && GuiEnabled(s.gui, a)
    ensures OneTimer(GuiNext(s, a))
  {
    CancelStopsAll(s);
    if a.StopNext? {
      StopTimers(s);
      hide StopStep, OneTimer;
    } else {
      hide ScheduleClose, CancelLinger, StopStep, CountIsZero, StatusOf, SP.EnsureOpen;
    }
  }

  lemma {:induction false} StopTimers(s: Service)
    requires OneTimer(s)
    ensures OneTimer(StopStep(s))
  {
    if s.gui.StopCancel? {
      CancelStopsAll(s);
    }
    hide CancelLinger, ClosePort;
    assert !s.gui.StopCancel? ==> StopStep(s).timers == s.timers && StopStep(s).lingerTimer == s.lingerTimer;
  }

  lemma {:induction false} ClientTimers(s: Service, c: nat, a: ClientStep)
    requires OneTimer(s) && ClientEnabled(s, c, a)
    ensures OneTimer(ClientNext(s, c, a))
  {
    CancelStopsAll(s);
    hide ScheduleClose, CancelLinger, CountIsZero, SP.EnsureOpen;
  }

  /** A step keeps this exactly if it is not such an overtaken timer. */
  lemma {:induction false} OneTimerStep(s: Service, a: Action)
    requires OneTimer(s) && Enabled(s, a)
    ensures OneTimer(Next(s, a)) <==> !Orphans(s, a)
  {
    hide ClientNext, GuiNext, TimerNext, SP.Enabled, SP.Next, SP.ReceiverExit;
    match a {
      case Tick(_) =>
      case ByClient(c, client) =>
        ClientTimers(s, c, client);
        hide OneTimer;
      case ByGui(gui) =>
        GuiTimers(s, gui);
        hide OneTimer;
      case ByTimer(t, timer) =>
        TimerTimers(s, t, timer);
        hide OneTimer, Orphans;
      case ByPort(_) =>
    }
  }

  lemma {:induction false} TimerTimers(s: Service, t: nat, a: TimerStep)
    requires OneTimer(s) && TimerEnabled(s, t, a)
    ensures OneTimer(TimerNext(s, t, a)) <==> !Orphans(s, ByTimer(t, a))
  {
    hide LingerClose, HasConsumers;
    var q := TimerNext(s, t, a);
    if a.Close? {
      assert q.timers == s.timers - {t} && q.lingerTimer == None;
    } else {
      assert q.timers == s.timers[t := s.timers[t].(fired := true)] && q.lingerTimer == s.lingerTimer;
    }
  }

  ghost predicate NeverOrphans(s: Service, run: seq<Action>)
    requires Legal(s, run)
    decreases |run|
  {
    run == [] || (!Orphans(s, run[0]) && NeverOrphans(Next(s, run[0]), run[1..]))
  }

  lemma {:induction false} OneTimerRun(s: Service, run: seq<Action>)
    requires OneTimer(s) && Legal(s, run) && NeverOrphans(s, run)
    ensures OneTimer(After(s, run))
    decreases |run|
  {
    hide Next, Enabled, OneTimer, Orphans;
    if run != [] {
      OneTimerStep(s, run[0]);
      OneTimerRun(Next(s, run[0]), run[1..]);
    }
  }

  /** The steps that cancel: a client or the terminal on its way in, and stop. */
  predicate Cancels(s: Service, a: Action) {
    || (a.ByClient? && a.client.Cancel?)
    || (a.ByGui? && a.gui.CancelTimer?)
    || (a.ByGui? && a.gui.StopNext? && s.gui.StopCancel?)
  }

  /** Cancelling calls off every timer that has not fired yet, exactly if the armed timer is the only such one. */
  lemma {:induction false} CancelReaches(s: Service)
    ensures (forall t :: t in CancelLinger(s).timers ==> CancelLinger(s).timers[t].fired) <==> OneTimer(s)
  {
    forall t | t in s.timers && s.lingerTimer != Some(t) ensures t in CancelLinger(s).timers {
    }
  }

  lemma {:induction false} CancelsIsCancelLinger(s: Service, a: Action)
    requires Enabled(s, a) && Cancels(s, a)
    ensures Next(s, a).timers == CancelLinger(s).timers
  {
    hide CancelLinger;
  }

  /** A consumer that comes in, and stop, call off every timer that has not fired yet, exactly if the armed timer is
    * the only such one; and that it is, unless some timer has been overtaken. */
  lemma {:induction false} CancelReachesEveryTimer(now: nat, run: seq<Action>, a: Action)
    requires Legal(NewService(now), run)
    requires Enabled(After(NewService(now), run), a) && Cancels(After(NewService(now), run), a)
    ensures var s := After(NewService(now), run);
            && ((forall t :: t in Next(s, a).timers ==> Next(s, a).timers[t].fired) <==> OneTimer(s))
            && (NeverOrphans(NewService(now), run) ==> OneTimer(s))
  {
    var s := After(NewService(now), run);
    if NeverOrphans(NewService(now), run) {
      OneTimerRun(NewService(now), run);
    }
    hide Legal, After, NeverOrphans, OneTimer, CancelLinger, Next, Enabled, NewService;
    CancelReaches(s);
    CancelsIsCancelLinger(s, a);
  }

  // ------------------------------------------------------------------------ stop is final

  /** Once stop has cleared the running flag no linger timer is armed any more. */
  lemma {:induction false} NoTimerAfterStop(s: Service, run: seq<Action>)
    requires Inv(s) && Legal(s, run) && Halting(s.gui)
    ensures After(s, run).nextTimer == s.nextTimer && Halting(After(s, run).gui)
    decreases |run|
  {
    hide Inv, Next, Enabled;
    if run != [] {
      InvParts(s);
      HaltingStep(s, run[0]);
      GuiMoves(s, run[0]);
      StepKeepsInv(s, run[0]);
      NoTimerAfterStop(Next(s, run[0]), run[1..]);
    }
  }

  lemma {:induction false} HaltingStep(s: Service, a: Action)
    requires GuiInv(s) && Enabled(s, a) && Halting(s.gui)
    ensures Next(s, a).nextTimer == s.nextTimer
  {
    ScheduleFacts(s);
    hide ClientNext, GuiNext, TimerNext, PortNext, ScheduleClose, SP.Enabled;
  }

  /** Some client's connect callback has not reached its end. */
  ghost predicate ConnectPending(s: Service) {
    exists c :: c in s.clients && (s.clients[c].Joined? || s.clients[c].Opening?)
  }

  lemma {:induction false} ClosedStep(s: Service, a: Action)
    requires Inv(s) && Enabled(s, a) && PastClose(s.gui) && s.port.closeSet && !ConnectPending(s)
    ensures Next(s, a).port.closeSet && !ConnectPending(Next(s, a))
  {
    StepIsPortStep(s, a);
    hide CancelLinger, ClosePort, LingerClose, ReceiverExit, Poll;
    hide SP.EnsureOpen;
  }

  lemma {:induction false} StaysClosed(s: Service, run: seq<Action>)
    requires Inv(s) && Legal(s, run) && PastClose(s.gui) && s.port.closeSet && !ConnectPending(s)
    ensures !After(s, run).port.isOpen && !After(s, run).port.isConnected
    decreases |run|
  {
    if run != [] {
      ClosedStep(s, run[0]);
      HaltingStep(s, run[0]);
      GuiMoves(s, run[0]);
      StepKeepsInv(s, run[0]);
      StaysClosed(Next(s, run[0]), run[1..]);
    }
  }

  lemma {:induction false} OpenReopens(s: Service, c: nat)
    requires SP.Inv(s.port) && At(s, c, Opening)
    ensures Legal(s, [ByClient(c, Open(true))]) && After(s, [ByClient(c, Open(true))]).port.isOpen
  {
    var open := ByClient(c, Open(true));
    assert [open][1..] == [];
    assert After(Next(s, open), []) == Next(s, open);
  }

  /** A connect callback that is late reopens the port. */
  lemma {:induction false} LateConnectReopens(s: Service) returns (run: seq<Action>)
    requires SP.Inv(s.port) && ConnectPending(s)
    ensures Legal(s, run) && After(s, run).port.isOpen
  {
    var c :| c in s.clients && (s.clients[c].Joined? || s.clients[c].Opening?);
    if s.clients[c].Opening? {
      run := [ByClient(c, Open(true))];
      OpenReopens(s, c);
    } else {
      run := [ByClient(c, Cancel), ByClient(c, Open(true))];
      var q := Next(s, run[0]);
      assert q.port == s.port && At(q, c, Opening) by { hide CancelLinger; }
      hide Next, SP.Inv;
      OpenReopens(q, c);
      assert run[1..] == [ByClient(c, Open(true))];
    }
  }

  /** STOP IS FINAL, exactly. After stop has closed the port, no sequence of timer, receiver, reconnect or
    * disconnect steps ever opens it again if and only if no client is still in its connect callback. */
  lemma {:induction false} StopIsFinal(s: Service)
    requires Inv(s) && s.gui.StopClose?
    ensures var q := Next(s, ByGui(StopNext));
            !q.port.isOpen &&
            ((forall run :: Legal(q, run) ==> !After(q, run).port.isOpen) <==> !ConnectPending(s))
  {
    var q := Next(s, ByGui(StopNext));
    StepKeepsInv(s, ByGui(StopNext));
    assert q.port == SP.Close(s.port) && q.clients == s.clients && PastClose(q.gui);
    if ConnectPending(s) {
      assert ConnectPending(q);
      var run := LateConnectReopens(q);
    } else {
      assert !ConnectPending(q);
      forall run | Legal(q, run) ensures !After(q, run).port.isOpen {
        StaysClosed(q, run);
      }
    }
  }

  // -------------------------------------------------------------------------- retry rate

  /** The attempt counter grows by at most one per RECONNECT_INTERVAL since it was last reset; counted from a
    * device loss with consumers attached, even the first attempt comes a full interval later. */
  lemma {:induction false} RetryRate(now: nat, run: seq<Action>)
    requires Legal(NewService(now), run)
    ensures var s := After(NewService(now), run);
            && (s.attempt > 0 ==> RECONNECT_INTERVAL * (s.attempt - 1) <= s.now - s.lastReset)
            && (s.lossReset ==> RECONNECT_INTERVAL * s.attempt <= s.now - s.lastReset)
  {
    NewServiceInv(now);
    RunKeepsInv(NewService(now), run);
  }

  // ------------------------------------------------------------------ status and attempts

  /** A client thread is in the client set, or the terminal is attached. */
  ghost predicate Somebody(s: Service) {
    s.local || exists c :: c in s.clients && (s.clients[c].Joined? || s.clients[c].Opening? || s.clients[c].Serving?)
  }

  lemma {:induction false} SomebodyIsAttached(s: Service)
    ensures Somebody(s) <==> Attached(s) || s.local
  {
    if c :| c in s.clients && (s.clients[c].Joined? || s.clients[c].Opening? || s.clients[c].Serving?) {
      assert InSet(s.clients[c]);
    }
    if d :| d in s.clients && InSet(s.clients[d]) {
      assert s.clients[d].Joined? || s.clients[d].Opening? || s.clients[d].Serving?;
    }
  }

  lemma ConnectedIsOpen(p: SP.Port)
    requires SP.Inv(p)
    ensures p.isConnected == p.isOpen
  {
  }

  lemma {:induction false} StatusIs(s: Service)
    requires s.port.isConnected == s.port.isOpen
    ensures StatusOf(s) == StatusStopped <==> !s.running
    ensures StatusOf(s) == StatusReconnecting <==> s.running && !s.port.isOpen && Somebody(s)
    ensures StatusOf(s) == StatusRunning <==> s.running && (s.port.isOpen || !Somebody(s))
  {
    SomebodyIsAttached(s);
    hide AnyIn, Somebody;
  }

  /** STATUS. In every run: stopped exactly while the running flag is clear, reconnecting exactly while the service
    * runs with the port closed and somebody attached, and running otherwise; so an idle service is running. */
  lemma {:induction false} StatusExact(now: nat, run: seq<Action>)
    requires Legal(NewService(now), run)
    ensures var s := After(NewService(now), run);
            && (StatusOf(s) == StatusStopped <==> !s.running)
            && (StatusOf(s) == StatusReconnecting <==> s.running && !s.port.isOpen && Somebody(s))
            && (StatusOf(s) == StatusRunning <==> s.running && (s.port.isOpen || !Somebody(s)))
  {
    NewServiceInv(now);
    RunKeepsInv(NewService(now), run);
    hide Legal, After, NewService, StatusOf, Somebody;
    InvParts(After(NewService(now), run));
    ConnectedIsOpen(After(NewService(now), run).port);
    StatusIs(After(NewService(now), run));
  }

  /** A poll that counts an attempt: the service is reconnecting, and two seconds have passed. */
  ghost predicate Counts(s: Service, a: Action) {
    a.ByGui? && a.gui.DoPoll? && s.running && !s.port.isOpen && Somebody(s) && s.now >= s.lastRetry + 2000
  }

  /** The loss of an open port that somebody is attached to, while the service runs. */
  ghost predicate LosesPort(s: Service, a: Action)
    requires Enabled(s, a)
  {
    s.running && Somebody(s) && s.port.isOpen && !Next(s, a).port.isOpen
  }

  /** What resets the attempt counter: the connect callback of the port, such a loss, and the end of stop. */
  ghost predicate Resets(s: Service, a: Action)
    requires Enabled(s, a)
  {
    (a.ByPort? && a.thread.RxStart?) || LosesPort(s, a) || (a.ByGui? && a.gui.StopNext? && s.gui.StopReset?)
  }

  /** ATTEMPTS. Every step resets the attempt counter, counts one attempt, or leaves the counter alone, and these are
    * the steps that do. The interval to the next attempt is measured from the last one, or from the loss. */
  lemma {:induction false} AttemptExact(s: Service, a: Action)
    requires Inv(s) && Enabled(s, a)
    ensures Next(s, a).attempt == if Resets(s, a) then 0 else if Counts(s, a) then s.attempt + 1 else s.attempt
    ensures Next(s, a).lastRetry == if Counts(s, a) || LosesPort(s, a) then s.now else s.lastRetry
  {
    SomebodyIsAttached(s);
    InvParts(s);
    ConnectedIsOpen(s.port);
    hide Somebody, Inv, SP.Inv, SP.Enabled;
    match a {
      case ByClient(c, client) =>
        ClientAttempt(s, c, client);
        hide ClientNext;
      case ByGui(gui) =>
        GuiAttempt(s, gui);
        hide GuiNext;
      case ByTimer(t, timer) =>
        TimerAttempt(s, t, timer);
        hide TimerNext;
      case ByPort(thread) =>
        PortAttempt(s, thread);
        hide PortNext;
      case Tick(_) =>
    }
  }

  lemma {:induction false} ClientAttempt(s: Service, c: nat, a: ClientStep)
    requires ClientEnabled(s, c, a) && s.port.isConnected == s.port.isOpen
    ensures var q := ClientNext(s, c, a);
            q.attempt == s.attempt && q.lastRetry == s.lastRetry && (s.port.isOpen ==> q.port.isOpen)
  {
    if s.port.isOpen {
      StaysOpen(s.port, true);
      StaysOpen(s.port, false);
    }
    hide CancelLinger, ScheduleClose, CountIsZero, SP.EnsureOpen;
  }

  lemma StaysOpen(p: SP.Port, opens: bool)
    requires p.isConnected && p.isOpen
    ensures SP.EnsureOpen(p, opens) == p
  {
  }

  lemma {:induction false} GuiAttempt(s: Service, a: GuiStep)
    requires GuiInv(s) && GuiEnabled(s.gui, a) && s.port.isConnected == s.port.isOpen
    ensures var q := GuiNext(s, a);
            && q.attempt == (if a.StopNext? && s.gui.StopReset? then 0 else if Counts(s, ByGui(a)) then s.attempt + 1 else s.attempt)
            && q.lastRetry == (if Counts(s, ByGui(a)) then s.now else s.lastRetry)
            && (s.running && s.port.isOpen ==> q.port.isOpen)
  {
    StatusIs(s);
    if a.StopNext? {
      StopAttempt(s);
      hide StopStep;
    }
    hide CancelLinger, ScheduleClose, CountIsZero, ClosePort, StatusOf, Somebody;
  }

  lemma {:induction false} StopAttempt(s: Service)
    requires GuiInv(s) && GuiEnabled(s.gui, StopNext)
    ensures StopStep(s).attempt == (if s.gui.StopReset? then 0 else s.attempt)
    ensures StopStep(s).lastRetry == s.lastRetry && !s.running
  {
    hide CancelLinger;
  }

  lemma {:induction false} TimerAttempt(s: Service, t: nat, a: TimerStep)
    requires TimerEnabled(s, t, a)
    ensures var q := TimerNext(s, t, a);
            && q.attempt == s.attempt && q.lastRetry == s.lastRetry
            && (s.running && (Attached(s) || s.local) && s.port.isOpen ==> q.port.isOpen)
  {
    hide AnyIn, SP.Close;
  }

  lemma {:induction false} PortAttempt(s: Service, a: SP.Action)
    requires SP.Inv(s.port) && PortEnabled(s.port, a)
    ensures var q := PortNext(s, a);
            var loses := s.running && (Attached(s) || s.local) && s.port.isOpen && !q.port.isOpen;
            && q.attempt == (if a.RxStart? || loses then 0 else s.attempt)
            && q.lastRetry == (if loses then s.now else s.lastRetry)
  {
    SPT.OpensAndCloses(s.port, a);
    hide AnyIn, SP.Inv;
  }

  /** So the counter is what the run says: the attempts counted since the last reset. */
  ghost function Attempts(s: Service, run: seq<Action>, so: nat): nat
    requires Legal(s, run)
    decreases |run|
  {
    if run == [] then so
    else Attempts(Next(s, run[0]), run[1..], if Resets(s, run[0]) then 0 else if Counts(s, run[0]) then so + 1 else so)
  }

  lemma {:induction false} CounterIsAttempts(s: Service, run: seq<Action>)
    requires Inv(s) && Legal(s, run)
    ensures After(s, run).attempt == Attempts(s, run, s.attempt)
    decreases |run|
  {
    hide Inv, Next, Enabled, Resets, Counts;
    if run != [] {
      AttemptExact(s, run[0]);
      StepKeepsInv(s, run[0]);
      CounterIsAttempts(Next(s, run[0]), run[1..]);
    }
  }

  // ----------------------------------------------------------------- the port's own view

  /** The port's part of a run. */
  ghost function PortRun(s: Service, run: seq<Action>): seq<SP.Action>
    requires Legal(s, run)
    decreases |run|
  {
    if run == [] then [] else [PortAction(s, run[0])] + PortRun(Next(s, run[0]), run[1..])
  }

  /** Every run of a service is a run of its port, so what holds of all runs of a port holds here. */
  lemma {:induction false} RunIsPortRun(s: Service, run: seq<Action>)
    requires Legal(s, run)
    ensures SP.Legal(s.port, PortRun(s, run)) && SP.After(s.port, PortRun(s, run)) == After(s, run).port
    decreases |run|
  {
    hide Next, Enabled, SP.Next, SP.Enabled, PortAction;
    if run != [] {
      StepIsPortStep(s, run[0]);
      RunIsPortRun(Next(s, run[0]), run[1..]);
      var acts := PortRun(s, run);
      assert acts[0] == PortAction(s, run[0]) && acts[1..] == PortRun(Next(s, run[0]), run[1..]);
    }
  }
}
