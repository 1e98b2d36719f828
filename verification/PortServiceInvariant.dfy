/** The inductive invariant of a service session. */
module PortServiceInvariant {
  import opened Bytes
  import SP = SerialPorts
  import opened PortServices

  // ------------------------------------------------------------------------- the parts

  predicate Halting(g: Gui) {
    g.StopLocal? || g.StopCancel? || g.StopServer? || g.StopClose? || g.StopReset? || g.Stopped?
  }

  predicate PastClose(g: Gui) {
    g.StopReset? || g.Stopped?
  }

  ghost predicate GuiInv(s: Service) {
    && (s.running <==> !s.gui.Booting? && !Halting(s.gui))
    && (s.gui.ConnCancel? || s.gui.ConnOpen? ==> s.local)
    && (s.gui.DiscCount? || s.gui.DiscSchedule? || s.gui.Booting? ==> !s.local)
    && (Halting(s.gui) && !s.gui.StopLocal? ==> !s.local)
    && (s.gui.StopClose? || PastClose(s.gui) ==> !s.accepting)
  }

  /** Nobody keeps the port open. */
  ghost predicate Deserted(s: Service) {
    !Attached(s) && !s.local
  }

  ghost predicate AnyOut(clients: map<nat, Client>) {
    exists c :: c in clients && OnTheWayOut(clients[c])
  }

  ghost predicate AnyServing(clients: map<nat, Client>) {
    exists c :: c in clients && clients[c].Serving?
  }

  /** Somebody who left is still in the disconnect callback. */
  ghost predicate Departing(s: Service) {
    AnyOut(s.clients) || s.gui.DiscCount? || s.gui.DiscSchedule?
  }

  /** A consumer whose connect callback has finished. */
  ghost predicate Settled(s: Service) {
    AnyServing(s.clients) || (s.local && !s.gui.ConnCancel? && !s.gui.ConnOpen?)
  }

  ghost predicate TimersOk(timers: map<nat, Timer>, linger: Option<nat>, next: nat, lastArm: nat, now: nat) {
    && (forall t :: t in timers ==> t < next && timers[t].armedAt <= lastArm <= now)
    && (forall t :: t in timers && timers[t].fired ==> timers[t].armedAt + SERIAL_LINGER <= now)
    && (linger.Some? ==> linger.value in timers && timers[linger.value].armedAt == lastArm)
    && lastArm <= now
  }

  ghost predicate TimerInv(s: Service) {
    && TimersOk(s.timers, s.lingerTimer, s.nextTimer, s.lastArm, s.now)
    && s.lastDeparture <= s.now
    && (s.missed || s.gui.Booting? ==> s.timers == map[])
    && (s.gui.StopServer? || s.gui.StopClose? || PastClose(s.gui) ==> s.lingerTimer == None)
  }

  /** A settled consumer has the port served or retried, until stop closes it. */
  ghost predicate ConsumerInv(s: Service) {
    !PastClose(s.gui) && Settled(s) ==> SP.Wanted(s.port)
  }

  /** A deserted port that is wanted open has an armed timer, or somebody on the way to arming one. */
  ghost predicate LeakInv(s: Service) {
    !Halting(s.gui) && Deserted(s) && SP.Wanted(s.port) ==> s.lingerTimer.Some? || Departing(s) || s.missed
  }

  /** Once everybody has left, the timer was armed no earlier than the last departure. */
  ghost predicate LingerInv(s: Service) {
    !Halting(s.gui) && Deserted(s) && !Departing(s) && !s.missed ==> s.lastDeparture <= s.lastArm
  }

  ghost predicate RetryInv(s: Service) {
    && s.lastReset <= s.now && s.lastRetry <= s.now
    && (s.lossReset ==> s.lastReset + RECONNECT_INTERVAL * s.attempt <= s.lastRetry)
    && (s.attempt > 0 ==> s.lastReset + RECONNECT_INTERVAL * (s.attempt - 1) <= s.lastRetry)
  }

  ghost predicate Inv(s: Service) {
    && SP.Inv(s.port)
    && GuiInv(s)
    && TimerInv(s)
    && ConsumerInv(s)
    && LeakInv(s)
    && LingerInv(s)
    && RetryInv(s)
  }

  lemma {:induction false} NewServiceInv(now: nat)
    ensures Inv(NewService(now))
  {
    SP.NewPortInv();
  }

  // ------------------------------------------------------------------------- preservation

  lemma {:induction false} Moved(m: map<nat, Client>, c: nat, pc: Client)
    ensures var n := m[c := pc];
            && (InSet(pc) ==> AnyIn(n))
            && (AnyIn(n) ==> AnyIn(m) || InSet(pc))
            && (AnyIn(m) ==> AnyIn(n) || (c in m && InSet(m[c])))
            && (OnTheWayOut(pc) ==> AnyOut(n))
            && (AnyOut(m) ==> AnyOut(n) || (c in m && OnTheWayOut(m[c])))
            && (AnyServing(n) ==> AnyServing(m) || pc.Serving?)
    ensures c in m && InSet(m[c]) ==> AnyIn(m)
  {
    var n := m[c := pc];
    assert c in n && n[c] == pc;
    if AnyIn(m) {
      var d :| d in m && InSet(m[d]);
      if d != c { assert d in n && n[d] == m[d]; }
    }
    if AnyOut(m) {
      var d :| d in m && OnTheWayOut(m[d]);
      if d != c { assert d in n && n[d] == m[d]; }
    }
  }

  lemma {:induction false} Ended(m: map<nat, Client>, c: nat)
    requires c in m && OnTheWayOut(m[c])
    ensures AnyIn(m - {c}) == AnyIn(m)
    ensures AnyServing(m - {c}) ==> AnyServing(m)
  {
    if AnyIn(m) {
      var d :| d in m && InSet(m[d]);
      assert d in m - {c} && InSet((m - {c})[d]);
    }
  }

  /** How a client step changes who is attached, serving and departing. */
  lemma {:induction false} ClientMoves(s: Service, c: nat, a: ClientStep)
    requires ClientEnabled(s, c, a)
    ensures var m, n := s.clients, ClientNext(s, c, a).clients;
            match a
            case Accept => AnyIn(n) && (AnyServing(n) ==> AnyServing(m))
            case Cancel => AnyIn(m) && AnyIn(n) && (AnyServing(n) ==> AnyServing(m))
            case Open(_) => AnyIn(m) && AnyIn(n)
            case Leave => AnyIn(m) && AnyOut(n) && (AnyServing(n) ==> AnyServing(m))
            case Count => AnyIn(n) == AnyIn(m) && (CountIsZero(s) ==> AnyOut(n)) && (AnyServing(n) ==> AnyServing(m))
            case CheckFlag => AnyIn(n) == AnyIn(m) && (!s.local ==> AnyOut(n)) && (AnyServing(n) ==> AnyServing(m))
            case Arm => AnyIn(n) == AnyIn(m) && (AnyServing(n) ==> AnyServing(m))
  {
    hide SP.EnsureOpen, CancelLinger, ScheduleClose, AnyIn, AnyOut, AnyServing;
    if a.Arm? || (a.Count? && !CountIsZero(s)) || (a.CheckFlag? && s.local) {
      Ended(s.clients, c);
    } else {
      Moved(s.clients, c, ClientNext(s, c, a).clients[c]);
    }
  }

  lemma {:induction false} PortKept(s: Service, a: Action)
    requires SP.Inv(s.port) && Enabled(s, a)
    ensures SP.Inv(Next(s, a).port)
    ensures PortAction(s, a).DoEnsureOpen? ==> SP.Wanted(Next(s, a).port)
    ensures SP.Wanted(Next(s, a).port) ==> SP.Wanted(s.port) || PortAction(s, a).DoEnsureOpen?
    ensures SP.Wanted(s.port) && !SP.Wanted(Next(s, a).port) ==> PortAction(s, a).DoClose?
    ensures PortAction(s, a).DoClose? ==> !SP.Wanted(Next(s, a).port)
  {
    StepIsPortStep(s, a);
    SP.StepKeepsInv(s.port, PortAction(s, a));
  }

  lemma {:induction false} TimerOperations(s: Service)
    requires TimerInv(s)
    ensures TimerInv(CancelLinger(s))
    ensures GuiInv(s) ==> TimerInv(ScheduleClose(s))
  {
  }

  // The five kinds of steps, one after the other.

  ghost predicate SessionInv(s: Service) {
    GuiInv(s) && TimerInv(s) && ConsumerInv(s) && LeakInv(s) && LingerInv(s) && RetryInv(s)
  }

  lemma {:induction false} TickKeeps(s: Service, d: nat)
    requires SessionInv(s)
    ensures SessionInv(s.(now := s.now + d))
  {
    hide AnyIn, AnyOut, AnyServing, SP.Wanted;
  }

  lemma {:induction false} NoteKeeps(s: Service)
    requires RetryInv(s)
    ensures RetryInv(NoteDisconnect(s)) && RetryInv(ClosePort(s))
  {
    hide AnyIn, SP.Close;
  }

  /** A client on its way in. */
  lemma {:induction false} ArrivalKeeps(s: Service, c: nat, a: ClientStep)
    requires SP.Inv(s.port) && SessionInv(s) && ClientEnabled(s, c, a)
    requires a.Accept? || a.Cancel? || a.Open?
    ensures SessionInv(ClientNext(s, c, a))
  {
    ClientMoves(s, c, a);
    TimerOperations(s);
    PortKept(s, ByClient(c, a));
    hide AnyIn, AnyOut, AnyServing, SP.Wanted, TimersOk, SP.EnsureOpen, SP.Inv, ScheduleClose, CancelLinger, HasConsumers;
  }

  /** A client on its way out. */
  lemma {:induction false} DepartureKeeps(s: Service, c: nat, a: ClientStep)
    requires SessionInv(s) && ClientEnabled(s, c, a)
    requires a.Leave? || a.Count? || a.CheckFlag? || a.Arm?
    ensures SessionInv(ClientNext(s, c, a))
  {
    ClientMoves(s, c, a);
    TimerOperations(s);
    hide AnyIn, AnyOut, AnyServing, SP.Wanted, TimersOk;
  }

  lemma {:induction false} CloseKeeps(s: Service)
    requires SessionInv(s) && s.gui.StopClose?
    ensures SessionInv(StopStep(s))
  {
    NoteKeeps(s);
    hide AnyIn, AnyOut, AnyServing, SP.Wanted, TimersOk, SP.Close, ClosePort;
  }

  lemma {:induction false} StopCancelKeeps(s: Service)
    requires SessionInv(s) && s.gui.StopCancel?
    ensures SessionInv(StopStep(s))
  {
    TimerOperations(s);
    hide AnyIn, AnyOut, AnyServing, SP.Wanted, TimersOk, CancelLinger, ScheduleClose, StopStep;
  }

  lemma {:induction false} StopKeeps(s: Service)
    requires SessionInv(s) && GuiEnabled(s.gui, StopNext)
    ensures SessionInv(StopStep(s))
  {
    if s.gui.StopClose? {
      CloseKeeps(s);
      hide SessionInv, StopStep;
    } else if s.gui.StopCancel? {
      StopCancelKeeps(s);
      hide SessionInv, StopStep;
    } else {
      hide AnyIn, AnyOut, AnyServing, SP.Wanted, TimersOk, CancelLinger, ClosePort;
    }
  }

  lemma {:induction false} PollKeeps(s: Service)
    requires SessionInv(s)
    ensures SessionInv(Poll(s))
  {
    hide AnyIn, AnyOut, AnyServing, SP.Wanted, TimersOk;
  }

  lemma SameRetry(s: Service, q: Service)
    requires RetryInv(s) && q.attempt == s.attempt && q.lastRetry == s.lastRetry
    requires q.lastReset == s.lastReset && q.lossReset == s.lossReset && q.now == s.now
    ensures RetryInv(q)
  {
  }

  lemma {:induction false} OpenKeeps(s: Service, opens: bool)
    requires SP.Inv(s.port) && SessionInv(s) && s.gui.ConnOpen?
    ensures SessionInv(GuiNext(s, OpenPort(opens)))
  {
    SP.EnsureOpenKeepsInv(s.port, opens);
    hide AnyIn, AnyOut, AnyServing, SP.Wanted, TimersOk, SP.EnsureOpen, SP.Inv, RetryInv;
    var q := s.(gui := Idle, port := SP.EnsureOpen(s.port, opens));
    assert GuiNext(s, OpenPort(opens)) == q;
    hide GuiNext, GuiEnabled;
    assert RetryInv(q) by { SameRetry(s, q); }
  }

  /** The steps of connect_local before the open, and the end of booting. */
  lemma {:induction false} ConnectKeeps(s: Service, a: GuiStep)
    requires SessionInv(s) && GuiEnabled(s.gui, a) && (a.Run? || a.Connect? || a.CancelTimer?)
    ensures SessionInv(GuiNext(s, a))
  {
    TimerOperations(s);
    hide AnyIn, AnyOut, AnyServing, SP.Wanted, TimersOk, StopStep, Poll, ScheduleClose, CancelLinger, HasConsumers;
  }

  /** The steps of disconnect_local before the timer is armed, and the beginning of stop. */
  lemma {:induction false} DisconnectKeeps(s: Service, a: GuiStep)
    requires SessionInv(s) && GuiEnabled(s.gui, a) && (a.Disconnect? || a.CountClients? || a.Stop?)
    ensures SessionInv(GuiNext(s, a))
  {
    hide AnyIn, AnyOut, AnyServing, SP.Wanted, TimersOk;
  }

  lemma {:induction false} ArmKeeps(s: Service)
    requires SessionInv(s) && s.gui.DiscSchedule?
    ensures SessionInv(GuiNext(s, ArmTimer))
  {
    TimerOperations(s);
    hide AnyIn, AnyOut, AnyServing, SP.Wanted, TimersOk, CancelLinger;
  }

  lemma {:induction false} GuiKeeps(s: Service, a: GuiStep)
    requires SP.Inv(s.port) && SessionInv(s) && GuiEnabled(s.gui, a)
    ensures SessionInv(GuiNext(s, a))
  {
    hide SessionInv, SP.Inv, StopStep, Poll;
    if a.StopNext? {
      StopKeeps(s);
    } else if a.DoPoll? {
      PollKeeps(s);
    } else if a.OpenPort? {
      OpenKeeps(s, a.opens);
    } else if a.Run? || a.Connect? || a.CancelTimer? {
      ConnectKeeps(s, a);
    } else if a.ArmTimer? {
      ArmKeeps(s);
    } else {
      DisconnectKeeps(s, a);
    }
  }

  lemma {:induction false} FireKeeps(s: Service, t: nat)
    requires SessionInv(s) && TimerEnabled(s, t, Fire)
    ensures SessionInv(TimerNext(s, t, Fire))
  {
    hide AnyIn, AnyOut, AnyServing, SP.Wanted;
  }

  /** A fired timer finds consumers and does nothing, or finds none and closes the port. */
  lemma {:induction false} LingerKeeps(s: Service, t: nat)
    requires SP.Inv(s.port) && SessionInv(s) && TimerEnabled(s, t, Close)
    ensures SessionInv(LingerClose(s, t))
  {
    PortKept(s, ByTimer(t, Close));
    hide AnyIn, AnyOut, AnyServing, SP.Wanted, SP.Close, SP.Inv, LingerClose;
  }

  lemma {:induction false} NoteKeepsSession(s: Service)
    requires SessionInv(s)
    ensures SessionInv(NoteDisconnect(s))
  {
    NoteKeeps(s);
    hide AnyIn, AnyOut, AnyServing, SP.Wanted, TimersOk, RetryInv, NoteDisconnect;
  }

  /** Another port that is wanted exactly if the old one is. */
  lemma {:induction false} SameWanted(s: Service, p: SP.Port)
    requires SessionInv(s) && SP.Wanted(p) == SP.Wanted(s.port)
    ensures SessionInv(s.(port := p))
  {
    SameRetry(s, s.(port := p));
    hide AnyIn, AnyOut, AnyServing, SP.Wanted, TimersOk, RetryInv;
  }

  lemma {:induction false} ReceiverKeeps(s: Service, r: nat)
    requires SP.Inv(s.port) && SessionInv(s) && PortEnabled(s.port, SP.RxExit(r))
    ensures SessionInv(ReceiverExit(s, r))
  {
    var p := SP.ReceiverExit(s.port, r);
    assert SP.Wanted(p) == SP.Wanted(s.port);
    hide SessionInv, SP.Wanted, SP.ReceiverExit, SP.Inv, SP.Enabled;
    NoteKeepsSession(s);
    SameWanted(s, p);
    SameWanted(NoteDisconnect(s), p);
    hide NoteDisconnect;
  }

  lemma {:induction false} PortKeeps(s: Service, a: SP.Action)
    requires SP.Inv(s.port) && SessionInv(s) && PortEnabled(s.port, a)
    ensures SessionInv(PortNext(s, a))
  {
    if a.RxExit? {
      ReceiverKeeps(s, a.r);
    } else {
      PortKept(s, ByPort(a));
      hide AnyIn, AnyOut, AnyServing, SP.Wanted, TimersOk, SP.Next, SP.Enabled, SP.Inv, ReceiverExit;
    }
  }

  /** Every step of every thread keeps the invariant. */
  lemma {:induction false} StepKeepsInv(s: Service, a: Action)
    requires Inv(s) && Enabled(s, a)
    ensures Inv(Next(s, a))
  {
    hide GuiInv, TimerInv, ConsumerInv, LeakInv, LingerInv, RetryInv, SP.Inv;
    hide ClientNext, GuiNext, LingerClose, PortNext;
    PortKept(s, a);
    assert SessionInv(s);
    match a {
      case Tick(d) => TickKeeps(s, d);
      case ByClient(c, client) =>
        if client.Accept? || client.Cancel? || client.Open? {
          ArrivalKeeps(s, c, client);
        } else {
          DepartureKeeps(s, c, client);
        }
      case ByGui(gui) => GuiKeeps(s, gui);
      case ByTimer(t, timer) => if timer.Fire? { FireKeeps(s, t); } else { LingerKeeps(s, t); }
      case ByPort(thread) => PortKeeps(s, thread);
    }
  }

  /** So it holds throughout every run. */
  lemma {:induction false} RunKeepsInv(s: Service, run: seq<Action>)
    requires Inv(s) && Legal(s, run)
    ensures Inv(After(s, run))
    decreases |run|
  {
    hide Inv, Next, Enabled;
    if run != [] {
      StepKeepsInv(s, run[0]);
      RunKeepsInv(Next(s, run[0]), run[1..]);
    }
  }
}
