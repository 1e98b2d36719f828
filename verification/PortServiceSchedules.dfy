/** What follows from how consumers come and go, and from a fair environment: a port that short-lived clients
  * share is opened once, and a device that comes back is found again. */
module PortServiceSchedules {
  import opened Bytes
  import SP = SerialPorts
  import SPT = SerialPortTheorems
  import opened PortServices
  import opened PortServiceInvariant
  import opened PortServiceTheorems

  // ------------------------------------------------------------------- whole departures

  /** A step of somebody who is in the disconnect callback. */
  predicate Departs(s: Service, a: Action) {
    || (a.ByClient? && a.c in s.clients && OnTheWayOut(s.clients[a.c]))
    || (a.ByGui? && (s.gui.DiscCount? || s.gui.DiscSchedule?))
  }

  /** Each departure is one block: from leaving to the arming of the timer nothing else happens. */
  ghost predicate WholeDepartures(s: Service, run: seq<Action>)
    requires Legal(s, run)
    decreases |run|
  {
    run == [] || ((Departing(s) ==> Departs(s, run[0])) && WholeDepartures(Next(s, run[0]), run[1..]))
  }

  lemma {:induction false} WholeLast(s: Service, run: seq<Action>, a: Action)
    requires Legal(s, run + [a]) && WholeDepartures(s, run + [a])
    ensures Legal(s, run) && Enabled(After(s, run), a) && (Departing(After(s, run)) ==> Departs(After(s, run), a))
    ensures WholeDepartures(s, run)
    decreases |run|
  {
    hide Next, Enabled, Departing, Departs;
    var all := run + [a];
    if run != [] {
      assert all[0] == run[0] && all[1..] == run[1..] + [a];
      WholeLast(Next(s, run[0]), run[1..], a);
    }
  }

  /** What whole departures add: a timer is armed at the very time of the departure. */
  ghost predicate DepartureInv(s: Service) {
    s.lastArm <= s.lastDeparture && (Departing(s) ==> s.lastDeparture == s.now)
  }

  lemma {:induction false} NobodyOut(s: Service, c: nat, a: ClientStep)
    requires ClientEnabled(s, c, a) && (a.Accept? || a.Cancel? || a.Open?)
    ensures AnyOut(ClientNext(s, c, a).clients) ==> AnyOut(s.clients)
  {
    hide CancelLinger, SP.EnsureOpen;
    var q := ClientNext(s, c, a);
    if d :| d in q.clients && OnTheWayOut(q.clients[d]) {
      assert d in s.clients && OnTheWayOut(s.clients[d]);
    }
  }

  lemma {:induction false} SchedulesNow(s: Service)
    ensures ScheduleClose(s).lastArm in {s.lastArm, s.now}
    ensures ScheduleClose(s).lastDeparture == s.lastDeparture && ScheduleClose(s).now == s.now
    ensures ScheduleClose(s).clients == s.clients && ScheduleClose(s).gui == s.gui
  {
    hide CancelLinger;
  }

  lemma {:induction false} WholeClient(s: Service, c: nat, a: ClientStep)
    requires s.lastArm <= s.now && DepartureInv(s) && ClientEnabled(s, c, a)
    ensures DepartureInv(ClientNext(s, c, a))
  {
    if a.Accept? || a.Cancel? || a.Open? {
      NobodyOut(s, c, a);
    } else if !a.Leave? {
      assert Departing(s) by { assert OnTheWayOut(s.clients[c]); }
    }
    SchedulesNow(s);
    hide AnyOut, ScheduleClose, CancelLinger, CountIsZero, SP.EnsureOpen;
  }

  lemma {:induction false} WholeGui(s: Service, a: GuiStep)
    requires s.lastArm <= s.now && DepartureInv(s) && GuiEnabled(s.gui, a)
    ensures DepartureInv(GuiNext(s, a))
  {
    if a.StopNext? {
      WholeStop(s);
    }
    SchedulesNow(s);
    hide AnyOut, ScheduleClose, CancelLinger, CountIsZero, SP.EnsureOpen, StopStep, Poll;
  }

  lemma {:induction false} WholeStop(s: Service)
    requires DepartureInv(s) && GuiEnabled(s.gui, StopNext)
    ensures DepartureInv(StopStep(s))
  {
    hide AnyOut, CancelLinger, ClosePort;
  }

  /** A step that leaves alone who is departing, and the times that matter here. */
  lemma SameDeparture(s: Service, q: Service)
    requires DepartureInv(s) && q.clients == s.clients && q.gui == s.gui
    requires q.lastArm == s.lastArm && q.lastDeparture == s.lastDeparture && (Departing(s) ==> q.now == s.now)
    ensures DepartureInv(q)
  {
    hide AnyOut;
  }

  lemma {:induction false} WholeThread(s: Service, a: Action)
    requires DepartureInv(s) && Enabled(s, a) && (a.ByTimer? || a.ByPort?)
    ensures DepartureInv(Next(s, a))
  {
    hide LingerClose, HasConsumers, ReceiverExit, SP.Next, SP.Enabled, DepartureInv, Departing;
    SameDeparture(s, Next(s, a));
  }

  lemma {:induction false} WholeStep(s: Service, a: Action)
    requires TimerInv(s) && DepartureInv(s) && Enabled(s, a) && (Departing(s) ==> Departs(s, a))
    ensures DepartureInv(Next(s, a))
  {
    assert s.lastArm <= s.now;
    hide TimerInv, ClientNext, GuiNext, TimerNext, PortNext, SP.Enabled, DepartureInv, Departing;
    match a {
      case ByClient(c, client) => WholeClient(s, c, client);
      case ByGui(gui) => WholeGui(s, gui);
      case Tick(d) => SameDeparture(s, s.(now := s.now + d));
      case _ => WholeThread(s, a);
    }
  }

  lemma {:induction false} WholeRun(s: Service, run: seq<Action>)
    requires Inv(s) && DepartureInv(s) && Legal(s, run) && WholeDepartures(s, run)
    ensures DepartureInv(After(s, run))
    decreases |run|
  {
    hide Inv, DepartureInv, Next, Enabled, Departing, Departs;
    if run != [] {
      InvParts(s);
      WholeStep(s, run[0]);
      StepKeepsInv(s, run[0]);
      WholeRun(Next(s, run[0]), run[1..]);
    }
  }

  /** The armed timer is not due yet. */
  predicate NewerTimerWaits(s: Service) {
    && s.lingerTimer.Some? && s.lingerTimer.value in s.timers
    && s.now < s.timers[s.lingerTimer.value].armedAt + SERIAL_LINGER
  }

  lemma {:induction false} EarlyIsNewer(s: Service, t: nat)
    requires Inv(s) && DepartureInv(s) && TimerEnabled(s, t, Close)
    requires s.running && Deserted(s) && SP.Wanted(s.port) && !Departing(s)
    ensures s.now < s.lastDeparture + SERIAL_LINGER <==> NewerTimerWaits(s)
  {
    hide SP.Inv, SP.Wanted, RetryInv, ConsumerInv, AnyIn, AnyOut;
    assert !s.missed && s.lingerTimer.Some?;
    assert s.lastDeparture == s.lastArm;
  }

  /** LINGER, exactly. In every run with whole departures, a timer that closes the port of a running service does so
    * before SERIAL_LINGER has passed since the last departure if and only if the armed timer is not due yet: that
    * is, if and only if the timer that closes has been overtaken by one that is not due. */
  lemma {:induction false} LingerAfterWholeDepartures(now: nat, run: seq<Action>, t: nat)
    requires Legal(NewService(now), run + [ByTimer(t, Close)]) && WholeDepartures(NewService(now), run + [ByTimer(t, Close)])
    ensures Legal(NewService(now), run) && Enabled(After(NewService(now), run), ByTimer(t, Close))
    ensures var s := After(NewService(now), run);
            s.running && s.port.isOpen && !Next(s, ByTimer(t, Close)).port.isOpen ==>
              && (s.now < s.lastDeparture + SERIAL_LINGER <==> NewerTimerWaits(s))
              && (NewerTimerWaits(s) ==> Orphans(s, ByTimer(t, Close)))
  {
    WholeLast(NewService(now), run, ByTimer(t, Close));
    NewServiceInv(now);
    RunKeepsInv(NewService(now), run);
    WholeRun(NewService(now), run);
    var s := After(NewService(now), run);
    assert TimerEnabled(s, t, Close);
    hide Legal, After, WholeDepartures, NewService;
    if s.running && s.port.isOpen && !Next(s, ByTimer(t, Close)).port.isOpen {
      LingerSparesConsumers(s, ByTimer(t, Close));
      InvParts(s);
      OpenIsWanted(s.port);
      EarlyIsNewer(s, t);
      if NewerTimerWaits(s) {
        WaitingIsNewer(s, t);
      }
    }
    hide Inv, Orphans, SP.Inv, SP.Wanted, Next, NewerTimerWaits, DepartureInv;
  }

  lemma {:induction false} WaitingIsNewer(s: Service, t: nat)
    requires Inv(s) && TimerEnabled(s, t, Close) && NewerTimerWaits(s)
    ensures Orphans(s, ByTimer(t, Close))
  {
    hide SP.Inv, RetryInv, ConsumerInv, LeakInv, LingerInv, GuiInv;
  }

  lemma {:induction false} OpenIsWanted(p: SP.Port)
    requires SP.Inv(p) && p.isOpen
    ensures SP.Wanted(p)
  {
  }

  /** A deserted port is not only sure to have a timer: if nobody comes for SERIAL_LINGER, that timer fires and closes
    * the port. */
  lemma {:induction false} DesertedPortIsClosed(s: Service) returns (run: seq<Action>)
    requires Inv(s) && s.running && Deserted(s) && !Departing(s) && !s.missed && s.port.isOpen
    ensures Legal(s, run) && !After(s, run).port.isOpen && After(s, run).now <= s.now + 3000
    ensures forall k :: 0 <= k < |run| ==> run[k].Tick? || run[k].ByTimer?
  {
    OpenIsWanted(s.port) by { InvParts(s); }
    assert s.lingerTimer.Some? && s.lingerTimer.value in s.timers && s.timers[s.lingerTimer.value].armedAt <= s.now;
    var t := s.lingerTimer.value;
    hide Inv, Departing, SP.Wanted;
    var later := s.(now := s.now + 3000);
    var fired := later.(timers := later.timers[t := later.timers[t].(fired := true)]);
    LeadsNowhere(s);
    LeadsOn(s, [], s, Tick(3000));
    assert [] + [Tick(3000)] == [Tick(3000)];
    run := [Tick(3000)];
    if !s.timers[t].fired {
      LeadsOn(s, run, later, ByTimer(t, Fire));
      run := run + [ByTimer(t, Fire)];
    } else {
      assert fired.timers == later.timers;
    }
    CloseCloses(s, run, fired, t);
    run := run + [ByTimer(t, Close)];
  }

  lemma {:induction false} CloseCloses(s: Service, run: seq<Action>, q: Service, t: nat)
    requires Leads(s, run, q) && t in q.timers && q.timers[t].fired && q.running && Deserted(q)
    ensures Leads(s, run + [ByTimer(t, Close)], Next(q, ByTimer(t, Close)))
    ensures !Next(q, ByTimer(t, Close)).port.isOpen && Next(q, ByTimer(t, Close)).now == q.now
  {
    LeadsOn(s, run, q, ByTimer(t, Close));
    hide Leads;
  }

  // -------------------------------------------------------------------------- short gaps

  /** A consumer on its way in has called the timer off. */
  predicate Arrives(a: Action) {
    (a.ByClient? && a.client.Cancel?) || (a.ByGui? && a.gui.CancelTimer?)
  }

  /** A consumer leaves. */
  predicate Leaves(s: Service, a: Action) {
    (a.ByClient? && a.client.Leave?) || (a.ByGui? && a.gui.Disconnect? && s.local)
  }

  /** When the current gap between consumers began: with the departure that left nobody. It ends when the next
    * consumer calls off the timer. */
  ghost function GapAfter(gap: Option<nat>, s: Service, a: Action): Option<nat>
    requires Enabled(s, a)
  {
    if Arrives(a) then None
    else if Leaves(s, a) && Deserted(Next(s, a)) then Some(s.now)
    else gap
  }

  /** Every gap stays shorter than SERIAL_LINGER. */
  ghost predicate ShortGaps(s: Service, run: seq<Action>, gap: Option<nat>)
    requires Legal(s, run)
    decreases |run|
  {
    && (gap.Some? ==> s.now < gap.value + SERIAL_LINGER)
    && (run == [] || ShortGaps(Next(s, run[0]), run[1..], GapAfter(gap, s, run[0])))
  }

  /** A consumer has come and called off the timer, and not left. */
  ghost predicate AnyArrived(s: Service) {
    || (exists c :: c in s.clients && (s.clients[c].Opening? || s.clients[c].Serving?))
    || (s.local && !s.gui.ConnCancel?)
  }

  /** Timers belong to the gap: they wait, and were armed no earlier than it began. */
  ghost predicate GapTimers(s: Service, gap: Option<nat>) {
    && (forall t :: t in s.timers ==> s.lingerTimer == Some(t) && !s.timers[t].fired)
    && (s.timers != map[] ==> gap.Some? && !AnyArrived(s))
    && (forall t :: t in s.timers && gap.Some? ==> gap.value <= s.timers[t].armedAt)
    && (gap.Some? ==> gap.value <= s.now)
  }

  /** What somebody on the way out has seen is still so. */
  ghost predicate GapOuts(s: Service, gap: Option<nat>) {
    && (s.running && Departing(s) && Deserted(s) ==> gap.Some?)
    && (forall c :: c in s.clients && s.running && (s.clients[c].CheckLocal? || s.clients[c].Schedule?) ==> !Attached(s))
    && (forall c :: c in s.clients && s.running && s.clients[c].Schedule? ==> !s.local)
    && (s.gui.DiscSchedule? ==> !Attached(s))
  }

  ghost predicate GapInv(s: Service, gap: Option<nat>) {
    GapTimers(s, gap) && GapOuts(s, gap)
  }

  lemma {:induction false} QuietIsGap(s: Service)
    requires s.timers == map[] && !Departing(s)
    ensures GapInv(s, None)
  {
    assert forall c :: c in s.clients ==> !OnTheWayOut(s.clients[c]);
  }

  lemma {:induction false} GapAccept(s: Service, gap: Option<nat>, c: nat)
    requires GapInv(s, gap) && !Departing(s) && ClientEnabled(s, c, Accept)
    ensures GapInv(ClientNext(s, c, Accept), gap)
  {
    var q := ClientNext(s, c, Accept);
    assert forall d :: d in q.clients ==> (d in s.clients && q.clients[d] == s.clients[d]) || q.clients[d] == Joined;
    assert forall d :: d in s.clients ==> !OnTheWayOut(s.clients[d]);
  }

  lemma {:induction false} GapCancel(s: Service, gap: Option<nat>, c: nat)
    requires GapInv(s, gap) && !Departing(s) && ClientEnabled(s, c, Cancel)
    ensures GapInv(ClientNext(s, c, Cancel), None)
  {
    var q := ClientNext(s, c, Cancel);
    assert q.timers == map[];
    assert forall d :: d in q.clients ==> (d in s.clients && q.clients[d] == s.clients[d]) || q.clients[d] == Opening;
    assert forall d :: d in s.clients ==> !OnTheWayOut(s.clients[d]);
  }

  lemma {:induction false} GapOpen(s: Service, gap: Option<nat>, c: nat, opens: bool)
    requires GapInv(s, gap) && !Departing(s) && ClientEnabled(s, c, Open(opens))
    ensures GapInv(ClientNext(s, c, Open(opens)), gap)
  {
    hide SP.EnsureOpen;
    var q := ClientNext(s, c, Open(opens));
    assert AnyArrived(s);
    assert forall d :: d in q.clients ==> (d in s.clients && q.clients[d] == s.clients[d]) || q.clients[d] == Serving;
    assert forall d :: d in s.clients ==> !OnTheWayOut(s.clients[d]);
  }

  lemma {:induction false} GapLeave(s: Service, gap: Option<nat>, c: nat)
    requires GapInv(s, gap) && !Departing(s) && ClientEnabled(s, c, Leave)
    ensures GapInv(ClientNext(s, c, Leave), if Deserted(ClientNext(s, c, Leave)) then Some(s.now) else gap)
  {
    var q := ClientNext(s, c, Leave);
    assert AnyArrived(s);
    assert s.timers == map[];
    assert forall d :: d in q.clients ==> (d in s.clients && q.clients[d] == s.clients[d]) || q.clients[d] == Removed;
    assert forall d :: d in s.clients ==> !OnTheWayOut(s.clients[d]);
  }

  /** Somebody on the way out reads something, and goes on or is gone. */
  lemma {:induction false} GapRead(s: Service, q: Service, gap: Option<nat>, c: nat)
    requires GapInv(s, gap) && AnyOut(s.clients) && q == s.(clients := q.clients)
    requires Attached(q) == Attached(s) && (AnyArrived(q) ==> AnyArrived(s))
    requires forall d :: d in q.clients && d != c ==> d in s.clients && q.clients[d] == s.clients[d]
    requires c in q.clients && q.clients[c].CheckLocal? ==> CountIsZero(s)
    requires c in q.clients && q.clients[c].Schedule? ==> !s.local && (s.running ==> !Attached(s))
    ensures GapInv(q, gap)
  {
    hide AnyIn, AnyOut, AnyArrived;
  }

  /** The rest of a departure: reading the count and the flag, and arming the timer. */
  lemma {:induction false} GapCount(s: Service, gap: Option<nat>, c: nat)
    requires GapInv(s, gap) && ClientEnabled(s, c, Count)
    ensures GapInv(ClientNext(s, c, Count), gap)
  {
    ClientMoves(s, c, Count);
    OutMoves(s, c, Count);
    hide AnyIn, AnyOut, AnyArrived, AnyServing, GapInv;
    GapRead(s, ClientNext(s, c, Count), gap, c);
  }

  lemma {:induction false} GapCheck(s: Service, gap: Option<nat>, c: nat)
    requires GapInv(s, gap) && ClientEnabled(s, c, CheckFlag)
    ensures GapInv(ClientNext(s, c, CheckFlag), gap)
  {
    ClientMoves(s, c, CheckFlag);
    OutMoves(s, c, CheckFlag);
    assert s.running ==> !Attached(s);
    hide AnyIn, AnyOut, AnyArrived, AnyServing, GapInv;
    GapRead(s, ClientNext(s, c, CheckFlag), gap, c);
  }

  lemma {:induction false} GapArm(s: Service, gap: Option<nat>, c: nat)
    requires GapInv(s, gap) && ClientEnabled(s, c, Arm)
    ensures GapInv(ClientNext(s, c, Arm), gap)
  {
    var q := ClientNext(s, c, Arm);
    ClientMoves(s, c, Arm);
    OutMoves(s, c, Arm);
    ArmedTimers(s, gap);
    assert s.running ==> !Attached(s) && !s.local && gap.Some?;
    assert !Attached(s) && !s.local ==> !AnyArrived(s) by { ArrivedIsAttached(s); }
    hide AnyIn, AnyOut, AnyArrived, ScheduleClose, AnyServing;
    assert forall d :: d in q.clients ==> d in s.clients && q.clients[d] == s.clients[d];
  }

  lemma {:induction false} ArrivedIsAttached(s: Service)
    ensures AnyArrived(s) ==> Attached(s) || s.local
  {
    if c :| c in s.clients && (s.clients[c].Opening? || s.clients[c].Serving?) {
      assert InSet(s.clients[c]);
    }
  }

  /** Arming leaves one timer, armed now; or none, unless the service runs. */
  lemma {:induction false} ArmedTimers(s: Service, gap: Option<nat>)
    requires GapTimers(s, gap)
    ensures var q := ScheduleClose(s);
            && (forall t :: t in q.timers ==> q.lingerTimer == Some(t) && q.timers[t] == Timer(s.now, false) && s.running)
            && CancelLinger(s).timers == map[]
  {
    hide AnyArrived;
    assert CancelLinger(s).timers == map[];
  }

  lemma {:induction false} OutMoves(s: Service, c: nat, a: ClientStep)
    requires ClientEnabled(s, c, a) && (a.Count? || a.CheckFlag? || a.Arm?)
    ensures AnyOut(s.clients)
    ensures AnyArrived(ClientNext(s, c, a)) ==> AnyArrived(s)
  {
    assert OnTheWayOut(s.clients[c]);
    hide CancelLinger, ScheduleClose;
  }

  lemma {:induction false} GapClient(s: Service, gap: Option<nat>, c: nat, a: ClientStep)
    requires GapInv(s, gap) && ClientEnabled(s, c, a) && (Departing(s) ==> Departs(s, ByClient(c, a)))
    ensures GapInv(ClientNext(s, c, a), GapAfter(gap, s, ByClient(c, a)))
  {
    hide GapInv, Deserted;
    if a.Count? {
      GapCount(s, gap, c);
    } else if a.CheckFlag? {
      GapCheck(s, gap, c);
    } else if a.Arm? {
      GapArm(s, gap, c);
    } else {
      assert !Departing(s);
      match a {
        case Accept => GapAccept(s, gap, c);
        case Cancel => GapCancel(s, gap, c);
        case Open(opens) => GapOpen(s, gap, c, opens);
        case _ => GapLeave(s, gap, c);
      }
    }
    hide ClientNext, Departing;
  }

  /** A step that touches neither the clients nor, beyond dropping them, the timers, while nobody is departing. */
  lemma {:induction false} GapFrame(s: Service, q: Service, gap: Option<nat>)
    requires GapInv(s, gap) && !Departing(s) && q.clients == s.clients && s.now <= q.now
    requires q.timers == map[] || (q.timers == s.timers && q.lingerTimer == s.lingerTimer)
    requires q.timers != map[] && q.local && !q.gui.ConnCancel? ==> s.local && !s.gui.ConnCancel?
    requires !q.gui.DiscCount? && !q.gui.DiscSchedule?
    ensures GapInv(q, gap) && (q.timers == map[] ==> GapInv(q, None))
  {
    assert forall c :: c in s.clients ==> !OnTheWayOut(s.clients[c]);
    hide AnyIn;
  }

  lemma {:induction false} GapConnect(s: Service, gap: Option<nat>, a: GuiStep)
    requires GuiInv(s) && GapInv(s, gap) && GuiEnabled(s.gui, a) && !Departing(s)
    requires a.Run? || a.Connect? || a.CancelTimer? || a.OpenPort? || a.Stop? || a.DoPoll?
    ensures GapInv(GuiNext(s, a), GapAfter(gap, s, ByGui(a)))
  {
    ArmedTimers(s, gap);
    assert a.OpenPort? ==> AnyArrived(s);
    GapTimersFact(s, gap);
    hide AnyIn, AnyOut, AnyArrived, ScheduleClose, SP.EnsureOpen, StatusOf, CancelLinger, GapInv;
    GapFrame(s, GuiNext(s, a), gap);
  }

  lemma {:induction false} GapTimersFact(s: Service, gap: Option<nat>)
    requires GapInv(s, gap)
    ensures AnyArrived(s) ==> s.timers == map[]
  {
    hide AnyArrived, AnyIn, AnyOut;
  }

  lemma {:induction false} GapStop(s: Service, gap: Option<nat>)
    requires GuiInv(s) && GapInv(s, gap) && GuiEnabled(s.gui, StopNext) && !Departing(s)
    ensures GapInv(StopStep(s), gap)
  {
    ArmedTimers(s, gap);
    hide AnyIn, AnyOut, AnyArrived, CancelLinger, ClosePort, GapInv;
    GapFrame(s, StopStep(s), gap);
  }

  lemma {:induction false} GapDisconnect(s: Service, gap: Option<nat>)
    requires GuiInv(s) && GapInv(s, gap) && s.gui.Idle? && !Departing(s)
    ensures var q := BeginDisconnect(s);
            GapInv(q, if s.local && Deserted(q) then Some(s.now) else gap)
  {
    GapTimersFact(s, gap);
    assert s.local ==> AnyArrived(s);
    assert forall c :: c in s.clients ==> !OnTheWayOut(s.clients[c]);
    hide AnyIn, AnyArrived;
  }

  lemma {:induction false} GapGuiCount(s: Service, gap: Option<nat>)
    requires GuiInv(s) && GapInv(s, gap) && s.gui.DiscCount?
    ensures GapInv(GuiNext(s, CountClients), gap)
  {
    hide AnyIn, AnyOut;
  }

  lemma {:induction false} GapGuiArm(s: Service, gap: Option<nat>)
    requires GuiInv(s) && GapInv(s, gap) && s.gui.DiscSchedule?
    ensures GapInv(GuiNext(s, ArmTimer), gap)
  {
    ArmedTimers(s, gap);
    ArrivedIsAttached(s);
    hide AnyIn, AnyOut, ScheduleClose;
  }

  lemma {:induction false} GapGui(s: Service, gap: Option<nat>, a: GuiStep)
    requires GuiInv(s) && GapInv(s, gap) && GuiEnabled(s.gui, a) && (Departing(s) ==> Departs(s, ByGui(a)))
    ensures GapInv(GuiNext(s, a), GapAfter(gap, s, ByGui(a)))
  {
    hide GapInv, GuiInv;
    match a {
      case CountClients => GapGuiCount(s, gap);
      case ArmTimer => GapGuiArm(s, gap);
      case Disconnect => GapDisconnect(s, gap);
      case StopNext => GapStop(s, gap);
      case _ => GapConnect(s, gap, a);
    }
    hide Departing, Deserted, StopStep, BeginDisconnect;
  }

  /** In a state whose gap is short no timer takes a step, and every other step keeps the account of the gap. */
  lemma {:induction false} GapStep(s: Service, gap: Option<nat>, a: Action)
    requires GuiInv(s) && GapInv(s, gap) && Enabled(s, a) && (Departing(s) ==> Departs(s, a))
    requires gap.Some? ==> s.now < gap.value + SERIAL_LINGER
    ensures !a.ByTimer? && GapInv(Next(s, a), GapAfter(gap, s, a))
  {
    hide ClientNext, GuiNext, AnyArrived, Deserted, GapOuts;
    match a {
      case ByClient(c, client) =>
        GapClient(s, gap, c, client);
        hide GapTimers;
      case ByGui(gui) =>
        GapGui(s, gap, gui);
        hide GapTimers;
      case ByTimer(t, _) =>
      case ByPort(thread) =>
        GapPort(s, gap, thread);
        hide GapTimers;
      case Tick(d) =>
        GapFrame(s, s.(now := s.now + d), gap);
        hide GapTimers;
    }
  }

  lemma {:induction false} GapPort(s: Service, gap: Option<nat>, a: SP.Action)
    requires GapInv(s, gap) && !Departing(s) && PortEnabled(s.port, a)
    ensures GapInv(PortNext(s, a), gap)
  {
    var q := PortNext(s, a);
    assert q.timers == s.timers && q.lingerTimer == s.lingerTimer && q.local == s.local && q.now == s.now;
    assert !s.gui.DiscCount? && !s.gui.DiscSchedule?;
    hide PortNext, PortEnabled, GapInv, Departing;
    GapFrame(s, q, gap);
  }

  lemma {:induction false} GapRun(s: Service, run: seq<Action>, gap: Option<nat>)
    requires Inv(s) && GapInv(s, gap) && Legal(s, run) && WholeDepartures(s, run) && ShortGaps(s, run, gap)
    ensures forall k :: 0 <= k < |run| ==> !run[k].ByTimer?
    ensures forall t, a :: !TimerEnabled(After(s, run), t, a)
    decreases |run|
  {
    hide Inv, Next, Enabled, GapInv, Departing, Departs, GapAfter;
    if run == [] {
      NoTimerSteps(s, gap);
    } else {
      InvParts(s);
      GapStep(s, gap, run[0]);
      StepKeepsInv(s, run[0]);
      GapRun(Next(s, run[0]), run[1..], GapAfter(gap, s, run[0]));
      forall k | 0 <= k < |run| ensures !run[k].ByTimer? {
        if k > 0 { assert run[k] == run[1..][k - 1]; }
      }
    }
  }

  lemma {:induction false} NoTimerSteps(s: Service, gap: Option<nat>)
    requires GapInv(s, gap) && (gap.Some? ==> s.now < gap.value + SERIAL_LINGER)
    ensures forall t, a :: !TimerEnabled(s, t, a)
  {
    hide AnyArrived, GapOuts;
  }

  /** NO TIMER FIRES while each departure is whole and the gaps between consumers are shorter than SERIAL_LINGER,
    * from the start of a session or from any state without timers and departures. */
  lemma {:induction false} ShortGapsNeedNoTimer(s: Service, run: seq<Action>)
    requires Inv(s) && s.timers == map[] && !Departing(s)
    requires Legal(s, run) && WholeDepartures(s, run) && ShortGaps(s, run, None)
    ensures forall k :: 0 <= k < |run| ==> !run[k].ByTimer?
    ensures forall t, a :: !TimerEnabled(After(s, run), t, a)
  {
    QuietIsGap(s);
    hide Inv, Departing, WholeDepartures, ShortGaps, GapInv;
    GapRun(s, run, None);
  }

  /** ONE EPOCH. Any series of consumers with whole departures and gaps shorter than SERIAL_LINGER, without device
    * loss and stop, uses one open epoch throughout. */
  lemma {:induction false} OneEpochForAll(s: Service, run: seq<Action>)
    requires Inv(s) && s.timers == map[] && !Departing(s)
    requires !Halting(s.gui) && s.port.isOpen && SPT.Sound(s.port)
    requires Legal(s, run) && WholeDepartures(s, run) && ShortGaps(s, run, None)
    requires forall k :: 0 <= k < |run| ==> !(run[k].ByPort? && run[k].thread.RxBreak?) && !(run[k].ByGui? && run[k].gui.Stop?)
    ensures var q := After(s, run);
            q.port.isOpen && q.port.epoch == s.port.epoch && q.port.disconnects == s.port.disconnects
  {
    ShortGapsNeedNoTimer(s, run);
    hide Inv, Departing, WholeDepartures, ShortGaps, SPT.Sound;
    NoTimerIsCalm(s, run);
    CalmKeepsEpoch(s, run);
  }

  lemma {:induction false} NoTimerIsCalm(s: Service, run: seq<Action>)
    requires Legal(s, run) && forall k :: 0 <= k < |run| ==> !run[k].ByTimer?
    requires forall k :: 0 <= k < |run| ==> !(run[k].ByPort? && run[k].thread.RxBreak?) && !(run[k].ByGui? && run[k].gui.Stop?)
    ensures CalmRun(s, run)
    decreases |run|
  {
    hide Next, Enabled, Deserted;
    if run != [] {
      forall k | 0 <= k < |run[1..]|
        ensures !run[1..][k].ByTimer?
        ensures !(run[1..][k].ByPort? && run[1..][k].thread.RxBreak?) && !(run[1..][k].ByGui? && run[1..][k].gui.Stop?)
      {
        assert run[1..][k] == run[k + 1];
      }
      NoTimerIsCalm(Next(s, run[0]), run[1..]);
      assert !run[0].ByTimer?;
    }
  }

  // ---------------------------------------------------------------------------- recovery

  /** An infinite run of a service. */
  ghost predicate Trace(state: nat -> Service, act: nat -> Action) {
    forall i: nat :: Enabled(state(i), act(i)) && state(i + 1) == Next(state(i), act(i))
  }

  /** The device is there, it opens, and reading does not fail; or somebody closes. */
  predicate Fair(a: SP.Action) {
    a.DoClose? || SPT.Benign(a)
  }

  /** Nobody stops the service, and the environment is fair. */
  ghost predicate FairFrom(state: nat -> Service, act: nat -> Action, n: nat) {
    forall k: nat :: n <= k ==> !(act(k).ByGui? && act(k).gui.Stop?) && Fair(PortAction(state(k), act(k)))
  }

  /** There always is a consumer whose connect callback has finished, not necessarily the same. */
  ghost predicate ConsumedFrom(state: nat -> Service, n: nat) {
    forall k: nat :: n <= k ==> Settled(state(k))
  }

  /** While the port is closed, the reconnect threads keep being scheduled. */
  ghost predicate KeepsRetrying(state: nat -> Service, act: nat -> Action, n: nat) {
    forall i: nat :: n <= i && !state(i).port.isOpen ==> exists j: nat :: i <= j && act(j).ByPort? && act(j).thread.Retry?
  }

  /** From then on the port is open, and nobody is shown status `reconnecting`. */
  ghost predicate ConnectedFrom(state: nat -> Service, m: nat) {
    forall k: nat :: m <= k ==> state(k).port.isOpen && StatusOf(state(k)) != StatusReconnecting
  }

  lemma {:induction false} PortTrace(state: nat -> Service, act: nat -> Action)
    requires Trace(state, act)
    ensures SPT.Trace((i: nat) => state(i).port, (i: nat) => PortAction(state(i), act(i)))
  {
    forall i: nat
      ensures SP.Enabled(state(i).port, PortAction(state(i), act(i)))
      ensures state(i + 1).port == SP.Next(state(i).port, PortAction(state(i), act(i)))
    {
      assert Enabled(state(i), act(i)) && state(i + 1) == Next(state(i), act(i));
      StepIsPortStep(state(i), act(i));
    }
  }

  lemma {:induction false} PortScheduled(state: nat -> Service, act: nat -> Action, n: nat)
    requires KeepsRetrying(state, act, n)
    ensures SPT.Scheduled((i: nat) => state(i).port, (i: nat) => PortAction(state(i), act(i)), n)
  {
    var ports, acts := (i: nat) => state(i).port, (i: nat) => PortAction(state(i), act(i));
    forall i: nat | n <= i && !ports(i).isOpen ensures exists j: nat :: i <= j && acts(j).Retry? {
      assert !state(i).port.isOpen;
      var j: nat :| i <= j && act(j).ByPort? && act(j).thread.Retry?;
      assert acts(j).Retry?;
    }
  }

  lemma {:induction false} ServiceTrace(state: nat -> Service, act: nat -> Action, n: nat, i: nat)
    requires Trace(state, act) && FairFrom(state, act, n) && Inv(state(n)) && !Halting(state(n).gui) && n <= i
    ensures Inv(state(i)) && !Halting(state(i).gui)
    decreases i
  {
    hide Inv, Next, Enabled, Halting;
    if n < i {
      ServiceTrace(state, act, n, i - 1);
      assert Enabled(state(i - 1), act(i - 1)) && state(i - 1 + 1) == Next(state(i - 1), act(i - 1));
      StepKeepsInv(state(i - 1), act(i - 1));
      GuiMoves(state(i - 1), act(i - 1));
    }
  }

  /** While somebody is served and nobody stops the service, nothing closes the port on purpose. */
  lemma {:induction false} ConsumersKeepItOpen(s: Service, a: Action)
    requires Enabled(s, a) && Settled(s) && !Halting(s.gui)
    ensures !PortAction(s, a).DoClose?
  {
    hide SP.Enabled;
    if AnyServing(s.clients) {
      var c :| c in s.clients && s.clients[c].Serving?;
      assert InSet(s.clients[c]);
    }
  }

  /** A lost device comes back for its consumers. If from some point on the device is present, opens and does not
    * fail, there always is a settled consumer, nobody stops the service, and the reconnect threads keep being
    * scheduled, then the service becomes connected and stays so. */
  lemma {:induction false} ConsumersRecover(state: nat -> Service, act: nat -> Action, n: nat)
    requires Trace(state, act) && Inv(state(n)) && !Halting(state(n).gui)
    requires FairFrom(state, act, n) && ConsumedFrom(state, n) && KeepsRetrying(state, act, n)
    ensures exists m: nat :: n <= m && ConnectedFrom(state, m)
  {
    var ports, acts := (i: nat) => state(i).port, (i: nat) => PortAction(state(i), act(i));
    PortTrace(state, act);
    PortScheduled(state, act, n);
    forall k: nat | n <= k ensures SPT.Benign(acts(k)) {
      FairIsBenign(state, act, n, k);
    }
    assert Settled(state(n));
    assert SP.Wanted(state(n).port) && SP.Inv(state(n).port);
    hide Inv, Settled, Trace, FairFrom, ConsumedFrom, KeepsRetrying, SP.Inv, SP.Wanted, SPT.Trace, SPT.Scheduled, SPT.Benign,
         SPT.OpenFrom, ConnectedFrom;
    SPT.Recovery(ports, acts, n);
    var m: nat :| n <= m && SPT.OpenFrom(ports, m);
    OpenIsConnected(state, act, n, m);
  }

  lemma {:induction false} FairIsBenign(state: nat -> Service, act: nat -> Action, n: nat, k: nat)
    requires Trace(state, act) && Inv(state(n)) && !Halting(state(n).gui)
    requires FairFrom(state, act, n) && ConsumedFrom(state, n) && n <= k
    ensures SPT.Benign(PortAction(state(k), act(k)))
  {
    hide Inv, Next, Enabled, Halting, Settled, SPT.Benign;
    ServiceTrace(state, act, n, k);
    assert Enabled(state(k), act(k)) && Settled(state(k));
    ConsumersKeepItOpen(state(k), act(k));
  }

  lemma {:induction false} OpenIsConnected(state: nat -> Service, act: nat -> Action, n: nat, m: nat)
    requires Trace(state, act) && SP.Inv(state(n).port) && n <= m && SPT.OpenFrom((i: nat) => state(i).port, m)
    ensures ConnectedFrom(state, m)
  {
    var ports, acts := (i: nat) => state(i).port, (i: nat) => PortAction(state(i), act(i));
    PortTrace(state, act);
    hide Trace, SPT.Trace, HasConsumers, PortAction;
    forall k: nat | m <= k ensures state(k).port.isOpen && StatusOf(state(k)) != StatusReconnecting {
      assert ports(k).isOpen;
      SPT.TraceInv(ports, acts, n, k);
      ConnectedIsOpen(ports(k));
    }
  }
}
