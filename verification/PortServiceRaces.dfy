/** Concrete runs that show why the conditions of the theorems about lingering and leaking are there. */
module PortServiceRaces {
  import opened Bytes
  import SP = SerialPorts
  import opened PortServices
  import opened PortServiceInvariant
  import opened PortServiceTheorems

  ghost predicate Reaches(run: seq<Action>, s: Service) {
    Leads(NewService(0), run, s)
  }

  lemma {:induction false} Extend(run: seq<Action>, s: Service, a: Action) returns (longer: seq<Action>, q: Service)
    requires Reaches(run, s) && Enabled(s, a)
    ensures Reaches(longer, q) && q == Next(s, a)
  {
    LeadsOn(NewService(0), run, s, a);
    hide Next, Enabled;
    longer, q := run + [a], Next(s, a);
  }

  lemma {:induction false} ExtendByClient(run: seq<Action>, s: Service, c: nat, a: ClientStep)
    returns (longer: seq<Action>, q: Service)
    requires Reaches(run, s) && ClientEnabled(s, c, a)
    ensures Reaches(longer, q) && q == ClientNext(s, c, a)
  {
    longer, q := Extend(run, s, ByClient(c, a));
    hide Reaches, ClientNext;
  }

  /** A client arrives, opens the port and is served. */
  lemma {:induction false} Arrive(run: seq<Action>, s: Service, c: nat) returns (longer: seq<Action>, q: Service)
    requires Reaches(run, s) && s.accepting && c !in s.clients
    ensures Reaches(longer, q)
    ensures q == CancelLinger(s).(clients := s.clients[c := Serving], port := SP.EnsureOpen(s.port, true))
  {
    hide Reaches, SP.EnsureOpen, CancelLinger;
    longer, q := ExtendByClient(run, s, c, Accept);
    assert q == s.(clients := s.clients[c := Joined]);
    CancelIgnoresClients(s, s.clients[c := Joined]);
    longer, q := ExtendByClient(longer, q, c, Cancel);
    assert s.clients[c := Joined][c := Opening] == s.clients[c := Opening];
    assert q == CancelLinger(s).(clients := s.clients[c := Opening]);
    longer, q := ExtendByClient(longer, q, c, Open(true));
    assert s.clients[c := Opening][c := Serving] == s.clients[c := Serving];
  }

  /** The only client leaves, sees neither another client nor the terminal, and is about to arm the timer. */
  lemma {:induction false} LeaveAlone(run: seq<Action>, s: Service, c: nat) returns (longer: seq<Action>, q: Service)
    requires Reaches(run, s) && s.clients == map[c := Serving] && !s.local
    ensures Reaches(longer, q) && q == s.(clients := map[c := Schedule], lastDeparture := s.now)
  {
    hide Reaches;
    longer, q := ExtendByClient(run, s, c, Leave);
    assert s.clients[c := Removed] == map[c := Removed];
    assert q == s.(clients := map[c := Removed], lastDeparture := s.now);
    assert CountIsZero(q);
    hide CountIsZero;
    longer, q := ExtendByClient(longer, q, c, Count);
    assert map[c := Removed][c := CheckLocal] == map[c := CheckLocal];
    assert q == s.(clients := map[c := CheckLocal], lastDeparture := s.now);
    longer, q := ExtendByClient(longer, q, c, CheckFlag);
    assert map[c := CheckLocal][c := Schedule] == map[c := Schedule];
  }

  /** A client that comes and goes before the running flag is set leaves the port open for good: the service
    * runs, nobody is attached, no callback is in flight, and no timer is live. */
  lemma {:induction false} BootWindowLeaks() returns (run: seq<Action>, s: Service)
    ensures Reaches(run, s) && s.running && Deserted(s) && !Departing(s)
    ensures s.port.isOpen && s.timers == map[]
  {
    s := NewService(0);
    run := [];
    run, s := Arrive(run, s, 1);
    assert s.clients == map[1 := Serving] && s.port.isOpen && s.timers == map[];
    run, s := LeaveAlone(run, s, 1);
    assert !s.running && s.port.isOpen && s.gui.Booting? && s.timers == map[];
    run, s := Extend(run, s, ByClient(1, Arm));
    assert s.clients == map[] && s.timers == map[] && s.port.isOpen;
    run, s := Extend(run, s, ByGui(Run));
  }

  /** A timer that has fired but not yet run cannot be cancelled: it closes the port right after a later client
    * has left, although that client armed a timer of its own. */
  lemma {:induction false} StaleTimerClosesEarly() returns (run: seq<Action>, s: Service, t: nat)
    ensures Reaches(run, s) && TimerEnabled(s, t, Close) && s.running && Deserted(s) && !Departing(s)
    ensures s.port.isOpen && !Next(s, ByTimer(t, Close)).port.isOpen
    ensures s.lingerTimer != Some(t) && s.now < s.lastDeparture + SERIAL_LINGER
    ensures t == 0 && s.lingerTimer == Some(1) && s.accepting && s.clients == map[]
    ensures s.timers == map[0 := Timer(0, true), 1 := Timer(SERIAL_LINGER, false)]
  {
    t := 0;
    run, s := FirstTimerArmed();
    run, s := Extend(run, s, Tick(SERIAL_LINGER));
    run, s := Extend(run, s, ByTimer(0, Fire));
    assert s.timers == map[0 := Timer(0, true)] && s.clients == map[] && s.port.isOpen && s.accepting;
    run, s := Arrive(run, s, 2);
    assert s.clients == map[2 := Serving] && s.lingerTimer == None && s.timers == map[0 := Timer(0, true)] && s.port.isOpen;
    run, s := LeaveAlone(run, s, 2);
    run, s := Extend(run, s, ByClient(2, Arm));
    assert s.clients == map[] && s.lingerTimer == Some(1);
    assert s.timers == map[0 := Timer(0, true), 1 := Timer(SERIAL_LINGER, false)] && s.port.isOpen;
  }

  /** After that the newer timer is forgotten: when the next client comes and cancels, it is still waiting. */
  lemma {:induction false} ForgottenTimerSurvives() returns (run: seq<Action>, s: Service, t: nat)
    ensures Reaches(run, s) && s.running && ClientEnabled(s, 3, Cancel)
    ensures t in s.timers && s.lingerTimer != Some(t)
    ensures var q := Next(s, ByClient(3, Cancel)); t in q.timers && !q.timers[t].fired
  {
    run, s, t := StaleTimerClosesEarly();
    run, s := Extend(run, s, ByTimer(0, Close));
    assert s.timers == map[1 := Timer(SERIAL_LINGER, false)] && s.lingerTimer == None && s.accepting && s.clients == map[];
    t := 1;
    run, s := ExtendByClient(run, s, 3, Accept);
    hide Reaches;
    assert CancelLinger(s) == s;
  }

  /** A client that is accepted just before stop finishes its connect callback after it: the service has stopped,
    * and the port is open. */
  lemma {:induction false} StoppedAndOpen() returns (closing: seq<Action>, s: Service, run: seq<Action>, q: Service)
    ensures Reaches(closing, s) && s.gui.StopClose? && ConnectPending(s)
    ensures Leads(s, run, q) && q.gui == Stopped && !q.running && q.port.isOpen
  {
    s, closing := NewService(0), [];
    closing, s := Extend(closing, s, ByGui(Run));
    closing, s := ExtendByClient(closing, s, 1, Accept);
    closing, s := Extend(closing, s, ByGui(Stop));
    closing, s := Extend(closing, s, ByGui(StopNext));
    closing, s := Extend(closing, s, ByGui(StopNext));
    closing, s := Extend(closing, s, ByGui(StopNext));
    hide Reaches;
    assert s.gui == StopClose && !s.running && s.clients == map[1 := Joined];
    assert 1 in s.clients && s.clients[1].Joined?;
    run, q := FinishStop(s);
  }

  lemma {:induction false} FinishStop(s: Service) returns (run: seq<Action>, q: Service)
    requires s.gui == StopClose && !s.running && At(s, 1, Joined)
    ensures Leads(s, run, q) && q.gui == Stopped && !q.running && q.port.isOpen
  {
    hide Leads, ClosePort, CancelLinger;
    LeadsNowhere(s);
    run, q := [ByGui(StopNext)], Next(s, ByGui(StopNext));
    LeadsOn(s, [], s, ByGui(StopNext));
    assert [] + [ByGui(StopNext)] == run;
    assert q.gui == StopReset && !q.running && At(q, 1, Joined);
    LeadsOn(s, run, q, ByGui(StopNext));
    run, q := run + [ByGui(StopNext)], Next(q, ByGui(StopNext));
    assert q.gui == Stopped && !q.running && At(q, 1, Joined);
    LeadsOn(s, run, q, ByClient(1, Cancel));
    run, q := run + [ByClient(1, Cancel)], Next(q, ByClient(1, Cancel));
    assert q.gui == Stopped && !q.running && At(q, 1, Opening);
    LeadsOn(s, run, q, ByClient(1, Open(true)));
    run, q := run + [ByClient(1, Open(true))], Next(q, ByClient(1, Open(true)));
    assert q.gui == Stopped && !q.running && q.port.isConnected;
  }

  /** One client served and gone, and the linger timer armed at time 0. */
  lemma {:induction false} FirstTimerArmed() returns (run: seq<Action>, s: Service)
    ensures Reaches(run, s) && s.running && !s.local && s.accepting && s.port.isOpen && s.port.isConnected
    ensures s.gui == Idle && s.clients == map[] && s.now == 0 && s.lastDeparture == 0
    ensures s.timers == map[0 := Timer(0, false)] && s.lingerTimer == Some(0) && s.nextTimer == 1
  {
    s := NewService(0);
    run := [];
    run, s := Extend(run, s, ByGui(Run));
    run, s := Arrive(run, s, 1);
    assert s.clients == map[1 := Serving] && s.port.isOpen && s.running;
    run, s := LeaveAlone(run, s, 1);
    run, s := Extend(run, s, ByClient(1, Arm));
    assert s.clients == map[];
    assert s.timers == map[0 := Timer(0, false)];
  }

  /** A slow disconnect callback arms the timer while the next client is already attached; the port is then
    * closed as soon as that client has left the client set. */
  lemma {:induction false} SlowDepartureClosesEarly() returns (run: seq<Action>, s: Service, t: nat)
    ensures Reaches(run, s) && TimerEnabled(s, t, Close) && s.running && Deserted(s) && Departing(s)
    ensures s.port.isOpen && !Next(s, ByTimer(t, Close)).port.isOpen
    ensures s.lingerTimer == Some(t) && s.now < s.lastDeparture + SERIAL_LINGER
  {
    t := 0;
    run, s := ArmedTooLate();
    run, s := Extend(run, s, Tick(SERIAL_LINGER));
    run, s := ExtendByClient(run, s, 2, Leave);
    assert s.clients == map[2 := Removed];
    run, s := Extend(run, s, ByTimer(0, Fire));
    assert s.timers == map[0 := Timer(0, true)] && s.port.isOpen;
    assert 2 in s.clients && OnTheWayOut(s.clients[2]);
  }

  /** One client served and gone, another one served, and then the first one's callback arms the timer at time 0. */
  lemma {:induction false} ArmedTooLate() returns (run: seq<Action>, s: Service)
    ensures Reaches(run, s) && s.running && !s.local && s.port.isOpen && s.port.isConnected && s.gui == Idle
    ensures s.clients == map[2 := Serving] && s.now == 0
    ensures s.timers == map[0 := Timer(0, false)] && s.lingerTimer == Some(0)
  {
    s := NewService(0);
    run := [];
    run, s := Extend(run, s, ByGui(Run));
    run, s := Arrive(run, s, 1);
    assert s.clients == map[1 := Serving] && s.port.isOpen && s.running;
    run, s := LeaveAlone(run, s, 1);
    run, s := Arrive(run, s, 2);
    assert s.clients == map[1 := Schedule, 2 := Serving] && s.port.isOpen;
    run, s := ExtendByClient(run, s, 1, Arm);
    assert s.clients == map[2 := Serving];
  }
}
