/** The methods of a service, run without interruption, as runs of the state machine: which steps each takes. */
module PortServiceRuns {
  import opened Bytes
  import opened PortServices

  function ConnectSteps(s: Service, opens: bool): seq<Action> {
    if !s.running then []
    else if s.local then [ByGui(Connect)]
    else [ByGui(Connect), ByGui(CancelTimer), ByGui(OpenPort(opens))]
  }

  function DisconnectSteps(s: Service): seq<Action> {
    if !s.local then []
    else if CountIsZero(BeginDisconnect(s)) then [ByGui(Disconnect), ByGui(CountClients), ByGui(ArmTimer)]
    else [ByGui(Disconnect), ByGui(CountClients)]
  }

  function StopSteps(s: Service): seq<Action> {
    if !s.running then []
    else [ByGui(Stop), ByGui(StopNext), ByGui(StopNext), ByGui(StopNext), ByGui(StopNext), ByGui(StopNext)]
  }

  function ArriveSteps(c: nat, opens: bool): seq<Action> {
    [ByClient(c, Cancel), ByClient(c, Open(opens))]
  }

  /** The disconnect callback. */
  function DepartSteps(s: Service, c: nat): seq<Action> {
    if !CountIsZero(s) then [ByClient(c, Count)]
    else if s.local then [ByClient(c, Count), ByClient(c, CheckFlag)]
    else [ByClient(c, Count), ByClient(c, CheckFlag), ByClient(c, Arm)]
  }

  lemma {:induction false} OneStep(s: Service, a: Action)
    requires Enabled(s, a)
    ensures Leads(s, [a], Next(s, a))
  {
    LeadsNowhere(s);
    LeadsOn(s, [], s, a);
    hide Next, Enabled;
    assert [] + [a] == [a];
  }

  lemma {:induction false} TwoSteps(s: Service, a: Action, b: Action)
    requires Enabled(s, a) && Enabled(Next(s, a), b)
    ensures Leads(s, [a, b], Next(Next(s, a), b))
  {
    OneStep(s, a);
    hide Next, Enabled;
    LeadsOn(s, [a], Next(s, a), b);
    assert [a] + [b] == [a, b];
  }

  lemma {:induction false} ThreeSteps(s: Service, a: Action, b: Action, c: Action)
    requires Enabled(s, a) && Enabled(Next(s, a), b) && Enabled(Next(Next(s, a), b), c)
    ensures Leads(s, [a, b, c], Next(Next(Next(s, a), b), c))
  {
    TwoSteps(s, a, b);
    hide Next, Enabled;
    LeadsOn(s, [a, b], Next(Next(s, a), b), c);
    assert [a, b] + [c] == [a, b, c];
  }

  lemma {:induction false} ConnectRun(s: Service, opens: bool)
    requires s.gui.Idle? && s.running
    ensures Leads(s, ConnectSteps(s, opens),
                  if s.local then s else GuiNext(GuiNext(GuiNext(s, Connect), CancelTimer), OpenPort(opens)))
  {
    if s.local {
      OneStep(s, ByGui(Connect));
    } else {
      ThreeSteps(s, ByGui(Connect), ByGui(CancelTimer), ByGui(OpenPort(opens)));
    }
    hide Leads, CancelLinger;
  }

  lemma {:induction false} DisconnectRun(s: Service)
    requires s.gui.Idle?
    ensures var left := BeginDisconnect(s);
            Leads(s, DisconnectSteps(s),
                  if !s.local then s
                  else if CountIsZero(left) then ScheduleClose(left.(gui := DiscSchedule)).(gui := Idle)
                  else left.(gui := Idle))
  {
    hide Leads, ScheduleClose, AnyIn;
    if !s.local {
      LeadsNowhere(s);
    } else if CountIsZero(BeginDisconnect(s)) {
      ThreeSteps(s, ByGui(Disconnect), ByGui(CountClients), ByGui(ArmTimer));
    } else {
      TwoSteps(s, ByGui(Disconnect), ByGui(CountClients));
    }
  }

  /** What is left to do in `stop`. */
  function StopsLeft(g: Gui): nat {
    match g
    case StopLocal => 5
    case StopCancel => 4
    case StopServer => 3
    case StopClose => 2
    case StopReset => 1
    case _ => 0
  }

  function StopRest(n: nat): seq<Action> {
    if n == 0 then [] else StopRest(n - 1) + [ByGui(StopNext)]
  }

  function StopMany(s: Service, n: nat): Service {
    if n == 0 then s else StopStep(StopMany(s, n - 1))
  }

  lemma StopManyIs(s: Service)
    ensures StopMany(s, 5) == StopStep(StopStep(StopStep(StopStep(StopStep(s)))))
  {
    hide StopStep;
    assert StopMany(s, 1) == StopStep(s) && StopMany(s, 2) == StopStep(StopStep(s));
    assert StopMany(s, 3) == StopStep(StopStep(StopStep(s)));
  }

  lemma {:induction false} StopCountsDown(s: Service)
    requires StopsLeft(s.gui) > 0
    ensures StopsLeft(StopStep(s).gui) == StopsLeft(s.gui) - 1
  {
    hide CancelLinger, StopStep;
  }

  lemma {:induction false} StopManyRun(s: Service, n: nat)
    requires n <= StopsLeft(s.gui)
    ensures Leads(s, StopRest(n), StopMany(s, n)) && StopsLeft(StopMany(s, n).gui) == StopsLeft(s.gui) - n
  {
    hide StopStep, Leads;
    if n == 0 {
      LeadsNowhere(s);
    } else {
      StopManyRun(s, n - 1);
      var q := StopMany(s, n - 1);
      StopCountsDown(q);
      hide Next;
      LeadsOn(s, StopRest(n - 1), q, ByGui(StopNext));
      StopIsNext(q);
    }
  }

  lemma StopIsNext(s: Service)
    requires StopsLeft(s.gui) > 0
    ensures Enabled(s, ByGui(StopNext)) && Next(s, ByGui(StopNext)) == StopStep(s)
  {
    hide StopStep;
  }

  lemma {:induction false} Prepend(s: Service, a: Action, run: seq<Action>, q: Service)
    requires Enabled(s, a) && Leads(Next(s, a), run, q)
    ensures Leads(s, [a] + run, q)
  {
    hide Next, Enabled;
    assert ([a] + run)[1..] == run;
  }

  lemma {:induction false} StopRun(s: Service)
    requires s.gui.Idle? && s.running
    ensures Leads(s, StopSteps(s), StopMany(BeginStop(s), 5))
  {
    hide StopStep, StopMany, Leads;
    StopManyRun(BeginStop(s), 5);
    Prepend(s, ByGui(Stop), StopRest(5), StopMany(BeginStop(s), 5));
    var a := ByGui(StopNext);
    assert StopRest(1) == [a] && StopRest(2) == [a, a] && StopRest(3) == [a, a, a] && StopRest(4) == [a, a, a, a];
    assert [ByGui(Stop)] + StopRest(5) == StopSteps(s);
  }

  lemma {:induction false} ArriveRun(s: Service, c: nat, opens: bool)
    requires At(s, c, Joined)
    ensures Leads(s, ArriveSteps(c, opens), ClientNext(ClientNext(s, c, Cancel), c, Open(opens)))
  {
    TwoSteps(s, ByClient(c, Cancel), ByClient(c, Open(opens)));
    hide Leads, CancelLinger;
  }

  /** Where the disconnect callback leads. */
  function Departed(s: Service, c: nat): Service {
    var counted := ClientNext(s, c, Count);
    if !CountIsZero(s) then counted
    else if s.local then ClientNext(counted, c, CheckFlag)
    else ClientNext(ClientNext(counted, c, CheckFlag), c, Arm)
  }

  lemma {:induction false} DepartedIs(s: Service, c: nat)
    requires At(s, c, Removed)
    ensures Departed(s, c)
         == (if CountIsZero(s) && !s.local then ScheduleClose(s) else s).(clients := s.clients - {c})
  {
    hide CountIsZero, ScheduleClose;
    ScheduleIgnoresClients(s, s.clients[c := CheckLocal][c := Schedule]);
    assert s.clients[c := CheckLocal] - {c} == s.clients - {c};
    assert s.clients[c := CheckLocal][c := Schedule] - {c} == s.clients - {c};
  }

  lemma {:induction false} StopTimersIs(s: Service)
    ensures StopStep(StopStep(BeginStop(s)))
         == CancelLinger(s.(running := false, local := false, gui := StopCancel)).(gui := StopServer)
  {
    hide CancelLinger, ClosePort;
  }

  lemma {:induction false} StopResourcesIs(s: Service)
    requires s.gui.StopServer?
    ensures StopStep(StopStep(s)) == ClosePort(s.(accepting := false, gui := StopClose)).(gui := StopReset)
  {
    hide CancelLinger, ClosePort;
  }

  lemma {:induction false} DepartRun(s: Service, c: nat)
    requires At(s, c, Removed)
    ensures Leads(s, DepartSteps(s, c), Departed(s, c))
  {
    hide Leads, ScheduleClose, AnyIn;
    if !CountIsZero(s) {
      OneStep(s, ByClient(c, Count));
    } else if s.local {
      TwoSteps(s, ByClient(c, Count), ByClient(c, CheckFlag));
    } else {
      ThreeSteps(s, ByClient(c, Count), ByClient(c, CheckFlag), ByClient(c, Arm));
    }
  }

  lemma {:induction false} RemoveRun(s: Service, c: nat)
    requires At(s, c, Serving)
    ensures var left := ClientNext(s, c, Leave);
            Leads(s, [ByClient(c, Leave)] + DepartSteps(left, c), Departed(left, c))
  {
    var left := ClientNext(s, c, Leave);
    DepartRun(left, c);
    hide Leads, DepartSteps, Departed;
    Prepend(s, ByClient(c, Leave), DepartSteps(left, c), Departed(left, c));
  }
}
