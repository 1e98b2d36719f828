/** The service as the object whose attributes the threads update. A method is a method of the service run
  * without interruption; its contract says which steps of `PortServices` it takes, in which order. Where the
  * thread positions are concerned (`gui`, `clients`) the state is ghost. */
module PortServiceObject {
  import opened Bytes
  import SP = SerialPorts
  import PS = PortServices
  import PR = PortServiceRuns
  import opened SerialPortObject

  class PortService {
    const port: SerialPort
    var running: bool
    var localClient: bool
    var accepting: bool
    var clientSet: set<nat>
    var timers: map<nat, PS.Timer>
    var lingerTimer: Option<nat>
    var nextTimer: nat
    var now: nat
    var reconnectAttempt: nat
    var lastRetryLog: nat

    ghost var gui: PS.Gui
    ghost var clients: map<nat, PS.Client>
    ghost var lastReset: nat
    ghost var lossReset: bool
    ghost var lastDeparture: nat
    ghost var lastArm: nat
    ghost var missed: bool

    ghost function State(): PS.Service
      reads this, port
    {
      PS.Service(port.State(), running, localClient, accepting, gui, clients, timers, lingerTimer, nextTimer, now,
                 reconnectAttempt, lastRetryLog, lastReset, lossReset, lastDeparture, lastArm, missed)
    }

    /** The client set holds exactly the clients whose thread says so. */
    ghost predicate Valid()
      reads this
    {
      clientSet == set c | c in clients && PS.InSet(clients[c])
    }

    constructor (port: SerialPort, now: nat)
      requires port.State() == SP.NEW_PORT
      ensures Valid() && this.port == port && State() == PS.NewService(now)
    {
      this.port := port;
      running, localClient, accepting, clientSet := false, false, true, {};
      timers, lingerTimer, nextTimer, this.now := map[], None, 0, now;
      reconnectAttempt, lastRetryLog := 0, 0;
      gui, clients, lastReset, lossReset := PS.Booting, map[], now, false;
      lastDeparture, lastArm, missed := 0, 0, false;
    }

    // ------------------------------------------------------------------------------ reads

    method ClientCount() returns (n: nat)
      requires Valid()
      ensures n == if running then |set c | c in clients && PS.InSet(clients[c])| else 0
      ensures n == 0 <==> PS.CountIsZero(State())
      ensures n == 0 <==> !running || clientSet == {}
    {
      n := if running then |clientSet| else 0;
      if clientSet != {} {
        var c :| c in clientSet;
        assert PS.AnyIn(clients);
      } else {
        assert forall c :: c in clients && PS.InSet(clients[c]) ==> c in clientSet;
      }
    }

    method HasConsumers() returns (b: bool)
      requires Valid()
      ensures b == PS.HasConsumers(State())
      ensures b <==> (running && clientSet != {}) || localClient
    {
      var n := ClientCount();
      b := n > 0 || localClient;
    }

    method Status() returns (status: PS.Status)
      requires Valid()
      ensures status == PS.StatusOf(State())
      ensures status == PS.StatusStopped <==> !running
      ensures status == PS.StatusReconnecting <==> running && !port.isConnected && (clientSet != {} || localClient)
    {
      if !running {
        return PS.StatusStopped;
      }
      var consumers := HasConsumers();
      status := if consumers && !port.isConnected then PS.StatusReconnecting else PS.StatusRunning;
    }

    // ----------------------------------------------------------------------------- linger

    method CancelLinger()
      modifies this`timers, this`lingerTimer
      ensures State() == PS.CancelLinger(old(State()))
    {
      if lingerTimer != None {
        var t := lingerTimer.value;
        if !(t in timers && timers[t].fired) {   // cancelling a timer that has fired has no effect
          timers := timers - {t};
        }
        lingerTimer := None;
      }
    }

    method ScheduleSerialClose()
      modifies this`timers, this`lingerTimer, this`nextTimer, this`lastArm, this`missed
      ensures State() == PS.ScheduleClose(old(State()))
    {
      hide PS.CancelLinger, SerialPort.State;
      CancelLinger();
      if !running {
        missed := missed || gui.Booting?;
        return;
      }
      lingerTimer := Some(nextTimer);
      timers := timers[nextTimer := PS.Timer(now, false)];
      nextTimer, lastArm, missed := nextTimer + 1, now, false;
    }

    method NoteDisconnect()
      requires Valid()
      modifies this`reconnectAttempt, this`lastRetryLog, this`lastReset, this`lossReset
      ensures State() == PS.NoteDisconnect(old(State()))
    {
      var consumers := HasConsumers();
      if running && consumers {
        reconnectAttempt, lastRetryLog := 0, now;
        lastReset, lossReset := now, true;
      }
    }

    method ClosePort()
      requires Valid()
      modifies this`reconnectAttempt, this`lastRetryLog, this`lastReset, this`lossReset, port
      ensures Valid() && State() == PS.ClosePort(old(State()))
    {
      if port.isConnected {
        NoteDisconnect();
      }
      port.Close();
    }

    method LingerClose(t: nat)
      requires Valid()
      modifies this`timers, this`lingerTimer, this`reconnectAttempt, this`lastRetryLog, this`lastReset, this`lossReset, port
      ensures Valid() && State() == PS.LingerClose(old(State()), t)
      ensures PS.TimerEnabled(old(State()), t, PS.Close) ==> PS.Leads(old(State()), [PS.ByTimer(t, PS.Close)], State())
    {
      ghost var s := State();
      if PS.TimerEnabled(s, t, PS.Close) {
        PR.OneStep(s, PS.ByTimer(t, PS.Close));
      }
      hide PS.Leads, PS.TimerEnabled;
      timers := timers - {t};
      lingerTimer := None;
      var consumers := HasConsumers();
      if !running || consumers {
        return;
      }
      ClosePort();
    }

    // ---------------------------------------------------------------------------- control

    method ConnectLocal(opens: bool)
      requires if running then gui.Idle? else gui.Stopped?
      modifies this, port
      ensures State() == if !old(running) || old(localClient) then old(State())
                         else PS.GuiNext(PS.GuiNext(PS.GuiNext(old(State()), PS.Connect), PS.CancelTimer), PS.OpenPort(opens))
      ensures old(Valid()) ==> Valid()
      ensures PS.Leads(old(State()), PR.ConnectSteps(old(State()), opens), State())
      ensures gui == old(gui) && (running ==> localClient)
    {
      hide PS.Leads, PS.CancelLinger, SP.EnsureOpen, SerialPort.State;
      if running {
        PR.ConnectRun(State(), opens);
      } else {
        PS.LeadsNowhere(State());
      }
      if !running || localClient {
        return;
      }
      localClient, gui := true, PS.ConnCancel;
      CancelLinger();
      gui := PS.ConnOpen;
      port.EnsureOpen(opens);
      gui := PS.Idle;
    }

    method DisconnectLocal()
      requires Valid() && (gui.Idle? || (gui.Stopped? && !localClient))
      modifies this
      ensures Valid()
      ensures PS.Leads(old(State()), PR.DisconnectSteps(old(State())), State())
      ensures gui == old(gui) && !localClient
      ensures var left := PS.BeginDisconnect(old(State()));
              State() == if !old(localClient) then old(State())
                         else if PS.CountIsZero(left) then PS.ScheduleClose(left.(gui := PS.DiscSchedule)).(gui := PS.Idle)
                         else left.(gui := PS.Idle)
    {
      hide PS.Leads, PS.CancelLinger, PS.ScheduleClose, PS.CountIsZero;
      if localClient {
        PR.DisconnectRun(State());
      } else {
        PS.LeadsNowhere(State());
        return;
      }
      localClient, gui, lastDeparture := false, PS.DiscCount, now;
      CloseIfDeserted();
    }

    /** The part of `disconnect_local` after the flag has been cleared. */
    method CloseIfDeserted()
      requires Valid() && gui.DiscCount?
      modifies this`gui, this`timers, this`lingerTimer, this`nextTimer, this`lastArm, this`missed
      ensures Valid()
      ensures State() == if PS.CountIsZero(old(State())) then PS.ScheduleClose(old(State()).(gui := PS.DiscSchedule)).(gui := PS.Idle)
                         else old(State()).(gui := PS.Idle)
    {
      hide PS.ScheduleClose, PS.CountIsZero;
      var n := ClientCount();
      if n == 0 {
        gui := PS.DiscSchedule;
        ScheduleSerialClose();
      }
      gui := PS.Idle;
    }

    /** stop, up to the point where no timer can be armed any more. */
    method StopTimers()
      requires gui.Idle? && running
      modifies this`running, this`localClient, this`gui, this`timers, this`lingerTimer
      ensures State() == PS.StopStep(PS.StopStep(PS.BeginStop(old(State()))))
      ensures gui == PS.StopServer
    {
      PR.StopTimersIs(State());
      hide PS.CancelLinger, PS.StopStep, SerialPort.State;
      running, gui := false, PS.StopLocal;
      localClient, gui := false, PS.StopCancel;
      CancelLinger();
      gui := PS.StopServer;
    }

    /** stop, the part that takes the server and the serial port down. */
    method StopResources()
      requires Valid() && gui.StopServer?
      modifies this, port
      ensures Valid() && State() == PS.StopStep(PS.StopStep(old(State())))
      ensures gui == PS.StopReset
    {
      PR.StopResourcesIs(State());
      hide PS.ClosePort, PS.StopStep, SerialPort.State;
      accepting, gui := false, PS.StopClose;
      ClosePort();
      gui := PS.StopReset;
    }

    method StopCounters()
      requires gui.StopReset?
      modifies this`reconnectAttempt, this`gui, this`lastReset, this`lossReset
      ensures State() == PS.StopStep(old(State()))
    {
      hide PS.CancelLinger, PS.ClosePort, SerialPort.State;
      reconnectAttempt, gui := 0, PS.Stopped;
      lastReset, lossReset := now, false;
    }

    method Stop()
      requires Valid() && if running then gui.Idle? else gui.Stopped?
      modifies this, port
      ensures Valid()
      ensures State() == if old(running) then PR.StopMany(PS.BeginStop(old(State())), 5) else old(State())
      ensures PS.Leads(old(State()), PR.StopSteps(old(State())), State())
      ensures gui.Stopped?
    {
      hide PS.StopStep, PS.Leads;
      if !running {
        PS.LeadsNowhere(State());
        return;
      }
      PR.StopRun(State());
      PR.StopManyIs(PS.BeginStop(State()));
      StopTimers();
      StopResources();
      StopCounters();
    }

    method Poll()
      requires Valid()
      modifies this`lastRetryLog, this`reconnectAttempt
      ensures State() == PS.Poll(old(State()))
      ensures old(gui).Idle? ==> PS.Leads(old(State()), [PS.ByGui(PS.DoPoll)], State())
      ensures reconnectAttempt == old(reconnectAttempt) +
                if running && !port.isConnected && (clientSet != {} || localClient) && now >= old(lastRetryLog) + 2000 then 1 else 0
    {
      if gui.Idle? {
        PR.OneStep(State(), PS.ByGui(PS.DoPoll));
      }
      hide PS.Leads;
      var status := Status();
      if status != PS.StatusReconnecting {
        return;
      }
      if now >= lastRetryLog + PS.RECONNECT_INTERVAL {
        lastRetryLog := now;
        reconnectAttempt := reconnectAttempt + 1;
      }
    }

    // -------------------------------------------------------------------------- callbacks

    /** The accept loop puts the client into the set. */
    method AcceptClient(c: nat)
      requires Valid() && accepting && c !in clients
      modifies this`clients, this`clientSet
      ensures Valid() && State() == PS.ClientNext(old(State()), c, PS.Accept)
      ensures PS.Leads(old(State()), [PS.ByClient(c, PS.Accept)], State())
    {
      PR.OneStep(State(), PS.ByClient(c, PS.Accept));
      hide PS.Leads;
      clientSet := clientSet + {c};
      clients := clients[c := PS.Joined];
    }

    /** The thread of a new client runs the connect callback. */
    method OnClientConnect(c: nat, opens: bool)
      requires Valid() && c in clients && clients[c].Joined?
      modifies this`timers, this`lingerTimer, this`clients, port
      ensures Valid()
      ensures State() == PS.ClientNext(PS.ClientNext(old(State()), c, PS.Cancel), c, PS.Open(opens))
      ensures PS.Leads(old(State()), PR.ArriveSteps(c, opens), State())
      ensures clients == old(clients)[c := PS.Serving]
    {
      hide PS.Leads, PS.CancelLinger, SP.EnsureOpen, SerialPort.State;
      PR.ArriveRun(State(), c, opens);
      CancelLinger();
      clients := clients[c := PS.Opening];
      port.EnsureOpen(opens);
      clients := clients[c := PS.Serving];
    }

    method OnClientDisconnect(c: nat)
      requires Valid() && c in clients && clients[c].Removed?
      modifies this`clients, this`timers, this`lingerTimer, this`nextTimer, this`lastArm, this`missed
      ensures Valid()
      ensures State() == PR.Departed(old(State()), c)
      ensures PS.Leads(old(State()), PR.DepartSteps(old(State()), c), State())
      ensures clients == old(clients) - {c}
    {
      hide PS.Leads, PS.ScheduleClose, PS.CountIsZero, PR.DepartSteps, PR.Departed;
      PR.DepartRun(State(), c);
      PR.DepartedIs(State(), c);
      var remaining := ClientCount();
      if remaining == 0 && !localClient {
        ScheduleSerialClose();
      }
      clients := clients - {c};
    }

    /** The client leaves the set, and then its thread runs the disconnect callback. */
    method RemoveClient(c: nat)
      requires Valid() && c in clients && clients[c].Serving?
      modifies this
      ensures Valid()
      ensures State() == PR.Departed(PS.ClientNext(old(State()), c, PS.Leave), c)
      ensures PS.Leads(old(State()),
                       [PS.ByClient(c, PS.Leave)] + PR.DepartSteps(PS.ClientNext(old(State()), c, PS.Leave), c),
                       State())
      ensures clients == old(clients) - {c}
    {
      hide PS.Leads, PS.CountIsZero, PR.Departed, PR.DepartSteps;
      ghost var s := State();
      PR.RemoveRun(s, c);
      clientSet := clientSet - {c};
      clients, lastDeparture := clients[c := PS.Removed], now;
      assert State() == PS.ClientNext(s, c, PS.Leave);
      hide PS.ClientNext;
      OnClientDisconnect(c);
    }
  }
}
