/** The serial port under its threads: opening, closing, receiver threads tagged with an epoch, and reconnect
  * threads (`SerialPort`).
  *
  * `Port` is the state all of them share and `Next` what one atomic step does to it. These are single steps:
  * the guard of `ensure_open` together with the open, the close flag together with the locked close, the exit
  * decision of a receiver, and one round of a reconnect thread. Opening fails only by SerialException, and
  * closing the handle succeeds.
  */
module SerialPorts {
  import opened Bytes

  /** Starting: before its connect callback. Reading: in its loop. Ending: the loop is over. */
  datatype Phase = Starting | Reading | Ending

  datatype Receiver = Receiver(epoch: nat, phase: Phase)

  /** `receivers` and `reconnectors` are the live threads; `reconnectRef` is the `reconnect_thread` attribute.
    * The last three fields record history: whether an open was ever tried, how often the port went from not
    * connected to connected, and how often the disconnect callback ran. */
  datatype Port = Port(
    isOpen: bool,
    isConnected: bool,
    closeSet: bool,
    epoch: nat,
    receivers: map<nat, Receiver>,
    reconnectors: set<nat>,
    reconnectRef: Option<nat>,
    nextThread: nat,
    attempted: bool,
    connects: nat,
    disconnects: nat)

  const NEW_PORT := Port(false, false, false, 0, map[], {}, None, 0, false, 0, 0)

  // ---------------------------------------------------------------------- atomic operations

  function StartReconnect(p: Port): Port {
    p.(reconnectors := p.reconnectors + {p.nextThread}, reconnectRef := Some(p.nextThread), nextThread := p.nextThread + 1)
  }

  /** The locked open. The handle's own open raises if it is open already or if the device cannot be opened
    * (`opens` is false); with `throw`, failure leaves everything as it was. */
  function OpenLocked(p: Port, opens: bool, throw: bool): Port {
    if p.isOpen || opens then
      p.(isOpen := true, isConnected := true,
         epoch := p.epoch + 1,
         receivers := p.receivers[p.nextThread := Receiver(p.epoch + 1, Starting)],
         nextThread := p.nextThread + 1,
         attempted := true,
         connects := p.connects + if p.isConnected then 0 else 1)
    else if throw then p
    else
      var q := p.(isConnected := false, attempted := true);
      if q.reconnectRef.Some? && q.reconnectRef.value in q.reconnectors then q else StartReconnect(q)
  }

  /** The locked close, including the disconnect callback's count. */
  function CloseLocked(p: Port): Port {
    p.(isOpen := false, isConnected := false, disconnects := p.disconnects + if p.isConnected then 1 else 0)
  }

  function EnsureOpen(p: Port, opens: bool): Port {
    if p.isConnected then p else OpenLocked(p.(closeSet := false), opens, false)
  }

  function Close(p: Port): Port {
    CloseLocked(p.(closeSet := true))
  }

  /** A receiver that a newer open has superseded, or that was asked to close, leaves the port alone. */
  function ReceiverExit(p: Port, r: nat): Port
    requires r in p.receivers
  {
    var q := p.(receivers := p.receivers - {r});
    if p.receivers[r].epoch != p.epoch || p.closeSet then q else StartReconnect(CloseLocked(q))
  }

  /** One round of a reconnect thread; `present` says whether the device is listed. */
  function ReconnectRound(p: Port, r: nat, present: bool, opens: bool): Port {
    if p.isOpen || p.closeSet then p.(reconnectors := p.reconnectors - {r})
    else if present then OpenLocked(p, opens, true)
    else p
  }

  // ------------------------------------------------------------------------------- steps

  datatype Action =
    | Skip
    | DoEnsureOpen(opens: bool)
    | DoClose
    | CloseTail(forget: bool)             // the end of close, after the joins: may drop the thread reference
    | RxStart(r: nat)                     // the connect callback has run
    | RxBreak(r: nat)                     // reading failed
    | RxEnd(r: nat)                       // the loop condition failed
    | RxExit(r: nat)
    | Retry(r: nat, present: bool, opens: bool)

  predicate Enabled(p: Port, a: Action) {
    match a
    case Skip => true
    case DoEnsureOpen(_) => true
    case DoClose => true
    case CloseTail(_) => true
    case RxStart(r) => r in p.receivers && p.receivers[r].phase == Starting
    case RxBreak(r) => r in p.receivers && p.receivers[r].phase == Reading
    case RxEnd(r) => r in p.receivers && p.receivers[r].phase == Reading && !(p.isOpen && p.isConnected)
    case RxExit(r) => r in p.receivers && p.receivers[r].phase == Ending
    case Retry(r, _, _) => r in p.reconnectors
  }

  function Next(p: Port, a: Action): Port
    requires Enabled(p, a)
  {
    match a
    case Skip => p
    case DoEnsureOpen(opens) => EnsureOpen(p, opens)
    case DoClose => Close(p)
    case CloseTail(forget) => if forget then p.(reconnectRef := None) else p
    case RxStart(r) => p.(receivers := p.receivers[r := p.receivers[r].(phase := Reading)])
    case RxBreak(r) => p.(receivers := p.receivers[r := p.receivers[r].(phase := Ending)])
    case RxEnd(r) => p.(receivers := p.receivers[r := p.receivers[r].(phase := Ending)])
    case RxExit(r) => ReceiverExit(p, r)
    case Retry(r, present, opens) => ReconnectRound(p, r, present, opens)
  }

  ghost predicate Legal(p: Port, run: seq<Action>)
    decreases |run|
  {
    run == [] || (Enabled(p, run[0]) && Legal(Next(p, run[0]), run[1..]))
  }

  ghost function After(p: Port, run: seq<Action>): Port
    requires Legal(p, run)
    decreases |run|
  {
    if run == [] then p else After(Next(p, run[0]), run[1..])
  }

  // --------------------------------------------------------------------------- invariant

  /** Some live receiver belongs to the current open. */
  ghost predicate Served(p: Port) {
    exists r :: r in p.receivers && p.receivers[r].epoch == p.epoch
  }

  /** Somebody is going to serve a port that is wanted open. */
  ghost predicate Retried(p: Port) {
    (p.isOpen && Served(p)) || p.reconnectors != {}
  }

  /** Opened for some consumer and not told to close since. */
  predicate Wanted(p: Port) {
    p.attempted && !p.closeSet
  }

  ghost predicate EpochsUnique(p: Port) {
    && (forall r :: r in p.receivers ==> 1 <= p.receivers[r].epoch <= p.epoch)
    && (forall q, r :: q in p.receivers && r in p.receivers && q != r ==> p.receivers[q].epoch != p.receivers[r].epoch)
  }

  ghost predicate ThreadsFresh(p: Port) {
    && (forall r :: r in p.receivers ==> r < p.nextThread)
    && (forall r :: r in p.reconnectors ==> r < p.nextThread)
  }

  ghost predicate Inv(p: Port) {
    && p.isConnected == p.isOpen
    && (p.closeSet ==> !p.isOpen)
    && (p.isOpen ==> Served(p))
    && (Wanted(p) ==> Retried(p))
    && (!p.attempted ==> p.epoch == 0 && !p.isOpen && p.receivers == map[] && p.reconnectors == {})
    && EpochsUnique(p)
    && ThreadsFresh(p)
    && p.connects == p.epoch
    && p.connects == p.disconnects + if p.isConnected then 1 else 0
  }

  lemma {:induction false} NewPortInv()
    ensures Inv(NEW_PORT)
  {
  }

  lemma {:induction false} EnsureOpenKeepsInv(p: Port, opens: bool)
    requires Inv(p)
    ensures Inv(EnsureOpen(p, opens)) && Wanted(EnsureOpen(p, opens))
  {
    if !p.isConnected {
      var q := EnsureOpen(p, opens);
      if opens {
        assert q.receivers[p.nextThread].epoch == q.epoch;
      }
    }
  }

  lemma {:induction false} ReceiverExitKeepsInv(p: Port, r: nat)
    requires Inv(p) && r in p.receivers
    ensures Inv(ReceiverExit(p, r))
  {
    var q := ReceiverExit(p, r);
    if p.receivers[r].epoch != p.epoch || p.closeSet {
      if p.isOpen {
        var s :| s in p.receivers && p.receivers[s].epoch == p.epoch;
        assert s in q.receivers && q.receivers[s].epoch == q.epoch;
      }
    } else {
      assert p.nextThread in q.reconnectors;
    }
  }

  lemma {:induction false} PhaseKeepsInv(p: Port, r: nat, phase: Phase)
    requires Inv(p) && r in p.receivers
    ensures Inv(p.(receivers := p.receivers[r := p.receivers[r].(phase := phase)]))
  {
    var q := p.(receivers := p.receivers[r := p.receivers[r].(phase := phase)]);
    if p.isOpen {
      var s :| s in p.receivers && p.receivers[s].epoch == p.epoch;
      assert s in q.receivers && q.receivers[s].epoch == q.epoch;
    }
  }

  lemma {:induction false} RetryKeepsInv(p: Port, r: nat, present: bool, opens: bool)
    requires Inv(p) && r in p.reconnectors
    ensures Inv(ReconnectRound(p, r, present, opens))
    ensures r !in ReconnectRound(p, r, present, opens).reconnectors <==> p.isOpen || p.closeSet
  {
    var q := ReconnectRound(p, r, present, opens);
    if !p.isOpen && !p.closeSet && present && opens {
      assert q.receivers[p.nextThread].epoch == q.epoch;
    }
    if p.isOpen {
      var s :| s in p.receivers && p.receivers[s].epoch == p.epoch;
      assert s in q.receivers;
    }
  }

  /** Every step keeps the invariant, and no step takes the epoch back. */
  lemma {:induction false} StepKeepsInv(p: Port, a: Action)
    requires Inv(p) && Enabled(p, a)
    ensures Inv(Next(p, a)) && p.epoch <= Next(p, a).epoch
  {
    match a {
      case Skip =>
      case DoEnsureOpen(opens) => EnsureOpenKeepsInv(p, opens);
      case DoClose =>
      case CloseTail(forget) =>
        if p.isOpen {
          var s :| s in p.receivers && p.receivers[s].epoch == p.epoch;
          assert s in Next(p, a).receivers;
        }
      case RxStart(r) => PhaseKeepsInv(p, r, Reading);
      case RxBreak(r) => PhaseKeepsInv(p, r, Ending);
      case RxEnd(r) => PhaseKeepsInv(p, r, Ending);
      case RxExit(r) => ReceiverExitKeepsInv(p, r);
      case Retry(r, present, opens) => RetryKeepsInv(p, r, present, opens);
    }
  }

  /** So it holds throughout every run, and the epoch never goes back. */
  lemma {:induction false} RunKeepsInv(p: Port, run: seq<Action>)
    requires Inv(p) && Legal(p, run)
    ensures Inv(After(p, run)) && p.epoch <= After(p, run).epoch
    decreases |run|
  {
    hide Inv, Next, Enabled;
    if run != [] {
      StepKeepsInv(p, run[0]);
      RunKeepsInv(Next(p, run[0]), run[1..]);
    }
  }
}
