/** What the invariant of the serial port gives over whole runs. */
module SerialPortTheorems {
  import opened Bytes
  import opened SerialPorts

  // ------------------------------------------------------------------------------ epochs

  /** A step either starts no receiver and keeps the epoch, or is a successful open: the epoch goes up by one
    * and exactly one receiver is added, the only one that carries it. */
  lemma {:induction false} EpochStep(p: Port, a: Action)
    requires Inv(p) && Enabled(p, a)
    ensures var q := Next(p, a);
            || (q.epoch == p.epoch && q.receivers.Keys <= p.receivers.Keys)
            || (q.epoch == p.epoch + 1 && q.receivers == p.receivers[p.nextThread := Receiver(q.epoch, Starting)]
                && !p.isOpen && q.isOpen && p.nextThread !in p.receivers)
    ensures forall r :: r in Next(p, a).receivers && r in p.receivers ==>
              Next(p, a).receivers[r].epoch == p.receivers[r].epoch
  {
    var q := Next(p, a);
    if a.RxExit? {
      assert q.receivers == p.receivers - {a.r};
    }
  }

  lemma {:induction false} StaysSuperseded(p: Port, a: Action, r: nat)
    requires Inv(p) && Enabled(p, a) && r in p.receivers && p.receivers[r].epoch < p.epoch
    ensures var q := Next(p, a);
            if r in q.receivers then q.receivers[r].epoch < q.epoch else r < q.nextThread
  {
    EpochStep(p, a);
    hide OpenLocked, CloseLocked;
    GoneStep(p, a, r);
    hide Next, Inv;
  }

  lemma {:induction false} GoneStep(p: Port, a: Action, r: nat)
    requires Enabled(p, a) && r < p.nextThread
    ensures r < Next(p, a).nextThread && (r !in p.receivers ==> r !in Next(p, a).receivers)
  {
  }

  /** A receiver left behind by a newer open stays left behind, and whenever it exits it changes nothing but its
    * own presence: neither the port, nor its flags, nor the reconnect threads. */
  lemma {:induction false} SupersededReceiverIsHarmless(p: Port, run: seq<Action>, r: nat)
    requires Inv(p) && Legal(p, run) && r in p.receivers && p.receivers[r].epoch < p.epoch
    requires r in After(p, run).receivers && After(p, run).receivers[r].phase == Ending
    ensures var q := After(p, run); Next(q, RxExit(r)) == q.(receivers := q.receivers - {r})
    decreases |run|
  {
    if run == [] {
      assert Next(p, RxExit(r)) == ReceiverExit(p, r);
    } else {
      assert Enabled(After(p, run), RxExit(r));
      hide Next, Enabled, Inv;
      var q := Next(p, run[0]);
      StepKeepsInv(p, run[0]);
      StaysSuperseded(p, run[0], r);
      if r in q.receivers {
        SupersededReceiverIsHarmless(q, run[1..], r);
      } else {
        GoneForGood(q, run[1..], r);
      }
    }
  }

  lemma {:induction false} GoneForGood(p: Port, run: seq<Action>, r: nat)
    requires Legal(p, run) && r !in p.receivers && r < p.nextThread
    ensures r !in After(p, run).receivers
    decreases |run|
  {
    hide Next, Enabled;
    if run != [] {
      GoneStep(p, run[0], r);
      GoneForGood(Next(p, run[0]), run[1..], r);
    }
  }

  /** Over every run of a new port: at most one live receiver holds the current epoch, no two share one, an open
    * port has its receiver, and a port wanted open is either served or being retried. */
  lemma {:induction false} ReceiverDiscipline(run: seq<Action>, q: nat, r: nat)
    requires Legal(NEW_PORT, run)
    ensures var p := After(NEW_PORT, run);
            && (q in p.receivers && r in p.receivers && p.receivers[q].epoch == p.receivers[r].epoch ==> q == r)
            && (p.isOpen ==> Served(p))
            && (Wanted(p) ==> (p.isOpen && Served(p)) || p.reconnectors != {})
  {
    NewPortInv();
    RunKeepsInv(NEW_PORT, run);
  }

  // ------------------------------------------------------- which steps open, close, retry

  /** A closed port is opened exactly by somebody who tries while the device opens: a consumer, or a reconnect thread
    * that finds the device listed and has not been told to stop. An open one is closed exactly by a close, or by its
    * own receiver when that ends without having been told to close. */
  lemma {:induction false} OpensAndCloses(p: Port, a: Action)
    requires Inv(p) && Enabled(p, a)
    ensures !p.isOpen ==>
              (Next(p, a).isOpen <==> (a.DoEnsureOpen? && a.opens) || (a.Retry? && !p.closeSet && a.present && a.opens))
    ensures p.isOpen ==>
              (!Next(p, a).isOpen <==> a.DoClose? || (a.RxExit? && p.receivers[a.r].epoch == p.epoch))
    ensures Next(p, a).isConnected == Next(p, a).isOpen
  {
    hide Served, Retried, EpochsUnique, ThreadsFresh;
  }

  /** A reconnect thread is started exactly by a consumer who finds the device away and the known reconnect thread
    * gone, and by a receiver that ends, belongs to the current open, and has not been told to close. One ends exactly
    * when it finds the port open or told to close. */
  lemma {:induction false} WhoRetries(p: Port, a: Action)
    requires Inv(p) && Enabled(p, a)
    ensures p.nextThread in Next(p, a).reconnectors <==>
              || (a.DoEnsureOpen? && !p.isOpen && !a.opens
                  && (p.reconnectRef.Some? ==> p.reconnectRef.value !in p.reconnectors))
              || (a.RxExit? && p.receivers[a.r].epoch == p.epoch && !p.closeSet)
    ensures forall r :: r in p.reconnectors ==>
              (r !in Next(p, a).reconnectors <==> a.Retry? && a.r == r && (p.isOpen || p.closeSet))
    ensures forall r :: r in Next(p, a).reconnectors ==> r in p.reconnectors || r == p.nextThread
  {
    hide Served, Retried, EpochsUnique;
  }

  /** The close flag is set exactly by a close, and cleared exactly by a consumer who finds the port closed. */
  lemma {:induction false} CloseFlag(p: Port, a: Action)
    requires Inv(p) && Enabled(p, a)
    ensures Next(p, a).closeSet <==> a.DoClose? || (p.closeSet && !(a.DoEnsureOpen? && !p.isOpen))
  {
    hide Served, Retried, EpochsUnique, ThreadsFresh;
  }

  // -------------------------------------------------------------------------- accounting

  /** The states a run passes through, the first one included. */
  ghost function States(p: Port, run: seq<Action>): seq<Port>
    requires Legal(p, run)
    decreases |run|
  {
    if run == [] then [p] else [p] + States(Next(p, run[0]), run[1..])
  }

  /** How often a sequence of states goes from not connected to connected. */
  ghost function Rises(states: seq<Port>): nat {
    if |states| < 2 then 0
    else (if !states[0].isConnected && states[1].isConnected then 1 else 0) + Rises(states[1..])
  }

  /** How often it goes from connected to not connected. */
  ghost function Falls(states: seq<Port>): nat {
    if |states| < 2 then 0
    else (if states[0].isConnected && !states[1].isConnected then 1 else 0) + Falls(states[1..])
  }

  lemma {:induction false} AccountingStep(p: Port, a: Action)
    requires Inv(p) && Enabled(p, a)
    ensures var q := Next(p, a);
            && q.epoch == p.epoch + (if !p.isConnected && q.isConnected then 1 else 0)
            && q.disconnects == p.disconnects + (if p.isConnected && !q.isConnected then 1 else 0)
  {
    StepKeepsInv(p, a);
    hide Served, Retried, EpochsUnique, ThreadsFresh;
  }

  lemma {:induction false} AccountingFrom(p: Port, run: seq<Action>)
    requires Inv(p) && Legal(p, run)
    ensures After(p, run).epoch == p.epoch + Rises(States(p, run))
    ensures After(p, run).disconnects == p.disconnects + Falls(States(p, run))
    decreases |run|
  {
    hide Inv, Next, Enabled;
    if run != [] {
      var q := Next(p, run[0]);
      StepKeepsInv(p, run[0]);
      AccountingStep(p, run[0]);
      AccountingFrom(q, run[1..]);
      var states := States(p, run);
      assert states[1..] == States(q, run[1..]) && states[0] == p && states[1] == q;
    }
  }

  /** In every run the disconnect callback runs once per loss of the connection; its calls, plus one while
    * connected, are the number of times the port became connected, which is the epoch; and being connected is
    * the same as holding an open handle. */
  lemma {:induction false} ConnectionAccounting(run: seq<Action>)
    requires Legal(NEW_PORT, run)
    ensures var p := After(NEW_PORT, run);
            && p.disconnects == Falls(States(NEW_PORT, run))
            && p.disconnects + (if p.isConnected then 1 else 0) == Rises(States(NEW_PORT, run)) == p.epoch
            && p.isConnected == p.isOpen
  {
    NewPortInv();
    RunKeepsInv(NEW_PORT, run);
    AccountingFrom(NEW_PORT, run);
  }

  /** A receiver whose port has been closed can end without any failure, and ends without touching the port if it was
    * told to. */
  lemma {:induction false} ClosedReceiverEnds(p: Port, r: nat) returns (run: seq<Action>)
    requires r in p.receivers && !p.isOpen
    ensures Legal(p, run) && r !in After(p, run).receivers
    ensures forall k :: 0 <= k < |run| ==> !run[k].RxBreak? && !run[k].DoClose? && !run[k].DoEnsureOpen?
    ensures p.closeSet ==> After(p, run) == p.(receivers := p.receivers - {r})
  {
    var rest := match p.receivers[r].phase
      case Starting => [RxStart(r), RxEnd(r), RxExit(r)]
      case Reading => [RxEnd(r), RxExit(r)]
      case Ending => [RxExit(r)];
    run := rest;
    var ending := p.(receivers := p.receivers[r := p.receivers[r].(phase := Ending)]);
    EndingReceiverEnds(ending, r);
    assert p.receivers[r := p.receivers[r].(phase := Ending)] - {r} == p.receivers - {r};
    var reading := p.(receivers := p.receivers[r := p.receivers[r].(phase := Reading)]);
    assert reading.receivers[r := reading.receivers[r].(phase := Ending)] == ending.receivers;
    assert [RxStart(r), RxEnd(r), RxExit(r)][1..] == [RxEnd(r), RxExit(r)];
    assert [RxEnd(r), RxExit(r)][1..] == [RxExit(r)];
    if p.receivers[r].phase == Ending {
      assert ending.receivers == p.receivers;
    }
    hide OpenLocked, CloseLocked;
  }

  lemma {:induction false} EndingReceiverEnds(p: Port, r: nat)
    requires r in p.receivers && p.receivers[r].phase == Ending
    ensures Legal(p, [RxExit(r)]) && After(p, [RxExit(r)]) == ReceiverExit(p, r) && r !in ReceiverExit(p, r).receivers
    ensures p.closeSet ==> ReceiverExit(p, r) == p.(receivers := p.receivers - {r})
  {
    assert [RxExit(r)][1..] == [];
    assert After(Next(p, RxExit(r)), []) == Next(p, RxExit(r));
  }

  // ------------------------------------------------------------------- reconnect threads

  /** The reconnect thread that the port keeps a reference to. */
  ghost function Known(p: Port): set<nat> {
    if p.reconnectRef.Some? then {p.reconnectRef.value} else {}
  }

  /** Live reconnect threads that the port has lost track of. */
  ghost function Strays(p: Port): set<nat> {
    p.reconnectors - Known(p)
  }

  /** A receiver that finds its connection lost starts a thread of its own, and a close may forget one. The known
    * thread is lost track of if it is still alive at that moment. */
  ghost function Loses(p: Port, a: Action): nat
    requires Enabled(p, a)
  {
    var drops := (a.RxExit? && p.receivers[a.r].epoch == p.epoch && !p.closeSet) || (a.CloseTail? && a.forget);
    if drops && p.reconnectRef.Some? && p.reconnectRef.value in p.reconnectors then 1 else 0
  }

  lemma {:induction false} OpenStrays(p: Port, opens: bool, throw: bool)
    ensures Strays(OpenLocked(p, opens, throw)) <= Strays(p)
  {
    if p.reconnectRef.Some? && p.reconnectRef.value !in p.reconnectors {
      assert Strays(p) == p.reconnectors;
    }
  }

  lemma {:induction false} StrayMoves(p: Port, a: Action)
    requires Enabled(p, a)
    ensures Strays(Next(p, a)) <= Strays(p) + if Loses(p, a) == 0 then {} else Known(p)
  {
    match a {
      case DoEnsureOpen(opens) =>
        OpenStrays(p.(closeSet := false), opens, false);
        hide OpenLocked;
      case Retry(_, _, opens) =>
        OpenStrays(p, opens, true);
        hide OpenLocked;
      case _ => hide OpenLocked;
    }
  }

  lemma {:induction false} StrayStep(p: Port, a: Action)
    requires Enabled(p, a)
    ensures |Strays(Next(p, a))| <= |Strays(p)| + Loses(p, a)
  {
    StrayMoves(p, a);
    assert |Known(p)| <= 1;
    hide Next, Enabled, Strays, Known;
    var lost := if Loses(p, a) == 0 then {} else Known(p);
    UnionSize(Strays(Next(p, a)), Strays(p), lost);
  }

  lemma {:induction false} UnionSize(s: set<nat>, a: set<nat>, b: set<nat>)
    requires s <= a + b
    ensures |s| <= |a| + |b|
  {
    assert a + b == s + ((a + b) - s);
    assert a + b == a + (b - a) && b == (b - a) + (b * a);
  }

  ghost function AllLosses(p: Port, run: seq<Action>): nat
    requires Legal(p, run)
    decreases |run|
  {
    if run == [] then 0 else Loses(p, run[0]) + AllLosses(Next(p, run[0]), run[1..])
  }

  lemma {:induction false} StraysAreLosses(p: Port, run: seq<Action>)
    requires Legal(p, run)
    ensures |Strays(After(p, run))| <= |Strays(p)| + AllLosses(p, run)
    decreases |run|
  {
    hide Next, Enabled, Loses, Strays;
    if run != [] {
      StrayStep(p, run[0]);
      StraysAreLosses(Next(p, run[0]), run[1..]);
    }
  }

  /** However often consumers come while the device is away, and however often it is lost and found again, one
    * reconnect thread is enough: in every run there is at most one, plus one for each connection that was lost, and
    * each thread that was forgotten, while the known reconnect thread was still alive. */
  lemma {:induction false} FewReconnectThreads(run: seq<Action>)
    requires Legal(NEW_PORT, run)
    ensures |After(NEW_PORT, run).reconnectors| <= 1 + AllLosses(NEW_PORT, run)
  {
    var p := After(NEW_PORT, run);
    StraysAreLosses(NEW_PORT, run);
    UnionSize(p.reconnectors, Strays(p), Known(p));
  }

  lemma {:induction false} RunOn(p: Port, run: seq<Action>, a: Action)
    requires Legal(p, run) && Enabled(After(p, run), a)
    ensures Legal(p, run + [a]) && After(p, run + [a]) == Next(After(p, run), a)
    ensures AllLosses(p, run + [a]) == AllLosses(p, run) + Loses(After(p, run), a)
    decreases |run|
  {
    hide Next, Enabled, Loses;
    if run == [] {
      assert (run + [a])[1..] == [];
      assert After(Next(p, a), []) == Next(p, a);
    } else {
      assert (run + [a])[1..] == run[1..] + [a];
      RunOn(Next(p, run[0]), run[1..], a);
    }
  }

  /** Closed, wanted, and the known reconnect thread is alive. */
  ghost predicate Retrying(p: Port) {
    && Inv(p) && !p.isOpen && !p.closeSet
    && p.reconnectRef.Some? && p.reconnectRef.value in p.reconnectors
  }

  /** The known thread finds the device, and the device is lost before that thread has noticed. */
  ghost function LostAtOnce(p: Port): Port {
    var q := OpenLocked(p, true, true);
    ReceiverExit(q.(receivers := q.receivers[p.nextThread := Receiver(q.epoch, Ending)]), p.nextThread)
  }

  lemma {:induction false} LostAtOnceFacts(p: Port)
    requires Retrying(p)
    ensures var q := LostAtOnce(p);
            !q.isOpen && !q.closeSet && q.reconnectRef.Some? && q.reconnectRef.value in q.reconnectors
    ensures |LostAtOnce(p).reconnectors| == |p.reconnectors| + 1
  {
    assert p.nextThread + 1 !in p.reconnectors;
    hide Served, Retried, EpochsUnique;
  }

  lemma {:induction false} LoseAtOnce(run: seq<Action>) returns (longer: seq<Action>)
    requires Legal(NEW_PORT, run) && Retrying(After(NEW_PORT, run))
    ensures Legal(NEW_PORT, longer) && After(NEW_PORT, longer) == LostAtOnce(After(NEW_PORT, run))
    ensures AllLosses(NEW_PORT, longer) == AllLosses(NEW_PORT, run) + 1
  {
    hide Legal, After, AllLosses, Inv;
    var p := After(NEW_PORT, run);
    var r := p.nextThread;
    RunOn(NEW_PORT, run, Retry(p.reconnectRef.value, true, true));
    longer := run + [Retry(p.reconnectRef.value, true, true)];
    var q := OpenLocked(p, true, true);
    assert After(NEW_PORT, longer) == q;
    RunOn(NEW_PORT, longer, RxStart(r));
    longer := longer + [RxStart(r)];
    assert After(NEW_PORT, longer) == q.(receivers := q.receivers[r := Receiver(q.epoch, Reading)]);
    RunOn(NEW_PORT, longer, RxBreak(r));
    longer := longer + [RxBreak(r)];
    assert After(NEW_PORT, longer) == q.(receivers := q.receivers[r := Receiver(q.epoch, Ending)]);
    RunOn(NEW_PORT, longer, RxExit(r));
    longer := longer + [RxExit(r)];
  }

  /** The bound is attained, for every number of losses. */
  lemma {:induction false} ManyReconnectThreads(n: nat) returns (run: seq<Action>)
    ensures Legal(NEW_PORT, run) && AllLosses(NEW_PORT, run) == n
    ensures |After(NEW_PORT, run).reconnectors| == n + 1
    ensures Retrying(After(NEW_PORT, run))
  {
    if n == 0 {
      run := [DoEnsureOpen(false)];
      assert [] + run == run;
      NewPortInv();
      RunOn(NEW_PORT, [], DoEnsureOpen(false));
    } else {
      var shorter := ManyReconnectThreads(n - 1);
      hide Next;
      run := LoseAtOnce(shorter);
      LostAtOnceFacts(After(NEW_PORT, shorter));
    }
    NewPortInv();
    RunKeepsInv(NEW_PORT, run);
  }

  // ---------------------------------------------------------------------------- recovery

  /** An infinite run. */
  ghost predicate Trace(state: nat -> Port, act: nat -> Action) {
    forall i: nat :: Enabled(state(i), act(i)) && state(i + 1) == Next(state(i), act(i))
  }

  /** Nothing fails and nobody closes. */
  predicate Benign(a: Action) {
    match a
    case DoClose => false
    case RxBreak(_) => false
    case DoEnsureOpen(opens) => opens
    case Retry(_, present, opens) => present && opens
    case _ => true
  }

  /** The receiver of an open port is not on its way out. */
  ghost predicate Sound(p: Port) {
    p.isOpen ==> forall r :: r in p.receivers && p.receivers[r].epoch == p.epoch ==> p.receivers[r].phase != Ending
  }

  lemma {:induction false} SoundStep(p: Port, a: Action)
    requires Inv(p) && Enabled(p, a) && Benign(a) && Sound(p)
    ensures Sound(Next(p, a)) && (p.isOpen ==> Next(p, a).isOpen)
  {
  }

  lemma {:induction false} TraceStep(state: nat -> Port, act: nat -> Action, i: nat)
    requires Trace(state, act)
    ensures Enabled(state(i), act(i)) && state(i + 1) == Next(state(i), act(i))
  {
    hide Enabled, Next;
  }

  lemma {:induction false} TraceInv(state: nat -> Port, act: nat -> Action, n: nat, i: nat)
    requires Trace(state, act) && Inv(state(n)) && n <= i
    ensures Inv(state(i))
    decreases i
  {
    hide Inv, Enabled, Next, Trace;
    if n < i {
      TraceInv(state, act, n, i - 1);
      TraceStep(state, act, i - 1);
      StepKeepsInv(state(i - 1), act(i - 1));
    }
  }

  lemma {:induction false} StaysSound(state: nat -> Port, act: nat -> Action, n: nat, i: nat)
    requires Trace(state, act) && Inv(state(n)) && Sound(state(n)) && n <= i
    requires forall k: nat :: n <= k ==> Benign(act(k))
    ensures Sound(state(i)) && (state(n).isOpen ==> state(i).isOpen)
    decreases i
  {
    hide Inv, Enabled, Next, Trace, Sound, Benign;
    if n < i {
      StaysSound(state, act, n, i - 1);
      TraceInv(state, act, n, i - 1);
      TraceStep(state, act, i - 1);
      SoundStep(state(i - 1), act(i - 1));
    }
  }

  /** While the port is closed, the reconnect threads keep being scheduled. */
  ghost predicate Scheduled(state: nat -> Port, act: nat -> Action, n: nat) {
    forall i: nat :: n <= i && !state(i).isOpen ==> exists j: nat :: i <= j && act(j).Retry?
  }

  ghost predicate OpenFrom(state: nat -> Port, m: nat) {
    forall k: nat :: m <= k ==> state(k).isOpen
  }

  lemma {:induction false} WantedStays(state: nat -> Port, act: nat -> Action, n: nat, i: nat)
    requires Trace(state, act) && Wanted(state(n)) && n <= i
    requires forall k: nat :: n <= k ==> Benign(act(k))
    ensures Wanted(state(i))
    decreases i
  {
    hide Trace;
    if n < i {
      WantedStays(state, act, n, i - 1);
      TraceStep(state, act, i - 1);
      assert Benign(act(i - 1));
    }
  }

  lemma {:induction false} RetryOpens(p: Port, a: Action)
    requires Inv(p) && Enabled(p, a) && Benign(a) && a.Retry? && Wanted(p)
    ensures Inv(Next(p, a)) && Next(p, a).isOpen
  {
    StepKeepsInv(p, a);
    hide Inv;
  }

  lemma {:induction false} SoundRecovers(state: nat -> Port, act: nat -> Action, n: nat) returns (m: nat)
    requires Trace(state, act) && Inv(state(n)) && Wanted(state(n)) && Sound(state(n))
    requires forall k: nat :: n <= k ==> Benign(act(k))
    requires Scheduled(state, act, n)
    ensures n <= m && OpenFrom(state, m)
  {
    hide Inv, Trace, Sound;
    if state(n).isOpen {
      m := n;
    } else {
      var j: nat :| n <= j && act(j).Retry?;
      m := j + 1;
      TraceInv(state, act, n, j);
      WantedStays(state, act, n, j);
      TraceStep(state, act, j);
      assert Benign(act(j));
      RetryOpens(state(j), act(j));
      StaysSound(state, act, n, m);
    }
    forall k: nat | m <= k ensures state(k).isOpen {
      StaysSound(state, act, m, k);
    }
  }

  /** RECOVERY. In any infinite run where from some point on the port is wanted, the device is present, opening
    * succeeds, nothing fails, nobody closes, and the reconnect threads keep being scheduled, the port becomes
    * open and stays open. */
  lemma {:induction false} Recovery(state: nat -> Port, act: nat -> Action, n: nat)
    requires Trace(state, act) && Inv(state(n)) && Wanted(state(n))
    requires forall k: nat :: n <= k ==> Benign(act(k))
    requires Scheduled(state, act, n)
    ensures exists m: nat :: n <= m && OpenFrom(state, m)
  {
    if OpenFrom(state, n) {
    } else {
      // A receiver that was already failing may close the port once more; afterwards it is sound.
      var c: nat :| n <= c && !state(c).isOpen;
      TraceInv(state, act, n, c);
      WantedStays(state, act, n, c);
      var m := SoundRecovers(state, act, c);
    }
  }
}
