/** Data through a service: what the device sends goes to every TCP client, and what clients send is merged
  * onto the serial line (`SerialServer.send_to_all`, and the receive callbacks of `PortService`).
  *
  * The client set is copied under its lock, and the copies are then served one by one; clients may come and go
  * meanwhile, and client threads count a chunk before they write it. Sending to a client that has left has no
  * effect, sending to one that is there succeeds, and one receiver broadcasts at a time.
  */
module FanOut {
  import opened Bytes

  datatype Chunk = Chunk(client: nat, data: bytes)

  datatype Hub = Hub(
    clients: set<nat>,              // the client set
    pending: set<nat>,              // clients of the current broadcast that are still to be served
    chunk: bytes,                   // the current broadcast
    received: map<nat, bytes>,      // what each client has been sent
    rxTotal: nat,
    txTotal: nat,
    inFlight: map<nat, bytes>,      // chunks counted but not written yet, by client thread
    written: bytes,                 // what the device has been sent
    // history
    stream: bytes,                  // everything broadcast so far
    joined: map<nat, nat>,          // how much had been broadcast when the client came
    left: map<nat, int>,            // how much of the stream a client that is gone was sent
    arrived: seq<Chunk>,            // client chunks in the order in which they were counted
    wire: seq<Chunk>)               // client chunks in the order in which they were written

  const NEW_HUB := Hub({}, {}, [], map[], 0, 0, map[], [], [], map[], map[], [], [])

  datatype Step =
    | Join(c: nat)
    | Leave(c: nat)
    | Broadcast(data: bytes)
    | Deliver(c: nat)
    | Count(c: nat, data: bytes)
    | Write(c: nat)

  predicate Enabled(h: Hub, a: Step) {
    match a
    case Join(c) => c !in h.received
    case Leave(c) => c in h.clients
    case Broadcast(_) => h.pending == {}
    case Deliver(c) => c in h.pending
    case Count(c, _) => c !in h.inFlight
    case Write(c) => c in h.inFlight
  }

  function Received(h: Hub, c: nat): bytes {
    if c in h.received then h.received[c] else []
  }

  function Next(h: Hub, a: Step): Hub
    requires Enabled(h, a)
  {
    match a
    case Join(c) =>
      h.(clients := h.clients + {c}, received := h.received[c := []], joined := h.joined[c := |h.stream|])
    case Leave(c) =>
      h.(clients := h.clients - {c},
         left := h.left[c := |h.stream| - (if c in h.pending then |h.chunk| else 0)])
    case Broadcast(data) =>
      h.(pending := h.clients, chunk := data, stream := h.stream + data, rxTotal := h.rxTotal + |data|)
    case Deliver(c) =>
      var q := h.(pending := h.pending - {c});
      if c in h.clients then q.(received := h.received[c := Received(h, c) + h.chunk]) else q
    case Count(c, data) =>
      h.(txTotal := h.txTotal + |data|, inFlight := h.inFlight[c := data], arrived := h.arrived + [Chunk(c, data)])
    case Write(c) =>
      h.(written := h.written + h.inFlight[c], inFlight := h.inFlight - {c}, wire := h.wire + [Chunk(c, h.inFlight[c])])
  }

  ghost predicate Legal(h: Hub, run: seq<Step>)
    decreases |run|
  {
    run == [] || (Enabled(h, run[0]) && Legal(Next(h, run[0]), run[1..]))
  }

  ghost function After(h: Hub, run: seq<Step>): Hub
    requires Legal(h, run)
    decreases |run|
  {
    if run == [] then h else After(Next(h, run[0]), run[1..])
  }

  // --------------------------------------------------------------------- device to clients

  /** How far into the stream a client has been served. */
  ghost function ServedTo(h: Hub, c: nat): int
  {
    if c in h.left then h.left[c]
    else if c in h.pending then |h.stream| - |h.chunk|
    else |h.stream|
  }

  /** The client has been sent exactly the part of the stream from its arrival to where it has been served. */
  ghost predicate SentPart(h: Hub, c: nat) {
    && c in h.joined && c in h.received
    && h.joined[c] <= ServedTo(h, c) <= |h.stream|
    && h.received[c] == h.stream[h.joined[c]..ServedTo(h, c)]
  }

  /** The chunk being sent is the end of the stream, and the client set and the histories agree. */
  ghost predicate Books(h: Hub) {
    && |h.chunk| <= |h.stream| && h.stream[|h.stream| - |h.chunk|..] == h.chunk
    && h.rxTotal == |h.stream|
    && h.received.Keys == h.joined.Keys && h.left.Keys <= h.joined.Keys
    && h.clients == h.joined.Keys - h.left.Keys
    && h.pending <= h.joined.Keys
  }

  ghost predicate RxInv(h: Hub) {
    && Books(h)
    && (forall c :: c in h.joined ==> SentPart(h, c))
  }

  lemma {:induction false} BooksKept(h: Hub, a: Step)
    requires Books(h) && Enabled(h, a)
    ensures Books(Next(h, a))
  {
  }

  lemma {:induction false} RxKept(h: Hub, a: Step)
    requires RxInv(h) && Enabled(h, a)
    ensures RxInv(Next(h, a))
  {
    var q := Next(h, a);
    BooksKept(h, a);
    forall c | c in q.joined ensures SentPart(q, c) {
      if c in h.joined {
        assert SentPart(h, c);
        SentPartKept(h, a, c);
      } else {
        assert a == Join(c);
      }
    }
  }

  /** A longer stream has the same early part. */
  lemma {:induction false} EarlyPart(stream: bytes, data: bytes, from: nat, to: nat)
    requires from <= to <= |stream|
    ensures (stream + data)[from..to] == stream[from..to]
  {
  }

  /** A part and then the end. */
  lemma {:induction false} LatePart(stream: bytes, from: nat, n: nat)
    requires from <= n <= |stream|
    ensures stream[from..n] + stream[n..] == stream[from..|stream|]
  {
  }

  lemma {:induction false} BroadcastKeeps(h: Hub, data: bytes, c: nat)
    requires Books(h) && h.pending == {} && SentPart(h, c)
    ensures SentPart(Next(h, Broadcast(data)), c)
  {
    ServedStays(h, data, c);
    EarlyPart(h.stream, data, h.joined[c], ServedTo(h, c));
    hide ServedTo, Books;
  }

  lemma {:induction false} DeliverKeeps(h: Hub, d: nat, c: nat)
    requires Books(h) && d in h.pending && SentPart(h, c)
    ensures SentPart(Next(h, Deliver(d)), c)
  {
    if c == d && c in h.clients {
      LatePart(h.stream, h.joined[c], |h.stream| - |h.chunk|);
    } else {
      assert ServedTo(Next(h, Deliver(d)), c) == ServedTo(h, c);
      hide ServedTo, Books;
    }
  }

  lemma {:induction false} SentPartKept(h: Hub, a: Step, c: nat)
    requires Books(h) && Enabled(h, a) && SentPart(h, c)
    ensures SentPart(Next(h, a), c)
  {
    match a {
      case Broadcast(data) =>
        BroadcastKeeps(h, data, c);
        hide Books, SentPart, Next;
      case Deliver(d) =>
        DeliverKeeps(h, d, c);
        hide Books, SentPart, Next;
      case _ =>
        assert ServedTo(Next(h, a), c) == ServedTo(h, c);
        hide ServedTo, Books;
    }
  }

  lemma {:induction false} ServedStays(h: Hub, data: bytes, c: nat)
    requires Books(h) && h.pending == {} && c in h.joined
    ensures ServedTo(Next(h, Broadcast(data)), c) == ServedTo(h, c)
  {
  }

  // --------------------------------------------------------------------- clients to device

  function DataOf(chunks: seq<Chunk>): bytes {
    if chunks == [] then [] else chunks[0].data + DataOf(chunks[1..])
  }

  /** One client's chunks, in order. */
  function Of(c: nat, chunks: seq<Chunk>): seq<bytes> {
    if chunks == [] then []
    else if chunks[0].client == c then [chunks[0].data] + Of(c, chunks[1..])
    else Of(c, chunks[1..])
  }

  lemma {:induction false} DataAppend(a: seq<Chunk>, x: Chunk)
    ensures DataOf(a + [x]) == DataOf(a) + x.data
  {
    if a == [] {
      assert (a + [x])[1..] == [];
    } else {
      assert (a + [x])[1..] == a[1..] + [x];
      DataAppend(a[1..], x);
    }
  }

  lemma {:induction false} OfAppend(c: nat, a: seq<Chunk>, x: Chunk)
    ensures Of(c, a + [x]) == Of(c, a) + if x.client == c then [x.data] else []
  {
    if a == [] {
      assert (a + [x])[1..] == [];
    } else {
      assert (a + [x])[1..] == a[1..] + [x];
      OfAppend(c, a[1..], x);
    }
  }

  ghost function Unwritten(h: Hub, c: nat): seq<bytes> {
    if c in h.inFlight then [h.inFlight[c]] else []
  }

  ghost predicate TxInv(h: Hub) {
    && h.txTotal == |DataOf(h.arrived)|
    && h.written == DataOf(h.wire)
    && forall c {:trigger Of(c, h.arrived)} :: Of(c, h.arrived) == Of(c, h.wire) + Unwritten(h, c)
  }

  lemma {:induction false} TxKept(h: Hub, a: Step)
    requires TxInv(h) && Enabled(h, a)
    ensures TxInv(Next(h, a))
  {
    var q := Next(h, a);
    match a {
      case Count(d, data) =>
        DataAppend(h.arrived, Chunk(d, data));
        forall c ensures Of(c, q.arrived) == Of(c, q.wire) + Unwritten(q, c) {
          OfAppend(c, h.arrived, Chunk(d, data));
        }
      case Write(d) =>
        var x := Chunk(d, h.inFlight[d]);
        DataAppend(h.wire, x);
        forall c ensures Of(c, q.arrived) == Of(c, q.wire) + Unwritten(q, c) {
          OfAppend(c, h.wire, x);
        }
      case _ =>
        forall c ensures Of(c, q.arrived) == Of(c, q.wire) + Unwritten(q, c) {
          assert Of(c, h.arrived) == Of(c, h.wire) + Unwritten(h, c);
        }
    }
  }

  lemma {:induction false} RunKeeps(h: Hub, run: seq<Step>)
    requires RxInv(h) && TxInv(h) && Legal(h, run)
    ensures RxInv(After(h, run)) && TxInv(After(h, run))
    decreases |run|
  {
    hide RxInv, TxInv, Next, Enabled;
    if run != [] {
      RxKept(h, run[0]);
      TxKept(h, run[0]);
      RunKeeps(Next(h, run[0]), run[1..]);
    }
  }

  /** In every run, each client has been sent exactly the contiguous part of the device's stream that begins where
    * the client came; while it stays and is not waiting for the current broadcast, that part reaches to the end
    * of the stream. */
  lemma {:induction false} EachClientGetsItsPart(run: seq<Step>, c: nat)
    requires Legal(NEW_HUB, run) && c in After(NEW_HUB, run).joined
    ensures var h := After(NEW_HUB, run);
            && SentPart(h, c)
            && (c in h.clients && c !in h.pending ==> h.received[c] == h.stream[h.joined[c]..])
            && h.rxTotal == |h.stream|
  {
    RunKeeps(NEW_HUB, run);
    var h := After(NEW_HUB, run);
    assert SentPart(h, c);
  }

  // ------------------------------------------------------------- what the run itself says

  /** What the device sent, by the broadcasts of a run. */
  function BroadcastData(run: seq<Step>): bytes {
    if run == [] then []
    else (match run[0] case Broadcast(data) => data case _ => []) + BroadcastData(run[1..])
  }

  /** What the clients sent, by the receive callbacks of a run. */
  function SentBy(run: seq<Step>): seq<Chunk> {
    if run == [] then []
    else (match run[0] case Count(c, data) => [Chunk(c, data)] case _ => []) + SentBy(run[1..])
  }

  /** What one client sent. */
  function SentByOne(run: seq<Step>, c: nat): seq<bytes> {
    if run == [] then []
    else if run[0].Count? && run[0].c == c then [run[0].data] + SentByOne(run[1..], c)
    else SentByOne(run[1..], c)
  }

  lemma {:induction false} HistoryStep(h: Hub, run: seq<Step>)
    requires run != [] && Enabled(h, run[0])
    ensures Next(h, run[0]).stream + BroadcastData(run[1..]) == h.stream + BroadcastData(run)
    ensures Next(h, run[0]).arrived + SentBy(run[1..]) == h.arrived + SentBy(run)
  {
    var q := Next(h, run[0]);
    var data := match run[0] case Broadcast(d) => d case _ => [];
    var sent := match run[0] case Count(c, d) => [Chunk(c, d)] case _ => [];
    assert q.stream == h.stream + data && q.arrived == h.arrived + sent;
    assert BroadcastData(run) == data + BroadcastData(run[1..]) && SentBy(run) == sent + SentBy(run[1..]);
    hide Next, Enabled, BroadcastData, SentBy;
    Associate(h.stream, data, BroadcastData(run[1..]));
    Associate(h.arrived, sent, SentBy(run[1..]));
  }

  lemma Associate<T>(a: seq<T>, b: seq<T>, c: seq<T>)
    ensures a + (b + c) == a + b + c
  {
  }

  lemma {:induction false} HistoryIsRun(h: Hub, run: seq<Step>)
    requires Legal(h, run)
    ensures After(h, run).stream == h.stream + BroadcastData(run)
    ensures After(h, run).arrived == h.arrived + SentBy(run)
    decreases |run|
  {
    hide Next, Enabled;
    if run == [] {
      assert h.stream + [] == h.stream && h.arrived + [] == h.arrived;
    } else {
      HistoryStep(h, run);
      HistoryIsRun(Next(h, run[0]), run[1..]);
    }
  }

  lemma {:induction false} OneOfAll(run: seq<Step>, c: nat)
    ensures Of(c, SentBy(run)) == SentByOne(run, c)
  {
    if run != [] {
      OneOfAll(run[1..], c);
      if run[0].Count? {
        assert SentBy(run)[1..] == SentBy(run[1..]);
      } else {
        assert SentBy(run) == SentBy(run[1..]);
      }
    }
  }

  lemma {:induction false} DataOfBoth(a: seq<Step>, b: seq<Step>)
    ensures BroadcastData(a + b) == BroadcastData(a) + BroadcastData(b)
  {
    if a == [] {
      assert a + b == b;
    } else {
      assert (a + b)[1..] == a[1..] + b && (a + b)[0] == a[0];
      DataOfBoth(a[1..], b);
      var data := match a[0] case Broadcast(d) => d case _ => [];
      assert BroadcastData(a) == data + BroadcastData(a[1..]);
      assert BroadcastData(a + b) == data + BroadcastData(a[1..] + b);
      hide BroadcastData;
      Associate(data, BroadcastData(a[1..]), BroadcastData(b));
    }
  }

  lemma {:induction false} RunOfBoth(h: Hub, a: seq<Step>, b: seq<Step>)
    requires Legal(h, a + b)
    ensures Legal(h, a) && Legal(After(h, a), b) && After(After(h, a), b) == After(h, a + b)
    decreases |a|
  {
    hide Next, Enabled;
    if a == [] {
      assert a + b == b;
    } else {
      assert (a + b)[1..] == a[1..] + b && (a + b)[0] == a[0];
      RunOfBoth(Next(h, a[0]), a[1..], b);
    }
  }

  lemma {:induction false} Halves(h: Hub, run: seq<Step>, k: nat)
    requires Legal(h, run) && k <= |run|
    ensures Legal(h, run[..k]) && Legal(After(h, run[..k]), run[k..])
    ensures After(After(h, run[..k]), run[k..]) == After(h, run)
    ensures BroadcastData(run) == BroadcastData(run[..k]) + BroadcastData(run[k..])
  {
    hide Legal, After, BroadcastData;
    assert run == run[..k] + run[k..];
    RunOfBoth(h, run[..k], run[k..]);
    DataOfBoth(run[..k], run[k..]);
  }

  lemma {:induction false} HistoryStays(h: Hub, run: seq<Step>, c: nat)
    requires RxInv(h) && Legal(h, run) && c in h.joined
    ensures var q := After(h, run);
            && RxInv(q) && c in q.joined && q.joined[c] == h.joined[c]
            && (c in h.left ==> c in q.left && q.left[c] == h.left[c])
            && (c in h.clients && Leave(c) !in run ==> c in q.clients)
    decreases |run|
  {
    if run != [] {
      RxKept(h, run[0]);
      StepStays(h, run[0], c);
      hide Next, Enabled, RxInv;
      HistoryStays(Next(h, run[0]), run[1..], c);
    }
  }

  lemma {:induction false} StepStays(h: Hub, a: Step, c: nat)
    requires Books(h) && Enabled(h, a) && c in h.joined
    ensures var q := Next(h, a);
            && c in q.joined && q.joined[c] == h.joined[c]
            && (c in h.left ==> c in q.left && q.left[c] == h.left[c])
            && (c in h.clients && a != Leave(c) ==> c in q.clients)
  {
  }

  /** What a client that is there is still to be sent. */
  ghost function Due(h: Hub, c: nat): bytes {
    if c in h.pending then h.chunk else []
  }

  lemma {:induction false} NewHubInv()
    ensures RxInv(NEW_HUB) && TxInv(NEW_HUB)
  {
  }

  lemma {:induction false} AtStep(run: seq<Step>, k: nat)
    requires Legal(NEW_HUB, run) && k < |run|
    ensures Legal(NEW_HUB, run[..k]) && RxInv(After(NEW_HUB, run[..k])) && Enabled(After(NEW_HUB, run[..k]), run[k])
    ensures After(NEW_HUB, run[..k]).stream == BroadcastData(run[..k])
    ensures var q := Next(After(NEW_HUB, run[..k]), run[k]);
            RxInv(q) && Legal(q, run[k + 1..]) && After(q, run[k + 1..]) == After(NEW_HUB, run)
  {
    Halves(NEW_HUB, run, k);
    assert run[k..][1..] == run[k + 1..] && run[k..][0] == run[k];
    NewHubInv();
    RunKeeps(NEW_HUB, run[..k]);
    HistoryIsRun(NEW_HUB, run[..k]);
    RxKept(After(NEW_HUB, run[..k]), run[k]);
    assert [] + BroadcastData(run[..k]) == BroadcastData(run[..k]);
    hide Next, Enabled, RxInv, TxInv, BroadcastData;
  }

  /** When a client came, by the run. */
  lemma {:induction false} CameAt(run: seq<Step>, k: nat, c: nat)
    requires Legal(NEW_HUB, run) && k < |run| && run[k] == Join(c)
    ensures var h := After(NEW_HUB, run);
            && RxInv(h) && c in h.joined && h.joined[c] == |BroadcastData(run[..k])|
            && (Leave(c) !in run[k + 1..] ==> c in h.clients)
  {
    AtStep(run, k);
    var q := Next(After(NEW_HUB, run[..k]), run[k]);
    assert c in q.joined && q.joined[c] == |BroadcastData(run[..k])| && c in q.clients;
    hide Next, Enabled, RxInv, BroadcastData;
    HistoryStays(q, run[k + 1..], c);
  }

  lemma {:induction false} StreamIsBroadcast(run: seq<Step>)
    requires Legal(NEW_HUB, run)
    ensures After(NEW_HUB, run).stream == BroadcastData(run)
  {
    HistoryIsRun(NEW_HUB, run);
    hide BroadcastData, After, Legal;
    assert [] + BroadcastData(run) == BroadcastData(run);
  }

  /** When it left, by the run. */
  lemma {:induction false} WentAt(run: seq<Step>, m: nat, c: nat)
    requires Legal(NEW_HUB, run) && m < |run| && run[m] == Leave(c)
    ensures Legal(NEW_HUB, run[..m])
    ensures var h := After(NEW_HUB, run);
            c in h.left && h.left[c] == |BroadcastData(run[..m])| - |Due(After(NEW_HUB, run[..m]), c)|
  {
    AtStep(run, m);
    var before := After(NEW_HUB, run[..m]);
    var q := Next(before, run[m]);
    assert c in q.joined && c in q.left;
    assert q.left[c] == |BroadcastData(run[..m])| - |Due(before, c)|;
    hide Next, Enabled, RxInv, BroadcastData, Due;
    HistoryStays(q, run[m + 1..], c);
  }

  /** FAN-OUT, by the run alone. A client that came at step k and has not left has been sent, but for what it is
    * still to be sent of the current broadcast, exactly what was broadcast since; and the receive counter is the
    * length of everything broadcast. */
  lemma {:induction false} ClientHasWhatWasBroadcast(run: seq<Step>, k: nat, c: nat)
    requires Legal(NEW_HUB, run) && k < |run| && run[k] == Join(c) && Leave(c) !in run[k + 1..]
    ensures var h := After(NEW_HUB, run);
            && c in h.clients && c in h.received
            && h.received[c] + Due(h, c) == BroadcastData(run[k..])
            && h.rxTotal == |BroadcastData(run)|
  {
    hide RxInv, After, BroadcastData, Next, Enabled, Due, Legal;
    CameAt(run, k, c);
    StreamIsBroadcast(run);
    Halves(NEW_HUB, run, k);
    var h := After(NEW_HUB, run);
    SentWhileThere(h, c);
    DueIsEnd(h, c);
    Assemble(BroadcastData(run[..k]), BroadcastData(run[k..]), [], |h.stream| - |Due(h, c)|);
    assert h.stream + [] == h.stream;
  }

  lemma {:induction false} SentWhileThere(h: Hub, c: nat)
    requires RxInv(h) && c in h.clients
    ensures c in h.received && h.joined[c] <= |h.stream| - |Due(h, c)|
    ensures h.received[c] == h.stream[h.joined[c]..|h.stream| - |Due(h, c)|]
    ensures h.rxTotal == |h.stream|
  {
    assert SentPart(h, c);
  }

  /** A client that came at step k and left at step m has been sent exactly what was broadcast in between, but for
    * what it was still to be sent when it left. */
  lemma {:induction false} GoneClientHadWhatWasBroadcast(run: seq<Step>, k: nat, m: nat, c: nat)
    requires Legal(NEW_HUB, run) && k < m < |run| && run[k] == Join(c) && run[m] == Leave(c)
    ensures Legal(NEW_HUB, run[..m])
    ensures var h := After(NEW_HUB, run);
            c in h.received && h.received[c] + Due(After(NEW_HUB, run[..m]), c) == BroadcastData(run[k..m])
  {
    hide RxInv, After, BroadcastData, Next, Enabled, Due;
    CameAt(run, k, c);
    StreamIsBroadcast(run);
    WentAt(run, m, c);
    AtStep(run, m);
    Halves(NEW_HUB, run, m);
    UpTo(run, k, m);
    var h, g := After(NEW_HUB, run), After(NEW_HUB, run[..m]);
    SentUntilLeft(h, c);
    DueIsEnd(g, c);
    hide Legal;
    Assemble(BroadcastData(run[..k]), BroadcastData(run[k..m]), BroadcastData(run[m..]), h.left[c]);
  }

  /** What lies between the early part and `to`, and then the rest of the middle part. */
  lemma {:induction false} Assemble(early: bytes, mid: bytes, late: bytes, to: nat)
    requires |early| <= to <= |early| + |mid|
    ensures (early + mid + late)[|early|..to] + (early + mid)[to..] == mid
  {
    var n := to - |early|;
    assert (early + mid + late)[|early|..|early| + n] == mid[..n];
    assert (early + mid)[|early| + n..] == mid[n..];
  }

  lemma {:induction false} UpTo(run: seq<Step>, k: nat, m: nat)
    requires k <= m <= |run|
    ensures BroadcastData(run[..m]) == BroadcastData(run[..k]) + BroadcastData(run[k..m])
  {
    hide BroadcastData;
    assert run[..m] == run[..k] + run[k..m];
    DataOfBoth(run[..k], run[k..m]);
  }

  lemma {:induction false} SentUntilLeft(h: Hub, c: nat)
    requires RxInv(h) && c in h.joined && c in h.left
    ensures c in h.received && h.joined[c] <= h.left[c] <= |h.stream|
    ensures h.received[c] == h.stream[h.joined[c]..h.left[c]]
  {
    assert SentPart(h, c);
  }

  lemma {:induction false} DueIsEnd(h: Hub, c: nat)
    requires RxInv(h)
    ensures |Due(h, c)| <= |h.stream| && h.stream[|h.stream| - |Due(h, c)|..] == Due(h, c)
  {
  }

  /** MERGE, by the run alone. The serial line carries whole client chunks; of each client exactly those that the run
    * says it sent, in the order in which it sent them, except for the one being written; and the transmit counter is
    * the summed length of all chunks that the clients sent. */
  lemma {:induction false} LineIsAMerge(run: seq<Step>, c: nat)
    requires Legal(NEW_HUB, run)
    ensures var h := After(NEW_HUB, run);
            && h.written == DataOf(h.wire)
            && Of(c, h.wire) + Unwritten(h, c) == SentByOne(run, c)
            && h.arrived == SentBy(run)
            && h.txTotal == |DataOf(SentBy(run))|
  {
    hide RxInv, TxInv, Legal, After, SentBy, SentByOne, DataOf, Of;
    NewHubInv();
    RunKeeps(NEW_HUB, run);
    HistoryIsRun(NEW_HUB, run);
    OneOfAll(run, c);
    assert [] + SentBy(run) == SentBy(run);
    LineFacts(After(NEW_HUB, run), c);
  }

  lemma {:induction false} LineFacts(h: Hub, c: nat)
    requires TxInv(h)
    ensures h.written == DataOf(h.wire) && h.txTotal == |DataOf(h.arrived)|
    ensures Of(c, h.wire) + Unwritten(h, c) == Of(c, h.arrived)
  {
  }

  // ------------------------------------------------------------------------- the server

  lemma {:induction false} AfterSnoc(h: Hub, run: seq<Step>, a: Step)
    requires Legal(h, run) && Enabled(After(h, run), a)
    ensures Legal(h, run + [a]) && After(h, run + [a]) == Next(After(h, run), a)
    decreases |run|
  {
    hide Next, Enabled;
    if run == [] {
      assert (run + [a])[1..] == [];
      assert After(Next(h, a), []) == Next(h, a);
    } else {
      assert (run + [a])[1..] == run[1..] + [a];
      AfterSnoc(Next(h, run[0]), run[1..], a);
    }
  }

  /** The run leads from one state to the other. */
  ghost predicate Leads(h: Hub, run: seq<Step>, q: Hub) {
    Legal(h, run) && After(h, run) == q
  }

  lemma {:induction false} LeadsOn(h: Hub, run: seq<Step>, q: Hub, a: Step)
    requires Leads(h, run, q) && Enabled(q, a)
    ensures Leads(h, run + [a], Next(q, a))
  {
    AfterSnoc(h, run, a);
    hide Next, Enabled;
  }

  /** During a broadcast clients only come, go, and are served. */
  predicate Meanwhile(a: Step) {
    a.Join? || a.Leave? || a.Deliver?
  }

  /** What stays while a broadcast goes on. */
  ghost predicate SameStream(h: Hub, q: Hub) {
    && q.stream == h.stream && q.chunk == h.chunk
    && (forall c :: c in q.left && c !in h.left ==> q.left[c] in {|h.stream| - |h.chunk|, |h.stream|})
    && (forall c :: c in h.joined ==> c in q.joined && q.joined[c] == h.joined[c])
    && (forall c :: c in h.left ==> c in q.left && q.left[c] == h.left[c])
    && (forall c :: c in q.joined && c !in h.joined ==> q.joined[c] == |h.stream|)
  }

  lemma {:induction false} MeanwhileStep(h: Hub, a: Step)
    requires Books(h) && Enabled(h, a) && Meanwhile(a)
    ensures SameStream(h, Next(h, a))
  {
  }

  lemma {:induction false} StreamTrans(h: Hub, m: Hub, q: Hub)
    requires SameStream(h, m) && SameStream(m, q)
    ensures SameStream(h, q)
  {
  }

  /** Whoever stays through a broadcast has been sent it once, whoever leaves meanwhile once or not at all, and
    * nobody else has been sent anything. */
  ghost predicate Delivered(h: Hub, q: Hub, data: bytes) {
    forall c :: c in h.received ==>
      && c in q.received
      && (c in h.clients && c in q.clients ==> q.received[c] == h.received[c] + data)
      && (c in h.clients && c !in q.clients ==> q.received[c] in {h.received[c], h.received[c] + data})
      && (c !in h.clients ==> q.received[c] == h.received[c])
  }

  /** The part of a longer stream that a client was sent, if it was sent everything or nothing of the new end. */
  lemma {:induction false} PartGrows(stream: bytes, data: bytes, from: nat, to: int)
    requires from <= |stream| && to in {|stream|, |stream| + |data|}
    ensures (stream + data)[from..to] == stream[from..] + if to == |stream| then [] else data
  {
  }

  lemma {:induction false} ServedAfter(h: Hub, q: Hub, data: bytes, c: nat)
    requires Books(h) && h.pending == {} && Books(q) && q.pending == {} && c in h.joined
    requires SameStream(Next(h, Broadcast(data)), q)
    ensures q.stream == h.stream + data && c in q.joined && q.joined[c] == h.joined[c]
    ensures if c !in h.clients then ServedTo(q, c) == ServedTo(h, c)
            else ServedTo(h, c) == |h.stream| && ServedTo(q, c) in {|h.stream|, |h.stream| + |data|}
                 && (c in q.clients ==> ServedTo(q, c) == |h.stream| + |data|)
  {
  }

  lemma {:induction false} DeliveredTo(h: Hub, q: Hub, data: bytes, c: nat)
    requires RxInv(h) && h.pending == {} && RxInv(q) && q.pending == {} && c in h.received
    requires SameStream(Next(h, Broadcast(data)), q)
    ensures c in q.received
    ensures c in h.clients && c in q.clients ==> q.received[c] == h.received[c] + data
    ensures c in h.clients ==> q.received[c] in {h.received[c], h.received[c] + data}
    ensures c !in h.clients ==> q.received[c] == h.received[c]
  {
    ServedAfter(h, q, data, c);
    assert SentPart(h, c) && SentPart(q, c);
    var from, was, to := h.joined[c], ServedTo(h, c), ServedTo(q, c);
    assert h.received[c] == h.stream[from..was] && q.received[c] == (h.stream + data)[from..to];
    hide ServedTo, Books, RxInv, SameStream, Next, SentPart;
    if c in h.clients {
      PartGrows(h.stream, data, from, to);
      assert h.stream[from..|h.stream|] == h.stream[from..];
      assert h.received[c] + [] == h.received[c];
    } else {
      EarlyPart(h.stream, data, from, to);
    }
  }

  lemma {:induction false} BroadcastDelivers(h: Hub, q: Hub, data: bytes)
    requires RxInv(h) && h.pending == {} && RxInv(q) && q.pending == {}
    requires SameStream(Next(h, Broadcast(data)), q)
    ensures Delivered(h, q, data)
  {
    hide RxInv, SameStream, Next;
    forall c | c in h.received
      ensures c in q.received
      ensures c in h.clients && c in q.clients ==> q.received[c] == h.received[c] + data
      ensures c in h.clients ==> q.received[c] in {h.received[c], h.received[c] + data}
      ensures c !in h.clients ==> q.received[c] == h.received[c]
    {
      DeliveredTo(h, q, data, c);
    }
  }

  /** The client set of the server, and what each socket has been handed. The hub it is part of is ghost. */
  class SerialServer {
    var clients: set<nat>
    var sent: map<nat, bytes>
    ghost var hub: Hub

    ghost predicate Valid()
      reads this
    {
      clients == hub.clients && sent == hub.received && RxInv(hub)
    }

    constructor ()
      ensures Valid() && hub == NEW_HUB
    {
      clients, sent, hub := {}, map[], NEW_HUB;
    }

    method AddClient(c: nat)
      requires Valid() && c !in sent
      modifies this
      ensures Valid() && hub == Next(old(hub), Join(c))
    {
      RxKept(hub, Join(c));
      clients := clients + {c};
      sent := sent[c := []];
      hub := Next(hub, Join(c));
    }

    method RemoveClient(c: nat)
      requires Valid() && c in clients
      modifies this
      ensures Valid() && hub == Next(old(hub), Leave(c))
    {
      RxKept(hub, Leave(c));
      clients := clients - {c};
      hub := Next(hub, Leave(c));
    }

    /** Sending to one client; it has no effect if the client has left. */
    method SendTo(c: nat, data: bytes)
      requires Valid() && c in hub.pending && data == hub.chunk
      modifies this
      ensures Valid() && hub == Next(old(hub), Deliver(c)) && clients == old(clients)
    {
      RxKept(hub, Deliver(c));
      if c in clients {
        sent := sent[c := sent[c] + data];
      }
      hub := Next(hub, Deliver(c));
    }

    /** What other threads may do between two sends: any number of clients leave and come. */
    method OthersMove(ghost start: Hub, ghost run: seq<Step>) returns (ghost longer: seq<Step>)
      requires Valid() && Leads(start, run, hub)
      modifies this
      ensures Valid() && Leads(start, longer, hub) && run <= longer
      ensures forall k :: |run| <= k < |longer| ==> Meanwhile(longer[k])
      ensures SameStream(old(hub), hub) && hub.pending == old(hub).pending
    {
      hide SameStream, RxInv, Leads, Next, Enabled;
      SameItself(hub);
      longer := run;
      var n: nat := *;
      while n > 0
        invariant Valid() && Leads(start, longer, hub) && run <= longer
        invariant forall k :: |run| <= k < |longer| ==> Meanwhile(longer[k])
        invariant SameStream(old(hub), hub) && hub.pending == old(hub).pending
      {
        ghost var before := hub;
        SameItself(hub);
        var c: nat, leaves: bool := *, *;
        if leaves && c in clients {
          MeanwhileMoves(start, longer, hub, Leave(c));
          RemoveClient(c);
          longer := longer + [Leave(c)];
        } else if !leaves && c !in sent {
          MeanwhileMoves(start, longer, hub, Join(c));
          AddClient(c);
          longer := longer + [Join(c)];
        }
        StreamTrans(old(hub), before, hub);
        n := n - 1;
      }
    }

    /** The copied client set is served client by client while others come and go. All of it is a run of the hub
      * that begins with the broadcast. */
    method SendToAll(data: bytes) returns (ghost run: seq<Step>)
      requires Valid() && hub.pending == {}
      modifies this
      ensures Valid() && hub.pending == {}
      ensures Leads(old(hub), run, hub) && run != [] && run[0] == Broadcast(data)
      ensures forall k :: 1 <= k < |run| ==> Meanwhile(run[k])
      ensures Delivered(old(hub), hub, data)
    {
      hide SameStream, RxInv, Leads, Delivered;
      ghost var start := hub;
      var todo := clients;
      RxKept(hub, Broadcast(data));
      BeginRun(hub, Broadcast(data));
      run := [Broadcast(data)];
      hub := Next(hub, Broadcast(data));
      ghost var sent0 := hub;
      assert sent0.chunk == data;
      SameItself(hub);
      while todo != {}
        invariant Valid() && hub.pending == todo
        invariant Leads(start, run, hub) && run != [] && run[0] == Broadcast(data)
        invariant forall k :: 1 <= k < |run| ==> Meanwhile(run[k])
        invariant SameStream(sent0, hub)
        decreases todo
      {
        ghost var before := hub;
        run := OthersMove(start, run);
        StreamTrans(sent0, before, hub);
        before := hub;
        var c :| c in todo;
        MeanwhileMoves(start, run, hub, Deliver(c));
        ChunkStays(sent0, hub);
        SendTo(c, data);
        StreamTrans(sent0, before, hub);
        run := run + [Deliver(c)];
        todo := todo - {c};
      }
      BroadcastDelivers(start, hub, data);
    }
  }

  lemma ChunkStays(h: Hub, q: Hub)
    requires SameStream(h, q)
    ensures q.chunk == h.chunk
  {
  }

  lemma SameItself(h: Hub)
    ensures SameStream(h, h)
  {
  }

  lemma {:induction false} BeginRun(h: Hub, a: Step)
    requires Enabled(h, a)
    ensures Leads(h, [a], Next(h, a))
  {
    hide Next;
    assert [a][1..] == [];
    assert After(Next(h, a), []) == Next(h, a);
  }

  lemma {:induction false} MeanwhileMoves(start: Hub, run: seq<Step>, h: Hub, a: Step)
    requires RxInv(h) && Leads(start, run, h) && Meanwhile(a)
    requires (a.Join? && a.c !in h.received) || (a.Leave? && a.c in h.clients) || (a.Deliver? && a.c in h.pending)
    ensures Enabled(h, a)
    ensures Leads(start, run + [a], Next(h, a)) && SameStream(h, Next(h, a))
    ensures Next(h, a).pending == if a.Deliver? then h.pending - {a.c} else h.pending
  {
    assert Enabled(h, a);
    LeadsOn(start, run, h, a);
    MeanwhileStep(h, a);
  }
}
