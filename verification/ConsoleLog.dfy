/** The console side of PortService: per-stream line buffers, events, and the bounded log history. */
module ConsoleLog {
  import opened Bytes
  import opened LineSplitter

  /** How many recent events are retained. */
  const LOG_HISTORY := 1000

  datatype Kind = Conn | Rx | Tx | Status | Retry

  datatype LogEvent = LogEvent(kind: Kind, text: string, raw: Option<bytes>)

  /** The text decoder is left open; all that matters here is that it yields no text exactly for no bytes. */
  ghost predicate Decoder(decode: bytes -> string) {
    forall b :: decode(b) == "" <==> b == []
  }

  /** The events of the lines that are shown. */
  function Events(kind: Kind, ps: seq<Piece>, decode: bytes -> string): seq<LogEvent> {
    if ps == [] then []
    else if decode(ps[0].line) == "" then Events(kind, ps[1..], decode)
    else [LogEvent(kind, decode(ps[0].line), Some(ps[0].raw))] + Events(kind, ps[1..], decode)
  }

  lemma {:induction false} EventsAppend(kind: Kind, a: seq<Piece>, b: seq<Piece>, decode: bytes -> string)
    ensures Events(kind, a + b, decode) == Events(kind, a, decode) + Events(kind, b, decode)
  {
    if a == [] {
      assert a + b == b;
    } else {
      assert (a + b)[1..] == a[1..] + b;
      EventsAppend(kind, a[1..], b, decode);
    }
  }

  function Texts(evs: seq<LogEvent>): seq<string> {
    if evs == [] then [] else [evs[0].text] + Texts(evs[1..])
  }

  function DecodeAll(lines: seq<bytes>, decode: bytes -> string): seq<string> {
    if lines == [] then [] else [decode(lines[0])] + DecodeAll(lines[1..], decode)
  }

  lemma {:induction false} EventTexts(kind: Kind, ps: seq<Piece>, decode: bytes -> string)
    requires Decoder(decode)
    ensures Texts(Events(kind, ps, decode)) == DecodeAll(Lines(ps), decode)
  {
    if ps != [] {
      EventTexts(kind, ps[1..], decode);
      if ps[0].line != [] {
        assert Lines(ps)[1..] == Lines(ps[1..]);
        assert Events(kind, ps, decode)[1..] == Events(kind, ps[1..], decode);
      }
    }
  }

  /** The texts shown for a stream of short lines are those of the whole stream, whatever the chunks were. */
  lemma {:induction false} TextsAreChunkIndependent(kind: Kind, chunks: seq<bytes>, decode: bytes -> string)
    requires Decoder(decode) && ShortRuns(Flatten(chunks))
    ensures Texts(Events(kind, FeedAll([], chunks).pieces, decode)) == DecodeAll(Lines(Pieces(Flatten(chunks))), decode)
  {
    EventTexts(kind, FeedAll([], chunks).pieces, decode);
    ShortLinesAreChunkIndependent(chunks);
  }

  function EventRaws(evs: seq<LogEvent>): bytes {
    if evs == [] then []
    else (match evs[0].raw case Some(raw) => raw case None => []) + EventRaws(evs[1..])
  }

  /** Every event has the kind of its stream and carries the raw bytes of its line. */
  lemma {:induction false} EventsCarryRaws(kind: Kind, ps: seq<Piece>, decode: bytes -> string)
    requires Decoder(decode)
    ensures EventRaws(Events(kind, ps, decode)) == Raws(ps)
    ensures forall ev :: ev in Events(kind, ps, decode) ==> ev.kind == kind && ev.raw.Some? && ev.text != ""
  {
    if ps != [] {
      EventsCarryRaws(kind, ps[1..], decode);
      if ps[0].line != [] {
        assert Events(kind, ps, decode)[1..] == Events(kind, ps[1..], decode);
      }
    }
  }

  /** CONSERVATION of the console: the raw bytes of the events shown, followed by the pending bytes, are the stream
    * with only CR and LF bytes missing. */
  lemma {:induction false} ConsoleConserves(kind: Kind, chunks: seq<bytes>, decode: bytes -> string)
    requires Decoder(decode)
    ensures OnlyTermsLost(Flatten(chunks),
                          EventRaws(Events(kind, FeedAll([], chunks).pieces, decode)) + FeedAll([], chunks).pending)
  {
    StreamIsConserved([], chunks);
    EventsCarryRaws(kind, FeedAll([], chunks).pieces, decode);
    assert [] + Flatten(chunks) == Flatten(chunks);
  }

  /** A line that ends with CR, LF or CRLF is shown as one event, with its text and its bytes. */
  lemma {:induction false} LineIsShown(kind: Kind, line: bytes, term: bytes, decode: bytes -> string)
    requires Decoder(decode) && Plain(line) && line != [] && term in {[0x0d], [0x0a], [0x0d, 0x0a]}
    ensures Events(kind, Feed([], line + term).pieces, decode) == [LogEvent(kind, decode(line), Some(line + term))]
  {
    EachTerminatorEndsALine(line, term);
    var ps := [Piece(line, line + term)];
    assert ps[1..] == [];
    hide Feed;
  }

  // ------------------------------------------------------------------- two streams

  datatype Call = Call(kind: Kind, data: bytes)

  function Pending(bufs: map<Kind, bytes>, kind: Kind): bytes {
    if kind in bufs then bufs[kind] else []
  }

  /** All events of a sequence of calls on interleaved streams. */
  function Play(bufs: map<Kind, bytes>, calls: seq<Call>, decode: bytes -> string): seq<LogEvent>
    decreases |calls|
  {
    if calls == [] then []
    else
      var c := calls[0];
      var one := Feed(Pending(bufs, c.kind), c.data);
      Events(c.kind, one.pieces, decode) + Play(bufs[c.kind := one.pending], calls[1..], decode)
  }

  function ChunksOf(kind: Kind, calls: seq<Call>): seq<bytes> {
    if calls == [] then []
    else if calls[0].kind == kind then [calls[0].data] + ChunksOf(kind, calls[1..])
    else ChunksOf(kind, calls[1..])
  }

  function EventsOf(kind: Kind, evs: seq<LogEvent>): seq<LogEvent> {
    if evs == [] then []
    else if evs[0].kind == kind then [evs[0]] + EventsOf(kind, evs[1..])
    else EventsOf(kind, evs[1..])
  }

  lemma {:induction false} EventsOfAppend(kind: Kind, a: seq<LogEvent>, b: seq<LogEvent>)
    ensures EventsOf(kind, a + b) == EventsOf(kind, a) + EventsOf(kind, b)
  {
    if a == [] {
      assert a + b == b;
    } else {
      assert (a + b)[1..] == a[1..] + b;
      EventsOfAppend(kind, a[1..], b);
    }
  }

  lemma {:induction false} EventsHaveOneKind(kind: Kind, other: Kind, ps: seq<Piece>, decode: bytes -> string)
    ensures EventsOf(kind, Events(other, ps, decode)) == if kind == other then Events(other, ps, decode) else []
  {
    if ps != [] {
      EventsHaveOneKind(kind, other, ps[1..], decode);
      if decode(ps[0].line) != "" {
        assert Events(other, ps, decode)[1..] == Events(other, ps[1..], decode);
      }
    }
  }

  /** Interleaved streams do not disturb each other: what is shown for one kind is what its own chunks alone
    * give. */
  lemma {:induction false} StreamsAreIndependent(kind: Kind, bufs: map<Kind, bytes>, calls: seq<Call>, decode: bytes -> string)
    ensures EventsOf(kind, Play(bufs, calls, decode))
         == Events(kind, FeedAll(Pending(bufs, kind), ChunksOf(kind, calls)).pieces, decode)
    decreases |calls|
  {
    if calls != [] {
      var c := calls[0];
      var one := Feed(Pending(bufs, c.kind), c.data);
      var bufs' := bufs[c.kind := one.pending];
      StreamsAreIndependent(kind, bufs', calls[1..], decode);
      EventsOfAppend(kind, Events(c.kind, one.pieces, decode), Play(bufs', calls[1..], decode));
      EventsHaveOneKind(kind, c.kind, one.pieces, decode);
      if c.kind == kind {
        var chunks := ChunksOf(kind, calls);
        assert chunks[0] == c.data && chunks[1..] == ChunksOf(kind, calls[1..]);
        EventsAppend(kind, one.pieces, FeedAll(one.pending, chunks[1..]).pieces, decode);
      }
    }
  }

  // ----------------------------------------------------------------- bounded history

  /** The last n elements. */
  function Last<T>(n: nat, s: seq<T>): (r: seq<T>)
    ensures |r| <= n && |r| <= |s|
  {
    if |s| <= n then s else s[|s| - n..]
  }

  /** The newest elements are kept, in order. */
  lemma {:induction false} LastIsNewest<T>(n: nat, s: seq<T>)
    ensures |Last(n, s)| == (if |s| <= n then |s| else n)
    ensures forall j :: |s| - |Last(n, s)| <= j < |s| ==> s[j] == Last(n, s)[j - (|s| - |Last(n, s)|)]
  {
  }

  lemma {:induction false} LastAppend<T>(n: nat, a: seq<T>, b: seq<T>)
    ensures Last(n, Last(n, a) + b) == Last(n, a + b)
  {
    var l := Last(n, a);
    var drop := |a| - |l|;
    assert a + b == a[..drop] + (l + b);
    assert (a + b)[drop..] == l + b;
    if |l + b| > n {
      assert (l + b)[|l + b| - n..] == (a + b)[|a + b| - n..];
    }
  }

  lemma {:induction false} Remember(before: seq<LogEvent>, out: seq<LogEvent>, ev: LogEvent)
    ensures Last(LOG_HISTORY, Last(LOG_HISTORY, before + out) + [ev]) == Last(LOG_HISTORY, before + (out + [ev]))
  {
    LastAppend(LOG_HISTORY, before + out, [ev]);
    assert before + out + [ev] == before + (out + [ev]);
  }

  /** The event of one line, if it is shown. */
  function LineEvent(kind: Kind, line: bytes, raw: bytes, decode: bytes -> string): seq<LogEvent> {
    var text := decode(line);
    if text == "" then [] else [LogEvent(kind, text, Some(raw))]
  }

  /** One round of the splitting loop. */
  lemma {:induction false} NextLine(kind: Kind, buf: bytes, pos: nat, decode: bytes -> string, out: seq<LogEvent>)
    requires pos <= |buf| && FirstTerm(buf, pos) < |buf|
    ensures var start := FirstTerm(buf, pos);
            var end := TermEnd(buf, start);
            && RestFrom(buf, pos) == RestFrom(buf, end)
            && out + Events(kind, PiecesFrom(buf, pos), decode)
            == out + LineEvent(kind, buf[pos..start], buf[pos..end], decode) + Events(kind, PiecesFrom(buf, end), decode)
  {
    var start := FirstTerm(buf, pos);
    var end := TermEnd(buf, start);
    assert PiecesFrom(buf, pos)[1..] == PiecesFrom(buf, end);
    assert Events(kind, PiecesFrom(buf, pos), decode)
        == LineEvent(kind, buf[pos..start], buf[pos..end], decode) + Events(kind, PiecesFrom(buf, end), decode);
  }

  lemma {:induction false} FlushedLine(kind: Kind, ps: seq<Piece>, rest: bytes, decode: bytes -> string)
    ensures Events(kind, ps + [Piece(rest, rest)], decode)
         == Events(kind, ps, decode) + LineEvent(kind, rest, rest, decode)
  {
    var one := [Piece(rest, rest)];
    EventsAppend(kind, ps, one, decode);
    assert one[1..] == [];
  }

  /** The console of one service. `shown` is everything handed to the event callback since it was created. */
  class Console {
    const decode: bytes -> string
    var lineBufs: map<Kind, bytes>
    var logBuffer: seq<LogEvent>
    ghost var shown: seq<LogEvent>

    constructor (decode: bytes -> string)
      ensures this.decode == decode && lineBufs == map[] && logBuffer == [] && shown == []
    {
      this.decode := decode;
      lineBufs, logBuffer, shown := map[], [], [];
    }

    method Emit(kind: Kind, text: string, raw: Option<bytes>)
      modifies this`logBuffer, this`shown
      ensures logBuffer == Last(LOG_HISTORY, old(logBuffer) + [LogEvent(kind, text, raw)])
      ensures |old(logBuffer)| < 1000 ==> logBuffer == old(logBuffer) + [LogEvent(kind, text, raw)]
      ensures |old(logBuffer)| == 1000 ==> logBuffer == old(logBuffer)[1..] + [LogEvent(kind, text, raw)]
      ensures shown == old(shown) + [LogEvent(kind, text, raw)]
    {
      logBuffer := logBuffer + [LogEvent(kind, text, raw)];
      if |logBuffer| > LOG_HISTORY {
        logBuffer := logBuffer[|logBuffer| - LOG_HISTORY..];
      }
      shown := shown + [LogEvent(kind, text, raw)];
    }

    /** Emits the line unless it has no text; `out` is what the current call has shown so far. */
    method EmitLine(kind: Kind, line: bytes, raw: bytes,
                    ghost shown0: seq<LogEvent>, ghost log0: seq<LogEvent>, ghost out: seq<LogEvent>)
      requires shown == shown0 + out && logBuffer == Last(LOG_HISTORY, log0 + out)
      modifies this`logBuffer, this`shown
      ensures shown == shown0 + (out + LineEvent(kind, line, raw, decode))
      ensures logBuffer == Last(LOG_HISTORY, log0 + (out + LineEvent(kind, line, raw, decode)))
    {
      var text := decode(line);
      if text != "" {
        ghost var ev := LogEvent(kind, text, Some(raw));
        Remember(log0, out, ev);
        Emit(kind, text, Some(raw));
        assert shown0 + out + [ev] == shown0 + (out + [ev]);
      } else {
        assert out + [] == out;
      }
    }

    /** The splitting loop: shows the completed lines and returns where the last one ended. */
    method SplitLines(kind: Kind, buf: bytes) returns (pos: nat)
      requires |logBuffer| <= LOG_HISTORY
      modifies this`logBuffer, this`shown
      ensures pos == RestFrom(buf, 0)
      ensures shown == old(shown) + Events(kind, Pieces(buf), decode)
      ensures logBuffer == Last(LOG_HISTORY, old(logBuffer) + Events(kind, Pieces(buf), decode))
    {
      pos := 0;
      ghost var out: seq<LogEvent> := [];
      ghost var all := Events(kind, Pieces(buf), decode);
      var start := FirstTerm(buf, pos);
      assert old(logBuffer) + out == old(logBuffer) && old(shown) + out == old(shown) && out + all == all;
      while start < |buf|
        invariant 0 <= pos <= |buf| && start == FirstTerm(buf, pos)
        invariant out + Events(kind, PiecesFrom(buf, pos), decode) == all
        invariant RestFrom(buf, pos) == RestFrom(buf, 0)
        invariant shown == old(shown) + out
        invariant logBuffer == Last(LOG_HISTORY, old(logBuffer) + out)
        decreases |buf| - pos
      {
        var end := TermEnd(buf, start);
        NextLine(kind, buf, pos, decode, out);
        EmitLine(kind, buf[pos..start], buf[pos..end], old(shown), old(logBuffer), out);
        out := out + LineEvent(kind, buf[pos..start], buf[pos..end], decode);
        pos := end;
        start := FirstTerm(buf, pos);
      }
    }

    method BufferLines(kind: Kind, data: bytes)
      requires |logBuffer| <= LOG_HISTORY
      modifies this`lineBufs, this`logBuffer, this`shown
      ensures lineBufs == old(lineBufs)[kind := Feed(Pending(old(lineBufs), kind), data).pending]
      ensures shown == old(shown) + Events(kind, Feed(Pending(old(lineBufs), kind), data).pieces, decode)
      ensures logBuffer
           == Last(LOG_HISTORY, old(logBuffer) + Events(kind, Feed(Pending(old(lineBufs), kind), data).pieces, decode))
    {
      var buf := (if kind in lineBufs then lineBufs[kind] else []) + data;
      var pos := SplitLines(kind, buf);
      var rest := buf[pos..];
      if |rest| > MAX_PARTIAL_LINE {
        FlushedLine(kind, Pieces(buf), rest, decode);
        EmitLine(kind, rest, rest, old(shown), old(logBuffer), Events(kind, Pieces(buf), decode));
        rest := [];
      }
      lineBufs := lineBufs[kind := rest];
    }

    method SnapshotLog() returns (events: seq<LogEvent>)
      ensures events == logBuffer
    {
      events := logBuffer;
    }

    method ClearLog()
      modifies this`logBuffer
      ensures logBuffer == []
    {
      logBuffer := [];
    }
  }
}
