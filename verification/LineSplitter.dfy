/** The streaming console line splitter of PortService (`_buffer_lines`).
  *
  * Bytes arrive in arbitrary chunks. CRLF, a lone CR and a lone LF each end a line, and a CRLF may be cut
  * between two chunks. The specification of one call is `Feed`; the specification of a whole stream is
  * `Pieces`, the lines of the complete stream cut in one go. `Scan`, which looks at one byte at a time and
  * knows nothing of CRLF pairs, is the link between the two.
  */
module LineSplitter {
  import opened Bytes

  /** Longest partial line that is kept waiting for its terminator. */
  const MAX_PARTIAL_LINE := 4096

  /** One line: its content and the same bytes together with the terminator that ended it. */
  datatype Piece = Piece(line: bytes, raw: bytes)

  datatype Outcome = Outcome(pieces: seq<Piece>, pending: bytes)

  predicate IsTerm(b: byte) {
    b == CR || b == LF
  }

  ghost predicate TermFree(s: bytes) {
    forall k :: 0 <= k < |s| ==> !IsTerm(s[k])
  }

  ghost predicate TermFreeRange(s: bytes, lo: nat, hi: nat)
    requires hi <= |s|
  {
    forall k :: lo <= k < hi ==> !IsTerm(s[k])
  }

  /** Where the terminator pattern first matches at or after `from`: an index, or |s| if it does not. */
  function FirstTerm(s: bytes, from: nat): (i: nat)
    requires from <= |s|
    ensures from <= i <= |s|
    ensures forall k :: from <= k < i ==> !IsTerm(s[k])
    ensures i < |s| ==> IsTerm(s[i])
    decreases |s| - from
  {
    if from == |s| || IsTerm(s[from]) then from else FirstTerm(s, from + 1)
  }

  /** End of the match that starts at i: CRLF counts as one terminator. */
  function TermEnd(s: bytes, i: nat): (end: nat)
    requires i < |s| && IsTerm(s[i])
    ensures i < end <= i + 2 && end <= |s|
    ensures forall k :: i <= k < end ==> IsTerm(s[k])
  {
    if s[i] == CR && i + 1 < |s| && s[i + 1] == LF then i + 2 else i + 1
  }

  /** The completed lines from `pos` on, empty ones included. */
  function PiecesFrom(s: bytes, pos: nat): seq<Piece>
    requires pos <= |s|
    decreases |s| - pos
  {
    var i := FirstTerm(s, pos);
    if i == |s| then []
    else
      var end := TermEnd(s, i);
      [Piece(s[pos..i], s[pos..end])] + PiecesFrom(s, end)
  }

  /** Where the last terminator from `pos` on ends. */
  function RestFrom(s: bytes, pos: nat): (r: nat)
    requires pos <= |s|
    ensures pos <= r <= |s|
    ensures forall k :: r <= k < |s| ==> !IsTerm(s[k])
    decreases |s| - pos
  {
    var i := FirstTerm(s, pos);
    if i == |s| then pos else RestFrom(s, TermEnd(s, i))
  }

  /** The completed lines of a byte string. */
  function Pieces(s: bytes): seq<Piece> {
    PiecesFrom(s, 0)
  }

  /** What follows its last terminator. */
  function Rest(s: bytes): (r: bytes)
    ensures TermFree(r) && |r| <= |s|
  {
    s[RestFrom(s, 0)..]
  }

  /** One call of the splitter on the bytes left over by the previous one. */
  function Feed(pending: bytes, data: bytes): Outcome {
    var buf := pending + data;
    var rest := Rest(buf);
    if |rest| > MAX_PARTIAL_LINE
    then Outcome(Pieces(buf) + [Piece(rest, rest)], [])
    else Outcome(Pieces(buf), rest)
  }

  /** One call per chunk. */
  function FeedAll(pending: bytes, chunks: seq<bytes>): Outcome
    decreases |chunks|
  {
    if chunks == [] then Outcome([], pending)
    else
      var first := Feed(pending, chunks[0]);
      var more := FeedAll(first.pending, chunks[1..]);
      Outcome(first.pieces + more.pieces, more.pending)
  }

  /** The contents of the lines that are shown: empty ones are not. */
  function Lines(ps: seq<Piece>): seq<bytes> {
    if ps == [] then []
    else if ps[0].line == [] then Lines(ps[1..])
    else [ps[0].line] + Lines(ps[1..])
  }

  /** The raw bytes of the lines that are shown. */
  function Raws(ps: seq<Piece>): bytes {
    if ps == [] then []
    else if ps[0].line == [] then Raws(ps[1..])
    else ps[0].raw + Raws(ps[1..])
  }

  lemma {:induction false} LinesAppend(a: seq<Piece>, b: seq<Piece>)
    ensures Lines(a + b) == Lines(a) + Lines(b)
  {
    if a == [] {
      assert a + b == b;
    } else {
      assert (a + b)[1..] == a[1..] + b;
      LinesAppend(a[1..], b);
    }
  }

  lemma {:induction false} RawsAppend(a: seq<Piece>, b: seq<Piece>)
    ensures Raws(a + b) == Raws(a) + Raws(b)
  {
    if a == [] {
      assert a + b == b;
    } else {
      assert (a + b)[1..] == a[1..] + b;
      RawsAppend(a[1..], b);
    }
  }

  function AllRaws(ps: seq<Piece>): bytes {
    if ps == [] then [] else ps[0].raw + AllRaws(ps[1..])
  }

  lemma {:induction false} PiecesTileFrom(s: bytes, pos: nat)
    requires pos <= |s|
    ensures AllRaws(PiecesFrom(s, pos)) == s[pos..RestFrom(s, pos)]
    decreases |s| - pos
  {
    var i := FirstTerm(s, pos);
    if i < |s| {
      var end := TermEnd(s, i);
      PiecesTileFrom(s, end);
      assert PiecesFrom(s, pos)[1..] == PiecesFrom(s, end);
    }
  }

  /** The pieces and the remainder tile the byte string: nothing is lost, moved or doubled. */
  lemma {:induction false} PiecesTile(s: bytes)
    ensures AllRaws(Pieces(s)) + Rest(s) == s
  {
    PiecesTileFrom(s, 0);
  }

  /** A line, and then exactly one terminator; a lone CR is not the first half of a CRLF. */
  ghost predicate WellCut(p: Piece, next: bytes) {
    && TermFree(p.line)
    && (|| p.raw == p.line + [CR, LF]
        || p.raw == p.line + [LF]
        || (p.raw == p.line + [CR] && (next != [] ==> next[0] != LF)))
  }

  lemma {:induction false} FirstPieceWellCut(s: bytes, pos: nat, i: nat, next: bytes)
    requires pos <= i < |s| && TermFreeRange(s, pos, i) && IsTerm(s[i])
    requires next == s[TermEnd(s, i)..]
    ensures WellCut(Piece(s[pos..i], s[pos..TermEnd(s, i)]), next)
  {
    var end := TermEnd(s, i);
    assert s[pos..end] == s[pos..i] + if end == i + 2 then [CR, LF] else [s[i]];
  }

  /** Each piece is a line with exactly one terminator, and a CRLF pair is never cut in two. */
  lemma {:induction false} PiecesAreWellCut(s: bytes, pos: nat, k: nat)
    requires pos <= |s| && k < |PiecesFrom(s, pos)|
    ensures WellCut(PiecesFrom(s, pos)[k], AllRaws(PiecesFrom(s, pos)[k + 1..]) + s[RestFrom(s, pos)..])
    decreases |s| - pos
  {
    var i := FirstTerm(s, pos);
    var end := TermEnd(s, i);
    var ps, more := PiecesFrom(s, pos), PiecesFrom(s, end);
    assert ps[1..] == more;
    if k > 0 {
      PiecesAreWellCut(s, end, k - 1);
      assert ps[k + 1..] == more[k..];
    } else {
      PiecesTileFrom(s, end);
      var next := AllRaws(more) + s[RestFrom(s, end)..];
      assert next == s[end..];
      FirstPieceWellCut(s, pos, i, next);
    }
  }

  // ---------------------------------------------------------------------- in plain bytes

  /** Neither of the two bytes that end lines. */
  ghost predicate Plain(s: bytes) {
    0x0d !in s && 0x0a !in s
  }

  lemma {:induction false} PlainIsTermFree(s: bytes)
    ensures Plain(s) <==> TermFree(s)
  {
    if TermFree(s) {
      assert !IsTerm(0x0d) || 0x0d !in s;
      assert IsTerm(0x0d) && IsTerm(0x0a);
    }
    assert forall b: byte :: IsTerm(b) ==> b == 0x0d || b == 0x0a;
  }

  /** No completed line holds a CR or an LF, and neither does what is left pending, which has at most 4096 bytes. */
  lemma {:induction false} NoTerminatorIsLeft(pending: bytes, data: bytes)
    ensures forall k :: 0 <= k < |Pieces(pending + data)| ==> Plain(Pieces(pending + data)[k].line)
    ensures Plain(Feed(pending, data).pending) && |Feed(pending, data).pending| <= 4096
  {
    var buf := pending + data;
    forall k | 0 <= k < |Pieces(buf)| ensures Plain(Pieces(buf)[k].line) {
      PiecesAreWellCut(buf, 0, k);
      PlainIsTermFree(Pieces(buf)[k].line);
    }
    PlainIsTermFree(Feed(pending, data).pending);
  }

  lemma {:induction false} OneTerminated(line: bytes, term: bytes)
    requires TermFree(line) && term != [] && IsTerm(term[0])
    requires FirstTerm(line + term, 0) == |line| && TermEnd(line + term, |line|) == |line + term|
    ensures Pieces(line + term) == [Piece(line, line + term)] && Rest(line + term) == []
  {
    var s := line + term;
    assert s[0..|line|] == line && s[0..|s|] == s;
    assert PiecesFrom(s, |s|) == [] && RestFrom(s, |s|) == |s|;
    hide TermFree, FirstTerm, TermEnd, IsTerm;
  }

  lemma {:induction false} FirstIsAt(line: bytes, term: bytes)
    requires TermFree(line) && term in {[0x0d], [0x0a], [0x0d, 0x0a]}
    ensures IsTerm(term[0]) && FirstTerm(line + term, 0) == |line| && TermEnd(line + term, |line|) == |line + term|
  {
    var s := line + term;
    assert s[|line|] == term[0] && IsTerm(s[|line|]);
    assert forall k :: 0 <= k < |line| ==> s[k] == line[k];
  }

  /** Each of CR, LF and CRLF ends a line, and the line is what stands in front of it. */
  lemma {:induction false} EachTerminatorEndsALine(line: bytes, term: bytes)
    requires Plain(line) && line != [] && term in {[0x0d], [0x0a], [0x0d, 0x0a]}
    ensures Feed([], line + term) == Outcome([Piece(line, line + term)], [])
    ensures Lines(Feed([], line + term).pieces) == [line]
  {
    PlainIsTermFree(line);
    FirstIsAt(line, term);
    OneTerminated(line, term);
    hide Pieces, Rest, FirstTerm, TermEnd, Plain, TermFree;
    var s := line + term;
    assert [] + s == s;
    var one := [Piece(line, s)];
    assert one[1..] == [] && Lines(one) == [line] + Lines(one[1..]);
  }

  /** Also when a CRLF is cut between two calls: the second half adds nothing. */
  lemma {:induction false} CutPairEndsOneLine(line: bytes)
    requires Plain(line) && line != []
    ensures Lines(FeedAll([], [line + [0x0d], [0x0a]]).pieces) == [line]
    ensures FeedAll([], [line + [0x0d], [0x0a]]).pending == []
  {
    var chunks := [line + [0x0d], [0x0a]];
    EachTerminatorEndsALine(line, [0x0d]);
    LoneTerminator();
    assert chunks[1..] == [[0x0a]] && [[0x0a]][1..] == [];
    assert FeedAll([], [[0x0a]]) == Outcome(Feed([], [0x0a]).pieces + [], []);
    LinesAppend(Feed([], line + [0x0d]).pieces, FeedAll([], [[0x0a]]).pieces);
    assert Feed([], [0x0a]).pieces + [] == Feed([], [0x0a]).pieces;
    assert [line] + [] == [line];
  }

  lemma {:induction false} LoneTerminator()
    ensures Feed([], [0x0a]).pending == [] && Lines(Feed([], [0x0a]).pieces) == []
  {
    var s: bytes := [0x0a];
    assert [] + s == s && IsTerm(s[0]);
    assert FirstTerm(s, 0) == 0 && TermEnd(s, 0) == 1;
    assert FirstTerm(s, 1) == 1 && PiecesFrom(s, 1) == [] && RestFrom(s, 1) == 1;
    assert Pieces(s) == [Piece(s[0..0], s[0..1])] + [];
    assert Pieces(s)[1..] == [];
  }

  /** A line that has not ended is kept, byte for byte, up to 4096 bytes, and flushed as it is beyond. */
  lemma {:induction false} UnfinishedLine(line: bytes)
    requires Plain(line)
    ensures |line| <= 4096 ==> Feed([], line) == Outcome([], line)
    ensures |line| > 4096 ==> Feed([], line) == Outcome([Piece(line, line)], [])
  {
    hide Pieces, Rest, Plain, TermFree;
    PlainIsTermFree(line);
    NothingEnds(line);
    assert [] + line == line;
  }

  lemma {:induction false} NothingEnds(line: bytes)
    requires TermFree(line)
    ensures Rest(line) == line && Pieces(line) == []
  {
    AllRest(line);
    assert FirstTerm(line, 0) == |line|;
  }

  // ---------------------------------------------------------------- byte at a time

  datatype Scanned = Scanned(lines: seq<bytes>, cur: bytes)

  /** Non-empty runs between terminators, read one byte at a time; `cur` is the run being read. */
  ghost function Scan(cur: bytes, s: bytes): Scanned
    decreases |s|
  {
    if s == [] then Scanned([], cur)
    else if !IsTerm(s[0]) then Scan(cur + [s[0]], s[1..])
    else
      var more := Scan([], s[1..]);
      if cur == [] then more else Scanned([cur] + more.lines, more.cur)
  }

  lemma {:induction false} ScanAppend(cur: bytes, a: bytes, b: bytes)
    ensures Scan(cur, a + b).lines == Scan(cur, a).lines + Scan(Scan(cur, a).cur, b).lines
    ensures Scan(cur, a + b).cur == Scan(Scan(cur, a).cur, b).cur
    decreases |a|
  {
    if a == [] {
      assert a + b == b;
    } else {
      assert (a + b)[1..] == a[1..] + b;
      if IsTerm(a[0]) {
        ScanAppend([], a[1..], b);
      } else {
        ScanAppend(cur + [a[0]], a[1..], b);
      }
    }
  }

  lemma {:induction false} ScanTermFree(cur: bytes, s: bytes)
    requires TermFree(s)
    ensures Scan(cur, s) == Scanned([], cur + s)
    decreases |s|
  {
    if s != [] {
      ScanTermFree(cur + [s[0]], s[1..]);
      assert cur + [s[0]] + s[1..] == cur + s;
    } else {
      assert cur + s == cur;
    }
  }

  lemma {:induction false} ScanTerms(cur: bytes, s: bytes)
    requires s != [] && forall k :: 0 <= k < |s| ==> IsTerm(s[k])
    ensures Scan(cur, s) == Scanned(if cur == [] then [] else [cur], [])
    decreases |s|
  {
    if |s| > 1 {
      ScanTerms([], s[1..]);
    } else {
      assert s[1..] == [];
    }
  }

  lemma {:induction false} ScanLine(line: bytes, term: bytes, tail: bytes)
    requires TermFree(line) && term != [] && forall k :: 0 <= k < |term| ==> IsTerm(term[k])
    ensures Scan([], line + term + tail).lines == (if line == [] then [] else [line]) + Scan([], tail).lines
    ensures Scan([], line + term + tail).cur == Scan([], tail).cur
  {
    ScanAppend([], line + term, tail);
    ScanAppend([], line, term);
    ScanTermFree([], line);
    assert [] + line == line;
    ScanTerms(line, term);
  }

  lemma {:induction false} ScanIsPiecesFrom(s: bytes, pos: nat)
    requires pos <= |s|
    ensures Scan([], s[pos..]).lines == Lines(PiecesFrom(s, pos))
    ensures Scan([], s[pos..]).cur == s[RestFrom(s, pos)..]
    decreases |s| - pos
  {
    var i := FirstTerm(s, pos);
    if i == |s| {
      ScanTermFree([], s[pos..]);
      assert [] + s[pos..] == s[pos..];
    } else {
      var end := TermEnd(s, i);
      ScanLine(s[pos..i], s[i..end], s[end..]);
      assert s[pos..] == s[pos..i] + s[i..end] + s[end..];
      ScanIsPiecesFrom(s, end);
      assert PiecesFrom(s, pos)[1..] == PiecesFrom(s, end);
    }
  }

  /** Reading byte by byte finds the lines that cutting at CRLF, CR and LF finds. */
  lemma {:induction false} ScanIsPieces(s: bytes)
    ensures Scan([], s).lines == Lines(Pieces(s))
    ensures Scan([], s).cur == Rest(s)
  {
    ScanIsPiecesFrom(s, 0);
    assert s[0..] == s;
  }

  lemma {:induction false} ScanOfPending(pending: bytes, data: bytes)
    requires TermFree(pending)
    ensures Scan(pending, data).lines == Lines(Pieces(pending + data))
    ensures Scan(pending, data).cur == Rest(pending + data)
  {
    ScanIsPieces(pending + data);
    ScanAppend([], pending, data);
    ScanTermFree([], pending);
    assert [] + pending == pending;
  }

  // ------------------------------------------------------------- chunk independence

  /** How often an over-long partial line is flushed although its line goes on (or has not ended yet). */
  ghost function BrokenFlushes(pending: bytes, chunks: seq<bytes>): nat
    decreases |chunks|
  {
    if chunks == [] then 0
    else
      var rest := Rest(pending + chunks[0]);
      if |rest| <= MAX_PARTIAL_LINE then BrokenFlushes(rest, chunks[1..])
      else
        var after := Flatten(chunks[1..]);
        (if after != [] && IsTerm(after[0]) then 0 else 1) + BrokenFlushes([], chunks[1..])
  }

  lemma {:induction false} SameCount(c: bytes, d: bytes, s: bytes)
    requires c != [] && d != []
    ensures |Scan(c, s).lines| == |Scan(d, s).lines|
    decreases |s|
  {
    if s != [] && !IsTerm(s[0]) {
      SameCount(c + [s[0]], d + [s[0]], s[1..]);
    }
  }

  /** Forgetting a flushed run costs nothing before a terminator, and splits a line everywhere else. */
  lemma {:induction false} AfterFlush(run: bytes, s: bytes)
    requires run != []
    ensures s != [] && IsTerm(s[0]) ==> Scan(run, s).lines == [run] + Scan([], s).lines
    ensures !(s != [] && IsTerm(s[0])) ==> |Scan(run, s).lines| == |Scan([], s).lines|
  {
    if s != [] && !IsTerm(s[0]) {
      SameCount(run + [s[0]], [] + [s[0]], s[1..]);
    }
  }

  lemma {:induction false} LinesOfFlush(ps: seq<Piece>, rest: bytes)
    requires rest != []
    ensures Lines(ps + [Piece(rest, rest)]) == Lines(ps) + [rest]
    ensures Raws(ps + [Piece(rest, rest)]) == Raws(ps) + rest
  {
    LinesAppend(ps, [Piece(rest, rest)]);
    RawsAppend(ps, [Piece(rest, rest)]);
    var one := [Piece(rest, rest)];
    assert one[1..] == [];
    assert Lines(one) == [rest] + Lines(one[1..]);
    assert Raws(one) == rest + Raws(one[1..]);
  }

  lemma ScanNothing(pending: bytes)
    ensures Scan(pending, []).lines == [] == Lines([])
  {
  }

  /** Every broken flush adds exactly one line; without one the lines are those of the whole stream. */
  lemma {:induction false} FeedAllCounts(pending: bytes, chunks: seq<bytes>)
    requires TermFree(pending)
    ensures |Lines(FeedAll(pending, chunks).pieces)|
         == |Scan(pending, Flatten(chunks)).lines| + BrokenFlushes(pending, chunks)
    ensures BrokenFlushes(pending, chunks) == 0 ==>
              Lines(FeedAll(pending, chunks).pieces) == Scan(pending, Flatten(chunks)).lines
    decreases |chunks|
  {
    hide Scan, Pieces, Rest, TermFreeRange, Lines;
    if chunks == [] {
      ScanNothing(pending);
    } else {
      var c, more := chunks[0], chunks[1..];
      var after := Flatten(more);
      var first := Feed(pending, c);
      var rest := Rest(pending + c);
      ScanOfPending(pending, c);
      ScanAppend(pending, c, after);
      FeedAllCounts(first.pending, more);
      LinesAppend(first.pieces, FeedAll(first.pending, more).pieces);
      if |rest| > MAX_PARTIAL_LINE {
        LinesOfFlush(Pieces(pending + c), rest);
        AfterFlush(rest, after);
      }
    }
  }

  /** CHUNK INDEPENDENCE, exactly. However a stream is cut into chunks, the lines shown are the non-empty
    * completed lines of the whole stream if and only if every over-long partial line that had to be flushed
    * was followed directly by its terminator. */
  lemma {:induction false} ChunkIndependence(chunks: seq<bytes>)
    ensures Lines(FeedAll([], chunks).pieces) == Lines(Pieces(Flatten(chunks)))
       <==> BrokenFlushes([], chunks) == 0
  {
    FeedAllCounts([], chunks);
    ScanIsPieces(Flatten(chunks));
  }

  lemma {:induction false} AllRest(s: bytes)
    requires TermFree(s)
    ensures Rest(s) == s
  {
    assert FirstTerm(s, 0) == |s|;
    assert s[0..] == s;
  }

  /** And it does go wrong: an over-long partial line whose line goes on in the next chunk is shown as two lines. */
  lemma {:induction false} FlushBreaksLine(big: bytes, tail: bytes)
    requires TermFree(big) && |big| > MAX_PARTIAL_LINE && tail != [] && !IsTerm(tail[0])
    ensures Lines(FeedAll([], [big, tail]).pieces) != Lines(Pieces(big + tail))
  {
    hide FeedAll, Lines, Pieces, Rest;
    var chunks := [big, tail];
    AllRest(big);
    assert chunks[1..] == [tail] && [tail][1..] == [];
    assert Flatten([tail]) == tail + Flatten([]) == tail;
    assert Flatten(chunks) == big + tail;
    assert [] + big == big;
    assert BrokenFlushes([], chunks) >= 1;
    ChunkIndependence(chunks);
  }

  /** Such chunks exist. */
  lemma {:induction false} BinaryNoise() returns (big: bytes)
    ensures Lines(FeedAll([], [big, [0x62]]).pieces) != Lines(Pieces(big + [0x62]))
  {
    big := seq(MAX_PARTIAL_LINE + 1, _ => 0x61);
    FlushBreaksLine(big, [0x62]);
  }

  /** No run between terminators is longer than the cap. */
  ghost predicate ShortRuns(s: bytes) {
    forall i: nat, j: nat :: i <= j <= |s| && TermFreeRange(s, i, j) ==> j - i <= MAX_PARTIAL_LINE
  }

  lemma {:induction false} ShortRunsSuffix(s: bytes, lo: nat)
    requires lo <= |s| && ShortRuns(s)
    ensures ShortRuns(s[lo..])
  {
    forall i: nat, j: nat | i <= j <= |s[lo..]| && TermFreeRange(s[lo..], i, j) ensures j - i <= MAX_PARTIAL_LINE {
      forall k | lo + i <= k < lo + j ensures !IsTerm(s[k]) {
        assert s[k] == s[lo..][k - lo];
      }
      assert TermFreeRange(s, lo + i, lo + j);
    }
  }

  lemma {:induction false} ShortRunsNeverFlush(pending: bytes, chunks: seq<bytes>)
    requires ShortRuns(pending + Flatten(chunks))
    ensures BrokenFlushes(pending, chunks) == 0
    decreases |chunks|
  {
    if chunks != [] {
      var buf, after := pending + chunks[0], Flatten(chunks[1..]);
      var all := pending + Flatten(chunks);
      assert all == buf + after;
      var lo := RestFrom(buf, 0);
      forall k | lo <= k < |buf| ensures !IsTerm(all[k]) {
        assert all[k] == Rest(buf)[k - lo];
      }
      assert TermFreeRange(all, lo, |buf|);
      assert all[lo..] == Rest(buf) + after;
      ShortRunsSuffix(all, lo);
      ShortRunsNeverFlush(Rest(buf), chunks[1..]);
    }
  }

  /** A stream without over-long lines is split the same way whatever its chunks are. */
  lemma {:induction false} ShortLinesAreChunkIndependent(chunks: seq<bytes>)
    requires ShortRuns(Flatten(chunks))
    ensures Lines(FeedAll([], chunks).pieces) == Lines(Pieces(Flatten(chunks)))
  {
    assert [] + Flatten(chunks) == Flatten(chunks);
    ShortRunsNeverFlush([], chunks);
    ChunkIndependence(chunks);
  }

  // ------------------------------------------------------------------- conservation

  /** `out` is `s` with nothing but CR and LF bytes taken away. */
  ghost predicate OnlyTermsLost(s: bytes, out: bytes)
    decreases |s|
  {
    if s == [] then out == []
    else
      || (out != [] && out[0] == s[0] && OnlyTermsLost(s[1..], out[1..]))
      || (IsTerm(s[0]) && OnlyTermsLost(s[1..], out))
  }

  lemma {:induction false} LostAppend(a: bytes, x: bytes, b: bytes, y: bytes)
    requires OnlyTermsLost(a, x) && OnlyTermsLost(b, y)
    ensures OnlyTermsLost(a + b, x + y)
    decreases |a|
  {
    if a == [] {
      assert a + b == b && x + y == y;
    } else {
      assert (a + b)[1..] == a[1..] + b;
      if x != [] && x[0] == a[0] && OnlyTermsLost(a[1..], x[1..]) {
        LostAppend(a[1..], x[1..], b, y);
        assert (x + y)[1..] == x[1..] + y;
      } else {
        LostAppend(a[1..], x, b, y);
      }
    }
  }

  lemma {:induction false} NothingLost(s: bytes)
    ensures OnlyTermsLost(s, s)
    decreases |s|
  {
    if s != [] {
      NothingLost(s[1..]);
    }
  }

  lemma {:induction false} TermsMayGo(s: bytes)
    requires forall k :: 0 <= k < |s| ==> IsTerm(s[k])
    ensures OnlyTermsLost(s, [])
    decreases |s|
  {
    if s != [] {
      TermsMayGo(s[1..]);
    }
  }

  /** A line in front of what is already known to be conserved. */
  lemma {:induction false} LineConserved(s: bytes, pos: nat, i: nat, out: bytes)
    requires pos <= i < |s| && TermFreeRange(s, pos, i) && IsTerm(s[i])
    requires OnlyTermsLost(s[TermEnd(s, i)..], out)
    ensures OnlyTermsLost(s[pos..], (if i == pos then [] else s[pos..TermEnd(s, i)]) + out)
  {
    var end := TermEnd(s, i);
    var head := s[pos..end];
    assert s[pos..] == head + s[end..];
    if i == pos {
      TermsMayGo(head);
      LostAppend(head, [], s[end..], out);
    } else {
      NothingLost(head);
      LostAppend(head, head, s[end..], out);
    }
  }

  lemma {:induction false} CutConserves(s: bytes, pos: nat)
    requires pos <= |s|
    ensures OnlyTermsLost(s[pos..], Raws(PiecesFrom(s, pos)) + s[RestFrom(s, pos)..])
    decreases |s| - pos
  {
    var i := FirstTerm(s, pos);
    if i == |s| {
      NothingLost(s[pos..]);
      assert [] + s[pos..] == s[pos..];
    } else {
      var end := TermEnd(s, i);
      CutConserves(s, end);
      var raws, out := Raws(PiecesFrom(s, end)), s[RestFrom(s, end)..];
      LineConserved(s, pos, i, raws + out);
      assert PiecesFrom(s, pos)[1..] == PiecesFrom(s, end);
      if i > pos {
        assert s[pos..end] + raws + out == s[pos..end] + (raws + out);
      }
    }
  }

  lemma {:induction false} FeedConserves(pending: bytes, data: bytes)
    ensures OnlyTermsLost(pending + data, Raws(Feed(pending, data).pieces) + Feed(pending, data).pending)
  {
    var buf := pending + data;
    CutConserves(buf, 0);
    assert buf[0..] == buf;
    if |Rest(buf)| > MAX_PARTIAL_LINE {
      LinesOfFlush(Pieces(buf), Rest(buf));
      assert Raws(Pieces(buf)) + Rest(buf) + [] == Raws(Pieces(buf)) + Rest(buf);
    }
  }

  lemma {:induction false} LostTrans(a: bytes, b: bytes, c: bytes)
    requires OnlyTermsLost(a, b) && OnlyTermsLost(b, c)
    ensures OnlyTermsLost(a, c)
    decreases |a|
  {
    if a != [] {
      if b != [] && b[0] == a[0] && OnlyTermsLost(a[1..], b[1..]) {
        if c != [] && c[0] == b[0] && OnlyTermsLost(b[1..], c[1..]) {
          LostTrans(a[1..], b[1..], c[1..]);
        } else {
          LostTrans(a[1..], b[1..], c);
        }
      } else {
        LostTrans(a[1..], b, c);
      }
    }
  }

  /** What one call keeps, followed by bytes that are still to come. */
  lemma {:induction false} FeedThen(pending: bytes, data: bytes, after: bytes, out: bytes)
    requires OnlyTermsLost(Feed(pending, data).pending + after, out)
    ensures OnlyTermsLost(pending + (data + after), Raws(Feed(pending, data).pieces) + out)
  {
    hide OnlyTermsLost, Feed, Raws;
    var first := Feed(pending, data);
    var raws := Raws(first.pieces);
    FeedConserves(pending, data);
    NothingLost(after);
    LostAppend(pending + data, raws + first.pending, after, after);
    assert pending + data + after == pending + (data + after);
    NothingLost(raws);
    LostAppend(raws, raws, first.pending + after, out);
    assert raws + first.pending + after == raws + (first.pending + after);
    LostTrans(pending + (data + after), raws + (first.pending + after), raws + out);
  }

  lemma {:induction false} FeedIsBounded(pending: bytes, data: bytes)
    ensures TermFree(Feed(pending, data).pending) && |Feed(pending, data).pending| <= MAX_PARTIAL_LINE
  {
  }

  lemma {:induction false} RawsThen(a: seq<Piece>, b: seq<Piece>, z: bytes)
    ensures Raws(a) + (Raws(b) + z) == Raws(a + b) + z
  {
    hide Raws;
    RawsAppend(a, b);
  }

  /** CONSERVATION for arbitrary streams and chunks: the raw bytes shown, followed by the bytes still
    * pending, are the stream with only CR and LF bytes missing; and what is pending is short and has none. */
  lemma {:induction false} StreamIsConserved(pending: bytes, chunks: seq<bytes>)
    requires TermFree(pending) && |pending| <= MAX_PARTIAL_LINE
    ensures OnlyTermsLost(pending + Flatten(chunks),
                          Raws(FeedAll(pending, chunks).pieces) + FeedAll(pending, chunks).pending)
    ensures TermFree(FeedAll(pending, chunks).pending)
    ensures |FeedAll(pending, chunks).pending| <= MAX_PARTIAL_LINE
    decreases |chunks|
  {
    if chunks == [] {
      NothingLost(pending);
      assert pending + [] == pending && [] + pending == pending;
    } else {
      var first := Feed(pending, chunks[0]);
      var last := FeedAll(first.pending, chunks[1..]);
      var after := Flatten(chunks[1..]);
      assert Flatten(chunks) == chunks[0] + after;
      var all := FeedAll(pending, chunks);
      assert all == Outcome(first.pieces + last.pieces, last.pending);
      hide OnlyTermsLost, Raws, Feed, FeedAll, Flatten, TermFree;
      FeedIsBounded(pending, chunks[0]);
      StreamIsConserved(first.pending, chunks[1..]);
      FeedThen(pending, chunks[0], after, Raws(last.pieces) + last.pending);
      RawsThen(first.pieces, last.pieces, last.pending);
    }
  }
}
