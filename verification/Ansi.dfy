/** Escape handling of the console: splitting text into coloured chunks (`parse_ansi`).
  *
  * The escape pattern is modelled as an explicit matcher for its three alternatives, tried in order: a control
  * sequence (section 5.4 of ECMA-48, restricted to the parameter bytes 0-9 ; ?), an operating system command
  * ended by BEL or ST, and a bare two-character escape. `Paint` is the reference: one colour per character.
  */
module Ansi {
  import opened Bytes

  const ESC: char := 0x1b as char
  const BEL: char := 0x07 as char

  predicate IsDigit(c: char) { '0' <= c <= '9' }
  predicate IsParam(c: char) { IsDigit(c) || c == ';' || c == '?' }
  predicate IsInterm(c: char) { ' ' <= c <= '/' }
  predicate IsFinal(c: char) { '@' <= c <= '~' }
  predicate IsOscBody(c: char) { c != BEL && c != ESC }

  // --------------------------------------------------------- the pattern, declaratively

  ghost predicate CsiShape(t: string, p: nat, i: nat, e: nat) {
    && p + 2 <= i < e <= |t|
    && t[p] == '\U{1b}' && t[p + 1] == '['
    && (forall k :: p + 2 <= k < i ==> '0' <= t[k] <= '9' || t[k] == ';' || t[k] == '?')
    && (forall k :: i <= k < e - 1 ==> ' ' <= t[k] <= '/')
    && '@' <= t[e - 1] <= '~'
  }

  /** The first alternative matches t[p..e]. */
  ghost predicate IsCsi(t: string, p: nat, e: nat) {
    exists i: nat :: CsiShape(t, p, i, e)
  }

  /** The second alternative matches t[p..e]. */
  ghost predicate IsOsc(t: string, p: nat, e: nat) {
    && p + 2 < e <= |t|
    && t[p] == '\U{1b}' && t[p + 1] == ']'
    && (|| (t[e - 1] == '\U{07}' && NoBelOrEsc(t, p + 2, e - 1))
        || (p + 3 < e && t[e - 2] == '\U{1b}' && t[e - 1] == '\\' && NoBelOrEsc(t, p + 2, e - 2)))
  }

  ghost predicate NoBelOrEsc(t: string, lo: nat, hi: nat)
    requires hi <= |t|
  {
    forall k :: lo <= k < hi ==> t[k] != '\U{07}' && t[k] != '\U{1b}'
  }

  /** The third alternative matches t[p..e]; the dot of the pattern is any character but a newline. */
  ghost predicate IsPair(t: string, p: nat, e: nat) {
    e == p + 2 <= |t| && t[p] == '\U{1b}' && t[p + 1] != '\n'
  }

  /** Ordered choice: a later alternative is used only where no earlier one matches. */
  ghost predicate Matches(t: string, p: nat, e: nat) {
    || IsCsi(t, p, e)
    || ((forall f: nat :: !IsCsi(t, p, f)) && IsOsc(t, p, e))
    || ((forall f: nat :: !IsCsi(t, p, f)) && (forall f: nat :: !IsOsc(t, p, f)) && IsPair(t, p, e))
  }

  // ------------------------------------------------------------- the pattern, as a matcher

  function ParamsEnd(t: string, i: nat): (j: nat)
    requires i <= |t|
    ensures i <= j <= |t| && (forall k :: i <= k < j ==> IsParam(t[k])) && (j < |t| ==> !IsParam(t[j]))
    decreases |t| - i
  {
    if i < |t| && IsParam(t[i]) then ParamsEnd(t, i + 1) else i
  }

  function IntermEnd(t: string, i: nat): (j: nat)
    requires i <= |t|
    ensures i <= j <= |t| && (forall k :: i <= k < j ==> IsInterm(t[k])) && (j < |t| ==> !IsInterm(t[j]))
    decreases |t| - i
  {
    if i < |t| && IsInterm(t[i]) then IntermEnd(t, i + 1) else i
  }

  function OscBodyEnd(t: string, i: nat): (j: nat)
    requires i <= |t|
    ensures i <= j <= |t| && (forall k :: i <= k < j ==> IsOscBody(t[k])) && (j < |t| ==> !IsOscBody(t[j]))
    decreases |t| - i
  {
    if i < |t| && IsOscBody(t[i]) then OscBodyEnd(t, i + 1) else i
  }

  /** End of a control sequence that starts at p, or 0. */
  function CsiEnd(t: string, p: nat): (e: nat)
    ensures e == 0 || p + 2 < e <= |t|
  {
    if p + 1 < |t| && t[p] == ESC && t[p + 1] == '[' then
      var j := IntermEnd(t, ParamsEnd(t, p + 2));
      if j < |t| && IsFinal(t[j]) then j + 1 else 0
    else 0
  }

  /** End of an operating system command that starts at p, or 0. */
  function OscEnd(t: string, p: nat): (e: nat)
    ensures e == 0 || p + 2 < e <= |t|
  {
    if p + 1 < |t| && t[p] == ESC && t[p + 1] == ']' then
      var j := OscBodyEnd(t, p + 2);
      if j < |t| && t[j] == BEL then j + 1
      else if j + 1 < |t| && t[j + 1] == '\\' then j + 2
      else 0
    else 0
  }

  /** End of the escape that starts at p, or 0 if none does. */
  function MatchEnd(t: string, p: nat): (e: nat)
    ensures e == 0 || p + 2 <= e <= |t|
  {
    if CsiEnd(t, p) > 0 then CsiEnd(t, p)
    else if OscEnd(t, p) > 0 then OscEnd(t, p)
    else if p + 1 < |t| && t[p] == ESC && t[p + 1] != '\n' then p + 2
    else 0
  }

  lemma {:induction false} CsiExact(t: string, p: nat, e: nat)
    ensures IsCsi(t, p, e) <==> e > 0 && CsiEnd(t, p) == e
  {
    if IsCsi(t, p, e) {
      var i: nat :| CsiShape(t, p, i, e);
      assert !IsParam(t[i]) by {
        assert i < e - 1 ==> IsInterm(t[i]);
      }
      assert ParamsEnd(t, p + 2) == i;
      assert IntermEnd(t, i) == e - 1;
    } else if e > 0 && CsiEnd(t, p) == e {
      assert CsiShape(t, p, ParamsEnd(t, p + 2), e);
    }
  }

  lemma {:induction false} OscExact(t: string, p: nat, e: nat)
    ensures IsOsc(t, p, e) <==> e > 0 && OscEnd(t, p) == e
  {
    if IsOsc(t, p, e) {
      var stop := if t[e - 1] == BEL && NoBelOrEsc(t, p + 2, e - 1) then e - 1 else e - 2;
      assert OscBodyEnd(t, p + 2) == stop;
    }
  }

  /** The matcher is the pattern: it ends at e exactly if the ordered choice matches t[p..e]. */
  lemma {:induction false} MatcherIsPattern(t: string, p: nat, e: nat)
    ensures Matches(t, p, e) <==> e > 0 && MatchEnd(t, p) == e
  {
    CsiExact(t, p, e);
    OscExact(t, p, e);
    forall f: nat
      ensures IsCsi(t, p, f) <==> f > 0 && CsiEnd(t, p) == f
      ensures IsOsc(t, p, f) <==> f > 0 && OscEnd(t, p) == f
    {
      CsiExact(t, p, f);
      OscExact(t, p, f);
    }
    assert CsiEnd(t, p) > 0 ==> IsCsi(t, p, CsiEnd(t, p));
    assert OscEnd(t, p) > 0 ==> IsOsc(t, p, OscEnd(t, p));
  }

  // ------------------------------------------------------------------------- colours

  const COLOURS: map<nat, string> := map[
    30 := "#5b6472", 31 := "#e06c75", 32 := "#9bdca0", 33 := "#e6c07b",
    34 := "#7fb4ff", 35 := "#c678dd", 36 := "#56b6c2", 37 := "#c7cedb",
    90 := "#7f8896", 91 := "#ff7b88", 92 := "#b5e8a0", 93 := "#f0d59a",
    94 := "#9bc7ff", 95 := "#d7a3ec", 96 := "#7fd0db", 97 := "#ffffff"
  ]

  function SplitSemicolons(s: string): (parts: seq<string>)
    ensures parts != []
  {
    if s == [] then [""]
    else
      var more := SplitSemicolons(s[1..]);
      if s[0] == ';' then [""] + more else [[s[0]] + more[0]] + more[1..]
  }

  function StripRight(s: string): string {
    if s != [] && s[|s| - 1] == ' ' then StripRight(s[..|s| - 1]) else s
  }

  function StripLeft(s: string): string {
    if s != [] && s[0] == ' ' then StripLeft(s[1..]) else s
  }

  function Digits(s: string): Option<nat> {
    if s == [] || !IsDigit(s[|s| - 1]) then None
    else
      var d := s[|s| - 1] as int - '0' as int;
      if |s| == 1 then Some(d)
      else match Digits(s[..|s| - 1]) case None => None case Some(n) => Some(10 * n + d)
  }

  /** The integer a parameter denotes: surrounding blanks are ignored, and anything but digits is no integer. */
  function ParseCode(part: string): Option<nat> {
    if part == "" then Some(0) else Digits(StripLeft(StripRight(part)))
  }

  /** What one code does to the active colour. */
  function ApplyCode(current: Option<string>, code: Option<nat>): Option<string> {
    match code
    case None => current
    case Some(n) =>
      if n == 0 || n == 39 then None
      else if n in COLOURS then Some(COLOURS[n])
      else current
  }

  function ApplyParts(current: Option<string>, parts: seq<string>): Option<string>
    decreases |parts|
  {
    if parts == [] then current else ApplyParts(ApplyCode(current, ParseCode(parts[0])), parts[1..])
  }

  predicate IsSgr(esc: string) {
    |esc| >= 3 && esc[0] == ESC && esc[1] == '[' && esc[|esc| - 1] == 'm'
  }

  /** The parameters of an SGR sequence (section 8.3.117 of ECMA-48); no parameter means reset. */
  function SgrParts(esc: string): seq<string>
    requires IsSgr(esc)
  {
    var body := esc[2..|esc| - 1];
    if body == [] then ["0"] else SplitSemicolons(body)
  }

  function ApplyEscape(current: Option<string>, esc: string): Option<string> {
    if IsSgr(esc) then ApplyParts(current, SgrParts(esc)) else current
  }

  function Shade(current: Option<string>, default: string): string {
    match current case None => default case Some(c) => c
  }

  // ------------------------------------------------------- reference: one colour per character

  datatype Painted = Painted(c: char, colour: string)

  /** Characters outside escapes, each with the colour that all escapes before it leave active. */
  function Paint(t: string, p: nat, current: Option<string>, default: string): seq<Painted>
    requires p <= |t|
    decreases |t| - p
  {
    if p == |t| then []
    else
      var e := MatchEnd(t, p);
      if e > 0 then Paint(t, e, ApplyEscape(current, t[p..e]), default)
      else [Painted(t[p], Shade(current, default))] + Paint(t, p + 1, current, default)
  }

  /** The colour active at the end. */
  function FinalColour(t: string, p: nat, current: Option<string>): Option<string>
    requires p <= |t|
    decreases |t| - p
  {
    if p == |t| then current
    else
      var e := MatchEnd(t, p);
      if e > 0 then FinalColour(t, e, ApplyEscape(current, t[p..e])) else FinalColour(t, p + 1, current)
  }

  /** The text with exactly the matched escapes erased. */
  function Erase(t: string, p: nat): string
    requires p <= |t|
    decreases |t| - p
  {
    if p == |t| then ""
    else
      var e := MatchEnd(t, p);
      if e > 0 then Erase(t, e) else [t[p]] + Erase(t, p + 1)
  }

  // ------------------------------------------------------------------------- parse_ansi

  datatype Segment = Segment(chunk: string, colour: string)

  /** Start of the first escape at or after pos, or |t|. */
  function NextMatch(t: string, pos: nat): (m: nat)
    requires pos <= |t|
    ensures pos <= m <= |t| && (m < |t| ==> MatchEnd(t, m) > 0)
    ensures forall k :: pos <= k < m ==> MatchEnd(t, k) == 0
    decreases |t| - pos
  {
    if pos == |t| || MatchEnd(t, pos) > 0 then pos else NextMatch(t, pos + 1)
  }

  function TextSegment(t: string, pos: nat, m: nat, colour: string): seq<Segment>
    requires pos <= m <= |t|
  {
    if m > pos then [Segment(t[pos..m], colour)] else []
  }

  function ParseFrom(t: string, pos: nat, current: Option<string>, default: string): seq<Segment>
    requires pos <= |t|
    decreases |t| - pos
  {
    var m := NextMatch(t, pos);
    TextSegment(t, pos, m, Shade(current, default)) +
    if m == |t| then []
    else ParseFrom(t, MatchEnd(t, m), ApplyEscape(current, t[m..MatchEnd(t, m)]), default)
  }

  /** One round of the parsing loop. */
  lemma {:induction false} ParseStep(t: string, pos: nat, current: Option<string>, default: string, before: seq<Segment>)
    requires pos <= |t| && NextMatch(t, pos) < |t|
    ensures var m := NextMatch(t, pos);
            var e := MatchEnd(t, m);
            before + ParseFrom(t, pos, current, default)
            == before + TextSegment(t, pos, m, Shade(current, default)) + ParseFrom(t, e, ApplyEscape(current, t[m..e]), default)
  {
  }

  /** The colour changes of one escape. */
  method ApplySgr(current: Option<string>, esc: string) returns (after: Option<string>)
    ensures after == ApplyEscape(current, esc)
  {
    after := current;
    if IsSgr(esc) {
      var parts := SgrParts(esc);
      var k := 0;
      while k < |parts|
        invariant 0 <= k <= |parts|
        invariant ApplyParts(after, parts[k..]) == ApplyEscape(current, esc)
      {
        assert parts[k..][1..] == parts[k + 1..];
        after := ApplyCode(after, ParseCode(parts[k]));
        k := k + 1;
      }
    }
  }

  method ParseAnsi(text: string, default: string) returns (segments: seq<Segment>)
    ensures segments == ParseFrom(text, 0, None, default)
  {
    segments := [];
    var pos := 0;
    var current: Option<string> := None;
    var m := NextMatch(text, pos);
    ghost var all := ParseFrom(text, 0, None, default);
    assert [] + all == all;
    while m < |text|
      invariant 0 <= pos <= |text| && m == NextMatch(text, pos)
      invariant segments + ParseFrom(text, pos, current, default) == all
      decreases |text| - pos
    {
      ParseStep(text, pos, current, default, segments);
      if m > pos {
        segments := segments + [Segment(text[pos..m], Shade(current, default))];
      } else {
        assert segments + [] == segments;
      }
      pos := MatchEnd(text, m);
      current := ApplySgr(current, text[m..pos]);
      m := NextMatch(text, pos);
    }
    assert ParseFrom(text, pos, current, default) == TextSegment(text, pos, m, Shade(current, default));
    if pos < |text| {
      assert text[pos..m] == text[pos..];
      segments := segments + [Segment(text[pos..], Shade(current, default))];
    }
  }

  // ---------------------------------------------------------------------- its properties

  function Spread(chunk: string, colour: string): seq<Painted> {
    seq(|chunk|, i requires 0 <= i < |chunk| => Painted(chunk[i], colour))
  }

  function SpreadAll(segs: seq<Segment>): seq<Painted> {
    if segs == [] then [] else Spread(segs[0].chunk, segs[0].colour) + SpreadAll(segs[1..])
  }

  function Chunks(segs: seq<Segment>): string {
    if segs == [] then [] else segs[0].chunk + Chunks(segs[1..])
  }

  lemma {:induction false} PaintText(t: string, p: nat, m: nat, current: Option<string>, default: string)
    requires p <= m <= |t| && forall k :: p <= k < m ==> MatchEnd(t, k) == 0
    ensures Paint(t, p, current, default) == Spread(t[p..m], Shade(current, default)) + Paint(t, m, current, default)
    ensures Erase(t, p) == t[p..m] + Erase(t, m)
    decreases m - p
  {
    hide MatchEnd, ApplyEscape, Paint, Erase, Shade;
    var colour := Shade(current, default);
    if p < m {
      hide Spread;
      PaintOne(t, p, current, default);
      PaintText(t, p + 1, m, current, default);
      SpreadFirst(t, p, m, colour);
      var one, more, rest := [Painted(t[p], colour)], Spread(t[p + 1..m], colour), Paint(t, m, current, default);
      assert one + (more + rest) == one + more + rest;
      assert [t[p]] + (t[p + 1..m] + Erase(t, m)) == [t[p]] + t[p + 1..m] + Erase(t, m);
    } else {
      assert t[p..p] == [] && Spread(t[p..p], colour) == [];
    }
  }

  lemma PaintOne(t: string, p: nat, current: Option<string>, default: string)
    requires p < |t| && MatchEnd(t, p) == 0
    ensures Paint(t, p, current, default) == [Painted(t[p], Shade(current, default))] + Paint(t, p + 1, current, default)
    ensures Erase(t, p) == [t[p]] + Erase(t, p + 1)
  {
    hide MatchEnd, ApplyEscape;
  }

  lemma {:induction false} SpreadFirst(t: string, p: nat, m: nat, colour: string)
    requires p < m <= |t|
    ensures t[p..m] == [t[p]] + t[p + 1..m]
    ensures Spread(t[p..m], colour) == [Painted(t[p], colour)] + Spread(t[p + 1..m], colour)
  {
  }

  /** `parse_ansi` refines the reference: no chunk is empty, the chunks concatenate to the text with exactly the
    * matched escapes erased, and every character has the colour of the reference. */
  lemma {:induction false} ParseRefinesPaint(t: string, pos: nat, current: Option<string>, default: string)
    requires pos <= |t|
    ensures forall s :: s in ParseFrom(t, pos, current, default) ==> s.chunk != ""
    ensures Chunks(ParseFrom(t, pos, current, default)) == Erase(t, pos)
    ensures SpreadAll(ParseFrom(t, pos, current, default)) == Paint(t, pos, current, default)
    decreases |t| - pos
  {
    var m := NextMatch(t, pos);
    PaintText(t, pos, m, current, default);
    var head := TextSegment(t, pos, m, Shade(current, default));
    var tail: seq<Segment> := [];
    if m < |t| {
      var e := MatchEnd(t, m);
      var current' := ApplyEscape(current, t[m..e]);
      ParseRefinesPaint(t, e, current', default);
      tail := ParseFrom(t, e, current', default);
    }
    assert ParseFrom(t, pos, current, default) == head + tail;
    if head == [] {
      assert head + tail == tail;
    } else {
      assert (head + tail)[1..] == tail;
    }
  }

  /** The code that decides a colour: the last one that resets or names a colour. */
  ghost predicate Effective(code: Option<nat>) {
    code.Some? && (code.value == 0 || code.value == 39 || code.value in COLOURS)
  }

  /** The active colour is that of the last effective code, however many came before it. */
  lemma {:induction false} LastCodeWins(current: Option<string>, parts: seq<string>, k: nat)
    requires k < |parts| && Effective(ParseCode(parts[k]))
    requires forall j :: k < j < |parts| ==> !Effective(ParseCode(parts[j]))
    ensures ApplyParts(current, parts) == ApplyCode(None, ParseCode(parts[k]))
    decreases |parts|
  {
    var next := ApplyCode(current, ParseCode(parts[0]));
    if k > 0 {
      LastCodeWins(next, parts[1..], k - 1);
    } else {
      forall j | 0 <= j < |parts[1..]| ensures !Effective(ParseCode(parts[1..][j])) {
        assert parts[1..][j] == parts[j + 1];
      }
      NoCodeNoChange(next, parts[1..]);
    }
  }

  lemma {:induction false} NoCodeNoChange(current: Option<string>, parts: seq<string>)
    requires forall j :: 0 <= j < |parts| ==> !Effective(ParseCode(parts[j]))
    ensures ApplyParts(current, parts) == current
  {
    if parts != [] {
      assert !Effective(ParseCode(parts[0]));
      NoCodeNoChange(current, parts[1..]);
    }
  }

  // -------------------------------------------------------------------- parsing in pieces

  /** Position q is reached between two tokens (escapes or single characters) when reading from p. */
  ghost predicate Boundary(t: string, p: nat, q: nat)
    decreases |t| - p
  {
    p == q || (p < q <= |t| && Boundary(t, if MatchEnd(t, p) > 0 then MatchEnd(t, p) else p + 1, q))
  }

  /** b is what t has from n on. */
  ghost predicate SuffixAt(t: string, n: nat, b: string) {
    |t| == n + |b| && forall k :: 0 <= k < |b| ==> t[n + k] == b[k]
  }

  lemma {:induction false} ParamsInPrefix(t: string, a: string, i: nat)
    requires a <= t && i <= |a|
    ensures ParamsEnd(a, i) == if ParamsEnd(t, i) <= |a| then ParamsEnd(t, i) else |a|
    decreases |a| - i
  {
    hide IsParam;
    if i < |a| {
      assert a[i] == t[i];
      ParamsInPrefix(t, a, i + 1);
    }
  }

  lemma {:induction false} IntermInPrefix(t: string, a: string, i: nat)
    requires a <= t && i <= |a|
    ensures IntermEnd(a, i) == if IntermEnd(t, i) <= |a| then IntermEnd(t, i) else |a|
    decreases |a| - i
  {
    hide IsInterm;
    if i < |a| {
      assert a[i] == t[i];
      IntermInPrefix(t, a, i + 1);
    }
  }

  lemma {:induction false} BodyInPrefix(t: string, a: string, i: nat)
    requires a <= t && i <= |a|
    ensures OscBodyEnd(a, i) == if OscBodyEnd(t, i) <= |a| then OscBodyEnd(t, i) else |a|
    decreases |a| - i
  {
    hide IsOscBody;
    if i < |a| {
      assert a[i] == t[i];
      BodyInPrefix(t, a, i + 1);
    }
  }

  lemma {:induction false} ParamsInSuffix(t: string, n: nat, b: string, i: nat)
    requires SuffixAt(t, n, b) && i <= |b|
    ensures ParamsEnd(t, n + i) == n + ParamsEnd(b, i)
    decreases |b| - i
  {
    hide IsParam;
    if i < |b| {
      ParamsInSuffix(t, n, b, i + 1);
    }
  }

  lemma {:induction false} IntermInSuffix(t: string, n: nat, b: string, i: nat)
    requires SuffixAt(t, n, b) && i <= |b|
    ensures IntermEnd(t, n + i) == n + IntermEnd(b, i)
    decreases |b| - i
  {
    hide IsInterm;
    if i < |b| {
      IntermInSuffix(t, n, b, i + 1);
    }
  }

  lemma {:induction false} BodyInSuffix(t: string, n: nat, b: string, i: nat)
    requires SuffixAt(t, n, b) && i <= |b|
    ensures OscBodyEnd(t, n + i) == n + OscBodyEnd(b, i)
    decreases |b| - i
  {
    hide IsOscBody;
    if i < |b| {
      BodyInSuffix(t, n, b, i + 1);
    }
  }

  lemma {:induction false} CsiInPrefix(t: string, a: string, p: nat)
    requires a <= t && p + 1 < |a|
    ensures CsiEnd(a, p) == if CsiEnd(t, p) <= |a| then CsiEnd(t, p) else 0
  {
    hide ParamsEnd, IntermEnd;
    assert a[p] == t[p] && a[p + 1] == t[p + 1];
    ParamsInPrefix(t, a, p + 2);
    IntermInPrefix(t, a, ParamsEnd(a, p + 2));
    hide IsParam, IsInterm, IsFinal;
  }

  lemma {:induction false} OscInPrefix(t: string, a: string, p: nat)
    requires a <= t && p + 1 < |a|
    ensures OscEnd(a, p) == if OscEnd(t, p) <= |a| then OscEnd(t, p) else 0
  {
    hide OscBodyEnd;
    assert a[p] == t[p] && a[p + 1] == t[p + 1];
    BodyInPrefix(t, a, p + 2);
    hide IsOscBody;
  }

  /** An escape inside the first part is found there as well, and none is found that was not there. */
  lemma {:induction false} MatchInPrefix(t: string, a: string, p: nat)
    requires a <= t && p < |a| && MatchEnd(t, p) <= |a|
    ensures MatchEnd(a, p) == MatchEnd(t, p)
  {
    if p + 1 < |a| {
      CsiInPrefix(t, a, p);
      OscInPrefix(t, a, p);
      hide CsiEnd, OscEnd;
      assert a[p] == t[p] && a[p + 1] == t[p + 1];
    }
  }

  lemma {:induction false} CsiInSuffix(t: string, n: nat, b: string, p: nat)
    requires SuffixAt(t, n, b) && p + 1 < |b|
    ensures CsiEnd(t, n + p) == if CsiEnd(b, p) > 0 then n + CsiEnd(b, p) else 0
  {
    hide ParamsEnd, IntermEnd;
    assert t[n + p] == b[p] && t[n + (p + 1)] == b[p + 1];
    ParamsInSuffix(t, n, b, p + 2);
    var i := ParamsEnd(b, p + 2);
    IntermInSuffix(t, n, b, i);
    var j := IntermEnd(b, i);
    assert j < |b| ==> t[n + j] == b[j];
    hide IsParam, IsInterm, IsFinal, SuffixAt;
  }

  lemma {:induction false} OscInSuffix(t: string, n: nat, b: string, p: nat)
    requires SuffixAt(t, n, b) && p + 1 < |b|
    ensures OscEnd(t, n + p) == if OscEnd(b, p) > 0 then n + OscEnd(b, p) else 0
  {
    hide OscBodyEnd;
    assert t[n + p] == b[p] && t[n + (p + 1)] == b[p + 1];
    BodyInSuffix(t, n, b, p + 2);
    var j := OscBodyEnd(b, p + 2);
    assert j < |b| ==> t[n + j] == b[j];
    assert j + 1 < |b| ==> t[n + (j + 1)] == b[j + 1];
  }

  lemma {:induction false} MatchInSuffix(t: string, n: nat, b: string, p: nat)
    requires SuffixAt(t, n, b) && p < |b|
    ensures MatchEnd(t, n + p) == if MatchEnd(b, p) > 0 then n + MatchEnd(b, p) else 0
  {
    assert t[n + p] == b[p];
    if p + 1 < |b| {
      assert t[n + (p + 1)] == b[p + 1];
      CsiInSuffix(t, n, b, p);
      OscInSuffix(t, n, b, p);
      hide CsiEnd, OscEnd;
    }
  }

  lemma {:induction false} PaintSuffix(t: string, n: nat, b: string, p: nat, current: Option<string>, default: string)
    requires SuffixAt(t, n, b) && p <= |b|
    ensures Paint(t, n + p, current, default) == Paint(b, p, current, default)
    ensures FinalColour(t, n + p, current) == FinalColour(b, p, current)
    decreases |b| - p
  {
    hide MatchEnd, ApplyEscape, ParamsEnd;
    if p < |b| {
      MatchInSuffix(t, n, b, p);
      var e := MatchEnd(b, p);
      if e > 0 {
        assert t[n + p..n + e] == b[p..e];
        PaintSuffix(t, n, b, e, ApplyEscape(current, b[p..e]), default);
      } else {
        PaintSuffix(t, n, b, p + 1, current, default);
      }
    }
  }

  lemma {:induction false} PaintPrefix(t: string, a: string, b: string, p: nat, current: Option<string>, default: string)
    requires a <= t && SuffixAt(t, |a|, b) && p <= |a| && Boundary(t, p, |a|)
    ensures Paint(t, p, current, default)
         == Paint(a, p, current, default) + Paint(b, 0, FinalColour(a, p, current), default)
    ensures FinalColour(t, p, current) == FinalColour(b, 0, FinalColour(a, p, current))
    decreases |a| - p
  {
    hide MatchEnd, ApplyEscape, ParamsEnd;
    if p == |a| {
      PaintSuffix(t, |a|, b, 0, current, default);
    } else {
      var e := MatchEnd(t, p);
      BoundaryAhead(t, if e > 0 then e else p + 1, |a|);
      MatchInPrefix(t, a, p);
      if e > 0 {
        assert t[p..e] == a[p..e];
        PaintPrefix(t, a, b, e, ApplyEscape(current, a[p..e]), default);
      } else {
        assert t[p] == a[p];
        PaintPrefix(t, a, b, p + 1, current, default);
      }
    }
  }

  /** Parsing a + b is parsing a and then b from the colour a ends with, whenever no escape straddles the cut. */
  lemma {:induction false} PaintInPieces(a: string, b: string, current: Option<string>, default: string)
    requires Boundary(a + b, 0, |a|)
    ensures Paint(a + b, 0, current, default) == Paint(a, 0, current, default) + Paint(b, 0, FinalColour(a, 0, current), default)
    ensures FinalColour(a + b, 0, current) == FinalColour(b, 0, FinalColour(a, 0, current))
  {
    PaintPrefix(a + b, a, b, 0, current, default);
  }

  lemma {:induction false} BoundaryAhead(t: string, p: nat, q: nat)
    requires Boundary(t, p, q)
    ensures p <= q
  {
  }

  /** The same for the chunks of `parse_ansi`. */
  lemma {:induction false} ParseInPieces(a: string, b: string, default: string)
    requires Boundary(a + b, 0, |a|)
    ensures SpreadAll(ParseFrom(a + b, 0, None, default))
         == SpreadAll(ParseFrom(a, 0, None, default)) + SpreadAll(ParseFrom(b, 0, FinalColour(a, 0, None), default))
  {
    PaintInPieces(a, b, None, default);
    ParseRefinesPaint(a + b, 0, None, default);
    ParseRefinesPaint(a, 0, None, default);
    ParseRefinesPaint(b, 0, FinalColour(a, 0, None), default);
  }

  /** Without that condition it may fail: this escape, cut in two, leaves its second half behind as text. */
  lemma {:induction false} CutEscapeLeavesText()
    ensures Erase([ESC, '['] + ['m'], 0) == ""
    ensures Erase([ESC, '['], 0) + Erase(['m'], 0) == "m"
  {
    var t := [ESC, '['] + ['m'];
    assert ParamsEnd(t, 2) == 2 && IntermEnd(t, 2) == 2;
    assert MatchEnd(t, 0) == 3;
    var a := [ESC, '['];
    assert MatchEnd(a, 0) == 2;
    assert Erase(['m'], 0) == ['m'] + Erase(['m'], 1);
  }

  /** It need not fail: the halves of this escape are escapes, too. */
  lemma {:induction false} HalvesMayBeEscapes()
    ensures !Boundary([ESC, ']'] + [ESC, '\\'], 0, 2)
    ensures Erase([ESC, ']'] + [ESC, '\\'], 0) == "" == Erase([ESC, ']'], 0) + Erase([ESC, '\\'], 0)
  {
    var t := [ESC, ']'] + [ESC, '\\'];
    assert OscBodyEnd(t, 2) == 2;
    assert MatchEnd(t, 0) == 4;
    var a, b := [ESC, ']'], [ESC, '\\'];
    assert MatchEnd(a, 0) == 2 && MatchEnd(b, 0) == 2;
  }
}
