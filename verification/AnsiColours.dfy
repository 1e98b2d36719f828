/** What colour escapes do to a text, said without the functions that `parse_ansi` is built from. */
module AnsiColours {
  import opened Bytes
  import opened Ansi

  // ------------------------------------------------------------------ colour escapes as written

  /** A code as it is written; an empty one stands for 0. */
  type Code = Option<nat>

  function ValueOf(code: Code): nat {
    match code case None => 0 case Some(n) => n
  }

  function ApplyCodes(current: Option<string>, codes: seq<Code>): Option<string>
    decreases |codes|
  {
    if codes == [] then current else ApplyCodes(ApplyCode(current, Some(ValueOf(codes[0]))), codes[1..])
  }

  function Render(n: nat): string {
    var d := ['0' + (n % 10) as char];
    if n < 10 then d else Render(n / 10) + d
  }

  function Written(code: Code): string {
    match code case None => "" case Some(n) => Render(n)
  }

  /** Codes in decimal, separated by semicolons. */
  function Parameters(codes: seq<Code>): string
    requires codes != []
  {
    if |codes| == 1 then Written(codes[0]) else Written(codes[0]) + [';'] + Parameters(codes[1..])
  }

  function Sgr(codes: seq<Code>): string
    requires codes != []
  {
    [ESC, '['] + Parameters(codes) + ['m']
  }

  lemma {:induction false} RenderedDigits(n: nat)
    ensures Render(n) != "" && forall k :: 0 <= k < |Render(n)| ==> IsDigit(Render(n)[k])
  {
    if n >= 10 {
      RenderedDigits(n / 10);
    }
  }

  lemma {:induction false} DigitsOfRender(n: nat)
    ensures Digits(Render(n)) == Some(n)
  {
    var s := Render(n);
    if n >= 10 {
      DigitsOfRender(n / 10);
      RenderedDigits(n / 10);
      assert s[..|s| - 1] == Render(n / 10);
    }
  }

  /** Reading a code gives back the number that was written. */
  lemma {:induction false} CodeRoundTrip(n: nat)
    ensures ParseCode(Render(n)) == Some(n)
  {
    RenderedDigits(n);
    DigitsOfRender(n);
    assert StripRight(Render(n)) == Render(n) == StripLeft(Render(n));
  }

  lemma {:induction false} WrittenRoundTrip(code: Code)
    ensures ParseCode(Written(code)) == Some(ValueOf(code))
    ensures forall k :: 0 <= k < |Written(code)| ==> IsDigit(Written(code)[k])
  {
    if code.Some? {
      CodeRoundTrip(code.value);
      RenderedDigits(code.value);
    }
  }

  lemma {:induction false} SplitFirst(part: string, rest: string)
    requires ';' !in part
    ensures SplitSemicolons(part + [';'] + rest) == [part] + SplitSemicolons(rest)
    ensures SplitSemicolons(part) == [part]
  {
    var s := part + [';'] + rest;
    if part == [] {
      assert s[1..] == rest;
    } else {
      assert s[1..] == part[1..] + [';'] + rest;
      SplitFirst(part[1..], rest);
      assert [part[0]] + part[1..] == part;
    }
  }

  lemma {:induction false} ParametersAreParams(codes: seq<Code>)
    requires codes != []
    ensures forall k :: 0 <= k < |Parameters(codes)| ==> IsParam(Parameters(codes)[k])
  {
    WrittenRoundTrip(codes[0]);
    if |codes| > 1 {
      ParametersAreParams(codes[1..]);
    }
  }

  lemma {:induction false} ApplyParameters(current: Option<string>, codes: seq<Code>)
    requires codes != []
    ensures ApplyParts(current, SplitSemicolons(Parameters(codes))) == ApplyCodes(current, codes)
    decreases |codes|
  {
    hide ApplyCode, ParseCode;
    var part := Written(codes[0]);
    WrittenRoundTrip(codes[0]);
    var next := ApplyCode(current, Some(ValueOf(codes[0])));
    if |codes| == 1 {
      SplitFirst(part, []);
      assert [part][1..] == [];
    } else {
      SplitFirst(part, Parameters(codes[1..]));
      ApplyParameters(next, codes[1..]);
      assert SplitSemicolons(Parameters(codes))[1..] == SplitSemicolons(Parameters(codes[1..]));
    }
  }

  lemma {:induction false} SgrIsMatched(codes: seq<Code>, text: string)
    requires codes != []
    ensures MatchEnd(Sgr(codes) + text, 0) == |Sgr(codes)|
  {
    var esc := Sgr(codes);
    var t := esc + text;
    var n := |esc|;
    ParametersAreParams(codes);
    forall k | 2 <= k < n - 1 ensures IsParam(t[k]) {
      assert t[k] == Parameters(codes)[k - 2];
    }
    assert CsiShape(t, 0, n - 1, n);
    MatcherIsPattern(t, 0, n);
  }

  /** COLOUR ROUND TRIP. Whatever codes are written in front of a text as one escape, the text is coloured as if
    * those codes had been applied one after the other, and nothing of the escape is shown. */
  lemma {:induction false} SgrTakesEffect(codes: seq<Code>, text: string, current: Option<string>, default: string)
    requires codes != []
    ensures Paint(Sgr(codes) + text, 0, current, default) == Paint(text, 0, ApplyCodes(current, codes), default)
  {
    hide MatchEnd, ApplyEscape, Sgr, Paint, ApplyCodes;
    SgrIsMatched(codes, text);
    EscapeApplies(codes, current);
    PaintAfterEscape(Sgr(codes), text, current, default);
  }

  lemma {:induction false} PaintAfterEscape(esc: string, text: string, current: Option<string>, default: string)
    requires esc != "" && MatchEnd(esc + text, 0) == |esc|
    ensures Paint(esc + text, 0, current, default) == Paint(text, 0, ApplyEscape(current, esc), default)
  {
    var t := esc + text;
    assert t[0..|esc|] == esc;
    hide MatchEnd, ApplyEscape;
    assert Paint(t, 0, current, default) == Paint(t, |esc|, ApplyEscape(current, esc), default);
    hide Paint;
    PaintSuffix(t, |esc|, text, 0, ApplyEscape(current, esc), default);
  }

  lemma {:induction false} EscapeApplies(codes: seq<Code>, current: Option<string>)
    requires codes != []
    ensures Sgr(codes) != "" && ApplyEscape(current, Sgr(codes)) == ApplyCodes(current, codes)
  {
    var esc := Sgr(codes);
    assert esc[2..|esc| - 1] == Parameters(codes);
    ApplyParameters(current, codes);
    if Parameters(codes) == "" {
      assert |codes| == 1 && codes[0] == None by {
        if codes[0].Some? { RenderedDigits(codes[0].value); }
      }
      assert SplitSemicolons("") == [""];
      NoParameterIsZero(current);
    }
    hide Parameters, ApplyCodes, ApplyParts, SplitSemicolons;
  }

  /** An escape without parameters is one with the parameter 0. */
  lemma {:induction false} NoParameterIsZero(current: Option<string>)
    ensures ApplyParts(current, ["0"]) == ApplyParts(current, [""])
  {
    assert Render(0) == "0";
    CodeRoundTrip(0);
    assert ["0"][1..] == [] && [""][1..] == [];
  }

  // -------------------------------------------------------------------------- which colour

  /** The codes that decide a colour: reset, default foreground, and the two ranges of foreground colours. */
  predicate Decides(n: nat) {
    n == 0 || n == 39 || 30 <= n <= 37 || 90 <= n <= 97
  }

  lemma {:induction false} TableCodes(n: nat)
    ensures n in COLOURS <==> 30 <= n <= 37 || 90 <= n <= 97
  {
  }

  /** The colour behind codes of which the one at k is the last that decides. */
  ghost function ColourOf(n: nat, default: string): string
    requires Decides(n)
  {
    TableCodes(n);
    if n == 0 || n == 39 then default else COLOURS[n]
  }

  lemma {:induction false} NothingDecided(current: Option<string>, codes: seq<Code>)
    requires forall j :: 0 <= j < |codes| ==> !Decides(ValueOf(codes[j]))
    ensures ApplyCodes(current, codes) == current
    decreases |codes|
  {
    if codes != [] {
      TableCodes(ValueOf(codes[0]));
      assert !Decides(ValueOf(codes[0]));
      forall j | 0 <= j < |codes[1..]| ensures !Decides(ValueOf(codes[1..][j])) {
        assert codes[1..][j] == codes[j + 1];
      }
      hide COLOURS;
      NothingDecided(current, codes[1..]);
    }
  }

  lemma {:induction false} LastDecides(current: Option<string>, codes: seq<Code>, k: nat, default: string)
    requires k < |codes| && Decides(ValueOf(codes[k]))
    requires forall j :: k < j < |codes| ==> !Decides(ValueOf(codes[j]))
    ensures Shade(ApplyCodes(current, codes), default) == ColourOf(ValueOf(codes[k]), default)
    decreases |codes|
  {
    var next := ApplyCode(current, Some(ValueOf(codes[0])));
    TableCodes(ValueOf(codes[0]));
    forall j | 0 <= j < |codes[1..]| ensures codes[1..][j] == codes[j + 1] {
    }
    hide COLOURS;
    if k > 0 {
      LastDecides(next, codes[1..], k - 1, default);
    } else {
      NothingDecided(next, codes[1..]);
    }
  }

  lemma {:induction false} PlainText(text: string, current: Option<string>, default: string)
    requires '\U{1b}' !in text
    ensures Paint(text, 0, current, default) == Spread(text, Shade(current, default))
    ensures forall k :: 0 <= k < |text| ==> MatchEnd(text, k) == 0
  {
    forall k | 0 <= k < |text| ensures MatchEnd(text, k) == 0 {
      assert text[k] in text;
    }
    hide MatchEnd;
    PaintText(text, 0, |text|, current, default);
    assert text[0..|text|] == text;
    assert Paint(text, |text|, current, default) == [];
    hide Spread, Shade, Paint;
    var all := Spread(text, Shade(current, default));
    assert all + [] == all;
  }

  /** COLOUR of a text behind an escape, whatever colour was active before: reset and default foreground give the
    * default colour, the other codes that decide give the colour of the table, and the last one of them counts. */
  lemma {:induction false} EscapeDecides(codes: seq<Code>, k: nat, text: string, current: Option<string>, default: string)
    requires k < |codes| && Decides(ValueOf(codes[k])) && forall j :: k < j < |codes| ==> !Decides(ValueOf(codes[j]))
    requires '\U{1b}' !in text
    ensures Paint(Sgr(codes) + text, 0, current, default) == Spread(text, ColourOf(ValueOf(codes[k]), default))
  {
    hide Paint, Sgr, Spread, ApplyCodes, ColourOf, Decides;
    SgrTakesEffect(codes, text, current, default);
    LastDecides(current, codes, k, default);
    PlainText(text, ApplyCodes(current, codes), default);
  }

  /** `ESC [ m` resets, and so does every escape whose last deciding code is 0, 39 or empty. */
  lemma {:induction false} ResetResets(text: string, current: Option<string>, default: string)
    requires '\U{1b}' !in text
    ensures Paint("\U{1b}[m" + text, 0, current, default) == Spread(text, default)
    ensures Paint("\U{1b}[0m" + text, 0, current, default) == Spread(text, default)
    ensures Paint("\U{1b}[39m" + text, 0, current, default) == Spread(text, default)
    ensures Paint("\U{1b}[31;m" + text, 0, current, default) == Spread(text, default)
  {
    hide Paint, Spread;
    EscapeDecides([None], 0, text, current, default);
    EscapeDecides([Some(0)], 0, text, current, default);
    EscapeDecides([Some(39)], 0, text, current, default);
    EscapeDecides([Some(31), None], 1, text, current, default);
    WrittenCodes();
  }

  lemma {:induction false} WrittenCodes()
    ensures Sgr([None]) == "\U{1b}[m" && Sgr([Some(0)]) == "\U{1b}[0m" && Sgr([Some(39)]) == "\U{1b}[39m"
    ensures Sgr([Some(31)]) == "\U{1b}[31m" && Sgr([Some(31), None]) == "\U{1b}[31;m"
  {
    assert Render(3) == "3" && Render(39) == "39" && Render(31) == "31" && Render(0) == "0";
    var codes := [Some(31), None];
    assert codes[1..] == [None];
  }

  /** Codes that do not decide leave the colour as it was. */
  lemma {:induction false} OtherCodesChangeNothing(codes: seq<Code>, text: string, current: Option<string>, default: string)
    requires codes != [] && forall j :: 0 <= j < |codes| ==> !Decides(ValueOf(codes[j]))
    ensures Paint(Sgr(codes) + text, 0, current, default) == Paint(text, 0, current, default)
  {
    hide Paint, Sgr, ApplyCodes;
    SgrTakesEffect(codes, text, current, default);
    NothingDecided(current, codes);
  }

  /** Neither do escapes that are not SGR sequences; they are dropped. */
  lemma {:induction false} OtherEscapesChangeNothing(esc: string, text: string, current: Option<string>, default: string)
    requires |esc| >= 2 && MatchEnd(esc + text, 0) == |esc| && (esc[1] != '[' || esc[|esc| - 1] != 'm')
    ensures Paint(esc + text, 0, current, default) == Paint(text, 0, current, default)
  {
    hide MatchEnd, Paint;
    PaintAfterEscape(esc, text, current, default);
  }

  // ------------------------------------------------------------------- what a parameter is

  /** Blanks around the digits of a parameter do not matter. */
  lemma {:induction false} PaddedCode(left: string, n: nat, right: string)
    requires (forall k :: 0 <= k < |left| ==> left[k] == ' ') && (forall k :: 0 <= k < |right| ==> right[k] == ' ')
    ensures ParseCode(left + Render(n) + right) == Some(n)
  {
    RenderedDigits(n);
    DigitsOfRender(n);
    StripsRight(left + Render(n), right);
    StripsLeft(left, Render(n));
  }

  lemma {:induction false} StripsRight(s: string, right: string)
    requires s != "" && s[|s| - 1] != ' ' && forall k :: 0 <= k < |right| ==> right[k] == ' '
    ensures StripRight(s + right) == s
    decreases |right|
  {
    var all := s + right;
    if right == "" {
      assert all == s;
    } else {
      assert all[..|all| - 1] == s + right[..|right| - 1];
      StripsRight(s, right[..|right| - 1]);
    }
  }

  lemma {:induction false} StripsLeft(left: string, s: string)
    requires s != "" && s[0] != ' ' && forall k :: 0 <= k < |left| ==> left[k] == ' '
    ensures StripLeft(left + s) == s
    decreases |left|
  {
    var all := left + s;
    if left == "" {
      assert all == s;
    } else {
      assert all[1..] == left[1..] + s;
      StripsLeft(left[1..], s);
    }
  }

  /** A parameter with any character that is neither a digit nor a blank is no code, and is skipped. */
  lemma {:induction false} NoCode(part: string, k: nat)
    requires k < |part| && !('0' <= part[k] <= '9') && part[k] != ' '
    ensures ParseCode(part) == None
  {
    var s := StripRight(part);
    var j := KeptRight(part, k);
    var i := KeptLeft(s, j);
    NotDigits(StripLeft(s), i);
  }

  lemma {:induction false} KeptRight(s: string, k: nat) returns (j: nat)
    requires k < |s| && s[k] != ' '
    ensures j < |StripRight(s)| && StripRight(s)[j] == s[k]
  {
    if s[|s| - 1] == ' ' {
      j := KeptRight(s[..|s| - 1], k);
    } else {
      j := k;
    }
  }

  lemma {:induction false} KeptLeft(s: string, k: nat) returns (j: nat)
    requires k < |s| && s[k] != ' '
    ensures j < |StripLeft(s)| && StripLeft(s)[j] == s[k]
  {
    if s[0] == ' ' {
      j := KeptLeft(s[1..], k - 1);
    } else {
      j := k;
    }
  }

  lemma {:induction false} NotDigits(s: string, k: nat)
    requires k < |s| && !('0' <= s[k] <= '9')
    ensures Digits(s) == None
  {
    if k < |s| - 1 {
      NotDigits(s[..|s| - 1], k);
    }
  }

  // -------------------------------------------------------------------------- the chunks

  /** A text without escapes is one chunk. */
  lemma {:induction false} PlainTextIsOneChunk(text: string, current: Option<string>, default: string)
    requires '\U{1b}' !in text && text != ""
    ensures ParseFrom(text, 0, current, default) == [Segment(text, Shade(current, default))]
  {
    PlainText(text, current, default);
    hide MatchEnd;
    assert NextMatch(text, 0) == |text|;
    assert text[0..|text|] == text;
  }

  /** A coloured text, a reset and another text come out as two chunks. */
  lemma {:induction false} ColourAndReset(first: string, second: string, default: string)
    requires '\U{1b}' !in first && '\U{1b}' !in second && first != "" && second != ""
    ensures var text := "\U{1b}[31m" + (first + ("\U{1b}[0m" + second));
            SpreadAll(ParseFrom(text, 0, None, default)) == Spread(first, "#e06c75") + Spread(second, default)
  {
    hide Paint, Spread, SpreadAll, ParseFrom, ApplyCodes, Boundary;
    var rest := "\U{1b}[0m" + second;
    WrittenCodes();
    var red := ApplyCodes(None, [Some(31)]);
    ParseRefinesPaint("\U{1b}[31m" + (first + rest), 0, None, default);
    SgrTakesEffect([Some(31)], first + rest, None, default);
    LastDecides(None, [Some(31)], 0, default);
    TextBeforeEscape(first, rest, red, default);
    ResetResets(second, red, default);
  }

  lemma {:induction false} TextBeforeEscape(text: string, rest: string, current: Option<string>, default: string)
    requires '\U{1b}' !in text
    ensures Paint(text + rest, 0, current, default) == Spread(text, Shade(current, default)) + Paint(rest, 0, current, default)
  {
    var t := text + rest;
    forall k | 0 <= k < |text| ensures MatchEnd(t, k) == 0 {
      assert t[k] == text[k] && text[k] in text;
    }
    assert SuffixAt(t, |text|, rest);
    hide MatchEnd, Paint, Spread, SuffixAt;
    PaintText(t, 0, |text|, current, default);
    assert t[0..|text|] == text;
    PaintSuffix(t, |text|, rest, 0, current, default);
  }
}
