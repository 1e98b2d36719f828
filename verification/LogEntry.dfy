/** The lines of the command line service's traffic log, and how to read them back. */
module LogEntry {
  import opened Bytes

  const HEX := "0123456789abcdef"
  const DEC := "0123456789"

  function Hex2(b: byte): string {
    [HEX[b as int / 16], HEX[b as int % 16]]
  }

  /** Two hex digits per byte, separated by single blanks. */
  function HexPart(data: bytes): string {
    if data == [] then ""
    else if |data| == 1 then Hex2(data[0])
    else Hex2(data[0]) + " " + HexPart(data[1..])
  }

  function AsciiOf(b: byte): char {
    if 32 <= b < 127 then b as int as char else '.'
  }

  function AsciiPart(data: bytes): string {
    seq(|data|, i requires 0 <= i < |data| => AsciiOf(data[i]))
  }

  function Decimal(n: nat): string {
    if n < 10 then [DEC[n]] else Decimal(n / 10) + [DEC[n % 10]]
  }

  function Format(ts: string, direction: string, data: bytes): string {
    "[" + ts + "] " + direction + " " + Decimal(|data|) + ": " + HexPart(data) + " | " + AsciiPart(data) + "\n"
  }

  // -------------------------------------------------------------------------- reading back

  function IndexOf(c: char, s: string): (i: nat)
    requires s != []
    ensures i < |s|
  {
    if s[0] == c || |s| == 1 then 0 else 1 + IndexOf(c, s[1..])
  }

  /** What follows the first occurrence of c. */
  function After(c: char, s: string): string {
    if s == [] then [] else s[IndexOf(c, s) + 1..]
  }

  function DigitValue(c: char): nat {
    if '0' <= c <= '9' then c as int - '0' as int
    else if 'a' <= c <= 'f' then c as int - 'a' as int + 10
    else 0
  }

  /** The number a leading run of decimal digits denotes. */
  function LeadingNumber(s: string, acc: nat): nat {
    if s != [] && '0' <= s[0] <= '9' then LeadingNumber(s[1..], 10 * acc + DigitValue(s[0])) else acc
  }

  /** n bytes from hex digit pairs that are three places apart. */
  function ReadHex(s: string, n: nat): Option<bytes>
    decreases n
  {
    if n == 0 then Some([])
    else if |s| < 2 then None
    else
      var b := (16 * DigitValue(s[0]) + DigitValue(s[1])) % 256;
      var more := ReadHex(if |s| >= 3 then s[3..] else [], n - 1);
      match more
      case None => None
      case Some(bs) => Some([b as byte] + bs)
  }

  /** What precedes the first occurrence of c. */
  function Before(c: char, s: string): string {
    if s == [] then [] else s[..IndexOf(c, s)]
  }

  datatype Fields = Fields(timestamp: string, direction: string, length: nat, data: Option<bytes>, text: string)

  /** Reads a log line: the time stamp in its brackets, the direction, the length, the hex field, and the text field
    * that reaches from behind the bar to the end of the line. */
  function ReadBack(entry: string): Fields {
    var ts := Before(']', entry);
    var afterTs := After(' ', After(']', entry));
    var fields := After(' ', afterTs);
    var n := LeadingNumber(fields, 0);
    var text := After(' ', After('|', fields));
    Fields(if ts == "" then "" else ts[1..], Before(' ', afterTs), n, ReadHex(After(' ', fields), n), Before('\n', text))
  }

  lemma {:induction false} AfterSkips(c: char, a: string, s: string)
    requires c !in a
    ensures After(c, a + [c] + s) == s
  {
    var t := a + [c] + s;
    if a == [] {
      assert t[0] == c && t[1..] == s;
    } else {
      assert t[0] == a[0] && t[1..] == a[1..] + [c] + s;
      AfterSkips(c, a[1..], s);
      assert t[1..][IndexOf(c, t[1..]) + 1..] == t[IndexOf(c, t) + 1..];
    }
  }

  lemma {:induction false} BeforeStops(c: char, a: string, s: string)
    requires c !in a
    ensures Before(c, a + [c] + s) == a
  {
    var t := a + [c] + s;
    if a == [] {
      assert t[0] == c;
    } else {
      assert t[0] == a[0] && t[1..] == a[1..] + [c] + s;
      BeforeStops(c, a[1..], s);
      assert t[1..][..IndexOf(c, t[1..])] == a[1..];
      assert t[..IndexOf(c, t)] == [a[0]] + a[1..];
    }
  }

  lemma {:induction false} DigitFacts(d: nat)
    requires d < 16
    ensures DigitValue(HEX[d]) == d
    ensures d < 10 ==> HEX[d] == DEC[d] && '0' <= DEC[d] <= '9'
  {
  }

  lemma {:induction false} DecimalIsDigits(n: nat)
    ensures forall k :: 0 <= k < |Decimal(n)| ==> '0' <= Decimal(n)[k] <= '9'
    decreases n
  {
    DigitFacts(n % 10);
    if n >= 10 {
      DecimalIsDigits(n / 10);
    }
  }

  lemma {:induction false} LeadingAppend(a: string, d: char, rest: string, acc: nat)
    requires (forall k :: 0 <= k < |a| ==> '0' <= a[k] <= '9') && '0' <= d <= '9'
    ensures LeadingNumber(a + [d] + rest, acc) == LeadingNumber([d] + rest, LeadingNumber(a, acc))
    decreases |a|
  {
    var s := a + [d] + rest;
    if a == [] {
      assert s == [d] + rest;
    } else {
      assert s[1..] == a[1..] + [d] + rest;
      LeadingAppend(a[1..], d, rest, 10 * acc + DigitValue(a[0]));
    }
  }

  lemma {:induction false} ReadsDecimal(n: nat, rest: string)
    requires rest == [] || !('0' <= rest[0] <= '9')
    ensures LeadingNumber(Decimal(n) + rest, 0) == n
    decreases n
  {
    var d := DEC[n % 10];
    DigitFacts(n % 10);
    assert ([d] + rest)[1..] == rest;
    if n >= 10 {
      ReadsDecimal(n / 10, []);
      assert Decimal(n / 10) + [] == Decimal(n / 10);
      DecimalIsDigits(n / 10);
      LeadingAppend(Decimal(n / 10), d, rest, 0);
    }
  }

  lemma {:induction false} ReadsByte(b: byte, s: string, n: nat)
    requires ReadHex(if s != [] then s[1..] else [], n).Some?
    ensures ReadHex(Hex2(b) + s, n + 1) == Some([b] + ReadHex(if s != [] then s[1..] else [], n).value)
  {
    DigitFacts(b as int / 16);
    DigitFacts(b as int % 16);
    var t := Hex2(b) + s;
    assert (if |t| >= 3 then t[3..] else []) == if s != [] then s[1..] else [];
    assert 16 * DigitValue(t[0]) + DigitValue(t[1]) == b as int;
  }

  lemma {:induction false} ReadsHex(data: bytes, rest: string)
    ensures ReadHex(HexPart(data) + rest, |data|) == Some(data)
  {
    hide Hex2;
    if |data| == 1 {
      ReadsByte(data[0], rest, 0);
      assert [data[0]] + [] == data;
    } else if data != [] {
      ReadsHex(data[1..], rest);
      var more := " " + (HexPart(data[1..]) + rest);
      assert more[1..] == HexPart(data[1..]) + rest;
      ReadsByte(data[0], more, |data| - 1);
      assert Hex2(data[0]) + more == HexPart(data) + rest;
      assert [data[0]] + data[1..] == data;
    }
  }

  lemma {:induction false} HexDigits(data: bytes)
    ensures forall k :: 0 <= k < |HexPart(data)| ==> HexPart(data)[k] == ' ' || HexPart(data)[k] in HEX
  {
    if |data| > 1 {
      HexDigits(data[1..]);
    }
  }

  /** What stands before the bar. */
  lemma {:induction false} NoBarBefore(data: bytes)
    ensures '|' !in Decimal(|data|) + ": " + HexPart(data) + " "
    ensures '\n' !in AsciiPart(data)
  {
    DecimalIsDigits(|data|);
    HexDigits(data);
    assert '|' !in HEX;
    hide Decimal, HexPart;
    assert '|' !in Decimal(|data|) && '|' !in HexPart(data);
  }

  /** Whatever the bytes, every field of a log line can be read back: time stamp, direction, length, the bytes from
    * the hex field, and a text field with one printable character per byte. The time stamp has no ']' and the
    * direction no blank. */
  lemma {:induction false} ReadsBack(ts: string, direction: string, data: bytes)
    requires ']' !in ts && ' ' !in direction
    ensures ReadBack(Format(ts, direction, data)) == Fields(ts, direction, |data|, Some(data), AsciiPart(data))
    ensures |AsciiPart(data)| == |data|
    ensures forall k :: 0 <= k < |data| ==>
              (if 32 <= data[k] < 127 then AsciiPart(data)[k] as int == data[k] as int else AsciiPart(data)[k] == '.')
  {
    hide After, Before, Decimal, HexPart, ReadHex, LeadingNumber, AsciiPart;
    var n, hex, text := Decimal(|data|), HexPart(data), AsciiPart(data);
    var fields := n + ": " + hex + " | " + text + "\n";
    SkipToFields(ts, direction, n, hex, text);
    assert fields == n + (": " + hex + " | " + text + "\n");
    ReadsDecimal(|data|, ": " + hex + " | " + text + "\n");
    ReadsFields(data);
    AsciiFacts(data);
  }

  lemma AsciiFacts(data: bytes)
    ensures |AsciiPart(data)| == |data|
    ensures forall k :: 0 <= k < |data| ==>
              (if 32 <= data[k] < 127 then AsciiPart(data)[k] as int == data[k] as int else AsciiPart(data)[k] == '.')
  {
  }

  lemma {:induction false} ReadsFields(data: bytes)
    ensures var fields := Decimal(|data|) + ": " + HexPart(data) + " | " + AsciiPart(data) + "\n";
            && ReadHex(After(' ', fields), |data|) == Some(data)
            && Before('\n', After(' ', After('|', fields))) == AsciiPart(data)
  {
    hide After, Before, Decimal, HexPart, ReadHex, AsciiPart;
    var n, hex, text := Decimal(|data|), HexPart(data), AsciiPart(data);
    var fields := n + ": " + hex + " | " + text + "\n";
    DecimalIsDigits(|data|);
    assert fields == (n + ":") + [' '] + (hex + (" | " + text + "\n"));
    AfterSkips(' ', n + ":", hex + (" | " + text + "\n"));
    ReadsHex(data, " | " + text + "\n");
    NoBarBefore(data);
    assert fields == (n + ": " + hex + " ") + ['|'] + (" " + text + "\n");
    AfterSkips('|', n + ": " + hex + " ", " " + text + "\n");
    assert " " + text + "\n" == [] + [' '] + (text + "\n");
    AfterSkips(' ', [], text + "\n");
    assert text + "\n" == text + ['\n'] + [];
    BeforeStops('\n', text, []);
  }

  lemma {:induction false} SkipToFields(ts: string, direction: string, n: string, hex: string, text: string)
    requires ']' !in ts && ' ' !in direction
    ensures var entry := "[" + ts + "] " + direction + " " + n + ": " + hex + " | " + text + "\n";
            && Before(']', entry) == "[" + ts
            && Before(' ', After(' ', After(']', entry))) == direction
            && After(' ', After(' ', After(']', entry))) == n + ": " + hex + " | " + text + "\n"
  {
    hide After, Before;
    var fields := n + ": " + hex + " | " + text + "\n";
    var entry := "[" + ts + "] " + direction + " " + n + ": " + hex + " | " + text + "\n";
    var one := [' '] + (direction + [' '] + fields);
    assert entry == ("[" + ts) + [']'] + one;
    AfterSkips(']', "[" + ts, one);
    BeforeStops(']', "[" + ts, one);
    assert one == [] + [' '] + (direction + [' '] + fields);
    AfterSkips(' ', [], direction + [' '] + fields);
    AfterSkips(' ', direction, fields);
    BeforeStops(' ', direction, fields);
  }
}
