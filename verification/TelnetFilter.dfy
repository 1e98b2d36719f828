/** Removal of Telnet option negotiation from a byte string (section "TELNET COMMAND STRUCTURE" of RFC 854). */
module TelnetFilter {
  import opened Bytes

  const IAC: byte := 0xff

  /** WILL, WONT, DO or DONT. */
  predicate IsVerb(b: byte) {
    b == 0xfb || b == 0xfc || b == 0xfd || b == 0xfe
  }

  predicate CommandAt(d: bytes, i: nat) {
    i + 2 < |d| && d[i] == IAC && IsVerb(d[i + 1])
  }

  /** What is kept from position i on. */
  function StripFrom(d: bytes, i: nat): (r: bytes)
    requires i <= |d|
    decreases |d| - i
  {
    if i == |d| then []
    else if CommandAt(d, i) then StripFrom(d, i + 3)
    else [d[i]] + StripFrom(d, i + 1)
  }

  method StripTelnetCommands(data: bytes) returns (result: bytes)
    ensures result == StripFrom(data, 0)
  {
    result := [];
    var i := 0;
    while i < |data|
      invariant 0 <= i <= |data|
      invariant result + StripFrom(data, i) == StripFrom(data, 0)
    {
      if data[i] == IAC && i + 2 < |data| && IsVerb(data[i + 1]) {
        i := i + 3;
      } else {
        result := result + [data[i]];
        i := i + 1;
      }
    }
  }

  // ---------------------------------------------------------------- inverse of negotiation

  type Verb = b: byte | 0xfb <= b <= 0xfe witness 0xfb
  type Plain = b: byte | b != 0xff witness 0

  datatype Item = Data(b: Plain) | Command(verb: Verb, option: byte)

  /** Data and commands as they go over the wire. */
  function Encode(items: seq<Item>): bytes {
    if items == [] then []
    else
      (match items[0]
       case Data(b) => [b]
       case Command(verb, option) => [0xff, verb, option]) + Encode(items[1..])
  }

  function DataOf(items: seq<Item>): bytes {
    if items == [] then []
    else (match items[0] case Data(b) => [b as byte] case Command(_, _) => []) + DataOf(items[1..])
  }

  /** What follows position n decides what is kept after it. */
  lemma {:induction false} StripSuffix(d: bytes, n: nat, b: bytes, i: nat)
    requires n <= |d| && d[n..] == b && i <= |b|
    ensures StripFrom(d, n + i) == StripFrom(b, i)
    decreases |b| - i
  {
    if i < |b| {
      assert forall k :: i <= k < |b| ==> d[n + k] == b[k];
      StripSuffix(d, n, b, if CommandAt(b, i) then i + 3 else i + 1);
    }
  }

  /** For every interleaving of data with complete commands, whatever their options, exactly the data is kept. */
  lemma {:induction false} StripInvertsNegotiation(items: seq<Item>)
    ensures StripFrom(Encode(items), 0) == DataOf(items)
  {
    if items != [] {
      var d := Encode(items);
      var n := if items[0].Data? then 1 else 3;
      assert d[n..] == Encode(items[1..]);
      StripInvertsNegotiation(items[1..]);
      StripSuffix(d, n, Encode(items[1..]), 0);
    }
  }

  lemma {:induction false} StripLength(d: bytes, i: nat)
    requires i <= |d|
    ensures |StripFrom(d, i)| <= |d| - i
    ensures (|d| - i - |StripFrom(d, i)|) % 3 == 0
    decreases |d| - i
  {
    if i < |d| {
      StripLength(d, if CommandAt(d, i) then i + 3 else i + 1);
    }
  }

  ghost predicate NoCommandFrom(d: bytes, i: nat) {
    forall j: nat :: i <= j ==> !CommandAt(d, j)
  }

  /** On any input whole commands are removed, and nothing is removed exactly if there is no command. */
  lemma {:induction false} StripRemovesTriples(d: bytes)
    ensures (|d| - |StripFrom(d, 0)|) % 3 == 0
    ensures StripFrom(d, 0) == d <==> forall i: nat :: i + 2 < |d| && d[i] == 0xff ==> !(0xfb <= d[i + 1] <= 0xfe)
  {
    StripLength(d, 0);
    StripKeepsAll(d, 0);
    if NoCommandFrom(d, 0) {
      NothingToStrip(d, 0);
    }
    assert forall i: nat :: CommandAt(d, i) <==> i + 2 < |d| && d[i] == 0xff && 0xfb <= d[i + 1] <= 0xfe;
  }

  lemma {:induction false} StripKeepsAll(d: bytes, i: nat)
    requires i <= |d|
    ensures |StripFrom(d, i)| == |d| - i <==> NoCommandFrom(d, i)
    decreases |d| - i
  {
    if i < |d| {
      assert NoCommandFrom(d, i) <==> !CommandAt(d, i) && NoCommandFrom(d, i + 1);
      hide NoCommandFrom;
      if CommandAt(d, i) {
        StripLength(d, i + 3);
      } else {
        StripKeepsAll(d, i + 1);
      }
      hide CommandAt;
    }
  }

  lemma {:induction false} NothingToStrip(d: bytes, i: nat)
    requires i <= |d| && NoCommandFrom(d, 0)
    ensures StripFrom(d, i) == d[i..]
    decreases |d| - i
  {
    if i < |d| {
      NothingToStrip(d, i + 1);
    }
  }

  // ----------------------------------------------------------------------- cut streams

  /** No command reaches across position n when reading from i. */
  ghost predicate Boundary(d: bytes, i: nat, n: nat)
    decreases |d| - i
  {
    i == n || (i < n <= |d| && Boundary(d, if CommandAt(d, i) then i + 3 else i + 1, n))
  }

  /** A command that reaches across the cut leaves bytes behind that the whole string would not have left. */
  lemma {:induction false} StraddleDiffers(d: bytes, n: nat, b: bytes, i: nat)
    requires n <= |d| && d[n..] == b && i < n < i + 3 && CommandAt(d, i)
    ensures StripFrom(d, i) != d[i..n] + StripFrom(b, 0)
  {
    StripSuffix(d, n, b, i + 3 - n);
    var whole := StripFrom(b, i + 3 - n);
    assert StripFrom(d, i) == whole;
    if i + 2 == n {
      // the verb is in front of the cut
      assert b[0] == d[n];
      if CommandAt(b, 0) {
        assert whole[0] == b[1] != IAC;
      } else {
        assert StripFrom(b, 0) == [b[0]] + whole;
      }
    } else {
      assert b[0] == d[n] && b[1] == d[n + 1];
      assert StripFrom(b, 0) == [b[0]] + StripFrom(b, 1);
      if CommandAt(b, 1) {
        assert whole[0] == b[2] != IAC;
      } else {
        assert StripFrom(b, 1) == [b[1]] + whole;
      }
    }
  }

  lemma {:induction false} StripCut(d: bytes, a: bytes, b: bytes, i: nat)
    requires a <= d && d[|a|..] == b && i <= |a|
    ensures StripFrom(d, i) == StripFrom(a, i) + StripFrom(b, 0) <==> Boundary(d, i, |a|)
    decreases |a| - i
  {
    if i == |a| {
      StripSuffix(d, |a|, b, 0);
      assert [] + StripFrom(b, 0) == StripFrom(b, 0);
    } else {
      assert forall k :: i <= k < |a| ==> a[k] == d[k];
      if CommandAt(d, i) && i + 3 > |a| {
        StraddleDiffers(d, |a|, b, i);
        NoCommandInTail(a, i);
        assert a[i..] == d[i..|a|];
      } else if CommandAt(d, i) {
        StripCut(d, a, b, i + 3);
      } else {
        StripCut(d, a, b, i + 1);
        assert !CommandAt(a, i);
        assert StripFrom(a, i) == [a[i]] + StripFrom(a, i + 1) && StripFrom(d, i) == [a[i]] + StripFrom(d, i + 1);
        assert Boundary(d, i, |a|) <==> Boundary(d, i + 1, |a|);
        Cancel([a[i]], StripFrom(d, i + 1), StripFrom(a, i + 1), StripFrom(b, 0));
      }
    }
  }

  lemma {:induction false} NoCommandInTail(a: bytes, i: nat)
    requires i <= |a| < i + 3
    ensures StripFrom(a, i) == a[i..]
    decreases |a| - i
  {
    if i < |a| {
      NoCommandInTail(a, i + 1);
    }
  }

  /** Stripping two received blocks separately gives what stripping them together gives exactly if no command
    * is cut in two by the block boundary. */
  lemma {:induction false} StripInBlocks(a: bytes, b: bytes)
    ensures StripFrom(a + b, 0) == StripFrom(a, 0) + StripFrom(b, 0) <==> Boundary(a + b, 0, |a|)
  {
    StripCut(a + b, a, b, 0);
  }
}
