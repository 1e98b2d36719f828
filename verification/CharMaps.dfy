/** The character maps of the command line service. */
module CharMaps {
  import opened Bytes

  datatype Direction = Input | Output

  datatype CharMap = CharMap(direction: Direction, src: bytes, dst: bytes)

  const CHAR_MAPS: map<string, CharMap> := map[
    "INLCRNL" := CharMap(Input, [LF], [CR, LF]),
    "ICRNL" := CharMap(Input, [CR], [LF]),
    "IGNCR" := CharMap(Input, [CR], []),
    "IGNLF" := CharMap(Input, [LF], []),
    "OCRNULNL" := CharMap(Output, [CR, 0], [LF]),
    "OCRNLNL" := CharMap(Output, [CR, LF], [LF]),
    "ONLCRNL" := CharMap(Output, [LF], [CR, LF]),
    "ONLCR" := CharMap(Output, [LF], [CR]),
    "OCRNL" := CharMap(Output, [CR], [LF]),
    "ODELBS" := CharMap(Output, [0x7f], [0x08]),
    "OBSDEL" := CharMap(Output, [0x08], [0x7f])
  ]

  /** Every occurrence of src, found from left to right without overlaps, becomes dst. */
  function Replace(d: bytes, src: bytes, dst: bytes): bytes
    requires src != []
    decreases |d|
  {
    if d == [] then []
    else if src <= d then dst + Replace(d[|src|..], src, dst)
    else [d[0]] + Replace(d[1..], src, dst)
  }

  datatype Pair = Pair(src: bytes, dst: bytes)

  type Maps = maps: seq<Pair> | forall m :: m in maps ==> m.src != []

  function ApplyMaps(data: bytes, maps: Maps): bytes
    decreases |maps|
  {
    if maps == [] then data else ApplyMaps(Replace(data, maps[0].src, maps[0].dst), maps[1..])
  }

  method ApplyMapsInOrder(data: bytes, maps: Maps) returns (result: bytes)
    ensures result == ApplyMaps(data, maps)
  {
    result := data;
    var k := 0;
    while k < |maps|
      invariant 0 <= k <= |maps|
      invariant ApplyMaps(result, maps[k..]) == ApplyMaps(data, maps)
    {
      assert maps[k..][1..] == maps[k + 1..];
      result := Replace(result, maps[k].src, maps[k].dst);
      k := k + 1;
    }
  }

  // -------------------------------------------------------------- what replacing means

  /** The parts with a separator between them. */
  function Joined(parts: seq<bytes>, sep: bytes): bytes {
    if parts == [] then [] else if |parts| == 1 then parts[0] else parts[0] + sep + Joined(parts[1..], sep)
  }

  predicate OccursAt(d: bytes, src: bytes, k: nat) {
    k + |src| <= |d| && d[k..k + |src|] == src
  }

  ghost predicate NowhereIn(d: bytes, src: bytes) {
    forall k: nat :: !OccursAt(d, src, k)
  }

  /** Cut at the occurrences of src that are found from left to right: in front of a cut there is no earlier
    * occurrence, and behind the last one there is none at all. */
  ghost predicate CutLeftmost(parts: seq<bytes>, src: bytes) {
    && parts != []
    && (forall i, k: nat :: 0 <= i < |parts| - 1 && OccursAt(parts[i] + src, src, k) ==> |parts[i]| <= k)
    && NowhereIn(parts[|parts| - 1], src)
  }

  /** REPLACING: the bytes, cut at the occurrences of src from left to right, with dst in place of each. */
  lemma {:induction false} ReplaceIsCutAndJoin(d: bytes, src: bytes, dst: bytes) returns (parts: seq<bytes>)
    requires src != []
    ensures CutLeftmost(parts, src) && Joined(parts, src) == d && Joined(parts, dst) == Replace(d, src, dst)
    decreases |d|
  {
    if d == [] {
      parts := [[]];
    } else if src <= d {
      var more := ReplaceIsCutAndJoin(d[|src|..], src, dst);
      parts := [[]] + more;
      assert parts[1..] == more;
      assert d == [] + src + d[|src|..];
      assert [] + dst == dst;
      FirstCut([], more, src);
    } else {
      var more := ReplaceIsCutAndJoin(d[1..], src, dst);
      parts := [[d[0]] + more[0]] + more[1..];
      assert parts[1..] == more[1..];
      assert d == [d[0]] + d[1..];
      LongerPart(d, more, src);
      JoinLonger(d[0], more, src);
      JoinLonger(d[0], more, dst);
    }
  }

  lemma {:induction false} FirstCut(first: bytes, more: seq<bytes>, src: bytes)
    requires CutLeftmost(more, src) && first == []
    ensures CutLeftmost([first] + more, src)
  {
    var parts := [first] + more;
    assert parts[|parts| - 1] == more[|more| - 1];
    forall i, k: nat | 0 <= i < |parts| - 1 && OccursAt(parts[i] + src, src, k) ensures |parts[i]| <= k {
      if i > 0 { assert parts[i] == more[i - 1]; }
    }
  }

  lemma {:induction false} JoinLonger(b: byte, more: seq<bytes>, sep: bytes)
    requires more != []
    ensures Joined([[b] + more[0]] + more[1..], sep) == [b] + Joined(more, sep)
  {
    var parts := [[b] + more[0]] + more[1..];
    assert parts[1..] == more[1..];
    if |more| > 1 {
      assert [b] + more[0] + sep + Joined(more[1..], sep) == [b] + (more[0] + sep + Joined(more[1..], sep));
    }
  }

  lemma {:induction false} LongerPart(d: bytes, more: seq<bytes>, src: bytes)
    requires src != [] && d != [] && !(src <= d) && CutLeftmost(more, src) && Joined(more, src) == d[1..]
    ensures CutLeftmost([[d[0]] + more[0]] + more[1..], src)
  {
    var parts := [[d[0]] + more[0]] + more[1..];
    assert d == [d[0]] + d[1..];
    assert forall i :: 1 <= i < |parts| ==> parts[i] == more[i];
    forall i, k: nat | 0 <= i < |parts| - 1 && OccursAt(parts[i] + src, src, k) ensures |parts[i]| <= k {
      if i == 0 && k > 0 {
        assert (parts[0] + src)[k..k + |src|] == (more[0] + src)[k - 1..k - 1 + |src|];
        assert OccursAt(more[0] + src, src, k - 1);
      } else if i == 0 {
        BeginsLike(d, more, src);
      } else {
        assert OccursAt(more[i] + src, src, k);
      }
    }
    var last := parts[|parts| - 1];
    forall k: nat ensures !OccursAt(last, src, k) {
      if |parts| > 1 {
        assert last == more[|more| - 1];
      } else if OccursAt(parts[0], src, k) {
        assert d[1..] == more[0];
        if k > 0 {
          assert parts[0][k..k + |src|] == more[0][k - 1..k - 1 + |src|];
          assert OccursAt(more[0], src, k - 1);
        }
      }
    }
  }

  lemma {:induction false} BeginsLike(d: bytes, more: seq<bytes>, src: bytes)
    requires d != [] && |more| > 1 && Joined(more, src) == d[1..]
    ensures [d[0]] + more[0] + src <= d
  {
    assert d == [d[0]] + (more[0] + src + Joined(more[1..], src));
  }

  /** Maps are applied in the order in which they are given: a longer list is one list after the other. */
  lemma {:induction false} MapsInOrder(data: bytes, first: Maps, second: Maps)
    ensures ApplyMaps(data, first + second) == ApplyMaps(ApplyMaps(data, first), second)
    ensures |first| == 1 ==> ApplyMaps(data, first) == Replace(data, first[0].src, first[0].dst)
    decreases |first|
  {
    if first == [] {
      assert first + second == second;
    } else {
      assert (first + second)[1..] == first[1..] + second;
      MapsInOrder(Replace(data, first[0].src, first[0].dst), first[1..], second);
    }
  }

  /** What each map of the table does to the bytes it is there for, and to which direction it belongs. */
  lemma {:induction false} TableByName(name: string)
    requires name in CHAR_MAPS
    ensures CHAR_MAPS[name].direction.Input? <==> name[0] == 'I'
    ensures name[0] == 'I' || name[0] == 'O'
    ensures var m := CHAR_MAPS[name];
            match name
            case "INLCRNL" => m.src == [0x0a] && m.dst == [0x0d, 0x0a]
            case "ICRNL" => m.src == [0x0d] && m.dst == [0x0a]
            case "IGNCR" => m.src == [0x0d] && m.dst == []
            case "IGNLF" => m.src == [0x0a] && m.dst == []
            case "OCRNULNL" => m.src == [0x0d, 0x00] && m.dst == [0x0a]
            case "OCRNLNL" => m.src == [0x0d, 0x0a] && m.dst == [0x0a]
            case "ONLCRNL" => m.src == [0x0a] && m.dst == [0x0d, 0x0a]
            case "ONLCR" => m.src == [0x0a] && m.dst == [0x0d]
            case "OCRNL" => m.src == [0x0d] && m.dst == [0x0a]
            case "ODELBS" => m.src == [0x7f] && m.dst == [0x08]
            case "OBSDEL" => m.src == [0x08] && m.dst == [0x7f]
            case _ => false
  {
  }

  /** The entries of the table by name: ONLCRNL and then OCRNLNL is the identity. */
  lemma {:induction false} TableRoundTrip(d: bytes)
    ensures var out, back := CHAR_MAPS["ONLCRNL"], CHAR_MAPS["OCRNLNL"];
            && out == CharMap(Output, [0x0a], [0x0d, 0x0a])
            && ApplyMaps(d, [Pair(out.src, out.dst), Pair(back.src, back.dst)]) == d
  {
    NewlineRoundTrip(d);
    var maps: Maps := [Pair([LF], [CR, LF]), Pair([CR, LF], [LF])];
    var q := Replace(d, [LF], [CR, LF]);
    assert maps[1..] == [Pair([CR, LF], [LF])] && maps[1..][1..] == [];
    assert ApplyMaps(d, maps) == ApplyMaps(q, maps[1..]) == ApplyMaps(Replace(q, [CR, LF], [LF]), []);
  }

  /** ONLCRNL and then OCRNLNL is the identity, also on data that already holds CRLF or lone CR bytes. */
  lemma {:induction false} NewlineRoundTrip(d: bytes)
    ensures Replace(Replace(d, [LF], [CR, LF]), [CR, LF], [LF]) == d
    ensures d != [] ==> Replace(d, [LF], [CR, LF])[0] == if d[0] == LF then CR else d[0]
    decreases |d|
  {
    if d != [] {
      NewlineRoundTrip(d[1..]);
      var more := Replace(d[1..], [LF], [CR, LF]);
      var all := Replace(d, [LF], [CR, LF]);
      if d[0] == LF {
        assert [LF] <= d && all == [CR, LF] + more && all[2..] == more;
      } else {
        assert all == [d[0]] + more && all[1..] == more;
        assert !([CR, LF] <= all);
      }
    }
  }

  /** A single-byte source cannot be cut in two, so such a map works block by block. */
  lemma {:induction false} SingleByteDistributes(a: bytes, b: bytes, src: bytes, dst: bytes)
    requires |src| == 1
    ensures Replace(a + b, src, dst) == Replace(a, src, dst) + Replace(b, src, dst)
    decreases |a|
  {
    if a == [] {
      assert a + b == b;
    } else {
      assert (a + b)[1..] == a[1..] + b;
      assert src <= a + b <==> src <= a;
      SingleByteDistributes(a[1..], b, src, dst);
    }
  }

  /** The cut splits an occurrence of a two-byte source. */
  predicate Straddles(a: bytes, b: bytes, src: bytes)
    requires |src| == 2
  {
    a != [] && b != [] && a[|a| - 1] == src[0] && b[0] == src[1]
  }

  lemma {:induction false} SplitPair(a: bytes, b: bytes, src: bytes, dst: bytes)
    requires |src| == 2 && src[0] != src[1] && dst != src && |a| == 1 && Straddles(a, b, src)
    ensures Replace(a + b, src, dst) != a + Replace(b, src, dst)
  {
    assert src <= a + b && (a + b)[2..] == b[1..];
    var rest := Replace(b[1..], src, dst);
    assert Replace(b, src, dst) == [b[0]] + rest;
    assert a + Replace(b, src, dst) == src + rest;
    assert (src + rest)[..2] == src;
    assert |dst| == 2 ==> (dst + rest)[..2] == dst;
  }

  /** A two-byte source works block by block exactly if the cut does not split an occurrence of it. */
  lemma {:induction false} PairDistributes(a: bytes, b: bytes, src: bytes, dst: bytes)
    requires |src| == 2 && src[0] != src[1] && dst != src
    ensures Replace(a + b, src, dst) == Replace(a, src, dst) + Replace(b, src, dst) <==> !Straddles(a, b, src)
    decreases |a|
  {
    var ra, rb, rab := Replace(a, src, dst), Replace(b, src, dst), Replace(a + b, src, dst);
    if a == [] {
      assert a + b == b;
    } else if |a| == 1 {
      assert ra == a by { assert a[1..] == []; }
      assert (a + b)[1..] == b;
      if Straddles(a, b, src) {
        SplitPair(a, b, src, dst);
      }
    } else if src <= a {
      assert src <= a + b && (a + b)[2..] == a[2..] + b;
      PairDistributes(a[2..], b, src, dst);
      Cancel(dst, Replace(a[2..] + b, src, dst), Replace(a[2..], src, dst), rb);
    } else {
      assert !(src <= a + b) by { assert (a + b)[..2] == a[..2]; }
      assert (a + b)[1..] == a[1..] + b;
      PairDistributes(a[1..], b, src, dst);
      Cancel([a[0]], Replace(a[1..] + b, src, dst), Replace(a[1..], src, dst), rb);
    }
  }

  /** Which maps of the table work block by block on every stream. */
  lemma {:induction false} BlockwiseMaps(name: string)
    requires name in CHAR_MAPS
    ensures var m := CHAR_MAPS[name];
            m.src != [] &&
            ((forall a, b :: Replace(a + b, m.src, m.dst) == Replace(a, m.src, m.dst) + Replace(b, m.src, m.dst))
             <==> name != "OCRNULNL" && name != "OCRNLNL")
  {
    var m := CHAR_MAPS[name];
    if name == "OCRNULNL" || name == "OCRNLNL" {
      PairDistributes([m.src[0]], [m.src[1]], m.src, m.dst);
    } else {
      forall a, b ensures Replace(a + b, m.src, m.dst) == Replace(a, m.src, m.dst) + Replace(b, m.src, m.dst) {
        SingleByteDistributes(a, b, m.src, m.dst);
      }
    }
  }

  function MapEach(chunks: seq<bytes>, maps: Maps): seq<bytes> {
    if chunks == [] then [] else [ApplyMaps(chunks[0], maps)] + MapEach(chunks[1..], maps)
  }

  lemma {:induction false} MapsDistribute(a: bytes, b: bytes, maps: Maps)
    requires forall m :: m in maps ==> |m.src| == 1
    ensures ApplyMaps(a + b, maps) == ApplyMaps(a, maps) + ApplyMaps(b, maps)
    decreases |maps|
  {
    if maps != [] {
      var m := maps[0];
      SingleByteDistributes(a, b, m.src, m.dst);
      MapsDistribute(Replace(a, m.src, m.dst), Replace(b, m.src, m.dst), maps[1..]);
    }
  }

  lemma {:induction false} MapsOfNothing(maps: Maps)
    ensures ApplyMaps([], maps) == []
    decreases |maps|
  {
    if maps != [] {
      MapsOfNothing(maps[1..]);
    }
  }

  /** Any list of single-byte maps may be applied chunk by chunk, as the service does. */
  lemma {:induction false} MapsChunkwise(chunks: seq<bytes>, maps: Maps)
    requires forall m :: m in maps ==> |m.src| == 1
    ensures Flatten(MapEach(chunks, maps)) == ApplyMaps(Flatten(chunks), maps)
  {
    if chunks == [] {
      MapsOfNothing(maps);
    } else {
      MapsChunkwise(chunks[1..], maps);
      MapsDistribute(chunks[0], Flatten(chunks[1..]), maps);
      var mapped := MapEach(chunks, maps);
      assert mapped[1..] == MapEach(chunks[1..], maps);
    }
  }
}
