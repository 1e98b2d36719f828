/** Mapping configurations at the level of dictionaries: defaults, validation, loading and saving. */
module PortConfigs {
  import opened Bytes

  datatype Key =
    | Device | TcpPort | Name | Baudrate | Parity | Xonxoff | CharMode | CharDelay | WaitEcho
    | LineEnding | LogFile | AllowRemote | Autostart
    | Unknown(name: string)

  /** A value of the configuration file. Integers written for a real-valued field are read as reals. */
  datatype Value = Str(s: string) | Int(i: int) | Bool(b: bool) | Real(r: real) | Null

  type Dict = map<Key, Value>

  /** The fields of a configuration. */
  predicate Known(k: Key) {
    !k.Unknown?
  }

  /** What a field is when an entry does not mention it; the device and the TCP port have no default. */
  const DEFAULTS: Dict := map[
    Name := Str(""), Baudrate := Int(115200), Parity := Str("N"), Xonxoff := Bool(false), CharMode := Bool(false),
    CharDelay := Real(0.0), WaitEcho := Real(0.0), LineEnding := Str("CRLF"), LogFile := Str(""),
    AllowRemote := Bool(false), Autostart := Bool(false)
  ]

  ghost predicate IsConfig(d: Dict) {
    forall k :: k in d <==> Known(k)
  }

  const SAMPLE: Dict := DEFAULTS[Device := Str("")][TcpPort := Int(0)]

  type Config = d: Dict | IsConfig(d) ghost witness SAMPLE

  predicate Truthy(v: Value) {
    match v
    case Str(s) => s != ""
    case Int(i) => i != 0
    case Bool(b) => b
    case Real(r) => r != 0.0
    case Null => false
  }

  /** Known fields are taken over, unknown ones ignored, missing ones defaulted. */
  function FromDict(d: Dict): (c: Config)
    requires Device in d && TcpPort in d
    ensures forall k :: Known(k) ==> c[k] == if k in d then d[k] else DEFAULTS[k]
  {
    DEFAULTS + map k | k in d && Known(k) :: d[k]
  }

  /** An entry that the loader accepts. */
  predicate Complete(d: Dict) {
    Device in d && TcpPort in d && Truthy(d[Device]) && Truthy(d[TcpPort])
  }

  datatype Entry = DictEntry(d: Dict) | OtherEntry

  /** A configuration file after YAML parsing: nothing, a mapping with or without `ports`, a list, or a scalar. */
  datatype Doc = Nothing | MapDoc(ports: Option<seq<Entry>>) | ListDoc(entries: seq<Entry>) | Scalar

  function Entries(doc: Doc): seq<Entry> {
    match doc
    case MapDoc(Some(entries)) => entries
    case ListDoc(entries) => entries
    case _ => []
  }

  function LoadEntries(entries: seq<Entry>): seq<Config> {
    if entries == [] then []
    else LoadEntry(entries[0]) + LoadEntries(entries[1..])
  }

  function LoadEntry(entry: Entry): seq<Config> {
    if entry.DictEntry? && Complete(entry.d) then [FromDict(entry.d)] else []
  }

  /** One round of the loading loop. */
  lemma {:induction false} LoadStep(entries: seq<Entry>, k: nat, before: seq<Config>)
    requires k < |entries|
    ensures before + LoadEntries(entries[k..])
         == (if entries[k].DictEntry? && Complete(entries[k].d) then before + [FromDict(entries[k].d)] else before)
            + LoadEntries(entries[k + 1..])
  {
    assert entries[k..][1..] == entries[k + 1..];
    var one, more := LoadEntry(entries[k]), LoadEntries(entries[k + 1..]);
    assert before + (one + more) == before + one + more;
    assert before + [] == before;
    hide FromDict, Complete, LoadEntries;
  }

  method LoadConfigs(doc: Doc) returns (configs: seq<Config>)
    ensures configs == LoadEntries(Entries(doc))
  {
    configs := [];
    var ports := Entries(doc);
    ghost var all := LoadEntries(ports);
    assert ports[0..] == ports && [] + all == all;
    LoadNothing();
    hide Complete, FromDict, Entries, LoadEntries;
    var k := 0;
    while k < |ports|
      invariant 0 <= k <= |ports|
      invariant configs + LoadEntries(ports[k..]) == all
    {
      LoadStep(ports, k, configs);
      if ports[k].DictEntry? && Complete(ports[k].d) {
        configs := configs + [FromDict(ports[k].d)];
      }
      k := k + 1;
    }
    assert ports[k..] == [] && configs + [] == configs;
  }

  lemma LoadNothing()
    ensures LoadEntries([]) == []
  {
  }

  function SaveEntries(configs: seq<Config>): seq<Entry> {
    if configs == [] then [] else [DictEntry(configs[0])] + SaveEntries(configs[1..])
  }

  function Save(configs: seq<Config>): Doc {
    MapDoc(Some(SaveEntries(configs)))
  }

  function Load(doc: Doc): seq<Config> {
    LoadEntries(Entries(doc))
  }

  lemma {:induction false} FromOwnDict(c: Config)
    requires Complete(c)
    ensures FromDict(c) == c
  {
    assert FromDict(c).Keys == c.Keys;
  }

  lemma {:induction false} LoadNeverGrows(configs: seq<Config>)
    ensures |LoadEntries(SaveEntries(configs))| <= |configs|
  {
    if configs != [] {
      LoadNeverGrows(configs[1..]);
      assert SaveEntries(configs)[1..] == SaveEntries(configs[1..]);
    }
  }

  lemma {:induction false} SaveLoadFirst(c: Config, more: seq<Config>)
    ensures LoadEntries(SaveEntries([c] + more))
         == (if Complete(c) then [c] else []) + LoadEntries(SaveEntries(more))
  {
    if Complete(c) {
      FromOwnDict(c);
    }
    assert SaveEntries([c] + more) == [DictEntry(c)] + SaveEntries(([c] + more)[1..]);
    assert ([c] + more)[1..] == more;
  }

  /** Saving and loading gives back a list of configurations exactly if each has a device and a TCP port. */
  lemma {:induction false} SaveLoadRoundTrip(configs: seq<Config>)
    ensures Load(Save(configs)) == configs <==> forall c :: c in configs ==> Complete(c)
  {
    hide Complete, FromDict, LoadEntry;
    if configs != [] {
      var c, more := configs[0], configs[1..];
      assert configs == [c] + more;
      SaveLoadRoundTrip(more);
      LoadNeverGrows(more);
      SaveLoadFirst(c, more);
      hide LoadEntries, SaveEntries;
      var loaded := LoadEntries(SaveEntries(more));
      assert ([c] + loaded)[1..] == loaded;
    }
  }

  /** Every loaded configuration has a device and a TCP port. */
  lemma {:induction false} LoadedAreComplete(entries: seq<Entry>)
    ensures forall c :: c in LoadEntries(entries) ==> Complete(c)
  {
    if entries != [] {
      LoadedAreComplete(entries[1..]);
    }
  }

  // ------------------------------------------------------------------ loading, entry by entry

  /** A list of entries is the same as a mapping that holds it; everything else holds no entries. */
  lemma {:induction false} DocumentForms(entries: seq<Entry>)
    ensures Load(ListDoc(entries)) == Load(MapDoc(Some(entries))) == LoadEntries(entries)
    ensures Load(Nothing) == [] && Load(Scalar) == [] && Load(MapDoc(None)) == []
  {
    hide LoadEntries;
    LoadNothing();
  }

  lemma {:induction false} LoadAppend(a: seq<Entry>, b: seq<Entry>)
    ensures LoadEntries(a + b) == LoadEntries(a) + LoadEntries(b)
  {
    hide LoadEntry;
    if a == [] {
      assert a + b == b;
    } else {
      assert (a + b)[1..] == a[1..] + b;
      LoadAppend(a[1..], b);
    }
  }

  /** One entry is loaded exactly if it is a mapping with a device name that is not empty and a TCP port other than 0. */
  lemma {:induction false} OneEntry(d: Dict, device: string, port: int)
    requires Device in d && d[Device] == Str(device) && TcpPort in d && d[TcpPort] == Int(port)
    ensures LoadEntries([DictEntry(d)]) == if device != "" && port != 0 then [FromDict(d)] else []
    ensures LoadEntries([DictEntry(d - {Device})]) == [] && LoadEntries([DictEntry(d - {TcpPort})]) == []
    ensures LoadEntries([DictEntry(d[Device := Null])]) == [] && LoadEntries([DictEntry(d[TcpPort := Null])]) == []
    ensures LoadEntries([OtherEntry]) == []
  {
    OneLoads(DictEntry(d));
    OneLoads(DictEntry(d - {Device}));
    OneLoads(DictEntry(d - {TcpPort}));
    OneLoads(DictEntry(d[Device := Null]));
    OneLoads(DictEntry(d[TcpPort := Null]));
    OneLoads(OtherEntry);
    hide LoadEntries, FromDict;
  }

  lemma {:induction false} OneLoads(entry: Entry)
    ensures LoadEntries([entry]) == LoadEntry(entry)
  {
    assert [entry][1..] == [];
    assert LoadEntry(entry) + [] == LoadEntry(entry);
    hide LoadEntry;
  }

  /** What an entry with nothing but a device and a TCP port means. */
  lemma {:induction false} DefaultsAre(device: string, port: int)
    ensures var c := FromDict(map[Device := Str(device), TcpPort := Int(port)]);
            && c[Device] == Str(device) && c[TcpPort] == Int(port)
            && c[Name] == Str("") && c[Baudrate] == Int(115200) && c[Parity] == Str("N") && c[LineEnding] == Str("CRLF")
            && c[Xonxoff] == c[CharMode] == c[AllowRemote] == c[Autostart] == Bool(false)
            && c[CharDelay] == c[WaitEcho] == Real(0.0) && c[LogFile] == Str("")
  {
    hide FromDict, DEFAULTS, IsConfig;
    DefaultTable();
    var d := map[Device := Str(device), TcpPort := Int(port)];
    FieldOf(d, Device);
    FieldOf(d, TcpPort);
    FieldOf(d, Name);
    FieldOf(d, Baudrate);
    FieldOf(d, Parity);
    FieldOf(d, Xonxoff);
    FieldOf(d, CharMode);
    FieldOf(d, CharDelay);
    FieldOf(d, WaitEcho);
    FieldOf(d, LineEnding);
    FieldOf(d, LogFile);
    FieldOf(d, AllowRemote);
    FieldOf(d, Autostart);
  }

  lemma FieldOf(d: Dict, k: Key)
    requires Device in d && TcpPort in d && Known(k)
    ensures FromDict(d)[k] == if k in d then d[k] else DEFAULTS[k]
  {
    hide DEFAULTS;
  }

  lemma DefaultTable()
    ensures DEFAULTS.Keys == {Name, Baudrate, Parity, Xonxoff, CharMode, CharDelay, WaitEcho, LineEnding, LogFile,
                              AllowRemote, Autostart}
    ensures DEFAULTS[Name] == Str("") && DEFAULTS[Baudrate] == Int(115200) && DEFAULTS[Parity] == Str("N")
    ensures DEFAULTS[Xonxoff] == DEFAULTS[CharMode] == DEFAULTS[AllowRemote] == DEFAULTS[Autostart] == Bool(false)
    ensures DEFAULTS[CharDelay] == DEFAULTS[WaitEcho] == Real(0.0) && DEFAULTS[LineEnding] == Str("CRLF")
    ensures DEFAULTS[LogFile] == Str("")
  {
  }

  // -------------------------------------------------------------------------- validation

  const PARITIES := ["N", "E", "O", "S", "M"]
  const LINE_ENDINGS := ["CRLF", "LF", "CR", "none"]

  /** What the request models demand of one field. */
  predicate FieldValid(k: Key, v: Value) {
    match k
    case Device | Name | Parity | LineEnding | LogFile => v.Str?
    case TcpPort => v.Int? && 1 <= v.i <= 65535
    case Baudrate => v.Int? && v.i >= 1
    case Xonxoff | CharMode | AllowRemote | Autostart => v.Bool?
    case CharDelay | WaitEcho => v.Real? && v.r >= 0.0
    case Unknown(_) => false
  }

  predicate ModelValid(c: Config) {
    forall k :: k in c ==> FieldValid(k, c[k])
  }

  predicate IsText(v: Value) { v.Str? }
  predicate IsFlag(v: Value) { v.Bool? }
  predicate IsAtLeast(v: Value, n: int) { v.Int? && v.i >= n }
  predicate IsDuration(v: Value) { v.Real? && v.r >= 0.0 }

  /** What the request models demand, field by field. */
  lemma {:induction false} ModelValidExact(c: Config)
    ensures ModelValid(c) <==>
              && IsText(c[Device]) && IsText(c[Name]) && IsText(c[Parity]) && IsText(c[LineEnding]) && IsText(c[LogFile])
              && IsAtLeast(c[TcpPort], 1) && c[TcpPort].i <= 65535 && IsAtLeast(c[Baudrate], 1)
              && IsFlag(c[Xonxoff]) && IsFlag(c[CharMode]) && IsFlag(c[AllowRemote]) && IsFlag(c[Autostart])
              && IsDuration(c[CharDelay]) && IsDuration(c[WaitEcho])
  {
    if ModelValid(c) {
      assert FieldValid(Device, c[Device]) && FieldValid(Name, c[Name]) && FieldValid(Parity, c[Parity]);
      assert FieldValid(LineEnding, c[LineEnding]) && FieldValid(LogFile, c[LogFile]) && FieldValid(TcpPort, c[TcpPort]);
      assert FieldValid(Baudrate, c[Baudrate]) && FieldValid(Xonxoff, c[Xonxoff]) && FieldValid(CharMode, c[CharMode]);
      assert FieldValid(AllowRemote, c[AllowRemote]) && FieldValid(Autostart, c[Autostart]);
      assert FieldValid(CharDelay, c[CharDelay]) && FieldValid(WaitEcho, c[WaitEcho]);
    }
  }

  /** The TCP port of a valid model. */
  function PortNumber(c: Config): (port: int)
    requires ModelValid(c)
    ensures c[TcpPort] == Int(port) && 1 <= port <= 65535
  {
    assert FieldValid(TcpPort, c[TcpPort]);
    c[TcpPort].i
  }

  /** The white space that the device name is stripped of. */
  predicate IsSpace(ch: char) {
    var u := ch as int;
    || 0x09 <= u <= 0x0d || 0x1c <= u <= 0x20 || u == 0x85 || u == 0xa0 || u == 0x1680
    || 0x2000 <= u <= 0x200a || u == 0x2028 || u == 0x2029 || u == 0x202f || u == 0x205f || u == 0x3000
  }

  /** Of the ASCII characters, blank, tab, line feed, vertical tab, form feed, carriage return and the four
    * separators are white space. */
  lemma {:induction false} AsciiSpace(ch: char)
    requires ch as int < 128
    ensures IsSpace(ch) <==> ch == ' ' || '\t' <= ch <= '\r' || '\U{1c}' <= ch <= '\U{1f}'
  {
  }

  function StripLeft(s: string): (r: string)
    ensures r == "" || !IsSpace(r[0])
  {
    if s != "" && IsSpace(s[0]) then StripLeft(s[1..]) else s
  }

  function StripRight(s: string): (r: string)
    ensures r == "" || !IsSpace(r[|r| - 1])
    ensures r <= s
  {
    if s != "" && IsSpace(s[|s| - 1]) then StripRight(s[..|s| - 1]) else s
  }

  function Strip(s: string): (r: string)
    ensures r == "" || (!IsSpace(r[0]) && !IsSpace(r[|r| - 1]))
  {
    StripRight(StripLeft(s))
  }

  ghost predicate Blank(s: string) {
    forall k :: 0 <= k < |s| ==> IsSpace(s[k])
  }

  lemma {:induction false} StripLeftExact(s: string) returns (left: string)
    ensures Blank(left) && s == left + StripLeft(s)
  {
    left := [];
    if s != "" && IsSpace(s[0]) {
      var more := StripLeftExact(s[1..]);
      left := [s[0]] + more;
    }
  }

  lemma {:induction false} StripRightExact(s: string) returns (right: string)
    ensures Blank(right) && s == StripRight(s) + right
  {
    right := [];
    if s != "" && IsSpace(s[|s| - 1]) {
      var more := StripRightExact(s[..|s| - 1]);
      right := more + [s[|s| - 1]];
    }
  }

  /** Stripping takes away white space at both ends, all of it, and nothing else. */
  lemma {:induction false} StripIsExact(s: string) returns (left: string, right: string)
    ensures Blank(left) && Blank(right) && s == left + Strip(s) + right
    ensures Strip(s) == "" || (!IsSpace(Strip(s)[0]) && !IsSpace(Strip(s)[|Strip(s)| - 1]))
  {
    left := StripLeftExact(s);
    right := StripRightExact(StripLeft(s));
  }

  /** The configuration of a valid model, unless the device is blank or a choice is not on its list. */
  function ToConfig(model: Config): (c: Option<Config>)
    requires ModelValid(model)
    ensures c.Some? ==> ModelValid(c.value) && Complete(c.value)
    ensures c.Some? ==> forall k :: Known(k) && k != Device ==> c.value[k] == model[k]
    ensures c.Some? ==> model[Device].Str? && c.value[Device] == Str(Strip(model[Device].s))
  {
    assert FieldValid(Device, model[Device]) && FieldValid(Parity, model[Parity])
        && FieldValid(LineEnding, model[LineEnding]) && FieldValid(TcpPort, model[TcpPort]);
    var device := Strip(model[Device].s);
    if device == "" || model[Parity].s !in PARITIES || model[LineEnding].s !in LINE_ENDINGS then None
    else Some(model[Device := Str(device)])
  }

  predicate Acceptable(model: Config) {
    && ModelValid(model)
    && model[Device].Str? && Strip(model[Device].s) != ""
    && model[Parity] in [Str("N"), Str("E"), Str("O"), Str("S"), Str("M")]
    && model[LineEnding] in [Str("CRLF"), Str("LF"), Str("CR"), Str("none")]
  }

  lemma {:induction false} ConfigsAccepted(model: Config)
    ensures Acceptable(model) <==> ModelValid(model) && ToConfig(model).Some?
    ensures ModelValid(model) ==> model[TcpPort].Int? && 1 <= model[TcpPort].i <= 65535
  {
    if ModelValid(model) {
      assert FieldValid(Device, model[Device]) && FieldValid(Parity, model[Parity])
          && FieldValid(LineEnding, model[LineEnding]) && FieldValid(TcpPort, model[TcpPort]);
      hide Strip;
    }
  }
}
