/**
 * Channel settings in the flat configuration: how AddChannel stores them, how the
 * channels of a device are counted, looked up by key prefix and rebuilt.
 */
module Channels {

  import opened Wrappers
  import opened Keys

  datatype Value = Str(text: string) | Num(num: int) | Flag(flag: bool)

  type Properties = map<string, Value>

  datatype Field =
    | Type | Method | Address | Transport
    | SndBufSize | RcvBufSize | SndKernelSize | RcvKernelSize | SndTimeoutMs | RcvTimeoutMs
    | Linger | RateLogging | PortRangeMin | PortRangeMax | AutoBind

  type Settings = map<Field, Value>

  const FIELDS: set<Field> := set f: Field | true

  function FieldName(f: Field): (s: string)
    ensures DotFree(s) && FieldOf(s) == f
  {
    match f
    case Type => "type"
    case Method => "method"
    case Address => "address"
    case Transport => "transport"
    case SndBufSize => "sndBufSize"
    case RcvBufSize => "rcvBufSize"
    case SndKernelSize => "sndKernelSize"
    case RcvKernelSize => "rcvKernelSize"
    case SndTimeoutMs => "sndTimeoutMs"
    case RcvTimeoutMs => "rcvTimeoutMs"
    case Linger => "linger"
    case RateLogging => "rateLogging"
    case PortRangeMin => "portRangeMin"
    case PortRangeMax => "portRangeMax"
    case AutoBind => "autoBind"
  }

  /** Recognises a field from as little of its name as possible. */
  function FieldOf(s: string): Field {
    match |s|
    case 4 => Type
    case 6 => if s[0] == 'm' then Method else Linger
    case 7 => Address
    case 8 => AutoBind
    case 9 => Transport
    case 10 => if s[0] == 's' then SndBufSize else RcvBufSize
    case 11 => RateLogging
    case 12 => if s[0] == 's' then SndTimeoutMs else if s[0] == 'r' then RcvTimeoutMs
               else if s[11] == 'n' then PortRangeMin else PortRangeMax
    case 13 => if s[0] == 's' then SndKernelSize else RcvKernelSize
    case _ => Type
  }

  function KeyOf(n: string, i: nat, f: Field): string { Key(n, i, FieldName(f)) }

  lemma KeyOfInjective(n: string, i: nat, f: Field, m: string, j: nat, g: Field)
    requires KeyOf(n, i, f) == KeyOf(m, j, g)
    ensures n == m && i == j && f == g
  {
    KeyInjective(n, i, FieldName(f), m, j, FieldName(g));
  }

  // ---------------------------------------------------------------- channels

  datatype TransportKind = DefaultTransport | ZeroMQ | Shmem

  function TransportName(t: TransportKind): string {
    match t
    case DefaultTransport => "default"
    case ZeroMQ => "zeromq"
    case Shmem => "shmem"
  }

  function TransportType(s: string): Option<TransportKind> {
    if s == "default" then Some(DefaultTransport)
    else if s == "zeromq" then Some(ZeroMQ)
    else if s == "shmem" then Some(Shmem)
    else None
  }

  datatype Channel = Channel(
    kind: string, how: string, address: string, transport: TransportKind,
    sndBufSize: int, rcvBufSize: int, sndKernelSize: int, rcvKernelSize: int,
    sndTimeoutMs: int, rcvTimeoutMs: int, linger: int, rateLogging: int,
    portRangeMin: int, portRangeMax: int, autoBind: bool)

  const DEFAULTS: Channel :=
    Channel("unspecified", "unspecified", "unspecified", DefaultTransport,
            1000, 1000, 0, 0, -1, -1, 500, 1, 22000, 23000, true)

  function Setting(c: Channel, f: Field): Value {
    match f
    case Type => Str(c.kind)
    case Method => Str(c.how)
    case Address => Str(c.address)
    case Transport => Str(TransportName(c.transport))
    case SndBufSize => Num(c.sndBufSize)
    case RcvBufSize => Num(c.rcvBufSize)
    case SndKernelSize => Num(c.sndKernelSize)
    case RcvKernelSize => Num(c.rcvKernelSize)
    case SndTimeoutMs => Num(c.sndTimeoutMs)
    case RcvTimeoutMs => Num(c.rcvTimeoutMs)
    case Linger => Num(c.linger)
    case RateLogging => Num(c.rateLogging)
    case PortRangeMin => Num(c.portRangeMin)
    case PortRangeMax => Num(c.portRangeMax)
    case AutoBind => Flag(c.autoBind)
  }

  /** What AddChannel stores: everything but the two timeouts. */
  function Stored(c: Channel): Settings { Ports(Sizes(Names(map[], c), c), c) }

  function Names(s: Settings, c: Channel): Settings {
    s[Type := Setting(c, Type)]
     [Method := Setting(c, Method)]
     [Address := Setting(c, Address)]
     [Transport := Setting(c, Transport)]
  }

  function Sizes(s: Settings, c: Channel): Settings {
    s[SndBufSize := Setting(c, SndBufSize)]
     [RcvBufSize := Setting(c, RcvBufSize)]
     [SndKernelSize := Setting(c, SndKernelSize)]
     [RcvKernelSize := Setting(c, RcvKernelSize)]
  }

  function Ports(s: Settings, c: Channel): Settings {
    s[Linger := Setting(c, Linger)]
     [RateLogging := Setting(c, RateLogging)]
     [PortRangeMin := Setting(c, PortRangeMin)]
     [PortRangeMax := Setting(c, PortRangeMax)]
     [AutoBind := Setting(c, AutoBind)]
  }

  predicate SameKind(v: Value, d: Value) {
    (v.Str? && d.Str?) || (v.Num? && d.Num?) || (v.Flag? && d.Flag?)
  }

  predicate KindsOk(m: Settings)
    requires m.Keys == FIELDS
  {
    forall f | f in FIELDS :: SameKind(m[f], Setting(DEFAULTS, f))
  }

  /** Builds the channel from a value for every field; a value of another type, or an unknown transport, throws. */
  function Assemble(m: Settings): Option<Channel>
    requires m.Keys == FIELDS
  {
    if !KindsOk(m) then None else
    match TransportType(TextOf(m[Transport]))
    case None => None
    case Some(t) => Some(Filled(m, t))
  }

  function TextOf(v: Value): string { if v.Str? then v.text else "" }

  function NumOf(v: Value): int { if v.Num? then v.num else 0 }

  function Filled(m: Settings, t: TransportKind): Channel
    requires m.Keys == FIELDS
  {
    Channel(TextOf(m[Type]), TextOf(m[Method]), TextOf(m[Address]), t,
            NumOf(m[SndBufSize]), NumOf(m[RcvBufSize]), NumOf(m[SndKernelSize]), NumOf(m[RcvKernelSize]),
            NumOf(m[SndTimeoutMs]), NumOf(m[RcvTimeoutMs]), NumOf(m[Linger]), NumOf(m[RateLogging]),
            NumOf(m[PortRangeMin]), NumOf(m[PortRangeMax]), m[AutoBind] == Flag(true))
  }

  /** The given settings, and the default for every other field. */
  function Over(s: Settings): Settings {
    map f | f in FIELDS :: if f in s then s[f] else Setting(DEFAULTS, f)
  }

  /** Channel constructor: each field from its key, or the default. */
  function Construct(n: string, i: nat, props: Properties): Option<Channel> { Assemble(Fetched(n, i, props)) }

  function Fetched(n: string, i: nat, props: Properties): Settings {
    map f | f in FIELDS :: if KeyOf(n, i, f) in props then props[KeyOf(n, i, f)] else Setting(DEFAULTS, f)
  }

  function WithoutTimeouts(c: Channel): Channel {
    c.(sndTimeoutMs := DEFAULTS.sndTimeoutMs, rcvTimeoutMs := DEFAULTS.rcvTimeoutMs)
  }

  lemma StoredField(c: Channel, f: Field)
    ensures Over(Stored(c))[f] == Setting(WithoutTimeouts(c), f)
  {
    match f
    case SndTimeoutMs => assert f !in Stored(c);
    case RcvTimeoutMs => assert f !in Stored(c);
    case _ => assert f in Stored(c) && Stored(c)[f] == Setting(c, f);
  }

  lemma AssembleIs(m: Settings, c: Channel)
    requires m.Keys == FIELDS && forall f | f in FIELDS :: m[f] == Setting(c, f)
    ensures Assemble(m) == Some(c)
  {
    KindsMatch(m, c);
    FilledIs(m, c);
    TransportRoundTrip(c.transport);
  }

  lemma FilledIs(m: Settings, c: Channel)
    requires m.Keys == FIELDS && forall f | f in FIELDS :: m[f] == Setting(c, f)
    ensures Filled(m, c.transport) == c
  {
  }

  lemma KindsMatch(m: Settings, c: Channel)
    requires m.Keys == FIELDS && forall f | f in FIELDS :: m[f] == Setting(c, f)
    ensures KindsOk(m)
  {
    forall f | f in FIELDS ensures SameKind(m[f], Setting(DEFAULTS, f)) { assert m[f] == Setting(c, f); }
  }

  lemma AssembledSettings(m: Settings, f: Field)
    requires m.Keys == FIELDS && Assemble(m).Some?
    ensures m[f] == Setting(Assemble(m).value, f)
  {
    assert SameKind(m[f], Setting(DEFAULTS, f));
    TransportRoundTrip(Assemble(m).value.transport);
  }

  /** A channel is built exactly from its own settings; settings that no channel has throw. */
  lemma AssembleInverse(m: Settings, c: Channel)
    requires m.Keys == FIELDS
    ensures Assemble(m) == Some(c) <==> forall f | f in FIELDS :: m[f] == Setting(c, f)
  {
    if Assemble(m) == Some(c) {
      forall f | f in FIELDS ensures m[f] == Setting(c, f) { AssembledSettings(m, f); }
    } else if forall f | f in FIELDS :: m[f] == Setting(c, f) {
      AssembleIs(m, c);
    }
  }

  /** Everything AddChannel keeps comes back; the timeouts fall back to their default. */
  lemma AssembleStored(c: Channel)
    ensures Assemble(Over(Stored(c))) == Some(WithoutTimeouts(c))
  {
    forall f | f in FIELDS ensures Over(Stored(c))[f] == Setting(WithoutTimeouts(c), f) { StoredField(c, f); }
    AssembleIs(Over(Stored(c)), WithoutTimeouts(c));
  }

  lemma TransportRoundTrip(t: TransportKind)
    ensures TransportType(TransportName(t)) == Some(t)
  {
    assert "zeromq"[0] == 'z' && "shmem"[0] == 's' && "default"[0] == 'd';
  }

  // ---------------------------------------------------------------- the flat configuration

  /** Every setting under its prefixed key. */
  function Prefixed(p: string, s: Settings): Properties {
    map k | k in (set f | f in s :: p + FieldName(f)) && FieldOf(k[|p|..]) in s :: s[FieldOf(k[|p|..])]
  }

  lemma PrefixedAt(p: string, s: Settings, f: Field)
    ensures p + FieldName(f) in Prefixed(p, s) <==> f in s
    ensures f in s ==> Prefixed(p, s)[p + FieldName(f)] == s[f]
  {
    var k := p + FieldName(f);
    assert k[|p|..] == FieldName(f);
  }

  lemma PrefixedOnly(p: string, s: Settings, k: string)
    requires k in Prefixed(p, s)
    ensures p <= k && FieldOf(k[|p|..]) in s && k == p + FieldName(FieldOf(k[|p|..]))
    ensures Prefixed(p, s)[k] == s[FieldOf(k[|p|..])]
  {
    var f :| f in s && k == p + FieldName(f);
    assert k[|p|..] == FieldName(f);
  }

  /** Writing one more key extends the prefixed settings. */
  lemma PrefixedPut(base: Properties, p: string, s: Settings, f: Field, v: Value)
    ensures (base + Prefixed(p, s))[p + FieldName(f) := v] == base + Prefixed(p, s[f := v])
  {
    PrefixedExtend(p, s, f, v);
  }

  lemma PrefixedExtend(p: string, s: Settings, f: Field, v: Value)
    ensures Prefixed(p, s[f := v]) == Prefixed(p, s)[p + FieldName(f) := v]
  {
    var l, r := Prefixed(p, s[f := v]), Prefixed(p, s)[p + FieldName(f) := v];
    PrefixedAt(p, s[f := v], f);
    forall k | k in l ensures k in r && l[k] == r[k] {
      PrefixedOnly(p, s[f := v], k);
      PrefixedAt(p, s, FieldOf(k[|p|..]));
    }
    forall k | k in r ensures k in l {
      if k in Prefixed(p, s) {
        PrefixedOnly(p, s, k);
        PrefixedAt(p, s[f := v], FieldOf(k[|p|..]));
      }
    }
  }

  /** One SetVarMapValue of AddChannel. */
  function Write(vm: Properties, p: string, f: Field, c: Channel): Properties {
    vm[p + FieldName(f) := Setting(c, f)]
  }

  function WrittenNames(vm: Properties, p: string, c: Channel): Properties {
    var v1 := Write(vm, p, Type, c);
    var v2 := Write(v1, p, Method, c);
    var v3 := Write(v2, p, Address, c);
    Write(v3, p, Transport, c)
  }

  lemma WriteNames(vm: Properties, p: string, s: Settings, c: Channel)
    ensures WrittenNames(vm + Prefixed(p, s), p, c) == vm + Prefixed(p, Names(s, c))
  {
    PrefixedPut(vm, p, s, Type, Setting(c, Type));
    var s0 := s[Type := Setting(c, Type)];
    PrefixedPut(vm, p, s0, Method, Setting(c, Method));
    var s1 := s0[Method := Setting(c, Method)];
    PrefixedPut(vm, p, s1, Address, Setting(c, Address));
    var s2 := s1[Address := Setting(c, Address)];
    PrefixedPut(vm, p, s2, Transport, Setting(c, Transport));
  }

  function WrittenSizes(vm: Properties, p: string, c: Channel): Properties {
    var v1 := Write(vm, p, SndBufSize, c);
    var v2 := Write(v1, p, RcvBufSize, c);
    var v3 := Write(v2, p, SndKernelSize, c);
    Write(v3, p, RcvKernelSize, c)
  }

  lemma WriteSizes(vm: Properties, p: string, s: Settings, c: Channel)
    ensures WrittenSizes(vm + Prefixed(p, s), p, c) == vm + Prefixed(p, Sizes(s, c))
  {
    PrefixedPut(vm, p, s, SndBufSize, Setting(c, SndBufSize));
    var s0 := s[SndBufSize := Setting(c, SndBufSize)];
    PrefixedPut(vm, p, s0, RcvBufSize, Setting(c, RcvBufSize));
    var s1 := s0[RcvBufSize := Setting(c, RcvBufSize)];
    PrefixedPut(vm, p, s1, SndKernelSize, Setting(c, SndKernelSize));
    var s2 := s1[SndKernelSize := Setting(c, SndKernelSize)];
    PrefixedPut(vm, p, s2, RcvKernelSize, Setting(c, RcvKernelSize));
  }

  function WrittenPorts(vm: Properties, p: string, c: Channel): Properties {
    var v1 := Write(vm, p, Linger, c);
    var v2 := Write(v1, p, RateLogging, c);
    var v3 := Write(v2, p, PortRangeMin, c);
    var v4 := Write(v3, p, PortRangeMax, c);
    Write(v4, p, AutoBind, c)
  }

  lemma WritePorts(vm: Properties, p: string, s: Settings, c: Channel)
    ensures WrittenPorts(vm + Prefixed(p, s), p, c) == vm + Prefixed(p, Ports(s, c))
  {
    PrefixedPut(vm, p, s, Linger, Setting(c, Linger));
    var s0 := s[Linger := Setting(c, Linger)];
    PrefixedPut(vm, p, s0, RateLogging, Setting(c, RateLogging));
    var s1 := s0[RateLogging := Setting(c, RateLogging)];
    PrefixedPut(vm, p, s1, PortRangeMin, Setting(c, PortRangeMin));
    var s2 := s1[PortRangeMin := Setting(c, PortRangeMin)];
    PrefixedPut(vm, p, s2, PortRangeMax, Setting(c, PortRangeMax));
    var s3 := s2[PortRangeMax := Setting(c, PortRangeMax)];
    PrefixedPut(vm, p, s3, AutoBind, Setting(c, AutoBind));
  }

  lemma PrefixedNone(vm: Properties, p: string)
    ensures vm + Prefixed(p, map[]) == vm
  {
  }

  lemma WritesAre(vm: Properties, p: string, c: Channel)
    ensures WrittenPorts(WrittenSizes(WrittenNames(vm, p, c), p, c), p, c) == vm + Prefixed(p, Stored(c))
  {
    PrefixedNone(vm, p);
    WriteNames(vm, p, map[], c);
    WriteSizes(vm, p, Names(map[], c), c);
    WritePorts(vm, p, Sizes(Names(map[], c), c), c);
  }

  /** Keys that stand for a channel called `name`. */
  function TypeKeys(vm: Properties, name: string): set<string> {
    set k | k in vm && IsTypeKey(k) && NameOf(k) == name
  }

  /** How many channels called `name` the configuration is taken to hold. */
  function Count(vm: Properties, name: string): nat { |TypeKeys(vm, name)| }

  function Selected(vm: Properties, p: string): Properties { map k | k in vm && p <= k :: vm[k] }

  /** What AddChannel leaves behind, for any settings. */
  function Added(vm: Properties, name: string, s: Settings): Properties {
    vm + Prefixed(Prefix(name, Count(vm, name)), s)
  }

  /** GetChannelInfoImpl: one entry per name that some key mentions. */
  method GetChannelInfo(vm: Properties) returns (info: map<string, nat>)
    ensures forall n :: n in info <==> Count(vm, n) > 0
    ensures forall n | n in info :: info[n] == Count(vm, n)
  {
    info := map[];
    var todo := vm.Keys;
    while todo != {}
      invariant todo <= vm.Keys
      invariant forall n :: n in info <==> |NamedIn(vm.Keys - todo, n)| > 0
      invariant forall n | n in info :: info[n] == |NamedIn(vm.Keys - todo, n)|
      decreases todo
    {
      var k :| k in todo;
      NamedInMore(vm.Keys - todo, k);
      assert vm.Keys - (todo - {k}) == (vm.Keys - todo) + {k};
      if IsTypeKey(k) {
        var name := NameOf(k);
        if name !in info {
          info := info[name := 1];
        } else {
          info := info[name := info[name] + 1];
        }
      }
      todo := todo - {k};
    }
    forall n ensures NamedIn(vm.Keys - {}, n) == TypeKeys(vm, n) { }
  }

  function NamedIn(keys: set<string>, name: string): set<string> {
    set k | k in keys && IsTypeKey(k) && NameOf(k) == name
  }

  lemma NamedInMore(keys: set<string>, k: string)
    requires k !in keys
    ensures forall n :: |NamedIn(keys + {k}, n)|
                        == |NamedIn(keys, n)| + if IsTypeKey(k) && NameOf(k) == n then 1 else 0
  {
    forall n
      ensures |NamedIn(keys + {k}, n)| == |NamedIn(keys, n)| + if IsTypeKey(k) && NameOf(k) == n then 1 else 0
    {
      if IsTypeKey(k) && NameOf(k) == n {
        assert NamedIn(keys + {k}, n) == NamedIn(keys, n) + {k};
      } else {
        assert NamedIn(keys + {k}, n) == NamedIn(keys, n);
      }
    }
  }

  /** The options of a device. */
  class ProgOptions {
    var fVarMap: Properties

    constructor (vm: Properties)
      ensures fVarMap == vm
    {
      fVarMap := vm;
    }

    method GetPropertiesStartingWith(q: string) returns (properties: Properties)
      ensures properties == Selected(fVarMap, q)
    {
      properties := map[];
      var todo := fVarMap.Keys;
      while todo != {}
        invariant todo <= fVarMap.Keys
        invariant properties == map k | k in fVarMap && k !in todo && q <= k :: fVarMap[k]
        decreases todo
      {
        var k :| k in todo;
        if q <= k {
          properties := properties[k := fVarMap[k]];
        }
        todo := todo - {k};
      }
    }

    method AddChannel(name: string, c: Channel)
      modifies this
      ensures fVarMap == Added(old(fVarMap), name, Stored(c))
    {
      var existing := GetChannelInfo(fVarMap);
      var index := 0;
      if name in existing {
        index := existing[name];
      }
      var p := Prefix(name, index);
      WritesAre(fVarMap, p, c);
      fVarMap := Write(fVarMap, p, Type, c);
      fVarMap := Write(fVarMap, p, Method, c);
      fVarMap := Write(fVarMap, p, Address, c);
      fVarMap := Write(fVarMap, p, Transport, c);
      fVarMap := Write(fVarMap, p, SndBufSize, c);
      fVarMap := Write(fVarMap, p, RcvBufSize, c);
      fVarMap := Write(fVarMap, p, SndKernelSize, c);
      fVarMap := Write(fVarMap, p, RcvKernelSize, c);
      fVarMap := Write(fVarMap, p, Linger, c);
      fVarMap := Write(fVarMap, p, RateLogging, c);
      fVarMap := Write(fVarMap, p, PortRangeMin, c);
      fVarMap := Write(fVarMap, p, PortRangeMax, c);
      fVarMap := Write(fVarMap, p, AutoBind, c);
    }
  }
}
