/**
 * The JSON configuration: devices hold channels, channels hold sockets, and every socket
 * becomes one numbered sub-channel of the flat configuration.
 */
module ConfigParser {

  import opened Wrappers
  import opened Keys
  import opened Channels
  import opened ChannelLayout

  /** A parsed property tree; every node carries its text. */
  datatype Tree = Tree(data: string, kids: seq<(string, Tree)>)

  /** How texts are read as numbers and flags; None when they are not one. */
  datatype Reader = Reader(asNum: string -> Option<int>, asFlag: string -> Option<bool>)

  /** The first child with that key. */
  function Child(t: Tree, key: string): Option<Tree> { FirstChild(t.kids, key) }

  function FirstChild(kids: seq<(string, Tree)>, key: string): Option<Tree> {
    if kids == [] then None
    else if kids[0].0 == key then Some(kids[0].1)
    else FirstChild(kids[1..], key)
  }

  function Text(t: Tree, key: string): Option<string> {
    match Child(t, key)
    case None => None
    case Some(c) => Some(c.data)
  }

  /** The value a node gives a field, of the type of `like`; None when missing or unreadable. */
  function Given(rd: Reader, t: Tree, f: Field, like: Value): Option<Value> {
    match Text(t, FieldName(f))
    case None => None
    case Some(s) => Read(rd, s, like)
  }

  function Read(rd: Reader, s: string, like: Value): Option<Value> {
    match like
    case Str(_) => Some(Str(s))
    case Num(_) => (match rd.asNum(s) case None => None case Some(x) => Some(Num(x)))
    case Flag(_) => (match rd.asFlag(s) case None => None case Some(b) => Some(Flag(b)))
  }

  /** A node's own values, the inherited ones elsewhere. */
  function Inherit(rd: Reader, t: Tree, base: Settings): Settings {
    map f | f in base :: match Given(rd, t, f, base[f]) case None => base[f] case Some(v) => v
  }

  function Common(rd: Reader, cn: Tree): Settings { Inherit(rd, cn, Over(map[])) }

  /** The nodes below every child with that key, in order. */
  function Below(kids: seq<(string, Tree)>, key: string): seq<Tree> {
    if kids == [] then [] else
      Below(kids[..|kids| - 1], key) + if kids[|kids| - 1].0 == key then Trees(kids[|kids| - 1].1.kids) else []
  }

  function Trees(kids: seq<(string, Tree)>): (r: seq<Tree>)
    ensures |r| == |kids| && forall i | 0 <= i < |kids| :: r[i] == kids[i].1
  {
    if kids == [] then [] else Trees(kids[..|kids| - 1]) + [kids[|kids| - 1].1]
  }

  function NumSockets(rd: Reader, cn: Tree): int {
    match Text(cn, "numSockets")
    case None => 0
    case Some(s) => (match rd.asNum(s) case None => 0 case Some(n) => n)
  }

  function SocketTrees(cn: Tree): seq<Tree> { Below(cn.kids, "sockets") }

  /** The settings of the sub-channels a channel node asks for. */
  function Sockets(rd: Reader, cn: Tree): (r: seq<Settings>)
    ensures |r| == if NumSockets(rd, cn) > 0 then NumSockets(rd, cn)
                   else if |SocketTrees(cn)| > 0 then |SocketTrees(cn)|
                   else 1
  {
    var n := NumSockets(rd, cn);
    if n > 0 then Copies(Common(rd, cn), n) else SubSettings(rd, cn, Common(rd, cn))
  }

  function Copies(s: Settings, n: nat): (r: seq<Settings>)
    ensures |r| == n && forall i | 0 <= i < n :: r[i] == s
  {
    if n == 0 then [] else Copies(s, n - 1) + [s]
  }

  /** One sub-channel per socket node, or one with the channel's settings when there is none. */
  function SubSettings(rd: Reader, cn: Tree, common: Settings): (r: seq<Settings>)
    ensures |r| == if |SocketTrees(cn)| > 0 then |SocketTrees(cn)| else 1
  {
    if SocketTrees(cn) == [] then [common] else Inherited(rd, SocketTrees(cn), common)
  }

  function Inherited(rd: Reader, ts: seq<Tree>, common: Settings): (r: seq<Settings>)
    ensures |r| == |ts| && forall i | 0 <= i < |ts| :: r[i] == Inherit(rd, ts[i], common)
  {
    if ts == [] then [] else Inherited(rd, ts[..|ts| - 1], common) + [Inherit(rd, ts[|ts| - 1], common)]
  }

  /** Every socket has all fields: its own value, else the channel's, else the default. */
  lemma SocketInherits(rd: Reader, cn: Tree, i: nat, f: Field)
    requires i < |Sockets(rd, cn)|
    ensures f in Sockets(rd, cn)[i]
    ensures var d := Setting(DEFAULTS, f);
            var own := if NumSockets(rd, cn) > 0 || SocketTrees(cn) == [] then None
                       else Given(rd, SocketTrees(cn)[i], f, d);
            Sockets(rd, cn)[i][f]
            == if own.Some? then own.value else if Given(rd, cn, f, d).Some? then Given(rd, cn, f, d).value else d
  {
    var d := Setting(DEFAULTS, f);
    assert f in Over(map[]) && Over(map[])[f] == d;
    var common := Common(rd, cn);
    assert f in common && SameKind(common[f], d);
    ReadLike(rd, cn, f, d, common[f]);
    if NumSockets(rd, cn) <= 0 && SocketTrees(cn) != [] {
      var sn := SocketTrees(cn)[i];
      assert Sockets(rd, cn)[i] == Inherit(rd, sn, common);
      ReadLike(rd, sn, f, d, common[f]);
    }
  }

  /** Reading depends on the type of the inherited value only. */
  lemma ReadLike(rd: Reader, t: Tree, f: Field, d: Value, e: Value)
    requires SameKind(d, e)
    ensures Given(rd, t, f, d) == Given(rd, t, f, e)
    ensures Given(rd, t, f, d).Some? ==> SameKind(Given(rd, t, f, d).value, d)
  {
  }

  // ---------------------------------------------------------------- writing into the flat configuration

  /** emplace: the first value of a key stays. */
  function Emplaced(props: Properties, n: string, i: nat, s: Settings): Properties {
    Prefixed(Prefix(n, i), s) + props
  }

  function EmplacedAll(props: Properties, n: string, list: seq<Settings>): Properties {
    if list == [] then props else
      Emplaced(EmplacedAll(props, n, list[..|list| - 1]), n, |list| - 1, list[|list| - 1])
  }

  datatype Def = Def(name: string, sockets: seq<Settings>)

  /** A channel node without a name throws. */
  function DefOf(rd: Reader, cn: Tree): Option<Def> {
    match Text(cn, "name")
    case None => None
    case Some(name) => Some(Def(name, Sockets(rd, cn)))
  }

  function Defs(rd: Reader, cns: seq<Tree>): Option<seq<Def>> {
    if cns == [] then Some([]) else
      match (Defs(rd, cns[..|cns| - 1]), DefOf(rd, cns[|cns| - 1]))
      case (Some(ds), Some(d)) => Some(ds + [d])
      case _ => None
  }

  function Flatten(props: Properties, defs: seq<Def>): Properties {
    if defs == [] then props else
      var last := defs[|defs| - 1];
      EmplacedAll(Flatten(props, defs[..|defs| - 1]), last.name, last.sockets)
  }

  /** The configuration read from a list of channel nodes; None when one of them throws. */
  function Parsed(rd: Reader, base: Properties, cns: seq<Tree>): Option<Properties> {
    match Defs(rd, cns)
    case None => None
    case Some(defs) => Some(Flatten(base, defs))
  }

  function DeviceKey(d: Tree): string {
    match Text(d, "key")
    case Some(k) => k
    case None => (match Text(d, "id") case Some(k) => k case None => "")
  }

  /** The channel nodes of the devices that match. */
  function ChannelTrees(ds: seq<Tree>, id: string): seq<Tree> {
    if ds == [] then [] else
      var last := ds[|ds| - 1];
      ChannelTrees(ds[..|ds| - 1], id) + if DeviceKey(last) == id then Below(last.kids, "channels") else []
  }

  /** All the channel nodes that count for a device, in the order of the document. */
  function Relevant(root: Tree, id: string): seq<Tree> { ChannelTrees(Below(root.kids, "devices"), id) }

  // ---------------------------------------------------------------- the parsers

  /** One iteration per setting: emplace only writes a missing key. */
  method EmplaceSettings(props: Properties, n: string, i: nat, s: Settings) returns (r: Properties)
    ensures r == Emplaced(props, n, i, s)
  {
    r := props;
    var todo := s.Keys;
    assert s - todo == map[];
    assert props == Emplaced(props, n, i, map[]);
    while todo != {}
      invariant todo <= s.Keys
      invariant r == Emplaced(props, n, i, s - todo)
      decreases todo
    {
      var f :| f in todo;
      EmplaceOne(props, n, i, s - todo, f, s[f]);
      LessToDo(s, todo, f);
      if KeyOf(n, i, f) !in r {
        r := r[KeyOf(n, i, f) := s[f]];
      }
      todo := todo - {f};
    }
    assert s - {} == s;
  }

  lemma LessToDo(s: Settings, todo: set<Field>, f: Field)
    requires todo <= s.Keys && f in todo
    ensures s - (todo - {f}) == (s - todo)[f := s[f]]
  {
  }

  lemma EmplaceOne(props: Properties, n: string, i: nat, s: Settings, f: Field, v: Value)
    requires f !in s
    ensures var r := Emplaced(props, n, i, s);
            Emplaced(props, n, i, s[f := v]) == if KeyOf(n, i, f) in r then r else r[KeyOf(n, i, f) := v]
  {
    var p := Prefix(n, i);
    PrefixedAt(p, s, f);
    PrefixedExtend(p, s, f, v);
    EmplaceKey(Prefixed(p, s), props, KeyOf(n, i, f), v);
  }

  lemma EmplaceKey(a: Properties, props: Properties, k: string, v: Value)
    requires k !in a
    ensures a[k := v] + props == if k in a + props then a + props else (a + props)[k := v]
  {
  }

  lemma EmplacedSnoc(props: Properties, n: string, list: seq<Settings>, s: Settings)
    ensures EmplacedAll(props, n, list + [s]) == Emplaced(EmplacedAll(props, n, list), n, |list|, s)
  {
    assert (list + [s])[..|list|] == list;
  }

  lemma InheritedSnoc(rd: Reader, ts: seq<Tree>, t: Tree, common: Settings)
    ensures Inherited(rd, ts + [t], common) == Inherited(rd, ts, common) + [Inherit(rd, t, common)]
  {
    assert (ts + [t])[..|ts|] == ts;
  }

  lemma TreesSnoc(kids: seq<(string, Tree)>, b: nat)
    requires b < |kids|
    ensures Trees(kids[..b + 1]) == Trees(kids[..b]) + [kids[b].1]
  {
    assert kids[..b + 1][..b] == kids[..b];
  }

  lemma BelowSnoc(kids: seq<(string, Tree)>, a: nat, key: string)
    requires a < |kids|
    ensures kids[a].0 == key ==> Below(kids[..a + 1], key) == Below(kids[..a], key) + Trees(kids[a].1.kids)
    ensures kids[a].0 != key ==> Below(kids[..a + 1], key) == Below(kids[..a], key)
  {
    assert kids[..a + 1][..a] == kids[..a];
  }

  /** The configuration after the given sockets of one channel. */
  function Emitted(rd: Reader, base: Properties, name: string, ts: seq<Tree>, common: Settings): Properties {
    EmplacedAll(base, name, Inherited(rd, ts, common))
  }

  lemma EmittedSnoc(rd: Reader, base: Properties, name: string, ts: seq<Tree>, t: Tree, common: Settings)
    ensures Emitted(rd, base, name, ts + [t], common)
            == Emplaced(Emitted(rd, base, name, ts, common), name, |ts|, Inherit(rd, t, common))
  {
    InheritedSnoc(rd, ts, t, common);
    EmplacedSnoc(base, name, Inherited(rd, ts, common), Inherit(rd, t, common));
  }

  /** The sockets below one node, numbered from i on. */
  method SocketsParser(
    rd: Reader, sockets: seq<(string, Tree)>, properties: Properties, name: string, common: Settings, i: nat,
    ghost base: Properties, ghost before: seq<Tree>)
    returns (r: Properties, k: nat)
    requires i == |before| && properties == Emitted(rd, base, name, before, common)
    ensures k == i + |sockets|
    ensures r == Emitted(rd, base, name, before + Trees(sockets), common)
  {
    r, k := properties, i;
    ghost var ts := before;
    for b := 0 to |sockets|
      invariant k == |ts| == i + b && ts == before + Trees(sockets[..b])
      invariant r == Emitted(rd, base, name, ts, common)
    {
      var sn := sockets[b].1;
      TreesSnoc(sockets, b);
      Concat(before, Trees(sockets[..b]), [sn]);
      EmittedSnoc(rd, base, name, ts, sn, common);
      r := EmplaceSettings(r, name, k, Inherit(rd, sn, common));
      k := k + 1;
      ts := ts + [sn];
    }
    assert sockets[..|sockets|] == sockets;
  }

  method SubChannelParser(rd: Reader, channelTree: Tree, properties: Properties, name: string, common: Settings)
    returns (r: Properties)
    ensures r == EmplacedAll(properties, name, SubSettings(rd, channelTree, common))
  {
    r := properties;
    var i := 0;
    var kids := channelTree.kids;
    for a := 0 to |kids|
      invariant i == |Below(kids[..a], "sockets")|
      invariant r == Emitted(rd, properties, name, Below(kids[..a], "sockets"), common)
    {
      BelowSnoc(kids, a, "sockets");
      if kids[a].0 == "sockets" {
        r, i := SocketsParser(rd, kids[a].1.kids, r, name, common, i, properties, Below(kids[..a], "sockets"));
      }
    }
    assert kids[..|kids|] == kids;
    if i == 0 {
      EmplacedSnoc(properties, name, [], common);
      assert [] + [common] == [common];
      r := EmplaceSettings(r, name, 0, common);
    }
  }

  /** A channel node's own loop over numSockets. */
  method CopiesParser(properties: Properties, name: string, common: Settings, numSockets: nat) returns (r: Properties)
    ensures r == EmplacedAll(properties, name, Copies(common, numSockets))
  {
    r := properties;
    for i := 0 to numSockets
      invariant r == EmplacedAll(properties, name, Copies(common, i))
    {
      EmplacedSnoc(properties, name, Copies(common, i), common);
      r := EmplaceSettings(r, name, i, common);
    }
  }

  method OneChannel(rd: Reader, cn: Tree, props: Properties, ghost base: Properties, ghost before: seq<Tree>)
    returns (r: Option<Properties>)
    requires Some(props) == Parsed(rd, base, before)
    ensures r == Parsed(rd, base, before + [cn])
  {
    assert (before + [cn])[..|before|] == before;
    var common := Common(rd, cn);
    var name := Text(cn, "name");
    if name.None? {
      return None;
    }
    ghost var defs := Defs(rd, before).value;
    FlattenSnoc(base, defs, DefOf(rd, cn).value);
    var numSockets := NumSockets(rd, cn);
    var next: Properties;
    if numSockets > 0 {
      next := CopiesParser(props, name.value, common, numSockets);
    } else {
      next := SubChannelParser(rd, cn, props, name.value, common);
    }
    r := Some(next);
  }

  lemma FlattenSnoc(base: Properties, defs: seq<Def>, d: Def)
    ensures Flatten(base, defs + [d]) == EmplacedAll(Flatten(base, defs), d.name, d.sockets)
  {
    assert (defs + [d])[..|defs|] == defs;
  }

  /** Once a channel node has thrown, nothing after it matters. */
  lemma {:induction false} ParsedPrefix(rd: Reader, base: Properties, cns: seq<Tree>, more: seq<Tree>)
    requires cns <= more && Parsed(rd, base, cns) == None
    ensures Parsed(rd, base, more) == None
  {
    if |more| > |cns| {
      assert cns <= more[..|more| - 1];
      ParsedPrefix(rd, base, cns, more[..|more| - 1]);
    } else {
      assert cns == more;
    }
  }

  /** The channel nodes below one "channels" node. */
  method ChannelsParser(
    rd: Reader, cns: seq<(string, Tree)>, properties: Properties, ghost base: Properties, ghost before: seq<Tree>)
    returns (r: Option<Properties>)
    requires Some(properties) == Parsed(rd, base, before)
    ensures r == Parsed(rd, base, before + Trees(cns))
  {
    r := Some(properties);
    ghost var ts := before;
    for b := 0 to |cns|
      invariant ts == before + Trees(cns[..b]) && r.Some? && r == Parsed(rd, base, ts)
    {
      TreesSnoc(cns, b);
      Concat(before, Trees(cns[..b]), [cns[b].1]);
      r := OneChannel(rd, cns[b].1, r.value, base, ts);
      ts := ts + [cns[b].1];
      if r.None? {
        TreesPrefix(cns, b + 1);
        Longer(before, Trees(cns[..b + 1]), Trees(cns));
        ParsedPrefix(rd, base, ts, before + Trees(cns));
        return;
      }
    }
    assert cns[..|cns|] == cns;
  }

  lemma Concat(a: seq<Tree>, b: seq<Tree>, c: seq<Tree>)
    ensures (a + b) + c == a + (b + c)
  {
  }

  lemma Longer(a: seq<Tree>, b: seq<Tree>, c: seq<Tree>)
    requires b <= c
    ensures a + b <= a + c
  {
  }

  lemma TreesPrefix(kids: seq<(string, Tree)>, b: nat)
    requires b <= |kids|
    ensures Trees(kids[..b]) <= Trees(kids)
  {
  }

  lemma {:induction false} BelowPrefix(kids: seq<(string, Tree)>, a: nat, key: string)
    requires a <= |kids|
    ensures Below(kids[..a], key) <= Below(kids, key)
  {
    if a < |kids| {
      var most := kids[..|kids| - 1];
      BelowPrefix(most, a, key);
      assert most[..a] == kids[..a];
    } else {
      assert kids[..a] == kids;
    }
  }

  /** All channels of a device node; None when one of them has no name. */
  method ChannelParser(rd: Reader, tree: Tree, properties: Properties, ghost base: Properties, ghost before: seq<Tree>)
    returns (r: Option<Properties>)
    requires Some(properties) == Parsed(rd, base, before)
    ensures r == Parsed(rd, base, before + Below(tree.kids, "channels"))
  {
    var kids := tree.kids;
    r := Some(properties);
    ghost var ts := before;
    for a := 0 to |kids|
      invariant ts == before + Below(kids[..a], "channels") && r.Some? && r == Parsed(rd, base, ts)
    {
      BelowSnoc(kids, a, "channels");
      if kids[a].0 == "channels" {
        r := ChannelsParser(rd, kids[a].1.kids, r.value, base, ts);
        Concat(before, Below(kids[..a], "channels"), Trees(kids[a].1.kids));
        ts := ts + Trees(kids[a].1.kids);
        if r.None? {
          BelowPrefix(kids, a + 1, "channels");
          Longer(before, Below(kids[..a + 1], "channels"), Below(kids, "channels"));
          ParsedPrefix(rd, base, ts, before + Below(kids, "channels"));
          return;
        }
      }
    }
    assert kids[..|kids|] == kids;
  }

  /** The devices below one "devices" node. */
  method DevicesParser(
    rd: Reader, devices: seq<(string, Tree)>, id: string, properties: Properties, ghost before: seq<Tree>)
    returns (r: Option<Properties>)
    requires Some(properties) == Parsed(rd, map[], ChannelTrees(before, id))
    ensures r == Parsed(rd, map[], ChannelTrees(before + Trees(devices), id))
  {
    r := Some(properties);
    ghost var ts := before;
    for b := 0 to |devices|
      invariant ts == before + Trees(devices[..b]) && r.Some? && r == Parsed(rd, map[], ChannelTrees(ts, id))
    {
      var d := devices[b].1;
      TreesSnoc(devices, b);
      Concat(before, Trees(devices[..b]), [d]);
      ChannelTreesSnoc(ts, d, id);
      ghost var cns := ChannelTrees(ts, id);
      ts := ts + [d];
      if DeviceKey(d) != id {
        continue;
      }
      r := ChannelParser(rd, d, r.value, map[], cns);
      if r.None? {
        TreesPrefix(devices, b + 1);
        Longer(before, Trees(devices[..b + 1]), Trees(devices));
        ChannelTreesPrefix(ts, before + Trees(devices), id);
        ParsedPrefix(rd, map[], ChannelTrees(ts, id), ChannelTrees(before + Trees(devices), id));
        return;
      }
    }
    assert devices[..|devices|] == devices;
  }

  lemma ChannelTreesSnoc(ds: seq<Tree>, d: Tree, id: string)
    ensures DeviceKey(d) == id ==> ChannelTrees(ds + [d], id) == ChannelTrees(ds, id) + Below(d.kids, "channels")
    ensures DeviceKey(d) != id ==> ChannelTrees(ds + [d], id) == ChannelTrees(ds, id)
  {
    assert (ds + [d])[..|ds|] == ds;
  }

  lemma {:induction false} ChannelTreesPrefix(ds: seq<Tree>, more: seq<Tree>, id: string)
    requires ds <= more
    ensures ChannelTrees(ds, id) <= ChannelTrees(more, id)
  {
    if |more| > |ds| {
      assert ds <= more[..|more| - 1];
      ChannelTreesPrefix(ds, more[..|more| - 1], id);
    } else {
      assert ds == more;
    }
  }

  /** The whole document: what the channel nodes of the matching devices say, or None when one of them has no name. */
  method DeviceParser(rd: Reader, root: Tree, id: string) returns (r: Option<Properties>)
    ensures r == Parsed(rd, map[], Relevant(root, id))
  {
    var kids := root.kids;
    r := Some(map[]);
    ghost var ts: seq<Tree> := [];
    for a := 0 to |kids|
      invariant ts == Below(kids[..a], "devices") && r.Some? && r == Parsed(rd, map[], ChannelTrees(ts, id))
    {
      BelowSnoc(kids, a, "devices");
      if kids[a].0 == "devices" {
        r := DevicesParser(rd, kids[a].1.kids, id, r.value, ts);
        ts := ts + Trees(kids[a].1.kids);
        if r.None? {
          BelowPrefix(kids, a + 1, "devices");
          ChannelTreesPrefix(ts, Below(kids, "devices"), id);
          ParsedPrefix(rd, map[], ChannelTrees(ts, id), Relevant(root, id));
          return;
        }
      }
    }
    assert kids[..|kids|] == kids;
  }
}
