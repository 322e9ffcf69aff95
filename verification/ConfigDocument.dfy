/**
 * What a JSON configuration says, told by positions in the document: which node gives a key of the flat configuration
 * its value, and which text of that node it is.
 */
module ConfigDocument {
  import opened Wrappers
  import opened Keys
  import opened Channels
  import opened ChannelLayout
  import opened ConfigParser
  import opened ConfigMeaning

  // ---------------------------------------------------------------- texts

  /** Child j is the first with that key. */
  predicate FirstAt(t: Tree, j: nat, key: string) {
    j < |t.kids| && t.kids[j].0 == key && forall i | 0 <= i < j :: t.kids[i].0 != key
  }

  predicate Absent(t: Tree, key: string) { forall j | 0 <= j < |t.kids| :: t.kids[j].0 != key }

  lemma {:induction false} FirstChildIs(kids: seq<(string, Tree)>, key: string)
    ensures FirstChild(kids, key).None? <==> forall j | 0 <= j < |kids| :: kids[j].0 != key
    ensures forall j | 0 <= j < |kids| && kids[j].0 == key && (forall i | 0 <= i < j :: kids[i].0 != key) ::
              FirstChild(kids, key) == Some(kids[j].1)
  {
    if kids == [] {
    } else {
      var rest := kids[1..];
      FirstChildIs(rest, key);
      assert forall j | 0 <= j < |rest| :: rest[j] == kids[j + 1];
      forall j | 0 <= j < |kids| && kids[j].0 == key && (forall i | 0 <= i < j :: kids[i].0 != key)
        ensures FirstChild(kids, key) == Some(kids[j].1)
      {
        if j > 0 {
          assert kids[0].0 != key;
          assert rest[j - 1].0 == key && forall i | 0 <= i < j - 1 :: rest[i].0 != key;
        }
      }
      if forall j | 0 <= j < |kids| :: kids[j].0 != key {
        assert kids[0].0 != key;
      } else if kids[0].0 != key {
        var j :| 0 <= j < |kids| && kids[j].0 == key;
        assert rest[j - 1].0 == key;
      }
    }
  }

  /** A text is that of the first child with the key. */
  lemma TextIs(t: Tree, key: string)
    ensures Text(t, key).None? <==> Absent(t, key)
    ensures forall j: nat | FirstAt(t, j, key) :: Text(t, key) == Some(t.kids[j].1.data)
  {
    FirstChildIs(t.kids, key);
  }

  lemma {:induction false} HasFirst(t: Tree, key: string, n: nat) returns (j: nat)
    requires n < |t.kids| && t.kids[n].0 == key
    ensures j <= n && FirstAt(t, j, key)
  {
    if i :| 0 <= i < n && t.kids[i].0 == key {
      j := HasFirst(t, key, i);
    } else {
      j := n;
    }
  }

  /** The text of the first child with the key is s. */
  ghost predicate Writes(t: Tree, key: string, s: string) {
    exists j: nat :: FirstAt(t, j, key) && t.kids[j].1.data == s
  }

  lemma WritesIs(t: Tree, key: string, s: string)
    ensures Text(t, key) == Some(s) <==> Writes(t, key, s)
  {
    TextIs(t, key);
    if Text(t, key) == Some(s) {
      var n :| 0 <= n < |t.kids| && t.kids[n].0 == key;
      var j := HasFirst(t, key, n);
    }
  }

  // ---------------------------------------------------------------- values

  predicate IsName(f: Field) { f.Type? || f.Method? || f.Address? || f.Transport? }

  /** What a text means for a field: names as they are, the flag of autoBind, numbers elsewhere. */
  predicate Denotes(rd: Reader, f: Field, s: string, v: Value) {
    match v
    case Str(x) => IsName(f) && x == s
    case Flag(b) => f.AutoBind? && rd.asFlag(s) == Some(b)
    case Num(n) => !IsName(f) && !f.AutoBind? && rd.asNum(s) == Some(n)
  }

  /** The node gives the field this value: its first child of that name has a text that means it. */
  ghost predicate Says(rd: Reader, t: Tree, f: Field, v: Value) {
    exists s :: Writes(t, FieldName(f), s) && Denotes(rd, f, s, v)
  }

  /** The node has no such child, or its text cannot be read. */
  ghost predicate Silent(rd: Reader, t: Tree, f: Field) { forall v :: !Says(rd, t, f, v) }

  lemma ReadIs(rd: Reader, f: Field, s: string, v: Value)
    ensures Read(rd, s, Setting(DEFAULTS, f)) == Some(v) <==> Denotes(rd, f, s, v)
  {
  }

  lemma GivenIs(rd: Reader, t: Tree, f: Field, v: Value)
    ensures Given(rd, t, f, Setting(DEFAULTS, f)) == Some(v) <==> Says(rd, t, f, v)
  {
    if Given(rd, t, f, Setting(DEFAULTS, f)) == Some(v) {
      var s := Text(t, FieldName(f)).value;
      WritesIs(t, FieldName(f), s);
      ReadIs(rd, f, s, v);
    }
    if s :| Writes(t, FieldName(f), s) && Denotes(rd, f, s, v) {
      WritesIs(t, FieldName(f), s);
      ReadIs(rd, f, s, v);
    }
  }

  lemma SilentIs(rd: Reader, t: Tree, f: Field)
    ensures Given(rd, t, f, Setting(DEFAULTS, f)).None? <==> Silent(rd, t, f)
  {
    forall v ensures Given(rd, t, f, Setting(DEFAULTS, f)) == Some(v) <==> Says(rd, t, f, v) { GivenIs(rd, t, f, v); }
    var g := Given(rd, t, f, Setting(DEFAULTS, f));
    if g.Some? { assert Says(rd, t, f, g.value); }
  }

  // ---------------------------------------------------------------- the sockets of a channel node

  /** How many nodes lie below the children with that key before child a. */
  function Offset(kids: seq<(string, Tree)>, key: string, a: nat): nat
    requires a <= |kids|
  {
    if a == 0 then 0
    else Offset(kids, key, a - 1) + if kids[a - 1].0 == key then |kids[a - 1].1.kids| else 0
  }

  lemma {:induction false} OffsetOfFirst(kids: seq<(string, Tree)>, n: nat, key: string, a: nat)
    requires a <= n <= |kids|
    ensures Offset(kids[..n], key, a) == Offset(kids, key, a)
  {
    if a == 0 {
    } else {
      OffsetOfFirst(kids, n, key, a - 1);
    }
  }

  lemma {:induction false} BelowSize(kids: seq<(string, Tree)>, key: string)
    ensures |Below(kids, key)| == Offset(kids, key, |kids|)
  {
    if kids == [] {
    } else {
      var n := |kids| - 1;
      BelowSize(kids[..n], key);
      OffsetOfFirst(kids, n, key, n);
    }
  }

  /** Node b below child a is node Offset + b of all. */
  lemma {:induction false} BelowAt(kids: seq<(string, Tree)>, key: string, a: nat, b: nat)
    requires a < |kids| && kids[a].0 == key && b < |kids[a].1.kids|
    ensures var x := Offset(kids, key, a) + b;
            x < |Below(kids, key)| && Below(kids, key)[x] == kids[a].1.kids[b].1
  {
    var n := |kids| - 1;
    OffsetOfFirst(kids, n, key, if a < n then a else n);
    if a == n {
      BelowSize(kids[..n], key);
    } else {
      BelowAt(kids[..n], key, a, b);
    }
  }

  /** And every node is one of these. */
  lemma {:induction false} BelowFrom(kids: seq<(string, Tree)>, key: string, x: nat) returns (a: nat, b: nat)
    requires x < |Below(kids, key)|
    ensures a < |kids| && kids[a].0 == key && b < |kids[a].1.kids| && x == Offset(kids, key, a) + b
  {
    var n := |kids| - 1;
    var most := kids[..n];
    BelowSize(most, key);
    if x < |Below(most, key)| {
      a, b := BelowFrom(most, key, x);
      OffsetOfFirst(kids, n, key, a);
    } else {
      a, b := n, x - |Below(most, key)|;
      OffsetOfFirst(kids, n, key, n);
    }
  }

  /** Node b below child a, which has the key, is t, and it is node x of all. */
  predicate NodeBelow(kids: seq<(string, Tree)>, key: string, a: nat, b: nat, x: nat, t: Tree) {
    && a < |kids| && kids[a].0 == key && b < |kids[a].1.kids|
    && t == kids[a].1.kids[b].1 && x == Offset(kids, key, a) + b
  }

  lemma BelowIs(kids: seq<(string, Tree)>, key: string, a: nat, b: nat, x: nat, t: Tree)
    requires NodeBelow(kids, key, a, b, x, t)
    ensures x < |Below(kids, key)| && Below(kids, key)[x] == t
  {
    BelowAt(kids, key, a, b);
  }

  lemma BelowHas(kids: seq<(string, Tree)>, key: string, x: nat) returns (a: nat, b: nat)
    requires x < |Below(kids, key)|
    ensures NodeBelow(kids, key, a, b, x, Below(kids, key)[x])
  {
    a, b := BelowFrom(kids, key, x);
    BelowAt(kids, key, a, b);
  }

  /** Later children have later nodes. */
  lemma {:induction false} OffsetOrder(kids: seq<(string, Tree)>, key: string, a: nat, c: nat)
    requires a < c <= |kids| && kids[a].0 == key
    ensures Offset(kids, key, a) + |kids[a].1.kids| <= Offset(kids, key, c)
  {
    if c == a + 1 {
    } else {
      OffsetOrder(kids, key, a, c - 1);
    }
  }

  /** The channel node asks for n sockets with the common settings. */
  ghost predicate AsksFor(rd: Reader, cn: Tree, n: int) {
    exists s :: Writes(cn, "numSockets", s) && rd.asNum(s) == Some(n)
  }

  lemma NumSocketsIs(rd: Reader, cn: Tree)
    ensures forall n :: AsksFor(rd, cn, n) ==> NumSockets(rd, cn) == n
    ensures (forall n :: !AsksFor(rd, cn, n)) ==> NumSockets(rd, cn) == 0
  {
    match Text(cn, "numSockets")
    case None => TextIs(cn, "numSockets");
    case Some(t) => WritesIs(cn, "numSockets", t);
    forall s, n | Writes(cn, "numSockets", s) && rd.asNum(s) == Some(n) ensures NumSockets(rd, cn) == n {
      WritesIs(cn, "numSockets", s);
    }
    if NumSockets(rd, cn) != 0 { assert AsksFor(rd, cn, NumSockets(rd, cn)); }
  }

  /** How many sub-channels a channel node stands for: as many as it asks for, else its socket nodes, else one. */
  ghost predicate StandsFor(rd: Reader, cn: Tree, k: nat) {
    var below := Offset(cn.kids, "sockets", |cn.kids|);
    if exists n :: AsksFor(rd, cn, n) && n > 0 then AsksFor(rd, cn, k)
    else k == if below > 0 then below else 1
  }

  lemma SocketsNumber(rd: Reader, cn: Tree)
    ensures StandsFor(rd, cn, |Sockets(rd, cn)|)
    ensures forall k: nat :: StandsFor(rd, cn, k) ==> k == |Sockets(rd, cn)|
  {
    NumSocketsIs(rd, cn);
    BelowSize(cn.kids, "sockets");
  }

  /** The value of a field common to a channel node: its own, else the default. */
  ghost predicate CommonValue(rd: Reader, cn: Tree, f: Field, v: Value) {
    Says(rd, cn, f, v) || (Silent(rd, cn, f) && v == Setting(DEFAULTS, f))
  }

  /** Sub-channel i of the channel node comes from the socket node sn. */
  ghost predicate SocketAt(rd: Reader, cn: Tree, i: nat, sn: Tree) {
    && (forall n :: AsksFor(rd, cn, n) ==> n <= 0)
    && exists a: nat, b: nat :: NodeBelow(cn.kids, "sockets", a, b, i, sn)
  }

  /** The value of field f of sub-channel i: the socket node's, else the channel node's, else the default. */
  ghost predicate ValueIs(rd: Reader, cn: Tree, i: nat, f: Field, v: Value) {
    && (forall sn | SocketAt(rd, cn, i, sn) ::
          Says(rd, sn, f, v) || (Silent(rd, sn, f) && CommonValue(rd, cn, f, v)))
    && ((forall sn :: !SocketAt(rd, cn, i, sn)) ==> CommonValue(rd, cn, f, v))
  }

  lemma CommonIs(rd: Reader, cn: Tree, f: Field)
    ensures var d := Setting(DEFAULTS, f);
            var g := Given(rd, cn, f, d);
            CommonValue(rd, cn, f, if g.Some? then g.value else d)
  {
    var g := Given(rd, cn, f, Setting(DEFAULTS, f));
    SilentIs(rd, cn, f);
    if g.Some? { GivenIs(rd, cn, f, g.value); }
  }

  lemma SocketTreeAt(rd: Reader, cn: Tree, i: nat, sn: Tree)
    requires SocketAt(rd, cn, i, sn)
    ensures NumSockets(rd, cn) <= 0 && i < |SocketTrees(cn)| && SocketTrees(cn)[i] == sn
  {
    NumSocketsIs(rd, cn);
    var a: nat, b: nat :| NodeBelow(cn.kids, "sockets", a, b, i, sn);
    BelowIs(cn.kids, "sockets", a, b, i, sn);
  }

  lemma SocketNodeOf(rd: Reader, cn: Tree, i: nat)
    requires NumSockets(rd, cn) <= 0 && i < |SocketTrees(cn)|
    ensures SocketAt(rd, cn, i, SocketTrees(cn)[i])
  {
    NumSocketsIs(rd, cn);
    var a, b := BelowHas(cn.kids, "sockets", i);
  }

  /** Every field of every sub-channel has the value the document gives it. */
  lemma SocketValue(rd: Reader, cn: Tree, i: nat, f: Field)
    requires i < |Sockets(rd, cn)|
    ensures f in Sockets(rd, cn)[i] && ValueIs(rd, cn, i, f, Sockets(rd, cn)[i][f])
  {
    SocketInherits(rd, cn, i, f);
    CommonIs(rd, cn, f);
    var v := Sockets(rd, cn)[i][f];
    if NumSockets(rd, cn) <= 0 && SocketTrees(cn) != [] {
      var sn := SocketTrees(cn)[i];
      SocketNodeOf(rd, cn, i);
      SilentIs(rd, sn, f);
      var g := Given(rd, sn, f, Setting(DEFAULTS, f));
      if g.Some? { GivenIs(rd, sn, f, g.value); }
      assert Says(rd, sn, f, v) || (Silent(rd, sn, f) && CommonValue(rd, cn, f, v));
      forall t | SocketAt(rd, cn, i, t) ensures t == sn { SocketTreeAt(rd, cn, i, t); }
    } else {
      forall t ensures !SocketAt(rd, cn, i, t) {
        if SocketAt(rd, cn, i, t) { SocketTreeAt(rd, cn, i, t); }
      }
    }
  }

  // ---------------------------------------------------------------- the channel nodes of a device

  /** The device node is the one asked for: by its key, without one by its id, without both by an empty id. */
  ghost predicate IsDevice(d: Tree, id: string) {
    if !Absent(d, "key") then Writes(d, "key", id)
    else if !Absent(d, "id") then Writes(d, "id", id)
    else id == ""
  }

  lemma DeviceKeyIs(d: Tree, id: string)
    ensures DeviceKey(d) == id <==> IsDevice(d, id)
  {
    TextIs(d, "key");
    TextIs(d, "id");
    WritesIs(d, "key", id);
    WritesIs(d, "id", id);
  }

  /**
   * A channel node of the document: node b below child a of the root is the device, node d below its child c the
   * channel.
   */
  datatype Pos = Pos(a: nat, b: nat, c: nat, d: nat)

  predicate Before(p: Pos, q: Pos) {
    || p.a < q.a || (p.a == q.a && p.b < q.b) || (p.a == q.a && p.b == q.b && p.c < q.c)
    || (p.a == q.a && p.b == q.b && p.c == q.c && p.d < q.d)
  }

  /** There is a device asked for at a and b. */
  ghost predicate DeviceAt(root: Tree, id: string, a: nat, b: nat) {
    && a < |root.kids| && root.kids[a].0 == "devices" && b < |root.kids[a].1.kids|
    && IsDevice(root.kids[a].1.kids[b].1, id)
  }

  ghost predicate ChannelAt(root: Tree, id: string, p: Pos) {
    && DeviceAt(root, id, p.a, p.b)
    && var dev := root.kids[p.a].1.kids[p.b].1;
       p.c < |dev.kids| && dev.kids[p.c].0 == "channels" && p.d < |dev.kids[p.c].1.kids|
  }

  function NodeAt(root: Tree, id: string, p: Pos): Tree
    requires ChannelAt(root, id, p)
  {
    root.kids[p.a].1.kids[p.b].1.kids[p.c].1.kids[p.d].1
  }

  /** How many channel nodes the first y devices have. */
  function Start(ds: seq<Tree>, id: string, y: nat): nat
    requires y <= |ds|
  {
    if y == 0 then 0
    else Start(ds, id, y - 1) + if DeviceKey(ds[y - 1]) == id then |Below(ds[y - 1].kids, "channels")| else 0
  }

  lemma {:induction false} StartOfFirst(ds: seq<Tree>, n: nat, id: string, y: nat)
    requires y <= n <= |ds|
    ensures Start(ds[..n], id, y) == Start(ds, id, y)
  {
    if y == 0 {
    } else {
      StartOfFirst(ds, n, id, y - 1);
    }
  }

  lemma {:induction false} TreesNumber(ds: seq<Tree>, id: string)
    ensures |ChannelTrees(ds, id)| == Start(ds, id, |ds|)
  {
    if ds == [] {
    } else {
      var n := |ds| - 1;
      TreesNumber(ds[..n], id);
      StartOfFirst(ds, n, id, n);
    }
  }

  lemma {:induction false} TreesAt(ds: seq<Tree>, id: string, y: nat, z: nat)
    requires y < |ds| && DeviceKey(ds[y]) == id && z < |Below(ds[y].kids, "channels")|
    ensures var x := Start(ds, id, y) + z;
            x < |ChannelTrees(ds, id)| && ChannelTrees(ds, id)[x] == Below(ds[y].kids, "channels")[z]
  {
    var n := |ds| - 1;
    StartOfFirst(ds, n, id, if y < n then y else n);
    if y == n {
      TreesNumber(ds[..n], id);
    } else {
      TreesAt(ds[..n], id, y, z);
    }
  }

  lemma TreesHave(ds: seq<Tree>, id: string, y: nat, c: nat, d: nat)
    requires y < |ds| && DeviceKey(ds[y]) == id
    requires c < |ds[y].kids| && ds[y].kids[c].0 == "channels" && d < |ds[y].kids[c].1.kids|
    ensures var x := Start(ds, id, y) + (Offset(ds[y].kids, "channels", c) + d);
            x < |ChannelTrees(ds, id)| && ChannelTrees(ds, id)[x] == ds[y].kids[c].1.kids[d].1
  {
    BelowAt(ds[y].kids, "channels", c, d);
    TreesAt(ds, id, y, Offset(ds[y].kids, "channels", c) + d);
  }

  lemma {:induction false} TreesFrom(ds: seq<Tree>, id: string, x: nat) returns (y: nat, z: nat)
    requires x < |ChannelTrees(ds, id)|
    ensures y < |ds| && DeviceKey(ds[y]) == id && z < |Below(ds[y].kids, "channels")| && x == Start(ds, id, y) + z
  {
    var n := |ds| - 1;
    var most := ds[..n];
    TreesNumber(most, id);
    if x < |ChannelTrees(most, id)| {
      y, z := TreesFrom(most, id, x);
      StartOfFirst(ds, n, id, y);
    } else {
      y, z := n, x - |ChannelTrees(most, id)|;
      StartOfFirst(ds, n, id, n);
    }
  }

  lemma {:induction false} StartOrder(ds: seq<Tree>, id: string, y: nat, u: nat)
    requires y < u <= |ds| && DeviceKey(ds[y]) == id
    ensures Start(ds, id, y) + |Below(ds[y].kids, "channels")| <= Start(ds, id, u)
  {
    if u == y + 1 {
    } else {
      StartOrder(ds, id, y, u - 1);
    }
  }

  // ---------------------------------------------------------------- their order

  /** The number of the device at a and b among all devices. */
  function DeviceNumber(root: Tree, a: nat, b: nat): nat
    requires a <= |root.kids|
  {
    Offset(root.kids, "devices", a) + b
  }

  lemma DeviceIndex(root: Tree, id: string, a: nat, b: nat)
    requires DeviceAt(root, id, a, b)
    ensures var ds, y := Below(root.kids, "devices"), DeviceNumber(root, a, b);
            y < |ds| && ds[y] == root.kids[a].1.kids[b].1 && DeviceKey(ds[y]) == id
  {
    BelowAt(root.kids, "devices", a, b);
    DeviceKeyIs(root.kids[a].1.kids[b].1, id);
  }

  /** The number of a channel node among those of the device. */
  function ChannelNumber(root: Tree, id: string, p: Pos): nat
    requires ChannelAt(root, id, p)
  {
    DeviceIndex(root, id, p.a, p.b);
    Start(Below(root.kids, "devices"), id, DeviceNumber(root, p.a, p.b))
    + Offset(root.kids[p.a].1.kids[p.b].1.kids, "channels", p.c) + p.d
  }

  lemma ChannelIndex(root: Tree, id: string, p: Pos)
    requires ChannelAt(root, id, p)
    ensures var x := ChannelNumber(root, id, p);
            x < |Relevant(root, id)| && Relevant(root, id)[x] == NodeAt(root, id, p)
  {
    var ds, y := Below(root.kids, "devices"), DeviceNumber(root, p.a, p.b);
    DeviceIndex(root, id, p.a, p.b);
    TreesHave(ds, id, y, p.c, p.d);
    NumberIs(root, id, p, y, Offset(ds[y].kids, "channels", p.c) + p.d);
  }

  lemma DevicePos(root: Tree, id: string, y: nat) returns (a: nat, b: nat)
    requires y < |Below(root.kids, "devices")| && DeviceKey(Below(root.kids, "devices")[y]) == id
    ensures DeviceAt(root, id, a, b) && DeviceNumber(root, a, b) == y
    ensures root.kids[a].1.kids[b].1 == Below(root.kids, "devices")[y]
  {
    a, b := BelowHas(root.kids, "devices", y);
    DeviceKeyIs(Below(root.kids, "devices")[y], id);
  }

  lemma ChannelPos(root: Tree, id: string, x: nat) returns (p: Pos)
    requires x < |Relevant(root, id)|
    ensures ChannelAt(root, id, p) && ChannelNumber(root, id, p) == x
  {
    var ds := Below(root.kids, "devices");
    var y, z := TreesFrom(ds, id, x);
    var a, b := DevicePos(root, id, y);
    var c, d := BelowFrom(ds[y].kids, "channels", z);
    p := Pos(a, b, c, d);
    NumberIs(root, id, p, y, z);
  }

  lemma NumberIs(root: Tree, id: string, p: Pos, y: nat, z: nat)
    requires ChannelAt(root, id, p) && y == DeviceNumber(root, p.a, p.b) && y < |Below(root.kids, "devices")|
    requires z == Offset(root.kids[p.a].1.kids[p.b].1.kids, "channels", p.c) + p.d
    ensures ChannelNumber(root, id, p) == Start(Below(root.kids, "devices"), id, y) + z
  {
  }

  lemma DeviceOrder(root: Tree, id: string, p: Pos, q: Pos)
    requires ChannelAt(root, id, p) && ChannelAt(root, id, q)
    ensures p.a < q.a || (p.a == q.a && p.b < q.b) ==> DeviceNumber(root, p.a, p.b) < DeviceNumber(root, q.a, q.b)
  {
    if p.a < q.a { OffsetOrder(root.kids, "devices", p.a, q.a); }
  }

  /** The numbers follow the order of the document. */
  lemma ChannelOrder(root: Tree, id: string, p: Pos, q: Pos)
    requires ChannelAt(root, id, p) && ChannelAt(root, id, q) && Before(p, q)
    ensures ChannelNumber(root, id, p) < ChannelNumber(root, id, q)
  {
    var ds := Below(root.kids, "devices");
    var y, u := DeviceNumber(root, p.a, p.b), DeviceNumber(root, q.a, q.b);
    DeviceIndex(root, id, p.a, p.b);
    DeviceIndex(root, id, q.a, q.b);
    DeviceOrder(root, id, p, q);
    if y < u {
      BelowAt(ds[y].kids, "channels", p.c, p.d);
      StartOrder(ds, id, y, u);
    } else {
      assert p.a == q.a && p.b == q.b;
      if p.c < q.c { OffsetOrder(ds[y].kids, "channels", p.c, q.c); }
    }
  }

  // ---------------------------------------------------------------- the document

  /** The channel node at p names n and has a sub-channel i. */
  ghost predicate Reaches(rd: Reader, root: Tree, id: string, p: Pos, n: string, i: nat) {
    && ChannelAt(root, id, p) && Writes(NodeAt(root, id, p), "name", n)
    && exists k: nat :: i < k && StandsFor(rd, NodeAt(root, id, p), k)
  }

  /** ... and is the first that does. */
  ghost predicate FirstToReach(rd: Reader, root: Tree, id: string, p: Pos, n: string, i: nat) {
    Reaches(rd, root, id, p, n, i) && forall q | Before(q, p) :: !Reaches(rd, root, id, q, n, i)
  }

  lemma ReachesIs(rd: Reader, root: Tree, id: string, p: Pos, n: string, i: nat)
    requires ChannelAt(root, id, p)
    ensures var cn := NodeAt(root, id, p);
            Reaches(rd, root, id, p, n, i) <==> Text(cn, "name") == Some(n) && i < |Sockets(rd, cn)|
  {
    WritesIs(NodeAt(root, id, p), "name", n);
    SocketsNumber(rd, NodeAt(root, id, p));
  }

  lemma {:induction false} FirstIs(defs: seq<Def>, n: string, i: nat, x: nat)
    requires x < |defs| && defs[x].name == n && i < |defs[x].sockets|
    requires forall y | 0 <= y < x :: defs[y].name == n ==> |defs[y].sockets| <= i
    ensures FirstReaching(defs, n, i) == Some(defs[x].sockets[i])
  {
    FirstReachingIs(defs, n, i);
    var a :| 0 <= a < |defs| && defs[a].name == n && i < |defs[a].sockets|
             && FirstReaching(defs, n, i).value == defs[a].sockets[i]
             && forall b | 0 <= b < a :: defs[b].name == n ==> |defs[b].sockets| <= i;
    assert a == x;
  }

  /** The definition that a channel node becomes. */
  lemma DefAt(rd: Reader, root: Tree, id: string, defs: seq<Def>, p: Pos, n: string, i: nat)
    requires Defs(rd, Relevant(root, id)) == Some(defs) && ChannelAt(root, id, p)
    ensures var x := ChannelNumber(root, id, p);
            && x < |defs| && DefOf(rd, NodeAt(root, id, p)) == Some(defs[x])
            && (Reaches(rd, root, id, p, n, i) <==> defs[x].name == n && i < |defs[x].sockets|)
  {
    DefsEach(rd, Relevant(root, id));
    ChannelIndex(root, id, p);
    ReachesIs(rd, root, id, p, n, i);
  }

  lemma EarlierDefs(rd: Reader, root: Tree, id: string, defs: seq<Def>, p: Pos, n: string, i: nat, y: nat)
    requires Defs(rd, Relevant(root, id)) == Some(defs) && FirstToReach(rd, root, id, p, n, i)
    requires y < ChannelNumber(root, id, p) && y < |defs|
    ensures defs[y].name == n ==> |defs[y].sockets| <= i
  {
    DefsEach(rd, Relevant(root, id));
    var q := ChannelPos(root, id, y);
    DefAt(rd, root, id, defs, q, n, i);
    if !Before(q, p) {
      if q != p { ChannelOrder(root, id, p, q); }
    }
  }

  /**
   * The value of every key: the first channel node, in the order of the document, that has the name and reaches the
   * index decides, with its socket node, its own text or the default.
   */
  lemma DocumentValue(rd: Reader, root: Tree, id: string, props: Properties, p: Pos, n: string, i: nat, f: Field)
    requires Parsed(rd, map[], Relevant(root, id)) == Some(props) && FirstToReach(rd, root, id, p, n, i)
    ensures KeyOf(n, i, f) in props && ValueIs(rd, NodeAt(root, id, p), i, f, props[KeyOf(n, i, f)])
  {
    var cns := Relevant(root, id);
    var defs := Defs(rd, cns).value;
    var x, cn := ChannelNumber(root, id, p), NodeAt(root, id, p);
    DefAt(rd, root, id, defs, p, n, i);
    forall y | 0 <= y < x ensures defs[y].name == n ==> |defs[y].sockets| <= i {
      EarlierDefs(rd, root, id, defs, p, n, i, y);
    }
    FirstIs(defs, n, i, x);
    ConfigValues(rd, cns, defs, n, i, f);
    SocketValue(rd, cn, i, f);
  }

  /** A key is there only if some channel node has the name and reaches the index. */
  lemma DocumentKey(rd: Reader, root: Tree, id: string, props: Properties, n: string, i: nat, f: Field)
    returns (p: Pos)
    requires Parsed(rd, map[], Relevant(root, id)) == Some(props) && KeyOf(n, i, f) in props
    ensures FirstToReach(rd, root, id, p, n, i)
  {
    var cns := Relevant(root, id);
    var defs := Defs(rd, cns).value;
    ConfigValues(rd, cns, defs, n, i, f);
    FirstReachingIs(defs, n, i);
    DefsEach(rd, cns);
    var x :| 0 <= x < |defs| && defs[x].name == n && i < |defs[x].sockets|
             && FirstReaching(defs, n, i).value == defs[x].sockets[i]
             && forall b | 0 <= b < x :: defs[b].name == n ==> |defs[b].sockets| <= i;
    p := ChannelPos(root, id, x);
    DefAt(rd, root, id, defs, p, n, i);
    forall q | Before(q, p) ensures !Reaches(rd, root, id, q, n, i) {
      if ChannelAt(root, id, q) {
        DefAt(rd, root, id, defs, q, n, i);
        ChannelOrder(root, id, q, p);
      }
    }
  }

  /** Reading the document fails exactly if a channel node of the device has no name. */
  lemma DocumentFails(rd: Reader, root: Tree, id: string)
    ensures Parsed(rd, map[], Relevant(root, id)).None? <==>
              exists p :: ChannelAt(root, id, p) && Absent(NodeAt(root, id, p), "name")
  {
    var cns := Relevant(root, id);
    DefsNone(rd, cns);
    if Defs(rd, cns).None? {
      var x :| 0 <= x < |cns| && Text(cns[x], "name") == None;
      var p := ChannelPos(root, id, x);
      ChannelIndex(root, id, p);
      TextIs(cns[x], "name");
    }
    if p :| ChannelAt(root, id, p) && Absent(NodeAt(root, id, p), "name") {
      ChannelIndex(root, id, p);
      TextIs(NodeAt(root, id, p), "name");
    }
  }

  // ---------------------------------------------------------------- an example

  const CHANNEL_NODE: Tree := Tree("", [("name", Tree("data", [])), ("type", Tree("push", []))])
  const DEVICE_NODE: Tree := Tree("", [("id", Tree("sampler", [])), ("channels", Tree("", [("", CHANNEL_NODE)]))])
  const DOCUMENT: Tree := Tree("", [("devices", Tree("", [("", DEVICE_NODE)]))])

  const THE_CHANNEL: Pos := Pos(0, 0, 1, 0)

  lemma ChannelNodeSays()
    ensures Writes(CHANNEL_NODE, "name", "data") && Writes(CHANNEL_NODE, "type", "push")
    ensures forall key | key != "name" && key != "type" :: Absent(CHANNEL_NODE, key)
  {
    assert "name" != "type";
    assert FirstAt(CHANNEL_NODE, 0, "name") && FirstAt(CHANNEL_NODE, 1, "type");
  }

  lemma OnlyChannel(p: Pos)
    ensures ChannelAt(DOCUMENT, "sampler", p) <==> p == THE_CHANNEL
  {
    assert "id" != "key" && "id" != "channels";
    assert FirstAt(DEVICE_NODE, 0, "id");
    assert Absent(DEVICE_NODE, "key");
    assert DEVICE_NODE.kids[1].0 == "channels" && DEVICE_NODE.kids[0].0 != "channels";
  }

  lemma ChannelStandsForOne(rd: Reader)
    ensures StandsFor(rd, CHANNEL_NODE, 1) && forall sn :: !SocketAt(rd, CHANNEL_NODE, 0, sn)
  {
    ChannelNodeSays();
    var kids := CHANNEL_NODE.kids;
    assert "sockets" != "name" && "sockets" != "type" && "numSockets" != "name" && "numSockets" != "type";
    assert Absent(CHANNEL_NODE, "numSockets") && Absent(CHANNEL_NODE, "sockets");
    assert Offset(kids, "sockets", 0) == 0 && Offset(kids, "sockets", 1) == 0 && Offset(kids, "sockets", 2) == 0;
  }

  lemma ExampleReached(rd: Reader)
    ensures FirstToReach(rd, DOCUMENT, "sampler", THE_CHANNEL, "data", 0)
    ensures NodeAt(DOCUMENT, "sampler", THE_CHANNEL) == CHANNEL_NODE
  {
    ChannelNodeSays();
    ChannelStandsForOne(rd);
    OnlyChannel(THE_CHANNEL);
    forall q | Before(q, THE_CHANNEL) ensures !Reaches(rd, DOCUMENT, "sampler", q, "data", 0) { OnlyChannel(q); }
  }

  lemma ExampleText(t: string)
    requires Writes(CHANNEL_NODE, FieldName(Type), t)
    ensures t == "push"
  {
    ChannelNodeSays();
    WritesIs(CHANNEL_NODE, "type", "push");
    WritesIs(CHANNEL_NODE, "type", t);
  }

  lemma OtherNames(f: Field)
    requires !f.Type?
    ensures FieldName(f) != "name" && FieldName(f) != "type"
  {
    assert FieldOf("name").Type? && FieldOf("type").Type?;
  }

  lemma ExampleCommon(rd: Reader, f: Field, v: Value)
    requires CommonValue(rd, CHANNEL_NODE, f, v)
    ensures v == if f.Type? then Str("push") else Setting(DEFAULTS, f)
  {
    ChannelNodeSays();
    if f.Type? {
      assert Writes(CHANNEL_NODE, FieldName(f), "push") && Denotes(rd, f, "push", Str("push"));
      assert Says(rd, CHANNEL_NODE, f, Str("push"));
      var s :| Writes(CHANNEL_NODE, FieldName(f), s) && Denotes(rd, f, s, v);
      ExampleText(s);
    } else {
      OtherNames(f);
      assert Absent(CHANNEL_NODE, FieldName(f));
    }
  }

  /** A device with one channel, of which the document gives the name and the type: the rest has its default. */
  lemma Example(rd: Reader, f: Field)
    ensures Parsed(rd, map[], Relevant(DOCUMENT, "sampler")).Some?
    ensures var props := Parsed(rd, map[], Relevant(DOCUMENT, "sampler")).value;
            && KeyOf("data", 0, f) in props
            && props[KeyOf("data", 0, f)] == if f.Type? then Str("push") else Setting(DEFAULTS, f)
  {
    ExampleParses(rd);
    ExampleReached(rd);
    ChannelStandsForOne(rd);
    var props := Parsed(rd, map[], Relevant(DOCUMENT, "sampler")).value;
    DocumentValue(rd, DOCUMENT, "sampler", props, THE_CHANNEL, "data", 0, f);
    ExampleCommon(rd, f, props[KeyOf("data", 0, f)]);
  }

  lemma ExampleParses(rd: Reader)
    ensures Parsed(rd, map[], Relevant(DOCUMENT, "sampler")).Some?
  {
    ChannelNodeSays();
    DocumentFails(rd, DOCUMENT, "sampler");
    forall p | ChannelAt(DOCUMENT, "sampler", p) ensures !Absent(NodeAt(DOCUMENT, "sampler", p), "name") {
      OnlyChannel(p);
    }
  }

  /** The name of a field, its value in a channel, and its default. */
  datatype Entry = Entry(name: string, value: Value, default: Value)

  function Row(f: Field, c: Channel): Entry {
    match f
    case Type => Entry("type", Str(c.kind), Str("unspecified"))
    case Method => Entry("method", Str(c.how), Str("unspecified"))
    case Address => Entry("address", Str(c.address), Str("unspecified"))
    case Transport => Entry("transport", Str(TransportName(c.transport)), Str("default"))
    case SndBufSize => Entry("sndBufSize", Num(c.sndBufSize), Num(1000))
    case RcvBufSize => Entry("rcvBufSize", Num(c.rcvBufSize), Num(1000))
    case SndKernelSize => Entry("sndKernelSize", Num(c.sndKernelSize), Num(0))
    case RcvKernelSize => Entry("rcvKernelSize", Num(c.rcvKernelSize), Num(0))
    case SndTimeoutMs => Entry("sndTimeoutMs", Num(c.sndTimeoutMs), Num(-1))
    case RcvTimeoutMs => Entry("rcvTimeoutMs", Num(c.rcvTimeoutMs), Num(-1))
    case Linger => Entry("linger", Num(c.linger), Num(500))
    case RateLogging => Entry("rateLogging", Num(c.rateLogging), Num(1))
    case PortRangeMin => Entry("portRangeMin", Num(c.portRangeMin), Num(22000))
    case PortRangeMax => Entry("portRangeMax", Num(c.portRangeMax), Num(23000))
    case AutoBind => Entry("autoBind", Flag(c.autoBind), Flag(true))
  }

  /** How every key is spelled, which setting stands under it, and what does when the document is silent. */
  lemma Spelling(f: Field, c: Channel)
    ensures FieldName(f) == Row(f, c).name
    ensures Setting(c, f) == Row(f, c).value && Setting(DEFAULTS, f) == Row(f, c).default
    ensures Prefix("data", 0) == "chans.data.0."
  {
  }
}
