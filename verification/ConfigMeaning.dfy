/** What a JSON configuration means: numbering, precedence and the channels a device builds from it. */
module ConfigMeaning {

  import opened Wrappers
  import opened Keys
  import opened Channels
  import opened ChannelLayout
  import opened ConfigParser

  /** The first definition of a name that has a socket i. */
  function FirstReaching(defs: seq<Def>, n: string, i: nat): Option<Settings> {
    if defs == [] then None
    else if FirstReaching(defs[..|defs| - 1], n, i).Some? then FirstReaching(defs[..|defs| - 1], n, i)
    else
      var last := defs[|defs| - 1];
      if last.name == n && i < |last.sockets| then Some(last.sockets[i]) else None
  }

  /** The most sockets any definition gives a name. */
  function Deepest(defs: seq<Def>, n: string): nat {
    if defs == [] then 0 else
      var last := defs[|defs| - 1];
      var d := Deepest(defs[..|defs| - 1], n);
      if last.name == n && |last.sockets| > d then |last.sockets| else d
  }

  /** FirstReaching is what its name says. */
  lemma {:induction false} FirstReachingIs(defs: seq<Def>, n: string, i: nat)
    ensures FirstReaching(defs, n, i).Some? <==>
            exists a :: 0 <= a < |defs| && defs[a].name == n && i < |defs[a].sockets|
    ensures FirstReaching(defs, n, i).Some? ==>
              exists a :: 0 <= a < |defs| && defs[a].name == n && i < |defs[a].sockets|
                          && FirstReaching(defs, n, i).value == defs[a].sockets[i]
                          && forall b | 0 <= b < a :: defs[b].name == n ==> |defs[b].sockets| <= i
  {
    if defs == [] {
    } else {
      var rest := defs[..|defs| - 1];
      FirstReachingIs(rest, n, i);
      if FirstReaching(rest, n, i).Some? {
        var a :| 0 <= a < |rest| && rest[a].name == n && i < |rest[a].sockets|
                 && FirstReaching(rest, n, i).value == rest[a].sockets[i]
                 && forall b | 0 <= b < a :: rest[b].name == n ==> |rest[b].sockets| <= i;
        assert defs[a] == rest[a];
        assert forall b | 0 <= b < a :: defs[b] == rest[b];
      } else {
        assert forall a | 0 <= a < |rest| :: defs[a] == rest[a];
      }
    }
  }

  // ---------------------------------------------------------------- merging definitions

  function Merged(a: seq<Settings>, b: seq<Settings>): seq<Settings> { if |b| <= |a| then a else a + b[|a|..] }

  function Merge(lay: Layout, d: Def): Layout {
    if d.sockets == [] then lay else lay[d.name := Merged(At(lay, d.name), d.sockets)]
  }

  predicate Full(list: seq<Settings>) { forall s | s in list :: s.Keys == FIELDS }

  predicate FullLayout(lay: Layout) { forall n | n in lay :: Full(lay[n]) }

  /** emplace on an index that is already there changes nothing. */
  lemma EmplacedAgain(vm: Properties, lay: Layout, n: string, i: nat, s: Settings)
    requires Encodes(vm, lay) && FullLayout(lay) && i < |At(lay, n)|
    ensures Emplaced(vm, n, i, s) == vm
  {
    var p := Prefix(n, i);
    forall k | k in Prefixed(p, s) ensures k in vm {
      PrefixedOnly(p, s, k);
      var f := FieldOf(k[|p|..]);
      assert lay[n][i] in lay[n] && f in lay[n][i];
      Present(vm, lay, n, i, f);
      assert k == KeyOf(n, i, f);
    }
    Absorbed(Prefixed(p, s), vm);
  }

  lemma Absorbed(a: Properties, b: Properties)
    requires forall k | k in a :: k in b
    ensures a + b == b
  {
  }

  /** emplace on the next free index appends. */
  lemma EmplacedNext(vm: Properties, lay: Layout, n: string, s: Settings)
    requires Encodes(vm, lay) && s.Keys == FIELDS
    ensures Encodes(Emplaced(vm, n, |At(lay, n)|, s), Append(lay, n, s))
  {
    var p := Prefix(n, |At(lay, n)|);
    forall k | k in Prefixed(p, s) ensures k !in vm {
      PrefixedOnly(p, s, k);
      Present(vm, lay, n, |At(lay, n)|, FieldOf(k[|p|..]));
    }
    Commute(vm, Prefixed(p, s));
    PutEncodes(vm, lay, n, s);
  }

  lemma Commute(a: Properties, b: Properties)
    requires forall k | k in b :: k !in a
    ensures a + b == b + a
  {
  }

  lemma {:induction false} EmplacedAllEncodes(vm: Properties, lay: Layout, d: Def)
    requires Encodes(vm, lay) && FullLayout(lay) && Full(d.sockets)
    ensures Encodes(EmplacedAll(vm, d.name, d.sockets), Merge(lay, d)) && FullLayout(Merge(lay, d))
    decreases |d.sockets|
  {
    if d.sockets == [] {
    } else {
      var i := |d.sockets| - 1;
      var rest, s := Def(d.name, d.sockets[..i]), d.sockets[i];
      assert s in d.sockets;
      assert Full(rest.sockets) by { forall t | t in rest.sockets ensures t in d.sockets { } }
      EmplacedAllEncodes(vm, lay, rest);
      var vm1, lay1 := EmplacedAll(vm, d.name, rest.sockets), Merge(lay, rest);
      if i < |At(lay, d.name)| {
        EmplacedAgain(vm1, lay1, d.name, i, s);
        SameMerge(lay, d);
      } else {
        MergeNext(lay, d);
        EmplacedNext(vm1, lay1, d.name, s);
        FullAppend(lay1, d.name, s);
      }
    }
  }

  lemma FullAppend(lay: Layout, n: string, s: Settings)
    requires FullLayout(lay) && s.Keys == FIELDS
    ensures FullLayout(Append(lay, n, s))
  {
    forall t | t in At(lay, n) + [s] ensures t.Keys == FIELDS { }
  }

  lemma SameMerge(lay: Layout, d: Def)
    requires 0 < |d.sockets| <= |At(lay, d.name)|
    ensures Merge(lay, d) == lay && Merge(lay, Def(d.name, d.sockets[..|d.sockets| - 1])) == lay
  {
    assert lay[d.name := At(lay, d.name)] == lay;
  }

  lemma MergeNext(lay: Layout, d: Def)
    requires |d.sockets| > |At(lay, d.name)|
    ensures var rest := Def(d.name, d.sockets[..|d.sockets| - 1]);
            && |At(Merge(lay, rest), d.name)| == |d.sockets| - 1
            && Merge(lay, d) == Append(Merge(lay, rest), d.name, d.sockets[|d.sockets| - 1])
  {
    var a, b := At(lay, d.name), d.sockets;
    var rest := Def(d.name, b[..|b| - 1]);
    assert Merged(a, b) == Merged(a, rest.sockets) + [b[|b| - 1]];
  }

  function Merges(defs: seq<Def>): Layout {
    if defs == [] then map[] else Merge(Merges(defs[..|defs| - 1]), defs[|defs| - 1])
  }

  predicate AllFull(defs: seq<Def>) {
    forall d | d in defs :: Full(d.sockets) && d.sockets != []
  }

  /** The flat configuration is the layout of the merged definitions. */
  lemma {:induction false} FlattenEncodes(defs: seq<Def>)
    requires AllFull(defs)
    ensures Encodes(Flatten(map[], defs), Merges(defs)) && FullLayout(Merges(defs))
  {
    if defs == [] {
      assert forall n: string, i: nat, f: Field :: !Has(Merges(defs), n, i, f);
    } else {
      var rest, last := defs[..|defs| - 1], defs[|defs| - 1];
      assert AllFull(rest) by { forall d | d in rest ensures d in defs { } }
      assert last in defs;
      FlattenEncodes(rest);
      EmplacedAllEncodes(Flatten(map[], rest), Merges(rest), last);
    }
  }

  lemma {:induction false} MergesIs(defs: seq<Def>, n: string)
    ensures |At(Merges(defs), n)| == Deepest(defs, n)
    ensures forall i: nat :: FirstReaching(defs, n, i)
                             == if i < |At(Merges(defs), n)| then Some(At(Merges(defs), n)[i]) else None
  {
    if defs == [] {
    } else {
      MergesIs(defs[..|defs| - 1], n);
    }
  }

  // ---------------------------------------------------------------- the document

  lemma SocketsFull(rd: Reader, cn: Tree)
    ensures Full(Sockets(rd, cn)) && |Sockets(rd, cn)| > 0
  {
    forall s | s in Sockets(rd, cn) ensures s.Keys == FIELDS {
      var i :| 0 <= i < |Sockets(rd, cn)| && Sockets(rd, cn)[i] == s;
      forall f: Field ensures f in s { SocketInherits(rd, cn, i, f); }
    }
  }

  /** Parsing fails exactly when some channel node has no name. */
  lemma {:induction false} DefsNone(rd: Reader, cns: seq<Tree>)
    ensures Defs(rd, cns) == None <==> exists a :: 0 <= a < |cns| && Text(cns[a], "name") == None
  {
    if cns == [] {
    } else {
      var n := |cns| - 1;
      DefsNone(rd, cns[..n]);
      if Defs(rd, cns[..n]).None? {
        var a :| 0 <= a < n && Text(cns[..n][a], "name") == None;
        assert Text(cns[a], "name") == None;
      } else {
        assert forall a | 0 <= a < n :: Text(cns[a], "name") == Text(cns[..n][a], "name");
      }
    }
  }

  lemma {:induction false} DefsEach(rd: Reader, cns: seq<Tree>)
    requires Defs(rd, cns).Some?
    ensures |Defs(rd, cns).value| == |cns|
    ensures forall a | 0 <= a < |cns| :: DefOf(rd, cns[a]) == Some(Defs(rd, cns).value[a])
  {
    if cns == [] {
    } else {
      var n := |cns| - 1;
      DefsEach(rd, cns[..n]);
      forall a | 0 <= a < |cns| ensures DefOf(rd, cns[a]) == Some(Defs(rd, cns).value[a]) {
        if a < n { assert cns[..n][a] == cns[a]; }
      }
    }
  }

  lemma {:induction false} MergesNames(defs: seq<Def>, n: string)
    requires AllFull(defs)
    ensures n in Merges(defs) <==> exists d :: d in defs && d.name == n
  {
    if defs == [] {
    } else {
      var rest, last := defs[..|defs| - 1], defs[|defs| - 1];
      assert forall d :: d in defs <==> d in rest || d == last;
      MergesNames(rest, n);
    }
  }

  /** The sub-channels of all definitions whose name starts with `a`, up to the first dot. */
  function Subchannels(defs: seq<Def>, a: string): set<(string, nat)> {
    set d, i: nat | d in defs && UpToDot(d.name) == a && i < Deepest(defs, d.name) :: (d.name, i)
  }

  /**
   * For every name the sub-channels are numbered 0 .. deepest - 1, without gaps, and the device counts as many
   * exactly if no name with a dot is involved; what it counts in general is everything before the first dot.
   */
  lemma ConfigNumbers(rd: Reader, cns: seq<Tree>, defs: seq<Def>, n: string)
    requires Defs(rd, cns) == Some(defs)
    ensures forall i: nat :: FirstReaching(defs, n, i).Some? <==> i < Deepest(defs, n)
    ensures Count(Flatten(map[], defs), n) == |Subchannels(defs, n)|
    ensures Count(Flatten(map[], defs), n) == Deepest(defs, n) <==>
              forall d | d in defs :: UpToDot(d.name) == n <==> d.name == n
  {
    var vm, lay := Flatten(map[], defs), Merges(defs);
    DefsFull(rd, cns);
    FlattenEncodes(defs);
    MergesIs(defs, n);
    forall m ensures m in lay <==> exists d :: d in defs && d.name == m { MergesNames(defs, m); }
    forall m ensures |At(lay, m)| == Deepest(defs, m) { MergesIs(defs, m); }
    CountUnder(vm, lay, n);
    UnderIsSubchannels(defs, n);
    CountIs(vm, lay, n);
    forall d | d in defs ensures d.name in lay { }
  }

  lemma UnderIsSubchannels(defs: seq<Def>, n: string)
    requires AllFull(defs)
    ensures Under(Merges(defs), n) == Subchannels(defs, n)
  {
    var lay := Merges(defs);
    forall p | p in Under(lay, n) ensures p in Subchannels(defs, n) {
      MergesNames(defs, p.0);
      MergesIs(defs, p.0);
      var d :| d in defs && d.name == p.0;
      assert (d.name, p.1) in Subchannels(defs, n);
    }
    forall p | p in Subchannels(defs, n) ensures p in Under(lay, n) {
      MergesNames(defs, p.0);
      MergesIs(defs, p.0);
    }
  }

  /** Sub-channel i is written wholly from the first channel node of that name that reaches i. */
  lemma ConfigValues(rd: Reader, cns: seq<Tree>, defs: seq<Def>, n: string, i: nat, f: Field)
    requires Defs(rd, cns) == Some(defs)
    ensures var vm, first := Flatten(map[], defs), FirstReaching(defs, n, i);
            if first.Some? then f in first.value && KeyOf(n, i, f) in vm && vm[KeyOf(n, i, f)] == first.value[f]
            else KeyOf(n, i, f) !in vm
  {
    DefsFull(rd, cns);
    FlattenEncodes(defs);
    MergesIs(defs, n);
    Present(Flatten(map[], defs), Merges(defs), n, i, f);
    var first := FirstReaching(defs, n, i);
    if first.Some? { assert At(Merges(defs), n)[i] in Merges(defs)[n]; }
  }

  /** And the device builds it from those settings alone. */
  lemma ConfigBuilds(rd: Reader, cns: seq<Tree>, defs: seq<Def>, n: string, i: nat)
    requires Defs(rd, cns) == Some(defs) && i < Deepest(defs, n)
    ensures FirstReaching(defs, n, i).Some?
    ensures Builder(Flatten(map[], defs), n)(i) == Assemble(Over(FirstReaching(defs, n, i).value))
  {
    DefsFull(rd, cns);
    FlattenEncodes(defs);
    MergesIs(defs, n);
    ConstructAt(Flatten(map[], defs), Merges(defs), n, i);
  }

  lemma DefsFull(rd: Reader, cns: seq<Tree>)
    requires Defs(rd, cns).Some?
    ensures AllFull(Defs(rd, cns).value)
  {
    DefsEach(rd, cns);
    var defs := Defs(rd, cns).value;
    forall d | d in defs ensures Full(d.sockets) && d.sockets != [] {
      var a :| 0 <= a < |defs| && defs[a] == d;
      assert DefOf(rd, cns[a]) == Some(d);
      SocketsFull(rd, cns[a]);
    }
  }
}
