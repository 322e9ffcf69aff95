/**
 * A configuration as a layout: for every channel name the settings of its sub-channels
 * 0, 1, 2, ...  The flat keys, the counts, the prefix lookups and the rebuilt channels
 * all follow from it.
 */
module ChannelLayout {

  import opened Wrappers
  import opened Keys
  import opened Channels
  import opened Counting

  type Layout = map<string, seq<Settings>>

  function At(lay: Layout, n: string): seq<Settings> { if n in lay then lay[n] else [] }

  /** Sub-channel i of n has a value for f. */
  predicate Has(lay: Layout, n: string, i: nat, f: Field) { i < |At(lay, n)| && f in At(lay, n)[i] }

  predicate DotFreeNames(lay: Layout) { forall n | n in lay :: DotFree(n) }

  predicate LayoutOk(lay: Layout) {
    && (forall n | n in lay :: lay[n] != [])
    && (forall n, i | n in lay && 0 <= i < |lay[n]| :: Type in lay[n][i])
  }

  /** A key of the configuration that the layout accounts for. */
  ghost predicate Accounted(lay: Layout, k: string) {
    exists n: string, i: nat, f: Field :: Has(lay, n, i, f) && k == KeyOf(n, i, f)
  }

  /** Every setting of the layout is in vm. */
  ghost predicate Carries(vm: Properties, lay: Layout) {
    forall n: string, i: nat, f: Field | Has(lay, n, i, f) ::
      KeyOf(n, i, f) in vm && vm[KeyOf(n, i, f)] == At(lay, n)[i][f]
  }

  /** No other channel key is in vm. */
  ghost predicate NoOther(vm: Properties, lay: Layout) { forall k | k in vm && CHANS <= k :: Accounted(lay, k) }

  /** The channel keys of vm are exactly those of the layout, with its values. */
  ghost predicate Encodes(vm: Properties, lay: Layout) { LayoutOk(lay) && Carries(vm, lay) && NoOther(vm, lay) }

  lemma Present(vm: Properties, lay: Layout, n: string, i: nat, f: Field)
    requires Encodes(vm, lay)
    ensures KeyOf(n, i, f) in vm <==> Has(lay, n, i, f)
  {
    KeyName(n, i, FieldName(f));
    if KeyOf(n, i, f) in vm {
      assert Accounted(lay, KeyOf(n, i, f));
      var m, j, g :| Has(lay, m, j, g) && KeyOf(n, i, f) == KeyOf(m, j, g);
      KeyOfInjective(n, i, f, m, j, g);
    }
  }

  // ---------------------------------------------------------------- counting

  /** The sub-channels that are counted under `a`: all of every name that starts with it, up to the first dot. */
  function Under(lay: Layout, a: string): set<(string, nat)> {
    set n, i: nat | n in lay && i < |lay[n]| && UpToDot(n) == a :: (n, i)
  }

  function TypeKeyOf(p: (string, nat)): string { KeyOf(p.0, p.1, Type) }

  lemma {:induction false} ImageSize(ps: set<(string, nat)>)
    ensures |set p | p in ps :: TypeKeyOf(p)| == |ps|
  {
    if ps == {} {
      assert (set p | p in ps :: TypeKeyOf(p)) == {};
    } else {
      var p :| p in ps;
      var rest := ps - {p};
      ImageSize(rest);
      var image := set q | q in rest :: TypeKeyOf(q);
      if TypeKeyOf(p) in image {
        var q :| q in rest && TypeKeyOf(q) == TypeKeyOf(p);
        KeyOfInjective(p.0, p.1, Type, q.0, q.1, Type);
      }
      assert (set q | q in ps :: TypeKeyOf(q)) == image + {TypeKeyOf(p)};
    }
  }

  lemma TypeKeyIs(vm: Properties, lay: Layout, a: string, k: string)
    requires Encodes(vm, lay) && k in TypeKeys(vm, a)
    ensures exists p :: p in Under(lay, a) && k == TypeKeyOf(p)
  {
    assert CHANS <= k;
    assert Accounted(lay, k);
    var m: string, i: nat, f: Field :| Has(lay, m, i, f) && k == KeyOf(m, i, f);
    KeyName(m, i, FieldName(f));
    TypeKeyField(m, i, FieldName(f));
    assert f == FieldOf("type") == Type;
    assert (m, i) in Under(lay, a) && k == TypeKeyOf((m, i));
  }

  lemma TypeKeyIn(vm: Properties, lay: Layout, a: string, p: (string, nat))
    requires Encodes(vm, lay) && p in Under(lay, a)
    ensures TypeKeyOf(p) in TypeKeys(vm, a)
  {
    assert Has(lay, p.0, p.1, Type);
    KeyName(p.0, p.1, "type");
    TypeKeyField(p.0, p.1, "type");
  }

  /** What is counted for a name, whatever the names of the layout contain. */
  lemma CountUnder(vm: Properties, lay: Layout, a: string)
    requires Encodes(vm, lay)
    ensures Count(vm, a) == |Under(lay, a)|
  {
    var image := set p | p in Under(lay, a) :: TypeKeyOf(p);
    forall k | k in TypeKeys(vm, a) ensures k in image { TypeKeyIs(vm, lay, a, k); }
    forall k | k in image ensures k in TypeKeys(vm, a) {
      var p :| p in Under(lay, a) && k == TypeKeyOf(p);
      TypeKeyIn(vm, lay, a, p);
    }
    assert TypeKeys(vm, a) == image;
    ImageSize(Under(lay, a));
  }

  function Own(n: string, count: nat): set<(string, nat)> { set i: nat | i < count :: (n, i) }

  lemma {:induction false} OwnSize(n: string, count: nat)
    ensures |Own(n, count)| == count
  {
    if count == 0 {
      assert Own(n, count) == {};
    } else {
      OwnSize(n, count - 1);
      assert Own(n, count) == Own(n, count - 1) + {(n, count - 1)};
    }
  }

  /** Only the name itself is counted under it. */
  predicate CountedAlone(lay: Layout, n: string) { forall m | m in lay :: UpToDot(m) == n <==> m == n }

  lemma OwnUnder(lay: Layout, n: string)
    requires DotFree(n)
    ensures Own(n, |At(lay, n)|) <= Under(lay, n) && |At(lay, n)| <= |Under(lay, n)|
  {
    UpToDotSelf(n);
    OwnSize(n, |At(lay, n)|);
    CardMono(Own(n, |At(lay, n)|), Under(lay, n));
  }

  lemma AloneUnder(lay: Layout, n: string)
    requires CountedAlone(lay, n)
    ensures |Under(lay, n)| == |At(lay, n)|
  {
    OwnSize(n, |At(lay, n)|);
    assert Under(lay, n) == Own(n, |At(lay, n)|);
  }

  /** A dotted name adds to the count of the part before its dot. */
  lemma MoreUnder(lay: Layout, n: string, m: string)
    requires LayoutOk(lay) && m in lay && UpToDot(m) == n && m != n
    ensures |Under(lay, n)| > |At(lay, n)|
  {
    UpToDotFree(m);
    OwnUnder(lay, n);
    OwnSize(n, |At(lay, n)|);
    var more := Own(n, |At(lay, n)|) + {(m, 0)};
    assert (m, 0) in Under(lay, n) && (m, 0) !in Own(n, |At(lay, n)|);
    CardMono(more, Under(lay, n));
  }

  /** A dotted name itself is never counted. */
  lemma NoneUnder(lay: Layout, n: string)
    requires !DotFree(n)
    ensures Under(lay, n) == {}
  {
    forall m | m in lay ensures UpToDot(m) != n { UpToDotFree(m); }
  }

  lemma UnderIsOwnIff(lay: Layout, n: string)
    requires LayoutOk(lay)
    ensures |Under(lay, n)| == |At(lay, n)| <==> CountedAlone(lay, n)
  {
    if CountedAlone(lay, n) {
      AloneUnder(lay, n);
    } else {
      var m :| m in lay && !(UpToDot(m) == n <==> m == n);
      if m == n {
        UpToDotSelf(n);
        NoneUnder(lay, n);
      } else {
        MoreUnder(lay, n, m);
      }
    }
  }

  /** The number of channels found under a name is the number the layout has, exactly if no dot interferes. */
  lemma CountIs(vm: Properties, lay: Layout, n: string)
    requires Encodes(vm, lay)
    ensures Count(vm, n) == |At(lay, n)| <==> CountedAlone(lay, n)
    ensures DotFree(n) ==> Count(vm, n) >= |At(lay, n)|
  {
    CountUnder(vm, lay, n);
    UnderIsOwnIff(lay, n);
    if DotFree(n) { OwnUnder(lay, n); }
  }

  lemma PlainNames(lay: Layout, n: string)
    requires DotFreeNames(lay)
    ensures CountedAlone(lay, n)
  {
    forall m | m in lay ensures UpToDot(m) == m { UpToDotSelf(m); }
  }

  // ---------------------------------------------------------------- lookup and rebuild

  lemma SelectedKey(vm: Properties, lay: Layout, n: string, i: nat, k: string)
    requires Encodes(vm, lay) && DotFreeNames(lay) && DotFree(n) && k in Selected(vm, Prefix(n, i))
    ensures exists f: Field :: Has(lay, n, i, f) && k == KeyOf(n, i, f)
  {
    assert CHANS <= Prefix(n, i) <= k;
    assert Accounted(lay, k);
    var m, j, g :| Has(lay, m, j, g) && k == KeyOf(m, j, g);
    PrefixOwns(n, i, m, j, FieldName(g));
  }

  lemma SelectedHas(vm: Properties, lay: Layout, n: string, i: nat, k: string)
    requires Encodes(vm, lay) && i < |At(lay, n)|
    requires k in Prefixed(Prefix(n, i), At(lay, n)[i])
    ensures k in Selected(vm, Prefix(n, i))
    ensures vm[k] == Prefixed(Prefix(n, i), At(lay, n)[i])[k]
  {
    PrefixedOnly(Prefix(n, i), At(lay, n)[i], k);
    var f := FieldOf(k[|Prefix(n, i)|..]);
    assert Has(lay, n, i, f) && k == KeyOf(n, i, f);
  }

  lemma SelectedWithin(vm: Properties, lay: Layout, n: string, i: nat, k: string)
    requires Encodes(vm, lay) && DotFreeNames(lay) && DotFree(n) && k in Selected(vm, Prefix(n, i))
    ensures i < |At(lay, n)| && k in Prefixed(Prefix(n, i), At(lay, n)[i])
  {
    SelectedKey(vm, lay, n, i, k);
    var f :| Has(lay, n, i, f) && k == KeyOf(n, i, f);
    PrefixedAt(Prefix(n, i), At(lay, n)[i], f);
  }

  /** A prefix lookup yields the settings of that sub-channel and of no other. */
  lemma SelectedIs(vm: Properties, lay: Layout, n: string, i: nat)
    requires Encodes(vm, lay) && DotFreeNames(lay) && DotFree(n)
    ensures Selected(vm, Prefix(n, i)) == if i < |At(lay, n)| then Prefixed(Prefix(n, i), At(lay, n)[i]) else map[]
  {
    var got := Selected(vm, Prefix(n, i));
    forall k | k in got ensures i < |At(lay, n)| && k in Prefixed(Prefix(n, i), At(lay, n)[i]) {
      SelectedWithin(vm, lay, n, i, k);
    }
    if i < |At(lay, n)| {
      var want := Prefixed(Prefix(n, i), At(lay, n)[i]);
      forall k | k in want ensures k in got && got[k] == want[k] { SelectedHas(vm, lay, n, i, k); }
      SameMap(got, want);
    } else {
      assert got.Keys == {};
    }
  }

  lemma SameMap(a: Properties, b: Properties)
    requires forall k | k in a :: k in b
    requires forall k | k in b :: k in a && a[k] == b[k]
    ensures a == b
  {
  }

  /** The channel built from that lookup has the stored settings, and defaults elsewhere. */
  lemma ConstructIs(n: string, i: nat, s: Settings)
    ensures Construct(n, i, Prefixed(Prefix(n, i), s)) == Assemble(Over(s))
  {
    FetchedIs(n, i, s);
  }

  lemma FetchedIs(n: string, i: nat, s: Settings)
    ensures Fetched(n, i, Prefixed(Prefix(n, i), s)) == Over(s)
  {
    var props := Prefixed(Prefix(n, i), s);
    forall f: Field ensures Agrees(n, i, props, s, f) { PrefixedAt(Prefix(n, i), s, f); }
    FetchedOver(n, i, props, s);
  }

  /** The properties hold for field f of sub-channel i what the settings hold. */
  predicate Agrees(n: string, i: nat, props: Properties, s: Settings, f: Field) {
    (KeyOf(n, i, f) in props <==> f in s) && (f in s ==> props[KeyOf(n, i, f)] == s[f])
  }

  lemma FetchedOver(n: string, i: nat, props: Properties, s: Settings)
    requires forall f: Field :: Agrees(n, i, props, s, f)
    ensures Fetched(n, i, props) == Over(s)
  {
    forall f | f in FIELDS ensures Fetched(n, i, props)[f] == Over(s)[f] { assert Agrees(n, i, props, s, f); }
  }

  /** The constructor reads its own keys only, so a lookup that also catches others does no harm. */
  lemma ConstructFromLookup(vm: Properties, n: string, i: nat)
    ensures Construct(n, i, Selected(vm, Prefix(n, i))) == Construct(n, i, vm)
  {
    forall f | f in FIELDS
      ensures Fetched(n, i, Selected(vm, Prefix(n, i)))[f] == Fetched(n, i, vm)[f]
    {
      assert Prefix(n, i) <= KeyOf(n, i, f);
    }
    assert Fetched(n, i, Selected(vm, Prefix(n, i))) == Fetched(n, i, vm);
  }

  /** For every name, dotted or not, the channel built from the configuration has the settings of the layout. */
  lemma ConstructAt(vm: Properties, lay: Layout, n: string, i: nat)
    requires Encodes(vm, lay) && i < |At(lay, n)|
    ensures Construct(n, i, Selected(vm, Prefix(n, i))) == Assemble(Over(At(lay, n)[i]))
  {
    ConstructFromLookup(vm, n, i);
    FetchedAt(vm, lay, n, i);
  }

  lemma FetchedAt(vm: Properties, lay: Layout, n: string, i: nat)
    requires Encodes(vm, lay) && i < |At(lay, n)|
    ensures Fetched(n, i, vm) == Over(At(lay, n)[i])
  {
    forall f: Field ensures Agrees(n, i, vm, At(lay, n)[i], f) { FieldAt(vm, lay, n, i, f); }
    FetchedOver(n, i, vm, At(lay, n)[i]);
  }

  lemma FieldAt(vm: Properties, lay: Layout, n: string, i: nat, f: Field)
    requires Encodes(vm, lay) && i < |At(lay, n)|
    ensures Agrees(n, i, vm, At(lay, n)[i], f)
  {
    Present(vm, lay, n, i, f);
    assert f in At(lay, n)[i] ==> Has(lay, n, i, f);
  }

  // ---------------------------------------------------------------- adding channels

  function Append(lay: Layout, n: string, s: Settings): Layout { lay[n := At(lay, n) + [s]] }

  /** AddChannel takes the next free index. */
  lemma AddedEncodes(vm: Properties, lay: Layout, n: string, s: Settings)
    requires Encodes(vm, lay) && CountedAlone(lay, n) && Type in s
    ensures Encodes(Added(vm, n, s), Append(lay, n, s))
  {
    CountIs(vm, lay, n);
    PutEncodes(vm, lay, n, s);
  }

  lemma AppendHas(lay: Layout, n: string, s: Settings, m: string, i: nat, f: Field)
    ensures var lay' := Append(lay, n, s);
            if m == n && i == |At(lay, n)| then
              (Has(lay', m, i, f) <==> f in s) && (f in s ==> At(lay', m)[i][f] == s[f])
            else
              && (Has(lay', m, i, f) <==> Has(lay, m, i, f))
              && (Has(lay, m, i, f) ==> At(lay', m)[i][f] == At(lay, m)[i][f])
  {
  }

  lemma PutHas(vm: Properties, lay: Layout, n: string, s: Settings, m: string, i: nat, f: Field)
    requires Encodes(vm, lay) && Has(Append(lay, n, s), m, i, f)
    ensures var vm' := vm + Prefixed(Prefix(n, |At(lay, n)|), s);
            KeyOf(m, i, f) in vm' && vm'[KeyOf(m, i, f)] == At(Append(lay, n, s), m)[i][f]
  {
    var p := Prefix(n, |At(lay, n)|);
    AppendHas(lay, n, s, m, i, f);
    if m == n && i == |At(lay, n)| {
      PrefixedAt(p, s, f);
    } else if KeyOf(m, i, f) in Prefixed(p, s) {
      PrefixedOnly(p, s, KeyOf(m, i, f));
      KeyOfInjective(n, |At(lay, n)|, FieldOf(KeyOf(m, i, f)[|p|..]), m, i, f);
    }
  }

  lemma PutOnly(vm: Properties, lay: Layout, n: string, s: Settings, k: string)
    requires Encodes(vm, lay) && CHANS <= k && k in vm + Prefixed(Prefix(n, |At(lay, n)|), s)
    ensures Accounted(Append(lay, n, s), k)
  {
    var c := |At(lay, n)|;
    if k in Prefixed(Prefix(n, c), s) {
      PrefixedOnly(Prefix(n, c), s, k);
      var f := FieldOf(k[|Prefix(n, c)|..]);
      AppendHas(lay, n, s, n, c, f);
      assert Has(Append(lay, n, s), n, c, f) && k == KeyOf(n, c, f);
    } else {
      assert Accounted(lay, k);
      var m, i, f :| Has(lay, m, i, f) && k == KeyOf(m, i, f);
      AppendHas(lay, n, s, m, i, f);
      assert Has(Append(lay, n, s), m, i, f);
    }
  }

  lemma AppendOk(lay: Layout, n: string, s: Settings)
    requires LayoutOk(lay) && Type in s
    ensures LayoutOk(Append(lay, n, s))
  {
  }

  lemma PutEncodes(vm: Properties, lay: Layout, n: string, s: Settings)
    requires Encodes(vm, lay) && Type in s
    ensures Encodes(vm + Prefixed(Prefix(n, |At(lay, n)|), s), Append(lay, n, s))
  {
    var vm', lay' := vm + Prefixed(Prefix(n, |At(lay, n)|), s), Append(lay, n, s);
    AppendOk(lay, n, s);
    forall m: string, i: nat, f: Field | Has(lay', m, i, f)
      ensures KeyOf(m, i, f) in vm' && vm'[KeyOf(m, i, f)] == At(lay', m)[i][f]
    {
      PutHas(vm, lay, n, s, m, i, f);
    }
    forall k | k in vm' && CHANS <= k ensures Accounted(lay', k) { PutOnly(vm, lay, n, s, k); }
  }

  // ---------------------------------------------------------------- runs of AddChannel

  function AddAll(vm: Properties, adds: seq<(string, Channel)>): Properties {
    if adds == [] then vm else
      var rest := adds[..|adds| - 1];
      Added(AddAll(vm, rest), adds[|adds| - 1].0, Stored(adds[|adds| - 1].1))
  }

  /** The channels added under each name, in order. */
  function Collected(adds: seq<(string, Channel)>, n: string): seq<Channel> {
    if adds == [] then [] else
      var rest, last := adds[..|adds| - 1], adds[|adds| - 1];
      Collected(rest, n) + if last.0 == n then [last.1] else []
  }

  function LayoutOf(adds: seq<(string, Channel)>): Layout {
    if adds == [] then map[] else
      var rest, last := adds[..|adds| - 1], adds[|adds| - 1];
      Append(LayoutOf(rest), last.0, Stored(last.1))
  }

  lemma {:induction false} LayoutIsCollected(adds: seq<(string, Channel)>, n: string)
    ensures |At(LayoutOf(adds), n)| == |Collected(adds, n)|
    ensures forall i | 0 <= i < |Collected(adds, n)| :: At(LayoutOf(adds), n)[i] == Stored(Collected(adds, n)[i])
  {
    if adds == [] {
    } else {
      LayoutIsCollected(adds[..|adds| - 1], n);
    }
  }

  /** Keys that have nothing to do with channels are as before. */
  ghost predicate SameOutside(vm: Properties, vm1: Properties) {
    forall k | !(CHANS <= k) :: (k in vm1 <==> k in vm) && (k in vm ==> vm1[k] == vm[k])
  }

  lemma {:induction false} AddAllEncodes(vm: Properties, adds: seq<(string, Channel)>)
    requires forall k | k in vm :: !(CHANS <= k)
    requires forall a | a in adds :: DotFree(a.0)
    ensures Encodes(AddAll(vm, adds), LayoutOf(adds)) && DotFreeNames(LayoutOf(adds))
    ensures SameOutside(vm, AddAll(vm, adds))
  {
    if adds == [] {
      assert forall n: string, i: nat, f: Field :: !Has(LayoutOf(adds), n, i, f);
    } else {
      var rest, last := adds[..|adds| - 1], adds[|adds| - 1];
      AddAllEncodes(vm, rest);
      assert last in adds;
      PlainNames(LayoutOf(rest), last.0);
      AddedEncodes(AddAll(vm, rest), LayoutOf(rest), last.0, Stored(last.1));
      AddedOutside(AddAll(vm, rest), last.0, Stored(last.1));
    }
  }

  lemma AddedOutside(vm: Properties, n: string, s: Settings)
    ensures SameOutside(vm, Added(vm, n, s))
  {
    var p := Prefix(n, Count(vm, n));
    forall k | k in Prefixed(p, s) ensures CHANS <= k {
      PrefixedOnly(p, s, k);
      assert CHANS <= p <= k;
    }
  }

  /**
   * Whatever channels are added, in whatever order: every name counts as many as were added,
   * sub-channel i is rebuilt as the i-th one (timeouts aside), and no other key is touched.
   */
  lemma ChannelsRoundTrip(vm: Properties, adds: seq<(string, Channel)>, n: string)
    requires forall k | k in vm :: !(CHANS <= k)
    requires forall a | a in adds :: DotFree(a.0)
    ensures Count(AddAll(vm, adds), n) == |Collected(adds, n)|
    ensures forall i | 0 <= i < |Collected(adds, n)| ::
              Construct(n, i, Selected(AddAll(vm, adds), Prefix(n, i))) == Some(WithoutTimeouts(Collected(adds, n)[i]))
    ensures SameOutside(vm, AddAll(vm, adds))
  {
    var end, lay := AddAll(vm, adds), LayoutOf(adds);
    AddAllEncodes(vm, adds);
    PlainNames(lay, n);
    CountIs(end, lay, n);
    LayoutIsCollected(adds, n);
    forall i | 0 <= i < |Collected(adds, n)|
      ensures Construct(n, i, Selected(end, Prefix(n, i))) == Some(WithoutTimeouts(Collected(adds, n)[i]))
    {
      ConstructAt(end, lay, n, i);
      AssembleStored(Collected(adds, n)[i]);
    }
  }

  // ---------------------------------------------------------------- names with a dot

  /** A name with a dot is never found again. */
  lemma DottedNeverCounted(vm: Properties, n: string)
    requires !DotFree(n)
    ensures Count(vm, n) == 0
  {
    forall k | k in vm && IsTypeKey(k) ensures NameOf(k) != n { UpToDotFree(k[6..]); }
    assert TypeKeys(vm, n) == {};
  }

  /** So the second channel of that name replaces the first. */
  lemma DottedOverwrites(vm: Properties, n: string, c: Channel, d: Channel)
    requires !DotFree(n)
    ensures Added(Added(vm, n, Stored(c)), n, Stored(d)) == Added(vm, n, Stored(d))
  {
    DottedNeverCounted(vm, n);
    DottedNeverCounted(Added(vm, n, Stored(c)), n);
    StoredKeys(c, d);
    PrefixedReplaces(vm, Prefix(n, 0), Stored(c), Stored(d));
  }

  lemma PrefixedReplaces(vm: Properties, p: string, s: Settings, t: Settings)
    requires s.Keys == t.Keys
    ensures (vm + Prefixed(p, s)) + Prefixed(p, t) == vm + Prefixed(p, t)
  {
    forall k | k in Prefixed(p, s) ensures k in Prefixed(p, t) {
      PrefixedOnly(p, s, k);
      PrefixedAt(p, t, FieldOf(k[|p|..]));
    }
  }

  lemma StoredKeys(c: Channel, d: Channel)
    ensures Stored(c).Keys == Stored(d).Keys
  {
  }

  /** Of the keys that are added, only the type key is counted, under the part of the name before its first dot. */
  lemma AddedTypeKeys(vm: Properties, n: string, c: nat, s: Settings, a: string)
    requires Type in s
    ensures TypeKeys(vm + Prefixed(Prefix(n, c), s), a)
            == TypeKeys(vm, a) + if UpToDot(n) == a then {KeyOf(n, c, Type)} else {}
  {
    var added := Prefixed(Prefix(n, c), s);
    forall k | k in added && IsTypeKey(k) ensures k == KeyOf(n, c, Type) {
      PrefixedOnly(Prefix(n, c), s, k);
      TypeKeyField(n, c, FieldName(FieldOf(k[|Prefix(n, c)|..])));
    }
    PrefixedAt(Prefix(n, c), s, Type);
    KeyName(n, c, "type");
    TypeKeyField(n, c, "type");
  }

  /** Adding a channel advances the count of its name exactly when the name has no dot. */
  lemma CountAdvancesIff(vm: Properties, lay: Layout, n: string, s: Settings)
    requires Encodes(vm, lay) && Type in s
    ensures Count(Added(vm, n, s), n) == Count(vm, n) + 1 <==> DotFree(n)
  {
    if DotFree(n) {
      UpToDotSelf(n);
      AddedTypeKeys(vm, n, Count(vm, n), s, n);
      CountIs(vm, lay, n);
      Present(vm, lay, n, Count(vm, n), Type);
    } else {
      DottedNeverCounted(vm, n);
      DottedNeverCounted(Added(vm, n, s), n);
    }
  }

  /** A dotted name that is new counts, instead, as one more channel of the part before its first dot. */
  lemma DottedShifts(vm: Properties, lay: Layout, n: string, s: Settings)
    requires Encodes(vm, lay) && !DotFree(n) && Type in s
    ensures Count(Added(vm, n, s), UpToDot(n)) == Count(vm, UpToDot(n)) + if n in lay then 0 else 1
  {
    DottedNeverCounted(vm, n);
    AddedTypeKeys(vm, n, 0, s, UpToDot(n));
    Present(vm, lay, n, 0, Type);
    KeyName(n, 0, "type");
    TypeKeyField(n, 0, "type");
    assert n in lay ==> KeyOf(n, 0, Type) in TypeKeys(vm, UpToDot(n));
  }

  // ---------------------------------------------------------------- putting a rewritten address back

  function SetAddress(lay: Layout, n: string, i: nat, address: string): Layout
    requires n in lay && i < |lay[n]|
  {
    lay[n := lay[n][i := lay[n][i][Address := Str(address)]]]
  }

  lemma SetAddressHas(lay: Layout, n: string, i: nat, address: string, m: string, j: nat, f: Field)
    requires n in lay && i < |lay[n]|
    ensures var lay' := SetAddress(lay, n, i, address);
            && (Has(lay', m, j, f) <==> Has(lay, m, j, f) || (m == n && j == i && f == Address))
            && (Has(lay', m, j, f) ==>
                At(lay', m)[j][f] == if m == n && j == i && f == Address then Str(address) else At(lay, m)[j][f])
  {
  }

  /** Binding may change an address: the key derived from the channel's name changes that sub-channel only. */
  lemma WriteBack(vm: Properties, lay: Layout, n: string, i: nat, address: string)
    requires Encodes(vm, lay) && n in lay && i < |lay[n]|
    ensures AddressKey(FullName(n, i)) == Some(KeyOf(n, i, Address))
    ensures Encodes(vm[KeyOf(n, i, Address) := Str(address)], SetAddress(lay, n, i, address))
  {
    AddressKeyIs(n, i);
    WriteBackHas(vm, lay, n, i, address);
    WriteBackOnly(vm, lay, n, i, address);
    SetAddressOk(lay, n, i, address);
  }

  lemma SetAddressOk(lay: Layout, n: string, i: nat, address: string)
    requires LayoutOk(lay) && n in lay && i < |lay[n]|
    ensures LayoutOk(SetAddress(lay, n, i, address))
  {
  }

  lemma WriteBackHas(vm: Properties, lay: Layout, n: string, i: nat, address: string)
    requires Encodes(vm, lay) && n in lay && i < |lay[n]|
    ensures Carries(vm[KeyOf(n, i, Address) := Str(address)], SetAddress(lay, n, i, address))
  {
    var key, lay' := KeyOf(n, i, Address), SetAddress(lay, n, i, address);
    var vm' := vm[key := Str(address)];
    forall m: string, j: nat, f: Field | Has(lay', m, j, f)
      ensures KeyOf(m, j, f) in vm' && vm'[KeyOf(m, j, f)] == At(lay', m)[j][f]
    {
      SetAddressHas(lay, n, i, address, m, j, f);
      if KeyOf(m, j, f) == key { KeyOfInjective(m, j, f, n, i, Address); }
    }
  }

  lemma WriteBackOnly(vm: Properties, lay: Layout, n: string, i: nat, address: string)
    requires Encodes(vm, lay) && n in lay && i < |lay[n]|
    ensures NoOther(vm[KeyOf(n, i, Address) := Str(address)], SetAddress(lay, n, i, address))
  {
    var key, lay' := KeyOf(n, i, Address), SetAddress(lay, n, i, address);
    var vm' := vm[key := Str(address)];
    forall k | k in vm' && CHANS <= k ensures Accounted(lay', k) {
      if k == key {
        SetAddressHas(lay, n, i, address, n, i, Address);
        assert Has(lay', n, i, Address);
      } else {
        assert Accounted(lay, k);
        var m, j, f :| Has(lay, m, j, f) && k == KeyOf(m, j, f);
        SetAddressHas(lay, n, i, address, m, j, f);
        assert Has(lay', m, j, f);
      }
    }
  }

  // ---------------------------------------------------------------- the channels of a device

  /** The channel a device builds for sub-channel i of n. */
  function Builder(vm: Properties, n: string): nat -> Option<Channel> {
    (i: nat) => Construct(n, i, Selected(vm, Prefix(n, i)))
  }

  ghost predicate Builds(build: nat -> Option<Channel>, made: seq<Channel>) {
    forall i: nat | i < |made| :: build(i) == Some(made[i])
  }

  lemma BuildsMore(build: nat -> Option<Channel>, made: seq<Channel>, c: Channel)
    requires Builds(build, made) && build(|made|) == Some(c)
    ensures Builds(build, made + [c])
  {
  }

  function Before(channels: map<string, seq<Channel>>, n: string): seq<Channel> {
    if n in channels then channels[n] else []
  }

  /** The inner loop of InitWrapper; None when a constructor throws. */
  method BuildChannels(opts: ProgOptions, name: string, count: nat) returns (r: Option<seq<Channel>>)
    ensures r.Some? ==> |r.value| == count && Builds(Builder(opts.fVarMap, name), r.value)
    ensures r.None? ==> exists i: nat :: i < count && Builder(opts.fVarMap, name)(i) == None
  {
    var made := [];
    for i := 0 to count
      invariant |made| == i && Builds(Builder(opts.fVarMap, name), made)
    {
      var props := opts.GetPropertiesStartingWith(Prefix(name, i));
      var c := Construct(name, i, props);
      assert Builder(opts.fVarMap, name)(i) == c;
      if c.None? {
        return None;
      }
      BuildsMore(Builder(opts.fVarMap, name), made, c.value);
      made := made + [c.value];
    }
    r := Some(made);
  }

  /** `now` is `was` followed by every channel counted for n. */
  ghost predicate Extended(vm: Properties, was: seq<Channel>, now: seq<Channel>, n: string, count: nat) {
    was <= now && |now| == |was| + count && Builds(Builder(vm, n), now[|was|..])
  }

  /** A name outside `todo` is finished, any other untouched. */
  ghost predicate Settled(
    vm: Properties, infos: map<string, nat>, channels: map<string, seq<Channel>>, now: map<string, seq<Channel>>,
    todo: set<string>,
    n: string)
  {
    if n in infos && n !in todo then n in now && Extended(vm, Before(channels, n), now[n], n, infos[n])
    else (n in now <==> n in channels) && Before(now, n) == Before(channels, n)
  }

  ghost predicate Partly(
    vm: Properties, infos: map<string, nat>, channels: map<string, seq<Channel>>, now: map<string, seq<Channel>>,
    todo: set<string>)
  {
    todo <= infos.Keys && forall n :: Settled(vm, infos, channels, now, todo, n)
  }

  lemma PartlyNext(
    vm: Properties, infos: map<string, nat>, channels: map<string, seq<Channel>>, now: map<string, seq<Channel>>,
    todo: set<string>,
    name: string, made: seq<Channel>)
    requires Partly(vm, infos, channels, now, todo) && name in todo
    requires |made| == infos[name] && Builds(Builder(vm, name), made)
    ensures Partly(vm, infos, channels, now[name := Before(now, name) + made], todo - {name})
  {
    var now' := now[name := Before(now, name) + made];
    forall n ensures Settled(vm, infos, channels, now', todo - {name}, n) {
      assert Settled(vm, infos, channels, now, todo, n);
      if n == name { ExtendedBy(vm, Before(channels, n), made, n); }
    }
  }

  lemma PartlyDone(
    vm: Properties, infos: map<string, nat>, channels: map<string, seq<Channel>>, now: map<string, seq<Channel>>)
    requires Partly(vm, infos, channels, now, {})
    requires forall n :: n in infos <==> Count(vm, n) > 0
    requires forall n | n in infos :: infos[n] == Count(vm, n)
    ensures forall n :: n in now <==> n in channels || Count(vm, n) > 0
    ensures forall n :: Extended(vm, Before(channels, n), Before(now, n), n, Count(vm, n))
  {
    forall n
      ensures n in now <==> n in channels || Count(vm, n) > 0
      ensures Extended(vm, Before(channels, n), Before(now, n), n, Count(vm, n))
    {
      assert Settled(vm, infos, channels, now, {}, n);
      if n !in infos { ExtendedBy(vm, Before(channels, n), [], n); }
    }
  }

  lemma ExtendedBy(vm: Properties, was: seq<Channel>, made: seq<Channel>, n: string)
    requires Builds(Builder(vm, n), made)
    ensures Extended(vm, was, was + made, n, |made|)
  {
    assert (was + made)[|was|..] == made;
  }

  /** InitWrapper: one channel per counted index, appended to the device's channels. */
  method InitChannels(opts: ProgOptions, channels: map<string, seq<Channel>>)
    returns (r: Option<map<string, seq<Channel>>>)
    ensures r.Some? ==> forall n :: n in r.value <==> n in channels || Count(opts.fVarMap, n) > 0
    ensures r.Some? ==>
            forall n :: Extended(opts.fVarMap, Before(channels, n), Before(r.value, n), n, Count(opts.fVarMap, n))
    ensures r.None? ==> exists n: string, i: nat :: i < Count(opts.fVarMap, n) && Builder(opts.fVarMap, n)(i) == None
  {
    var infos := GetChannelInfo(opts.fVarMap);
    var now := channels;
    var todo := infos.Keys;
    while todo != {}
      invariant Partly(opts.fVarMap, infos, channels, now, todo)
      decreases todo
    {
      var name :| name in todo;
      var made := BuildChannels(opts, name, infos[name]);
      if made.None? {
        return None;
      }
      PartlyNext(opts.fVarMap, infos, channels, now, todo, name, made.value);
      now := now[name := Before(now, name) + made.value];
      todo := todo - {name};
    }
    PartlyDone(opts.fVarMap, infos, channels, now);
    r := Some(now);
  }

  /** End to end: what was added under a name is what the device ends up with. */
  lemma DeviceGetsWhatWasAdded(vm: Properties, adds: seq<(string, Channel)>, n: string, now: seq<Channel>)
    requires forall k | k in vm :: !(CHANS <= k)
    requires forall a | a in adds :: DotFree(a.0)
    requires Extended(AddAll(vm, adds), [], now, n, Count(AddAll(vm, adds), n))
    ensures |now| == |Collected(adds, n)|
    ensures forall i | 0 <= i < |now| :: now[i] == WithoutTimeouts(Collected(adds, n)[i])
  {
    ChannelsRoundTrip(vm, adds, n);
    forall i: nat | i < |now| ensures now[i] == WithoutTimeouts(Collected(adds, n)[i]) {
      assert now[0..] == now;
      assert Builder(AddAll(vm, adds), n)(i) == Some(now[i]);
    }
  }
}
