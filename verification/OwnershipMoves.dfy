/** Copying, sending, receiving and resizing keep the ownership invariant; so does every run. */
module OwnershipMoves {
  import opened Arithmetic
  import opened Wrappers
  import opened Counting
  import opened Ownership
  import opened OwnershipInvariant
  import opened OwnershipSteps

  /** Two slots that count alike: same reference, same creation, same debt. */
  predicate SameRole(cfg: Config, s: Slot, t: Slot) {
    && Active(s) == Active(t) && s.phase == t.phase
    && s.local.meta.managed == t.local.meta.managed && s.origin == t.origin
    && CellOf(cfg, s.local.meta) == CellOf(cfg, t.local.meta)
  }

  lemma SameRolePairs(w: World, p: Place, s: Slot)
    requires Paired(w) && p in w.slots && SameRole(w.cfg, s, w.slots[p])
    ensures PairsWithAll(w, p, s)
  {
    forall q | q in w.slots && q != p && Active(w.slots[q]) && Active(s)
      ensures PairOk(w.cfg, s, w.slots[q]) && PairOk(w.cfg, w.slots[q], s)
    {
      assert PairOk(w.cfg, w.slots[p], w.slots[q]) && PairOk(w.cfg, w.slots[q], w.slots[p]);
    }
  }

  lemma SameRolePut(w: World, m: nat, s: Slot)
    requires Inv(w) && IsActive(w, m) && SameRole(w.cfg, s, w.slots[Msg(m)]) && Faithful(w, s)
    ensures Inv(Put(w, m, s))
  {
    var p, w1 := Msg(m), Put(w, m, s);
    assert SlotCovered(w.cfg, w.counts, w.slots[p]);
    SameRolePairs(w, p, s);
    PutShape(w, w1, p, s);
    SameRoleCounted(w, w1, p, s);
    SameBalance(w, w1);
    SameExclusive(w, w1, p, s);
  }

  lemma SameRoleCounted(w: World, w1: World, p: Place, s: Slot)
    requires Covered(w) && Counted(w) && Replaces(w, w1, p, s) && w1.counts == w.counts
    requires p in w.slots && Active(w.slots[p]) && SameRole(w.cfg, s, w.slots[p])
    ensures Counted(w1)
  {
    var c := if CellOf(w.cfg, s.local.meta).Some? then CellOf(w.cfg, s.local.meta).value else Seg(0, 0);
    if c in w.counts { NPut(w, w1, p, s, Owns(c)); }
    PutCounted(w, w1, p, s, c);
  }

  // ---------------------------------------------------------------- copies

  /** A second holder joins a counter that exists. */
  lemma JoinShared(w: World, w1: World, m: nat, o: Place, s: Slot, c: Cell)
    requires Inv(w) && Msg(m) in w.slots && Inert(w.slots[Msg(m)]) && o in w.slots && Active(w.slots[o])
    requires CellOf(w.cfg, w.slots[o].local.meta) == Some(c) && At(w.counts, c) < U16 - 1
    requires Active(s) && SameRole(w.cfg, s, w.slots[o]) && Faithful(w, s)
    requires w1 == Put(w, m, s).(counts := w.counts[c := Inc(At(w.counts, c))])
    ensures Inv(w1)
  {
    JoinFacts(w.cfg, s, w.slots[o], c);
    JoinParts(w, w1, Msg(m), o, s, c);
  }

  lemma JoinFacts(cfg: Config, s: Slot, t: Slot, c: Cell)
    requires Active(s) && Active(t) && SameRole(cfg, s, t) && CellOf(cfg, t.local.meta) == Some(c)
    ensures CellOf(cfg, s.local.meta) == Some(c) && Used(cfg, s) == Used(cfg, t) == Some(c)
    ensures Doomed(s).None? && Owed(s).None? && Held(s) == Held(t)
  {
  }

  lemma JoinParts(w: World, w1: World, p: Place, o: Place, s: Slot, c: Cell)
    requires Inv(w) && Replaces(w, w1, p, s) && p.Msg? && p in w.slots && Inert(w.slots[p])
    requires o in w.slots && Active(w.slots[o]) && CellOf(w.cfg, w.slots[o].local.meta) == Some(c)
    requires Active(s) && SameRole(w.cfg, s, w.slots[o]) && Faithful(w, s)
    requires Used(w.cfg, s) == Used(w.cfg, w.slots[o]) == Some(c)
    requires Doomed(s).None? && Owed(s).None? && Held(s) == Held(w.slots[o])
    requires At(w.counts, c) < U16 - 1 && w1.counts == w.counts[c := Inc(At(w.counts, c))]
    requires w1.creations == w.creations && w1.returned == w.returned && w1.extents == w.extents
    requires w1.allocs == w.allocs && w1.frees == w.frees
    ensures Inv(w1)
  {
    JoinCounted(w, w1, p, o, s, c);
    JoinShape(w, w1, p, o, s, c);
    JoinLogs(w, w1, p, o, s);
  }

  lemma JoinLogs(w: World, w1: World, p: Place, o: Place, s: Slot)
    requires Exclusive(w) && Logged(w) && Replaces(w, w1, p, s)
    requires w1.creations == w.creations && w1.returned == w.returned && w1.counts.Keys == w.counts.Keys
    requires w1.allocs == w.allocs && w1.frees == w.frees
    requires p in w.slots && Inert(w.slots[p]) && o in w.slots && Held(s) == Held(w.slots[o]) && Owed(s).None?
    ensures Exclusive(w1) && Logged(w1)
  {
    SameBalance(w, w1);
    MoreExclusive(w, w1, p, o, s);
  }

  lemma JoinShape(w: World, w1: World, p: Place, o: Place, s: Slot, c: Cell)
    requires Shape(w) && Replaces(w, w1, p, s) && w1.creations == w.creations && w1.extents == w.extents
    requires p.Msg? && o in w.slots && Active(w.slots[o]) && CellOf(w.cfg, w.slots[o].local.meta) == Some(c)
    requires Active(s) && SameRole(w.cfg, s, w.slots[o]) && Faithful(w, s)
    requires c in w.counts && w1.counts == w.counts[c := Inc(At(w.counts, c))]
    ensures Shape(w1)
  {
    JoinPairs(w, p, o, s, c);
    PutShape(w, w1, p, s);
  }

  lemma JoinCounted(w: World, w1: World, p: Place, o: Place, s: Slot, c: Cell)
    requires Covered(w) && Counted(w) && Replaces(w, w1, p, s) && o in w.slots && Used(w.cfg, w.slots[o]) == Some(c)
    requires p in w.slots && Inert(w.slots[p]) && Used(w.cfg, s) == Some(c) && Doomed(s).None?
    requires At(w.counts, c) < U16 - 1 && w1.counts == w.counts[c := Inc(At(w.counts, c))]
    ensures c in w.counts && Counted(w1)
  {
    assert SlotCovered(w.cfg, w.counts, w.slots[o]);
    NHas(w, Owns(c), o);
    PutCounted(w, w1, p, s, c);
  }

  lemma JoinPairs(w: World, p: Place, o: Place, s: Slot, c: Cell)
    requires Paired(w) && o in w.slots && Active(w.slots[o]) && SameRole(w.cfg, s, w.slots[o])
    requires CellOf(w.cfg, s.local.meta) == Some(c)
    ensures PairsWithAll(w, p, s)
  {
    forall q | q in w.slots && q != p && Active(w.slots[q])
      ensures PairOk(w.cfg, s, w.slots[q]) && PairOk(w.cfg, w.slots[q], s)
    {
      if q != o { assert PairOk(w.cfg, w.slots[o], w.slots[q]) && PairOk(w.cfg, w.slots[q], w.slots[o]); }
    }
  }

  lemma MoreExclusive(w: World, w1: World, p: Place, o: Place, s: Slot)
    requires Exclusive(w) && Replaces(w, w1, p, s) && w1.creations == w.creations && w1.returned == w.returned
    requires p in w.slots && Inert(w.slots[p]) && o in w.slots && Held(s) == Held(w.slots[o]) && Owed(s).None?
    ensures Exclusive(w1)
  {
    forall c: nat | c < |w1.creations|
      ensures Bit(N(w1, Holds(c)) > 0) + N(w1, Owes(c)) + Times(w1.returned, c) == 1
    {
      NPut(w, w1, p, s, Holds(c));
      NPut(w, w1, p, s, Owes(c));
      if Held(s) == Some(c) { NHas(w, Holds(c), o); }
    }
  }

  /** The only holder of a creation gets a counter of its own, standing at one. */
  lemma GetsCounter(w: World, w1: World, m: nat, s: Slot, c: Cell)
    requires Inv(w) && IsActive(w, m) && !w.slots[Msg(m)].local.meta.managed && c !in w.counts
    requires CellOf(w.cfg, w.slots[Msg(m)].local.meta).None? && CellOf(w.cfg, s.local.meta) == Some(c)
    requires Active(s) && s.origin == w.slots[Msg(m)].origin && !s.local.meta.managed && Faithful(w, s)
    requires w1 == Put(w, m, s).(counts := w.counts[c := 1], allocs := w.allocs + multiset{c})
    ensures Inv(w1)
  {
    var p := Msg(m);
    NewCounterPairs(w, p, s, c);
    FreshBalance(w, w1, c);
    PutShape(w, w1, p, s);
    FreshCounted(w, w1, p, s, c);
    SameExclusive(w, w1, p, s);
  }

  lemma NewCounterPairs(w: World, p: Place, s: Slot, c: Cell)
    requires Covered(w) && Paired(w) && p in w.slots && Active(w.slots[p]) && c !in w.counts
    requires !w.slots[p].local.meta.managed && CellOf(w.cfg, w.slots[p].local.meta).None?
    requires CellOf(w.cfg, s.local.meta) == Some(c) && !s.local.meta.managed && s.origin == w.slots[p].origin
    ensures PairsWithAll(w, p, s)
  {
    forall q | q in w.slots && q != p && Active(w.slots[q])
      ensures PairOk(w.cfg, s, w.slots[q]) && PairOk(w.cfg, w.slots[q], s)
    {
      assert SlotCovered(w.cfg, w.counts, w.slots[q]);
      assert PairOk(w.cfg, w.slots[q], w.slots[p]);
    }
  }

  lemma CopySharedInv(w: World, op: Op)
    requires Inv(w) && Enabled(w, op) && op.CopyInto? && CellOf(w.cfg, w.slots[Msg(op.src)].local.meta).Some?
    ensures Inv(Apply(w, op))
  {
    var w1 := Apply(w, op);
    var s := w1.slots[Msg(op.m)];
    assert w.slots[Msg(op.src) := w.slots[Msg(op.src)]] == w.slots;
    var o :| o in w.slots && SameReference(w.cfg, w.slots[o], w.slots[Msg(op.src)]);
    assert Faithful(w, w.slots[o]);
    JoinShared(w, w1, op.m, o, s, CellOf(w.cfg, s.local.meta).value);
  }

  /** A lazy copy is "create the counter at one, then copy". */
  lemma CopyLazyInv(w: World, op: Op)
    requires Inv(w) && Enabled(w, op) && op.CopyInto? && CellOf(w.cfg, w.slots[Msg(op.src)].local.meta).None?
    ensures Inv(Apply(w, op))
  {
    var w1 := Apply(w, op);
    var d, s := w1.slots[Msg(op.m)], w1.slots[Msg(op.src)];
    assert Faithful(w, w.slots[Msg(op.src)]);
    ShareThenJoin(w, w1, op.m, op.src, d, s,
        LazyCell(w.cfg, w.slots[Msg(op.src)].local.meta, Home(w, op.m), op.handle));
  }

  lemma ShareThenJoin(w: World, w1: World, m: nat, src: nat, d: Slot, s: Slot, c: Cell)
    requires Inv(w) && IsActive(w, src) && m != src && Msg(m) in w.slots && Inert(w.slots[Msg(m)])
    requires !w.slots[Msg(src)].local.meta.managed && c !in w.counts
    requires CellOf(w.cfg, w.slots[Msg(src)].local.meta).None? && CellOf(w.cfg, s.local.meta) == Some(c)
    requires Active(s) && s.origin == w.slots[Msg(src)].origin && !s.local.meta.managed && Faithful(w, s)
    requires Active(d) && SameRole(w.cfg, d, s) && Faithful(w, d)
    requires w1 == w.(slots := w.slots[Msg(src) := s][Msg(m) := d], counts := w.counts[c := 2],
                      allocs := w.allocs + multiset{c})
    ensures Inv(w1)
  {
    var mid := Put(w, src, s).(counts := w.counts[c := 1], allocs := w.allocs + multiset{c});
    SharedFirst(w, mid, w1, m, src, d, s, c);
    GetsCounter(w, mid, src, s, c);
    JoinFresh(mid, w1, m, src, d, c);
  }

  lemma SharedFirst(w: World, mid: World, w1: World, m: nat, src: nat, d: Slot, s: Slot, c: Cell)
    requires m != src && Msg(m) in w.slots && Inert(w.slots[Msg(m)]) && Active(s)
    requires SameRole(w.cfg, d, s) && Faithful(w, d)
    requires mid == Put(w, src, s).(counts := w.counts[c := 1], allocs := w.allocs + multiset{c})
    requires w1 == w.(slots := w.slots[Msg(src) := s][Msg(m) := d], counts := w.counts[c := 2],
                      allocs := w.allocs + multiset{c})
    ensures IsActive(mid, src) && Msg(m) in mid.slots && Inert(mid.slots[Msg(m)])
    ensures mid.slots[Msg(src)] == s && mid.cfg == w.cfg
    ensures At(mid.counts, c) == 1 && SameRole(mid.cfg, d, s) && Faithful(mid, d)
    ensures w1 == mid.(slots := mid.slots[Msg(m) := d], counts := w1.counts) && w1.counts == mid.counts[c := 2]
  {
  }

  lemma JoinFresh(w: World, w1: World, m: nat, src: nat, d: Slot, c: Cell)
    requires Inv(w) && IsActive(w, src) && m != src && Msg(m) in w.slots && Inert(w.slots[Msg(m)])
    requires CellOf(w.cfg, w.slots[Msg(src)].local.meta) == Some(c) && At(w.counts, c) == 1
    requires Active(d) && SameRole(w.cfg, d, w.slots[Msg(src)]) && Faithful(w, d)
    requires w1 == w.(slots := w.slots[Msg(m) := d], counts := w1.counts) && w1.counts == w.counts[c := 2]
    ensures Inv(w1)
  {
    JoinShared(w, w1, m, Msg(src), d, c);
  }

  // ---------------------------------------------------------------- moves through a socket

  lemma NRemove(w: World, w1: World, p: Place, q: Query)
    requires w1.cfg == w.cfg && w1.slots == w.slots - {p}
    ensures N(w1, q) == N(w, q) - SatAt(w.cfg, w.slots, p, q)
  {
    PlacesRemove(w.cfg, w.slots, p, q);
  }

  lemma RemoveShape(w: World, w1: World, p: Place)
    requires Shape(w) && w1.cfg == w.cfg && w1.slots == w.slots - {p}
    requires w1.creations == w.creations && w1.counts == w.counts && w1.extents == w.extents
    ensures Shape(w1)
  {
    forall a | a in w1.slots ensures SlotCovered(w1.cfg, w1.counts, w1.slots[a]) && Faithful(w1, w1.slots[a]) {
      assert SlotCovered(w.cfg, w.counts, w.slots[a]) && Faithful(w, w.slots[a]);
    }
  }

  /** If every query has the same answer and the logs are untouched, the numeric part survives. */
  lemma SameNumbers(w: World, w1: World)
    requires Counted(w) && Exclusive(w) && Logged(w)
    requires w1.counts == w.counts && w1.creations == w.creations && w1.returned == w.returned
    requires w1.allocs == w.allocs && w1.frees == w.frees
    requires forall q :: N(w1, q) == N(w, q)
    ensures Counted(w1) && Exclusive(w1) && Logged(w1)
  {
    forall i | 0 <= i < |w1.returned| ensures ReturnOk(w1, w1.returned[i]) {
      assert ReturnOk(w, w.returned[i]);
    }
  }

  lemma InertSat(cfg: Config, s: Slot, q: Query)
    requires Inert(s)
    ensures !Sat(cfg, s, q)
  {
  }

  lemma RoleSat(cfg: Config, s: Slot, t: Slot, q: Query)
    requires SameRole(cfg, s, t)
    ensures Sat(cfg, s, q) == Sat(cfg, t, q)
  {
  }

  lemma DestroyInv(w: World, op: Op)
    requires Inv(w) && Enabled(w, op) && op.Destroy?
    ensures Inv(Apply(w, op))
  {
    RemoveInert(w, Apply(w, op), Msg(op.m));
  }

  lemma RemoveInert(w: World, w1: World, p: Place)
    requires Inv(w) && p in w.slots && Inert(w.slots[p]) && w1 == w.(slots := w.slots - {p})
    ensures Inv(w1)
  {
    RemoveShape(w, w1, p);
    forall q ensures N(w1, q) == N(w, q) {
      NRemove(w, w1, p, q);
      InertSat(w.cfg, w.slots[p], q);
    }
    SameNumbers(w, w1);
  }

  /** The reference at `p` moves to the inert place `p1`; `mid` is the world in between. */
  lemma MovedShape(w: World, mid: World, w1: World, p: Place, p1: Place, s: Slot)
    requires Shape(w) && Shape(mid) && p in w.slots && p != p1
    requires mid.cfg == w.cfg && mid.counts == w.counts && mid.creations == w.creations && mid.extents == w.extents
    requires forall a | a in mid.slots && a != p && a != p1 :: a in w.slots && mid.slots[a] == w.slots[a]
    requires p in mid.slots ==> !Active(mid.slots[p])
    requires SameRole(w.cfg, s, w.slots[p]) && Faithful(w, s) && (p1.Flight? ==> s.phase.Open? && !s.local.queued)
    requires w1 == mid.(slots := mid.slots[p1 := s])
    ensures Shape(w1)
  {
    forall q | q in mid.slots && q != p1 && Active(mid.slots[q]) && Active(s)
      ensures PairOk(w.cfg, s, mid.slots[q]) && PairOk(w.cfg, mid.slots[q], s)
    {
      SameRolePairs(w, p, s);
      assert q != p && mid.slots[q] == w.slots[q];
    }
    assert SlotCovered(w.cfg, w.counts, w.slots[p]);
    PutShape(mid, w1, p1, s);
  }

  lemma SendInv(w: World, op: Op)
    requires Inv(w) && Enabled(w, op) && op.Send?
    ensures Inv(Apply(w, op))
  {
    var w1 := Apply(w, op);
    assert Faithful(w, w.slots[Msg(op.m)]);
    var t, f := w1.slots[Msg(op.m)], w1.slots[Flight(op.packet)];
    SendMoves(w, Put(w, op.m, t), w1, op.m, t, Flight(op.packet), f);
  }

  lemma SendMoves(w: World, mid: World, w1: World, m: nat, t: Slot, p1: Place, f: Slot)
    requires Inv(w) && Msg(m) in w.slots && p1 !in w.slots && mid == Put(w, m, t)
    requires w1 == mid.(slots := mid.slots[p1 := f])
    requires Inert(t) && Faithful(w, t)
    requires SameRole(w.cfg, f, w.slots[Msg(m)]) && Faithful(w, f) && f.phase.Open? && !f.local.queued
    ensures Inv(w1)
  {
    var p := Msg(m);
    PutShape(w, mid, p, t);
    MovedShape(w, mid, w1, p, p1, f);
    forall q ensures N(w1, q) == N(w, q) {
      NPut(w, mid, p, t, q);
      NPut(mid, w1, p1, f, q);
      InertSat(w.cfg, t, q);
      RoleSat(w.cfg, f, w.slots[p], q);
    }
    SameNumbers(w, w1);
  }

  lemma ReceiveInv(w: World, op: Op)
    requires Inv(w) && Enabled(w, op) && op.Receive?
    ensures Inv(Apply(w, op))
  {
    var w1 := Apply(w, op);
    assert Faithful(w, w.slots[Flight(op.packet)]);
    ReceiveMoves(w, w.(slots := w.slots - {Flight(op.packet)}), w1, Flight(op.packet), op.m, w1.slots[Msg(op.m)]);
  }

  lemma ReceiveMoves(w: World, mid: World, w1: World, p: Place, m: nat, s: Slot)
    requires Inv(w) && p in w.slots && p.Flight? && Msg(m) in w.slots && Inert(w.slots[Msg(m)])
    requires mid == w.(slots := w.slots - {p}) && w1 == Put(mid, m, s)
    requires SameRole(w.cfg, s, w.slots[p]) && Faithful(w, s)
    ensures Inv(w1)
  {
    RemoveShape(w, mid, p);
    MovedShape(w, mid, w1, p, Msg(m), s);
    forall q ensures N(w1, q) == N(w, q) {
      NRemove(w, mid, p, q);
      NPut(mid, w1, Msg(m), s, q);
      InertSat(w.cfg, w.slots[Msg(m)], q);
      RoleSat(w.cfg, s, w.slots[p], q);
    }
    SameNumbers(w, w1);
  }

  // ---------------------------------------------------------------- shrinking

  /** The reallocating branch of SetUsedSize is "close, free, allocate again". */
  lemma ReallocSplits(w: World, op: Op)
    requires Enabled(w, op) && op.Realloc?
    ensures Enabled(w, CloseBegin(op.m))
    ensures var w1 := Apply(w, CloseBegin(op.m));
            Enabled(w1, Free(op.m)) &&
            var w2 := Apply(w1, Free(op.m));
            Enabled(w2, Alloc(op.m, op.size, op.handle)) && Apply(w2, Alloc(op.m, op.size, op.handle)) == Apply(w, op)
  {
    var w1 := Apply(w, CloseBegin(op.m));
    var w2 := Apply(w1, Free(op.m));
    var l := w.slots[Msg(op.m)].local;
    assert w2.counts == w.counts - {Seg(l.meta.segment, l.meta.handle)};
    assert Apply(w2, Alloc(op.m, op.size, op.handle)).slots == Apply(w, op).slots;
  }

  // ---------------------------------------------------------------- every step, every run

  /** Every enabled step of any process keeps the invariant. */
  lemma StepInv(w: World, op: Op)
    requires Inv(w) && Enabled(w, op)
    ensures Inv(Apply(w, op))
  {
    if op.CopyInto? || op.Send? || op.Receive? || op.CloseBegin? || op.Free? || op.Release? {
      ReferenceInv(w, op);
    } else {
      ObjectInv(w, op);
    }
  }

  /** Steps that add, move or drop a reference. */
  lemma ReferenceInv(w: World, op: Op)
    requires Inv(w) && Enabled(w, op)
    requires op.CopyInto? || op.Send? || op.Receive? || op.CloseBegin? || op.Free? || op.Release?
    ensures Inv(Apply(w, op))
  {
    match op
    case CopyInto(_, _, _) => CopyInv(w, op);
    case Send(_, _) => SendInv(w, op);
    case Receive(_, _) => ReceiveInv(w, op);
    case CloseBegin(_) => CloseBeginInv(w, op);
    case Free(_) => FreeInv(w, op);
    case Release(_) => ReleaseInv(w, op);
  }

  /** Steps that create, change or destroy a message object. */
  lemma ObjectInv(w: World, op: Op)
    requires Inv(w) && Enabled(w, op)
    requires !(op.CopyInto? || op.Send? || op.Receive? || op.CloseBegin? || op.Free? || op.Release?)
    ensures Inv(Apply(w, op))
  {
    match op
    case CreateEmpty(_, _) => InertInv(w, op);
    case CreateRegionMsg(_, _, _) => CreateRegionInv(w, op);
    case Alloc(_, _, _) => AllocInv(w, op);
    case Rebuild(_) => InertInv(w, op);
    case Destroy(_) => DestroyInv(w, op);
    case Resize(_, _) => QuietInv(w, op);
    case Shrink(_, _) => ShrinkInv(w, op);
    case Realloc(_, _, _) => ReallocInv(w, op);
    case Look(_) => QuietInv(w, op);
  }

  lemma InertInv(w: World, op: Op)
    requires Inv(w) && Enabled(w, op) && (op.CreateEmpty? || op.Rebuild?)
    ensures Inv(Apply(w, op))
  {
    InertPut(w, op.m, Apply(w, op).slots[Msg(op.m)]);
  }

  lemma CreateRegionInv(w: World, op: Op)
    requires Inv(w) && Enabled(w, op) && op.CreateRegionMsg?
    ensures Inv(Apply(w, op))
  {
    FreshRegion(w, Apply(w, op), op.m, Apply(w, op).slots[Msg(op.m)], op.block);
  }

  lemma CopyInv(w: World, op: Op)
    requires Inv(w) && Enabled(w, op) && op.CopyInto?
    ensures Inv(Apply(w, op))
  {
    if CellOf(w.cfg, w.slots[Msg(op.src)].local.meta).Some? {
      CopySharedInv(w, op);
    } else {
      CopyLazyInv(w, op);
    }
  }

  lemma QuietInv(w: World, op: Op)
    requires Inv(w) && Enabled(w, op) && (op.Resize? || op.Look?)
    ensures Inv(Apply(w, op))
  {
    assert Faithful(w, w.slots[Msg(op.m)]);
    QuietPut(w, op.m, Apply(w, op).slots[Msg(op.m)]);
  }

  /** A change that keeps the slot's role, or touches a slot without a role. */
  lemma QuietPut(w: World, m: nat, s: Slot)
    requires Inv(w) && IsOpen(w, m) && s.phase.Open?
    requires if IsActive(w, m) then SameRole(w.cfg, s, w.slots[Msg(m)]) && Faithful(w, s) else Inert(s)
    ensures Inv(Put(w, m, s))
  {
    if IsActive(w, m) {
      SameRolePut(w, m, s);
    } else {
      InertPut(w, m, s);
    }
  }

  /** Nobody sees the part that was cut off. */
  lemma ShrinkInv(w: World, op: Op)
    requires Inv(w) && Enabled(w, op) && op.Shrink?
    ensures Inv(Apply(w, op))
  {
    var w1, s := Apply(w, op), Apply(w, op).slots[Msg(op.m)];
    var mid := Put(w, op.m, s);
    assert Faithful(w, w.slots[Msg(op.m)]);
    QuietPut(w, op.m, s);
    CutOff(mid, w1, PlaceOf(w.slots[Msg(op.m)].local.meta), op.size);
  }

  lemma CutOff(w: World, w1: World, c: Cell, size: nat)
    requires Inv(w) && w1 == w.(extents := Cut(w.extents, c, size))
    requires forall q | q in w.slots :: !SeesMore(w.slots[q], c, size)
    ensures Inv(w1)
  {
    forall q | q in w1.slots ensures Faithful(w1, w1.slots[q]) { assert Faithful(w, w.slots[q]); }
    forall q | q in w1.slots ensures SlotCovered(w1.cfg, w1.counts, w1.slots[q]) {
      assert SlotCovered(w.cfg, w.counts, w.slots[q]);
    }
    forall q ensures N(w1, q) == N(w, q) { }
    SameNumbers(w, w1);
  }

  lemma ReallocInv(w: World, op: Op)
    requires Inv(w) && Enabled(w, op) && op.Realloc?
    ensures Inv(Apply(w, op))
  {
    ReallocSplits(w, op);
    CloseBeginInv(w, CloseBegin(op.m));
    var w1 := Apply(w, CloseBegin(op.m));
    FreeInv(w1, Free(op.m));
    AllocInv(Apply(w1, Free(op.m)), Alloc(op.m, op.size, op.handle));
  }

  lemma AllocInv(w: World, op: Op)
    requires Inv(w) && Enabled(w, op) && op.Alloc?
    ensures Inv(Apply(w, op))
  {
    var w1 := Apply(w, op);
    FreshManaged(w, w1, op.m, w1.slots[Msg(op.m)], Seg(Home(w, op.m), op.handle));
  }

  lemma {:induction false} RunInv(w: World, ops: seq<Op>)
    requires Inv(w) && Valid(w, ops)
    ensures Inv(Exec(w, ops))
    decreases |ops|
  {
    if ops == [] {
    } else {
      StepInv(w, ops[0]);
      RunInv(Apply(w, ops[0]), ops[1..]);
    }
  }

  lemma ExecOne(w: World, op: Op)
    requires Enabled(w, op)
    ensures Valid(w, [op]) && Exec(w, [op]) == Apply(w, op)
  {
    assert [op][1..] == [];
  }

  lemma {:induction false} ExecAppend(w: World, a: seq<Op>, b: seq<Op>)
    requires Valid(w, a) && Valid(Exec(w, a), b)
    ensures Valid(w, a + b) && Exec(w, a + b) == Exec(Exec(w, a), b)
    decreases |a|
  {
    if a == [] {
      assert a + b == b;
    } else {
      assert (a + b)[1..] == a[1..] + b;
      ExecAppend(Apply(w, a[0]), a[1..], b);
    }
  }

  /** A run goes on with one more step. */
  lemma ExecNext(w: World, ops: seq<Op>, op: Op)
    requires Valid(w, ops) && Enabled(Exec(w, ops), op)
    ensures Valid(w, ops + [op]) && Exec(w, ops + [op]) == Apply(Exec(w, ops), op)
  {
    ExecOne(Exec(w, ops), op);
    ExecAppend(w, ops, [op]);
  }
}
