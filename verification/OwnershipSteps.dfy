/** Every step of every process keeps the ownership invariant. */
module OwnershipSteps {
  import opened Arithmetic
  import opened Wrappers
  import opened Counting
  import opened Ownership
  import opened OwnershipInvariant

  // ---------------------------------------------------------------- counting across one slot change

  lemma NPut(w: World, w1: World, p: Place, s: Slot, q: Query)
    requires w1.cfg == w.cfg && w1.slots == w.slots[p := s]
    ensures N(w1, q) == N(w, q) - SatAt(w.cfg, w.slots, p, q) + Bit(Sat(w.cfg, s, q))
  {
    PlacesPut(w.cfg, w.slots, p, s, q);
  }

  lemma NHas(w: World, q: Query, p: Place)
    requires p in w.slots && Sat(w.cfg, w.slots[p], q)
    ensures N(w, q) >= 1
  {
    CardMono({p}, Places(w.cfg, w.slots, q));
  }

  lemma NHasTwo(w: World, q: Query, p: Place, p1: Place)
    requires p in w.slots && p1 in w.slots && p != p1
    requires Sat(w.cfg, w.slots[p], q) && Sat(w.cfg, w.slots[p1], q)
    ensures N(w, q) >= 2
  {
    CardMono({p, p1}, Places(w.cfg, w.slots, q));
  }

  lemma Uncounted(w: World, c: Cell)
    requires Covered(w) && c !in w.counts
    ensures N(w, Owns(c)) == 0 && N(w, Frees(c)) == 0
  {
    assert forall p | p in w.slots :: SlotCovered(w.cfg, w.counts, w.slots[p]);
    assert Places(w.cfg, w.slots, Owns(c)) == {};
    assert Places(w.cfg, w.slots, Frees(c)) == {};
  }

  // ---------------------------------------------------------------- one slot replaced

  ghost predicate Replaces(w: World, w1: World, p: Place, s: Slot) {
    w1.cfg == w.cfg && w1.slots == w.slots[p := s] && w.creations <= w1.creations
  }

  /** No buffer in use has been cut. */
  ghost predicate ExtentsKept(w: World, w1: World) {
    forall c | c in w.counts && c in w.extents :: c in w1.extents && w1.extents[c] == w.extents[c]
  }

  ghost predicate PairsWithAll(w: World, p: Place, s: Slot) {
    Active(s) ==>
      forall q | q in w.slots && q != p && Active(w.slots[q]) ::
        PairOk(w.cfg, s, w.slots[q]) && PairOk(w.cfg, w.slots[q], s)
  }

  lemma PutShape(w: World, w1: World, p: Place, s: Slot)
    requires Shape(w) && Replaces(w, w1, p, s) && w.counts.Keys <= w1.counts.Keys && ExtentsKept(w, w1)
    requires Faithful(w1, s) && (p.Flight? ==> s.phase.Open? && !s.local.queued)
    requires SlotCovered(w.cfg, w1.counts, s) && PairsWithAll(w, p, s)
    ensures Shape(w1)
  {
    PutFaithful(w, w1, p, s);
    PutPaired(w, w1, p, s);
    forall a | a in w1.slots ensures SlotCovered(w1.cfg, w1.counts, w1.slots[a]) {
      if a != p { assert SlotCovered(w.cfg, w.counts, w.slots[a]); }
    }
  }

  lemma PutPaired(w: World, w1: World, p: Place, s: Slot)
    requires Paired(w) && Replaces(w, w1, p, s) && PairsWithAll(w, p, s)
    ensures Paired(w1)
  {
  }

  lemma PutFaithful(w: World, w1: World, p: Place, s: Slot)
    requires Covered(w) && AllFaithful(w) && Replaces(w, w1, p, s) && ExtentsKept(w, w1)
    requires Faithful(w1, s) && (p.Flight? ==> s.phase.Open? && !s.local.queued)
    ensures AllFaithful(w1)
  {
    forall a | a in w1.slots ensures Faithful(w1, w1.slots[a]) {
      if a != p { assert Faithful(w, w.slots[a]) && SlotCovered(w.cfg, w.counts, w.slots[a]); }
    }
  }

  /** The slot touches no counter other than `c`. */
  predicate Only(cfg: Config, s: Slot, c: Cell) {
    && (Used(cfg, s).Some? ==> Used(cfg, s).value == c)
    && (Doomed(s).Some? ==> Doomed(s).value == c)
  }

  /** Counters change at most at `c`, and there by what the replaced slot says. */
  lemma PutCounted(w: World, w1: World, p: Place, s: Slot, c: Cell)
    requires Covered(w) && Counted(w) && Replaces(w, w1, p, s)
    requires Only(w.cfg, s, c) && (p in w.slots ==> Only(w.cfg, w.slots[p], c))
    requires w1.counts - {c} == w.counts - {c}
    requires c in w1.counts ==>
      && w1.counts[c] == At(w.counts, c) - SatAt(w.cfg, w.slots, p, Owns(c)) + Bit(Sat(w.cfg, s, Owns(c))) < U16
      && Bit(w1.counts[c] == 0) == Bit(c in w.counts && w.counts[c] == 0)
           - SatAt(w.cfg, w.slots, p, Frees(c)) + Bit(Sat(w.cfg, s, Frees(c)))
    ensures Counted(w1)
  {
    forall c1 | c1 in w1.counts
      ensures w1.counts[c1] == N(w1, Owns(c1)) < U16 && N(w1, Frees(c1)) == Bit(w1.counts[c1] == 0)
    {
      NPut(w, w1, p, s, Owns(c1));
      NPut(w, w1, p, s, Frees(c1));
      if c1 != c {
        assert c1 in w1.counts - {c};
        assert (w1.counts - {c})[c1] == (w.counts - {c})[c1];
      } else if c1 !in w.counts {
        Uncounted(w, c1);
      }
    }
  }

  /** The replaced slot holds and owes the same creation as before. */
  lemma SameExclusive(w: World, w1: World, p: Place, s: Slot)
    requires Exclusive(w) && Replaces(w, w1, p, s)
    requires w1.creations == w.creations && w1.returned == w.returned
    requires Held(s) == (if p in w.slots then Held(w.slots[p]) else None)
    requires Owed(s) == (if p in w.slots then Owed(w.slots[p]) else None)
    ensures Exclusive(w1)
  {
    forall o: nat | o < |w1.creations|
      ensures Bit(N(w1, Holds(o)) > 0) + N(w1, Owes(o)) + Times(w1.returned, o) == 1
    {
      NPut(w, w1, p, s, Holds(o));
      NPut(w, w1, p, s, Owes(o));
    }
  }

  // ---------------------------------------------------------------- the steps

  /** A slot that neither holds nor owes anything. */
  predicate Inert(s: Slot) { s.phase.Open? && !Active(s) }

  lemma InertPut(w: World, m: nat, s: Slot)
    requires Inv(w) && Inert(s)
    requires Msg(m) in w.slots ==> Inert(w.slots[Msg(m)])
    ensures Inv(Put(w, m, s))
  {
    var w1 := Put(w, m, s);
    PutShape(w, w1, Msg(m), s);
    PutCounted(w, w1, Msg(m), s, Seg(0, 0));
    SameExclusive(w, w1, Msg(m), s);
  }

  /** An inert message becomes the only holder of a fresh managed buffer. */
  lemma FreshManaged(w: World, w1: World, m: nat, s: Slot, c: Cell)
    requires Inv(w) && c !in w.counts && Msg(m) in w.slots && Inert(w.slots[Msg(m)])
    requires Active(s) && s.local.meta.managed && CellOf(w.cfg, s.local.meta) == Some(c)
    requires w1 == Put(w, m, s).(counts := w.counts[c := 1], extents := w.extents[c := s.local.meta.size],
                                 allocs := w.allocs + multiset{c})
    ensures Inv(w1)
  {
    FreshPairs(w, Msg(m), s, c);
    FreshBalance(w, w1, c);
    PutShape(w, w1, Msg(m), s);
    FreshCounted(w, w1, Msg(m), s, c);
    SameExclusive(w, w1, Msg(m), s);
  }

  lemma FreshPairs(w: World, p: Place, s: Slot, c: Cell)
    requires Covered(w) && c !in w.counts
    requires s.local.meta.managed && CellOf(w.cfg, s.local.meta) == Some(c)
    ensures PairsWithAll(w, p, s)
  {
    forall q | q in w.slots && q != p && Active(w.slots[q])
      ensures PairOk(w.cfg, s, w.slots[q]) && PairOk(w.cfg, w.slots[q], s)
    {
      assert SlotCovered(w.cfg, w.counts, w.slots[q]);
    }
  }

  /** A region message is created: a new creation with one holder and no counter. */
  lemma FreshRegion(w: World, w1: World, m: nat, s: Slot, b: Block)
    requires Inv(w) && Msg(m) !in w.slots
    requires Active(s) && !s.local.meta.managed && s.local.meta.shared < 0 && s.origin == |w.creations|
    requires BlockOf(s.local.meta) == b && s.local.regionPtr.None? && b.region in w.cfg.rc
    requires w1 == Put(w, m, s).(creations := w.creations + [b])
    ensures Inv(w1)
  {
    NewOriginPairs(w, Msg(m), s);
    PutShape(w, w1, Msg(m), s);
    PutCounted(w, w1, Msg(m), s, Seg(0, 0));
    NewExclusive(w, w1, Msg(m), s);
    MoreCreations(w, w1);
  }

  lemma NewExclusive(w: World, w1: World, p: Place, s: Slot)
    requires Exclusive(w) && AllFaithful(w) && ReturnsOk(w) && p !in w.slots && Replaces(w, w1, p, s)
    requires Held(s) == Some(|w.creations|) && Owed(s).None?
    requires |w1.creations| == |w.creations| + 1 && w1.returned == w.returned
    ensures Exclusive(w1)
  {
    forall o: nat | o < |w1.creations|
      ensures Bit(N(w1, Holds(o)) > 0) + N(w1, Owes(o)) + Times(w1.returned, o) == 1
    {
      NPut(w, w1, p, s, Holds(o));
      NPut(w, w1, p, s, Owes(o));
      if o == |w.creations| { NewOrigin(w); }
    }
  }

  lemma MoreCreations(w: World, w1: World)
    requires Logged(w) && w.creations <= w1.creations && w1.counts == w.counts
    requires w1.allocs == w.allocs && w1.frees == w.frees && w1.returned == w.returned
    ensures Logged(w1)
  {
    forall i | 0 <= i < |w1.returned| ensures ReturnOk(w1, w1.returned[i]) { assert ReturnOk(w, w.returned[i]); }
  }

  lemma NewOriginPairs(w: World, p: Place, s: Slot)
    requires AllFaithful(w) && !s.local.meta.managed && s.local.meta.shared < 0 && s.origin == |w.creations|
    ensures PairsWithAll(w, p, s)
  {
    forall q | q in w.slots && Active(w.slots[q]) ensures Faithful(w, w.slots[q]) {}
  }

  lemma NewOrigin(w: World)
    requires AllFaithful(w) && ReturnsOk(w)
    ensures N(w, Holds(|w.creations|)) == 0 && N(w, Owes(|w.creations|)) == 0
    ensures Times(w.returned, |w.creations|) == 0
  {
    var o := |w.creations|;
    assert forall p | p in w.slots :: Faithful(w, w.slots[p]);
    assert Places(w.cfg, w.slots, Holds(o)) == {};
    assert Places(w.cfg, w.slots, Owes(o)) == {};
    assert forall i | 0 <= i < |w.returned| :: ReturnOk(w, w.returned[i]);
    NotReturned(w.returned, o);
  }

  lemma NotReturned(rs: seq<Returned>, o: nat)
    requires forall i | 0 <= i < |rs| :: rs[i].origin != o
    ensures Times(rs, o) == 0
  {
  }

  /** A slot without a counter gets a new one, standing at one. */
  lemma FreshCounted(w: World, w1: World, p: Place, s: Slot, c: Cell)
    requires Covered(w) && Counted(w) && Replaces(w, w1, p, s) && c !in w.counts && w1.counts == w.counts[c := 1]
    requires p in w.slots && Used(w.cfg, w.slots[p]).None? && Doomed(w.slots[p]).None?
    requires Used(w.cfg, s) == Some(c) && Doomed(s).None?
    ensures Counted(w1)
  {
    PutCounted(w, w1, p, s, c);
  }

  lemma FreshBalance(w: World, w1: World, c: Cell)
    requires Logged(w) && c !in w.counts && w1.counts.Keys == w.counts.Keys + {c}
    requires w1.allocs == w.allocs + multiset{c} && w1.frees == w.frees
    requires w1.returned == w.returned && w1.creations == w.creations
    ensures Logged(w1)
  {
    forall i | 0 <= i < |w1.returned| ensures ReturnOk(w1, w1.returned[i]) { assert ReturnOk(w, w.returned[i]); }
  }

  lemma SameBalance(w: World, w1: World)
    requires Logged(w) && w1.counts.Keys == w.counts.Keys && w1.allocs == w.allocs && w1.frees == w.frees
    requires w1.returned == w.returned && w1.creations == w.creations
    ensures Logged(w1)
  {
    forall i | 0 <= i < |w1.returned| ensures ReturnOk(w1, w1.returned[i]) { assert ReturnOk(w, w.returned[i]); }
  }

  /** One of several holders of a counter goes away. */
  lemma OneLess(w: World, w1: World, m: nat, s: Slot, c: Cell)
    requires Inv(w) && IsActive(w, m) && CellOf(w.cfg, w.slots[Msg(m)].local.meta) == Some(c)
    requires At(w.counts, c) != 1 && Inert(s)
    requires w1 == Put(w, m, s).(counts := w.counts[c := Dec(At(w.counts, c))])
    ensures Inv(w1)
  {
    var p := Msg(m);
    OneLessCounted(w, w1, p, s, c);
    PutShape(w, w1, p, s);
    SameBalance(w, w1);
    if w.slots[p].local.meta.managed {
      SameExclusive(w, w1, p, s);
    } else {
      HoldersAreOwners(w, p, c);
      LessExclusive(w, w1, p, s);
    }
  }

  lemma OneLessCounted(w: World, w1: World, p: Place, s: Slot, c: Cell)
    requires Covered(w) && Counted(w) && p in w.slots && Replaces(w, w1, p, s)
    requires Used(w.cfg, w.slots[p]) == Some(c) && Doomed(w.slots[p]).None?
    requires At(w.counts, c) != 1 && Inert(s) && w1.counts == w.counts[c := Dec(At(w.counts, c))]
    ensures c in w.counts && w.counts[c] > 1 && Counted(w1)
  {
    assert SlotCovered(w.cfg, w.counts, w.slots[p]);
    NHas(w, Owns(c), p);
    PutCounted(w, w1, p, s, c);
  }

  /** The counter of a shared region message counts exactly the holders of its creation. */
  lemma HoldersAreOwners(w: World, p: Place, c: Cell)
    requires Paired(w) && p in w.slots && Active(w.slots[p]) && !w.slots[p].local.meta.managed
    requires CellOf(w.cfg, w.slots[p].local.meta) == Some(c)
    ensures N(w, Owns(c)) == N(w, Holds(w.slots[p].origin))
  {
    var o := w.slots[p].origin;
    forall q | q in w.slots ensures Sat(w.cfg, w.slots[q], Owns(c)) == Sat(w.cfg, w.slots[q], Holds(o)) {
      if q != p && Active(w.slots[q]) { assert PairOk(w.cfg, w.slots[q], w.slots[p]); }
    }
    assert Places(w.cfg, w.slots, Owns(c)) == Places(w.cfg, w.slots, Holds(o));
  }

  lemma LessExclusive(w: World, w1: World, p: Place, s: Slot)
    requires Exclusive(w) && p in w.slots && Held(w.slots[p]).Some? && Owed(w.slots[p]).None? && Inert(s)
    requires N(w, Holds(w.slots[p].origin)) > 1
    requires Replaces(w, w1, p, s) && w1.creations == w.creations && w1.returned == w.returned
    ensures Exclusive(w1)
  {
    forall o: nat | o < |w1.creations|
      ensures Bit(N(w1, Holds(o)) > 0) + N(w1, Owes(o)) + Times(w1.returned, o) == 1
    {
      NPut(w, w1, p, s, Holds(o));
      NPut(w, w1, p, s, Owes(o));
    }
  }

  /** The last holder of a creation starts to owe its block. */
  lemma HeldToOwed(w: World, w1: World, p: Place, s: Slot)
    requires Exclusive(w) && p in w.slots && Held(w.slots[p]).Some? && Owed(w.slots[p]).None?
    requires Held(s).None? && Owed(s) == Held(w.slots[p])
    requires N(w, Holds(w.slots[p].origin)) == 1
    requires Replaces(w, w1, p, s) && w1.creations == w.creations && w1.returned == w.returned
    ensures Exclusive(w1)
  {
    forall o: nat | o < |w1.creations|
      ensures Bit(N(w1, Holds(o)) > 0) + N(w1, Owes(o)) + Times(w1.returned, o) == 1
    {
      NPut(w, w1, p, s, Holds(o));
      NPut(w, w1, p, s, Owes(o));
    }
  }

  /** The holder that takes a counter from one to zero becomes the one that frees it. */
  lemma LastOne(w: World, w1: World, m: nat, s: Slot, c: Cell)
    requires Inv(w) && IsActive(w, m) && CellOf(w.cfg, w.slots[Msg(m)].local.meta) == Some(c)
    requires At(w.counts, c) == 1 && s.phase == MustFree(c) && s.origin == w.slots[Msg(m)].origin
    requires s.local.meta == w.slots[Msg(m)].local.meta && !s.local.queued
    requires RegionPtrFits(s.local.regionPtr, s.local.meta)
    requires w1 == Put(w, m, s).(counts := w.counts[c := 0])
    ensures Inv(w1)
  {
    var p := Msg(m);
    assert Faithful(w, w.slots[p]);
    LastCounted(w, w1, p, s, c);
    PutShape(w, w1, p, s);
    SameBalance(w, w1);
    if s.local.meta.managed {
      SameExclusive(w, w1, p, s);
    } else {
      HoldersAreOwners(w, p, c);
      HeldToOwed(w, w1, p, s);
    }
  }

  lemma LastCounted(w: World, w1: World, p: Place, s: Slot, c: Cell)
    requires Covered(w) && Counted(w) && p in w.slots && Replaces(w, w1, p, s)
    requires Used(w.cfg, w.slots[p]) == Some(c) && Doomed(w.slots[p]).None?
    requires At(w.counts, c) == 1 && s.phase == MustFree(c) && w1.counts == w.counts[c := 0]
    ensures c in w.counts && w.counts[c] == 1 && Counted(w1)
  {
    PutCounted(w, w1, p, s, c);
  }

  /** A region message that was never copied is the only holder of its creation. */
  lemma SoleHolder(w: World, p: Place)
    requires Paired(w) && p in w.slots && Active(w.slots[p]) && !w.slots[p].local.meta.managed
    requires CellOf(w.cfg, w.slots[p].local.meta).None?
    ensures N(w, Holds(w.slots[p].origin)) == 1
  {
    var o := w.slots[p].origin;
    forall q | q in w.slots && q != p ensures !Sat(w.cfg, w.slots[q], Holds(o)) {
      if Active(w.slots[q]) { assert PairOk(w.cfg, w.slots[q], w.slots[p]); }
    }
    assert Places(w.cfg, w.slots, Holds(o)) == {p};
  }

  lemma CloseBeginInv(w: World, op: Op)
    requires Inv(w) && Enabled(w, op) && op.CloseBegin?
    ensures Inv(Apply(w, op))
  {
    var w1 := Apply(w, op);
    var p := Msg(op.m);
    var t, s := w.slots[p], w1.slots[p];
    if !Active(t) {
      InertPut(w, op.m, s);
    } else {
      assert Faithful(w, t);
      match CellOf(w.cfg, t.local.meta)
      case Some(c) =>
        if At(w.counts, c) == 1 { LastOne(w, w1, op.m, s, c); } else { OneLess(w, w1, op.m, s, c); }
      case None => NeverShared(w, w1, op.m, s);
    }
  }

  /** A region message that was never copied starts to owe its block. */
  lemma NeverShared(w: World, w1: World, m: nat, s: Slot)
    requires Inv(w) && IsActive(w, m) && CellOf(w.cfg, w.slots[Msg(m)].local.meta).None?
    requires s == w.slots[Msg(m)].(phase := MustRelease) && w1 == Put(w, m, s)
    ensures Inv(w1)
  {
    var p := Msg(m);
    assert Faithful(w, w.slots[p]);
    PutShape(w, w1, p, s);
    PutCounted(w, w1, p, s, Seg(0, 0));
    SameBalance(w, w1);
    SoleHolder(w, p);
    HeldToOwed(w, w1, p, s);
  }

  /** Nobody but `p` refers to the counter that `p` is about to free. */
  lemma Unreachable(w: World, p: Place, q: Place, c: Cell)
    requires Covered(w) && Counted(w) && p in w.slots && q in w.slots && p != q && Doomed(w.slots[p]) == Some(c)
    ensures Used(w.cfg, w.slots[q]) != Some(c) && Doomed(w.slots[q]) != Some(c)
  {
    assert SlotCovered(w.cfg, w.counts, w.slots[p]);
    NHas(w, Frees(c), p);
    if Used(w.cfg, w.slots[q]) == Some(c) { NHas(w, Owns(c), q); }
    if Doomed(w.slots[q]) == Some(c) { NHasTwo(w, Frees(c), p, q); }
  }

  lemma FreeShape(w: World, w1: World, p: Place, s: Slot, c: Cell)
    requires Shape(w) && Counted(w) && p.Msg? && p in w.slots && Doomed(w.slots[p]) == Some(c)
    requires Replaces(w, w1, p, s) && w1.creations == w.creations && w1.counts == w.counts - {c} && ExtentsKept(w, w1)
    requires Faithful(w, s) && !Active(s) && Doomed(s).None?
    ensures Shape(w1)
  {
    PutFaithful(w, w1, p, s);
    PutPaired(w, w1, p, s);
    forall a | a in w1.slots ensures SlotCovered(w1.cfg, w1.counts, w1.slots[a]) {
      if a != p {
        assert SlotCovered(w.cfg, w.counts, w.slots[a]);
        Unreachable(w, p, a, c);
      }
    }
  }

  lemma FreeInv(w: World, op: Op)
    requires Inv(w) && Enabled(w, op) && op.Free?
    ensures Inv(Apply(w, op))
  {
    var w1 := Apply(w, op);
    var p := Msg(op.m);
    var t, s := w.slots[p], w1.slots[p];
    var c := t.phase.cell;
    assert Faithful(w, t) && SlotCovered(w.cfg, w.counts, t);
    FreeShape(w, w1, p, s, c);
    FreeCounted(w, w1, p, s, c);
    FreeBalance(w, w1, c);
    SameExclusive(w, w1, p, s);
  }

  lemma FreeCounted(w: World, w1: World, p: Place, s: Slot, c: Cell)
    requires Covered(w) && Counted(w) && Replaces(w, w1, p, s) && w1.counts == w.counts - {c}
    requires p in w.slots && Doomed(w.slots[p]) == Some(c) && !Active(s) && Doomed(s).None?
    ensures Counted(w1)
  {
    PutCounted(w, w1, p, s, c);
  }

  lemma FreeBalance(w: World, w1: World, c: Cell)
    requires Logged(w) && c in w.counts && w1.counts == w.counts - {c}
    requires w1.allocs == w.allocs && w1.frees == w.frees + multiset{c}
    requires w1.returned == w.returned && w1.creations == w.creations
    ensures Logged(w1)
  {
    forall i | 0 <= i < |w1.returned| ensures ReturnOk(w1, w1.returned[i]) { assert ReturnOk(w, w.returned[i]); }
  }

  /** The owed creation is returned. */
  lemma OwedToReturned(w: World, w1: World, p: Place, s: Slot, r: Returned)
    requires Exclusive(w) && ReturnsOk(w) && p in w.slots
    requires Owed(w.slots[p]) == Some(r.origin) && Held(w.slots[p]).None?
    requires Held(s).None? && Owed(s).None? && ReturnOk(w, r)
    requires Replaces(w, w1, p, s) && w1.creations == w.creations && w1.returned == w.returned + [r]
    ensures Exclusive(w1) && ReturnsOk(w1)
  {
    NHas(w, Owes(r.origin), p);
    assert w1.returned[..|w.returned|] == w.returned;
    forall o: nat | o < |w1.creations|
      ensures Bit(N(w1, Holds(o)) > 0) + N(w1, Owes(o)) + Times(w1.returned, o) == 1
    {
      NPut(w, w1, p, s, Holds(o));
      NPut(w, w1, p, s, Owes(o));
    }
    forall i | 0 <= i < |w1.returned| ensures ReturnOk(w1, w1.returned[i]) {
      if i < |w.returned| { assert ReturnOk(w, w.returned[i]); }
    }
  }

  lemma ReleaseInv(w: World, op: Op)
    requires Inv(w) && Enabled(w, op) && op.Release?
    ensures Inv(Apply(w, op))
  {
    var t := w.slots[Msg(op.m)];
    assert Faithful(w, t);
    Releases(w, Apply(w, op), op.m, t.(local := AfterRelease(t.local), phase := Open),
             Returned(ReleasedBlock(t.local), t.proc, t.origin));
  }

  lemma Releases(w: World, w1: World, m: nat, s: Slot, r: Returned)
    requires Inv(w) && Msg(m) in w.slots && w.slots[Msg(m)].phase.MustRelease? && Inert(s)
    requires r.origin == w.slots[Msg(m)].origin && r.block == BlockOf(w.slots[Msg(m)].local.meta)
    requires w1 == Put(w, m, s).(returned := w.returned + [r])
    ensures Inv(w1)
  {
    var p := Msg(m);
    assert Faithful(w, w.slots[p]);
    PutShape(w, w1, p, s);
    PutCounted(w, w1, p, s, Seg(0, 0));
    OwedToReturned(w, w1, p, s, r);
  }
}
