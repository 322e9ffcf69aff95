/** What the ownership invariant says about every run. */
module OwnershipTheorems {
  import opened Arithmetic
  import opened Wrappers
  import opened Counting
  import opened Ownership
  import opened OwnershipInvariant
  import opened OwnershipSteps
  import opened OwnershipMoves

  ghost predicate Reachable(w: World) {
    exists cfg, ops :: Valid(Init(cfg), ops) && Exec(Init(cfg), ops) == w
  }

  lemma ReachableInv(w: World)
    requires Reachable(w)
    ensures Inv(w)
  {
    var cfg, ops :| Valid(Init(cfg), ops) && Exec(Init(cfg), ops) == w;
    InitInv(cfg);
    RunInv(Init(cfg), ops);
  }

  function Owners(w: World, c: Cell): set<Place> {
    set p | p in w.slots && Used(w.cfg, w.slots[p]) == Some(c)
  }

  function Holders(w: World, o: nat): set<Place> {
    set p | p in w.slots && Held(w.slots[p]) == Some(o)
  }

  function Debtors(w: World, o: nat): set<Place> {
    set p | p in w.slots && Owed(w.slots[p]) == Some(o)
  }

  lemma OwnersCount(w: World, c: Cell)
    ensures |Owners(w, c)| == N(w, Owns(c))
  {
    assert Owners(w, c) == Places(w.cfg, w.slots, Owns(c));
  }

  lemma HoldersCount(w: World, o: nat)
    ensures |Holders(w, o)| == N(w, Holds(o)) && |Debtors(w, o)| == N(w, Owes(o))
  {
    assert Holders(w, o) == Places(w.cfg, w.slots, Holds(o));
    assert Debtors(w, o) == Places(w.cfg, w.slots, Owes(o));
  }

  /** A counter is the number of un-queued messages and in-flight headers naming it, and never wraps. */
  lemma CountIsOwners(w: World, c: Cell)
    requires Reachable(w) && c in w.counts
    ensures w.counts[c] == |Owners(w, c)| < U16
    ensures w.counts[c] == 0 ==> exists p | p in w.slots :: w.slots[p].phase == MustFree(c)
  {
    ReachableInv(w);
    OwnersCount(w, c);
    if w.counts[c] == 0 {
      var p :| p in Places(w.cfg, w.slots, Frees(c));
      assert w.slots[p].phase == MustFree(c);
    }
  }

  /** The counters a step reads or writes. */
  function Touched(w: World, op: Op): set<Cell>
    requires Callable(w, op)
  {
    match op
    case CopyInto(_, src, _) =>
      (match CellOf(w.cfg, w.slots[Msg(src)].local.meta) case Some(c) => {c} case None => {})
    case CloseBegin(m) =>
      (match Used(w.cfg, w.slots[Msg(m)]) case Some(c) => {c} case None => {})
    case Free(m) => {w.slots[Msg(m)].phase.cell}
    case Resize(m, _) => {PlaceOf(w.slots[Msg(m)].local.meta)}
    case Shrink(m, _) => {PlaceOf(w.slots[Msg(m)].local.meta)}
    case Realloc(m, _, _) => {PlaceOf(w.slots[Msg(m)].local.meta)}
    case _ => {}
  }

  /** A caller that copies or shrinks holds the reference itself; every other call only uses what it holds. */
  predicate UsesOwn(w: World, op: Op) {
    match op
    case CopyInto(_, src, _) => IsActive(w, src)
    case Resize(m, _) => IsActive(w, m) && w.slots[Msg(m)].local.meta.managed
    case Shrink(m, _) => IsActive(w, m) && w.slots[Msg(m)].local.meta.managed
    case Realloc(m, _, _) => IsActive(w, m) && w.slots[Msg(m)].local.meta.managed
    case _ => true
  }

  /** No step of any process touches a freed counter, and no holder names one. */
  lemma NoUseAfterFree(w: World, op: Op)
    requires Reachable(w) && Callable(w, op) && (UsesOwn(w, op) || Proper(w, op))
    ensures Touched(w, op) <= w.counts.Keys
    ensures forall p | p in w.slots && Used(w.cfg, w.slots[p]).Some? :: Used(w.cfg, w.slots[p]).value in w.counts
  {
    ReachableInv(w);
    forall p | p in w.slots ensures SlotCovered(w.cfg, w.counts, w.slots[p]) {}
  }

  /** Once a decrement returned one, only the step that frees the cell can touch it. */
  lemma OnlyTheFreerTouches(w: World, m: nat, c: Cell, op: Op)
    requires Reachable(w) && Msg(m) in w.slots && w.slots[Msg(m)].phase == MustFree(c)
    requires Callable(w, op) && (UsesOwn(w, op) || Proper(w, op)) && c in Touched(w, op)
    ensures op == Free(m)
  {
    ReachableInv(w);
    forall q | q in w.slots && q != Msg(m) ensures Used(w.cfg, w.slots[q]) != Some(c) && Doomed(w.slots[q]) != Some(c) {
      Unreachable(w, Msg(m), q, c);
    }
  }

  lemma Idle(w: World, c: Cell)
    requires forall p | p in w.slots :: Inert(w.slots[p])
    ensures N(w, Owns(c)) == 0 && N(w, Frees(c)) == 0
  {
    assert Places(w.cfg, w.slots, Owns(c)) == {};
    assert Places(w.cfg, w.slots, Frees(c)) == {};
  }

  /** Over any run each allocation is freed at most once, and exactly once when nobody refers to anything. */
  lemma FreedOnce(w: World)
    requires Reachable(w)
    ensures forall c :: w.allocs[c] == w.frees[c] + Bit(c in w.counts)
    ensures (forall p | p in w.slots :: Inert(w.slots[p])) ==> w.counts == map[] && w.allocs == w.frees
  {
    ReachableInv(w);
    if forall p | p in w.slots :: Inert(w.slots[p]) {
      forall c ensures c !in w.counts { Idle(w, c); }
      assert w.counts == map[];
      assert w.allocs == w.frees;
    }
  }

  /**
   * Each region-message creation is returned at most once, exactly when its last holder is gone and
   * its debt is paid, and with its own region, handle, size and hint.
   */
  lemma ReturnedExactlyOnce(w: World, o: nat)
    requires Reachable(w) && o < |w.creations|
    ensures Times(w.returned, o) <= 1
    ensures Times(w.returned, o) == 1 <==> Holders(w, o) == {} && Debtors(w, o) == {}
    ensures |Debtors(w, o)| <= 1 && (Debtors(w, o) != {} ==> Holders(w, o) == {})
    ensures forall i | 0 <= i < |w.returned| && w.returned[i].origin == o :: w.returned[i].block == w.creations[o]
  {
    ReachableInv(w);
    HoldersCount(w, o);
    assert forall i | 0 <= i < |w.returned| :: ReturnOk(w, w.returned[i]);
  }

  /** What GetRefCount answers. */
  function GetRefCount(w: World, m: nat): Option<nat>
    requires Msg(m) in w.slots
  {
    RefCountSpec(w.cfg, w.slots[Msg(m)].local, w.counts)
  }

  /** On a region message GetRefCount is the number of holders of its creation, in either backend. */
  lemma RefCountIsHolders(w: World, m: nat)
    requires Inv(w) && IsActive(w, m) && !w.slots[Msg(m)].local.meta.managed
    ensures GetRefCount(w, m) == Some(|Holders(w, w.slots[Msg(m)].origin)|)
  {
    var p := Msg(m);
    assert Faithful(w, w.slots[p]);
    HoldersCount(w, w.slots[p].origin);
    match CellOf(w.cfg, w.slots[p].local.meta)
    case None => SoleHolder(w, p);
    case Some(c) =>
      assert SlotCovered(w.cfg, w.counts, w.slots[p]);
      HoldersAreOwners(w, p, c);
  }

  // ---------------------------------------------------------------- the discipline is exactly what is needed

  /** A reference that vanishes breaks the invariant. */
  lemma LostReference(w: World, w1: World, p: Place)
    requires Inv(w) && p in w.slots && Active(w.slots[p])
    requires w1.cfg == w.cfg && w1.counts == w.counts && w1.creations == w.creations && w1.returned == w.returned
    requires forall q :: N(w1, q) == N(w, q) - Bit(Sat(w.cfg, w.slots[p], q))
    ensures !Inv(w1)
  {
    var t := w.slots[p];
    assert SlotCovered(w.cfg, w.counts, t) && Faithful(w, t);
    match CellOf(w.cfg, t.local.meta)
    case Some(c) => assert N(w1, Owns(c)) == N(w, Owns(c)) - 1;
    case None =>
      SoleHolder(w, p);
      assert N(w1, Holds(t.origin)) == 0 && N(w1, Owes(t.origin)) == N(w, Owes(t.origin));
  }

  lemma SendTwiceBreaks(w: World, op: Op)
    requires Inv(w) && Callable(w, op) && op.Send? && !Proper(w, op)
    ensures !Inv(Apply(w, op))
  {
    var w1 := Apply(w, op);
    var p1 := Flight(op.packet);
    var t, f := w.slots[Msg(op.m)], w1.slots[p1];
    assert w.slots[Msg(op.m) := t] == w.slots;
    if Inv(w1) {
      assert SlotCovered(w1.cfg, w1.counts, f) && Faithful(w1, f);
      match CellOf(w.cfg, f.local.meta)
      case Some(c) => NPut(w, w1, p1, f, Owns(c));
      case None =>
        NPut(w, w1, p1, f, Holds(f.origin));
        NPut(w, w1, p1, f, Owes(f.origin));
        SoleHolder(w1, p1);
        assert false;
    }
  }

  lemma BadReceiveBreaks(w: World, op: Op)
    requires Inv(w) && Callable(w, op) && op.Receive? && !Proper(w, op)
    ensures !Inv(Apply(w, op))
  {
    var w1 := Apply(w, op);
    var p, p1 := Flight(op.packet), Msg(op.m);
    var s := w1.slots[p1];
    var mid := w.(slots := w.slots - {p});
    assert Faithful(w, w.slots[p]);
    if Active(w.slots[p1]) {
      forall q ensures N(w1, q) == N(w, q) - Bit(Sat(w.cfg, w.slots[p1], q)) {
        ReceiveCounts(w, mid, w1, p, p1, s, q);
        RoleSat(w.cfg, s, w.slots[p], q);
      }
      LostReference(w, w1, p1);
    } else if w.slots[p1].local.queued {
      forall q ensures N(w1, q) == N(w, q) - Bit(Sat(w.cfg, w.slots[p], q)) {
        ReceiveCounts(w, mid, w1, p, p1, s, q);
        InertSat(w.cfg, w.slots[p1], q);
        InertSat(w.cfg, s, q);
      }
      LostReference(w, w1, p);
    } else {
      assert !Faithful(w1, s);
    }
  }

  lemma ReceiveCounts(w: World, mid: World, w1: World, p: Place, p1: Place, s: Slot, q: Query)
    requires p in w.slots && p1 in w.slots && p != p1
    requires mid.cfg == w.cfg && mid.slots == w.slots - {p} && w1.cfg == w.cfg && w1.slots == mid.slots[p1 := s]
    ensures N(w1, q)
            == N(w, q) - Bit(Sat(w.cfg, w.slots[p], q)) - Bit(Sat(w.cfg, w.slots[p1], q)) + Bit(Sat(w.cfg, s, q))
  {
    NRemove(w, mid, p, q);
    NPut(mid, w1, p1, s, q);
  }

  lemma BadCopyBreaks(w: World, op: Op)
    requires Inv(w) && Callable(w, op) && op.CopyInto? && !Proper(w, op)
    ensures !Inv(Apply(w, op))
  {
    var w1 := Apply(w, op);
    var d, s := w1.slots[Msg(op.m)], w1.slots[Msg(op.src)];
    match CellOf(w.cfg, w.slots[Msg(op.src)].local.meta)
    case Some(c) =>
      assert w1.slots == w.slots[Msg(op.m) := d];
      if Active(d) {
        BadJoin(w, w1, Msg(op.m), w.slots[Msg(op.src)], d, c);
      } else {
        UnownedUnit(w, w1, Msg(op.m), d, c);
      }
    case None =>
      BadLazyCopy(w, w1, Msg(op.m), Msg(op.src), d, s,
          LazyCell(w.cfg, w.slots[Msg(op.src)].local.meta, Home(w, op.m), op.handle));
  }

  /** A counter advances although nobody joins it. */
  lemma UnownedUnit(w: World, w1: World, p: Place, d: Slot, c: Cell)
    requires Covered(w) && Counted(w) && p in w.slots && Inert(w.slots[p]) && !Active(d) && w1.cfg == w.cfg
    requires w1.slots == w.slots[p := d] && w1.counts == w.counts[c := Inc(At(w.counts, c))]
    ensures !Counted(w1)
  {
    NPut(w, w1, p, d, Owns(c));
    if c !in w.counts { Uncounted(w, c); }
    assert w1.counts[c] != N(w1, Owns(c));
  }

  /** A message joins a counter that is gone, about to go, full, or somebody else's. */
  lemma BadJoin(w: World, w1: World, p: Place, s: Slot, d: Slot, c: Cell)
    requires Inv(w) && p in w.slots && Inert(w.slots[p]) && Active(d) && w1.cfg == w.cfg
    requires CellOf(w.cfg, s.local.meta) == Some(c) && d.local.meta == s.local.meta && d.origin == s.origin
    requires !(&& At(w.counts, c) < U16 - 1 && (s.local.meta.managed ==> InExtent(w.extents, s.local.meta))
               && exists o | o in w.slots :: SameReference(w.cfg, w.slots[o], s))
    requires w1.slots == w.slots[p := d] && w1.counts == w.counts[c := Inc(At(w.counts, c))]
    requires w1.allocs == w.allocs && w1.frees == w.frees && w1.creations == w.creations && w1.extents == w.extents
    ensures !Inv(w1)
  {
    NPut(w, w1, p, d, Owns(c));
    NPut(w, w1, p, d, Frees(c));
    if c !in w.counts {
      assert w1.allocs[c] != w1.frees[c] + Bit(c in w1.counts);
    } else if s.local.meta.managed && !InExtent(w.extents, s.local.meta) {
      assert !Faithful(w1, w1.slots[p]);
    } else if 0 < w.counts[c] < U16 - 1 {
      var o :| o in Places(w.cfg, w.slots, Owns(c));
      ForeignJoin(w, w1, p, o, s, d, c);
    }
  }

  lemma ForeignJoin(w: World, w1: World, p: Place, o: Place, s: Slot, d: Slot, c: Cell)
    requires AllFaithful(w) && p in w.slots && o in w.slots && o != p && Active(d) && w1.cfg == w.cfg
    requires Used(w.cfg, w.slots[o]) == Some(c) && !SameReference(w.cfg, w.slots[o], s)
    requires CellOf(w.cfg, s.local.meta) == Some(c) && d.local.meta == s.local.meta && d.origin == s.origin
    requires w1.slots == w.slots[p := d] && w1.creations == w.creations
    ensures !(AllFaithful(w1) && Paired(w1))
  {
    var t := w.slots[o];
    assert w1.slots[o] == t && w1.slots[p] == d && Faithful(w, t);
    assert Paired(w1) ==> PairOk(w.cfg, d, t) && PairOk(w.cfg, t, d);
    assert AllFaithful(w1) ==> Faithful(w1, d);
  }

  /** A first copy that does not leave two holders of the new counter. */
  lemma BadLazyCopy(w: World, w1: World, p: Place, o: Place, d: Slot, s: Slot, c: Cell)
    requires Covered(w) && c !in w.counts && w1.cfg == w.cfg && (p == o ==> !Active(d))
    requires Used(w.cfg, s) != Some(c) || Used(w.cfg, d) != Some(c)
    requires w1.slots == w.slots[o := s][p := d] && c in w1.counts && w1.counts[c] == 2
    ensures !Counted(w1)
  {
    var mid := w.(slots := w.slots[o := s]);
    Uncounted(w, c);
    NPut(w, mid, o, s, Owns(c));
    NPut(mid, w1, p, d, Owns(c));
  }

  /** Rebuild with a size on a former region message, or in a foreign segment. */
  lemma BadAllocBreaks(w: World, op: Op)
    requires Inv(w) && Callable(w, op) && op.Alloc? && !Proper(w, op)
    ensures !Inv(Apply(w, op))
  {
    var w1, p, c := Apply(w, op), Msg(op.m), Seg(Home(w, op.m), op.handle);
    var s := w1.slots[p];
    Uncounted(w, c);
    NPut(w, w1, p, s, Owns(c));
    if Used(w.cfg, s) == Some(c) {
      // a region message whose old counter happens to be the new buffer
      assert !s.local.meta.managed;
      RevivedHolder(w, w1, p, s, c);
    }
  }

  /** A closed region message that comes back to life holds a creation it has given up. */
  lemma RevivedHolder(w: World, w1: World, p: Place, s: Slot, c: Cell)
    requires Inv(w) && p in w.slots && Inert(w.slots[p]) && c !in w.counts && w1.cfg == w.cfg
    requires Active(s) && !s.local.meta.managed && CellOf(w.cfg, s.local.meta) == Some(c)
    requires w1.slots == w.slots[p := s] && w1.creations == w.creations && w1.returned == w.returned
    ensures !Inv(w1)
  {
    var o := s.origin;
    NPut(w, w1, p, s, Holds(o));
    NPut(w, w1, p, s, Owes(o));
    NPut(w, w1, p, s, Owns(c));
    Uncounted(w, c);
    if Inv(w1) {
      assert Faithful(w1, s);
      HoldersAreOwners(w1, p, c);
    }
  }

  lemma BadResizeBreaks(w: World, op: Op)
    requires Inv(w) && Callable(w, op) && op.Resize? && !Proper(w, op)
    ensures !Inv(Apply(w, op))
  {
    var w1, p := Apply(w, op), Msg(op.m);
    assert Faithful(w, w.slots[p]);
    if Active(w.slots[p]) && !w.slots[p].local.meta.managed {
      assert !Faithful(w1, w1.slots[p]);
    } else {
      FreedAgain(w, w1, PlaceOf(w.slots[p].local.meta));
    }
  }

  lemma FreedAgain(w: World, w1: World, c: Cell)
    requires Balanced(w) && w1.counts == w.counts
    requires w1.allocs == w.allocs && w1.frees == w.frees + multiset{c}
    ensures !Balanced(w1)
  {
    assert w1.allocs[c] != w1.frees[c] + Bit(c in w1.counts);
  }

  lemma BadShrinkBreaks(w: World, op: Op)
    requires Inv(w) && Callable(w, op) && op.Shrink? && !Proper(w, op)
    ensures !Inv(Apply(w, op))
  {
    var w1, p := Apply(w, op), Msg(op.m);
    var c := PlaceOf(w.slots[p].local.meta);
    assert Faithful(w, w.slots[p]);
    if Active(w.slots[p]) && !w.slots[p].local.meta.managed {
      assert !Faithful(w1, w1.slots[p]);
    } else if At(w.counts, c) == 0 {
      FreedAgain(w, w1, c);
    } else {
      var q :| q in w.slots && q != p && SeesMore(w.slots[q], c, op.size);
      assert Faithful(w, w.slots[q]) && w1.slots[q] == w.slots[q];
      assert !Faithful(w1, w1.slots[q]);
    }
  }

  lemma BadReallocBreaks(w: World, op: Op)
    requires Inv(w) && Callable(w, op) && op.Realloc? && !Proper(w, op)
    ensures !Inv(Apply(w, op))
  {
    var w1, p := Apply(w, op), Msg(op.m);
    var t, s := w.slots[p], w1.slots[p];
    var c, c1 := Seg(t.local.meta.segment, t.local.meta.handle), Seg(Home(w, op.m), op.handle);
    if c !in w.counts {
      assert w1.allocs[c] != w1.frees[c] + Bit(c in w1.counts);
    } else {
      FreedUnder(w, w1, p, s, c, c1);
    }
  }

  /** Freeing `c` for the sake of `p` is right only if `p` alone refers to it, and finds the new buffer. */
  lemma FreedUnder(w: World, w1: World, p: Place, s: Slot, c: Cell, c1: Cell)
    requires Inv(w) && p in w.slots && w.slots[p].phase.Open? && c in w.counts && c1 !in w.counts && w1.cfg == w.cfg
    requires w1.slots == w.slots[p := s] && w1.counts == (w.counts - {c})[c1 := 1]
    requires Active(w.slots[p]) && CellOf(w.cfg, w.slots[p].local.meta) == Some(c) && w.counts[c] == 1 ==>
      Active(s) && CellOf(w.cfg, s.local.meta) != Some(c1)
    ensures !(Covered(w1) && Counted(w1))
  {
    if w.counts[c] == 0 {
      DoomedElsewhere(w, w1, p, c);
    } else {
      OtherOwner(w, w1, p, c);
      NotFound(w, w1, p, s, c1);
    }
  }

  lemma NotFound(w: World, w1: World, p: Place, s: Slot, c: Cell)
    requires Covered(w) && c !in w.counts && w1.cfg == w.cfg && w1.slots == w.slots[p := s] && c in w1.counts
    requires w1.counts[c] == 1
    ensures Counted(w1) ==> Used(w.cfg, s) == Some(c)
  {
    Uncounted(w, c);
    NPut(w, w1, p, s, Owns(c));
  }

  lemma DoomedElsewhere(w: World, w1: World, p: Place, c: Cell)
    requires Counted(w) && p in w.slots && Doomed(w.slots[p]).None? && c in w.counts && w.counts[c] == 0
    requires w1.cfg == w.cfg && c !in w1.counts
    requires forall q | q in w.slots && q != p :: q in w1.slots && w1.slots[q] == w.slots[q]
    ensures !Covered(w1)
  {
    var q :| q in Places(w.cfg, w.slots, Frees(c));
    assert !SlotCovered(w1.cfg, w1.counts, w1.slots[q]);
  }

  lemma OtherOwner(w: World, w1: World, p: Place, c: Cell)
    requires Counted(w) && p in w.slots && c in w.counts && w.counts[c] > 0 && w1.cfg == w.cfg && c !in w1.counts
    requires forall q | q in w.slots && q != p :: q in w1.slots && w1.slots[q] == w.slots[q]
    ensures !Covered(w1) || (w.counts[c] == 1 && Used(w.cfg, w.slots[p]) == Some(c))
  {
    var a := Places(w.cfg, w.slots, Owns(c));
    Without(a, p);
    if a - {p} != {} {
      var q :| q in a - {p};
      assert !SlotCovered(w1.cfg, w1.counts, w1.slots[q]);
    }
  }

  /** A call keeps the invariant exactly when the caller observes the discipline. */
  lemma DisciplineIsExact(w: World, op: Op)
    requires Inv(w) && Callable(w, op)
    ensures Inv(Apply(w, op)) <==> Proper(w, op)
  {
    if Proper(w, op) {
      StepInv(w, op);
    } else {
      match op
      case Send(_, _) => SendTwiceBreaks(w, op);
      case Receive(_, _) => BadReceiveBreaks(w, op);
      case CopyInto(_, _, _) => BadCopyBreaks(w, op);
      case Alloc(_, _, _) => BadAllocBreaks(w, op);
      case Resize(_, _) => BadResizeBreaks(w, op);
      case Shrink(_, _) => BadShrinkBreaks(w, op);
      case Realloc(_, _, _) => BadReallocBreaks(w, op);
    }
  }
}
