/**
 * What GetRefCount counts: the messages and in-flight headers that refer to the same allocation or creation.
 *
 * Beside the ownership invariant this needs that allocations are numbered: two references with the same number name
 * the same buffer.
 */
module RefCounts {
  import opened Arithmetic
  import opened Wrappers
  import opened Ownership
  import opened OwnershipInvariant
  import opened OwnershipMoves
  import opened OwnershipTheorems

  // ---------------------------------------------------------------- allocations are numbered

  /** A reference to a managed buffer. */
  predicate Refers(s: Slot) { Active(s) && s.local.meta.managed }

  /** Two references to one allocation name one place. */
  predicate Agree(s: Slot, t: Slot) { s.origin == t.origin ==> PlaceOf(s.local.meta) == PlaceOf(t.local.meta) }

  ghost predicate Numbered(w: World) {
    && (forall p | p in w.slots && Refers(w.slots[p]) :: w.slots[p].origin < |w.allocs|)
    && (forall p, q | p in w.slots && q in w.slots && Refers(w.slots[p]) && Refers(w.slots[q]) ::
          Agree(w.slots[p], w.slots[q]))
  }

  /** The reference is one that was there before, or one to a new allocation. */
  ghost predicate Known(w: World, s: Slot) {
    || !Refers(s) || s.origin == |w.allocs|
    || exists p | p in w.slots ::
         Refers(w.slots[p]) && w.slots[p].origin == s.origin && PlaceOf(w.slots[p].local.meta) == PlaceOf(s.local.meta)
  }

  /** One slot gets a known reference; others stay or go away. */
  lemma NumberedPut(w: World, w1: World, p: Place)
    requires Numbered(w) && p in w1.slots && Known(w, w1.slots[p])
    requires forall q | q in w1.slots && q != p :: q in w.slots && (Refers(w1.slots[q]) ==> w1.slots[q] == w.slots[q])
    requires |w.allocs| <= |w1.allocs|
    requires Refers(w1.slots[p]) && w1.slots[p].origin == |w.allocs| ==> |w.allocs| < |w1.allocs|
    ensures Numbered(w1)
  {
    var s := w1.slots[p];
    forall q | q in w1.slots && Refers(w1.slots[q]) ensures w1.slots[q].origin < |w1.allocs| {}
    forall q, r | q in w1.slots && r in w1.slots && Refers(w1.slots[q]) && Refers(w1.slots[r])
      ensures Agree(w1.slots[q], w1.slots[r])
    {
      if q != p && r != p { assert Agree(w.slots[q], w.slots[r]); }
      if Refers(s) && s.origin != |w.allocs| {
        var o :| o in w.slots && Refers(w.slots[o]) && w.slots[o].origin == s.origin
                 && PlaceOf(w.slots[o].local.meta) == PlaceOf(s.local.meta);
        if q == p && r != p { assert Agree(w.slots[o], w.slots[r]); }
        if r == p && q != p { assert Agree(w.slots[q], w.slots[o]); }
      }
    }
  }

  lemma CopyKnown(w: World, op: Op)
    requires Enabled(w, op) && op.CopyInto?
    ensures Known(w, Apply(w, op).slots[Msg(op.m)])
  {
    var s := w.slots[Msg(op.src)];
    match CellOf(w.cfg, s.local.meta)
    case None =>
    case Some(c) =>
      var p :| p in w.slots && SameReference(w.cfg, w.slots[p], s);
      assert s.local.meta.managed ==> PlaceOf(w.slots[p].local.meta) == PlaceOf(s.local.meta);
  }

  lemma CopyNumbered(w: World, op: Op)
    requires Numbered(w) && Enabled(w, op) && op.CopyInto?
    ensures Numbered(Apply(w, op))
  {
    CopyKnown(w, op);
    NumberedPut(w, Apply(w, op), Msg(op.m));
  }

  lemma SendNumbered(w: World, op: Op)
    requires Numbered(w) && Enabled(w, op) && op.Send?
    ensures Numbered(Apply(w, op))
  {
    var s := w.slots[Msg(op.m)];
    assert Refers(Apply(w, op).slots[Flight(op.packet)]) ==> Refers(s);
    NumberedPut(w, Apply(w, op), Flight(op.packet));
  }

  lemma ReceiveNumbered(w: World, op: Op)
    requires AllFaithful(w) && Numbered(w) && Enabled(w, op) && op.Receive?
    ensures Numbered(Apply(w, op))
  {
    var f := w.slots[Flight(op.packet)];
    assert Refers(Apply(w, op).slots[Msg(op.m)]) ==> Refers(f);
    NumberedPut(w, Apply(w, op), Msg(op.m));
  }

  lemma AllocNumbered(w: World, op: Op)
    requires Numbered(w) && Enabled(w, op) && (op.Alloc? || op.Realloc?)
    ensures Numbered(Apply(w, op))
  {
    NumberedPut(w, Apply(w, op), Msg(op.m));
  }

  lemma OtherNumbered(w: World, op: Op)
    requires Numbered(w) && Enabled(w, op)
    requires !op.CopyInto? && !op.Send? && !op.Receive? && !op.Alloc? && !op.Realloc? && !op.Destroy?
    ensures Numbered(Apply(w, op))
  {
    var w1, p := Apply(w, op), Msg(op.m);
    assert Refers(w1.slots[p]) ==> p in w.slots && Refers(w.slots[p]);
    NumberedPut(w, w1, p);
  }

  lemma StepNumbered(w: World, op: Op)
    requires AllFaithful(w) && Numbered(w) && Enabled(w, op)
    ensures Numbered(Apply(w, op))
  {
    match op
    case CopyInto(_, _, _) => CopyNumbered(w, op);
    case Send(_, _) => SendNumbered(w, op);
    case Receive(_, _) => ReceiveNumbered(w, op);
    case Alloc(_, _, _) => AllocNumbered(w, op);
    case Realloc(_, _, _) => AllocNumbered(w, op);
    case Destroy(_) =>
    case _ => OtherNumbered(w, op);
  }

  lemma {:induction false} RunNumbered(w: World, ops: seq<Op>)
    requires Inv(w) && Numbered(w) && Valid(w, ops)
    ensures Numbered(Exec(w, ops))
    decreases |ops|
  {
    if ops == [] {
    } else {
      StepInv(w, ops[0]);
      StepNumbered(w, ops[0]);
      RunNumbered(Apply(w, ops[0]), ops[1..]);
    }
  }

  lemma ReachableNumbered(w: World)
    requires Reachable(w)
    ensures Numbered(w)
  {
    var cfg, ops :| Valid(Init(cfg), ops) && Exec(Init(cfg), ops) == w;
    InitInv(cfg);
    RunNumbered(Init(cfg), ops);
  }

  // ---------------------------------------------------------------- the answer

  /** The messages and in-flight headers that hold the same allocation or creation as `s`. */
  function Sharers(w: World, s: Slot): set<Place> {
    set p | p in w.slots && Active(w.slots[p]) && w.slots[p].origin == s.origin
            && w.slots[p].local.meta.managed == s.local.meta.managed
  }

  lemma ManagedSharers(w: World, p: Place)
    requires Inv(w) && Numbered(w) && p in w.slots && Refers(w.slots[p])
    ensures Sharers(w, w.slots[p]) == Owners(w, PlaceOf(w.slots[p].local.meta))
  {
    var s := w.slots[p];
    forall q | q in w.slots && Active(w.slots[q])
      ensures q in Sharers(w, s) <==> CellOf(w.cfg, w.slots[q].local.meta) == Some(PlaceOf(s.local.meta))
    {
      if q != p { assert PairOk(w.cfg, w.slots[q], s); }
      if Refers(w.slots[q]) { assert Agree(w.slots[q], s); }
    }
  }

  /**
   * In every run, GetRefCount of a message that holds a reference is the number of messages and in-flight headers
   * that hold the same allocation or creation, in all three backends and for a region message that was never copied.
   * It does not throw.
   */
  lemma RefCountIsSharers(w: World, m: nat)
    requires Reachable(w) && IsActive(w, m)
    ensures GetRefCount(w, m) == Some(|Sharers(w, w.slots[Msg(m)])|)
  {
    ReachableInv(w);
    ReachableNumbered(w);
    var p := Msg(m);
    if w.slots[p].local.meta.managed {
      assert SlotCovered(w.cfg, w.counts, w.slots[p]);
      ManagedSharers(w, p);
      OwnersCount(w, PlaceOf(w.slots[p].local.meta));
    } else {
      RefCountIsHolders(w, m);
      assert Sharers(w, w.slots[p]) == Holders(w, w.slots[p].origin);
    }
  }

  /**
   * For every message object, queued or not: one if it is empty or has no counter, else the number of those who use
   * the counter it names; it throws exactly if it needs a region that is not there.
   */
  lemma RefCountOfAny(w: World, m: nat)
    requires Inv(w) && Msg(m) in w.slots
    ensures var meta := w.slots[Msg(m)].local.meta;
            var needsRegion := meta.handle >= 0 && !meta.managed && meta.shared >= 0;
            && (GetRefCount(w, m).None? <==> needsRegion && meta.region !in w.cfg.rc)
            && (meta.handle < 0 || (!meta.managed && meta.shared < 0) ==> GetRefCount(w, m) == Some(1))
            && (GetRefCount(w, m).Some? && meta.handle >= 0 && (meta.managed || meta.shared >= 0) ==>
                  GetRefCount(w, m) == Some(|Owners(w, CounterOf(w.cfg, meta))|))
  {
    var meta := w.slots[Msg(m)].local.meta;
    if meta.handle >= 0 && (meta.managed || meta.shared >= 0) {
      var c := CounterOf(w.cfg, meta);
      OwnersCount(w, c);
      if c !in w.counts { NoOwners(w, c); }
    }
  }

  /** Where the counter of an initialised message is: with the buffer, with the region, or in a managed segment. */
  function CounterOf(cfg: Config, meta: Meta): Cell {
    if meta.managed then Seg(meta.segment, meta.handle)
    else if meta.region in cfg.rc && cfg.rc[meta.region] > 0 then Rc(meta.region, meta.shared)
    else Seg(meta.segment, meta.shared)
  }

  lemma NoOwners(w: World, c: Cell)
    requires Inv(w) && c !in w.counts
    ensures Owners(w, c) == {}
  {
    forall p | p in w.slots ensures Used(w.cfg, w.slots[p]) != Some(c) {
      assert SlotCovered(w.cfg, w.counts, w.slots[p]);
    }
  }
}
