/** Runs that reach a state in which a call against the discipline can be made, and what comes of it. */
module OwnershipWitnesses {
  import opened Arithmetic
  import opened Wrappers
  import opened Ownership
  import opened OwnershipInvariant
  import opened OwnershipMoves
  import opened OwnershipTheorems

  /** One manager with one segment, two regions without counter segments of their own. */
  const CFG: Config := Config(map[1 := 0, 2 := 0], map[0 := 0])

  const BLOCK_ONE: Block := Block(1, 64, 2_000_000, 0)
  const BLOCK_TWO: Block := Block(2, 128, 2_000_000, 0)

  lemma ReachNext(w: World, op: Op)
    requires Reachable(w) && Enabled(w, op)
    ensures Reachable(Apply(w, op))
  {
    var cfg, ops :| Valid(Init(cfg), ops) && Exec(Init(cfg), ops) == w;
    ExecNext(Init(cfg), ops, op);
  }

  lemma ReachInit(cfg: Config)
    ensures Reachable(Init(cfg))
  {
    assert Valid(Init(cfg), []) && Exec(Init(cfg), []) == Init(cfg);
  }

  /** The call can be made in a reachable state, and it breaks the invariant. */
  ghost predicate Misuse(w: World, op: Op) { Reachable(w) && Callable(w, op) && !Proper(w, op) && !Inv(Apply(w, op)) }

  lemma IsMisuse(w: World, op: Op)
    requires Reachable(w) && Callable(w, op) && !Proper(w, op)
    ensures Misuse(w, op)
  {
    ReachableInv(w);
    DisciplineIsExact(w, op);
  }

  // ---------------------------------------------------------------- sending

  /** A region message that is initialised and held. */
  lemma OneMessage() returns (w: World)
    ensures Reachable(w) && w == Apply(Init(CFG), CreateRegionMsg(0, 0, BLOCK_ONE))
  {
    ReachInit(CFG);
    w := Apply(Init(CFG), CreateRegionMsg(0, 0, BLOCK_ONE));
    ReachNext(Init(CFG), CreateRegionMsg(0, 0, BLOCK_ONE));
  }

  lemma SentTwice() returns (w: World)
    ensures Misuse(w, Send(0, 1))
  {
    var w1 := OneMessage();
    w := Apply(w1, Send(0, 0));
    ReachNext(w1, Send(0, 0));
    IsMisuse(w, Send(0, 1));
  }

  // ---------------------------------------------------------------- reusing a former region message

  /** A message object that held a block of region 1 and was closed. */
  lemma FormerRegionMessage() returns (w: World)
    ensures Reachable(w) && IsClosed(w, 0) && w.cfg == CFG && w.slots.Keys == {Msg(0)} && w.counts == map[]
    ensures w.slots[Msg(0)] == Slot(Local(Meta(0, 0, -1, -1, 1, 0, false), false, Some(1)), 0, 0, Open)
    ensures w.creations == [BLOCK_ONE] && |w.returned| == 1
  {
    var w1 := OneMessage();
    var w2 := Apply(w1, CloseBegin(0));
    ReachNext(w1, CloseBegin(0));
    ReachNext(w2, Release(0));
    w := Apply(w2, Release(0));
  }

  /** Rebuild with a size does not make it a managed message. */
  lemma RebuiltUnmanaged() returns (w: World)
    ensures Misuse(w, Alloc(0, 8, 256)) && !w.slots[Msg(0)].local.meta.managed
  {
    w := FormerRegionMessage();
    IsMisuse(w, Alloc(0, 8, 256));
  }

  /** A second region message is sent, to be received into the used object. */
  lemma InFlight(w: World) returns (w1: World)
    requires Reachable(w) && w.cfg == CFG && Msg(1) !in w.slots && Flight(0) !in w.slots
    ensures Reachable(w1) && w1.cfg == CFG && w1.creations == w.creations + [BLOCK_TWO] && w1.returned == w.returned
    ensures w1.counts == w.counts && (forall p | p in w.slots :: p in w1.slots && w1.slots[p] == w.slots[p])
    ensures Flight(0) in w1.slots
    ensures w1.slots[Flight(0)] ==
            Slot(Local(Meta(2_000_000, 0, 128, -1, 2, 0, false), false, None), 0, |w.creations|, Open)
  {
    var a := Apply(w, CreateRegionMsg(1, 0, BLOCK_TWO));
    ReachNext(w, CreateRegionMsg(1, 0, BLOCK_TWO));
    ReachNext(a, Send(1, 0));
    w1 := Apply(a, Send(1, 0));
  }

  /** The block of region 2 comes back to region 1: the cached pointer of the earlier block wins. */
  lemma WrongRegion() returns (w: World)
    ensures Misuse(w, Receive(0, 0))
    ensures var w1 := Apply(w, Receive(0, 0));
            Callable(w1, CloseBegin(0)) &&
            var w2 := Apply(w1, CloseBegin(0));
            Callable(w2, Release(0)) &&
            var w3 := Apply(w2, Release(0));
            |w3.returned| == 2 && w3.returned[1].origin == 1 && w3.creations == [BLOCK_ONE, BLOCK_TWO] &&
            w3.returned[1].block == BLOCK_TWO.(region := 1)
  {
    var w0 := FormerRegionMessage();
    w := InFlight(w0);
    IsMisuse(w, Receive(0, 0));
  }

  // ---------------------------------------------------------------- copying

  /** Copying into a message that was sent and not rebuilt. */
  lemma CopiedIntoQueued() returns (w: World)
    ensures Misuse(w, CopyInto(0, 1, 256))
  {
    var w1 := OneMessage();
    var w2 := Apply(w1, Send(0, 0));
    ReachNext(w1, Send(0, 0));
    var w3 := Apply(w2, CloseBegin(0));
    ReachNext(w2, CloseBegin(0));
    w := Apply(w3, CreateRegionMsg(1, 0, BLOCK_TWO));
    ReachNext(w3, CreateRegionMsg(1, 0, BLOCK_TWO));
    IsMisuse(w, CopyInto(0, 1, 256));
  }

  /** Copying from a message whose reference has been sent away. */
  lemma CopiedFromQueued() returns (w: World)
    ensures Misuse(w, CopyInto(1, 0, 256))
  {
    var w1 := OneMessage();
    var w2 := Apply(w1, Send(0, 0));
    ReachNext(w1, Send(0, 0));
    w := Apply(w2, CreateEmpty(1, 0));
    ReachNext(w2, CreateEmpty(1, 0));
    IsMisuse(w, CopyInto(1, 0, 256));
  }

  /** Copying a message onto itself closes it first and then counts up for nobody. */
  lemma CopiedOntoItself() returns (w: World)
    ensures Misuse(w, CopyInto(0, 0, 256))
  {
    w := FormerRegionMessage();
    IsMisuse(w, CopyInto(0, 0, 256));
  }

  // ---------------------------------------------------------------- foreign segments

  /** Two managers, each with its own segment. */
  const TWO_SEGMENTS: Config := Config(map[1 := 0], map[0 := 0, 5 := 7])

  /** A managed message of the other manager. */
  lemma ForeignMessage() returns (w: World)
    ensures Reachable(w) && w.cfg == TWO_SEGMENTS && w.slots.Keys == {Msg(1)} && w.counts == map[Seg(7, 64) := 1]
    ensures w.slots[Msg(1)] == Slot(Local(Meta(8, 0, 64, -1, 0, 7, true), false, None), 5, 0, Open)
  {
    ReachInit(TWO_SEGMENTS);
    var w1 := Apply(Init(TWO_SEGMENTS), CreateEmpty(1, 5));
    ReachNext(Init(TWO_SEGMENTS), CreateEmpty(1, 5));
    ReachNext(w1, Alloc(1, 8, 64));
    w := Apply(w1, Alloc(1, 8, 64));
  }

  lemma ForeignSent() returns (w: World)
    ensures Reachable(w) && w.cfg == TWO_SEGMENTS && w.slots.Keys == {Msg(1), Flight(0)}
    ensures w.counts == map[Seg(7, 64) := 1]
    ensures w.slots[Flight(0)] == Slot(Local(Meta(8, 0, 64, -1, 0, 7, true), false, None), 5, 0, Open)
  {
    var w0 := ForeignMessage();
    ReachNext(w0, Send(1, 0));
    w := Apply(w0, Send(1, 0));
  }

  lemma ForeignAwaited() returns (w: World)
    ensures Reachable(w) && w.cfg == TWO_SEGMENTS && w.slots.Keys == {Msg(1), Msg(2), Flight(0)}
    ensures w.counts == map[Seg(7, 64) := 1]
    ensures w.slots[Flight(0)] == Slot(Local(Meta(8, 0, 64, -1, 0, 7, true), false, None), 5, 0, Open)
    ensures w.slots[Msg(2)] == Slot(Local(EmptyMeta(0), false, None), 0, 0, Open)
  {
    var w0 := ForeignSent();
    ReachNext(w0, CreateEmpty(2, 0));
    w := Apply(w0, CreateEmpty(2, 0));
  }

  /** It is received by an object of the first manager. */
  lemma ForeignReceived() returns (w: World)
    ensures Reachable(w) && w.cfg == TWO_SEGMENTS && w.slots.Keys == {Msg(1), Msg(2)}
    ensures w.counts == map[Seg(7, 64) := 1]
    ensures w.slots[Msg(2)] == Slot(Local(Meta(8, 0, 64, -1, 0, 7, true), false, None), 0, 0, Open)
  {
    var w0 := ForeignAwaited();
    ReachNext(w0, Receive(2, 0));
    w := Apply(w0, Receive(2, 0));
  }

  /** Closed again, the object keeps the foreign segment id. */
  lemma UsedElsewhere() returns (w: World)
    ensures Reachable(w) && w.cfg == TWO_SEGMENTS && w.slots.Keys == {Msg(1), Msg(2)} && w.counts == map[]
    ensures w.slots[Msg(2)] == Slot(Local(Meta(0, 0, -1, -1, 0, 7, true), false, None), 0, 0, Open)
  {
    var w0 := ForeignReceived();
    var w1 := Apply(w0, CloseBegin(2));
    ReachNext(w0, CloseBegin(2));
    ReachNext(w1, Free(2));
    w := Apply(w1, Free(2));
  }

  lemma RebuiltInForeignSegment() returns (w: World)
    ensures Misuse(w, Alloc(2, 8, 256)) && w.slots[Msg(2)].local.meta.managed
  {
    w := UsedElsewhere();
    IsMisuse(w, Alloc(2, 8, 256));
  }

  /** The counter of a first copy is then looked for in the wrong segment. */
  lemma CopiedIntoForeignSegment() returns (w: World)
    ensures Misuse(w, CopyInto(2, 0, 256))
  {
    var w0 := UsedElsewhere();
    w := Apply(w0, CreateRegionMsg(0, 0, BLOCK_ONE));
    ReachNext(w0, CreateRegionMsg(0, 0, BLOCK_ONE));
    IsMisuse(w, CopyInto(2, 0, 256));
  }

  // ---------------------------------------------------------------- too many owners

  /** An owner of the first buffer, which is at 64. */
  const OWNER: Slot := Slot(Local(Meta(2_000_000, 0, 64, -1, 0, 0, true), false, None), 0, 0, Open)

  /** A managed buffer with k owners, one message after the other. */
  ghost predicate Crowd(w: World, k: nat) {
    && Reachable(w) && w.cfg == CFG && k >= 1 && (forall i: nat | i >= k :: Msg(i) !in w.slots)
    && (forall i: nat | i < k :: Msg(i) in w.slots && w.slots[Msg(i)] == OWNER)
    && w.counts == map[Seg(0, 64) := k] && w.extents == map[Seg(0, 64) := 2_000_000]
  }

  lemma FirstOwner() returns (w: World)
    ensures Crowd(w, 1)
  {
    w := Allocated(2_000_000);
  }

  /** The next message is there, still empty. */
  ghost predicate Joining(w: World, k: nat) {
    && w.cfg == CFG && k >= 1 && (forall i: nat | i > k :: Msg(i) !in w.slots)
    && (forall i: nat | i < k :: Msg(i) in w.slots && w.slots[Msg(i)] == OWNER)
    && Msg(k) in w.slots && w.slots[Msg(k)] == Slot(Local(EmptyMeta(0), false, None), 0, 0, Open)
    && w.counts == map[Seg(0, 64) := k] && w.extents == map[Seg(0, 64) := 2_000_000]
  }

  lemma Joins(w: World, k: nat)
    requires Joining(w, k) && k < U16 - 1
    ensures Enabled(w, CopyInto(k, 0, 0))
    ensures var w1 := Apply(w, CopyInto(k, 0, 0));
            && w1.cfg == CFG && w1.counts == map[Seg(0, 64) := k + 1] && w1.slots == w.slots[Msg(k) := OWNER]
            && w1.extents == w.extents
  {
    assert SameReference(w.cfg, w.slots[Msg(0)], w.slots[Msg(0)]);
  }

  lemma Comes(w: World, k: nat)
    requires Crowd(w, k)
    ensures Enabled(w, CreateEmpty(k, 0)) && Joining(Apply(w, CreateEmpty(k, 0)), k)
  {
  }

  lemma NextOwner(w: World, k: nat) returns (w1: World)
    requires Crowd(w, k) && 1 <= k < U16 - 1
    ensures Crowd(w1, k + 1)
  {
    Comes(w, k);
    var a := Apply(w, CreateEmpty(k, 0));
    ReachNext(w, CreateEmpty(k, 0));
    w1 := Joined(a, k);
  }

  lemma Joined(w: World, k: nat) returns (w1: World)
    requires Reachable(w) && Joining(w, k) && k < U16 - 1
    ensures Crowd(w1, k + 1)
  {
    Joins(w, k);
    ReachNext(w, CopyInto(k, 0, 0));
    w1 := Apply(w, CopyInto(k, 0, 0));
  }

  lemma {:induction false} Owners(k: nat) returns (w: World)
    requires 1 <= k < U16
    ensures Crowd(w, k)
  {
    if k == 1 {
      w := FirstOwner();
    } else {
      var w0 := Owners(k - 1);
      w := NextOwner(w0, k - 1);
    }
  }

  lemma Wraps(w: World)
    requires Joining(w, U16 - 1)
    ensures Callable(w, CopyInto(U16 - 1, 0, 0)) && !Proper(w, CopyInto(U16 - 1, 0, 0))
    ensures Apply(w, CopyInto(U16 - 1, 0, 0)).counts == map[Seg(0, 64) := 0]
  {
  }

  /** 65535 owners are within reach, and the next copy wraps the counter to zero. */
  lemma CounterWraps() returns (w: World)
    ensures Misuse(w, CopyInto(U16 - 1, 0, 0))
    ensures Apply(w, CopyInto(U16 - 1, 0, 0)).counts == map[Seg(0, 64) := 0]
  {
    var w0 := Owners(U16 - 1);
    w := Apply(w0, CreateEmpty(U16 - 1, 0));
    ReachNext(w0, CreateEmpty(U16 - 1, 0));
    Wraps(w);
    IsMisuse(w, CopyInto(U16 - 1, 0, 0));
  }

  // ---------------------------------------------------------------- shrinking

  lemma SharedRealloc() returns (w: World)
    ensures Misuse(w, Realloc(0, 8, 256))
  {
    w := Owners(2);
    IsMisuse(w, Realloc(0, 8, 256));
  }

  /** The tail of a buffer goes back to the segment while another message still sees it. */
  lemma SharedShrink() returns (w: World)
    ensures Misuse(w, Shrink(0, 8))
    ensures var w1 := Apply(w, Shrink(0, 8));
            IsActive(w1, 1) && w1.slots[Msg(1)].local.meta.size == 2_000_000 && At(w1.extents, Seg(0, 64)) == 8
  {
    w := Owners(2);
    assert SeesMore(w.slots[Msg(1)], Seg(0, 64), 8);
    IsMisuse(w, Shrink(0, 8));
  }

  /** Shrinking a region message changes the block that will be returned. */
  lemma ShrunkRegion() returns (w: World)
    ensures Misuse(w, Shrink(0, 8)) && !w.slots[Msg(0)].local.meta.managed
  {
    w := OneMessage();
    IsMisuse(w, Shrink(0, 8));
  }

  // ---------------------------------------------------------------- copies of what was sent away

  /** The one owner of a buffer of `size` bytes at 64 has sent it: the object keeps a stale description. */
  ghost predicate SentAway(w: World, size: nat) {
    && w.cfg == CFG && w.slots.Keys == {Msg(0), Msg(1), Flight(0)} && |w.allocs| == 1
    && w.counts == map[Seg(0, 64) := 1] && w.extents == map[Seg(0, 64) := size]
    && w.slots[Msg(0)] == Slot(Local(Meta(size, 0, 64, -1, 0, 0, true), true, None), 0, 0, Open)
    && w.slots[Flight(0)] == Slot(Local(Meta(size, 0, 64, -1, 0, 0, true), false, None), 0, 0, Open)
    && w.slots[Msg(1)] == Slot(Local(EmptyMeta(0), false, None), 0, 0, Open)
  }

  lemma Allocated(size: nat) returns (w: World)
    requires size > 0
    ensures Reachable(w) && w.cfg == CFG && w.slots.Keys == {Msg(0)} && |w.allocs| == 1
    ensures w.counts == map[Seg(0, 64) := 1] && w.extents == map[Seg(0, 64) := size]
    ensures w.slots[Msg(0)] == Slot(Local(Meta(size, 0, 64, -1, 0, 0, true), false, None), 0, 0, Open)
  {
    ReachInit(CFG);
    var w1 := Apply(Init(CFG), CreateEmpty(0, 0));
    ReachNext(Init(CFG), CreateEmpty(0, 0));
    ReachNext(w1, Alloc(0, size, 64));
    w := Apply(w1, Alloc(0, size, 64));
  }

  lemma Sent(size: nat) returns (w: World)
    requires size > 0
    ensures Reachable(w) && SentAway(w, size)
  {
    var w0 := Allocated(size);
    var w1 := Apply(w0, Send(0, 0));
    ReachNext(w0, Send(0, 0));
    ReachNext(w1, CreateEmpty(1, 0));
    w := Apply(w1, CreateEmpty(1, 0));
  }

  /** It arrives at the other message. */
  ghost predicate Arrived(w: World, size: nat) {
    && w.cfg == CFG && w.slots.Keys == {Msg(0), Msg(1)} && |w.allocs| == 1
    && w.counts == map[Seg(0, 64) := 1] && w.extents == map[Seg(0, 64) := size]
    && w.slots[Msg(0)] == Slot(Local(Meta(size, 0, 64, -1, 0, 0, true), true, None), 0, 0, Open)
    && w.slots[Msg(1)] == Slot(Local(Meta(size, 0, 64, -1, 0, 0, true), false, None), 0, 0, Open)
  }

  lemma Arrives(size: nat) returns (w: World)
    requires size > 0
    ensures Reachable(w) && Arrived(w, size)
  {
    var w0 := Sent(size);
    ReachNext(w0, Receive(1, 0));
    w := Apply(w0, Receive(1, 0));
  }

  /** The receiver closes it and the buffer is freed. */
  ghost predicate Gone(w: World, size: nat) {
    && w.cfg == CFG && w.slots.Keys == {Msg(0), Msg(1)} && w.counts == map[] && |w.allocs| == 1
    && w.slots[Msg(0)] == Slot(Local(Meta(size, 0, 64, -1, 0, 0, true), true, None), 0, 0, Open)
    && w.slots[Msg(1)] == Slot(Local(EmptyMeta(0), false, None), 0, 0, Open)
  }

  lemma Goes(size: nat) returns (w: World)
    requires size > 0
    ensures Reachable(w) && Gone(w, size)
  {
    var w0 := Arrives(size);
    var w1 := Apply(w0, CloseBegin(1));
    ReachNext(w0, CloseBegin(1));
    ReachNext(w1, Free(1));
    w := Apply(w1, Free(1));
  }

  /** A third message gets a smaller buffer at the same place. */
  lemma Reused(size: nat) returns (w: World)
    requires size > 10
    ensures Reachable(w) && w.cfg == CFG && w.slots.Keys == {Msg(0), Msg(1), Msg(2)}
    ensures w.counts == map[Seg(0, 64) := 1] && Seg(0, 64) in w.extents && w.extents[Seg(0, 64)] == 10
    ensures w.slots[Msg(0)] == Slot(Local(Meta(size, 0, 64, -1, 0, 0, true), true, None), 0, 0, Open)
    ensures w.slots[Msg(1)] == Slot(Local(EmptyMeta(0), false, None), 0, 0, Open)
    ensures w.slots[Msg(2)] == Slot(Local(Meta(10, 0, 64, -1, 0, 0, true), false, None), 0, 1, Open)
  {
    var w0 := Goes(size);
    var w1 := Apply(w0, CreateEmpty(2, 0));
    ReachNext(w0, CreateEmpty(2, 0));
    ReachNext(w1, Alloc(2, 10, 64));
    w := Apply(w1, Alloc(2, 10, 64));
  }

  /**
   * A copy of the stale description joins the owners of whatever is now at its place: it shows 1000 bytes of a
   * buffer of 10.
   */
  lemma CopiedAfterReuse() returns (w: World)
    ensures Misuse(w, CopyInto(1, 0, 0))
    ensures var w1 := Apply(w, CopyInto(1, 0, 0));
            && IsActive(w1, 1) && w1.slots[Msg(1)].local.meta.size == 1000
            && At(w1.counts, Seg(0, 64)) == 2 && At(w1.extents, Seg(0, 64)) == 10
  {
    w := Reused(1000);
    IsMisuse(w, CopyInto(1, 0, 0));
  }

  /** The receiver hands the tail of the buffer back. */
  lemma Shrunk() returns (w: World)
    ensures Reachable(w) && w.cfg == CFG && w.slots.Keys == {Msg(0), Msg(1)}
    ensures w.counts == map[Seg(0, 64) := 1] && w.extents == map[Seg(0, 64) := 8]
    ensures w.slots[Msg(0)] == Slot(Local(Meta(1000, 0, 64, -1, 0, 0, true), true, None), 0, 0, Open)
  {
    var w0 := Arrives(1000);
    ShrinkArrived(w0);
    ReachNext(w0, Shrink(1, 8));
    w := Apply(w0, Shrink(1, 8));
  }

  lemma ShrinkArrived(w: World)
    requires Arrived(w, 1000)
    ensures Enabled(w, Shrink(1, 8)) && Apply(w, Shrink(1, 8)).extents == map[Seg(0, 64) := 8]
  {
    forall q | q in w.slots && q != Msg(1) ensures !SeesMore(w.slots[q], Seg(0, 64), 8) {}
  }

  /** The same buffer is still there, but a copy of the stale description sees more than is left of it. */
  lemma CopiedAfterShrink() returns (w: World)
    ensures Misuse(w, CopyInto(2, 0, 0))
    ensures var w1 := Apply(w, CopyInto(2, 0, 0));
            IsActive(w1, 2) && w1.slots[Msg(2)].local.meta.size == 1000 && At(w1.extents, Seg(0, 64)) == 8
  {
    var w0 := Shrunk();
    w := Apply(w0, CreateEmpty(2, 0));
    ReachNext(w0, CreateEmpty(2, 0));
    IsMisuse(w, CopyInto(2, 0, 0));
  }
}
