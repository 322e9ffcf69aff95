/** What the methods of a message are specified to do, as steps and uninterrupted runs of the session machine. */
module MessageRuns {
  import opened Wrappers
  import opened Ownership
  import opened OwnershipInvariant
  import opened OwnershipMoves
  import opened Message

  /** The world apart from one message, the counters and the logs. */
  predicate OnlyMessage(w: World, w1: World, m: nat) {
    w1.cfg == w.cfg && w1.slots - {Msg(m)} == w.slots - {Msg(m)} && w1.creations == w.creations
  }

  /** The message at rest with these fields. */
  predicate HasLocal(w: World, m: nat, l: Local) { IsOpen(w, m) && w.slots[Msg(m)].local == l }

  // ---------------------------------------------------------------- closing

  /** The steps Deallocate stands for: a decrement, and what it leaves to do. */
  function CloseSteps(w: World, m: nat): seq<Op>
    requires IsOpen(w, m)
  {
    var s := w.slots[Msg(m)];
    match Drop(w.cfg, s.local, w.counts).phase
    case Open => [CloseBegin(m)]
    case MustRelease => [CloseBegin(m), Release(m)]
    case MustFree(_) =>
      if s.local.meta.managed then [CloseBegin(m), Free(m)] else [CloseBegin(m), Free(m), Release(m)]
  }

  function Blocks(rs: seq<Returned>): seq<Block> { seq(|rs|, i requires 0 <= i < |rs| => rs[i].block) }

  lemma BlocksAppend(rs: seq<Returned>, r: Returned)
    ensures Blocks(rs + [r]) == Blocks(rs) + [r.block]
  {
  }

  lemma ExecTwo(w: World, a: Op, b: Op)
    requires Enabled(w, a) && Enabled(Apply(w, a), b)
    ensures Valid(w, [a, b]) && Exec(w, [a, b]) == Apply(Apply(w, a), b)
  {
    assert [a, b][1..] == [b];
    ExecOne(Apply(w, a), b);
  }

  lemma ExecThree(w: World, a: Op, b: Op, c: Op)
    requires Enabled(w, a) && Enabled(Apply(w, a), b) && Enabled(Apply(Apply(w, a), b), c)
    ensures Valid(w, [a, b, c]) && Exec(w, [a, b, c]) == Apply(Apply(Apply(w, a), b), c)
  {
    assert [a, b, c][1..] == [b, c];
    ExecTwo(Apply(w, a), b, c);
  }

  /** The world after a run of close steps is the one the method's specification describes. */
  ghost predicate ClosedBy(w: World, w1: World, m: nat)
    requires IsOpen(w, m)
  {
    var r := CloseSpec(w.cfg, w.slots[Msg(m)].local, w.counts);
    && r.ok && HasLocal(w1, m, r.local) && w1.slots[Msg(m)].proc == w.slots[Msg(m)].proc && OnlyMessage(w, w1, m)
    && w1.counts == r.counts && w1.extents == w.extents && Blocks(w1.returned) == Blocks(w.returned) + r.acks
  }

  /** A held region message finds its region, and its cached pointer fits. */
  predicate RegionFound(w: World, m: nat)
    requires IsOpen(w, m)
  {
    var l := w.slots[Msg(m)].local;
    IsActive(w, m) && !l.meta.managed ==> l.meta.region in w.cfg.rc && Target(l) == l.meta.region
  }

  lemma CloseReleases(w: World, m: nat)
    requires IsOpen(w, m) && Drop(w.cfg, w.slots[Msg(m)].local, w.counts).phase.MustRelease? && RegionFound(w, m)
    ensures Valid(w, CloseSteps(w, m)) && ClosedBy(w, Exec(w, CloseSteps(w, m)), m)
  {
    var s := w.slots[Msg(m)];
    var l := Apply(w, CloseBegin(m)).slots[Msg(m)].local;
    ExecTwo(w, CloseBegin(m), Release(m));
    BlocksAppend(w.returned, Returned(ReleasedBlock(l), s.proc, s.origin));
  }

  lemma CloseFrees(w: World, m: nat)
    requires IsOpen(w, m) && Drop(w.cfg, w.slots[Msg(m)].local, w.counts).phase.MustFree?
    requires w.slots[Msg(m)].local.meta.managed
    ensures Valid(w, CloseSteps(w, m)) && ClosedBy(w, Exec(w, CloseSteps(w, m)), m)
  {
    ExecTwo(w, CloseBegin(m), Free(m));
  }

  lemma CloseFreesAndReleases(w: World, m: nat)
    requires IsOpen(w, m) && Drop(w.cfg, w.slots[Msg(m)].local, w.counts).phase.MustFree? && RegionFound(w, m)
    requires !w.slots[Msg(m)].local.meta.managed
    ensures Valid(w, CloseSteps(w, m)) && ClosedBy(w, Exec(w, CloseSteps(w, m)), m)
  {
    var s := w.slots[Msg(m)];
    var l := Apply(w, CloseBegin(m)).slots[Msg(m)].local;
    ExecThree(w, CloseBegin(m), Free(m), Release(m));
    BlocksAppend(w.returned, Returned(ReleasedBlock(l), s.proc, s.origin));
  }

  /** In every state that satisfies the invariant, closing is a run of closing steps; it never throws. */
  lemma CloseIsARun(w: World, m: nat)
    requires Inv(w) && IsOpen(w, m)
    ensures Valid(w, CloseSteps(w, m)) && ClosedBy(w, Exec(w, CloseSteps(w, m)), m)
  {
    var s := w.slots[Msg(m)];
    assert Faithful(w, s);
    match Drop(w.cfg, s.local, w.counts).phase
    case Open => ExecOne(w, CloseBegin(m));
    case MustRelease => CloseReleases(w, m);
    case MustFree(_) => if s.local.meta.managed { CloseFrees(w, m); } else { CloseFreesAndReleases(w, m); }
  }

  lemma RebuildStep(w: World, m: nat)
    requires IsClosed(w, m)
    ensures var w1 := Apply(w, Rebuild(m));
            && HasLocal(w1, m, w.slots[Msg(m)].local.(queued := false)) && OnlyMessage(w, w1, m)
            && w1.counts == w.counts && w1.returned == w.returned
  {
  }

  /** Rebuild without a size: closing, then the queued flag. */
  lemma RebuildIsARun(w: World, m: nat)
    requires Inv(w) && IsOpen(w, m)
    ensures var r := CloseSpec(w.cfg, w.slots[Msg(m)].local, w.counts);
            && Valid(w, CloseSteps(w, m) + [Rebuild(m)])
            && (var w1 := Exec(w, CloseSteps(w, m) + [Rebuild(m)]);
                && HasLocal(w1, m, r.local.(queued := false)) && OnlyMessage(w, w1, m)
                && w1.counts == r.counts && Blocks(w1.returned) == Blocks(w.returned) + r.acks)
  {
    CloseIsARun(w, m);
    ExecNext(w, CloseSteps(w, m), Rebuild(m));
    RebuildStep(Exec(w, CloseSteps(w, m)), m);
  }

  lemma DestroyStep(w: World, m: nat)
    requires IsClosed(w, m)
    ensures var w1 := Apply(w, Destroy(m));
            Msg(m) !in w1.slots && OnlyMessage(w, w1, m) && w1.counts == w.counts && w1.returned == w.returned
  {
    assert (w.slots - {Msg(m)}) - {Msg(m)} == w.slots - {Msg(m)};
  }

  /** The destructor: closing, then the object is gone. */
  lemma DestroyIsARun(w: World, m: nat)
    requires Inv(w) && IsOpen(w, m)
    ensures var r := CloseSpec(w.cfg, w.slots[Msg(m)].local, w.counts);
            && Valid(w, CloseSteps(w, m) + [Destroy(m)])
            && (var w1 := Exec(w, CloseSteps(w, m) + [Destroy(m)]);
                && Msg(m) !in w1.slots && OnlyMessage(w, w1, m)
                && w1.counts == r.counts && Blocks(w1.returned) == Blocks(w.returned) + r.acks)
  {
    CloseIsARun(w, m);
    ExecNext(w, CloseSteps(w, m), Destroy(m));
    DestroyStep(Exec(w, CloseSteps(w, m)), m);
  }

  /** Looking at the data or the counter of a region message refreshes the cached pointer, and changes nothing else. */
  lemma LookIsAStep(w: World, m: nat)
    requires IsOpen(w, m) && !w.slots[Msg(m)].local.meta.managed
    ensures Enabled(w, Look(m))
    ensures var l, w1 := w.slots[Msg(m)].local, Apply(w, Look(m));
            var ptr := if l.meta.region in w.cfg.rc then Some(l.meta.region) else None;
            && HasLocal(w1, m, l.(regionPtr := ptr)) && OnlyMessage(w, w1, m)
            && w1.counts == w.counts && w1.returned == w.returned
  {
  }

  // ---------------------------------------------------------------- allocating and shrinking

  /** InitializeChunk on a rebuilt message is the allocation step. */
  lemma AllocIsAStep(w: World, m: nat, size: nat, h: nat)
    requires IsClosed(w, m) && !w.slots[Msg(m)].local.queued && HasManager(w, m) && size > 0
    requires Seg(Home(w, m), h) !in w.counts
    ensures Callable(w, Alloc(m, size, h))
    ensures var r := ChunkSpec(w.slots[Msg(m)].local, w.counts, Home(w, m), size, Some(h));
            var w1 := Apply(w, Alloc(m, size, h));
            && r.ok && HasLocal(w1, m, r.local) && w1.counts == r.counts
            && w1.extents == ChunkExtents(w.extents, Home(w, m), size, Some(h))
            && OnlyMessage(w, w1, m) && w1.returned == w.returned
  {
  }

  /** The step that really shrinks a message. */
  function ShrinkStep(w: World, m: nat, newSize: nat, inPlace: bool, h: nat): Op
    requires IsOpen(w, m)
  {
    if inPlace then Shrink(m, newSize)
    else if w.slots[Msg(m)].local.meta.size - newSize < MIN_WASTE then Resize(m, newSize)
    else Realloc(m, newSize, h)
  }

  /** SetUsedSize to a smaller size is one step; the new place is neither in use nor the one still named. */
  lemma ShrinkIsAStep(w: World, m: nat, newSize: nat, inPlace: bool, h: nat)
    requires IsOpen(w, m) && 0 < newSize < w.slots[Msg(m)].local.meta.size && HasManager(w, m)
    requires Seg(Home(w, m), h) !in w.counts
    requires Seg(Home(w, m), h) != Seg(w.slots[Msg(m)].local.meta.segment, w.slots[Msg(m)].local.meta.handle)
    ensures Callable(w, ShrinkStep(w, m, newSize, inPlace, h))
    ensures var r := UsedSizeSpec(w.cfg, w.slots[Msg(m)].local, w.counts, Home(w, m), newSize, inPlace, Some(h));
            var w1 := Apply(w, ShrinkStep(w, m, newSize, inPlace, h));
            && r.ok && HasLocal(w1, m, r.local) && w1.counts == r.counts
            && w1.extents == UsedSizeExtents(w.slots[Msg(m)].local, w.extents, Home(w, m), newSize, inPlace, Some(h))
            && OnlyMessage(w, w1, m) && w1.returned == w.returned
  {
    var meta := w.slots[Msg(m)].local.meta;
    var c, c1 := Seg(meta.segment, meta.handle), Seg(Home(w, m), h);
    assert w.counts[c1 := 1] - {c} == (w.counts - {c})[c1 := 1];
  }

  // ---------------------------------------------------------------- copying

  /** What Copy does to an initialised target before it copies. */
  function TargetSteps(w: World, m: nat): seq<Op>
    requires IsOpen(w, m)
  {
    if w.slots[Msg(m)].local.meta.handle >= 0 then CloseSteps(w, m) else []
  }

  lemma TargetIsARun(w: World, m: nat, src: nat)
    requires Inv(w) && IsOpen(w, m) && IsOpen(w, src) && w.slots[Msg(src)].local.meta.handle >= 0
    ensures Valid(w, TargetSteps(w, m))
    ensures var t := CopyTarget(w.cfg, w.slots[Msg(m)].local, w.slots[Msg(src)].local, w.counts);
            var w1 := Exec(w, TargetSteps(w, m));
            && t.ok && HasLocal(w1, m, t.local) && w1.slots[Msg(m)].proc == w.slots[Msg(m)].proc
            && OnlyMessage(w, w1, m)
            && w1.counts == t.counts && Blocks(w1.returned) == Blocks(w.returned) + t.acks && t.local.meta.handle < 0
  {
    CloseIsARun(w, m);
  }

  /** Source, fields and counters of a copy into a closed target. */
  function From(w: World, m: nat, src: nat): Local
    requires IsOpen(w, m) && IsOpen(w, src)
  {
    var l := w.slots[Msg(src)].local;
    if src == m then CopyTarget(w.cfg, l, l, w.counts).local else l
  }

  lemma CopyStepIs(w: World, m: nat, src: nat, h: nat)
    requires IsClosed(w, m) && IsOpen(w, src) && HasManager(w, m)
    requires src == m || w.slots[Msg(src)].local.meta.handle >= 0
    requires CopyProceeds(w.cfg, w.slots[Msg(src)].local, Some(h))
    requires var r := CopyLocal(w.cfg, w.slots[Msg(m)].local, w.slots[Msg(src)].local, w.counts, h, Home(w, m));
             r.made.Some? ==> r.made.value !in w.counts
    ensures Callable(w, CopyInto(m, src, h))
    ensures var r := CopyLocal(w.cfg, w.slots[Msg(m)].local, w.slots[Msg(src)].local, w.counts, h, Home(w, m));
            var w1 := Apply(w, CopyInto(m, src, h));
            && HasLocal(w1, m, r.dst) && (src != m ==> HasLocal(w1, src, r.src)) && w1.counts == r.counts
            && w1.slots - {Msg(m), Msg(src)} == w.slots - {Msg(m), Msg(src)} && w1.returned == w.returned
  {
    var w1 := Apply(w, CopyInto(m, src, h));
    assert w1.slots - {Msg(m), Msg(src)} == w.slots - {Msg(m), Msg(src)};
  }

  /** The copy can be made: the region is there, and a new counter gets a free place. */
  predicate CanCopy(w: World, m: nat, src: nat, h: nat)
    requires IsOpen(w, m) && IsOpen(w, src) && HasManager(w, m)
  {
    var t := CopyTarget(w.cfg, w.slots[Msg(m)].local, w.slots[Msg(src)].local, w.counts);
    var r := CopyLocal(w.cfg, t.local, From(w, m, src), t.counts, h, Home(w, m));
    CopyProceeds(w.cfg, From(w, m, src), Some(h)) && (r.made.Some? ==> r.made.value !in t.counts)
  }

  /** The world after the copy is the one the method's specification describes. */
  ghost predicate CopiedBy(w: World, w1: World, m: nat, src: nat, h: nat)
    requires IsOpen(w, m) && IsOpen(w, src) && HasManager(w, m)
  {
    var t := CopyTarget(w.cfg, w.slots[Msg(m)].local, w.slots[Msg(src)].local, w.counts);
    var r := CopyLocal(w.cfg, t.local, From(w, m, src), t.counts, h, Home(w, m));
    && t.ok && HasLocal(w1, m, r.dst) && (src != m ==> HasLocal(w1, src, r.src)) && w1.counts == r.counts
    && w1.slots - {Msg(m), Msg(src)} == w.slots - {Msg(m), Msg(src)}
    && Blocks(w1.returned) == Blocks(w.returned) + t.acks
  }

  /**
   * Copy of an initialised message is: close the target if it is initialised, then the copying step, for every
   * source the code accepts, the target itself included.  With the discipline observed it is a run.
   */
  lemma CopyIsARun(w: World, m: nat, src: nat, h: nat)
    requires Inv(w) && IsOpen(w, m) && IsOpen(w, src) && w.slots[Msg(src)].local.meta.handle >= 0
    requires HasManager(w, m) && CanCopy(w, m, src, h)
    ensures Valid(w, TargetSteps(w, m)) && Callable(Exec(w, TargetSteps(w, m)), CopyInto(m, src, h))
    ensures CopiedBy(w, Apply(Exec(w, TargetSteps(w, m)), CopyInto(m, src, h)), m, src, h)
    ensures Proper(Exec(w, TargetSteps(w, m)), CopyInto(m, src, h)) ==>
              Valid(w, TargetSteps(w, m) + [CopyInto(m, src, h)])
  {
    TargetIsARun(w, m, src);
    var w1 := Exec(w, TargetSteps(w, m));
    SourceStays(w, w1, m, src);
    OthersStay(w, w1, m, src);
    assert w1.slots[Msg(src)].local == From(w, m, src);
    CopyStepIs(w1, m, src, h);
    if Proper(w1, CopyInto(m, src, h)) { ExecNext(w, TargetSteps(w, m), CopyInto(m, src, h)); }
  }

  lemma SourceStays(w: World, w1: World, m: nat, src: nat)
    requires OnlyMessage(w, w1, m) && Msg(src) in w.slots
    ensures src != m ==> Msg(src) in w1.slots && w1.slots[Msg(src)] == w.slots[Msg(src)]
  {
    if src != m {
      assert Msg(src) in w.slots - {Msg(m)};
      assert (w.slots - {Msg(m)})[Msg(src)] == (w1.slots - {Msg(m)})[Msg(src)];
    }
  }

  lemma OthersStay(w: World, w1: World, m: nat, src: nat)
    requires OnlyMessage(w, w1, m)
    ensures w1.slots - {Msg(m), Msg(src)} == w.slots - {Msg(m), Msg(src)}
  {
    assert (w1.slots - {Msg(m)}) - {Msg(src)} == w1.slots - {Msg(m), Msg(src)};
    assert (w.slots - {Msg(m)}) - {Msg(src)} == w.slots - {Msg(m), Msg(src)};
  }
}
