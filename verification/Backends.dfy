/**
 * The two places where a region keeps its counters are indistinguishable: sessions that differ only in their
 * regions' counter-segment sizes, and in what their allocators deliver, give the same reference counts and return
 * the same blocks.
 */
module Backends {
  import opened Wrappers
  import opened Counting
  import opened Ownership
  import opened OwnershipInvariant
  import opened OwnershipSteps
  import opened OwnershipMoves
  import opened OwnershipTheorems

  predicate SimPhase(a: Phase, b: Phase) {
    a.Open? == b.Open? && a.MustFree? == b.MustFree?
  }

  /** Equal but for where counters are kept; of a managed message only that it is one, and its flags. */
  predicate SimSlot(s: Slot, t: Slot) {
    var a, b := s.local.meta, t.local.meta;
    && s.proc == t.proc && s.local.queued == t.local.queued && s.local.regionPtr == t.local.regionPtr
    && a.managed == b.managed
    && (!a.managed ==>
          && s.origin == t.origin && SimPhase(s.phase, t.phase)
          && BlockOf(a) == BlockOf(b) && (a.shared < 0 <==> b.shared < 0))
  }

  ghost predicate Similar(w: World, v: World) {
    && w.cfg.seg == v.cfg.seg && w.cfg.rc.Keys == v.cfg.rc.Keys
    && w.slots.Keys == v.slots.Keys && (forall p | p in w.slots :: SimSlot(w.slots[p], v.slots[p]))
    && w.creations == v.creations && w.returned == v.returned
  }

  predicate IsSetUsedSize(op: Op) { op.Resize? || op.Shrink? || op.Realloc? }

  /** The same call; the allocators may place buffers and counters anywhere, and shrink in place or not. */
  predicate SameOp(a: Op, b: Op) {
    if IsSetUsedSize(a) && IsSetUsedSize(b) then a.m == b.m && a.size == b.size
    else match (a, b)
      case (CopyInto(m, src, _), CopyInto(n, dst, _)) => m == n && src == dst
      case (Alloc(m, x, _), Alloc(n, y, _)) => m == n && x == y
      case _ => a == b
  }

  /** A region message reads the same counter value in both sessions. */
  lemma SameCount(w: World, v: World, p: Place, c: Cell, d: Cell)
    requires Inv(w) && Inv(v) && Similar(w, v) && p in w.slots && Active(w.slots[p])
    requires !w.slots[p].local.meta.managed
    requires CellOf(w.cfg, w.slots[p].local.meta) == Some(c) && CellOf(v.cfg, v.slots[p].local.meta) == Some(d)
    ensures At(w.counts, c) == At(v.counts, d)
  {
    assert SimSlot(w.slots[p], v.slots[p]);
    assert SlotCovered(w.cfg, w.counts, w.slots[p]) && SlotCovered(v.cfg, v.counts, v.slots[p]);
    HoldersAreOwners(w, p, c);
    HoldersAreOwners(v, p, d);
    SameHolders(w, v, w.slots[p].origin);
  }

  lemma SameHolders(w: World, v: World, o: nat)
    requires Similar(w, v)
    ensures Holders(w, o) == Holders(v, o) && N(w, Holds(o)) == N(v, Holds(o))
  {
    forall p | p in w.slots ensures Held(w.slots[p]) == Held(v.slots[p]) { assert SimSlot(w.slots[p], v.slots[p]); }
    assert Places(w.cfg, w.slots, Holds(o)) == Places(v.cfg, v.slots, Holds(o));
  }

  /** Nothing that `Similar` looks at changes but the slot at `p`. */
  predicate Alters(w: World, w1: World, p: Place) {
    && w1.cfg == w.cfg && w1.creations == w.creations && w1.returned == w.returned
    && p in w1.slots && w1.slots == w.slots[p := w1.slots[p]]
  }

  /** Replacing one slot on both sides by similar ones. */
  lemma SimPut(w: World, v: World, w1: World, v1: World, p: Place)
    requires Similar(w, v) && w1.cfg == w.cfg && v1.cfg == v.cfg
    requires p in w1.slots && p in v1.slots && SimSlot(w1.slots[p], v1.slots[p])
    requires w1.slots == w.slots[p := w1.slots[p]] && v1.slots == v.slots[p := v1.slots[p]]
    requires w1.creations == v1.creations && w1.returned == v1.returned
    ensures Similar(w1, v1)
  {
    forall q | q in w1.slots ensures SimSlot(w1.slots[q], v1.slots[q]) {
      if q != p { assert SimSlot(w.slots[q], v.slots[q]); }
    }
  }

  lemma SimPutTwo(w: World, v: World, w0: World, v0: World, w1: World, v1: World, o: Place, p: Place)
    requires Similar(w, v) && Alters(w, w0, o) && Alters(w0, w1, p) && Alters(v, v0, o) && Alters(v0, v1, p)
    requires SimSlot(w0.slots[o], v0.slots[o]) && SimSlot(w1.slots[p], v1.slots[p])
    ensures Similar(w1, v1)
  {
    SimPut(w, v, w0, v0, o);
    SimPut(w0, v0, w1, v1, p);
  }

  /** Dropping similar references from counters that agree leaves similar slots. */
  lemma DropSim(cfg: Config, cfg1: Config, s: Slot, t: Slot, counts: map<Cell, nat>, counts1: map<Cell, nat>)
    requires SimSlot(s, t) && s.phase.Open? && t.phase.Open?
    requires !s.local.meta.managed && Active(s) && CellOf(cfg, s.local.meta).Some? ==>
      At(counts, CellOf(cfg, s.local.meta).value) == At(counts1, CellOf(cfg1, t.local.meta).value)
    ensures var d, e := Drop(cfg, s.local, counts), Drop(cfg1, t.local, counts1);
            SimSlot(s.(local := d.local, phase := d.phase), t.(local := e.local, phase := e.phase))
  {
  }

  lemma CloseAlters(w: World, op: Op)
    requires op.CloseBegin? && Callable(w, op)
    ensures Alters(w, Apply(w, op), Msg(op.m))
    ensures var s := w.slots[Msg(op.m)];
            var d := Drop(w.cfg, s.local, w.counts);
            Apply(w, op).slots[Msg(op.m)] == s.(local := d.local, phase := d.phase)
  {
  }

  lemma CloseSim(w: World, v: World, op: Op)
    requires Inv(w) && Inv(v) && Similar(w, v) && op.CloseBegin? && Callable(w, op) && Callable(v, op)
    ensures Similar(Apply(w, op), Apply(v, op))
  {
    SameDrop(w, v, op.m);
    CloseAlters(w, op);
    CloseAlters(v, op);
    SimPut(w, v, Apply(w, op), Apply(v, op), Msg(op.m));
  }

  lemma SameDrop(w: World, v: World, m: nat)
    requires Inv(w) && Inv(v) && Similar(w, v) && IsOpen(w, m) && IsOpen(v, m)
    ensures var s, t := w.slots[Msg(m)], v.slots[Msg(m)];
            var d, e := Drop(w.cfg, s.local, w.counts), Drop(v.cfg, t.local, v.counts);
            SimSlot(s.(local := d.local, phase := d.phase), t.(local := e.local, phase := e.phase))
  {
    var p := Msg(m);
    var s, t := w.slots[p], v.slots[p];
    assert SimSlot(s, t);
    if !s.local.meta.managed && Active(s) && CellOf(w.cfg, s.local.meta).Some? {
      SameCount(w, v, p, CellOf(w.cfg, s.local.meta).value, CellOf(v.cfg, t.local.meta).value);
    }
    DropSim(w.cfg, v.cfg, s, t, w.counts, v.counts);
  }

  /** Copying similar messages leaves similar messages. */
  lemma CopyLocalSim(cfg: Config, cfg1: Config, d: Slot, e: Slot, s: Slot, t: Slot,
                     counts: map<Cell, nat>, counts1: map<Cell, nat>, h: int, h1: int, home: nat)
    requires SimSlot(d, e) && SimSlot(s, t) && h >= 0 && h1 >= 0 && d.phase.Open? && e.phase.Open?
    ensures var r := CopyLocal(cfg, d.local, s.local, counts, h, home);
            var q := CopyLocal(cfg1, e.local, t.local, counts1, h1, home);
            && SimSlot(s.(local := r.src), t.(local := q.src))
            && SimSlot(d.(local := r.dst, origin := s.origin), e.(local := q.dst, origin := t.origin))
  {
  }

  predicate Copyable(w: World, op: Op) {
    op.CopyInto? && op.handle >= 0 && IsOpen(w, op.m) && HasManager(w, op.m) && Msg(op.src) in w.slots
  }

  /** The session after a copy, but for counters and allocations. */
  function AfterCopy(w: World, op: Op, w1: World): World
    requires Copyable(w, op)
  {
    var o, p := Msg(op.src), Msg(op.m);
    var r := CopyLocal(w.cfg, w.slots[p].local, w.slots[o].local, w.counts, op.handle, Home(w, op.m));
    w.(slots := w.slots[o := w.slots[o].(local := r.src)]
                       [p := w.slots[p].(local := r.dst, origin := w.slots[o].origin)],
       counts := w1.counts, allocs := w1.allocs)
  }

  lemma CopiesSim(w: World, v: World, w1: World, v1: World, a: Op, b: Op)
    requires Similar(w, v) && Copyable(w, a) && Copyable(v, b) && b.m == a.m != a.src == b.src
    requires w1 == AfterCopy(w, a, w1) && v1 == AfterCopy(v, b, v1)
    ensures Similar(w1, v1)
  {
    var o, p := Msg(a.src), Msg(a.m);
    assert SimSlot(w.slots[o], v.slots[o]) && SimSlot(w.slots[p], v.slots[p]);
    CopyLocalSim(w.cfg, v.cfg, w.slots[p], v.slots[p], w.slots[o], v.slots[o], w.counts, v.counts,
                 a.handle, b.handle, Home(w, a.m));
    var w0, v0 := w.(slots := w.slots[o := w1.slots[o]]), v.(slots := v.slots[o := v1.slots[o]]);
    SimPutTwo(w, v, w0, v0, w1, v1, o, p);
  }

  lemma CopyIsAfterCopy(w: World, op: Op)
    requires op.CopyInto? && Callable(w, op)
    ensures Copyable(w, op) && Apply(w, op) == AfterCopy(w, op, Apply(w, op))
  {
  }

  lemma CopySim(w: World, v: World, a: Op, b: Op)
    requires Similar(w, v) && a.CopyInto? && SameOp(a, b) && a.m != a.src && Callable(w, a) && Callable(v, b)
    ensures Similar(Apply(w, a), Apply(v, b))
  {
    CopyIsAfterCopy(w, a);
    CopyIsAfterCopy(v, b);
    CopiesSim(w, v, Apply(w, a), Apply(v, b), a, b);
  }

  lemma SendSim(w: World, v: World, op: Op)
    requires Similar(w, v) && op.Send? && Callable(w, op) && Callable(v, op)
    ensures Similar(Apply(w, op), Apply(v, op))
  {
    var w1, v1 := Apply(w, op), Apply(v, op);
    var o, p := Msg(op.m), Flight(op.packet);
    assert SimSlot(w.slots[o], v.slots[o]);
    var w0, v0 := w.(slots := w.slots[o := w1.slots[o]]), v.(slots := v.slots[o := v1.slots[o]]);
    SimPut(w, v, w0, v0, o);
    SimPut(w0, v0, w1, v1, p);
  }

  lemma ReceiveSim(w: World, v: World, op: Op)
    requires Similar(w, v) && op.Receive? && Callable(w, op) && Callable(v, op)
    ensures Similar(Apply(w, op), Apply(v, op))
  {
    var w1, v1 := Apply(w, op), Apply(v, op);
    var o, p := Flight(op.packet), Msg(op.m);
    assert SimSlot(w.slots[o], v.slots[o]) && SimSlot(w.slots[p], v.slots[p]);
    forall q | q in w1.slots ensures SimSlot(w1.slots[q], v1.slots[q]) {
      if q != p { assert SimSlot(w.slots[q], v.slots[q]); }
    }
    assert w1.slots.Keys == v1.slots.Keys;
  }

  lemma FreeSim(w: World, v: World, op: Op)
    requires Similar(w, v) && op.Free? && Callable(w, op) && Callable(v, op)
    ensures Similar(Apply(w, op), Apply(v, op))
  {
    assert SimSlot(w.slots[Msg(op.m)], v.slots[Msg(op.m)]);
    SimPut(w, v, Apply(w, op), Apply(v, op), Msg(op.m));
  }

  lemma CreateSim(w: World, v: World, op: Op)
    requires Similar(w, v) && (op.CreateEmpty? || op.CreateRegionMsg?) && Callable(w, op) && Callable(v, op)
    ensures Similar(Apply(w, op), Apply(v, op))
  {
    SimPut(w, v, Apply(w, op), Apply(v, op), Msg(op.m));
  }

  lemma ReleaseSim(w: World, v: World, op: Op)
    requires AllFaithful(w) && Similar(w, v) && op.Release? && Callable(w, op) && Callable(v, op)
    ensures Similar(Apply(w, op), Apply(v, op))
  {
    var p := Msg(op.m);
    assert SimSlot(w.slots[p], v.slots[p]) && Faithful(w, w.slots[p]);
    SimPut(w, v, Apply(w, op), Apply(v, op), p);
  }

  /** All that is compared of a managed message stays. */
  predicate SameFlags(s: Slot, t: Slot) {
    && t.proc == s.proc && t.local.queued == s.local.queued && t.local.regionPtr == s.local.regionPtr
    && t.local.meta.managed == s.local.meta.managed
  }

  /** A new buffer or a new size changes one message, and none of its flags. */
  lemma BufferAlters(w: World, op: Op)
    requires (op.Alloc? || IsSetUsedSize(op)) && Callable(w, op)
    ensures Alters(w, Apply(w, op), Msg(op.m)) && SameFlags(w.slots[Msg(op.m)], Apply(w, op).slots[Msg(op.m)])
  {
  }

  /** ... and a region message only gets the size. */
  lemma SizeAlters(w: World, op: Op)
    requires (op.Resize? || op.Shrink?) && Callable(w, op)
    ensures var s := w.slots[Msg(op.m)];
            Apply(w, op).slots[Msg(op.m)] == s.(local := s.local.(meta := s.local.meta.(size := op.size)))
  {
  }

  lemma BufferSim(w: World, v: World, a: Op, b: Op)
    requires Similar(w, v) && (a.Alloc? || IsSetUsedSize(a)) && SameOp(a, b) && Callable(w, a) && Callable(v, b)
    requires a.Alloc? || a.Realloc? || b.Realloc? ==> w.slots[Msg(a.m)].local.meta.managed
    ensures Similar(Apply(w, a), Apply(v, b))
  {
    var p := Msg(a.m);
    BufferAlters(w, a);
    BufferAlters(v, b);
    assert SimSlot(w.slots[p], v.slots[p]);
    if !w.slots[p].local.meta.managed {
      SizeAlters(w, a);
      SizeAlters(v, b);
    }
    SimPut(w, v, Apply(w, a), Apply(v, b), p);
  }

  lemma FlagSim(w: World, v: World, op: Op)
    requires Similar(w, v) && (op.Rebuild? || op.Look?) && Callable(w, op) && Callable(v, op)
    ensures Similar(Apply(w, op), Apply(v, op))
  {
    var p := Msg(op.m);
    assert SimSlot(w.slots[p], v.slots[p]);
    SimPut(w, v, Apply(w, op), Apply(v, op), p);
  }

  lemma DestroySim(w: World, v: World, op: Op)
    requires Similar(w, v) && op.Destroy? && Callable(w, op) && Callable(v, op)
    ensures Similar(Apply(w, op), Apply(v, op))
  {
    var w1, v1 := Apply(w, op), Apply(v, op);
    forall q | q in w1.slots ensures SimSlot(w1.slots[q], v1.slots[q]) { assert SimSlot(w.slots[q], v.slots[q]); }
  }

  /** What the discipline says about copies and buffers that a step changes. */
  lemma ProperFacts(w: World, op: Op)
    requires Enabled(w, op)
    ensures op.CopyInto? ==> op.m != op.src
    ensures op.Alloc? || op.Realloc? ==> w.slots[Msg(op.m)].local.meta.managed
  {
  }

  lemma BothManaged(w: World, v: World, a: Op, b: Op)
    requires Similar(w, v) && IsSetUsedSize(a) && SameOp(a, b) && Callable(w, a) && Callable(v, b)
    requires b.Realloc? ==> v.slots[Msg(b.m)].local.meta.managed
    ensures b.Realloc? ==> w.slots[Msg(a.m)].local.meta.managed
  {
    assert SimSlot(w.slots[Msg(a.m)], v.slots[Msg(a.m)]);
  }

  /** The two sessions move in lockstep. */
  lemma StepSim(w: World, v: World, a: Op, b: Op)
    requires Inv(w) && Inv(v) && Similar(w, v) && SameOp(a, b) && Enabled(w, a) && Enabled(v, b)
    ensures Similar(Apply(w, a), Apply(v, b))
  {
    ProperFacts(w, a);
    ProperFacts(v, b);
    if IsSetUsedSize(a) { BothManaged(w, v, a, b); }
    if a.CopyInto? || a.Alloc? || IsSetUsedSize(a) {
      PlacedSim(w, v, a, b);
    } else {
      EqualSim(w, v, a);
    }
  }

  lemma PlacedSim(w: World, v: World, a: Op, b: Op)
    requires Similar(w, v) && SameOp(a, b) && Callable(w, a) && Callable(v, b)
    requires a.CopyInto? || a.Alloc? || IsSetUsedSize(a)
    requires a.CopyInto? ==> a.m != a.src
    requires a.Alloc? || (IsSetUsedSize(a) && (a.Realloc? || b.Realloc?)) ==> w.slots[Msg(a.m)].local.meta.managed
    ensures Similar(Apply(w, a), Apply(v, b))
  {
    if a.CopyInto? {
      CopySim(w, v, a, b);
    } else {
      BufferSim(w, v, a, b);
    }
  }

  lemma EqualSim(w: World, v: World, op: Op)
    requires Inv(w) && Inv(v) && Similar(w, v) && Callable(w, op) && Callable(v, op)
    requires !op.CopyInto? && !op.Alloc? && !IsSetUsedSize(op)
    ensures Similar(Apply(w, op), Apply(v, op))
  {
    match op
    case CreateEmpty(_, _) => CreateSim(w, v, op);
    case CreateRegionMsg(_, _, _) => CreateSim(w, v, op);
    case Send(_, _) => SendSim(w, v, op);
    case Receive(_, _) => ReceiveSim(w, v, op);
    case CloseBegin(_) => CloseSim(w, v, op);
    case Free(_) => FreeSim(w, v, op);
    case Release(_) => ReleaseSim(w, v, op);
    case Rebuild(_) => FlagSim(w, v, op);
    case Look(_) => FlagSim(w, v, op);
    case Destroy(_) => DestroySim(w, v, op);
  }

  ghost predicate SameOps(ops: seq<Op>, qs: seq<Op>) {
    |ops| == |qs| && forall i | 0 <= i < |ops| :: SameOp(ops[i], qs[i])
  }

  /** A run ends with its last step. */
  lemma {:induction false} LastStep(w: World, ops: seq<Op>)
    requires ops != [] && Valid(w, ops)
    ensures var n := |ops| - 1;
            && Valid(w, ops[..n]) && Enabled(Exec(w, ops[..n]), ops[n])
            && Exec(w, ops) == Apply(Exec(w, ops[..n]), ops[n])
    decreases |ops|
  {
    var n := |ops| - 1;
    if n == 0 {
    } else {
      LastStep(Apply(w, ops[0]), ops[1..]);
      assert ops[1..][..n - 1] == ops[..n][1..];
    }
  }

  lemma {:induction false} RunSim(w: World, v: World, ops: seq<Op>, qs: seq<Op>)
    requires Inv(w) && Inv(v) && Similar(w, v) && Valid(w, ops) && Valid(v, qs) && SameOps(ops, qs)
    ensures Similar(Exec(w, ops), Exec(v, qs))
    decreases |ops|
  {
    if ops == [] {
    } else {
      var n := |ops| - 1;
      LastStep(w, ops);
      LastStep(v, qs);
      RunSim(w, v, ops[..n], qs[..n]);
      RunInv(w, ops[..n]);
      RunInv(v, qs[..n]);
      StepSim(Exec(w, ops[..n]), Exec(v, qs[..n]), ops[n], qs[n]);
    }
  }

  /**
   * Whatever the sizes of the regions' counter segments, and wherever the allocators place buffers and counters, the
   * same calls leave equal reference counts on every un-queued region message and return the same blocks in the
   * same order.
   */
  lemma BackendsAgree(cfg: Config, cfg1: Config, ops: seq<Op>, qs: seq<Op>)
    requires cfg.seg == cfg1.seg && cfg.rc.Keys == cfg1.rc.Keys
    requires Valid(Init(cfg), ops) && Valid(Init(cfg1), qs)
    requires SameOps(ops, qs)
    ensures var w, v := Exec(Init(cfg), ops), Exec(Init(cfg1), qs);
            && w.returned == v.returned
            && (forall m | IsActive(w, m) && !w.slots[Msg(m)].local.meta.managed ::
                  IsActive(v, m) && GetRefCount(w, m) == GetRefCount(v, m))
  {
    InitInv(cfg);
    InitInv(cfg1);
    RunSim(Init(cfg), Init(cfg1), ops, qs);
    RunInv(Init(cfg), ops);
    RunInv(Init(cfg1), qs);
    var w, v := Exec(Init(cfg), ops), Exec(Init(cfg1), qs);
    forall m | IsActive(w, m) && !w.slots[Msg(m)].local.meta.managed
      ensures IsActive(v, m) && GetRefCount(w, m) == GetRefCount(v, m)
    {
      assert SimSlot(w.slots[Msg(m)], v.slots[Msg(m)]);
      RefCountIsHolders(w, m);
      RefCountIsHolders(v, m);
      SameHolders(w, v, w.slots[Msg(m)].origin);
    }
  }
}
