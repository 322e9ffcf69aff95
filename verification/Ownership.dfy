/**
 * Reference-counted shared-memory buffers.
 *
 * A message is a handle to a buffer; several processes hold messages that name the same buffer,
 * and a metadata header travelling through a socket names one too.  Every holder owns one unit of
 * a 16-bit counter.  The counter lives in one of three places: the header of a managed buffer, a
 * counter object in the region's own segment, or a bare header in a managed segment.  The last two
 * exist only once a region message has been copied.
 *
 * The module describes one step of any process as a function on the whole session.  Dropping a
 * reference takes up to three steps (decrement, free, release) that other processes interleave with.
 */
module Ownership {
  import opened Arithmetic
  import opened Wrappers

  /** Wasted bytes from which on a shrunken buffer is reallocated. */
  const MIN_WASTE: nat := 1_000_000

  /** The fields a metadata header carries between processes. */
  datatype Meta = Meta(size: nat, hint: nat, handle: int, shared: int,
                       region: nat, segment: nat, managed: bool)

  /** One message object: its metadata, the queued flag and the cached region pointer. */
  datatype Local = Local(meta: Meta, queued: bool, regionPtr: Option<nat>)

  /** Where a reference counter is stored. */
  datatype Cell = Seg(segment: nat, handle: int) | Rc(region: nat, handle: int)

  /** Size of each existing region's counter segment, and the managed segment of each manager. */
  datatype Config = Config(rc: map<nat, nat>, seg: map<nat, nat>)

  /** What a message still owes after its decrement. */
  datatype Phase = Open | MustFree(cell: Cell) | MustRelease

  /**
   * A message object or an in-flight header.  `origin` identifies what it refers to: the number of the creation of a
   * region message, the number of the allocation of a managed one.
   */
  datatype Slot = Slot(local: Local, proc: nat, origin: nat, phase: Phase)

  datatype Place = Msg(id: nat) | Flight(packet: nat)

  datatype Block = Block(region: nat, handle: int, size: nat, hint: nat)

  /** A block handed back: to which region, by which manager, for which creation. */
  datatype Returned = Returned(block: Block, proc: nat, origin: nat)

  datatype World = World(cfg: Config, slots: map<Place, Slot>, counts: map<Cell, nat>,
                         extents: map<Cell, nat>, creations: seq<Block>, returned: seq<Returned>,
                         allocs: multiset<Cell>, frees: multiset<Cell>)

  datatype Op =
    | CreateEmpty(m: nat, proc: nat)
    | CreateRegionMsg(m: nat, proc: nat, block: Block)
    | Alloc(m: nat, size: nat, handle: int)
    | CopyInto(m: nat, src: nat, handle: int)
    | Send(m: nat, packet: nat)
    | Receive(m: nat, packet: nat)
    | CloseBegin(m: nat)
    | Free(m: nat)
    | Release(m: nat)
    | Rebuild(m: nat)
    | Destroy(m: nat)
    | Resize(m: nat, size: nat)
    | Shrink(m: nat, size: nat)
    | Realloc(m: nat, size: nat, handle: int)
    | Look(m: nat)

  // ---------------------------------------------------------------- fields and counters

  function EmptyMeta(segment: nat): Meta { Meta(0, 0, -1, -1, 0, segment, true) }

  function Closed(meta: Meta): Meta { meta.(handle := -1, size := 0) }

  function Inc(c: nat): nat { (c + 1) % U16 }

  function Dec(c: nat): nat { (c + U16 - 1) % U16 }

  predicate OwnCounterSegment(cfg: Config, region: nat) { region in cfg.rc && cfg.rc[region] > 0 }

  /** The counter that an initialised message uses; a region message that was never copied has none. */
  function CellOf(cfg: Config, meta: Meta): Option<Cell> {
    if meta.managed then Some(Seg(meta.segment, meta.handle))
    else if meta.shared < 0 then None
    else if OwnCounterSegment(cfg, meta.region) then Some(Rc(meta.region, meta.shared))
    else Some(Seg(meta.segment, meta.shared))
  }

  /** The cell that the first copy of a region message creates; `home` is the copying manager's segment. */
  function LazyCell(cfg: Config, meta: Meta, home: nat, handle: int): Cell {
    if OwnCounterSegment(cfg, meta.region) then Rc(meta.region, handle) else Seg(home, handle)
  }

  function At(counts: map<Cell, nat>, c: Cell): nat { if c in counts then counts[c] else 0 }

  function BlockOf(meta: Meta): Block { Block(meta.region, meta.handle, meta.size, meta.hint) }

  /** A slot that holds one unit of a reference. */
  predicate Active(s: Slot) { s.phase.Open? && !s.local.queued && s.local.meta.handle >= 0 }

  // ---------------------------------------------------------------- local steps, shared with the class

  /** Result of the decrementing part of Deallocate. */
  datatype Dropped = Dropped(local: Local, counts: map<Cell, nat>, phase: Phase)

  function Drop(cfg: Config, l: Local, counts: map<Cell, nat>): Dropped {
    if l.meta.handle < 0 || l.queued then
      Dropped(l.(meta := Closed(l.meta)), counts, Open)
    else match CellOf(cfg, l.meta)
      case None => Dropped(l, counts, MustRelease)
      case Some(c) =>
        var l' := if l.meta.managed then l else l.(regionPtr := Some(l.meta.region));
        var counts' := counts[c := Dec(At(counts, c))];
        if At(counts, c) == 1 then Dropped(l', counts', MustFree(c))
        else Dropped(l'.(meta := Closed(l.meta)), counts', Open)
  }

  /** The region a released block goes to: the cached pointer wins over the message's own region. */
  function Target(l: Local): nat { if l.regionPtr.Some? then l.regionPtr.value else l.meta.region }

  function AfterRelease(l: Local): Local {
    Local(Closed(l.meta), l.queued, Some(Target(l)))
  }

  function ReleasedBlock(l: Local): Block { BlockOf(l.meta).(region := Target(l)) }

  /** GetRefCount; None when it throws because the region of a shared message cannot be found. */
  function RefCountSpec(cfg: Config, l: Local, counts: map<Cell, nat>): Option<nat> {
    if l.meta.handle < 0 then Some(1)
    else match CellOf(cfg, l.meta)
      case None => Some(1)
      case Some(c) => if l.meta.managed || l.meta.region in cfg.rc then Some(At(counts, c)) else None
  }

  /** Result of copying `src` into a closed `dst`: both messages and the counters. */
  datatype Copied = Copied(dst: Local, src: Local, counts: map<Cell, nat>, made: Option<Cell>)

  /**
   * The counter of a first copy is allocated in the manager's segment `home`, but both messages look for it
   * in the segment the target names.
   */
  function CopyLocal(
    cfg: Config, dst: Local, src: Local, counts: map<Cell, nat>, handle: int, home: nat): Copied
  {
    match CellOf(cfg, src.meta)
    case Some(c) =>
      var ptr := if src.meta.managed then dst.regionPtr else Some(src.meta.region);
      Copied(dst.(meta := src.meta, regionPtr := ptr), src, counts[c := Inc(At(counts, c))], None)
    case None =>
      var c := LazyCell(cfg, src.meta, home, handle);
      var seg := if c.Seg? then dst.meta.segment else src.meta.segment;
      var meta := src.meta.(shared := handle, segment := seg);
      Copied(dst.(meta := meta, regionPtr := Some(meta.region)), src.(meta := meta), counts[c := 2], Some(c))
  }

  // ---------------------------------------------------------------- the step relation

  predicate IsOpen(w: World, m: nat) { Msg(m) in w.slots && w.slots[Msg(m)].phase.Open? }

  predicate IsClosed(w: World, m: nat) { IsOpen(w, m) && w.slots[Msg(m)].local.meta.handle < 0 }

  predicate IsActive(w: World, m: nat) { Msg(m) in w.slots && Active(w.slots[Msg(m)]) }

  predicate HasManager(w: World, m: nat)
    requires Msg(m) in w.slots
  {
    w.slots[Msg(m)].proc in w.cfg.seg
  }

  /** The segment in which a message's manager allocates. */
  function Home(w: World, m: nat): nat
    requires Msg(m) in w.slots && HasManager(w, m)
  {
    w.cfg.seg[w.slots[Msg(m)].proc]
  }

  /**
   * What the code itself checks or does before a step: a message is closed before it is rebuilt, copied into
   * or destroyed; sizes are compared; a missing region throws; the allocator delivers a free place.
   * Copying a message onto itself (`src == m`) closes the source as well.
   */
  predicate Callable(w: World, op: Op) {
    match op
    case CreateEmpty(m, proc) => Msg(m) !in w.slots && proc in w.cfg.seg
    case CreateRegionMsg(m, proc, b) =>
      Msg(m) !in w.slots && proc in w.cfg.seg && b.region in w.cfg.rc && b.handle >= 0
    case Alloc(m, size, h) =>
      && IsClosed(w, m) && !w.slots[Msg(m)].local.queued && size > 0 && h >= 0
      && HasManager(w, m) && Seg(Home(w, m), h) !in w.counts
    case CopyInto(m, src, h) =>
      && IsClosed(w, m) && IsOpen(w, src) && h >= 0 && HasManager(w, m)
      && (var meta := w.slots[Msg(src)].local.meta;
          && (src == m || meta.handle >= 0) && (meta.managed || meta.region in w.cfg.rc)
          && (CellOf(w.cfg, meta).None? ==> LazyCell(w.cfg, meta, Home(w, m), h) !in w.counts))
    case Send(m, k) => IsOpen(w, m) && Flight(k) !in w.slots
    case Receive(m, k) => IsOpen(w, m) && Flight(k) in w.slots
    case CloseBegin(m) => IsOpen(w, m)
    case Free(m) => Msg(m) in w.slots && w.slots[Msg(m)].phase.MustFree?
    case Release(m) => Msg(m) in w.slots && w.slots[Msg(m)].phase.MustRelease?
    case Rebuild(m) => IsClosed(w, m)
    case Destroy(m) => IsClosed(w, m)
    case Resize(m, size) =>
      && IsOpen(w, m) && 0 < size < w.slots[Msg(m)].local.meta.size
      && w.slots[Msg(m)].local.meta.size < size + MIN_WASTE
    case Shrink(m, size) => IsOpen(w, m) && 0 < size < w.slots[Msg(m)].local.meta.size
    case Realloc(m, size, h) =>
      && IsOpen(w, m) && 0 < size && size + MIN_WASTE <= w.slots[Msg(m)].local.meta.size && h >= 0
      && HasManager(w, m) && Seg(Home(w, m), h) !in w.counts
    case Look(m) => IsOpen(w, m) && !w.slots[Msg(m)].local.meta.managed
  }

  /** A slot that holds the reference `s` carries: to the same allocation or creation. */
  predicate SameReference(cfg: Config, t: Slot, s: Slot) {
    var a, b := t.local.meta, s.local.meta;
    && Active(t) && CellOf(cfg, a) == CellOf(cfg, b) && a.managed == b.managed && t.origin == s.origin
    && (!a.managed ==> BlockOf(a) == BlockOf(b))
  }

  /** The place a message names in its segment. */
  function PlaceOf(meta: Meta): Cell { Seg(meta.segment, meta.handle) }

  /** The message does not see more than its buffer has. */
  predicate InExtent(extents: map<Cell, nat>, meta: Meta) {
    PlaceOf(meta) in extents && meta.size <= extents[PlaceOf(meta)]
  }

  /** Somebody else's view of the buffer at `c` that goes beyond `size`. */
  predicate SeesMore(q: Slot, c: Cell, size: nat) {
    Active(q) && q.local.meta.managed && PlaceOf(q.local.meta) == c && q.local.meta.size > size
  }

  /** The discipline the code relies on but does not check. */
  predicate Proper(w: World, op: Op)
    requires Callable(w, op)
  {
    match op
    // rebuild with a size only what is managed, in the manager's own segment
    case Alloc(m, _, _) =>
      w.slots[Msg(m)].local.meta.managed && w.slots[Msg(m)].local.meta.segment == Home(w, m)
    // two messages, the target not queued; for a counter that exists, somebody still holds the reference, its
    // buffer has not been shrunk below the source's size and there are fewer than 2^16 - 1 owners; otherwise the
    // source holds it and the target names its own segment
    case CopyInto(m, src, h) =>
      var d, s := w.slots[Msg(m)], w.slots[Msg(src)];
      && m != src && !d.local.queued
      && (match CellOf(w.cfg, s.local.meta)
          case Some(c) =>
            && At(w.counts, c) < U16 - 1 && (s.local.meta.managed ==> InExtent(w.extents, s.local.meta))
            && exists p | p in w.slots :: SameReference(w.cfg, w.slots[p], s)
          case None =>
            && Active(s)
            && (LazyCell(w.cfg, s.local.meta, Home(w, m), h).Seg? ==> d.local.meta.segment == Home(w, m)))
    // an initialised message is sent only once
    case Send(m, _) => w.slots[Msg(m)].local.queued ==> w.slots[Msg(m)].local.meta.handle < 0
    // receive into an empty message whose queued flag and cached region pointer do not get in the way
    case Receive(m, k) =>
      var l, f := w.slots[Msg(m)].local, w.slots[Flight(k)].local.meta;
      && !Active(w.slots[Msg(m)])
      && (f.handle >= 0 ==> !l.queued && RegionPtrFits(l.regionPtr, f))
    // a held region message keeps its size; the segment is only asked to shrink what somebody holds
    case Resize(m, _) =>
      var s := w.slots[Msg(m)];
      (Active(s) ==> s.local.meta.managed) && At(w.counts, PlaceOf(s.local.meta)) > 0
    // ... and the tail of a buffer goes back only when nobody else sees it
    case Shrink(m, size) =>
      var s := w.slots[Msg(m)];
      && (Active(s) ==> s.local.meta.managed) && At(w.counts, PlaceOf(s.local.meta)) > 0
      && forall q | q in w.slots && q != Msg(m) :: !SeesMore(w.slots[q], PlaceOf(s.local.meta), size)
    // shrink by reallocation only what is held, managed, in the manager's own segment and not shared
    case Realloc(m, _, _) =>
      var s := w.slots[Msg(m)];
      && Active(s) && s.local.meta.managed && s.local.meta.segment == Home(w, m)
      && At(w.counts, Seg(s.local.meta.segment, s.local.meta.handle)) == 1
    case _ => true
  }

  predicate Enabled(w: World, op: Op) { Callable(w, op) && Proper(w, op) }

  /** A message object may take over a header if its cached region pointer is unset or right. */
  predicate RegionPtrFits(ptr: Option<nat>, meta: Meta) {
    meta.managed || meta.handle < 0 || ptr.None? || ptr.value == meta.region
  }

  /** The message over a new buffer; a managed one refers to this allocation. */
  function Filled(w: World, s: Slot, size: nat, h: int): Slot {
    var meta := s.local.meta.(size := size, handle := h);
    s.(local := s.local.(meta := meta), origin := if meta.managed then |w.allocs| else s.origin)
  }

  /** The tail of the buffer at `c` goes back to the segment. */
  function Cut(extents: map<Cell, nat>, c: Cell, size: nat): map<Cell, nat> {
    if c in extents && size < extents[c] then extents[c := size] else extents
  }

  /** Asking the segment to shrink what is freed, or about to be, counts as freeing it once more. */
  function HandedBack(w: World, c: Cell): multiset<Cell> {
    if At(w.counts, c) > 0 then w.frees else w.frees + multiset{c}
  }

  function Put(w: World, m: nat, s: Slot): World { w.(slots := w.slots[Msg(m) := s]) }

  function Apply(w: World, op: Op): World
    requires Callable(w, op)
  {
    match op
    case CreateEmpty(m, proc) =>
      Put(w, m, Slot(Local(EmptyMeta(w.cfg.seg[proc]), false, None), proc, 0, Open))
    case CreateRegionMsg(m, proc, b) =>
      var meta := Meta(b.size, b.hint, b.handle, -1, b.region, w.cfg.seg[proc], false);
      Put(w, m, Slot(Local(meta, false, None), proc, |w.creations|, Open))
      .(creations := w.creations + [b])
    case Alloc(m, size, h) =>
      var s := w.slots[Msg(m)];
      var c := Seg(Home(w, m), h);
      Put(w, m, Filled(w, s, size, h))
      .(counts := w.counts[c := 1], extents := w.extents[c := size], allocs := w.allocs + multiset{c})
    case CopyInto(m, src, h) =>
      var d, s := w.slots[Msg(m)], w.slots[Msg(src)];
      var r := CopyLocal(w.cfg, d.local, s.local, w.counts, h, Home(w, m));
      var d' := d.(local := r.dst, origin := s.origin);
      w.(slots := w.slots[Msg(src) := s.(local := r.src)][Msg(m) := d'], counts := r.counts,
         allocs := if r.made.Some? then w.allocs + multiset{r.made.value} else w.allocs)
    case Send(m, k) =>
      var s := w.slots[Msg(m)];
      w.(slots := w.slots[Msg(m) := s.(local := s.local.(queued := true))]
                         [Flight(k) := s.(local := s.local.(queued := false, regionPtr := None))])
    case Receive(m, k) =>
      var s, f := w.slots[Msg(m)], w.slots[Flight(k)];
      w.(slots := (w.slots - {Flight(k)})
                  [Msg(m) := s.(local := s.local.(meta := f.local.meta), origin := f.origin)])
    case CloseBegin(m) =>
      var s := w.slots[Msg(m)];
      var d := Drop(w.cfg, s.local, w.counts);
      Put(w, m, s.(local := d.local, phase := d.phase)).(counts := d.counts)
    case Free(m) =>
      var s := w.slots[Msg(m)];
      var c := s.phase.cell;
      var s' := if s.local.meta.managed
                then s.(local := s.local.(meta := Closed(s.local.meta)), phase := Open)
                else s.(phase := MustRelease);
      Put(w, m, s').(counts := w.counts - {c}, frees := w.frees + multiset{c})
    case Release(m) =>
      var s := w.slots[Msg(m)];
      Put(w, m, s.(local := AfterRelease(s.local), phase := Open))
      .(returned := w.returned + [Returned(ReleasedBlock(s.local), s.proc, s.origin)])
    case Rebuild(m) =>
      var s := w.slots[Msg(m)];
      Put(w, m, s.(local := s.local.(queued := false)))
    case Destroy(m) => w.(slots := w.slots - {Msg(m)})
    case Resize(m, size) =>
      var s := w.slots[Msg(m)];
      Put(w, m, s.(local := s.local.(meta := s.local.meta.(size := size))))
      .(frees := HandedBack(w, PlaceOf(s.local.meta)))
    case Shrink(m, size) =>
      var s := w.slots[Msg(m)];
      Put(w, m, s.(local := s.local.(meta := s.local.meta.(size := size))))
      .(extents := Cut(w.extents, PlaceOf(s.local.meta), size), frees := HandedBack(w, PlaceOf(s.local.meta)))
    case Realloc(m, size, h) =>
      var s := w.slots[Msg(m)];
      var c, c1 := Seg(s.local.meta.segment, s.local.meta.handle), Seg(Home(w, m), h);
      Put(w, m, Filled(w, s, size, h))
      .(counts := (w.counts - {c})[c1 := 1], extents := w.extents[c1 := size],
        allocs := w.allocs + multiset{c1}, frees := w.frees + multiset{c})
    case Look(m) =>
      var s := w.slots[Msg(m)];
      var ptr := if s.local.meta.region in w.cfg.rc then Some(s.local.meta.region) else None;
      Put(w, m, s.(local := s.local.(regionPtr := ptr)))
  }

  function Init(cfg: Config): World {
    World(cfg, map[], map[], map[], [], [], multiset{}, multiset{})
  }

  predicate Valid(w: World, ops: seq<Op>)
    decreases |ops|
  {
    ops == [] || (Enabled(w, ops[0]) && Valid(Apply(w, ops[0]), ops[1..]))
  }

  function Exec(w: World, ops: seq<Op>): World
    requires Valid(w, ops)
    decreases |ops|
  {
    if ops == [] then w else Exec(Apply(w, ops[0]), ops[1..])
  }
}
