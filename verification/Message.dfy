/**
 * The message object: fields updated in place, counters in shared memory.
 *
 * Every method is specified by functions on values; the module MessageRuns shows that those functions
 * are runs of the session machine in which no other process takes a step in between.
 */
module Message {
  import opened Wrappers
  import opened Ownership

  // ---------------------------------------------------------------- specification

  /** Outcome of a call: whether it returned normally, both messages' fields, the counters, the acks sent. */
  datatype Outcome = Outcome(ok: bool, local: Local, counts: map<Cell, nat>, acks: seq<Block>)

  /** ReleaseUnmanagedRegionBlock: without a region to talk to, the block is silently kept. */
  function ReleaseSpec(cfg: Config, l: Local, counts: map<Cell, nat>): Outcome {
    if Target(l) in cfg.rc then Outcome(true, AfterRelease(l), counts, [ReleasedBlock(l)])
    else Outcome(true, l.(meta := Closed(l.meta)), counts, [])
  }

  /** Deallocate; it throws when the region of a shared message cannot be found. */
  function CloseSpec(cfg: Config, l: Local, counts: map<Cell, nat>): Outcome {
    if l.meta.handle >= 0 && !l.queued && !l.meta.managed && l.meta.shared >= 0 && l.meta.region !in cfg.rc then
      Outcome(false, l.(regionPtr := None), counts, [])
    else
      var d := Drop(cfg, l, counts);
      match d.phase
      case Open => Outcome(true, d.local, d.counts, [])
      case MustFree(c) =>
        if l.meta.managed then Outcome(true, d.local.(meta := Closed(l.meta)), d.counts - {c}, [])
        else ReleaseSpec(cfg, d.local, d.counts - {c})
      case MustRelease => ReleaseSpec(cfg, d.local, d.counts)
  }

  /** Copy closes an initialised target even when the copy then fails. */
  function CopyTarget(cfg: Config, dst: Local, src: Local, counts: map<Cell, nat>): Outcome {
    if src.meta.handle < 0 || dst.meta.handle >= 0 then CloseSpec(cfg, dst, counts)
    else Outcome(true, dst, counts, [])
  }

  /** The copy proper is attempted, and the allocator delivers a place for the counter if one is needed. */
  predicate CopyProceeds(cfg: Config, src: Local, place: Option<nat>) {
    && (src.meta.managed || src.meta.region in cfg.rc)
    && (CellOf(cfg, src.meta).None? ==> place.Some?)
  }

  function PlaceOr0(place: Option<nat>): nat { if place.Some? then place.value else 0 }

  /** The fields describe the same bytes: of the same size and hint, in the same buffer of the same kind. */
  predicate SameBuffer(a: Meta, b: Meta) {
    && a.size == b.size && a.hint == b.hint && a.handle == b.handle && a.region == b.region && a.managed == b.managed
    && (a.managed ==> a.segment == b.segment)
  }

  /** A copy shows the source's buffer, whole and in its place, and so does the source; both keep their flags. */
  lemma CopyShows(cfg: Config, dst: Local, src: Local, counts: map<Cell, nat>, handle: int, home: nat)
    ensures var r := CopyLocal(cfg, dst, src, counts, handle, home);
            && SameBuffer(r.dst.meta, src.meta) && SameBuffer(r.src.meta, src.meta)
            && r.dst.meta.shared == r.src.meta.shared && r.dst.meta.segment == r.src.meta.segment
            && r.dst.queued == dst.queued && r.src.queued == src.queued && r.src.regionPtr == src.regionPtr
            && (!src.meta.managed ==> r.dst.regionPtr == Some(src.meta.region))
  {
  }

  /** InitializeChunk: a fresh counter at one in the manager's segment, if the allocator finds a place. */
  function ChunkSpec(l: Local, counts: map<Cell, nat>, home: nat, size: nat, place: Option<nat>): Outcome {
    if size == 0 then Outcome(true, l.(meta := l.meta.(size := 0)), counts, [])
    else match place
      case None => Outcome(false, l, counts, [])
      case Some(h) =>
        Outcome(true, l.(meta := l.meta.(size := size, handle := h)), counts[Seg(home, h) := 1], [])
  }

  /** SetUsedSize; `inPlace` says whether the segment can shrink the buffer where it is. */
  function UsedSizeSpec(
    cfg: Config, l: Local, counts: map<Cell, nat>, home: nat, newSize: nat, inPlace: bool, place: Option<nat>): Outcome
  {
    if newSize == l.meta.size then Outcome(true, l, counts, [])
    else if newSize == 0 then CloseSpec(cfg, l, counts)
    else if newSize > l.meta.size then Outcome(false, l, counts, [])
    else if inPlace || l.meta.size - newSize < MIN_WASTE then
      Outcome(true, l.(meta := l.meta.(size := newSize)), counts, [])
    else match place
      case None => Outcome(false, l, counts, [])
      case Some(h) =>
        Outcome(true, l.(meta := l.meta.(size := newSize, handle := h)),
                counts[Seg(home, h) := 1] - {Seg(l.meta.segment, l.meta.handle)}, [])
  }

  /** What the segment holds for the buffer after InitializeChunk. */
  function ChunkExtents(extents: map<Cell, nat>, home: nat, size: nat, place: Option<nat>): map<Cell, nat> {
    if size == 0 || place.None? then extents else extents[Seg(home, place.value) := size]
  }

  /** ... and after SetUsedSize: only shrinking in place hands a tail back. */
  function UsedSizeExtents(
    l: Local, extents: map<Cell, nat>, home: nat, newSize: nat, inPlace: bool, place: Option<nat>): map<Cell, nat>
  {
    if newSize == 0 || newSize >= l.meta.size then extents
    else if inPlace then Cut(extents, PlaceOf(l.meta), newSize)
    else if l.meta.size - newSize < MIN_WASTE || place.None? then extents
    else extents[Seg(home, place.value) := newSize]
  }

  /** A message that has been sent: it keeps its fields but gives up the reference. */
  function SentLocal(l: Local): Local { l.(queued := true) }

  /** A message that takes over a received header; its own flags stay. */
  function ReceivedLocal(l: Local, meta: Meta): Local { l.(meta := meta) }

  /** A message made from a received header. */
  function NewLocal(meta: Meta): Local { Local(meta, false, None) }

  // ---------------------------------------------------------------- the objects

  /** The part of the session a manager shares with everybody else. */
  class Store {
    const cfg: Config
    var counts: map<Cell, nat>
    var extents: map<Cell, nat>
    var acks: seq<Block>

    constructor (cfg: Config)
      ensures this.cfg == cfg && counts == map[] && extents == map[] && acks == []
    {
      this.cfg := cfg;
      counts, extents, acks := map[], map[], [];
    }
  }

  class ShmMessage {
    const shm: Store
    const segment: nat    // the managed segment of this message's manager
    var fSize: nat
    var fHint: nat
    var fHandle: int
    var fShared: int
    var fRegionId: nat
    var fSegmentId: nat
    var fManaged: bool
    var fQueued: bool
    var fRegionPtr: Option<nat>

    function Fields(): Meta
      reads this
    {
      Meta(fSize, fHint, fHandle, fShared, fRegionId, fSegmentId, fManaged)
    }

    ghost function View(): Local
      reads this
    {
      Local(Fields(), fQueued, fRegionPtr)
    }

    constructor Empty(shm: Store, segment: nat)
      ensures this.shm == shm && this.segment == segment && View() == Local(EmptyMeta(segment), false, None)
      ensures Fields() == Meta(0, 0, -1, -1, 0, segment, true)
    {
      this.shm, this.segment := shm, segment;
      fSize, fHint, fHandle, fShared, fRegionId, fSegmentId := 0, 0, -1, -1, 0, segment;
      fManaged, fQueued, fRegionPtr := true, false, None;
    }

    /** A message over a block of a region, `data` bytes from its start. */
    constructor InRegion(shm: Store, segment: nat, b: Block)
      ensures this.shm == shm && this.segment == segment
      ensures View() == Local(Meta(b.size, b.hint, b.handle, -1, b.region, segment, false), false, None)
    {
      this.shm, this.segment := shm, segment;
      fSize, fHint, fHandle, fShared, fRegionId, fSegmentId := b.size, b.hint, b.handle, -1, b.region, segment;
      fManaged, fQueued, fRegionPtr := false, false, None;
    }

    /** A message received as one part of many. */
    constructor FromMeta(shm: Store, segment: nat, meta: Meta)
      ensures this.shm == shm && this.segment == segment && View() == NewLocal(meta)
    {
      this.shm, this.segment := shm, segment;
      fSize, fHint, fHandle, fShared := meta.size, meta.hint, meta.handle, meta.shared;
      fRegionId, fSegmentId, fManaged := meta.region, meta.segment, meta.managed;
      fQueued, fRegionPtr := false, None;
    }

    /** Overwrites the metadata; the queued flag and the cached region pointer stay as they are. */
    method SetMeta(meta: Meta)
      modifies this
      ensures View() == ReceivedLocal(old(View()), meta)
    {
      fSize, fHint, fHandle, fShared := meta.size, meta.hint, meta.handle, meta.shared;
      fRegionId, fSegmentId, fManaged := meta.region, meta.segment, meta.managed;
    }

    /** Allocates a buffer in the manager's segment; `place` is where the allocator puts it, if it can. */
    method InitializeChunk(size: nat, place: Option<nat>) returns (ok: bool)
      modifies this, shm`counts, shm`extents
      ensures var r := ChunkSpec(old(View()), old(shm.counts), segment, size, place);
              ok == r.ok && View() == r.local && shm.counts == r.counts
      ensures shm.extents == ChunkExtents(old(shm.extents), segment, size, place)
      ensures ok <==> size == 0 || place.Some?
      ensures ok ==> fSize == size
      ensures ok && size > 0 ==> fHandle == place.value && At(shm.counts, Seg(segment, fHandle)) == 1
      ensures fManaged == old(fManaged) && fSegmentId == old(fSegmentId) && fQueued == old(fQueued)
    {
      ok := true;
      if size == 0 {
        fSize := 0;
      } else if place.Some? {
        shm.counts := shm.counts[Seg(segment, place.value) := 1];
        shm.extents := shm.extents[Seg(segment, place.value) := size];
        fHandle, fSize := place.value, size;
      } else {
        ok := false;
      }
    }

    method ReleaseUnmanagedRegionBlock()
      modifies this`fRegionPtr, shm`acks
      ensures var r := ReleaseSpec(shm.cfg, old(View()), shm.counts);
              && View() == r.local.(meta := old(Fields()))
              && shm.acks == old(shm.acks) + r.acks
      ensures var to := if old(fRegionPtr).Some? then old(fRegionPtr).value else fRegionId;
              shm.acks == old(shm.acks) + if to in shm.cfg.rc then [Block(to, fHandle, fSize, fHint)] else []
    {
      if fRegionPtr.None? && fRegionId in shm.cfg.rc {
        fRegionPtr := Some(fRegionId);
      }
      if fRegionPtr.Some? && fRegionPtr.value in shm.cfg.rc {
        shm.acks := shm.acks + [Block(fRegionPtr.value, fHandle, fSize, fHint)];
      }
    }

    method Deallocate() returns (ok: bool)
      modifies this, shm`counts, shm`acks
      ensures var r := CloseSpec(shm.cfg, old(View()), old(shm.counts));
              && ok == r.ok && View() == r.local && shm.counts == r.counts
              && shm.acks == old(shm.acks) + r.acks
      ensures !ok <==> old(fHandle >= 0 && !fQueued && !fManaged && fShared >= 0 && fRegionId !in shm.cfg.rc)
      ensures !ok ==> Fields() == old(Fields()) && shm.counts == old(shm.counts) && shm.acks == old(shm.acks)
      ensures ok ==> Fields() == old(Fields()).(handle := -1, size := 0)
      ensures fQueued == old(fQueued) && (old(fHandle) < 0 || fQueued ==> shm.counts == old(shm.counts))
    {
      ok := true;
      if fHandle >= 0 && !fQueued {
        if fManaged {
          var c := Seg(fSegmentId, fHandle);
          var refCount := At(shm.counts, c);
          shm.counts := shm.counts[c := Dec(refCount)];
          if refCount == 1 {
            shm.counts := shm.counts - {c};
          }
        } else if fShared >= 0 {
          fRegionPtr := if fRegionId in shm.cfg.rc then Some(fRegionId) else None;
          if fRegionPtr.None? {
            ok := false;
            return;
          }
          var c := if shm.cfg.rc[fRegionId] > 0 then Rc(fRegionId, fShared) else Seg(fSegmentId, fShared);
          var refCount := At(shm.counts, c);
          shm.counts := shm.counts[c := Dec(refCount)];
          if refCount == 1 {
            shm.counts := shm.counts - {c};
            ReleaseUnmanagedRegionBlock();
          }
        } else {
          ReleaseUnmanagedRegionBlock();
        }
      }
      fHandle, fSize := -1, 0;
    }

    /** Rebuild without a size: close and clear the queued flag. */
    method Rebuild() returns (ok: bool)
      modifies this, shm`counts, shm`acks
      ensures var r := CloseSpec(shm.cfg, old(View()), old(shm.counts));
              && ok == r.ok && shm.counts == r.counts && shm.acks == old(shm.acks) + r.acks
              && View() == (if ok then r.local.(queued := false) else r.local)
    {
      ok := Deallocate();
      if ok { fQueued := false; }
    }

    /** Looking up the region of a shared message also refreshes the cached pointer. */
    method GetRefCount() returns (n: Option<nat>)
      modifies this`fRegionPtr
      ensures n == RefCountSpec(shm.cfg, old(View()), shm.counts)
      ensures View() == old(View()).(regionPtr := fRegionPtr)
      ensures fRegionPtr == if fHandle < 0 || fManaged || fShared < 0 then old(fRegionPtr)
                            else if fRegionId in shm.cfg.rc then Some(fRegionId) else None
    {
      if fHandle < 0 { return Some(1); }
      if fManaged { return Some(At(shm.counts, Seg(fSegmentId, fHandle))); }
      if fShared < 0 { return Some(1); }
      fRegionPtr := if fRegionId in shm.cfg.rc then Some(fRegionId) else None;
      if fRegionPtr.None? { return None; }
      if shm.cfg.rc[fRegionId] > 0 { return Some(At(shm.counts, Rc(fRegionId, fShared))); }
      return Some(At(shm.counts, Seg(fSegmentId, fShared)));
    }

    /** The part of Copy that touches shared memory: one more unit for `other`'s counter. */
    method AddOwner(other: ShmMessage, place: Option<nat>) returns (ok: bool)
      requires other.shm == shm
      modifies this`fRegionPtr, other`fShared, other`fSegmentId, shm`counts
      ensures ok == CopyProceeds(shm.cfg, old(other.View()), place)
      ensures ok <==> old(other.fManaged || (other.fRegionId in shm.cfg.rc && (other.fShared >= 0 || place.Some?)))
      ensures !ok ==> other.Fields() == old(other.Fields()) && shm.counts == old(shm.counts)
      ensures ok ==>
        var r := CopyLocal(shm.cfg, old(View()), old(other.View()), old(shm.counts), PlaceOr0(place), segment);
        fRegionPtr == r.dst.regionPtr && other.Fields() == r.src.meta && shm.counts == r.counts
      ensures other != this ==> Fields() == old(Fields()) && other.fRegionPtr == old(other.fRegionPtr)
      ensures fQueued == old(fQueued) && other.fQueued == old(other.fQueued)
    {
      ok := true;
      if other.fManaged {
        var c := Seg(other.fSegmentId, other.fHandle);
        shm.counts := shm.counts[c := Inc(At(shm.counts, c))];
      } else {
        fRegionPtr := if other.fRegionId in shm.cfg.rc then Some(other.fRegionId) else None;
        if fRegionPtr.None? { ok := false; return; }
        if shm.cfg.rc[other.fRegionId] > 0 {
          if other.fShared < 0 {
            if place.None? { ok := false; return; }
            other.fShared := place.value;
            shm.counts := shm.counts[Rc(other.fRegionId, other.fShared) := 2];
          } else {
            var c := Rc(other.fRegionId, other.fShared);
            shm.counts := shm.counts[c := Inc(At(shm.counts, c))];
          }
        } else {
          if other.fShared < 0 {
            if place.None? { ok := false; return; }
            var c := Seg(segment, place.value);
            shm.counts := shm.counts[c := 1];
            other.fShared, other.fSegmentId := place.value, fSegmentId;
            shm.counts := shm.counts[c := Inc(shm.counts[c])];
          } else {
            var c := Seg(other.fSegmentId, other.fShared);
            shm.counts := shm.counts[c := Inc(At(shm.counts, c))];
          }
        }
      }
    }

    /** Closes an initialised target; an uninitialised source closes the target as well. */
    method CloseFor(other: ShmMessage) returns (ok: bool)
      requires other.shm == shm
      modifies this, shm`counts, shm`acks
      ensures var t := CopyTarget(shm.cfg, old(View()), old(other.View()), old(shm.counts));
              ok == t.ok && View() == t.local && shm.counts == t.counts && shm.acks == old(shm.acks) + t.acks
    {
      ok := true;
      if other.fHandle < 0 || fHandle >= 0 { ok := Deallocate(); }
    }

    /** The copy proper: the counter, then all fields but the flags. */
    method CopyFrom(other: ShmMessage, place: Option<nat>) returns (ok: bool)
      requires other.shm == shm
      modifies this, other`fShared, other`fSegmentId, shm`counts
      ensures ok == CopyProceeds(shm.cfg, old(other.View()), place)
      ensures !ok ==>
        Fields() == old(Fields()) && other.Fields() == old(other.Fields()) && shm.counts == old(shm.counts)
      ensures ok ==>
        var r := CopyLocal(shm.cfg, old(View()), old(other.View()), old(shm.counts), PlaceOr0(place), segment);
        View() == r.dst && other.Fields() == r.src.meta && shm.counts == r.counts
      ensures other != this ==> other.View() == old(other.View()).(meta := other.Fields())
    {
      ok := AddOwner(other, place);
      if !ok { return; }
      fSize, fHint, fHandle, fShared := other.fSize, other.fHint, other.fHandle, other.fShared;
      fRegionId, fSegmentId, fManaged := other.fRegionId, other.fSegmentId, other.fManaged;
    }

    /**
     * Makes this message a further owner of `other`'s buffer; creates the counter if there is none.
     * A message copied onto itself has been closed by then.
     */
    method Copy(other: ShmMessage, place: Option<nat>) returns (ok: bool)
      requires other.shm == shm
      modifies this, other`fShared, other`fSegmentId, shm`counts, shm`acks
      ensures var dst, src, cs := old(View()), old(other.View()), old(shm.counts);
              var t := CopyTarget(shm.cfg, dst, src, cs);
              var from := if other == this then t.local else src;
              && shm.acks == old(shm.acks) + t.acks
              && (!t.ok || src.meta.handle < 0 ==>
                    ok == t.ok && View() == t.local && other.View() == from && shm.counts == t.counts)
              && (t.ok && src.meta.handle >= 0 ==>
                    && ok == CopyProceeds(shm.cfg, from, place)
                    && (!ok ==> Fields() == t.local.meta && other.Fields() == from.meta && shm.counts == t.counts)
                    && (ok ==>
                          var r := CopyLocal(shm.cfg, t.local, from, t.counts, PlaceOr0(place), segment);
                          View() == r.dst && other.Fields() == r.src.meta && shm.counts == r.counts))
      ensures other != this ==> other.View() == old(other.View()).(meta := other.Fields())
    {
      var empty := other.fHandle < 0;
      ok := CloseFor(other);
      if !ok || empty { return; }
      ok := CopyFrom(other, place);
    }

    /** Shrinks the message; one that wastes at least a million bytes and cannot shrink in place moves to `place`. */
    method SetUsedSize(newSize: nat, inPlace: bool, place: Option<nat>) returns (ok: bool)
      modifies this, shm
      ensures var r := UsedSizeSpec(shm.cfg, old(View()), old(shm.counts), segment, newSize, inPlace, place);
              ok == r.ok && View() == r.local && shm.counts == r.counts && shm.acks == old(shm.acks) + r.acks
      ensures shm.extents == UsedSizeExtents(old(View()), old(shm.extents), segment, newSize, inPlace, place)
      ensures newSize == old(fSize) ==> ok && View() == old(View()) && shm.counts == old(shm.counts)
      ensures newSize > old(fSize) ==> !ok && View() == old(View()) && shm.counts == old(shm.counts)
      ensures newSize == 0 < old(fSize) ==>
        var r := CloseSpec(shm.cfg, old(View()), old(shm.counts));
        ok == r.ok && View() == r.local && shm.counts == r.counts && shm.acks == old(shm.acks) + r.acks
      ensures 0 < newSize < old(fSize) ==> if ok then fSize == newSize else View() == old(View())
      ensures 0 < newSize < old(fSize) ==>
        (ok <==> inPlace || old(fSize) < newSize + 1_000_000 || place.Some?)
    {
      ok := true;
      if newSize == fSize {
      } else if newSize == 0 {
        ok := Deallocate();
      } else if newSize <= fSize {
        if inPlace {
          shm.extents := Cut(shm.extents, Seg(fSegmentId, fHandle), newSize);
        } else if fSize - newSize >= MIN_WASTE {
          if place.None? { ok := false; return; }
          shm.counts := shm.counts[Seg(segment, place.value) := 1];
          shm.extents := shm.extents[Seg(segment, place.value) := newSize];
          shm.counts := shm.counts - {Seg(fSegmentId, fHandle)};
          fHandle := place.value;
        }
        fSize := newSize;
      } else {
        ok := false;
      }
    }
  }
}
