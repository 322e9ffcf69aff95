/** The invariant of the session: every counter equals the number of its holders. */
module OwnershipInvariant {
  import opened Arithmetic
  import opened Wrappers
  import opened Ownership
  import opened Counting

  /** Questions whose answers are counted over all slots. */
  datatype Query = Owns(cell: Cell) | Frees(cell: Cell) | Holds(origin: nat) | Owes(origin: nat)

  /** The counter a slot holds a unit of. */
  function Used(cfg: Config, s: Slot): Option<Cell> { if Active(s) then CellOf(cfg, s.local.meta) else None }

  /** The counter a slot is about to free. */
  function Doomed(s: Slot): Option<Cell> { if s.phase.MustFree? then Some(s.phase.cell) else None }

  /** The creation a slot holds. */
  function Held(s: Slot): Option<nat> {
    if Active(s) && !s.local.meta.managed then Some(s.origin) else None
  }

  /** The creation whose block a slot still has to return. */
  function Owed(s: Slot): Option<nat> {
    if !s.phase.Open? && !s.local.meta.managed then Some(s.origin) else None
  }

  predicate Sat(cfg: Config, s: Slot, q: Query) {
    match q
    case Owns(c) => Used(cfg, s) == Some(c)
    case Frees(c) => Doomed(s) == Some(c)
    case Holds(o) => Held(s) == Some(o)
    case Owes(o) => Owed(s) == Some(o)
  }

  function Test(cfg: Config, q: Query): Slot -> bool { s => Sat(cfg, s, q) }

  function Places(cfg: Config, slots: map<Place, Slot>, q: Query): set<Place> { Where(slots, Test(cfg, q)) }

  function N(w: World, q: Query): nat { |Places(w.cfg, w.slots, q)| }

  function SatAt(cfg: Config, slots: map<Place, Slot>, p: Place, q: Query): nat {
    Bit(p in slots && Sat(cfg, slots[p], q))
  }

  lemma PlacesPut(cfg: Config, slots: map<Place, Slot>, p: Place, s: Slot, q: Query)
    ensures |Places(cfg, slots[p := s], q)| == |Places(cfg, slots, q)| - SatAt(cfg, slots, p, q) + Bit(Sat(cfg, s, q))
  {
    WherePut(slots, p, s, Test(cfg, q));
  }

  lemma PlacesRemove(cfg: Config, slots: map<Place, Slot>, p: Place, q: Query)
    ensures |Places(cfg, slots - {p}, q)| == |Places(cfg, slots, q)| - SatAt(cfg, slots, p, q)
  {
    WhereRemove(slots, p, Test(cfg, q));
  }

  function Times(rs: seq<Returned>, o: nat): nat {
    if rs == [] then 0 else Times(rs[..|rs| - 1], o) + Bit(rs[|rs| - 1].origin == o)
  }

  // ---------------------------------------------------------------- the invariant

  predicate SlotCovered(cfg: Config, counts: map<Cell, nat>, s: Slot) {
    && (Used(cfg, s).Some? ==> Used(cfg, s).value in counts)
    && (Doomed(s).Some? ==> Doomed(s).value in counts)
  }

  /** No slot names a counter that does not exist. */
  ghost predicate Covered(w: World) {
    forall p | p in w.slots ::
      SlotCovered(w.cfg, w.counts, w.slots[p])
  }

  /** Each counter equals the number of its holders; at zero exactly one message is about to free it. */
  ghost predicate Counted(w: World) {
    forall c | c in w.counts ::
      && w.counts[c] == N(w, Owns(c)) < U16
      && N(w, Frees(c)) == Bit(w.counts[c] == 0)
  }

  /** Each creation is held, or owed by one message, or returned once: exactly one of the three. */
  ghost predicate Exclusive(w: World) {
    forall o: nat | o < |w.creations| ::
      Bit(N(w, Holds(o)) > 0) + N(w, Owes(o)) + Times(w.returned, o) == 1
  }

  predicate Faithful(w: World, s: Slot) {
    && (s.phase.Open? || (s.local.meta.handle >= 0 && !s.local.queued))
    && (s.phase.MustRelease? ==> !s.local.meta.managed)
    && (!s.local.meta.managed && (Active(s) || !s.phase.Open?) ==>
          && s.origin < |w.creations|
          && BlockOf(s.local.meta) == w.creations[s.origin]
          && s.local.meta.region in w.cfg.rc
          && RegionPtrFits(s.local.regionPtr, s.local.meta))
    && (s.local.meta.managed && Active(s) ==> InExtent(w.extents, s.local.meta))
  }

  ghost predicate AllFaithful(w: World) {
    && (forall p | p in w.slots :: Faithful(w, w.slots[p]))
    && (forall k | Flight(k) in w.slots :: w.slots[Flight(k)].phase.Open? && !w.slots[Flight(k)].local.queued)
  }

  /**
   * A region holder's counter is shared by the holders of the same creation and by nothing else; a managed buffer is
   * shared only by references to the same allocation.
   */
  predicate PairOk(cfg: Config, s: Slot, t: Slot) {
    if t.local.meta.managed then
      CellOf(cfg, s.local.meta) == CellOf(cfg, t.local.meta) ==> s.local.meta.managed && s.origin == t.origin
    else match CellOf(cfg, t.local.meta)
    case Some(c) => (CellOf(cfg, s.local.meta) == Some(c)) == (!s.local.meta.managed && s.origin == t.origin)
    case None => s.local.meta.managed || s.origin != t.origin
  }

  ghost predicate Paired(w: World) {
    forall p, q | p in w.slots && q in w.slots && p != q ::
      Active(w.slots[p]) && Active(w.slots[q]) ==> PairOk(w.cfg, w.slots[p], w.slots[q])
  }

  /** Each cell was freed as often as it was allocated, but for one if it exists now. */
  ghost predicate Balanced(w: World) {
    forall c :: w.allocs[c] == w.frees[c] + Bit(c in w.counts)
  }

  predicate ReturnOk(w: World, r: Returned) {
    r.origin < |w.creations| && r.block == w.creations[r.origin]
  }

  ghost predicate ReturnsOk(w: World) {
    forall i | 0 <= i < |w.returned| :: ReturnOk(w, w.returned[i])
  }

  ghost predicate Shape(w: World) { Covered(w) && AllFaithful(w) && Paired(w) }

  ghost predicate Logged(w: World) { Balanced(w) && ReturnsOk(w) }

  ghost predicate Inv(w: World) {
    Shape(w) && Counted(w) && Exclusive(w) && Logged(w)
  }

  lemma InitInv(cfg: Config)
    ensures Inv(Init(cfg))
  {
  }
}
