/**
 * The thread-local cache in front of a manager's region map.
 *
 * One generation number is shared by all managers of the process.  Creating or removing a region and
 * destroying a manager advance it; opening a view of a remote region does not.
 */
module RegionCache {
  import opened Wrappers

  /** A cached answer: the region, or the null pointer, for an id in a session. */
  datatype Entry = Entry(region: Option<nat>, id: nat, shm: nat)

  datatype Cache = Cache(gen: nat, entries: seq<Entry>)

  /** The region maps of the managers that exist, one per session, and the shared generation. */
  datatype Managers = Managers(regions: map<nat, map<nat, nat>>, gen: nat)

  datatype World = World(mgrs: Managers, caches: map<nat, Cache>)

  datatype Step =
    | NewManager(shm: nat)
    | DropManager(shm: nat)
    | Create(shm: nat, id: nat, region: nat)   // CreateRegion: a new region, or promotion of a view
    | Remove(shm: nat, id: nat)                // RemoveRegion, of an id that may be unknown
    | OpenView(shm: nat, id: nat, region: nat) // GetRegionInfo opens a view of a remote region
    | Lookup(thread: nat, shm: nat, id: nat, remote: Option<nat>)

  // ---------------------------------------------------------------- lookup

  predicate Matches(e: Entry, id: nat, shm: nat) { e.id == id && e.shm == shm }

  /** The first entry for an id, if there is one. */
  function Find(es: seq<Entry>, id: nat, shm: nat): Option<Entry> {
    if es == [] then None else if Matches(es[0], id, shm) then Some(es[0]) else Find(es[1..], id, shm)
  }

  function WithRegion(regions: map<nat, nat>, id: nat, region: nat): map<nat, nat> { regions[id := region] }

  /** GetRegion: the map's entry, else a view of the remote region if it can be opened. */
  function GetRegion(regions: map<nat, nat>, id: nat, remote: Option<nat>): Option<nat> {
    if id in regions then Some(regions[id]) else remote
  }

  function AfterGetRegion(regions: map<nat, nat>, id: nat, remote: Option<nat>): map<nat, nat> {
    if id in regions || remote.None? then regions else WithRegion(regions, id, remote.value)
  }

  predicate Hit(c: Cache, gen: nat, id: nat, shm: nat) { c.gen == gen && Find(c.entries, id, shm).Some? }

  function Result(c: Cache, m: Managers, shm: nat, id: nat, remote: Option<nat>): Option<nat>
    requires shm in m.regions
  {
    if Hit(c, m.gen, id, shm) then Find(c.entries, id, shm).value.region
    else GetRegion(m.regions[shm], id, remote)
  }

  function CacheAfter(c: Cache, m: Managers, shm: nat, id: nat, remote: Option<nat>): Cache
    requires shm in m.regions
  {
    if Hit(c, m.gen, id, shm) then c
    else
      var kept := if c.gen != m.gen then [] else c.entries;
      Cache(m.gen, kept + [Entry(GetRegion(m.regions[shm], id, remote), id, shm)])
  }

  function ManagersAfter(c: Cache, m: Managers, shm: nat, id: nat, remote: Option<nat>): Managers
    requires shm in m.regions
  {
    if Hit(c, m.gen, id, shm) then m
    else m.(regions := m.regions[shm := AfterGetRegion(m.regions[shm], id, remote)])
  }

  class RegionTable {
    var regions: map<nat, map<nat, nat>>
    var gen: nat

    ghost function View(): Managers
      reads this
    {
      Managers(regions, gen)
    }

    constructor ()
      ensures View() == Managers(map[], 0)
    {
      regions, gen := map[], 0;
    }
  }

  class ThreadCache {
    var gen: nat
    var entries: seq<Entry>

    ghost function View(): Cache
      reads this
    {
      Cache(gen, entries)
    }

    constructor ()
      ensures View() == Cache(0, [])
    {
      gen, entries := 0, [];
    }

    method GetRegionFromCache(table: RegionTable, shm: nat, id: nat, remote: Option<nat>) returns (r: Option<nat>)
      requires shm in table.regions
      modifies this, table
      ensures r == Result(old(View()), old(table.View()), shm, id, remote)
      ensures View() == CacheAfter(old(View()), old(table.View()), shm, id, remote)
      ensures table.View() == ManagersAfter(old(View()), old(table.View()), shm, id, remote)
    {
      // fast path
      var i := 0;
      while i < |entries|
        invariant 0 <= i <= |entries| && View() == old(View()) && table.View() == old(table.View())
        invariant gen == table.gen ==> Find(entries, id, shm) == Find(entries[i..], id, shm)
      {
        if entries[i].id == id && gen == table.gen && entries[i].shm == shm {
          return entries[i].region;
        }
        i := i + 1;
      }
      // slow path
      if gen != table.gen { entries := []; }
      if id in table.regions[shm] {
        r := Some(table.regions[shm][id]);
      } else if remote.Some? {
        table.regions := table.regions[shm := WithRegion(table.regions[shm], id, remote.value)];
        r := remote;
      } else {
        r := None;
      }
      entries := entries + [Entry(r, id, shm)];
      gen := table.gen;
      assert table.regions[shm := table.regions[shm]] == table.regions;
    }
  }

  // ---------------------------------------------------------------- runs

  predicate Enabled(w: World, s: Step) {
    match s
    case NewManager(shm) => shm !in w.mgrs.regions
    case DropManager(shm) => shm in w.mgrs.regions
    case Create(shm, id, region) =>
      shm in w.mgrs.regions && (id in w.mgrs.regions[shm] ==> region == w.mgrs.regions[shm][id])
    case Remove(shm, _) => shm in w.mgrs.regions
    case OpenView(shm, id, _) => shm in w.mgrs.regions && id !in w.mgrs.regions[shm]
    case Lookup(_, shm, _, _) => shm in w.mgrs.regions
  }

  function CacheOf(w: World, thread: nat): Cache { if thread in w.caches then w.caches[thread] else Cache(0, []) }

  function Apply(w: World, s: Step): World
    requires Enabled(w, s)
  {
    var m := w.mgrs;
    match s
    case NewManager(shm) => w.(mgrs := m.(regions := m.regions[shm := map[]]))
    case DropManager(shm) => w.(mgrs := Managers(m.regions - {shm}, m.gen + 1))
    case Create(shm, id, region) =>
      w.(mgrs := Managers(m.regions[shm := WithRegion(m.regions[shm], id, region)], m.gen + 1))
    case Remove(shm, id) => w.(mgrs := Managers(m.regions[shm := m.regions[shm] - {id}], m.gen + 1))
    case OpenView(shm, id, region) =>
      w.(mgrs := m.(regions := m.regions[shm := WithRegion(m.regions[shm], id, region)]))
    case Lookup(t, shm, id, remote) =>
      World(ManagersAfter(CacheOf(w, t), m, shm, id, remote),
            w.caches[t := CacheAfter(CacheOf(w, t), m, shm, id, remote)])
  }

  const INIT: World := World(Managers(map[], 0), map[])

  predicate Valid(w: World, steps: seq<Step>)
    decreases |steps|
  {
    steps == [] || (Enabled(w, steps[0]) && Valid(Apply(w, steps[0]), steps[1..]))
  }

  function Exec(w: World, steps: seq<Step>): World
    requires Valid(w, steps)
    decreases |steps|
  {
    if steps == [] then w else Exec(Apply(w, steps[0]), steps[1..])
  }

  // ---------------------------------------------------------------- agreement with the map

  /** A cached region is the one the manager's map holds. */
  predicate Fresh(e: Entry, m: Managers) {
    e.region.Some? ==> e.shm in m.regions && e.id in m.regions[e.shm] && m.regions[e.shm][e.id] == e.region.value
  }

  ghost predicate CacheOk(c: Cache, m: Managers) {
    c.gen <= m.gen && (c.gen == m.gen ==> forall i | 0 <= i < |c.entries| :: Fresh(c.entries[i], m))
  }

  ghost predicate Inv(w: World) { forall t | t in w.caches :: CacheOk(w.caches[t], w.mgrs) }

  lemma {:induction false} FindFresh(es: seq<Entry>, m: Managers, id: nat, shm: nat)
    requires forall i | 0 <= i < |es| :: Fresh(es[i], m)
    ensures var f := Find(es, id, shm); f.Some? ==> Fresh(f.value, m) && Matches(f.value, id, shm)
  {
    if es != [] && !Matches(es[0], id, shm) { FindFresh(es[1..], m, id, shm); }
  }

  /** The step keeps every current entry true: it advances the generation or only adds regions. */
  lemma OthersOk(c: Cache, m: Managers, m1: Managers)
    requires CacheOk(c, m)
    requires m1.gen > m.gen || (m1.gen == m.gen && forall shm, id | shm in m.regions && id in m.regions[shm] ::
      shm in m1.regions && id in m1.regions[shm] && m1.regions[shm][id] == m.regions[shm][id])
    ensures CacheOk(c, m1)
  {
    if m1.gen == m.gen && c.gen == m.gen {
      forall i | 0 <= i < |c.entries| ensures Fresh(c.entries[i], m1) { assert Fresh(c.entries[i], m); }
    }
  }

  lemma LookupOk(c: Cache, m: Managers, shm: nat, id: nat, remote: Option<nat>)
    requires CacheOk(c, m) && shm in m.regions
    ensures CacheOk(CacheAfter(c, m, shm, id, remote), ManagersAfter(c, m, shm, id, remote))
    ensures var r, m1 := Result(c, m, shm, id, remote), ManagersAfter(c, m, shm, id, remote);
            r.Some? ==> shm in m1.regions && id in m1.regions[shm] && m1.regions[shm][id] == r.value
  {
    if Hit(c, m.gen, id, shm) {
      FindFresh(c.entries, m, id, shm);
    } else {
      OthersOk(c, m, ManagersAfter(c, m, shm, id, remote));
    }
  }

  lemma StepInv(w: World, s: Step)
    requires Inv(w) && Enabled(w, s)
    ensures Inv(Apply(w, s))
  {
    var w1 := Apply(w, s);
    forall t | t in w1.caches ensures CacheOk(w1.caches[t], w1.mgrs) {
      if s.Lookup? && t == s.thread {
        LookupOk(CacheOf(w, t), w.mgrs, s.shm, s.id, s.remote);
      } else {
        OthersOk(w.caches[t], w.mgrs, w1.mgrs);
      }
    }
  }

  lemma {:induction false} RunInv(w: World, steps: seq<Step>)
    requires Inv(w) && Valid(w, steps)
    ensures Inv(Exec(w, steps))
    decreases |steps|
  {
    if steps == [] {
    } else {
      StepInv(w, steps[0]);
      RunInv(Apply(w, steps[0]), steps[1..]);
    }
  }

  /** After any run, whatever non-null region a lookup returns is the current entry of that manager's map. */
  lemma CachedIsCurrent(steps: seq<Step>, thread: nat, shm: nat, id: nat, remote: Option<nat>)
    requires Valid(INIT, steps) && shm in Exec(INIT, steps).mgrs.regions
    ensures var w := Exec(INIT, steps);
            var r := Result(CacheOf(w, thread), w.mgrs, shm, id, remote);
            var m1 := ManagersAfter(CacheOf(w, thread), w.mgrs, shm, id, remote);
            r.Some? ==> shm in m1.regions && id in m1.regions[shm] && m1.regions[shm][id] == r.value
  {
    RunInv(INIT, steps);
    var w := Exec(INIT, steps);
    LookupOk(CacheOf(w, thread), w.mgrs, shm, id, remote);
  }

  /** A null answer is wrong exactly if null was cached in this generation and a view was opened since. */
  lemma StaleNull(c: Cache, m: Managers, shm: nat, id: nat, remote: Option<nat>)
    requires CacheOk(c, m) && shm in m.regions
    ensures var r, m1 := Result(c, m, shm, id, remote), ManagersAfter(c, m, shm, id, remote);
            r.None? && shm in m1.regions && id in m1.regions[shm] <==>
              Hit(c, m.gen, id, shm) && Find(c.entries, id, shm).value.region.None? && id in m.regions[shm]
  {
  }

  const MISS_THEN_OPEN: seq<Step> := [NewManager(0), Lookup(0, 0, 7, None), OpenView(0, 7, 42)]

  /** Such a run: look up an unknown id, open a view of it, look it up again. */
  lemma StaleNullHappens()
    ensures Valid(INIT, MISS_THEN_OPEN)
    ensures var w := Exec(INIT, MISS_THEN_OPEN);
            0 in w.mgrs.regions && 7 in w.mgrs.regions[0] && Result(CacheOf(w, 0), w.mgrs, 0, 7, None) == None
  {
    var w1 := Apply(INIT, MISS_THEN_OPEN[0]);
    var w2 := Apply(w1, MISS_THEN_OPEN[1]);
    assert w2.caches[0] == Cache(0, [Entry(None, 7, 0)]);
    var w3 := Apply(w2, MISS_THEN_OPEN[2]);
    assert MISS_THEN_OPEN[1..][1..] == [MISS_THEN_OPEN[2]];
    assert MISS_THEN_OPEN[1..][1..][1..] == [];
    assert Valid(w3, []) && Exec(w3, []) == w3;
    assert Valid(w2, [MISS_THEN_OPEN[2]]) && Exec(w2, [MISS_THEN_OPEN[2]]) == w3;
    assert Valid(w1, MISS_THEN_OPEN[1..]) && Exec(w1, MISS_THEN_OPEN[1..]) == w3;
  }

  // ---------------------------------------------------------------- the same over runs

  lemma {:induction false} PrefixRun(w: World, steps: seq<Step>, i: nat)
    requires Valid(w, steps) && i <= |steps|
    ensures Valid(w, steps[..i])
    ensures i < |steps| ==> Enabled(Exec(w, steps[..i]), steps[i]) && Valid(w, steps[..i + 1])
    ensures i < |steps| ==> Exec(w, steps[..i + 1]) == Apply(Exec(w, steps[..i]), steps[i])
    decreases |steps|
  {
    if i == 0 {
      if steps != [] { assert steps[..1][1..] == []; }
    } else {
      var v := Apply(w, steps[0]);
      PrefixRun(v, steps[1..], i - 1);
      assert steps[..i][1..] == steps[1..][..i - 1];
      if i < |steps| { assert steps[..i + 1][1..] == steps[1..][..i]; }
    }
  }

  /** The process after the first i steps. */
  ghost function After(steps: seq<Step>, i: nat): World
    requires Valid(INIT, steps) && i <= |steps|
  {
    PrefixRun(INIT, steps, i);
    Exec(INIT, steps[..i])
  }

  lemma AfterNext(steps: seq<Step>, i: nat)
    requires Valid(INIT, steps) && i < |steps|
    ensures Enabled(After(steps, i), steps[i]) && After(steps, i + 1) == Apply(After(steps, i), steps[i])
    ensures Inv(After(steps, i))
  {
    PrefixRun(INIT, steps, i);
    RunInv(INIT, steps[..i]);
  }

  /** The map of a session has the id. */
  predicate Known(m: Managers, shm: nat, id: nat) { shm in m.regions && id in m.regions[shm] }

  /** The thread's cache answers null for the id. */
  predicate CachesNull(w: World, t: nat, shm: nat, id: nat) {
    var c := CacheOf(w, t);
    Hit(c, w.mgrs.gen, id, shm) && Find(c.entries, id, shm).value.region.None?
  }

  /** Step i is a lookup by the thread that misses the cache and finds no region. */
  ghost predicate NotFound(steps: seq<Step>, i: nat, t: nat, shm: nat, id: nat)
    requires Valid(INIT, steps)
  {
    && i < |steps| && steps[i] == Lookup(t, shm, id, None)
    && !Known(After(steps, i).mgrs, shm, id) && !CachesNull(After(steps, i), t, shm, id)
  }

  /** Step j opens a view of the region: by itself, or for a lookup of any thread. */
  ghost predicate Opens(steps: seq<Step>, j: nat, shm: nat, id: nat)
    requires Valid(INIT, steps)
  {
    && j < |steps| && (steps[j].OpenView? || steps[j].Lookup?)
    && !Known(After(steps, j).mgrs, shm, id) && Known(After(steps, j + 1).mgrs, shm, id)
  }

  lemma {:induction false} FindAppend(es: seq<Entry>, e: Entry, id: nat, shm: nat)
    ensures Find(es + [e], id, shm)
            == if Find(es, id, shm).Some? then Find(es, id, shm) else if Matches(e, id, shm) then Some(e) else None
  {
    if es == [] {
      assert es + [e] == [e];
    } else {
      assert (es + [e])[1..] == es[1..] + [e];
      FindAppend(es[1..], e, id, shm);
    }
  }

  /** One step keeps a cached null unless it advances the generation, and only a miss creates one. */
  lemma NullStep(w: World, s: Step, t: nat, shm: nat, id: nat)
    requires Inv(w) && Enabled(w, s)
    ensures Apply(w, s).mgrs.gen == w.mgrs.gen && CachesNull(w, t, shm, id) ==> CachesNull(Apply(w, s), t, shm, id)
    ensures CachesNull(Apply(w, s), t, shm, id) && !CachesNull(w, t, shm, id) ==>
              s == Lookup(t, shm, id, None) && !Known(w.mgrs, shm, id)
    ensures CachesNull(Apply(w, s), t, shm, id) ==> Apply(w, s).mgrs.gen == w.mgrs.gen
  {
    if s.Lookup? && s.thread == t && !Hit(CacheOf(w, t), w.mgrs.gen, s.id, s.shm) {
      var c := CacheOf(w, t);
      var kept := if c.gen != w.mgrs.gen then [] else c.entries;
      FindAppend(kept, Entry(GetRegion(w.mgrs.regions[s.shm], s.id, s.remote), s.id, s.shm), id, shm);
    } else if t in w.caches {
      assert CacheOk(w.caches[t], w.mgrs);
    }
  }

  lemma MissStep(w: World, t: nat, shm: nat, id: nat)
    requires Inv(w) && Enabled(w, Lookup(t, shm, id, None)) && !Known(w.mgrs, shm, id)
    ensures CachesNull(Apply(w, Lookup(t, shm, id, None)), t, shm, id)
    ensures Apply(w, Lookup(t, shm, id, None)).mgrs.gen == w.mgrs.gen
  {
    var c := CacheOf(w, t);
    if Hit(c, w.mgrs.gen, id, shm) {
      if t in w.caches { assert CacheOk(c, w.mgrs); }
      FindFresh(c.entries, w.mgrs, id, shm);
    } else {
      var kept := if c.gen != w.mgrs.gen then [] else c.entries;
      FindAppend(kept, Entry(None, id, shm), id, shm);
    }
  }

  /** One step makes an id known without advancing the generation only by opening a view. */
  lemma KnownStep(w: World, s: Step, shm: nat, id: nat)
    requires Enabled(w, s)
    ensures Apply(w, s).mgrs.gen >= w.mgrs.gen
    ensures Apply(w, s).mgrs.gen == w.mgrs.gen && Known(w.mgrs, shm, id) ==> Known(Apply(w, s).mgrs, shm, id)
    ensures Apply(w, s).mgrs.gen == w.mgrs.gen && !Known(w.mgrs, shm, id) && Known(Apply(w, s).mgrs, shm, id) ==>
              s.OpenView? || s.Lookup?
  {
  }

  lemma {:induction false} GenGrows(steps: seq<Step>, i: nat, n: nat)
    requires Valid(INIT, steps) && i <= n <= |steps|
    ensures After(steps, i).mgrs.gen <= After(steps, n).mgrs.gen
  {
    if i == n {
    } else {
      GenGrows(steps, i, n - 1);
      AfterNext(steps, n - 1);
      KnownStep(After(steps, n - 1), steps[n - 1], 0, 0);
    }
  }

  /** A cached null goes back to a lookup that found nothing, in the same generation. */
  lemma {:induction false} NullHasOrigin(steps: seq<Step>, n: nat, t: nat, shm: nat, id: nat) returns (i: nat)
    requires Valid(INIT, steps) && n <= |steps| && CachesNull(After(steps, n), t, shm, id)
    ensures i < n && NotFound(steps, i, t, shm, id) && After(steps, i).mgrs.gen == After(steps, n).mgrs.gen
  {
    if n == 0 {
      assert false;
    } else {
      AfterNext(steps, n - 1);
      NullStep(After(steps, n - 1), steps[n - 1], t, shm, id);
      if CachesNull(After(steps, n - 1), t, shm, id) {
        i := NullHasOrigin(steps, n - 1, t, shm, id);
      } else {
        i := n - 1;
      }
    }
  }

  lemma {:induction false} OpeningBetween(steps: seq<Step>, i: nat, n: nat, shm: nat, id: nat) returns (j: nat)
    requires Valid(INIT, steps) && i <= n <= |steps| && After(steps, i).mgrs.gen == After(steps, n).mgrs.gen
    requires !Known(After(steps, i).mgrs, shm, id) && Known(After(steps, n).mgrs, shm, id)
    ensures i <= j < n && Opens(steps, j, shm, id)
  {
    AfterNext(steps, n - 1);
    GenGrows(steps, i, n - 1);
    KnownStep(After(steps, n - 1), steps[n - 1], shm, id);
    if Known(After(steps, n - 1).mgrs, shm, id) {
      j := OpeningBetween(steps, i, n - 1, shm, id);
    } else {
      j := n - 1;
    }
  }

  lemma {:induction false} StaysCached(steps: seq<Step>, i: nat, n: nat, t: nat, shm: nat, id: nat)
    requires Valid(INIT, steps) && i < n <= |steps| && NotFound(steps, i, t, shm, id)
    requires After(steps, i).mgrs.gen == After(steps, n).mgrs.gen
    ensures CachesNull(After(steps, n), t, shm, id)
  {
    AfterNext(steps, n - 1);
    if n == i + 1 {
      MissStep(After(steps, i), t, shm, id);
    } else {
      GenGrows(steps, i, n - 1);
      KnownStep(After(steps, n - 1), steps[n - 1], shm, id);
      StaysCached(steps, i, n - 1, t, shm, id);
      NullStep(After(steps, n - 1), steps[n - 1], t, shm, id);
    }
  }

  lemma {:induction false} StaysKnown(steps: seq<Step>, j: nat, n: nat, shm: nat, id: nat)
    requires Valid(INIT, steps) && j < n <= |steps| && Opens(steps, j, shm, id)
    requires After(steps, j).mgrs.gen == After(steps, n).mgrs.gen
    ensures Known(After(steps, n).mgrs, shm, id)
  {
    if n == j + 1 {
    } else {
      AfterNext(steps, n - 1);
      GenGrows(steps, j, n - 1);
      KnownStep(After(steps, n - 1), steps[n - 1], shm, id);
      StaysKnown(steps, j, n - 1, shm, id);
    }
  }

  /**
   * A lookup answers null although the session has the region, exactly if an earlier lookup of the same thread
   * found nothing, a view was opened after it, and the generation has not advanced since.
   */
  lemma StaleNullOverRuns(steps: seq<Step>, t: nat, shm: nat, id: nat, remote: Option<nat>)
    requires Valid(INIT, steps) && shm in Exec(INIT, steps).mgrs.regions
    ensures var w := Exec(INIT, steps);
            Result(CacheOf(w, t), w.mgrs, shm, id, remote).None? && Known(w.mgrs, shm, id) <==>
              exists i: nat, j: nat :: i < j && NotFound(steps, i, t, shm, id) && Opens(steps, j, shm, id)
                && After(steps, i).mgrs.gen == w.mgrs.gen
  {
    var w, n := Exec(INIT, steps), |steps|;
    assert steps[..n] == steps && After(steps, n) == w;
    if Result(CacheOf(w, t), w.mgrs, shm, id, remote).None? && Known(w.mgrs, shm, id) {
      var i := NullHasOrigin(steps, n, t, shm, id);
      AfterNext(steps, i);
      var j := OpeningBetween(steps, i + 1, n, shm, id);
    }
    if i: nat, j: nat :| i < j && NotFound(steps, i, t, shm, id) && Opens(steps, j, shm, id)
                         && After(steps, i).mgrs.gen == w.mgrs.gen {
      StaysCached(steps, i, n, t, shm, id);
      GenGrows(steps, i, j);
      GenGrows(steps, j, n);
      StaysKnown(steps, j, n, shm, id);
    }
  }

  // ---------------------------------------------------------------- the answer, from the steps alone

  /** The step offers region r for the id: created, opened as a view, or within reach of a lookup. */
  predicate Offers(s: Step, shm: nat, id: nat, r: nat) {
    || s == Create(shm, id, r) || s == OpenView(shm, id, r)
    || (s.Lookup? && s.shm == shm && s.id == id && s.remote == Some(r))
  }

  /** The step takes the region away. */
  predicate Ends(s: Step, shm: nat, id: nat) { s == Remove(shm, id) || s == DropManager(shm) }

  /** The step makes every cached answer of every thread void. */
  predicate Voids(s: Step) { s.Create? || s.Remove? || s.DropManager? }

  /**
   * Among the first n steps, step k gave the session the region r, and nothing took it away since.  A lookup gives
   * the region within its reach only if the session has none and the thread does not remember a vain lookup.
   */
  ghost predicate Gave(steps: seq<Step>, k: nat, n: nat, shm: nat, id: nat, r: nat)
    requires n <= |steps|
    decreases k, 1
  {
    && k < n && Offers(steps[k], shm, id, r)
    && (steps[k].Lookup? ==> !Has(steps, k, shm, id) && !Vain(steps, k, steps[k].thread, shm, id))
    && forall j | k < j < n :: !Ends(steps[j], shm, id)
  }

  /** After n steps the session has the region. */
  ghost predicate Has(steps: seq<Step>, n: nat, shm: nat, id: nat)
    requires n <= |steps|
    decreases n, 0
  {
    exists k: nat, r: nat | k < n && Offers(steps[k], shm, id, r) :: Gave(steps, k, n, shm, id, r)
  }

  /** The thread looked the id up when the session did not have it, and nothing voided that answer since. */
  ghost predicate Vain(steps: seq<Step>, n: nat, t: nat, shm: nat, id: nat)
    requires n <= |steps|
    decreases n, 0
  {
    exists i: nat | i < n ::
      && steps[i] == Lookup(t, shm, id, None) && !Has(steps, i, shm, id)
      && forall j | i < j < n :: !Voids(steps[j])
  }

  lemma HasNext(steps: seq<Step>, n: nat, shm: nat, id: nat)
    requires 0 < n <= |steps|
    ensures var s := steps[n - 1];
            Has(steps, n, shm, id) <==>
              || (Has(steps, n - 1, shm, id) && !Ends(s, shm, id))
              || (exists r | Offers(s, shm, id, r) :: Gave(steps, n - 1, n, shm, id, r))
  {
    if Has(steps, n, shm, id) {
      var k: nat, r: nat :| k < n && Offers(steps[k], shm, id, r) && Gave(steps, k, n, shm, id, r);
      if k < n - 1 { assert Gave(steps, k, n - 1, shm, id, r); }
    }
    if Has(steps, n - 1, shm, id) && !Ends(steps[n - 1], shm, id) {
      var k: nat, r: nat :| k < n - 1 && Offers(steps[k], shm, id, r) && Gave(steps, k, n - 1, shm, id, r);
      assert Gave(steps, k, n, shm, id, r);
    }
  }

  lemma VainNext(steps: seq<Step>, n: nat, t: nat, shm: nat, id: nat)
    requires 0 < n <= |steps|
    ensures var s := steps[n - 1];
            Vain(steps, n, t, shm, id) <==>
              || (s == Lookup(t, shm, id, None) && !Has(steps, n - 1, shm, id))
              || (Vain(steps, n - 1, t, shm, id) && !Voids(s))
  {
  }

  /** The session and the thread's memory are what the steps say. */
  ghost predicate Agrees(steps: seq<Step>, n: nat, shm: nat, id: nat)
    requires Valid(INIT, steps) && n <= |steps|
  {
    var w := After(steps, n);
    && (Known(w.mgrs, shm, id) <==> Has(steps, n, shm, id))
    && (forall k: nat, r: nat | Gave(steps, k, n, shm, id, r) ::
          Known(w.mgrs, shm, id) && w.mgrs.regions[shm][id] == r)
    && (forall t :: CachesNull(w, t, shm, id) <==> Vain(steps, n, t, shm, id))
  }

  /** One step gives the region exactly if it offers one and, for a lookup, nothing is known or remembered. */
  lemma GivenStep(w: World, s: Step, shm: nat, id: nat)
    requires Inv(w) && Enabled(w, s)
    ensures var w1 := Apply(w, s);
            && (Known(w.mgrs, shm, id) && !Ends(s, shm, id) ==>
                  Known(w1.mgrs, shm, id) && w1.mgrs.regions[shm][id] == w.mgrs.regions[shm][id])
            && (Ends(s, shm, id) ==> !Known(w1.mgrs, shm, id))
            && (!Known(w.mgrs, shm, id) && Known(w1.mgrs, shm, id) ==>
                  && Offers(s, shm, id, w1.mgrs.regions[shm][id])
                  && (s.Lookup? ==> !CachesNull(w, s.thread, shm, id)))
  {
  }

  lemma OfferStep(w: World, s: Step, shm: nat, id: nat, r: nat)
    requires Inv(w) && Enabled(w, s) && Offers(s, shm, id, r)
    requires s.Lookup? ==> !Known(w.mgrs, shm, id) && !CachesNull(w, s.thread, shm, id)
    ensures Known(Apply(w, s).mgrs, shm, id) && Apply(w, s).mgrs.regions[shm][id] == r
  {
    if s.Lookup? {
      var c := CacheOf(w, s.thread);
      if Hit(c, w.mgrs.gen, id, shm) {
        if s.thread in w.caches { assert CacheOk(c, w.mgrs); }
        FindFresh(c.entries, w.mgrs, id, shm);
      }
    }
  }

  lemma VoidStep(w: World, s: Step)
    requires Enabled(w, s)
    ensures Apply(w, s).mgrs.gen == w.mgrs.gen <==> !Voids(s)
  {
  }

  lemma KnownAgrees(steps: seq<Step>, n: nat, shm: nat, id: nat)
    requires Valid(INIT, steps) && 0 < n <= |steps| && Agrees(steps, n - 1, shm, id)
    ensures Known(After(steps, n).mgrs, shm, id) <==> Has(steps, n, shm, id)
    ensures forall k: nat, r: nat | Gave(steps, k, n, shm, id, r) ::
              Known(After(steps, n).mgrs, shm, id) && After(steps, n).mgrs.regions[shm][id] == r
  {
    var w, s := After(steps, n - 1), steps[n - 1];
    AfterNext(steps, n - 1);
    HasNext(steps, n, shm, id);
    GivenStep(w, s, shm, id);
    forall k: nat, r: nat | Gave(steps, k, n, shm, id, r)
      ensures Known(After(steps, n).mgrs, shm, id) && After(steps, n).mgrs.regions[shm][id] == r
    {
      if k == n - 1 {
        OfferStep(w, s, shm, id, r);
      } else {
        assert Gave(steps, k, n - 1, shm, id, r);
        assert !Ends(steps[n - 1], shm, id);
      }
    }
    if !Known(w.mgrs, shm, id) && Known(After(steps, n).mgrs, shm, id) {
      assert Gave(steps, n - 1, n, shm, id, After(steps, n).mgrs.regions[shm][id]);
    }
  }

  lemma VainAgrees(steps: seq<Step>, n: nat, shm: nat, id: nat, t: nat)
    requires Valid(INIT, steps) && 0 < n <= |steps| && Agrees(steps, n - 1, shm, id)
    ensures CachesNull(After(steps, n), t, shm, id) <==> Vain(steps, n, t, shm, id)
  {
    var w, s := After(steps, n - 1), steps[n - 1];
    AfterNext(steps, n - 1);
    VainNext(steps, n, t, shm, id);
    NullStep(w, s, t, shm, id);
    VoidStep(w, s);
    if s == Lookup(t, shm, id, None) && !Known(w.mgrs, shm, id) { MissStep(w, t, shm, id); }
  }

  lemma {:induction false} RunAgrees(steps: seq<Step>, n: nat, shm: nat, id: nat)
    requires Valid(INIT, steps) && n <= |steps|
    ensures Agrees(steps, n, shm, id)
  {
    if n == 0 {
      assert steps[..0] == [];
    } else {
      RunAgrees(steps, n - 1, shm, id);
      KnownAgrees(steps, n, shm, id);
      forall t ensures CachesNull(After(steps, n), t, shm, id) <==> Vain(steps, n, t, shm, id) {
        VainAgrees(steps, n, shm, id, t);
      }
    }
  }

  /**
   * What a lookup answers after any run, told by the steps alone: null if the thread remembers a vain lookup; else
   * the region that the last step to create or open it gave, if nothing has removed it since; else what is within
   * reach.
   */
  lemma LookupAnswers(steps: seq<Step>, t: nat, shm: nat, id: nat, remote: Option<nat>)
    requires Valid(INIT, steps) && shm in Exec(INIT, steps).mgrs.regions
    ensures var w, n := Exec(INIT, steps), |steps|;
            var r := Result(CacheOf(w, t), w.mgrs, shm, id, remote);
            && (Vain(steps, n, t, shm, id) ==> r == None)
            && (forall k: nat, x: nat | Gave(steps, k, n, shm, id, x) && !Vain(steps, n, t, shm, id) :: r == Some(x))
            && (!Has(steps, n, shm, id) && !Vain(steps, n, t, shm, id) ==> r == remote)
  {
    var w, n := Exec(INIT, steps), |steps|;
    assert steps[..n] == steps;
    RunAgrees(steps, n, shm, id);
    RunInv(INIT, steps);
    var c := CacheOf(w, t);
    assert CacheOk(c, w.mgrs);
    if Hit(c, w.mgrs.gen, id, shm) { FindFresh(c.entries, w.mgrs, id, shm); }
  }

  /** A region that has been removed, or whose manager is gone, is not answered until somebody gives it again. */
  lemma RemovedIsGone(steps: seq<Step>, e: nat, t: nat, shm: nat, id: nat)
    requires Valid(INIT, steps) && shm in Exec(INIT, steps).mgrs.regions
    requires e < |steps| && Ends(steps[e], shm, id)
    requires forall j, r | e < j < |steps| :: !Offers(steps[j], shm, id, r)
    ensures var w := Exec(INIT, steps); Result(CacheOf(w, t), w.mgrs, shm, id, None) == None
  {
    var n := |steps|;
    forall k: nat, r: nat | k < n && Offers(steps[k], shm, id, r) ensures !Gave(steps, k, n, shm, id, r) {
      assert k < e ==> Ends(steps[e], shm, id);
    }
    LookupAnswers(steps, t, shm, id, None);
  }

  const REMOVED: seq<Step> := [NewManager(0), Create(0, 7, 42), Remove(0, 7)]

  /** Such a run: a region is created and removed, and a lookup no longer finds it. */
  lemma RemovedExample(t: nat)
    ensures Valid(INIT, REMOVED) && 0 in Exec(INIT, REMOVED).mgrs.regions
    ensures var w := Exec(INIT, REMOVED[..2]);
            Valid(INIT, REMOVED[..2]) && 0 in w.mgrs.regions && Result(CacheOf(w, t), w.mgrs, 0, 7, None) == Some(42)
    ensures var w := Exec(INIT, REMOVED); Result(CacheOf(w, t), w.mgrs, 0, 7, None) == None
  {
    var w1 := Apply(INIT, REMOVED[0]);
    var w2 := Apply(w1, REMOVED[1]);
    var w3 := Apply(w2, REMOVED[2]);
    assert REMOVED[1..][1..] == [REMOVED[2]] && REMOVED[1..][1..][1..] == [];
    assert Valid(w3, []) && Exec(w3, []) == w3;
    assert Valid(w2, [REMOVED[2]]) && Exec(w2, [REMOVED[2]]) == w3;
    assert Valid(w1, REMOVED[1..]) && Exec(w1, REMOVED[1..]) == w3;
    PrefixRun(INIT, REMOVED, 2);
    PrefixRun(INIT, REMOVED, 1);
    PrefixRun(INIT, REMOVED, 0);
    assert REMOVED[..0] == [] && Exec(INIT, REMOVED[..2]) == w2;
    RemovedIsGone(REMOVED, 2, t, 0, 7);
  }
}
