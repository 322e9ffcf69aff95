/**
 * The shared registry of segments and regions, and a subscriber that turns it into events.
 *
 * The registry only grows; a region may be marked destroyed.  A shared counter counts the changes.  The
 * subscriber compares it with its own count, takes a snapshot of the registry, and works through the
 * snapshot while other processes go on changing the registry.
 */
module RegionEvents {
  import opened Wrappers
  import opened Counting

  datatype Event = Created | Destroyed

  /** A managed segment or an unmanaged region. */
  datatype Key = Key(id: nat, managed: bool)

  datatype Info = Info(key: Key, event: Event)

  datatype Registry = Registry(entries: map<Key, Event>, count: nat)

  datatype Subscriber = Subscriber(observed: map<Key, Event>, num: nat, trace: seq<Info>)

  datatype World = World(reg: Registry, sub: Subscriber, todo: seq<Info>)

  datatype Step =
    | Add(key: Key)                // a new segment, or Register of a new region
    | Destroy(id: nat)             // RemoveRegion of a region that is removed on destruction
    | Snapshot(infos: seq<Info>)   // GetRegionInfo under the session lock
    | Observe                      // the next entry of the snapshot

  predicate IsDestroyed(e: Event) { e.Destroyed? }

  /** A snapshot lists every registry entry with its current event, in any order. */
  ghost predicate Lists(reg: Registry, infos: seq<Info>) {
    && (forall i | 0 <= i < |infos| :: infos[i].key in reg.entries && infos[i].event == reg.entries[infos[i].key])
    && (forall k | k in reg.entries :: exists i :: 0 <= i < |infos| && infos[i].key == k)
  }

  ghost predicate Enabled(w: World, s: Step) {
    match s
    case Add(k) => k !in w.reg.entries
    case Destroy(id) => Key(id, false) in w.reg.entries
    case Snapshot(infos) => w.todo == [] && w.sub.num != w.reg.count && Lists(w.reg, infos)
    case Observe => w.todo != []
  }

  /** What the subscriber does with one entry. */
  function ObserveOne(s: Subscriber, i: Info): Subscriber {
    if i.key !in s.observed then
      if i.event.Created? then Subscriber(s.observed[i.key := Created], s.num + 1, s.trace + [i])
      else s.(observed := s.observed[i.key := Destroyed], num := s.num + 2)  // created and destroyed unseen
    else if s.observed[i.key].Created? && i.event.Destroyed? then
      Subscriber(s.observed[i.key := Destroyed], s.num + 1, s.trace + [i])
    else s
  }

  function ObserveAll(s: Subscriber, infos: seq<Info>): Subscriber {
    if infos == [] then s else ObserveOne(ObserveAll(s, infos[..|infos| - 1]), infos[|infos| - 1])
  }

  function Apply(w: World, s: Step): World
    requires s.Observe? ==> w.todo != []
  {
    match s
    case Add(k) => w.(reg := Registry(w.reg.entries[k := Created], w.reg.count + 1))
    case Destroy(id) => w.(reg := Registry(w.reg.entries[Key(id, false) := Destroyed], w.reg.count + 1))
    case Snapshot(infos) => w.(todo := infos)
    case Observe => w.(sub := ObserveOne(w.sub, w.todo[0]), todo := w.todo[1..])
  }

  const INIT: World := World(Registry(map[], 0), Subscriber(map[], 0, []), [])

  ghost predicate Valid(w: World, steps: seq<Step>)
    decreases |steps|
  {
    steps == [] || (Enabled(w, steps[0]) && Valid(Apply(w, steps[0]), steps[1..]))
  }

  ghost function Exec(w: World, steps: seq<Step>): World
    requires Valid(w, steps)
    decreases |steps|
  {
    if steps == [] then w else Exec(Apply(w, steps[0]), steps[1..])
  }

  // ---------------------------------------------------------------- the subscriber object

  class Subscription {
    var fObservedRegionEvents: map<Key, Event>
    var fNumObservedEvents: nat
    var calls: seq<Info>  // callbacks made so far

    ghost function View(): Subscriber
      reads this
    {
      Subscriber(fObservedRegionEvents, fNumObservedEvents, calls)
    }

    constructor ()
      ensures View() == INIT.sub
    {
      fObservedRegionEvents, fNumObservedEvents, calls := map[], 0, [];
    }

    /** One turn of the subscription loop over a snapshot. */
    method Poll(infos: seq<Info>)
      modifies this
      ensures View() == ObserveAll(old(View()), infos)
    {
      for n := 0 to |infos|
        invariant View() == ObserveAll(old(View()), infos[..n])
      {
        var i := infos[n];
        assert infos[..n + 1][..n] == infos[..n];
        if i.key !in fObservedRegionEvents {
          fObservedRegionEvents := fObservedRegionEvents[i.key := i.event];
          if i.event.Created? {
            calls := calls + [i];
            fNumObservedEvents := fNumObservedEvents + 1;
          } else {
            fNumObservedEvents := fNumObservedEvents + 2;
          }
        } else if fObservedRegionEvents[i.key].Created? && i.event.Destroyed? {
          calls := calls + [i];
          fObservedRegionEvents := fObservedRegionEvents[i.key := i.event];
          fNumObservedEvents := fNumObservedEvents + 1;
        }
      }
      assert infos[..|infos|] == infos;
    }
  }

  // ---------------------------------------------------------------- invariant

  function Gone(m: map<Key, Event>): set<Key> { Where(m, IsDestroyed) }

  /** The counter has counted every entry and every destruction; repeated removal may add more. */
  predicate CounterOk(reg: Registry) { reg.count >= |reg.entries| + |Gone(reg.entries)| }

  predicate NumOk(s: Subscriber) { s.num == |s.observed| + |Gone(s.observed)| }

  /** Nothing observed is ahead of the registry. */
  ghost predicate Behind(seen: map<Key, Event>, reg: Registry) {
    forall k | k in seen :: k in reg.entries && (seen[k].Destroyed? ==> reg.entries[k].Destroyed?)
  }

  ghost predicate TodoBehind(todo: seq<Info>, reg: Registry) {
    forall i | 0 <= i < |todo| ::
      todo[i].key in reg.entries && (todo[i].event.Destroyed? ==> reg.entries[todo[i].key].Destroyed?)
  }

  /** The callbacks for one key, in order. */
  function TraceOf(trace: seq<Info>, k: Key): seq<Event> {
    if trace == [] then []
    else
      var rest := TraceOf(trace[..|trace| - 1], k);
      if trace[|trace| - 1].key == k then rest + [trace[|trace| - 1].event] else rest
  }

  predicate TraceFits(s: Subscriber, k: Key) {
    var t := TraceOf(s.trace, k);
    if k !in s.observed then t == []
    else if s.observed[k].Created? then t == [Created]
    else t == [] || t == [Created, Destroyed]
  }

  ghost predicate TracesOk(s: Subscriber) { forall k :: TraceFits(s, k) }

  ghost predicate Inv(w: World) {
    && CounterOk(w.reg) && NumOk(w.sub) && Behind(w.sub.observed, w.reg) && TodoBehind(w.todo, w.reg)
    && TracesOk(w.sub)
  }

  lemma PutSizes(m: map<Key, Event>, k: Key, e: Event)
    ensures |m[k := e]| == |m| + Bit(k !in m)
    ensures |Gone(m[k := e])| == |Gone(m)| - Bit(k in m && m[k].Destroyed?) + Bit(e.Destroyed?)
  {
    WherePut(m, k, e, IsDestroyed);
    Without(m.Keys, k);
    Without(m[k := e].Keys, k);
    assert m[k := e].Keys - {k} == m.Keys - {k};
  }

  lemma ObserveNum(s: Subscriber, i: Info)
    requires NumOk(s)
    ensures NumOk(ObserveOne(s, i))
  {
    PutSizes(s.observed, i.key, i.event);
  }

  lemma ObserveTrace(s: Subscriber, i: Info, k: Key)
    requires TraceFits(s, k)
    ensures TraceFits(ObserveOne(s, i), k)
  {
    var t := ObserveOne(s, i);
    if t.trace != s.trace { assert t.trace[..|s.trace|] == s.trace; }
  }

  lemma StepInv(w: World, s: Step)
    requires Inv(w) && Enabled(w, s)
    ensures Inv(Apply(w, s))
  {
    match s
    case Add(k) => PutSizes(w.reg.entries, k, Created);
    case Destroy(id) => PutSizes(w.reg.entries, Key(id, false), Destroyed);
    case Snapshot(_) =>
    case Observe =>
      ObserveNum(w.sub, w.todo[0]);
      forall k ensures TraceFits(ObserveOne(w.sub, w.todo[0]), k) { ObserveTrace(w.sub, w.todo[0], k); }
  }

  lemma InitInv()
    ensures Inv(INIT) && Gone(INIT.reg.entries) == {}
  {
    assert Where(INIT.reg.entries, IsDestroyed) == {};
    forall k ensures TraceFits(INIT.sub, k) {}
  }

  lemma {:induction false} RunInv(w: World, steps: seq<Step>)
    requires Inv(w) && Valid(w, steps)
    ensures Inv(Exec(w, steps))
    decreases |steps|
  {
    if steps == [] {
    } else {
      StepInv(w, steps[0]);
      RunInv(Apply(w, steps[0]), steps[1..]);
    }
  }

  /** Observed entries and destructions are among those of the registry. */
  lemma BehindSizes(seen: map<Key, Event>, reg: Registry)
    requires Behind(seen, reg)
    ensures |seen| <= |reg.entries| && |Gone(seen)| <= |Gone(reg.entries)|
    ensures |seen| == |reg.entries| && |Gone(seen)| == |Gone(reg.entries)| ==> seen == reg.entries
  {
    assert seen.Keys <= reg.entries.Keys;
    CardMono(seen.Keys, reg.entries.Keys);
    assert Gone(seen) <= Gone(reg.entries);
    CardMono(Gone(seen), Gone(reg.entries));
    if |seen| == |reg.entries| && |Gone(seen)| == |Gone(reg.entries)| {
      SubsetOfSameSize(seen.Keys, reg.entries.Keys);
      SubsetOfSameSize(Gone(seen), Gone(reg.entries));
      forall k | k in seen ensures seen[k] == reg.entries[k] {
        assert k in Gone(seen) <==> k in Gone(reg.entries);
      }
    }
  }

  /**
   * In every interleaving each key's callbacks are none, [created] or [created, destroyed]; the subscriber
   * never counts more events than there were; and when the counts agree it has seen the whole registry as it is.
   */
  lemma EventsInOrder(steps: seq<Step>)
    requires Valid(INIT, steps)
    ensures var w := Exec(INIT, steps);
            && (forall k :: TraceOf(w.sub.trace, k) in {[], [Created], [Created, Destroyed]})
            && w.sub.num <= w.reg.count
            && (w.sub.num == w.reg.count ==> w.sub.observed == w.reg.entries)
  {
    InitInv();
    RunInv(INIT, steps);
    var w := Exec(INIT, steps);
    BehindSizes(w.sub.observed, w.reg);
    forall k ensures TraceOf(w.sub.trace, k) in {[], [Created], [Created, Destroyed]} { assert TraceFits(w.sub, k); }
  }

  // ---------------------------------------------------------------- catching up

  lemma {:induction false} ObserveAllSees(s: Subscriber, infos: seq<Info>, k: Key)
    requires forall i | 0 <= i < |infos| && infos[i].key == k :: infos[i].event == Created
    ensures var t := ObserveAll(s, infos);
            && (k in s.observed ==> k in t.observed && t.observed[k] == s.observed[k])
            && (k !in s.observed && k in t.observed ==> t.observed[k] == Created)
            && (k !in s.observed && (exists i :: 0 <= i < |infos| && infos[i].key == k) ==>
                k in t.observed && t.observed[k] == Created)
  {
    if infos == [] {
    } else {
      var init := infos[..|infos| - 1];
      ObserveAllSees(s, init, k);
      if exists i :: 0 <= i < |infos| && infos[i].key == k {
        var i :| 0 <= i < |infos| && infos[i].key == k;
        if i < |init| { assert init[i].key == k; }
      }
    }
  }

  lemma {:induction false} ObserveAllSeesGone(s: Subscriber, infos: seq<Info>, k: Key)
    requires forall i | 0 <= i < |infos| && infos[i].key == k :: infos[i].event == Destroyed
    ensures var t := ObserveAll(s, infos);
            (exists i :: 0 <= i < |infos| && infos[i].key == k) || (k in s.observed && s.observed[k].Destroyed?) ==>
              k in t.observed && t.observed[k] == Destroyed
  {
    if infos == [] {
    } else {
      var init := infos[..|infos| - 1];
      ObserveAllSeesGone(s, init, k);
      if exists i :: 0 <= i < |infos| && infos[i].key == k {
        var i :| 0 <= i < |infos| && infos[i].key == k;
        if i < |init| { assert init[i].key == k; }
      }
    }
  }

  /** A poll that nothing interrupts brings the subscriber exactly up to date. */
  lemma PollCatchesUp(w: World, infos: seq<Info>)
    requires Inv(w) && Lists(w.reg, infos)
    ensures var t := ObserveAll(w.sub, infos);
            forall k | k in w.reg.entries :: k in t.observed && t.observed[k] == w.reg.entries[k]
  {
    var t := ObserveAll(w.sub, infos);
    forall k | k in w.reg.entries ensures k in t.observed && t.observed[k] == w.reg.entries[k] {
      if w.reg.entries[k].Created? {
        ObserveAllSees(w.sub, infos, k);
      } else {
        ObserveAllSeesGone(w.sub, infos, k);
      }
    }
  }

  /** How often a region was removed that had been removed before, by a second controller of the same id. */
  ghost function Repeats(w: World, steps: seq<Step>): nat
    requires Valid(w, steps)
    decreases |steps|
  {
    if steps == [] then 0 else
      var again := steps[0].Destroy? && w.reg.entries[Key(steps[0].id, false)].Destroyed?;
      Bit(again) + Repeats(Apply(w, steps[0]), steps[1..])
  }

  lemma {:induction false} CounterExact(w: World, steps: seq<Step>)
    requires Valid(w, steps)
    ensures var r, r1 := w.reg, Exec(w, steps).reg;
            r1.count - |r1.entries| - |Gone(r1.entries)|
            == r.count - |r.entries| - |Gone(r.entries)| + Repeats(w, steps)
    decreases |steps|
  {
    if steps == [] {
    } else {
      var s := steps[0];
      if s.Add? { PutSizes(w.reg.entries, s.key, Created); }
      if s.Destroy? { PutSizes(w.reg.entries, Key(s.id, false), Destroyed); }
      CounterExact(Apply(w, s), steps[1..]);
    }
  }

  lemma {:induction false} ObserveAllOk(s: Subscriber, reg: Registry, infos: seq<Info>)
    requires NumOk(s) && Behind(s.observed, reg) && TodoBehind(infos, reg)
    ensures NumOk(ObserveAll(s, infos)) && Behind(ObserveAll(s, infos).observed, reg)
  {
    if infos == [] {
    } else {
      var init, last := infos[..|infos| - 1], infos[|infos| - 1];
      ObserveAllOk(s, reg, init);
      ObserveNum(ObserveAll(s, init), last);
    }
  }

  /**
   * After an uninterrupted poll the subscriber's count meets the shared counter, so that polling comes to rest,
   * exactly if no region was removed twice.
   */
  lemma PollSettles(steps: seq<Step>, infos: seq<Info>)
    requires Valid(INIT, steps) && Lists(Exec(INIT, steps).reg, infos)
    ensures var w := Exec(INIT, steps);
            && ObserveAll(w.sub, infos).observed == w.reg.entries
            && (ObserveAll(w.sub, infos).num == w.reg.count <==> Repeats(INIT, steps) == 0)
  {
    InitInv();
    RunInv(INIT, steps);
    CounterExact(INIT, steps);
    var w := Exec(INIT, steps);
    ObserveAllOk(w.sub, w.reg, infos);
    PollCatchesUp(w, infos);
    assert ObserveAll(w.sub, infos).observed == w.reg.entries;
  }

  const REMOVED_TWICE: seq<Step> := [Add(Key(7, false)), Destroy(7), Destroy(7)]

  /** A run after which every poll finds the counter ahead. */
  lemma NeverSettles()
    ensures Valid(INIT, REMOVED_TWICE) && Repeats(INIT, REMOVED_TWICE) == 1
  {
    var w1 := Apply(INIT, REMOVED_TWICE[0]);
    var w2 := Apply(w1, REMOVED_TWICE[1]);
    var w3 := Apply(w2, REMOVED_TWICE[2]);
    assert REMOVED_TWICE[1..][1..] == [REMOVED_TWICE[2]] && REMOVED_TWICE[1..][1..][1..] == [];
    assert Valid(w3, []) && Repeats(w3, []) == 0;
    assert Valid(w2, [REMOVED_TWICE[2]]) && Repeats(w2, [REMOVED_TWICE[2]]) == 1;
    assert Valid(w1, REMOVED_TWICE[1..]) && Repeats(w1, REMOVED_TWICE[1..]) == 1;
  }

  // ---------------------------------------------------------------- what is announced

  /** The entry is news: a region seen for the first time that exists, or one that existed and is gone. */
  predicate News(seen: map<Key, Event>, i: Info) {
    if i.key in seen then seen[i.key].Created? && i.event.Destroyed? else i.event.Created?
  }

  function Announced(seen: map<Key, Event>, infos: seq<Info>): seq<Info> {
    if infos == [] then []
    else
      var last := infos[|infos| - 1];
      Announced(seen, infos[..|infos| - 1]) + if News(seen, last) then [last] else []
  }

  ghost predicate DistinctKeys(infos: seq<Info>) { forall i, j | 0 <= i < j < |infos| :: infos[i].key != infos[j].key }

  lemma {:induction false} Untouched(s: Subscriber, infos: seq<Info>, k: Key)
    requires forall i | 0 <= i < |infos| :: infos[i].key != k
    ensures var t := ObserveAll(s, infos);
            (k in t.observed <==> k in s.observed) && (k in s.observed ==> t.observed[k] == s.observed[k])
  {
    if infos == [] {
    } else {
      assert infos[|infos| - 1].key != k;
      Untouched(s, infos[..|infos| - 1], k);
    }
  }

  /** A poll over a snapshot calls back once for every entry that is news, in the order of the snapshot. */
  lemma {:induction false} PollCalls(s: Subscriber, infos: seq<Info>)
    requires DistinctKeys(infos)
    ensures ObserveAll(s, infos).trace == s.trace + Announced(s.observed, infos)
  {
    if infos == [] {
    } else {
      var n := |infos| - 1;
      PollCalls(s, infos[..n]);
      Untouched(s, infos[..n], infos[n].key);
    }
  }

  /** What the registry holds after a run: every key that was added, gone if a removal of that region came after. */
  lemma {:induction false} RegistryIs(w: World, steps: seq<Step>, k: Key)
    requires Valid(w, steps)
    ensures var r, r1 := w.reg.entries, Exec(w, steps).reg.entries;
            && (k in r1 <==> k in r || Add(k) in steps)
            && (k in r1 ==>
                  (r1[k].Destroyed? <==> (k in r && r[k].Destroyed?) || (!k.managed && Destroy(k.id) in steps)))
    decreases |steps|
  {
    if steps == [] {
    } else {
      assert steps == [steps[0]] + steps[1..];
      RegistryIs(Apply(w, steps[0]), steps[1..], k);
    }
  }

  /** A snapshot can always be taken: every entry once. */
  lemma {:induction false} SnapshotExists(m: map<Key, Event>, count: nat) returns (infos: seq<Info>)
    ensures Lists(Registry(m, count), infos) && DistinctKeys(infos)
    decreases |m|
  {
    if m == map[] {
      infos := [];
    } else {
      var k :| k in m;
      assert m.Keys == (m - {k}).Keys + {k};
      var rest := SnapshotExists(m - {k}, count);
      infos := rest + [Info(k, m[k])];
      ListsMore(m, k, count, rest);
    }
  }

  lemma ListsMore(m: map<Key, Event>, k: Key, count: nat, rest: seq<Info>)
    requires k in m && Lists(Registry(m - {k}, count), rest) && DistinctKeys(rest)
    ensures Lists(Registry(m, count), rest + [Info(k, m[k])]) && DistinctKeys(rest + [Info(k, m[k])])
  {
    var infos := rest + [Info(k, m[k])];
    forall i | 0 <= i < |rest| ensures infos[i] == rest[i] && rest[i].key != k && rest[i].key in m {
      assert rest[i].key in m - {k};
    }
    forall x | x in m ensures exists i :: 0 <= i < |infos| && infos[i].key == x { AmongMore(m, k, count, rest, x); }
  }

  lemma AmongMore(m: map<Key, Event>, k: Key, count: nat, rest: seq<Info>, x: Key)
    requires k in m && x in m && Lists(Registry(m - {k}, count), rest)
    ensures exists i :: 0 <= i < |rest + [Info(k, m[k])]| && (rest + [Info(k, m[k])])[i].key == x
  {
    var infos := rest + [Info(k, m[k])];
    if x == k {
      assert infos[|rest|].key == x;
    } else {
      assert x in m - {k};
      var i :| 0 <= i < |rest| && rest[i].key == x;
      assert infos[i].key == x;
    }
  }
}
