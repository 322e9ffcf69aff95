/**
 * From the last reference to the user callback: the ownership machine of a session feeding the
 * acknowledgement pipeline of one of its regions.  View `i` of the pipeline belongs to manager `i`.
 */
module EndToEnd {
  import opened Wrappers
  import opened Counting
  import O = Ownership
  import opened OwnershipInvariant
  import OwnershipSteps
  import OwnershipMoves
  import T = OwnershipTheorems
  import A = AckPipeline
  import M = MessageRuns

  datatype Joint = Joint(world: O.World, pipe: A.Pipe<O.Returned>, region: nat)

  /** A step of some process, or a step of some acknowledgement thread. */
  datatype Step = Own(op: O.Op) | Ack(step: A.Step<O.Returned>)

  /** The token a step hands to the region's pipeline, if any. */
  function Handed(j: Joint, op: O.Op): Option<O.Returned>
    requires O.Callable(j.world, op)
  {
    if !op.Release? then None
    else
      var s := j.world.slots[O.Msg(op.m)];
      var r := O.Returned(O.ReleasedBlock(s.local), s.proc, s.origin);
      if r.block.region == j.region then Some(r) else None
  }

  predicate Enabled(j: Joint, s: Step) {
    match s
    case Own(op) =>
      O.Enabled(j.world, op) && (var r := Handed(j, op); r.Some? ==> r.value.proc < |j.pipe.views|)
    case Ack(a) => !a.Release? && A.Enabled(j.pipe, a)
  }

  function Apply(j: Joint, s: Step): Joint
    requires Enabled(j, s)
  {
    match s
    case Own(op) =>
      var p := match Handed(j, op)
        case Some(r) => A.Apply(j.pipe, A.Release(r.proc, r))
        case None => j.pipe;
      j.(world := O.Apply(j.world, op), pipe := p)
    case Ack(a) => j.(pipe := A.Apply(j.pipe, a))
  }

  function Init(cfg: O.Config, views: nat, region: nat): Joint {
    Joint(O.Init(cfg), A.Init(views), region)
  }

  predicate Valid(j: Joint, steps: seq<Step>)
    decreases |steps|
  {
    steps == [] || (Enabled(j, steps[0]) && Valid(Apply(j, steps[0]), steps[1..]))
  }

  function Exec(j: Joint, steps: seq<Step>): Joint
    requires Valid(j, steps)
    decreases |steps|
  {
    if steps == [] then j else Exec(Apply(j, steps[0]), steps[1..])
  }

  function ForRegion(rs: seq<O.Returned>, region: nat): seq<O.Returned> {
    if rs == [] then []
    else
      var rest := ForRegion(rs[..|rs| - 1], region);
      if rs[|rs| - 1].block.region == region then rest + [rs[|rs| - 1]] else rest
  }

  ghost predicate Inv(j: Joint) {
    && OwnershipInvariant.Inv(j.world) && A.Inv(j.pipe)
    && j.pipe.released == ForRegion(j.world.returned, j.region)
  }

  lemma StepInv(j: Joint, s: Step)
    requires Inv(j) && Enabled(j, s)
    ensures Inv(Apply(j, s))
  {
    match s
    case Ack(a) => A.StepInv(j.pipe, a);
    case Own(op) =>
      OwnershipMoves.StepInv(j.world, op);
      if Handed(j, op).Some? { A.StepInv(j.pipe, A.Release(Handed(j, op).value.proc, Handed(j, op).value)); }
      Logged(j.world, op);
  }

  /** Only a Release step writes to the log of returned blocks, and it writes one entry. */
  lemma Logged(w: O.World, op: O.Op)
    requires O.Callable(w, op)
    ensures !op.Release? ==> O.Apply(w, op).returned == w.returned
    ensures op.Release? ==>
      && |O.Apply(w, op).returned| == |w.returned| + 1
      && O.Apply(w, op).returned[..|w.returned|] == w.returned
  {
  }

  lemma {:induction false} RunInv(j: Joint, steps: seq<Step>)
    requires Inv(j) && Valid(j, steps)
    ensures Inv(Exec(j, steps)) && Exec(j, steps).region == j.region
    decreases |steps|
  {
    if steps == [] {
    } else {
      StepInv(j, steps[0]);
      RunInv(Apply(j, steps[0]), steps[1..]);
    }
  }

  lemma ReachedInv(cfg: O.Config, views: nat, region: nat, steps: seq<Step>)
    requires Valid(Init(cfg, views, region), steps)
    ensures Inv(Exec(Init(cfg, views, region), steps)) && Exec(Init(cfg, views, region), steps).region == region
  {
    InitInv(cfg);
    A.InitInv<O.Returned>(views);
    RunInv(Init(cfg, views, region), steps);
  }

  lemma {:induction false} ForRegionFrom(rs: seq<O.Returned>, region: nat, r: O.Returned)
    requires r in ForRegion(rs, region)
    ensures r in rs && r.block.region == region
  {
    if rs != [] && r in ForRegion(rs[..|rs| - 1], region) { ForRegionFrom(rs[..|rs| - 1], region, r); }
  }

  lemma {:induction false} TimesHas(rs: seq<O.Returned>, r: O.Returned)
    requires r in rs
    ensures Times(rs, r.origin) >= 1
  {
    if rs[|rs| - 1] != r { TimesHas(rs[..|rs| - 1], r); }
  }

  lemma DeliveredWasReturned(j: Joint, r: O.Returned)
    requires Inv(j) && r in j.pipe.delivered
    ensures r in j.world.returned && r.block.region == j.region
  {
    assert A.ConservedAt(j.pipe, r);
    assert r in multiset(j.pipe.delivered) && r in multiset(j.pipe.released);
    ForRegionFrom(j.world.returned, j.region, r);
  }

  lemma {:induction false} TimesTwo(rs: seq<O.Returned>, r: O.Returned, r1: O.Returned)
    requires r in rs && r1 in rs && r != r1 && r.origin == r1.origin
    ensures Times(rs, r.origin) >= 2
  {
    var init, last := rs[..|rs| - 1], rs[|rs| - 1];
    assert forall x | x in rs :: x in init || x == last;
    if last == r {
      TimesHas(init, r1);
    } else if last == r1 {
      TimesHas(init, r);
    } else {
      TimesTwo(init, r, r1);
    }
  }

  /** A callback happens only for a creation to which no message and no in-flight header refers any more. */
  lemma CallbackMeansUnreferenced(cfg: O.Config, views: nat, region: nat, steps: seq<Step>, r: O.Returned)
    requires Valid(Init(cfg, views, region), steps) && r in Exec(Init(cfg, views, region), steps).pipe.delivered
    ensures var j := Exec(Init(cfg, views, region), steps);
            && r.origin < |j.world.creations| && r.block == j.world.creations[r.origin] && r.block.region == region
            && T.Holders(j.world, r.origin) == {} && T.Debtors(j.world, r.origin) == {}
            && A.Times(j.pipe.delivered, r) == 1
            && (forall r1 | r1 in j.pipe.delivered && r1.origin == r.origin :: r1 == r)
  {
    ReachedInv(cfg, views, region, steps);
    var j := Exec(Init(cfg, views, region), steps);
    DeliveredWasReturned(j, r);
    forall r1 | r1 in j.pipe.delivered && r1.origin == r.origin ensures r1 == r {
      DeliveredWasReturned(j, r1);
      if r1 != r { TimesTwo(j.world.returned, r, r1); }
    }
    assert A.ConservedAt(j.pipe, r);
    TimesHas(j.world.returned, r);
    assert forall i | 0 <= i < |j.world.returned| :: ReturnOk(j.world, j.world.returned[i]);
    T.HoldersCount(j.world, r.origin);
    TokenOnce(j.world.returned, region, r);
  }

  lemma {:induction false} TokenOnce(rs: seq<O.Returned>, region: nat, r: O.Returned)
    ensures A.Times(ForRegion(rs, region), r) <= Times(rs, r.origin)
  {
    if rs == [] {
    } else {
      TokenOnce(rs[..|rs| - 1], region, r);
      A.TimesAppend(ForRegion(rs[..|rs| - 1], region), [rs[|rs| - 1]], r);
    }
  }

  // ---------------------------------------------------------------- quiescence

  function BlocksOf(cs: seq<O.Block>, region: nat): seq<O.Block> {
    if cs == [] then []
    else
      var rest := BlocksOf(cs[..|cs| - 1], region);
      if cs[|cs| - 1].region == region then rest + [cs[|cs| - 1]] else rest
  }

  /** Number of entries that return block `b`, grouped by creation. */
  function Grouped(cs: seq<O.Block>, rs: seq<O.Returned>, b: O.Block): nat {
    if cs == [] then 0
    else Grouped(cs[..|cs| - 1], rs, b) + Bit(cs[|cs| - 1] == b) * Times(rs, |cs| - 1)
  }

  lemma {:induction false} GroupedAppend(cs: seq<O.Block>, rs: seq<O.Returned>, r: O.Returned, b: O.Block)
    ensures Grouped(cs, rs + [r], b) == Grouped(cs, rs, b) + Bit(r.origin < |cs| && cs[r.origin] == b)
  {
    if cs == [] {
    } else {
      GroupedAppend(cs[..|cs| - 1], rs, r, b);
      assert (rs + [r])[..|rs|] == rs;
      assert Times(rs + [r], |cs| - 1) == Times(rs, |cs| - 1) + Bit(r.origin == |cs| - 1);
    }
  }

  lemma {:induction false} GroupedNone(cs: seq<O.Block>, b: O.Block)
    ensures Grouped(cs, [], b) == 0
  {
    if cs == [] {
    } else {
      GroupedNone(cs[..|cs| - 1], b);
    }
  }

  /** Counting returned blocks one by one or creation by creation is the same. */
  lemma {:induction false} CountTwice(cs: seq<O.Block>, rs: seq<O.Returned>, b: O.Block)
    requires forall i | 0 <= i < |rs| :: rs[i].origin < |cs| && rs[i].block == cs[rs[i].origin]
    ensures A.Times(M.Blocks(rs), b) == Grouped(cs, rs, b)
  {
    if rs == [] {
      GroupedNone(cs, b);
      assert M.Blocks(rs) == [];
    } else {
      var init, r := rs[..|rs| - 1], rs[|rs| - 1];
      CountTwice(cs, init, b);
      assert rs == init + [r];
      GroupedAppend(cs, init, r, b);
      M.BlocksAppend(init, r);
      A.TimesAppend(M.Blocks(init), [r.block], b);
    }
  }

  lemma {:induction false} GroupedOnce(cs: seq<O.Block>, rs: seq<O.Returned>, b: O.Block)
    requires forall o: nat | o < |cs| :: Times(rs, o) == 1
    ensures Grouped(cs, rs, b) == A.Times(cs, b)
  {
    if cs == [] {
    } else {
      GroupedOnce(cs[..|cs| - 1], rs, b);
      assert cs == cs[..|cs| - 1] + [cs[|cs| - 1]];
      A.TimesAppend(cs[..|cs| - 1], [cs[|cs| - 1]], b);
    }
  }

  lemma {:induction false} RegionBlocks(rs: seq<O.Returned>, region: nat, b: O.Block)
    ensures A.Times(M.Blocks(ForRegion(rs, region)), b) == (if b.region == region then A.Times(M.Blocks(rs), b) else 0)
  {
    if rs == [] {
    } else {
      var init, r := rs[..|rs| - 1], rs[|rs| - 1];
      RegionBlocks(init, region, b);
      assert rs == init + [r];
      M.BlocksAppend(init, r);
      M.BlocksAppend(ForRegion(init, region), r);
      A.TimesAppend(M.Blocks(init), [r.block], b);
      A.TimesAppend(M.Blocks(ForRegion(init, region)), [r.block], b);
    }
  }

  lemma {:induction false} BlocksOfTimes(cs: seq<O.Block>, region: nat, b: O.Block)
    ensures A.Times(BlocksOf(cs, region), b) == (if b.region == region then A.Times(cs, b) else 0)
  {
    if cs == [] {
    } else {
      var init := cs[..|cs| - 1];
      BlocksOfTimes(init, region, b);
      assert cs == init + [cs[|cs| - 1]];
      A.TimesAppend(init, [cs[|cs| - 1]], b);
      A.TimesAppend(BlocksOf(init, region), [cs[|cs| - 1]], b);
    }
  }

  lemma RemoveAt<T>(ys: seq<T>, k: nat)
    requires k < |ys|
    ensures multiset(ys) == multiset(ys[..k] + ys[k + 1..]) + multiset{ys[k]}
    ensures multiset(ys[..k] + ys[k + 1..]) == multiset(ys) - multiset{ys[k]}
  {
    var rest := ys[..k] + ys[k + 1..];
    assert ys == ys[..k] + [ys[k]] + ys[k + 1..];
    assert multiset(ys) == multiset(rest) + multiset{ys[k]};
  }

  lemma BlocksRemoveAt(ys: seq<O.Returned>, k: nat)
    requires k < |ys|
    ensures multiset(M.Blocks(ys)) == multiset(M.Blocks(ys[..k] + ys[k + 1..])) + multiset{ys[k].block}
  {
    assert M.Blocks(ys[..k] + ys[k + 1..]) == M.Blocks(ys)[..k] + M.Blocks(ys)[k + 1..];
    RemoveAt(M.Blocks(ys), k);
  }

  /** Reordering the entries does not change which blocks they carry. */
  lemma {:induction false} SameBlocks(xs: seq<O.Returned>, ys: seq<O.Returned>)
    requires multiset(xs) == multiset(ys)
    ensures multiset(M.Blocks(xs)) == multiset(M.Blocks(ys))
    decreases |xs|
  {
    if xs == [] {
      assert |ys| == |multiset(ys)| == |multiset(xs)| == 0;
    } else {
      var k := Find(ys, xs[0]);
      var zs := ys[..k] + ys[k + 1..];
      assert multiset(zs) == multiset(xs[1..]) by { RemoveAt(ys, k); Tail(xs); }
      SameBlocks(xs[1..], zs);
      assert multiset(M.Blocks(ys)) == multiset(M.Blocks(zs)) + multiset{xs[0].block} by { BlocksRemoveAt(ys, k); }
      assert M.Blocks(xs) == [xs[0].block] + M.Blocks(xs[1..]);
    }
  }

  lemma Find<T>(ys: seq<T>, x: T) returns (k: nat)
    requires x in multiset(ys)
    ensures k < |ys| && ys[k] == x
  {
    k :| k < |ys| && ys[k] == x;
  }

  lemma Tail<T>(xs: seq<T>)
    requires xs != []
    ensures multiset(xs[1..]) == multiset(xs) - multiset{xs[0]}
  {
    assert xs == [xs[0]] + xs[1..];
  }

  /** No reference is left and every batch has been flushed and received. */
  ghost predicate Quiescent(j: Joint) {
    && (forall p | p in j.world.slots :: OwnershipSteps.Inert(j.world.slots[p]))
    && j.pipe.queue == []
    && (forall v | 0 <= v < |j.pipe.views| ::
          !j.pipe.views[v].stopped && j.pipe.views[v].pending == [] && j.pipe.views[v].inHand == [])
  }

  lemma AllReturned(w: O.World, o: nat)
    requires OwnershipInvariant.Inv(w) && o < |w.creations|
    requires forall p | p in w.slots :: OwnershipSteps.Inert(w.slots[p])
    ensures Times(w.returned, o) == 1
  {
    assert Places(w.cfg, w.slots, Holds(o)) == {};
    assert Places(w.cfg, w.slots, Owes(o)) == {};
  }

  /** At quiescence the callbacks received exactly the blocks that were created in the region. */
  lemma QuiescentCallbacks(cfg: O.Config, views: nat, region: nat, steps: seq<Step>)
    requires Valid(Init(cfg, views, region), steps) && Quiescent(Exec(Init(cfg, views, region), steps))
    ensures var j := Exec(Init(cfg, views, region), steps);
            multiset(M.Blocks(j.pipe.delivered)) == multiset(BlocksOf(j.world.creations, region))
  {
    ReachedInv(cfg, views, region, steps);
    var j := Exec(Init(cfg, views, region), steps);
    var w := j.world;
    A.QuiescentDelivered(j.pipe);
    SameBlocks(j.pipe.delivered, ForRegion(w.returned, region));
    assert forall i | 0 <= i < |w.returned| :: ReturnOk(w, w.returned[i]);
    forall o: nat | o < |w.creations| ensures Times(w.returned, o) == 1 { AllReturned(w, o); }
    forall b ensures multiset(M.Blocks(j.pipe.delivered))[b] == multiset(BlocksOf(w.creations, region))[b] {
      RegionBlocks(w.returned, region, b);
      CountTwice(w.creations, w.returned, b);
      GroupedOnce(w.creations, w.returned, b);
      BlocksOfTimes(w.creations, region, b);
    }
  }
}
