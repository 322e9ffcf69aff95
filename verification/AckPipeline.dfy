/**
 * Acknowledgement pipeline of a region.
 *
 * Every process that uses the region has a view with a list of released blocks.  Each view's sender
 * thread takes batches off the end of that list and pushes them into one bounded queue; the
 * controller's receiver turns queued batches into user callbacks.
 */
module AckPipeline {

  const BUNCH: nat := 256      // blocks per batch
  const CAPACITY: nat := 1024  // batches in the queue

  /** `dropped` records what a stopped view failed to send. */
  datatype View<B> = View(pending: seq<B>, inHand: seq<B>, dropped: seq<B>, stopped: bool, exited: bool)

  datatype Pipe<B> = Pipe(views: seq<View<B>>, queue: seq<seq<B>>,
                          released: seq<B>, delivered: seq<B>)

  datatype Step<B> =
    | Release(view: nat, block: B)  // ReleaseBlock, under the view's mutex
    | Take(view: nat)               // the locked part of the sender loop
    | SendOk(view: nat)             // try_send succeeds
    | SendDrop(view: nat)           // try_send has failed on a full queue, and then the stop flag is seen
    | Leave(view: nat)              // nothing in hand and stopped
    | Stop(view: nat)
    | Receive                       // timed_receive delivers one batch

  function Min(a: nat, b: nat): nat { if a < b then a else b }

  predicate Enabled<B>(p: Pipe<B>, s: Step<B>) {
    match s
    case Release(v, _) => v < |p.views|
    case Take(v) => v < |p.views| && p.views[v].inHand == [] && !p.views[v].exited
    case SendOk(v) => v < |p.views| && p.views[v].inHand != [] && |p.queue| < CAPACITY
    case SendDrop(v) => v < |p.views| && p.views[v].inHand != [] && p.views[v].stopped
    case Leave(v) => v < |p.views| && p.views[v].inHand == [] && p.views[v].pending == [] && p.views[v].stopped
    case Stop(v) => v < |p.views|
    case Receive => p.queue != []
  }

  function Put<B>(p: Pipe<B>, v: nat, x: View<B>): Pipe<B>
    requires v < |p.views|
  {
    p.(views := p.views[v := x])
  }

  function Taken<B>(pending: seq<B>): nat { Min(|pending|, BUNCH) }

  function Apply<B>(p: Pipe<B>, s: Step<B>): Pipe<B>
    requires Enabled(p, s)
  {
    match s
    case Release(v, b) =>
      Put(p, v, p.views[v].(pending := p.views[v].pending + [b])).(released := p.released + [b])
    case Take(v) =>
      var x := p.views[v];
      var n := |x.pending| - Taken(x.pending);
      Put(p, v, x.(pending := x.pending[..n], inHand := x.pending[n..]))
    case SendOk(v) =>
      var x := p.views[v];
      Put(p, v, x.(inHand := [])).(queue := p.queue + [x.inHand])
    case SendDrop(v) =>
      var x := p.views[v];
      Put(p, v, x.(inHand := [], dropped := x.dropped + x.inHand))
    case Leave(v) => Put(p, v, p.views[v].(exited := true))
    case Stop(v) => Put(p, v, p.views[v].(stopped := true))
    case Receive => p.(queue := p.queue[1..], delivered := p.delivered + p.queue[0])
  }

  function Init<B>(n: nat): Pipe<B> {
    Pipe(seq(n, _ => View([], [], [], false, false)), [], [], [])
  }

  predicate Valid<B>(p: Pipe<B>, steps: seq<Step<B>>)
    decreases |steps|
  {
    steps == [] || (Enabled(p, steps[0]) && Valid(Apply(p, steps[0]), steps[1..]))
  }

  function Exec<B>(p: Pipe<B>, steps: seq<Step<B>>): Pipe<B>
    requires Valid(p, steps)
    decreases |steps|
  {
    if steps == [] then p else Exec(Apply(p, steps[0]), steps[1..])
  }

  // ---------------------------------------------------------------- conservation

  function Flatten<B>(q: seq<seq<B>>): seq<B> { if q == [] then [] else q[0] + Flatten(q[1..]) }

  ghost function Times<B>(xs: seq<B>, b: B): nat { multiset(xs)[b] }

  ghost function Here<B>(x: View<B>, b: B): nat { Times(x.pending, b) + Times(x.inHand, b) + Times(x.dropped, b) }

  /** How often `b` sits in the views: waiting, in hand or dropped. */
  ghost function InViews<B>(vs: seq<View<B>>, b: B): nat {
    if vs == [] then 0 else Here(vs[0], b) + InViews(vs[1..], b)
  }

  ghost predicate ConservedAt<B>(p: Pipe<B>, b: B) {
    Times(p.released, b) == InViews(p.views, b) + Times(Flatten(p.queue), b) + Times(p.delivered, b)
  }

  ghost predicate Conserved<B(!new)>(p: Pipe<B>) { forall b :: ConservedAt(p, b) }

  predicate BatchOk<B>(b: seq<B>) { 1 <= |b| <= BUNCH }

  ghost predicate QueueOk<B>(p: Pipe<B>) {
    |p.queue| <= CAPACITY && forall i | 0 <= i < |p.queue| :: BatchOk(p.queue[i])
  }

  /** A view drops blocks only once it has stopped; a sender leaves with empty hands. */
  predicate ViewOk<B>(x: View<B>) {
    && |x.inHand| <= BUNCH
    && (x.dropped != [] ==> x.stopped)
    && (x.exited ==> x.stopped && x.inHand == [])
  }

  ghost predicate ViewsOk<B>(p: Pipe<B>) { forall v | 0 <= v < |p.views| :: ViewOk(p.views[v]) }

  ghost predicate Inv<B(!new)>(p: Pipe<B>) { Conserved(p) && QueueOk(p) && ViewsOk(p) }

  lemma {:induction false} InViewsUpdate<B>(vs: seq<View<B>>, v: nat, x: View<B>, b: B)
    requires v < |vs|
    ensures InViews(vs[v := x], b) == InViews(vs, b) - Here(vs[v], b) + Here(x, b)
  {
    if v == 0 {
      assert vs[v := x][1..] == vs[1..];
    } else {
      assert vs[v := x][1..] == vs[1..][v - 1 := x];
      InViewsUpdate(vs[1..], v - 1, x, b);
    }
  }

  lemma {:induction false} InViewsNone<B>(vs: seq<View<B>>, b: B)
    requires forall v | 0 <= v < |vs| :: Here(vs[v], b) == 0
    ensures InViews(vs, b) == 0
  {
    if vs == [] {
    } else {
      InViewsNone(vs[1..], b);
    }
  }

  lemma TimesAppend<B>(xs: seq<B>, ys: seq<B>, b: B)
    ensures Times(xs + ys, b) == Times(xs, b) + Times(ys, b)
  {
  }

  lemma {:induction false} FlattenAppend<B>(q: seq<seq<B>>, b: seq<B>)
    ensures Flatten(q + [b]) == Flatten(q) + b
  {
    if q == [] {
      assert (q + [b])[1..] == [];
    } else {
      assert (q + [b])[1..] == q[1..] + [b];
      FlattenAppend(q[1..], b);
    }
  }

  lemma StepConservedAt<B>(p: Pipe<B>, s: Step<B>, b: B)
    requires Enabled(p, s) && ConservedAt(p, b)
    ensures ConservedAt(Apply(p, s), b)
  {
    var q := Apply(p, s);
    if s.Receive? {
      TimesAppend(p.queue[0], Flatten(p.queue[1..]), b);
      TimesAppend(p.delivered, p.queue[0], b);
    } else {
      var v := s.view;
      var x, y := p.views[v], q.views[v];
      InViewsUpdate(p.views, v, y, b);
      match s
      case Release(_, c) => TimesAppend(x.pending, [c], b); TimesAppend(p.released, [c], b);
      case Take(_) =>
        assert x.pending == y.pending + y.inHand;
        TimesAppend(y.pending, y.inHand, b);
      case SendOk(_) =>
        FlattenAppend(p.queue, x.inHand);
        TimesAppend(Flatten(p.queue), x.inHand, b);
      case SendDrop(_) => TimesAppend(x.dropped, x.inHand, b);
      case _ =>
    }
  }

  lemma StepQueueOk<B>(p: Pipe<B>, s: Step<B>)
    requires QueueOk(p) && ViewsOk(p) && Enabled(p, s)
    ensures QueueOk(Apply(p, s))
  {
    var q := Apply(p, s);
    forall i | 0 <= i < |q.queue| ensures BatchOk(q.queue[i]) {
      if s.Receive? { assert q.queue[i] == p.queue[i + 1]; }
      else if s.SendOk? { assert ViewOk(p.views[s.view]); }
    }
  }

  lemma StepViewsOk<B>(p: Pipe<B>, s: Step<B>)
    requires ViewsOk(p) && Enabled(p, s)
    ensures ViewsOk(Apply(p, s))
  {
    if !s.Receive? { assert ViewOk(p.views[s.view]); }
  }

  lemma StepInv<B(!new)>(p: Pipe<B>, s: Step<B>)
    requires Inv(p) && Enabled(p, s)
    ensures Inv(Apply(p, s))
  {
    forall b ensures ConservedAt(Apply(p, s), b) { StepConservedAt(p, s, b); }
    StepQueueOk(p, s);
    StepViewsOk(p, s);
  }

  lemma InitInv<B(!new)>(n: nat)
    ensures Inv(Init<B>(n))
  {
    forall b ensures ConservedAt(Init<B>(n), b) { InViewsNone(Init<B>(n).views, b); }
  }

  lemma {:induction false} RunInv<B(!new)>(p: Pipe<B>, steps: seq<Step<B>>)
    requires Inv(p) && Valid(p, steps)
    ensures Inv(Exec(p, steps))
    decreases |steps|
  {
    if steps == [] {
    } else {
      StepInv(p, steps[0]);
      RunInv(Apply(p, steps[0]), steps[1..]);
    }
  }

  /**
   * Over every run of any number of views: each block was released as often as it waits, is in hand, was
   * dropped, is queued or was delivered; batches hold 1 to 256 blocks; only stopped views drop blocks.
   */
  lemma Conservation<B(!new)>(n: nat, steps: seq<Step<B>>)
    requires Valid(Init<B>(n), steps)
    ensures var p := Exec(Init<B>(n), steps);
            && (forall b :: multiset(p.released)[b] ==
                  InViews(p.views, b) + multiset(Flatten(p.queue))[b] + multiset(p.delivered)[b])
            && |p.queue| <= CAPACITY && (forall i | 0 <= i < |p.queue| :: 1 <= |p.queue[i]| <= BUNCH)
            && (forall v | 0 <= v < |p.views| :: p.views[v].dropped != [] ==> p.views[v].stopped)
  {
    InitInv<B>(n);
    RunInv(Init<B>(n), steps);
    var p := Exec(Init<B>(n), steps);
    forall b ensures multiset(p.released)[b] ==
                  InViews(p.views, b) + multiset(Flatten(p.queue))[b] + multiset(p.delivered)[b]
    {
      assert ConservedAt(p, b);
    }
    assert forall i | 0 <= i < |p.queue| :: BatchOk(p.queue[i]);
    assert forall v | 0 <= v < |p.views| :: ViewOk(p.views[v]);
  }

  /** Everything flushed and nobody stopped: the callbacks saw exactly what was released. */
  lemma QuiescentDelivered<B(!new)>(p: Pipe<B>)
    requires Inv(p) && p.queue == []
    requires forall v | 0 <= v < |p.views| :: !p.views[v].stopped && p.views[v].pending == [] && p.views[v].inHand == []
    ensures multiset(p.delivered) == multiset(p.released)
  {
    forall b ensures multiset(p.delivered)[b] == multiset(p.released)[b] {
      assert ConservedAt(p, b);
      assert forall v | 0 <= v < |p.views| :: ViewOk(p.views[v]);
      InViewsNone(p.views, b);
    }
  }

  // ---------------------------------------------------------------- order

  /** A batch is the end of the list, at most 256 blocks, and the rest stays in order. */
  lemma TakeSplits<B>(p: Pipe<B>, v: nat)
    requires Enabled(p, Take(v))
    ensures var x, y := p.views[v], Apply(p, Take(v)).views[v];
            y.pending + y.inHand == x.pending && |y.inHand| == if |x.pending| < 256 then |x.pending| else 256
  {
  }

  /** The blocks of the batches sent along a run, in the order of sending. */
  function SentAlong<B>(p: Pipe<B>, steps: seq<Step<B>>): seq<B>
    requires Valid(p, steps)
    decreases |steps|
  {
    if steps == [] then []
    else
      (if steps[0].SendOk? then p.views[steps[0].view].inHand else []) + SentAlong(Apply(p, steps[0]), steps[1..])
  }

  lemma StepOrder<B>(p: Pipe<B>, s: Step<B>)
    requires Enabled(p, s)
    ensures var q := Apply(p, s);
            q.delivered + Flatten(q.queue)
            == p.delivered + Flatten(p.queue) + if s.SendOk? then p.views[s.view].inHand else []
  {
    match s
    case SendOk(v) => FlattenAppend(p.queue, p.views[v].inHand);
    case _ =>
  }

  lemma {:induction false} RunOrder<B>(p: Pipe<B>, steps: seq<Step<B>>)
    requires Valid(p, steps)
    ensures var q := Exec(p, steps);
            q.delivered + Flatten(q.queue) == p.delivered + Flatten(p.queue) + SentAlong(p, steps)
    decreases |steps|
  {
    if steps == [] {
    } else {
      StepOrder(p, steps[0]);
      RunOrder(Apply(p, steps[0]), steps[1..]);
    }
  }

  /** The callbacks see the blocks in the order in which the batches were sent. */
  lemma DeliveredInOrder<B>(n: nat, steps: seq<Step<B>>)
    requires Valid(Init<B>(n), steps)
    ensures var p := Exec(Init<B>(n), steps);
            SentAlong(Init<B>(n), steps) == p.delivered + Flatten(p.queue)
  {
    RunOrder(Init<B>(n), steps);
  }

  // ---------------------------------------------------------------- everything can be delivered

  /** Steps that the blocks of a view still need. */
  function Load<B>(x: View<B>): nat { 3 * |x.pending| + 2 * |x.inHand| }

  function Loads<B>(vs: seq<View<B>>): nat { if vs == [] then 0 else Load(vs[0]) + Loads(vs[1..]) }

  function Work<B>(p: Pipe<B>): nat { Loads(p.views) + |Flatten(p.queue)| }

  lemma {:induction false} LoadsUpdate<B>(vs: seq<View<B>>, v: nat, x: View<B>)
    requires v < |vs|
    ensures Loads(vs[v := x]) == Loads(vs) - Load(vs[v]) + Load(x)
  {
    if v == 0 {
      assert vs[v := x][1..] == vs[1..];
    } else {
      assert vs[v := x][1..] == vs[1..][v - 1 := x];
      LoadsUpdate(vs[1..], v - 1, x);
    }
  }

  /** No sender has left blocks behind. */
  ghost predicate Flushable<B>(p: Pipe<B>) {
    QueueOk(p) && ViewsOk(p) && forall v | 0 <= v < |p.views| :: p.views[v].exited ==> p.views[v].pending == []
  }

  ghost predicate Flushed<B>(p: Pipe<B>) {
    p.queue == [] && forall v | 0 <= v < |p.views| :: p.views[v].pending == [] && p.views[v].inHand == []
  }

  /** Nothing is released, dropped, stopped or left. */
  ghost predicate OnlyMoves<B>(p: Pipe<B>, q: Pipe<B>) {
    && q.released == p.released && |q.views| == |p.views|
    && forall v | 0 <= v < |p.views| ::
         q.views[v].(pending := [], inHand := []) == p.views[v].(pending := [], inHand := [])
  }

  /** The step brings blocks nearer to their callback. */
  ghost predicate Progress<B>(p: Pipe<B>, s: Step<B>) {
    Enabled(p, s) && OnlyMoves(p, Apply(p, s)) && Work(Apply(p, s)) < Work(p) && Flushable(Apply(p, s))
  }

  lemma ReceiveProgress<B>(p: Pipe<B>)
    requires Flushable(p) && p.queue != []
    ensures Progress(p, Receive)
  {
    assert BatchOk(p.queue[0]);
    StepQueueOk(p, Receive);
  }

  lemma SendProgress<B>(p: Pipe<B>, v: nat)
    requires Flushable(p) && p.queue == [] && v < |p.views| && p.views[v].inHand != []
    ensures Progress(p, SendOk(v))
  {
    LoadsUpdate(p.views, v, p.views[v].(inHand := []));
    FlattenAppend(p.queue, p.views[v].inHand);
    StepQueueOk(p, SendOk(v));
    StepViewsOk(p, SendOk(v));
  }

  lemma TakeProgress<B>(p: Pipe<B>, v: nat)
    requires Flushable(p) && v < |p.views| && p.views[v].inHand == [] && p.views[v].pending != []
    ensures Progress(p, Take(v))
  {
    LoadsUpdate(p.views, v, Apply(p, Take(v)).views[v]);
    StepViewsOk(p, Take(v));
  }

  lemma NextMove<B>(p: Pipe<B>) returns (s: Step<B>)
    requires Flushable(p) && !Flushed(p)
    ensures Progress(p, s)
  {
    if p.queue != [] {
      s := Receive;
      ReceiveProgress(p);
    } else if v :| 0 <= v < |p.views| && p.views[v].inHand != [] {
      s := SendOk(v);
      SendProgress(p, v);
    } else {
      var v :| 0 <= v < |p.views| && p.views[v].pending != [];
      s := Take(v);
      TakeProgress(p, v);
    }
  }

  lemma {:induction false} Flushes<B>(p: Pipe<B>) returns (steps: seq<Step<B>>)
    requires Flushable(p)
    ensures Valid(p, steps) && Flushed(Exec(p, steps)) && OnlyMoves(p, Exec(p, steps))
    decreases Work(p)
  {
    if Flushed(p) {
      steps := [];
    } else {
      var s := NextMove(p);
      var rest := Flushes(Apply(p, s));
      steps := [s] + rest;
      assert steps[1..] == rest;
    }
  }

  /**
   * From every state of every run in which no view was stopped, senders and receiver can go on until every released
   * block has had its callback.
   */
  lemma EverythingArrives<B(!new)>(n: nat, before: seq<Step<B>>) returns (steps: seq<Step<B>>)
    requires Valid(Init<B>(n), before)
    requires forall v | 0 <= v < |Exec(Init<B>(n), before).views| :: !Exec(Init<B>(n), before).views[v].stopped
    ensures var p := Exec(Init<B>(n), before);
            Valid(p, steps) && multiset(Exec(p, steps).delivered) == multiset(p.released)
  {
    var p := Exec(Init<B>(n), before);
    InitInv<B>(n);
    RunInv(Init<B>(n), before);
    assert forall v | 0 <= v < |p.views| :: ViewOk(p.views[v]);
    steps := Flushes(p);
    RunInv(p, steps);
    QuiescentDelivered(Exec(p, steps));
  }
}
