/**
 * The shutdown sequence: a controller that reads the device state, clears its queue, and then answers
 * every notified state with the transition that leads towards Exiting.  Device and controller interleave
 * step by step; nobody else controls the device any more.
 */
module Shutdown {
  import opened Wrappers
  import opened DeviceFsm
  import opened Device

  /** `Clearing` and `Act` carry the state the controller believes in; `Wait` the one it reacted to last. */
  datatype Controller = Snap | Clearing(n: State) | Act(n: State) | Wait(n: State) | Finished(n: State) | Thrown

  datatype Sys = Sys(dev: Dev, queue: seq<State>, ctl: Controller)

  datatype Move = DeviceMove(step: Step) | ReadState | ClearQueue | Issue | Consume

  /** The controller's answer to a state. */
  function EventFor(s: State): Option<Transition> {
    match s
    case Idle => Some(End)
    case InitializingDevice => Some(CompleteInit)
    case Initialized => Some(ResetDevice)
    case Bound => Some(ResetDevice)
    case DeviceReady => Some(ResetDevice)
    case Ready => Some(ResetTask)
    case Running => Some(Stop)
    case _ => None
  }

  predicate Can(y: Sys, v: Move) {
    match v
    case DeviceMove(s) => !s.Call? && Enabled(y.dev, s)
    case ReadState => y.ctl.Snap?
    case ClearQueue => y.ctl.Clearing?
    case Issue => y.ctl.Act?
    case Consume => y.ctl.Wait? && y.queue != []
  }

  /** What a device step tells the controller's queue. */
  function Told(d: Dev, s: Step): seq<State> {
    match s
    case Begin => [Idle]
    case Tell => [d.fsm.state]
    case Refuse(told) => if told then [d.fsm.state] else []
    case Fail => [Error]
    case _ => []
  }

  function Answered(y: Sys, e: Option<Transition>): Sys {
    match e
    case Some(t) => y.(dev := y.dev.(fsm := Change(y.dev.fsm, t)))
    case None => y
  }

  function Do(y: Sys, v: Move): Sys
    requires Can(y, v)
  {
    match v
    case DeviceMove(s) => y.(dev := Apply(y.dev, s), queue := y.queue + Told(y.dev, s))
    case ReadState => y.(ctl := if y.dev.fsm.state.Error? then Finished(Error) else Clearing(y.dev.fsm.state))
    case ClearQueue => y.(queue := [], ctl := Act(y.ctl.n))
    case Issue =>
      if Terminal(y.ctl.n) then y.(ctl := Finished(y.ctl.n))
      else Answered(y.(ctl := Wait(y.ctl.n)), EventFor(y.ctl.n))
    case Consume =>
      if y.queue[0].Error? then y.(ctl := Thrown) else y.(queue := y.queue[1..], ctl := Act(y.queue[0]))
  }

  /** A handler or a subscriber throws. */
  predicate Throws(v: Move) { v.DeviceMove? && (v.step.Throw? || v.step.Refuse?) }

  /** Moves that happen sooner or later: user code in Running may go on for ever, and need not throw. */
  predicate Sure(y: Sys, v: Move) {
    Can(y, v) && !Throws(v) && !(v == DeviceMove(Look) && y.dev.fsm.state.Running?)
  }

  predicate Over(y: Sys) { y.ctl.Finished? || y.ctl.Thrown? }

  ghost predicate Deadlocked(y: Sys) { !Over(y) && forall v :: !Sure(y, v) }

  // ---------------------------------------------------------------- termination

  /** Distance of a state from Exiting along the controller's answers. */
  function Rank(s: State): nat {
    match s
    case Exiting => 0
    case Idle => 1
    case ResettingDevice => 2
    case Initialized => 3
    case Bound => 3
    case DeviceReady => 3
    case InitializingDevice => 4
    case Binding => 4
    case Connecting => 4
    case ResettingTask => 4
    case Ready => 5
    case InitializingTask => 6
    case Running => 6
    case _ => 0
  }

  function WorkerSteps(w: Worker): nat {
    match w
    case Ended => 0
    case Waiting => 0
    case Reporting => 1
    case Failing => 5
    case Decide => 6
    case Handle => 7
    case Start => 9
    case Notify => 11
  }

  function ControllerSteps(c: Controller): nat {
    match c
    case Snap => 4
    case Clearing(_) => 3
    case Act(_) => 2
    case Wait(_) => 1
    case _ => 0
  }

  function FsmSteps(f: Fsm): nat {
    (if f.failed then 0 else 20 * (1 + Rank(f.main))) + (if f.pending then 12 else 0)
  }

  function Measure(y: Sys): nat {
    FsmSteps(y.dev.fsm) + WorkerSteps(y.dev.worker) + 3 * |y.queue| + ControllerSteps(y.ctl)
  }

  /** A request that can occur during shutdown never adds to the steps that remain. */
  lemma RequestCost(f: Fsm, t: Transition)
    requires t in {End, CompleteInit, ResetDevice, ResetTask, Stop, Auto, ErrorFound}
    ensures FsmSteps(Change(f, t)) <= FsmSteps(f)
    ensures LetsThrough(f, t) && !f.failed && ProcessEvent(f, t).lastResult ==>
            FsmSteps(Change(f, t)) <= FsmSteps(f) - 8
  {
  }

  lemma MoveDecreases(y: Sys, v: Move)
    requires Can(y, v) && DevOk(y.dev)
    ensures Measure(Do(y, v)) < Measure(y)
  {
    var f := y.dev.fsm;
    if v.Issue? {
      if EventFor(y.ctl.n).Some? { RequestCost(f, EventFor(y.ctl.n).value); }
    } else if v.DeviceMove? {
      DeviceDecreases(y.dev, v.step);
    }
  }

  lemma DeviceDecreases(d: Dev, s: Step)
    requires DevOk(d) && Enabled(d, s) && !s.Call?
    ensures var e := Apply(d, s);
            FsmSteps(e.fsm) + WorkerSteps(e.worker) + 3 * |Told(d, s)| < FsmSteps(d.fsm) + WorkerSteps(d.worker)
  {
    var f := d.fsm;
    match s
    case Request =>
      var t := OwnRequest(f.state);
      RequestCost(f, t);
      RequestCost(Change(f, t), ErrorFound);
    case Throw => RequestCost(f, ErrorFound);
    case Report => RequestCost(f, ErrorFound);
    case _ =>
  }

  // ---------------------------------------------------------------- no deadlock

  /** The committed state has been pushed to the queue. */
  predicate Notified(d: Dev) { !d.worker.Start? && !d.worker.Notify? && !d.worker.Failing? }

  /** Left alone, the device comes to rest without telling anybody anything more. */
  predicate Quiet(d: Dev) {
    match d.worker
    case Waiting => !d.fsm.pending
    case Handle => d.fsm.state.Exiting? || (!d.fsm.pending && !Working(d.fsm.state) && !d.fsm.state.Error?)
    case Reporting => true
    case Ended => true
    case _ => false
  }

  /** Reacting to `n` ends the sequence or sets the resting device in motion. */
  predicate Answerable(d: Dev, n: State) {
    || Terminal(n)
    || (&& !d.worker.Reporting? && !d.worker.Ended? && !d.fsm.state.Exiting?
        && EventFor(n).Some? && Next(d.fsm.main, EventFor(n).value).Some?)
  }

  /** The controller missed the last state the device will ever announce. */
  predicate Stuck(y: Sys) { y.ctl.Act? && y.queue == [] && Quiet(y.dev) && !Answerable(y.dev, y.ctl.n) }

  predicate Live(y: Sys) {
    && DevOk(y.dev) && (y.ctl.Act? || y.ctl.Wait? || Over(y))
    && (!Over(y) ==>
          && (y.ctl.Wait? ==> !Terminal(y.ctl.n))
          && (y.queue != [] && Notified(y.dev) ==> y.queue[|y.queue| - 1] == y.dev.fsm.state)
          && (y.queue == [] && Quiet(y.dev) ==> y.ctl.Act? && Answerable(y.dev, y.ctl.n)))
  }

  lemma OwnStateAnswerable(d: Dev)
    requires DevOk(d) && Quiet(d)
    ensures Answerable(d, d.fsm.state)
  {
  }

  lemma DeviceLive(y: Sys, s: Step)
    requires Live(y) && !Over(y) && Can(y, DeviceMove(s))
    ensures Live(Do(y, DeviceMove(s)))
  {
    StepOk(y.dev, s);
  }

  lemma IssueLive(y: Sys)
    requires Live(y) && !Over(y) && Can(y, Issue)
    ensures Live(Do(y, Issue))
  {
    if !Terminal(y.ctl.n) && EventFor(y.ctl.n).Some? { ChangeOk(y.dev.fsm, EventFor(y.ctl.n).value); }
  }

  lemma ConsumeLive(y: Sys)
    requires Live(y) && !Over(y) && Can(y, Consume)
    ensures Live(Do(y, Consume))
  {
    if Quiet(y.dev) { OwnStateAnswerable(y.dev); }
  }

  lemma MoveLive(y: Sys, v: Move)
    requires Live(y) && Can(y, v)
    ensures Live(Do(y, v))
  {
    if Over(y) { StepOk(y.dev, v.step); }
    else if v.DeviceMove? { DeviceLive(y, v.step); }
    else if v.Issue? { IssueLive(y); }
    else { ConsumeLive(y); }
  }

  lemma RestlessMoves(d: Dev) returns (s: Step)
    requires DevOk(d) && !Quiet(d)
    ensures Enabled(d, s) && !s.Call? && !Throws(DeviceMove(s)) && !(s.Look? && d.fsm.state.Running?)
  {
    match d.worker
    case Start => s := Begin;
    case Waiting => s := Take;
    case Notify => s := Tell;
    case Handle => s := if d.fsm.pending || d.fsm.state.Error? then Return else Look;
    case Decide => s := Request;
    case Failing => s := Fail;
  }

  lemma LiveNotDeadlocked(y: Sys)
    requires Live(y)
    ensures !Deadlocked(y)
  {
    if !Over(y) {
      if y.ctl.Act? { assert Sure(y, Issue); }
      else if y.queue != [] { assert Sure(y, Consume); }
      else {
        var s := RestlessMoves(y.dev);
        assert Sure(y, DeviceMove(s));
      }
    }
  }

  // ---------------------------------------------------------------- outcome

  /** Nothing the controller saw or will see runs ahead of the device. */
  predicate Honest(y: Sys) {
    && (Error in y.queue ==> y.dev.fsm.state.Error?)
    && (Exiting in y.queue ==> Terminal(y.dev.fsm.state))
    && (match y.ctl
        case Snap => true
        case Clearing(n) => !n.Error? && (Terminal(n) ==> Terminal(y.dev.fsm.state))
        case Act(n) => Terminal(n) ==> Terminal(y.dev.fsm.state)
        case Wait(n) => !Terminal(n)
        case Finished(n) => Terminal(n) && Terminal(y.dev.fsm.state)
        case Thrown => y.dev.fsm.state.Error?)
  }

  lemma TerminalStays(d: Dev, s: Step)
    requires DevOk(d) && Enabled(d, s)
    ensures Terminal(d.fsm.state) ==> Terminal(Apply(d, s).fsm.state)
    ensures d.fsm.state.Error? ==> Apply(d, s).fsm.state.Error?
  {
    if Terminal(d.fsm.state) { TerminalIsFinal(d, s); }
  }

  lemma MoveHonest(y: Sys, v: Move)
    requires DevOk(y.dev) && Honest(y) && Can(y, v)
    ensures Honest(Do(y, v))
  {
    if v.DeviceMove? { TerminalStays(y.dev, v.step); }
  }

  // ---------------------------------------------------------------- whole runs

  predicate Valid(y: Sys, vs: seq<Move>)
    decreases |vs|
  {
    vs == [] || (Can(y, vs[0]) && Valid(Do(y, vs[0]), vs[1..]))
  }

  function Exec(y: Sys, vs: seq<Move>): Sys
    requires Valid(y, vs)
    decreases |vs|
  {
    if vs == [] then y else Exec(Do(y, vs[0]), vs[1..])
  }

  lemma MoveDevOk(y: Sys, v: Move)
    requires DevOk(y.dev) && Can(y, v)
    ensures DevOk(Do(y, v).dev)
  {
    if v.DeviceMove? { StepOk(y.dev, v.step); }
    else if v.Issue? && EventFor(y.ctl.n).Some? { ChangeOk(y.dev.fsm, EventFor(y.ctl.n).value); }
  }

  lemma {:induction false} RunFacts(y: Sys, vs: seq<Move>)
    requires DevOk(y.dev) && Valid(y, vs)
    ensures var z := Exec(y, vs);
            && DevOk(z.dev) && |vs| + Measure(z) <= Measure(y)
            && (Live(y) ==> Live(z)) && (Honest(y) ==> Honest(z))
    decreases |vs|
  {
    if vs == [] {
    } else {
      MoveDecreases(y, vs[0]);
      MoveDevOk(y, vs[0]);
      if Live(y) { MoveLive(y, vs[0]); }
      if Honest(y) { MoveHonest(y, vs[0]); }
      RunFacts(Do(y, vs[0]), vs[1..]);
    }
  }

  /** The controller has just cleared its queue. */
  predicate JustCleared(y: Sys) { DevOk(y.dev) && y.ctl.Act? && y.queue == [] && !y.ctl.n.Error? }

  lemma ClearedLive(y: Sys)
    requires JustCleared(y)
    ensures Live(y) <==> !Stuck(y)
  {
  }

  /**
   * With the snapshot and the clearing of the queue as one step, shutdown cannot fail to end: from every
   * device state, pending and unannounced transitions included, every run has at most Measure moves, and a
   * run that cannot be continued has finished, with the device in Exiting or Error.
   */
  lemma ShutdownCompletes(y: Sys, vs: seq<Move>)
    requires DevOk(y.dev) && y.ctl.Snap? && !y.dev.fsm.state.Error?
    requires var c := Do(Do(y, ReadState), ClearQueue); Valid(c, vs)
    ensures var c := Do(Do(y, ReadState), ClearQueue); var z := Exec(c, vs);
            && |vs| <= Measure(c) && !Deadlocked(z)
            && (Over(z) ==> Terminal(z.dev.fsm.state))
  {
    var c := Do(Do(y, ReadState), ClearQueue);
    if Quiet(c.dev) { OwnStateAnswerable(c.dev); }
    ClearedLive(c);
    RunFacts(c, vs);
    LiveNotDeadlocked(Exec(c, vs));
  }

  lemma ShutdownFromSnap(y: Sys, vs: seq<Move>)
    requires DevOk(y.dev) && y.ctl.Snap?
    requires var r := Do(y, ReadState); r.ctl.Clearing? ==> Valid(Do(r, ClearQueue), vs)
    ensures var r := Do(y, ReadState);
            if r.ctl.Clearing? then
              var z := Exec(Do(r, ClearQueue), vs);
              |vs| <= Measure(y) && !Deadlocked(z) && (Over(z) ==> Terminal(z.dev.fsm.state))
            else Over(r) && r.dev.fsm.state.Error?
  {
    if !y.dev.fsm.state.Error? {
      ShutdownCompletes(y, vs);
      MoveDecreases(y, ReadState);
      MoveDecreases(Do(y, ReadState), ClearQueue);
    }
  }

  /** The same from whatever any callers and the worker did before, and with any leftovers in the queue. */
  lemma ShutdownFromAnyRun(before: seq<Step>, leftovers: seq<State>, vs: seq<Move>)
    requires Device.Valid(NEW_DEVICE, before)
    requires var y := Sys(Device.Exec(NEW_DEVICE, before).dev, leftovers, Snap); var r := Do(y, ReadState);
             r.ctl.Clearing? ==> Valid(Do(r, ClearQueue), vs)
    ensures var y := Sys(Device.Exec(NEW_DEVICE, before).dev, leftovers, Snap); var r := Do(y, ReadState);
            if r.ctl.Clearing? then
              var z := Exec(Do(r, ClearQueue), vs);
              |vs| <= Measure(y) && !Deadlocked(z) && (Over(z) ==> Terminal(z.dev.fsm.state))
            else Over(r) && r.dev.fsm.state.Error?
  {
    RunOk(NEW_DEVICE, before);
    ShutdownFromSnap(Sys(Device.Exec(NEW_DEVICE, before).dev, leftovers, Snap), vs);
  }

  ghost predicate LeadsToDeadlock(y: Sys, vs: seq<Move>) { Valid(y, vs) && Deadlocked(Exec(y, vs)) }

  lemma RestingDeadlocked(y: Sys)
    requires DevOk(y.dev) && y.ctl.Wait? && y.queue == []
    requires y.dev.worker.Ended? || (!y.dev.fsm.pending && (y.dev.worker.Waiting? ||
      (y.dev.worker.Handle? && (y.dev.fsm.state.InitializingDevice? || y.dev.fsm.state.Running?))))
    ensures Deadlocked(y)
  {
  }

  lemma StuckRun(y: Sys) returns (vs: seq<Move>)
    requires JustCleared(y) && Stuck(y)
    ensures LeadsToDeadlock(y, vs) && NoThrow(vs)
  {
    var z := Do(y, Issue);
    MoveDevOk(y, Issue);
    assert z.ctl.Wait? && z.queue == [] && z.dev.worker == y.dev.worker && z.dev.fsm.state == y.dev.fsm.state;
    if z.dev.worker.Reporting? {
      vs := TwoMoves(y, Issue, DeviceMove(Report));
    } else if z.dev.worker.Handle? && !z.dev.fsm.state.InitializingDevice? && !z.dev.fsm.state.Running? {
      vs := TwoMoves(y, Issue, DeviceMove(Return));
    } else {
      vs := [Issue];
      OneMove(y, Issue);
    }
    RunFacts(y, vs);
    RestingDeadlocked(Exec(y, vs));
  }

  lemma OneMove(y: Sys, a: Move)
    requires Can(y, a)
    ensures Valid(y, [a]) && Exec(y, [a]) == Do(y, a)
  {
    assert [a][1..] == [];
  }

  lemma TwoMoves(y: Sys, a: Move, b: Move) returns (vs: seq<Move>)
    requires Can(y, a) && Can(Do(y, a), b)
    ensures vs == [a, b] && Valid(y, vs) && Exec(y, vs) == Do(Do(y, a), b)
  {
    vs := [a, b];
    assert vs[1..] == [b];
    OneMove(Do(y, a), b);
  }

  lemma {:induction false} RunAppend(y: Sys, a: seq<Move>, b: seq<Move>)
    requires Valid(y, a) && Valid(Exec(y, a), b)
    ensures Valid(y, a + b) && Exec(y, a + b) == Exec(Exec(y, a), b)
    decreases |a|
  {
    if a == [] {
      assert a + b == b;
    } else {
      assert (a + b)[1..] == a[1..] + b;
      RunAppend(Do(y, a[0]), a[1..], b);
    }
  }

  lemma ThreeMoves(y: Sys, a: Move, b: Move, c: Move)
    requires Can(y, a) && Can(Do(y, a), b) && Can(Do(Do(y, a), b), c)
    ensures Valid(y, [a, b, c]) && Exec(y, [a, b, c]) == Do(Do(Do(y, a), b), c)
  {
    assert [a, b, c][1..] == [b, c];
    var vs := TwoMoves(Do(y, a), b, c);
  }

  // ---------------------------------------------------------------- when the two steps of the code can deadlock

  /** No handler and no subscriber throws. */
  predicate NoThrow(vs: seq<Move>) { forall v | v in vs :: !Throws(v) }

  /** A deadlock can be reached, with user code that may throw or only with user code that returns. */
  ghost predicate CanDeadlock(y: Sys, throwing: bool) {
    exists vs :: LeadsToDeadlock(y, vs) && (throwing || NoThrow(vs))
  }

  lemma DeadlockBefore(y: Sys, v: Move, throwing: bool)
    requires Can(y, v) && CanDeadlock(Do(y, v), throwing) && (throwing || !Throws(v))
    ensures CanDeadlock(y, throwing)
  {
    var vs :| LeadsToDeadlock(Do(y, v), vs) && (throwing || NoThrow(vs));
    assert ([v] + vs)[1..] == vs;
    assert LeadsToDeadlock(y, [v] + vs);
  }

  /**
   * The device is past the point where it would announce anything that the answer to `n` could match: there is no
   * answer, an error is under way, or it rests in a state that does not take the answer.
   */
  predicate Missed(d: Dev, n: State) {
    || EventFor(n).None? || d.fsm.failed || d.worker.Failing? || d.worker.Reporting?
    || (Next(d.fsm.main, EventFor(n).value).None? && !Working(d.fsm.main) && (d.worker.Decide? ==> d.fsm.pending))
  }

  lemma MissedAtRest(d: Dev, n: State)
    requires DevOk(d) && Missed(d, n) && Quiet(d) && !Terminal(n)
    ensures !Answerable(d, n)
  {
  }

  /** Left alone, the device comes to rest, still without having noticed. */
  lemma MissedGoesOn(d: Dev, n: State) returns (s: Step)
    requires DevOk(d) && Missed(d, n) && !Quiet(d)
    ensures Enabled(d, s) && !s.Call? && !Throws(DeviceMove(s)) && Missed(Apply(d, s), n)
  {
    s := RestlessMoves(d);
  }

  /** The controller holds a state that the device has left behind: clearing the queue now is too late. */
  lemma {:induction false} ReadTooEarly(y: Sys)
    requires DevOk(y.dev) && y.ctl.Clearing? && !Terminal(y.ctl.n) && Missed(y.dev, y.ctl.n)
    ensures CanDeadlock(y, false)
    decreases FsmSteps(y.dev.fsm) + WorkerSteps(y.dev.worker)
  {
    if Quiet(y.dev) {
      MissedAtRest(y.dev, y.ctl.n);
      var c := Do(y, ClearQueue);
      var vs := StuckRun(c);
      assert CanDeadlock(c, false);
      DeadlockBefore(y, ClearQueue, false);
    } else {
      var s := MissedGoesOn(y.dev, y.ctl.n);
      StepOk(y.dev, s);
      DeviceDecreases(y.dev, s);
      ReadTooEarly(Do(y, DeviceMove(s)));
      DeadlockBefore(y, DeviceMove(s), false);
    }
  }

  lemma ReadNow(y: Sys)
    requires DevOk(y.dev) && y.ctl.Snap? && !Terminal(y.dev.fsm.state) && Missed(y.dev, y.dev.fsm.state)
    ensures CanDeadlock(y, false)
  {
    ReadTooEarly(Do(y, ReadState));
    DeadlockBefore(y, ReadState, false);
  }

  /**
   * What can be seen before the call: something is pending, an exception is out, or a handler will move on.  If user
   * code may throw, also a state that has not been announced yet.
   */
  predicate AtRisk(d: Dev, throwing: bool) {
    && !Terminal(d.fsm.state)
    && (|| d.fsm.pending || d.worker.Failing? || Working(d.fsm.state) || d.fsm.state.Running?
        || (throwing && (d.worker.Start? || d.worker.Notify?)))
  }

  /** A state and the resting state a pending transition leads to never share an answer. */
  lemma NoCommonAnswer(a: State, b: State)
    requires Edge(a, b) && !Working(a) && !Working(b)
    ensures EventFor(a).Some? ==> Next(b, EventFor(a).value).None?
  {
  }

  /** The step that brings the device nearer to a state worth misreading. */
  function Nearer(d: Dev): Step {
    match d.worker
    case Start => Begin
    case Waiting => Take
    case Notify => Tell
    case Handle => if d.fsm.pending then Return else Look
    case _ => Request
  }

  lemma RiskMisses(d: Dev)
    requires DevOk(d) && AtRisk(d, false) && !Missed(d, d.fsm.state)
    ensures var s := Nearer(d);
            && Enabled(d, s) && !s.Call? && !Throws(DeviceMove(s))
            && DevOk(Apply(d, s)) && AtRisk(Apply(d, s), false)
  {
    var f := d.fsm;
    if f.pending && !Working(f.main) { NoCommonAnswer(f.state, f.main); }
    assert Enabled(d, Nearer(d));
    StepOk(d, Nearer(d));
  }

  lemma {:induction false} RiskDeadlocks(y: Sys)
    requires DevOk(y.dev) && y.ctl.Snap? && AtRisk(y.dev, false)
    ensures CanDeadlock(y, false)
    decreases FsmSteps(y.dev.fsm) + WorkerSteps(y.dev.worker)
  {
    if Missed(y.dev, y.dev.fsm.state) {
      ReadNow(y);
    } else {
      RiskMisses(y.dev);
      var s := Nearer(y.dev);
      DeviceDecreases(y.dev, s);
      RiskDeadlocks(Do(y, DeviceMove(s)));
      DeadlockBefore(y, DeviceMove(s), false);
    }
  }

  /** A subscriber that may throw puts every unannounced state at risk. */
  lemma ThrowDeadlocks(y: Sys)
    requires DevOk(y.dev) && y.ctl.Snap? && AtRisk(y.dev, true)
    ensures CanDeadlock(y, true)
  {
    if AtRisk(y.dev, false) {
      RiskDeadlocks(y);
    } else {
      StepOk(y.dev, Refuse(false));
      RiskDeadlocks(Do(y, DeviceMove(Refuse(false))));
      DeadlockBefore(y, DeviceMove(Refuse(false)), true);
    }
  }

  /** The other half: the snapshot stays right until the queue is cleared. */
  predicate Unaffected(y: Sys, throwing: bool) {
    var d := y.dev;
    && DevOk(d)
    && match y.ctl
       case Snap => Terminal(d.fsm.state) || !AtRisk(d, throwing)
       case Clearing(n) => n.Exiting? || (!Terminal(n) && n == d.fsm.state && !AtRisk(d, throwing))
       case _ => Live(y)
  }

  lemma UnaffectedNotDeadlocked(y: Sys, throwing: bool)
    requires Unaffected(y, throwing)
    ensures !Deadlocked(y)
  {
    match y.ctl
    case Snap => assert Sure(y, ReadState);
    case Clearing(_) => assert Sure(y, ClearQueue);
    case _ => LiveNotDeadlocked(y);
  }

  lemma UnaffectedClear(y: Sys, throwing: bool)
    requires Unaffected(y, throwing) && y.ctl.Clearing?
    ensures Unaffected(Do(y, ClearQueue), throwing)
  {
    var c := Do(y, ClearQueue);
    if Quiet(c.dev) { OwnStateAnswerable(c.dev); }
    ClearedLive(c);
  }

  lemma UnaffectedStep(y: Sys, s: Step, throwing: bool)
    requires Unaffected(y, throwing) && (y.ctl.Snap? || y.ctl.Clearing?)
    requires Can(y, DeviceMove(s)) && (throwing || !Throws(DeviceMove(s)))
    ensures Unaffected(Do(y, DeviceMove(s)), throwing)
  {
    StepOk(y.dev, s);
    TerminalStays(y.dev, s);
  }

  lemma UnaffectedMove(y: Sys, v: Move, throwing: bool)
    requires Unaffected(y, throwing) && Can(y, v) && (throwing || !Throws(v))
    ensures Unaffected(Do(y, v), throwing)
  {
    if Live(y) {
      MoveLive(y, v);
    } else {
      match v
      case DeviceMove(s) => UnaffectedStep(y, s, throwing);
      case ReadState =>
      case ClearQueue => UnaffectedClear(y, throwing);
    }
  }

  lemma {:induction false} UnaffectedRun(y: Sys, vs: seq<Move>, throwing: bool)
    requires Unaffected(y, throwing) && Valid(y, vs) && (throwing || NoThrow(vs))
    ensures !Deadlocked(Exec(y, vs))
    decreases |vs|
  {
    if vs == [] {
      UnaffectedNotDeadlocked(y, throwing);
    } else {
      assert vs[0] in vs;
      UnaffectedMove(y, vs[0], throwing);
      UnaffectedRun(Do(y, vs[0]), vs[1..], throwing);
    }
  }

  /**
   * The sequence as it is in the code, with the snapshot and the clearing as two steps: from the moment of the call
   * a deadlock can be reached exactly if the device is at risk.
   */
  lemma DeadlockIff(y: Sys, throwing: bool)
    requires DevOk(y.dev) && y.ctl.Snap?
    ensures CanDeadlock(y, throwing) <==> AtRisk(y.dev, throwing)
  {
    if AtRisk(y.dev, throwing) {
      if throwing { ThrowDeadlocks(y); } else { RiskDeadlocks(y); }
    } else {
      forall vs | Valid(y, vs) && (throwing || NoThrow(vs)) ensures !LeadsToDeadlock(y, vs) {
        UnaffectedRun(y, vs, throwing);
      }
    }
  }

  /** States that the device leaves only when it is asked to. */
  predicate Resting(s: State) {
    s.Idle? || s.InitializingDevice? || s.Initialized? || s.Bound? || s.DeviceReady? || s.Ready?
  }

  /**
   * When the call is safe: the device has ended, or nothing is pending and it rests in a state that it has announced.
   * If user code never throws, the announcement may still be to come.
   */
  lemma SafeIff(y: Sys, throwing: bool)
    requires DevOk(y.dev) && y.ctl.Snap?
    ensures var f, w := y.dev.fsm, y.dev.worker;
            !CanDeadlock(y, throwing) <==>
              || Terminal(f.state)
              || (!f.pending && Resting(f.state) && (w.Waiting? || w.Handle? || (!throwing && (w.Start? || w.Notify?))))
  {
    DeadlockIff(y, throwing);
  }

  // ---------------------------------------------------------------- a run that waits for ever

  ghost predicate Reachable(d: Dev) {
    exists steps :: Device.Valid(NEW_DEVICE, steps) && Device.Exec(NEW_DEVICE, steps).dev == d
  }

  lemma ReachNext(d: Dev, s: Step)
    requires Reachable(d) && Enabled(d, s)
    ensures Reachable(Apply(d, s))
  {
    var steps :| Device.Valid(NEW_DEVICE, steps) && Device.Exec(NEW_DEVICE, steps).dev == d;
    ExecNext(NEW_DEVICE, steps, s);
    assert Device.Valid(NEW_DEVICE, steps + [s]) && Device.Exec(NEW_DEVICE, steps + [s]).dev == Apply(d, s);
  }

  /** The device sits in a state, with nothing pending and no error. */
  function In(s: State, w: Worker): Dev { Dev(Fsm(s, s, false, s, false, true), w) }

  /** A pending transition is committed and announced. */
  lemma Arrive(f: Fsm, b: State)
    requires Reachable(Dev(f, Waiting)) && f.pending && f.newState == b && f.main == b && !f.failed && f.lastResult
    ensures Reachable(In(b, Handle))
  {
    ReachNext(Dev(f, Waiting), Take);
    ReachNext(Apply(Dev(f, Waiting), Take), Tell);
  }

  lemma Asked(a: State, t: Transition, b: State)
    requires Next(a, t) == Some(b) && !Terminal(a)
    ensures var f := Fsm(a, b, true, b, false, true);
            && Apply(In(a, Handle), Call(t)) == Dev(f, Handle)
            && Enabled(Dev(f, Handle), Return) && Apply(Dev(f, Handle), Return) == Dev(f, Waiting)
  {
    EdgeBy(a, t, b);
  }

  /** A caller requests a transition while the handler of a state runs. */
  lemma MoveOn(a: State, t: Transition, b: State)
    requires Reachable(In(a, Handle)) && Next(a, t) == Some(b) && !Terminal(a)
    ensures Reachable(In(b, Handle))
  {
    Asked(a, t, b);
    var f := Fsm(a, b, true, b, false, true);
    ReachNext(In(a, Handle), Call(t));
    ReachNext(Dev(f, Handle), Return);
    Arrive(f, b);
  }

  lemma FirstMove()
    ensures Reachable(In(InitializingDevice, Handle))
  {
    assert Device.Valid(NEW_DEVICE, []) && Device.Exec(NEW_DEVICE, []).dev == FRESH;
    ReachNext(FRESH, Begin);
    var d := Apply(Apply(FRESH, Begin), Call(InitDevice));
    ReachNext(Apply(FRESH, Begin), Call(InitDevice));
    Arrive(d.fsm, InitializingDevice);
  }

  lemma TwoOn(a: State, t: Transition, b: State, u: Transition, c: State)
    requires Reachable(In(a, Handle)) && !Terminal(a) && !Terminal(b)
    requires Next(a, t) == Some(b) && Next(b, u) == Some(c)
    ensures Reachable(In(c, Handle))
  {
    MoveOn(a, t, b);
    MoveOn(b, u, c);
  }

  lemma BindingIsReachable()
    ensures Reachable(In(Binding, Handle))
  {
    FirstMove();
    TwoOn(InitializingDevice, CompleteInit, Initialized, Bind, Binding);
  }

  lemma ConnectingIsReachable()
    ensures Reachable(In(Connecting, Handle))
  {
    BindingIsReachable();
    TwoOn(Binding, Auto, Bound, Connect, Connecting);
  }

  lemma TaskIsReachable()
    ensures Reachable(In(InitializingTask, Handle))
  {
    ConnectingIsReachable();
    TwoOn(Connecting, Auto, DeviceReady, InitTask, InitializingTask);
  }

  lemma RunningIsReachable()
    ensures Reachable(In(Running, Handle))
  {
    TaskIsReachable();
    TwoOn(InitializingTask, Auto, Ready, Run, Running);
  }

  const IN_RUNNING: Sys := Sys(In(Running, Handle), [], Snap)

  /** The handler of Running stops by itself between the controller's snapshot and its Clear. */
  const LATE_STOP: seq<Move> := [ReadState, DeviceMove(Look), DeviceMove(Request)]
  const LATE_READY: seq<Move> := [DeviceMove(Return), DeviceMove(Take), DeviceMove(Tell)]
  const LATE_CLEAR: seq<Move> := [ClearQueue, Issue, DeviceMove(Return)]

  /** Snapshot Running, then the device announces Ready before the queue is cleared: nobody moves again. */
  lemma MissedReady()
    ensures Reachable(IN_RUNNING.dev)
    ensures Valid(IN_RUNNING, LATE_STOP + LATE_READY + LATE_CLEAR)
    ensures Deadlocked(Exec(IN_RUNNING, LATE_STOP + LATE_READY + LATE_CLEAR))
  {
    RunningIsReachable();
    LateStopRun();
    LateReadyRun();
    LateClearRun();
    RunAppend(IN_RUNNING, LATE_STOP, LATE_READY);
    RunAppend(IN_RUNNING, LATE_STOP + LATE_READY, LATE_CLEAR);
    RestingDeadlocked(WAITS);
  }

  const STOPPING: Sys := Sys(Dev(Fsm(Running, Ready, true, Ready, false, true), Handle), [], Clearing(Running))
  const ANNOUNCED: Sys := Sys(Dev(Fsm(Ready, Ready, false, Ready, false, true), Handle), [Ready], Clearing(Running))
  const WAITS: Sys := Sys(Dev(Fsm(Ready, Ready, false, Ready, false, false), Waiting), [], Wait(Running))

  lemma LateStopRun()
    ensures Valid(IN_RUNNING, LATE_STOP) && Exec(IN_RUNNING, LATE_STOP) == STOPPING
  {
    ThreeMoves(IN_RUNNING, ReadState, DeviceMove(Look), DeviceMove(Request));
  }

  lemma LateReadyRun()
    ensures Valid(STOPPING, LATE_READY) && Exec(STOPPING, LATE_READY) == ANNOUNCED
  {
    ThreeMoves(STOPPING, DeviceMove(Return), DeviceMove(Take), DeviceMove(Tell));
  }

  lemma LateClearRun()
    ensures Valid(ANNOUNCED, LATE_CLEAR) && Exec(ANNOUNCED, LATE_CLEAR) == WAITS
  {
    ThreeMoves(ANNOUNCED, ClearQueue, Issue, DeviceMove(Return));
  }
}
