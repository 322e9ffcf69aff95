/** The device around the state machine: the worker thread, its handlers, and any number of callers. */
module Device {
  import opened Wrappers
  import opened DeviceFsm

  /**
   * Where the worker is.  `Notify`: a state has been committed, subscribers not told yet.  `Handle`: the
   * state's handler runs.  `Decide`: the handler found no pending transition and is about to request its
   * own.  `Failing`, `Reporting`: an exception has left the loop; the state becomes Error and
   * subscribers are told, then ErrorFound is raised.
   */
  datatype Worker = Start | Waiting | Notify | Handle | Decide | Failing | Reporting | Ended

  datatype Dev = Dev(fsm: Fsm, worker: Worker)

  datatype Step =
    | Begin        // first notification, before the loop
    | Take         // commit the pending state
    | Tell         // state-change callbacks
    | Return       // the handler returns
    | Look         // the handler sees that nothing is pending
    | Request      // ... and requests its own transition
    | Throw        // the handler throws
    | Refuse(told: bool)   // a subscriber throws; `told`: after the others have been told
    | Fail         // the state becomes Error, subscribers are told
    | Report       // ErrorFound after an exception
    | Call(t: Transition)  // any other thread

  /** States whose handler moves on by itself. */
  predicate Working(s: State) {
    s.Binding? || s.Connecting? || s.InitializingTask? || s.ResettingTask? || s.ResettingDevice?
  }

  /** States with a handler that runs user code; that of InitializingDevice first waits for a pending state. */
  predicate MayThrow(f: Fsm) {
    Working(f.state) || f.state.Running? || f.state.Exiting? || (f.state.InitializingDevice? && f.pending)
  }

  /** The transition a handler requests when nothing else is pending. */
  function OwnRequest(s: State): Transition { if s.Running? then Stop else Auto }

  predicate Terminal(s: State) { s.Exiting? || s.Error? }

  predicate Enabled(d: Dev, s: Step) {
    match s
    case Begin => d.worker.Start?
    case Take => d.worker.Waiting? && d.fsm.pending
    case Tell => d.worker.Notify?
    case Return =>
      && d.worker.Handle?
      && (Working(d.fsm.state) || d.fsm.state.Running? || d.fsm.state.InitializingDevice? ==> d.fsm.pending)
    case Look => d.worker.Handle? && !d.fsm.pending && (Working(d.fsm.state) || d.fsm.state.Running?)
    case Request => d.worker.Decide?
    case Throw => d.worker.Handle? && MayThrow(d.fsm)
    case Refuse(_) => d.worker.Start? || d.worker.Notify?
    case Fail => d.worker.Failing?
    case Report => d.worker.Reporting?
    case Call(_) => true
  }

  /** An exception leaves a handler; Running's handler raises ErrorFound on the way out. */
  function Thrown(d: Dev): Dev {
    Dev(if d.fsm.state.Running? then Change(d.fsm, ErrorFound) else d.fsm, Failing)
  }

  function Apply(d: Dev, s: Step): Dev
    requires Enabled(d, s)
  {
    match s
    case Begin => d.(worker := Waiting)
    case Take => Dev(Commit(d.fsm), Notify)
    case Tell => d.(worker := Handle)
    case Return =>
      if d.fsm.state.Exiting? then d.(worker := Ended)
      else if d.fsm.state.Error? then d.(worker := Failing)  // the loop ends by throwing
      else d.(worker := Waiting)
    case Look => d.(worker := Decide)
    case Request =>
      var t := OwnRequest(d.fsm.state);
      if Answer(d.fsm, t) then
        Dev(Change(d.fsm, t), if d.fsm.state.Running? then Handle else Waiting)  // PostRun follows
      else Thrown(d.(fsm := Change(d.fsm, t)))
    case Throw => Thrown(d)
    case Refuse(_) => d.(worker := Failing)
    case Fail => Dev(d.fsm.(state := Error), Reporting)
    case Report => Dev(Change(d.fsm, ErrorFound), Ended)
    case Call(t) => d.(fsm := Change(d.fsm, t))
  }

  const FRESH: Dev := Dev(STARTED, Start)

  // ---------------------------------------------------------------- what every device state satisfies

  predicate FsmOk(f: Fsm) {
    && (f.failed ==> f.lastResult && (f.state.Error? || f.pending))
    && (f.failed && f.pending ==> f.newState.Error?)
    && (!f.failed && !f.state.Error? ==>
        if f.pending then Edge(f.state, f.main) && f.newState == f.main else f.main == f.state)
    && !f.main.Ok? && !f.main.Error? && !f.state.Ok?
  }

  predicate WorkerOk(d: Dev) {
    var s := d.fsm.state;
    match d.worker
    case Start => s.Idle?
    case Waiting =>
      && !Terminal(s)
      && (Working(s) || s.Running? || s.InitializingDevice? ==> d.fsm.pending)
    case Decide => Working(s) || s.Running?
    case Notify => s.Error? ==> d.fsm.failed
    case Handle => s.Error? ==> d.fsm.failed
    case Reporting => s.Error?
    case Ended => Terminal(s) && (s.Error? ==> d.fsm.failed)
    case Failing => s.Error? ==> d.fsm.failed
  }

  predicate DevOk(d: Dev) { FsmOk(d.fsm) && WorkerOk(d) }

  lemma EdgeBy(a: State, t: Transition, b: State)
    requires Next(a, t) == Some(b)
    ensures Edge(a, b) && !b.Error? && !b.Ok?
  {
  }

  lemma ChangeOk(f: Fsm, t: Transition)
    requires FsmOk(f)
    ensures FsmOk(Change(f, t)) && Change(f, t).state == f.state && (f.pending ==> Change(f, t).pending)
  {
    if LetsThrough(f, t) && !f.failed && Next(f.main, t).Some? { EdgeBy(f.main, t, Next(f.main, t).value); }
  }

  lemma StepOk(d: Dev, s: Step)
    requires DevOk(d) && Enabled(d, s)
    ensures DevOk(Apply(d, s))
  {
    match s
    case Call(t) => ChangeOk(d.fsm, t);
    case Request =>
      ChangeOk(d.fsm, OwnRequest(d.fsm.state));
      ChangeOk(Change(d.fsm, OwnRequest(d.fsm.state)), ErrorFound);
    case Throw => ChangeOk(d.fsm, ErrorFound);
    case Report => ChangeOk(d.fsm, ErrorFound);
    case _ =>
  }

  // ---------------------------------------------------------------- runs with their history

  /** `history`: the values the device state took; `accepted`: targets of the requests answered with true. */
  datatype Trace = Trace(dev: Dev, history: seq<State>, accepted: seq<State>)

  function Requested(s: Step, d: Dev): Option<Transition> {
    match s
    case Call(t) => Some(t)
    case Request => Some(OwnRequest(d.fsm.state))
    case _ => None
  }

  function Record(tr: Trace, s: Step): Trace
    requires Enabled(tr.dev, s)
  {
    var d := Apply(tr.dev, s);
    var r := Requested(s, tr.dev);
    Trace(d,
          if d.fsm.state == tr.dev.fsm.state then tr.history else tr.history + [d.fsm.state],
          if r.Some? && Answer(tr.dev.fsm, r.value) then tr.accepted + [Change(tr.dev.fsm, r.value).newState]
          else tr.accepted)
  }

  predicate Valid(tr: Trace, steps: seq<Step>)
    decreases |steps|
  {
    steps == [] || (Enabled(tr.dev, steps[0]) && Valid(Record(tr, steps[0]), steps[1..]))
  }

  function Exec(tr: Trace, steps: seq<Step>): Trace
    requires Valid(tr, steps)
    decreases |steps|
  {
    if steps == [] then tr else Exec(Record(tr, steps[0]), steps[1..])
  }

  const NEW_DEVICE: Trace := Trace(FRESH, [Idle], [])

  /** No ErrorFound was raised, and no handler or subscriber threw. */
  predicate Undisturbed(d: Dev) { !d.fsm.failed && !d.worker.Failing? && !d.worker.Reporting? }

  function PendingTarget(f: Fsm): seq<State> { if f.pending then [f.newState] else [] }

  /** The accepted requests, in order, are the states entered since Idle and then the pending one. */
  ghost predicate NothingLost(tr: Trace) {
    tr.history != [] && tr.history[1..] + PendingTarget(tr.dev.fsm) == tr.accepted
  }

  /** A path of the transition table from Idle, possibly ended by one Error. */
  ghost predicate TablePath(h: seq<State>) {
    && h != [] && h[0] == Idle
    && (forall i | 0 <= i < |h| - 1 :: !h[i].Error? && (Edge(h[i], h[i + 1]) || h[i + 1].Error?))
  }

  ghost predicate TraceOk(tr: Trace) {
    && DevOk(tr.dev) && TablePath(tr.history)
    && tr.history[|tr.history| - 1] == tr.dev.fsm.state
    && (Undisturbed(tr.dev) ==> NothingLost(tr))
  }

  lemma RecordOk(tr: Trace, s: Step)
    requires TraceOk(tr) && Enabled(tr.dev, s)
    ensures TraceOk(Record(tr, s))
  {
    StepOk(tr.dev, s);
    HistoryOk(tr, s);
    if Undisturbed(Record(tr, s).dev) { AcceptedOk(tr, s); }
  }

  /** The state changes only along the table, or to Error, and never from Error. */
  lemma StateChange(d: Dev, s: Step)
    requires DevOk(d) && Enabled(d, s) && Apply(d, s).fsm.state != d.fsm.state
    ensures !d.fsm.state.Error? && (Edge(d.fsm.state, Apply(d, s).fsm.state) || Apply(d, s).fsm.state.Error?)
  {
    assert s.Take? || s.Fail?;
  }

  lemma LongerPath(h: seq<State>, b: State)
    requires TablePath(h) && !h[|h| - 1].Error? && (Edge(h[|h| - 1], b) || b.Error?)
    ensures TablePath(h + [b])
  {
  }

  lemma HistoryOk(tr: Trace, s: Step)
    requires TraceOk(tr) && Enabled(tr.dev, s)
    ensures var h := Record(tr, s).history; TablePath(h) && h[|h| - 1] == Record(tr, s).dev.fsm.state
  {
    var d := Apply(tr.dev, s);
    if d.fsm.state != tr.dev.fsm.state {
      StateChange(tr.dev, s);
      LongerPath(tr.history, d.fsm.state);
    }
  }

  lemma AcceptedOk(tr: Trace, s: Step)
    requires TraceOk(tr) && Enabled(tr.dev, s) && Undisturbed(Record(tr, s).dev)
    ensures NothingLost(Record(tr, s))
  {
    var f := tr.dev.fsm;
    assert Undisturbed(tr.dev) && NothingLost(tr);
    if s.Take? {
      assert f.newState == f.main && Edge(f.state, f.main);
      NoSelfEdge(f.state, f.main);
      assert Record(tr, s).history[1..] == tr.history[1..] + [f.newState];
    }
  }

  lemma NoSelfEdge(a: State, b: State)
    requires Edge(a, b)
    ensures a != b
  {
  }

  lemma {:induction false} RunOk(tr: Trace, steps: seq<Step>)
    requires TraceOk(tr) && Valid(tr, steps)
    ensures TraceOk(Exec(tr, steps))
    decreases |steps|
  {
    if steps == [] {
    } else {
      RecordOk(tr, steps[0]);
      RunOk(Record(tr, steps[0]), steps[1..]);
    }
  }

  /** Before ErrorFound, no interleaving of callers loses, merges or reorders an accepted transition. */
  lemma AcceptedInOrder(steps: seq<Step>)
    requires Valid(NEW_DEVICE, steps) && Undisturbed(Exec(NEW_DEVICE, steps).dev)
    ensures var tr := Exec(NEW_DEVICE, steps);
            tr.history != [] && tr.accepted == tr.history[1..] + PendingTarget(tr.dev.fsm)
  {
    RunOk(NEW_DEVICE, steps);
  }

  /** Every run's states form a path of the table from Idle, ended at most by one Error. */
  lemma HistoryIsTablePath(steps: seq<Step>)
    requires Valid(NEW_DEVICE, steps)
    ensures TablePath(Exec(NEW_DEVICE, steps).history)
    ensures forall i | 0 <= i < |Exec(NEW_DEVICE, steps).history| - 1 :: Exec(NEW_DEVICE, steps).history[i].Exiting? ==>
              Exec(NEW_DEVICE, steps).history[i + 1].Error?
  {
    RunOk(NEW_DEVICE, steps);
    ExitingIsLast(Exec(NEW_DEVICE, steps).history);
  }

  lemma ExitingIsLast(h: seq<State>)
    requires TablePath(h)
    ensures forall i | 0 <= i < |h| - 1 :: h[i].Exiting? ==> h[i + 1].Error?
  {
    assert forall s :: !Edge(Exiting, s);
  }

  /** After Exiting only a throw of its handler or of a subscriber can change the state; after Error nothing can. */
  lemma TerminalIsFinal(d: Dev, s: Step)
    requires DevOk(d) && Enabled(d, s) && Terminal(d.fsm.state)
    ensures Apply(d, s).fsm.state != d.fsm.state <==> d.fsm.state.Exiting? && s.Fail?
  {
  }

  /** An exception leaves the state alone at first; out of Running it raises ErrorFound at once. */
  lemma ThrowFails(d: Dev)
    requires DevOk(d) && Enabled(d, Throw)
    ensures var e := Apply(d, Throw);
            e.worker.Failing? && e.fsm.state == d.fsm.state && (e.fsm.failed <==> d.fsm.failed || d.fsm.state.Running?)
  {
  }

  /** Whatever threw, the worker ends with the device in Error. */
  lemma ExceptionEndsInError(d: Dev)
    requires DevOk(d) && d.worker.Failing?
    ensures Enabled(d, Fail) && Enabled(Apply(d, Fail), Report)
    ensures var e := Apply(Apply(d, Fail), Report); e.fsm.state.Error? && e.fsm.failed && e.worker.Ended?
  {
  }

  /** ErrorFound keeps the order of accepted transitions exactly when none is pending. */
  lemma ErrorFoundOverwrites(tr: Trace)
    requires TraceOk(tr) && Undisturbed(tr.dev)
    ensures NothingLost(Record(tr, Call(ErrorFound))) <==> !tr.dev.fsm.pending
  {
    var tr1 := Record(tr, Call(ErrorFound));
    assert tr1.accepted == tr.accepted + [Error] && tr1.history == tr.history;
    if tr.dev.fsm.pending {
      assert |tr1.accepted| == |tr.history[1..]| + 2;
    } else {
      assert tr.history[1..] + [] == tr.history[1..];
    }
  }

  /** After ErrorFound a request that is let through answers true and does nothing. */
  lemma AnswersAfterError(f: Fsm, t: Transition)
    requires FsmOk(f) && f.failed
    ensures Change(f, t) == f && (Answer(f, t) <==> !f.pending || t.ErrorFound?)
  {
  }

  // ---------------------------------------------------------------- runs that show it

  lemma {:induction false} ExecNext(tr: Trace, steps: seq<Step>, s: Step)
    requires Valid(tr, steps) && Enabled(Exec(tr, steps).dev, s)
    ensures Valid(tr, steps + [s]) && Exec(tr, steps + [s]) == Record(Exec(tr, steps), s)
    decreases |steps|
  {
    if steps == [] {
      assert [s][1..] == [] && steps + [s] == [s];
    } else {
      assert (steps + [s])[1..] == steps[1..] + [s];
      ExecNext(Record(tr, steps[0]), steps[1..], s);
    }
  }

  const PENDING_INIT: seq<Step> := [Begin] + [Call(InitDevice)]

  /** A device that has accepted InitDevice and not entered it yet loses it to ErrorFound. */
  lemma PendingIsOverwritten()
    ensures Valid(NEW_DEVICE, PENDING_INIT) && Exec(NEW_DEVICE, PENDING_INIT).accepted == [InitializingDevice]
    ensures var tr := Record(Exec(NEW_DEVICE, PENDING_INIT), Call(ErrorFound));
            && tr.accepted == [InitializingDevice, Error] && tr.history == [Idle]
            && PendingTarget(tr.dev.fsm) == [Error] && !NothingLost(tr)
  {
    assert Valid(NEW_DEVICE, []) && Exec(NEW_DEVICE, []) == NEW_DEVICE;
    ExecNext(NEW_DEVICE, [], Begin);
    assert [] + [Begin] == [Begin];
    ExecNext(NEW_DEVICE, [Begin], Call(InitDevice));
  }

  const INTO_EXITING: seq<Step> := [Begin] + [Call(End)] + [Take] + [Tell]

  lemma ReachesExiting()
    ensures Valid(NEW_DEVICE, INTO_EXITING)
    ensures Exec(NEW_DEVICE, INTO_EXITING)
            == Trace(Dev(Fsm(Exiting, Exiting, false, Exiting, false, true), Handle), [Idle, Exiting], [Exiting])
  {
    assert Valid(NEW_DEVICE, []) && Exec(NEW_DEVICE, []) == NEW_DEVICE;
    ExecNext(NEW_DEVICE, [], Begin);
    assert [] + [Begin] == [Begin];
    ExecNext(NEW_DEVICE, [Begin], Call(End));
    ExecNext(NEW_DEVICE, [Begin] + [Call(End)], Take);
    ExecNext(NEW_DEVICE, [Begin] + [Call(End)] + [Take], Tell);
  }

  /** A handler of Exiting that throws ends the history with Error. */
  lemma ExitingBecomesError()
    ensures Valid(NEW_DEVICE, INTO_EXITING + [Throw] + [Fail])
    ensures Exec(NEW_DEVICE, INTO_EXITING + [Throw] + [Fail]).history == [Idle, Exiting, Error]
  {
    ReachesExiting();
    ExecNext(NEW_DEVICE, INTO_EXITING, Throw);
    ExecNext(NEW_DEVICE, INTO_EXITING + [Throw], Fail);
  }
}
