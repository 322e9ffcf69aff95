/**
 * The life of a device, told by the states it enters: what is initialised is reset, in the right order, and every
 * request leads where its name says.  Nothing here is stated in terms of the transition table.
 */
module DeviceLife {
  import opened Wrappers
  import opened DeviceFsm
  import opened Device

  // ---------------------------------------------------------------- initialising and resetting

  function Times(h: seq<State>, s: State): nat {
    if h == [] then 0 else Times(h[..|h| - 1], s) + if h[|h| - 1] == s then 1 else 0
  }

  /** The task has been initialised and not reset. */
  predicate TaskUp(s: State) { s.InitializingTask? || s.Ready? || s.Running? }

  /** The device has been initialised and not reset. */
  predicate DeviceUp(s: State) { !s.Idle? && !s.ResettingDevice? && !s.Exiting? }

  function Bit(b: bool): nat { if b then 1 else 0 }

  /** How often the device has been initialised more than reset, and the same for the task. */
  function Open(h: seq<State>): (int, int) {
    (Times(h, InitializingDevice) - Times(h, ResettingDevice), Times(h, InitializingTask) - Times(h, ResettingTask))
  }

  lemma ShorterPath(h: seq<State>)
    requires TablePath(h) && |h| > 1
    ensures TablePath(h[..|h| - 1])
  {
    var r := h[..|h| - 1];
    forall i | 0 <= i < |r| - 1 ensures !r[i].Error? && (Edge(r[i], r[i + 1]) || r[i + 1].Error?) {
      assert r[i] == h[i] && r[i + 1] == h[i + 1];
    }
  }

  lemma LastEdge(h: seq<State>)
    requires TablePath(h) && |h| > 1
    ensures var a, b := h[|h| - 2], h[|h| - 1]; !a.Error? && (Edge(a, b) || b.Error?)
  {
    var i := |h| - 2;
    assert h[i + 1] == h[|h| - 1];
  }

  lemma {:induction false} OpenIs(h: seq<State>)
    requires TablePath(h)
    ensures var s := h[|h| - 1];
            if s.Error? then 0 <= Open(h).0 <= 1 && 0 <= Open(h).1 <= 1
            else Open(h) == (Bit(DeviceUp(s)), Bit(TaskUp(s)))
  {
    if |h| == 1 {
      assert h[..0] == [];
    } else {
      ShorterPath(h);
      LastEdge(h);
      OpenIs(h[..|h| - 1]);
    }
  }

  lemma {:induction false} PrefixPath(h: seq<State>, k: nat)
    requires TablePath(h) && 0 < k <= |h|
    ensures TablePath(h[..k])
    decreases |h|
  {
    if k == |h| {
      assert h[..k] == h;
    } else {
      ShorterPath(h);
      PrefixPath(h[..|h| - 1], k);
      assert h[..|h| - 1][..k] == h[..k];
    }
  }

  /**
   * At every moment of every run the device has been initialised as often as reset, or once more; so has the task.
   * In Idle and Exiting everything that was initialised has been reset.
   */
  lemma InitAndReset(steps: seq<Step>, k: nat)
    requires Valid(NEW_DEVICE, steps) && k <= |Exec(NEW_DEVICE, steps).history|
    ensures var h := Exec(NEW_DEVICE, steps).history[..k];
            && 0 <= Times(h, InitializingTask) - Times(h, ResettingTask) <= 1
            && 0 <= Times(h, InitializingDevice) - Times(h, ResettingDevice) <= 1
            && (k > 0 && (h[k - 1].Idle? || h[k - 1].Exiting?) ==>
                  && Times(h, InitializingTask) == Times(h, ResettingTask)
                  && Times(h, InitializingDevice) == Times(h, ResettingDevice))
  {
    HistoryIsTablePath(steps);
    var h := Exec(NEW_DEVICE, steps).history;
    if k > 0 {
      PrefixPath(h, k);
      OpenIs(h[..k]);
    }
  }

  // ---------------------------------------------------------------- the way to Running

  /** Idle is not entered after a, up to k. */
  predicate SinceIdle(h: seq<State>, a: nat, k: nat)
    requires k < |h|
  {
    a <= k && forall i | a <= i <= k :: !h[i].Idle?
  }

  /** How much preparation a state has behind it. */
  function Level(s: State): nat {
    match s
    case InitializingDevice => 1
    case Initialized => 1
    case Binding => 2
    case Bound => 2
    case Connecting => 3
    case DeviceReady => 3
    case ResettingTask => 3
    case InitializingTask => 4
    case Ready => 4
    case Running => 4
    case _ => 0
  }

  /** The first `level` of these happened in this order since the last Idle, up to k. */
  predicate Prepared(h: seq<State>, k: nat, level: nat, a: nat, b: nat, c: nat, d: nat)
    requires k < |h|
  {
    && (level >= 1 ==> a <= k && h[a].InitializingDevice? && SinceIdle(h, a, k))
    && (level >= 2 ==> a < b <= k && h[b].Binding?)
    && (level >= 3 ==> b < c <= k && h[c].Connecting?)
    && (level >= 4 ==> c < d <= k && h[d].InitializingTask?)
  }

  lemma EdgeAt(h: seq<State>, k: nat)
    requires TablePath(h) && 0 < k < |h|
    ensures !h[k - 1].Error? && (Edge(h[k - 1], h[k]) || h[k].Error?)
  {
    var i := k - 1;
    assert h[i + 1] == h[k];
  }

  lemma {:induction false} PreparedFor(h: seq<State>, k: nat) returns (a: nat, b: nat, c: nat, d: nat)
    requires TablePath(h) && k < |h|
    ensures Prepared(h, k, Level(h[k]), a, b, c, d)
  {
    if k == 0 {
      a, b, c, d := 0, 0, 0, 0;
    } else {
      EdgeAt(h, k);
      a, b, c, d := PreparedFor(h, k - 1);
      if h[k].InitializingDevice? { a := k; }
      if h[k].Binding? { b := k; }
      if h[k].Connecting? { c := k; }
      if h[k].InitializingTask? { d := k; }
    }
  }

  /** InitializingDevice, Binding, Connecting and InitializingTask, in this order, since the last Idle before k. */
  ghost predicate WayTo(h: seq<State>, k: nat)
    requires k < |h|
  {
    exists a: nat, b: nat, c: nat, d: nat | a < b < c < d < k ::
      && h[a].InitializingDevice? && h[b].Binding? && h[c].Connecting? && h[d].InitializingTask?
      && SinceIdle(h, a, k)
  }

  lemma PathToRunning(h: seq<State>, k: nat)
    requires TablePath(h) && k < |h| && h[k].Running?
    ensures WayTo(h, k)
  {
    var a, b, c, d := PreparedFor(h, k);
  }

  /** Whenever the device runs, it has initialised, bound, connected and initialised its task since the last Idle. */
  lemma RunningIsPrepared(steps: seq<Step>, k: nat)
    requires Valid(NEW_DEVICE, steps) && k < |Exec(NEW_DEVICE, steps).history|
    requires Exec(NEW_DEVICE, steps).history[k].Running?
    ensures WayTo(Exec(NEW_DEVICE, steps).history, k)
  {
    HistoryIsTablePath(steps);
    PathToRunning(Exec(NEW_DEVICE, steps).history, k);
  }

  // ---------------------------------------------------------------- where a state is entered from

  /** The states from which each state is entered; Error can follow any of them. */
  predicate MayPrecede(a: State, b: State) {
    match b
    case Idle => a.ResettingDevice?
    case InitializingDevice => a.Idle?
    case Initialized => a.InitializingDevice?
    case Binding => a.Initialized?
    case Bound => a.Binding?
    case Connecting => a.Bound?
    case DeviceReady => a.Connecting? || a.ResettingTask?
    case InitializingTask => a.DeviceReady?
    case Ready => a.InitializingTask? || a.Running?
    case Running => a.Ready?
    case ResettingTask => a.Ready?
    case ResettingDevice => a.Initialized? || a.Bound? || a.DeviceReady?
    case Exiting => a.Idle?
    case Error => true
    case Ok => false
  }

  lemma PathEnters(h: seq<State>, k: nat)
    requires TablePath(h) && 0 < k < |h|
    ensures MayPrecede(h[k - 1], h[k])
  {
    EdgeAt(h, k);
  }

  /** In every run: Idle only from ResettingDevice, DeviceReady only from Connecting or ResettingTask, and so on. */
  lemma EnteredFrom(steps: seq<Step>, k: nat)
    requires Valid(NEW_DEVICE, steps) && 0 < k < |Exec(NEW_DEVICE, steps).history|
    ensures var h := Exec(NEW_DEVICE, steps).history; MayPrecede(h[k - 1], h[k])
  {
    HistoryIsTablePath(steps);
    PathEnters(Exec(NEW_DEVICE, steps).history, k);
  }

  // ---------------------------------------------------------------- what is answered with true

  /** The requests a state takes. */
  function Taken(s: State): set<Transition> {
    match s
    case Idle => {InitDevice, End}
    case InitializingDevice => {CompleteInit}
    case Initialized => {Bind, ResetDevice}
    case Bound => {Connect, ResetDevice}
    case DeviceReady => {InitTask, ResetDevice}
    case Ready => {Run, ResetTask}
    case Running => {Stop}
    case Exiting => {}
    case Error => {}
    case Ok => {}
    case _ => {Auto}
  }

  /** Where a request leads: to the state it names, or on to rest. */
  function Goal(s: State, t: Transition): State {
    match t
    case InitDevice => InitializingDevice
    case CompleteInit => Initialized
    case Bind => Binding
    case Connect => Connecting
    case InitTask => InitializingTask
    case Run => Running
    case Stop => Ready
    case ResetTask => ResettingTask
    case ResetDevice => ResettingDevice
    case End => Exiting
    case ErrorFound => Error
    case Auto =>
      if s.Binding? then Bound
      else if s.InitializingTask? then Ready
      else if s.ResettingDevice? then Idle
      else DeviceReady
  }

  /**
   * With nothing pending and no error, a request is answered with true exactly if the state takes it, or it is
   * ErrorFound, which every state takes; the target becomes pending.  Otherwise nothing changes but the answer.
   */
  lemma Answered(d: Dev, t: Transition)
    requires DevOk(d) && !d.fsm.pending && !d.fsm.failed && !d.fsm.state.Error?
    ensures Answer(d.fsm, t) <==> t in Taken(d.fsm.state) || t.ErrorFound?
    ensures var f := Change(d.fsm, t);
            && f.state == d.fsm.state && f.pending == Answer(d.fsm, t)
            && (f.pending ==> f.newState == Goal(d.fsm.state, t))
            && (!f.pending ==> f == d.fsm.(lastResult := false))
  {
  }

  /** While a transition is pending only ErrorFound gets through. */
  lemma AnsweredWhilePending(f: Fsm, t: Transition)
    requires FsmOk(f) && f.pending
    ensures Answer(f, t) <==> t.ErrorFound?
    ensures !t.ErrorFound? ==> Change(f, t) == f
    ensures Change(f, ErrorFound).pending && Change(f, ErrorFound).newState.Error? && Change(f, ErrorFound).failed
  {
  }
}
