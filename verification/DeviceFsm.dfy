/**
 * The device state machine: transition table, two orthogonal regions, pending flag.
 *
 * The second region has one state, Ok, and leaves it only on ErrorFound.  Its target is a terminate
 * state: once it is active the machine swallows every event without calling an action or reporting
 * a missing transition.
 */
module DeviceFsm {
  import opened Wrappers

  datatype State = Ok | Error | Idle | InitializingDevice | Initialized | Binding | Bound | Connecting
                 | DeviceReady | InitializingTask | Ready | Running | ResettingTask | ResettingDevice | Exiting

  datatype Transition = Auto | InitDevice | CompleteInit | Bind | Connect | InitTask | Run | Stop
                      | ResetTask | ResetDevice | End | ErrorFound

  /** The rows of the first region. */
  function Next(s: State, t: Transition): Option<State> {
    match (s, t)
    case (Idle, End) => Some(Exiting)
    case (Idle, InitDevice) => Some(InitializingDevice)
    case (InitializingDevice, CompleteInit) => Some(Initialized)
    case (Initialized, Bind) => Some(Binding)
    case (Initialized, ResetDevice) => Some(ResettingDevice)
    case (Binding, Auto) => Some(Bound)
    case (Bound, Connect) => Some(Connecting)
    case (Bound, ResetDevice) => Some(ResettingDevice)
    case (Connecting, Auto) => Some(DeviceReady)
    case (DeviceReady, InitTask) => Some(InitializingTask)
    case (DeviceReady, ResetDevice) => Some(ResettingDevice)
    case (InitializingTask, Auto) => Some(Ready)
    case (Ready, Run) => Some(Running)
    case (Ready, ResetTask) => Some(ResettingTask)
    case (Running, Stop) => Some(Ready)
    case (ResettingTask, Auto) => Some(DeviceReady)
    case (ResettingDevice, Auto) => Some(Idle)
    case _ => None
  }

  predicate Edge(a: State, b: State) { exists t :: Next(a, t) == Some(b) }

  /** `main` is the active state of the first region, `failed` says that the second one has terminated. */
  datatype Fsm = Fsm(state: State, newState: State, pending: bool, main: State, failed: bool, lastResult: bool)

  const STARTED: Fsm := Fsm(Idle, Ok, false, Idle, false, true)

  /** The action of every row. */
  function Accept(f: Fsm, target: State): Fsm {
    f.(newState := target, lastResult := true, pending := true)
  }

  function ProcessEvent(f: Fsm, t: Transition): Fsm {
    if f.failed then f
    else if t.ErrorFound? then Accept(f, Error).(failed := true)
    else match Next(f.main, t)
      case Some(s) => Accept(f, s).(main := s)
      case None => f.(lastResult := false)
  }

  predicate LetsThrough(f: Fsm, t: Transition) { !f.pending || t.ErrorFound? }

  function Change(f: Fsm, t: Transition): Fsm {
    if LetsThrough(f, t) then ProcessEvent(f, t) else f
  }

  predicate Answer(f: Fsm, t: Transition) { LetsThrough(f, t) && ProcessEvent(f, t).lastResult }

  /** The locked part of the worker loop. */
  function Commit(f: Fsm): Fsm { f.(state := f.newState, pending := false) }

  class StateMachine {
    var fState: State
    var fNewState: State
    var fNewStatePending: bool
    var fLastTransitionResult: bool
    var region0: State
    var region1: State

    ghost function View(): Fsm
      reads this
    {
      Fsm(fState, fNewState, fNewStatePending, region0, region1.Error?, fLastTransitionResult)
    }

    constructor ()
      ensures View() == STARTED
    {
      fState, fNewState, fLastTransitionResult, fNewStatePending := Ok, Ok, true, false;
      region0, region1 := Idle, Ok;
      new;
      fState := Idle;  // entering the machine
    }

    method DefaultFct(target: State)
      modifies this
      ensures View() == Accept(old(View()), target) && region1 == old(region1)
    {
      fNewState := target;
      fLastTransitionResult := true;
      fNewStatePending := true;
    }

    method Process(t: Transition)
      modifies this
      ensures View() == ProcessEvent(old(View()), t)
    {
      if region1.Error? { return; }
      var handled := false;
      var next := Next(region0, t);
      if next.Some? {
        DefaultFct(next.value);
        region0 := next.value;
        handled := true;
      }
      if t.ErrorFound? {
        DefaultFct(Error);
        region1 := Error;
        handled := true;
      }
      if !handled { fLastTransitionResult := false; }
    }

    method ChangeState(t: Transition) returns (r: bool)
      modifies this
      ensures View() == Change(old(View()), t) && r == Answer(old(View()), t)
    {
      if !fNewStatePending || t.ErrorFound? {
        Process(t);
        return fLastTransitionResult;
      }
      return false;
    }

    /** One locked turn of the worker; `stop` ends its loop. */
    method CommitPending() returns (stop: bool)
      requires fNewStatePending
      modifies this
      ensures View() == Commit(old(View())) && stop == (fState.Exiting? || fState.Error?)
    {
      fState := fNewState;
      fNewStatePending := false;
      stop := fState.Exiting? || fState.Error?;
    }
  }
}
