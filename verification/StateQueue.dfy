/** The queue through which a subscriber consumes state changes. */
module StateQueue {
  import opened Wrappers
  import opened DeviceFsm

  /** Outcome of a wait: a state, the exception raised for Error, or nothing there to wake up for. */
  datatype Waited = Got(state: State) | ErrorThrown | Blocked

  /** What a wait for the next state yields, and what it leaves in the queue. */
  function NextOf(q: seq<State>): Waited {
    if q == [] then Blocked else if q[0].Error? then ErrorThrown else Got(q[0])
  }

  function RestOf(q: seq<State>): seq<State> { if NextOf(q).Got? then q[1..] else q }

  /** States a subscriber can still get at: everything before the first Error. */
  function Readable(q: seq<State>): seq<State> {
    if q == [] || q[0].Error? then [] else [q[0]] + Readable(q[1..])
  }

  lemma {:induction false} ReadablePrefix(q: seq<State>)
    ensures Readable(q) <= q && Error !in Readable(q)
    ensures |Readable(q)| < |q| ==> q[|Readable(q)|].Error?
  {
    if q != [] && !q[0].Error? { ReadablePrefix(q[1..]); }
  }

  datatype Call = PushCall(s: State) | ClearCall | NextCall

  /** The queue, and what was pushed and consumed since the last Clear. */
  datatype Log = Log(queue: seq<State>, pushed: seq<State>, consumed: seq<State>)

  function After(l: Log, c: Call): Log {
    match c
    case PushCall(s) => l.(queue := l.queue + [s], pushed := l.pushed + [s])
    case ClearCall => Log([], [], [])
    case NextCall =>
      var r := NextOf(l.queue);
      l.(queue := RestOf(l.queue), consumed := if r.Got? then l.consumed + [r.state] else l.consumed)
  }

  ghost predicate LogOk(l: Log) { l.consumed + l.queue == l.pushed && Error !in l.consumed }

  class Queue {
    var fStates: seq<State>
    ghost var pushed: seq<State>    // since the last Clear
    ghost var consumed: seq<State>  // since the last Clear

    ghost function View(): Log
      reads this
    {
      Log(fStates, pushed, consumed)
    }

    ghost predicate Valid()
      reads this
    {
      LogOk(View())
    }

    constructor ()
      ensures Valid() && View() == Log([], [], [])
    {
      fStates, pushed, consumed := [], [], [];
    }

    method Push(s: State)
      requires Valid()
      modifies this
      ensures Valid() && View() == After(old(View()), PushCall(s)) && fStates == old(fStates) + [s]
    {
      fStates, pushed := fStates + [s], pushed + [s];
    }

    method Clear()
      requires Valid()
      modifies this
      ensures Valid() && View() == After(old(View()), ClearCall) && fStates == []
    {
      fStates, pushed, consumed := [], [], [];
    }

    /** Returns the front and removes it; an Error at the front is reported and stays there. */
    method WaitForNext() returns (r: Waited)
      requires Valid()
      modifies this
      ensures Valid() && r == NextOf(old(fStates)) && View() == After(old(View()), NextCall)
      ensures match r
              case Got(s) => !s.Error? && old(fStates) == [s] + fStates
              case ErrorThrown => fStates == old(fStates) && fStates != [] && fStates[0].Error?
              case Blocked => fStates == old(fStates) == []
    {
      if fStates == [] { return Blocked; }
      var s := fStates[0];
      if s.Error? { return ErrorThrown; }
      fStates, consumed := fStates[1..], consumed + [s];
      return Got(s);
    }

    /** WaitForNext with a timeout or a custom wake-up: an empty queue yields (false, Ok). */
    method WaitForNextOrCustom() returns (found: bool, s: State, thrown: bool)
      requires Valid()
      modifies this
      ensures Valid() && View() == After(old(View()), NextCall)
      ensures found == (old(fStates) != []) && thrown == NextOf(old(fStates)).ErrorThrown?
      ensures !found ==> s == Ok
      ensures found && !thrown ==> s == old(fStates)[0]
    {
      found, s, thrown := fStates != [], Ok, false;
      if found {
        var r := WaitForNext();
        match r
        case Got(x) => s := x;
        case ErrorThrown => thrown := true;
      }
    }

    /**
     * Consumes states until `target` comes up.  It is found exactly when it stands before the first
     * Error; otherwise the wait ends at that Error, or with everything read.
     */
    method WaitForState(target: State) returns (r: Waited)
      requires Valid()
      modifies this
      ensures Valid() && pushed == old(pushed)
      ensures r.Got? <==> target in Readable(old(fStates))
      ensures r.Got? ==> r.state == target
      ensures r.ErrorThrown? ==> fStates != [] && fStates[0].Error?
      ensures r.Blocked? ==> fStates == []
      ensures old(consumed) <= consumed
      ensures r.Got? ==> |old(consumed)| < |consumed| && target !in consumed[|old(consumed)|..|consumed| - 1]
      ensures !r.Got? ==> target !in consumed[|old(consumed)|..]
    {
      while true
        invariant Valid() && pushed == old(pushed) && old(consumed) <= consumed
        invariant target !in consumed[|old(consumed)|..]
        invariant target in Readable(fStates) <==> target in Readable(old(fStates))
        decreases |fStates|
      {
        ghost var before := consumed;
        r := WaitForNext();
        if !r.Got? || r.state == target {
          assert r.Got? ==> consumed[|old(consumed)|..|consumed| - 1] == before[|old(consumed)|..];
          return;
        }
        assert consumed[|old(consumed)|..] == before[|old(consumed)|..] + [r.state];
      }
    }
  }

  // ---------------------------------------------------------------- runs of one subscriber

  function AfterAll(l: Log, cs: seq<Call>): Log
    decreases |cs|
  {
    if cs == [] then l else AfterAll(After(l, cs[0]), cs[1..])
  }

  /** In any order of calls the subscriber reads a prefix of what was pushed since the last Clear, and no Error. */
  lemma {:induction false} ReadsInOrder(l: Log, cs: seq<Call>)
    requires LogOk(l)
    ensures var m := AfterAll(l, cs); LogOk(m) && m.consumed <= Readable(m.pushed)
    decreases |cs|
  {
    if cs == [] {
      ReadableOf(l.consumed, l.queue);
    } else {
      var m := After(l, cs[0]);
      assert m.consumed + m.queue == m.pushed;
      ReadsInOrder(m, cs[1..]);
    }
  }

  lemma {:induction false} ReadableOf(a: seq<State>, b: seq<State>)
    requires Error !in a
    ensures Readable(a + b) == a + Readable(b)
  {
    if a == [] {
      assert a + b == b;
    } else {
      assert (a + b)[1..] == a[1..] + b;
      ReadableOf(a[1..], b);
    }
  }
}
