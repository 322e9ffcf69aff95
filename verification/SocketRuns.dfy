/**
 * What the methods of a socket are specified to do, as runs of the session machine: the headers on a link are
 * references in flight.
 */
module SocketRuns {
  import opened Wrappers
  import opened Ownership
  import opened OwnershipMoves
  import opened Message
  import S = Socket

  /** Counters, buffers and logs are as before. */
  predicate SameBooks(w: World, w1: World) {
    && w1.cfg == w.cfg && w1.counts == w.counts && w1.extents == w.extents && w1.creations == w.creations
    && w1.returned == w.returned && w1.allocs == w.allocs && w1.frees == w.frees
  }

  /** Nothing has happened at `p`. */
  predicate Same(w: World, w1: World, p: Place) {
    (p in w1.slots <==> p in w.slots) && (p in w.slots ==> w1.slots[p] == w.slots[p])
  }

  predicate Distinct(xs: seq<nat>) { forall i, j | 0 <= i < j < |xs| :: xs[i] != xs[j] }

  /** The headers on a link, oldest first, are the references in flight under `ks`. */
  ghost predicate OnLink(w: World, metas: seq<Meta>, ks: seq<nat>) {
    && |ks| == |metas| && Distinct(ks)
    && forall i | 0 <= i < |ks| :: Flight(ks[i]) in w.slots && w.slots[Flight(ks[i])].local.meta == metas[i]
  }

  /** Two worlds that agree on everything in flight under `ks`. */
  lemma StaysOnLink(w: World, w1: World, metas: seq<Meta>, ks: seq<nat>)
    requires OnLink(w, metas, ks)
    requires forall k | k in ks :: Same(w, w1, Flight(k))
    ensures OnLink(w1, metas, ks)
  {
    forall i | 0 <= i < |ks| ensures Flight(ks[i]) in w1.slots && w1.slots[Flight(ks[i])].local.meta == metas[i] {
      assert ks[i] in ks;
    }
  }

  lemma LinkAppend(w: World, metas: seq<Meta>, ks: seq<nat>, metas1: seq<Meta>, ks1: seq<nat>)
    requires OnLink(w, metas, ks) && OnLink(w, metas1, ks1) && forall k | k in ks1 :: k !in ks
    ensures OnLink(w, metas + metas1, ks + ks1)
  {
    var all := ks + ks1;
    forall i, j | 0 <= i < j < |all| ensures all[i] != all[j] {
      if i < |ks| <= j { assert ks[i] in ks && ks1[j - |ks|] in ks1; }
    }
  }

  lemma LinkSplit(w: World, metas: seq<Meta>, metas1: seq<Meta>, ks: seq<nat>)
    requires OnLink(w, metas + metas1, ks)
    ensures OnLink(w, metas, ks[..|metas|]) && OnLink(w, metas1, ks[|metas|..])
    ensures forall k | k in ks[..|metas|] :: k !in ks[|metas|..]
  {
    var n := |metas|;
    forall i | 0 <= i < |metas1| ensures metas1[i] == (metas + metas1)[n + i] {}
    forall i | 0 <= i < n ensures metas[i] == (metas + metas1)[i] {}
    forall i | 0 <= i < |metas1| ensures ks[n..][i] == ks[n + i] {}
    forall i, j | 0 <= i < n && 0 <= j < |ks| - n ensures ks[..n][i] != ks[n..][j] {}
  }

  // ---------------------------------------------------------------- sending

  /** One part is queued and its header is in flight. */
  predicate PartSent(w: World, w1: World, m: nat, k: nat) {
    && Msg(m) in w.slots && Msg(m) in w1.slots && Flight(k) in w1.slots
    && var s := w.slots[Msg(m)];
       && w1.slots[Msg(m)] == s.(local := SentLocal(s.local))
       && w1.slots[Flight(k)] == s.(local := NewLocal(s.local.meta))
  }

  /** All parts are sent, and nothing else has changed. */
  ghost predicate PartsSent(w: World, w1: World, ms: seq<nat>, ks: seq<nat>)
    requires |ms| == |ks|
  {
    && SameBooks(w, w1) && (forall i | 0 <= i < |ms| :: PartSent(w, w1, ms[i], ks[i]))
    && (forall m | m !in ms :: Same(w, w1, Msg(m))) && (forall k | k !in ks :: Same(w, w1, Flight(k)))
  }

  function SendOps(ms: seq<nat>, ks: seq<nat>): seq<Op>
    requires |ms| == |ks|
  {
    if ms == [] then [] else SendOps(ms[..|ms| - 1], ks[..|ks| - 1]) + [Send(ms[|ms| - 1], ks[|ks| - 1])]
  }

  /** A message that can be sent: at rest, and not sent already. */
  predicate Sendable(w: World, m: nat) { IsOpen(w, m) && !w.slots[Msg(m)].local.queued }

  /** Different messages that can be sent, to different packets that are not there yet. */
  ghost predicate CanSend(w: World, ms: seq<nat>, ks: seq<nat>) {
    && |ms| == |ks| && Distinct(ms) && Distinct(ks)
    && (forall i | 0 <= i < |ms| :: Sendable(w, ms[i])) && (forall k | k in ks :: Flight(k) !in w.slots)
  }

  /** The headers of the messages to be sent. */
  function Headers(w: World, ms: seq<nat>): seq<Meta>
    requires forall i | 0 <= i < |ms| :: Msg(ms[i]) in w.slots
  {
    seq(|ms|, i requires 0 <= i < |ms| => w.slots[Msg(ms[i])].local.meta)
  }

  lemma NotAmong(xs: seq<nat>)
    requires Distinct(xs) && xs != []
    ensures xs[|xs| - 1] !in xs[..|xs| - 1]
    ensures forall x :: x in xs <==> x in xs[..|xs| - 1] || x == xs[|xs| - 1]
  {
    assert xs == xs[..|xs| - 1] + [xs[|xs| - 1]];
  }

  lemma CanSendFewer(w: World, ms: seq<nat>, ks: seq<nat>)
    requires CanSend(w, ms, ks) && ms != []
    ensures CanSend(w, ms[..|ms| - 1], ks[..|ks| - 1])
    ensures Sendable(w, ms[|ms| - 1]) && Flight(ks[|ks| - 1]) !in w.slots
  {
    NotAmong(ms);
    NotAmong(ks);
  }

  lemma LastCanGo(w: World, w1: World, ms: seq<nat>, ks: seq<nat>)
    requires CanSend(w, ms, ks) && ms != [] && PartsSent(w, w1, ms[..|ms| - 1], ks[..|ks| - 1])
    ensures Enabled(w1, Send(ms[|ms| - 1], ks[|ks| - 1]))
  {
    CanSendFewer(w, ms, ks);
    NotAmong(ms);
    NotAmong(ks);
    assert Same(w, w1, Msg(ms[|ms| - 1])) && Same(w, w1, Flight(ks[|ks| - 1]));
  }

  /** The step itself: any message at rest, sent already or not. */
  lemma SendStep(w: World, m: nat, k: nat)
    requires Callable(w, Send(m, k))
    ensures var w1 := Apply(w, Send(m, k));
            SameBooks(w, w1) && PartSent(w, w1, m, k) && forall p | p != Msg(m) && p != Flight(k) :: Same(w, w1, p)
  {
  }

  /** A multipart send of different messages, none of them sent before, is one send after the other. */
  lemma {:induction false} SendPartsIsARun(w: World, ms: seq<nat>, ks: seq<nat>)
    requires CanSend(w, ms, ks)
    ensures Valid(w, SendOps(ms, ks)) && PartsSent(w, Exec(w, SendOps(ms, ks)), ms, ks)
  {
    if ms == [] {
      assert Exec(w, []) == w;
    } else {
      var n := |ms| - 1;
      CanSendFewer(w, ms, ks);
      SendPartsIsARun(w, ms[..n], ks[..n]);
      var w1 := Exec(w, SendOps(ms[..n], ks[..n]));
      LastCanGo(w, w1, ms, ks);
      ExecNext(w, SendOps(ms[..n], ks[..n]), Send(ms[n], ks[n]));
      SendStep(w1, ms[n], ks[n]);
      OneMorePart(w, w1, Apply(w1, Send(ms[n], ks[n])), ms, ks);
    }
  }

  lemma OneMorePart(w: World, w1: World, w2: World, ms: seq<nat>, ks: seq<nat>)
    requires |ms| == |ks| > 0 && Distinct(ms) && Distinct(ks)
    requires PartsSent(w, w1, ms[..|ms| - 1], ks[..|ks| - 1]) && SameBooks(w1, w2)
    requires PartSent(w1, w2, ms[|ms| - 1], ks[|ks| - 1])
    requires forall p | p != Msg(ms[|ms| - 1]) && p != Flight(ks[|ks| - 1]) :: Same(w1, w2, p)
    ensures PartsSent(w, w2, ms, ks)
  {
    var n := |ms| - 1;
    NotAmong(ms);
    NotAmong(ks);
    assert Same(w, w1, Msg(ms[n]));
    forall i | 0 <= i < |ms| ensures PartSent(w, w2, ms[i], ks[i]) {
      if i < n {
        assert PartSent(w, w1, ms[..n][i], ks[..n][i]);
        assert ms[i] in ms[..n] && ks[i] in ks[..n];
        assert Same(w1, w2, Msg(ms[i])) && Same(w1, w2, Flight(ks[i]));
      }
    }
    forall m | m !in ms ensures Same(w, w2, Msg(m)) { assert Same(w, w1, Msg(m)) && Same(w1, w2, Msg(m)); }
    forall k | k !in ks ensures Same(w, w2, Flight(k)) { assert Same(w, w1, Flight(k)) && Same(w1, w2, Flight(k)); }
  }

  lemma FlightsSent(w: World, w1: World, ms: seq<nat>, ks: seq<nat>)
    requires CanSend(w, ms, ks) && PartsSent(w, w1, ms, ks)
    ensures OnLink(w1, Headers(w, ms), ks)
  {
    forall i | 0 <= i < |ks| ensures w1.slots[Flight(ks[i])].local.meta == Headers(w, ms)[i] {
      assert PartSent(w, w1, ms[i], ks[i]);
    }
  }

  /** What a multipart send puts on the link is what the run puts in flight, behind what was there. */
  lemma SendPartsOnLink(w: World, ms: seq<nat>, ks: seq<nat>, carried: seq<S.Packet>, ks0: seq<nat>)
    requires CanSend(w, ms, ks) && OnLink(w, S.AllParts(carried), ks0)
    ensures Valid(w, SendOps(ms, ks))
    ensures OnLink(Exec(w, SendOps(ms, ks)), S.AllParts(carried + [S.Many(Headers(w, ms))]), ks0 + ks)
  {
    SendPartsIsARun(w, ms, ks);
    var w1 := Exec(w, SendOps(ms, ks));
    forall k | k in ks ensures k !in ks0 {}
    forall k | k in ks0 ensures Same(w, w1, Flight(k)) {}
    StaysOnLink(w, w1, S.AllParts(carried), ks0);
    FlightsSent(w, w1, ms, ks);
    LinkAppend(w1, S.AllParts(carried), ks0, Headers(w, ms), ks);
    S.AllPartsAppend(carried, S.Many(Headers(w, ms)));
  }

  /**
   * A single send of any message at rest: it becomes queued, its header goes onto the link behind what is there, and
   * nothing else changes.
   */
  lemma SendIsAStep(w: World, m: nat, k: nat, carried: seq<S.Packet>, ks: seq<nat>)
    requires Callable(w, Send(m, k)) && OnLink(w, S.AllParts(carried), ks)
    ensures var w1 := Apply(w, Send(m, k));
            && PartsSent(w, w1, [m], [k])
            && OnLink(w1, S.AllParts(carried + [S.One(w.slots[Msg(m)].local.meta)]), ks + [k])
  {
    var w1, meta := Apply(w, Send(m, k)), w.slots[Msg(m)].local.meta;
    SendStep(w, m, k);
    forall x | x in ks ensures Same(w, w1, Flight(x)) {}
    StaysOnLink(w, w1, S.AllParts(carried), ks);
    LinkAppend(w1, S.AllParts(carried), ks, [meta], [k]);
    S.AllPartsAppend(carried, S.One(meta));
  }

  // ---------------------------------------------------------------- receiving

  /** A message that takes over the reference in flight at `f`. */
  function TakesOver(s: Slot, f: Slot, meta: Meta): Slot {
    s.(local := ReceivedLocal(s.local, meta), origin := f.origin)
  }

  /**
   * A single receive: the message takes over the oldest header on the link, the packet is gone, and nothing else
   * changes.
   */
  lemma ReceiveIsAStep(w: World, m: nat, carried: seq<S.Packet>, ks: seq<nat>)
    requires IsOpen(w, m) && OnLink(w, S.AllParts(carried), ks) && carried != [] && carried[0].One?
    ensures ks != [] && Callable(w, Receive(m, ks[0]))
    ensures var s, w1 := w.slots[Msg(m)], Apply(w, Receive(m, ks[0]));
            && SameBooks(w, w1) && OnLink(w1, S.AllParts(carried[1..]), ks[1..])
            && Msg(m) in w1.slots
            && w1.slots[Msg(m)] == TakesOver(s, w.slots[Flight(ks[0])], carried[0].meta)
            && Flight(ks[0]) !in w1.slots && forall p | p != Msg(m) && p != Flight(ks[0]) :: Same(w, w1, p)
  {
    LinkSplit(w, S.Parts(carried[0]), S.AllParts(carried[1..]), ks);
    var w1 := Apply(w, Receive(m, ks[0]));
    assert ks[..1] == [ks[0]];
    assert ks[0] in ks[..1];
    forall k | k in ks[1..] ensures Same(w, w1, Flight(k)) {}
    StaysOnLink(w, w1, S.AllParts(carried[1..]), ks[1..]);
  }

  /** The message that a received header becomes. */
  function Received(f: Slot, proc: nat): Slot { Slot(NewLocal(f.local.meta), proc, f.origin, Open) }

  /** One packet has become a message. */
  predicate PartReceived(w: World, w1: World, m: nat, k: nat, proc: nat) {
    && Flight(k) in w.slots && Flight(k) !in w1.slots
    && Msg(m) in w1.slots && w1.slots[Msg(m)] == Received(w.slots[Flight(k)], proc)
  }

  /** Every part has become a message, and nothing else has changed. */
  ghost predicate PartsReceived(w: World, w1: World, ms: seq<nat>, ks: seq<nat>, proc: nat)
    requires |ms| == |ks|
  {
    && SameBooks(w, w1) && (forall i | 0 <= i < |ms| :: PartReceived(w, w1, ms[i], ks[i], proc))
    && (forall m | m !in ms :: Same(w, w1, Msg(m))) && (forall k | k !in ks :: Same(w, w1, Flight(k)))
  }

  lemma PartSteps(w: World, m: nat, proc: nat, k: nat)
    requires Msg(m) !in w.slots && proc in w.cfg.seg && Flight(k) in w.slots
    ensures Enabled(w, CreateEmpty(m, proc)) && Enabled(Apply(w, CreateEmpty(m, proc)), Receive(m, k))
    ensures PartsReceived(w, Apply(Apply(w, CreateEmpty(m, proc)), Receive(m, k)), [m], [k], proc)
  {
  }

  /** One part of a multipart receive: a new message built from the header; everything else stays. */
  lemma PartIsARun(w: World, m: nat, proc: nat, k: nat)
    requires Msg(m) !in w.slots && proc in w.cfg.seg && Flight(k) in w.slots
    ensures Valid(w, [CreateEmpty(m, proc), Receive(m, k)])
    ensures PartsReceived(w, Exec(w, [CreateEmpty(m, proc), Receive(m, k)]), [m], [k], proc)
  {
    PartSteps(w, m, proc, k);
    ExecOne(w, CreateEmpty(m, proc));
    ExecNext(w, [CreateEmpty(m, proc)], Receive(m, k));
    assert [CreateEmpty(m, proc)] + [Receive(m, k)] == [CreateEmpty(m, proc), Receive(m, k)];
  }

  function PartOps(ms: seq<nat>, ks: seq<nat>, proc: nat): seq<Op>
    requires |ms| == |ks|
  {
    if ms == [] then []
    else
      var n := |ms| - 1;
      PartOps(ms[..n], ks[..n], proc) + [CreateEmpty(ms[n], proc), Receive(ms[n], ks[n])]
  }

  /** New message objects for different packets in flight. */
  ghost predicate CanReceive(w: World, ms: seq<nat>, ks: seq<nat>, proc: nat) {
    && |ms| == |ks| && Distinct(ms) && Distinct(ks) && proc in w.cfg.seg
    && (forall i | 0 <= i < |ms| :: Msg(ms[i]) !in w.slots) && (forall i | 0 <= i < |ks| :: Flight(ks[i]) in w.slots)
  }

  lemma LastCanCome(w: World, w1: World, ms: seq<nat>, ks: seq<nat>, proc: nat)
    requires CanReceive(w, ms, ks, proc) && ms != [] && PartsReceived(w, w1, ms[..|ms| - 1], ks[..|ks| - 1], proc)
    ensures Msg(ms[|ms| - 1]) !in w1.slots && Flight(ks[|ks| - 1]) in w1.slots && proc in w1.cfg.seg
  {
    NotAmong(ms);
    NotAmong(ks);
    assert Same(w, w1, Msg(ms[|ms| - 1])) && Same(w, w1, Flight(ks[|ks| - 1]));
  }

  lemma OneMoreReceived(w: World, w1: World, w2: World, ms: seq<nat>, ks: seq<nat>, proc: nat)
    requires |ms| == |ks| > 0 && Distinct(ms) && Distinct(ks)
    requires PartsReceived(w, w1, ms[..|ms| - 1], ks[..|ks| - 1], proc)
    requires PartsReceived(w1, w2, [ms[|ms| - 1]], [ks[|ks| - 1]], proc)
    ensures PartsReceived(w, w2, ms, ks, proc)
  {
    var n := |ms| - 1;
    NotAmong(ms);
    NotAmong(ks);
    assert PartReceived(w1, w2, [ms[n]][0], [ks[n]][0], proc) && Same(w, w1, Flight(ks[n]));
    forall i | 0 <= i < |ms| ensures PartReceived(w, w2, ms[i], ks[i], proc) {
      if i < n {
        assert PartReceived(w, w1, ms[..n][i], ks[..n][i], proc);
        assert ms[i] in ms[..n] && ks[i] in ks[..n];
        assert Same(w1, w2, Msg(ms[i])) && Same(w1, w2, Flight(ks[i]));
      }
    }
    forall m | m !in ms ensures Same(w, w2, Msg(m)) { assert Same(w, w1, Msg(m)) && Same(w1, w2, Msg(m)); }
    forall k | k !in ks ensures Same(w, w2, Flight(k)) { assert Same(w, w1, Flight(k)) && Same(w1, w2, Flight(k)); }
  }

  /** A multipart receive is, part after part, a new message that takes over the header. */
  lemma {:induction false} ReceivePartsIsARun(w: World, ms: seq<nat>, ks: seq<nat>, proc: nat)
    requires CanReceive(w, ms, ks, proc)
    ensures Valid(w, PartOps(ms, ks, proc)) && PartsReceived(w, Exec(w, PartOps(ms, ks, proc)), ms, ks, proc)
    decreases |ms|
  {
    if ms == [] {
      assert Exec(w, []) == w;
    } else {
      var n := |ms| - 1;
      var ops := PartOps(ms[..n], ks[..n], proc);
      ReceivePartsIsARun(w, ms[..n], ks[..n], proc);
      LastCanCome(w, Exec(w, ops), ms, ks, proc);
      PartIsARun(Exec(w, ops), ms[n], proc, ks[n]);
      ExecAppend(w, ops, [CreateEmpty(ms[n], proc), Receive(ms[n], ks[n])]);
      OneMoreReceived(w, Exec(w, ops), Exec(w, PartOps(ms, ks, proc)), ms, ks, proc);
    }
  }

  /** A multipart receive takes exactly the oldest packet off the link, one message per header. */
  lemma ReceivePartsOnLink(w: World, ms: seq<nat>, proc: nat, carried: seq<S.Packet>, ks: seq<nat>)
    requires carried != [] && carried[0].Many? && OnLink(w, S.AllParts(carried), ks) && proc in w.cfg.seg
    requires |ms| == |carried[0].metas| && Distinct(ms) && forall m | m in ms :: Msg(m) !in w.slots
    ensures |ms| <= |ks| && Valid(w, PartOps(ms, ks[..|ms|], proc))
    ensures var w1 := Exec(w, PartOps(ms, ks[..|ms|], proc));
            && OnLink(w1, S.AllParts(carried[1..]), ks[|ms|..])
            && forall i | 0 <= i < |ms| :: Msg(ms[i]) in w1.slots &&
                 w1.slots[Msg(ms[i])].local == NewLocal(carried[0].metas[i]) && w1.slots[Msg(ms[i])].proc == proc
  {
    var n := |ms|;
    LinkSplit(w, carried[0].metas, S.AllParts(carried[1..]), ks);
    ReceivePartsIsARun(w, ms, ks[..n], proc);
    var w1 := Exec(w, PartOps(ms, ks[..n], proc));
    forall i | 0 <= i < n
      ensures Msg(ms[i]) in w1.slots && w1.slots[Msg(ms[i])].local == NewLocal(carried[0].metas[i])
    {
      assert PartReceived(w, w1, ms[i], ks[..n][i], proc);
    }
    forall k | k in ks[n..] ensures Same(w, w1, Flight(k)) {}
    StaysOnLink(w, w1, S.AllParts(carried[1..]), ks[n..]);
  }
}
