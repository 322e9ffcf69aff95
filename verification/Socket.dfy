/** Sending and receiving messages: who owns the reference afterwards, and what the byte counters say. */
module Socket {
  import opened Arithmetic
  import opened Wrappers
  import opened Ownership
  import opened Message
  import opened Wire

  /** One try of the underlying socket: it transfers, reports a temporary condition, or fails. */
  datatype Attempt = Done | Again(interrupted: bool, retry: bool) | Broken

  const ERROR: int := -1
  const TIMEOUT: int := -2
  const INTERRUPTED: int := -3

  /** How the retry loop ends: with a transfer, with an error code, or not yet. */
  datatype Verdict = Transferred | Code(code: int) | Trying

  /** A temporary condition after which the loop tries again. */
  const RETRY: Attempt := Again(false, true)

  /** What an attempt that ends the loop means. */
  function Meaning(a: Attempt): Verdict {
    match a
    case Done => Transferred
    case Broken => Code(ERROR)
    case Again(interrupted, _) => Code(if interrupted then INTERRUPTED else TIMEOUT)
  }

  /** The k-th attempt is the first that is not repeated. */
  predicate FirstDecisive(tries: seq<Attempt>, k: nat) {
    k < |tries| && tries[k] != RETRY && forall i | 0 <= i < k :: tries[i] == RETRY
  }

  /** The loop ends with the meaning of the first decisive attempt, and goes on while there is none. */
  ghost predicate Ends(tries: seq<Attempt>, v: Verdict) {
    if v.Trying? then forall a | a in tries :: a == RETRY
    else exists k: nat :: FirstDecisive(tries, k) && v == Meaning(tries[k])
  }

  /** The attempts decide how the loop ends. */
  lemma EndsOnce(tries: seq<Attempt>, u: Verdict, v: Verdict)
    requires Ends(tries, u) && Ends(tries, v)
    ensures u == v
  {
    if !u.Trying? {
      var j: nat :| FirstDecisive(tries, j) && u == Meaning(tries[j]);
      assert tries[j] in tries;
      var k: nat :| FirstDecisive(tries, k) && v == Meaning(tries[k]);
    }
    if !v.Trying? {
      var k: nat :| FirstDecisive(tries, k) && v == Meaning(tries[k]);
      assert tries[k] in tries;
    }
  }

  /** What a metadata message stands for. */
  datatype Packet = One(meta: Meta) | Many(metas: seq<Meta>)

  ghost predicate Holds(b: seq<Byte>, p: Packet) {
    match p case One(m) => CarriesSingle(b, m) case Many(ms) => Carries(b, ms)
  }

  /** The metadata messages on their way, and what each of them carries. */
  class Link {
    var fifo: seq<seq<Byte>>
    ghost var carried: seq<Packet>

    ghost predicate Valid()
      reads this
    {
      |fifo| == |carried| && forall i | 0 <= i < |fifo| :: Holds(fifo[i], carried[i])
    }

    constructor ()
      ensures Valid() && fifo == [] && carried == []
    {
      fifo, carried := [], [];
    }

    method Push(b: seq<Byte>, ghost p: Packet)
      requires Valid() && Holds(b, p)
      modifies this
      ensures Valid() && fifo == old(fifo) + [b] && carried == old(carried) + [p]
    {
      fifo, carried := fifo + [b], carried + [p];
    }

    method Pop() returns (b: seq<Byte>, ghost p: Packet)
      requires Valid() && fifo != []
      modifies this
      ensures Valid() && p == old(carried)[0] && carried == old(carried)[1..] && Holds(b, p) && b == old(fifo)[0]
    {
      b, p := fifo[0], carried[0];
      fifo, carried := fifo[1..], carried[1..];
    }
  }

  /** The attempt that ends the loop: everything before it was a temporary condition to be tried again. */
  ghost predicate EndsWith(tries: seq<Attempt>, a: Attempt) {
    exists k: nat | k < |tries| ::
      tries[k] == a && a != Again(false, true) && forall i | 0 <= i < k :: tries[i] == Again(false, true)
  }

  method Retry(tries: seq<Attempt>) returns (v: Verdict)
    ensures Ends(tries, v)
    ensures v.Transferred? ==> EndsWith(tries, Done)
    ensures v.Code? ==>
      || (v.code == -1 && EndsWith(tries, Broken)) || (v.code == -2 && EndsWith(tries, Again(false, false)))
      || (v.code == -3 && (EndsWith(tries, Again(true, true)) || EndsWith(tries, Again(true, false))))
    ensures v.Trying? ==> forall a | a in tries :: a == Again(false, true)
  {
    var i := 0;
    while i < |tries|
      invariant 0 <= i <= |tries| && forall k | 0 <= k < i :: tries[k] == RETRY
    {
      assert tries[i] != RETRY ==> FirstDecisive(tries, i);
      match tries[i]
      case Done => return Transferred;
      case Broken => return Code(ERROR);
      case Again(interrupted, retry) =>
        if interrupted { return Code(INTERRUPTED); }
        if !retry { return Code(TIMEOUT); }
        i := i + 1;
    }
    return Trying;
  }

  /** The counters are 64 bits wide. */
  function Add64(a: nat, b: nat): nat { (a + b) % W64 }

  // ---------------------------------------------------------------- what a connection counts

  /** Bytes sent and received over one connection, and the packets in between. */
  datatype Flow = Flow(tx: nat, rx: nat, flight: seq<seq<Meta>>)

  datatype Transfer = SendOk(metas: seq<Meta>) | ReceiveOk | Nothing

  predicate Possible(f: Flow, t: Transfer) { t.ReceiveOk? ==> f.flight != [] }

  function After(f: Flow, t: Transfer): Flow
    requires Possible(f, t)
  {
    match t
    case SendOk(metas) => Flow(Add64(f.tx, TotalSize(metas)), f.rx, f.flight + [metas])
    case ReceiveOk => Flow(f.tx, Add64(f.rx, TotalSize(f.flight[0])), f.flight[1..])
    case Nothing => f
  }

  function Parts(p: Packet): seq<Meta> { match p case One(m) => [m] case Many(ms) => ms }

  /** The headers on their way, oldest first. */
  function AllParts(carried: seq<Packet>): seq<Meta> {
    if carried == [] then [] else Parts(carried[0]) + AllParts(carried[1..])
  }

  lemma {:induction false} AllPartsAppend(carried: seq<Packet>, p: Packet)
    ensures AllParts(carried + [p]) == AllParts(carried) + Parts(p)
  {
    if carried == [] {
      assert (carried + [p])[1..] == [];
    } else {
      assert (carried + [p])[1..] == carried[1..] + [p];
      AllPartsAppend(carried[1..], p);
    }
  }

  /** The flow of a connection: the sender's and the receiver's counters and the packets between them. */
  ghost function FlowOf(tx: nat, rx: nat, carried: seq<Packet>): Flow {
    Flow(tx, rx, seq(|carried|, i requires 0 <= i < |carried| => Parts(carried[i])))
  }

  lemma FlowSent(tx: nat, rx: nat, carried: seq<Packet>, p: Packet)
    ensures FlowOf(Add64(tx, TotalSize(Parts(p))), rx, carried + [p]) ==
            After(FlowOf(tx, rx, carried), SendOk(Parts(p)))
  {
  }

  lemma FlowReceived(tx: nat, rx: nat, carried: seq<Packet>)
    requires carried != []
    ensures Possible(FlowOf(tx, rx, carried), ReceiveOk)
    ensures FlowOf(tx, Add64(rx, TotalSize(Parts(carried[0]))), carried[1..]) ==
            After(FlowOf(tx, rx, carried), ReceiveOk)
  {
  }

  lemma OneSize(m: Meta)
    ensures TotalSize([m]) == m.size
  {
    assert [m][..0] == [];
  }

  /** A send of `metas` over the link, seen from either end. */
  ghost predicate Sends(tx0: nat, carried0: seq<Packet>, tx: nat, carried: seq<Packet>, metas: seq<Meta>) {
    forall rx: nat :: FlowOf(tx, rx, carried) == After(FlowOf(tx0, rx, carried0), SendOk(metas))
  }

  /** A receive of the oldest packet, seen from either end. */
  ghost predicate Receives(rx0: nat, carried0: seq<Packet>, rx: nat, carried: seq<Packet>) {
    && carried0 != []
    && forall tx: nat :: FlowOf(tx, rx, carried) == After(FlowOf(tx, rx0, carried0), ReceiveOk)
  }

  lemma SendsBy(tx: nat, carried: seq<Packet>, p: Packet)
    ensures Sends(tx, carried, Add64(tx, TotalSize(Parts(p))), carried + [p], Parts(p))
  {
    forall rx: nat
      ensures FlowOf(Add64(tx, TotalSize(Parts(p))), rx, carried + [p]) ==
              After(FlowOf(tx, rx, carried), SendOk(Parts(p)))
    {
      FlowSent(tx, rx, carried, p);
    }
  }

  lemma ReceivesBy(rx: nat, carried: seq<Packet>)
    requires carried != []
    ensures Receives(rx, carried, Add64(rx, TotalSize(Parts(carried[0]))), carried[1..])
  {
    forall tx: nat
      ensures FlowOf(tx, Add64(rx, TotalSize(Parts(carried[0]))), carried[1..]) ==
              After(FlowOf(tx, rx, carried), ReceiveOk)
    {
      FlowReceived(tx, rx, carried);
    }
  }

  /** A message made from a received header, in the store and segment of the receiving manager. */
  ghost predicate IsNew(msg: ShmMessage, shm: Store, segment: nat, meta: Meta)
    reads msg
  {
    msg.shm == shm && msg.segment == segment && msg.View() == NewLocal(meta)
  }

  /** New messages over received headers. */
  method MakeMessages(shm: Store, segment: nat, metas: seq<Meta>) returns (msgs: seq<ShmMessage>)
    ensures fresh(msgs) && |msgs| == |metas|
    ensures forall i | 0 <= i < |msgs| :: IsNew(msgs[i], shm, segment, metas[i])
  {
    msgs := [];
    for i := 0 to |metas|
      invariant |msgs| == i && fresh(msgs)
      invariant forall k | 0 <= k < i :: IsNew(msgs[k], shm, segment, metas[k])
    {
      var m := new ShmMessage.FromMeta(shm, segment, metas[i]);
      msgs := msgs + [m];
    }
  }

  class ShmSocket {
    var fBytesTx: nat
    var fBytesRx: nat
    var fMessagesTx: nat
    var fMessagesRx: nat

    constructor ()
      ensures fBytesTx == fBytesRx == fMessagesTx == fMessagesRx == 0
    {
      fBytesTx, fBytesRx, fMessagesTx, fMessagesRx := 0, 0, 0, 0;
    }

    /** The headers of a vector of messages. */
    method Headers(msgs: seq<ShmMessage>) returns (metas: seq<Meta>)
      ensures |metas| == |msgs| && forall i | 0 <= i < |msgs| :: metas[i] == msgs[i].Fields()
    {
      metas := [];
      for i := 0 to |msgs|
        invariant |metas| == i && forall k | 0 <= k < i :: metas[k] == msgs[k].Fields()
      {
        metas := metas + [msgs[i].Fields()];
      }
    }

    /** Marks every message as queued and adds up their sizes. */
    method Enqueue(msgs: seq<ShmMessage>, ghost metas: seq<Meta>) returns (total: nat)
      requires |metas| == |msgs| && forall i | 0 <= i < |msgs| :: metas[i] == msgs[i].Fields()
      modifies (set m | m in msgs)`fQueued
      ensures total == TotalSize(metas)
      ensures forall m | m in msgs :: m.View() == SentLocal(old(m.View()))
    {
      total := 0;
      for i := 0 to |msgs|
        invariant total == TotalSize(metas[..i])
        invariant forall m | m in msgs :: m.View() == old(m.View()).(queued := m.fQueued)
        invariant forall k | 0 <= k < i :: msgs[k].fQueued
      {
        msgs[i].fQueued := true;
        assert metas[..i + 1][..i] == metas[..i];
        total := total + msgs[i].fSize;
      }
      assert metas[..|msgs|] == metas;
    }

    /** The metadata message of a multipart send, and the attempts to get rid of it. */
    method Transmit(link: Link, metas: seq<Meta>, padTo: nat, padding: seq<Byte>, tries: seq<Attempt>)
      returns (v: Verdict)
      requires link.Valid() && |metas| < W64 && |padding| == 3 && forall m | m in metas :: Fits(m)
      modifies link
      ensures link.Valid() && Ends(tries, v)
      ensures link.carried == if v.Transferred? then old(link.carried) + [Many(metas)] else old(link.carried)
    {
      var buf := Encode(metas, padTo, padding);
      var b := buf[..];
      v := Retry(tries);
      if v.Transferred? { link.Push(b, Many(metas)); }
    }

    /**
     * Multipart send.  If the transfer happens, the link carries exactly the messages' headers and every
     * message gives up its reference; otherwise nothing changes anywhere.
     */
    method SendParts(link: Link, msgs: seq<ShmMessage>, padTo: nat, padding: seq<Byte>, tries: seq<Attempt>)
      returns (v: Verdict, total: nat, ghost metas: seq<Meta>)
      requires link.Valid() && |msgs| < W64 && |padding| == 3
      requires forall m | m in msgs :: Fits(m.Fields())
      modifies this`fBytesTx, this`fMessagesTx, link, (set m | m in msgs)`fQueued
      ensures link.Valid() && Ends(tries, v)
      ensures |metas| == |msgs| && forall i | 0 <= i < |msgs| :: metas[i] == old(msgs[i].Fields())
      ensures !v.Transferred? ==>
        && link.carried == old(link.carried) && fBytesTx == old(fBytesTx) && fMessagesTx == old(fMessagesTx)
        && forall m | m in msgs :: m.View() == old(m.View())
      ensures v.Transferred? ==>
        && link.carried == old(link.carried) + [Many(metas)] && total == TotalSize(metas)
        && Sends(old(fBytesTx), old(link.carried), fBytesTx, link.carried, metas)
        && fMessagesTx == Add64(old(fMessagesTx), 1)
        && forall m | m in msgs :: m.View() == SentLocal(old(m.View()))
    {
      var headers := Headers(msgs);
      metas := headers;
      total := 0;
      v := Transmit(link, headers, padTo, padding, tries);
      if v.Transferred? {
        total := Enqueue(msgs, metas);
        fMessagesTx := Add64(fMessagesTx, 1);
        fBytesTx := Add64(fBytesTx, total);
        SendsBy(old(fBytesTx), old(link.carried), Many(metas));
      }
    }

    /**
     * Multipart receive: new messages with exactly the headers of the oldest metadata message, in order.  Bytes
     * that do not have the multipart form trip an assertion: `ok` is false and the packet is gone.
     */
    method ReceiveParts(link: Link, shm: Store, segment: nat, tries: seq<Attempt>)
      returns (v: Verdict, ok: bool, msgs: seq<ShmMessage>, total: nat, ghost metas: seq<Meta>)
      requires link.Valid() && (Ends(tries, Transferred) ==> link.fifo != [])
      modifies this`fBytesRx, this`fMessagesRx, link
      ensures link.Valid() && Ends(tries, v) && fresh(msgs)
      ensures !v.Transferred? || !ok ==> msgs == [] && fBytesRx == old(fBytesRx) && fMessagesRx == old(fMessagesRx)
      ensures link.carried == if v.Transferred? then old(link.carried)[1..] else old(link.carried)
      ensures v.Transferred? ==> ok == WellFormed(old(link.fifo)[0])
      ensures v.Transferred? && ok ==>
        && Carries(old(link.fifo)[0], metas) && |msgs| == |metas|
        && (forall i | 0 <= i < |msgs| :: IsNew(msgs[i], shm, segment, metas[i]))
        && total == TotalSize(metas) && fBytesRx == Add64(old(fBytesRx), total)
        && fMessagesRx == Add64(old(fMessagesRx), 1)
      ensures v.Transferred? && old(link.carried)[0].Many? ==>
        var sent := old(link.carried)[0].metas;
        && (sent != [] ==> ok)
        && (ok ==> metas == sent && Receives(old(fBytesRx), old(link.carried), fBytesRx, link.carried))
    {
      msgs, total, ok, metas := [], 0, true, [];
      v := Retry(tries);
      if v.Transferred? {
        var b, p := link.Pop();
        if p.Many? { CarriesWellFormed(b, p.metas); }
        ok := |b| > COUNT && COUNT + HEADER * FromLe(b[..COUNT]) <= |b|;
        if ok {
          var headers;
          headers, total := Decode(b);
          metas := headers;
          if p.Many? { CarriesOne(b, metas, p.metas); }
          msgs := MakeMessages(shm, segment, headers);
          fMessagesRx := Add64(fMessagesRx, 1);
          fBytesRx := Add64(fBytesRx, total);
          ReceivesBy(old(fBytesRx), old(link.carried));
        }
      }
    }

    /** Single send: the reference moves into the link, or stays where it was. */
    method Send(link: Link, msg: ShmMessage, padTo: nat, padding: seq<Byte>, tries: seq<Attempt>) returns (v: Verdict)
      requires link.Valid() && Fits(msg.Fields()) && |padding| == 3
      modifies this`fBytesTx, this`fMessagesTx, link, msg`fQueued
      ensures link.Valid() && Ends(tries, v)
      ensures !v.Transferred? ==>
        && link.carried == old(link.carried) && fBytesTx == old(fBytesTx) && fMessagesTx == old(fMessagesTx)
        && msg.View() == old(msg.View())
      ensures v.Transferred? ==>
        && link.carried == old(link.carried) + [One(msg.Fields())] && msg.View() == SentLocal(old(msg.View()))
        && Sends(old(fBytesTx), old(link.carried), fBytesTx, link.carried, [msg.Fields()])
        && fMessagesTx == Add64(old(fMessagesTx), 1)
    {
      var buf := EncodeSingle(msg.Fields(), padTo, padding);
      var b := buf[..];
      v := Retry(tries);
      if v.Transferred? {
        link.Push(b, One(msg.Fields()));
        msg.fQueued := true;
        fMessagesTx := Add64(fMessagesTx, 1);
        fBytesTx := Add64(fBytesTx, msg.fSize);
        OneSize(msg.Fields());
        SendsBy(old(fBytesTx), old(link.carried), One(msg.Fields()));
      }
    }

    /**
     * Single receive: the message takes over the first header of the oldest metadata message; its own flags stay.
     * A metadata message that is too short throws: `ok` is false and the packet is gone.
     */
    method Receive(link: Link, msg: ShmMessage, tries: seq<Attempt>) returns (v: Verdict, ok: bool)
      requires link.Valid() && (Ends(tries, Transferred) ==> link.fifo != [])
      modifies this`fBytesRx, this`fMessagesRx, link, msg
      ensures link.Valid() && Ends(tries, v)
      ensures !v.Transferred? || !ok ==>
        fBytesRx == old(fBytesRx) && fMessagesRx == old(fMessagesRx) && msg.View() == old(msg.View())
      ensures link.carried == if v.Transferred? then old(link.carried)[1..] else old(link.carried)
      ensures v.Transferred? ==> ok == (|old(link.fifo)[0]| >= HEADER)
      ensures v.Transferred? && ok ==>
        && msg.View() == ReceivedLocal(old(msg.View()), MetaOf(old(link.fifo)[0][..HEADER]))
        && fBytesRx == Add64(old(fBytesRx), msg.fSize) && fMessagesRx == Add64(old(fMessagesRx), 1)
      ensures v.Transferred? && old(link.carried)[0].One? ==>
        && ok && msg.Fields() == old(link.carried)[0].meta
        && Receives(old(fBytesRx), old(link.carried), fBytesRx, link.carried)
    {
      v := Retry(tries);
      ok := true;
      if v.Transferred? {
        var b, p := link.Pop();
        if |b| < HEADER {
          ok := false;
          return;
        }
        msg.SetMeta(MetaOf(b[..HEADER]));
        fMessagesRx := Add64(fMessagesRx, 1);
        fBytesRx := Add64(fBytesRx, msg.fSize);
        if p.One? { OneSize(p.meta); }
        ReceivesBy(old(fBytesRx), old(link.carried));
      }
    }
  }

  // ---------------------------------------------------------------- counters over a whole run

  predicate Valid(f: Flow, ts: seq<Transfer>)
    decreases |ts|
  {
    ts == [] || (Possible(f, ts[0]) && Valid(After(f, ts[0]), ts[1..]))
  }

  function AfterAll(f: Flow, ts: seq<Transfer>): Flow
    requires Valid(f, ts)
    decreases |ts|
  {
    if ts == [] then f else AfterAll(After(f, ts[0]), ts[1..])
  }

  function InFlight(q: seq<seq<Meta>>): nat {
    if q == [] then 0 else TotalSize(q[0]) + InFlight(q[1..])
  }

  lemma {:induction false} InFlightAppend(q: seq<seq<Meta>>, m: seq<Meta>)
    ensures InFlight(q + [m]) == InFlight(q) + TotalSize(m)
  {
    if q == [] {
      assert (q + [m])[1..] == [];
    } else {
      assert (q + [m])[1..] == q[1..] + [m];
      InFlightAppend(q[1..], m);
    }
  }

  predicate Balanced(f: Flow) { f.tx == (f.rx + InFlight(f.flight)) % W64 }

  lemma AddMod(a: nat, b: nat)
    ensures (a % W64 + b) % W64 == (a + b) % W64
  {
  }

  lemma TransferBalanced(f: Flow, t: Transfer)
    requires Balanced(f) && Possible(f, t)
    ensures Balanced(After(f, t))
  {
    match t
    case SendOk(metas) =>
      InFlightAppend(f.flight, metas);
      AddMod(f.rx + InFlight(f.flight), TotalSize(metas));
    case ReceiveOk => AddMod(f.rx + TotalSize(f.flight[0]), InFlight(f.flight[1..]));
    case Nothing =>
  }

  /** Over any run the bytes sent are the bytes received plus those in flight, as 64-bit counters count. */
  lemma {:induction false} BytesConserved(f: Flow, ts: seq<Transfer>)
    requires Balanced(f) && Valid(f, ts)
    ensures var g := AfterAll(f, ts); g.tx == (g.rx + InFlight(g.flight)) % W64
    decreases |ts|
  {
    if ts == [] {
    } else {
      TransferBalanced(f, ts[0]);
      BytesConserved(After(f, ts[0]), ts[1..]);
    }
  }

  /** So every send and every receive of a socket keeps the balance of its connection. */
  lemma SendsBalanced(tx0: nat, carried0: seq<Packet>, tx: nat, carried: seq<Packet>, metas: seq<Meta>, rx: nat)
    requires Sends(tx0, carried0, tx, carried, metas) && Balanced(FlowOf(tx0, rx, carried0))
    ensures Balanced(FlowOf(tx, rx, carried))
  {
    TransferBalanced(FlowOf(tx0, rx, carried0), SendOk(metas));
  }

  lemma ReceivesBalanced(rx0: nat, carried0: seq<Packet>, rx: nat, carried: seq<Packet>, tx: nat)
    requires Receives(rx0, carried0, rx, carried) && Balanced(FlowOf(tx, rx0, carried0))
    ensures Balanced(FlowOf(tx, rx, carried))
  {
    TransferBalanced(FlowOf(tx, rx0, carried0), ReceiveOk);
  }
}
