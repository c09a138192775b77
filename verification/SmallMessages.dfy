/** If every message fits one fragment of every link, no run ever meets a gap. */
module SmallMessages {
  import opened Prelude
  import opened Epochs
  import opened Protocol
  import opened Intervals
  import opened Slices
  import opened Reassembly
  import opened Messages
  import opened Session
  import opened System

  // ---------------------------------------------------------------------
  // One manager
  // ---------------------------------------------------------------------

  /** An outgoing message of at most `limit` bytes, all of them pending. */
  predicate WholeOut(s: Slice, limit: nat) {
    |s.data| <= limit && s.runs == if s.data == [] then map[] else map[0 := |s.data| - 1]
  }

  /** No message is ever partly sent, partly acked or partly received. */
  ghost predicate WholeMgr(m: Msgs, limit: nat) {
    && Frontier(m, m.lastAck.0) && WholeIncoming(m)
    && (forall q :: q in m.outgoing ==> WholeOut(m.outgoing[q], limit))
  }

  /** Traffic without parts: whole messages, and acks of whole messages. */
  predicate WholeTraffic(x: LinkProtocol) {
    Whole(x) && (x.Ack? ==> x.lastIndex == 0)
  }

  predicate AllWhole(xs: seq<LinkProtocol>) {
    forall x :: x in xs ==> WholeTraffic(x)
  }

  lemma InsertWhole(m: Msgs, data: Payload, limit: nat)
    requires WholeMgr(m, limit) && |data| <= limit
    ensures WholeMgr(InsertMsg(m, data), limit)
  {
  }

  predicate AllWithin(msgs: seq<Payload>, limit: nat) {
    forall i :: 0 <= i < |msgs| ==> |msgs[i]| <= limit
  }

  lemma {:induction false} InsertAllWhole(e: Epoch, msgs: seq<Payload>, limit: nat)
    requires AllWithin(msgs, limit)
    ensures WholeMgr(InsertAll(NewMsgs(e), msgs), limit)
  {
    if msgs != [] {
      var n := |msgs| - 1;
      InsertAllWhole(e, msgs[..n], limit);
      InsertWhole(InsertAll(NewMsgs(e), msgs[..n]), msgs[n], limit);
    }
  }

  lemma AckWhole(m: Msgs, q: nat, limit: nat)
    requires WholeMgr(m, limit)
    ensures WholeMgr(RecvAck(m, (q, 0)), limit)
  {
  }

  /** A whole fragment fills the message it belongs to. */
  lemma FillsEntry(e: Slice, x: LinkProtocol)
    requires x.MsgSlice? && WholeTraffic(x) && 0 < x.firstIndex + |x.data| && e.seqNo == x.seqNo
    requires WellFormed(e) && e.data != [] && (IsFull(e) || (e.runs == map[] && |e.data| == x.seqLen))
    ensures IsFull(RecvSlice(e, e.epoch, x.seqNo, x.firstIndex, x.data))
  {
    var r := RecvSlice(e, e.epoch, x.seqNo, x.firstIndex, x.data);
    RecvSliceGrows(e, e.epoch, x.seqNo, x.firstIndex, x.data);
    if IsFull(e) {
      FullIffCovered(e.runs, |e.data|);
    } else {
      var last := |e.data| - 1;
      assert r.runs == Add(e.runs, 0, last);
      AllAdded(e.runs, |e.data|, last);
    }
    FullIffCovered(r.runs, |r.data|);
  }

  lemma AllAdded(m: Runs, n: nat, last: nat)
    requires NormalForm(m, n) && last == n - 1
    ensures forall i :: 0 <= i < n ==> Covers(Add(m, 0, last), i)
  {
    RunsAdded(m, n, 0, last);
  }

  lemma RecvWhole(m: Msgs, x: LinkProtocol, limit: nat)
    requires WholeMgr(m, limit) && x.MsgSlice? && WholeTraffic(x)
    requires Takes(m, x.seqNo, x.firstIndex, x.seqLen, x.data)
    ensures WholeMgr(AfterTake(Recv(m, x.seqNo, x.firstIndex, x.seqLen, x.data)), limit)
  {
    RecvAndTake(m, x.seqNo, x.firstIndex, x.seqLen, x.data);
    RecvFull(m, x, limit);
  }

  /** Held messages stay whole, and so does the frontier. */
  predicate WholeIncoming(m: Msgs) {
    m.lastAck.1 == 0 && forall q :: q in m.incoming ==> IsFull(m.incoming[q])
  }

  lemma HoldsFull(m: Msgs, q: nat, s: Slice)
    requires WholeIncoming(m) && IsFull(s)
    ensures var incoming := m.incoming[q := s];
      && WholeIncoming(m.(incoming := incoming))
      && WholeIncoming(m.(incoming := incoming, lastAck := Advance(incoming, m.lastAck)))
  {
    AdvanceWhole(m.incoming[q := s], m.lastAck);
  }

  lemma RecvFull(m: Msgs, x: LinkProtocol, limit: nat)
    requires WholeMgr(m, limit) && x.MsgSlice? && WholeTraffic(x)
    requires Takes(m, x.seqNo, x.firstIndex, x.seqLen, x.data)
    ensures WholeIncoming(Recv(m, x.seqNo, x.firstIndex, x.seqLen, x.data))
  {
    if RecvInRange(m, x.seqNo, x.firstIndex, x.seqLen) {
      var e := Entry(m, x.seqNo, x.seqLen);
      assert Held(e, m.epoch, x.seqNo);
      FillsEntry(e, x);
      var s := RecvSlice(e, m.epoch, x.seqNo, x.firstIndex, x.data);
      assert Recorded(m, x.seqNo, x.firstIndex, x.seqLen, x.data) == m.incoming[x.seqNo := s];
      HoldsFull(m, x.seqNo, s);
    }
  }

  /** Over full messages the frontier stops between two of them. */
  lemma AdvanceWhole(incoming: map<nat, Slice>, ack: (nat, nat))
    requires ack.1 == 0 && forall q :: q in incoming ==> IsFull(incoming[q])
    ensures Advance(incoming, ack).1 == 0
  {
    AdvanceMeaning(incoming, ack);
  }

  // ---------------------------------------------------------------------
  // What is sent
  // ---------------------------------------------------------------------

  predicate Wide(links: seq<Link>, limit: nat) {
    forall i :: 0 <= i < |links| ==> limit + OVERHEAD <= links[i].maxSize
  }

  lemma OneFragmentOnly(s: Slice, size: nat)
    requires WholeOut(s, size)
    ensures AllWhole(GetSlices(s, size))
  {
    if s.data != [] {
      var end := |s.data| - 1;
      assert 0 in s.runs;
      NextKeyIs(s.runs, 0, 0);
      assert NextKey(s.runs, 1) == None;
      assert SlicesFrom(s, 1, size) == [];
      assert MakeSlices(s.data, s.epoch, s.seqNo, 0, size, end) ==
             [MsgSlice(s.epoch, s.seqNo, |s.data|, 0, s.data[0..end + 1])] + [];
    }
  }

  lemma SlicesWhole(live: seq<Link>, s: Slice, limit: nat)
    requires Wide(live, limit) && WholeOut(s, limit)
    ensures AllWhole(SendSlices(live, s))
  {
    if live != [] {
      assert limit <= FragmentSize(live[0]);
      OneFragmentOnly(s, FragmentSize(live[0]));
    }
  }

  lemma {:induction false} QueuedWhole(e: Epoch, msgs: seq<Payload>, live: seq<Link>, limit: nat)
    requires Wide(live, limit) && AllWithin(msgs, limit)
    ensures AllWhole(QueuedSlices(e, msgs, live))
  {
    if msgs != [] {
      var n := |msgs| - 1;
      QueuedWhole(e, msgs[..n], live, limit);
      SlicesWhole(live, FromVec(e, n, msgs[n]), limit);
    }
  }

  lemma {:induction false} DropClosedWide(links: seq<Link>, closed: set<nat>, limit: nat)
    requires Wide(links, limit)
    ensures Wide(DropClosed(links, closed), limit)
  {
    if links != [] && links[0].id in closed {
      DropClosedWide(links[1..], closed, limit);
    }
  }

  lemma {:induction false} UpkeepWide(links: seq<Link>, closed: set<nat>, limit: nat)
    requires Wide(links, limit)
    ensures Wide(Upkeep(links, closed), limit)
  {
    if links != [] {
      UpkeepWide(links[1..], closed, limit);
    }
  }

  // ---------------------------------------------------------------------
  // One endpoint
  // ---------------------------------------------------------------------

  ghost predicate WholeState(s: State, limit: nat) {
    match s
    case Disconnected(_) => true
    case Connecting(_, queued) => AllWithin(queued, limit)
    case EpochMismatch(_, queued, links) => AllWithin(queued, limit) && Wide(links, limit)
    case Connected(_, mgr, links) => WholeMgr(mgr, limit) && Wide(links, limit)
    case Reconnecting(_, mgr) => WholeMgr(mgr, limit)
    case GracePeriod(_, mgr) => WholeMgr(mgr, limit)
  }

  /** What a caller controls: messages of at most `limit` bytes, and links with room for that much. */
  predicate Within(input: Input, limit: nat) {
    && (input.SendMsg? ==> |input.data| <= limit)
    && (Accepts(input) ==> limit + OVERHEAD <= input.maxSize)
  }

  predicate WholeInput(input: Input, limit: nat) {
    Within(input, limit) && (input.FromLink? ==> WholeTraffic(input.msg))
  }

  ghost predicate WholeOutcome(o: Out, limit: nat) {
    WholeState(o.core.state, limit) && AllWhole(o.sent)
  }

  lemma SettleWhole(c: Core, limit: nat)
    requires c.state.Connected? && WholeState(c.state, limit)
    ensures WholeState(Settle(c).state, limit)
  {
  }

  lemma IdleWhole(c: Core, input: Input, closed: set<nat>, limit: nat)
    requires (c.state.Disconnected? || c.state.Connecting?) && Ready(c, input)
    requires WholeState(c.state, limit) && WholeInput(input, limit)
    ensures WholeOutcome(Dispatch(c, input, closed), limit)
  {
    if Accepts(input) {
      DropClosedWide([NewLink(c, input)], closed, limit);
    }
  }

  lemma NegotiateWhole(c: Core, theirs: Option<Epoch>, request: bool, closed: set<nat>, limit: nat)
    requires c.state.EpochMismatch? && WholeState(c.state, limit)
    ensures WholeOutcome(Negotiate(c, theirs, request, closed), limit)
  {
    var o, links := Negotiate(c, theirs, request, closed), c.state.links;
    DropClosedWide(links, closed, limit);
    DropClosedWide(DropClosed(links, closed), closed, limit);
    if o.core.state.Connected? {
      var e := o.core.state.session;
      InsertAllWhole(e, c.state.queued, limit);
      QueuedWhole(e, c.state.queued, o.core.state.links, limit);
    }
  }

  lemma MismatchWhole(c: Core, input: Input, closed: set<nat>, limit: nat)
    requires c.state.EpochMismatch? && WholeState(c.state, limit) && WholeInput(input, limit)
    ensures WholeOutcome(StepMismatch(c, input, closed), limit)
  {
    match input
    case FromLink(x) =>
      if x.Reset? {
        NegotiateWhole(c, x.epoch, x.request, closed, limit);
      }
    case Tick => UpkeepWide(c.state.links, closed, limit);
    case EvictLink(id) => UpkeepWide(c.state.links, {id}, limit);
    case _ =>
  }

  lemma ConnectedMsgWhole(c: Core, x: LinkProtocol, closed: set<nat>, limit: nat)
    requires c.state.Connected? && Ready(c, FromLink(x)) && WholeState(c.state, limit) && WholeTraffic(x)
    ensures WholeOutcome(StepConnectedMsg(c, x, closed), limit)
  {
    var live := DropClosed(c.state.links, closed);
    DropClosedWide(c.state.links, closed, limit);
    match x
    case Reset(_, _) => SettleWhole(WithLinks(c, live), limit);
    case Ack(_, q, _) => AckWhole(c.state.mgr, q, limit);
    case MsgSlice(e, _, _, _, _) =>
      if e == c.state.session {
        RecvWhole(c.state.mgr, x, limit);
        SettleWhole(Receive(c, x), limit);
        SettleWhole(WithLinks(Receive(c, x), live), limit);
      }
    case _ =>
  }

  lemma ConnectedWhole(c: Core, input: Input, closed: set<nat>, limit: nat)
    requires c.state.Connected? && Ready(c, input) && WholeState(c.state, limit) && WholeInput(input, limit)
    ensures WholeOutcome(StepConnected(c, input, closed), limit)
  {
    match input
    case FromLink(x) => ConnectedMsgWhole(c, x, closed, limit);
    case SendMsg(data, _) =>
      var live := DropClosed(c.state.links, closed);
      DropClosedWide(c.state.links, closed, limit);
      InsertWhole(c.state.mgr, data, limit);
      SettleWhole(WithLinks(Insert(c, data), live), limit);
      SlicesWhole(live, FromVec(c.state.mgr.epoch, c.state.mgr.nextSeq, data), limit);
    case Tick =>
      var live := Upkeep(c.state.links, closed);
      UpkeepWide(c.state.links, closed, limit);
      SettleWhole(WithLinks(c, live), limit);
      if EarliestOutgoing(c.state.mgr).Some? {
        SlicesWhole(live, c.state.mgr.outgoing[EarliestOutgoing(c.state.mgr).value], limit);
      }
    case EvictLink(id) => UpkeepWide(c.state.links, {id}, limit);
    case _ =>
  }

  lemma WaitingWhole(c: Core, input: Input, limit: nat)
    requires (c.state.Reconnecting? || c.state.GracePeriod?) && Ready(c, input)
    requires WholeState(c.state, limit) && WholeInput(input, limit)
    ensures WholeState(StepWaiting(c, input).state, limit)
  {
    match input
    case SendMsg(data, _) => InsertWhole(c.state.mgr, data, limit);
    case FromLink(x) =>
      if x.Ack? {
        AckWhole(c.state.mgr, x.ackSeq, limit);
      } else if OfSession(c.state, x) {
        RecvWhole(c.state.mgr, x, limit);
      }
    case _ =>
  }

  lemma StepWhole(c: Core, input: Input, closed: set<nat>, limit: nat)
    requires Ready(c, input) && WholeState(c.state, limit) && WholeInput(input, limit)
    ensures WholeOutcome(Step(c, input, closed), limit)
  {
    if !input.Configure? && !(input.Tick? && !c.timer.armed) {
      var t := if input.Tick? then c.(timer := Fired(c.timer)) else c;
      match t.state
      case EpochMismatch(_, _, _) => MismatchWhole(t, input, closed, limit);
      case Connected(_, _, _) => ConnectedWhole(t, input, closed, limit);
      case Reconnecting(_, _) => WaitingWhole(t, input, limit);
      case GracePeriod(_, _) => WaitingWhole(t, input, limit);
      case _ => IdleWhole(t, input, closed, limit);
    }
  }

  // ---------------------------------------------------------------------
  // Two endpoints
  // ---------------------------------------------------------------------

  ghost predicate WholeSys(s: Sys, limit: nat) {
    && WholeState(s.a.state, limit) && WholeState(s.b.state, limit)
    && forall x :: x in s.ab || x in s.ba ==> WholeTraffic(x)
  }

  lemma DoAWhole(s: Sys, input: Input, closed: set<nat>, limit: nat)
    requires WholeSys(s, limit) && Within(input, limit)
    ensures WholeSys(DoA(s, input, closed), limit)
  {
    if Enabled(s, input) {
      StepWhole(s.a, input, closed, limit);
    }
  }

  lemma {:induction false} RunWhole(acts: seq<Act>, limit: nat)
    requires forall k :: 0 <= k < |acts| ==> Within(acts[k].input, limit)
    ensures WholeSys(After(acts), limit)
  {
    if acts != [] {
      var n := |acts| - 1;
      var s, act := After(acts[..n]), acts[n];
      RunWhole(acts[..n], limit);
      DoAWhole(if act.atA then s else Flip(s), act.input, act.closed, limit);
    }
  }

  /**
   If every message sent has at most `limit` bytes and every accepted link has room
   for `limit` bytes beside the protocol, then on every run, whatever the network does,
   the payloads handed out are exactly those inserted, in order.
   */
  lemma SmallMessagesAreExact(acts: seq<Act>, limit: nat, atA: bool, e: nat)
    requires forall k :: 0 <= k < |acts| ==> Within(acts[k].input, limit)
    requires e < MAX_EPOCH
    ensures CleanRun(acts)
    ensures var s := View(acts, atA); HandedOut(s.a, e) <= Inserted(s.b, e)
  {
    RunWhole(acts, limit);
    WholeMessagesRunClean(acts);
    EndToEndDelivery(acts, atA, e);
  }
}
