/** Every step of the session state machine is made of protocol moves. */
module Refinement {
  import opened Prelude
  import opened Epochs
  import opened Protocol
  import opened Slices
  import opened Reassembly
  import opened Messages
  import opened Delivery
  import opened Session
  import P = Peers

  /** The messages among the events, with their epochs. */
  function Inbox(events: seq<Event>): seq<(Payload, nat)> {
    if events == [] then []
    else
      var n := |events| - 1;
      Inbox(events[..n]) + if events[n].GotMessage? then [(events[n].data, events[n].epoch)] else []
  }

  function PeerOf(c: Core): P.Peer {
    P.Peer(ToInt(EpochOf(c.state)), if InSession(c.state) then Some(c.state.mgr) else None, c.journal, Inbox(c.events))
  }

  lemma {:induction false} InboxAppend(a: seq<Event>, b: seq<Event>)
    ensures Inbox(a + b) == Inbox(a) + Inbox(b)
    decreases |b|
  {
    if b == [] {
      assert a + b == a;
    } else {
      var n := |b| - 1;
      assert (a + b)[..|a + b| - 1] == a + b[..n];
      InboxAppend(a, b[..n]);
    }
  }

  lemma {:induction false} InboxDelivery(events: seq<Event>, msgs: seq<Payload>, e: Epoch)
    ensures Inbox(events + MessageEvents(msgs, e)) == Inbox(events) + P.Tagged(msgs, e)
    decreases |msgs|
  {
    if msgs == [] {
      assert events + MessageEvents(msgs, e) == events;
    } else {
      var n := |msgs| - 1;
      InboxDelivery(events, msgs[..n], e);
      var before, note := events + MessageEvents(msgs[..n], e), GotMessage(msgs[n], e);
      Regroup(events, MessageEvents(msgs[..n], e), [note]);
      assert (before + [note])[..|before|] == before;
      Regroup(Inbox(events), P.Tagged(msgs[..n], e), [(msgs[n], e as nat)]);
    }
  }

  /** Notices carry no messages. */
  lemma InboxNotices(events: seq<Event>, notices: seq<Event>)
    requires |notices| <= 2 && forall i :: 0 <= i < |notices| ==> !notices[i].GotMessage?
    ensures Inbox(events + notices) == Inbox(events)
  {
    InboxAppend(events, notices);
    if |notices| == 2 {
      assert notices[..1] == [notices[0]];
      assert Inbox(notices[..1]) == [];
    }
  }

  // ---------------------------------------------------------------------
  // What is sent
  // ---------------------------------------------------------------------

  lemma SendSlicesOwn(c: Core, live: seq<Link>, q: nat, x: LinkProtocol)
    requires InSession(c.state) && P.Local(PeerOf(c)) && q in c.state.mgr.outgoing
    requires x in SendSlices(live, c.state.mgr.outgoing[q])
    ensures P.Own(PeerOf(c), x)
  {
    var s := c.state.mgr.outgoing[q];
    GetSlicesCarry(s, FragmentSize(live[0]), x);
    assert Pending(s, c.state.mgr.epoch, q, c.journal[c.state.session][q]);
  }

  lemma {:induction false} QueuedSlicesCarry(epoch: Epoch, msgs: seq<Payload>, live: seq<Link>, x: LinkProtocol)
    requires x in QueuedSlices(epoch, msgs, live)
    ensures x.MsgSlice? && x.seqNo < |msgs| && Carries(x, epoch, x.seqNo, msgs[x.seqNo])
  {
    var n := |msgs| - 1;
    if x in QueuedSlices(epoch, msgs[..n], live) {
      QueuedSlicesCarry(epoch, msgs[..n], live, x);
    } else {
      GetSlicesCarry(FromVec(epoch, n, msgs[n]), FragmentSize(live[0]), x);
    }
  }

  /** Queued messages take the sequence numbers 0, 1, 2, ... in the order they were accepted. */
  lemma {:induction false} InsertAllOutgoing(epoch: Epoch, msgs: seq<Payload>)
    ensures var m := InsertAll(NewMsgs(epoch), msgs);
      && m.epoch == epoch && m.nextSeq == |msgs|
      && (forall q :: q in m.outgoing <==> 0 <= q < |msgs|)
      && forall q :: 0 <= q < |msgs| ==> m.outgoing[q] == FromVec(epoch, q, msgs[q])
  {
    if msgs != [] {
      InsertAllOutgoing(epoch, msgs[..|msgs| - 1]);
    }
  }

  // ---------------------------------------------------------------------
  // The refinement
  // ---------------------------------------------------------------------

  function Heard(input: Input): set<LinkProtocol> {
    if input.FromLink? then {input.msg} else {}
  }

  /** Move `first`, send `sent`, move `after` (which at most ends the session). */
  ghost predicate MadeBy(p: P.Peer, q: P.Peer, input: Input, sent: seq<LinkProtocol>, first: P.Move, after: P.Move) {
    && P.Legal(p, first, Heard(input))
    && (first.GetSlice? ==> input == FromLink(first.x))
    && var mid := P.Apply(p, first);
       && (forall x :: x in sent ==> P.Own(mid, x))
       && (after.Skip? || after.Raise?) && P.Legal(mid, after, {})
       && q == P.Apply(mid, after)
  }

  ghost predicate Made(c: Core, input: Input, o: Out, first: P.Move, after: P.Move) {
    MadeBy(PeerOf(c), PeerOf(o.core), input, o.sent, first, after)
  }

  /** The epoch rises, strictly so if a session ends, and nothing else changes. */
  predicate Raises(p: P.Peer, q: P.Peer) {
    && q == p.(epoch := q.epoch, mgr := None) && q.epoch <= MAX_EPOCH
    && p.epoch <= q.epoch && (p.mgr.Some? && p.epoch < MAX_EPOCH ==> p.epoch < q.epoch)
  }

  /** A transition that ends a session, or happens outside one, only raises the epoch. */
  lemma DisconnectedRaises(c: Core)
    ensures Raises(PeerOf(c), PeerOf(ToDisconnected(c)))
  {
    var notices :=
      if c.state.Connecting? then [AttemptingConnection(false)]
      else if c.state.Reconnecting? then [AttemptingConnection(false), GotDisconnected]
      else if InSession(c.state) then [GotDisconnected]
      else [];
    NoticesRaise(c, ToDisconnected(c), notices);
  }

  lemma ConnectingRaises(c: Core, queued: seq<Payload>)
    requires !c.state.Connected? && !c.state.Connecting?
    ensures Raises(PeerOf(c), PeerOf(ToConnecting(c, queued)))
  {
    var notices :=
      if c.state.Reconnecting? then [GotDisconnected]
      else if c.state.GracePeriod? then [GotDisconnected, AttemptingConnection(true)]
      else [AttemptingConnection(true)];
    NoticesRaise(c, ToConnecting(c, queued), notices);
  }

  lemma NoticesRaise(c: Core, d: Core, notices: seq<Event>)
    requires d.events == c.events + notices && d.journal == c.journal && !InSession(d.state)
    requires |notices| <= 2 && forall i :: 0 <= i < |notices| ==> !notices[i].GotMessage?
    requires ToInt(EpochOf(c.state)) <= ToInt(EpochOf(d.state))
    requires InSession(c.state) && c.state.session < MAX_EPOCH ==> c.state.session < ToInt(EpochOf(d.state))
    ensures Raises(PeerOf(c), PeerOf(d))
  {
    InboxNotices(c.events, notices);
  }

  lemma SettleRaises(c: Core) returns (after: P.Move)
    requires c.state.Connected?
    ensures (after.Skip? || after.Raise?) && P.Legal(PeerOf(c), after, {})
    ensures PeerOf(Settle(c)) == P.Apply(PeerOf(c), after)
  {
    if c.state.links == [] && c.cfg.reconnecting == Some(0) && c.cfg.gracePeriod == Some(0) {
      DisconnectedRaises(c);
      after := P.Raise(PeerOf(ToDisconnected(c)).epoch);
    } else {
      InboxNotices(c.events, [AttemptingConnection(true)]);
      after := P.Skip;
    }
  }

  /** Raising the epoch, and announcing it, is a move. */
  lemma RaiseMade(p: P.Peer, q: P.Peer, input: Input, sent: seq<LinkProtocol>)
    requires Raises(p, q) && forall x :: x in sent ==> x.Reset? && ToInt(x.epoch) == q.epoch
    ensures MadeBy(p, q, input, sent, P.Raise(q.epoch), P.Skip)
  {
  }

  /** The first link opens the epoch negotiation with a request. */
  lemma RefineFirstLink(c: Core, input: Input, link: Link, closed: set<nat>)
    requires c.state.Disconnected? || c.state.Connecting?
    ensures var o := ToMismatchWith(NextLink(c), link, closed);
      Made(c, input, o, P.Raise(PeerOf(o.core).epoch), P.Skip)
  {
    var o := ToMismatchWith(NextLink(c), link, closed);
    var notice := if c.state.Connecting? then [AttemptingConnection(false)] else [];
    NoticesRaise(c, o.core, notice);
    RaiseMade(PeerOf(c), PeerOf(o.core), input, o.sent);
  }

  lemma RefineDisconnected(c: Core, input: Input, closed: set<nat>)
    requires c.state.Disconnected?
    ensures var o := StepDisconnected(c, input, closed);
      Made(c, input, o, P.Raise(PeerOf(o.core).epoch), P.Skip)
  {
    var o := StepDisconnected(c, input, closed);
    if Accepts(input) {
      RefineFirstLink(c, input, NewLink(c, input), closed);
    } else {
      if o.core.state.Connecting? {
        ConnectingRaises(c, o.core.state.queued);
        assert o.core == ToConnecting(c, o.core.state.queued);
      } else {
        assert PeerOf(o.core) == PeerOf(c);
      }
      RaiseMade(PeerOf(c), PeerOf(o.core), input, []);
    }
  }

  lemma RefineConnecting(c: Core, input: Input, closed: set<nat>)
    requires c.state.Connecting?
    ensures var o := StepConnecting(c, input, closed);
      Made(c, input, o, P.Raise(PeerOf(o.core).epoch), P.Skip)
  {
    var o := StepConnecting(c, input, closed);
    if Accepts(input) {
      RefineFirstLink(c, input, NewLink(c, input), closed);
    } else {
      if o.core.state.Disconnected? {
        var d := if input.Tick? then c.(timer := STOPPED) else c;
        DisconnectedRaises(d);
        assert o.core == ToDisconnected(d) && PeerOf(d) == PeerOf(c);
      } else {
        assert PeerOf(o.core) == PeerOf(c);
      }
      RaiseMade(PeerOf(c), PeerOf(o.core), input, []);
    }
  }

  /** A new session, opened with the queued messages, is a move. */
  lemma EnterPeer(c: Core, e: Epoch, live: seq<Link>)
    requires c.state.EpochMismatch?
    ensures PeerOf(ToConnectedNew(c, e, live).core) == P.Apply(PeerOf(c), P.Enter(e, c.state.queued))
  {
    InboxNotices(c.events, [GotConnected(e)]);
  }

  lemma EnterSends(c: Core, e: Epoch, live: seq<Link>, x: LinkProtocol)
    requires c.state.EpochMismatch?
    requires x in QueuedSlices(e, c.state.queued, live) || (x.Reset? && x.epoch == Some(e))
    ensures P.Own(P.Apply(PeerOf(c), P.Enter(e, c.state.queued)), x)
  {
    if x in QueuedSlices(e, c.state.queued, live) {
      QueuedSlicesCarry(e, c.state.queued, live, x);
      InsertAllOutgoing(e, c.state.queued);
    }
  }

  lemma RefineNegotiate(c: Core, theirs: Option<Epoch>, request: bool, closed: set<nat>) returns (first: P.Move)
    requires c.state.EpochMismatch?
    ensures Made(c, FromLink(Reset(theirs, request)), Negotiate(c, theirs, request, closed), first, P.Skip)
  {
    var o, x := Negotiate(c, theirs, request, closed), Reset(theirs, request);
    if o.core.state.Connected? {
      var e, live := o.core.state.session, o.core.state.links;
      first := P.Enter(e, c.state.queued);
      assert o.core == ToConnectedNew(c, e, live).core;
      EnterPeer(c, e, live);
      forall y | y in o.sent ensures P.Own(P.Apply(PeerOf(c), first), y) {
        EnterSends(c, e, live, y);
      }
      assert x in Heard(FromLink(x));
    } else {
      first := P.Skip;
    }
  }

  lemma RefineMismatch(c: Core, input: Input, closed: set<nat>) returns (first: P.Move)
    requires c.state.EpochMismatch?
    ensures Made(c, input, StepMismatch(c, input, closed), first, P.Skip)
  {
    if input.FromLink? && input.msg.Reset? {
      first := RefineNegotiate(c, input.msg.epoch, input.msg.request, closed);
    } else {
      RefineNegotiating(c, input, closed);
      first := P.Raise(PeerOf(StepMismatch(c, input, closed).core).epoch);
    }
  }

  /** Everything else in EpochMismatch: the epoch stays, or rises when the links are gone. */
  lemma RefineNegotiating(c: Core, input: Input, closed: set<nat>)
    requires c.state.EpochMismatch? && !(input.FromLink? && input.msg.Reset?)
    ensures var o := StepMismatch(c, input, closed);
      Made(c, input, o, P.Raise(PeerOf(o.core).epoch), P.Skip)
  {
    var o := StepMismatch(c, input, closed);
    match input {
      case Tick =>
        MismatchTickRaises(c, closed);
      case Disconnect =>
        DisconnectedRaises(c);
      case _ =>
        assert PeerOf(o.core) == PeerOf(c);
    }
    RaiseMade(PeerOf(c), PeerOf(o.core), input, o.sent);
  }

  lemma MismatchTickRaises(c: Core, closed: set<nat>)
    requires c.state.EpochMismatch?
    ensures var o := StepMismatch(c, Tick, closed);
      Raises(PeerOf(c), PeerOf(o.core)) && forall x :: x in o.sent ==> x.Reset? && ToInt(x.epoch) == PeerOf(o.core).epoch
  {
    var d := Relinked(c, Upkeep(c.state.links, closed));
    assert PeerOf(d) == PeerOf(c);
    if c.cfg.autoConnect {
      ConnectingRaises(d, []);
    } else {
      DisconnectedRaises(d);
    }
  }

  lemma InsertMove(c: Core, data: Payload)
    requires InSession(c.state)
    ensures PeerOf(Insert(c, data)) == P.Apply(PeerOf(c), P.Insert(data))
  {
  }

  lemma AckMove(c: Core, x: LinkProtocol)
    requires InSession(c.state) && x.Ack? && x.ackEpoch == c.state.session
    ensures P.Legal(PeerOf(c), P.GetAck((x.ackSeq, x.lastIndex)), {x})
    ensures PeerOf(ReceiveAck(c, x)) == P.Apply(PeerOf(c), P.GetAck((x.ackSeq, x.lastIndex)))
  {
  }

  lemma SliceMove(c: Core, x: LinkProtocol)
    requires InSession(c.state) && x.MsgSlice? && Ready(c, FromLink(x)) && x.msgEpoch == c.state.session
    ensures P.Legal(PeerOf(c), P.GetSlice(x), {x})
    ensures PeerOf(Receive(c, x)) == P.Apply(PeerOf(c), P.GetSlice(x))
  {
    var m := Recv(c.state.mgr, x.seqNo, x.firstIndex, x.seqLen, x.data);
    InboxDelivery(c.events, Taken(m), c.state.session);
  }

  lemma RefineConnectedReset(c: Core, theirs: Option<Epoch>, request: bool, closed: set<nat>)
    returns (first: P.Move, after: P.Move)
    requires c.state.Connected? && P.Local(PeerOf(c))
    ensures Made(c, FromLink(Reset(theirs, request)), StepConnectedMsg(c, Reset(theirs, request), closed), first, after)
  {
    first, after := P.Skip, P.Skip;
    if request && theirs == Some(c.state.session) {
      after := SettleRaises(WithLinks(c, DropClosed(c.state.links, closed)));
    } else if request {
      first := P.Raise(Increment(c.state.session));
    }
  }

  /** A received fragment, perhaps acknowledged, and perhaps the end of the session. */
  lemma GotSlice(p: P.Peer, mid: P.Peer, q: P.Peer, x: LinkProtocol, sent: seq<LinkProtocol>, after: P.Move)
    requires P.Legal(p, P.GetSlice(x), {x}) && mid == P.Apply(p, P.GetSlice(x))
    requires (after.Skip? || after.Raise?) && P.Legal(mid, after, {}) && q == P.Apply(mid, after)
    requires forall y :: y in sent ==> P.Own(mid, y)
    ensures MadeBy(p, q, FromLink(x), sent, P.GetSlice(x), after)
  {
  }

  lemma AckOwn(r: Core, live: seq<Link>, e: Epoch)
    requires r.state.Connected? && r.state.session == e
    ensures forall y :: y in SendProto(live, Ack(e, r.state.mgr.lastAck.0, r.state.mgr.lastAck.1)) ==> P.Own(PeerOf(r), y)
  {
  }

  lemma RefineConnectedSlice(c: Core, x: LinkProtocol, closed: set<nat>) returns (after: P.Move)
    requires c.state.Connected? && x.MsgSlice? && Ready(c, FromLink(x)) && P.Local(PeerOf(c))
    requires x.msgEpoch == c.state.session
    ensures Made(c, FromLink(x), StepConnectedMsg(c, x, closed), P.GetSlice(x), after)
  {
    SliceMove(c, x);
    var o, r, live := StepConnectedMsg(c, x, closed), Receive(c, x), DropClosed(c.state.links, closed);
    AckOwn(r, live, c.state.session);
    var d := if ShouldAck(c.state.mgr, x.seqNo, x.firstIndex, x.seqLen, x.data) then WithLinks(r, live) else r;
    assert o.core == Settle(d) && PeerOf(d) == PeerOf(r);
    after := SettleRaises(d);
    GotSlice(PeerOf(c), PeerOf(r), PeerOf(o.core), x, o.sent, after);
  }

  lemma RefineConnectedMsg(c: Core, x: LinkProtocol, closed: set<nat>) returns (first: P.Move, after: P.Move)
    requires c.state.Connected? && Ready(c, FromLink(x)) && P.Local(PeerOf(c))
    ensures Made(c, FromLink(x), StepConnectedMsg(c, x, closed), first, after)
  {
    first, after := P.Skip, P.Skip;
    match x
    case Reset(theirs, request) => first, after := RefineConnectedReset(c, theirs, request, closed);
    case Ack(e, _, _) =>
      if e == c.state.session {
        AckMove(c, x);
        first := P.GetAck((x.ackSeq, x.lastIndex));
      }
    case MsgSlice(e, _, _, _, _) =>
      if e == c.state.session {
        after := RefineConnectedSlice(c, x, closed);
        first := P.GetSlice(x);
      }
    case _ =>
  }

  lemma RefineConnected(c: Core, input: Input, closed: set<nat>) returns (first: P.Move, after: P.Move)
    requires c.state.Connected? && Ready(c, input) && P.Local(PeerOf(c))
    ensures Made(c, input, StepConnected(c, input, closed), first, after)
  {
    first, after := P.Skip, P.Skip;
    match input
    case Disconnect =>
      DisconnectedRaises(c);
      RaiseMade(PeerOf(c), PeerOf(ToDisconnected(c)), input, []);
      first := P.Raise(PeerOf(ToDisconnected(c)).epoch);
    case SendMsg(data, tag) =>
      if !WrongTag(tag, c.state.session) {
        first, after := RefineSend(c, input, data, DropClosed(c.state.links, closed));
      }
    case FromLink(x) =>
      first, after := RefineConnectedMsg(c, x, closed);
    case Tick =>
      after := RefineConnectedTick(c, closed);
    case _ =>
  }

  lemma RefineConnectedTick(c: Core, closed: set<nat>) returns (after: P.Move)
    requires c.state.Connected? && P.Local(PeerOf(c))
    ensures Made(c, Tick, StepConnected(c, Tick, closed), P.Skip, after)
  {
    var live := Upkeep(c.state.links, closed);
    forall x | x in Resend(c.state.mgr, live) ensures P.Own(PeerOf(c), x) {
      SendSlicesOwn(c, live, EarliestOutgoing(c.state.mgr).value, x);
    }
    assert PeerOf(WithLinks(c, live)) == PeerOf(c);
    after := SettleRaises(WithLinks(c, live));
  }

  lemma RefineSend(c: Core, input: Input, data: Payload, live: seq<Link>) returns (first: P.Move, after: P.Move)
    requires c.state.Connected? && P.Local(PeerOf(c))
    ensures var d := Insert(c, data);
      var o := Out(Settle(WithLinks(d, live)), SendSlices(live, d.state.mgr.outgoing[c.state.mgr.nextSeq]));
      Made(c, input, o, first, after)
  {
    var d := Insert(c, data);
    InsertMove(c, data);
    first := P.Insert(data);
    LocalInsert(c, data);
    forall x | x in SendSlices(live, d.state.mgr.outgoing[c.state.mgr.nextSeq]) ensures P.Own(PeerOf(d), x) {
      SendSlicesOwn(d, live, c.state.mgr.nextSeq, x);
    }
    after := SettleRaises(WithLinks(d, live));
  }

  lemma LocalInsert(c: Core, data: Payload)
    requires InSession(c.state) && P.Local(PeerOf(c))
    ensures P.Local(PeerOf(Insert(c, data)))
  {
    SenderInsert(c.state.mgr, c.journal[c.state.session], data, (0, 0));
  }

  /** A request for the own epoch ends the session. */
  lemma RefineWaitingReset(c: Core, request: bool) returns (first: P.Move)
    requires (c.state.Reconnecting? || c.state.GracePeriod?) && request
    ensures var x := FromLink(Reset(Some(c.state.session), request));
      Made(c, x, Quiet(StepWaiting(c, x)), first, P.Skip)
  {
    var x := FromLink(Reset(Some(c.state.session), request));
    var d := StepWaiting(c, x);
    if c.state.Reconnecting? {
      ConnectingRaises(c, []);
    } else {
      DisconnectedRaises(c);
    }
    RaiseMade(PeerOf(c), PeerOf(d), x, []);
    first := P.Raise(PeerOf(d).epoch);
  }

  lemma RefineWaitingMsg(c: Core, x: LinkProtocol) returns (first: P.Move)
    requires (c.state.Reconnecting? || c.state.GracePeriod?) && Ready(c, FromLink(x))
    ensures Made(c, FromLink(x), Quiet(StepWaiting(c, FromLink(x))), first, P.Skip)
  {
    first := P.Skip;
    match x
    case Reset(theirs, request) =>
      if request && theirs == Some(c.state.session) {
        first := RefineWaitingReset(c, request);
      }
    case Ack(e, _, _) =>
      if e == c.state.session {
        AckMove(c, x);
        first := P.GetAck((x.ackSeq, x.lastIndex));
      }
    case MsgSlice(e, _, _, _, _) =>
      if e == c.state.session {
        RefineWaitingSlice(c, x);
        first := P.GetSlice(x);
      }
    case _ =>
  }

  lemma RefineWaitingSlice(c: Core, x: LinkProtocol)
    requires (c.state.Reconnecting? || c.state.GracePeriod?) && x.MsgSlice? && Ready(c, FromLink(x))
    requires x.msgEpoch == c.state.session
    ensures Made(c, FromLink(x), Quiet(Receive(c, x)), P.GetSlice(x), P.Skip)
  {
    SliceMove(c, x);
    GotSlice(PeerOf(c), PeerOf(Receive(c, x)), PeerOf(Receive(c, x)), x, [], P.Skip);
  }

  lemma RefineWaiting(c: Core, input: Input) returns (first: P.Move)
    requires (c.state.Reconnecting? || c.state.GracePeriod?) && Ready(c, input)
    ensures Made(c, input, Quiet(StepWaiting(c, input)), first, P.Skip)
  {
    first := P.Skip;
    match input
    case SendMsg(data, tag) =>
      if !WrongTag(tag, c.state.session) {
        InsertMove(c, data);
        first := P.Insert(data);
      }
    case FromLink(x) =>
      first := RefineWaitingMsg(c, x);
    case AddLink(_, _) =>
      InboxNotices(c.events, [AttemptingConnection(false)]);
      InboxNotices(c.events, []);
    case Tick =>
      first := RefineLeave(c, input);
    case Disconnect =>
      first := RefineLeave(c, input);
    case _ =>
  }

  lemma RefineLeave(c: Core, input: Input) returns (first: P.Move)
    requires (c.state.Reconnecting? || c.state.GracePeriod?) && (input.Tick? || input.Disconnect?)
    ensures Made(c, input, Quiet(StepWaiting(c, input)), first, P.Skip)
  {
    var d := StepWaiting(c, input);
    if input.Tick? && c.cfg.autoConnect {
      ConnectingRaises(c, []);
    } else {
      DisconnectedRaises(c);
    }
    RaiseMade(PeerOf(c), PeerOf(d), input, []);
    first := P.Raise(PeerOf(d).epoch);
  }

  /** Every step of an endpoint is a protocol move, some sending, and perhaps the end of its session. */
  lemma StepRefines(c: Core, input: Input, closed: set<nat>) returns (first: P.Move, after: P.Move)
    requires Ready(c, input) && P.Local(PeerOf(c))
    ensures Made(c, input, Step(c, input, closed), first, after)
  {
    first, after := P.Skip, P.Skip;
    if input.Configure? || (input.Tick? && !c.timer.armed) {
    } else {
      var d := if input.Tick? then c.(timer := Fired(c.timer)) else c;
      assert PeerOf(d) == PeerOf(c);
      match d.state
      case Disconnected(_) =>
        RefineDisconnected(d, input, closed);
        first := P.Raise(PeerOf(Step(c, input, closed).core).epoch);
      case Connecting(_, _) =>
        RefineConnecting(d, input, closed);
        first := P.Raise(PeerOf(Step(c, input, closed).core).epoch);
      case EpochMismatch(_, _, _) => first := RefineMismatch(d, input, closed);
      case Connected(_, _, _) => first, after := RefineConnected(d, input, closed);
      case _ => first := RefineWaiting(d, input);
    }
  }

  /** A fragment of the current session is received, whatever else the step does. */
  lemma FragmentRefines(c: Core, x: LinkProtocol, closed: set<nat>) returns (after: P.Move)
    requires InSession(c.state) && OfSession(c.state, x) && Ready(c, FromLink(x)) && P.Local(PeerOf(c))
    ensures Made(c, FromLink(x), Step(c, FromLink(x), closed), P.GetSlice(x), after)
  {
    if c.state.Connected? {
      after := RefineConnectedSlice(c, x, closed);
    } else {
      RefineWaitingSlice(c, x);
      after := P.Skip;
    }
  }
}
