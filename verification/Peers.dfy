/**
 The protocol with links, timers, queues and user commands taken away: what one
 endpoint looks like to the other, the moves it can make, and the invariant of
 one direction of traffic. `Refinement` shows that every session step is made of
 these moves.
 */
module Peers {
  import opened Prelude
  import opened Epochs
  import opened Protocol
  import opened Reassembly
  import opened Messages
  import opened Delivery

  /** `epoch` is 0 for None; `mgr` is present exactly in a session; `inbox` is what the user got. */
  datatype Peer = Peer(
    epoch: nat,
    mgr: Option<Msgs>,
    journal: map<nat, seq<Payload>>,
    inbox: seq<(Payload, nat)>)

  datatype Move =
    | Skip
    | Insert(data: Payload)
    | GetAck(ack: (nat, nat))
    | GetSlice(x: LinkProtocol)
    | Raise(epoch: nat)
    | Enter(at: Epoch, queued: seq<Payload>)

  function JournalAt(p: Peer, e: nat): seq<Payload> {
    if e in p.journal then p.journal[e] else []
  }

  function Delivered(inbox: seq<(Payload, nat)>, e: nat): seq<Payload> {
    if inbox == [] then []
    else
      var n := |inbox| - 1;
      Delivered(inbox[..n], e) + if inbox[n].1 == e then [inbox[n].0] else []
  }

  function Tagged(msgs: seq<Payload>, e: nat): (r: seq<(Payload, nat)>)
    ensures |r| == |msgs| && forall i :: 0 <= i < |r| ==> r[i] == (msgs[i], e)
  {
    if msgs == [] then [] else Tagged(msgs[..|msgs| - 1], e) + [(msgs[|msgs| - 1], e)]
  }

  lemma {:induction false} DeliveredAppend(inbox: seq<(Payload, nat)>, msgs: seq<Payload>, at: nat, e: nat)
    ensures Delivered(inbox + Tagged(msgs, at), e) == Delivered(inbox, e) + if e == at then msgs else []
    decreases |msgs|
  {
    if msgs == [] {
      assert inbox + Tagged(msgs, at) == inbox;
    } else {
      var n := |msgs| - 1;
      DeliveredAppend(inbox, msgs[..n], at, e);
      var all := inbox + Tagged(msgs, at);
      assert all[..|all| - 1] == inbox + Tagged(msgs[..n], at);
      assert msgs == msgs[..n] + [msgs[n]];
    }
  }

  // ---------------------------------------------------------------------
  // Moves
  // ---------------------------------------------------------------------

  predicate Able(p: Peer, mv: Move) {
    match mv
    case Skip => true
    case Insert(_) => p.mgr.Some?
    case GetAck(_) => p.mgr.Some?
    case GetSlice(x) =>
      p.mgr.Some? && x.MsgSlice? && Takes(p.mgr.value, x.seqNo, x.firstIndex, x.seqLen, x.data)
    case Raise(e) => true
    case Enter(_, _) => p.mgr.None?
  }

  function Apply(p: Peer, mv: Move): Peer
    requires Able(p, mv)
  {
    match mv
    case Skip => p
    case Insert(data) =>
      p.(mgr := Some(InsertMsg(p.mgr.value, data)), journal := p.journal[p.epoch := JournalAt(p, p.epoch) + [data]])
    case GetAck(ack) => p.(mgr := Some(RecvAck(p.mgr.value, ack)))
    case GetSlice(x) =>
      var m := Recv(p.mgr.value, x.seqNo, x.firstIndex, x.seqLen, x.data);
      p.(mgr := Some(AfterTake(m)), inbox := p.inbox + Tagged(Taken(m), p.epoch))
    case Raise(e) => p.(epoch := e, mgr := None)
    case Enter(e, queued) =>
      p.(epoch := e, mgr := Some(InsertAll(NewMsgs(e), queued)), journal := p.journal[e := queued])
  }

  /** What lets an endpoint make a move, given the messages that may reach it. */
  ghost predicate Legal(p: Peer, mv: Move, heard: set<LinkProtocol>) {
    && Able(p, mv)
    && match mv
       case GetAck(ack) => Ack(p.epoch, ack.0, ack.1) in heard
       case GetSlice(x) => x in heard && x.msgEpoch == p.epoch
       case Raise(e) => p.epoch <= e <= MAX_EPOCH && (p.mgr.Some? && p.epoch < MAX_EPOCH ==> p.epoch < e)
       case Enter(e, _) =>
         exists x :: x in heard && x.Reset?
           && ((ToInt(x.epoch) == e && p.epoch <= e) || (x.epoch.None? && p.epoch == 0 && e == 1))
       case _ => true
  }

  /** What an endpoint may put on a link. */
  predicate Own(p: Peer, x: LinkProtocol) {
    match x
    case Reset(e, _) => ToInt(e) == p.epoch
    case Ack(e, q, i) => p.mgr.Some? && e == p.epoch && (q, i) == p.mgr.value.lastAck
    case MsgSlice(e, q, _, _, _) =>
      && p.mgr.Some? && e == p.epoch && q in p.mgr.value.outgoing
      && Carries(x, p.mgr.value.epoch, q, p.mgr.value.outgoing[q].data)
    case _ => true
  }

  // ---------------------------------------------------------------------
  // The invariant
  // ---------------------------------------------------------------------

  /** Epochs in use lie below the current one, or are the current session's (saturation aside). */
  predicate Past(p: Peer, e: nat) {
    e == MAX_EPOCH || e < p.epoch || (e == p.epoch && p.mgr.Some?)
  }

  ghost predicate Local(p: Peer) {
    && p.epoch <= MAX_EPOCH
    && (forall e :: e in p.journal ==> Past(p, e))
    && (forall i :: 0 <= i < |p.inbox| ==> Past(p, p.inbox[i].1))
    && (p.mgr.Some? ==>
          var m := p.mgr.value;
          && 1 <= p.epoch && m.epoch == p.epoch && p.epoch in p.journal
          && Frontier(m, m.lastAck.0)
          && SenderOk(m, p.journal[p.epoch]))
  }

  /** Every message `s` ever sent, from `r`'s side. */
  ghost predicate Genuine(s: Peer, x: LinkProtocol) {
    match x
    case Reset(e, _) => ToInt(e) <= s.epoch
    case MsgSlice(e, q, len, _, data) =>
      && data != [] && 0 < len
      && (1 <= e < MAX_EPOCH ==> q < |JournalAt(s, e)| && Carries(x, e, q, JournalAt(s, e)[q]))
      && 1 <= e <= MAX_EPOCH
    case _ => true
  }

  /** Every ack `r` ever sent lies at or below its frontier, or belongs to a session it has left. */
  predicate Timely(r: Peer, x: LinkProtocol) {
    x.Ack? && x.ackEpoch < MAX_EPOCH ==>
      || x.ackEpoch < r.epoch
      || (x.ackEpoch == r.epoch && r.mgr.Some? && AckLeq((x.ackSeq, x.lastIndex), r.mgr.value.lastAck))
  }

  /** Session `e` cannot start at `r` before `s` has reached epoch `e` (epoch 1 aside). */
  predicate Follows(s: Peer, r: Peer) {
    r.mgr.Some? ==> r.epoch == 1 || r.epoch <= s.epoch
  }

  ghost predicate Receiving(clean: bool, s: Peer, r: Peer) {
    && (forall e :: 0 <= e < MAX_EPOCH ==> MatchesFrom(clean, Delivered(r.inbox, e), JournalAt(s, e), 0))
    && (r.mgr.Some? && r.epoch < MAX_EPOCH ==>
          && ReceiverOk(clean, r.mgr.value, JournalAt(s, r.epoch))
          && |Delivered(r.inbox, r.epoch)| == r.mgr.value.lastAck.0)
  }

  /** How far `r` has got in session `e`. */
  function FrontierOf(r: Peer, e: nat): (nat, nat) {
    if r.mgr.Some? && r.epoch == e then r.mgr.value.lastAck else (0, 0)
  }

  ghost predicate Sending(s: Peer, r: Peer) {
    s.mgr.Some? && s.epoch < MAX_EPOCH && r.epoch <= s.epoch ==>
      Kept(s.mgr.value, JournalAt(s, s.epoch), FrontierOf(r, s.epoch))
  }

  /** The traffic from `s` to `r`: `fwd` was sent by `s`, `back` by `r`. */
  ghost predicate Dir(clean: bool, s: Peer, r: Peer, fwd: set<LinkProtocol>, back: set<LinkProtocol>) {
    && (forall x :: x in fwd ==> Genuine(s, x))
    && (forall x :: x in back ==> Timely(r, x))
    && Follows(s, r) && Receiving(clean, s, r) && Sending(s, r)
  }
}
