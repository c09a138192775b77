/** Every move of either endpoint keeps the invariant of both directions. */
module PeerMoves {
  import opened Prelude
  import opened Epochs
  import opened Protocol
  import opened Messages
  import opened Delivery
  import opened Peers

  // ---------------------------------------------------------------------
  // Moves keep an endpoint well formed
  // ---------------------------------------------------------------------

  lemma {:induction false} NothingDelivered(inbox: seq<(Payload, nat)>, e: nat)
    requires forall i :: 0 <= i < |inbox| ==> inbox[i].1 != e
    ensures Delivered(inbox, e) == []
  {
    if inbox != [] {
      NothingDelivered(inbox[..|inbox| - 1], e);
    }
  }

  lemma LocalMove(p: Peer, mv: Move, heard: set<LinkProtocol>)
    requires Local(p) && Legal(p, mv, heard)
    ensures Local(Apply(p, mv))
  {
    match mv
    case Skip =>
    case Insert(data) =>
      SenderInsert(p.mgr.value, p.journal[p.epoch], data, (0, 0));
    case GetAck(ack) =>
      SenderAck(p.mgr.value, p.journal[p.epoch], ack);
    case GetSlice(x) =>
      LocalSlice(p, x);
    case Raise(e) =>
    case Enter(e, queued) =>
      SenderInsertAll(NewMsgs(e), queued, (0, 0));
  }

  lemma LocalSlice(p: Peer, x: LinkProtocol)
    requires Local(p) && Able(p, GetSlice(x))
    ensures Local(Apply(p, GetSlice(x)))
  {
    var m := p.mgr.value;
    RecvAndTake(m, x.seqNo, x.firstIndex, x.seqLen, x.data);
    var taken := Taken(Recv(m, x.seqNo, x.firstIndex, x.seqLen, x.data));
    var m' := AfterTake(Recv(m, x.seqNo, x.firstIndex, x.seqLen, x.data));
    LocalReceived(p, m', taken);
  }

  lemma LocalReceived(p: Peer, m: Msgs, taken: seq<Payload>)
    requires Local(p) && p.mgr.Some? && Frontier(m, m.lastAck.0)
    requires m.outgoing == p.mgr.value.outgoing && m.nextSeq == p.mgr.value.nextSeq && m.epoch == p.mgr.value.epoch
    ensures Local(p.(mgr := Some(m), inbox := p.inbox + Tagged(taken, p.epoch)))
  {
  }

  // ---------------------------------------------------------------------
  // The sender moves
  // ---------------------------------------------------------------------

  /** A move only ever appends to the journal of an epoch below the maximum. */
  lemma JournalGrows(s: Peer, mv: Move, heard: set<LinkProtocol>, e: nat)
    requires Local(s) && Legal(s, mv, heard) && e < MAX_EPOCH
    ensures JournalAt(s, e) <= JournalAt(Apply(s, mv), e)
  {
  }

  lemma GenuineMove(s: Peer, mv: Move, heard: set<LinkProtocol>, x: LinkProtocol)
    requires Local(s) && Legal(s, mv, heard) && Genuine(s, x)
    ensures Genuine(Apply(s, mv), x)
  {
    if x.MsgSlice? && x.msgEpoch < MAX_EPOCH {
      JournalGrows(s, mv, heard, x.msgEpoch);
    }
  }

  lemma ReceiverOkGrows(clean: bool, m: Msgs, a: seq<Payload>, b: seq<Payload>)
    requires ReceiverOk(clean, m, a) && a <= b
    ensures ReceiverOk(clean, m, b)
  {
  }

  lemma ReceivingSenderMove(clean: bool, s: Peer, r: Peer, mv: Move, heard: set<LinkProtocol>)
    requires Local(s) && Legal(s, mv, heard) && Receiving(clean, s, r)
    ensures Receiving(clean, Apply(s, mv), r)
  {
    var s' := Apply(s, mv);
    forall e | 0 <= e < MAX_EPOCH ensures MatchesFrom(clean, Delivered(r.inbox, e), JournalAt(s', e), 0) {
      JournalGrows(s, mv, heard, e);
      MatchesGrows(clean, Delivered(r.inbox, e), JournalAt(s, e), JournalAt(s', e), 0);
    }
    if r.mgr.Some? && r.epoch < MAX_EPOCH {
      JournalGrows(s, mv, heard, r.epoch);
      ReceiverOkGrows(clean, r.mgr.value, JournalAt(s, r.epoch), JournalAt(s', r.epoch));
    }
  }

  /** The frontier of the receiver stops short of the end of the message it is in. */
  lemma FrontierBelowEnd(clean: bool, s: Peer, r: Peer)
    requires Local(r) && Receiving(clean, s, r) && r.mgr.Some? && r.epoch < MAX_EPOCH
    ensures var ack := r.mgr.value.lastAck; var journal := JournalAt(s, r.epoch);
      ack.0 < |journal| && 0 < ack.1 ==> ack.1 + 1 < |journal[ack.0]|
  {
    var m := r.mgr.value;
    if m.lastAck.0 in m.incoming {
      assert Held(m.incoming[m.lastAck.0], m.epoch, m.lastAck.0);
      HeadBelowEnd(m.incoming[m.lastAck.0]);
      HeadMeaning(m.incoming[m.lastAck.0]);
    }
  }

  lemma SendingAck(clean: bool, s: Peer, r: Peer, ack: (nat, nat), back: set<LinkProtocol>)
    requires Local(s) && Local(r) && Legal(s, GetAck(ack), back)
    requires forall x :: x in back ==> Timely(r, x)
    requires Receiving(clean, s, r) && Sending(s, r)
    ensures Sending(Apply(s, GetAck(ack)), r)
  {
    if s.epoch < MAX_EPOCH && r.epoch <= s.epoch {
      assert Timely(r, Ack(s.epoch, ack.0, ack.1));
      FrontierBelowEnd(clean, s, r);
      KeptAck(s.mgr.value, JournalAt(s, s.epoch), ack, FrontierOf(r, s.epoch));
    }
  }

  lemma SenderMove(clean: bool, s: Peer, r: Peer, fwd: set<LinkProtocol>, back: set<LinkProtocol>, mv: Move)
    requires Local(s) && Local(r) && Dir(clean, s, r, fwd, back) && Legal(s, mv, back)
    ensures Dir(clean, Apply(s, mv), r, fwd, back)
  {
    forall x | x in fwd ensures Genuine(Apply(s, mv), x) {
      GenuineMove(s, mv, back, x);
    }
    ReceivingSenderMove(clean, s, r, mv, back);
    match mv
    case Skip =>
    case Insert(data) =>
      SenderInsert(s.mgr.value, JournalAt(s, s.epoch), data, FrontierOf(r, s.epoch));
    case GetAck(ack) =>
      SendingAck(clean, s, r, ack, back);
    case GetSlice(x) =>
      SendingSlice(s, r, x);
    case Raise(e) =>
    case Enter(e, queued) =>
      SenderInsertAll(NewMsgs(e), queued, FrontierOf(r, e));
  }

  lemma SendingSlice(s: Peer, r: Peer, x: LinkProtocol)
    requires Able(s, GetSlice(x)) && Sending(s, r)
    ensures Sending(Apply(s, GetSlice(x)), r)
  {
    var m := s.mgr.value;
    var m' := Apply(s, GetSlice(x)).mgr.value;
    assert m'.outgoing == m.outgoing;
    if s.epoch < MAX_EPOCH && r.epoch <= s.epoch {
      var journal, ack := JournalAt(s, s.epoch), FrontierOf(r, s.epoch);
      forall q | 0 <= q < |journal| && journal[q] != [] ensures KeptMsg(m', q, ack) {
        assert KeptMsg(m, q, ack);
      }
    }
  }

  // ---------------------------------------------------------------------
  // The receiver moves
  // ---------------------------------------------------------------------

  lemma ReceiverSlice(clean: bool, s: Peer, r: Peer, fwd: set<LinkProtocol>, back: set<LinkProtocol>, x: LinkProtocol)
    requires Local(s) && Local(r) && Dir(clean, s, r, fwd, back) && Legal(r, GetSlice(x), fwd)
    requires clean && r.epoch < MAX_EPOCH ==> CleanArrival(r.mgr.value, x)
    ensures Dir(clean, s, Apply(r, GetSlice(x)), fwd, back)
  {
    assert Genuine(s, x);
    var r' := Apply(r, GetSlice(x));
    var m := r.mgr.value;
    RecvAndTake(m, x.seqNo, x.firstIndex, x.seqLen, x.data);
    assert AckLeq(m.lastAck, r'.mgr.value.lastAck);
    if r.epoch < MAX_EPOCH {
      ReceivingSlice(clean, s, r, x);
    } else {
      forall e | 0 <= e < MAX_EPOCH ensures MatchesFrom(clean, Delivered(r'.inbox, e), JournalAt(s, e), 0) {
        DeliveredAppend(r.inbox, Taken(Recv(m, x.seqNo, x.firstIndex, x.seqLen, x.data)), r.epoch, e);
      }
    }
    if s.mgr.Some? && s.epoch < MAX_EPOCH && r.epoch <= s.epoch {
      KeptMonotone(s.mgr.value, JournalAt(s, s.epoch), FrontierOf(r, s.epoch), FrontierOf(r', s.epoch));
    }
  }

  lemma ReceivingSlice(clean: bool, s: Peer, r: Peer, x: LinkProtocol)
    requires Local(r) && Receiving(clean, s, r) && Able(r, GetSlice(x)) && Genuine(s, x)
    requires x.msgEpoch == r.epoch < MAX_EPOCH
    requires clean ==> CleanArrival(r.mgr.value, x)
    ensures Receiving(clean, s, Apply(r, GetSlice(x)))
  {
    var m, journal := r.mgr.value, JournalAt(s, r.epoch);
    var m' := Recv(m, x.seqNo, x.firstIndex, x.seqLen, x.data);
    RecvKeepsFrontier(m, m.lastAck.0, x.seqNo, x.firstIndex, x.seqLen, x.data);
    ReceiverRecv(clean, m, m.lastAck.0, journal, x);
    ReceiverTake(clean, m', m.lastAck.0, journal);
    ReceivedMatches(clean, s, r, AfterTake(m'), Taken(m'));
  }

  lemma ReceivedMatches(clean: bool, s: Peer, r: Peer, m: Msgs, taken: seq<Payload>)
    requires Receiving(clean, s, r) && r.mgr.Some? && r.epoch < MAX_EPOCH
    requires ReceiverOk(clean, m, JournalAt(s, r.epoch)) && m.lastAck.0 == r.mgr.value.lastAck.0 + |taken|
    requires MatchesFrom(clean, taken, JournalAt(s, r.epoch), r.mgr.value.lastAck.0)
    ensures Receiving(clean, s, r.(mgr := Some(m), inbox := r.inbox + Tagged(taken, r.epoch)))
  {
    var inbox := r.inbox + Tagged(taken, r.epoch);
    forall e | 0 <= e < MAX_EPOCH ensures MatchesFrom(clean, Delivered(inbox, e), JournalAt(s, e), 0) {
      DeliveredAppend(r.inbox, taken, r.epoch, e);
      if e == r.epoch {
        MatchesAppend(clean, Delivered(r.inbox, e), taken, JournalAt(s, e));
      }
    }
    DeliveredAppend(r.inbox, taken, r.epoch, r.epoch);
  }

  lemma ReceiverEnter(clean: bool, s: Peer, r: Peer, fwd: set<LinkProtocol>, back: set<LinkProtocol>, mv: Move)
    requires Local(s) && Local(r) && Dir(clean, s, r, fwd, back) && Legal(r, mv, fwd) && mv.Enter?
    ensures Dir(clean, s, Apply(r, mv), fwd, back)
  {
    var r' := Apply(r, mv);
    SenderInsertAll(NewMsgs(mv.at), mv.queued, (0, 0));
    assert r'.mgr.value.lastAck == (0, 0) && r'.mgr.value.incoming == map[];
    if mv.at < MAX_EPOCH {
      NothingDelivered(r.inbox, mv.at);
    }
    forall x | x in back ensures Timely(r', x) {
      assert Timely(r, x);
    }
    assert Follows(s, r') by {
      var x :| x in fwd && x.Reset?
        && ((ToInt(x.epoch) == mv.at && r.epoch <= mv.at) || (x.epoch.None? && r.epoch == 0 && mv.at == 1));
      assert Genuine(s, x);
    }
  }

  lemma ReceiverRaise(clean: bool, s: Peer, r: Peer, fwd: set<LinkProtocol>, back: set<LinkProtocol>, mv: Move)
    requires Local(s) && Local(r) && Dir(clean, s, r, fwd, back) && Legal(r, mv, fwd) && mv.Raise?
    ensures Dir(clean, s, Apply(r, mv), fwd, back)
  {
    var r' := Apply(r, mv);
    forall x | x in back ensures Timely(r', x) {
      assert Timely(r, x);
    }
  }

  lemma ReceiverMove(clean: bool, s: Peer, r: Peer, fwd: set<LinkProtocol>, back: set<LinkProtocol>, mv: Move)
    requires Local(s) && Local(r) && Dir(clean, s, r, fwd, back) && Legal(r, mv, fwd)
    requires clean && mv.GetSlice? && r.epoch < MAX_EPOCH ==> CleanArrival(r.mgr.value, mv.x)
    ensures Dir(clean, s, Apply(r, mv), fwd, back)
  {
    match mv
    case Skip =>
    case GetSlice(x) => ReceiverSlice(clean, s, r, fwd, back, x);
    case Raise(_) => ReceiverRaise(clean, s, r, fwd, back, mv);
    case Enter(_, _) => ReceiverEnter(clean, s, r, fwd, back, mv);
    case _ =>
      ReceiverOutgoing(clean, s, r, fwd, back, mv);
  }

  /** Inserting or being acknowledged leaves the receiving half alone. */
  lemma ReceiverOutgoing(clean: bool, s: Peer, r: Peer, fwd: set<LinkProtocol>, back: set<LinkProtocol>, mv: Move)
    requires Dir(clean, s, r, fwd, back) && Able(r, mv) && (mv.Insert? || mv.GetAck?)
    ensures Dir(clean, s, Apply(r, mv), fwd, back)
  {
    var r' := Apply(r, mv);
    assert r'.mgr.value.lastAck == r.mgr.value.lastAck && r'.mgr.value.incoming == r.mgr.value.incoming;
    forall x | x in back ensures Timely(r', x) {
      assert Timely(r, x);
    }
  }

  // ---------------------------------------------------------------------
  // Sending
  // ---------------------------------------------------------------------

  lemma SenderSends(clean: bool, s: Peer, r: Peer, fwd: set<LinkProtocol>, back: set<LinkProtocol>, sent: set<LinkProtocol>)
    requires Local(s) && Dir(clean, s, r, fwd, back) && forall x :: x in sent ==> Own(s, x)
    ensures Dir(clean, s, r, fwd + sent, back)
  {
    forall x | x in sent ensures Genuine(s, x) {
      assert Own(s, x);
    }
  }

  lemma ReceiverSends(clean: bool, s: Peer, r: Peer, fwd: set<LinkProtocol>, back: set<LinkProtocol>, sent: set<LinkProtocol>)
    requires Dir(clean, s, r, fwd, back) && forall x :: x in sent ==> Own(r, x)
    ensures Dir(clean, s, r, fwd, back + sent)
  {
    forall x | x in sent ensures Timely(r, x) {
      assert Own(r, x);
    }
  }
}
