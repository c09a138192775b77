/**
 Two endpoints and a network that may lose, duplicate, delay and reorder: each
 direction is the set of everything ever sent, and a delivery takes any of it.
 */
module System {
  import opened Prelude
  import opened Epochs
  import opened Protocol
  import opened Intervals
  import opened Messages
  import opened Delivery
  import opened Session
  import opened Peers
  import opened PeerMoves
  import opened Refinement

  datatype Sys = Sys(a: Core, b: Core, ab: set<LinkProtocol>, ba: set<LinkProtocol>)

  /** One step of endpoint A (`atA`) or B. */
  datatype Act = Act(atA: bool, input: Input, closed: set<nat>)

  const START: Sys := Sys(INITIAL, INITIAL, {}, {})

  function Flip(s: Sys): Sys { Sys(s.b, s.a, s.ba, s.ab) }

  /** Only what was sent can arrive, and only what the code can take (see `ArrivalsAreReady`). */
  predicate Enabled(s: Sys, input: Input) {
    (input.FromLink? ==> input.msg in s.ba) && Ready(s.a, input)
  }

  function Sent(xs: seq<LinkProtocol>): (r: set<LinkProtocol>)
    ensures forall x :: x in r <==> x in xs
  {
    set x | x in xs
  }

  function DoA(s: Sys, input: Input, closed: set<nat>): Sys {
    if Enabled(s, input) then
      var o := Step(s.a, input, closed);
      s.(a := o.core, ab := s.ab + Sent(o.sent))
    else s
  }

  function Do(s: Sys, act: Act): Sys {
    if act.atA then DoA(s, act.input, act.closed) else Flip(DoA(Flip(s), act.input, act.closed))
  }

  /** The state after any list of steps of two endpoints started fresh. */
  function After(acts: seq<Act>): Sys {
    if acts == [] then START else Do(After(acts[..|acts| - 1]), acts[|acts| - 1])
  }

  /** If a fragment of A's session arrives, it leaves no gap before the next recorded run. */
  predicate CleanInput(s: Sys, input: Input) {
    && Enabled(s, input) && input.FromLink? && input.msg.MsgSlice?
    && InSession(s.a.state) && input.msg.msgEpoch == s.a.state.session < MAX_EPOCH
    ==> CleanArrival(s.a.state.mgr, input.msg)
  }

  /** The system from the side of A, or from the side of B. */
  function View(acts: seq<Act>, atA: bool): Sys {
    if atA then After(acts) else Flip(After(acts))
  }

  ghost predicate CleanRun(acts: seq<Act>) {
    forall k :: 0 <= k < |acts| ==> CleanInput(View(acts[..k], acts[k].atA), acts[k].input)
  }

  // ---------------------------------------------------------------------
  // The invariant of every reachable state
  // ---------------------------------------------------------------------

  ghost predicate Inv(clean: bool, s: Sys) {
    && Local(PeerOf(s.a)) && Local(PeerOf(s.b))
    && Dir(clean, PeerOf(s.a), PeerOf(s.b), s.ab, s.ba)
    && Dir(clean, PeerOf(s.b), PeerOf(s.a), s.ba, s.ab)
  }

  lemma LegalMonotone(p: Peer, mv: Move, some: set<LinkProtocol>, more: set<LinkProtocol>)
    requires Legal(p, mv, some) && some <= more
    ensures Legal(p, mv, more)
  {
  }

  /** One move of `p`, with peer `q`, keeps both directions. */
  lemma MoveKeeps(clean: bool, p: Peer, q: Peer, pq: set<LinkProtocol>, qp: set<LinkProtocol>, mv: Move)
    requires Local(p) && Local(q) && Dir(clean, p, q, pq, qp) && Dir(clean, q, p, qp, pq)
    requires Legal(p, mv, qp)
    requires clean && mv.GetSlice? && p.epoch < MAX_EPOCH ==> CleanArrival(p.mgr.value, mv.x)
    ensures var p' := Apply(p, mv);
      Local(p') && Dir(clean, p', q, pq, qp) && Dir(clean, q, p', qp, pq)
  {
    if mv.GetSlice? {
      assert Genuine(q, mv.x);
    }
    LocalMove(p, mv, qp);
    SenderMove(clean, p, q, pq, qp, mv);
    ReceiverMove(clean, q, p, qp, pq, mv);
  }

  lemma DoAKeeps(clean: bool, s: Sys, input: Input, closed: set<nat>)
    requires Inv(clean, s) && (clean ==> CleanInput(s, input))
    ensures Inv(clean, DoA(s, input, closed))
  {
    if Enabled(s, input) {
      var p, q := PeerOf(s.a), PeerOf(s.b);
      var o := Step(s.a, input, closed);
      var first, after := StepRefines(s.a, input, closed);
      LegalMonotone(p, first, Heard(input), s.ba);
      MoveKeeps(clean, p, q, s.ab, s.ba, first);
      var mid := Apply(p, first);
      SenderSends(clean, mid, q, s.ab, s.ba, Sent(o.sent));
      ReceiverSends(clean, q, mid, s.ba, s.ab, Sent(o.sent));
      LegalMonotone(mid, after, {}, s.ba);
      MoveKeeps(clean, mid, q, s.ab + Sent(o.sent), s.ba, after);
    }
  }

  lemma StartInv(clean: bool)
    ensures Inv(clean, START)
  {
    assert Delivered([], 0) == [];
  }

  lemma {:induction false} Reachable(clean: bool, acts: seq<Act>)
    requires clean ==> CleanRun(acts)
    ensures Inv(clean, After(acts))
  {
    if acts == [] {
      StartInv(clean);
    } else {
      var n := |acts| - 1;
      var init, act := acts[..n], acts[n];
      assert clean ==> CleanRun(init) by {
        if clean {
          assert forall k :: 0 <= k < n ==> init[k] == acts[k] && init[..k] == acts[..k];
        }
      }
      Reachable(clean, init);
      var s := After(init);
      if act.atA {
        DoAKeeps(clean, s, act.input, act.closed);
      } else {
        DoAKeeps(clean, Flip(s), act.input, act.closed);
      }
    }
  }

  // ---------------------------------------------------------------------
  // Theorems
  // ---------------------------------------------------------------------

  /** Two endpoints that are both in a session are in the same one. */
  lemma EpochAgreement(acts: seq<Act>)
    ensures var s := After(acts);
      InSession(s.a.state) && InSession(s.b.state) ==> s.a.state.session == s.b.state.session
  {
    Reachable(false, acts);
  }

  /** Every message in flight can be taken by the endpoint it is addressed to: no underflow, no failed unwrap. */
  lemma ArrivalsAreReady(acts: seq<Act>, atA: bool, x: LinkProtocol)
    ensures var s := View(acts, atA);
      && (x in s.ba ==> Ready(s.a, FromLink(x)))
      && (InSession(s.a.state) ==> Frontier(s.a.state.mgr, s.a.state.mgr.lastAck.0))
  {
    Reachable(false, acts);
    var s := View(acts, atA);
    if x in s.ba {
      assert Genuine(PeerOf(s.b), x);
    }
  }

  /** The payloads an endpoint handed its user with epoch `e`. */
  function HandedOut(c: Core, e: nat): seq<Payload> {
    Delivered(Inbox(c.events), e)
  }

  lemma ExactMatch(got: seq<Payload>, want: seq<Payload>)
    requires MatchesFrom(true, got, want, 0)
    ensures got <= want
  {
    forall q | 0 <= q < |got| ensures got[q] == want[q] {
      assert Matches(true, got[q], want[0 + q]);
    }
  }

  /**
   End-to-end delivery. On a run without gaps the payloads an endpoint hands out
   in session `e` are a prefix, in order and exactly once, of those its peer
   inserted in session `e`.
   */
  lemma EndToEndDelivery(acts: seq<Act>, atA: bool, e: nat)
    requires CleanRun(acts) && e < MAX_EPOCH
    ensures var s := View(acts, atA); HandedOut(s.a, e) <= Inserted(s.b, e)
  {
    Reachable(true, acts);
    var s := View(acts, atA);
    ExactMatch(HandedOut(s.a, e), Inserted(s.b, e));
  }

  /**
   On any run at all: the number, order and length of the payloads are right, and
   every byte is the sender's or a zero left by a gap.
   */
  lemma DeliveryUpToGaps(acts: seq<Act>, atA: bool, e: nat)
    requires e < MAX_EPOCH
    ensures var s := View(acts, atA); MatchesFrom(false, HandedOut(s.a, e), Inserted(s.b, e), 0)
  {
    Reachable(false, acts);
  }

  // ---------------------------------------------------------------------
  // When runs are clean
  // ---------------------------------------------------------------------

  predicate Whole(x: LinkProtocol) {
    x.MsgSlice? ==> x.firstIndex == 0 && |x.data| == x.seqLen
  }

  lemma {:induction false} NetworkGrows(acts: seq<Act>, k: nat)
    requires k <= |acts|
    ensures After(acts[..k]).ab <= After(acts).ab && After(acts[..k]).ba <= After(acts).ba
  {
    if k < |acts| {
      var init := acts[..|acts| - 1];
      assert init[..k] == acts[..k];
      NetworkGrows(init, k);
    } else {
      assert acts[..k] == acts;
    }
  }

  lemma WholeIsClean(s: Sys, input: Input)
    requires Inv(false, s) && forall x :: x in s.ba ==> Whole(x)
    ensures CleanInput(s, input)
  {
    if Enabled(s, input) && input.FromLink? && input.msg.MsgSlice?
      && InSession(s.a.state) && input.msg.msgEpoch == s.a.state.session < MAX_EPOCH
    {
      var x, m := input.msg, s.a.state.mgr;
      assert Genuine(PeerOf(s.b), x) && Whole(x);
      var e := Entry(m, x.seqNo, x.seqLen);
      assert |e.data| == x.seqLen && NormalForm(e.runs, |e.data|);
      assert FirstPast(e.runs, 0, x.seqLen - 1).None?;
    }
  }

  /** If every message fits one fragment, every run is clean. */
  lemma WholeMessagesRunClean(acts: seq<Act>)
    requires forall x :: x in After(acts).ab || x in After(acts).ba ==> Whole(x)
    ensures CleanRun(acts)
  {
    forall k | 0 <= k < |acts| ensures CleanInput(View(acts[..k], acts[k].atA), acts[k].input) {
      NetworkGrows(acts, k);
      Reachable(false, acts[..k]);
      WholeIsClean(View(acts[..k], acts[k].atA), acts[k].input);
    }
  }

  // ---------------------------------------------------------------------
  // Nothing is discarded early
  // ---------------------------------------------------------------------

  /** Byte `i` of message `q` is still scheduled for transmission. */
  ghost predicate PendingByte(m: Msgs, q: nat, i: nat) {
    q in m.outgoing && Covers(m.outgoing[q].runs, i)
  }

  /** Byte `i` of message `q` is recorded: handed out already, or in a held run. */
  ghost predicate RecordedByte(m: Msgs, q: nat, i: nat) {
    q < m.lastAck.0 || (q in m.incoming && Covers(m.incoming[q].runs, i))
  }

  lemma KeptByte(clean: bool, s: Peer, r: Peer, q: nat, i: nat)
    requires Local(s) && Local(r) && Receiving(clean, s, r) && Sending(s, r)
    requires s.mgr.Some? && r.mgr.Some? && s.epoch == r.epoch < MAX_EPOCH
    requires q < |JournalAt(s, s.epoch)| && i < |JournalAt(s, s.epoch)[q]|
    ensures PendingByte(s.mgr.value, q, i) || RecordedByte(r.mgr.value, q, i)
  {
    var m, n, ack := s.mgr.value, r.mgr.value, r.mgr.value.lastAck;
    assert KeptMsg(m, q, ack);
    if ack.0 <= q {
      assert Pending(m.outgoing[q], m.epoch, q, JournalAt(s, s.epoch)[q]);
      var p: nat :| SuffixAt(m.outgoing[q], p);
      assert p in m.outgoing[q].runs;
      if i < p {
        assert q == ack.0 && 0 < ack.1 && i <= ack.1;
        var held := n.incoming[q];
        HeadMeaning(held);
        assert 0 in held.runs && 0 <= i <= held.runs[0];
      }
    }
  }

  /** The peer has not joined the session yet: nothing was acked. */
  lemma UnackedByte(s: Peer, r: Peer, q: nat, i: nat)
    requires Local(s) && Sending(s, r) && s.mgr.Some? && r.mgr.None? && r.epoch <= s.epoch < MAX_EPOCH
    requires q < |JournalAt(s, s.epoch)| && i < |JournalAt(s, s.epoch)[q]|
    ensures PendingByte(s.mgr.value, q, i)
  {
    var m := s.mgr.value;
    assert KeptMsg(m, q, (0, 0));
    assert Pending(m.outgoing[q], m.epoch, q, JournalAt(s, s.epoch)[q]);
    var p: nat :| SuffixAt(m.outgoing[q], p);
    assert p in m.outgoing[q].runs;
  }

  /**
   Nothing is discarded early, whatever acks are lost, duplicated or stale. While the
   peer shares the session, every byte of every inserted message is pending at the
   sender or recorded at the receiver; while the peer has not reached it, every byte
   is pending. The pending bytes of a message are always a suffix of it.
   */
  lemma NothingDiscardedEarly(acts: seq<Act>, atA: bool, q: nat, i: nat)
    requires var s := View(acts, atA); InSession(s.a.state) && s.a.state.session < MAX_EPOCH
    ensures var s := View(acts, atA); var journal := Inserted(s.a, s.a.state.session);
      && (q < |journal| && i < |journal[q]| ==>
            if InSession(s.b.state) then PendingByte(s.a.state.mgr, q, i) || RecordedByte(s.b.state.mgr, q, i)
            else ToInt(EpochOf(s.b.state)) <= s.a.state.session ==> PendingByte(s.a.state.mgr, q, i))
      && (q in s.a.state.mgr.outgoing ==>
            q < |journal| && Pending(s.a.state.mgr.outgoing[q], s.a.state.session, q, journal[q]))
  {
    Reachable(false, acts);
    EpochAgreement(acts);
    var s := View(acts, atA);
    var journal := Inserted(s.a, s.a.state.session);
    if q < |journal| && i < |journal[q]| {
      if InSession(s.b.state) {
        KeptByte(false, PeerOf(s.a), PeerOf(s.b), q, i);
      } else if ToInt(EpochOf(s.b.state)) <= s.a.state.session {
        UnackedByte(PeerOf(s.a), PeerOf(s.b), q, i);
      }
    }
  }
}
