/** Resending: one loss-free round gets the earliest outgoing message through. */
module Progress {
  import opened Prelude
  import opened Epochs
  import opened Protocol
  import opened Intervals
  import opened Slices
  import opened Reassembly
  import opened Messages
  import opened Delivery
  import opened Session
  import opened Peers
  import opened Refinement
  import opened System
  import opened LinkSizes
  import opened Handshake
  import Projection

  // ---------------------------------------------------------------------
  // The receiving manager
  // ---------------------------------------------------------------------

  /** The receiver is past message `m` (bytes `data`), or in it with `[0, c)` recorded. */
  ghost predicate Reached(r: Msgs, m: nat, data: Payload, c: nat) {
    || m < r.lastAck.0
    || (&& r.lastAck.0 == m
        && |Entry(r, m, |data|).data| == |data|
        && forall i :: 0 <= i < c ==> Covers(Entry(r, m, |data|).runs, i))
  }

  lemma TakeNothing(m: Msgs)
    requires Frontier(m, m.lastAck.0)
    ensures AfterTake(m) == m
  {
    assert AfterTake(m).incoming == m.incoming;
  }

  lemma InRangeAtFrontier(r: Msgs, data: Payload, x: LinkProtocol)
    requires Frontier(r, r.lastAck.0) && x.MsgSlice? && x.seqLen == |data| && data != []
    requires x.seqNo == r.lastAck.0 && |Entry(r, x.seqNo, |data|).data| == |data|
    ensures RecvInRange(r, x.seqNo, x.firstIndex, x.seqLen)
  {
    if x.seqNo in r.incoming {
      HeadBelowEnd(r.incoming[x.seqNo]);
    }
  }

  /** A fragment that continues the recorded head of the message at the frontier. */
  lemma FrontierFragment(r: Msgs, data: Payload, x: LinkProtocol)
    requires Frontier(r, r.lastAck.0) && x.MsgSlice? && Carries(x, r.epoch, r.lastAck.0, data)
    requires Reached(r, r.lastAck.0, data, x.firstIndex)
    ensures Takes(r, x.seqNo, x.firstIndex, x.seqLen, x.data)
    ensures var r' := AfterTake(Recv(r, x.seqNo, x.firstIndex, x.seqLen, x.data)); var c := x.firstIndex + |x.data|;
      && Reached(r', r.lastAck.0, data, c)
      && (c == |data| ==> r.lastAck.0 < r'.lastAck.0 && ShouldAck(r, x.seqNo, x.firstIndex, x.seqLen, x.data))
  {
    var m := r.lastAck.0;
    var e := Entry(r, m, |data|);
    InRangeAtFrontier(r, data, x);
    assert Held(e, r.epoch, m);
    RecvSliceRuns(e, data, x.firstIndex, x.firstIndex + |x.data| - 1, x.data);
    var s := RecvSlice(e, r.epoch, m, x.firstIndex, x.data);
    var incoming := Recorded(r, m, x.firstIndex, |data|, x.data);
    assert incoming[m] == s;
    forall i | 0 <= i < x.firstIndex + |x.data| ensures Covers(s.runs, i) {
      assert i < x.firstIndex ==> Covers(e.runs, i);
    }
    AdvanceMeaning(incoming, r.lastAck);
    FullIffCovered(s.runs, |data|);
  }

  lemma FragmentStep(r: Msgs, m: nat, data: Payload, x: LinkProtocol)
    requires Frontier(r, r.lastAck.0) && x.MsgSlice? && Carries(x, r.epoch, m, data)
    requires Reached(r, m, data, x.firstIndex)
    ensures Takes(r, x.seqNo, x.firstIndex, x.seqLen, x.data)
    ensures var r' := AfterTake(Recv(r, x.seqNo, x.firstIndex, x.seqLen, x.data)); var c := x.firstIndex + |x.data|;
      && Reached(r', m, data, c)
      && (c == |data| ==> m < r'.lastAck.0 && ShouldAck(r, x.seqNo, x.firstIndex, x.seqLen, x.data))
  {
    if m < r.lastAck.0 {
      TakeNothing(r);
      assert m !in r.incoming;
    } else {
      FrontierFragment(r, data, x);
    }
  }

  // ---------------------------------------------------------------------
  // Endpoints that stay connected
  // ---------------------------------------------------------------------

  lemma ArriveSlice(c: Core, e: Epoch, x: LinkProtocol)
    requires Up(c, e) && x.MsgSlice? && x.msgEpoch == e && Ready(c, FromLink(x))
    ensures var o := Step(c, FromLink(x), {});
      && Up(o.core, e) && o.core.state.mgr == AfterTake(Recv(c.state.mgr, x.seqNo, x.firstIndex, x.seqLen, x.data))
      && o.sent == if ShouldAck(c.state.mgr, x.seqNo, x.firstIndex, x.seqLen, x.data)
                   then [Ack(e, o.core.state.mgr.lastAck.0, o.core.state.mgr.lastAck.1)] else []
  {
    assert DropClosed(c.state.links, {}) == c.state.links;
  }

  /** The receiver in the middle of message `m`. */
  ghost predicate InMessage(b: Core, e: Epoch, m: nat, data: Payload, c: nat) {
    && Up(b, e) && b.state.mgr.epoch == e && Frontier(b.state.mgr, b.state.mgr.lastAck.0)
    && Reached(b.state.mgr, m, data, c)
  }

  /** One such fragment, and its answer. */
  lemma OneFragment(b: Core, e: Epoch, m: nat, data: Payload, x: LinkProtocol, next: nat)
    requires x.MsgSlice? && Carries(x, e, m, data) && InMessage(b, e, m, data, x.firstIndex)
    requires next == x.firstIndex + |x.data|
    ensures Ready(b, FromLink(x))
    ensures var o := Step(b, FromLink(x), {}); var ack := o.core.state.mgr.lastAck;
      && InMessage(o.core, e, m, data, next)
      && (o.sent == [] || o.sent == [Ack(e, ack.0, ack.1)])
      && (next == |data| ==> m < ack.0 && o.sent != [])
  {
    FragmentStep(b.state.mgr, m, data, x);
    ArriveSlice(b, e, x);
    RecvAndTake(b.state.mgr, x.seqNo, x.firstIndex, x.seqLen, x.data);
  }

  /** The first of a list of such fragments: where it leads, and the answer. */
  lemma HandleOne(b: Core, e: Epoch, m: nat, data: Payload, xs: seq<LinkProtocol>, next: nat)
    returns (d: Core, ys: seq<LinkProtocol>)
    requires xs != [] && xs[0].MsgSlice? && Carries(xs[0], e, m, data) && InMessage(b, e, m, data, xs[0].firstIndex)
    requires next == xs[0].firstIndex + |xs[0].data|
    ensures Handle(b, xs) == Out(Handle(d, xs[1..]).core, ys + Handle(d, xs[1..]).sent)
    ensures InMessage(d, e, m, data, next)
    ensures ys == [] || ys == [Ack(e, d.state.mgr.lastAck.0, d.state.mgr.lastAck.1)]
    ensures next == |data| ==> m < d.state.mgr.lastAck.0 && ys != []
  {
    OneFragment(b, e, m, data, xs[0], next);
    var o := Step(b, FromLink(xs[0]), {});
    d, ys := o.core, o.sent;
  }

  ghost predicate AcksOf(xs: seq<LinkProtocol>, e: Epoch) {
    forall j {:trigger xs[j]} :: 0 <= j < |xs| ==> xs[j].Ack? && xs[j].ackEpoch == e
  }

  /** `xs` are the fragments of message `m` from byte `c` to its end. */
  ghost predicate Remaining(xs: seq<LinkProtocol>, e: Epoch, m: nat, data: Payload, c: nat, size: nat) {
    && Contiguous(xs, c, size) && AllCarry(xs, e, m, data)
    && (forall x :: x in xs ==> x.MsgSlice?) && c + |Joined(xs)| == |data|
  }

  lemma RemainingTail(xs: seq<LinkProtocol>, e: Epoch, m: nat, data: Payload, c: nat, size: nat) returns (next: nat)
    requires xs != [] && Remaining(xs, e, m, data, c, size)
    ensures xs[0].MsgSlice? && xs[0].firstIndex == c && Carries(xs[0], e, m, data) && next == c + |xs[0].data|
    ensures Remaining(xs[1..], e, m, data, next, size)
    ensures xs[1..] == [] ==> next == |data|
  {
    assert forall y :: y in xs[1..] ==> y in xs;
    assert Joined(xs) == xs[0].data + Joined(xs[1..]);
    next := c + |xs[0].data|;
  }

  lemma AcksAppend(xs: seq<LinkProtocol>, ys: seq<LinkProtocol>, e: Epoch)
    requires AcksOf(xs, e) && AcksOf(ys, e) && ys != []
    ensures AcksOf(xs + ys, e) && LastAckSeq(xs + ys) == LastAckSeq(ys)
  {
  }

  /** Acks only, and the last one is past message `m`. */
  ghost predicate AckedPast(ys: seq<LinkProtocol>, e: Epoch, m: nat) {
    ys != [] && m < LastAckSeq(ys) && AcksOf(ys, e)
  }

  lemma LastAnswer(d: Core, e: Epoch, m: nat, ys: seq<LinkProtocol>)
    requires Up(d, e) && m < d.state.mgr.lastAck.0 && ys == [Ack(e, d.state.mgr.lastAck.0, d.state.mgr.lastAck.1)]
    ensures AckedPast(ys, e, m)
  {
  }

  lemma EarlierAnswer(e: Epoch, m: nat, ack: (nat, nat), ys: seq<LinkProtocol>, more: seq<LinkProtocol>)
    requires (ys == [] || ys == [Ack(e, ack.0, ack.1)]) && AckedPast(more, e, m)
    ensures AckedPast(ys + more, e, m)
  {
    AcksAppend(ys, more, e);
  }

  /** The fragments of a message's pending suffix, delivered in order, are answered with an ack past it. */
  lemma {:induction false} HandleFragments(
    b: Core, e: Epoch, m: nat, data: Payload, xs: seq<LinkProtocol>, c: nat, size: nat)
    requires InMessage(b, e, m, data, c) && xs != [] && Remaining(xs, e, m, data, c, size)
    ensures Up(Handle(b, xs).core, e) && AckedPast(Handle(b, xs).sent, e, m)
    decreases xs
  {
    var next := RemainingTail(xs, e, m, data, c, size);
    var d, ys := HandleOne(b, e, m, data, xs, next);
    var rest := xs[1..];
    if rest == [] {
      LastAnswer(d, e, m, ys);
      assert Handle(d, rest) == Quiet(d) && ys + [] == ys;
    } else {
      HandleFragments(d, e, m, data, rest, next, size);
      EarlierAnswer(e, m, d.state.mgr.lastAck, ys, Handle(d, rest).sent);
    }
  }

  function LastAckSeq(xs: seq<LinkProtocol>): nat {
    if xs != [] && xs[|xs| - 1].Ack? then xs[|xs| - 1].ackSeq else 0
  }

  lemma RecvAckShrinks(m: Msgs, ack: (nat, nat))
    ensures RecvAck(m, ack).outgoing.Keys <= m.outgoing.Keys
    ensures forall q :: q in RecvAck(m, ack).outgoing ==> ack.0 <= q
  {
  }

  /** Acks only ever shrink the outgoing set, and take away everything below them. */
  lemma {:induction false} HandleAcks(a: Core, e: Epoch, acks: seq<LinkProtocol>)
    requires Up(a, e)
    requires AcksOf(acks, e)
    ensures var h := Handle(a, acks);
      && Up(h.core, e) && h.sent == [] && h.core.journal == a.journal
      && h.core.state.mgr.outgoing.Keys <= a.state.mgr.outgoing.Keys
      && forall q :: q in h.core.state.mgr.outgoing ==> LastAckSeq(acks) <= q
    decreases acks
  {
    if acks != [] {
      var x, rest := acks[0], acks[1..];
      var o := Step(a, FromLink(x), {});
      RecvAckShrinks(a.state.mgr, (x.ackSeq, x.lastIndex));
      assert o.core == ReceiveAck(a, x) && o.sent == [];
      HandleAcks(o.core, e, rest);
      assert rest != [] ==> rest[|rest| - 1] == acks[|acks| - 1];
    }
  }

  /** Fragments of a message beyond the frontier are held, never acknowledged. */
  lemma {:induction false} HandleBeyond(b: Core, e: Epoch, m: nat, data: Payload, xs: seq<LinkProtocol>)
    requires Up(b, e) && b.state.mgr.epoch == e && Frontier(b.state.mgr, b.state.mgr.lastAck.0)
    requires AllCarry(xs, e, m, data) && b.state.mgr.lastAck.0 < m
    ensures var h := Handle(b, xs); Up(h.core, e) && h.sent == []
    decreases xs
  {
    if xs != [] {
      var x := xs[0];
      RecvAndTake(b.state.mgr, x.seqNo, x.firstIndex, x.seqLen, x.data);
      ArriveSlice(b, e, x);
      HandleBeyond(Step(b, FromLink(x), {}).core, e, m, data, xs[1..]);
    }
  }

  // ---------------------------------------------------------------------
  // A round
  // ---------------------------------------------------------------------

  /** Timer at `a`, its fragments to `b`, the answers back to `a`; nothing is lost. */
  function Round(a: Core, b: Core): (Core, Core) {
    var t := Step(a, Tick, {});
    var h := Handle(b, t.sent);
    (Handle(t.core, h.sent).core, h.core)
  }

  lemma TickResends(a: Core, e: Epoch)
    requires Up(a, e) && a.timer.armed
    ensures var t := Step(a, Tick, {});
      Up(t.core, e) && t.core.state == a.state && t.core.journal == a.journal && t.sent == Resend(a.state.mgr, a.state.links)
  {
    AllOpen(a.state.links);
  }

  /** Two connected endpoints of one session, as seen from the sender `a`. */
  ghost predicate Paired(s: Sys, e: Epoch) {
    && Inv(false, s) && Up(s.a, e) && Up(s.b, e) && e < MAX_EPOCH
    && s.a.timer.armed && LinksUsable(s.a)
  }

  /** Where the receiver stands when all of message `m` and before is non-empty. */
  lemma ReceiverReached(s: Sys, e: Epoch, m: nat, p: nat)
    requires Paired(s, e) && m in s.a.state.mgr.outgoing && SuffixAt(s.a.state.mgr.outgoing[m], p)
    requires forall q :: q in s.a.state.mgr.outgoing ==> m <= q
    requires forall q :: 0 <= q <= m && q < |Inserted(s.a, e)| ==> Inserted(s.a, e)[q] != []
    ensures Reached(s.b.state.mgr, m, s.a.state.mgr.outgoing[m].data, p)
  {
    var ma, mb, journal := s.a.state.mgr, s.b.state.mgr, Inserted(s.a, e);
    var data := ma.outgoing[m].data;
    assert Pending(ma.outgoing[m], ma.epoch, m, journal[m]);
    assert KeptMsg(ma, m, mb.lastAck);
    assert 0 < m ==> KeptMsg(ma, m - 1, mb.lastAck);
    if mb.lastAck.0 == m && m in mb.incoming {
      assert Partial(false, mb.incoming[m], journal[m]);
      HeadMeaning(mb.incoming[m]);
      forall i | 0 <= i < p ensures Covers(mb.incoming[m].runs, i) {
        assert 0 in mb.incoming[m].runs && 0 <= i <= mb.incoming[m].runs[0];
      }
    }
  }

  /** An empty message blocks everything behind it: on no run is it, or a later message, ever handed out. */
  lemma EmptyMessageBlocks(acts: seq<Act>, atA: bool, e: Epoch, k: nat)
    requires e < MAX_EPOCH
    requires var s := View(acts, atA); k < |Inserted(s.b, e)| && Inserted(s.b, e)[k] == []
    ensures |HandedOut(View(acts, atA).a, e)| <= k
  {
    DeliveryUpToGaps(acts, atA, e);
    var s := View(acts, atA);
    DeliveredNonEmpty(HandedOut(s.a, e), Inserted(s.b, e));
  }

  /** ... so the frontier of the peer never passes it. */
  lemma FrontierBlocked(s: Sys, e: Epoch, k: nat)
    requires Paired(s, e) && k < |Inserted(s.a, e)| && Inserted(s.a, e)[k] == []
    ensures s.b.state.mgr.lastAck.0 <= k
  {
    DeliveredNonEmpty(Delivered(Inbox(s.b.events), e), JournalAt(PeerOf(s.a), e));
  }

  lemma DeliveredNonEmpty(got: seq<Payload>, want: seq<Payload>)
    requires MatchesFrom(false, got, want, 0)
    ensures |got| <= |want| && forall k :: 0 <= k < |got| ==> want[k] != []
  {
    forall k | 0 <= k < |got| ensures want[k] != [] {
      assert Matches(false, got[k], want[0 + k]);
    }
  }

  lemma EarliestIs(m: Msgs, q: nat)
    requires q in m.outgoing && forall k :: k in m.outgoing ==> q <= k
    ensures EarliestOutgoing(m) == Some(q)
  {
  }

  lemma RoundGetsThrough(s: Sys, e: Epoch, m: nat)
    requires Paired(s, e) && m in s.a.state.mgr.outgoing
    requires forall q :: q in s.a.state.mgr.outgoing ==> m <= q
    requires forall q :: 0 <= q <= m && q < |Inserted(s.a, e)| ==> Inserted(s.a, e)[q] != []
    ensures var r := Round(s.a, s.b);
      && Up(r.0, e) && Up(r.1, e) && r.0.journal == s.a.journal
      && m !in r.0.state.mgr.outgoing && r.0.state.mgr.outgoing.Keys <= s.a.state.mgr.outgoing.Keys
  {
    var ma, out := s.a.state.mgr, s.a.state.mgr.outgoing[m];
    EarliestIs(ma, m);
    TickResends(s.a, e);
    assert Pending(out, ma.epoch, m, Inserted(s.a, e)[m]);
    var p: nat :| SuffixAt(out, p);
    var size := FragmentSize(s.a.state.links[0]);
    assert 0 < size;
    var xs := GetSlices(out, size);
    GetSlicesOfSuffix(out, p, size);
    ReceiverReached(s, e, m, p);
    assert AllCarry(xs, e, m, out.data) by {
      forall j | 0 <= j < |xs| ensures Carries(xs[j], e, m, out.data) {
        assert xs[j] in xs;
      }
    }
    assert Remaining(xs, e, m, out.data, p, size);
    HandleFragments(s.b, e, m, out.data, xs, p, size);
    HandleAcks(Step(s.a, Tick, {}).core, e, Handle(s.b, xs).sent);
  }

  lemma RoundStalls(s: Sys, e: Epoch, m: nat, k: nat)
    requires Paired(s, e) && m in s.a.state.mgr.outgoing
    requires forall q :: q in s.a.state.mgr.outgoing ==> m <= q
    requires k <= m && k < |Inserted(s.a, e)| && Inserted(s.a, e)[k] == []
    ensures var r := Round(s.a, s.b); Up(r.0, e) && Up(r.1, e) && r.0.state.mgr.outgoing == s.a.state.mgr.outgoing
  {
    var ma, out := s.a.state.mgr, s.a.state.mgr.outgoing[m];
    EarliestIs(ma, m);
    TickResends(s.a, e);
    FrontierBlocked(s, e, k);
    assert Pending(out, ma.epoch, m, Inserted(s.a, e)[m]);
    var xs := GetSlices(out, FragmentSize(s.a.state.links[0]));
    if out.data == [] {
      assert xs == [];
    } else {
      assert k < m;
      assert AllCarry(xs, e, m, out.data) by {
        forall j | 0 <= j < |xs| ensures Carries(xs[j], e, m, out.data) {
          GetSlicesCarry(out, FragmentSize(s.a.state.links[0]), xs[j]);
        }
      }
      HandleBeyond(s.b, e, m, out.data, xs);
    }
  }

  /** Every reachable pair of connected endpoints of one session below the maximum epoch is paired. */
  lemma ReachablePaired(acts: seq<Act>, atA: bool, e: Epoch)
    requires var s := View(acts, atA); Up(s.a, e) && Up(s.b, e) && e < MAX_EPOCH
    ensures Paired(View(acts, atA), e)
  {
    Reachable(false, acts);
    Projection.EndpointFacts(acts, atA);
  }

  predicate AllNonEmpty(journal: seq<Payload>, upTo: nat) {
    forall q :: 0 <= q <= upTo && q < |journal| ==> journal[q] != []
  }

  /**
   Resend progress: from any reachable pair of connected endpoints of one session,
   one loss-free round strictly shrinks the sender's outgoing set, exactly when
   neither the earliest outgoing message nor one before it is empty.
   */
  lemma ResendProgress(acts: seq<Act>, atA: bool, e: Epoch, m: nat)
    requires var s := View(acts, atA); Up(s.a, e) && Up(s.b, e) && e < MAX_EPOCH
    requires EarliestOutgoing(View(acts, atA).a.state.mgr) == Some(m)
    ensures var s := View(acts, atA); var r := Round(s.a, s.b);
      && Up(r.0, e) && Up(r.1, e)
      && (r.0.state.mgr.outgoing.Keys < s.a.state.mgr.outgoing.Keys <==> AllNonEmpty(Inserted(s.a, e), m))
  {
    ReachablePaired(acts, atA, e);
    var s := View(acts, atA);
    if AllNonEmpty(Inserted(s.a, e), m) {
      RoundGetsThrough(s, e, m);
    } else {
      var k :| 0 <= k <= m && k < |Inserted(s.a, e)| && Inserted(s.a, e)[k] == [];
      RoundStalls(s, e, m, k);
    }
  }

  // ---------------------------------------------------------------------
  // Rounds as runs of the system
  // ---------------------------------------------------------------------

  function Deliveries(atA: bool, xs: seq<LinkProtocol>): seq<Act> {
    if xs == [] then [] else [Act(atA, FromLink(xs[0]), {})] + Deliveries(atA, xs[1..])
  }

  lemma OwnStep(acts: seq<Act>, atA: bool, input: Input, closed: set<nat>)
    ensures View(acts + [Act(atA, input, closed)], atA) == DoA(View(acts, atA), input, closed)
  {
    assert (acts + [Act(atA, input, closed)])[..|acts|] == acts;
  }

  /** One delivery, taken or passed over. */
  lemma OneDelivery(acts: seq<Act>, atA: bool, x: LinkProtocol)
    requires x in View(acts, atA).ba
    ensures var v := View(acts, atA);
      var o := if Ready(v.a, FromLink(x)) then Step(v.a, FromLink(x), {}) else Quiet(v.a);
      View(acts + [Act(atA, FromLink(x), {})], atA) == v.(a := o.core, ab := v.ab + Sent(o.sent))
  {
    OwnStep(acts, atA, FromLink(x), {});
    assert View(acts, atA).ab + Sent([]) == View(acts, atA).ab;
  }

  lemma SentAppend(net: set<LinkProtocol>, xs: seq<LinkProtocol>, ys: seq<LinkProtocol>)
    ensures net + Sent(xs) + Sent(ys) == net + Sent(xs + ys)
  {
  }

  lemma {:induction false} AfterDeliveries(acts: seq<Act>, atA: bool, xs: seq<LinkProtocol>)
    requires forall x :: x in xs ==> x in View(acts, atA).ba
    ensures var v := View(acts, atA); var h := Handle(v.a, xs);
      View(acts + Deliveries(atA, xs), atA) == v.(a := h.core, ab := v.ab + Sent(h.sent))
    decreases xs
  {
    var v := View(acts, atA);
    if xs == [] {
      assert acts + Deliveries(atA, xs) == acts;
      assert v.ab + Sent([]) == v.ab;
    } else {
      var act := Act(atA, FromLink(xs[0]), {});
      assert xs[0] in xs && forall x :: x in xs[1..] ==> x in xs;
      OneDelivery(acts, atA, xs[0]);
      AfterDeliveries(acts + [act], atA, xs[1..]);
      Regroup(acts, [act], Deliveries(atA, xs[1..]));
      var o := if Ready(v.a, FromLink(xs[0])) then Step(v.a, FromLink(xs[0]), {}) else Quiet(v.a);
      SentAppend(v.ab, o.sent, Handle(o.core, xs[1..]).sent);
    }
  }

  /** The steps of one loss-free round. */
  function RoundActs(s: Sys, atA: bool): seq<Act> {
    var t := Step(s.a, Tick, {});
    var h := Handle(s.b, t.sent);
    [Act(atA, Tick, {})] + Deliveries(!atA, t.sent) + Deliveries(atA, h.sent)
  }

  /** Deliver `xs` to the peer, and its answers back. */
  lemma ThereAndBack(acts: seq<Act>, atA: bool, xs: seq<LinkProtocol>)
    requires forall x :: x in xs ==> x in View(acts, atA).ab
    ensures var v := View(acts, atA); var h := Handle(v.b, xs);
      var w := View(acts + Deliveries(!atA, xs) + Deliveries(atA, h.sent), atA);
      w.a == Handle(v.a, h.sent).core && w.b == h.core
  {
    var v := View(acts, atA);
    assert View(acts, !atA) == Flip(v);
    AfterDeliveries(acts, !atA, xs);
    var h := Handle(v.b, xs);
    var there := acts + Deliveries(!atA, xs);
    assert View(there, atA) == Flip(View(there, !atA));
    AfterDeliveries(there, atA, h.sent);
  }

  lemma TickRun(acts: seq<Act>, atA: bool)
    ensures var s := View(acts, atA); var t := Step(s.a, Tick, {});
      View(acts + [Act(atA, Tick, {})], atA) == s.(a := t.core, ab := s.ab + Sent(t.sent))
  {
    OwnStep(acts, atA, Tick, {});
  }

  lemma RoundActsSplit(acts: seq<Act>, s: Sys, atA: bool)
    ensures var sent := Step(s.a, Tick, {}).sent;
      acts + RoundActs(s, atA) ==
      acts + [Act(atA, Tick, {})] + Deliveries(!atA, sent) + Deliveries(atA, Handle(s.b, sent).sent)
  {
    var sent := Step(s.a, Tick, {}).sent;
    var tick, out, back := [Act(atA, Tick, {})], Deliveries(!atA, sent), Deliveries(atA, Handle(s.b, sent).sent);
    Regroup(acts, tick + out, back);
    Regroup(acts, tick, out);
  }

  lemma RoundIsRun(acts: seq<Act>, atA: bool)
    ensures var s := View(acts, atA); var v := View(acts + RoundActs(s, atA), atA);
      v.a == Round(s.a, s.b).0 && v.b == Round(s.a, s.b).1
  {
    var s := View(acts, atA);
    TickRun(acts, atA);
    RoundActsSplit(acts, s, atA);
    ThereAndBack(acts + [Act(atA, Tick, {})], atA, Step(s.a, Tick, {}).sent);
  }

  function AfterRounds(acts: seq<Act>, atA: bool, n: nat): seq<Act>
    decreases n
  {
    if n == 0 then acts else AfterRounds(acts + RoundActs(View(acts, atA), atA), atA, n - 1)
  }

  lemma ProperSubsetSize(a: set<nat>, b: set<nat>, x: nat)
    requires a <= b && x in b && x !in a
    ensures |a| < |b|
  {
    SubsetSize(a, b - {x});
  }

  /** At most `n` messages left to get through, none of this session empty. */
  predicate Draining(a: Core, b: Core, e: Epoch, n: nat) {
    && Up(a, e) && Up(b, e) && |a.state.mgr.outgoing.Keys| <= n
    && forall q :: 0 <= q < |Inserted(a, e)| ==> Inserted(a, e)[q] != []
  }

  lemma RoundDrains(s: Sys, e: Epoch, n: nat)
    requires Paired(s, e) && Draining(s.a, s.b, e, n) && 0 < n
    ensures Draining(Round(s.a, s.b).0, Round(s.a, s.b).1, e, n - 1)
  {
    var earliest := EarliestOutgoing(s.a.state.mgr);
    if earliest.Some? {
      RoundGetsThrough(s, e, earliest.value);
      ProperSubsetSize(Round(s.a, s.b).0.state.mgr.outgoing.Keys, s.a.state.mgr.outgoing.Keys, earliest.value);
    } else {
      RoundIdle(s, e);
    }
    assert Inserted(Round(s.a, s.b).0, e) == Inserted(s.a, e);
  }

  /** As many loss-free rounds as there are outgoing messages drain them all, if none is empty. */
  lemma {:induction false} RoundsDrain(acts: seq<Act>, atA: bool, e: Epoch, n: nat)
    requires Draining(View(acts, atA).a, View(acts, atA).b, e, n) && e < MAX_EPOCH
    ensures Drained(View(AfterRounds(acts, atA, n), atA), e)
    decreases n
  {
    if n == 0 {
      assert View(acts, atA).a.state.mgr.outgoing.Keys == {};
    } else {
      var more := DrainOne(acts, atA, e, n);
      RoundsDrain(more, atA, e, n - 1);
    }
  }

  /**
   Everything was delivered: as soon as nothing is outgoing the peer has handed out
   as many payloads as were inserted, and on a clean run exactly those.
   */
  lemma DrainedIsDelivered(acts: seq<Act>, atA: bool, e: Epoch)
    requires Drained(View(acts, atA), e) && e < MAX_EPOCH
    ensures var s := View(acts, atA);
      && |HandedOut(s.b, e)| == |Inserted(s.a, e)|
      && (CleanRun(acts) ==> HandedOut(s.b, e) == Inserted(s.a, e))
  {
    Reachable(false, acts);
    var s := View(acts, atA);
    var journal, ack := Inserted(s.a, e), s.b.state.mgr.lastAck;
    assert ack.0 < |journal| ==> KeptMsg(s.a.state.mgr, ack.0, ack);
    if CleanRun(acts) {
      EndToEndDelivery(acts, !atA, e);
    }
  }

  /** Connected, nothing left to send, and nothing empty was inserted. */
  predicate Drained(s: Sys, e: Epoch) {
    && Up(s.a, e) && Up(s.b, e) && s.a.state.mgr.outgoing == map[]
    && forall q :: 0 <= q < |Inserted(s.a, e)| ==> Inserted(s.a, e)[q] != []
  }

  lemma DrainOne(acts: seq<Act>, atA: bool, e: Epoch, n: nat) returns (more: seq<Act>)
    requires Draining(View(acts, atA).a, View(acts, atA).b, e, n) && e < MAX_EPOCH && 0 < n
    ensures Draining(View(more, atA).a, View(more, atA).b, e, n - 1)
    ensures AfterRounds(acts, atA, n) == AfterRounds(more, atA, n - 1)
  {
    ReachablePaired(acts, atA, e);
    RoundDrains(View(acts, atA), e, n);
    RoundIsRun(acts, atA);
    more := acts + RoundActs(View(acts, atA), atA);
  }

  /** With nothing outgoing a round changes nothing. */
  lemma RoundIdle(s: Sys, e: Epoch)
    requires Paired(s, e) && s.a.state.mgr.outgoing == map[]
    ensures var r := Round(s.a, s.b);
      Up(r.0, e) && Up(r.1, e) && r.0.journal == s.a.journal && r.0.state.mgr.outgoing == map[]
  {
    TickResends(s.a, e);
    assert Resend(s.a.state.mgr, s.a.state.links) == [];
  }
}
