/**
 Exact delivery between two endpoints: on every run, whatever the network does,
 each payload handed out is the sender's on the bytes that came in time and zero on
 the others.
 */
module EndToEnd {
  import opened Prelude
  import opened Epochs
  import opened Protocol
  import opened Messages
  import opened Session
  import opened Peers
  import opened PeerMoves
  import opened Refinement
  import opened System
  import opened Exactness

  // ---------------------------------------------------------------------
  // The calls a run makes to a receiving manager
  // ---------------------------------------------------------------------

  /** The step gives endpoint A a fragment of its session `e`. */
  predicate Arrives(s: Sys, input: Input, e: Epoch) {
    && Enabled(s, input) && input.FromLink?
    && InSession(s.a.state) && s.a.state.session == e && OfSession(s.a.state, input.msg)
  }

  function Calls(x: LinkProtocol): seq<Op>
    requires x.MsgSlice?
  {
    [RecvOp(x.seqNo, x.firstIndex, x.seqLen, x.data), TakeOp]
  }

  /** The calls to the manager of session `e` at one endpoint, over a whole run. */
  function OpsOf(acts: seq<Act>, atA: bool, e: Epoch): seq<Op> {
    if acts == [] then []
    else
      var n := |acts| - 1;
      OpsOf(acts[..n], atA, e) +
      if acts[n].atA == atA && Arrives(View(acts[..n], atA), acts[n].input, e) then Calls(acts[n].input.msg) else []
  }

  // ---------------------------------------------------------------------
  // An endpoint and its calls
  // ---------------------------------------------------------------------

  /** The two managers agree on everything a fragment can change. */
  predicate SameIncoming(m: Msgs, n: Msgs) {
    m.epoch == n.epoch && m.incoming == n.incoming && m.lastAck == n.lastAck
  }

  /** What `p` handed out in session `e`, and its manager if it is in it, come from the calls `ops`. */
  ghost predicate Tied(p: Peer, e: Epoch, ops: seq<Op>) {
    var (m, out) := RunOps(e, ops);
    && Delivered(p.inbox, e) == out
    && (p.mgr.Some? && p.epoch == e ==> SameIncoming(p.mgr.value, m))
    && (!Past(p, e) ==> ops == [])
  }

  lemma {:induction false} InsertAllIncoming(m: Msgs, msgs: seq<Payload>)
    ensures SameIncoming(InsertAll(m, msgs), m)
  {
    if msgs != [] {
      InsertAllIncoming(m, msgs[..|msgs| - 1]);
    }
  }

  lemma RunNothing(e: Epoch)
    ensures RunOps(e, []) == (NewMsgs(e), [])
  {
  }

  /** A move that receives no fragment of session `e`. */
  lemma TiedMove(p: Peer, mv: Move, heard: set<LinkProtocol>, e: Epoch, ops: seq<Op>)
    requires Local(p) && Legal(p, mv, heard) && e < MAX_EPOCH && Tied(p, e, ops)
    requires mv.GetSlice? ==> p.epoch != e
    ensures Tied(Apply(p, mv), e, ops)
  {
    match mv
    case GetSlice(x) =>
      var m := Recv(p.mgr.value, x.seqNo, x.firstIndex, x.seqLen, x.data);
      DeliveredAppend(p.inbox, Taken(m), p.epoch, e);
    case Enter(at, queued) =>
      InsertAllIncoming(NewMsgs(at), queued);
      RunNothing(e);
    case _ =>
  }

  lemma RunCalls(e: Epoch, ops: seq<Op>, x: LinkProtocol)
    requires x.MsgSlice?
    ensures var (m, out) := RunOps(e, ops);
      Takes(m, x.seqNo, x.firstIndex, x.seqLen, x.data) ==>
        var r := Recv(m, x.seqNo, x.firstIndex, x.seqLen, x.data);
        RunOps(e, ops + Calls(x)) == (AfterTake(r), out + Taken(r))
  {
    var op := RecvOp(x.seqNo, x.firstIndex, x.seqLen, x.data);
    assert (ops + [op])[..|ops|] == ops;
    assert (ops + Calls(x))[..|ops| + 1] == ops + [op];
  }

  lemma SameReceived(m: Msgs, n: Msgs, x: LinkProtocol)
    requires SameIncoming(m, n) && x.MsgSlice? && Takes(m, x.seqNo, x.firstIndex, x.seqLen, x.data)
    ensures Takes(n, x.seqNo, x.firstIndex, x.seqLen, x.data)
    ensures var r, t := Recv(m, x.seqNo, x.firstIndex, x.seqLen, x.data), Recv(n, x.seqNo, x.firstIndex, x.seqLen, x.data);
      Taken(r) == Taken(t) && SameIncoming(AfterTake(r), AfterTake(t))
  {
  }

  /** A fragment of session `e` is two calls. */
  lemma TiedSlice(p: Peer, x: LinkProtocol, e: Epoch, ops: seq<Op>)
    requires Local(p) && Able(p, GetSlice(x)) && p.epoch == e && Tied(p, e, ops)
    ensures Tied(Apply(p, GetSlice(x)), e, ops + Calls(x))
  {
    var m := RunOps(e, ops).0;
    SameReceived(p.mgr.value, m, x);
    RunCalls(e, ops, x);
    DeliveredAppend(p.inbox, Taken(Recv(p.mgr.value, x.seqNo, x.firstIndex, x.seqLen, x.data)), p.epoch, e);
  }

  lemma TiedStep(s: Sys, input: Input, closed: set<nat>, e: Epoch, ops: seq<Op>)
    requires Inv(false, s) && Enabled(s, input) && e < MAX_EPOCH && Tied(PeerOf(s.a), e, ops)
    ensures var o := Step(s.a, input, closed);
      Tied(PeerOf(o.core), e, ops + if Arrives(s, input, e) then Calls(input.msg) else [])
  {
    var p := PeerOf(s.a);
    if Arrives(s, input, e) {
      var x := input.msg;
      var after := FragmentRefines(s.a, x, closed);
      TiedSlice(p, x, e, ops);
      var mid := Apply(p, GetSlice(x));
      LocalMove(p, GetSlice(x), {x});
      TiedMove(mid, after, {}, e, ops + Calls(x));
    } else {
      var first, after := StepRefines(s.a, input, closed);
      TiedMove(p, first, Heard(input), e, ops);
      LocalMove(p, first, Heard(input));
      TiedMove(Apply(p, first), after, {}, e, ops);
      assert ops + [] == ops;
    }
  }

  lemma {:induction false} RunTied(acts: seq<Act>, atA: bool, e: Epoch)
    requires e < MAX_EPOCH
    ensures Tied(PeerOf(View(acts, atA).a), e, OpsOf(acts, atA, e))
  {
    if acts == [] {
      RunNothing(e);
    } else {
      var n := |acts| - 1;
      var s, act := View(acts[..n], atA), acts[n];
      RunTied(acts[..n], atA, e);
      Reachable(false, acts[..n]);
      if act.atA == atA && Enabled(s, act.input) {
        TiedStep(s, act.input, act.closed, e, OpsOf(acts[..n], atA, e));
      } else {
        assert OpsOf(acts[..n], atA, e) + [] == OpsOf(acts[..n], atA, e);
      }
    }
  }

  // ---------------------------------------------------------------------
  // The fragments are the sender's
  // ---------------------------------------------------------------------

  /** All fragments of session `e` in `net` are pieces of `journal`. */
  ghost predicate AllPieces(net: set<LinkProtocol>, e: Epoch, journal: seq<Payload>) {
    forall x :: x in net && x.MsgSlice? && x.msgEpoch == e ==> PieceOf(Calls(x)[0], journal)
  }

  lemma SentArePieces(acts: seq<Act>, atA: bool, e: Epoch)
    requires e < MAX_EPOCH
    ensures var s := View(acts, atA); AllPieces(s.ba, e, Inserted(s.b, e))
  {
    Reachable(false, acts);
    var s := View(acts, atA);
    forall x | x in s.ba && x.MsgSlice? && x.msgEpoch == e ensures PieceOf(Calls(x)[0], Inserted(s.b, e)) {
      assert Genuine(PeerOf(s.b), x);
    }
  }

  lemma {:induction false} OpsArePieces(
    acts: seq<Act>, atA: bool, e: Epoch, net: set<LinkProtocol>, journal: seq<Payload>, j: nat)
    requires View(acts, atA).ba <= net && AllPieces(net, e, journal) && j < |OpsOf(acts, atA, e)|
    ensures PieceOf(OpsOf(acts, atA, e)[j], journal)
  {
    var n := |acts| - 1;
    var before := OpsOf(acts[..n], atA, e);
    NetworkGrows(acts, n);
    if j < |before| {
      OpsArePieces(acts[..n], atA, e, net, journal, j);
      assert OpsOf(acts, atA, e)[j] == before[j];
    } else {
      var x := acts[n].input.msg;
      assert x in net;
      assert OpsOf(acts, atA, e)[j] == Calls(x)[j - |before|];
    }
  }

  // ---------------------------------------------------------------------
  // Theorem
  // ---------------------------------------------------------------------

  /** The bytes of session `e`, as (message, index), that came to an endpoint while it still wanted them. */
  ghost function Came(acts: seq<Act>, atA: bool, e: Epoch): iset<(nat, int)> {
    Seen(e, OpsOf(acts, atA, e))
  }

  /** No byte of the first `n` messages that did not come is other than zero. */
  ghost predicate MissedAreZero(want: seq<Payload>, n: nat, came: iset<(nat, int)>)
    requires n <= |want|
  {
    forall q: nat, i: nat :: q < n && i < |want[q]| && (q, i) !in came ==> want[q][i] == 0
  }

  lemma PrefixIff(got: seq<Payload>, want: seq<Payload>, came: iset<(nat, int)>)
    requires OutExact(want, came, got)
    ensures got <= want <==> MissedAreZero(want, |got|, came)
  {
    if MissedAreZero(want, |got|, came) {
      forall q: nat | q < |got| ensures got[q] == want[q] {
        ExactIff(got[q], want[q], q, came);
      }
    }
    if got <= want {
      forall q: nat, i: nat | q < |got| && i < |want[q]| && (q, i) !in came ensures want[q][i] == 0 {
        ExactIff(got[q], want[q], q, came);
      }
    }
  }

  /**
   On every run: the payloads an endpoint hands out in session `e` are, in order and
   one for one, those its peer inserted, with zeros for the bytes that did not come
   in time. So they are a prefix of what was inserted if and only if those bytes are
   zero anyway.
   */
  lemma ExactDeliveryIff(acts: seq<Act>, atA: bool, e: Epoch)
    requires e < MAX_EPOCH
    ensures var s := View(acts, atA); var got, want, came := HandedOut(s.a, e), Inserted(s.b, e), Came(acts, atA, e);
      && |got| <= |want|
      && (forall q: nat :: q < |got| ==> Filled(got[q], want[q], q, came))
      && (got <= want <==> MissedAreZero(want, |got|, came))
  {
    var s := View(acts, atA);
    var ops, want := OpsOf(acts, atA, e), Inserted(s.b, e);
    RunTied(acts, atA, e);
    SentArePieces(acts, atA, e);
    forall k | 0 <= k < |ops| ensures PieceOf(ops[k], want) {
      OpsArePieces(acts, atA, e, s.ba, want, k);
    }
    RunExact(e, ops, want);
    PrefixIff(HandedOut(s.a, e), want, Came(acts, atA, e));
  }
}
