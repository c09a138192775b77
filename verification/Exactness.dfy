/**
 What a receiving manager hands out, byte for byte, whatever genuine fragments it
 was given in whatever order: the bytes that reached it in time, and zeros for
 the others.
 */
module Exactness {
  import opened Prelude
  import opened Epochs
  import opened Slices
  import opened Reassembly
  import opened Messages

  /** A fragment is a piece of a message in `journal`. */
  predicate PieceOf(op: Op, journal: seq<Payload>) {
    op.RecvOp? ==>
      && op.seqNo < |journal| && op.seqLen == |journal[op.seqNo]|
      && IsFragment(journal[op.seqNo], op.first, op.data)
  }

  /** The call brings byte `i` of message `q`, and the manager still wants it. */
  predicate Brings(m: Msgs, op: Op, q: nat, i: int) {
    op.RecvOp? && op.seqNo == q && op.first <= i < op.first + |op.data| && RecvInRange(m, q, op.first, op.seqLen)
  }

  /** The bytes, as (message, index), that reached the manager in time. */
  ghost function Seen(epoch: Epoch, ops: seq<Op>): iset<(nat, int)>
  {
    if ops == [] then iset{}
    else
      var n := |ops| - 1;
      More(Seen(epoch, ops[..n]), RunOps(epoch, ops[..n]).0, ops[n])
  }

  ghost function More(seen: iset<(nat, int)>, m: Msgs, op: Op): iset<(nat, int)> {
    iset q: nat, i: int | (q, i) in seen || Brings(m, op, q, i) :: (q, i)
  }

  /** `got` is `want` on the seen bytes and zero on the others. */
  ghost predicate Filled(got: Payload, want: Payload, q: nat, seen: iset<(nat, int)>) {
    |got| == |want| && forall i :: 0 <= i < |got| ==> got[i] == if (q, i) in seen then want[i] else 0
  }

  ghost predicate HeldExact(journal: seq<Payload>, seen: iset<(nat, int)>, incoming: map<nat, Slice>) {
    forall q :: q in incoming ==> q < |journal| && Filled(incoming[q].data, journal[q], q, seen)
  }

  ghost predicate OutExact(journal: seq<Payload>, seen: iset<(nat, int)>, out: seq<Payload>) {
    |out| <= |journal| && forall q: nat :: q < |out| ==> Filled(out[q], journal[q], q, seen)
  }

  /** Nothing was seen of the messages neither held nor handed out. */
  ghost predicate RestUnseen(seen: iset<(nat, int)>, incoming: map<nat, Slice>, taken: nat) {
    forall q: nat, i: int :: taken <= q && q !in incoming ==> (q, i) !in seen
  }

  // ---------------------------------------------------------------------
  // One fragment
  // ---------------------------------------------------------------------

  lemma FilledMore(s: Slice, want: Payload, seen: iset<(nat, int)>, m: Msgs, x: Op, last: nat)
    requires x.RecvOp? && RecvInRange(m, x.seqNo, x.first, x.seqLen) && IsFragment(want, x.first, x.data)
    requires last == x.first + |x.data| - 1 && Filled(s.data, want, x.seqNo, seen)
    ensures Filled(RecvSlice(s, s.epoch, s.seqNo, x.first, x.data).data, want, x.seqNo, More(seen, m, x))
  {
    RecvSliceData(s, want, x.first, last, x.data);
  }

  lemma FilledStill(got: Payload, want: Payload, q: nat, seen: iset<(nat, int)>, m: Msgs, x: Op)
    requires Filled(got, want, q, seen) && !(x.RecvOp? && x.seqNo == q && RecvInRange(m, q, x.first, x.seqLen))
    ensures Filled(got, want, q, More(seen, m, x))
  {
  }

  lemma RecvHeld(journal: seq<Payload>, seen: iset<(nat, int)>, m: Msgs, taken: nat, x: Op, q: nat)
    requires Frontier(m, taken) && x.RecvOp? && PieceOf(x, journal) && Takes(m, x.seqNo, x.first, x.seqLen, x.data)
    requires HeldExact(journal, seen, m.incoming) && RestUnseen(seen, m.incoming, taken)
    requires q in Recv(m, x.seqNo, x.first, x.seqLen, x.data).incoming
    ensures q < |journal|
    ensures Filled(Recv(m, x.seqNo, x.first, x.seqLen, x.data).incoming[q].data, journal[q], q, More(seen, m, x))
  {
    if q == x.seqNo && RecvInRange(m, x.seqNo, x.first, x.seqLen) {
      var e := Entry(m, q, x.seqLen);
      assert Filled(e.data, journal[q], q, seen);
      assert e.epoch == m.epoch && e.seqNo == q;
      FilledMore(e, journal[q], seen, m, x, x.first + |x.data| - 1);
    } else {
      FilledStill(m.incoming[q].data, journal[q], q, seen, m, x);
    }
  }

  lemma RecvExact(journal: seq<Payload>, seen: iset<(nat, int)>, m: Msgs, out: seq<Payload>, x: Op)
    requires Frontier(m, |out|) && x.RecvOp? && PieceOf(x, journal) && Takes(m, x.seqNo, x.first, x.seqLen, x.data)
    requires HeldExact(journal, seen, m.incoming) && OutExact(journal, seen, out) && RestUnseen(seen, m.incoming, |out|)
    ensures var r := Recv(m, x.seqNo, x.first, x.seqLen, x.data); var now := More(seen, m, x);
      HeldExact(journal, now, r.incoming) && OutExact(journal, now, out) && RestUnseen(now, r.incoming, |out|)
  {
    var r := Recv(m, x.seqNo, x.first, x.seqLen, x.data);
    var now := More(seen, m, x);
    forall q | q in r.incoming ensures q < |journal| && Filled(r.incoming[q].data, journal[q], q, now) {
      RecvHeld(journal, seen, m, |out|, x, q);
    }
    forall q: nat | q < |out| ensures Filled(out[q], journal[q], q, now) {
      FilledStill(out[q], journal[q], q, seen, m, x);
    }
  }

  // ---------------------------------------------------------------------
  // Handing out
  // ---------------------------------------------------------------------

  lemma TakenAt(m: Msgs, out: seq<Payload>, q: nat)
    requires Frontier(m, |out|) && q < |out + Taken(m)|
    ensures |out| <= q ==> q in m.incoming
    ensures (out + Taken(m))[q] == if q < |out| then out[q] else m.incoming[q].data
  {
    TakeKeepsFrontier(m, |out|);
  }

  lemma TakenFilled(journal: seq<Payload>, seen: iset<(nat, int)>, m: Msgs, out: seq<Payload>, q: nat)
    requires Frontier(m, |out|) && HeldExact(journal, seen, m.incoming) && OutExact(journal, seen, out)
    requires q < |out + Taken(m)|
    ensures q < |journal| && Filled((out + Taken(m))[q], journal[q], q, More(seen, m, TakeOp))
  {
    TakenAt(m, out, q);
    FilledStill((out + Taken(m))[q], journal[q], q, seen, m, TakeOp);
  }

  lemma TakeExact(journal: seq<Payload>, seen: iset<(nat, int)>, m: Msgs, out: seq<Payload>)
    requires Frontier(m, |out|)
    requires HeldExact(journal, seen, m.incoming) && OutExact(journal, seen, out) && RestUnseen(seen, m.incoming, |out|)
    ensures var all := out + Taken(m); var now := More(seen, m, TakeOp);
      && HeldExact(journal, now, AfterTake(m).incoming) && OutExact(journal, now, all)
      && RestUnseen(now, AfterTake(m).incoming, |all|)
  {
    var all := out + Taken(m);
    var now := More(seen, m, TakeOp);
    forall q: nat | q < |all| ensures q < |journal| && Filled(all[q], journal[q], q, now) {
      TakenFilled(journal, seen, m, out, q);
    }
    if all != [] {
      TakenFilled(journal, seen, m, out, |all| - 1);
    }
    forall q | q in AfterTake(m).incoming ensures q < |journal| && Filled(m.incoming[q].data, journal[q], q, now) {
      FilledStill(m.incoming[q].data, journal[q], q, seen, m, TakeOp);
    }
    UnseenAfterTake(seen, m, |out|);
    TakeKeepsFrontier(m, |out|);
  }

  lemma UnseenAfterTake(seen: iset<(nat, int)>, m: Msgs, taken: nat)
    requires Frontier(m, taken) && RestUnseen(seen, m.incoming, taken)
    ensures RestUnseen(More(seen, m, TakeOp), AfterTake(m).incoming, m.lastAck.0)
  {
  }

  // ---------------------------------------------------------------------
  // Whole runs
  // ---------------------------------------------------------------------

  lemma {:induction false} RunExact(epoch: Epoch, ops: seq<Op>, journal: seq<Payload>)
    requires forall k :: 0 <= k < |ops| ==> PieceOf(ops[k], journal)
    ensures var (m, out) := RunOps(epoch, ops); var seen := Seen(epoch, ops);
      HeldExact(journal, seen, m.incoming) && OutExact(journal, seen, out) && RestUnseen(seen, m.incoming, |out|)
  {
    if ops != [] {
      var n := |ops| - 1;
      RunExact(epoch, ops[..n], journal);
      var (m, out) := RunOps(epoch, ops[..n]);
      var seen, x := Seen(epoch, ops[..n]), ops[n];
      assert PieceOf(x, journal);
      match x
      case RecvOp(q, first, len, data) =>
        RecvKeepsFrontier(m, |out|, q, first, len, data);
        RecvExact(journal, seen, m, out, x);
      case TakeOp =>
        TakeExact(journal, seen, m, out);
    }
  }

  /**
   Every handed-out payload is known byte for byte, and it is the message exactly
   if the bytes that did not reach the manager in time are zero in it anyway.
   */
  lemma PayloadExactIff(epoch: Epoch, ops: seq<Op>, journal: seq<Payload>, q: nat)
    requires forall k :: 0 <= k < |ops| ==> PieceOf(ops[k], journal)
    requires q < |RunOps(epoch, ops).1|
    ensures q < |journal| && Filled(RunOps(epoch, ops).1[q], journal[q], q, Seen(epoch, ops))
    ensures RunOps(epoch, ops).1[q] == journal[q] <==>
      forall i :: 0 <= i < |journal[q]| && (q, i) !in Seen(epoch, ops) ==> journal[q][i] == 0
  {
    RunExact(epoch, ops, journal);
    ExactIff(RunOps(epoch, ops).1[q], journal[q], q, Seen(epoch, ops));
  }

  lemma ExactIff(got: Payload, want: Payload, q: nat, seen: iset<(nat, int)>)
    requires Filled(got, want, q, seen)
    ensures got == want <==> forall i :: 0 <= i < |want| && (q, i) !in seen ==> want[i] == 0
  {
    if forall i :: 0 <= i < |want| && (q, i) !in seen ==> want[i] == 0 {
      assert forall i :: 0 <= i < |want| ==> got[i] == want[i];
    }
  }
}
