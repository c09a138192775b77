/** The value of a message manager: the sliding window of one session. */
module Messages {
  import opened Prelude
  import opened Epochs
  import opened Intervals
  import opened Slices

  datatype Msgs = Msgs(
    epoch: Epoch,
    outgoing: map<nat, Slice>,
    nextSeq: nat,
    incoming: map<nat, Slice>,
    lastAck: (nat, nat))

  function NewMsgs(epoch: Epoch): Msgs {
    Msgs(epoch, map[], 0, map[], (0, 0))
  }

  // ---------------------------------------------------------------------
  // Sending
  // ---------------------------------------------------------------------

  function InsertMsg(m: Msgs, data: Payload): Msgs {
    m.(outgoing := m.outgoing[m.nextSeq := FromVec(m.epoch, m.nextSeq, data)], nextSeq := m.nextSeq + 1)
  }

  function InsertAll(m: Msgs, msgs: seq<Payload>): Msgs {
    if msgs == [] then m else InsertMsg(InsertAll(m, msgs[..|msgs| - 1]), msgs[|msgs| - 1])
  }

  function RecvAck(m: Msgs, ack: (nat, nat)): Msgs {
    var kept := map q | q in m.outgoing && ack.0 <= q :: m.outgoing[q];
    if ack.0 !in kept then m.(outgoing := kept)
    else
      var s := AckSlice(kept[ack.0], m.epoch, ack.0, ack.1);
      if IsEmpty(s) then m.(outgoing := map q | q in kept && q != ack.0 :: kept[q])
      else m.(outgoing := kept[ack.0 := s])
  }

  // ---------------------------------------------------------------------
  // Receiving
  // ---------------------------------------------------------------------

  predicate RecvInRange(m: Msgs, seqNo: nat, first: nat, seqLen: nat) {
    m.lastAck.0 < seqNo || (m.lastAck.0 == seqNo && m.lastAck.1 < first + seqLen)
  }

  function HeadOr0(s: Slice): nat {
    match LastHeadIndex(s) case None => 0 case Some(i) => i
  }

  /** Move the ack frontier as far as the held messages allow. */
  function Advance(incoming: map<nat, Slice>, ack: (nat, nat)): (nat, nat)
    decreases |KeysFrom(incoming, ack.0)|
  {
    if ack.0 !in incoming then ack
    else if IsFull(incoming[ack.0]) then
      KeysFromShrinks(incoming, ack.0);
      Advance(incoming, (ack.0 + 1, 0))
    else (ack.0, HeadOr0(incoming[ack.0]))
  }

  lemma KeysFromShrinks<V>(m: map<nat, V>, c: nat)
    requires c in m
    ensures |KeysFrom(m, c + 1)| < |KeysFrom(m, c)|
  {
    assert c in KeysFrom(m, c);
    SubsetSize(KeysFrom(m, c + 1), KeysFrom(m, c) - {c});
  }

  /** The manager for `seqNo`, made on first use. */
  function Entry(m: Msgs, seqNo: nat, seqLen: nat): Slice {
    if seqNo in m.incoming then m.incoming[seqNo] else NewSlice(m.epoch, seqNo, seqLen)
  }

  /** A fragment that is not wanted, or that can be recorded without an arithmetic underflow. */
  predicate Takes(m: Msgs, seqNo: nat, first: nat, seqLen: nat, data: Payload) {
    RecvInRange(m, seqNo, first, seqLen) ==> 0 < first + |data| && Entry(m, seqNo, seqLen).data != []
  }

  /** The incoming messages once a fragment has been recorded. */
  function Recorded(m: Msgs, seqNo: nat, first: nat, seqLen: nat, data: Payload): map<nat, Slice>
    requires 0 < first + |data| && Entry(m, seqNo, seqLen).data != []
  {
    m.incoming[seqNo := RecvSlice(Entry(m, seqNo, seqLen), m.epoch, seqNo, first, data)]
  }

  /** What the caller of `Recv` is told: whether to send an ack. */
  function ShouldAck(m: Msgs, seqNo: nat, first: nat, seqLen: nat, data: Payload): bool
    requires Takes(m, seqNo, first, seqLen, data)
  {
    if !RecvInRange(m, seqNo, first, seqLen) then true
    else if m.lastAck.0 < seqNo then false
    else
      var s := Recorded(m, seqNo, first, seqLen, data)[seqNo];
      IsFull(s) || m.lastAck == (seqNo, HeadOr0(s))
  }

  function Recv(m: Msgs, seqNo: nat, first: nat, seqLen: nat, data: Payload): Msgs
    requires Takes(m, seqNo, first, seqLen, data)
  {
    if !RecvInRange(m, seqNo, first, seqLen) then m
    else
      var incoming := Recorded(m, seqNo, first, seqLen, data);
      if m.lastAck.0 < seqNo then m.(incoming := incoming)
      else m.(incoming := incoming, lastAck := Advance(incoming, m.lastAck))
  }

  /**
   An ack is due for a fragment at or below the frontier, unless the frontier moved
   inside a message, which is when it did move but completed nothing.
   */
  lemma AckDueIff(m: Msgs, seqNo: nat, first: nat, seqLen: nat, data: Payload)
    requires Takes(m, seqNo, first, seqLen, data)
    ensures var before, after := m.lastAck, Recv(m, seqNo, first, seqLen, data).lastAck;
      ShouldAck(m, seqNo, first, seqLen, data) <==> seqNo <= before.0 && (before.0 < after.0 || before == after)
  {
    if RecvInRange(m, seqNo, first, seqLen) && seqNo == m.lastAck.0 {
      var incoming := Recorded(m, seqNo, first, seqLen, data);
      if IsFull(incoming[seqNo]) {
        AdvanceOn(incoming, (seqNo + 1, 0));
      }
    }
  }

  lemma {:induction false} AdvanceOn(incoming: map<nat, Slice>, ack: (nat, nat))
    ensures ack.0 <= Advance(incoming, ack).0
    decreases |KeysFrom(incoming, ack.0)|
  {
    if ack.0 in incoming && IsFull(incoming[ack.0]) {
      KeysFromShrinks(incoming, ack.0);
      AdvanceOn(incoming, (ack.0 + 1, 0));
    }
  }

  /** The held messages below `limit`, from sequence number `c` on. */
  function Collect(incoming: map<nat, Slice>, c: nat, limit: nat): seq<Payload>
    decreases |KeysFrom(incoming, c)|
  {
    match NextKey(incoming, c)
    case None => []
    case Some(k) =>
      if limit <= k then []
      else
        assert k in KeysFrom(incoming, c) && KeysFrom(incoming, k + 1) <= KeysFrom(incoming, c) - {k};
        SubsetSize(KeysFrom(incoming, k + 1), KeysFrom(incoming, c) - {k});
        [incoming[k].data] + Collect(incoming, k + 1, limit)
  }

  function Taken(m: Msgs): seq<Payload> {
    Collect(m.incoming, 0, m.lastAck.0)
  }

  function AfterTake(m: Msgs): Msgs {
    m.(incoming := map q | q in m.incoming && m.lastAck.0 <= q :: m.incoming[q])
  }

  // ---------------------------------------------------------------------
  // The ack frontier
  // ---------------------------------------------------------------------

  ghost predicate Held(s: Slice, epoch: Epoch, seqNo: nat) {
    WellFormed(s) && s.data != [] && s.epoch == epoch && s.seqNo == seqNo
  }

  /**
   The cached frontier agrees with its definition: the held messages below it are
   full and are exactly the ones not yet handed out (`taken` were handed out); the
   one at it is absent, or partial with `lastAck.1` the end of its head run.
   */
  ghost predicate Frontier(m: Msgs, taken: nat) {
    && taken <= m.lastAck.0
    && (forall q :: q in m.incoming ==> taken <= q && Held(m.incoming[q], m.epoch, q))
    && (forall q :: taken <= q < m.lastAck.0 ==> q in m.incoming && IsFull(m.incoming[q]))
    && AtFrontier(m.incoming, m.lastAck)
  }

  ghost predicate AtFrontier(incoming: map<nat, Slice>, ack: (nat, nat)) {
    if ack.0 in incoming then !IsFull(incoming[ack.0]) && ack.1 == HeadOr0(incoming[ack.0])
    else ack.1 == 0
  }

  lemma HeadMeaning(s: Slice)
    ensures LastHeadIndex(s) == if 0 in s.runs then Some(s.runs[0]) else None
    ensures HeadOr0(s) == if 0 in s.runs then s.runs[0] else 0
  {
  }

  /** On a partial message the head run stops short of the last byte. */
  lemma HeadBelowEnd(s: Slice)
    requires WellFormed(s) && s.data != [] && !IsFull(s)
    ensures HeadOr0(s) < |s.data|
    ensures 0 in s.runs ==> HeadOr0(s) + 1 < |s.data|
  {
    HeadMeaning(s);
    assert 0 in s.runs && s.runs[0] + 1 == |s.data| ==> s.runs.Keys == {0};
  }

  /** A fragment that states the right length is wanted exactly until its message is complete. */
  lemma WantedIff(m: Msgs, seqNo: nat, first: nat, seqLen: nat)
    requires Frontier(m, m.lastAck.0) && 0 < seqLen && |Entry(m, seqNo, seqLen).data| == seqLen
    ensures RecvInRange(m, seqNo, first, seqLen) <==> m.lastAck.0 <= seqNo
  {
    if seqNo == m.lastAck.0 && seqNo in m.incoming {
      HeadBelowEnd(m.incoming[seqNo]);
    }
  }

  /** A fragment, genuine or not, keeps what was recorded. */
  lemma RecvSliceGrows(s: Slice, epoch: Epoch, seqNo: nat, first: nat, frag: Payload)
    requires WellFormed(s) && s.data != [] && 0 < first + |frag|
    ensures var r := RecvSlice(s, epoch, seqNo, first, frag);
      WellFormed(r) && forall i :: Covers(s.runs, i) ==> Covers(r.runs, i)
  {
    var last := LastIndex(s, first, frag);
    if epoch == s.epoch && seqNo == s.seqNo && first <= last {
      AddNormalForm(s.runs, |s.data|, first, last);
      forall i | Covers(s.runs, i) ensures Covers(Add(s.runs, first, last), i) {
        AddCovers(s.runs, |s.data|, first, last, i);
      }
    }
  }

  lemma HeadGrows(s: Slice, r: Slice)
    requires WellFormed(s) && WellFormed(r)
    requires forall i :: Covers(s.runs, i) ==> Covers(r.runs, i)
    ensures HeadOr0(s) <= HeadOr0(r)
  {
    HeadMeaning(s);
    HeadMeaning(r);
    if 0 in s.runs {
      assert Covers(s.runs, 0);
      assert 0 in r.runs;
      assert Covers(s.runs, Min(r.runs[0] + 1, s.runs[0]));
    }
  }

  lemma {:induction false} AdvanceMeaning(incoming: map<nat, Slice>, ack: (nat, nat))
    ensures var r := Advance(incoming, ack);
      && ack.0 <= r.0
      && (forall q :: ack.0 <= q < r.0 ==> q in incoming && IsFull(incoming[q]))
      && (r.0 in incoming ==> !IsFull(incoming[r.0]) && r.1 == HeadOr0(incoming[r.0]))
      && (r.0 !in incoming ==> r == ack || r.1 == 0)
    decreases |KeysFrom(incoming, ack.0)|
  {
    if ack.0 in incoming && IsFull(incoming[ack.0]) {
      KeysFromShrinks(incoming, ack.0);
      AdvanceMeaning(incoming, (ack.0 + 1, 0));
    }
  }

  /** Recording a fragment past the frontier. */
  lemma RecordBeyond(m: Msgs, taken: nat, seqNo: nat, s: Slice)
    requires Frontier(m, taken) && m.lastAck.0 < seqNo && Held(s, m.epoch, seqNo)
    ensures Frontier(m.(incoming := m.incoming[seqNo := s]), taken)
  {
  }

  /** Recording a fragment of the message at the frontier, and moving the frontier. */
  lemma RecordAt(m: Msgs, taken: nat, s: Slice)
    requires Frontier(m, taken) && Held(s, m.epoch, m.lastAck.0)
    requires m.lastAck.1 <= HeadOr0(s)
    ensures var incoming := m.incoming[m.lastAck.0 := s]; var r := Advance(incoming, m.lastAck);
      Frontier(m.(incoming := incoming, lastAck := r), taken) && AckLeq(m.lastAck, r)
  {
    AdvanceMeaning(m.incoming[m.lastAck.0 := s], m.lastAck);
  }

  /** Every fragment keeps the frontier right, and the frontier never moves back. */
  lemma RecvKeepsFrontier(m: Msgs, taken: nat, seqNo: nat, first: nat, seqLen: nat, data: Payload)
    requires Frontier(m, taken) && Takes(m, seqNo, first, seqLen, data)
    ensures var r := Recv(m, seqNo, first, seqLen, data);
      Frontier(r, taken) && AckLeq(m.lastAck, r.lastAck)
  {
    var e := Entry(m, seqNo, seqLen);
    if RecvInRange(m, seqNo, first, seqLen) {
      assert Held(e, m.epoch, seqNo);
      RecvSliceGrows(e, m.epoch, seqNo, first, data);
      var s := RecvSlice(e, m.epoch, seqNo, first, data);
      if m.lastAck.0 < seqNo {
        RecordBeyond(m, taken, seqNo, s);
      } else {
        HeadGrows(e, s);
        RecordAt(m, taken, s);
      }
    }
  }

  lemma {:induction false} CollectMeaning(incoming: map<nat, Slice>, c: nat, limit: nat)
    requires forall q :: c <= q < limit ==> q in incoming
    ensures c <= limit ==> |Collect(incoming, c, limit)| == limit - c
    ensures limit <= c ==> Collect(incoming, c, limit) == []
    ensures forall q :: c <= q < limit ==> Collect(incoming, c, limit)[q - c] == incoming[q].data
    decreases |KeysFrom(incoming, c)|
  {
    if c < limit {
      NextKeyIs(incoming, c, c);
      KeysFromShrinks(incoming, c);
      CollectMeaning(incoming, c + 1, limit);
    }
  }

  lemma {:induction false} CollectSkips(incoming: map<nat, Slice>, c: nat, d: nat, limit: nat)
    requires c <= d && forall q :: q in incoming ==> q < c || d <= q
    ensures Collect(incoming, c, limit) == Collect(incoming, d, limit)
  {
    assert NextKey(incoming, c) == NextKey(incoming, d);
  }

  lemma TakenIs(m: Msgs, taken: nat)
    requires taken <= m.lastAck.0
    requires forall q :: q in m.incoming ==> taken <= q
    requires forall q :: taken <= q < m.lastAck.0 ==> q in m.incoming
    ensures |Taken(m)| == m.lastAck.0 - taken
    ensures forall q :: taken <= q < m.lastAck.0 ==> Taken(m)[q - taken] == m.incoming[q].data
  {
    CollectSkips(m.incoming, 0, taken, m.lastAck.0);
    CollectMeaning(m.incoming, taken, m.lastAck.0);
  }

  lemma AfterTakeFrontier(m: Msgs, taken: nat)
    requires Frontier(m, taken)
    ensures Frontier(AfterTake(m), m.lastAck.0) && AfterTake(m).lastAck == m.lastAck
  {
  }

  /** Taking hands out exactly the messages `taken .. lastAck.0`, in order, each full. */
  lemma TakeKeepsFrontier(m: Msgs, taken: nat)
    requires Frontier(m, taken)
    ensures |Taken(m)| == m.lastAck.0 - taken
    ensures forall q :: taken <= q < m.lastAck.0 ==> q in m.incoming && Taken(m)[q - taken] == m.incoming[q].data
    ensures Frontier(AfterTake(m), m.lastAck.0)
    ensures AfterTake(m).lastAck == m.lastAck
  {
    AfterTakeFrontier(m, taken);
    TakenIs(m, taken);
  }

  /** A fragment and the hand-out after it, as every session state does them. */
  lemma RecvAndTake(m: Msgs, seqNo: nat, first: nat, seqLen: nat, data: Payload)
    requires Frontier(m, m.lastAck.0) && Takes(m, seqNo, first, seqLen, data)
    ensures var r := AfterTake(Recv(m, seqNo, first, seqLen, data));
      && Frontier(r, r.lastAck.0) && AckLeq(m.lastAck, r.lastAck)
      && r.outgoing == m.outgoing && r.nextSeq == m.nextSeq && r.epoch == m.epoch
  {
    RecvKeepsFrontier(m, m.lastAck.0, seqNo, first, seqLen, data);
    var r := Recv(m, seqNo, first, seqLen, data);
    assert r.outgoing == m.outgoing && r.nextSeq == m.nextSeq && r.epoch == m.epoch;
    TakeKeepsFrontier(r, m.lastAck.0);
  }

  // ---------------------------------------------------------------------
  // Whole runs of one receiving manager
  // ---------------------------------------------------------------------

  datatype Op = RecvOp(seqNo: nat, first: nat, seqLen: nat, data: Payload) | TakeOp

  /** The manager and all it has handed out, after one more call. A fragment it cannot take is passed over. */
  function Called(m: Msgs, out: seq<Payload>, op: Op): (Msgs, seq<Payload>) {
    match op
    case RecvOp(q, first, len, data) =>
      if Takes(m, q, first, len, data) then (Recv(m, q, first, len, data), out) else (m, out)
    case TakeOp => (AfterTake(m), out + Taken(m))
  }

  lemma CalledKeepsFrontier(m: Msgs, out: seq<Payload>, op: Op)
    requires Frontier(m, |out|)
    ensures var (r, all) := Called(m, out, op); Frontier(r, |all|) && AckLeq(m.lastAck, r.lastAck) && out <= all
  {
    match op
    case RecvOp(q, first, len, data) =>
      if Takes(m, q, first, len, data) {
        RecvKeepsFrontier(m, |out|, q, first, len, data);
      }
    case TakeOp =>
      TakeKeepsFrontier(m, |out|);
  }

  /** The manager and everything it has handed out, after a list of calls. */
  ghost function RunOps(epoch: Epoch, ops: seq<Op>): (r: (Msgs, seq<Payload>))
    ensures Frontier(r.0, |r.1|)
  {
    if ops == [] then (NewMsgs(epoch), [])
    else
      var (m, out) := RunOps(epoch, ops[..|ops| - 1]);
      CalledKeepsFrontier(m, out, ops[|ops| - 1]);
      Called(m, out, ops[|ops| - 1])
  }

  /** Along any run of calls the frontier never moves back and nothing handed out is withdrawn. */
  lemma {:induction false} FrontierMonotone(epoch: Epoch, ops: seq<Op>, k: nat)
    requires k <= |ops|
    ensures var early, late := RunOps(epoch, ops[..k]), RunOps(epoch, ops);
      AckLeq(early.0.lastAck, late.0.lastAck) && early.1 <= late.1
  {
    var n := |ops| - 1;
    if k == |ops| {
      assert ops[..k] == ops;
    } else {
      var init := ops[..n];
      assert init[..k] == ops[..k];
      FrontierMonotone(epoch, init, k);
      var (m, out) := RunOps(epoch, init);
      CalledKeepsFrontier(m, out, ops[n]);
    }
  }
}
