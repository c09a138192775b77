/**
 One direction of a session, seen from both managers: `journal` lists the
 payloads the sender inserted, the sender's manager holds the unacknowledged
 ones, the receiver's manager reassembles them.
 */
module Delivery {
  import opened Prelude
  import opened Epochs
  import opened Protocol
  import opened Intervals
  import opened Slices
  import opened Reassembly
  import opened Messages

  // ---------------------------------------------------------------------
  // The receiver
  // ---------------------------------------------------------------------

  /**
   A message under reassembly. Every byte is right or still zero; on a clean run
   (no fragment ever met a gap) every recorded byte is right.
   */
  ghost predicate Partial(clean: bool, s: Slice, want: Payload) {
    && |s.data| == |want|
    && (forall i :: 0 <= i < |want| ==> s.data[i] == want[i] || s.data[i] == 0)
    && (clean ==> forall i :: 0 <= i < |want| && Covers(s.runs, i) ==> s.data[i] == want[i])
  }

  /** A delivered payload: exact on a clean run, otherwise exact up to zeroed bytes. */
  predicate Matches(clean: bool, got: Payload, want: Payload) {
    && want != [] && |got| == |want|
    && (forall i :: 0 <= i < |want| ==> got[i] == want[i] || (!clean && got[i] == 0))
  }

  /** `got` matches the payloads of `want` from position `at` on. */
  predicate MatchesFrom(clean: bool, got: seq<Payload>, want: seq<Payload>, at: nat) {
    at + |got| <= |want| && forall i :: 0 <= i < |got| ==> Matches(clean, got[i], want[at + i])
  }

  lemma MatchesAppend(clean: bool, a: seq<Payload>, b: seq<Payload>, want: seq<Payload>)
    requires MatchesFrom(clean, a, want, 0) && MatchesFrom(clean, b, want, |a|)
    ensures MatchesFrom(clean, a + b, want, 0)
  {
    forall i | 0 <= i < |a + b| ensures Matches(clean, (a + b)[i], want[0 + i]) {
      if i < |a| {
        assert Matches(clean, a[i], want[0 + i]);
      } else {
        assert Matches(clean, b[i - |a|], want[|a| + (i - |a|)]);
      }
    }
  }

  lemma MatchesGrows(clean: bool, got: seq<Payload>, a: seq<Payload>, b: seq<Payload>, at: nat)
    requires MatchesFrom(clean, got, a, at) && a <= b
    ensures MatchesFrom(clean, got, b, at)
  {
    forall i | 0 <= i < |got| ensures Matches(clean, got[i], b[at + i]) {
      assert Matches(clean, got[i], a[at + i]);
    }
  }

  ghost predicate ReceiverOk(clean: bool, m: Msgs, journal: seq<Payload>) {
    && m.lastAck.0 <= |journal|
    && (forall q :: q in m.incoming ==> q < |journal| && Partial(clean, m.incoming[q], journal[q]))
  }

  /** The fragment does not leave a gap before the run it would absorb. */
  predicate CleanArrival(m: Msgs, x: LinkProtocol)
    requires x.MsgSlice?
  {
    RecvInRange(m, x.seqNo, x.firstIndex, x.seqLen) && x.data != [] ==>
      NoGap(Entry(m, x.seqNo, x.seqLen).runs, x.firstIndex, x.firstIndex + |x.data| - 1)
  }

  lemma FreshPartial(clean: bool, epoch: Epoch, seqNo: nat, want: Payload)
    ensures Partial(clean, NewSlice(epoch, seqNo, |want|), want)
  {
  }

  lemma PartialRecv(clean: bool, s: Slice, want: Payload, first: nat, last: nat, frag: Payload)
    requires WellFormed(s) && Partial(clean, s, want) && IsFragment(want, first, frag) && last == first + |frag| - 1
    requires clean ==> NoGap(s.runs, first, last)
    ensures Partial(clean, RecvSlice(s, s.epoch, s.seqNo, first, frag), want)
  {
    RecvSliceData(s, want, first, last, frag);
    PartialWrite(clean, s, RecvSlice(s, s.epoch, s.seqNo, first, frag), want, first, last);
  }

  lemma PartialWrite(clean: bool, s: Slice, r: Slice, want: Payload, first: nat, last: nat)
    requires WellFormed(s) && Partial(clean, s, want) && first <= last < |want|
    requires clean ==> NoGap(s.runs, first, last)
    requires Overwritten(s, r, want, first, last)
    ensures Partial(clean, r, want)
  {
    if clean {
      forall i | 0 <= i < |want| && Covers(r.runs, i) ensures r.data[i] == want[i] {
        CleanCovers(s.runs, |want|, first, last, i);
      }
    }
  }

  /** Without a gap, nothing but the fragment itself is newly recorded. */
  lemma CleanCovers(m: Runs, n: nat, first: nat, last: nat, i: int)
    requires NormalForm(m, n) && first <= last < n && NoGap(m, first, last)
    ensures Covers(Add(m, first, last), i) <==> Covers(m, i) || first <= i <= last
  {
    AddIsUnionIffNoGap(m, n, first, last);
  }

  lemma FullMatches(clean: bool, s: Slice, want: Payload)
    requires WellFormed(s) && s.data != [] && IsFull(s) && Partial(clean, s, want)
    ensures Matches(clean, s.data, want)
  {
    FullIffCovered(s.runs, |s.data|);
  }

  /** The frontier cannot pass the end of the journal: only journaled messages fill up. */
  lemma FrontierWithinJournal(incoming: map<nat, Slice>, ack: (nat, nat), n: nat)
    requires ack.0 <= n && forall q :: q in incoming ==> q < n
    ensures Advance(incoming, ack).0 <= n
  {
    AdvanceMeaning(incoming, ack);
    var r := Advance(incoming, ack);
    assert ack.0 < r.0 ==> r.0 - 1 in incoming;
  }

  lemma HeldGrows(clean: bool, m: Msgs, journal: seq<Payload>, q: nat, s: Slice)
    requires ReceiverOk(clean, m, journal) && q < |journal| && Partial(clean, s, journal[q])
    ensures var incoming := m.incoming[q := s];
      && ReceiverOk(clean, m.(incoming := incoming), journal)
      && ReceiverOk(clean, m.(incoming := incoming, lastAck := Advance(incoming, m.lastAck)), journal)
  {
    FrontierWithinJournal(m.incoming[q := s], m.lastAck, |journal|);
  }

  /** Recording a genuine fragment keeps the receiver right. */
  lemma ReceiverRecv(clean: bool, m: Msgs, taken: nat, journal: seq<Payload>, x: LinkProtocol)
    requires Frontier(m, taken) && ReceiverOk(clean, m, journal)
    requires x.MsgSlice? && x.seqNo < |journal| && Carries(x, m.epoch, x.seqNo, journal[x.seqNo])
    requires clean ==> CleanArrival(m, x)
    ensures Takes(m, x.seqNo, x.firstIndex, x.seqLen, x.data)
    ensures ReceiverOk(clean, Recv(m, x.seqNo, x.firstIndex, x.seqLen, x.data), journal)
  {
    var q, want := x.seqNo, journal[x.seqNo];
    var e := Entry(m, q, x.seqLen);
    FreshPartial(clean, m.epoch, q, want);
    assert Held(e, m.epoch, q) && Partial(clean, e, want);
    if RecvInRange(m, q, x.firstIndex, x.seqLen) {
      var last := x.firstIndex + |x.data| - 1;
      PartialRecv(clean, e, want, x.firstIndex, last, x.data);
      var s := RecvSlice(e, e.epoch, q, x.firstIndex, x.data);
      assert Recorded(m, q, x.firstIndex, x.seqLen, x.data) == m.incoming[q := s];
      HeldGrows(clean, m, journal, q, s);
    }
  }

  /** Everything handed out matches the journal, position by position. */
  lemma ReceiverTake(clean: bool, m: Msgs, taken: nat, journal: seq<Payload>)
    requires Frontier(m, taken) && ReceiverOk(clean, m, journal)
    ensures |Taken(m)| == m.lastAck.0 - taken
    ensures MatchesFrom(clean, Taken(m), journal, taken)
    ensures ReceiverOk(clean, AfterTake(m), journal)
  {
    TakeKeepsFrontier(m, taken);
    forall i | 0 <= i < |Taken(m)| ensures Matches(clean, Taken(m)[i], journal[taken + i]) {
      var q := taken + i;
      assert q in m.incoming && Held(m.incoming[q], m.epoch, q);
      FullMatches(clean, m.incoming[q], journal[q]);
      assert Taken(m)[q - taken] == m.incoming[q].data;
    }
  }

  // ---------------------------------------------------------------------
  // The sender
  // ---------------------------------------------------------------------

  /** The pending bytes are exactly `[p, |data|)`. */
  predicate SuffixAt(s: Slice, p: nat) {
    p < |s.data| && s.runs == map[p := |s.data| - 1]
  }

  /** An outgoing message: its pending bytes are a suffix, and empty only if it is empty. */
  ghost predicate Pending(s: Slice, epoch: Epoch, seqNo: nat, data: Payload) {
    && s.epoch == epoch && s.seqNo == seqNo && s.data == data
    && (if data == [] then s.runs == map[] else exists p: nat :: SuffixAt(s, p))
  }

  ghost predicate SenderOk(m: Msgs, journal: seq<Payload>) {
    && m.nextSeq == |journal|
    && (forall q :: q in m.outgoing ==> q < |journal| && Pending(m.outgoing[q], m.epoch, q, journal[q]))
  }

  /** All bytes of message `q` that are no longer pending lie below the ack `ack`. */
  ghost predicate KeptMsg(m: Msgs, q: nat, ack: (nat, nat)) {
    if q in m.outgoing then
      forall p: nat :: SuffixAt(m.outgoing[q], p) ==> q < ack.0 || p == 0 || (q == ack.0 && 0 < ack.1 && p <= ack.1 + 1)
    else q < ack.0
  }

  ghost predicate Kept(m: Msgs, journal: seq<Payload>, ack: (nat, nat)) {
    forall q :: 0 <= q < |journal| && journal[q] != [] ==> KeptMsg(m, q, ack)
  }

  lemma SenderInsert(m: Msgs, journal: seq<Payload>, data: Payload, ack: (nat, nat))
    requires SenderOk(m, journal)
    ensures SenderOk(InsertMsg(m, data), journal + [data])
    ensures Kept(m, journal, ack) ==> Kept(InsertMsg(m, data), journal + [data], ack)
  {
    var r := InsertMsg(m, data);
    var s := r.outgoing[m.nextSeq];
    if data != [] {
      assert SuffixAt(s, 0);
      assert forall p: nat :: SuffixAt(s, p) ==> 0 in s.runs && p in s.runs && p == 0;
    }
    if Kept(m, journal, ack) {
      forall q | 0 <= q < |journal + [data]| && (journal + [data])[q] != [] ensures KeptMsg(r, q, ack) {
        if q < |journal| {
          assert KeptMsg(m, q, ack);
        }
      }
    }
  }

  lemma {:induction false} SenderInsertAll(m: Msgs, msgs: seq<Payload>, ack: (nat, nat))
    requires m.outgoing == map[] && m.nextSeq == 0
    ensures var r := InsertAll(m, msgs);
      && SenderOk(r, msgs) && Kept(r, msgs, ack)
      && r.epoch == m.epoch && r.incoming == m.incoming && r.lastAck == m.lastAck
  {
    if msgs != [] {
      var n := |msgs| - 1;
      SenderInsertAll(m, msgs[..n], ack);
      SenderInsert(InsertAll(m, msgs[..n]), msgs[..n], msgs[n], ack);
      assert msgs[..n] + [msgs[n]] == msgs;
    }
  }

  /** What an ack does to the message it names. */
  lemma AckEffect(m: Msgs, journal: seq<Payload>, ack: (nat, nat), p: nat)
    requires SenderOk(m, journal) && ack.0 in m.outgoing && SuffixAt(m.outgoing[ack.0], p)
    ensures var s := AckSlice(m.outgoing[ack.0], m.epoch, ack.0, ack.1); var n := |journal[ack.0]|;
      && s.data == journal[ack.0] && s.epoch == m.epoch && s.seqNo == ack.0
      && (if ack.1 == 0 then s == m.outgoing[ack.0]
          else if n - 1 <= ack.1 then s.runs == map[]
          else SuffixAt(s, ack.1 + 1))
  {
    var s := m.outgoing[ack.0];
    RemoveFromSuffix(s.runs, |s.data|, p, ack.1);
  }

  lemma SuffixUnique(s: Slice, p: nat, q: nat)
    requires SuffixAt(s, p) && SuffixAt(s, q)
    ensures p == q
  {
    assert p in s.runs && q in s.runs;
  }

  lemma SenderAck(m: Msgs, journal: seq<Payload>, ack: (nat, nat))
    requires SenderOk(m, journal)
    ensures SenderOk(RecvAck(m, ack), journal)
  {
    var r := RecvAck(m, ack);
    if ack.0 in m.outgoing && journal[ack.0] != [] {
      var p :| SuffixAt(m.outgoing[ack.0], p);
      AckEffect(m, journal, ack, p);
    }
  }

  /** The message named by an ack that does not run ahead of the receiver's frontier. */
  lemma KeptNamed(m: Msgs, journal: seq<Payload>, ack: (nat, nat), frontier: (nat, nat))
    requires SenderOk(m, journal) && ack.0 in m.outgoing && journal[ack.0] != []
    requires KeptMsg(m, ack.0, frontier) && AckLeq(ack, frontier)
    requires frontier.0 == ack.0 && 0 < frontier.1 ==> frontier.1 + 1 < |journal[ack.0]|
    ensures KeptMsg(RecvAck(m, ack), ack.0, frontier)
  {
    var p :| SuffixAt(m.outgoing[ack.0], p);
    AckEffect(m, journal, ack, p);
    assert p in m.outgoing[ack.0].runs;
    var s := AckSlice(m.outgoing[ack.0], m.epoch, ack.0, ack.1);
    assert SuffixAt(s, ack.1 + 1) ==> ack.1 + 1 in s.runs;
    var r := RecvAck(m, ack);
    if ack.0 in r.outgoing {
      forall p': nat | SuffixAt(r.outgoing[ack.0], p')
        ensures ack.0 < frontier.0 || p' == 0 || (ack.0 == frontier.0 && 0 < frontier.1 && p' <= frontier.1 + 1)
      {
        if ack.1 == 0 {
          assert r.outgoing[ack.0] == m.outgoing[ack.0];
        } else {
          SuffixUnique(r.outgoing[ack.0], p', ack.1 + 1);
        }
      }
    }
  }

  /** An ack at or below the receiver's frontier, however old, discards nothing early. */
  lemma KeptAck(m: Msgs, journal: seq<Payload>, ack: (nat, nat), frontier: (nat, nat))
    requires SenderOk(m, journal) && Kept(m, journal, frontier) && AckLeq(ack, frontier)
    requires frontier.0 < |journal| && 0 < frontier.1 ==> frontier.1 + 1 < |journal[frontier.0]|
    ensures Kept(RecvAck(m, ack), journal, frontier)
  {
    var r := RecvAck(m, ack);
    forall q | 0 <= q < |journal| && journal[q] != [] ensures KeptMsg(r, q, frontier) {
      assert KeptMsg(m, q, frontier);
      if q == ack.0 && q in m.outgoing {
        KeptNamed(m, journal, ack, frontier);
      } else if ack.0 < q {
        assert q in r.outgoing <==> q in m.outgoing;
        assert q in m.outgoing ==> r.outgoing[q] == m.outgoing[q];
      }
    }
  }

  /** A later frontier keeps as much. */
  lemma KeptMonotone(m: Msgs, journal: seq<Payload>, a: (nat, nat), b: (nat, nat))
    requires Kept(m, journal, a) && AckLeq(a, b)
    ensures Kept(m, journal, b)
  {
    forall q | 0 <= q < |journal| && journal[q] != [] ensures KeptMsg(m, q, b) {
      assert KeptMsg(m, q, a);
    }
  }
}
