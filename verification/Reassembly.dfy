/** Fragmentation and reassembly of one message. */
module Reassembly {
  import opened Prelude
  import opened Epochs
  import opened Protocol
  import opened Intervals
  import opened Slices

  predicate IsFragment(data: Payload, first: nat, frag: Payload) {
    frag != [] && first + |frag| <= |data| && frag == data[first..first + |frag|]
  }

  /** `x` carries a non-empty piece of the message `data`. */
  predicate Carries(x: LinkProtocol, epoch: Epoch, seqNo: nat, data: Payload) {
    && x.MsgSlice? && x.msgEpoch == epoch && x.seqNo == seqNo
    && x.seqLen == |data| && IsFragment(data, x.firstIndex, x.data)
  }

  predicate AllCarry(xs: seq<LinkProtocol>, epoch: Epoch, seqNo: nat, data: Payload) {
    forall j {:trigger xs[j]} :: 0 <= j < |xs| ==> Carries(xs[j], epoch, seqNo, data)
  }

  /** `xs` are the pieces of a message from index `c` on, back to back, none over `size`. */
  predicate Contiguous(xs: seq<LinkProtocol>, c: nat, size: nat) {
    xs != [] ==>
      && xs[0].MsgSlice? && xs[0].firstIndex == c && 0 < |xs[0].data| <= size
      && Contiguous(xs[1..], c + |xs[0].data|, size)
  }

  function Joined(xs: seq<LinkProtocol>): Payload
    requires forall x :: x in xs ==> x.MsgSlice?
  {
    if xs == [] then [] else xs[0].data + Joined(xs[1..])
  }

  // ---------------------------------------------------------------------
  // Fragmentation
  // ---------------------------------------------------------------------

  lemma {:induction false} MakeSlicesCarry(data: Payload, epoch: Epoch, seqNo: nat, c: nat, size: nat, end: nat, x: LinkProtocol)
    requires data != []
    requires x in MakeSlices(data, epoch, seqNo, c, size, end)
    ensures Carries(x, epoch, seqNo, data) && |x.data| <= size
    decreases end + 1 - c
  {
    if end >= c + size && x in MakeSlices(data, epoch, seqNo, c + size, size, end) {
      MakeSlicesCarry(data, epoch, seqNo, c + size, size, end, x);
    }
  }

  lemma {:induction false} MakeSlicesJoin(data: Payload, epoch: Epoch, seqNo: nat, c: nat, size: nat, end: nat)
    requires c <= end < |data| && 0 < size
    ensures var xs := MakeSlices(data, epoch, seqNo, c, size, end);
      && xs != [] && Contiguous(xs, c, size)
      && (forall x :: x in xs ==> x.MsgSlice?)
      && Joined(xs) == data[c..end + 1]
    decreases end + 1 - c
  {
    var xs := MakeSlices(data, epoch, seqNo, c, size, end);
    if end < c + size {
      assert xs == [MsgSlice(epoch, seqNo, |data|, c, data[c..end + 1])];
      assert Joined(xs) == xs[0].data + Joined(xs[1..]);
    } else {
      MakeSlicesJoin(data, epoch, seqNo, c + size, size, end);
      var rest := MakeSlices(data, epoch, seqNo, c + size, size, end);
      assert xs == [MsgSlice(epoch, seqNo, |data|, c, data[c..c + size])] + rest;
      assert xs[1..] == rest;
      assert data[c..end + 1] == data[c..c + size] + data[c + size..end + 1];
    }
  }

  lemma {:induction false} SlicesFromCarry(s: Slice, c: nat, size: nat, x: LinkProtocol)
    requires s.data != [] && x in SlicesFrom(s, c, size)
    ensures Carries(x, s.epoch, s.seqNo, s.data) && |x.data| <= size
    decreases |KeysFrom(s.runs, c)|
  {
    var k := NextKey(s.runs, c).value;
    if x in MakeSlices(s.data, s.epoch, s.seqNo, k, size, s.runs[k]) {
      MakeSlicesCarry(s.data, s.epoch, s.seqNo, k, size, s.runs[k], x);
    } else {
      assert k in KeysFrom(s.runs, c) && KeysFrom(s.runs, k + 1) <= KeysFrom(s.runs, c) - {k};
      SubsetSize(KeysFrom(s.runs, k + 1), KeysFrom(s.runs, c) - {k});
      SlicesFromCarry(s, k + 1, size, x);
    }
  }

  /** Every transmitted fragment is a non-empty piece of the message, at most `size` bytes. */
  lemma GetSlicesCarry(s: Slice, size: nat, x: LinkProtocol)
    requires x in GetSlices(s, size)
    ensures Carries(x, s.epoch, s.seqNo, s.data) && |x.data| <= size
  {
    SlicesFromCarry(s, 0, size, x);
  }

  /** What is meant for another message changes nothing, nor does a fragment from past the end. */
  lemma ForeignIgnored(s: Slice, epoch: Epoch, seqNo: nat, first: nat, frag: Payload, lastIndex: nat)
    requires epoch != s.epoch || seqNo != s.seqNo
    ensures AckSlice(s, epoch, seqNo, lastIndex) == s
    ensures s.data != [] && 0 < first + |frag| ==> RecvSlice(s, epoch, seqNo, first, frag) == s
    ensures s.data != [] && 0 < first + |frag| && |s.data| <= first ==>
      RecvSlice(s, s.epoch, s.seqNo, first, frag) == s
  {
  }

  /** A pending suffix is cut into back-to-back fragments whose join is that suffix. */
  lemma GetSlicesOfSuffix(s: Slice, p: nat, size: nat)
    requires p < |s.data| && s.runs == map[p := |s.data| - 1] && 0 < size
    ensures var xs := GetSlices(s, size);
      && xs != [] && Contiguous(xs, p, size)
      && (forall x :: x in xs ==> Carries(x, s.epoch, s.seqNo, s.data))
      && Joined(xs) == s.data[p..]
  {
    assert p in s.runs;
    NextKeyIs(s.runs, 0, p);
    assert NextKey(s.runs, p + 1) == None;
    var xs := MakeSlices(s.data, s.epoch, s.seqNo, p, size, |s.data| - 1);
    assert SlicesFrom(s, p + 1, size) == [];
    assert GetSlices(s, size) == xs;
    MakeSlicesJoin(s.data, s.epoch, s.seqNo, p, size, |s.data| - 1);
    assert s.data[p..|s.data| - 1 + 1] == s.data[p..];
    forall x | x in xs ensures Carries(x, s.epoch, s.seqNo, s.data) {
      GetSlicesCarry(s, size, x);
    }
  }

  // ---------------------------------------------------------------------
  // Reassembly
  // ---------------------------------------------------------------------

  /** `r` is `s` with the bytes of `data` on `[first, last]`, recorded. */
  ghost predicate Overwritten(s: Slice, r: Slice, data: Payload, first: nat, last: nat) {
    && |s.data| == |r.data| == |data| && r.runs == Add(s.runs, first, last)
    && forall i :: 0 <= i < |data| ==> r.data[i] == if first <= i <= last then data[i] else s.data[i]
  }

  /** `r` records what `m` does, `[first, last]`, and the gap up to the next run if there is one. */
  ghost predicate Absorbed(m: Runs, r: Runs, first: nat, last: nat) {
    forall i :: Covers(r, i) <==> Covers(m, i) || first <= i <= AbsorbEnd(m, first, last)
  }

  /** A genuine fragment overwrites its own indices with the message's bytes. */
  lemma RecvSliceData(s: Slice, data: Payload, first: nat, last: nat, frag: Payload)
    requires |s.data| == |data| && IsFragment(data, first, frag) && last == first + |frag| - 1
    ensures Overwritten(s, RecvSlice(s, s.epoch, s.seqNo, first, frag), data, first, last)
  {
    assert LastIndex(s, first, frag) == last;
    var r := RecvSlice(s, s.epoch, s.seqNo, first, frag);
    assert r.data == Overlay(s.data, first, last, frag);
  }

  lemma OverwrittenRuns(s: Slice, r: Slice, data: Payload, first: nat, last: nat)
    requires WellFormed(s) && first <= last < |data| && Overwritten(s, r, data, first, last)
    ensures WellFormed(r) && Absorbed(s.runs, r.runs, first, last)
  {
    RunsAdded(s.runs, |data|, first, last);
  }

  /** ... and records them, with the gap up to the next run if there is one. */
  lemma RecvSliceRuns(s: Slice, data: Payload, first: nat, last: nat, frag: Payload)
    requires WellFormed(s) && |s.data| == |data| && IsFragment(data, first, frag) && last == first + |frag| - 1
    ensures var r := RecvSlice(s, s.epoch, s.seqNo, first, frag);
      WellFormed(r) && Absorbed(s.runs, r.runs, first, last)
  {
    RecvSliceData(s, data, first, last, frag);
    OverwrittenRuns(s, RecvSlice(s, s.epoch, s.seqNo, first, frag), data, first, last);
  }

  lemma RunsAdded(m: Runs, n: nat, first: nat, last: nat)
    requires NormalForm(m, n) && first <= last < n
    ensures NormalForm(Add(m, first, last), n) && Absorbed(m, Add(m, first, last), first, last)
  {
    AddNormalForm(m, n, first, last);
    forall i ensures Covers(Add(m, first, last), i) <==> Covers(m, i) || first <= i <= AbsorbEnd(m, first, last) {
      AddCovers(m, n, first, last, i);
    }
  }

  /** Receiving fragments one after the other. */
  function Feed(s: Slice, xs: seq<LinkProtocol>): (r: Slice)
    requires s.data != [] && forall j :: 0 <= j < |xs| ==> xs[j].MsgSlice? && xs[j].data != []
    ensures |r.data| == |s.data| && r.epoch == s.epoch && r.seqNo == s.seqNo
  {
    if xs == [] then s
    else
      var r := Feed(s, xs[..|xs| - 1]);
      var x := xs[|xs| - 1];
      RecvSlice(r, s.epoch, x.seqNo, x.firstIndex, x.data)
  }

  ghost predicate Received(xs: seq<LinkProtocol>, i: int) {
    exists j :: 0 <= j < |xs| && xs[j].MsgSlice? && xs[j].firstIndex <= i < xs[j].firstIndex + |xs[j].data|
  }

  lemma ReceivedSnoc(xs: seq<LinkProtocol>, x: LinkProtocol, i: int)
    requires x.MsgSlice?
    ensures Received(xs + [x], i) <==> Received(xs, i) || x.firstIndex <= i < x.firstIndex + |x.data|
  {
    var ys := xs + [x];
    if Received(xs, i) {
      var j :| 0 <= j < |xs| && xs[j].MsgSlice? && xs[j].firstIndex <= i < xs[j].firstIndex + |xs[j].data|;
      assert ys[j] == xs[j];
    }
    if x.firstIndex <= i < x.firstIndex + |x.data| {
      assert ys[|xs|] == x;
    }
  }

  /**
   Whatever the order and the duplicates: the buffer holds the message on the
   received indices and zero elsewhere, and every received index is recorded.
   */
  lemma {:induction false} FeedContent(epoch: Epoch, seqNo: nat, data: Payload, xs: seq<LinkProtocol>)
    requires data != [] && AllCarry(xs, epoch, seqNo, data)
    ensures var r := Feed(NewSlice(epoch, seqNo, |data|), xs);
      && WellFormed(r)
      && (forall i :: 0 <= i < |data| ==> r.data[i] == if Received(xs, i) then data[i] else 0)
      && (forall i :: Received(xs, i) ==> Covers(r.runs, i))
  {
    if xs != [] {
      var n := |xs| - 1;
      var init, x := xs[..n], xs[n];
      assert xs == init + [x];
      FeedContent(epoch, seqNo, data, init);
      var r := Feed(NewSlice(epoch, seqNo, |data|), init);
      var last := x.firstIndex + |x.data| - 1;
      RecvSliceData(r, data, x.firstIndex, last, x.data);
      RecvSliceRuns(r, data, x.firstIndex, last, x.data);
      forall i ensures Received(xs, i) <==> Received(init, i) || x.firstIndex <= i < x.firstIndex + |x.data| {
        ReceivedSnoc(init, x, i);
      }
    }
  }

  /**
   The exact condition for the buffer to hold the message: every index that was
   never received is a zero byte of it. (A manager can report itself full before
   that, see `GapCompletesEarly`.)
   */
  lemma FeedFaithfulIff(epoch: Epoch, seqNo: nat, data: Payload, xs: seq<LinkProtocol>)
    requires data != [] && AllCarry(xs, epoch, seqNo, data)
    ensures Feed(NewSlice(epoch, seqNo, |data|), xs).data == data
       <==> forall i :: 0 <= i < |data| && !Received(xs, i) ==> data[i] == 0
  {
    FeedContent(epoch, seqNo, data, xs);
  }

  lemma {:induction false} ContiguousReceives(xs: seq<LinkProtocol>, c: nat, size: nat, i: int)
    requires forall x :: x in xs ==> x.MsgSlice?
    requires Contiguous(xs, c, size) && c <= i < c + |Joined(xs)|
    ensures Received(xs, i)
  {
    if i < c + |xs[0].data| {
      assert xs[0].firstIndex <= i;
    } else {
      ContiguousReceives(xs[1..], c + |xs[0].data|, size, i);
      var j :| 0 <= j < |xs[1..]| && xs[1..][j].firstIndex <= i < xs[1..][j].firstIndex + |xs[1..][j].data|;
      assert xs[j + 1] == xs[1..][j];
    }
  }

  lemma SameReceives(xs: seq<LinkProtocol>, ys: seq<LinkProtocol>, i: int)
    requires Received(xs, i) && forall x :: x in xs ==> x in ys
    ensures Received(ys, i)
  {
    var j :| 0 <= j < |xs| && xs[j].MsgSlice? && xs[j].firstIndex <= i < xs[j].firstIndex + |xs[j].data|;
    assert xs[j] in ys;
    var k :| 0 <= k < |ys| && ys[k] == xs[j];
  }

  lemma FragmentsCarry(epoch: Epoch, seqNo: nat, data: Payload, size: nat, xs: seq<LinkProtocol>)
    requires data != [] && forall x :: x in xs ==> x in GetSlices(FromVec(epoch, seqNo, data), size)
    ensures AllCarry(xs, epoch, seqNo, data)
  {
    forall j | 0 <= j < |xs| ensures Carries(xs[j], epoch, seqNo, data) {
      assert xs[j] in xs;
      GetSlicesCarry(FromVec(epoch, seqNo, data), size, xs[j]);
    }
  }

  lemma FragmentsCover(epoch: Epoch, seqNo: nat, data: Payload, size: nat, xs: seq<LinkProtocol>)
    requires data != [] && 0 < size && forall x :: x in GetSlices(FromVec(epoch, seqNo, data), size) ==> x in xs
    ensures forall i :: 0 <= i < |data| ==> Received(xs, i)
  {
    var frags := GetSlices(FromVec(epoch, seqNo, data), size);
    GetSlicesOfSuffix(FromVec(epoch, seqNo, data), 0, size);
    forall i | 0 <= i < |data| ensures Received(xs, i) {
      ContiguousReceives(frags, 0, size, i);
      SameReceives(frags, xs, i);
    }
  }

  /**
   Fragment and reassemble: all fragments of a message, in any order and with
   any duplicates, make a fresh manager full and give the message back.
   */
  lemma FragmentAndReassemble(epoch: Epoch, seqNo: nat, data: Payload, size: nat, xs: seq<LinkProtocol>)
    requires data != [] && 0 < size
    requires forall x :: x in xs <==> x in GetSlices(FromVec(epoch, seqNo, data), size)
    requires forall j :: 0 <= j < |xs| ==> xs[j].MsgSlice? && xs[j].data != []
    ensures var r := Feed(NewSlice(epoch, seqNo, |data|), xs); IsFull(r) && r.data == data
  {
    FragmentsCarry(epoch, seqNo, data, size, xs);
    FragmentsCover(epoch, seqNo, data, size, xs);
    FeedContent(epoch, seqNo, data, xs);
    FullIffCovered(Feed(NewSlice(epoch, seqNo, |data|), xs).runs, |data|);
  }

  lemma GapRuns()
    ensures Add(map[], 2, 2) == map[2 := 2] && Add(map[2 := 2], 0, 0) == map[0 := 2]
  {
    assert FirstPast(map[], 2, 2).None?;
    assert Surviving(map[], 2, 2) == map[];
    var m: Runs := map[2 := 2];
    assert 2 in m;
    FirstPastIs(m, 0, 0, 2);
    assert Surviving(m, 0, 2) == map[];
  }

  lemma FeedTwo(s: Slice, a: LinkProtocol, b: LinkProtocol)
    requires s.data != [] && a.MsgSlice? && b.MsgSlice? && a.data != [] && b.data != []
    ensures Feed(s, [a, b]) ==
      RecvSlice(RecvSlice(s, s.epoch, a.seqNo, a.firstIndex, a.data), s.epoch, b.seqNo, b.firstIndex, b.data)
  {
    assert [a, b][..1] == [a] && [a][..0] == [];
    assert Feed(s, [a]) == RecvSlice(s, s.epoch, a.seqNo, a.firstIndex, a.data);
  }

  lemma RecvOneByte(s: Slice, first: nat, b: byte, runs: Runs)
    requires first < |s.data| && runs == Add(s.runs, first, first)
    ensures RecvSlice(s, s.epoch, s.seqNo, first, [b]) == Slice(s.epoch, s.seqNo, s.data[first := b], runs)
  {
    assert Overlay(s.data, first, first, [b]) == s.data[first := b];
  }

  lemma OneByteCarries(epoch: Epoch, seqNo: nat, data: Payload, i: nat)
    requires i < |data|
    ensures Carries(MsgSlice(epoch, seqNo, |data|, i, [data[i]]), epoch, seqNo, data)
  {
    assert data[i..i + 1] == [data[i]];
  }

  lemma GapCarry(epoch: Epoch, seqNo: nat)
    ensures AllCarry([MsgSlice(epoch, seqNo, 3, 2, [9]), MsgSlice(epoch, seqNo, 3, 0, [7])], epoch, seqNo, [7, 8, 9])
  {
    OneByteCarries(epoch, seqNo, [7, 8, 9], 2);
    OneByteCarries(epoch, seqNo, [7, 8, 9], 0);
  }

  /** The last byte arrives first. */
  lemma GapLast(epoch: Epoch, seqNo: nat)
    ensures RecvSlice(NewSlice(epoch, seqNo, 3), epoch, seqNo, 2, [9]) == Slice(epoch, seqNo, [0, 0, 9], map[2 := 2])
  {
    var s := NewSlice(epoch, seqNo, 3);
    GapRuns();
    RecvOneByte(s, 2, 9, map[2 := 2]);
    assert s.data[2 := 9] == [0, 0, 9];
  }

  /** ... and then the first one, which absorbs the gap. */
  lemma GapFirst(epoch: Epoch, seqNo: nat)
    ensures RecvSlice(Slice(epoch, seqNo, [0, 0, 9], map[2 := 2]), epoch, seqNo, 0, [7]) ==
            Slice(epoch, seqNo, [7, 0, 9], map[0 := 2])
  {
    var s := Slice(epoch, seqNo, [0, 0, 9], map[2 := 2]);
    GapRuns();
    RecvOneByte(s, 0, 7, map[0 := 2]);
    assert s.data[0 := 7] == [7, 0, 9];
  }

  /**
   The gap: three bytes in three fragments, the last arriving before the first.
   The manager calls itself full although the middle byte never arrived, and
   hands out a zero in its place.
   */
  lemma GapCompletesEarly(epoch: Epoch, seqNo: nat)
    ensures var xs := [MsgSlice(epoch, seqNo, 3, 2, [9]), MsgSlice(epoch, seqNo, 3, 0, [7])];
      && AllCarry(xs, epoch, seqNo, [7, 8, 9])
      && Feed(NewSlice(epoch, seqNo, 3), xs) == Slice(epoch, seqNo, [7, 0, 9], map[0 := 2])
      && IsFull(Slice(epoch, seqNo, [7, 0, 9], map[0 := 2]))
  {
    GapCarry(epoch, seqNo);
    FeedTwo(NewSlice(epoch, seqNo, 3), MsgSlice(epoch, seqNo, 3, 2, [9]), MsgSlice(epoch, seqNo, 3, 0, [7]));
    GapLast(epoch, seqNo);
    GapFirst(epoch, seqNo);
  }
}
