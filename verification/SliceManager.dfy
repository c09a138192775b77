/**
 The slice manager as the program keeps it: a byte buffer and a map of runs that
 its methods update in place. Each method is proved against `Slices`.
 */
module SliceManagers {
  import opened Prelude
  import opened Epochs
  import opened Protocol
  import opened Intervals
  import S = Slices

  /** Dropping one run of a set of runs. */
  lemma MinusOne(m: Runs, k: nat)
    requires k in m
    ensures |m - {k}| == |m| - 1
  {
    assert (m - {k}).Keys == m.Keys - {k};
  }

  lemma KeysShrink(m: Runs, c: nat, k: nat)
    requires c <= k && k in m
    ensures |S.KeysFrom(m, k + 1)| < |S.KeysFrom(m, c)|
  {
    assert k in S.KeysFrom(m, c);
    S.SubsetSize(S.KeysFrom(m, k + 1), S.KeysFrom(m, c) - {k});
  }

  // ---------------------------------------------------------------------
  // The cursor loop shared by `AddSlice` and `RemoveSlice`
  // ---------------------------------------------------------------------

  /** From `start` on, `m` is in normal form. */
  ghost predicate Ordered(m: Runs, start: nat) {
    && (forall k :: k in m && start <= k ==> k <= m[k])
    && (forall j, k :: j in m && k in m && start <= j < k ==> m[j] + 1 < k)
  }

  /** `cur` is `m` without the runs from `start` on that end by `top`, all of which end by `end`. */
  ghost predicate Loop(m: Runs, cur: Runs, start: nat, end: nat, cursor: nat, top: int) {
    && Ordered(m, start) && top <= end
    && ((cursor == start && top == start - 1) || (cursor == top && exists l :: l in m && start <= l && m[l] == top))
    && (forall k :: k in cur <==> k in m && (k < start || top < m[k]))
    && (forall k :: k in cur ==> cur[k] == m[k])
  }

  lemma LoopStep(m: Runs, cur: Runs, start: nat, end: nat, cursor: nat, top: int, k: nat)
    requires Loop(m, cur, start, end, cursor, top) && NextKey(cur, cursor) == Some(k)
    ensures k in m && start <= k && cur[k] == m[k]
    ensures forall j :: j in cur - {k} <==> j in m && (j < start || m[k] < m[j])
    ensures forall j :: j in m && start <= j && end < m[j] ==> k <= j
    ensures m[k] <= end ==> Loop(m, cur - {k}, start, end, m[k], m[k])
  {
    assert forall j :: j in m && start <= j && top < m[j] ==> cursor <= j;
  }

  lemma AbsorbDone(m: Runs, rest: Runs, start: nat, end: nat, k: nat)
    requires k in m && start <= k && end < m[k]
    requires forall j :: j in m && start <= j && end < m[j] ==> k <= j
    requires forall j :: j in rest <==> j in m && (j < start || m[k] < m[j])
    requires forall j :: j in rest ==> rest[j] == m[j]
    ensures AbsorbEnd(m, start, end) == m[k] && rest == Surviving(m, start, m[k])
  {
    FirstPastIs(m, start, end, k);
  }

  lemma AbsorbExhausted(m: Runs, cur: Runs, start: nat, end: nat, cursor: nat, top: int)
    requires Loop(m, cur, start, end, cursor, top) && NextKey(cur, cursor).None?
    ensures FirstPast(m, start, end).None? && cur == Surviving(m, start, end)
  {
    assert forall j :: j in m && start <= j && top < m[j] ==> cursor <= j;
  }

  lemma TrimDone(m: Runs, rest: Runs, start: nat, end: nat, k: nat)
    requires Ordered(m, start) && k in m && start <= k && end < m[k]
    requires forall j :: j in m && start <= j && end < m[j] ==> k <= j
    requires forall j :: j in rest <==> j in m && (j < start || m[k] < m[j])
    requires forall j :: j in rest ==> rest[j] == m[j]
    ensures rest[end + 1 := m[k]] == Trim(m, start, end)
  {
    FirstPastIs(m, start, end, k);
    var far := Surviving(m, start, end);
    assert rest == map j | j in far && j != k :: far[j];
  }

  // ---------------------------------------------------------------------
  // Fragmentation, one step at a time
  // ---------------------------------------------------------------------

  /** What is done grows by `part`, what is left shrinks to `rest`. */
  lemma Moved<T>(done: seq<T>, part: seq<T>, left: seq<T>, rest: seq<T>, all: seq<T>) returns (r: seq<T>)
    requires done + left == all && left == part + rest
    ensures r == rest && done + part + rest == all
  {
    Regroup(done, part, rest);
    r := rest;
  }

  lemma NothingAfter<T>(s: seq<T>)
    ensures s + [] == s
  {
  }

  /** `left` is what the loop over the runs still has to add from `c` on. */
  ghost predicate Remaining(s: S.Slice, c: nat, size: nat, next: Option<nat>, left: seq<LinkProtocol>) {
    s.data != [] && next == NextKey(s.runs, c) && left == S.SlicesFrom(s, c, size)
  }

  lemma SlicesStep(s: S.Slice, c: nat, k: nat, c': nat, size: nat, part: seq<LinkProtocol>,
                   done: seq<LinkProtocol>, left: seq<LinkProtocol>, all: seq<LinkProtocol>) returns (rest: seq<LinkProtocol>)
    requires Remaining(s, c, size, Some(k), left) && c' == k + 1 && done + left == all && k in s.runs
    requires part == S.MakeSlices(s.data, s.epoch, s.seqNo, k, size, s.runs[k])
    ensures Remaining(s, c', size, NextKey(s.runs, c'), rest) && done + part + rest == all
    ensures |S.KeysFrom(s.runs, c')| < |S.KeysFrom(s.runs, c)|
  {
    KeysShrink(s.runs, c, k);
    rest := Moved(done, part, left, S.SlicesFrom(s, c', size), all);
  }

  lemma MakeSlicesStep(data: Payload, epoch: Epoch, seqNo: nat, c: nat, c': nat, size: nat, end: nat, last: nat,
                       x: LinkProtocol, done: seq<LinkProtocol>, left: seq<LinkProtocol>, all: seq<LinkProtocol>)
    returns (rest: seq<LinkProtocol>)
    requires 0 < size && data != [] && c <= last == Min(Min(c + size - 1, end), |data| - 1) && c' == c + size
    requires x == MsgSlice(epoch, seqNo, |data|, c, data[c..last + 1])
    requires left == S.MakeSlices(data, epoch, seqNo, c, size, end) && done + left == all
    ensures rest == if end < c' then [] else S.MakeSlices(data, epoch, seqNo, c', size, end)
    ensures done + [x] + rest == all
  {
    rest := if end < c' then [] else S.MakeSlices(data, epoch, seqNo, c', size, end);
    rest := Moved(done, [x], left, rest, all);
  }

  /** Overwrite `a[first..=last]` with the front of `src`. */
  method CopyFrom(a: array<byte>, first: nat, last: nat, src: Payload)
    requires first <= last < a.Length && last < first + |src|
    modifies a
    ensures a[..] == S.Overlay(old(a[..]), first, last, src)
  {
    var i := first;
    while i <= last
      invariant first <= i <= last + 1
      invariant forall j :: 0 <= j < a.Length ==> a[j] == if first <= j < i then src[j - first] else old(a[j])
    {
      a[i] := src[i - first];
      i := i + 1;
    }
  }

  class SliceManager {
    const epoch: Epoch
    const seqNo: nat
    const data: array<byte>
    /** Maps the start of a run to the index of its last element. */
    var slices: Runs

    ghost predicate Valid()
      reads this
    {
      NormalForm(slices, data.Length)
    }

    ghost function Value(): S.Slice
      reads this, data
    {
      S.Slice(epoch, seqNo, data[..], slices)
    }

    constructor New(epoch: Epoch, seqNo: nat, size: nat)
      ensures Valid() && fresh(data) && Value() == S.NewSlice(epoch, seqNo, size)
    {
      this.epoch := epoch;
      this.seqNo := seqNo;
      this.data := new byte[size](_ => 0);
      this.slices := map[];
    }

    constructor FromVec(epoch: Epoch, seqNo: nat, bytes: Payload)
      ensures Valid() && fresh(data) && Value() == S.FromVec(epoch, seqNo, bytes)
    {
      this.epoch := epoch;
      this.seqNo := seqNo;
      this.data := new byte[|bytes|](i requires 0 <= i < |bytes| => bytes[i]);
      this.slices := if bytes == [] then map[] else map[0 := |bytes| - 1];
      new;
      assert data[..] == bytes;
    }

    /** Full means: every byte of a non-empty message is covered. */
    method IsFull() returns (r: bool)
      requires Valid()
      ensures r == S.IsFull(Value())
      ensures r <==> 0 < data.Length && forall i :: 0 <= i < data.Length ==> Covers(slices, i)
    {
      FullIffCovered(slices, data.Length);
      r := |slices| == 1 && 0 in slices && slices[0] == data.Length - 1;
    }

    method IsEmpty() returns (r: bool)
      ensures r == S.IsEmpty(Value())
    {
      r := slices == map[];
    }

    method LastHeadIndex() returns (r: Option<nat>)
      ensures r == S.LastHeadIndex(Value())
      ensures r == if 0 in slices then Some(slices[0]) else None
    {
      var first := NextKey(slices, 0);
      r := if first == Some(0) then Some(slices[0]) else None;
    }

    /** Copy a fragment into the buffer and record it; a fragment past the end is cut or ignored. */
    method RecvSlice(epoch: Epoch, seqNo: nat, firstIndex: nat, frag: Payload)
      requires Valid() && 0 < data.Length && 0 < firstIndex + |frag|
      modifies this`slices, data
      ensures Valid() && Value() == S.RecvSlice(old(Value()), epoch, seqNo, firstIndex, frag)
    {
      if epoch != this.epoch || seqNo != this.seqNo {
        return;
      }
      var lastIndex := Min(firstIndex + |frag| - 1, data.Length - 1);
      if lastIndex < firstIndex {
        return;
      }
      AddSlice(firstIndex, lastIndex);
      CopyFrom(data, firstIndex, lastIndex, frag);
    }

    method Ack(epoch: Epoch, seqNo: nat, lastIndex: nat)
      requires Valid()
      modifies this`slices
      ensures Valid() && Value() == S.AckSlice(old(Value()), epoch, seqNo, lastIndex)
    {
      if epoch != this.epoch || seqNo != this.seqNo {
        return;
      }
      RemoveSlice(0, lastIndex);
    }

    /** Everything pending, cut into fragments of at most `size` bytes. */
    method GetSlices(size: nat) returns (ret: seq<LinkProtocol>)
      requires Valid()
      ensures ret == S.GetSlices(Value(), size)
    {
      ret := [];
      if data.Length == 0 {
        return;
      }
      ret := Pending(data, slices, epoch, seqNo, size, Value());
    }

    /** Take `[start, end]` out of the runs. */
    method RemoveSlice(start: nat, end: nat)
      requires Valid() && start <= end && start <= data.Length
      modifies this`slices
      ensures slices == Remove(old(slices), start, end) && Valid()
    {
      RemoveNormalForm(slices, data.Length, start, end);
      if start == end {
        return;
      }
      var prev := PrevKey(slices, start);
      if prev.Some? {
        var oldPrevEnd := slices[prev.value];
        slices := slices[prev.value := start - 1];
        if oldPrevEnd > end {
          slices := slices[end + 1 := oldPrevEnd];
          return;
        }
      }
      TrimRight(start, end);
    }

    /** Drop the runs from `start` on, and restart the one that ends past `end`. */
    method TrimRight(start: nat, end: nat)
      requires Ordered(slices, start) && start <= end
      modifies this`slices
      ensures slices == Trim(old(slices), start, end)
    {
      ghost var m := slices;
      var cursor: nat := start;
      ghost var top := start - 1;
      var next := NextKey(slices, cursor);
      while next.Some?
        invariant next == NextKey(slices, cursor)
        invariant Loop(m, slices, start, end, cursor, top)
        decreases |slices|
      {
        var nextStart, nextEnd := next.value, slices[next.value];
        MinusOne(slices, nextStart);
        LoopStep(m, slices, start, end, cursor, top, nextStart);
        cursor := nextEnd;
        slices := slices - {nextStart};
        if nextEnd > end {
          TrimDone(m, slices, start, end, nextStart);
          slices := slices[end + 1 := nextEnd];
          return;
        }
        top := nextEnd;
        next := NextKey(slices, cursor);
      }
      AbsorbExhausted(m, slices, start, end, cursor, top);
    }

    /** Record `[start, end]`, merging it with the runs it meets. */
    method AddSlice(start: nat, end: nat)
      requires Valid() && start <= end < data.Length
      modifies this`slices
      ensures slices == Add(old(slices), start, end) && Valid()
    {
      AddNormalForm(slices, data.Length, start, end);
      var last := AbsorbRight(start, end);
      var prev := PrevKey(slices, start);
      if prev.Some? {
        var prevEnd := slices[prev.value];
        if prevEnd >= last {
          return;
        }
        if prevEnd + 1 >= start {
          slices := slices[prev.value := last];
          return;
        }
      }
      slices := slices[start := last];
    }

    /** The interior and right-hand overlaps of `[start, end]`; returns where it then ends. */
    method AbsorbRight(start: nat, end: nat) returns (last: nat)
      requires Valid() && start <= end
      modifies this`slices
      ensures last == AbsorbEnd(old(slices), start, end)
      ensures slices == Surviving(old(slices), start, last)
    {
      ghost var m := slices;
      last := end;
      var cursor: nat := start;
      ghost var top := start - 1;
      var next := NextKey(slices, cursor);
      while next.Some?
        invariant next == NextKey(slices, cursor) && last == end
        invariant Loop(m, slices, start, end, cursor, top)
        decreases |slices|
      {
        var nextStart, nextEnd := next.value, slices[next.value];
        MinusOne(slices, nextStart);
        LoopStep(m, slices, start, end, cursor, top, nextStart);
        cursor := nextEnd;
        slices := slices - {nextStart};
        if nextEnd > last {
          last := nextEnd;
          AbsorbDone(m, slices, start, end, nextStart);
          return;
        }
        top := nextEnd;
        next := NextKey(slices, cursor);
      }
      AbsorbExhausted(m, slices, start, end, cursor, top);
    }
  }

  /** The fragments of `data[start..=end]`. */
  method MakeSlices(data: array<byte>, epoch: Epoch, seqNo: nat, start: nat, size: nat, end: nat, ghost bytes: Payload)
    returns (ret: seq<LinkProtocol>)
    requires 0 < data.Length && bytes == data[..]
    ensures ret == S.MakeSlices(bytes, epoch, seqNo, start, size, end)
  {
    ret := [];
    if size == 0 {
      return;
    }
    ghost var all := S.MakeSlices(bytes, epoch, seqNo, start, size, end);
    ghost var left := all;
    NothingBefore(left);
    var cursor: nat := start;
    while true
      invariant left == S.MakeSlices(bytes, epoch, seqNo, cursor, size, end) && ret + left == all
      decreases end + 1 - cursor
    {
      var sliceEnd := Min(Min(cursor + size - 1, end), data.Length - 1);
      if sliceEnd < cursor {
        NothingAfter(ret);
        return;
      }
      var sliceData := Part(data, cursor, sliceEnd + 1, bytes);
      var x := MsgSlice(epoch, seqNo, data.Length, cursor, sliceData);
      var next := cursor + size;
      left := MakeSlicesStep(bytes, epoch, seqNo, cursor, next, size, end, sliceEnd, x, ret, left, all);
      ret := ret + [x];
      cursor := next;
      if cursor > end {
        NothingAfter(ret);
        return;
      }
    }
  }

  method Part(data: array<byte>, from: nat, to: nat, ghost bytes: Payload) returns (part: Payload)
    requires from <= to <= data.Length && bytes == data[..]
    ensures part == bytes[from..to]
  {
    part := data[from..to];
  }

  /** The fragments of every run. */
  method Pending(data: array<byte>, runs: Runs, epoch: Epoch, seqNo: nat, size: nat, ghost s: S.Slice)
    returns (ret: seq<LinkProtocol>)
    requires 0 < data.Length && s == S.Slice(epoch, seqNo, data[..], runs)
    ensures ret == S.SlicesFrom(s, 0, size)
  {
    ret := [];
    ghost var all := S.SlicesFrom(s, 0, size);
    ghost var left := all;
    NothingBefore(left);
    var cursor: nat := 0;
    var next := NextKey(runs, 0);
    while next.Some?
      invariant Remaining(s, cursor, size, next, left) && ret + left == all
      decreases |S.KeysFrom(s.runs, cursor)|
    {
      var k := next.value;
      var part := MakeSlices(data, epoch, seqNo, k, size, runs[k], s.data);
      var after := k + 1;
      left := SlicesStep(s, cursor, k, after, size, part, ret, left, all);
      ret := ret + part;
      cursor := after;
      next := NextKey(runs, cursor);
    }
    NothingAfter(ret);
  }
}
