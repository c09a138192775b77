/**
 The value of a slice manager: the bytes of one message and the runs of indices
 that are recorded (receiving side) or still pending (sending side).
 */
module Slices {
  import opened Prelude
  import opened Epochs
  import opened Protocol
  import opened Intervals

  datatype Slice = Slice(epoch: Epoch, seqNo: nat, data: Payload, runs: Runs)

  function NewSlice(epoch: Epoch, seqNo: nat, size: nat): Slice {
    Slice(epoch, seqNo, seq(size, _ => 0), map[])
  }

  function FromVec(epoch: Epoch, seqNo: nat, data: Payload): Slice {
    Slice(epoch, seqNo, data, if data == [] then map[] else map[0 := |data| - 1])
  }

  predicate IsFull(s: Slice) {
    |s.runs| == 1 && 0 in s.runs && s.runs[0] == |s.data| - 1
  }

  predicate IsEmpty(s: Slice) {
    s.runs == map[]
  }

  /** The last index of the run that begins at 0, if there is one. */
  function LastHeadIndex(s: Slice): Option<nat> {
    match NextKey(s.runs, 0)
    case None => None
    case Some(k) => if k != 0 then None else Some(s.runs[0])
  }

  ghost predicate WellFormed(s: Slice) {
    NormalForm(s.runs, |s.data|)
  }

  // ---------------------------------------------------------------------
  // Receiving
  // ---------------------------------------------------------------------

  /** The last index written by a fragment, capped at the end of the message. */
  function LastIndex(s: Slice, first: nat, frag: Payload): int {
    Min(first + |frag| - 1, |s.data| - 1)
  }

  /** `data` with `frag` written over `[first, last]`. */
  function Overlay(data: Payload, first: nat, last: nat, frag: Payload): Payload
    requires first <= last < |data| && last < first + |frag|
  {
    seq(|data|, i requires 0 <= i < |data| => if first <= i <= last then frag[i - first] else data[i])
  }

  function RecvSlice(s: Slice, epoch: Epoch, seqNo: nat, first: nat, frag: Payload): (r: Slice)
    requires s.data != [] && 0 < first + |frag|
    ensures |r.data| == |s.data| && r.epoch == s.epoch && r.seqNo == s.seqNo
  {
    var last := LastIndex(s, first, frag);
    if epoch != s.epoch || seqNo != s.seqNo || last < first then s
    else
      s.(data := Overlay(s.data, first, last, frag), runs := Add(s.runs, first, last))
  }

  // ---------------------------------------------------------------------
  // Sending
  // ---------------------------------------------------------------------

  function AckSlice(s: Slice, epoch: Epoch, seqNo: nat, lastIndex: nat): Slice {
    if epoch != s.epoch || seqNo != s.seqNo then s
    else s.(runs := Remove(s.runs, 0, lastIndex))
  }

  /** The fragments of `data[cursor..=end]`, each at most `size` bytes. */
  function MakeSlices(data: Payload, epoch: Epoch, seqNo: nat, cursor: nat, size: nat, end: nat): seq<LinkProtocol>
    requires data != []
    decreases end + 1 - cursor
  {
    if size == 0 then []
    else
      var sliceEnd := Min(Min(cursor + size - 1, end), |data| - 1);
      if sliceEnd < cursor then []
      else
        [MsgSlice(epoch, seqNo, |data|, cursor, data[cursor..sliceEnd + 1])]
        + if end < cursor + size then [] else MakeSlices(data, epoch, seqNo, cursor + size, size, end)
  }

  ghost function KeysFrom<V>(m: map<nat, V>, c: nat): set<nat> {
    set k | k in m && c <= k
  }

  /** The fragments of every run that starts at `c` or later, in order. */
  function SlicesFrom(s: Slice, c: nat, size: nat): seq<LinkProtocol>
    requires s.data != []
    decreases |KeysFrom(s.runs, c)|
  {
    match NextKey(s.runs, c)
    case None => []
    case Some(k) =>
      assert k in KeysFrom(s.runs, c) && KeysFrom(s.runs, k + 1) <= KeysFrom(s.runs, c) - {k};
      assert |KeysFrom(s.runs, k + 1)| <= |KeysFrom(s.runs, c) - {k}| by {
        SubsetSize(KeysFrom(s.runs, k + 1), KeysFrom(s.runs, c) - {k});
      }
      MakeSlices(s.data, s.epoch, s.seqNo, k, size, s.runs[k]) + SlicesFrom(s, k + 1, size)
  }

  lemma SubsetSize(a: set<nat>, b: set<nat>)
    requires a <= b
    ensures |a| <= |b|
  {
    if a != {} {
      var x :| x in a;
      SubsetSize(a - {x}, b - {x});
    }
  }

  /** Everything still pending, ready for transmission over a link that takes `size` bytes. */
  function GetSlices(s: Slice, size: nat): seq<LinkProtocol> {
    if s.data == [] then [] else SlicesFrom(s, 0, size)
  }
}
