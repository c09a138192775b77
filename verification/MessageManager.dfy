/**
 The message manager as the program keeps it: maps and counters that its methods
 update in place. The slice managers it owns are held by value. Each method is
 proved against `Messages`.
 */
module MessageManagers {
  import opened Prelude
  import opened Epochs
  import opened Intervals
  import S = Slices
  import M = Messages

  class MessageManager {
    const epoch: Epoch
    /** Messages being sent to the other side. */
    var outgoing: map<nat, S.Slice>
    var nextSeq: nat
    /** Messages being reassembled. */
    var incoming: map<nat, S.Slice>
    var lastAck: (nat, nat)

    ghost function Value(): M.Msgs
      reads this
    {
      M.Msgs(epoch, outgoing, nextSeq, incoming, lastAck)
    }

    /** Everything below the frontier has been handed out. */
    ghost predicate Drained()
      reads this
    {
      forall q :: q in incoming ==> lastAck.0 <= q
    }

    constructor (epoch: Epoch)
      ensures Value() == M.NewMsgs(epoch) && Drained()
    {
      this.epoch := epoch;
      outgoing, nextSeq := map[], 0;
      incoming, lastAck := map[], (0, 0);
    }

    method InsertMsg(data: Payload) returns (seqNo: nat)
      modifies this
      ensures seqNo == old(nextSeq) && Value() == M.InsertMsg(old(Value()), data)
    {
      seqNo := nextSeq;
      nextSeq := nextSeq + 1;
      outgoing := outgoing[seqNo := S.FromVec(epoch, seqNo, data)];
    }

    /** Drop the messages below the ack and trim the one it names. */
    method RecvAck(ack: (nat, nat))
      modifies this
      ensures Value() == M.RecvAck(old(Value()), ack)
    {
      outgoing := map q | q in outgoing && ack.0 <= q :: outgoing[q];
      if ack.0 in outgoing {
        outgoing := outgoing[ack.0 := S.AckSlice(outgoing[ack.0], epoch, ack.0, ack.1)];
        if S.IsEmpty(outgoing[ack.0]) {
          outgoing := map q | q in outgoing && q != ack.0 :: outgoing[q];
        }
      }
    }

    method RecvInRange(seqNo: nat, firstIndex: nat, seqLen: nat) returns (r: bool)
      ensures r == M.RecvInRange(Value(), seqNo, firstIndex, seqLen)
    {
      if seqNo < lastAck.0 {
        return false;
      }
      if seqNo > lastAck.0 {
        return true;
      }
      r := firstIndex + seqLen > lastAck.1;
    }

    /** Add a fragment; returns whether an ack should be sent. */
    method Recv(seqNo: nat, firstIndex: nat, seqLen: nat, data: Payload) returns (shouldAck: bool)
      requires M.Takes(Value(), seqNo, firstIndex, seqLen, data)
      modifies this
      ensures Value() == M.Recv(old(Value()), seqNo, firstIndex, seqLen, data)
      ensures shouldAck == M.ShouldAck(old(Value()), seqNo, firstIndex, seqLen, data)
      ensures old(Drained()) ==> forall q :: q in incoming && q < lastAck.0 ==> S.IsFull(incoming[q])
    {
      var inRange := RecvInRange(seqNo, firstIndex, seqLen);
      if !inRange {
        return true;
      }
      if seqNo !in incoming {
        incoming := incoming[seqNo := S.NewSlice(epoch, seqNo, seqLen)];
      }
      incoming := incoming[seqNo := S.RecvSlice(incoming[seqNo], epoch, seqNo, firstIndex, data)];
      assert incoming == M.Recorded(old(Value()), seqNo, firstIndex, seqLen, data);
      if seqNo > lastAck.0 {
        return false;
      }
      M.AdvanceMeaning(incoming, lastAck);
      shouldAck := Advance();
    }

    /** Move `lastAck` over every message that is full; true if one was, or if it did not move. */
    method Advance() returns (didChange: bool)
      requires lastAck.0 in incoming
      modifies this`lastAck
      ensures lastAck == M.Advance(incoming, old(lastAck))
      ensures didChange ==
        (S.IsFull(incoming[old(lastAck).0]) || old(lastAck) == (old(lastAck).0, M.HeadOr0(incoming[old(lastAck).0])))
    {
      didChange := false;
      ghost var target := M.Advance(incoming, lastAck);
      while lastAck.0 in incoming
        invariant M.Advance(incoming, lastAck) == target
        invariant if didChange then S.IsFull(incoming[old(lastAck).0]) else lastAck == old(lastAck)
        decreases |S.KeysFrom(incoming, lastAck.0)|
      {
        var s := incoming[lastAck.0];
        if S.IsFull(s) {
          M.KeysFromShrinks(incoming, lastAck.0);
          lastAck := (lastAck.0 + 1, 0);
          didChange := true;
        } else {
          var head := S.LastHeadIndex(s);
          var offset := if head.Some? then head.value else 0;
          didChange := didChange || lastAck == (lastAck.0, offset);
          lastAck := (lastAck.0, offset);
          break;
        }
      }
    }

    /** Hand out the messages below `lastAck`, in order; each of them is full, so no unwrap fails. */
    method TakeRecvd() returns (ret: seq<Payload>)
      requires forall k :: k in incoming && k < lastAck.0 ==> S.IsFull(incoming[k])
      modifies this`incoming
      ensures ret == M.Taken(old(Value())) && Value() == M.AfterTake(old(Value())) && Drained()
    {
      var taken := map q | q in incoming && q < lastAck.0 :: incoming[q];
      ret := Payloads(taken, incoming, lastAck.0);
      incoming := map q | q in incoming && lastAck.0 <= q :: incoming[q];
    }
  }

  /** The payloads of the messages of `all` below `limit`, in order. */
  method Payloads(taken: map<nat, S.Slice>, ghost all: map<nat, S.Slice>, ghost limit: nat) returns (ret: seq<Payload>)
    requires taken == map q | q in all && q < limit :: all[q]
    ensures ret == M.Collect(all, 0, limit)
  {
    ret := [];
    var cursor: nat := 0;
    var next := NextKey(taken, 0);
    while next.Some?
      invariant next == NextKey(taken, cursor)
      invariant ret + M.Collect(all, cursor, limit) == M.Collect(all, 0, limit)
      decreases |S.KeysFrom(taken, cursor)|
    {
      var k := next.value;
      CollectNext(all, taken, cursor, k, limit, ret);
      ret := ret + [taken[k].data];
      cursor := k + 1;
      next := NextKey(taken, cursor);
    }
    CollectNone(all, taken, cursor, limit);
  }

  lemma CollectNext(
    all: map<nat, S.Slice>, taken: map<nat, S.Slice>, c: nat, k: nat, limit: nat, done: seq<Payload>)
    requires taken == map q | q in all && q < limit :: all[q]
    requires NextKey(taken, c) == Some(k)
    ensures done + M.Collect(all, c, limit) == done + [all[k].data] + M.Collect(all, k + 1, limit)
    ensures |S.KeysFrom(taken, k + 1)| < |S.KeysFrom(taken, c)|
  {
    assert forall j :: j in all && c <= j < k ==> j in taken;
    NextKeyIs(all, c, k);
    assert M.Collect(all, c, limit) == [all[k].data] + M.Collect(all, k + 1, limit);
    assert k in S.KeysFrom(taken, c);
    S.SubsetSize(S.KeysFrom(taken, k + 1), S.KeysFrom(taken, c) - {k});
  }

  lemma CollectNone(all: map<nat, S.Slice>, taken: map<nat, S.Slice>, c: nat, limit: nat)
    requires taken == map q | q in all && q < limit :: all[q]
    requires NextKey(taken, c).None?
    ensures M.Collect(all, c, limit) == []
  {
    assert forall j :: j in all && j < limit ==> j in taken;
  }
}
