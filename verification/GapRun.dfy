/**
 Why `EndToEndDelivery` asks for a clean run: a reachable run, with nothing lost
 but one fragment late, on which the wrong payload is delivered.
 */
module GapRun {
  import opened Prelude
  import opened Protocol
  import opened Intervals
  import opened Slices
  import opened Reassembly
  import opened Messages
  import opened Session
  import opened Refinement
  import opened System
  import opened Opening

  const TOLD: Payload := [7, 8, 9]

  const FIRST: LinkProtocol := MsgSlice(1, 0, 3, 0, [7])
  const LAST: LinkProtocol := MsgSlice(1, 0, 3, 2, [9])

  lemma OneByteFragments()
    ensures FIRST in GetSlices(FromVec(1, 0, TOLD), 1) && LAST in GetSlices(FromVec(1, 0, TOLD), 1)
  {
    var s := FromVec(1, 0, TOLD);
    assert 0 in s.runs;
    NextKeyIs(s.runs, 0, 0);
    var xs := MakeSlices(TOLD, 1, 0, 0, 1, 2);
    assert TOLD[0..1] == [7] && TOLD[2..3] == [9];
    assert MakeSlices(TOLD, 1, 0, 2, 1, 2) == [LAST];
    assert xs[0] == FIRST && xs[2] == LAST;
    assert GetSlices(s, 1) == xs + SlicesFrom(s, 1, 1);
  }

  lemma Sends(c: Core)
    requires c.state == Connected(1, NewMsgs(1), [LINK]) && c.journal == map[1 := []]
    ensures var o := Step(c, SendMsg(TOLD, None), {});
      FIRST in o.sent && LAST in o.sent && o.core.journal == map[1 := [TOLD]]
  {
    OneByteFragments();
    var o := Step(c, SendMsg(TOLD, None), {});
    assert [] + [TOLD] == [TOLD];
    assert o.core.journal == c.journal[1 := [TOLD]];
  }

  const HALF: Slice := Slice(1, 0, [0, 0, 9], map[2 := 2])
  const WHOLE: Slice := Slice(1, 0, [7, 0, 9], map[0 := 2])
  const HOLDING: Msgs := Msgs(1, map[], 0, map[0 := HALF], (0, 0))

  lemma LateFragment()
    ensures AfterTake(Recv(NewMsgs(1), 0, 2, 3, [9])) == HOLDING && Taken(Recv(NewMsgs(1), 0, 2, 3, [9])) == []
  {
    GapLast(1, 0);
    HeadMeaning(HALF);
    assert 2 in HALF.runs;
    var m := Recv(NewMsgs(1), 0, 2, 3, [9]);
    assert m.incoming == map[0 := HALF];
    assert AfterTake(m).incoming == m.incoming;
  }

  const DONE: Msgs := Msgs(1, map[], 0, map[0 := WHOLE], (1, 0))

  /** A full message with nothing behind it moves the frontier by one. */
  lemma AdvanceOne(incoming: map<nat, Slice>, s: Slice)
    requires incoming == map[0 := s] && IsFull(s)
    ensures Advance(incoming, (0, 0)) == (1, 0)
  {
    assert Advance(incoming, (1, 0)) == (1, 0);
  }

  lemma EarlyRecorded()
    ensures Recorded(HOLDING, 0, 0, 3, [7]) == map[0 := WHOLE]
  {
    GapFirst(1, 0);
  }

  lemma EarlyManager()
    ensures Recv(HOLDING, 0, 0, 3, [7]) == DONE
  {
    EarlyRecorded();
    AdvanceOne(map[0 := WHOLE], WHOLE);
  }

  lemma EarlyFragment()
    ensures Taken(Recv(HOLDING, 0, 0, 3, [7])) == [WHOLE.data]
  {
    EarlyManager();
    assert 0 in DONE.incoming;
    NextKeyIs(DONE.incoming, 0, 0);
    assert Collect(DONE.incoming, 1, 1) == [];
  }

  lemma GetsLast(c: Core)
    requires c.state == Connected(1, NewMsgs(1), [LINK])
    ensures Ready(c, FromLink(LAST))
    ensures var o := Step(c, FromLink(LAST), {});
      o.core.state == Connected(1, HOLDING, [LINK]) && o.core.events == c.events
  {
    LateFragment();
    assert c.events + MessageEvents([], 1) == c.events;
  }

  lemma GetsFirst(c: Core)
    requires c.state == Connected(1, HOLDING, [LINK])
    ensures Ready(c, FromLink(FIRST))
    ensures Step(c, FromLink(FIRST), {}).core.events == c.events + [GotMessage(WHOLE.data, 1)]
  {
    EarlyFragment();
    assert [WHOLE.data][..0] == [];
    assert MessageEvents([WHOLE.data], 1) == [] + [GotMessage(WHOLE.data, 1)];
  }

  const CORRUPTING: seq<Act> := OPENING + [
    Act(true, SendMsg(TOLD, None), {}),
    Act(false, FromLink(LAST), {}),
    Act(false, FromLink(FIRST), {})]

  lemma Told()
    ensures var s := After(OPENING + [CORRUPTING[4]]);
      && FIRST in s.ab && LAST in s.ab && s.a.journal == map[1 := [TOLD]]
      && s.b.state == Connected(1, NewMsgs(1), [LINK]) && s.b.events == [GotConnected(1)]
  {
    Opened();
    AfterSnoc(OPENING, CORRUPTING[4]);
    Sends(After(OPENING).a);
  }

  lemma Late()
    ensures var s := After(OPENING + [CORRUPTING[4]] + [CORRUPTING[5]]);
      && FIRST in s.ab && s.a.journal == map[1 := [TOLD]]
      && s.b.state == Connected(1, HOLDING, [LINK]) && s.b.events == [GotConnected(1)]
  {
    Told();
    AfterSnoc(OPENING + [CORRUPTING[4]], CORRUPTING[5]);
    GetsLast(After(OPENING + [CORRUPTING[4]]).b);
  }

  lemma Corrupted()
    ensures var s := After(CORRUPTING);
      s.a.journal == map[1 := [TOLD]] && s.b.events == [GotConnected(1), GotMessage(WHOLE.data, 1)]
  {
    Late();
    var late := OPENING + [CORRUPTING[4]] + [CORRUPTING[5]];
    AfterSnoc(late, CORRUPTING[6]);
    assert CORRUPTING == late + [CORRUPTING[6]];
    GetsFirst(After(late).b);
  }

  /** A sends 7 8 9 in three fragments; B gets the last, then the first, and delivers 7 0 9. */
  lemma ReorderingCorrupts()
    ensures var s := After(CORRUPTING);
      && Inserted(s.a, 1) == [[7, 8, 9]] && HandedOut(s.b, 1) == [[7, 0, 9]]
      && !(HandedOut(s.b, 1) <= Inserted(s.a, 1)) && !CleanRun(CORRUPTING)
  {
    Corrupted();
    ReceivedOne(WHOLE.data);
    var s := After(CORRUPTING);
    assert HandedOut(s.b, 1)[0][1] != Inserted(s.a, 1)[0][1];
    if CleanRun(CORRUPTING) {
      EndToEndDelivery(CORRUPTING, false, 1);
    }
  }

  lemma ReceivedOne(data: Payload)
    ensures Peers.Delivered(Inbox([GotConnected(1), GotMessage(data, 1)]), 1) == [data]
  {
    var events := [GotConnected(1), GotMessage(data, 1)];
    assert events[..1] == [GotConnected(1)] && [GotConnected(1)][..0] == [];
    assert Inbox([GotConnected(1)]) == [];
    assert Inbox(events) == [(data, 1)];
    assert [(data, 1)][..0] == [];
  }
}
