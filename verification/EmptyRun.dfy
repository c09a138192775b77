/** A reachable state in which an empty message is stuck. */
module EmptyRun {
  import opened Prelude
  import opened Slices
  import opened Messages
  import opened Session
  import opened System
  import opened Opening
  import opened Handshake
  import opened Progress

  const NOTHING: Act := Act(true, SendMsg([], None), {})
  const STUCK: Msgs := Msgs(1, map[0 := FromVec(1, 0, [])], 1, map[], (0, 0))

  lemma SendsNothing()
    ensures var o := Step(OPENED, SendMsg([], None), {});
      && o.core.state == Connected(1, STUCK, [LINK]) && o.sent == [] && o.core.journal == map[1 := [[]]]
  {
    var o := Step(OPENED, SendMsg([], None), {});
    var journal: seq<Payload> := [[]];
    NothingBefore(journal);
    assert o.core.journal == OPENED.journal[1 := journal];
  }

  const STALLED: seq<Act> := OPENING + [NOTHING]

  lemma Stalled()
    ensures var s := After(STALLED);
      s.a.state == Connected(1, STUCK, [LINK]) && s.a.journal == map[1 := [[]]] && s.b == OPENED
  {
    Opened();
    AfterSnoc(OPENING, NOTHING);
    SendsNothing();
    StepOfA(FOUR, NOTHING.input, Step(OPENED, NOTHING.input, {}));
  }

  /** The session is open, one empty message is outgoing, and no loss-free round gets it through. */
  lemma EmptyMessageStuck()
    ensures var s := After(STALLED);
      && Up(s.a, 1) && Up(s.b, 1) && Inserted(s.a, 1) == [[]] && EarliestOutgoing(s.a.state.mgr) == Some(0)
      && Up(Round(s.a, s.b).0, 1)
      && !(Round(s.a, s.b).0.state.mgr.outgoing.Keys < s.a.state.mgr.outgoing.Keys)
  {
    Stalled();
    assert 0 in STUCK.outgoing;
    EarliestIs(STUCK, 0);
    var journal: seq<Payload> := [[]];
    assert journal[0] == [] && !AllNonEmpty(journal, 0);
    ResendProgress(STALLED, true, 1, 0);
  }
}
