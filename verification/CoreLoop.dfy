/** The loop around the core: every run of the object is a run of the session state machine. */
module CoreLoop {
  import opened LinkSetCores
  import E = EventLog
  import Discipline
  import F = Fates
  import LinkSizes
  import TurnLaws

  predicate Manageable(turns: seq<E.Turn>) {
    forall k {:trigger turns[k]} :: 0 <= k < |turns| ==> V.Ready(E.Run(turns[..k]), turns[k].input)
  }

  /** What the state machine promises of every run: log, flag and epochs; timer; links. */
  ghost predicate Sound(c: V.Core) {
    E.Consistent(c) && Discipline.TimerKept(c) && LinkSizes.LinksUsable(c)
  }

  /** It went where the diagram leads, told its user so, and sorted the user's messages. */
  ghost predicate Accounted(c: V.Core, turns: seq<E.Turn>) {
    && TurnLaws.PhaseOf(c.state) == F.Walk(turns)
    && F.Notices(c.events) == F.Reports(turns)
    && F.MailOf(turns) == F.Mail(TurnLaws.QueueOf(c.state), c.journal)
  }

  method Start(turns: seq<E.Turn>) returns (core: LinkSetCore)
    requires Manageable(turns)
    ensures core.Valid() && core.View() == E.Run(turns)
    ensures Sound(core.View()) && Accounted(core.View(), turns)
    ensures forall k :: 0 <= k <= |turns| ==>
      Epochs.ToInt(V.EpochOf(E.Run(turns[..k]).state)) <= Epochs.ToInt(V.EpochOf(core.State()))
  {
    core := new LinkSetCore();
    for i := 0 to |turns|
      invariant fresh(core) && fresh(core.mgr) && fresh(core.timer)
      invariant core.Valid() && core.View() == E.Run(turns[..i])
    {
      assert turns[..i + 1][..i] == turns[..i];
      core.Handle(turns[i].input, turns[i].closed);
    }
    assert turns[..|turns|] == turns;
    E.RunConsistent(turns);
    Discipline.RunTimer(turns);
    LinkSizes.RunLinks(turns);
    F.RunWalks(turns);
    F.NoticesOfRun(turns);
    F.MailOfRun(turns);
    forall k | 0 <= k <= |turns|
      ensures Epochs.ToInt(V.EpochOf(E.Run(turns[..k]).state)) <= Epochs.ToInt(V.EpochOf(E.Run(turns).state))
    {
      E.EpochNeverFalls(turns, k);
    }
  }
}
