/** Each endpoint of the two-endpoint system is a run of one endpoint. */
module Projection {
  import opened System
  import EventLog
  import Discipline
  import LinkSizes

  /** The turns of one endpoint in a run of the system. */
  function Turns(acts: seq<Act>, atA: bool): seq<EventLog.Turn> {
    if acts == [] then []
    else
      var n := |acts| - 1;
      var act := acts[n];
      Turns(acts[..n], atA) +
      if act.atA == atA && Enabled(View(acts[..n], atA), act.input) then [EventLog.Turn(act.input, act.closed)] else []
  }

  lemma {:induction false} EndpointRuns(acts: seq<Act>, atA: bool)
    ensures View(acts, atA).a == EventLog.Run(Turns(acts, atA))
  {
    if acts != [] {
      var n := |acts| - 1;
      EndpointRuns(acts[..n], atA);
      var turns := Turns(acts, atA);
      if acts[n].atA == atA && Enabled(View(acts[..n], atA), acts[n].input) {
        assert turns[..|turns| - 1] == Turns(acts[..n], atA);
      } else {
        assert turns == Turns(acts[..n], atA);
      }
    }
  }

  /** The single-endpoint theorems hold of both endpoints of every system run. */
  lemma EndpointFacts(acts: seq<Act>, atA: bool)
    ensures var c := View(acts, atA).a;
      EventLog.Consistent(c) && Discipline.TimerKept(c) && LinkSizes.LinksUsable(c)
  {
    EndpointRuns(acts, atA);
    EventLog.RunConsistent(Turns(acts, atA));
    Discipline.RunTimer(Turns(acts, atA));
    LinkSizes.RunLinks(Turns(acts, atA));
  }
}
