/**
 Over every run of one endpoint: what becomes of the user's messages, what the user
 is told, and how long a session lasts.
 */
module Fates {
  import opened Prelude
  import opened Epochs
  import opened Session
  import opened EventLog
  import opened TurnLaws
  import Discipline

  // ---------------------------------------------------------------------
  // Every run follows the diagram
  // ---------------------------------------------------------------------

  /** Where the diagram leads along a run. */
  function Walk(turns: seq<Turn>): D.Phase {
    if turns == [] then D.Disconnected
    else
      var init, t := turns[..|turns| - 1], turns[|turns| - 1];
      var c := Run(init);
      if Ready(c, t.input) then D.Next(Walk(init), SignalOf(c, t.input, t.closed), PolicyOf(c.cfg)) else Walk(init)
  }

  lemma {:induction false} RunWalks(turns: seq<Turn>)
    ensures PhaseOf(Run(turns).state) == Walk(turns)
  {
    if turns != [] {
      var n := |turns| - 1;
      RunWalks(turns[..n]);
      if Ready(Run(turns[..n]), turns[n].input) {
        TurnLeads(Run(turns[..n]), turns[n].input, turns[n].closed);
      }
    }
  }

  // ---------------------------------------------------------------------
  // What the user is told
  // ---------------------------------------------------------------------

  /** The events that are not messages. */
  function Notices(events: seq<Event>): seq<Event> {
    if events == [] then []
    else
      var n := |events| - 1;
      Notices(events[..n]) + if events[n].GotMessage? then [] else [events[n]]
  }

  /** One report per turn. */
  function Reports(turns: seq<Turn>): seq<Event> {
    if turns == [] then []
    else
      var init := turns[..|turns| - 1];
      Reports(init) + Report(Run(init).state, Run(turns).state)
  }

  lemma {:induction false} NoticesAppend(a: seq<Event>, b: seq<Event>)
    ensures Notices(a + b) == Notices(a) + Notices(b)
    decreases |b|
  {
    if b == [] {
      assert a + b == a;
    } else {
      var n := |b| - 1;
      assert (a + b)[..|a + b| - 1] == a + b[..n];
      NoticesAppend(a, b[..n]);
    }
  }

  lemma {:induction false} NoMessages(events: seq<Event>)
    requires forall ev :: ev in events ==> !ev.GotMessage?
    ensures Notices(events) == events
  {
    if events != [] {
      NoMessages(events[..|events| - 1]);
    }
  }

  lemma {:induction false} OnlyMessages(events: seq<Event>)
    requires forall ev :: ev in events ==> ev.GotMessage?
    ensures Notices(events) == []
  {
    if events != [] {
      OnlyMessages(events[..|events| - 1]);
    }
  }

  /** Nothing was said of a session starting or ending. */
  predicate Seamless(events: seq<Event>) {
    forall ev :: ev in events ==> !ev.GotConnected? && !ev.GotDisconnected?
  }

  lemma ReportNotices(s: State, t: State)
    ensures forall ev :: ev in Report(s, t) ==> !ev.GotMessage?
    ensures InSession(s) && InSession(t) ==> Seamless(Report(s, t))
  {
  }

  lemma NewsAreMessages(c: Core, input: Input)
    requires Ready(c, input)
    ensures forall ev :: ev in News(c, input) ==> ev.GotMessage?
  {
  }

  lemma {:induction false} NoticesAfter(events: seq<Event>, news: seq<Event>, report: seq<Event>)
    requires forall ev :: ev in news ==> ev.GotMessage?
    requires forall ev :: ev in report ==> !ev.GotMessage?
    ensures Notices(events + news + report) == Notices(events) + report
  {
    NoticesAppend(events + news, report);
    NoticesAppend(events, news);
    OnlyMessages(news);
    NoMessages(report);
  }

  lemma NoticesOfTurn(c: Core, input: Input, d: Core)
    requires Ready(c, input) && Told(c, input, d)
    ensures Notices(d.events) == Notices(c.events) + Report(c.state, d.state)
  {
    ReportNotices(c.state, d.state);
    NewsAreMessages(c, input);
    NoticesAfter(c.events, News(c, input), Report(c.state, d.state));
  }

  /**
   What a user is told beside messages is the story of the states an endpoint went
   through, one report per turn: nothing is left out and nothing is added.
   */
  lemma {:induction false} NoticesOfRun(turns: seq<Turn>)
    ensures Notices(Run(turns).events) == Reports(turns)
  {
    if turns != [] {
      var n := |turns| - 1;
      NoticesOfRun(turns[..n]);
      if Ready(Run(turns[..n]), turns[n].input) {
        TurnTold(Run(turns[..n]), turns[n].input, turns[n].closed);
        NoticesOfTurn(Run(turns[..n]), turns[n].input, Run(turns));
      }
    }
  }

  // ---------------------------------------------------------------------
  // What becomes of the user's messages
  // ---------------------------------------------------------------------

  /** The messages waiting for the next session, and those given to each session. */
  datatype Mail = Mail(waiting: seq<Payload>, given: map<nat, seq<Payload>>)

  function GivenTo(m: Mail, e: nat): seq<Payload> {
    if e in m.given then m.given[e] else []
  }

  /**
   One turn from `c` to a state `t`. A message joins the session, or waits for the next
   one, or is refused. A new session gets all that wait; what waits is lost if the
   endpoint gives up on the way.
   */
  function Sorted(m: Mail, c: Core, input: Input, t: State): Mail {
    Mail(if StillOpening(c.state, t) then m.waiting + Arrived(c, input) else [],
         if Submits(c, input) then m.given[c.state.session := GivenTo(m, c.state.session) + [input.data]]
         else if !InSession(c.state) && InSession(t) then m.given[t.session := m.waiting]
         else m.given)
  }

  /** The user's messages along a run, from the commands and the states alone. */
  function MailOf(turns: seq<Turn>): Mail {
    if turns == [] then Mail([], map[])
    else
      var init, t := turns[..|turns| - 1], turns[|turns| - 1];
      if Ready(Run(init), t.input) then Sorted(MailOf(init), Run(init), t.input, Run(turns).state) else MailOf(init)
  }

  /**
   No message is lost, kept back, repeated or reordered on the way into a session: on
   every run the queue holds exactly the messages that wait, and each session was given
   exactly its own, in the order of the user.
   */
  lemma {:induction false} MailOfRun(turns: seq<Turn>)
    ensures MailOf(turns) == Mail(QueueOf(Run(turns).state), Run(turns).journal)
  {
    if turns != [] {
      var n := |turns| - 1;
      MailOfRun(turns[..n]);
      if Ready(Run(turns[..n]), turns[n].input) {
        TurnPosts(Run(turns[..n]), turns[n].input, turns[n].closed);
      }
    }
  }

  // ---------------------------------------------------------------------
  // How long a session lasts
  // ---------------------------------------------------------------------

  /** No turn ends the session. */
  ghost predicate Unbroken(c: Core, turns: seq<Turn>) {
    turns != [] ==>
      var init, t := turns[..|turns| - 1], turns[|turns| - 1];
      var d := Discipline.RunFrom(c, init);
      Unbroken(c, init) && (Ready(d, t.input) ==> !EndsSession(d, t.input, t.closed))
  }

  /** The messages the user sent that are meant for session `e`. */
  function MeantFor(turns: seq<Turn>, e: Epoch): seq<Payload> {
    if turns == [] then []
    else
      var input := turns[|turns| - 1].input;
      MeantFor(turns[..|turns| - 1], e) + if input.SendMsg? && Meant(input.tag, e) then [input.data] else []
  }

  /** From `c` to `d` the session went on: silently, with all of the user's messages, numbered on. */
  ghost predicate GoesOn(c: Core, d: Core, more: seq<Payload>) {
    && InSession(c.state) && InSession(d.state) && d.state.session == c.state.session
    && c.events <= d.events && Seamless(d.events[|c.events|..])
    && Inserted(d, c.state.session) == Inserted(c, c.state.session) + more
    && d.state.mgr.nextSeq == c.state.mgr.nextSeq + |more|
  }

  lemma SilentlyOn(c: Core, input: Input, d: Core)
    requires Ready(c, input) && Told(c, input, d) && InSession(c.state) && InSession(d.state)
    ensures c.events <= d.events && Seamless(d.events[|c.events|..])
  {
    var more := News(c, input) + Report(c.state, d.state);
    Regroup(c.events, News(c, input), Report(c.state, d.state));
    assert d.events[|c.events|..] == more;
    ReportNotices(c.state, d.state);
    NewsAreMessages(c, input);
  }

  lemma MeantForOne(t: Turn, e: Epoch)
    ensures MeantFor([t], e) == if t.input.SendMsg? && Meant(t.input.tag, e) then [t.input.data] else []
  {
    assert [t][..0] == [];
    assert MeantFor([], e) == [];
  }

  lemma NumberedOn(c: Core, input: Input, d: Core)
    requires InSession(c.state) && InSession(d.state) && Ready(c, input) && d.state.mgr == Worked(c, input)
    ensures d.state.mgr.nextSeq == c.state.mgr.nextSeq + if Submits(c, input) then 1 else 0
  {
  }

  lemma TurnGoesOn(c: Core, t: Turn)
    requires InSession(c.state) && Ready(c, t.input) && !EndsSession(c, t.input, t.closed)
    ensures GoesOn(c, Step(c, t.input, t.closed).core, MeantFor([t], c.state.session))
  {
    var d := Step(c, t.input, t.closed).core;
    SessionEndsIff(c, t.input, t.closed);
    TurnTold(c, t.input, t.closed);
    TurnPosts(c, t.input, t.closed);
    SilentlyOn(c, t.input, d);
    NumberedOn(c, t.input, d);
    MeantForOne(t, c.state.session);
  }

  lemma GoesOnTwice(c: Core, d: Core, f: Core, more: seq<Payload>, most: seq<Payload>)
    requires GoesOn(c, d, more) && GoesOn(d, f, most)
    ensures GoesOn(c, f, more + most)
  {
    Regroup(Inserted(c, c.state.session), more, most);
    assert f.events[|c.events|..] == d.events[|c.events|..] + f.events[|d.events|..];
  }

  lemma MeantForSnoc(turns: seq<Turn>, t: Turn, e: Epoch)
    ensures MeantFor(turns + [t], e) == MeantFor(turns, e) + MeantFor([t], e)
  {
    assert (turns + [t])[..|turns|] == turns;
    MeantForOne(t, e);
  }

  /**
   A session outlives its links. For as long as no turn ends it, whatever links come and
   go and however long it is without any, the user sees no disconnection, and every
   message sent meanwhile joins the session, in order and with the next numbers.
   */
  lemma {:induction false} SessionLasts(c: Core, turns: seq<Turn>)
    requires InSession(c.state) && Unbroken(c, turns)
    ensures GoesOn(c, Discipline.RunFrom(c, turns), MeantFor(turns, c.state.session))
  {
    if turns == [] {
      assert c.events[|c.events|..] == [];
    } else {
      var init, t := turns[..|turns| - 1], turns[|turns| - 1];
      SessionLasts(c, init);
      var d := Discipline.RunFrom(c, init);
      assert turns == init + [t];
      MeantForSnoc(init, t, c.state.session);
      if Ready(d, t.input) {
        TurnGoesOn(d, t);
        var e := c.state.session;
        GoesOnTwice(c, d, Discipline.RunFrom(c, turns), MeantFor(init, e), MeantFor([t], e));
      } else {
        MeantForOne(t, c.state.session);
      }
    }
  }
}
