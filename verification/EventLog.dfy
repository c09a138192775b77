/** What one endpoint tells its user, over every run and whatever its peer sends. */
module EventLog {
  import opened Prelude
  import opened Epochs
  import opened Protocol
  import opened Messages
  import opened Session

  /** The last `AttemptingConnection` value; false if there was none. */
  function Trying(events: seq<Event>): bool {
    if events == [] then false
    else
      var last := events[|events| - 1];
      if last.AttemptingConnection? then last.trying else Trying(events[..|events| - 1])
  }

  /** The session announced by the last Connected or Disconnected event. */
  function Announced(events: seq<Event>): Option<Epoch> {
    if events == [] then None
    else
      match events[|events| - 1]
      case GotConnected(e) => Some(e)
      case GotDisconnected => None
      case _ => Announced(events[..|events| - 1])
  }

  /** An event that may follow `before`. */
  ghost predicate MayFollow(before: seq<Event>, ev: Event) {
    match ev
    case AttemptingConnection(b) => b != Trying(before)
    case GotMessage(_, e) => Announced(before) == Some(e)
    case GotDisconnected => Announced(before).Some?
    case GotConnected(e) =>
      forall j :: 0 <= j < |before| && before[j].GotConnected? ==> before[j].epoch < e || before[j].epoch == MAX_EPOCH
  }

  /** Every event may follow those before it. */
  ghost predicate WellLogged(events: seq<Event>) {
    events != [] ==>
      var n := |events| - 1;
      WellLogged(events[..n]) && MayFollow(events[..n], events[n])
  }

  lemma {:induction false} LoggedAt(events: seq<Event>, i: nat)
    requires WellLogged(events) && i < |events|
    ensures MayFollow(events[..i], events[i])
  {
    var n := |events| - 1;
    if i < n {
      assert events[..n][..i] == events[..i];
      LoggedAt(events[..n], i);
    }
  }

  lemma Logged(events: seq<Event>, ev: Event)
    requires WellLogged(events) && MayFollow(events, ev)
    ensures WellLogged(events + [ev])
  {
    assert (events + [ev])[..|events|] == events;
  }

  lemma LastEvent(events: seq<Event>, ev: Event)
    ensures Trying(events + [ev]) == if ev.AttemptingConnection? then ev.trying else Trying(events)
    ensures Announced(events + [ev]) ==
      if ev.GotConnected? then Some(ev.epoch) else if ev.GotDisconnected? then None else Announced(events)
  {
    assert (events + [ev])[..|events|] == events;
  }

  lemma {:induction false} MessagesLogged(events: seq<Event>, msgs: seq<Payload>, e: Epoch)
    requires WellLogged(events) && Announced(events) == Some(e)
    ensures var all := events + MessageEvents(msgs, e);
      WellLogged(all) && Announced(all) == Some(e) && Trying(all) == Trying(events)
  {
    if msgs == [] {
      assert events + MessageEvents(msgs, e) == events;
    } else {
      var n := |msgs| - 1;
      MessagesLogged(events, msgs[..n], e);
      var most := events + MessageEvents(msgs[..n], e);
      var ev := GotMessage(msgs[n], e);
      assert events + MessageEvents(msgs, e) == most + [ev];
      Logged(most, ev);
      LastEvent(most, ev);
    }
  }

  // ---------------------------------------------------------------------
  // The invariant of one endpoint
  // ---------------------------------------------------------------------

  /** Announced sessions lie below the current epoch, or are the current session. */
  predicate PastSession(c: Core, e: Epoch) {
    e == MAX_EPOCH || e < ToInt(EpochOf(c.state)) || (InSession(c.state) && e == c.state.session)
  }

  ghost predicate SessionsPast(c: Core) {
    forall j :: 0 <= j < |c.events| && c.events[j].GotConnected? ==> PastSession(c, c.events[j].epoch)
  }

  ghost predicate Consistent(c: Core) {
    && WellLogged(c.events)
    && Trying(c.events) == (c.state.Connecting? || c.state.Reconnecting?)
    && c.active == c.state.Connected?
    && (InSession(c.state) ==> Announced(c.events) == Some(c.state.session) && c.state.mgr.epoch == c.state.session)
    && SessionsPast(c)
  }

  /** The epoch never falls, and leaving a session raises it (saturation aside). */
  predicate EpochRises(c: Core, d: Core) {
    && ToInt(EpochOf(c.state)) <= ToInt(EpochOf(d.state))
    && (InSession(c.state) && !InSession(d.state) && c.state.session < MAX_EPOCH ==>
          c.state.session < ToInt(EpochOf(d.state)))
    && (InSession(c.state) && InSession(d.state) ==> c.state.session == d.state.session)
  }

  lemma SessionsStayPast(c: Core, d: Core)
    requires SessionsPast(c) && EpochRises(c, d)
    requires |c.events| <= |d.events| && d.events[..|c.events|] == c.events
    requires forall j :: |c.events| <= j < |d.events| ==> !d.events[j].GotConnected?
    ensures SessionsPast(d)
  {
    forall j | 0 <= j < |d.events| && d.events[j].GotConnected? ensures PastSession(d, d.events[j].epoch) {
      assert d.events[..|c.events|][j] == c.events[j];
      assert PastSession(c, c.events[j].epoch);
    }
  }

  /** Steps that emit at most one notice. */
  lemma OneNotice(c: Core, d: Core, ev: Event)
    requires Consistent(c) && EpochRises(c, d)
    requires d.events == c.events + [ev] && MayFollow(c.events, ev) && !ev.GotConnected?
    requires Trying(d.events) == (d.state.Connecting? || d.state.Reconnecting?)
    requires d.active == d.state.Connected?
    requires InSession(d.state) ==> InSession(c.state) && d.state.mgr.epoch == d.state.session && ev.AttemptingConnection?
    ensures Consistent(d)
  {
    Logged(c.events, ev);
    LastEvent(c.events, ev);
    SessionsStayPast(c, d);
  }

  lemma NoNotice(c: Core, d: Core)
    requires Consistent(c) && EpochRises(c, d) && d.events == c.events
    requires (d.state.Connecting? || d.state.Reconnecting?) == (c.state.Connecting? || c.state.Reconnecting?)
    requires d.active == d.state.Connected?
    requires InSession(d.state) ==> InSession(c.state) && d.state.mgr.epoch == d.state.session
    ensures Consistent(d)
  {
    SessionsStayPast(c, d);
  }

  lemma TwoNotices(c: Core, d: Core, ev: Event, ev': Event)
    requires Consistent(c) && EpochRises(c, d) && !InSession(d.state)
    requires d.events == c.events + [ev, ev'] && !ev.GotConnected? && !ev'.GotConnected?
    requires MayFollow(c.events, ev) && MayFollow(c.events + [ev], ev')
    requires Trying(d.events) == d.state.Connecting? && !d.active
    ensures Consistent(d)
  {
    Logged(c.events, ev);
    Logged(c.events + [ev], ev');
    assert d.events == c.events + [ev] + [ev'];
    SessionsStayPast(c, d);
  }

  lemma DisconnectedConsistent(c: Core)
    requires Consistent(c)
    ensures Consistent(ToDisconnected(c)) && EpochRises(c, ToDisconnected(c))
  {
    var d := ToDisconnected(c);
    var off, gone := AttemptingConnection(false), GotDisconnected;
    LastEvent(c.events, off);
    LastEvent(c.events, gone);
    match c.state
    case Disconnected(_) =>
    case Connecting(_, _) => OneNotice(c, d, off);
    case EpochMismatch(_, _, _) => NoNotice(c, d);
    case Connected(_, _, _) => OneNotice(c, d, gone);
    case Reconnecting(_, _) =>
      LastEvent(c.events + [off], gone);
      assert c.events + [off] + [gone] == c.events + [off, gone];
      TwoNotices(c, d, off, gone);
    case GracePeriod(_, _) => OneNotice(c, d, gone);
  }

  lemma ConnectingConsistent(c: Core, queued: seq<Payload>)
    requires Consistent(c)
    ensures Consistent(ToConnecting(c, queued)) && EpochRises(c, ToConnecting(c, queued))
  {
    var d := ToConnecting(c, queued);
    var on, gone := AttemptingConnection(true), GotDisconnected;
    LastEvent(c.events, on);
    LastEvent(c.events, gone);
    match c.state
    case Disconnected(_) => OneNotice(c, d, on);
    case EpochMismatch(_, _, _) => OneNotice(c, d, on);
    case Reconnecting(_, _) => OneNotice(c, d, gone);
    case GracePeriod(_, _) => GraceToConnecting(c, queued);
    case _ =>
  }

  lemma GraceToConnecting(c: Core, queued: seq<Payload>)
    requires c.state.GracePeriod? && Consistent(c)
    ensures Consistent(ToConnecting(c, queued)) && EpochRises(c, ToConnecting(c, queued))
  {
    var on, gone := AttemptingConnection(true), GotDisconnected;
    LastEvent(c.events, gone);
    LastEvent(c.events + [gone], on);
    assert c.events + [gone] + [on] == c.events + [gone, on];
    TwoNotices(c, ToConnecting(c, queued), gone, on);
  }

  lemma SettleConsistent(c: Core)
    requires c.state.Connected? && Consistent(c)
    ensures Consistent(Settle(c)) && EpochRises(c, Settle(c))
  {
    LastEvent(c.events, AttemptingConnection(true));
    if c.state.links == [] {
      if c.cfg.reconnecting != Some(0) {
        OneNotice(c, Settle(c), AttemptingConnection(true));
      } else if c.cfg.gracePeriod != Some(0) {
        NoNotice(c, Settle(c));
      } else {
        DisconnectedConsistent(c);
      }
    }
  }

  lemma FirstLinkConsistent(c: Core, link: Link, closed: set<nat>)
    requires (c.state.Disconnected? || c.state.Connecting?) && Consistent(c)
    ensures var d := ToMismatchWith(c, link, closed).core; Consistent(d) && EpochRises(c, d)
  {
    var d := ToMismatchWith(c, link, closed).core;
    if c.state.Connecting? {
      LastEvent(c.events, AttemptingConnection(false));
      OneNotice(c, d, AttemptingConnection(false));
    } else {
      assert d.events == c.events;
      NoNotice(c, d);
    }
  }

  lemma {:induction false} InsertAllEpoch(m: Msgs, msgs: seq<Payload>)
    ensures InsertAll(m, msgs).epoch == m.epoch
  {
    if msgs != [] {
      InsertAllEpoch(m, msgs[..|msgs| - 1]);
    }
  }

  /** A new session is announced with an epoch above every earlier one. */
  lemma NewSessionConsistent(c: Core, e: Epoch, live: seq<Link>)
    requires c.state.EpochMismatch? && Consistent(c) && ToInt(c.state.epoch) <= e
    ensures var d := ToConnectedNew(c, e, live).core; Consistent(d) && EpochRises(c, d)
  {
    var d := ToConnectedNew(c, e, live).core;
    InsertAllEpoch(NewMsgs(e), c.state.queued);
    forall j | 0 <= j < |c.events| && c.events[j].GotConnected?
      ensures c.events[j].epoch < e || c.events[j].epoch == MAX_EPOCH
    {
      assert PastSession(c, c.events[j].epoch);
    }
    Logged(c.events, GotConnected(e));
    LastEvent(c.events, GotConnected(e));
    forall j | 0 <= j < |d.events| && d.events[j].GotConnected? ensures PastSession(d, d.events[j].epoch) {
      if j < |c.events| {
        assert d.events[j] == c.events[j];
      }
    }
  }

  lemma NegotiateConsistent(c: Core, theirs: Option<Epoch>, request: bool, closed: set<nat>)
    requires c.state.EpochMismatch? && Consistent(c)
    ensures var d := Negotiate(c, theirs, request, closed).core; Consistent(d) && EpochRises(c, d)
  {
    var d := Negotiate(c, theirs, request, closed).core;
    CompareMeaning(c.state.epoch, theirs);
    if d.state.Connected? {
      NewSessionConsistent(c, d.state.session, d.state.links);
    } else {
      NoNotice(c, d);
    }
  }

  lemma AgainConsistent(c: Core, link: Link)
    requires (c.state.Reconnecting? || c.state.GracePeriod?) && Consistent(c)
    ensures var d := ToConnectedAgain(c, link); Consistent(d) && EpochRises(c, d)
  {
    var d := ToConnectedAgain(c, link);
    if c.state.Reconnecting? {
      LastEvent(c.events, AttemptingConnection(false));
      OneNotice(c, d, AttemptingConnection(false));
    } else {
      assert d.events == c.events;
      NoNotice(c, d);
    }
  }

  lemma ReceiveConsistent(c: Core, x: LinkProtocol)
    requires InSession(c.state) && OfSession(c.state, x) && Ready(c, FromLink(x)) && Consistent(c)
    ensures var d := Receive(c, x); Consistent(d) && EpochRises(c, d)
  {
    var d := Receive(c, x);
    var m := Recv(c.state.mgr, x.seqNo, x.firstIndex, x.seqLen, x.data);
    assert m.epoch == c.state.mgr.epoch;
    MessagesLogged(c.events, Taken(m), c.state.session);
    SessionsStayPast(c, d);
  }

  /** Steps that touch neither the events nor the phase. */
  lemma Unannounced(c: Core, d: Core)
    requires Consistent(c) && d.events == c.events && d.active == c.active
    requires EpochOf(d.state) == EpochOf(c.state)
    requires d.state.Connected? == c.state.Connected? && d.state.Connecting? == c.state.Connecting?
    requires d.state.Reconnecting? == c.state.Reconnecting? && d.state.GracePeriod? == c.state.GracePeriod?
    requires InSession(d.state) ==> d.state.mgr.epoch == c.state.mgr.epoch
    ensures Consistent(d) && EpochRises(c, d)
  {
    NoNotice(c, d);
  }

  lemma IdleLinkConsistent(c: Core, input: Input, closed: set<nat>)
    requires (c.state.Disconnected? || c.state.Connecting?) && input.AddLink? && Consistent(c)
    ensures var d := Dispatch(c, input, closed).core; Consistent(d) && EpochRises(c, d)
  {
    var n := NextLink(c);
    Unannounced(c, n);
    if Accepts(input) {
      FirstLinkConsistent(n, NewLink(c, input), closed);
    }
  }

  lemma IdleConsistent(c: Core, input: Input, closed: set<nat>)
    requires (c.state.Disconnected? || c.state.Connecting?) && Ready(c, input) && !input.AddLink? && Consistent(c)
    ensures var d := Dispatch(c, input, closed).core; Consistent(d) && EpochRises(c, d)
  {
    var d := Dispatch(c, input, closed).core;
    if c.state.Disconnected? && d.state.Connecting? {
      ConnectingConsistent(c, d.state.queued);
    } else if c.state.Connecting? && d.state.Disconnected? {
      var t := if input.Tick? then c.(timer := STOPPED) else c;
      Unannounced(c, t);
      DisconnectedConsistent(t);
    } else {
      Unannounced(c, d);
    }
  }

  lemma MismatchConsistent(c: Core, input: Input, closed: set<nat>)
    requires c.state.EpochMismatch? && Consistent(c)
    ensures var d := StepMismatch(c, input, closed).core; Consistent(d) && EpochRises(c, d)
  {
    var d := StepMismatch(c, input, closed).core;
    match input
    case Disconnect => DisconnectedConsistent(c);
    case FromLink(msg) =>
      if msg.Reset? {
        NegotiateConsistent(c, msg.epoch, msg.request, closed);
      }
    case Tick =>
      var live := Relinked(c, Upkeep(c.state.links, closed));
      Unannounced(c, live);
      ConnectingConsistent(live, []);
      DisconnectedConsistent(live);
    case _ => Unannounced(c, d);
  }

  lemma ConnectedMsgConsistent(c: Core, x: LinkProtocol, closed: set<nat>)
    requires c.state.Connected? && Ready(c, FromLink(x)) && Consistent(c)
    ensures var d := StepConnectedMsg(c, x, closed).core; Consistent(d) && EpochRises(c, d)
  {
    var d := StepConnectedMsg(c, x, closed).core;
    var live := DropClosed(c.state.links, closed);
    match x
    case Reset(theirs, request) =>
      if request && theirs == Some(c.state.session) {
        Unannounced(c, WithLinks(c, live));
        SettleConsistent(WithLinks(c, live));
      } else if request {
        NoNotice(c, d);
      }
    case MsgSlice(e, _, _, _, _) =>
      if e == c.state.session {
        ReceiveConsistent(c, x);
        var r := Receive(c, x);
        Unannounced(r, WithLinks(r, live));
        SettleConsistent(WithLinks(r, live));
        SettleConsistent(r);
      }
    case _ => Unannounced(c, d);
  }

  lemma ConnectedConsistent(c: Core, input: Input, closed: set<nat>)
    requires c.state.Connected? && Ready(c, input) && Consistent(c)
    ensures var d := StepConnected(c, input, closed).core; Consistent(d) && EpochRises(c, d)
  {
    var d := StepConnected(c, input, closed).core;
    match input
    case Disconnect => DisconnectedConsistent(c);
    case SendMsg(data, tag) =>
      if !WrongTag(tag, c.state.session) {
        var r := WithLinks(Insert(c, data), DropClosed(c.state.links, closed));
        Unannounced(c, r);
        SettleConsistent(r);
      }
    case FromLink(x) => ConnectedMsgConsistent(c, x, closed);
    case Tick =>
      var r := WithLinks(c, Upkeep(c.state.links, closed));
      Unannounced(c, r);
      SettleConsistent(r);
    case _ => Unannounced(c, d);
  }

  lemma WaitingConsistent(c: Core, input: Input)
    requires (c.state.Reconnecting? || c.state.GracePeriod?) && Ready(c, input) && Consistent(c)
    ensures var d := StepWaiting(c, input); Consistent(d) && EpochRises(c, d)
  {
    match input
    case Disconnect => DisconnectedConsistent(c);
    case AddLink(_, _) =>
      Unannounced(c, NextLink(c));
      if Accepts(input) {
        AgainConsistent(NextLink(c), NewLink(c, input));
      }
    case SendMsg(data, _) => Unannounced(c, Insert(c, data));
    case FromLink(x) => WaitingMsgConsistent(c, x);
    case Tick =>
      DisconnectedConsistent(c);
      ConnectingConsistent(c, []);
    case _ =>
  }

  lemma WaitingMsgConsistent(c: Core, x: LinkProtocol)
    requires (c.state.Reconnecting? || c.state.GracePeriod?) && Ready(c, FromLink(x)) && Consistent(c)
    ensures var d := StepWaiting(c, FromLink(x)); Consistent(d) && EpochRises(c, d)
  {
    match x
    case Reset(_, _) =>
      DisconnectedConsistent(c);
      ConnectingConsistent(c, []);
    case Ack(_, _, _) => Unannounced(c, ReceiveAck(c, x));
    case MsgSlice(e, _, _, _, _) =>
      if e == c.state.session {
        ReceiveConsistent(c, x);
      }
    case _ =>
  }

  lemma StepConsistent(c: Core, input: Input, closed: set<nat>)
    requires Ready(c, input) && Consistent(c)
    ensures var d := Step(c, input, closed).core; Consistent(d) && EpochRises(c, d)
  {
    if input.Configure? || (input.Tick? && !c.timer.armed) {
      Unannounced(c, Step(c, input, closed).core);
    } else {
      var t := if input.Tick? then c.(timer := Fired(c.timer)) else c;
      Unannounced(c, t);
      match t.state
      case Disconnected(_) =>
        if input.AddLink? {
          IdleLinkConsistent(t, input, closed);
        } else {
          IdleConsistent(t, input, closed);
        }
      case Connecting(_, _) =>
        if input.AddLink? {
          IdleLinkConsistent(t, input, closed);
        } else {
          IdleConsistent(t, input, closed);
        }
      case EpochMismatch(_, _, _) => MismatchConsistent(t, input, closed);
      case Connected(_, _, _) => ConnectedConsistent(t, input, closed);
      case _ => WaitingConsistent(t, input);
    }
  }

  // ---------------------------------------------------------------------
  // Runs of one endpoint
  // ---------------------------------------------------------------------

  datatype Turn = Turn(input: Input, closed: set<nat>)

  /** The endpoint after any list of turns, whatever arrives on its links. */
  function Run(turns: seq<Turn>): Core {
    if turns == [] then INITIAL
    else
      var c, t := Run(turns[..|turns| - 1]), turns[|turns| - 1];
      if Ready(c, t.input) then Step(c, t.input, t.closed).core else c
  }

  lemma {:induction false} RunConsistent(turns: seq<Turn>)
    ensures Consistent(Run(turns))
  {
    if turns != [] {
      var n := |turns| - 1;
      RunConsistent(turns[..n]);
      if Ready(Run(turns[..n]), turns[n].input) {
        StepConsistent(Run(turns[..n]), turns[n].input, turns[n].closed);
      }
    }
  }

  /**
   The event log of every run: a message belongs to the session announced last,
   with nothing announced in between; attempts alternate, starting with true, and
   the last one tells whether the endpoint is Connecting or Reconnecting; the active
   flag is up exactly in Connected; sessions are announced with rising epochs.
   */
  lemma EventLogOfEveryRun(turns: seq<Turn>)
    ensures var c := Run(turns);
      && WellLogged(c.events)
      && Trying(c.events) == (c.state.Connecting? || c.state.Reconnecting?)
      && c.active == c.state.Connected?
      && (InSession(c.state) ==> Announced(c.events) == Some(c.state.session))
  {
    RunConsistent(turns);
  }

  /** One session per epoch: below the maximum no epoch is announced twice, nor a lower one later. */
  lemma OneSessionPerEpoch(turns: seq<Turn>, i: nat, j: nat)
    requires var events := Run(turns).events; i < j < |events| && events[i].GotConnected? && events[j].GotConnected?
    ensures var events := Run(turns).events; events[i].epoch < events[j].epoch || events[i].epoch == MAX_EPOCH
  {
    RunConsistent(turns);
    var events := Run(turns).events;
    LoggedAt(events, j);
    assert events[..j][i] == events[i];
  }

  /** The epoch never falls along a run, and the manager of a session carries its epoch. */
  lemma {:induction false} EpochNeverFalls(turns: seq<Turn>, k: nat)
    requires k <= |turns|
    ensures ToInt(EpochOf(Run(turns[..k]).state)) <= ToInt(EpochOf(Run(turns).state))
    ensures InSession(Run(turns).state) ==> Run(turns).state.mgr.epoch == Run(turns).state.session
  {
    RunConsistent(turns);
    if k < |turns| {
      var n := |turns| - 1;
      var init := turns[..n];
      assert init[..k] == turns[..k];
      EpochNeverFalls(init, k);
      RunConsistent(init);
      if Ready(Run(init), turns[n].input) {
        StepConsistent(Run(init), turns[n].input, turns[n].closed);
      }
    } else {
      assert turns[..k] == turns;
    }
  }

  lemma {:induction false} AnnouncementBefore(events: seq<Event>, e: Epoch) returns (k: nat)
    requires Announced(events) == Some(e)
    ensures k < |events| && events[k] == GotConnected(e)
    ensures forall j :: k < j < |events| ==> !events[j].GotConnected? && !events[j].GotDisconnected?
  {
    var n := |events| - 1;
    if events[n].GotConnected? {
      k := n;
    } else {
      k := AnnouncementBefore(events[..n], e);
      assert forall j :: 0 <= j < n ==> events[..n][j] == events[j];
    }
  }

  /** Spelled out: every delivered message follows the announcement of its own session, uninterrupted. */
  lemma MessageFollowsItsSession(turns: seq<Turn>, i: nat) returns (k: nat)
    requires i < |Run(turns).events| && Run(turns).events[i].GotMessage?
    ensures var events := Run(turns).events;
      && k < i && events[k] == GotConnected(events[i].epoch)
      && forall j :: k < j < i ==> !events[j].GotConnected? && !events[j].GotDisconnected?
  {
    RunConsistent(turns);
    var events := Run(turns).events;
    LoggedAt(events, i);
    k := AnnouncementBefore(events[..i], events[i].epoch);
    assert forall j :: 0 <= j < i ==> events[..i][j] == events[j];
  }
}
