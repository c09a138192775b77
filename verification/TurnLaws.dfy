/**
 What one turn does, in every state and whatever links are found closed: where it
 leads, what becomes of the session and of the user's messages, and what the user is
 told. `Sending` adds what is sent.
 */
module TurnLaws {
  import opened Prelude
  import opened Epochs
  import opened Protocol
  import opened Messages
  import opened Session
  import D = Diagram

  // ---------------------------------------------------------------------
  // What a turn means
  // ---------------------------------------------------------------------

  predicate NoneOpen(links: seq<Link>, closed: set<nat>) {
    forall l :: l in links ==> l.id in closed
  }

  lemma {:induction false} NoneLeft(links: seq<Link>, closed: set<nat>)
    ensures NoneOpen(links, closed) <==> DropClosed(links, closed) == []
    ensures NoneOpen(links, closed) <==> Upkeep(links, closed) == []
  {
    if links != [] {
      NoneLeft(links[1..], closed);
      assert forall l :: l in links <==> l == links[0] || l in links[1..];
    }
  }

  /** The user meant it for this session. */
  predicate Meant(tag: Option<Epoch>, e: Epoch) {
    tag.None? || tag.value == e
  }

  predicate Timeout(c: Core, input: Input) {
    input.Tick? && c.timer.armed
  }

  /** A request to negotiate. */
  predicate Requests(input: Input) {
    input.FromLink? && input.msg.Reset? && input.msg.request
  }

  /** A fragment of the session. */
  predicate Fragment(c: Core, input: Input) {
    input.FromLink? && InSession(c.state) && OfSession(c.state, input.msg)
  }

  /** An ack is due. */
  predicate AckDue(c: Core, input: Input)
    requires Ready(c, input)
  {
    && Fragment(c, input)
    && var x := input.msg; ShouldAck(c.state.mgr, x.seqNo, x.firstIndex, x.seqLen, x.data)
  }

  /** The turn makes a Connected endpoint look for an open link. */
  predicate Looks(c: Core, input: Input)
    requires c.state.Connected? && Ready(c, input)
  {
    || Timeout(c, input)
    || (input.SendMsg? && Meant(input.tag, c.state.session))
    || (Requests(input) && input.msg.epoch == Some(c.state.session))
    || AckDue(c, input)
    || (Fragment(c, input) && c.state.links == [])
  }

  /** The last open link is gone, and the turn notices. */
  predicate LosesLinks(c: Core, input: Input, closed: set<nat>)
    requires Ready(c, input)
  {
    || (c.state.Connected? && Looks(c, input) && NoneOpen(c.state.links, closed))
    || (c.state.EpochMismatch? && Timeout(c, input) && NoneOpen(c.state.links, closed))
  }

  /** The epoch two negotiating endpoints agree on: the greater, or 1 if there is none. */
  function Agreement(ours: Option<Epoch>, theirs: Option<Epoch>): Epoch {
    if ours.None? && theirs.None? then 1
    else if ToInt(ours) <= ToInt(theirs) then theirs.value
    else ours.value
  }

  predicate Agrees(c: Core, input: Input) {
    && c.state.EpochMismatch? && input.FromLink? && input.msg.Reset?
    && ToInt(c.state.epoch) <= ToInt(input.msg.epoch)
  }

  /** A request that ends the session: for another epoch if connected, for its own if not. */
  predicate Challenges(c: Core, input: Input) {
    && InSession(c.state) && Requests(input)
    && (c.state.Connected? <==> input.msg.epoch != Some(c.state.session))
  }

  function SignalOf(c: Core, input: Input, closed: set<nat>): D.Signal
    requires Ready(c, input)
  {
    if input.Connect? then D.UserConnects
    else if input.Disconnect? then D.UserDisconnects
    else if Accepts(input) then D.LinkGained
    else if LosesLinks(c, input, closed) then D.LinksLost
    else if Timeout(c, input) && !c.state.Connected? && !c.state.EpochMismatch? then D.TimedOut
    else if input.SendMsg? && input.tag.None? then D.UserSends
    else if Agrees(c, input) then D.Agreed
    else if Challenges(c, input) then D.Challenged
    else D.Nothing
  }

  function PhaseOf(s: State): D.Phase {
    match s
    case Disconnected(_) => D.Disconnected
    case Connecting(_, _) => D.Connecting
    case EpochMismatch(_, _, _) => D.EpochMismatch
    case Connected(_, _, _) => D.Connected
    case Reconnecting(_, _) => D.Reconnecting
    case GracePeriod(_, _) => D.GracePeriod
  }

  function PolicyOf(cfg: Config): D.Policy {
    D.Policy(cfg.autoConnect, cfg.reconnecting != Some(0), cfg.gracePeriod != Some(0))
  }

  // ---------------------------------------------------------------------
  // Where it leads
  // ---------------------------------------------------------------------

  /** The epoch after a turn from `s` that led to `t`, a new session aside. */
  function EpochAfter(s: State, t: State): Option<Epoch> {
    if InSession(s) && !InSession(t) then Some(Increment(s.session))
    else if s.EpochMismatch? && t.Disconnected? then OptIncrement(s.epoch)
    else EpochOf(s)
  }

  /** The manager of a session after a turn, if the session goes on. */
  function Worked(c: Core, input: Input): Msgs
    requires InSession(c.state) && Ready(c, input)
  {
    var m, e := c.state.mgr, c.state.session;
    match input
    case SendMsg(data, tag) => if Meant(tag, e) then InsertMsg(m, data) else m
    case FromLink(Ack(f, q, i)) => if f == e then RecvAck(m, (q, i)) else m
    case FromLink(MsgSlice(f, q, len, first, data)) => if f == e then AfterTake(Recv(m, q, first, len, data)) else m
    case _ => m
  }

  /** The turn leads where the diagram says, with the epoch and the manager that go with it. */
  ghost predicate Leads(c: Core, input: Input, closed: set<nat>, d: Core)
    requires Ready(c, input)
  {
    && PhaseOf(d.state) == D.Next(PhaseOf(c.state), SignalOf(c, input, closed), PolicyOf(c.cfg))
    && (if InSession(d.state) && !InSession(c.state) then
          && Agrees(c, input) && d.state.session == Agreement(c.state.epoch, input.msg.epoch)
          && d.state.mgr == InsertAll(NewMsgs(d.state.session), c.state.queued)
        else EpochOf(d.state) == EpochAfter(c.state, d.state))
    && (InSession(c.state) && InSession(d.state) ==> d.state.mgr == Worked(c, input))
  }

  lemma SettleLeads(c: Core, input: Input, closed: set<nat>, d: Core)
    requires c.state.Connected? && d.state.Connected? && d.cfg == c.cfg && d.state.session == c.state.session
    requires Ready(c, input) && Looks(c, input) && d.state.mgr == Worked(c, input)
    requires d.state.links == [] <==> NoneOpen(c.state.links, closed)
    ensures Leads(c, input, closed, Settle(d))
  {
  }

  lemma ResetLeads(c: Core, x: LinkProtocol, closed: set<nat>)
    requires c.state.Connected? && x.Reset?
    ensures Leads(c, FromLink(x), closed, StepConnectedMsg(c, x, closed).core)
  {
    NoneLeft(c.state.links, closed);
    if x.request && x.epoch == Some(c.state.session) {
      SettleLeads(c, FromLink(x), closed, WithLinks(c, DropClosed(c.state.links, closed)));
    }
  }

  lemma FragmentLeads(c: Core, x: LinkProtocol, closed: set<nat>)
    requires c.state.Connected? && OfSession(c.state, x) && Ready(c, FromLink(x))
    ensures Leads(c, FromLink(x), closed, StepConnectedMsg(c, x, closed).core)
  {
    var r := Receive(c, x);
    NoneLeft(c.state.links, closed);
    assert r.state == Connected(c.state.session, Worked(c, FromLink(x)), c.state.links);
    if AckDue(c, FromLink(x)) {
      SettleLeads(c, FromLink(x), closed, WithLinks(r, DropClosed(c.state.links, closed)));
    } else if c.state.links == [] {
      SettleLeads(c, FromLink(x), closed, r);
    } else {
      assert StepConnectedMsg(c, x, closed).core == r;
    }
  }

  lemma ConnectedLeads(c: Core, input: Input, closed: set<nat>)
    requires c.state.Connected? && Ready(c, input) && (input.Tick? ==> c.timer.armed) && !input.Configure?
    ensures Leads(c, input, closed, StepConnected(c, input, closed).core)
  {
    match input
    case SendMsg(data, tag) =>
      if Meant(tag, c.state.session) {
        NoneLeft(c.state.links, closed);
        SettleLeads(c, input, closed, WithLinks(Insert(c, data), DropClosed(c.state.links, closed)));
      }
    case FromLink(x) =>
      if x.Reset? {
        ResetLeads(c, x, closed);
      } else if OfSession(c.state, x) {
        FragmentLeads(c, x, closed);
      }
    case Tick =>
      NoneLeft(c.state.links, closed);
      SettleLeads(c, input, closed, WithLinks(c, Upkeep(c.state.links, closed)));
    case _ =>
  }

  lemma NegotiationLeads(c: Core, x: LinkProtocol, closed: set<nat>)
    requires c.state.EpochMismatch? && x.Reset?
    ensures Leads(c, FromLink(x), closed, Negotiate(c, x.epoch, x.request, closed).core)
  {
    CompareMeaning(c.state.epoch, x.epoch);
  }

  lemma MismatchLeads(c: Core, input: Input, closed: set<nat>)
    requires c.state.EpochMismatch? && Ready(c, input) && (input.Tick? ==> c.timer.armed) && !input.Configure?
    ensures Leads(c, input, closed, StepMismatch(c, input, closed).core)
  {
    if input.FromLink? && input.msg.Reset? {
      NegotiationLeads(c, input.msg, closed);
    } else if input.Tick? {
      NoneLeft(c.state.links, closed);
    }
  }

  lemma WaitingLeads(c: Core, input: Input, closed: set<nat>)
    requires (c.state.Reconnecting? || c.state.GracePeriod?) && Ready(c, input)
    requires (input.Tick? ==> c.timer.armed) && !input.Configure?
    ensures Leads(c, input, closed, StepWaiting(c, input))
  {
  }

  lemma IdleLeads(c: Core, input: Input, closed: set<nat>)
    requires (c.state.Disconnected? || c.state.Connecting?) && Ready(c, input)
    requires (input.Tick? ==> c.timer.armed) && !input.Configure?
    ensures Leads(c, input, closed, Dispatch(c, input, closed).core)
  {
  }

  /** What a turn sends and where it leads does not depend on the timer, once it has fired. */
  lemma TimerUnread(c: Core, input: Input, closed: set<nat>)
    requires Ready(c, input) && !input.Configure? && (input.Tick? ==> c.timer.armed)
    ensures var o, p := Step(c, input, closed), Dispatch(c, input, closed);
      o.sent == p.sent && o.core.state == p.core.state
  {
  }

  lemma TurnLeads(c: Core, input: Input, closed: set<nat>)
    requires Ready(c, input)
    ensures Leads(c, input, closed, Step(c, input, closed).core)
  {
    if !input.Configure? && (input.Tick? ==> c.timer.armed) {
      TimerUnread(c, input, closed);
      match c.state
      case EpochMismatch(_, _, _) => MismatchLeads(c, input, closed);
      case Connected(_, _, _) => ConnectedLeads(c, input, closed);
      case Reconnecting(_, _) => WaitingLeads(c, input, closed);
      case GracePeriod(_, _) => WaitingLeads(c, input, closed);
      case _ => IdleLeads(c, input, closed);
    }
  }

  // ---------------------------------------------------------------------
  // What the user is told
  // ---------------------------------------------------------------------

  /** Looking for a link to the peer. */
  predicate Seeking(s: State) {
    s.Connecting? || s.Reconnecting?
  }

  /** What a user is told of a turn from `s` to `t`; a session reopened by the peer ends silently. */
  function Report(s: State, t: State): seq<Event> {
    (if Seeking(s) && !Seeking(t) then [AttemptingConnection(false)] else [])
    + (if InSession(s) && !InSession(t) && !t.EpochMismatch? then [GotDisconnected] else [])
    + (if !InSession(s) && InSession(t) then [GotConnected(t.session)] else [])
    + (if !Seeking(s) && Seeking(t) then [AttemptingConnection(true)] else [])
  }

  /** The payloads a turn completes. */
  function Completed(c: Core, input: Input): seq<Payload>
    requires Ready(c, input)
  {
    if Fragment(c, input) then
      var x := input.msg;
      Taken(Recv(c.state.mgr, x.seqNo, x.firstIndex, x.seqLen, x.data))
    else []
  }

  function News(c: Core, input: Input): seq<Event>
    requires Ready(c, input)
  {
    if Fragment(c, input) then MessageEvents(Completed(c, input), c.state.session) else []
  }

  /** The messages that became complete, and then the change of state. */
  ghost predicate Told(c: Core, input: Input, d: Core)
    requires Ready(c, input)
  {
    d.events == c.events + News(c, input) + Report(c.state, d.state)
  }

  lemma SettleTold(c: Core, input: Input, d: Core)
    requires c.state.Connected? && d.state.Connected? && Ready(c, input)
    requires d.events == c.events + News(c, input)
    ensures Told(c, input, Settle(d))
  {
  }

  lemma MessageTold(c: Core, x: LinkProtocol, closed: set<nat>)
    requires c.state.Connected? && Ready(c, FromLink(x))
    ensures Told(c, FromLink(x), StepConnectedMsg(c, x, closed).core)
  {
    var live := DropClosed(c.state.links, closed);
    if OfSession(c.state, x) {
      var r := Receive(c, x);
      SettleTold(c, FromLink(x), r);
      SettleTold(c, FromLink(x), WithLinks(r, live));
    } else {
      SettleTold(c, FromLink(x), WithLinks(c, live));
    }
  }

  lemma ConnectedTold(c: Core, input: Input, closed: set<nat>)
    requires c.state.Connected? && Ready(c, input)
    ensures Told(c, input, StepConnected(c, input, closed).core)
  {
    match input
    case SendMsg(data, _) =>
      SettleTold(c, input, WithLinks(Insert(c, data), DropClosed(c.state.links, closed)));
    case FromLink(x) => MessageTold(c, x, closed);
    case Tick => SettleTold(c, input, WithLinks(c, Upkeep(c.state.links, closed)));
    case _ =>
  }

  lemma SamePhaseTold(c: Core, input: Input, d: Core)
    requires Ready(c, input) && InSession(c.state) && PhaseOf(c.state) == PhaseOf(d.state)
    requires d.events == c.events + News(c, input)
    ensures Told(c, input, d)
  {
  }

  lemma WaitingTold(c: Core, input: Input)
    requires (c.state.Reconnecting? || c.state.GracePeriod?) && Ready(c, input)
    ensures Told(c, input, StepWaiting(c, input))
  {
    var d := StepWaiting(c, input);
    if Fragment(c, input) {
      assert d == Receive(c, input.msg);
      SamePhaseTold(c, input, d);
    } else {
      assert News(c, input) == [];
      if PhaseOf(c.state) == PhaseOf(d.state) {
        SamePhaseTold(c, input, d);
      }
    }
  }

  lemma IdleTold(c: Core, input: Input, closed: set<nat>)
    requires (c.state.Disconnected? || c.state.Connecting?) && Ready(c, input)
    ensures Told(c, input, Dispatch(c, input, closed).core)
  {
    assert News(c, input) == [];
  }

  lemma MismatchTold(c: Core, input: Input, closed: set<nat>)
    requires c.state.EpochMismatch? && Ready(c, input)
    ensures Told(c, input, StepMismatch(c, input, closed).core)
  {
    assert News(c, input) == [];
  }

  lemma TurnTold(c: Core, input: Input, closed: set<nat>)
    requires Ready(c, input)
    ensures Told(c, input, Step(c, input, closed).core)
  {
    if !input.Configure? && (input.Tick? ==> c.timer.armed) {
      var t := if input.Tick? then c.(timer := Fired(c.timer)) else c;
      match c.state
      case Connected(_, _, _) => ConnectedTold(t, input, closed);
      case Reconnecting(_, _) => WaitingTold(t, input);
      case GracePeriod(_, _) => WaitingTold(t, input);
      case EpochMismatch(_, _, _) => MismatchTold(t, input, closed);
      case _ => IdleTold(t, input, closed);
    }
  }

  // ---------------------------------------------------------------------
  // Sessions and commands
  // ---------------------------------------------------------------------

  /** What ends a session: the user, a challenge, a timeout while waiting, or the last link if there is no waiting. */
  predicate EndsSession(c: Core, input: Input, closed: set<nat>)
    requires Ready(c, input)
  {
    || input.Disconnect?
    || Challenges(c, input)
    || (Timeout(c, input) && !c.state.Connected?)
    || (LosesLinks(c, input, closed) && c.cfg.reconnecting == Some(0) && c.cfg.gracePeriod == Some(0))
  }

  /** A session goes on, with its manager, exactly until then. */
  lemma SessionEndsIff(c: Core, input: Input, closed: set<nat>)
    requires InSession(c.state) && Ready(c, input)
    ensures var d := Step(c, input, closed).core;
      && (InSession(d.state) <==> !EndsSession(c, input, closed))
      && (InSession(d.state) ==> d.state.session == c.state.session && d.state.mgr == Worked(c, input))
  {
    TurnLeads(c, input, closed);
  }

  /** Where a Connected endpoint goes when its last open link is gone, on any turn that notices. */
  lemma LastLinkLost(c: Core, input: Input, closed: set<nat>)
    requires c.state.Connected? && Ready(c, input) && Looks(c, input) && NoneOpen(c.state.links, closed)
    ensures var e := c.state.session;
      Step(c, input, closed).core.state ==
        if c.cfg.reconnecting != Some(0) then Reconnecting(e, Worked(c, input))
        else if c.cfg.gracePeriod != Some(0) then GracePeriod(e, Worked(c, input))
        else Disconnected(Some(Increment(e)))
  {
    TurnLeads(c, input, closed);
  }

  function QueueOf(s: State): seq<Payload> {
    if s.Connecting? || s.EpochMismatch? then s.queued else []
  }

  /** The message is put in the queue for the next session. */
  predicate Queues(c: Core, input: Input) {
    input.SendMsg? && input.tag.None? && !InSession(c.state) && (c.state.Disconnected? ==> c.cfg.autoConnect)
  }

  /** The message is given to the session. */
  predicate Submits(c: Core, input: Input) {
    input.SendMsg? && InSession(c.state) && Meant(input.tag, c.state.session)
  }

  function Arrived(c: Core, input: Input): seq<Payload> {
    if Queues(c, input) then [input.data] else []
  }

  /** Still on the way to the same session. */
  predicate StillOpening(s: State, t: State) {
    !InSession(s) && ((t.Connecting? && !s.EpochMismatch?) || t.EpochMismatch?)
  }

  /** Every message goes to one place: the queue, the session, or nowhere. */
  ghost predicate Posts(c: Core, input: Input, d: Core) {
    && QueueOf(d.state) == (if StillOpening(c.state, d.state) then QueueOf(c.state) + Arrived(c, input) else [])
    && d.journal ==
         if Submits(c, input) then c.journal[c.state.session := Inserted(c, c.state.session) + [input.data]]
         else if !InSession(c.state) && InSession(d.state) then c.journal[d.state.session := QueueOf(c.state)]
         else c.journal
  }

  lemma SettlePosts(c: Core)
    requires c.state.Connected?
    ensures Settle(c).journal == c.journal && QueueOf(Settle(c).state) == []
    ensures !Settle(c).state.EpochMismatch? && !Settle(c).state.Connecting?
  {
  }

  lemma MessagePosts(c: Core, x: LinkProtocol, closed: set<nat>)
    requires c.state.Connected? && Ready(c, FromLink(x))
    ensures Posts(c, FromLink(x), StepConnectedMsg(c, x, closed).core)
  {
    var live := DropClosed(c.state.links, closed);
    SettlePosts(WithLinks(c, live));
    if OfSession(c.state, x) {
      SettlePosts(Receive(c, x));
      SettlePosts(WithLinks(Receive(c, x), live));
    }
  }

  lemma ConnectedPosts(c: Core, input: Input, closed: set<nat>)
    requires c.state.Connected? && Ready(c, input)
    ensures Posts(c, input, StepConnected(c, input, closed).core)
  {
    match input
    case SendMsg(data, _) => SettlePosts(WithLinks(Insert(c, data), DropClosed(c.state.links, closed)));
    case FromLink(x) => MessagePosts(c, x, closed);
    case Tick => SettlePosts(WithLinks(c, Upkeep(c.state.links, closed)));
    case _ =>
  }

  lemma WaitingPosts(c: Core, input: Input)
    requires (c.state.Reconnecting? || c.state.GracePeriod?) && Ready(c, input)
    ensures Posts(c, input, StepWaiting(c, input))
  {
  }

  lemma NegotiationPosts(c: Core, x: LinkProtocol, closed: set<nat>)
    requires c.state.EpochMismatch? && x.Reset?
    ensures Posts(c, FromLink(x), Negotiate(c, x.epoch, x.request, closed).core)
  {
    assert Arrived(c, FromLink(x)) == [];
  }

  lemma MismatchPosts(c: Core, input: Input, closed: set<nat>)
    requires c.state.EpochMismatch?
    ensures Posts(c, input, StepMismatch(c, input, closed).core)
  {
    if input.FromLink? && input.msg.Reset? {
      NegotiationPosts(c, input.msg, closed);
    }
  }

  lemma IdlePosts(c: Core, input: Input, closed: set<nat>)
    requires (c.state.Disconnected? || c.state.Connecting?) && Ready(c, input)
    ensures Posts(c, input, Dispatch(c, input, closed).core)
  {
  }

  lemma TurnPosts(c: Core, input: Input, closed: set<nat>)
    requires Ready(c, input)
    ensures Posts(c, input, Step(c, input, closed).core)
  {
    if !input.Configure? && (input.Tick? ==> c.timer.armed) {
      var t := if input.Tick? then c.(timer := Fired(c.timer)) else c;
      match c.state
      case EpochMismatch(_, _, _) => MismatchPosts(t, input, closed);
      case Connected(_, _, _) => ConnectedPosts(t, input, closed);
      case Reconnecting(_, _) => WaitingPosts(t, input);
      case GracePeriod(_, _) => WaitingPosts(t, input);
      case _ => IdlePosts(t, input, closed);
    }
  }

  /** A message meant for the session is given to it and numbered next, with or without links. */
  lemma MessageIsInserted(c: Core, data: Payload, tag: Option<Epoch>, closed: set<nat>)
    requires InSession(c.state) && Meant(tag, c.state.session)
    ensures var d, e := Step(c, SendMsg(data, tag), closed).core, c.state.session;
      && Inserted(d, e) == Inserted(c, e) + [data]
      && (forall f :: f != e ==> Inserted(d, f) == Inserted(c, f))
      && (InSession(d.state) ==>
            var m, n := d.state.mgr, c.state.mgr.nextSeq;
            m.nextSeq == n + 1 && n in m.outgoing && m.outgoing[n].data == data)
  {
    TurnPosts(c, SendMsg(data, tag), closed);
    SessionEndsIff(c, SendMsg(data, tag), closed);
  }

  /** The user's disconnect always leads to Disconnected, at once and silently, with the epoch that goes with it. */
  lemma DisconnectTurn(c: Core, closed: set<nat>)
    ensures var o := Step(c, Disconnect, closed);
      && o.sent == [] && o.core.state.Disconnected?
      && o.core.state.epoch ==
           (if c.state.Disconnected? || c.state.Connecting? then c.state.epoch else OptIncrement(EpochOf(c.state)))
      && (InSession(c.state) ==> o.core.events != [] && o.core.events[|o.core.events| - 1] == GotDisconnected)
      && (!c.state.Disconnected? ==> o.core.timer == STOPPED)
  {
    TurnLeads(c, Disconnect, closed);
    TurnTold(c, Disconnect, closed);
  }

  /** The user's connect matters in Disconnected only, and keeps the epoch. */
  lemma ConnectTurn(c: Core, closed: set<nat>)
    ensures var o := Step(c, Connect, closed);
      && o.sent == []
      && (if c.state.Disconnected? then
            && o.core.state == Connecting(c.state.epoch, []) && o.core.events == c.events + [AttemptingConnection(true)]
            && o.core.timer.armed == c.cfg.connecting.Some?
          else o.core == c)
  {
    TurnLeads(c, Connect, closed);
  }

  ghost predicate SettingsKept(c: Core, input: Input, d: Core) {
    d.cfg == c.cfg && d.nextLink == if input.AddLink? then c.nextLink + 1 else c.nextLink
  }

  lemma SettleSettings(c: Core)
    requires c.state.Connected?
    ensures Settle(c).cfg == c.cfg && Settle(c).nextLink == c.nextLink
  {
  }

  lemma ConnectedSettings(c: Core, input: Input, closed: set<nat>)
    requires c.state.Connected? && Ready(c, input)
    ensures SettingsKept(c, input, StepConnected(c, input, closed).core)
  {
    var live := DropClosed(c.state.links, closed);
    SettleSettings(WithLinks(c, live));
    match input
    case SendMsg(data, _) => SettleSettings(WithLinks(Insert(c, data), live));
    case FromLink(x) =>
      if OfSession(c.state, x) {
        SettleSettings(Receive(c, x));
        SettleSettings(WithLinks(Receive(c, x), live));
      }
    case Tick => SettleSettings(WithLinks(c, Upkeep(c.state.links, closed)));
    case _ =>
  }

  lemma WaitingSettings(c: Core, input: Input)
    requires (c.state.Reconnecting? || c.state.GracePeriod?) && Ready(c, input)
    ensures SettingsKept(c, input, StepWaiting(c, input))
  {
  }

  lemma MismatchSettings(c: Core, input: Input, closed: set<nat>)
    requires c.state.EpochMismatch?
    ensures SettingsKept(c, input, StepMismatch(c, input, closed).core)
  {
  }

  /** New settings change nothing but the settings, links are numbered by attempt, and no other turn changes either. */
  lemma SettingsAndIds(c: Core, input: Input, closed: set<nat>)
    requires Ready(c, input)
    ensures var o := Step(c, input, closed);
      if input.Configure? then o == Out(c.(cfg := input.cfg), []) else SettingsKept(c, input, o.core)
  {
    if !input.Configure? && (input.Tick? ==> c.timer.armed) {
      var t := if input.Tick? then c.(timer := Fired(c.timer)) else c;
      match c.state
      case EpochMismatch(_, _, _) => MismatchSettings(t, input, closed);
      case Connected(_, _, _) => ConnectedSettings(t, input, closed);
      case Reconnecting(_, _) => WaitingSettings(t, input);
      case GracePeriod(_, _) => WaitingSettings(t, input);
      case _ =>
    }
  }
}
