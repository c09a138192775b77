/** What one turn sends, on which link, and the links it leaves: in every state and whatever links are closed. */
module Sending {
  import opened Prelude
  import opened Epochs
  import opened Protocol
  import opened Slices
  import opened Session
  import opened TurnLaws

  function LinksOf(s: State): seq<Link> {
    if s.EpochMismatch? || s.Connected? then s.links else []
  }

  /** The links a turn can send on. */
  function AtHand(c: Core, input: Input): seq<Link> {
    if Accepts(input) && (c.state.Disconnected? || c.state.Connecting?) then [NewLink(c, input)] else LinksOf(c.state)
  }

  /** The answer of a negotiating endpoint to a Reset: none if it confirms what is already agreed. */
  function Answer(ours: Option<Epoch>, theirs: Option<Epoch>, request: bool): seq<LinkProtocol> {
    if ours.Some? && ours == theirs && !request then [] else [Reset(Some(Agreement(ours, theirs)), false)]
  }

  /** The Reset or ack a turn calls for. */
  function Reply(c: Core, input: Input): seq<LinkProtocol>
    requires Ready(c, input)
  {
    match c.state
    case Disconnected(e) => if Accepts(input) then [Reset(e, true)] else []
    case Connecting(e, _) => if Accepts(input) then [Reset(e, true)] else []
    case EpochMismatch(e, _, _) =>
      if Timeout(c, input) then [Reset(e, true)]
      else if input.FromLink? && input.msg.Reset? then Answer(e, input.msg.epoch, input.msg.request)
      else []
    case Connected(e, _, _) =>
      if Challenges(c, input) then [Reset(Some(Increment(e)), true)]
      else if Requests(input) then [Reset(Some(e), false)]
      else if AckDue(c, input) then
        var frontier := Worked(c, input).lastAck;
        [Ack(e, frontier.0, frontier.1)]
      else []
    case _ => []
  }

  /** Messages numbered from 0, with all their bytes pending. */
  function Fresh(e: Epoch, msgs: seq<Payload>): seq<Slice> {
    if msgs == [] then []
    else
      var n := |msgs| - 1;
      Fresh(e, msgs[..n]) + [FromVec(e, n, msgs[n])]
  }

  /** The messages whose pending bytes a turn sends. */
  function Load(c: Core, input: Input): seq<Slice>
    requires Ready(c, input)
  {
    match c.state
    case EpochMismatch(e, queued, _) =>
      if Agrees(c, input) then Fresh(Agreement(e, input.msg.epoch), queued) else []
    case Connected(e, m, _) =>
      if input.SendMsg? && Meant(input.tag, e) then [FromVec(m.epoch, m.nextSeq, input.data)]
      else if Timeout(c, input) && EarliestOutgoing(m).Some? then [m.outgoing[EarliestOutgoing(m).value]]
      else []
    case _ => []
  }

  /** Their fragments, message after message. */
  function Fragments(load: seq<Slice>, size: nat): seq<LinkProtocol> {
    if load == [] then []
    else
      var n := |load| - 1;
      Fragments(load[..n], size) + GetSlices(load[n], size)
  }

  /** Everything goes out on the first open link, in order; without one nothing does. */
  ghost predicate Sends(c: Core, input: Input, closed: set<nat>, k: nat, sent: seq<LinkProtocol>)
    requires Ready(c, input)
  {
    var links := AtHand(c, input);
    && FirstOpen(links, closed, k)
    && sent == if k == |links| then [] else Reply(c, input) + Fragments(Load(c, input), FragmentSize(links[k]))
  }

  lemma OneLoad(s: Slice, size: nat)
    ensures Fragments([s], size) == GetSlices(s, size)
  {
    assert [s][..0] == [];
    assert Fragments([], size) == [];
  }

  lemma {:induction false} QueueIsLoad(e: Epoch, msgs: seq<Payload>, live: seq<Link>)
    ensures QueuedSlices(e, msgs, live) == if live == [] then [] else Fragments(Fresh(e, msgs), FragmentSize(live[0]))
  {
    if msgs != [] {
      var n := |msgs| - 1;
      QueueIsLoad(e, msgs[..n], live);
      assert Fresh(e, msgs)[..n] == Fresh(e, msgs[..n]) by {
        FreshLength(e, msgs[..n]);
      }
      FreshLength(e, msgs);
    }
  }

  lemma {:induction false} FreshLength(e: Epoch, msgs: seq<Payload>)
    ensures |Fresh(e, msgs)| == |msgs|
  {
    if msgs != [] {
      FreshLength(e, msgs[..|msgs| - 1]);
    }
  }

  lemma UpkeepFirst(links: seq<Link>, closed: set<nat>, k: nat)
    requires FirstOpen(links, closed, k)
    ensures var kept := Upkeep(links, closed);
      if k == |links| then kept == [] else kept != [] && kept[0] == links[k]
  {
    var kept := Upkeep(links, closed);
    var at := UpkeepIs(links, closed);
    if k < |links| {
      assert k in at;
      var j: nat :| j < |at| && at[j] == k;
      assert at[0] <= k && at[0] in at;
      assert links[at[0]].id !in closed;
    }
  }

  /** The answer first, then the queue. */
  lemma AgreedSends(c: Core, x: LinkProtocol, closed: set<nat>, e: Epoch, live: seq<Link>)
    requires c.state.EpochMismatch? && x.Reset? && Agrees(c, FromLink(x))
    requires e == Agreement(c.state.epoch, x.epoch) && live == DropClosed(c.state.links, closed)
    ensures Negotiate(c, x.epoch, x.request, closed).sent ==
      if live == [] then [] else Answer(c.state.epoch, x.epoch, x.request) + QueuedSlices(e, c.state.queued, live)
  {
    DropClosedTwice(c.state.links, closed);
    CompareMeaning(c.state.epoch, x.epoch);
    QueueIsLoad(e, c.state.queued, []);
    if c.state.queued == [] {
      QueueIsLoad(e, c.state.queued, c.state.links);
      QueueIsLoad(e, c.state.queued, live);
    }
  }

  lemma AnsweredOnly(c: Core, x: LinkProtocol, closed: set<nat>, live: seq<Link>)
    requires c.state.EpochMismatch? && x.Reset? && !Agrees(c, FromLink(x)) && live == DropClosed(c.state.links, closed)
    ensures Load(c, FromLink(x)) == []
    ensures Negotiate(c, x.epoch, x.request, closed).sent ==
      if live == [] then [] else Answer(c.state.epoch, x.epoch, x.request)
  {
    CompareMeaning(c.state.epoch, x.epoch);
  }

  lemma NegotiationSends(c: Core, x: LinkProtocol, closed: set<nat>) returns (k: nat)
    requires c.state.EpochMismatch? && x.Reset?
    ensures Sends(c, FromLink(x), closed, k, Negotiate(c, x.epoch, x.request, closed).sent)
  {
    var links := c.state.links;
    k := DropClosedIs(links, closed);
    if Agrees(c, FromLink(x)) {
      var e := Agreement(c.state.epoch, x.epoch);
      AgreedSends(c, x, closed, e, links[k..]);
      QueueIsLoad(e, c.state.queued, links[k..]);
    } else {
      AnsweredOnly(c, x, closed, links[k..]);
    }
  }

  lemma MismatchSends(c: Core, input: Input, closed: set<nat>) returns (k: nat)
    requires c.state.EpochMismatch? && Ready(c, input) && (input.Tick? ==> c.timer.armed) && !input.Configure?
    ensures Sends(c, input, closed, k, StepMismatch(c, input, closed).sent)
  {
    k := DropClosedIs(c.state.links, closed);
    if input.FromLink? && input.msg.Reset? {
      k := NegotiationSends(c, input.msg, closed);
    } else if input.Tick? {
      UpkeepFirst(c.state.links, closed, k);
    }
  }

  lemma MessageSends(c: Core, x: LinkProtocol, closed: set<nat>) returns (k: nat)
    requires c.state.Connected? && Ready(c, FromLink(x))
    ensures Sends(c, FromLink(x), closed, k, StepConnectedMsg(c, x, closed).sent)
  {
    k := DropClosedIs(c.state.links, closed);
    assert Load(c, FromLink(x)) == [];
    if OfSession(c.state, x) {
      assert Receive(c, x).state.mgr == Worked(c, FromLink(x));
    }
  }

  lemma MessageOut(c: Core, data: Payload, tag: Option<Epoch>, closed: set<nat>) returns (k: nat)
    requires c.state.Connected?
    ensures Sends(c, SendMsg(data, tag), closed, k, StepConnected(c, SendMsg(data, tag), closed).sent)
  {
    var m, input := c.state.mgr, SendMsg(data, tag);
    k := DropClosedIs(c.state.links, closed);
    assert Reply(c, input) == [];
    if Meant(tag, c.state.session) && k < |c.state.links| {
      OneLoad(FromVec(m.epoch, m.nextSeq, data), FragmentSize(c.state.links[k]));
    }
  }

  lemma ResendOut(c: Core, closed: set<nat>) returns (k: nat)
    requires c.state.Connected? && c.timer.armed
    ensures Sends(c, Tick, closed, k, StepConnected(c, Tick, closed).sent)
  {
    var m := c.state.mgr;
    k := DropClosedIs(c.state.links, closed);
    UpkeepFirst(c.state.links, closed, k);
    assert Reply(c, Tick) == [];
    if EarliestOutgoing(m).Some? && k < |c.state.links| {
      OneLoad(m.outgoing[EarliestOutgoing(m).value], FragmentSize(c.state.links[k]));
    }
  }

  lemma ConnectedSends(c: Core, input: Input, closed: set<nat>) returns (k: nat)
    requires c.state.Connected? && Ready(c, input) && (input.Tick? ==> c.timer.armed) && !input.Configure?
    ensures Sends(c, input, closed, k, StepConnected(c, input, closed).sent)
  {
    k := DropClosedIs(c.state.links, closed);
    if input.SendMsg? {
      k := MessageOut(c, input.data, input.tag, closed);
    } else if input.FromLink? {
      k := MessageSends(c, input.msg, closed);
    } else if input.Tick? {
      k := ResendOut(c, closed);
    } else {
      assert Load(c, input) == [] && Reply(c, input) == [];
    }
  }

  lemma LinklessSends(c: Core, input: Input, closed: set<nat>) returns (k: nat)
    requires !c.state.EpochMismatch? && !c.state.Connected? && Ready(c, input)
    ensures Sends(c, input, closed, k, Dispatch(c, input, closed).sent)
  {
    k := DropClosedIs(AtHand(c, input), closed);
    assert Load(c, input) == [];
  }

  lemma SilentSends(c: Core, input: Input, closed: set<nat>) returns (k: nat)
    requires Ready(c, input) && (input.Configure? || (input.Tick? && !c.timer.armed))
    ensures Sends(c, input, closed, k, [])
  {
    k := DropClosedIs(AtHand(c, input), closed);
    assert Load(c, input) == [] && Reply(c, input) == [];
  }

  lemma TurnSends(c: Core, input: Input, closed: set<nat>) returns (k: nat)
    requires Ready(c, input)
    ensures Sends(c, input, closed, k, Step(c, input, closed).sent)
  {
    if input.Configure? || (input.Tick? && !c.timer.armed) {
      k := SilentSends(c, input, closed);
    } else {
      TimerUnread(c, input, closed);
      if c.state.EpochMismatch? {
        k := MismatchSends(c, input, closed);
      } else if c.state.Connected? {
        k := ConnectedSends(c, input, closed);
      } else {
        k := LinklessSends(c, input, closed);
      }
    }
  }

  /** The turn has something to send on the links it has, so closed ones before the first open one are dropped. */
  predicate Speaks(c: Core, input: Input)
    requires Ready(c, input)
  {
    Reply(c, input) != [] || Load(c, input) != []
  }

  /** The links after a turn, if it leaves an endpoint with links. */
  function LinksAfter(c: Core, input: Input, closed: set<nat>): seq<Link>
    requires Ready(c, input)
  {
    var links := AtHand(c, input);
    if Accepts(input) && (InSession(c.state) || c.state.EpochMismatch?) then [NewLink(c, input)] + links
    else if input.EvictLink? then Upkeep(links, {input.id})
    else if Timeout(c, input) then Upkeep(links, closed)
    else if Speaks(c, input) then DropClosed(links, closed)
    else links
  }

  predicate Relinks(c: Core, input: Input, closed: set<nat>, s: State)
    requires Ready(c, input)
  {
    s.EpochMismatch? || s.Connected? ==> s.links == LinksAfter(c, input, closed)
  }

  lemma NegotiationRelinks(c: Core, x: LinkProtocol, closed: set<nat>)
    requires c.state.EpochMismatch? && x.Reset?
    ensures Relinks(c, FromLink(x), closed, Negotiate(c, x.epoch, x.request, closed).core.state)
  {
    DropClosedTwice(c.state.links, closed);
    CompareMeaning(c.state.epoch, x.epoch);
    if Agrees(c, FromLink(x)) {
      FreshLength(Agreement(c.state.epoch, x.epoch), c.state.queued);
    }
  }

  lemma ResetRelinks(c: Core, x: LinkProtocol, closed: set<nat>)
    requires c.state.Connected? && x.Reset?
    ensures Relinks(c, FromLink(x), closed, StepConnectedMsg(c, x, closed).core.state)
  {
    assert Speaks(c, FromLink(x)) == x.request;
  }

  lemma FragmentRelinks(c: Core, x: LinkProtocol, closed: set<nat>)
    requires c.state.Connected? && OfSession(c.state, x) && Ready(c, FromLink(x))
    ensures Relinks(c, FromLink(x), closed, StepConnectedMsg(c, x, closed).core.state)
  {
    assert Speaks(c, FromLink(x)) == AckDue(c, FromLink(x));
    assert Receive(c, x).state.links == c.state.links;
  }

  lemma ConnectedRelinks(c: Core, input: Input, closed: set<nat>)
    requires c.state.Connected? && Ready(c, input) && !input.Configure? && (input.Tick? ==> c.timer.armed)
    ensures Relinks(c, input, closed, StepConnected(c, input, closed).core.state)
  {
    if input.FromLink? {
      if input.msg.Reset? {
        ResetRelinks(c, input.msg, closed);
      } else if OfSession(c.state, input.msg) {
        FragmentRelinks(c, input.msg, closed);
      }
    }
  }

  lemma MismatchRelinks(c: Core, input: Input, closed: set<nat>)
    requires c.state.EpochMismatch? && Ready(c, input) && !input.Configure? && (input.Tick? ==> c.timer.armed)
    ensures Relinks(c, input, closed, StepMismatch(c, input, closed).core.state)
  {
    if input.FromLink? && input.msg.Reset? {
      NegotiationRelinks(c, input.msg, closed);
    }
  }

  lemma LinklessRelinks(c: Core, input: Input, closed: set<nat>)
    requires !c.state.EpochMismatch? && !c.state.Connected? && Ready(c, input) && !input.Configure?
    ensures Relinks(c, input, closed, Dispatch(c, input, closed).core.state)
  {
  }

  lemma TurnRelinks(c: Core, input: Input, closed: set<nat>)
    requires Ready(c, input)
    ensures Relinks(c, input, closed, Step(c, input, closed).core.state)
  {
    if !input.Configure? && (input.Tick? ==> c.timer.armed) {
      TimerUnread(c, input, closed);
      if c.state.EpochMismatch? {
        MismatchRelinks(c, input, closed);
      } else if c.state.Connected? {
        ConnectedRelinks(c, input, closed);
      } else {
        LinklessRelinks(c, input, closed);
      }
    }
  }

  lemma AllStay(links: seq<Link>, closed: set<nat>, l: Link)
    ensures l in Upkeep(links, closed) <==> l in links && l.id !in closed
    ensures l in links && l.id !in closed ==> l in DropClosed(links, closed)
    ensures l in DropClosed(links, closed) ==> l in links
  {
    var at := UpkeepIs(links, closed);
    var k := DropClosedIs(links, closed);
    if l in links && l.id !in closed {
      var i: nat :| i < |links| && links[i] == l;
      assert i in at;
      assert k <= i && links[k..][i - k] == l;
    }
    if l in Upkeep(links, closed) {
      var j: nat :| j < |at| && Upkeep(links, closed)[j] == l;
      assert at[j] in at;
    }
  }

  lemma LinksAfterAre(c: Core, input: Input, closed: set<nat>, l: Link)
    requires Ready(c, input)
    ensures var after := LinksAfter(c, input, closed);
      && (l in after ==> l in LinksOf(c.state) || (Accepts(input) && l == NewLink(c, input)))
      && (l in LinksOf(c.state) && l.id !in closed && input != EvictLink(l.id) ==> l in after)
  {
    var links := AtHand(c, input);
    AllStay(links, closed, l);
    if input.EvictLink? {
      AllStay(links, {input.id}, l);
    }
  }

  lemma SpeaksOnOpen(c: Core, input: Input, closed: set<nat>)
    requires Ready(c, input) && Speaks(c, input)
    ensures var after := LinksAfter(c, input, closed); after != [] ==> after[0].id !in closed
  {
    var links, after := AtHand(c, input), LinksAfter(c, input, closed);
    var k := DropClosedIs(links, closed);
    if Timeout(c, input) {
      UpkeepFirst(links, closed, k);
      assert after == Upkeep(links, closed);
    } else if after != [] {
      assert after == links[k..];
    }
  }

  /**
   While an endpoint has links, a link it keeps was there before or has just been added,
   an open link goes only if it is evicted, and what is sent leaves on an open one.
   */
  lemma LinksKept(c: Core, input: Input, closed: set<nat>, l: Link)
    requires Ready(c, input)
    ensures var o := Step(c, input, closed); var after := LinksOf(o.core.state);
      && (l in after ==> l in LinksOf(c.state) || (Accepts(input) && l == NewLink(c, input)))
      && (after != [] && l in LinksOf(c.state) && l.id !in closed && input != EvictLink(l.id) ==> l in after)
      && (o.sent != [] && after != [] ==> after[0].id !in closed)
  {
    var o := Step(c, input, closed);
    TurnRelinks(c, input, closed);
    if LinksOf(o.core.state) != [] {
      LinksAfterAre(c, input, closed, l);
      if o.sent != [] {
        var k := TurnSends(c, input, closed);
        SpeaksOnOpen(c, input, closed);
      }
    }
  }

  /**
   A link is taken if it can be read and has more than 56 bytes. It leads to a negotiation
   or goes on with the session, and comes first. Otherwise only its id is used up.
   */
  lemma AddLinkTurn(c: Core, maxSize: nat, readable: bool, closed: set<nat>)
    ensures var o, l := Step(c, AddLink(maxSize, readable), closed), Link(c.nextLink, maxSize);
      if readable && 56 < maxSize then
        && (if InSession(c.state) then o.core.state.Connected? else o.core.state.EpochMismatch?)
        && (LinksOf(c.state) != [] || l.id !in closed ==> LinksOf(o.core.state) == [l] + LinksOf(c.state))
        && FragmentSize(l) == maxSize - 56
      else o == Out(c.(nextLink := c.nextLink + 1), [])
  {
    TurnLeads(c, AddLink(maxSize, readable), closed);
    TurnRelinks(c, AddLink(maxSize, readable), closed);
  }
}
