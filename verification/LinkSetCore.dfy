/**
 The core as the program keeps it: one object whose handlers update the state,
 the shared timer, the active flag and the event channel in place. Each handler is
 proved against one turn of `Session`.
 */
module LinkSetCores {
  import opened Prelude
  import opened Epochs
  import opened Protocol
  import opened MessageManagers
  import opened Diagram
  import V = Session
  import L = TurnLaws

  /** The deadline future, without wall-clock time. */
  class Deadline {
    var deadline: bool
    var repeat: Option<nat>

    ghost function View(): V.Timer
      reads this
    {
      V.Timer(deadline, repeat)
    }

    constructor ()
      ensures View() == V.STOPPED
    {
      deadline, repeat := false, None;
    }

    method ModifyDeadline()
      modifies this
      ensures View() == V.ModifyDeadline(old(View())) && deadline && repeat == old(repeat)
    {
      deadline := true;
    }

    method ModifyRepeat(interval: nat)
      modifies this
      ensures View() == V.ModifyRepeat(old(View()), interval) && deadline && repeat == Some(interval)
    {
      if !deadline {
        deadline := true;
      }
      repeat := Some(interval);
    }

    method ClearRepeat()
      modifies this
      ensures View() == old(View()).(repeat := None)
    {
      repeat := None;
    }

    method Clear()
      modifies this
      ensures View() == V.STOPPED && !deadline && repeat.None?
    {
      deadline, repeat := false, None;
    }

    /** The sleep is over: re-arm a repeating deadline, drop a single one. */
    method Poll() returns (ready: bool)
      modifies this
      ensures ready == old(deadline)
      ensures View() == if ready then V.Fired(old(View())) else old(View())
      ensures deadline == (ready && repeat.Some?) && repeat == old(repeat)
    {
      ready := deadline;
      if ready && repeat.None? {
        deadline := false;
      }
    }
  }

  class LinkSetCore {
    var phase: Phase
    var epoch: Option<Epoch>
    var queued: seq<Payload>
    var links: seq<V.Link>
    var mgr: MessageManager

    const timer: Deadline
    var active: bool
    var cfg: V.Config
    var nextLink: nat
    /** Sent to the user so far. */
    var events: seq<V.Event>
    /** Put on a link during the current turn. */
    var outbox: seq<LinkProtocol>
    ghost var journal: map<nat, seq<Payload>>

    predicate InSession()
      reads this
    {
      phase.Connected? || phase.Reconnecting? || phase.GracePeriod?
    }

    ghost predicate Valid()
      reads this, mgr
    {
      InSession() ==> epoch.Some? && mgr.Drained()
    }

    ghost function State(): V.State
      requires Valid()
      reads this, mgr
    {
      match phase
      case Disconnected => V.Disconnected(epoch)
      case Connecting => V.Connecting(epoch, queued)
      case EpochMismatch => V.EpochMismatch(epoch, queued, links)
      case Connected => V.Connected(epoch.value, mgr.Value(), links)
      case Reconnecting => V.Reconnecting(epoch.value, mgr.Value())
      case GracePeriod => V.GracePeriod(epoch.value, mgr.Value())
    }

    ghost function View(): V.Core
      requires Valid()
      reads this, mgr, timer
    {
      V.Core(State(), timer.View(), active, cfg, nextLink, events, journal)
    }

    ghost function Turn(): V.Out
      requires Valid()
      reads this, mgr, timer
    {
      V.Out(View(), outbox)
    }

    constructor ()
      ensures Valid() && fresh(mgr) && fresh(timer) && View() == V.INITIAL && outbox == []
    {
      phase, epoch, queued, links := Disconnected, None, [], [];
      mgr := new MessageManager(1);
      timer := new Deadline();
      active, nextLink, events, outbox := false, 0, [], [];
      cfg := V.Config(true, Some(60000), Some(0), Some(0));
      journal := map[];
    }

    // -------------------------------------------------------------------
    // Links
    // -------------------------------------------------------------------

    /** Drop closed links from the front and send on the first usable one. */
    method SendProto(msg: LinkProtocol, closed: set<nat>)
      modifies this`links, this`outbox
      ensures links == V.DropClosed(old(links), closed)
      ensures outbox == old(outbox) + V.SendProto(links, msg)
    {
      while links != [] && links[0].id in closed
        invariant V.DropClosed(links, closed) == V.DropClosed(old(links), closed) && outbox == old(outbox)
        decreases |links|
      {
        links := links[1..];
      }
      if links != [] {
        outbox := outbox + [msg];
      }
    }

    method SendSlices(s: S.Slice, closed: set<nat>)
      modifies this`links, this`outbox
      ensures links == V.DropClosed(old(links), closed)
      ensures outbox == old(outbox) + V.SendSlices(links, s)
    {
      while links != [] && links[0].id in closed
        invariant V.DropClosed(links, closed) == V.DropClosed(old(links), closed) && outbox == old(outbox)
        decreases |links|
      {
        links := links[1..];
      }
      if links != [] {
        outbox := outbox + S.GetSlices(s, V.FragmentSize(links[0]));
      }
    }

    // -------------------------------------------------------------------
    // Transitions
    // -------------------------------------------------------------------

    method ToDisconnected()
      requires Valid()
      modifies this`phase, this`epoch, this`active, this`events, timer
      ensures Valid() && View() == V.ToDisconnected(old(View()))
    {
      match phase {
        case Disconnected =>
          return;
        case Connecting =>
          timer.Clear();
          events := events + [V.AttemptingConnection(false)];
        case EpochMismatch =>
          timer.Clear();
          epoch := OptIncrement(epoch);
        case Connected =>
          events := events + [V.GotDisconnected];
          timer.Clear();
          active := false;
          epoch := Some(Increment(epoch.value));
        case Reconnecting =>
          events := events + [V.AttemptingConnection(false), V.GotDisconnected];
          timer.Clear();
          epoch := Some(Increment(epoch.value));
        case GracePeriod =>
          timer.Clear();
          events := events + [V.GotDisconnected];
          epoch := Some(Increment(epoch.value));
      }
      phase := Disconnected;
    }

    method DetermineTimer()
      modifies timer
      ensures timer.View() == V.ConnectingTimer(old(timer.View()), cfg)
    {
      if cfg.connecting.Some? {
        timer.ClearRepeat();
        timer.ModifyDeadline();
      } else {
        timer.Clear();
      }
    }

    method ToConnecting(msgs: seq<Payload>)
      requires Valid() && !phase.Connected? && !phase.Connecting?
      modifies this`phase, this`epoch, this`queued, this`events, timer
      ensures Valid() && View() == V.ToConnecting(old(View()), msgs)
    {
      DetermineTimer();
      queued := [];
      match phase {
        case Disconnected =>
          events := events + [V.AttemptingConnection(true)];
          queued := msgs;
        case EpochMismatch =>
          events := events + [V.AttemptingConnection(true)];
        case Reconnecting =>
          events := events + [V.GotDisconnected];
          epoch := Some(Increment(epoch.value));
        case GracePeriod =>
          events := events + [V.GotDisconnected, V.AttemptingConnection(true)];
          epoch := Some(Increment(epoch.value));
      }
      phase := Connecting;
    }

    /** With a first link: open the negotiation with a request. */
    method ToMismatchWith(link: V.Link, closed: set<nat>)
      requires Valid() && (phase.Disconnected? || phase.Connecting?) && outbox == []
      modifies this`phase, this`queued, this`links, this`events, this`outbox, timer
      ensures Valid() && Turn() == V.ToMismatchWith(old(View()), link, closed)
    {
      links := [link];
      SendProto(Reset(epoch, true), closed);
      if phase.Connecting? {
        events := events + [V.AttemptingConnection(false)];
      } else {
        queued := [];
      }
      timer.ModifyRepeat(V.EPOCH_MISMATCH_TIMER_INTERVAL);
      phase := EpochMismatch;
    }

    /** The peer asked for another epoch. */
    method ToMismatchAgain(closed: set<nat>)
      requires Valid() && phase.Connected? && outbox == []
      modifies this`phase, this`epoch, this`queued, this`links, this`active, this`outbox, timer
      ensures Valid() && Turn() == V.ToMismatchAgain(old(View()), closed)
    {
      epoch := Some(Increment(epoch.value));
      SendProto(Reset(epoch, true), closed);
      timer.ModifyRepeat(V.EPOCH_MISMATCH_TIMER_INTERVAL);
      active := false;
      queued := [];
      phase := EpochMismatch;
    }

    /** Number a message and send its fragments. */
    method InsertAndSend(data: Payload, closed: set<nat>)
      modifies this`links, this`outbox, mgr
      ensures mgr.Value() == M.InsertMsg(old(mgr.Value()), data)
      ensures links == V.DropClosed(old(links), closed)
      ensures outbox == old(outbox) + V.SendSlices(links, S.FromVec(mgr.epoch, old(mgr.nextSeq), data))
    {
      var seqNo := mgr.InsertMsg(data);
      SendSlices(mgr.outgoing[seqNo], closed);
    }

    /** Put the queued messages in a fresh manager, sending each as it is inserted. */
    method SendQueued(e: Epoch, closed: set<nat>)
      requires mgr.Value() == M.NewMsgs(e)
      modifies this`links, this`outbox, mgr
      ensures mgr.Value() == M.InsertAll(M.NewMsgs(e), queued)
      ensures links == if queued == [] then old(links) else V.DropClosed(old(links), closed)
      ensures outbox == old(outbox) + V.QueuedSlices(e, queued, links)
    {
      var msgs := queued;
      ghost var live := V.DropClosed(links, closed);
      V.DropClosedTwice(links, closed);
      ghost var sent := [];
      var i := 0;
      while i < |msgs|
        invariant 0 <= i <= |msgs|
        invariant links == if i == 0 then old(links) else live
        invariant mgr.Value() == M.InsertAll(M.NewMsgs(e), msgs[..i])
        invariant sent == V.QueuedSlices(e, msgs[..i], live)
        invariant outbox == old(outbox) + sent
      {
        QueuedNext(e, msgs, i, live);
        ghost var more := V.SendSlices(live, S.FromVec(e, i, msgs[i]));
        Regroup(old(outbox), sent, more);
        InsertAndSend(msgs[i], closed);
        sent := sent + more;
        i := i + 1;
      }
      assert msgs[..i] == msgs;
    }

    /** Start a session with the queued messages. */
    method ToConnectedNew(e: Epoch, closed: set<nat>)
      requires Valid() && phase.EpochMismatch?
      modifies this`phase, this`epoch, this`links, this`mgr, this`active, this`events, this`outbox, this`journal, timer
      ensures Valid() && fresh(mgr)
      ensures links == if queued == [] then old(links) else V.DropClosed(old(links), closed)
      ensures View() == V.ToConnectedNew(old(View()), e, links).core
      ensures outbox == old(outbox) + V.QueuedSlices(e, queued, links)
    {
      mgr := new MessageManager(e);
      SendQueued(e, closed);
      InsertAllIncoming(e, queued);
      Open(e);
    }

    method Open(e: Epoch)
      requires Valid() && phase.EpochMismatch? && mgr.Drained()
      modifies this`phase, this`epoch, this`active, this`events, this`journal, timer
      ensures Valid() && phase.Connected? && epoch == Some(e)
      ensures timer.View() == V.CONNECTED_TIMER && active
      ensures events == old(events) + [V.GotConnected(e)] && journal == old(journal)[e := queued]
    {
      events := events + [V.GotConnected(e)];
      timer.Clear();
      timer.ModifyRepeat(V.CONNECTED_TIMER_INTERVAL);
      active := true;
      epoch := Some(e);
      journal := journal[e := queued];
      phase := Connected;
    }

    /** The same session on a new link. */
    method ToConnectedAgain(link: V.Link)
      requires Valid() && (phase.Reconnecting? || phase.GracePeriod?)
      modifies this`phase, this`links, this`active, this`events, timer
      ensures Valid() && View() == V.ToConnectedAgain(old(View()), link)
    {
      links := [link];
      if phase.Reconnecting? {
        events := events + [V.AttemptingConnection(false)];
      }
      timer.Clear();
      timer.ModifyRepeat(V.CONNECTED_TIMER_INTERVAL);
      active := true;
      phase := Connected;
    }

    /** Where a Connected endpoint goes once it has no links. */
    method DetermineState()
      requires Valid() && phase.Connected?
      modifies this`phase, this`epoch, this`active, this`events, timer
      ensures Valid() && View() == V.Settle(old(View()))
      ensures phase ==
        if links != [] then Connected
        else if cfg.reconnecting != Some(0) then Reconnecting
        else if cfg.gracePeriod != Some(0) then GracePeriod
        else Disconnected
      ensures epoch == if phase.Disconnected? then Some(Increment(old(epoch.value))) else old(epoch)
    {
      if links != [] {
        return;
      }
      if cfg.reconnecting != Some(0) {
        events := events + [V.AttemptingConnection(true)];
        if cfg.reconnecting.Some? {
          timer.ModifyDeadline();
        } else {
          timer.Clear();
        }
        active := false;
        phase := Reconnecting;
      } else if cfg.gracePeriod != Some(0) {
        if cfg.gracePeriod.Some? {
          timer.ModifyDeadline();
        } else {
          timer.Clear();
        }
        active := false;
        phase := GracePeriod;
      } else {
        ToDisconnected();
      }
    }

    // -------------------------------------------------------------------
    // Handlers: one turn each
    // -------------------------------------------------------------------

    /** Give the link an id; one too small or without a reader is refused. */
    method WrapLink(maxSize: nat, readable: bool) returns (link: Option<V.Link>)
      modifies this`nextLink
      ensures nextLink == old(nextLink) + 1
      ensures link == if V.OVERHEAD < maxSize && readable then Some(V.Link(old(nextLink), maxSize)) else None
    {
      var id := nextLink;
      nextLink := nextLink + 1;
      if maxSize <= V.OVERHEAD || !readable {
        return None;
      }
      link := Some(V.Link(id, maxSize));
    }

    method Connect(ghost closed: set<nat>)
      requires Valid()
      modifies this, timer
      ensures Valid() && mgr == old(mgr) && Turn() == V.Step(old(View()), V.Connect, closed)
    {
      outbox := [];
      if phase.Disconnected? {
        ToConnecting([]);
      }
    }

    method Disconnect(ghost closed: set<nat>)
      requires Valid()
      modifies this, timer
      ensures Valid() && mgr == old(mgr) && Turn() == V.Step(old(View()), V.Disconnect, closed)
      ensures phase.Disconnected? && outbox == []
    {
      outbox := [];
      ToDisconnected();
    }

    method AddLink(maxSize: nat, readable: bool, closed: set<nat>)
      requires Valid()
      modifies this, timer
      ensures Valid() && mgr == old(mgr) && Turn() == V.Step(old(View()), V.AddLink(maxSize, readable), closed)
    {
      AddLinkIs(View(), maxSize, readable, closed);
      outbox := [];
      var link := WrapLink(maxSize, readable);
      if link.Some? {
        UseLink(link.value, closed);
      }
    }

    /** Where an accepted link leads, in every state. */
    method UseLink(link: V.Link, closed: set<nat>)
      requires Valid() && outbox == []
      modifies this, timer
      ensures Valid() && mgr == old(mgr)
      ensures Turn() == V.WithLink(old(View()), link, closed)
    {
      match phase
      case Disconnected =>
        ToMismatchWith(link, closed);
      case Connecting =>
        ToMismatchWith(link, closed);
      case EpochMismatch =>
        links := [link] + links;
      case Connected =>
        links := [link] + links;
      case Reconnecting =>
        ToConnectedAgain(link);
      case GracePeriod =>
        ToConnectedAgain(link);
    }

    method SendMsg(data: Payload, tag: Option<Epoch>, closed: set<nat>)
      requires Valid()
      modifies this, timer, mgr
      ensures Valid() && mgr == old(mgr) && Turn() == V.Step(old(View()), V.SendMsg(data, tag), closed)
      ensures L.Submits(old(View()), V.SendMsg(data, tag)) ==>
        var e := old(epoch.value);
        V.Inserted(View(), e) == V.Inserted(old(View()), e) + [data]
    {
      if InSession() && L.Meant(tag, epoch.value) {
        L.MessageIsInserted(View(), data, tag, closed);
      }
      outbox := [];
      if InSession() {
        SendInSession(data, tag, closed);
      } else if tag.None? {
        match phase
        case Disconnected =>
          if cfg.autoConnect {
            ToConnecting([data]);
          }
        case Connecting =>
          queued := queued + [data];
        case EpochMismatch =>
          queued := queued + [data];
      }
    }

    method SendInSession(data: Payload, tag: Option<Epoch>, closed: set<nat>)
      requires Valid() && InSession() && outbox == []
      modifies this, timer, mgr
      ensures Valid() && mgr == old(mgr) && Turn() == V.Step(old(View()), V.SendMsg(data, tag), closed)
    {
      if tag.Some? && tag.value != epoch.value {
        return;
      }
      if phase.Connected? {
        SendConnected(data, closed);
      } else {
        journal := V.Journaled(View(), data);
        var _ := mgr.InsertMsg(data);
      }
    }

    method SendConnected(data: Payload, closed: set<nat>)
      requires Valid() && phase.Connected? && outbox == []
      modifies this, timer, mgr
      ensures Valid() && mgr == old(mgr)
      ensures Turn() == V.StepConnected(old(View()), V.SendMsg(data, None), closed)
    {
      journal := V.Journaled(View(), data);
      InsertAndSend(data, closed);
      DetermineState();
    }

    method Configure(config: V.Config, ghost closed: set<nat>)
      requires Valid()
      modifies this
      ensures Valid() && mgr == old(mgr) && Turn() == V.Step(old(View()), V.Configure(config), closed)
    {
      outbox := [];
      cfg := config;
    }

    method EvictLink(id: nat, ghost closed: set<nat>)
      requires Valid()
      modifies this
      ensures Valid() && mgr == old(mgr) && Turn() == V.Step(old(View()), V.EvictLink(id), closed)
    {
      outbox := [];
      if phase.EpochMismatch? || phase.Connected? {
        Retain({id});
      }
    }

    // -------------------------------------------------------------------
    // Messages from a link
    // -------------------------------------------------------------------

    /** Tell the peer the epoch and start its session. */
    method Adopt(e: Epoch, closed: set<nat>)
      requires Valid() && phase.EpochMismatch? && outbox == []
      modifies this, timer
      ensures Valid() && fresh(mgr)
      ensures var live := V.DropClosed(old(links), closed);
        && View() == V.ToConnectedNew(old(View()), e, live).core
        && outbox == V.SendProto(live, Reset(Some(e), false)) + V.QueuedSlices(e, old(queued), live)
    {
      V.DropClosedTwice(links, closed);
      SendProto(Reset(Some(e), false), closed);
      NothingBefore(V.SendProto(links, Reset(Some(e), false)));
      assert V.ToConnectedNew(View(), e, links) == V.ToConnectedNew(old(View()), e, links);
      ToConnectedNew(e, closed);
    }

    /** The epoch negotiation. */
    method Negotiate(theirs: Option<Epoch>, request: bool, closed: set<nat>)
      requires Valid() && phase.EpochMismatch? && outbox == []
      modifies this, timer
      ensures Valid() && (mgr == old(mgr) || fresh(mgr))
      ensures View() == V.Negotiate(old(View()), theirs, request, closed).core
      ensures outbox == V.Negotiate(old(View()), theirs, request, closed).sent
    {
      match Compare(epoch, theirs)
      case Greater =>
        SendProto(Reset(epoch, false), closed);
      case Equal =>
        if request {
          V.DropClosedTwice(links, closed);
          Adopt(epoch.value, closed);
        } else {
          ToConnectedNew(epoch.value, closed);
        }
      case Less =>
        Adopt(if theirs.Some? then theirs.value else 1, closed);
    }

    /** Record a fragment and take every complete message. */
    method Absorb(x: LinkProtocol) returns (shouldAck: bool, msgs: seq<Payload>)
      requires mgr.Drained() && x.MsgSlice? && M.Takes(mgr.Value(), x.seqNo, x.firstIndex, x.seqLen, x.data)
      modifies mgr
      ensures var m := M.Recv(old(mgr.Value()), x.seqNo, x.firstIndex, x.seqLen, x.data);
        mgr.Value() == M.AfterTake(m) && msgs == M.Taken(m) && mgr.Drained()
      ensures shouldAck == M.ShouldAck(old(mgr.Value()), x.seqNo, x.firstIndex, x.seqLen, x.data)
    {
      shouldAck := mgr.Recv(x.seqNo, x.firstIndex, x.seqLen, x.data);
      msgs := mgr.TakeRecvd();
    }

    /** Record a fragment and hand every complete message to the user. */
    method Receive(x: LinkProtocol) returns (shouldAck: bool)
      requires Valid() && InSession() && V.OfSession(State(), x) && V.Ready(View(), V.FromLink(x))
      modifies this`events, mgr
      ensures Valid() && View() == V.Receive(old(View()), x)
      ensures shouldAck == M.ShouldAck(old(mgr.Value()), x.seqNo, x.firstIndex, x.seqLen, x.data)
    {
      var msgs;
      shouldAck, msgs := Absorb(x);
      Announce(msgs);
    }

    method Announce(msgs: seq<Payload>)
      requires epoch.Some?
      modifies this`events
      ensures events == old(events) + V.MessageEvents(msgs, epoch.value)
    {
      ghost var told := [];
      for i := 0 to |msgs|
        invariant told == V.MessageEvents(msgs[..i], epoch.value) && events == old(events) + told
      {
        assert msgs[..i + 1][..i] == msgs[..i];
        var note := V.GotMessage(msgs[i], epoch.value);
        Regroup(old(events), told, [note]);
        events := events + [note];
        told := told + [note];
      }
      assert msgs[..|msgs|] == msgs;
    }

    method FragmentConnected(x: LinkProtocol, closed: set<nat>)
      requires Valid() && phase.Connected? && outbox == [] && x.MsgSlice? && V.Ready(View(), V.FromLink(x))
      requires x.msgEpoch == epoch.value
      modifies this, timer, mgr
      ensures Valid() && mgr == old(mgr)
      ensures Turn() == V.StepConnectedMsg(old(View()), x, closed)
    {
      var shouldAck := Receive(x);
      if shouldAck {
        SendProto(Ack(epoch.value, mgr.lastAck.0, mgr.lastAck.1), closed);
      }
      DetermineState();
    }

    method ResetConnected(theirs: Option<Epoch>, request: bool, closed: set<nat>)
      requires Valid() && phase.Connected? && outbox == []
      modifies this, timer
      ensures Valid() && mgr == old(mgr)
      ensures Turn() == V.StepConnectedMsg(old(View()), Reset(theirs, request), closed)
    {
      if request {
        if theirs == epoch {
          SendProto(Reset(epoch, false), closed);
          DetermineState();
        } else {
          ToMismatchAgain(closed);
        }
      }
    }

    method AckInSession(x: LinkProtocol)
      requires Valid() && InSession() && x.Ack?
      modifies mgr
      ensures Valid() && View() == V.ReceiveAck(old(View()), x)
    {
      if x.ackEpoch == epoch.value {
        mgr.RecvAck((x.ackSeq, x.lastIndex));
      }
    }

    method MsgConnected(msg: LinkProtocol, closed: set<nat>)
      requires Valid() && phase.Connected? && outbox == [] && V.Ready(View(), V.FromLink(msg))
      modifies this, timer, mgr
      ensures Valid() && mgr == old(mgr)
      ensures Turn() == V.StepConnectedMsg(old(View()), msg, closed)
    {
      match msg {
        case Reset(theirs, request) =>
          ResetConnected(theirs, request, closed);
        case Ack(_, _, _) =>
          AckInSession(msg);
        case MsgSlice(e, _, _, _, _) =>
          if e == epoch.value {
            FragmentConnected(msg, closed);
          }
        case Ping =>
        case Pong =>
      }
    }

    method MsgWaiting(msg: LinkProtocol)
      requires Valid() && (phase.Reconnecting? || phase.GracePeriod?) && V.Ready(View(), V.FromLink(msg))
      modifies this, timer, mgr
      ensures Valid() && mgr == old(mgr) && outbox == old(outbox)
      ensures View() == V.StepWaiting(old(View()), V.FromLink(msg))
    {
      match msg {
        case Reset(theirs, request) =>
          if request && theirs == epoch {
            if phase.Reconnecting? {
              ToConnecting([]);
            } else {
              ToDisconnected();
            }
          }
        case Ack(_, _, _) =>
          AckInSession(msg);
        case MsgSlice(e, _, _, _, _) =>
          if e == epoch.value {
            var _ := Receive(msg);
          }
        case Ping =>
        case Pong =>
      }
    }

    method FromLink(msg: LinkProtocol, closed: set<nat>)
      requires Valid() && V.Ready(View(), V.FromLink(msg))
      modifies this, timer, mgr
      ensures Valid() && (mgr == old(mgr) || fresh(mgr))
      ensures Turn() == V.Step(old(View()), V.FromLink(msg), closed)
    {
      outbox := [];
      match phase
      case Disconnected =>
      case Connecting =>
      case EpochMismatch =>
        if msg.Reset? {
          Negotiate(msg.epoch, msg.request, closed);
        }
      case Connected =>
        MsgConnected(msg, closed);
      case Reconnecting =>
        MsgWaiting(msg);
      case GracePeriod =>
        MsgWaiting(msg);
    }

    // -------------------------------------------------------------------
    // The timer
    // -------------------------------------------------------------------

    /** Keep the links that are not in `dropped`. */
    method Retain(dropped: set<nat>)
      modifies this`links
      ensures links == V.Upkeep(old(links), dropped)
    {
      var i := |links|;
      var kept := [];
      while 0 < i
        invariant 0 <= i <= |links| && links == old(links)
        invariant kept == V.Upkeep(links[i..], dropped)
      {
        i := i - 1;
        assert links[i..][1..] == links[i + 1..];
        if links[i].id !in dropped {
          kept := [links[i]] + kept;
        }
      }
      links := kept;
    }

    method TickMismatch(closed: set<nat>)
      requires Valid() && phase.EpochMismatch? && outbox == []
      modifies this, timer
      ensures Valid() && mgr == old(mgr)
      ensures Turn() == V.StepMismatch(old(View()), V.Tick, closed)
    {
      Retain(closed);
      if links == [] {
        if cfg.autoConnect {
          ToConnecting([]);
        } else {
          ToDisconnected();
        }
        return;
      }
      outbox := [Reset(epoch, true)];
    }

    /** Send the earliest outgoing message again. */
    method ResendEarliest()
      requires outbox == []
      modifies this`outbox
      ensures outbox == V.Resend(mgr.Value(), links)
    {
      var q := V.EarliestOutgoing(M.Msgs(mgr.epoch, mgr.outgoing, mgr.nextSeq, mgr.incoming, mgr.lastAck));
      if links != [] && q.Some? {
        outbox := S.GetSlices(mgr.outgoing[q.value], V.FragmentSize(links[0]));
      }
    }

    method TickConnected(closed: set<nat>)
      requires Valid() && phase.Connected? && outbox == []
      modifies this, timer
      ensures Valid() && mgr == old(mgr)
      ensures Turn() == V.StepConnected(old(View()), V.Tick, closed)
    {
      ghost var live := V.Upkeep(links, closed);
      Retain(closed);
      ResendEarliest();
      assert View() == V.WithLinks(old(View()), live) && outbox == V.Resend(old(mgr.Value()), live);
      DetermineState();
    }

    method Tick(closed: set<nat>)
      requires Valid()
      modifies this, timer
      ensures Valid() && mgr == old(mgr) && Turn() == V.Step(old(View()), V.Tick, closed)
    {
      outbox := [];
      var ready := timer.Poll();
      if !ready {
        return;
      }
      match phase
      case Disconnected =>
        timer.Clear();
      case Connecting =>
        timer.Clear();
        ToDisconnected();
      case EpochMismatch =>
        TickMismatch(closed);
      case Connected =>
        TickConnected(closed);
      case Reconnecting =>
        TickWaiting();
      case GracePeriod =>
        TickWaiting();
    }

    method TickWaiting()
      requires Valid() && (phase.Reconnecting? || phase.GracePeriod?)
      modifies this, timer
      ensures Valid() && mgr == old(mgr) && outbox == old(outbox)
      ensures View() == V.StepWaiting(old(View()), V.Tick)
    {
      if cfg.autoConnect {
        ToConnecting([]);
      } else {
        ToDisconnected();
      }
    }

    // -------------------------------------------------------------------
    // The core loop
    // -------------------------------------------------------------------

    /** One round of the core loop: whichever event is ready is handled. */
    method Handle(input: V.Input, closed: set<nat>)
      requires Valid() && V.Ready(View(), input)
      modifies this, timer, mgr
      ensures Valid() && (mgr == old(mgr) || fresh(mgr))
      ensures Turn() == V.Step(old(View()), input, closed)
      ensures L.Leads(old(View()), input, closed, View())
      ensures L.Told(old(View()), input, View()) && L.Posts(old(View()), input, View())
    {
      L.TurnLeads(View(), input, closed);
      L.TurnTold(View(), input, closed);
      L.TurnPosts(View(), input, closed);
      match input
      case Connect => Connect(closed);
      case Disconnect => Disconnect(closed);
      case AddLink(maxSize, readable) => AddLink(maxSize, readable, closed);
      case SendMsg(data, tag) => SendMsg(data, tag, closed);
      case Configure(config) => Configure(config, closed);
      case FromLink(msg) => FromLink(msg, closed);
      case Tick => Tick(closed);
      case EvictLink(id) => EvictLink(id, closed);
    }
  }

  /** Adding a link does the same in every state: take an id, then use the link if it is accepted. */
  lemma AddLinkIs(c: V.Core, maxSize: nat, readable: bool, closed: set<nat>)
    ensures var input := V.AddLink(maxSize, readable); var d := V.NextLink(c);
      V.Step(c, input, closed) ==
      if V.Accepts(input) then V.WithLink(d, V.NewLink(c, input), closed) else V.Quiet(d)
  {
  }

  lemma {:induction false} InsertAllIncoming(e: Epoch, msgs: seq<Payload>)
    ensures var m := M.InsertAll(M.NewMsgs(e), msgs);
      m.nextSeq == |msgs| && m.epoch == e && m.incoming == map[]
  {
    if msgs != [] {
      InsertAllIncoming(e, msgs[..|msgs| - 1]);
    }
  }

  lemma QueuedNext(e: Epoch, msgs: seq<Payload>, i: nat, live: seq<V.Link>)
    requires i < |msgs|
    ensures var m := M.InsertAll(M.NewMsgs(e), msgs[..i]);
      m.nextSeq == i && m.epoch == e && M.InsertAll(M.NewMsgs(e), msgs[..i + 1]) == M.InsertMsg(m, msgs[i])
    ensures V.QueuedSlices(e, msgs[..i + 1], live) ==
            V.QueuedSlices(e, msgs[..i], live) + V.SendSlices(live, S.FromVec(e, i, msgs[i]))
  {
    assert msgs[..i + 1][..i] == msgs[..i];
    InsertAllIncoming(e, msgs[..i]);
  }
}
