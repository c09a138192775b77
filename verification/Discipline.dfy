/** The timer and the message queue of one endpoint, over every run. */
module Discipline {
  import opened Prelude
  import opened Epochs
  import opened Protocol
  import opened Slices
  import opened Messages
  import opened Session
  import opened EventLog
  import Refinement

  // ---------------------------------------------------------------------
  // Timer
  // ---------------------------------------------------------------------

  /** The negotiating and connected states tick for ever; Disconnected never ticks. */
  predicate TimerKept(c: Core) {
    && (c.state.Connected? ==> c.timer == Timer(true, Some(CONNECTED_TIMER_INTERVAL)))
    && (c.state.EpochMismatch? ==> c.timer == Timer(true, Some(EPOCH_MISMATCH_TIMER_INTERVAL)))
    && (c.state.Disconnected? ==> c.timer == STOPPED)
    && (c.state.Connecting? ==> c.timer.repeat.None?)
  }

  /** The states left by a timeout. */
  predicate Limited(s: State) {
    s.Connecting? || s.Reconnecting? || s.GracePeriod?
  }

  predicate SameKind(s: State, t: State) {
    && s.Disconnected? == t.Disconnected? && s.Connecting? == t.Connecting?
    && s.EpochMismatch? == t.EpochMismatch? && s.Connected? == t.Connected?
    && s.Reconnecting? == t.Reconnecting?
  }

  /** The timeout that governs a limited state. */
  function TimeoutFor(s: State, cfg: Config): Option<nat>
    requires Limited(s)
  {
    if s.Connecting? then cfg.connecting else if s.Reconnecting? then cfg.reconnecting else cfg.gracePeriod
  }

  /** A limited state is armed exactly if its timeout was set on entry, and stays as it is until left. */
  predicate TimerOnEntry(c: Core, d: Core) {
    Limited(d.state) ==>
      if SameKind(c.state, d.state) then d.timer.armed == c.timer.armed
      else d.timer.armed == TimeoutFor(d.state, c.cfg).Some?
  }

  lemma SettleTimer(c: Core, d: Core)
    requires c.state.Connected? && d.state.Connected? && TimerKept(d) && d.cfg == c.cfg
    ensures TimerKept(Settle(d)) && TimerOnEntry(c, Settle(d))
  {
  }

  lemma MessageTimer(c: Core, x: LinkProtocol, closed: set<nat>)
    requires c.state.Connected? && Ready(c, FromLink(x)) && TimerKept(c)
    ensures var d := StepConnectedMsg(c, x, closed).core; TimerKept(d) && TimerOnEntry(c, d)
  {
    var live := DropClosed(c.state.links, closed);
    match x
    case Reset(_, _) => SettleTimer(c, WithLinks(c, live));
    case MsgSlice(e, _, _, _, _) =>
      if e == c.state.session {
        var r := Receive(c, x);
        SettleTimer(c, r);
        SettleTimer(c, WithLinks(r, live));
      }
    case _ =>
  }

  lemma ConnectedTimer(c: Core, input: Input, closed: set<nat>)
    requires c.state.Connected? && Ready(c, input) && TimerKept(c)
    ensures var d := StepConnected(c, input, closed).core; TimerKept(d) && TimerOnEntry(c, d)
  {
    match input
    case SendMsg(data, tag) =>
      SettleTimer(c, WithLinks(Insert(c, data), DropClosed(c.state.links, closed)));
    case FromLink(x) => MessageTimer(c, x, closed);
    case Tick => SettleTimer(c, WithLinks(c, Upkeep(c.state.links, closed)));
    case _ =>
  }

  lemma IdleTimer(c: Core, input: Input, closed: set<nat>)
    requires (c.state.Disconnected? || c.state.Connecting?) && Ready(c, input)
    requires TimerKept(c) || (input.Tick? && c.state.Connecting?)
    ensures var d := Dispatch(c, input, closed).core; TimerKept(d) && TimerOnEntry(c, d)
  {
  }

  lemma MismatchTimer(c: Core, input: Input, closed: set<nat>)
    requires c.state.EpochMismatch? && TimerKept(c)
    ensures var d := StepMismatch(c, input, closed).core; TimerKept(d) && TimerOnEntry(c, d)
  {
  }

  lemma WaitingTimer(c: Core, input: Input)
    requires (c.state.Reconnecting? || c.state.GracePeriod?) && Ready(c, input)
    ensures var d := StepWaiting(c, input); TimerKept(d) && (!input.Tick? ==> TimerOnEntry(c, d))
    ensures input.Tick? ==> StepWaiting(c, input).state.Connecting? || StepWaiting(c, input).state.Disconnected?
    ensures input.Tick? && StepWaiting(c, input).state.Connecting? ==>
      StepWaiting(c, input).timer.armed == c.cfg.connecting.Some?
  {
  }

  lemma StepTimer(c: Core, input: Input, closed: set<nat>)
    requires Ready(c, input) && TimerKept(c)
    ensures var d := Step(c, input, closed).core; TimerKept(d) && TimerOnEntry(c, d)
  {
    if !(input.Tick? && !c.timer.armed) && !input.Configure? {
      var t := if input.Tick? then c.(timer := Fired(c.timer)) else c;
      match t.state
      case Disconnected(_) => IdleTimer(t, input, closed);
      case Connecting(_, _) => IdleTimer(t, input, closed);
      case EpochMismatch(_, _, _) => MismatchTimer(t, input, closed);
      case Connected(_, _, _) => ConnectedTimer(t, input, closed);
      case _ => WaitingTimer(t, input);
    }
  }

  lemma {:induction false} RunTimer(turns: seq<Turn>)
    ensures TimerKept(Run(turns))
  {
    if turns != [] {
      var n := |turns| - 1;
      RunTimer(turns[..n]);
      if Ready(Run(turns[..n]), turns[n].input) {
        StepTimer(Run(turns[..n]), turns[n].input, turns[n].closed);
      }
    }
  }

  /**
   Timer discipline: in every reachable state Connected ticks every 5 seconds and
   EpochMismatch every 2, still armed after firing, and Disconnected has no timer.
   */
  lemma TimerDiscipline(turns: seq<Turn>)
    ensures var c := Run(turns);
      && (c.state.Connected? ==> c.timer == Timer(true, Some(5000)))
      && (c.state.EpochMismatch? ==> c.timer == Timer(true, Some(2000)))
      && (c.state.Connected? || c.state.EpochMismatch? ==> Fired(c.timer) == c.timer)
      && (c.state.Disconnected? ==> c.timer == STOPPED)
  {
    RunTimer(turns);
  }

  lemma LastTurnTimer(turns: seq<Turn>)
    requires turns != []
    ensures TimerOnEntry(Run(turns[..|turns| - 1]), Run(turns))
  {
    var n := |turns| - 1;
    RunTimer(turns[..n]);
    if Ready(Run(turns[..n]), turns[n].input) {
      StepTimer(Run(turns[..n]), turns[n].input, turns[n].closed);
    }
  }

  /** In a row of endpoint states that stays in one limited state after `entry`, the entry decides. */
  lemma {:induction false} ArmedInRow(cs: seq<Core>, entry: nat, last: nat)
    requires entry < last < |cs| && forall k :: 0 <= k < last ==> TimerOnEntry(cs[k], cs[k + 1])
    requires Limited(cs[last].state) && !SameKind(cs[entry].state, cs[entry + 1].state)
    requires forall k :: entry < k <= last ==> SameKind(cs[k].state, cs[last].state)
    ensures cs[last].timer.armed == TimeoutFor(cs[last].state, cs[entry].cfg).Some?
  {
    assert TimerOnEntry(cs[last - 1], cs[last]);
    if entry + 1 < last {
      assert SameKind(cs[last - 1].state, cs[last].state);
      ArmedInRow(cs, entry, last - 1);
    }
  }

  /** The states an endpoint goes through. */
  ghost function Trace(turns: seq<Turn>): (cs: seq<Core>)
    ensures |cs| == |turns| + 1
  {
    if turns == [] then [Run(turns)] else Trace(turns[..|turns| - 1]) + [Run(turns)]
  }

  lemma {:induction false} TraceAt(turns: seq<Turn>, k: nat)
    requires k <= |turns|
    ensures Trace(turns)[k] == Run(turns[..k])
  {
    if k == |turns| {
      assert turns[..k] == turns;
    } else {
      var init := turns[..|turns| - 1];
      assert init[..k] == turns[..k];
      TraceAt(init, k);
    }
  }

  lemma {:induction false} TraceTimer(turns: seq<Turn>, k: nat)
    requires k < |turns|
    ensures TimerOnEntry(Trace(turns)[k], Trace(turns)[k + 1])
  {
    TraceAt(turns, k);
    TraceAt(turns, k + 1);
    assert turns[..k + 1][..k] == turns[..k];
    LastTurnTimer(turns[..k + 1]);
  }

  /**
   ... and while an endpoint stays in Connecting, Reconnecting or GracePeriod its
   timer is armed exactly if that state's timeout was set when it was entered.
   */
  lemma {:induction false} ArmedSinceEntry(turns: seq<Turn>, entry: nat)
    requires entry < |turns| && Limited(Run(turns).state)
    requires !SameKind(Run(turns[..entry]).state, Run(turns[..entry + 1]).state)
    requires forall k :: entry < k <= |turns| ==> SameKind(Run(turns[..k]).state, Run(turns).state)
    ensures Run(turns).timer.armed == TimeoutFor(Run(turns).state, Run(turns[..entry]).cfg).Some?
  {
    var n, cs := |turns|, Trace(turns);
    TraceAt(turns, entry);
    TraceAt(turns, entry + 1);
    assert cs[n] == Run(turns);
    forall k | 0 <= k < n ensures TimerOnEntry(cs[k], cs[k + 1]) {
      TraceTimer(turns, k);
    }
    forall k | entry < k <= n ensures SameKind(cs[k].state, cs[n].state) {
      TraceAt(turns, k);
    }
    ArmedInRow(cs, entry, n);
  }

  // ---------------------------------------------------------------------
  // Queue
  // ---------------------------------------------------------------------

  /** The endpoint after further turns. */
  function RunFrom(c: Core, turns: seq<Turn>): Core {
    if turns == [] then c
    else
      var d, t := RunFrom(c, turns[..|turns| - 1]), turns[|turns| - 1];
      if Ready(d, t.input) then Step(d, t.input, t.closed).core else d
  }

  /** The payloads of the messages sent without an epoch. */
  function Untagged(turns: seq<Turn>): seq<Payload> {
    if turns == [] then []
    else
      var n := |turns| - 1;
      Untagged(turns[..n]) +
      match turns[n].input
      case SendMsg(data, None) => [data]
      case _ => []
  }

  /** On the way to a session, with a queue. */
  predicate Unopened(s: State) {
    s.Connecting? || s.EpochMismatch?
  }

  /** The next state is no step back: not Connecting again, and not Disconnected. */
  predicate Forward(c: Core, d: Core) {
    (Unopened(d.state) && (d.state.Connecting? ==> c.state.Connecting?)) || d.state.Connected?
  }

  lemma UntaggedOne(t: Turn)
    ensures Untagged([t]) == match t.input case SendMsg(data, None) => [data] case _ => []
  {
    assert [t][..0] == [];
    assert Untagged([]) == [];
  }

  lemma QueueInConnecting(c: Core, t: Turn)
    requires c.state.Connecting? && Ready(c, t.input)
    requires var d := Step(c, t.input, t.closed).core; Forward(c, d)
    ensures var d := Step(c, t.input, t.closed).core;
      Unopened(d.state) && d.state.queued == c.state.queued + Untagged([t])
  {
    UntaggedOne(t);
  }

  lemma QueueInNegotiation(c: Core, theirs: Option<Epoch>, request: bool, closed: set<nat>)
    requires c.state.EpochMismatch?
    ensures var d := Negotiate(c, theirs, request, closed).core.state;
      if d.Connected? then d.mgr == InsertAll(NewMsgs(d.session), c.state.queued)
      else d.EpochMismatch? && d.queued == c.state.queued
  {
  }

  lemma QueueInMismatch(c: Core, t: Turn)
    requires c.state.EpochMismatch? && Ready(c, t.input)
    requires var d := Step(c, t.input, t.closed).core; Forward(c, d)
    ensures var d := Step(c, t.input, t.closed).core;
      if d.state.Connected? then
        t.input.FromLink? && d.state.mgr == InsertAll(NewMsgs(d.state.session), c.state.queued)
      else
        d.state.EpochMismatch? && d.state.queued == c.state.queued + Untagged([t])
  {
    UntaggedOne(t);
    if t.input.FromLink? && t.input.msg.Reset? {
      QueueInNegotiation(c, t.input.msg.epoch, t.input.msg.request, t.closed);
    }
  }

  lemma QueueStep(c: Core, t: Turn)
    requires Unopened(c.state) && Ready(c, t.input)
    requires var d := Step(c, t.input, t.closed).core; Forward(c, d)
    ensures var d := Step(c, t.input, t.closed).core;
      if d.state.Connected? then
        !t.input.SendMsg? && d.state.mgr == InsertAll(NewMsgs(d.state.session), c.state.queued)
      else
        d.state.queued == c.state.queued + Untagged([t])
  {
    if c.state.Connecting? {
      QueueInConnecting(c, t);
    } else {
      QueueInMismatch(c, t);
    }
  }

  lemma UntaggedSnoc(turns: seq<Turn>, t: Turn)
    ensures Untagged(turns + [t]) == Untagged(turns) + Untagged([t])
  {
    assert (turns + [t])[..|turns|] == turns;
    UntaggedOne(t);
  }

  /** From `c` the endpoint moves forward only, and is still opening its session before the last turn. */
  predicate Opening(c: Core, turns: seq<Turn>) {
    turns != [] ==>
      var init, t := turns[..|turns| - 1], turns[|turns| - 1];
      var d := RunFrom(c, init);
      Opening(c, init) && Unopened(d.state) && Ready(d, t.input) && Forward(d, Step(d, t.input, t.closed).core)
  }

  /** Until the session starts, the queue is what was accepted so far, in order. */
  lemma {:induction false} QueueSoFar(c: Core, turns: seq<Turn>)
    requires Unopened(c.state) && Opening(c, turns) && Unopened(RunFrom(c, turns).state)
    ensures RunFrom(c, turns).state.queued == c.state.queued + Untagged(turns)
  {
    if turns != [] {
      var n := |turns| - 1;
      QueueSoFar(c, turns[..n]);
      assert turns[..n] + [turns[n]] == turns;
      QueueStep(RunFrom(c, turns[..n]), turns[n]);
      UntaggedSnoc(turns[..n], turns[n]);
    }
  }

  /** The outgoing messages are `msgs`, numbered from 0 in this order, and the next one comes after them. */
  ghost predicate Numbered(m: Msgs, e: Epoch, msgs: seq<Payload>) {
    && m.nextSeq == |msgs|
    && (forall q :: q in m.outgoing <==> 0 <= q < |msgs|)
    && forall q :: 0 <= q < |msgs| ==> m.outgoing[q] == FromVec(e, q, msgs[q])
  }

  lemma InsertAllNumbered(e: Epoch, msgs: seq<Payload>)
    ensures Numbered(InsertAll(NewMsgs(e), msgs), e, msgs)
  {
    Refinement.InsertAllOutgoing(e, msgs);
  }

  /** The turn that starts the session accepts no message. */
  lemma LastTurn(c: Core, init: seq<Turn>, t: Turn)
    requires Unopened(c.state) && Opening(c, init + [t]) && RunFrom(c, init + [t]).state.Connected?
    ensures Opening(c, init) && Unopened(RunFrom(c, init).state) && Untagged(init + [t]) == Untagged(init)
    ensures var d := RunFrom(c, init + [t]).state;
      d.mgr == InsertAll(NewMsgs(d.session), RunFrom(c, init).state.queued)
  {
    assert (init + [t])[..|init|] == init;
    QueueStep(RunFrom(c, init), t);
    UntaggedSnoc(init, t);
    UntaggedOne(t);
  }

  /**
   Queued messages keep their order: on a run from Connecting through EpochMismatch
   to Connected that never falls back, the messages accepted on the way become
   sequence numbers 0, 1, 2, ... of the new session, ahead of every later message.
   */
  lemma QueuedMessagesKeepOrder(c: Core, turns: seq<Turn>)
    requires Unopened(c.state) && Opening(c, turns) && RunFrom(c, turns).state.Connected?
    ensures var d := RunFrom(c, turns).state; Numbered(d.mgr, d.session, c.state.queued + Untagged(turns))
  {
    var n := |turns| - 1;
    assert turns == turns[..n] + [turns[n]];
    LastTurn(c, turns[..n], turns[n]);
    QueueSoFar(c, turns[..n]);
    InsertAllNumbered(RunFrom(c, turns).state.session, c.state.queued + Untagged(turns));
  }

  lemma {:induction false} UntaggedAppend(a: seq<Turn>, b: seq<Turn>)
    ensures Untagged(a + b) == Untagged(a) + Untagged(b)
    decreases |b|
  {
    if b == [] {
      assert a + b == a;
    } else {
      var n := |b| - 1;
      UntaggedAppend(a, b[..n]);
      Regroup(a, b[..n], [b[n]]);
      assert b == b[..n] + [b[n]];
      UntaggedSnoc(a + b[..n], b[n]);
      UntaggedSnoc(b[..n], b[n]);
    }
  }

  /** ... and so does the message that made a Disconnected endpoint connect: it is number 0. */
  lemma FirstMessageIsFirst(c: Core, first: Turn, turns: seq<Turn>)
    requires c.state.Disconnected? && Ready(c, first.input)
    requires var d := Step(c, first.input, first.closed).core;
      Unopened(d.state) && Opening(d, turns) && RunFrom(d, turns).state.Connected?
    ensures var d := RunFrom(Step(c, first.input, first.closed).core, turns).state;
      Numbered(d.mgr, d.session, Untagged([first] + turns))
  {
    var d := Step(c, first.input, first.closed).core;
    UntaggedOne(first);
    UntaggedAppend([first], turns);
    QueuedMessagesKeepOrder(d, turns);
  }

  /** Such runs exist: a message queued while Connecting, a first link, and the peer's request. */
  lemma QueuedRun(c: Core, link: Turn, request: Turn)
    requires c.state == Connecting(None, [[5]])
    requires link == Turn(AddLink(100, true), {}) && request == Turn(FromLink(Reset(None, true)), {})
    ensures Opening(c, [link, request]) && RunFrom(c, [link, request]).state.Connected?
  {
    assert [link, request][..1] == [link] && [link][..0] == [];
    assert RunFrom(c, []) == c;
    var d := Step(c, link.input, link.closed).core;
    assert d.state == EpochMismatch(None, [[5]], [Link(c.nextLink, 100)]);
    assert RunFrom(c, [link]) == d;
    assert Opening(c, []);
    assert Opening(c, [link]);
  }
}
