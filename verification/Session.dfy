/**
 The session state machine of one endpoint: one step per control command, link
 message, timer tick or configuration change.
 */
module Session {
  import opened Prelude
  import opened Epochs
  import opened Protocol
  import opened Slices
  import opened Messages

  // ---------------------------------------------------------------------
  // Timer
  // ---------------------------------------------------------------------

  /** The shared deadline, without wall-clock time: armed or not, and its repeat interval in ms. */
  datatype Timer = Timer(armed: bool, repeat: Option<nat>)

  const STOPPED: Timer := Timer(false, None)

  function ModifyDeadline(t: Timer): Timer { t.(armed := true) }

  function ModifyRepeat(t: Timer, interval: nat): Timer { Timer(true, Some(interval)) }

  /** What is left of the timer once it has fired. */
  function Fired(t: Timer): Timer { if t.repeat.Some? then t else t.(armed := false) }

  const EPOCH_MISMATCH_TIMER_INTERVAL: nat := 2000
  const CONNECTED_TIMER_INTERVAL: nat := 5000

  // ---------------------------------------------------------------------
  // Links
  // ---------------------------------------------------------------------

  datatype Link = Link(id: nat, maxSize: nat)

  /** Bytes of a link's size reserved for the protocol around a fragment. */
  const OVERHEAD: nat := 56

  function FragmentSize(l: Link): nat {
    if l.maxSize <= OVERHEAD then 0 else l.maxSize - OVERHEAD
  }

  /** Closed or slow links are dropped from the front until a usable one is found. */
  function DropClosed(links: seq<Link>, closed: set<nat>): seq<Link> {
    if links != [] && links[0].id in closed then DropClosed(links[1..], closed) else links
  }

  /** Link `k` is the first one that is not closed; there is none if `k` is their number. */
  ghost predicate FirstOpen(links: seq<Link>, closed: set<nat>, k: nat) {
    && k <= |links| && (forall i :: 0 <= i < k ==> links[i].id in closed)
    && (k < |links| ==> links[k].id !in closed)
  }

  lemma {:induction false} DropClosedIs(links: seq<Link>, closed: set<nat>) returns (k: nat)
    ensures FirstOpen(links, closed, k) && DropClosed(links, closed) == links[k..]
  {
    k := 0;
    if links != [] && links[0].id in closed {
      var j := DropClosedIs(links[1..], closed);
      k := j + 1;
      assert forall i :: 0 < i < k ==> links[i] == links[1..][i - 1];
    }
  }

  lemma {:induction false} DropClosedTwice(links: seq<Link>, closed: set<nat>)
    ensures DropClosed(DropClosed(links, closed), closed) == DropClosed(links, closed)
  {
    if links != [] && links[0].id in closed {
      DropClosedTwice(links[1..], closed);
    }
  }

  function Upkeep(links: seq<Link>, closed: set<nat>): seq<Link> {
    if links == [] then []
    else (if links[0].id in closed then [] else [links[0]]) + Upkeep(links[1..], closed)
  }

  predicate Ascending(at: seq<nat>) {
    forall j, k :: 0 <= j < k < |at| ==> at[j] < at[k]
  }

  /** `kept` are the links at the positions `at`, which are exactly those not closed, in order. */
  ghost predicate KeepsOpen(links: seq<Link>, closed: set<nat>, kept: seq<Link>, at: seq<nat>) {
    && |at| == |kept| && Ascending(at)
    && (forall j :: 0 <= j < |at| ==> at[j] < |links| && kept[j] == links[at[j]])
    && (forall i: nat :: i < |links| ==> (i in at <==> links[i].id !in closed))
  }

  lemma {:induction false} UpkeepIs(links: seq<Link>, closed: set<nat>) returns (at: seq<nat>)
    ensures KeepsOpen(links, closed, Upkeep(links, closed), at)
  {
    at := [];
    if links != [] {
      var n := |links| - 1;
      at := UpkeepIs(links[..n], closed);
      UpkeepSnoc(links[..n], links[n], closed);
      assert links == links[..n] + [links[n]];
      if links[n].id !in closed {
        at := at + [n];
      }
    }
  }

  lemma {:induction false} UpkeepSnoc(links: seq<Link>, l: Link, closed: set<nat>)
    ensures Upkeep(links + [l], closed) == Upkeep(links, closed) + if l.id in closed then [] else [l]
  {
    if links != [] {
      UpkeepSnoc(links[1..], l, closed);
      assert (links + [l])[1..] == links[1..] + [l];
    } else {
      assert (links + [l])[1..] == [];
    }
  }

  function SendProto(live: seq<Link>, msg: LinkProtocol): seq<LinkProtocol> {
    if live == [] then [] else [msg]
  }

  function SendSlices(live: seq<Link>, s: Slice): seq<LinkProtocol> {
    if live == [] then [] else GetSlices(s, FragmentSize(live[0]))
  }

  // ---------------------------------------------------------------------
  // State
  // ---------------------------------------------------------------------

  datatype State =
    | Disconnected(epoch: Option<Epoch>)
    | Connecting(epoch: Option<Epoch>, queued: seq<Payload>)
    | EpochMismatch(epoch: Option<Epoch>, queued: seq<Payload>, links: seq<Link>)
    | Connected(session: Epoch, mgr: Msgs, links: seq<Link>)
    | Reconnecting(session: Epoch, mgr: Msgs)
    | GracePeriod(session: Epoch, mgr: Msgs)

  datatype Event =
    | GotDisconnected
    | GotConnected(epoch: Epoch)
    | AttemptingConnection(trying: bool)
    | GotMessage(data: Payload, epoch: Epoch)

  /** Timeouts in ms; `Some(0)` skips the state, `None` waits for ever. */
  datatype Config = Config(
    autoConnect: bool,
    connecting: Option<nat>,
    reconnecting: Option<nat>,
    gracePeriod: Option<nat>)

  /**
   One endpoint. `events` is everything it told its user. `journal` is a history
   variable no branch reads: the payloads given to `insert_msg`, by session.
   */
  datatype Core = Core(
    state: State,
    timer: Timer,
    active: bool,
    cfg: Config,
    nextLink: nat,
    events: seq<Event>,
    journal: map<nat, seq<Payload>>)

  datatype Input =
    | Connect
    | Disconnect
    | AddLink(maxSize: nat, readable: bool)
    | SendMsg(data: Payload, tag: Option<Epoch>)
    | Configure(cfg: Config)
    | FromLink(msg: LinkProtocol)
    | Tick
    | EvictLink(id: nat)

  /** The new endpoint and what it put on its links. */
  datatype Out = Out(core: Core, sent: seq<LinkProtocol>)

  const INITIAL: Core :=
    Core(Disconnected(None), STOPPED, false, Config(true, Some(60000), Some(0), Some(0)), 0, [], map[])

  predicate InSession(s: State) {
    s.Connected? || s.Reconnecting? || s.GracePeriod?
  }

  function EpochOf(s: State): Option<Epoch> {
    if InSession(s) then Some(s.session) else s.epoch
  }

  /** The payloads given to session `e`. */
  function Inserted(c: Core, e: nat): seq<Payload> {
    if e in c.journal then c.journal[e] else []
  }

  /** A fragment of the current session can be taken without an arithmetic underflow. */
  predicate Ready(c: Core, input: Input) {
    input.FromLink? && InSession(c.state) && OfSession(c.state, input.msg) ==>
      Takes(c.state.mgr, input.msg.seqNo, input.msg.firstIndex, input.msg.seqLen, input.msg.data)
  }

  predicate OfSession(s: State, x: LinkProtocol)
    requires InSession(s)
  {
    x.MsgSlice? && x.msgEpoch == s.session
  }

  // ---------------------------------------------------------------------
  // Transitions
  // ---------------------------------------------------------------------

  function ToDisconnected(c: Core): Core {
    match c.state
    case Disconnected(_) => c
    case Connecting(e, _) =>
      c.(state := Disconnected(e), timer := STOPPED, events := c.events + [AttemptingConnection(false)])
    case EpochMismatch(e, _, _) =>
      c.(state := Disconnected(OptIncrement(e)), timer := STOPPED)
    case Connected(e, _, _) =>
      c.(state := Disconnected(Some(Increment(e))), timer := STOPPED, active := false,
         events := c.events + [GotDisconnected])
    case Reconnecting(e, _) =>
      c.(state := Disconnected(Some(Increment(e))), timer := STOPPED,
         events := c.events + [AttemptingConnection(false), GotDisconnected])
    case GracePeriod(e, _) =>
      c.(state := Disconnected(Some(Increment(e))), timer := STOPPED, events := c.events + [GotDisconnected])
  }

  function ConnectingTimer(t: Timer, cfg: Config): Timer {
    if cfg.connecting.Some? then ModifyDeadline(t.(repeat := None)) else STOPPED
  }

  function ToConnecting(c: Core, queued: seq<Payload>): Core {
    var d := c.(timer := ConnectingTimer(c.timer, c.cfg));
    match c.state
    case Disconnected(e) =>
      d.(state := Connecting(e, queued), events := c.events + [AttemptingConnection(true)])
    case EpochMismatch(e, _, _) =>
      d.(state := Connecting(e, []), events := c.events + [AttemptingConnection(true)])
    case Reconnecting(e, _) =>
      d.(state := Connecting(Some(Increment(e)), []), events := c.events + [GotDisconnected])
    case GracePeriod(e, _) =>
      d.(state := Connecting(Some(Increment(e)), []),
         events := c.events + [GotDisconnected, AttemptingConnection(true)])
    case _ => c
  }

  /** From Disconnected or Connecting, with a first link. */
  function ToMismatchWith(c: Core, link: Link, closed: set<nat>): Out
    requires c.state.Disconnected? || c.state.Connecting?
  {
    var live := DropClosed([link], closed);
    var queued := if c.state.Connecting? then c.state.queued else [];
    var notice := if c.state.Connecting? then [AttemptingConnection(false)] else [];
    Out(c.(state := EpochMismatch(c.state.epoch, queued, live),
           timer := ModifyRepeat(c.timer, EPOCH_MISMATCH_TIMER_INTERVAL),
           events := c.events + notice),
        SendProto(live, Reset(c.state.epoch, true)))
  }

  /** From Connected, because the peer asked for another epoch. */
  function ToMismatchAgain(c: Core, closed: set<nat>): Out
    requires c.state.Connected?
  {
    var epoch := Some(Increment(c.state.session));
    var live := DropClosed(c.state.links, closed);
    Out(c.(state := EpochMismatch(epoch, [], live),
           timer := ModifyRepeat(c.timer, EPOCH_MISMATCH_TIMER_INTERVAL),
           active := false),
        SendProto(live, Reset(epoch, true)))
  }

  function QueuedSlices(epoch: Epoch, msgs: seq<Payload>, live: seq<Link>): seq<LinkProtocol> {
    if msgs == [] then []
    else
      var n := |msgs| - 1;
      QueuedSlices(epoch, msgs[..n], live) + SendSlices(live, FromVec(epoch, n, msgs[n]))
  }

  const CONNECTED_TIMER: Timer := ModifyRepeat(STOPPED, CONNECTED_TIMER_INTERVAL)

  /** From EpochMismatch: a new session, opened with the queued messages. */
  function ToConnectedNew(c: Core, epoch: Epoch, live: seq<Link>): Out
    requires c.state.EpochMismatch?
  {
    var queued := c.state.queued;
    Out(c.(state := Connected(epoch, InsertAll(NewMsgs(epoch), queued), live),
           timer := CONNECTED_TIMER, active := true,
           events := c.events + [GotConnected(epoch)],
           journal := c.journal[epoch := queued]),
        QueuedSlices(epoch, queued, live))
  }

  /** From Reconnecting or GracePeriod: the same session on a new link. */
  function ToConnectedAgain(c: Core, link: Link): Core
    requires c.state.Reconnecting? || c.state.GracePeriod?
  {
    var notice := if c.state.Reconnecting? then [AttemptingConnection(false)] else [];
    c.(state := Connected(c.state.session, c.state.mgr, [link]),
       timer := CONNECTED_TIMER, active := true, events := c.events + notice)
  }

  function Waiting(t: Timer, timeout: Option<nat>): Timer {
    if timeout.Some? then ModifyDeadline(t) else STOPPED
  }

  function ToReconnecting(c: Core): Core
    requires c.state.Connected?
  {
    c.(state := Reconnecting(c.state.session, c.state.mgr),
       timer := Waiting(c.timer, c.cfg.reconnecting), active := false,
       events := c.events + [AttemptingConnection(true)])
  }

  function ToGracePeriod(c: Core): Core
    requires c.state.Connected?
  {
    c.(state := GracePeriod(c.state.session, c.state.mgr),
       timer := Waiting(c.timer, c.cfg.gracePeriod), active := false)
  }

  /** `determine_state`: where a Connected endpoint goes once it has no links. */
  function Settle(c: Core): Core
    requires c.state.Connected?
  {
    if c.state.links != [] then c
    else if c.cfg.reconnecting != Some(0) then ToReconnecting(c)
    else if c.cfg.gracePeriod != Some(0) then ToGracePeriod(c)
    else ToDisconnected(c)
  }

  // ---------------------------------------------------------------------
  // Session work
  // ---------------------------------------------------------------------

  function WithMgr(c: Core, mgr: Msgs): Core
    requires InSession(c.state)
  {
    match c.state
    case Connected(e, _, links) => c.(state := Connected(e, mgr, links))
    case Reconnecting(e, _) => c.(state := Reconnecting(e, mgr))
    case GracePeriod(e, _) => c.(state := GracePeriod(e, mgr))
  }

  function Journaled(c: Core, data: Payload): map<nat, seq<Payload>>
    requires InSession(c.state)
  {
    var e := c.state.session;
    c.journal[e := (if e in c.journal then c.journal[e] else []) + [data]]
  }

  function Insert(c: Core, data: Payload): Core
    requires InSession(c.state)
  {
    WithMgr(c, InsertMsg(c.state.mgr, data)).(journal := Journaled(c, data))
  }

  function MessageEvents(msgs: seq<Payload>, epoch: Epoch): (r: seq<Event>)
    ensures |r| == |msgs| && forall i :: 0 <= i < |r| ==> r[i] == GotMessage(msgs[i], epoch)
  {
    if msgs == [] then [] else MessageEvents(msgs[..|msgs| - 1], epoch) + [GotMessage(msgs[|msgs| - 1], epoch)]
  }

  /** Record a fragment and hand out every message that is complete. */
  function Receive(c: Core, x: LinkProtocol): Core
    requires InSession(c.state) && OfSession(c.state, x) && Ready(c, FromLink(x))
  {
    var m := Recv(c.state.mgr, x.seqNo, x.firstIndex, x.seqLen, x.data);
    WithMgr(c, AfterTake(m)).(events := c.events + MessageEvents(Taken(m), c.state.session))
  }

  function ReceiveAck(c: Core, x: LinkProtocol): Core
    requires InSession(c.state) && x.Ack?
  {
    if x.ackEpoch == c.state.session then WithMgr(c, RecvAck(c.state.mgr, (x.ackSeq, x.lastIndex))) else c
  }

  predicate WrongTag(tag: Option<Epoch>, session: Epoch) {
    tag.Some? && tag.value != session
  }

  function Evict(links: seq<Link>, id: nat): seq<Link> {
    Upkeep(links, {id})
  }

  // ---------------------------------------------------------------------
  // One step in each state
  // ---------------------------------------------------------------------

  /** `wrap_link`: every attempt uses up an id; small or unreadable links are refused. */
  function NextLink(c: Core): Core { c.(nextLink := c.nextLink + 1) }

  predicate Accepts(input: Input) {
    input.AddLink? && OVERHEAD < input.maxSize && input.readable
  }

  function NewLink(c: Core, input: Input): Link
    requires input.AddLink?
  {
    Link(c.nextLink, input.maxSize)
  }

  function Quiet(c: Core): Out { Out(c, []) }

  function StepDisconnected(c: Core, input: Input, closed: set<nat>): Out
    requires c.state.Disconnected?
  {
    match input
    case Connect => Quiet(ToConnecting(c, []))
    case AddLink(_, _) =>
      if Accepts(input) then ToMismatchWith(NextLink(c), NewLink(c, input), closed) else Quiet(NextLink(c))
    case SendMsg(data, tag) =>
      if c.cfg.autoConnect && tag.None? then Quiet(ToConnecting(c, [data])) else Quiet(c)
    case Tick => Quiet(c.(timer := STOPPED))
    case _ => Quiet(c)
  }

  function StepConnecting(c: Core, input: Input, closed: set<nat>): Out
    requires c.state.Connecting?
  {
    match input
    case Disconnect => Quiet(ToDisconnected(c))
    case AddLink(_, _) =>
      if Accepts(input) then ToMismatchWith(NextLink(c), NewLink(c, input), closed) else Quiet(NextLink(c))
    case SendMsg(data, tag) =>
      if tag.None? then Quiet(c.(state := Connecting(c.state.epoch, c.state.queued + [data]))) else Quiet(c)
    case Tick => Quiet(ToDisconnected(c.(timer := STOPPED)))
    case _ => Quiet(c)
  }

  function Queueing(c: Core, data: Payload): Core
    requires c.state.EpochMismatch?
  {
    c.(state := EpochMismatch(c.state.epoch, c.state.queued + [data], c.state.links))
  }

  function Relinked(c: Core, links: seq<Link>): Core
    requires c.state.EpochMismatch?
  {
    c.(state := EpochMismatch(c.state.epoch, c.state.queued, links))
  }

  /** A `Reset` in EpochMismatch: the epoch negotiation. */
  function Negotiate(c: Core, theirs: Option<Epoch>, request: bool, closed: set<nat>): Out
    requires c.state.EpochMismatch?
  {
    var ours := c.state.epoch;
    var live := DropClosed(c.state.links, closed);
    match Compare(ours, theirs)
    case Greater => Out(Relinked(c, live), SendProto(live, Reset(ours, false)))
    case Equal =>
      var links := if request then live else c.state.links;
      var next := if c.state.queued == [] then links else DropClosed(links, closed);
      var o := ToConnectedNew(c, ours.value, next);
      Out(o.core, (if request then SendProto(live, Reset(ours, false)) else []) + o.sent)
    case Less =>
      var epoch := if theirs.Some? then theirs.value else 1;
      var o := ToConnectedNew(c, epoch, live);
      Out(o.core, SendProto(live, Reset(Some(epoch), false)) + o.sent)
  }

  function StepMismatch(c: Core, input: Input, closed: set<nat>): Out
    requires c.state.EpochMismatch?
  {
    match input
    case Disconnect => Quiet(ToDisconnected(c))
    case AddLink(_, _) =>
      var d := NextLink(c);
      if Accepts(input) then Quiet(Relinked(d, [NewLink(c, input)] + d.state.links)) else Quiet(d)
    case SendMsg(data, tag) =>
      if tag.None? then Quiet(Queueing(c, data)) else Quiet(c)
    case FromLink(msg) =>
      if msg.Reset? then Negotiate(c, msg.epoch, msg.request, closed) else Quiet(c)
    case Tick =>
      var live := Upkeep(c.state.links, closed);
      var d := Relinked(c, live);
      if live != [] then Out(d, [Reset(c.state.epoch, true)])
      else if c.cfg.autoConnect then Quiet(ToConnecting(d, []))
      else Quiet(ToDisconnected(d))
    case EvictLink(id) => Quiet(Relinked(c, Evict(c.state.links, id)))
    case _ => Quiet(c)
  }

  function WithLinks(c: Core, links: seq<Link>): Core
    requires c.state.Connected?
  {
    c.(state := Connected(c.state.session, c.state.mgr, links))
  }

  function StepConnectedMsg(c: Core, msg: LinkProtocol, closed: set<nat>): Out
    requires c.state.Connected? && Ready(c, FromLink(msg))
  {
    var e := c.state.session;
    var live := DropClosed(c.state.links, closed);
    match msg
    case Reset(theirs, request) =>
      if !request then Quiet(c)
      else if theirs == Some(e) then Out(Settle(WithLinks(c, live)), SendProto(live, Reset(Some(e), false)))
      else ToMismatchAgain(c, closed)
    case Ack(_, _, _) => Quiet(ReceiveAck(c, msg))
    case MsgSlice(epoch, seqNo, seqLen, first, data) =>
      if epoch != e then Quiet(c)
      else
        var d := Receive(c, msg);
        if ShouldAck(c.state.mgr, seqNo, first, seqLen, data) then
          var ack := d.state.mgr.lastAck;
          Out(Settle(WithLinks(d, live)), SendProto(live, Ack(e, ack.0, ack.1)))
        else Quiet(Settle(d))
    case _ => Quiet(c)
  }

  function StepConnected(c: Core, input: Input, closed: set<nat>): Out
    requires c.state.Connected? && Ready(c, input)
  {
    match input
    case Disconnect => Quiet(ToDisconnected(c))
    case AddLink(_, _) =>
      var d := NextLink(c);
      if Accepts(input) then Quiet(WithLinks(d, [NewLink(c, input)] + d.state.links)) else Quiet(d)
    case SendMsg(data, tag) =>
      if WrongTag(tag, c.state.session) then Quiet(c)
      else
        var live := DropClosed(c.state.links, closed);
        var d := Insert(c, data);
        Out(Settle(WithLinks(d, live)), SendSlices(live, d.state.mgr.outgoing[c.state.mgr.nextSeq]))
    case FromLink(msg) => StepConnectedMsg(c, msg, closed)
    case Tick =>
      var live := Upkeep(c.state.links, closed);
      Out(Settle(WithLinks(c, live)), Resend(c.state.mgr, live))
    case EvictLink(id) => Quiet(WithLinks(c, Evict(c.state.links, id)))
    case _ => Quiet(c)
  }

  /** What the Connected timer retransmits: the earliest outgoing message. */
  function Resend(m: Msgs, live: seq<Link>): seq<LinkProtocol> {
    match EarliestOutgoing(m)
    case None => []
    case Some(q) => SendSlices(live, m.outgoing[q])
  }

  function EarliestOutgoing(m: Msgs): (r: Option<nat>)
    ensures r.None? ==> m.outgoing == map[]
    ensures r.Some? ==> r.value in m.outgoing && forall q :: q in m.outgoing ==> r.value <= q
  {
    Intervals.NextKey(m.outgoing, 0)
  }

  /** Reconnecting and GracePeriod differ only in where they go. */
  function StepWaiting(c: Core, input: Input): Core
    requires (c.state.Reconnecting? || c.state.GracePeriod?) && Ready(c, input)
  {
    match input
    case Disconnect => ToDisconnected(c)
    case AddLink(_, _) =>
      if Accepts(input) then ToConnectedAgain(NextLink(c), NewLink(c, input)) else NextLink(c)
    case SendMsg(data, tag) => if WrongTag(tag, c.state.session) then c else Insert(c, data)
    case FromLink(msg) =>
      (match msg
       case Reset(theirs, request) =>
         if !request || theirs != Some(c.state.session) then c
         else if c.state.Reconnecting? then ToConnecting(c, [])
         else ToDisconnected(c)
       case Ack(_, _, _) => ReceiveAck(c, msg)
       case MsgSlice(epoch, _, _, _, _) => if epoch == c.state.session then Receive(c, msg) else c
       case _ => c)
    case Tick => if c.cfg.autoConnect then ToConnecting(c, []) else ToDisconnected(c)
    case _ => c
  }

  /** Where an accepted link leads, in every state. */
  function WithLink(c: Core, link: Link, closed: set<nat>): Out {
    match c.state
    case EpochMismatch(_, _, links) => Quiet(Relinked(c, [link] + links))
    case Connected(_, _, links) => Quiet(WithLinks(c, [link] + links))
    case Reconnecting(_, _) => Quiet(ToConnectedAgain(c, link))
    case GracePeriod(_, _) => Quiet(ToConnectedAgain(c, link))
    case _ => ToMismatchWith(c, link, closed)
  }

  function Dispatch(c: Core, input: Input, closed: set<nat>): Out
    requires Ready(c, input)
  {
    match c.state
    case Disconnected(_) => StepDisconnected(c, input, closed)
    case Connecting(_, _) => StepConnecting(c, input, closed)
    case EpochMismatch(_, _, _) => StepMismatch(c, input, closed)
    case Connected(_, _, _) => StepConnected(c, input, closed)
    case _ => Quiet(StepWaiting(c, input))
  }

  /**
   One turn of the core loop. `closed` are the links found closed or too slow
   during the turn. The timer branch is taken only while the timer is armed.
   */
  function Step(c: Core, input: Input, closed: set<nat>): Out
    requires Ready(c, input)
  {
    match input
    case Configure(cfg) => Quiet(c.(cfg := cfg))
    case Tick => if c.timer.armed then Dispatch(c.(timer := Fired(c.timer)), Tick, closed) else Quiet(c)
    case _ => Dispatch(c, input, closed)
  }
}
