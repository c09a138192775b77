/** Epoch negotiation over links that lose nothing and keep the order. */
module Handshake {
  import opened Prelude
  import opened Epochs
  import opened Protocol
  import opened Session
  import opened Refinement

  // ---------------------------------------------------------------------
  // Handing messages over
  // ---------------------------------------------------------------------

  /** Hand a list of messages to an endpoint, in order, with every link open. */
  function Handle(c: Core, xs: seq<LinkProtocol>): Out
    decreases xs
  {
    if xs == [] then Quiet(c)
    else
      var o := if Ready(c, FromLink(xs[0])) then Step(c, FromLink(xs[0]), {}) else Quiet(c);
      var p := Handle(o.core, xs[1..]);
      Out(p.core, o.sent + p.sent)
  }

  predicate Up(c: Core, e: Epoch) {
    c.state.Connected? && c.state.links != [] && c.state.session == e
  }

  predicate Negotiating(c: Core) {
    c.state.EpochMismatch? && c.state.links != []
  }

  /** Connected or negotiating, with a link to talk over. */
  predicate Linked(c: Core) {
    (c.state.EpochMismatch? || c.state.Connected?) && c.state.links != []
  }

  predicate NoReset(xs: seq<LinkProtocol>) {
    forall x :: x in xs ==> !x.Reset?
  }

  /** `xs` begins with the Reset `r` and has no other, or has none at all. */
  predicate LedBy(xs: seq<LinkProtocol>, r: Option<LinkProtocol>) {
    match r
    case None => NoReset(xs)
    case Some(first) => first.Reset? && xs != [] && xs[0] == first && NoReset(xs[1..])
  }

  function Resets(xs: seq<LinkProtocol>): nat {
    if xs == [] then 0 else (if xs[0].Reset? then 1 else 0) + Resets(xs[1..])
  }

  lemma {:induction false} NoResets(xs: seq<LinkProtocol>)
    requires NoReset(xs)
    ensures Resets(xs) == 0
  {
    if xs != [] {
      assert xs[0] in xs && forall x :: x in xs[1..] ==> x in xs;
      NoResets(xs[1..]);
    }
  }

  lemma LedResets(xs: seq<LinkProtocol>, r: Option<LinkProtocol>)
    requires LedBy(xs, r)
    ensures Resets(xs) == if r.Some? then 1 else 0
  {
    NoResets(if r.Some? then xs[1..] else xs);
  }

  lemma LedMore(xs: seq<LinkProtocol>, r: Option<LinkProtocol>, ys: seq<LinkProtocol>)
    requires LedBy(xs, r) && NoReset(ys)
    ensures LedBy(xs + ys, r)
  {
    if r.Some? {
      assert (xs + ys)[1..] == xs[1..] + ys;
    }
  }

  lemma {:induction false} AllOpen(links: seq<Link>)
    ensures Upkeep(links, {}) == links
  {
    if links != [] {
      AllOpen(links[1..]);
    }
  }

  lemma QueuedHasNoReset(e: Epoch, msgs: seq<Payload>, live: seq<Link>)
    ensures NoReset(QueuedSlices(e, msgs, live))
  {
    forall x | x in QueuedSlices(e, msgs, live) ensures !x.Reset? {
      QueuedSlicesCarry(e, msgs, live, x);
    }
  }

  // ---------------------------------------------------------------------
  // One message
  // ---------------------------------------------------------------------

  lemma LeadsQueue(r: LinkProtocol, e: Epoch, msgs: seq<Payload>, live: seq<Link>)
    requires r.Reset?
    ensures LedBy([r] + QueuedSlices(e, msgs, live), Some(r))
  {
    QueuedHasNoReset(e, msgs, live);
    assert ([r] + QueuedSlices(e, msgs, live))[1..] == QueuedSlices(e, msgs, live);
  }

  /** A Reset that reaches a negotiating endpoint: the answer is one Reset and queued fragments, or no Reset. */
  lemma NegotiateOutcome(c: Core, theirs: Option<Epoch>, request: bool)
    requires Negotiating(c)
    ensures var o := Step(c, FromLink(Reset(theirs, request)), {}); var ours := c.state.epoch;
      match Compare(ours, theirs)
      case Greater => o.core == c && o.sent == [Reset(ours, false)]
      case Equal => Up(o.core, ours.value) && LedBy(o.sent, if request then Some(Reset(ours, false)) else None)
      case Less =>
        var e := if theirs.Some? then theirs.value else 1;
        Up(o.core, e) && LedBy(o.sent, Some(Reset(Some(e), false)))
  {
    var o := Step(c, FromLink(Reset(theirs, request)), {});
    var ours, queued, links := c.state.epoch, c.state.queued, c.state.links;
    assert DropClosed(links, {}) == links;
    match Compare(ours, theirs)
    case Greater =>
    case Equal =>
      if request {
        LeadsQueue(Reset(ours, false), ours.value, queued, links);
      } else {
        QueuedHasNoReset(ours.value, queued, links);
        NothingBefore(QueuedSlices(ours.value, queued, links));
      }
    case Less =>
      var e := if theirs.Some? then theirs.value else 1;
      LeadsQueue(Reset(Some(e), false), e, queued, links);
  }

  /** A Reset that reaches a connected endpoint. */
  lemma ConnectedOutcome(c: Core, theirs: Option<Epoch>, request: bool)
    requires c.state.Connected? && c.state.links != []
    ensures var o := Step(c, FromLink(Reset(theirs, request)), {}); var e := c.state.session;
      && (!request ==> o.core == c && o.sent == [])
      && (request && theirs == Some(e) ==> o.core == c && o.sent == [Reset(Some(e), false)])
      && (request && theirs != Some(e) ==>
            && Negotiating(o.core) && o.core.state.epoch == Some(Increment(e))
            && o.sent == [Reset(Some(Increment(e)), true)])
  {
    assert DropClosed(c.state.links, {}) == c.state.links;
  }

  /** The request an endpoint in EpochMismatch repeats on every tick. */
  lemma TimerRequest(c: Core)
    requires Negotiating(c) && c.timer.armed
    ensures var o := Step(c, Tick, {});
      Negotiating(o.core) && o.core.state == c.state && o.sent == [Reset(c.state.epoch, true)]
  {
    AllOpen(c.state.links);
  }

  /** `d` is in the same phase as `c`, with the same epoch and links. */
  predicate Unmoved(c: Core, d: Core) {
    && d.state.EpochMismatch? == c.state.EpochMismatch? && d.state.Connected? == c.state.Connected?
    && EpochOf(d.state) == EpochOf(c.state) && Linked(d) == Linked(c)
  }

  predicate AllAcks(xs: seq<LinkProtocol>) {
    forall x :: x in xs ==> x.Ack?
  }

  /** Other traffic cannot disturb a negotiation, and is answered with acks only. */
  lemma OtherTrafficIsInert(c: Core, x: LinkProtocol)
    requires Linked(c) && !x.Reset? && Ready(c, FromLink(x))
    ensures var o := Step(c, FromLink(x), {});
      && Linked(o.core) && Unmoved(c, o.core) && o.core.state.links == c.state.links
      && AllAcks(o.sent) && (x.Ack? ==> o.sent == [])
  {
    assert DropClosed(c.state.links, {}) == c.state.links;
  }

  lemma {:induction false} HandleInert(c: Core, xs: seq<LinkProtocol>)
    requires Linked(c) && NoReset(xs)
    ensures var o := Handle(c, xs);
      Linked(o.core) && Unmoved(c, o.core) && AllAcks(o.sent) && (AllAcks(xs) ==> o.sent == [])
    decreases xs
  {
    if xs != [] {
      assert xs[0] in xs && forall x :: x in xs[1..] ==> x in xs;
      var o := if Ready(c, FromLink(xs[0])) then Step(c, FromLink(xs[0]), {}) else Quiet(c);
      if Ready(c, FromLink(xs[0])) {
        OtherTrafficIsInert(c, xs[0]);
      }
      HandleInert(o.core, xs[1..]);
    }
  }

  /** A whole answer: what its Reset does, and acks for the rest. */
  lemma HandleLed(c: Core, xs: seq<LinkProtocol>, x: LinkProtocol, r: Option<LinkProtocol>)
    requires LedBy(xs, Some(x))
    requires var o := Step(c, FromLink(x), {}); Linked(o.core) && LedBy(o.sent, r)
    ensures var o, h := Step(c, FromLink(x), {}), Handle(c, xs);
      Linked(h.core) && Unmoved(o.core, h.core) && LedBy(h.sent, r)
  {
    var o := Step(c, FromLink(x), {});
    HandleInert(o.core, xs[1..]);
    LedMore(o.sent, r, Handle(o.core, xs[1..]).sent);
  }

  /** A negotiating endpoint, its whole answer to a list led by a Reset, and where it is then. */
  lemma NegotiateAnswer(c: Core, theirs: Option<Epoch>, request: bool, xs: seq<LinkProtocol>)
    returns (d: Core, ys: seq<LinkProtocol>)
    requires Negotiating(c) && LedBy(xs, Some(Reset(theirs, request)))
    ensures Handle(c, xs) == Out(d, ys)
    ensures var ours := c.state.epoch;
      match Compare(ours, theirs)
      case Greater => Negotiating(d) && d.state.epoch == ours && LedBy(ys, Some(Reset(ours, false)))
      case Equal => Up(d, ours.value) && LedBy(ys, if request then Some(Reset(ours, false)) else None)
      case Less =>
        var e := if theirs.Some? then theirs.value else 1;
        Up(d, e) && LedBy(ys, Some(Reset(Some(e), false)))
  {
    var x, ours := Reset(theirs, request), c.state.epoch;
    NegotiateOutcome(c, theirs, request);
    var answer :=
      match Compare(ours, theirs)
      case Greater => Some(Reset(ours, false))
      case Equal => if request then Some(Reset(ours, false)) else None
      case Less => Some(Reset(Some(if theirs.Some? then theirs.value else 1), false));
    HandleLed(c, xs, x, answer);
    d, ys := Handle(c, xs).core, Handle(c, xs).sent;
  }

  lemma ConnectedAnswer(c: Core, theirs: Option<Epoch>, request: bool, xs: seq<LinkProtocol>)
    returns (d: Core, ys: seq<LinkProtocol>)
    requires c.state.Connected? && c.state.links != [] && LedBy(xs, Some(Reset(theirs, request)))
    ensures Handle(c, xs) == Out(d, ys)
    ensures var e := c.state.session;
      if !request then Up(d, e) && NoReset(ys)
      else if theirs == Some(e) then Up(d, e) && LedBy(ys, Some(Reset(theirs, false)))
      else Negotiating(d) && d.state.epoch == Some(Increment(e)) && LedBy(ys, Some(Reset(d.state.epoch, true)))
  {
    var x, e := Reset(theirs, request), c.state.session;
    ConnectedOutcome(c, theirs, request);
    var answer :=
      if !request then None
      else if theirs == Some(e) then Some(Reset(theirs, false))
      else Some(Reset(Some(Increment(e)), true));
    HandleLed(c, xs, x, answer);
    d, ys := Handle(c, xs).core, Handle(c, xs).sent;
  }

  // ---------------------------------------------------------------------
  // Convergence
  // ---------------------------------------------------------------------

  /** `to` is handed all of `xs`, its answer goes to `from`, and so on, `n` times in all. */
  function Exchange(to: Core, from: Core, xs: seq<LinkProtocol>, n: nat): (Core, Core, seq<LinkProtocol>)
    decreases n
  {
    if n == 0 then (to, from, xs)
    else
      var o := Handle(to, xs);
      var (f, t, rest) := Exchange(from, o.core, o.sent, n - 1);
      (t, f, rest)
  }

  /** The Resets handed over during an exchange. */
  function ResetsUsed(to: Core, from: Core, xs: seq<LinkProtocol>, n: nat): nat
    decreases n
  {
    if n == 0 then 0
    else
      var o := Handle(to, xs);
      Resets(xs) + ResetsUsed(from, o.core, o.sent, n - 1)
  }

  /** Both connected to the same session, and no Reset under way; nothing at all after two more hand-overs. */
  predicate Settled(r: (Core, Core, seq<LinkProtocol>), quiet: bool) {
    && r.0.state.Connected? && Up(r.0, r.0.state.session) && Up(r.1, r.0.state.session)
    && NoReset(r.2) && (quiet ==> r.2 == [])
  }

  /** After `n` hand-overs, at least `k` of them needed, all is settled with at most `k` Resets. */
  predicate Converges(to: Core, from: Core, xs: seq<LinkProtocol>, n: nat, k: nat) {
    k <= n ==> Settled(Exchange(to, from, xs, n), k + 2 <= n) && ResetsUsed(to, from, xs, n) <= k
  }

  /** One more hand-over in front, led by a Reset. */
  lemma OneMore(to: Core, from: Core, xs: seq<LinkProtocol>, x: LinkProtocol, d: Core, ys: seq<LinkProtocol>, n: nat, k: nat)
    requires LedBy(xs, Some(x)) && 0 < k && Handle(to, xs) == Out(d, ys)
    requires 0 < n ==> Converges(from, d, ys, n - 1, k - 1)
    ensures Converges(to, from, xs, n, k)
  {
    LedResets(xs, Some(x));
  }

  /** Once settled, always settled; the last fragments are acked and then there is silence. */
  lemma {:induction false} StaysSettled(to: Core, from: Core, xs: seq<LinkProtocol>, e: Epoch, n: nat)
    requires Up(to, e) && Up(from, e) && NoReset(xs)
    ensures Settled(Exchange(to, from, xs, n), 2 <= n || (1 <= n && AllAcks(xs)) || xs == [])
    ensures ResetsUsed(to, from, xs, n) == 0
    decreases n
  {
    if n != 0 {
      HandleInert(to, xs);
      NoResets(xs);
      var o := Handle(to, xs);
      StaysSettled(from, o.core, o.sent, e, n - 1);
    }
  }

  lemma SettledConverges(to: Core, from: Core, xs: seq<LinkProtocol>, e: Epoch, n: nat)
    requires Up(to, e) && Up(from, e) && NoReset(xs)
    ensures Converges(to, from, xs, n, 0)
  {
    StaysSettled(to, from, xs, e, n);
  }

  /** A confirmation of the epoch both already hold. */
  lemma Confirmed(to: Core, from: Core, e: Epoch, xs: seq<LinkProtocol>, n: nat)
    requires Up(from, e) && LedBy(xs, Some(Reset(Some(e), false)))
    requires Up(to, e) || (Negotiating(to) && to.state.epoch == Some(e))
    ensures Converges(to, from, xs, n, 1)
  {
    var d, ys;
    if to.state.Connected? {
      d, ys := ConnectedAnswer(to, Some(e), false, xs);
    } else {
      d, ys := NegotiateAnswer(to, Some(e), false, xs);
    }
    if 0 < n {
      SettledConverges(from, d, ys, e, n - 1);
    }
    OneMore(to, from, xs, Reset(Some(e), false), d, ys, n, 1);
  }

  /** A reply that a negotiating endpoint with a lower epoch adopts. */
  lemma Adopted(to: Core, from: Core, e: Epoch, request: bool, xs: seq<LinkProtocol>, n: nat)
    requires Negotiating(to) && ToInt(to.state.epoch) < e && LedBy(xs, Some(Reset(Some(e), request)))
    requires Up(from, e) || (Negotiating(from) && from.state.epoch == Some(e))
    ensures Converges(to, from, xs, n, 2)
  {
    var d, ys := NegotiateAnswer(to, Some(e), request, xs);
    if 0 < n {
      Confirmed(from, d, e, ys, n - 1);
    }
    OneMore(to, from, xs, Reset(Some(e), request), d, ys, n, 2);
  }

  /** The epoch named in the answer to a request for `theirs` by an endpoint at `ours`. */
  function AnswerEpoch(ours: Option<Epoch>, theirs: Option<Epoch>): Epoch {
    match Compare(ours, theirs)
    case Less => if theirs.Some? then theirs.value else 1
    case _ => ours.value
  }

  /** The answer to a request, whatever the epoch `ours` of the endpoint that gave it was. */
  lemma Answered(to: Core, from: Core, ours: Option<Epoch>, xs: seq<LinkProtocol>, n: nat)
    requires Negotiating(to)
    requires var e := AnswerEpoch(ours, to.state.epoch);
      && LedBy(xs, Some(Reset(Some(e), false)))
      && if Compare(ours, to.state.epoch).Greater? then Negotiating(from) && from.state.epoch == ours else Up(from, e)
    ensures Converges(to, from, xs, n, 2)
  {
    var theirs, e := to.state.epoch, AnswerEpoch(ours, to.state.epoch);
    CompareMeaning(ours, theirs);
    if theirs == Some(e) {
      Confirmed(to, from, e, xs, n);
      Later(to, from, xs, n, 1, 2);
    } else {
      Adopted(to, from, e, false, xs, n);
    }
  }

  lemma Later(to: Core, from: Core, xs: seq<LinkProtocol>, n: nat, j: nat, k: nat)
    requires j <= k && Converges(to, from, xs, n, j)
    ensures Converges(to, from, xs, n, k)
  {
  }

  /** A request that reaches a negotiating endpoint. */
  lemma Requested(to: Core, from: Core, xs: seq<LinkProtocol>, n: nat)
    requires Negotiating(to) && Negotiating(from) && LedBy(xs, Some(Reset(from.state.epoch, true)))
    ensures Converges(to, from, xs, n, 3)
  {
    var theirs, ours := from.state.epoch, to.state.epoch;
    var d, ys := NegotiateAnswer(to, theirs, true, xs);
    if 0 < n {
      Answered(from, d, ours, ys, n - 1);
    }
    OneMore(to, from, xs, Reset(theirs, true), d, ys, n, 3);
  }

  /** A request that reaches a connected endpoint. */
  lemma RequestedAgain(to: Core, from: Core, xs: seq<LinkProtocol>, n: nat)
    requires to.state.Connected? && to.state.links != [] && Negotiating(from)
    requires LedBy(xs, Some(Reset(from.state.epoch, true)))
    ensures Converges(to, from, xs, n, 4)
  {
    var theirs, e := from.state.epoch, to.state.session;
    var d, ys := ConnectedAnswer(to, theirs, true, xs);
    if 0 < n {
      if theirs == Some(e) {
        Confirmed(from, d, e, ys, n - 1);
        Later(from, d, ys, n - 1, 1, 3);
      } else {
        Requested(from, d, ys, n - 1);
      }
    }
    OneMore(to, from, xs, Reset(theirs, true), d, ys, n, 4);
  }

  /**
   Handshake convergence: with nothing in flight, one endpoint in EpochMismatch and
   the other in EpochMismatch or Connected, at any epochs, one timer request and the
   whole answers to it, handed over in order, connect both to the same session. Four
   hand-overs and four Resets are always enough, and after two more hand-overs nothing
   is under way.
   */
  lemma HandshakeConverges(a: Core, b: Core, n: nat)
    requires Negotiating(a) && a.timer.armed && Linked(b)
    ensures var o := Step(a, Tick, {});
      o.sent == [Reset(a.state.epoch, true)] && Converges(b, o.core, o.sent, n, 4)
  {
    TimerRequest(a);
    var o := Step(a, Tick, {});
    if b.state.EpochMismatch? {
      Requested(b, o.core, o.sent, n);
      Later(b, o.core, o.sent, n, 3, 4);
    } else {
      RequestedAgain(b, o.core, o.sent, n);
    }
  }
}
