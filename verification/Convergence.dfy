/** The handshake as a run of two endpoints and their network. */
module Convergence {
  import opened Prelude
  import opened Protocol
  import opened Session
  import opened System
  import opened Handshake
  import opened Progress

  /** The steps of an exchange in which `xs` is handed to the endpoint `to` first. */
  function ExchangeActs(to: Core, from: Core, xs: seq<LinkProtocol>, atA: bool, n: nat): seq<Act>
    decreases n
  {
    if n == 0 then []
    else
      var o := Handle(to, xs);
      Deliveries(atA, xs) + ExchangeActs(from, o.core, o.sent, !atA, n - 1)
  }

  lemma {:induction false} ExchangeIsRun(acts: seq<Act>, atA: bool, xs: seq<LinkProtocol>, n: nat)
    requires forall x :: x in xs ==> x in View(acts, atA).ba
    ensures var s := View(acts, atA); var v := View(acts + ExchangeActs(s.a, s.b, xs, atA, n), atA);
      var r := Exchange(s.a, s.b, xs, n); v.a == r.0 && v.b == r.1
    decreases n
  {
    var s := View(acts, atA);
    if n == 0 {
      assert acts + ExchangeActs(s.a, s.b, xs, atA, n) == acts;
    } else {
      var o, there := Handle(s.a, xs), acts + Deliveries(atA, xs);
      AfterDeliveries(acts, atA, xs);
      assert View(there, !atA) == Flip(View(there, atA));
      ExchangeIsRun(there, !atA, o.sent, n - 1);
      var more := ExchangeActs(s.b, o.core, o.sent, !atA, n - 1);
      Regroup(acts, Deliveries(atA, xs), more);
      assert View(there + more, atA) == Flip(View(there + more, !atA));
    }
  }

  /** A tick at one endpoint and the exchange that follows. */
  function HandshakeActs(s: Sys, atA: bool, n: nat): seq<Act> {
    var o := Step(s.a, Tick, {});
    [Act(atA, Tick, {})] + ExchangeActs(s.b, o.core, o.sent, !atA, n)
  }

  /** From every reachable state with a negotiating endpoint and a linked peer, four hand-overs connect both. */
  lemma HandshakeRun(acts: seq<Act>, atA: bool, n: nat)
    requires var s := View(acts, atA); Negotiating(s.a) && Linked(s.b)
    requires 4 <= n
    ensures var s := View(acts, atA); var v := View(acts + HandshakeActs(s, atA, n), atA);
      v.a.state.Connected? && Up(v.a, v.a.state.session) && Up(v.b, v.a.state.session)
  {
    var s := View(acts, atA);
    Projection.EndpointFacts(acts, atA);
    HandshakeConverges(s.a, s.b, n);
    TickRun(acts, atA);
    var o, ticked := Step(s.a, Tick, {}), acts + [Act(atA, Tick, {})];
    assert View(ticked, !atA) == Flip(View(ticked, atA));
    ExchangeIsRun(ticked, !atA, o.sent, n);
    var more := ExchangeActs(s.b, o.core, o.sent, !atA, n);
    Regroup(acts, [Act(atA, Tick, {})], more);
    assert View(ticked + more, atA) == Flip(View(ticked + more, !atA));
  }
}
