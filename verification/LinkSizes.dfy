/** Only links with room for a fragment are used, and nothing sent is too long for its link. */
module LinkSizes {
  import opened Protocol
  import opened Session
  import opened EventLog
  import opened Codec
  import opened Slices
  import opened TurnLaws
  import opened Sending
  import Reassembly

  predicate Usable(links: seq<Link>) {
    forall i :: 0 <= i < |links| ==> OVERHEAD < links[i].maxSize
  }

  /** Every link of an endpoint passed the size guard of `wrap_link`. */
  predicate LinksUsable(c: Core) {
    c.state.EpochMismatch? || c.state.Connected? ==> Usable(c.state.links)
  }

  lemma {:induction false} DropClosedUsable(links: seq<Link>, closed: set<nat>)
    requires Usable(links)
    ensures Usable(DropClosed(links, closed))
  {
    if links != [] && links[0].id in closed {
      DropClosedUsable(links[1..], closed);
    }
  }

  lemma {:induction false} UpkeepUsable(links: seq<Link>, closed: set<nat>)
    requires Usable(links)
    ensures Usable(Upkeep(links, closed))
  {
    if links != [] {
      UpkeepUsable(links[1..], closed);
    }
  }

  lemma LinksAfterUsable(c: Core, input: Input, closed: set<nat>)
    requires Ready(c, input) && LinksUsable(c)
    requires c.state.Disconnected? || c.state.Connecting? ==> Accepts(input)
    ensures Usable(LinksAfter(c, input, closed))
  {
    var links := AtHand(c, input);
    DropClosedUsable(links, closed);
    UpkeepUsable(links, closed);
    if input.EvictLink? {
      UpkeepUsable(links, {input.id});
    }
  }

  lemma StepLinks(c: Core, input: Input, closed: set<nat>)
    requires Ready(c, input) && LinksUsable(c)
    ensures LinksUsable(Step(c, input, closed).core)
  {
    var d := Step(c, input, closed).core;
    if d.state.EpochMismatch? || d.state.Connected? {
      TurnRelinks(c, input, closed);
      TurnLeads(c, input, closed);
      LinksAfterUsable(c, input, closed);
    }
  }

  lemma {:induction false} RunLinks(turns: seq<Turn>)
    ensures LinksUsable(Run(turns))
  {
    if turns != [] {
      var n := |turns| - 1;
      RunLinks(turns[..n]);
      if Ready(Run(turns[..n]), turns[n].input) {
        StepLinks(Run(turns[..n]), turns[n].input, turns[n].closed);
      }
    }
  }

  // ---------------------------------------------------------------------
  // Link ids
  // ---------------------------------------------------------------------

  /** No two links have the same id, and none has one that is yet to be given. */
  ghost predicate DistinctIds(links: seq<Link>, next: nat) {
    && (forall i :: 0 <= i < |links| ==> links[i].id < next)
    && (forall i, j :: 0 <= i < j < |links| ==> links[i].id != links[j].id)
  }

  lemma IdsLeft(links: seq<Link>, closed: set<nat>, next: nat)
    requires DistinctIds(links, next)
    ensures DistinctIds(DropClosed(links, closed), next) && DistinctIds(Upkeep(links, closed), next)
  {
    var k := DropClosedIs(links, closed);
    var at := UpkeepIs(links, closed);
  }

  lemma IdsWithNext(links: seq<Link>, next: nat, l: Link)
    requires DistinctIds(links, next) && l.id == next
    ensures DistinctIds([l] + links, next + 1) && DistinctIds([l], next + 1) && DistinctIds(links, next + 1)
  {
  }

  lemma LinksAfterIds(c: Core, input: Input, closed: set<nat>, next: nat)
    requires Ready(c, input) && DistinctIds(LinksOf(c.state), c.nextLink)
    requires next == if input.AddLink? then c.nextLink + 1 else c.nextLink
    ensures DistinctIds(LinksAfter(c, input, closed), next)
  {
    var links := AtHand(c, input);
    if input.AddLink? {
      IdsWithNext(LinksOf(c.state), c.nextLink, NewLink(c, input));
    }
    assert DistinctIds(links, next);
    IdsLeft(links, if input.EvictLink? then {input.id} else closed, next);
  }

  lemma StepIds(c: Core, input: Input, closed: set<nat>)
    requires Ready(c, input) && DistinctIds(LinksOf(c.state), c.nextLink)
    ensures var d := Step(c, input, closed).core; DistinctIds(LinksOf(d.state), d.nextLink)
  {
    TurnRelinks(c, input, closed);
    SettingsAndIds(c, input, closed);
    LinksAfterIds(c, input, closed, Step(c, input, closed).core.nextLink);
  }

  /** So evicting an id takes at most one link away. */
  lemma {:induction false} RunIds(turns: seq<Turn>)
    ensures DistinctIds(LinksOf(Run(turns).state), Run(turns).nextLink)
  {
    if turns != [] {
      var n := |turns| - 1;
      RunIds(turns[..n]);
      if Ready(Run(turns[..n]), turns[n].input) {
        StepIds(Run(turns[..n]), turns[n].input, turns[n].closed);
      }
    }
  }

  // ---------------------------------------------------------------------
  // Everything sent fits its link
  // ---------------------------------------------------------------------

  /** It can be serialized within the link's size, and deserialized again. */
  predicate Fits(x: LinkProtocol, link: Link) {
    |Encode(x)| <= link.maxSize && !Hollow(x)
  }

  lemma {:induction false} FragmentsFit(load: seq<Slice>, link: Link, x: LinkProtocol)
    requires OVERHEAD < link.maxSize && x in Fragments(load, FragmentSize(link))
    ensures Fits(x, link)
  {
    var n := |load| - 1;
    if x in GetSlices(load[n], FragmentSize(link)) {
      Reassembly.GetSlicesCarry(load[n], FragmentSize(link), x);
      EncodedLength(x);
    } else {
      FragmentsFit(load[..n], link, x);
    }
  }

  lemma ReplyFits(c: Core, input: Input, link: Link, x: LinkProtocol)
    requires Ready(c, input) && OVERHEAD < link.maxSize && x in Reply(c, input)
    ensures Fits(x, link)
  {
    EncodedLength(x);
  }

  /**
   Whatever an endpoint has gone through, everything a turn sends fits the link it goes
   out on, the first open one, and every fragment carries at least one byte. A ping or
   a pong fits every link it has.
   */
  lemma SizeBound(turns: seq<Turn>, input: Input, closed: set<nat>) returns (k: nat)
    requires Ready(Run(turns), input)
    ensures var c := Run(turns); var links := AtHand(c, input); var o := Step(c, input, closed);
      && FirstOpen(links, closed, k)
      && (o.sent != [] ==> k < |links| && forall x :: x in o.sent ==> Fits(x, links[k]))
      && forall l :: l in LinksOf(o.core.state) ==> Fits(Ping, l) && Fits(Pong, l)
  {
    var c := Run(turns);
    var links, sent := AtHand(c, input), Step(c, input, closed).sent;
    RunLinks(turns);
    StepLinks(c, input, closed);
    EncodedLength(Ping);
    EncodedLength(Pong);
    k := TurnSends(c, input, closed);
    forall x | x in sent ensures Fits(x, links[k]) {
      if x in Reply(c, input) {
        ReplyFits(c, input, links[k], x);
      } else {
        FragmentsFit(Load(c, input), links[k], x);
      }
    }
  }
}
