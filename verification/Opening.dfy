/** A short run that opens a session between two fresh endpoints, step by step. */
module Opening {
  import opened Prelude
  import opened Epochs
  import opened Protocol
  import opened Messages
  import opened Session
  import opened System

  const LINK: Link := Link(0, 57)
  const REQUEST: LinkProtocol := Reset(None, true)
  const ANSWER: LinkProtocol := Reset(Some(1), false)

  /** Both endpoints get a link that takes one byte a fragment, and agree on epoch 1. */
  const OPENING: seq<Act> := [
    Act(true, AddLink(57, true), {}),
    Act(false, AddLink(57, true), {}),
    Act(false, FromLink(REQUEST), {}),
    Act(true, FromLink(ANSWER), {})]

  const LINKED: Core :=
    INITIAL.(state := EpochMismatch(None, [], [LINK]), timer := Timer(true, Some(2000)), nextLink := 1)

  const OPENED: Core :=
    LINKED.(state := Connected(1, NewMsgs(1), [LINK]), timer := CONNECTED_TIMER, active := true,
            events := [GotConnected(1)], journal := map[1 := []])

  lemma GetsLink()
    ensures Step(INITIAL, AddLink(57, true), {}) == Out(LINKED, [REQUEST])
  {
  }

  lemma Enters(theirs: Option<Epoch>, request: bool)
    requires theirs.None? || theirs == Some(1)
    ensures Step(LINKED, FromLink(Reset(theirs, request)), {}) == Out(OPENED, [ANSWER])
  {
  }

  /** A step of A, and the same of B, when the outcome is known. */
  lemma StepOfA(s: Sys, input: Input, o: Out)
    requires Enabled(s, input) && Step(s.a, input, {}) == o
    ensures Do(s, Act(true, input, {})) == s.(a := o.core, ab := s.ab + Sent(o.sent))
  {
  }

  lemma StepOfB(s: Sys, input: Input, o: Out)
    requires Enabled(Flip(s), input) && Step(s.b, input, {}) == o
    ensures Do(s, Act(false, input, {})) == s.(b := o.core, ba := s.ba + Sent(o.sent))
  {
  }

  const ONE: Sys := START.(a := LINKED, ab := {REQUEST})
  const TWO: Sys := ONE.(b := LINKED, ba := {REQUEST})
  const THREE: Sys := TWO.(b := OPENED, ba := {REQUEST, ANSWER})
  const FOUR: Sys := THREE.(a := OPENED, ab := {REQUEST, ANSWER})

  lemma ToOne()
    ensures Do(START, OPENING[0]) == ONE
  {
    GetsLink();
    StepOfA(START, AddLink(57, true), Out(LINKED, [REQUEST]));
    assert Sent([REQUEST]) == {REQUEST};
  }

  lemma ToTwo()
    ensures Do(ONE, OPENING[1]) == TWO
  {
    GetsLink();
    StepOfB(ONE, AddLink(57, true), Out(LINKED, [REQUEST]));
    assert Sent([REQUEST]) == {REQUEST};
  }

  lemma ToThree()
    ensures Do(TWO, OPENING[2]) == THREE
  {
    Enters(None, true);
    StepOfB(TWO, FromLink(REQUEST), Out(OPENED, [ANSWER]));
    assert {REQUEST} + Sent([ANSWER]) == {REQUEST, ANSWER};
  }

  lemma ToFour()
    ensures Do(THREE, OPENING[3]) == FOUR
  {
    Enters(Some(1), false);
    StepOfA(THREE, FromLink(ANSWER), Out(OPENED, [ANSWER]));
    assert {REQUEST} + Sent([ANSWER]) == {REQUEST, ANSWER};
  }

  lemma AfterSnoc(acts: seq<Act>, act: Act)
    ensures After(acts + [act]) == Do(After(acts), act)
  {
    assert (acts + [act])[..|acts|] == acts;
  }

  lemma Chain(acts: seq<Act>, s: Sys, t: Sys, u: Sys, v: Sys)
    requires |acts| == 4
    requires Do(START, acts[0]) == s && Do(s, acts[1]) == t && Do(t, acts[2]) == u && Do(u, acts[3]) == v
    ensures After(acts) == v
  {
    AfterSnoc([], acts[0]);
    AfterSnoc([acts[0]], acts[1]);
    AfterSnoc([acts[0], acts[1]], acts[2]);
    AfterSnoc([acts[0], acts[1], acts[2]], acts[3]);
    assert [] + [acts[0]] == [acts[0]] && [acts[0]] + [acts[1]] == [acts[0], acts[1]];
    assert [acts[0], acts[1]] + [acts[2]] == [acts[0], acts[1], acts[2]];
    assert [acts[0], acts[1], acts[2]] + [acts[3]] == acts;
  }

  lemma Opened()
    ensures After(OPENING) == FOUR
  {
    ToOne();
    ToTwo();
    ToThree();
    ToFour();
    Chain(OPENING, ONE, TWO, THREE, FOUR);
  }
}
