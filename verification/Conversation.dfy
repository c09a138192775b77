/** From user to user: what one user is handed is what the other one sent. */
module Conversation {
  import opened Prelude
  import opened Epochs
  import opened Session
  import opened System
  import opened EndToEnd
  import opened Fates
  import Projection
  import SmallMessages

  /** The messages the user of one endpoint got into session `e`, from the commands and states of the run. */
  function Submitted(acts: seq<Act>, atA: bool, e: nat): seq<Payload> {
    GivenTo(MailOf(Projection.Turns(acts, atA)), e)
  }

  lemma SubmittedAreInserted(acts: seq<Act>, atA: bool, e: nat)
    ensures Submitted(acts, atA, e) == Inserted(View(acts, atA).a, e)
  {
    Projection.EndpointRuns(acts, atA);
    MailOfRun(Projection.Turns(acts, atA));
  }

  /**
   On every run of two endpoints: what a user is handed in a session are the messages the
   other user got into it, one for one and in order, with zeros for the bytes that did not
   come in time; so they are a prefix of them if and only if those bytes are zero anyway.
   */
  lemma UserToUser(acts: seq<Act>, atA: bool, e: Epoch)
    requires e < MAX_EPOCH
    ensures var got, want, came := HandedOut(View(acts, atA).a, e), Submitted(acts, !atA, e), Came(acts, atA, e);
      && |got| <= |want|
      && (forall q: nat :: q < |got| ==> Exactness.Filled(got[q], want[q], q, came))
      && (got <= want <==> MissedAreZero(want, |got|, came))
  {
    SubmittedAreInserted(acts, !atA, e);
    assert View(acts, !atA).a == View(acts, atA).b;
    ExactDeliveryIff(acts, atA, e);
  }

  /** With messages that fit every link, a user is handed exactly what the other one sent, as far as it got. */
  lemma SmallTalk(acts: seq<Act>, limit: nat, atA: bool, e: nat)
    requires forall k :: 0 <= k < |acts| ==> SmallMessages.Within(acts[k].input, limit)
    requires e < MAX_EPOCH
    ensures HandedOut(View(acts, atA).a, e) <= Submitted(acts, !atA, e)
  {
    SubmittedAreInserted(acts, !atA, e);
    assert View(acts, !atA).a == View(acts, atA).b;
    SmallMessages.SmallMessagesAreExact(acts, limit, atA, e);
  }
}
