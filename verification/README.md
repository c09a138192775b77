# link_set, modelled and proved in Dafny

link_set keeps one ordered stream of messages alive between two processes over a
changing set of unreliable links. A message is numbered, cut into fragments that
fit a link, resent until it is acknowledged, reassembled and handed out in order.
A session is identified by an epoch that both sides negotiate; links come and go
without ending the session.

The model follows the layers of the program.

| files | layer |
|---|---|
| `Intervals`, `Slices`, `Reassembly`, `SliceManager` | one message: the interval set of recorded or pending bytes, fragmentation, reassembly |
| `Messages`, `MessageManager`, `Exactness` | one session: outgoing and incoming messages, the cached ack frontier |
| `Epochs`, `Session`, `LinkSetCore`, `CoreLoop` | one endpoint: six states, timer, queue, links, events |
| `Diagram`, `TurnLaws`, `Sending` | what one turn of an endpoint does, in every state: the state diagram, the user's messages, what the user is told, what is sent |
| `EventLog`, `Discipline`, `LinkSizes`, `Fates`, `Handshake` | what holds over every run of one endpoint, and of a negotiation |
| `Delivery`, `Peers`, `PeerMoves`, `Refinement`, `System`, `Projection`, `EndToEnd`, `SmallMessages`, `Conversation`, `Progress`, `Convergence` | two endpoints and a network that loses, duplicates and reorders |
| `Opening`, `GapRun`, `EmptyRun` | reachable runs, step by step, on which delivery goes wrong or stalls |
| `Protocol`, `Codec`, `TcpFraming`, `Base64`, `Addresses` | what is on the wire |

Where the program updates things in place there is a class (`SliceManager`,
`MessageManager`, `Deadline`, `LinkSetCore`, `ByteQueue`, `FrameReader`) or a method
with a loop. Each is proved against a function on values (`Slices`, `Messages`,
`Session`, `Codec.Decode`, `TcpFraming.Parse`), and the theorems are about those
functions. `CoreLoop.Start` closes the circle: the object driven by any list of
inputs is in the state the functions say.

The network of `System` is the set of everything ever sent in each direction. A step
may take any message from it, at any time and any number of times, which covers loss,
duplication and reordering. Both endpoints start fresh, with no epoch. The links
found closed or too slow during a step are an arbitrary set.

`Refinement.StepRefines` shows that every step of the session state machine is a move
of a much smaller protocol (`Peers`); the invariant of `System` is proved on its moves.
The parameter `clean` of that invariant gives two theorems from one proof: on every
run the delivered payloads are right up to zeroed bytes, and on a clean run they are
exactly right. `EndToEnd.ExactDeliveryIff` then says byte for byte what is delivered on
any run, and so exactly when delivery is right. `Fates.MailOfRun` accounts for every
message between the user's command and the session it is given to, so that
`Conversation.UserToUser` speaks of what one user sent and the other one was handed.

What an endpoint does on a turn is stated without its handlers. `Diagram` is the state
diagram. `TurnLaws` and `Sending` say of every state and input, with any set of closed
links, where the turn leads, which epoch, manager, queue and links the endpoint then
has, what its user is told and what goes out on which link.

Places where the program does something else than its comments or its design suggest,
all modelled as the program behaves:

- Recording a fragment also records the bytes between its end and the next run, if
  that run ends past it, even if they never arrived (`src/slice_manager.rs:166-173`).
  A message can then count as complete early and be handed out with zeros in it.
  `Intervals.AddIsUnionIffNoGap` says exactly when it happens, `GapRun.ReorderingCorrupts`
  is a run of two endpoints in which a user receives a wrong payload,
  `EndToEnd.ExactDeliveryIff` says exactly on which runs the payloads come out right, and
  `SmallMessages.SmallMessagesAreExact` gives a caller a way to stay clear of it.
- Removing a slice can widen a run that ends before it (`src/slice_manager.rs:113-120`).
  `Intervals.RemoveIsDifferenceIff` says exactly when removal is set difference. Acks
  only ever meet the good case, `Intervals.RemoveFromSuffix`.
- An empty message is never transmitted and blocks everything behind it
  (`Progress.EmptyMessageBlocks`). `EmptyRun.EmptyMessageStuck` is a reachable state with
  one, and `Progress.ResendProgress` has it as the exact condition.
- The TCP reader compares with the buffered length cut to 32 bits. A frame of more than
  2^32 - 1024 bytes can be missed; `TcpFraming.FrameReturnedIff` is the exact condition.
- Auto connect is described as what decides where an endpoint goes when all its links
  close (`README.md:52-54`). A connected endpoint goes by the two timeouts alone
  (`TurnLaws.LastLinkLost`): with both at zero, the default, it disconnects even if auto
  connect is on.
- The result of `recv` is true on a partial message when the ack did not move
  (`src/message_manager.rs:127`), not when it did.
- Reconnecting and GracePeriod end the session on a request for the same epoch, not
  for another one (`src/state/states/reconnecting.rs:79-87`).
- The reserved 56 bytes are described as a need of 49; the header of a fragment takes
  41 (`Codec.EncodedLength`).

## Model

| member | source | states |
|---|---|---|
| `Epochs.CompareMeaning` | src/epoch.rs:50-70 | the negotiation order is the order of the wire integers, except that no epoch compares less than no epoch, so two fresh endpoints never compare equal |
| `Epochs.IntRoundTrip` | src/epoch.rs:11-44 | optional epochs and 64-bit integers convert back and forth without loss, zero standing for none |
| `Epochs.Increment` | src/epoch.rs:27-31 | the next epoch is one more, saturating at the 64-bit maximum |
| `Epochs.OptIncrement` | src/epoch.rs:46-48 | the same on an optional epoch; none stays none |
| `Intervals.AddNormalForm` | src/slice_manager.rs:156-197 | adding keeps the runs sorted, disjoint, non-adjacent and in bounds |
| `Intervals.AddCovers` | src/slice_manager.rs:156-197 | the new coverage is the old one plus everything from the start of the slice to the end of the first run that starts at or after it and ends past it |
| `Intervals.AddIsUnionIffNoGap` | src/slice_manager.rs:156-197 | adding is plain union if and only if no gap precedes that run |
| `Intervals.FullIffCovered` | src/slice_manager.rs:36-42 | one run from first to last byte is the same thing as every byte covered |
| `Intervals.TrimCovers` | src/slice_manager.rs:133-153 | what the cursor loop of removal leaves: nothing in the slice, and the gap up to the restarted run filled |
| `Intervals.RemoveIsDifferenceIff` | src/slice_manager.rs:107-154 | removal is set difference if and only if the run before the slice touches it and no gap precedes the run that is restarted |
| `Intervals.RemoveNormalForm` | src/slice_manager.rs:107-154 | removal keeps the normal form also where it is not set difference |
| `Intervals.RemoveFromSuffix` | src/slice_manager.rs:80-85 | an ack of a pending suffix leaves a shorter suffix, or nothing; the ack of index 0 is ignored |
| `SliceManagers.SliceManager.New` | src/slice_manager.rs:14-21 | an all-zero buffer with nothing recorded |
| `SliceManagers.SliceManager.FromVec` | src/slice_manager.rs:23-34 | the message with all its bytes pending, none if it is empty |
| `SliceManagers.SliceManager.IsFull` | src/slice_manager.rs:36-42 | full is: a non-empty message with every byte covered |
| `SliceManagers.SliceManager.IsEmpty` | src/slice_manager.rs:44-46 | empty is: nothing pending or recorded |
| `SliceManagers.SliceManager.LastHeadIndex` | src/slice_manager.rs:55-60 | the end of the run at index 0, if there is such a run |
| `SliceManagers.SliceManager.RecvSlice` | src/slice_manager.rs:62-78 | buffer and runs after a fragment, cut at the end of the message and ignored if foreign or past it |
| `SliceManagers.CopyFrom` | src/slice_manager.rs:75-77 | exactly the addressed bytes of the buffer change |
| `SliceManagers.SliceManager.Ack` | src/slice_manager.rs:80-85 | the pending runs after an ack; a foreign one changes nothing |
| `SliceManagers.SliceManager.GetSlices` | src/slice_manager.rs:88-105 | the fragments of every pending run, in order |
| `SliceManagers.Pending` | src/slice_manager.rs:92-102 | the loop over the runs collects the fragments of each, in order |
| `SliceManagers.SliceManager.RemoveSlice` | src/slice_manager.rs:107-154 | the cursor loop computes removal on the map of runs |
| `SliceManagers.SliceManager.TrimRight` | src/slice_manager.rs:133-153 | the cursor loop drops what ends in the slice and restarts the run that ends past it |
| `SliceManagers.SliceManager.AddSlice` | src/slice_manager.rs:156-197 | the cursor loop and the merge with the run before compute addition on the map of runs |
| `SliceManagers.SliceManager.AbsorbRight` | src/slice_manager.rs:158-178 | the cursor loop finds where the slice ends after absorbing and which runs survive |
| `SliceManagers.MakeSlices` | src/slice_manager.rs:200-234 | the loop cuts a run into fragments from its start on |
| `Reassembly.GetSlicesCarry` | src/slice_manager.rs:88-105 | every fragment is a non-empty piece of its message, at its place, no longer than the size |
| `Reassembly.GetSlicesOfSuffix` | src/slice_manager.rs:88-105 | a pending suffix is cut into back-to-back fragments whose join is that suffix |
| `Reassembly.MakeSlicesJoin` | src/slice_manager.rs:200-234 | for every run and every positive size the fragments are contiguous, non-empty, within the size, and join to the run |
| `Reassembly.RecvSliceData` | src/slice_manager.rs:62-78 | a genuine fragment puts the message's bytes at its own indices and changes no other byte |
| `Reassembly.RecvSliceRuns` | src/slice_manager.rs:62-78 | and keeps the normal form, recording its indices and the gap it absorbs |
| `Reassembly.ForeignIgnored` | src/slice_manager.rs:62-85 | a fragment or ack of another message, or a fragment from past the end, changes nothing |
| `Reassembly.FeedContent` | src/slice_manager.rs:62-78 | after genuine fragments in any order with any duplicates the buffer holds the message where bytes arrived and zero elsewhere, and all that arrived is recorded |
| `Reassembly.FeedFaithfulIff` | src/slice_manager.rs:62-78 | the buffer is the message if and only if the bytes that never arrived are zero in it |
| `Reassembly.FragmentAndReassemble` | src/slice_manager.rs:62-105 | all fragments of a message in any order with any duplicates make a fresh manager full with exactly the message |
| `Reassembly.GapCompletesEarly` | src/slice_manager.rs:166-173 | three bytes, last fragment before the first: the manager is full though the middle byte never arrived |
| `Messages.AdvanceMeaning` | src/message_manager.rs:107-132 | the frontier moves over full messages only and stops at one that is missing, or partial with its head-run end |
| `Messages.RecvKeepsFrontier` | src/message_manager.rs:79-137 | any fragment that causes no arithmetic underflow keeps the cached frontier equal to its definition, and the frontier never moves back |
| `Messages.AckDueIff` | src/message_manager.rs:79-137 | an ack is due if and only if the fragment lies at or below the frontier and the frontier completed a message or did not move |
| `Messages.WantedIff` | src/message_manager.rs:68-76 | a fragment that states the right length is wanted if and only if its message is not complete |
| `Messages.TakeKeepsFrontier` | src/message_manager.rs:140-157 | handing out yields exactly the messages between the last one handed out and the frontier, in order, each full, so no unwrap fails |
| `Messages.RecvAndTake` | src/message_manager.rs:79-157 | a fragment and the hand-out after it keep the frontier right and leave the sending side alone |
| `Messages.RunOps` | src/message_manager.rs:79-157 | after any run of receiving and taking, the frontier agrees with its definition and the handed-out numbers are 0, 1, 2, ... |
| `Messages.FrontierMonotone` | src/message_manager.rs:79-157 | along any such run the frontier never decreases and nothing handed out is withdrawn |
| `Exactness.PayloadExactIff` | src/message_manager.rs:79-157 | each payload handed out after any run is the message on the bytes that reached the manager in time and zero elsewhere; so it is the message if and only if those other bytes are zero |
| `MessageManagers.MessageManager.constructor` | src/message_manager.rs:23-31 | an empty manager for an epoch |
| `MessageManagers.MessageManager.InsertMsg` | src/message_manager.rs:34-41 | a message takes the next sequence number |
| `MessageManagers.MessageManager.RecvAck` | src/message_manager.rs:51-63 | messages below the ack go, the one it names is trimmed and goes if nothing is left |
| `MessageManagers.MessageManager.RecvInRange` | src/message_manager.rs:68-76 | whether a fragment is still wanted |
| `MessageManagers.MessageManager.Recv` | src/message_manager.rs:79-137 | the new manager and the ack decision, and that everything below the new frontier is full |
| `MessageManagers.MessageManager.Advance` | src/message_manager.rs:107-132 | the loop moves the frontier as far as it can; its result is true if a message was full or the ack stayed |
| `MessageManagers.MessageManager.TakeRecvd` | src/message_manager.rs:140-157 | the full messages below the frontier, in order, and what is left |
| `MessageManagers.Payloads` | src/message_manager.rs:151-156 | the loop collects the payloads in sequence order |
| `Session.MessageEvents` | src/state/states/connected.rs:173-179 | one event per payload, in order, tagged with the session |
| `Session.EarliestOutgoing` | src/state/states/connected.rs:207-212 | the message resent by the timer is the lowest-numbered outgoing one |
| `LinkSetCores.Deadline.constructor` | src/deadline.rs:11-16 | a stopped timer |
| `LinkSetCores.Deadline.ModifyDeadline` | src/deadline.rs:33-43 | arms the timer and keeps its interval |
| `LinkSetCores.Deadline.ModifyRepeat` | src/deadline.rs:53-59 | arms the timer and makes it repeat |
| `LinkSetCores.Deadline.ClearRepeat` | src/deadline.rs:65-67 | the next firing is the last |
| `LinkSetCores.Deadline.Clear` | src/deadline.rs:69-72 | stops the timer |
| `LinkSetCores.Deadline.Poll` | src/deadline.rs:86-103 | fires only while armed; afterwards armed exactly if it repeats |
| `LinkSetCores.LinkSetCore.constructor` | src/state/common.rs:43-63 | a fresh endpoint: Disconnected, no epoch, default timeouts |
| `LinkSetCores.LinkSetCore.SendProto` | src/links/link_manager.rs:48-62 | closed links are dropped from the front, up to the first open one, and the message goes out on that one if there is one |
| `LinkSetCores.LinkSetCore.SendSlices` | src/links/link_manager.rs:80-98 | the same for the fragments of a message, cut to that link's size |
| `Session.DropClosedIs` | src/links/link_manager.rs:48-62 | what is left are the links from the first open one on, and every link before it was closed |
| `Session.UpkeepIs` | src/links/link_manager.rs:135-142 | upkeep and eviction leave exactly the links that are not dropped, in their order |
| `LinkSetCores.LinkSetCore.Retain` | src/links/link_manager.rs:135-142 | the loop keeps exactly the links not dropped, in order |
| `LinkSetCores.LinkSetCore.WrapLink` | src/state/common.rs:124-137 | every attempt takes an id; links of at most 56 bytes or without a reader are refused |
| `LinkSetCores.LinkSetCore.ToDisconnected` | src/state/states/disconnected.rs:137-224 | state, epoch, timer, flag and events on entering Disconnected from each state |
| `LinkSetCores.LinkSetCore.DetermineTimer` | src/state/states/connecting.rs:106-113 | armed once if a timeout is configured, stopped otherwise |
| `LinkSetCores.LinkSetCore.ToConnecting` | src/state/states/connecting.rs:115-227 | the same for entering Connecting |
| `LinkSetCores.LinkSetCore.ToMismatchWith` | src/state/states/epoch_mismatch.rs:225-282 | the first link opens the negotiation with a request of the own epoch, keeping the queue of Connecting |
| `LinkSetCores.LinkSetCore.ToMismatchAgain` | src/state/states/epoch_mismatch.rs:284-304 | a Connected endpoint reopens it with the next epoch |
| `LinkSetCores.LinkSetCore.SendQueued` | src/state/states/connected.rs:265-273 | the loop inserts and sends every queued message in order |
| `LinkSetCores.LinkSetCore.ToConnectedNew` | src/state/states/connected.rs:255-288 | a new session, opened with the queued messages |
| `LinkSetCores.LinkSetCore.ToConnectedAgain` | src/state/states/connected.rs:290-341 | the same session on a new link, its manager untouched |
| `LinkSetCores.LinkSetCore.DetermineState` | src/state/states/connected.rs:46-69 | where an endpoint without links goes: Reconnecting unless its timeout is zero, else GracePeriod unless that one is, else Disconnected with the next epoch |
| `LinkSetCores.LinkSetCore.Adopt` | src/state/states/epoch_mismatch.rs:133-145 | the epoch is announced before the queued fragments of its session |
| `LinkSetCores.LinkSetCore.Negotiate` | src/state/states/epoch_mismatch.rs:108-146 | reply, confirm or adopt, by the order of the two epochs |
| `LinkSetCores.LinkSetCore.Absorb` | src/message_manager.rs:79-157 | recording a fragment and taking what is complete, one after the other |
| `LinkSetCores.LinkSetCore.Receive` | src/state/states/connected.rs:159-181 | a fragment is recorded and every complete message announced with the session's epoch |
| `LinkSetCores.LinkSetCore.FragmentConnected` | src/state/states/connected.rs:159-181 | the same while connected, with the ack that is due |
| `LinkSetCores.LinkSetCore.ResetConnected` | src/state/states/connected.rs:133-147 | a request is answered, or reopens the negotiation |
| `LinkSetCores.LinkSetCore.MsgConnected` | src/state/states/connected.rs:126-198 | the turn of a Connected endpoint on any link message |
| `LinkSetCores.LinkSetCore.MsgWaiting` | src/state/states/reconnecting.rs:66-129 | the turn of a Reconnecting or GracePeriod endpoint on any link message |
| `LinkSetCores.LinkSetCore.Connect` | src/state/states/disconnected.rs:49-49 | one turn on a connect command, in every state |
| `LinkSetCores.LinkSetCore.Disconnect` | src/state/states/connected.rs:80-82 | one turn on a disconnect command: Disconnected from every state, with nothing sent |
| `LinkSetCores.LinkSetCore.AddLink` | src/state/states/connected.rs:102-107 | one turn on a new link, in every state |
| `LinkSetCores.LinkSetCore.UseLink` | src/state/states/disconnected.rs:70-71 | an accepted link opens a negotiation, joins the front of the links, or resumes the session, by the state |
| `LinkSetCores.LinkSetCore.SendMsg` | src/state/states/connected.rs:108-122 | one turn on a user message, in every state: queued, given to the session and sent, or discarded; in a session, with or without links, it is never discarded if it is meant for it |
| `LinkSetCores.LinkSetCore.Configure` | src/core.rs:100-117 | one turn on a new configuration |
| `LinkSetCores.LinkSetCore.EvictLink` | src/links/link_manager.rs:31-42 | one turn on a debug eviction |
| `LinkSetCores.LinkSetCore.FromLink` | src/core.rs:123-131 | one turn on a link message, in every state |
| `LinkSetCores.LinkSetCore.TickMismatch` | src/state/states/epoch_mismatch.rs:166-185 | the request is repeated while a link is left, otherwise the state is left |
| `LinkSetCores.LinkSetCore.ResendEarliest` | src/state/states/connected.rs:207-212 | the pending fragments of the earliest outgoing message |
| `LinkSetCores.LinkSetCore.TickConnected` | src/state/states/connected.rs:200-215 | upkeep, resend, and the state that follows |
| `LinkSetCores.LinkSetCore.Tick` | src/core.rs:134-137 | one turn on the timer, in every state, only while it is armed |
| `LinkSetCores.LinkSetCore.Handle` | src/core.rs:40-73 | one round of the core loop is one step of the session state machine, so it leads where the diagram says, tells the user so and puts the user's message where it belongs |
| `CoreLoop.Start` | src/core.rs:29-88 | the core driven by any list of inputs is in the state of that run; its log, flag and epochs are consistent, its timer is as its state asks, its links passed the guard and its epoch never fell; it went where the diagram leads, told its user exactly that, and gave every session exactly its messages |
| `TurnLaws.TurnLeads` | src/core.rs:40-73 | every turn in every state leads where the state diagram says; leaving a session or a negotiation raises the epoch, a new session has the agreed epoch and the queue, and a session that goes on keeps its manager, changed by the one operation the input calls for |
| `TurnLaws.SessionEndsIff` | src/state/states/reconnecting.rs:66-138 | a session ends if and only if the user disconnects, the peer challenges it, a timeout passes while it has no link, or its last link goes and neither waiting state is enabled |
| `TurnLaws.LastLinkLost` | src/state/states/connected.rs:46-69 | on every turn that looks for a link and finds none open, timer, user message, peer request or fragment to ack, the session moves with its manager to Reconnecting or GracePeriod, or ends, by the two timeouts |
| `TurnLaws.TurnTold` | src/state/states/disconnected.rs:137-224 | what a user is told of a turn, in every state: the messages it completed, then the change of state, nothing else and in a fixed order |
| `TurnLaws.TurnPosts` | src/state/states/grace_period.rs:69-82 | every user message goes to one place, the queue, the session or nowhere; a new session is given the whole queue |
| `TurnLaws.MessageIsInserted` | src/state/states/reconnecting.rs:54-62 | in Connected, Reconnecting and GracePeriod a message meant for the session is given to it and gets the next number |
| `TurnLaws.DisconnectTurn` | src/state/states/connected.rs:80-82 | the user's disconnect leads to Disconnected from every state, silently on the links, with the epoch raised if it was in use, and is reported if it ends a session |
| `TurnLaws.ConnectTurn` | src/state/states/disconnected.rs:49-49 | the user's connect matters in Disconnected only; it keeps the epoch and starts the timer if there is a timeout |
| `TurnLaws.SettingsAndIds` | src/core.rs:100-117 | new settings change nothing else; every attempted link uses up one id; no other turn touches either |
| `Sending.TurnSends` | src/links/link_manager.rs:48-98 | what every turn in every state sends, with any set of closed links: the Reset or ack it calls for and then the pending bytes of the messages it concerns, all on the first open link, or nothing if there is none |
| `Sending.TurnRelinks` | src/links/link_manager.rs:26-62 | the links after every turn: a new one in front, the evicted one gone, all closed ones gone on the timer, closed ones in front gone if something was to be sent, and otherwise the same |
| `Sending.LinksKept` | src/links/link_manager.rs:26-62 | so an endpoint with links loses an open one only by eviction, and sends on an open one |
| `Sending.AddLinkTurn` | src/state/common.rs:124-137 | a link is taken if and only if it can be read and has more than 56 bytes; it then comes first and opens a negotiation or resumes the session |
| `Fates.RunWalks` | src/core.rs:29-88 | along every run the state is where the diagram leads |
| `Fates.NoticesOfRun` | src/state/states/connecting.rs:115-227 | along every run what the user is told beside messages is one report per turn of the change of state, nothing left out and nothing added |
| `Fates.MailOfRun` | src/state/states/connected.rs:108-122 | along every run the queue holds exactly the user's messages that wait, and each session was given exactly its own, in the user's order |
| `Fates.SessionLasts` | README.md:55-62 | a session outlives its links: as long as nothing ends it, the user sees no disconnection, and every message sent meanwhile joins it in order with the next numbers |
| `EventLog.StepConsistent` | src/core.rs:40-73 | every step of every state keeps the event log, flag, epoch and manager consistent, and the epoch never falls |
| `EventLog.EventLogOfEveryRun` | src/state/states/connected.rs:255-341 | along every run attempts alternate starting with true and the last one tells whether the endpoint is trying; the active flag is up exactly in Connected; a session endpoint announced its session last |
| `EventLog.MessageFollowsItsSession` | src/state/states/connected.rs:159-181 | every message event follows the announcement of its own session with no other announcement between |
| `EventLog.OneSessionPerEpoch` | src/state/states/connected.rs:255-288 | announced epochs strictly increase along every run, below the maximum |
| `EventLog.EpochNeverFalls` | src/state/states/disconnected.rs:137-224 | the epoch never decreases along a run and a session's manager carries its epoch |
| `Discipline.TimerDiscipline` | src/deadline.rs:86-103 | in every reachable state Connected ticks every 5 seconds and EpochMismatch every 2, still armed after firing, and Disconnected has no timer |
| `Discipline.ArmedSinceEntry` | src/state/states/reconnecting.rs:166-191 | for as long as a run stays in Connecting, Reconnecting or GracePeriod, the timer is armed exactly if that timeout was set on entry |
| `Discipline.QueuedMessagesKeepOrder` | src/state/states/connected.rs:265-273 | on a run into Connected that never falls back the untagged messages accepted on the way become numbers 0, 1, 2, ... in order, ahead of every later one |
| `Discipline.FirstMessageIsFirst` | src/state/states/disconnected.rs:77-92 | the message that makes a Disconnected endpoint connect is number 0, ahead of the messages queued after it |
| `Discipline.QueuedRun` | src/state/states/epoch_mismatch.rs:251-282 | such runs exist: a message queued while connecting, a first link and the peer's request lead there |
| `LinkSizes.RunLinks` | src/state/common.rs:124-137 | every link in use after any run passed the size guard |
| `LinkSizes.RunIds` | src/state/common.rs:124-137 | no two links in use after any run have the same id, and no id is given twice |
| `LinkSizes.SizeBound` | src/links/link_entry.rs:114-121 | after any run, everything a turn sends serializes within the size of the link it goes out on, the first one that is not closed, and every fragment carries data, so it decodes again; a ping or pong fits every link in use |
| `Handshake.NegotiateOutcome` | src/state/states/epoch_mismatch.rs:108-146 | the whole answer and next state of a negotiating endpoint for every pair of epochs: at most one Reset, first of all |
| `Handshake.ConnectedOutcome` | src/state/states/connected.rs:133-147 | the same for a connected endpoint |
| `Handshake.TimerRequest` | src/state/states/epoch_mismatch.rs:166-185 | a negotiating endpoint repeats its request on every tick and stays as it is |
| `Handshake.OtherTrafficIsInert` | src/state/states/epoch_mismatch.rs:149-161 | messages other than Reset cannot disturb a negotiation and are answered with acks only |
| `Handshake.HandleInert` | src/state/states/connected.rs:126-198 | the same for any list of them, handed over in order; acks alone are answered with nothing |
| `Handshake.HandshakeConverges` | src/state/states/epoch_mismatch.rs:108-185 | from any two epochs, none and the maximum included, one timer request and four or more hand-overs of the whole answers in order, queued fragments and acks included, leave both endpoints connected to one session with no Reset under way; at most four Resets were handed over in all, and after two more hand-overs nothing is under way |
| `Convergence.ExchangeIsRun` | src/core.rs:40-73 | such an exchange is a run of the system |
| `Convergence.HandshakeRun` | src/state/states/epoch_mismatch.rs:108-185 | from every reachable state with one endpoint negotiating and the other negotiating or connected, a tick and four hand-overs lead to a state with both in one session |
| `Delivery.ReceiverRecv` | src/message_manager.rs:79-137 | a genuine fragment keeps every held message right on its recorded bytes, or right up to zeros |
| `Delivery.SenderAck` | src/message_manager.rs:51-63 | any ack, stale or not, keeps the pending bytes of every outgoing message a suffix |
| `Delivery.KeptAck` | src/message_manager.rs:51-63 | an ack at or below the receiver's frontier discards nothing above it |
| `Refinement.StepRefines` | src/core.rs:40-73 | every step of an endpoint is one protocol move, sending only its own epoch and journaled bytes, and at most the end of its session |
| `Refinement.FragmentRefines` | src/state/states/connected.rs:159-181 | the move made on a fragment of the current session is to receive it, in each of the three session states |
| `System.Reachable` | src/core.rs:29-88 | the invariant of two endpoints and their traffic holds after every run |
| `System.EpochAgreement` | src/state/states/epoch_mismatch.rs:108-146 | whenever both endpoints are in a session it is the same one |
| `System.ArrivalsAreReady` | src/message_manager.rs:79-137 | nothing in flight can make the receiving code underflow or fail an unwrap |
| `System.EndToEndDelivery` | src/state/states/connected.rs:159-181 | on a clean run the payloads handed out in a session are a prefix, in order and exactly once, of those the peer inserted in it |
| `System.DeliveryUpToGaps` | src/state/states/connected.rs:159-181 | on any run at all they are that prefix up to bytes zeroed by a gap |
| `System.WholeMessagesRunClean` | src/slice_manager.rs:166-173 | every run whose messages fit one fragment each is clean |
| `SmallMessages.RunWhole` | src/links/link_manager.rs:80-98 | if a caller sends messages of at most some size over links with room for it, then on every run nothing is ever partly sent, acked or received |
| `SmallMessages.SmallMessagesAreExact` | src/links/link_entry.rs:114-121 | and so, whatever the network does, the run is clean and the payloads handed out are a prefix of those inserted, byte for byte |
| `EndToEnd.RunTied` | src/state/states/connected.rs:159-181 | on every run, what an endpoint handed out and holds in a session comes from the calls its arriving fragments make to one manager |
| `EndToEnd.OpsArePieces` | src/links/link_manager.rs:80-98 | those fragments are pieces of the messages the peer inserted |
| `EndToEnd.ExactDeliveryIff` | src/state/states/connected.rs:159-181 | on every run each payload handed out is the peer's message on the bytes that came in time and zero elsewhere; the payloads are a prefix of those inserted if and only if the missing bytes are zero anyway |
| `Conversation.UserToUser` | README.md:3-8 | the same from user to user: what one user is handed, against the messages the other one sent into that session |
| `Conversation.SmallTalk` | README.md:3-8 | with messages that fit the links, one user is handed a prefix of what the other one sent, byte for byte |
| `System.NothingDiscardedEarly` | src/message_manager.rs:51-63 | in every reachable state, for every inserted message of a session endpoint: while the peer shares the session each byte is pending at the sender or recorded at the receiver, while the peer has not reached the session each byte is pending, and the pending bytes are always a suffix; nothing is said once the peer has left the session, since its records go with it |
| `Projection.EndpointRuns` | src/core.rs:29-88 | each endpoint of a system run goes through a run of its own, so the single-endpoint theorems hold of it |
| `Opening.Opened` | src/state/states/epoch_mismatch.rs:225-249 | four steps from a fresh start to a session at both endpoints, with the complete state |
| `GapRun.ReorderingCorrupts` | src/slice_manager.rs:166-173 | a reachable run of two endpoints, reordering only, in which a payload is handed out that was never sent |
| `Progress.RoundGetsThrough` | src/state/states/connected.rs:200-215 | one loss-free round gets the earliest outgoing message through |
| `Progress.EmptyMessageBlocks` | src/slice_manager.rs:23-34 | on no run does a peer hand out an empty message or one inserted after it in the same session |
| `EmptyRun.EmptyMessageStuck` | src/slice_manager.rs:23-34 | a reachable state with one empty message outgoing, from which a loss-free round makes no progress |
| `Progress.ResendProgress` | src/state/states/connected.rs:200-215 | from every reachable pair of connected endpoints one loss-free round strictly shrinks the outgoing set if and only if no message up to the earliest outgoing one is empty |
| `Progress.RoundIsRun` | src/state/states/connected.rs:200-215 | a round is a run of the system |
| `Progress.RoundsDrain` | src/state/states/connected.rs:200-215 | as many rounds as there are outgoing messages drain them all |
| `Progress.DrainedIsDelivered` | src/message_manager.rs:51-63 | once nothing is outgoing the peer has handed out as many payloads as were inserted, and on a clean run exactly those |
| `Codec.EncodedLength` | src/protocol.rs:41-91 | the size of every encoding |
| `Codec.WireFormat` | src/protocol.rs:41-91 | which field stands at which offset of every encoding |
| `Codec.DigitAt` | src/protocol.rs:41-91 | numbers are written most significant byte first |
| `Codec.RoundTrip` | src/protocol.rs:41-211 | decoding an encoding with anything after it gives the message and leaves what followed; a fragment without data gives the length error |
| `Codec.StrictPrefixIsEOF` | src/protocol.rs:93-211 | every strict prefix of an encoding gives the end-of-input error |
| `Codec.UniquelyDecodable` | src/protocol.rs:41-211 | two encodings are never confused, whatever follows them |
| `Codec.DecodedIsEncoded` | src/protocol.rs:93-211 | accepted bytes are the encoding of what they give, if and only if the flag of a Reset is 0 or 1 |
| `Codec.EOFIffIncomplete` | src/protocol.rs:93-211 | the end-of-input error is given exactly when more bytes would complete a message |
| `Codec.RefusedIff` | src/protocol.rs:93-211 | the length error is given exactly for a fragment that announces no data, and the variant error exactly for an unknown variant, which it names |
| `Codec.Serialize` | src/protocol.rs:41-91 | pushing field after field produces the encoding |
| `Codec.ByteQueue.ReadWords` | src/protocol.rs:117-134 | consecutive big-endian words, or nothing if they are not all there |
| `Codec.Deserialize` | src/protocol.rs:93-211 | consuming the queue step by step agrees with decoding by position, in every error too, and leaves what followed |
| `TcpFraming.ParseAll` | src/link_impls/tcp_link.rs:187-192 | the frames of any payloads under 2^32 bytes parse back to them |
| `TcpFraming.ParseCut` | src/link_impls/tcp_link.rs:187-245 | a framed stream cut anywhere parses to exactly the payloads whose frames end before the cut |
| `TcpFraming.TruncationHarmlessIff` | src/link_impls/tcp_link.rs:229-229 | the 32-bit truncation of the buffered length is harmless if and only if the frame is at most 2^32 - 1024 bytes |
| `TcpFraming.FrameMissed` | src/link_impls/tcp_link.rs:227-244 | for every frame over that size there are reads that deliver it whole, after which the call waits for more |
| `TcpFraming.FrameReturnedIff` | src/link_impls/tcp_link.rs:197-245 | a frame is returned on every split of the stream if and only if it is at most 2^32 - 1024 bytes |
| `TcpFraming.FrameReader.RecvChunk` | src/link_impls/tcp_link.rs:197-245 | all bytes read are returned in frames or still held; a call that returns nothing left no complete frame behind, so it can be dropped and made again; the whole outcome is that of the two loops on the reads |
| `TcpFraming.ChunkStops` | src/link_impls/tcp_link.rs:197-245 | a call goes on while reads bring data and reports a closed connection exactly when it has read the end of the stream |
| `TcpFraming.FrameReader.ReadLength` | src/link_impls/tcp_link.rs:207-223 | the first loop waits for four bytes and keeps the stream accounted for |
| `TcpFraming.FrameReader.ReadBody` | src/link_impls/tcp_link.rs:227-244 | the second loop returns the announced bytes, never fewer |
| `TcpFraming.Listen` | src/link_impls/tcp_link.rs:197-245 | for every list of payloads up to 2^32 - 1024 bytes, every split into reads of 1 to 1024 bytes, every abandoned call and every cut of the stream: the calls return exactly the payloads that arrive whole, in order |
| `TcpFraming.WholeStream` | src/link_impls/tcp_link.rs:187-192 | which are all of them if the stream is not cut |
| `Base64.DecodeEncode` | src/links/address.rs:173-173 | decoding undoes encoding |
| `Base64.EncodeDecode` | src/links/address.rs:145-146 | only canonical text is accepted |
| `Base64.Alphabet` | src/links/address.rs:3-3 | the URL-safe alphabet, with minus and underscore, and its padding |
| `Base64.GroupBits` | src/links/address.rs:173-173 | four symbols are the bits of three bytes, most significant first |
| `Addresses.ToBytes` | src/links/address.rs:89-104 | pushing part after part produces the byte form |
| `Addresses.BytesRoundTripIff` | src/links/address.rs:89-127 | the byte form reads back if and only if the scheme has no colon |
| `Addresses.AcceptedBytes` | src/links/address.rs:106-127 | every accepted byte string is the byte form of what it gives |
| `Addresses.RefusedBytes` | src/links/address.rs:106-127 | which error is given for a missing part, a scheme or text that is no string, and an unknown symbol |
| `Addresses.TextRoundTripIff` | src/links/address.rs:135-178 | the printed form parses back if and only if the scheme has no colon |
| `Addresses.PlainText` | src/links/address.rs:135-164 | without one of the two tags everything after the scheme is text, further colons included |
| `Addresses.ParseFailsIff` | src/links/address.rs:135-164 | a string is refused if and only if it has no colon or its base64 does not decode |
| `Addresses.ParsedIsFixed` | src/links/address.rs:135-178 | text that parses gives an address that prints and parses to itself |
| `Addresses.ParsedIsWellTyped` | src/links/address.rs:135-164 | parsing a string splits it into strings, so the byte form of the result reads back too |
| `Addresses.PrintIsText` | src/links/address.rs:166-178 | the printed form is valid UTF-8 |

## Left out

- System.NothingDiscardedEarly: says nothing of bytes once the receiver has left the session, because what it had recorded is dropped with the session.
- System.EpochAgreement: assumes that neither process restarts; a restart resets an epoch to none.
- EventLog.OneSessionPerEpoch: the 64-bit maximum epoch, where incrementing saturates, is excluded here and in the delivery and progress theorems.
- Progress.ResendProgress: the loss-free round is sequential, each fragment and each ack being handled before the next.
- MessageManagers.MessageManager.Recv: the manager holds its slice managers by value, so updates of a slice manager through the map entry are map updates.
- LinkSetCores.LinkSetCore.SendSlices: a send error in the middle of a message, after which the remaining fragments are not sent, counts as loss.
- LinkSetCores.Deadline.Poll: wall-clock time is left out; the timer is armed or not and may fire whenever it is armed.
- LinkSetCores.LinkSetCore.FromLink: requires that a fragment of the current session causes no arithmetic underflow, which System.ArrivalsAreReady proves of everything in flight.
- Codec.Deserialize: what is left in the queue after an error is not specified, because it depends on the standard library's reader for byte queues and the program drops the queue.
- 64-bit overflow of sequence numbers, link ids, indices and lengths: they are unbounded in the model.
- LinkSizes.SizeBound: pings and pongs are not among the sends of a turn; that they fit is stated of every link in use.
- Ping, pong and latency: a slow link is one of the arbitrary closed links of a step, also at the one latency where upkeep and sending disagree.
- Connectors, addresses held by a state, background connection tasks and readers: a new link is an input.
- Tokio tasks, channels and `select!`: each event is one atomic step; the capacity of the event channel is not modelled.
- Debug snapshots, tracing, error formatting, serde and bincode, the user-facing wrappers, the simulated pipe link, the peekable adaptor and socket-address conversions: delegation or plumbing.
- Random epochs: nothing in the session logic uses them.
- The base64 crate is not part of the repository; `Base64` states its documented strict, padded URL-safe behaviour.
