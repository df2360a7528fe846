# Calvin: verified models

Calvin is a distributed actor runtime. Actors read tokens from inports and write tokens to outports; an
application is a script of actors, components and links between their ports; the runtime moves actors
between nodes while they run. This project models the parts of it where a mistake would lose or repeat a
token, connect the wrong ports or break an agreement between nodes, and proves what those parts promise.

`dafny verify dfyconfig.toml` checks everything. Each part comes in two layers: what an operation does, as
functions on values (`...Spec`, `...States`, `Streams`, `SetOps`, ...), with the theorems about all runs;
and the objects that do it in place, as classes whose methods are proved to do exactly that.

## What is proved, part by part

**Token transport** (`Tokens`, `FifoSpec`, `FifoBuffer`, `EndpointSpec`, `Endpoints`, `Streams`, `Transport`,
`TunnelPhases`, `TransportProof`, `TransportTheorems`, `Renewals`). An outport's bounded multi-reader FIFO is an
unbounded broadcast stream. One outport and any number of inports, each connected locally, through a tunnel, or
not at all, form a state machine whose events are: write, communicate, deliver a token, deliver a reply, poll,
fire, peek and rewind, read, disconnect either end, accept a connection at either end, take the OK for it off the
link, connect locally, put a new end where one is in place, migrate either end. The node that is asked for a
connection attaches its end at once (portmanager.py:162-190), the node that asked attaches its own when the OK
reaches it (portmanager.py:445-467), and in between the first may send. Both orders are there, and both nodes
asking at the same time (`CrossingIsNothing`). The OK travels on the link that carries tokens and replies
(calvin_proto.py:494-499), ahead of everything the new connection sends; `OkComesFirst` says what that guarantees
and `OvertakenOkIsDeadEnd` that nothing less would do. In every reachable state, what an inport's actor has
consumed, followed by what its FIFO holds, followed by what the outport's FIFO holds beyond that, is the whole
written stream: exactly once and in order. ACKs reach a sender in the order it needs, and from every reachable
state with both ends attached, or one attached and the OK for the other on its way, whatever is in flight, the
consumer can be brought up to date.

The environment of the transport: links keep order and lose nothing while both ends are attached, except an OK
whose port has left its node; a token that reaches a detached inport is answered with ABORT, and a reply to a
detached outport is dropped; time and back-off only decide whether a send happens now or later. `GuardsHold` shows
that the guards on talking, delivering, consuming and disconnecting are no restrictions. The others say when the
rest of the runtime acts. Where the outport has no end for an inport, a connection over a tunnel is made only while
both directions are empty, as a completed disconnect leaves them (its request and answer travel behind all
traffic); a local one is made at any time. Where it has one, a new end goes over it only under conditions that are
exactly those under which the invariant survives: `RenewOutIff`, `RenewInIff`, `LocalOverIff`. An actor writes only
when its outport is connected and has room, which `Readiness` derives for enabled actors. An inport migrates
detached, and an outport when no inport is attached to it.

**Firing** (`Inports`, `Firing`, `SharedPeers`, `ActorFiring`). The condition wrapper around actions, on inports
over tunnels and local connections alike, several of which may read from one outport and work on its one FIFO, and
`fire()`. A firing consumes exactly the declared number of tokens per inport and extends each declared outport's
stream by what the action returned for it, token by token and in order; nothing else moves, and no full FIFO is
met (`AfterIsFiredAs`). Anything else leaves all positions as they were, including peeks that ran from the inport's
FIFO into the peer's. A call of `fire()` is a sequence of passes over the actions: in each that fires, the action
that fires has its tokens and its room, and each one before it in the list lacks them or has had its attempt
refused; the last pass finds that of every action. It ends, because tokens left to read plus slots left to write
fall with every firing, and its totals are the movement of the streams.

**Ports and the actor's status** (`PortStates`, `PortHistory`, `ActorPorts`, `Readiness`). However ports are attached, detached
and disconnected, an actor is ENABLED only while all its ports are connected, and an attach makes it ENABLED as soon
as they are, which some attaches bring about in every state (`AttachedEnabledIff`, `CanBeEnabled`); with the fanout
set to the number of peers, all of them are then registered with the FIFO. Put together with the transport, an actor
that writes when it is ENABLED and has room does nothing but runs of that state machine (`EnabledMeansRegistered`).
A reader that registers late would be unsound: see `AddReaderSoundIff`.

**CalvinScript flattening** (`CalvinScript`, `Wiring`, `WiringMeaning`, `WiringOnce`, `PortNames`,
`Literals`, `PortTables`, `Analyzer`, `FlatProgram`, `Arguments`, `SharedLiterals`, `Constants`). Nested programs
have a direct meaning: a leaf outport feeds a leaf inport when there is a path of links between them through component
boundaries. The analyzer's `connections` table lists exactly the pairs that feed each other, for every
program the checker accepts, any nesting and any fan-out; it lists leaf ports only. Arguments handed down
through instances are what looking the names up from the inside out gives. What the analyzer makes of the port
literals of component definitions shared by several instances is computed in place, as it does, and compared with
what each instance is entitled to.

**Dynamic set operators** (`SetOps`, `DynOps`, `OpRuns`, `CollectOp`, `Requirements`). Any tree of Unions,
Intersections and Differences over Lists, as objects, under any interleaving of growth and calls of next:
what is delivered belongs to the final set, nothing comes twice, Stop means that everything was delivered, Pause
that everything was that is ready - all there is so far, unless something subtracted may still grow
(`ReadyIsAll`) - and a tree with all lists final never pauses.

**Smaller machines**. Simultaneous tunnel setup (`Handshake`, `TunnelProto`), the write-behind cache for sets
(`StorageSets`, `SetCache`), timed metering (`MeterLog`, `Metering`), index strings (`IndexCodec`),
disconnecting all ports of an actor (`Disconnects`, `PortManager`).

## Where the code falls short of what it is for

Each of these is stated as lemmas: an input that shows it, or the exact condition under which the code is
right, or both.

- A reader registered after more than N-1 writes, or the removal of the last reader after as many, breaks the
  FIFO (`AddReaderSoundIff`, `RemoveReaderSoundIff`): the late reader is handed a later token as its first, the
  FIFO left without readers is full (`LateReaderMisreads`, `LastReaderGoneBlocks`).
- A link of the script itself from a port `.p` is accepted by the checker, and the connection it stands for
  is lost (`InportsListedOnceIff`, `LostInport`).
- The literals on ports of a component are expanded in its shared definition, so later instances get the values
  of the first. The outcome is right exactly when, wherever a port literal names a parameter, all instances agree
  with the first on that parameter (`SharedIsGivenIff`, `SecondGetsFirst`).
- The checker does not look at names used as port literals; a script it accepts can be analyzed exactly when each
  of them is a parameter or a constant (`AcceptedIsGivenIff`, `UnknownLiteralPasses`).
- `did_disconnect` runs before the endpoint is dropped. When ports of an ENABLED or PENDING actor are disconnected
  one after the other, connected or not, it ends READY if and only if no port is connected any more before the last of
  them goes (`DisconnectedReadyIff`), that is, if every port connected at the start goes before the last disconnect
  (`DisconnectedReadyIfGone`). So an actor with all its ports connected is left PENDING
  (`DisconnectedIsPending`), and otherwise the order decides (`OrderDecides`).
- A disconnect request by one consumer drops every end of the outport (portmanager.py:665-690,
  actorport.py:202-212); with all other ports connected, the actor is ENABLED again exactly when all siblings have
  been attached again (`SiblingsAttachedIff`).
- When the OK for an inport arrives at a node its port has left, the tokens behind it are answered with ABORT while
  the outport goes on counting them as sent. New ends over those in place do not bring the first of them back, nor
  does anything else short of a disconnect of the outport or a local connection (`LostOkSticks`, `StuckForever`).
- A local endpoint put where a tunnel end has been is at the right place in the stream exactly under the condition
  of `LocalOverIff`; otherwise tokens are skipped or come again (`LocalOverSkips`, `LocalOverRepeats`).
- An ACK commits one token for every copy of the committed number in the list of acknowledged ones, acknowledged or
  not (`AckMovesOneIff`); in runs of the state machine that list is always empty (`ReplyKeeps`).
- `Collect` removes ended iterators from the list it is walking, so it skips their successors and can pause
  although nothing is awaited (`PausesIff`, `PausesOverReady`).
- With two appends for a key outstanding, the first answer drops what the second may yet fail to store
  (`TwoRoundsLose`, and `AckSafeIff` for when an answer may be taken for all that is pending); a read that does
  not reach the backend omits what is only there (`FailedConcatIff`, `FailedGetMisses`).
- After the last metering user leaves, every firing raises KeyError once there is a new user (`LastLeavingBreaks`):
  after any events, a firing raises exactly when somebody meters and its actor has not been made known since there
  last was nobody (`FiringRaisesIff`, `LoggedIff`). A user out of touch beyond the timeout loses firings
  (`LateUserLoses`, `ForgetLosesIff`).
- A failing answer raises KeyError in the reply handler if and only if something has failed before for the same
  port (`AnswerRaisesIff`, `SecondFailureRaises`), and an actor without ports is never answered for (`NoPortsNoCall`).
- An index string is decoded to what was encoded only under the condition of `IndexRoundTripIff`; a level that
  starts the index with a slash comes back as two (`LeadingSlashSplits`).

## Model

| member | source | states |
|---|---|---|
| Tokens.DecodeEncodeAll | calvin/runtime/north/calvin_token.py:24-41 | Decoding what was encoded gives every token of a FIFO back, of whichever class. |
| FifoSpec.RestoreImage | calvin/runtime/north/fifo.py:49-66 | Restoring a serialized FIFO on another runtime gives the same FIFO: slots, readers and all three counters. |
| FifoSpec.SpaceIsExact | calvin/runtime/north/fifo.py:83-99 | The modular can_write test agrees with the distance to the slowest reader, and available_slots is exactly N-1-(write_pos - min read_pos). |
| FifoSpec.WriteRefines | calvin/runtime/north/fifo.py:88-94 | A write appends to the unbounded stream, and fails exactly when the slowest reader is N-1 tokens behind. |
| FifoSpec.WriteSparesUncommitted | calvin/runtime/north/fifo.py:83-94 | No slot is overwritten while any reader has yet to commit it. |
| FifoSpec.ReadRefines | calvin/runtime/north/fifo.py:101-128 | Each reader reads the written sequence in order, finds nothing exactly at its end, and available_tokens is the rest of it. |
| FifoSpec.CommitRefines | calvin/runtime/north/fifo.py:131-145 | Commits and rollbacks of one reader leave the stream as it is for all readers. |
| FifoSpec.AddReaderSoundIff | calvin/runtime/north/fifo.py:68-74 | Registering a reader is sound if and only if it is known already or at most N-1 tokens were ever written. |
| FifoSpec.RemoveReaderSoundIff | calvin/runtime/north/fifo.py:76-81 | Removing a reader is sound if and only if another remains or at most N-1 tokens were ever written. |
| FifoSpec.LateReaderMisreads | calvin/runtime/north/fifo.py:68-74 | With two slots and three tokens gone through, a reader registered now is handed the third token as its first. |
| FifoSpec.LastReaderGoneBlocks | calvin/runtime/north/fifo.py:76-86 | The same FIFO has room until its only reader is removed, and none afterwards. |
| FifoBuffer.Fifo.constructor | calvin/runtime/north/fifo.py:32-41 | A new FIFO is well formed and holds the empty stream. |
| FifoBuffer.Fifo.State | calvin/runtime/north/fifo.py:49-58 | The serialized form holds every slot in coded form, the readers and all positions. |
| FifoBuffer.Fifo.SetState | calvin/runtime/north/fifo.py:60-66 | The FIFO becomes what the image describes. |
| FifoBuffer.Fifo.AddReader | calvin/runtime/north/fifo.py:68-74 | Adds the reader at position 0 unless it is known, changing nothing else. |
| FifoBuffer.Fifo.RemoveReader | calvin/runtime/north/fifo.py:76-81 | Forgets the reader and its positions, or raises and changes nothing. |
| FifoBuffer.Fifo.SlowestRead | calvin/runtime/north/fifo.py:84 | Computes the smallest committed position, or 0 without readers. |
| FifoBuffer.Fifo.CanWrite | calvin/runtime/north/fifo.py:83-86 | Decides whether the next slot is free for all readers. |
| FifoBuffer.Fifo.Write | calvin/runtime/north/fifo.py:88-94 | In place on the slot array: stores and advances, or reports full and changes nothing. |
| FifoBuffer.Fifo.AvailableSlots | calvin/runtime/north/fifo.py:96-99 | Computes the number of free slots. |
| FifoBuffer.Fifo.AvailableTokens | calvin/runtime/north/fifo.py:101-109 | Computes what the reader has not yet read, or raises for an unknown reader. |
| FifoBuffer.Fifo.CanRead | calvin/runtime/north/fifo.py:111-116 | Decides whether the reader has something to read, or raises for an unknown reader. |
| FifoBuffer.Fifo.Read | calvin/runtime/north/fifo.py:118-128 | Hands out the token at the tentative position and advances that position only. |
| FifoBuffer.Fifo.CommitReads | calvin/runtime/north/fifo.py:131-135 | Moves the committed position to the tentative one, or back. |
| FifoBuffer.Fifo.RollbackReads | calvin/runtime/north/fifo.py:137-138 | Moves the tentative position back to the committed one. |
| FifoBuffer.Fifo.CommitOneRead | calvin/runtime/north/fifo.py:140-145 | Moves one of the two positions one step towards the other, if they differ. |
| Endpoints.TunnelOutEndpoint.Reply | calvin/runtime/south/endpoint.py:263-271 | An ACK, a NACK or an ABORT has the effect on FIFO, list and mode that the transport theorems are about. |
| Endpoints.TunnelOutEndpoint.ReplyAck | calvin/runtime/south/endpoint.py:273-285 | Loop over the acknowledged numbers, the committed position read once before it: same result as DrainAcks. |
| Endpoints.TunnelOutEndpoint.ReplyNack | calvin/runtime/south/endpoint.py:287-305 | Loop that takes back tentative reads down to the refused number, leaves bulk mode and drops later acknowledgements. |
| Endpoints.TunnelOutEndpoint.SendOneToken | calvin/runtime/south/endpoint.py:307-321 | Sends the token at the tentative position under that position as its number. |
| Endpoints.TunnelOutEndpoint.Communicate | calvin/runtime/south/endpoint.py:323-340 | Sends all there is in bulk mode; otherwise one token, only when nothing is outstanding and the time has come. |
| Endpoints.TunnelInEndpoint.RecvToken | calvin/runtime/south/endpoint.py:194-212 | Stores and acknowledges exactly the next token, acknowledges earlier ones again, refuses later ones and a full FIFO. |
| Endpoints.TunnelInEndpoint.ReadToken | calvin/runtime/south/endpoint.py:214-217 | Hands out and commits the next token. |
| Endpoints.TunnelInEndpoint.PeekToken | calvin/runtime/south/endpoint.py:219-221 | Hands out the next token without committing. |
| Endpoints.TunnelInEndpoint.PeekRewind | calvin/runtime/south/endpoint.py:223-224 | Gives all peeked tokens back. |
| Endpoints.TunnelInEndpoint.CommitPeekAsRead | calvin/runtime/south/endpoint.py:226-227 | Commits all peeked tokens. |
| Endpoints.TunnelInEndpoint.AvailableTokens | calvin/runtime/south/endpoint.py:229-231 | Counts the tokens that have arrived and were not read. |
| Endpoints.LocalInEndpoint.MismatchFix | calvin/runtime/south/endpoint.py:75-82 | Loop over the peer FIFO that drops what the inport has already, once. |
| Endpoints.LocalInEndpoint.SyncLocalFifos | calvin/runtime/south/endpoint.py:84-90 | The inport FIFO takes over the position in the peer FIFO. |
| Endpoints.LocalInEndpoint.ReadToken | calvin/runtime/south/endpoint.py:92-108 | The next token from the inport FIFO while it lasts, then from the peer FIFO. |
| Endpoints.LocalInEndpoint.PeekToken | calvin/runtime/south/endpoint.py:110-121 | The same, without committing. |
| Endpoints.LocalInEndpoint.PeekRewind | calvin/runtime/south/endpoint.py:123-126 | Gives back peeks in both FIFOs. |
| Endpoints.LocalInEndpoint.CommitPeekAsRead | calvin/runtime/south/endpoint.py:128-137 | Commits peeks in both FIFOs and leaves the inport FIFO once it is empty. |
| Endpoints.LocalInEndpoint.AvailableTokens | calvin/runtime/south/endpoint.py:139-150 | Counts what is left in both FIFOs. |
| Streams.TunnelConsumes | calvin/runtime/south/endpoint.py:214-231 | Over a tunnel, peeking k tokens and committing consumes exactly the next k of the stream; rewinding restores the FIFO. |
| Streams.SkipsToInbox | calvin/runtime/south/endpoint.py:75-82 | Dropping duplicates stops exactly where the inport already has the tokens. |
| Streams.LocalAvailableIsRest | calvin/runtime/south/endpoint.py:139-150 | Over a local connection, the tokens reported are all tokens written and not consumed, wherever they are. |
| Streams.LocalPeeks | calvin/runtime/south/endpoint.py:110-121 | k peeks hand out the next k tokens of the stream, first from the inport FIFO and then from the peer FIFO, with none skipped or repeated at the seam. |
| Streams.LocalCommitMoves | calvin/runtime/south/endpoint.py:128-137 | A commit moves the consumed position by exactly the number of peeks. |
| Streams.LocalRewindRestores | calvin/runtime/south/endpoint.py:123-126 | A rewind restores both FIFOs and both flags exactly. |
| Streams.LocalReadsNext | calvin/runtime/south/endpoint.py:92-108 | read_token returns the next token of the stream, and nothing exactly at its end. |
| Streams.FlagsOffIgnoreOwn | calvin/runtime/south/endpoint.py:92-150 | With both flags off a local endpoint does not look at the inport's own FIFO: whatever is in it, the results and the peer FIFO are the same. |
| Streams.FlagsTell | calvin/runtime/south/endpoint.py:92-150 | The flags after each operation: duplicates are skipped at the first look, and the own FIFO counts until a read or a count finds it empty or a commit leaves it so. |
| Streams.LocalOverIff | calvin/runtime/north/portmanager.py:480-493 | A local endpoint put over a tunnel end is at the seam of the two FIFOs after the first look, if and only if nothing was tentative or the inport has more than that already. |
| Streams.LocalOverSkips | calvin/runtime/north/portmanager.py:480-493 | Two tokens written and the first sent but not received: the second is handed out first. |
| Streams.LocalOverRepeats | calvin/runtime/south/endpoint.py:92-108 | A token received, consumed and not acknowledged comes a second time. |
| TunnelPhases.AckOfCommitted | calvin/runtime/south/endpoint.py:273-285 | An ACK of the committed position advances it by one and leaves the list of acknowledgements empty. |
| TunnelPhases.NackMoves | calvin/runtime/south/endpoint.py:287-305 | A NACK of a number not yet committed takes the tentative position back to it and ends bulk mode. |
| TunnelPhases.SendsRest | calvin/runtime/south/endpoint.py:323-340 | In bulk mode exactly the unsent rest of the stream is sent, numbered by position. |
| TunnelPhases.CommunicateSends | calvin/runtime/south/endpoint.py:323-340 | Sends if and only if something is unsent and, out of bulk mode, nothing awaits an answer and the time has come; then the next tokens of the stream under their positions, all in bulk mode and one otherwise. |
| TunnelPhases.NackForgets | calvin/runtime/south/endpoint.py:287-305 | Every NACK ends bulk mode; one for a number that is out takes back the tentative reads down to it and forgets what was acknowledged beyond it, nothing else. |
| TunnelPhases.PhaseDeliver | calvin/runtime/south/endpoint.py:194-212 | The receiver answer to the oldest token in flight keeps the exchange in a bulk or a retry phase. |
| TunnelPhases.PhaseAck | calvin/runtime/south/endpoint.py:273-285 | In either phase the oldest reply, if an ACK, is for exactly the committed position, and the exchange is in phase after it. |
| TunnelPhases.PhaseNack | calvin/runtime/south/endpoint.py:287-305 | In either phase the oldest reply, if a NACK, refuses the committed position or a stale later one, and the exchange is in phase after it. |
| TransportProof.AckKeeps | calvin/runtime/south/endpoint.py:273-285 | An ACK for an attached sender keeps the invariant, moves the committed position by one and leaves no acknowledgement listed. |
| TransportProof.NackKeeps | calvin/runtime/south/endpoint.py:287-305 | A NACK for an attached sender keeps the invariant. |
| TransportProof.ReplyKeeps | calvin/runtime/south/endpoint.py:263-305 | After any reply in any state of a run, no acknowledged number is left in the list. |
| TransportProof.WriteKeeps | calvin/actor/actorport.py:214-218 | A write by a fully connected outport keeps the invariant: every reader is registered by then. |
| TransportProof.SendKeeps | calvin/runtime/south/endpoint.py:323-340 | One pass of communicate keeps the invariant, in both modes. |
| TransportProof.DeliverTokenKeeps | calvin/runtime/south/endpoint.py:194-212 | A token that reaches an attached, detached or locally connected inport keeps the invariant. |
| TransportProof.ConsumeKeeps | calvin/actor/actor.py:120-157 | Consuming k tokens keeps the invariant, and the actor receives exactly the next k tokens of the stream. |
| TransportProof.RewindKeeps | calvin/actor/actor.py:170-175 | Peeking and rewinding leaves the system as a mere poll would. |
| TransportProof.DisconnectOutKeeps | calvin/actor/actorport.py:202-212 | Disconnecting the outport rolls unacknowledged tokens back and keeps the invariant with tokens and replies still in flight. |
| TransportProof.DisconnectInKeeps | calvin/actor/actorport.py:109-113 | Disconnecting an inport keeps the invariant with tokens and replies still in flight. |
| TransportProof.AttachEventKeeps | calvin/runtime/north/portmanager.py:131-190 | Accepting a connection at either end, also when both nodes ask, taking the OK for it off the link (or losing it because the port has left) and connecting locally, over a tunnel end in place too, keep the invariant. |
| TransportProof.RenewOutIff | calvin/actor/actorport.py:180-193 | A new outport end where one is in place keeps the invariant if and only if the old one sends in bulk or the oldest exchange under way, if any still matters, is about the committed number and not about a later one. |
| TransportProof.RenewInIff | calvin/actor/actorport.py:94-100 | A new inport end while the outport end is in place keeps the invariant if and only if all that is tentative is still on its way, none of it aborted. |
| TransportProof.MigrationKeeps | calvin/runtime/north/actormanager.py:294-330 | Serializing either end and rebuilding it elsewhere changes nothing that is stored. |
| TransportProof.StepKeeps | calvin/runtime/south/endpoint.py:75-340 | Every event keeps the invariant. |
| TransportProof.ReachableInv | calvin/runtime/south/endpoint.py:75-340 | The invariant holds in every reachable state. |
| TransportTheorems.StreamIsWhole | calvin/runtime/south/endpoint.py:75-212 | In every reachable state consumed tokens ++ inport FIFO ++ outport FIFO beyond it is the whole written stream, and sender read_pos <= receiver write_pos <= sender write_pos. |
| TransportTheorems.ConsumedOnlyGrows | calvin/runtime/south/endpoint.py:75-340 | Along every run what was consumed, and what was written, is only ever extended. |
| TransportTheorems.AcksComeInOrder | calvin/runtime/south/endpoint.py:273-285 | Every ACK that reaches an attached sender carries exactly read_pos, advances it by one and empties the list. |
| TransportTheorems.GuardsHold | calvin/runtime/south/endpoint.py:194-343 | In every reachable state an outport end attached to a tunnel can talk, an attached inport can be consumed from, a reply or a token in flight can be taken once no OK is ahead of it, an OK in flight is at the head of its link, and disconnecting is possible. Nothing is said of accepting, connecting locally, renewing, writing and migrating. |
| TransportTheorems.OkComesFirst | calvin/runtime/north/portmanager.py:131-190 | While the OK for an inport is on its way, nothing of the new connection has been delivered or answered, and what the outport has sent is exactly the stretch from its committed position on. |
| TransportTheorems.OvertakenOkIsDeadEnd | calvin/runtime/north/portmanager.py:89-103 | A token in flight to a detached inport with no OK ahead of it is answered with ABORT, and the connection, completed then and with nothing in flight, never sends it again. |
| Renewals.CrossingIsNothing | calvin/runtime/north/portmanager.py:445-467 | When both nodes have asked, the second OK finds an outport end that equals the one it brings. |
| Renewals.StuckForever | calvin/runtime/south/endpoint.py:263-340 | If a token counts as sent and no message about it is in flight, then whatever happens, new ends over those in place included, its position stays where it is until the outport disconnects or the ports meet on one node. |
| Renewals.LostOkSticks | calvin/runtime/north/portmanager.py:89-103 | An OK that arrives where the port has left, with a token behind it, leads to such a state. |
| Renewals.QuietRenewal | calvin/actor/actorport.py:94-100 | With nothing in flight, a new inport end is sound if and only if nothing is tentative; otherwise the token at the committed position is lost for good. |
| Renewals.DrainTakesCopies | calvin/runtime/south/endpoint.py:281-283 | The loop over acknowledged numbers takes one step for each copy of the committed one. |
| Renewals.AckMovesOneIff | calvin/runtime/south/endpoint.py:273-285 | An ACK of the committed position moves it by exactly one if and only if the number is not listed already or nothing else was sent. |
| TransportTheorems.QuietMeansReady | calvin/runtime/south/endpoint.py:323-340 | With both directions empty tentative and committed positions agree, and a send is possible as soon as there is a token. |
| TransportTheorems.Round | calvin/runtime/south/endpoint.py:263-340 | One round over a quiet tunnel gets at least one more token acknowledged. |
| TransportTheorems.NoDeadEnds | calvin/runtime/south/endpoint.py:194-340 | From every reachable state with both ends attached, or one attached and the OK for the other on its way, there is a run that brings the consumer up to the last token written. |
| TransportTheorems.LocalSeesAll | calvin/runtime/south/endpoint.py:139-150 | Through a local connection one consumption brings the consumer up to date. |
| Inports.AvailableIsReady | calvin/actor/actorport.py:131-133 | What an inport reports as available is what lies between its consumed position and what it can see, over a tunnel or locally. |
| Inports.PeekedTokens | calvin/actor/actorport.py:115-133 | k peeks hand out the next k tokens; a rewind then leaves no trace, a commit consumes exactly k. |
| Firing.SettlingEnd | calvin/actor/actor.py:152-175 | Rewinding all declared inports restores every inport exactly; committing consumes what was declared from each and nothing from others. |
| Firing.FiringCounts | calvin/actor/actor.py:165-169 | The consumed and written positions move, in total, by the declared numbers of tokens. |
| Firing.FiringUsesUp | calvin/actor/actor.py:521-559 | Tokens left to read plus slots left to write fall by exactly the tokens a firing moves. |
| Firing.AfterIsFiredAs | calvin/actor/actor.py:152-169 | The streams after a firing are those, and only those, where each declared port has given its number of tokens or gained the values returned for it and nothing else has moved. |
| Firing.HonoursIff | calvin/actor/actor.py:141-147 | A production is valid if and only if each declared outport can gain from it exactly the number of tokens it declares. |
| Firing.LimitsStay | calvin/actor/actor.py:521-559 | A firing leaves alone how far inports can see and how much outports can be given in all, so one set of bounds decides every attempt of a fire(). |
| Firing.CanIsMay | calvin/actor/actor.py:104-112 | The wrapper lets an action run exactly when the streams are within those bounds by what it declares. |
| Firing.AttemptCounts | calvin/actor/actor.py:245-256 | Streams only move forward, by what the result of the attempt says. |
| SharedPeers.SkipOwn | calvin/runtime/south/endpoint.py:75-82 | Skipping duplicates in a shared FIFO is, for its own reader, what it would be in a FIFO of its own, and moves no other reader. |
| SharedPeers.AvailableOwn | calvin/runtime/south/endpoint.py:139-150 | So is asking for available tokens. |
| SharedPeers.PeekOwn | calvin/runtime/south/endpoint.py:110-121 | So is a peek. |
| SharedPeers.SettleOwn | calvin/runtime/south/endpoint.py:123-137 | So are a rewind and a commit. |
| SharedPeers.SharedStep | calvin/actor/actorport.py:119-133 | An operation on one inport changes what that inport sees and nothing that another inport sees, of the same FIFO or another, and the FIFO keeps its stream for all readers. |
| ActorFiring.Actor.AvailableAt | calvin/actor/actorport.py:131-133 | available_tokens on one inport, in place on the shared FIFO. |
| ActorFiring.Actor.PeekAt | calvin/actor/actorport.py:119-121 | peek_token on one inport, in place on the shared FIFO. |
| ActorFiring.Actor.SettleAt | calvin/actor/actorport.py:123-129 | commit_peek_as_read or peek_rewind on one inport, in place on the shared FIFO. |
| ActorFiring.Actor.CheckInputs | calvin/actor/actor.py:104-106 | Asks every declared inport; true exactly when each has enough tokens. |
| ActorFiring.Actor.CheckOutputs | calvin/actor/actor.py:110-112 | True exactly when each declared outport has enough free slots. |
| ActorFiring.Actor.PeekInputs | calvin/actor/actor.py:120-131 | The arguments are exactly the next tokens of each declared inport. |
| ActorFiring.Actor.SettleInputs | calvin/actor/actor.py:152-175 | Commits, or rewinds, exactly the declared inports. |
| ActorFiring.Actor.WriteOutputs | calvin/actor/actor.py:161-164 | Every result is written and no FIFO is ever full: for a declared outport the stream gains the returned token, the returned tokens in order when it takes more than one, or one list-valued token; an undeclared one gains nothing. |
| ActorFiring.Actor.Attempt | calvin/actor/actor.py:100-179 | Fires if and only if the tokens and the room are there and the guarded action agrees; then each declared port has given its tokens or gained what was returned for it, and no other has moved; otherwise every position is as before; an invalid production raises after the rewind. |
| ActorFiring.Actor.TryAll | calvin/actor/actor.py:529-559 | One pass over the actions in order: the action that fires has its tokens and its room and returned what is now in the streams, and each one before it lacks them or had its attempt refused; when none fires that holds of all. |
| ActorFiring.Actor.Fire | calvin/actor/actor.py:521-559 | Terminates; what it did is a sequence of such passes, each from where the one before left the streams, and a last one in which every action is idle; its totals are the movement of the streams. |
| PortStates.StepKeepsSound | calvin/actor/actorport.py:94-212 | Each attach, detach and disconnect keeps: ENABLED only with all ports connected; peers of an outport distinct and registered. |
| PortStates.EnabledOnlyConnected | calvin/actor/actor.py:473-518 | Along every run an actor is ENABLED only while every port is connected. |
| PortStates.EnabledHasAllReaders | calvin/actor/actorport.py:166-193 | With fanout the number of peers, an ENABLED actor has all of them registered as readers. |
| PortStates.DisconnectedReadyIff | calvin/actor/actor.py:498-518 | From ENABLED or PENDING, any non-empty list of disconnects, of connected ports or not, ends READY if and only if no port is connected before the last of them, and PENDING otherwise. |
| PortStates.NoneLeftIff | calvin/actor/actorport.py:109-113 | After disconnects no port is connected if and only if each one connected before was among them. |
| PortStates.DisconnectedReadyIfGone | calvin/runtime/north/portmanager.py:555-557 | So it ends READY if and only if every port connected at the start goes before the last disconnect; an outport that is to have no peers always counts as connected. |
| PortStates.DisconnectedIsPending | calvin/actor/actor.py:498-518 | Ports disconnected once each, the last of them connected to begin with, as when all are: the actor is left PENDING. |
| PortStates.OrderDecides | calvin/runtime/north/portmanager.py:555-557 | One port connected and one not: READY or PENDING depends on which goes last. |
| PortStates.SiblingsAttachAgain | calvin/runtime/north/portmanager.py:665-690 | After a disconnect request for an outport, whatever happens at the ports, the actor is ENABLED again only if every one of its peers has been attached again. |
| PortStates.SiblingsAttachedIff | calvin/runtime/north/portmanager.py:665-690 | With all other ports connected, attaches make it ENABLED again if and only if every one of the peers is among them. |
| PortStates.AttachEnablesIff | calvin/actor/actor.py:473-493 | An attach leaves the actor ENABLED if and only if all ports are connected then. |
| PortStates.AttachedEnabledIff | calvin/actor/actor.py:473-493 | Along every list of attaches the actor is ENABLED if and only if all ports are connected. |
| PortStates.CanBeEnabled | calvin/actor/actor.py:473-493 | From every sound state of an actor with a port some list of attaches makes it ENABLED. |
| PortHistory.HasIff | calvin/actor/actorport.py:94-212 | After any attaches, detaches and disconnects an endpoint is there if and only if it was there or was attached, and has not been dropped since. |
| PortHistory.RegisteredIff | calvin/actor/actorport.py:166-193 | The readers of an outport are those it had and those ever attached. |
| PortHistory.EnabledStands | calvin/actor/actor.py:473-518 | Along every run an actor is ENABLED only while, by the events so far, each inport has a peer and each outport as many as it is to have. |
| PortHistory.AttachStatus | calvin/actor/actor.py:473-493 | The status after an attach: ENABLED if every port is connected then, otherwise PENDING. |
| PortHistory.DropStatus | calvin/actor/actor.py:498-518 | The status after a detach or disconnect: READY if nothing was connected even before, PENDING for an actor that was ENABLED, no change otherwise; a detach of what is not attached does nothing. |
| PortStates.DisconnectedIsGone | calvin/actor/actorport.py:109-113 | In the end none of the ports disconnected on the way is connected. |
| Readiness.StepKeeps | calvin/actor/actorport.py:180-212 | Every event of the actor and the stream together keeps the list of endpoints, the fanout and the readers in step with the ends the transport knows. |
| Readiness.EnabledMeansRegistered | calvin/actor/actor.py:473-518 | When the actor writes only ENABLED and with room: an ENABLED actor has every inport of the outport registered and may write as soon as there is room, and the stream goes through a run of the transport. |
| Readiness.ActorIsRun | calvin/actor/actor.py:473-518 | Between migrations the actor part of a joint run is what the events at its ports make of it, as the stream part is a run of the transport. |
| ActorPorts.Actor.DidConnect | calvin/actor/actor.py:473-496 | Loops over the ports; ENABLED exactly when all are connected. |
| ActorPorts.Actor.DidDisconnect | calvin/actor/actor.py:498-518 | Loops over the ports; READY exactly when none is connected. |
| ActorPorts.Actor.AttachIn | calvin/actor/actorport.py:94-100 | An old endpoint is detached first, then the status is brought up to date. |
| ActorPorts.Actor.DetachIn | calvin/actor/actorport.py:102-107 | Only the endpoint in place is detached; the status is updated before it goes. |
| ActorPorts.Actor.DisconnectIn | calvin/actor/actorport.py:109-113 | The endpoint goes whatever it was. |
| ActorPorts.Actor.AttachOut | calvin/actor/actorport.py:180-193 | A reconnecting peer replaces its endpoint; a new one is added and registered. |
| ActorPorts.Actor.DetachOut | calvin/actor/actorport.py:195-200 | Only an endpoint of the port is detached. |
| ActorPorts.Actor.DisconnectOut | calvin/actor/actorport.py:202-212 | All endpoints go at once. |
| WiringMeaning.WiringIsMeaning | calvin/csparser/analyzer.py:167-244 | For every accepted program two leaf ports are wired if and only if the nested program has a path of links between them through component boundaries. |
| WiringOnce.FedOnce | calvin/csparser/checker.py:141-203 | Every leaf inport is reached once, by a connection or by an inport of the program itself. |
| WiringOnce.InportsFedOnceIff | calvin/csparser/checker.py:141-203 | Every leaf inport of an accepted program occurs exactly once among the connections, if and only if no link of the program starts at a port of its own. |
| WiringOnce.LostInport | calvin/csparser/analyzer.py:179-190 | A program the checker accepts whose one link makes no connection. |
| PortNames.SameNameBothSides | calvin/csparser/analyzer.py:26-29 | A component port has the same full name seen from the caller and from inside. |
| PortNames.NameInjective | calvin/csparser/analyzer.py:26-29 | A full port name determines its port, since identifiers contain neither separator. |
| Literals.LiteralNameInjective | calvin/csparser/analyzer.py:140-141 | Constants made for literals have distinct names. |
| Literals.ExpandedOnce | calvin/csparser/analyzer.py:128-152 | Expanding literals a second time, for another instance, changes nothing. |
| Literals.ElabAccepted | calvin/csparser/checker.py:282-337 | A script the checker accepts with literals is acceptable with its literals expanded. |
| PortTables.GroupedFan | calvin/csparser/analyzer.py:122-126 | Connecting a source to a list of ports at once is connecting it to each in turn. |
| PortTables.ExportsInNext | calvin/csparser/analyzer.py:183-187 | A link from a component inport adds the leaf inports behind its target to what is exported for that port. |
| PortTables.ExportsOutNext | calvin/csparser/analyzer.py:188-190 | A link into a component outport exports the leaf outport behind its source. |
| PortTables.InMapsNext | calvin/csparser/analyzer.py:229-234 | The mappings exported by a component join those of its siblings without disturbing them. |
| PortTables.InLookup | calvin/csparser/analyzer.py:174-176 | The mapping lookup gives the leaf inports behind a port of an actor or component, by their full names. |
| PortTables.OutLookup | calvin/csparser/analyzer.py:174-177 | The mapping lookup gives the leaf outport behind a port of an actor or component, by its full name. |
| Analyzer.AcceptedIsLexed | calvin/csparser/checker.py:282-337 | What the analyzer needs of names holds for every accepted script. |
| Analyzer.Analyzer.constructor | calvin/csparser/analyzer.py:58-85 | Analyzing a script leaves exactly the wiring of the expanded program in the connections table, under full names and in the order made. |
| Analyzer.Analyzer.AddConnection | calvin/csparser/analyzer.py:122-126 | Appends to the list of a source, creating it if need be. |
| Analyzer.Analyzer.ExpandLiterals | calvin/csparser/analyzer.py:128-152 | Loop that replaces each literal by a constant actor of its own, counted from 1. |
| Analyzer.Analyzer.CreateConnection | calvin/csparser/analyzer.py:167-192 | Connects, or exports an inport or an outport mapping, the ports of components resolved. |
| Analyzer.Analyzer.AnalyzeStructure | calvin/csparser/analyzer.py:194-244 | Recursion over nested components: adds exactly the wires of the structure and exports exactly what lies behind its own ports. |
| Analyzer.Analyzer.AnalyzeActors | calvin/csparser/analyzer.py:204-234 | Loop over the actors: the wires of all components, and the mappings they export. |
| Analyzer.Analyzer.ConnectAll | calvin/csparser/analyzer.py:236-244 | Loop over the links: the wires of the structure itself, and its exports. |
| FlatProgram.FlatteningPreservesMeaning | calvin/csparser/analyzer.py:167-244 | In the connections table of an accepted script leaf port x is listed as feeding y exactly when the nested script has a path of links from x to y. |
| FlatProgram.OnlyLeafPorts | calvin/csparser/analyzer.py:167-244 | Every entry of the connections table names two leaf ports, one of which feeds the other. |
| FlatProgram.InportsListedOnceIff | calvin/csparser/checker.py:141-203 | Every leaf inport is listed at exactly one place in the table, if and only if no link of the script itself starts at a port `.p`. |
| Arguments.ResolveArguments | calvin/csparser/analyzer.py:154-165 | Loop over the arguments: their values, or an exception if some name has none. |
| Arguments.GivenIsMeant | calvin/csparser/analyzer.py:206-232 | What a leaf actor, or the constant made for a port literal, is given at any depth is what its arguments mean, looked up through the enclosing instances from the inside out and then among the constants. |
| Arguments.MeantIsGiven | calvin/csparser/analyzer.py:204-240 | Conversely every leaf actor at any depth, those made for literals included, is given these values. |
| Arguments.GivenCount | calvin/csparser/analyzer.py:204-240 | There are as many entries as leaf actors: none is given its arguments twice. |
| Arguments.AcceptedIsGivenIff | calvin/csparser/checker.py:246-279 | In a script the checker accepts every argument of every leaf actor has a value if and only if every name used as a port literal is a parameter or a constant. |
| Arguments.UnknownLiteralPasses | calvin/csparser/checker.py:304-337 | A script with an unknown name as a port literal that the checker accepts and the analyzer cannot analyze. |
| SharedLiterals.Definitions.constructor | calvin/csparser/analyzer.py:46-56 | No definition has been expanded yet. |
| SharedLiterals.Definitions.ExpandLiterals | calvin/csparser/analyzer.py:128-152 | Expands the literals of a definition in place with the arguments at hand, unless they have been expanded before. |
| SharedLiterals.Definitions.AnalyzeStructure | calvin/csparser/analyzer.py:194-234 | Recursion over shared definitions changed in place: does not raise when all arguments have values; when it does not raise, each definition ends with the constants of its first visit, and every instance gets those. |
| SharedLiterals.FirstVisitCounts | calvin/csparser/analyzer.py:128-152 | A definition keeps the values its literals had for the instance visited first. |
| SharedLiterals.SharedIsGivenIff | calvin/csparser/analyzer.py:128-152 | For an accepted script with instances sharing definitions at any depth, the actors and arguments computed in place are those each instance is entitled to if and only if, for every port literal that names a parameter, each instance gives that parameter the value the first instance of the component gave it. |
| SharedLiterals.SecondGetsFirst | calvin/csparser/analyzer.py:128-152 | A component with one port literal naming its parameter, instantiated with two values: the second constant gets the first value. |
| Constants.LookupsAgree | calvin/csparser/checker.py:218-230 | The checker lookup always ends; it finds a value, a missing name or a circle exactly when the unguarded lookup of the analyzer ends with that value, ends at that name, or never ends. |
| Constants.CheckMatches | calvin/csparser/analyzer.py:92-100 | The same, from any point of the search. |
| SetOps.CombineSound | calvin/utilities/dynops.py:147-319 | Consistent fields over good operands: only members of the set expression that were ready were delivered, all members are ready once all lists are final, and all were delivered once the operator has ended. |
| SetOps.IntersectionRound | calvin/utilities/dynops.py:237-250 | After a round, what all operands have delivered is delivered or a candidate, and nothing is lost from drawn. |
| SetOps.Filtered | calvin/utilities/dynops.py:295-305 | With all that is subtracted known, a Difference delivers exactly the elements of its first operand that are not subtracted and not delivered. |
| SetOps.Drained | calvin/utilities/dynops.py:306-314 | While subtracted operands are being collected, nothing of the first operand is touched. |
| SetOps.GrownAbove | calvin/utilities/dynops.py:604-631 | Growing or finishing a list below an operator keeps what the operator knows, delivered and relies on. |
| DynOps.Iter.Union | calvin/utilities/dynops.py:133-145 | A new Union is consistent and has delivered nothing. |
| DynOps.Iter.Intersection | calvin/utilities/dynops.py:188-203 | A new Intersection is consistent and has delivered nothing. |
| DynOps.Iter.Difference | calvin/utilities/dynops.py:276-288 | A new Difference is consistent and has delivered nothing. |
| DynOps.Iter.List | calvin/utilities/dynops.py:597-602 | A new List holds the given elements and is open. |
| DynOps.Iter.Append | calvin/utilities/dynops.py:604-614 | Adds the element unless the list is final. |
| DynOps.Iter.Extend | calvin/utilities/dynops.py:616-626 | Adds the elements unless the list is final. |
| DynOps.Iter.Final | calvin/utilities/dynops.py:628-631 | The list is final. |
| DynOps.Iter.Next | calvin/utilities/dynops.py:105-117 | A new member of the set, or Pause only while some list is open and with all that is ready delivered, or Stop only when all was delivered; the set expression and all lists are untouched; after the end always Stop. |
| DynOps.Iter.ReadyIsAll | calvin/utilities/dynops.py:147-319 | If whatever is subtracted in the tree comes from final lists, all members are ready, so the tree pauses only with nothing left to deliver. |
| DynOps.Iter.NextList | calvin/utilities/dynops.py:640-655 | The next element, or Pause while open, or Stop. |
| DynOps.Iter.NextUnion | calvin/utilities/dynops.py:147-170 | The same for a Union of any operands. |
| DynOps.Iter.NextIntersection | calvin/utilities/dynops.py:205-257 | The same for an Intersection of any operands, whichever candidate is popped. |
| DynOps.Iter.NextDifference | calvin/utilities/dynops.py:290-319 | The same for a Difference of any operands. |
| DynOps.Iter.GrowthIsHarmless | calvin/utilities/dynops.py:604-631 | Any growth of the lists below keeps an operator consistent, what it delivered, and its end. |
| OpRuns.TellsNext | calvin/utilities/dynops.py:105-117 | Adding an answer to a run keeps: no repeats, delivered set as told, Stop for good. |
| OpRuns.Drive | calvin/utilities/dynops.py:54-99 | Any interleaving of growth and calls on any tree: one answer per call, each list takes what it is given until it is final; no repeats, only members of the final set, Stop only with everything delivered and for good, Pause only with everything ready delivered and never on a tree with all lists final. |
| OpRuns.ReadAll | calvin/utilities/dynops.py:105-117 | Asking a tree with all lists final until Stop terminates with the whole set, each member once. |
| Requirements.ActorRequirements | calvin/runtime/north/appmanager.py:370-407 | The tree built for the requirements of an actor stands for the nodes that meet every positive and no negative requirement. |
| CollectOp.Pass | calvin/utilities/dynops.py:560-579 | Loop that walks the list of iterators while removing ended ones from it: what it comes to, and that all iterators but those asked and ended are left, in their order. |
| CollectOp.YieldsIff | calvin/utilities/dynops.py:566-579 | Whatever pauses and ends, a pass yields an element if and only if it is the answer of an iterator that is asked: behind one that pauses the next, behind one that ends the next but one. |
| CollectOp.AllPauseIff | calvin/utilities/dynops.py:566-579 | Where nothing ends, a pass pauses if and only if every iterator pauses, and otherwise yields the answer of the first that does not. |
| CollectOp.PausesIff | calvin/utilities/dynops.py:566-579 | With nothing awaited, a pass still pauses if and only if every other iterator, from the first on, has ended. |
| CollectOp.PauseDrops | calvin/utilities/dynops.py:566-579 | Such a pause drops half of the iterators, rounded up, so repeated calls get past it. |
| CollectOp.PausesOverReady | calvin/utilities/dynops.py:566-579 | A pass that pauses although the second iterator has an element ready. |
| Handshake.StepKeeps | calvin/runtime/north/calvin_proto.py:330-428 | Each request and each delivery keeps, for every tunnel type, the stage the setup is in. |
| Handshake.ReachableInv | calvin/runtime/north/calvin_proto.py:330-428 | Every reachable state of two nodes and their link is in one of those stages, for every tunnel type. |
| Handshake.BothEndsAgree | calvin/runtime/north/calvin_proto.py:381-428 | Whoever asked: with nothing under way both ends have one tunnel of the type, working, under the same id, the larger if both asked. |
| Handshake.NoRequestDropped | calvin/runtime/north/calvin_proto.py:409-412 | No request ever finds a working tunnel, so none is dropped without an answer. |
| Handshake.DeliveriesEnd | calvin/runtime/north/calvin_proto.py:381-428 | Every delivery, in either direction, brings the link closer to being empty. |
| Handshake.SetupsComplete | calvin/runtime/north/calvin_proto.py:330-428 | From every reachable state deliveries alone end with both ends of every tunnel asked for working under the agreed id. |
| Handshake.OvertakenRequestIsDropped | calvin/runtime/north/calvin_proto.py:409-412 | If a reply could overtake a request, that request would be dropped unanswered. |
| TunnelProto.Node.GetTunnel | calvin/runtime/north/calvin_proto.py:356-360 | Finds the tunnel of a type, if there is one. |
| TunnelProto.Node.UpdateId | calvin/runtime/north/calvin_proto.py:72-81 | The tunnel is stored under its new id and no longer under the old. |
| TunnelProto.Node.SetupAck | calvin/runtime/north/calvin_proto.py:83-94 | The tunnel takes the id in the reply and is working. |
| TunnelProto.Node.TunnelNew | calvin/runtime/north/calvin_proto.py:346-354 | Returns the existing tunnel, or stores a pending one and asks. |
| TunnelProto.Node.TunnelNewHandler | calvin/runtime/north/calvin_proto.py:381-428 | A pending tunnel takes the larger id and works; without one, a working tunnel is made; both are answered. |
| StorageSets.StepKeeps | calvin/runtime/north/storage.py:326-404 | With one round outstanding per key, every operation, effect at the backend and answer keeps backend and cache together equal to the intended set. |
| StorageSets.CacheAgrees | calvin/runtime/north/storage.py:326-404 | Through failures, retries and offline periods (backend minus removals) plus additions is the set asked for, and the two are disjoint. |
| StorageSets.ConcatIsIntended | calvin/runtime/north/storage.py:252-283 | A read whose local part and backend answer are of one instant omits nothing intended, and has too much only of what is still to be removed. |
| StorageSets.NothingFoundIff | calvin/runtime/north/storage.py:252-259 | Nothing found is reported exactly when neither the backend nor the cached additions have anything. |
| StorageSets.DelayedGetIsIntended | calvin/runtime/north/storage.py:252-283 | With the local part taken at the call, the backend answering after some events and the answer handed on after more, a read lacks only what was appended meanwhile, and has too much only of what was removed meanwhile or was still to be removed. |
| StorageSets.FailedConcatIff | calvin/runtime/north/storage.py:252-283 | A read that did not reach it is complete if and only if nothing wanted was only there. |
| StorageSets.FailedGetMisses | calvin/runtime/north/storage.py:252-283 | With one item stored and one still to be added, a failed read shows only the second. |
| StorageSets.FlushSettles | calvin/runtime/north/storage.py:71-103 | A flush answered in full, in either order, leaves no entry and the backend as intended. |
| StorageSets.CanSettle | calvin/runtime/north/storage.py:71-103 | From every state the backend can be brought to hold exactly the intended set: what is under way is answered, one flush sends the rest, and that is answered. |
| StorageSets.OnlineSettles | calvin/runtime/north/storage.py:326-404 | Once started and up to date, an append or a remove needs no flush. |
| StorageSets.OfflineSendsNothing | calvin/runtime/north/storage.py:345-404 | After a stop nothing is sent until the next start or flush, and the backend stays as it is. |
| StorageSets.AckSafeIff | calvin/runtime/north/storage.py:326-383 | Whatever is outstanding, treating an answer as the answer to all that is pending keeps backend and cache in agreement if and only if all of that has taken effect. |
| StorageSets.TwoRoundsLose | calvin/runtime/north/storage.py:326-343 | With two appends outstanding an item can be lost from both places. |
| SetCache.Storage.Append | calvin/runtime/north/storage.py:345-364 | The entry of this key alone changes; the whole of what is to be added is sent if started. |
| SetCache.Storage.Remove | calvin/runtime/north/storage.py:385-404 | The entry of this key alone changes; the whole of what is to be removed is sent if started. |
| SetCache.Storage.AppendCb | calvin/runtime/north/storage.py:326-343 | A confirmed append clears the additions, or the entry if nothing is to be removed; a failed one changes nothing. |
| SetCache.Storage.RemoveCb | calvin/runtime/north/storage.py:366-383 | A confirmed remove clears the removals, or the entry if nothing is to be added; a failed one changes nothing. |
| SetCache.Storage.Flush | calvin/runtime/north/storage.py:71-103 | Sends for every key exactly its pending additions and removals, each once. |
| SetCache.Storage.GetConcat | calvin/runtime/north/storage.py:252-283 | Joins the answer of the backend with what is to be added. |
| MeterLog.ForgetSpares | calvin/runtime/north/metering.py:113-124 | Forgetting keeps all that a user in touch within the timeout has not seen. |
| MeterLog.StepConserves | calvin/runtime/north/metering.py:61-124 | At every event of any user, told and yet to be told firings add up for a user in touch. |
| MeterLog.RunConserves | calvin/runtime/north/metering.py:61-124 | The same along every run. |
| MeterLog.KnownHasLog | calvin/runtime/north/metering.py:145-151 | An actor made known has a log, the one it had or an empty one; nothing else changes. |
| MeterLog.LoggedIff | calvin/runtime/north/metering.py:61-151 | After any events an actor has a log if and only if it was made known and someone was left whenever a user left since. |
| MeterLog.FiringRaisesIff | calvin/runtime/north/metering.py:61-76 | After any events a firing raises if and only if somebody meters and the actor has not been made known since there last was nobody. |
| MeterLog.OnlyWrongRaises | calvin/runtime/north/metering.py:61-124 | If every actor that fires was made known before, no firing raises while a user is attended to, and of the calls exactly those that name the wrong user. |
| MeterLog.UserIff | calvin/runtime/north/metering.py:78-93 | After any events, some of them raising, the users are those who registered and did not unregister since. |
| MeterLog.CallRaisesIff | calvin/runtime/north/metering.py:78-104 | After any events registering raises exactly for a user, unregistering and polling exactly for anyone else. |
| MeterLog.EachFiringOnce | calvin/runtime/north/metering.py:78-104 | From registration to the last poll the responses put together are, per actor, the firing trace: each exactly once and in order, whatever other users do, if every actor that fires was made known before. |
| MeterLog.RegisteredGetsAll | calvin/runtime/north/metering.py:78-104 | The same from any start and for a user registering at any time, with conditions on the events alone. |
| MeterLog.ForgetBounds | calvin/runtime/north/metering.py:113-124 | A forget leaves nothing older than the timeout and nothing that every user has been told. |
| MeterLog.FiringForgets | calvin/runtime/north/metering.py:71-76 | At a firing what is out of the timeout goes, unless something was forgotten within the last second; at most one forget a second. |
| MeterLog.LastLeavingBreaks | calvin/runtime/north/metering.py:87-93 | After the last user leaves and another registers, every firing raises. |
| MeterLog.ForgetLosesIff | calvin/runtime/north/metering.py:113-124 | A forget takes nothing a user has not seen, if and only if all of that is later than the cut. |
| MeterLog.LateUserLoses | calvin/runtime/north/metering.py:113-124 | A user out of touch beyond the timeout loses firings to the poll of another user. |
| Metering.Metering.Forget | calvin/runtime/north/metering.py:113-124 | Drops entries up to the least access time, no further back than the timeout; everything without users. |
| Metering.Metering.LeastAccess | calvin/runtime/north/metering.py:119 | Computes the least access time. |
| Metering.Metering.Fired | calvin/runtime/north/metering.py:71-76 | Appends to the log of the actor and forgets at most once a second. |
| Metering.Metering.Register | calvin/runtime/north/metering.py:78-85 | A new user starts now; a known one is refused. |
| Metering.Metering.Unregister | calvin/runtime/north/metering.py:87-93 | The user goes and the log is trimmed; an unknown one is refused. |
| Metering.Metering.GetTimedMeter | calvin/runtime/north/metering.py:95-104 | Returns the entries after the last access of the user and moves that access to now. |
| Metering.Metering.AddActorInfo | calvin/runtime/north/metering.py:145-150 | An actor gets a log unless it has one. |
| IndexCodec.UnescapeEscape | calvin/utilities/attribute_resolver.py:175-178 | Unescaping an escaped level gives it back, whatever backslashes and slashes it has. |
| IndexCodec.SplitsIntoLevels | calvin/utilities/attribute_resolver.py:188 | The two-character lookbehind splits an index into its levels if and only if no slash in them is exposed, and otherwise into more pieces. |
| IndexCodec.IndexRoundTripIff | calvin/utilities/attribute_resolver.py:168-197 | Decoding an encoded index gives it back if and only if it has a level, none is empty, the first does not start with a slash and no slash follows a backslash. |
| IndexCodec.LeadingSlashSplits | calvin/utilities/attribute_resolver.py:183-197 | An index whose only level starts with a slash is decoded to two levels. |
| IndexCodec.DecodeRaisesIff | calvin/utilities/attribute_resolver.py:184-187 | Decoding raises exactly for what does not start like the index of a node attribute, and ignores the character behind that start. |
| IndexCodec.EncodeIndex | calvin/utilities/attribute_resolver.py:168-181 | Loop over the levels that builds the index string. |
| IndexCodec.DecodeIndex | calvin/utilities/attribute_resolver.py:183-197 | Loop over the pieces that builds the list of levels, or an exception for another string. |
| Disconnects.StepKeeps | calvin/runtime/north/portmanager.py:559-663 | Each port started and each peer answer keeps: a port is pending until it is settled, one callback at most. |
| Disconnects.CalledOnce | calvin/runtime/north/portmanager.py:501-663 | For every order and outcome of answers the callback runs by the first failure or after the last answer, exactly once, and reports success if and only if every port and peer succeeded. |
| Disconnects.NoPortsNoCall | calvin/runtime/north/portmanager.py:527-557 | For an actor without ports the callback never runs. |
| Disconnects.AnswerRaisesIff | calvin/runtime/north/portmanager.py:626-637 | Whatever has happened, an answer raises if and only if it reports a failure and something has failed before for the same port. |
| Disconnects.SecondFailureRaises | calvin/runtime/north/portmanager.py:626-637 | Two failing peers of one outport: the second answer raises. |
| PortManager.Manager.DisconnectPort | calvin/runtime/north/portmanager.py:599-624 | A port with remote peers waits for them; one without, or one that failed locally, is reported at once. |
| PortManager.Manager.DisconnectedPort | calvin/runtime/north/portmanager.py:626-643 | The peer is off the list; the port is reported by the first failure or after the last peer. |
| PortManager.Manager.DisconnectingActorCb | calvin/runtime/north/portmanager.py:645-663 | The first failure is reported at once and empties the list; otherwise the last port reports success. |

## Left out

- Component definitions are trees in the flattening theorems: each instance has its own copy of the definition. `SharedLiterals` says what sharing them does to port literals; it makes no other difference. Actors are visited in one order, where the source takes the arbitrary order of a dictionary. A component from the actor store is read anew for each instance and counts as a definition of its own.
- Connections and arguments are analyzed apart; the actor table with types and signatures is not modelled.
- Analyzer.Analyzer.CreateConnection: a single resolved port and a list of them are both lists here, because the source treats them alike wherever it uses them.
- The parser, the lexer and the actor store: scripts start as parsed, with the port lists of leaf actors given; identifiers are what the lexer lets through.
- Unused-argument and unknown-type reports of the checker, and its warnings.
- ActorFiring.Actor.Attempt: inports are values, and the FIFOs of local peers values in a table; a connection from an actor to itself is outside, because its outport would be in that table too, as is an action that names a port twice or zero tokens.
- ActorFiring.Actor.Fire: authorization counts as granted; metering and logging of firings are not part of it.
- ActorPorts.Actor.AttachIn: the ports are fields of their actor, not objects; hooks on starting and stopping, invalid transitions that are only logged, and set_port_property on an enabled actor are not modelled.
- Transport has one outport; its disconnect is one event for all its ends. That the other peers are then connected again is up to the environment. The outport migrates only while no inport is connected to it locally.
- New ends over ends in place where the condition fails (`RenewOutIff`, `RenewInIff`, `LocalOverIff`) are no events of Transport; `Renewals` and `Streams` say what they lead to. The connection request itself, its retries and its refusals are not part of the model.
- Reconnecting a detached outport over a tunnel before the link is drained, loss on a link while both ends are attached, and reordering: excluded by the environment described above.
- Back-off times and the tokens-per-time estimate: `mayNow` decides freely.
- DynOps.Iter.NextList: max_length and auto_final, which only the output of Map uses; raising the limit after a Stop would bring more elements.
- DynOps.Iter.Next: Infinite sets, Map and Chain, whose results depend on user functions or on a test against a class object; the callbacks that announce growth. Operands must form a tree and be fresh when combined.
- CollectOp.Pass: one pass for given answers; the random order is any order.
- Requirements.ActorRequirements: at least one positive requirement, since an Intersection of nothing is infinite; requirements that fail to load, and the placement chosen from the result.
- Handshake.BothEndsAgree: handlers accept; a refused tunnel stays in the table as terminated at the side that asked. Tunnels made before there is a link, and tunnel destruction.
- StorageSets.CacheAgrees: one key at a time, which is all an operation touches; the timers that trigger a flush are events.
- Storage of single values, indexes and objects, and the proxy to another storage.
- Metering.Metering.Fired: aggregated metering and meta information of actors.
- IndexCodec.EncodeIndex: the list form of an index, and the resolvers that build the levels.
- Disconnects.CalledOnce: a callback is always given; peers are distinct; every port of the actor is on its node, so the "not local" report of portmanager.py:569-576 does not occur. Connecting all ports of an actor collects its answers the same way (actormanager.py:351-389) and is not repeated.
- Scheduling, deployment by weight, security, certificates, control API, networking and storage plugins.
