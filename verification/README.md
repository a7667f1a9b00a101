# ΦNET, modelled and proved

This project models the parts of ΦNET whose correctness is hardest to see from the code, in Dafny 4.11, and
proves what they are for. `dafny verify dfyconfig.toml` checks everything.

What is modelled:

* **Circuits** (`Circuit`, `Ntor`, `ExtendCodec`, `CircuitState`, `CircuitMgr`, `ManagerTables`,
  `Introduction`; `Keystream`, `Digests` and `KeyBinding` say what the cryptography is applied to). `CircuitMgr` has the manager and its origin circuits as classes changed in place; each
  method is verified against a function of `CircuitState`, and the theorems are about these functions.
* **The network** (`Network`, `NetworkView`, `NetworkFrame`, `NetworkElsewhere`, `NetworkTables`,
  `NetworkOwn`, `NetworkGrow`, `NetworkRun`, `NetworkCircuits`, `NetworkSplice`, `NetworkRendezvous`,
  `NetworkIds`). Any number of nodes, each
  with its manager, joined by first-in first-out connections of whole cells that all circuits share. A cell
  that arrives goes through the dispatch of `phinet-core/src/node.rs:1794-2367`, which finds its circuit in
  the manager's tables. What this shows of one circuit is a run of `CircuitRun`, a client, its relays and
  what is between them, and of two that are joined at a rendezvous point a run of `Splice`; the theorems
  about those (`CircuitProgress` has the ones about getting built, `RendezvousOrder` and `NearerHop` more
  about joining and being joined) are thereby theorems about every circuit of every network. `Flow`, `ForwardPipe` and `BackwardPipe` hold the theory of cells in flight: what is on a
  link must wear exactly the layers whose counters the hops ahead will use.
* **Directory** (`Directory`, `Merging`, `HonestMajority`, `SharedRandom`, `Contribution`). Signed bytes,
  acceptance, the merging of votes, and the commit-then-reveal protocol over periods.
* **Hidden-service directory ring** (`HsDirRing`), **congestion control** (`Congestion`), **primality and
  certificates** (`NumberTheory`, `Cert`), **guard sample** (`GuardSample`, `PrimaryGuards`), **limiter**
  (`Dos`), **replay cache** (`Replay`), **onion cells** (`Json`, `Onion`).
* `Bytes`, `Text`, `Wrappers`, `Sets`, `Sorting`, `Flatten` are what these share.

Conventions. Cryptography is a parameter: a keystream XORed over a payload, a hash of everything fed to a
running digest (a digest is therefore its history), Diffie-Hellman with the one law that both ends compute
the same secret, authenticated encryption that opens what it sealed. Where a property holds short of a collision, the two
inputs that would have one output are named in it. Clocks, random draws, the order in
which hash tables are walked and the file system's contents are parameters too. Strings are their UTF-8
bytes. Machine integers wrap or saturate where the code's do, as in a release build.

Hypotheses the theorems name. That no hop but the addressee takes a cell for its own (`is_recognized_at` is
a 32-bit check) is the predicate `NoMistake`, asked of each step of a run; that the far end of a rendezvous
recognizes its cells is proved. Of every node a run of the network asks only that it is `Cautious`: ids are
drawn fresh, nobody extends a circuit to itself, and legs are bridged in pairs. Of the circuit a theorem
is about it asks that its own client and relays are `Honest` (the client waits for one extension before it
asks for the next, relays answer when spoken to, only handshakes use the handshake commands) and that nobody
closes it, bridges it or sweeps it out (`Undisturbed`); others may do as they please. Of two circuits being
joined (`HonestPair`) it asks that each end puts on the layer the handshake gave it, once, that neither is
extended, closed, swept out or bridged to a third, and that an end whose direction is lost takes no cell
under the wrong counter for its own.

Where code and documentation part, the model follows the code:

* `PhiCert` is documented as n = 2p with p of one bit less than n (`phinet-core/src/cert.rs:4-13`); in the
  class mu = 4 the code makes n one bit longer (`Cert.GeneratedSize`).
* `bridge_rendezvous` is documented as idempotent (`phinet-core/src/circuit_mgr.rs:884-885`); rebridging a
  paired leg to a third leaves a stale entry (`ManagerTables.RebridgingLeavesAStaleLeg`).
* `destroy` leaves cookies and pending rendezvous of the circuit behind (`ManagerTables.DestroyLeavesDangling`
  says exactly when), and the sweep, which clears references to circuits it evicts, does not find them unless
  a circuit is created over the same leg and becomes idle (`ManagerTables.CookieRun`,
  `ManagerTables.DestroyedCookieStays`).
* A relay circuit's `last_activity` is documented as its most recent cell activity
  (`phinet-core/src/circuit_mgr.rs:320-322`), but cells going back to the client do not count
  (`ManagerTables.SweptWhenQuiet`).
* Origin circuits are looked up by id alone (`phinet-core/src/node.rs:1889-1898`), although ids belong to a
  connection and every manager starts them at the same number. That no id of a connection is the id of
  another origin circuit at either end is therefore a condition of `Cautious`, and two nodes' first circuits
  fail it when one is the other's guard (`NetworkIds.GuardTakes`, `NetworkIds.FirstIdsCollide`).
* The service sends RENDEZVOUS1 first and installs its layer afterwards, for "future" cells
  (`phinet-core/src/node.rs:3091-3113`); a client quicker than that loses its first cell, after which the
  service recognizes none (`RendezvousOrder.InCodeOrder`, `RendezvousOrder.LateInstallLoses`).
* `encrypt_outbound` takes any hop as its target, but with the end-to-end layer on only the last will do
  (`NearerHop.NearerHopLost`).
* The RELAY_EARLY budget counts EXTEND2 only, so a path has up to six hops, one for CREATE and five more.
* `verify` panics on a certificate with n = 0 instead of rejecting it (`Cert.VerifyMeaning`).
* Confirmed guards are documented as ranked in the order of confirmation (`phinet-core/src/guard_sample.rs:40-43`);
  within one second the order of sampling decides (`PrimaryGuards.SameSecondOvertakes`).
* The smoothed RTT is cut to 64 bits of nanoseconds, so it follows constant samples exactly below 2^64 + 7
  (`Congestion.Convergence`).
* An INTRODUCE host name longer than twenty bytes is cut silently (`Introduction.IntroduceRoundTrip`).

## Model

| member | source | states |
|---|---|---|
| NetworkCircuits.NetworkConstruction | phinet-core/src/node.rs:1794-2367 | start from nothing, let careful nodes do whatever they like and one of them start a circuit: whatever goes on around it on the same managers and connections, its client's entry, the entry of each relay under the leg it came in on and the `relay_by_next` entry of each onward leg are found at just the nodes the client asked for, and client hop i and the entry at node i hold the same keys, with counters and digests apart by exactly the cells in flight |
| NetworkCircuits.NetworkCompletion | phinet-core/src/node.rs:1794-2367 | once cells are only delivered, in any order and mixed with those of any other circuits, a circuit's are delivered at most a stated number of times; as soon as none of them is on a connection the circuit has every hop its client asked for, each client hop equals the entry at its node and everything told has been heard |
| NetworkSplice.NetworkSplicedDelivery | phinet-core/src/node.rs:1794-2367 | any two circuits of any network, built and ending at one node, with the service installing its layer, the node bridging and the client completing at any time and in any order, cells of both and of other circuits under way throughout: at every moment every hop is in step, and the managers and connections hold just these two circuits; in each direction, either everything said with the layer on has been heard at the other end, in order and unchanged, but for what is in flight, and both layers are in step, or nothing has been heard; the latter exactly if some cell came to the node before it was bridged or to an end without its layer |
| NetworkSplice.NetworkAllDelivered | phinet-core/src/node.rs:1794-2367 | once no connection of the two has a cell of theirs, everything said at one end has been heard at the other if and only if nothing was lost, and otherwise nothing has |
| NetworkSplice.PairAdvances | phinet-core/src/node.rs:1794-2367 | whatever one event in the network does, two circuits before, while and after they are joined are shown as they were or after one step of theirs |
| NetworkSplice.CrossRoutes | phinet-core/src/circuit_mgr.rs:669-726 | a cell that leaves the last hop is found its partner in `rendezvous_bridges` and goes out on the other circuit with one backward layer; nothing else of either circuit changes |
| NetworkSplice.DropRoutes | phinet-core/src/circuit_mgr.rs:669-726 | a cell that leaves the last hop of a circuit with no bridge in the table is dropped, and nothing else happens |
| NetworkSplice.LosesInIs | phinet-core/src/node.rs:1885-2367 | that an event loses a cell is told from the managers alone: no bridge under the leg for a cell its relay does not keep, or an origin circuit without its layer that recognizes nothing |
| NetworkSplice.InstallStep | phinet-core/src/node.rs:3105-3113 | whenever it comes to it, the service can install its layer: the event is a careful step of the joining |
| NetworkSplice.CompleteStep | phinet-core/src/node.rs:3315-3335 | the same of the client's completion, when the cookie is pending for the circuit and the tag is right |
| NetworkSplice.BridgeStepIs | phinet-core/src/node.rs:2244-2262 | the same of the bridge: both legs are free for it |
| NetworkRendezvous.NetworkInCodeOrder | phinet-core/src/node.rs:1118-1130 | joined in the code's order, whatever else goes on in the network: nothing the service says is lost, and what the client says is lost exactly if the service is given its first cell before it has installed its layer |
| NetworkSplice.ReceivesPlainly | phinet-core/src/circuit_mgr.rs:596-622 | with no handshake pending the client's handler does what `decrypt_inbound` does, and hands on the far end's cells but EXTENDED2s |
| NetworkRun.NetworkRefines | phinet-core/src/node.rs:1794-2367 | a run of the network is, for each circuit in it, a run of that circuit alone |
| NetworkRun.EventAdvances | phinet-core/src/node.rs:1794-2367 | one event in the network leaves a circuit as it was or makes one step of it, tables consistent again |
| NetworkElsewhere.SparedStep | phinet-core/src/node.rs:1794-2367 | no event that is not of the circuit touches its entries in any manager or its cells on any connection: other circuits' CREATE, CREATED, relay, DESTROY and extension, bridges, cookies and sweeps that find it in use |
| NetworkRun.RoutesDown | phinet-core/src/node.rs:1885-1897 | at each node of its path the tables classify the circuit's leg as forward and give its own entry |
| NetworkRun.RoutesUp | phinet-core/src/node.rs:1885-1897 | at each node but the last the onward leg is found in `relay_by_next` and leads back to its own entry |
| NetworkRun.CreateRoutes | phinet-core/src/circuit_mgr.rs:630-658 | CREATE is taken by the node it was sent to, which enters the circuit under the leg it came in on, its predecessor's id, and answers |
| NetworkRun.CreatedRoutesHome | phinet-core/src/circuit_mgr.rs:542-555 | CREATED from the guard is taken by the client's circuit of that id |
| NetworkRun.CreatedRoutesBack | phinet-core/src/circuit_mgr.rs:765-788 | CREATED from a later node is found its relay through `relay_by_next` and goes back as EXTENDED2 on that relay's own leg |
| NetworkRun.BackwardShows | phinet-core/src/circuit_mgr.rs:792-804 | a backward cell is found its relay through `relay_by_next`, gets one layer, and goes on to that relay's predecessor under its id |
| NetworkRun.ReceiveShows | phinet-core/src/circuit_mgr.rs:596-622 | a backward cell from the guard reaches the client's circuit and no other |
| NetworkRun.TakeRoutes | phinet-core/src/circuit_mgr.rs:669-760 | a forward cell is found its relay under the leg it came in on; it is passed on to the onward leg, kept, or makes the relay extend to the node named in the EXTEND2 under the id drawn, entered in both tables |
| NetworkRun.ExtendRoutes | phinet-core/src/circuit_mgr.rs:733-760 | the extension in particular: the path grows by the leg to the node the EXTEND2 names, and CREATE is on the connection to it |
| NetworkRun.StartShows | phinet-core/src/circuit_mgr.rs:523-538 | a fresh id starts a circuit the network then shows |
| NetworkGrow.GrowNext | phinet-core/src/circuit_mgr.rs:733-760 | a fresh onward leg is in the way of nothing the circuit or the managers already have |
| NetworkTables.EventSane | phinet-core/src/node.rs:1794-2367 | careful nodes keep every manager's tables consistent, whatever arrives |
| NetworkTables.DestroyGoesOn | phinet-core/src/node.rs:2351-2367 | DESTROY takes out the circuit and its bridge and is passed to the bridged partner, and to nobody else |
| NetworkIds.EntryReached | phinet-core/src/node.rs:1885-1898 | a relay cell over a leg a circuit came in on moves the counter of the circuit's entry if and only if the node has no circuit of its own under that id |
| NetworkIds.OwnerReached | phinet-core/src/node.rs:1885-1898 | the same of a cell that comes back over an onward leg |
| NetworkIds.OriginTakes | phinet-core/src/node.rs:1897-1898 | otherwise the counters of the node's own circuit move, and nothing else does |
| NetworkIds.GuardTakes | phinet-core/src/node.rs:1815-2104 | for every network: a circuit started, its CREATE and CREATED delivered, is built and in step at both ends whatever ids the guard uses; its first relay cell leaves them in step if and only if none of the guard's own circuits has the same id, and otherwise moves the counters of that one |
| NetworkIds.FirstIdsCollide | phinet-core/src/circuit_mgr.rs:419-437 | every manager starts its ids at the same number: run to the end, a node's first circuit by way of a guard that has started its own first is built and then out of step after one cell |
| Splice.SplicedDelivery | phinet-core/src/circuit_mgr.rs:206-292 | two built circuits taken by themselves, layers put on and bridge made at any point of the run, with keys from an honest handshake: every hop in step, and each direction either delivered in order up to what is in flight with both layers in step, or silent; silent exactly if the run lost a cell to a missing bridge or layer |
| Splice.AllDelivered | phinet-core/src/circuit_mgr.rs:886-893 | once the links of a direction are empty, everything said at one end has been heard at the other if and only if nothing was lost |
| Splice.LosesExactly | phinet-core/src/circuit_mgr.rs:246-292 | one step loses a direction exactly if a cell gets out of an unbridged circuit or comes to an end without a layer; with the layer on, the far end always takes the next cell |
| Splice.LostInRun | phinet-core/src/circuit_mgr.rs:206-292 | over runs the same: what is lost is lost to one of these steps |
| RendezvousOrder.InCodeOrder | phinet-core/src/node.rs:2244-2262 | service sends RENDEZVOUS1 and later installs, node bridges and sends RENDEZVOUS2 before it reads on, client completes before it reads on: then over every run the service's cells are never lost, and the client's exactly if the service is late |
| RendezvousOrder.OrderedStep | phinet-core/src/node.rs:3091-3113 | the order is kept by every step: before each end-to-end cell of the service there is its RENDEZVOUS1 on the one circuit and RENDEZVOUS2 on the other |
| RendezvousOrder.LateInstallLoses | phinet-core/src/node.rs:3091-3113 | the service can be late: a run in the code's order that loses the client's first cell, and with it all the client ever says |
| NearerHop.NearerHopLost | phinet-core/src/circuit_mgr.rs:206-240 | with the layer on, a cell sent by way of hop t leaves exactly the hops up to t in step, and the far end finds the stamped cell under the layers of the hops beyond: as stamped if t is the last |
| Splice.BridgeIsHandler | phinet-core/src/circuit_mgr.rs:669-726 | at the rendezvous point the forward handler peels on one circuit and adds a backward layer on the partner's, and touches nothing else: the joint of the two lines is the handler's own step |
| Splice.NextArrival | phinet-core/src/circuit_mgr.rs:264-292 | the next end-to-end cell to arrive is the next one sent, and the far end's layer recognizes it: proved, not assumed |
| Splice.ChannelDelivers | phinet-core/src/circuit_mgr.rs:206-292 | cells said = heard + beyond the bridge + before it, and the two end-to-end halves differ by exactly those |
| Splice.RunGood | phinet-core/src/circuit_mgr.rs:206-292 | every step of both ends and all relays keeps both directions of the joined circuits consistent |
| CircuitRun.Construction | phinet-core/src/circuit_mgr.rs:523-804 | the same of one circuit, over every honest run of CREATE, CREATED, EXTEND2, EXTENDED2 and ordinary cells from `start_circuit` on: client hop i and relay i hold the same keys, their counters and digests differ by exactly the cells in flight past, for or from that hop, every cell heard was told, in order, hops plus pending never exceed one more than the RELAY_EARLY count, itself at most five, and the nodes on the path are those asked for |
| CircuitRun.PathIsAsked | phinet-core/src/circuit_mgr.rs:559-588 | each node on the path is the one the client named in the extension that led to it |
| CircuitRun.SpokenToIsKnown | phinet-core/src/circuit_mgr.rs:669-699 | a relay that has ever been spoken to is known to the client, so one that answers only when spoken to may always answer |
| CircuitProgress.Completion | phinet-core/src/circuit_mgr.rs:523-804 | every circuit gets built: from any state of an honest run, delivering what is in flight, in any order, is never stuck and ends within a stated number of steps; then the hop being asked for has been added, each client hop equals its relay's state and everything told has been heard |
| CircuitProgress.DeliveryEnds | phinet-core/src/circuit_mgr.rs:596-804 | each delivery lowers an explicit measure, and none loses the extension under way |
| CircuitProgress.QuietIsIdle | phinet-core/src/circuit_mgr.rs:542-788 | with nothing in flight no handshake is pending: none is lost |
| CircuitProgress.ExtendingAsks | phinet-core/src/circuit_mgr.rs:559-588 | asking for a hop makes the path to be completed one longer |
| CircuitProgress.TwoHops | phinet-core/src/circuit_mgr.rs:523-804 | in every world a run leads to two hops and a cell in flight to the second, so the hypotheses of the theorems about runs can be met |
| CircuitRun.RunGood | phinet-core/src/circuit_mgr.rs:523-804 | the invariant behind it holds in every reachable state, the handshake being at one of five stages |
| CircuitRun.NodeCreatesGood | phinet-core/src/circuit_mgr.rs:630-658 | a node always accepts the CREATE of an honest client, notes its predecessor's leg as where the circuit came from, and its fresh hop is in step with the pending handshake |
| CircuitRun.CreatedArrivesGood | phinet-core/src/circuit_mgr.rs:542-555 | CREATED makes the guard the first hop, or goes back as exactly one EXTENDED2 from the relay before; that it gets there is CreatedRoutesHome and CreatedRoutesBack |
| CircuitRun.ClientReceivesGood | phinet-core/src/circuit_mgr.rs:596-622 | EXTENDED2 reaches the client only when awaited and then always adds the hop whose relay holds the same state; any other cell leaves the handshake where it was |
| CircuitRun.RelayTakesGood | phinet-core/src/circuit_mgr.rs:669-760 | EXTEND2 is taken by the last relay only, which asks the node named in it; any other cell leaves the handshake where it was |
| CircuitRun.ClientExtendsGood | phinet-core/src/circuit_mgr.rs:559-588 | asking for one more hop keeps the invariant and the RELAY_EARLY budget |
| CircuitRun.ClientSendsGood | phinet-core/src/circuit_mgr.rs:206-240 | a cell from the client to any hop, at any time, keeps the invariant |
| CircuitRun.RelaySendsGood | phinet-core/src/circuit_mgr.rs:765-788 | a known relay's own cell toward the client, at any time, keeps the invariant; one spoken to is known (SpokenToIsKnown) |
| CircuitRun.PassBackGood | phinet-core/src/circuit_mgr.rs:792-804 | a relay adding its layer to a passing cell keeps the invariant; that the cell finds its relay is BackwardShows |
| CircuitRun.ExtendRead | phinet-core/src/circuit_mgr.rs:733-760 | `begin_extend` reads back the very handshake and node `extend_circuit` wrote, so CREATE carries the one to the other |
| CircuitRun.DecryptIsReceive | phinet-core/src/circuit_mgr.rs:246-292 | the client names exactly the relay that sent the cell and reads exactly what it sent |
| CircuitRun.TakeIsStep | phinet-core/src/circuit_mgr.rs:669-699 | a relay keeps exactly the cells addressed to it, reading what was sent, and passes the others on |
| ForwardPipe.SendPreserves | phinet-core/src/circuit_mgr.rs:206-240 | wrapping and sending keeps client and relays in step for any number of hops and any target |
| ForwardPipe.StepOutcome | phinet-core/src/circuit_mgr.rs:669-699 | relays peeling in order: the target recovers exactly the relay cell sent, hops on the way pass it on, and an end-to-end cell leaves the last hop with all layers off |
| ForwardPipe.StepPreserves | phinet-core/src/circuit_mgr.rs:669-699 | one relay's step keeps every hop in step and moves no counter but its own |
| ForwardPipe.HeadIsNext | phinet-core/src/circuit_mgr.rs:669-699 | the head of a relay's link wears the very counter the relay will use, and if addressed to it was stamped for its digest history |
| ForwardPipe.AddRelayPreserves | phinet-core/src/circuit_mgr.rs:630-658 | a relay nobody has sent through yet may join the chain |
| ForwardPipe.AddHopPreserves | phinet-core/src/circuit_mgr.rs:542-555 | the client may learn a hop whose relay holds the same fresh state, with other cells in flight |
| ForwardPipe.LeftInOrder | phinet-core/src/circuit_mgr.rs:206-240 | end-to-end cells leave a circuit in the order they were sent |
| BackwardPipe.EmitPreserves | phinet-core/src/circuit_mgr.rs:765-788 | a cell put in by any relay keeps the backward direction in step, cells of others being in flight on every link |
| BackwardPipe.WrapPreserves | phinet-core/src/circuit_mgr.rs:792-804 | adding a layer on the way keeps the backward direction in step |
| BackwardPipe.ReceiveOutcome | phinet-core/src/circuit_mgr.rs:246-292 | the client finds the originating hop and the cell it sent; an end-to-end cell comes out fully peeled and recognized by no hop; counters beyond the origin do not move |
| BackwardPipe.ReceivePreserves | phinet-core/src/circuit_mgr.rs:246-292 | receiving keeps the backward direction in step |
| BackwardPipe.AddHopPreserves | phinet-core/src/circuit_mgr.rs:542-555 | as for the forward direction |
| Flow.WrapAllMeaning | phinet-core/src/circuit_mgr.rs:232-238 | the wrapping loop puts on exactly the layers of the first n hops, outermost last, uses each counter once and leaves the other hops alone |
| Flow.PeelMeaning | phinet-core/src/circuit_mgr.rs:246-292 | the peeling loop undoes exactly the layers of the hops crossed and stops where the cell is recognized |
| Circuit.StampedIsRecognized | phinet-core/src/circuit.rs:283-308 | what the originator stamps the addressee recognizes with the same history, reads back unchanged and leaves with the same new history |
| Circuit.RelayCellRoundTrip | phinet-core/src/circuit.rs:246-273 | a relay cell reads back from its payload, whatever its fields |
| Circuit.CellRoundTrip | phinet-core/src/circuit.rs:137-152 | a cell reads back from its 512 bytes |
| Circuit.LayerInvolution | phinet-core/src/circuit.rs:413-447 | a layer with the same key and counter undoes itself, so all four layer functions are two |
| Keystream.EncryptFlips | phinet-core/src/circuit_mgr.rs:206-240 | every bit of the cell a client sends is the stamped bit, flipped once for each layer it wears whose keystream has that bit: those of the hops up to the target, and the end-to-end one if it is on |
| Keystream.DecryptFlips | phinet-core/src/circuit_mgr.rs:246-292 | the cell a client takes is read from a payload each bit of which is the arriving bit, flipped once for each layer up to the one that took it, and that one's history recognizes it |
| Keystream.RelayFlips | phinet-core/src/circuit.rs:413-447 | a relay flips exactly the bits of its own keystream, outward and back |
| Keystream.LayerOfZeros | phinet-core/src/circuit.rs:413-424 | a layer on zeros is its keystream |
| Digests.StampCovers | phinet-core/src/circuit.rs:300-309 | the digest is the tag of the whole history and the whole cell but its digest field, and two cells leave the same new history if and only if they differ in that field at most |
| Digests.TakenExactly | phinet-core/src/circuit.rs:283-296 | a hop takes a payload if and only if it parses, its recognized field is zero and its digest field is the tag of the history and every other byte |
| Digests.TakenTells | phinet-core/src/circuit.rs:283-296 | two payloads one history takes with one digest are the same, or two named histories have one tag |
| Digests.RelayKeepsOne | phinet-core/src/circuit_mgr.rs:669-699 | of the cells that could arrive at a relay now with one digest it keeps one only, short of that |
| Digests.ClientTakesOne | phinet-core/src/circuit_mgr.rs:246-292 | the same of what a client takes from one hop, or from the far end |
| ExtendCodec.ParseExtend2 | phinet-core/src/circuit.rs:528-599 | the parsing loop over a moving index computes the recursive reading of the specifiers, with the same errors |
| ExtendCodec.Extend2RoundTrip | phinet-core/src/circuit.rs:495-599 | an EXTEND2 body reads back exactly when the handshake fits its 16-bit length; a host that is no dotted quad reads back as 127.0.0.1 |
| ExtendCodec.Extended2RoundTrip | phinet-core/src/circuit.rs:602-618 | an EXTENDED2 body reads back exactly when the reply fits its 16-bit length |
| Ntor.NtorAgreement | phinet-core/src/ntor.rs:103-230 | an honest exchange ends with both sides accepting and equal keys; a server accepts a message exactly when it is the one addressed |
| Ntor.RendezvousAgreement | phinet-core/src/rendezvous.rs:392-430 | the client accepts the service's tag, and each end's forward half is the other's backward half |
| KeyBinding.AcceptedIsSame | phinet-core/src/ntor.rs:127-285 | a client accepts the reply of a server only if both mean the same identity, static key and ephemeral keys and have the same two Diffie-Hellman secrets, whatever happened to the message; otherwise two named inputs of the extraction, the expansion or the MAC have one output |
| KeyBinding.EqualKeysAreSame | phinet-core/src/ntor.rs:127-285 | the same of keys that come out equal |
| KeyBinding.NtorParts | phinet-core/src/ntor.rs:60-100 | a hop's two keys and two digest seeds are four parts of the key material, each byte used once |
| KeyBinding.CompletedIsSame | phinet-core/src/rendezvous.rs:392-520 | a client completes a rendezvous only with a service that has the same secrets and means the same keys, short of two named inputs with one output |
| KeyBinding.E2EParts | phinet-core/src/rendezvous.rs:463-500 | the end-to-end layers are made of four parts of the key material, each byte used once, and mirror each other |
| Introduction.IntroduceRoundTrip | phinet-core/src/rendezvous.rs:237-320 | the service opens what the client sealed; an ASCII host survives exactly when it has at most twenty bytes and none of them zero, otherwise it is cut silently |
| Introduction.WireRoundTrip | phinet-core/src/rendezvous.rs:187-211 | an INTRODUCE payload reads back exactly when its sealed part fits 16 bits |
| KeyBinding.SealFlips | phinet-core/src/rendezvous.rs:237-268 | every bit the client seals goes out flipped by the keystream of the key derived from the shared secret |
| KeyBinding.OpensOne | phinet-core/src/rendezvous.rs:272-300 | of the messages with one tag the service opens one only, short of two named inputs of the MAC with one output |
| CircuitMgr.OriginCircuit.EncryptOutbound | phinet-core/src/circuit_mgr.rs:206-240 | in place: stamps at the innermost layer and wraps outward, leaving the backward halves, the identity and the budget alone |
| CircuitMgr.OriginCircuit.WrapHops | phinet-core/src/circuit_mgr.rs:232-238 | the loop over the hops is the specification's recursion, and moves forward halves only |
| CircuitMgr.OriginCircuit.DecryptInbound | phinet-core/src/circuit_mgr.rs:246-292 | in place: peels hop by hop with early return, then tries the end-to-end layer; every counter crossed has moved even if nothing recognizes the cell |
| CircuitMgr.OriginCircuit.Created | phinet-core/src/circuit_mgr.rs:542-555 | the pending handshake is spent whether or not it succeeds |
| CircuitMgr.OriginCircuit.Extend | phinet-core/src/circuit_mgr.rs:559-588 | refuses without hops or budget, otherwise spends one RELAY_EARLY |
| CircuitMgr.OriginCircuit.Inbound | phinet-core/src/circuit_mgr.rs:596-622 | EXTENDED2 finishes the pending handshake, any other cell is returned with its origin |
| CircuitMgr.CircuitManager.StartCircuit | phinet-core/src/circuit_mgr.rs:523-538 | a new origin circuit under the next id, which wraps |
| CircuitMgr.CircuitManager.HandleCreated | phinet-core/src/circuit_mgr.rs:542-555 | changes the one circuit and nothing else in the manager |
| CircuitMgr.CircuitManager.ExtendCircuit | phinet-core/src/circuit_mgr.rs:559-588 | changes the one circuit and nothing else in the manager |
| CircuitMgr.CircuitManager.HandleOriginRelay | phinet-core/src/circuit_mgr.rs:596-622 | changes the one circuit and nothing else in the manager |
| CircuitMgr.CircuitManager.HandleCreate | phinet-core/src/circuit_mgr.rs:630-658 | installs a relay circuit under the leg, overwriting what was there |
| CircuitMgr.CircuitManager.HandleForwardRelay | phinet-core/src/circuit_mgr.rs:669-726 | peels, then handles, forwards, bridges or drops, with the state each leaves |
| CircuitMgr.CircuitManager.BeginExtend | phinet-core/src/circuit_mgr.rs:733-760 | links the circuit to its onward leg in both tables, or refuses and changes nothing |
| CircuitMgr.CircuitManager.HandleCreatedFromNext | phinet-core/src/circuit_mgr.rs:765-788 | answers toward the client with the stamped EXTENDED2, once |
| CircuitMgr.CircuitManager.HandleBackwardRelay | phinet-core/src/circuit_mgr.rs:792-804 | adds a layer and does not refresh the activity time |
| CircuitMgr.CircuitManager.Destroy | phinet-core/src/circuit_mgr.rs:806-820 | the whole new state of the manager after a DESTROY |
| CircuitMgr.CircuitManager.BridgeRendezvous | phinet-core/src/circuit_mgr.rs:886-893 | both directions of the bridge, overwriting |
| CircuitMgr.CircuitManager.UnbridgeRendezvous | phinet-core/src/circuit_mgr.rs:912-922 | both directions gone, the partner returned |
| CircuitMgr.CircuitManager.RegisterRendezvousCookie | phinet-core/src/circuit_mgr.rs:857-864 | the cookie names the leg, nothing else changes |
| CircuitMgr.CircuitManager.RegisterPendingRendezvous | phinet-core/src/circuit_mgr.rs:930-939 | the pending rendezvous is noted under its cookie, overwriting, nothing else changes |
| CircuitMgr.CircuitManager.ConsumeRendezvousCookie | phinet-core/src/circuit_mgr.rs:869-874 | the cookie is given out once |
| CircuitMgr.CircuitManager.CompleteRendezvous | phinet-core/src/circuit_mgr.rs:946-965 | the cookie is consumed whatever happens; on success the end-to-end layer is installed |
| CircuitMgr.CircuitManager.EvictIdleCircuits | phinet-core/src/circuit_mgr.rs:480-517 | the two loops over hash tables, in whatever order they are walked, end in the swept state and count what went |
| ManagerTables.OperationKeepsTables | phinet-core/src/circuit_mgr.rs:480-965 | from consistent tables (`relay_by_next` the exact inverse of the relays' onward legs, bridges an involution) each of the seventeen operations leads to consistent tables if and only if its caller was careful: an id not in use by an extended circuit for CREATE, an onward leg not in use for EXTEND, unpaired or mutually paired legs for a bridge; every other call is always safe |
| ManagerTables.TablesStayConsistent | phinet-core/src/circuit_mgr.rs:419-965 | so the tables are consistent throughout every careful run from a new manager |
| ManagerTables.SweepIsExact | phinet-core/src/circuit_mgr.rs:480-517 | the sweep removes precisely the idle circuits and every entry that refers to one, leaves every other entry as it was, and does not depend on the order of the tables |
| ManagerTables.UnbridgeAllMeaning | phinet-core/src/circuit_mgr.rs:500-515 | unbridging the dead legs one by one, in any order, removes exactly the pairs with a dead member |
| ManagerTables.DestroyIsExact | phinet-core/src/circuit_mgr.rs:806-820 | entry by entry what DESTROY removes and leaves |
| ManagerTables.DestroyedRendezvousOutlivesSweep | phinet-core/src/circuit_mgr.rs:480-517 | a cookie or pending rendezvous of a destroyed circuit survives that and the next sweep, although its circuit is gone |
| ManagerTables.DestroyLeavesDangling | phinet-core/src/circuit_mgr.rs:806-820 | DESTROY leaves no rendezvous entry naming a circuit that is gone exactly if no cookie names its leg and no pending rendezvous its id |
| ManagerTables.SweepLeavesNone | phinet-core/src/circuit_mgr.rs:480-517 | the sweep never leaves one |
| ManagerTables.CookieRun | phinet-core/src/circuit_mgr.rs:480-965 | over any run a cookie still names its leg exactly if none of the calls on the way ended it, by spending it or by sweeping while a circuit over the leg was idle |
| ManagerTables.PendingRun | phinet-core/src/circuit_mgr.rs:480-965 | the same for a pending rendezvous, ended by its completion or by sweeping an idle circuit of its id |
| ManagerTables.DestroyedCookieStays | phinet-core/src/circuit_mgr.rs:480-965 | through any run that neither spends the cookie nor creates a circuit over the same leg it stays and goes on naming nothing: only a circuit over that leg lets a sweep find it |
| ManagerTables.SweptWhenQuiet | phinet-core/src/circuit_mgr.rs:480-517 | over any run a relay circuit is idle for the sweep exactly when an hour has passed since it was last created, crossed forward or bridged into; cells back to the client do not keep it |
| ManagerTables.ActivityStep | phinet-core/src/circuit_mgr.rs:630-804 | call by call, what sets the activity time of a relay circuit and what leaves it |
| ManagerTables.BridgeKeepsInvolution | phinet-core/src/circuit_mgr.rs:886-893 | bridging keeps the pairs exactly when no third leg is left behind |
| ManagerTables.CreateKeepsNexts | phinet-core/src/circuit_mgr.rs:630-658 | overwriting a leg keeps the inverse exactly when its old circuit had no onward leg |
| ManagerTables.ExtendKeepsNexts | phinet-core/src/circuit_mgr.rs:733-760 | extending keeps the inverse exactly when the onward leg was not in use |
| ManagerTables.RebridgingLeavesAStaleLeg | phinet-core/src/circuit_mgr.rs:886-922 | a concrete rebridging that leaves a dangling leg which undoing the bridge does not repair |
| ManagerTables.RecreatingOrphansAnEntry | phinet-core/src/circuit_mgr.rs:630-658 | a concrete reuse of a circuit id that orphans an entry |
| Cert.IsPrime | phinet-core/src/cert.rs:115-165 | the nested loops compute the specified answer, and it is true of every prime whatever is drawn |
| Cert.PrimesPass | phinet-core/src/cert.rs:115-165 | Miller-Rabin completeness: every prime passes, whatever witnesses are drawn |
| Cert.AttemptMeaning | phinet-core/src/cert.rs:197-233 | when a candidate succeeds and in which class: exactly when its numbers pass the test and the root is in the class; the sieve only saves time |
| Cert.TrueAnswerMeans | phinet-core/src/cert.rs:115-165 | a true answer above 541: the number is odd, no trial divisor divides it, and b^(n-1) is 1 modulo n for each of the thirteen fixed bases and for every base drawn |
| Cert.SquaresEndInOne | phinet-core/src/cert.rs:155-161 | going back from the last square, the first that is not one is minus one |
| Cert.SplitOff | phinet-core/src/cert.rs:137-139 | the halving loop finds the odd part and the power of two |
| Cert.OddPartSplits | phinet-core/src/cert.rs:137-139 | they multiply back to n - 1, the first is odd, and an even number has at least one two |
| Cert.TryWitness | phinet-core/src/cert.rs:151-162 | the squaring loop accepts a witness exactly when one of its squares is minus one or there is nothing to square |
| Cert.TrialDivision | phinet-core/src/cert.rs:120-134 | the loop over small primes gives the verdict of the first that decides |
| Cert.FixedBelowThreshold | phinet-core/src/cert.rs:140-150 | below the threshold the answer does not depend on chance |
| NumberTheory.Fermat | phinet-core/src/cert.rs:151-155 | Fermat's little theorem, by permuting the residues |
| NumberTheory.SquareRootsOfOne | phinet-core/src/cert.rs:157-161 | modulo a prime one has only the roots one and minus one |
| NumberTheory.Euclid | phinet-core/src/cert.rs:151-161 | a prime divisor of a product divides a factor |
| Cert.DigitalRootMeaning | phinet-core/src/cert.rs:107-111 | the remainder formula is the repeated decimal digit sum for every number but zero, for which it answers nine |
| Cert.VerifyMeaning | phinet-core/src/cert.rs:252-266 | `verify` accepts exactly the certificates determined by `j` and the class whose numbers pass the test, and fails (by a panic in the source) exactly on n = 0 |
| Cert.GeneratedVerifies | phinet-core/src/cert.rs:197-266 | a generated certificate verifies exactly when its three numbers pass again and the third gets the same answer |
| Cert.GeneratedAlwaysVerifies | phinet-core/src/cert.rs:197-266 | it always does below the threshold, or when j and p are prime and mu is 2 or 2j - 1 is prime too |
| Cert.GeneratedSize | phinet-core/src/cert.rs:5-13 | n has the promised number of bits exactly when mu is 2, one more when mu is 4 |
| Cert.Generate | phinet-core/src/cert.rs:197-243 | the loop returns the first candidate that succeeds, if one does |
| Congestion.Convergence | phinet-core/src/congestion.rs:213-312 | from any reachable state, whatever its history, a constant sample leads to a smoothed RTT within 7 ns below the sample, and keeps it there, if and only if the sample is below 2^64 + 7 ns; it is the sample itself if it came from above within 64 bits; and then the window gets to a fixed point where the queue estimate is in [alpha, beta] or the window at its maximum, and nothing moves again |
| Congestion.EwmaConverges | phinet-core/src/congestion.rs:233-251 | with an explicit rank: how many samples smoothing needs at most, and that two samples beyond its reach leave it away from them |
| Congestion.AverageMoves | phinet-core/src/congestion.rs:241-249 | the fixed points of smoothing are exactly the sample and up to seven below, and it never passes the sample |
| Congestion.AverageMisses | phinet-core/src/congestion.rs:247-249 | from 2^64 + 7 on the cut average is always more than seven below |
| Congestion.AverageTruncates | phinet-core/src/congestion.rs:247-249 | beyond 64 bits the average is cut: two equal samples can average to zero |
| Congestion.CwndConverges | phinet-core/src/congestion.rs:272-312 | with an explicit measure: how many SENDMEs the window needs at most |
| Congestion.UpdateProgresses | phinet-core/src/congestion.rs:272-307 | each update either lowers the measure or leaves a settled controller settled with the same window, also when the ack counter wraps |
| Congestion.UpdateMoves | phinet-core/src/congestion.rs:272-307 | by exactly how much one update moves the window: a step of 31 up in slow start, three quarters on leaving it, a step up below alpha, a step down above beta, all within 124 and 20000 |
| Congestion.OneWay | phinet-core/src/congestion.rs:290-307 | in steady state the queue never crosses the band, so a growing window never shrinks later nor the other way round |
| Congestion.QueueMoves | phinet-core/src/congestion.rs:256-268 | one step of the window moves the floor-divided estimate by at most one step, and never down with a larger window |
| Congestion.Reachable | phinet-core/src/congestion.rs:152-312 | in every reachable state the window is within its clamps, and the minimum RTT is at most the smoothed one if every sample fitted 64 bits |
| Congestion.InflightBounds | phinet-core/src/congestion.rs:182-216 | with gated sends the cells in flight never exceed the largest window and are at least those sent beyond what was acknowledged |
| Congestion.Vegas.Send | phinet-core/src/congestion.rs:198-206 | the whole new state after a send |
| Congestion.Vegas.Sendme | phinet-core/src/congestion.rs:213-230 | the whole new state after a SENDME, and the sample it gave |
| Congestion.Vegas.Update | phinet-core/src/congestion.rs:272-312 | the whole new state after a window update |
| Congestion.Vegas.Estimate | phinet-core/src/congestion.rs:256-268 | the estimate, zero without samples |
| HsDirRing.ResponsibleHsdirs | phinet-core/src/hsdir_ring.rs:128-154 | the sorted ring walked with wraparound and early return gives, for relays at distinct positions, exactly the relays nearest clockwise to each position |
| HsDirRing.AnswerIsResponsible | phinet-core/src/hsdir_ring.rs:128-154 | the same for the walk as a function: stopping early loses nothing |
| HsDirRing.ResponsibleMeaning | phinet-core/src/hsdir_ring.rs:128-169 | a relay is responsible exactly when at one of the positions fewer than three relays come before it |
| HsDirRing.OrderIndependent | phinet-core/src/hsdir_ring.rs:128-154 | the result, order included, does not depend on the order of the input |
| HsDirRing.AnswerSize | phinet-core/src/hsdir_ring.rs:128-154 | between min(3, n) and min(6, n) distinct relays of the input |
| HsDirRing.RemovalUnnoticed | phinet-core/src/hsdir_ring.rs:128-154 | removing a relay that is not responsible leaves the answer unchanged, order included |
| HsDirRing.AdditionDisplaces | phinet-core/src/hsdir_ring.rs:128-154 | adding a relay gives a subset of the old answer plus it, and displaces at most one relay per replica |
| HsDirRing.WalkIsClockwise | phinet-core/src/hsdir_ring.rs:136-148 | the ring from the partition point on is the relays sorted by clockwise distance |
| Merging.ConsensusDeterministic | phinet-core/src/directory.rs:683-846 | if no authority commits to two values or opens its commitment with two, however often it votes, any permutation of the votes and any order of the hash tables gives the same document |
| Merging.OneVoteTells | phinet-core/src/directory.rs:683-724 | one vote per authority is enough for that |
| Merging.OpeningOrCollision | phinet-core/src/directory.rs:691-724 | two different values that open one commitment are a collision of the hash |
| Merging.BuildConsensusWithSrv | phinet-core/src/directory.rs:683-738 | the loops compute a document meeting the specification that determinism is proved of |
| Merging.BuildConsensusInner | phinet-core/src/directory.rs:740-817 | validity window, and one sorted row for each peer observed, whatever order the groups are walked in |
| Merging.MergePeer | phinet-core/src/directory.rs:754-801 | one peer's row from its observations |
| Merging.MajorityOrMin | phinet-core/src/directory.rs:822-845 | counting and comparing in any order finds the most frequent value, the smallest on a tie |
| Merging.MajorityUnique | phinet-core/src/directory.rs:822-834 | that winner is unique |
| Merging.MergedUnique | phinet-core/src/directory.rs:745-806 | there is one merged list for a multiset of observations |
| Merging.MergeFlags | phinet-core/src/directory.rs:779-789 | the loop over 32 bits sets exactly the bits a majority has |
| Merging.MergedBitsMeaning | phinet-core/src/directory.rs:779-789 | a bit of the merged word is set exactly if at least half of the observers set it, a tie included |
| Merging.MajorityMeaning | phinet-core/src/directory.rs:822-845 | nothing is had more often than the winner, and nothing smaller as often |
| Merging.MedianMeaning | phinet-core/src/directory.rs:778-783 | the bandwidth is the middle one in order, the upper of two |
| Merging.ExtremesMeaning | phinet-core/src/directory.rs:741-742 | the window is from the latest beginning to the earliest end |
| Merging.DoubleVotesDepend | phinet-core/src/directory.rs:725-735 | two votes of one authority with different commitments: the order decides which is carried |
| Merging.RepeatedVotes | phinet-core/src/directory.rs:725-735 | the carried commitments are independent of the order of the votes exactly when no authority commits to two values, however often it repeats one |
| Merging.RepeatedVotesDocument | phinet-core/src/directory.rs:683-738 | for any votes, short of such a collision: one document in every order if and only if no authority commits to two values |
| HonestMajority.HonestMajorityDecides | phinet-core/src/directory.rs:754-804 | with more than half of the observations honest, in any mixture: bandwidth between the least and greatest honest one, agreed flag bits and every agreed field kept, an agreed absence of a family exactly if nobody at all names one |
| HonestMajority.FamilyAbsent | phinet-core/src/directory.rs:770-773 | the merged row has no family exactly if no observer named one |
| HonestMajority.SilenceLoses | phinet-core/src/directory.rs:770-773 | one observation with a family outweighs any number without |
| Directory.ConsensusUnambiguous | phinet-core/src/directory.rs:243-269 | equal signed bytes mean equal consensuses but for signatures, with lengths below 2^32 |
| Directory.VoteUnambiguous | phinet-core/src/directory.rs:272-290 | equal signed bytes mean equal votes but for the signature, with lengths below 2^32 |
| Directory.TagsSeparate | phinet-core/src/directory.rs:61-66 | no consensus signs the bytes of any vote |
| Directory.LengthsWrap | phinet-core/src/directory.rs:292-295 | a string of length 2^32 is written with the prefix of the empty one |
| Directory.LongConsensusesCollide | phinet-core/src/directory.rs:243-269 | so the bound is needed: two different consensuses with a host or node id of 2^32 bytes sign the same bytes |
| Directory.CanonicalConsensusBytes | phinet-core/src/directory.rs:243-269 | the writers appending to one buffer produce the canonical bytes |
| Directory.CanonicalVoteBytes | phinet-core/src/directory.rs:272-290 | likewise for votes |
| Directory.VerifyConsensus | phinet-core/src/directory.rs:592-648 | accepts exactly inside the window with enough distinct trusted keys that have a valid signature on the canonical bytes, and otherwise gives the error and the count; duplicates, malformed and unknown signatures do not count |
| Directory.SignersMeaning | phinet-core/src/directory.rs:608-642 | a key is counted if and only if it is trusted and some signature names it and is its valid signature on the canonical bytes |
| Directory.QuorumIntersection | phinet-core/src/directory.rs:72-75 | two documents accepted with the usual threshold have valid signatures on both from at least a third of the trusted keys |
| SharedRandom.ComputeSrv | phinet-core/src/shared_random.rs:94-112 | the loops over a sorted map compute the shared value, one contribution per authority |
| SharedRandom.EntriesMeaning | phinet-core/src/shared_random.rs:94-100 | with one reveal per authority the map holds exactly them, sorted |
| SharedRandom.SrvOrderIndependent | phinet-core/src/shared_random.rs:94-112 | the value does not depend on the order of arrival and exists exactly from the minimum on |
| SharedRandom.SrvRepeated | phinet-core/src/shared_random.rs:94-112 | nor on how often an authority repeats its value |
| SharedRandom.CommitmentBinds | phinet-core/src/shared_random.rs:57-75 | another value passes the check exactly when it collides under the hash |
| SharedRandom.CommitmentTells | phinet-core/src/shared_random.rs:57-66 | a commitment is one authority's, to one value, for one period, short of a collision of two named inputs |
| SharedRandom.SrvTells | phinet-core/src/shared_random.rs:94-112 | one shared value, one list of entries and one period, short of a collision of two named inputs |
| SharedRandom.RevealsDecide | phinet-core/src/shared_random.rs:94-112 | any other reveals would have given another value, short of that |
| Contribution.SrvStore.SrvContribution | phinet-bwscanner/src/lib.rs:114-168 | the whole new state and output of a call, advanced field by field |
| Contribution.ContributionMeaning | phinet-bwscanner/src/lib.rs:114-168 | what a call publishes depends only on the first draws of this period and the one before, however often it is called |
| Contribution.StableAndBound | phinet-bwscanner/src/lib.rs:114-168 | calls in one period publish the same; a reveal is there exactly after a call in the period before, and opens what that committed |
| Contribution.SharedValueAgreed | phinet-bwscanner/src/main.rs:555-601 | over runs, the previous document carrying any signatures: the shared value is non-empty exactly if that document began in the day before this period and at least two authorities took part in both periods |
| Contribution.Contributors | phinet-core/src/directory.rs:691-724 | exactly the authorities in both periods contribute, each the number it drew first in the period before |
| Contribution.CarriedFinds | phinet-core/src/directory.rs:725-735 | a consensus carries every vote's commitment, found under its authority, and no other |
| GuardSample.DrawBound | phinet-core/src/guard_sample.rs:112-172 | for any candidates, live lists, confirmations and expiries under a clock that does not go back: at most twenty sampled, and at most twenty drawn in any window of the sample lifetime |
| GuardSample.StepFaithful | phinet-core/src/guard_sample.rs:112-172 | at any later time the unexpired sample is exactly the unexpired part of everyone ever drawn |
| GuardSample.NoDrawWhileUsable | phinet-core/src/guard_sample.rs:136-139 | nobody is drawn while five sampled guards are usable |
| GuardSample.ExtendExactly | phinet-core/src/guard_sample.rs:129-161 | with fewer than five live guards the sample is filled up to exactly the lesser of twenty and all there are, by candidates that are not in it yet; with five nobody is drawn |
| GuardSample.UnexpiredMeaning | phinet-core/src/guard_sample.rs:112-114 | a guard goes exactly when it is more than a hundred and twenty days old |
| GuardSample.PoolMeaning | phinet-core/src/guard_sample.rs:141-147 | the pool has each candidate that is not sampled, and no other |
| PrimaryGuards.PlacesKept | phinet-core/src/guard_sample.rs:168-193 | whatever happens after a time, the guards confirmed by then are ranked among themselves exactly as they were, but for those aged out |
| PrimaryGuards.EstablishedFirst | phinet-core/src/guard_sample.rs:179-193 | whatever the time, the guards confirmed by then are exactly the head of the ranking |
| PrimaryGuards.PrimaryKept | phinet-core/src/guard_sample.rs:174-193 | a confirmed guard in use stays in use while it is live and not aged out, whoever is drawn, confirmed or unreachable in between |
| PrimaryGuards.RankedMeaning | phinet-core/src/guard_sample.rs:179-193 | the ranking is the usable guards, confirmed first in order of confirmation, ties in the order of sampling |
| PrimaryGuards.SameSecondOvertakes | phinet-core/src/guard_sample.rs:163-193 | in every sample, confirming a usable guard that stands before one confirmed at t, no later, ranks it ahead of that one exactly if both times are the same second |
| PrimaryGuards.TiesBySample | phinet-core/src/guard_sample.rs:179-193 | guards confirmed at one time are ranked in the order of sampling |
| GuardSample.SampledSet.MaybeExtend | phinet-core/src/guard_sample.rs:129-161 | the loop appends the first of the shuffled pool, up to the sample size, and counts them |
| GuardSample.SampledSet.Expire | phinet-core/src/guard_sample.rs:112-114 | keeps exactly the unexpired, in order |
| GuardSample.SampledSet.Confirm | phinet-core/src/guard_sample.rs:168-172 | stamps the first match once |
| Dos.LimiterBound | phinet-core/src/dos.rs:97-151 | in exact arithmetic a limited address is allowed at most 80 + T circuits in any window of T seconds, with clean-ups anywhere |
| Dos.CleanupTransparent | phinet-core/src/dos.rs:138-199 | a guard that cleans up at any times makes the same decisions as one that never does |
| Dos.AlikeStep | phinet-core/src/dos.rs:138-174 | guards a caller cannot tell apart decide alike and stay so |
| Dos.CleanupUnseen | phinet-core/src/dos.rs:194-199 | a forgotten address had full tokens and no connections |
| Dos.CleanupExact | phinet-core/src/dos.rs:194-199 | clean-up takes out exactly the addresses without connections that were last seen ten minutes ago or more |
| Dos.CircuitCounted | phinet-core/src/dos.rs:138-151 | what a circuit costs a limited address, token by token, also when the clock went back |
| Dos.ConnectionsCounted | phinet-core/src/dos.rs:154-165 | a limited address gets a connection exactly while it has fewer than twelve |
| Dos.LimitedMeaning | phinet-core/src/dos.rs:129-136 | who is limited: everybody but the exempt, 127.x.y.z and ::1, while the guard is on |
| Dos.StepTokens | phinet-core/src/dos.rs:97-151 | an allowed circuit takes a token and they come back at the agreed rate, whatever the event |
| Dos.DosGuard.AllowCircuit | phinet-core/src/dos.rs:138-151 | the whole new state and the answer |
| Dos.DosGuard.AllowConnection | phinet-core/src/dos.rs:154-165 | the whole new state and the answer |
| Dos.DosGuard.ReleaseConnection | phinet-core/src/dos.rs:169-174 | the whole new state |
| Dos.DosGuard.CleanUp | phinet-core/src/dos.rs:194-199 | the whole new state |
| Replay.ReloadIsExact | phinet-core/src/replay.rs:132-271 | after any run of marks, evictions, compactions and reopenings without marks on a full cache, reloading the file gives exactly the live entries in memory |
| Replay.AcceptedApart | phinet-core/src/replay.rs:175-211 | two accepted marks of one id are at least the first one's time to live apart, over any restarts |
| Replay.RoomKeepsLive | phinet-core/src/replay.rs:182-199 | making room costs live entries exactly when the cache is full of live ones |
| Replay.FullCacheForgets | phinet-core/src/replay.rs:190-199 | then an id dropped is accepted again at once |
| Replay.LoadIsLive | phinet-core/src/replay.rs:132-154 | skipping expired lines loses nothing but what has expired |
| Replay.StepTracks | phinet-core/src/replay.rs:132-271 | every event keeps file and memory in agreement, now and later |
| Replay.ReplayCache.MarkWithTtl | phinet-core/src/replay.rs:175-211 | the whole new cache and file, and the answer, for whatever is dropped from a full cache |
| Replay.ReplayCache.DropSoonest | phinet-core/src/replay.rs:190-199 | a tenth goes, none of it to expire later than what stays |
| Replay.ReplayCache.LoadFromDisk | phinet-core/src/replay.rs:132-154 | the loading loop, later lines overriding earlier ones |
| Replay.ReplayCache.Compact | phinet-core/src/replay.rs:239-271 | the file becomes one line per entry, in some order |
| Replay.ReplayCache.EvictExpired | phinet-core/src/replay.rs:227-233 | keeps exactly the live and counts the others |
| Replay.ReplayCache.constructor | phinet-core/src/replay.rs:90-118 | opening loads, and compacts a long file |
| Onion.OnionRoundTrip | phinet-core/src/onion.rs:70-196 | for all hops with valid keys, payloads, strings and random draws: the cell is built, and peeling hop by hop names each next hop and ends with the payload |
| Onion.LayerRoundTrip | phinet-core/src/onion.rs:74-175 | one layer on and off again; a hop at any other address refuses |
| Onion.TrimExact | phinet-core/src/onion.rs:178-196 | the bracket scanner returns exactly the printed envelope, whatever padding follows and whatever quotes, escapes and brackets are in its strings |
| Onion.TrimJsonPadding | phinet-core/src/onion.rs:178-196 | the scanning loop is the specified scan |
| Onion.Build | phinet-core/src/onion.rs:70-127 | the loop from the last hop to the first computes the layered cell, or the first error it meets |
| Onion.BuildFails | phinet-core/src/onion.rs:70-81 | building fails exactly on an empty list or a key that cannot be read |
| Onion.WholeCells | phinet-core/src/onion.rs:100-108 | what is sealed is one cell if the envelope fits in it, otherwise the whole cells it fills and one more |
| Onion.AddressInjective | phinet-core/src/onion.rs:110-111 | different addresses print differently |
| Onion.EnvelopeReadable | phinet-core/src/onion.rs:52-57 | different envelopes print differently |
| Onion.WrapperReadable | phinet-core/src/onion.rs:59-65 | different wrappers print differently |
| Json.EscapesOfJson | phinet-core/src/onion.rs:98-123 | what is printed has the escapes of JSON |

## Left out

- Sockets, HTTP, the control port, locks, asynchronous tasks and the command line: plumbing around the modelled code.
- The insides of ChaCha20, Poly1305, SHA-256, HKDF, HMAC, X25519 and Ed25519: foreign calls, carried as functions.
- Soundness of the primality test on composites, and any probability: not provable from the code.
- Circuit windows (`try_consume_circ_window`, `on_circ_sendme`), the padding scheduler and the circuit builder's timing: counters that add only easy members.
- `register_intro_circuit`, `register_intro_relay`, `find_intro_target` (phinet-core/src/circuit_mgr.rs:827-851): single insertions and a lookup; the tables they fill are modelled.
- The limiter's refusal of a CREATE before the handshake (phinet-core/src/node.rs:1823-1833): `Dos` has the limiter, the network's nodes always try; a refused CREATE would leave the circuit waiting.
- What a node does about relay commands other than EXTEND2 (phinet-core/src/node.rs:2175-2336): answers and changes to the rendezvous tables are events of their own, at any time, not tied to the cell that asks for them; `RendezvousOrder` states the order the code gives those of a rendezvous.
- EstablishIntro, EstablishRendezvous, Rendezvous1 and Rendezvous2 codecs (phinet-core/src/rendezvous.rs:86-152, 335-376): fixed layouts without branches worth a proof.
- `sign_consensus`, `vote_with_srv`, `verify_vote` and the signer trait: calls into Ed25519 around the canonical bytes.
- `to_wire` and `from_wire` of certificates and the node and cluster ids: hexadecimal and hashing.
- Rounding of the limiter's floating-point tokens: the model counts billionths of a token exactly.
- A crash in the middle of a line of the replay log, and a clock reading that changes within one call of `mark_with_ttl`: each call sees one time.
- `exit_policy.rs`, `padding.rs`, `circuit_pool.rs`, `guards.rs`, `board.rs`, `store.rs`, `path_select.rs`, `dht.rs`, `circuit_sched.rs`, `circuit_timing.rs`, `path_bias.rs`: filters, containers and floating-point heuristics.
- Cert.Generate: the source loops until it succeeds; the model takes the candidates the generator gave and says which of them it stops at.
- Splice.SplicedDelivery: with the end-to-end layer on, ends send to the last hop of their path, as the code's callers do; what a nearer target does is `NearerHop.NearerHopLost`.
- NetworkSplice.NetworkSplicedDelivery: ends send to the last hop of their path, as for `Splice.SplicedDelivery`; a completion that fails, its tag being wrong, is not a step of the client's circuit.
- Contribution.SharedValueAgreed: about authorities that vote honestly with what `srv_contribution` returned; what dishonest ones can do is the subject of `SharedRandom.CommitmentBinds`.
