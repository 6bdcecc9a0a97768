# MQTT_Tunnel: a verified model of the session layer

MQTT_Tunnel carries IP packets over an MQTT broker. A server hands out tunnel addresses and topics to clients over
two shared command topics (`<channel>_RX` towards the server, `<channel>_TX` towards all clients), and then packets
travel on two data topics per client. This project models that session layer in Dafny and proves what it keeps:

- the **server**: dispatch loop, handshake states, active sessions, address pool, key table (`Server`, `TunnelServerClass`);
- the **client**: the three polling loops of its handshake (`Client`);
- the **tables**: address pool (`IpPool`), active sessions with lookup by address (`Sessions`), keys and packet
  framing (`Crypto`), records read by field name (`Messages`), topics (`Topics`);
- the **data plane**: read buffer, routing, callback (`Packets`), the reader thread interleaved with the command loop
  (`Reader`), and delivery end to end (`Delivery`).

`dafny verify dfyconfig.toml` checks everything.

## How it is built

Code that changes state is a class or a method with a loop (`IPPool`, `SessionMap`, `CryptoManager`, `TunnelServer`,
`TunnelClient`, `TunCallback`, the two TUN loops). Each is proved equal to a step function on values, and the properties are
proved of those functions over every run:

- A server run is any sequence of payloads with what handling each one draws (`Server.After`); nothing is assumed of
  the payloads. An exception that leaves the command loop sets `failed`, and nothing is taken afterwards. The process is
  ending then; what reader thread and callback still do until the destructor has stopped them is not claimed, except
  that `Delivery.ServerToClient` and `Reader` also hold for a packet on its way at that moment.
- `World` puts one server and any number of clients together, encryption on. The server may take any payload at all; a
  poll yields any payload ever published on `_TX`, or none. This covers every order, loss and duplication, including
  redelivery at QoS 1 (section 4.3.2 of MQTT Version 3.1.1).
- `Honest` narrows that to runs in which the server takes only what those clients published, again in any order and
  multiplicity, under a strictly increasing clock. `Runs` and `Scenarios` construct runs of this kind.
- `Solo` is one client and the server over first-in first-out channels (section 4.6 of MQTT Version 3.1.1), under every
  schedule.
- Cryptography is symbolic: an octet of a ciphertext carries key, nonce and plaintext; a session key carries the
  Diffie-Hellman secret, both public keys and the direction. The JSON text of a record is one octet that carries its fields.

## Where the code departs from what one expects

The model follows the code; each of these is a lemma or part of one.

- A text parses as every record whose fields it has. A ServerHello therefore parses as a ServerACK, and a client whose
  third wait stays empty concludes its handshake on the old ServerHello (`Solo.ConfiguredWithoutSession`, exact in
  `Solo.ThirdWait`; `Scenarios.ConfiguredBeforeSession` is a run in which this happens).
- After a ServerACK the server erases the handshake entry and reads it through `operator[]` once more, so the
  entry comes back blank and never leaves (`Dispatch.EntriesNeverLeave`). A new ClientHello for an active id is
  accepted, and activating it strands the old address. `Stranding.StrandedByTwoHandshakes` is a run in which this
  happens, `Stranding.StrandsExactly` says from the state before a message whether it strands an address, and
  `Stranding.PoolFreeWhenQuiet` when the pool of a server without handshakes and sessions is free.
- For the same reason a ClientHello and a ClientACK delivered again after the handshake give the active session another
  address than its client has (`Scenarios.SecondHandshakeDisagrees`). `Agreements.DisagreementStep` says from the state
  before a message whether it makes them disagree, `Agreements.AgreesExactly` the same for whole runs.
- The guard of `release_ip` admits the slot just past the vector (`IpPool.ReleasePastTheEnd`); no run ever
  gets there (`History.ReleasedWasAllocated`).
- `docs/Ausarbeitung.md:270-272` shows data topics below `mqtt_tunnel/commands`, the default channel. The callback takes
  the second segment, which is `commands` for every client, so with encryption on that channel delivers nothing
  (`Topics.DefaultChannelLosesIds`, exact in `Topics.ExtractExact` and `Delivery.ServerToClient`).
- `docs/Ausarbeitung.md:265` says the server accepts packets only for active sessions. The callback does not look at the
  sessions. What gets through is exact in `Delivery.ClientToServer`: the packets of the ids for which a session was
  ever activated. `Scenarios.AcceptedAfterTermination` is a run in which a packet of a terminated session does.
- A client that takes another client's ServerHelloCrypto makes the server's command loop end
  (`World.CrossTalkEndsServer`). `Scenarios.CrossTalkHappens` is a run of two clients in which this happens, and
  `Honest.OnlyCrossTalkEndsServer` says that nothing else ends the loop when only such clients send. For arbitrary
  messages, those that end it are in `Dispatch.FailsExactly`.

## Model

| member | source | states |
|---|---|---|
| World.Agreement | src/TunnelClient.cpp:97-195 | In every run of any number of clients with any traffic, a configured client's id indexes a server key pair mirroring its own, and its id, address, topics and session id are those of a record the server sent and stored for it |
| World.ConfiguredByAck | src/TunnelClient.cpp:229-261 | A configured client concluded on a ServerACK or on a ServerHello; if on a ServerACK, the server activated a session for its id and handshake identifier |
| World.ConfiguredTrusts | src/CryptoManager.cpp:255-269 | In every run a configured client that verifies has pinned the identity of the server it runs against |
| World.ConfiguredIdsDiffer | src/TunnelClient.cpp:102-105 | Two configured clients never have the same id |
| Agreements.AgreesExactly | src/TunnelServer.cpp:330-334 | In every run, from a time at which a configured client with an address agrees with its active session and for as long as the server has a session for its id: the two agree if and only if no ClientACK has activated another record over that session |
| Agreements.DisagreementStep | src/TunnelServer.cpp:279-334 | In every run a message makes such a client disagree with its session, the session still being there, if and only if it is a ClientACK with the handshake identifier of the pending entry of its id |
| World.AgreesWithSession | src/TunnelServer.cpp:237-268 | A case in which they agree to begin with: only one record was ever sent for the id of a configured client whose session is active |
| Addresses.ConfiguredAddressesDiffer | src/TunnelServer.cpp:216-268 | In every honest run no two configured clients have the same non-empty tunnel address, and no entry of another id holds it, despite repeated handshakes, stranded addresses and clients that stopped |
| World.CrossTalkEndsServer | src/TunnelServer.cpp:107-121 | Any message sealed by a client that adopted another client's id, whatever else was sent before, raises an exception that ends the command loop |
| Honest.OnlyCrossTalkEndsServer | src/TunnelServer.cpp:60-133 | When the server takes only what clients published, under an increasing clock, a message ends the command loop if and only if it is a wrapper that one client sealed for an id whose keys were made for another client |
| Scenarios.CrossTalkHappens | src/TunnelClient.cpp:80-105 | From any initial world with two clients there is a run, two clients beginning and the second taking the first one's reply, whose last message is such a wrapper: the server runs before it and not after |
| Scenarios.SecondHandshakeDisagrees | src/TunnelServer.cpp:208-334 | From every reachable world with a running server, a free slot and a client yet to begin there is a run on which the client agrees with its active session and, two messages later, its ClientHello and ClientACK having come again, has another address than that session |
| Scenarios.AcceptedAfterTermination | src/TunCallback.cpp:12-38 | From every such world there is a run on which a client has an active session and seals a packet, stops, and its session is terminated; the running server is still subscribed and writes exactly the bytes if and only if the id is recoverable |
| Scenarios.ConfiguredBeforeSession | src/TunnelClient.cpp:229-261 | From every such world there is a run that ends with the client configured, its entry at the server still pending and no session for its id |
| Runs.SoloRunShown | src/TunnelClient.cpp:54-261 | With encryption on, every exchange of one client alone over lossless channels that begins in a reachable world continues an honest run that led there |
| Runs.HandshakeSettles | src/TunnelClient.cpp:54-261 | From every such world an honest run leads to the client configured as its active session |
| World.OpensOnlyOwn | src/TunnelClient.cpp:167-176 | What a client can decrypt from the shared topic was sealed for its own id by a server with mirrored keys, and is a reply to it |
| Delivery.ServerToClient | src/TunnelServer.cpp:400-436 | A packet for an address an active session holds, sealed then or at any later moment, goes to a topic only that session's configured client subscribes to, and its callback writes exactly the bytes read if and only if the id is recoverable from the topic |
| Delivery.ClientToServer | src/TunnelClient.cpp:349-360 | A configured client's packet goes to its outbound topic; a running server is subscribed to it if and only if it ever activated a session for that id, and its callback writes exactly the bytes read if and only if the id is recoverable |
| Delivery.SubscribedIfActivated | src/TunnelServer.cpp:329-330 | In every run of the server, whatever messages arrive, it is subscribed to the outbound topic of an id if and only if some message activated a session for that id |
| Delivery.AcceptedForever | src/TunCallback.cpp:12-38 | What the server's callback accepts once it accepts as long as the server runs, active session or not |
| Delivery.HeaderNamesSlot | src/TunnelServer.cpp:400-404 | The destination printed from a header equals the string the pool of network a.b.c.0 issues for a slot exactly when it is a.b.c.(slot+1), all four octets compared |
| Delivery.GatewayIsNobodys | src/TunnelServer.cpp:18 | The server of network a.b.c.0 is a.b.c.1, and in no run does an entry hold that address |
| Delivery.PlainServerToClient | src/TunnelServer.cpp:420-433 | In plain mode, in every run, a packet for an address an active session holds goes out on the inbound topic of its id with exactly the bytes read, and its receiver writes these |
| Delivery.PlainAfterHandshake | src/TunCallback.cpp:12-38 | After a handshake in plain mode both directions use topics the other side subscribes to, and the bytes read arrive |
| Reader.PacketGoesOut | src/TunnelServer.cpp:386-437 | Whatever commands run before the lookup, before sealing and before publishing: exactly one packet is published, for the session that held the destination at the lookup and with the bytes read, or none when no session did |
| Reader.LoopRefined | src/TunnelServer.cpp:386-437 | Without commands in between, the interleaved reader publishes what the loop does |
| Reader.ReaderSafety | src/TunnelServer.cpp:386-437 | Under every interleaving of reader and command loop, each published packet stems from one lookup at which one active session held the destination; topic, key and bytes are of that moment |
| Ownership.AlwaysSound | src/TunnelServer.cpp:198-334 | After any sequence of messages, every non-empty address held by an entry has its slot marked used, no two entries of both maps share one, and pending and active records fit their id, keys and subscription |
| Ownership.ReverseIndexAlways | src/SessionMap.hpp:27-36 | In every run the lookup by a non-empty address is the inverse of the map from ids to addresses |
| Ownership.KeyAvailability | src/CryptoManager.cpp:40-43 | With encryption on, sealing for an entry awaiting its ClientACK or for an active session cannot fail |
| Ownership.TerminateReleasesOwnSlot | src/TunnelServer.cpp:100-101 | Termination frees exactly the used slot of the session's address, inside the vector |
| Ownership.ReleaseInBounds | src/ip_pool.cpp:38-53 | Releasing an issued address clears its slot and no other, or is refused without a dot in the base |
| Accounting.ExactAccounting | src/ip_pool.cpp:55-62 | In every run the allocated count is the number of entries with an address plus the number of stranded addresses |
| Accounting.AlwaysBalanced | src/TunnelServer.cpp:216-268 | The used slots are exactly those of held and stranded addresses, and no address is both |
| Accounting.PoolDrains | src/TunnelServer.cpp:100-101 | The pool is completely free exactly when no entry has an address and nothing was stranded |
| History.ActivationHistory | src/TunnelServer.cpp:273-334 | Every pending record is an earlier ServerHello; every active session is an earlier ServerHello for its id after which a ClientACK with its handshake identifier was consumed |
| History.HelloAckBalance | src/TunnelServer.cpp:208-334 | ServerHellos for an id = ServerACKs for it + resets of its pending entry + 1 while pending |
| History.NoResets | src/TunnelServer.cpp:192 | With encryption on and a strictly increasing clock no entry is reset, so hellos = acks + 1 while pending |
| History.RedeliveredAck | src/TunnelServer.cpp:279-283 | A ClientACK delivered again changes nothing and is not answered unless another ServerHello for the id was sent in between |
| History.ReleasedWasAllocated | src/ip_pool.cpp:28-50 | Every non-empty address a termination releases was allocated by an earlier ServerHello, and the slot cleared is the one that allocation set, between 1 and size-1 |
| Stranding.LostExactly | src/TunnelServer.cpp:198-334 | For every sound running server, which addresses a message strands, told from the state before it |
| Stranding.StrandsExactly | src/TunnelServer.cpp:330-334 | With encryption on, increasing clock and a dotted base, a message strands an address if and only if it is a ClientACK that activates over a session with an address, or a ClientHello for an id without keys taken while a slot is free; the latter ends the loop |
| Stranding.PoolFreeWithoutResets | src/TunnelServer.cpp:100-101 | In every mode and under every clock, when no pending entry was reset, nothing is pending and no session is active, the pool is free if and only if nothing was stranded |
| Stranding.PoolFreeWhenQuiet | src/TunnelServer.cpp:100-101 | With encryption on and increasing clock, once nothing is pending and no session is active, the pool is free if and only if nothing was stranded, so if and only if no message of those two kinds was taken |
| Stranding.SecondHandshakeStrands | src/TunnelServer.cpp:330-334 | In every sound running server, a ClientHello and ClientACK for an active id whose entry is back in its first state are both accepted and strand the session's address |
| Stranding.StrandedByTwoHandshakes | src/TunnelServer.cpp:330-334 | A run from the start, two handshakes under one id and a termination, that ends with nothing pending, nothing active, the first address stranded and its slot used |
| Stranding.ResetEntryKeepsAddress | src/TunnelServer.cpp:192 | With a repeated clock value a run ends with nothing pending, active or stranded and a slot still used, because the reset entry keeps its address |
| History.KeysNeverChange | src/CryptoManager.cpp:192 | No message replaces or removes a key pair |
| History.GeneratedIdFresh | src/CryptoManager.cpp:162 | Under a strictly increasing clock a generated id is new to the key table |
| History.OneKeyPerHello | src/CryptoManager.cpp:156-195 | Under a strictly increasing clock there is one key pair for every ClientHelloCrypto processed |
| History.SessionIdsDiffer | src/TunnelServer.cpp:233-236 | Under a strictly increasing clock and a collision-free digest no two ServerHellos carry the same session id |
| Solo.HandshakeCompletes | src/TunnelClient.cpp:54-261 | In encrypted and plain mode, from any sound server with a free slot and a fresh id, under every schedule the exchange ends within 40 moves, and only with client configured, session active and equal configs |
| Solo.HandshakeThenFarewell | src/TunnelClient.cpp:36-47 | Handshake and termination leave pool and active sessions as they were |
| Solo.ThirdWait | src/TunnelClient.cpp:229-261 | Over lossless channels the third wait configures the client with an active session if a payload arrives, and with a session still pending if the third poll stays empty |
| Solo.ConfiguredWithoutSession | src/TunnelClient.cpp:229-246 | In that situation three empty polls configure the client by the pending record while the server still waits for the ClientACK |
| Solo.ReachesAckWait | src/TunnelClient.cpp:54-226 | From every starting point, in both modes, a run leads to the third wait with the ClientACK still under way |
| Dispatch.DecodeInClear | src/TunnelServer.cpp:70-129 | What the loop makes of each message in the clear, on an encrypting server too |
| Dispatch.DecodeWrapped | src/TunnelServer.cpp:107-123 | What it makes of each wrapped message: terminations and nested wrappers are ignored, what does not open is an exception |
| Dispatch.MissingField | src/messages.h:54-281 | A text that lacks a field of its type cannot be read: an exception for the types the loop handles, ignored for the others as long as the type is there |
| Dispatch.MissingFieldWrapped | src/TunnelServer.cpp:107-123 | The same for a text inside a wrapper that opens |
| Dispatch.MalformedEnds | src/TunnelServer.cpp:68-70 | A payload that is no record, or one of a handled type without a field, ends the loop |
| Dispatch.FailsExactly | src/TunnelServer.cpp:60-133 | Exactly which messages end the command loop |
| Dispatch.EntriesNeverLeave | src/TunnelServer.cpp:332-334 | No id ever leaves the handshake map |
| TunnelServerClass.TunnelServer.constructor | src/TunnelServer.cpp:3-18 | The server starts with the full pool, the gateway address and empty tables |
| TunnelServerClass.TunnelServer.StartServer | src/TunnelServer.cpp:60-133 | The loop's final state and all it published are those of the run of the consumed messages, also when an exception ends it |
| TunnelServerClass.ConsumedAll | src/TunnelServer.cpp:62-64 | The messages consumed are those of the attempts that yield one |
| TunnelServerClass.ConsumedParts | src/TunnelServer.cpp:62-64 | They are consumed in the order of the attempts |
| TunnelServerClass.PublishedParts | src/TunnelServer.cpp:60-133 | What a run publishes is the answers to its first messages followed by those to the others |
| Server.AfterParts | src/TunnelServer.cpp:60-133 | A run is the run of its first messages and then of the others |
| TunnelServerClass.TunnelServer.ProcessMessage | src/TunnelServer.cpp:64-130 | One message changes the object as the step function says |
| TunnelServerClass.TunnelServer.HandleClientHandshake | src/TunnelServer.cpp:168-344 | The handler changes maps, pool and keys and replies as the step function says, for every message type |
| TunnelServerClass.TunnelServer.HandleTermination | src/TunnelServer.cpp:76-104 | Termination removes the session and releases its address, or changes nothing for an unknown id |
| Client.ServerTrusted | src/CryptoManager.cpp:255-286 | A client that verifies goes on exactly when a pinned identity signed the server's key, and otherwise throws with nothing stored or sent; one that goes on has wiped its secret |
| Client.GivesUpAfterThree | src/TunnelClient.cpp:80-95 | The third empty poll of the first two waits ends the client; until then an answer counts whenever it comes |
| Client.TunnelClient.SetupSession | src/TunnelClient.cpp:54-296 | Whatever the broker answers, the object ends as the polling machine does, publishes the same and is configured exactly when the handshake concluded |
| Client.TunnelClient.Wait | src/TunnelClient.cpp:80-87 | A polling loop returns the first answer among at most three polls, or none after three |
| IpPool.PoolRefinesSet | src/ip_pool.cpp:23-53 | Over any history of allocations and releases the pool answers like a finite set of octets with least-free allocation |
| IpPool.AllocateRefines | src/ip_pool.cpp:23-36 | The least free octet is taken, never 0, 1 or 255; "" exactly when all are taken |
| IpPool.ReleaseUndoesAllocate | src/ip_pool.cpp:38-53 | Releasing what was just allocated undoes it exactly when the network address has a dot |
| IpPool.ReleasePastTheEnd | src/ip_pool.cpp:48-50 | Octet size+1 passes the guard and names the slot past the end |
| IpPool.ReleaseExactly | src/ip_pool.cpp:38-53 | What release_ip does with any text, told from the part after its last dot: throws without a number, refuses octets below 2 and beyond size+1, clears the slot of the others |
| IpPool.CountTaken | src/ip_pool.cpp:55-62 | The count is the size of the set of taken octets |
| IpPool.BaseOfNetwork | src/ip_pool.cpp:15 | The prefix of a network address is all before its last part, whatever that contains |
| Packets.IssuedAsPrinted | src/ip_pool.cpp:15-28 | The pool of network a.b.c.0 issues a.b.c.(k+1) for slot k, as packet headers are printed |
| Packets.DottedQuad | src/helpers.h:19-23 | A printed address is its four octets in their order, separated by dots |
| IpPool.IPPool.Create | src/ip_pool.cpp:3-20 | Which network addresses and sizes are accepted, and the pool they give |
| IpPool.IPPool.AllocateIp | src/ip_pool.cpp:23-36 | The scanning loop allocates as the function says, in place |
| IpPool.IPPool.ReleaseIp | src/ip_pool.cpp:38-53 | Release in place, with its refusals and the exception of stoi |
| IpPool.IPPool.CountAllocated | src/ip_pool.cpp:55-62 | The counting loop returns the number of taken octets |
| Text.StoiReads | src/ip_pool.cpp:46 | stoi skips white space, takes a sign, ignores what follows the digits and throws beyond 32 bits |
| Text.StoiFindsNone | src/ip_pool.cpp:46 | Without a digit it throws |
| Text.StoiOfNatural | src/ip_pool.cpp:32-46 | Printing an octet and reading it back with stoi gives the octet |
| Sessions.FindByIpInverts | src/SessionMap.hpp:27-36 | With distinct addresses the first match is the only match, both ways |
| Sessions.KeyLeIsLexicographic | src/SessionMap.hpp:44 | The key order is lexicographic |
| Sessions.SessionMap.GetSessionByIp | src/SessionMap.hpp:27-36 | The scan in key order returns the holder with the first key, or nothing |
| Sessions.SessionMap.AddSession | src/SessionMap.hpp:12-15 | Stores the session under the id and changes nothing else |
| Sessions.SessionMap.GetSession | src/SessionMap.hpp:17-25 | Returns the session of the id, or nothing |
| Sessions.SessionMap.RemoveSession | src/SessionMap.hpp:38-41 | Removes the id and nothing else |
| Crypto.DirectionsDiffer | src/CryptoManager.cpp:173-180 | The two directions of a session use different keys |
| Crypto.KeysMirror | src/CryptoManager.cpp:164-180 | Both ends hold mirrored keys exactly when each used the other's public key |
| Crypto.FramingRoundTrip | src/CryptoManager.cpp:36-99 | A packet starts with the 24 octets of the nonce, is 40 octets longer than its payload and decrypts to it exactly under the key it was sealed with |
| Crypto.ShortPacketsRefused | src/CryptoManager.cpp:82-86 | Below 40 octets the 64-bit length wraps to at least 2^64-40, so the packet is always refused |
| Crypto.DecryptOnlyFramed | src/CryptoManager.cpp:68-99 | What decrypts was framed under the receiver's key from the plaintext that comes out |
| Crypto.UniqueIdentifierInjective | src/CryptoManager.cpp:162 | The last underscore splits an id into base and clock, whatever the base contains |
| Crypto.UniqueIdentifierSlash | src/CryptoManager.cpp:162 | An id has a slash exactly when its base has one |
| Crypto.CryptoManager.EstablishServerSession | src/CryptoManager.cpp:156-195 | Reply and key table after a ClientHelloCrypto; an id already there keeps its keys |
| Crypto.CryptoManager.EstablishClientSession | src/CryptoManager.cpp:255-286 | Keys are stored exactly when verification is skipped or an identity is pinned and made the signature over the server's key |
| Crypto.CryptoManager.GenerateClientHello | src/CryptoManager.cpp:197-203 | The ephemeral pair is kept and its public key announced |
| Crypto.CryptoManager.EncryptData | src/CryptoManager.cpp:36-64 | The buffer filled in place is nonce and ciphertext, or the id is unknown |
| Crypto.CryptoManager.DecryptData | src/CryptoManager.cpp:68-99 | The plaintext, or the error of the first step that fails |
| Messages.TypeNumbers | src/messages.h:12-22 | The number each type carries |
| Messages.ReadWrite | src/messages.h:54-281 | Which written message reads as which record: itself, and as a ServerACK whenever it has a handshake identifier |
| Topics.ExtractIsSecondSegment | src/helpers.h:28-37 | The extraction is the second segment of a topic of at least three, else empty, for all strings |
| Topics.ExtractExact | src/helpers.h:28-37 | Exactly when it recovers the id from a data topic |
| Topics.DefaultChannelLosesIds | src/main.cpp:31 | On the default channel it gives the same string for every id |
| Topics.DataTopicsInjective | src/TunnelServer.cpp:217-218 | Different ids or directions never share a data topic |
| Topics.DataTopicsAvoidCommands | src/TunnelServer.cpp:355-356 | No data topic is a command topic |
| Packets.DestinationIsOwn | src/TunnelServer.cpp:400-401 | A packet of at least 20 bytes is routed by its own destination, whatever the buffer held |
| Packets.PlainMode | src/TunCallback.cpp:15-38 | In plain mode both sides send the bytes as they are on the session's topics and the callback writes them |
| Packets.RoutedByOwnBytes | src/TunnelServer.cpp:386-436 | Each read with a whole header adds exactly its own bytes, for the session that holds its destination, whatever was read before; a failed read adds nothing |
| Packets.SentParts | src/TunnelClient.cpp:336-361 | The client's messages come in the order of its reads |
| Packets.SentOne | src/TunnelClient.cpp:336-361 | One message for each successful read, with its bytes as they are or sealed, none for a failed read |
| Packets.RefillKeeps | src/TunnelServer.cpp:387 | A read overwrites the front of the buffer and leaves the rest |
| Packets.TunCallback.MessageArrived | src/TunCallback.cpp:12-45 | The device receives the payload, with encryption on the decrypted one, or nothing when id, key or authenticity is missing |
| Packets.ServerTunRead | src/TunnelServer.cpp:382-438 | The loop over the refilled buffer publishes what routing each read by the buffer's header gives |
| Packets.ClientTunRead | src/TunnelClient.cpp:325-363 | The loop publishes every packet read on the outbound topic, and stops at a missing key |

## Left out

- libsodium itself: kx, secretbox, signatures and SHA-256 are symbolic or parameters; random draws and clock readings are inputs.
- The JSON text of cereal: a text is one symbolic octet, so the length of command messages is not modelled.
- paho connection handling: connecting, disconnects (which hand out a null message) and waiting for tokens.
- `system()` calls: routes, MTU and NAT rules, and with them the only use of the tunnel mode.
- Reading and writing key files, hex logging, `generate_server_hello`, builders, command line, signals and `stop_server`.
- The data race on the key table between reader thread and command loop: sealing reads the table in one step.
- Undefined behaviour of a release past the end of the vector: it is an outcome of its own that ends the run, and no run reaches it.
- Agreement of several concurrent clients without encryption: a client can take another client's ServerHello.
- MQTT wildcards (section 4.7 of MQTT Version 3.1.1): topics are compared as strings. An id that has a level `+`, or a channel name that does, subscribes to a filter; the claim that only one client subscribes to a topic is for names without such levels.
- Attackers on the `_TX` topic: only the server publishes there. On `_RX` anything may be published.
- World.ConfiguredByAck: one direction only, because a client may conclude on a repeated ServerHello although the server has activated its session; over lossless channels Solo.ThirdWait is exact.
- World.AgreesWithSession: a sufficient condition; the exact ones are Agreements.DisagreementStep and Agreements.AgreesExactly.
- Crypto.FramingRoundTrip: payloads up to the largest size a byte vector can have.
- Client.TunnelClient.SetupSession: the one C++ function is divided into its three waits; exceptions and exit are phases of the result.
- Packets.ServerTunRead: the loop alone against unchanging tables; the interleaving is in Reader, where each of its steps is taken on values.
- Liveness of a handshake among several clients: the code does not promise it, since a client may take another client's reply.
