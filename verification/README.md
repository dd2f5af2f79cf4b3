# Tunstile, modelled in Dafny

Tunstile is a WireGuard implementation built from state machines that do no I/O
of their own. This project models its protocol core, the per-peer driver and
index router around it, the cookie and load-guard exchange, and cryptokey
routing with the packet pipeline, and proves what they promise over every input
and every run. `dafny verify dfyconfig.toml` checks all of it.

How the pieces fit:

- **Cryptography is symbolic and needs no axioms** (`Crypto.dfy`). A `Term` is a
  key, hash, shared secret or ciphertext; an `Octet` is a raw byte or a cell of a
  term's encoding. Opening inverts sealing exactly when key, nonce and associated
  data agree, and this is proved.
- **The replay filter** (`Replay.dfy`) is a class over an array of 64-bit words
  that refines a set of accepted counters.
- **The peer machine** is written twice: as a value (`PeerSpec.dfy`) and as a
  class with four session slots updated in place (`Peer.dfy`), each method proved
  equal to the value's operation. `TwoParty.dfy` puts two machines on a network
  that drops, duplicates, reorders and misdelivers, and proves safety over every
  run. `PeerTheorems.dfy` says what one machine seals, opens and refuses.
- **References written apart from the model**: `Noise.dfy` is the
  Noise framework's own symmetric state, tokens and IKpsk2 pattern, which the
  handshake is proved to follow; `Layout.dfy` gives every message octet by octet.
- **The driver** is likewise a value (`ActorSpec.dfy`) and a class whose methods
  are the select arms (`Actor.dfy`). `ActorRuns.dfy` proves its invariant and
  `ActorTheorems.dfy` states what follows. Clock readings, jitter, fresh random
  values and socket results are inputs.
- **Effects of the driver's arms** are collected in `ArmEffects.dfy`;
  `WireLedger.dfy` ties what is on the wire to what was sealed,
  `Retransmission.dfy` bounds a handshake attempt over every run, `Rekeying.dfy`
  says exactly when an arm starts one, and `Deadlines.dfy` when the other timers
  are armed.
- **Routing of receiver indices** is covered by `Router.dfy` (the table, and its
  agreement with any actors), `TunnelRouting.dfy` (the same with the real
  actors) and `PurgeFinal.dfy` (other threads interleaved inside one update).
- **Passive keepalive** is proved on the session timers (`KeepaliveLink.dfy`) and
  carried to two real actors whose steps all project to that link
  (`KeepaliveActors.dfy`), from the moment a session is established
  (`KeepaliveStart.dfy`).
- **End to end** (`EndToEnd.dfy`): two drivers over the two-party network. Every
  arm is a run of its machine there, so what one application receives is traced
  to what was submitted at the other end.
- **MACs and cookies** are in `Cookies.dfy`, the **load guard** in
  `LoadGuard.dfy`, the **message layout** in `Wire.dfy`, **prefix routing** in
  `AllowedIps.dfy` and the **packet pipeline** in `Pipeline.dfy`.

Runs assume what the protocol's design assumes of randomness and keys: ephemeral
secrets and receiver indices are fresh when drawn, initiation timestamps
increase, the two static keys differ, and the network repeats and reorders
messages but does not forge them. Time is counted in nanoseconds.

Five things the code does that its description does not say:

- An empty payload may be submitted. It arms its sender's unanswered-data
  deadline, but its receiver owes no answer, so the deadline is reached on a link
  of any speed. `KeepaliveLink.NeverFiresExactly` gives the exact condition and
  `KeepaliveActors.EmptyPayloadFires` the run.
- The load guard counts in fixed windows, so a second can admit more than the
  rate its documentation gives as the threshold (protocol/src/peer/load.rs:10-12).
  `LoadGuard.RateHoldsExactly` says from which states the rate holds, and
  `LoadGuard.RateBound` gives the exact maximum for every interval: twice the
  rate strictly inside a new guard's first second, whose window no message
  opened, and one less than twice the rate in any later one.
- A payload can wait with no timer armed at all: submitted before any endpoint is
  known, then held behind a session the peer has not confirmed.
  `ActorTheorems.UnconfirmedSessionHoldsPayloads` gives the run.
- `Bind` and `Retire` name a public key, not a channel, so one left over from an
  earlier actor reaches the key's new registration.
  `PurgeFinal.StaleBindReachesNewActor` gives the run.
- An index retired by one peer can be drawn by another before the retire is
  applied, since no machine answers to it. If the first peer is then removed, its
  purge takes the index with it and the second peer stays unreachable under it.
  `IndexAgreement.UnguardedRemovalBreaks` gives the run, and
  `IndexAgreement.RemovalExactly` the exact condition: a removal is harmless if
  and only if the table routes no index to the removed key that is live at
  another peer.

## Model

| member | source | states |
|---|---|---|
| `TwoParty.AdoptionAgreement` | protocol/src/peer.rs:298-314 | after any run, whenever a response is accepted the responder still holds the mirror-keyed session in `next`, unused: crossed keys and indices, zero counters, empty replay windows |
| `TwoParty.KeyConfirmation` | protocol/src/peer.rs:331-351 | after any run, a party that can seal does so under a session its responder installed and its initiator adopted; so was every packet ever sealed |
| `TwoParty.ResponderWaits` | protocol/src/peer.rs:363-401 | a responder session becomes the send session only after the initiator adopted it and a packet confirmed it; the other end of the same handshake mirrors it |
| `TwoParty.AtMostOnceDelivery` | protocol/src/peer.rs:331-409 | in any run, across every rotation of the slots, no sealed packet is returned twice, each was sealed by the other party, and no two packets under one key share a counter |
| `TwoParty.DeliveryIsFaithful` | protocol/src/peer.rs:363-401 | what `decrypt` returns is the payload sealed at that counter by the other party and was not returned before |
| `TwoParty.DeliveredExactly` | protocol/src/peer.rs:363-401 | a sealed packet is returned if and only if one of the three slots holds, under its index, the session it was sealed for, less than 180 s old, with the counter at most 8128 behind, for the first time |
| `PeerTheorems.DecryptExactly` | protocol/src/peer.rs:363-401 | the whole answer to any sealed packet: which slot reads it, each refusal (no such index, 180 s, wrong key, replayed), the payload, the confirmation, the index pushed out and the new state |
| `PeerTheorems.OpensInEverySlot` | protocol/src/peer.rs:370-389 | with distinct indices a packet for any held session, the one before the last rotation included, is opened to its payload |
| `PeerTheorems.RekeyLosesNothing` | protocol/src/peer.rs:298-409 | what the session in use would have opened is still opened after a response is adopted over it |
| `PeerTheorems.EncryptExactly` | protocol/src/peer.rs:331-351 | sealing succeeds if and only if an endpoint and a session under 180 s are held, the buffer has 32 octets more than the payload and the counter is below 2^64 - 2^13 - 1; then the packet is the one for that counter, otherwise nothing changes |
| `PeerTheorems.ForeignRefused` | protocol/src/peer.rs:383-389 | octets that are no packet of the addressed session are refused and change nothing |
| `TwoParty.FirstPacketConfirms` | protocol/src/peer.rs:298-401 | progress: the first packet the adopter seals is opened by the waiting responder, confirms its session and leaves both ends mirrored |
| `TwoParty.StepKeeps` | protocol/src/peer.rs:209-409 | every action of either party and of the network keeps the two-party invariant |
| `TwoParty.RunKeeps` | protocol/src/peer.rs:209-409 | so does every run, of any length |
| `TwoParty.InitiateKeeps` | protocol/src/peer.rs:209-237 | initiating, including over an earlier pending handshake, keeps the invariant |
| `TwoParty.DeliverInitKeeps` | protocol/src/peer.rs:252-289 | answering any initiation ever sent, in any order, keeps the invariant |
| `TwoParty.DeliverResponseKeeps` | protocol/src/peer.rs:298-314 | delivering any response ever sent to either party keeps the invariant |
| `TwoParty.SealKeeps` | protocol/src/peer.rs:331-351 | sealing keeps the invariant, in which no two packets under one key share a counter |
| `TwoParty.DeliverDataKeeps` | protocol/src/peer.rs:363-401 | delivering any packet ever sealed to either party, including one that confirms and rotates, keeps the invariant |
| `Replay.ReplayFilter.constructor` | protocol/src/transport.rs:61-68 | a new filter stands for the empty set |
| `Replay.ReplayFilter.ClearSlots` | protocol/src/transport.rs:79-86 | a forward jump zeroes the slots of exactly the blocks entered, for jumps of any size, and leaves the rest of the window |
| `Replay.ReplayFilter.Mark` | protocol/src/transport.rs:87-93 | the bit test is membership in the accepted set, and setting it inserts the counter and nothing else |
| `Replay.ReplayFilter.Validate` | protocol/src/transport.rs:72-94 | true exactly when the counter is below the message limit, ahead of or within 8128 of the newest, and never accepted; the new window is determined |
| `Replay.SlotsDoNotAlias` | protocol/src/transport.rs:46-53 | no two of the 128 blocks of one window share a ring slot |
| `Replay.AdvanceKeepsWindow` | protocol/src/transport.rs:76-86 | after clearing, the words still represent exactly the accepted counters of the moved window |
| `Replay.BitIsMembership` | protocol/src/transport.rs:87-93 | inside the window a set bit means accepted, both ways |
| `Replay.MarkKeepsWindow` | protocol/src/transport.rs:87-93 | setting one bit represents the set with that one counter added |
| `Replay.RememberedIffPassed` | protocol/src/transport.rs:72-94 | over any sequence of queries a counter is remembered exactly when some query let it through |
| `Replay.PassesAtMostOnce` | protocol/src/transport.rs:72-94 | in any sequence of queries no counter passes twice |
| `Replay.RefusedOnlyForCause` | protocol/src/transport.rs:72-94 | a query is refused if and only if its counter is at the message limit, more than 8128 behind one that passed, or passed before |
| `TransportData.ReceivedOfSent` | protocol/src/transport.rs:134-184 | a sealed packet opens to its counter and payload exactly at the session with that index and key |
| `TransportData.ReceivedWasSent` | protocol/src/transport.rs:168-184 | whatever is accepted is exactly a packet sealed for this index and key |
| `TransportData.HeaderFields` | protocol/src/transport.rs:134-157 | type, receiver and counter read back from the header as written |
| `TransportData.Transport.constructor` | protocol/src/transport.rs:109-123 | a transport starts at counter zero |
| `TransportData.Transport.Send` | protocol/src/transport.rs:134-157 | writes exactly the packet for the current counter into the required prefix and advances the counter, or refuses (counter limit, short buffer) and changes nothing |
| `TransportData.Transport.Receive` | protocol/src/transport.rs:168-184 | accepts exactly the packets sealed for this index and key, leaving the plaintext at the front of the buffer |
| `Crypto.OpenWithin` | protocol/src/crypto.rs:70-104 | in-place decryption with the overlapping move leaves exactly the plaintext in front, and an unopened buffer untouched |
| `Crypto.OpenOfSeal` | protocol/src/crypto.rs:42-66 | opening inverts sealing exactly when key, counter and associated data agree |
| `Crypto.Kdf` | protocol/src/crypto.rs:159-170 | the loop computes the chained outputs for every length from 1 to 255 |
| `Crypto.KdfInjective` | protocol/src/crypto.rs:159-170 | outputs determine the key, the input and their position |
| `Crypto.TausAreKdfOutputs` | protocol/src/crypto.rs:159-170 | the one-, two- and three-output derivations of the handshake are outputs of that loop |
| `Crypto.DiffieHellmanAgrees` | protocol/src/handshake.rs:149-150 | both holders compute the same secret, which determines the pair |
| `Crypto.LittleEndianRoundTrip` | protocol/src/transport.rs:142-149 | reading back the little-endian octets of a number gives the number |
| `Handshake.InitiationRead` | protocol/src/handshake.rs:132-187 | initiating fails exactly toward a low-order key; the addressee and nobody else recovers the key and timestamp and reaches the same chaining key and hash |
| `Handshake.ResponseRead` | protocol/src/handshake.rs:313-368 | a pending initiation accepts a response if and only if it answers that very initiation under the same preshared key and is read with the static secret that made it |
| `Handshake.HandshakeAgreement` | protocol/src/handshake.rs:132-399 | for all keys, indices, timestamps and preshared keys the four steps compose, with equal chaining keys and crossed transport keys and indices, and no other static secret completes them |
| `Noise.InitiationIsNoise` | protocol/src/handshake.rs:249-310 | the initiation is the first IKpsk2 message, `e, es, s, ss` and the timestamp, and leaves its chaining key and hash |
| `Noise.ResponseIsNoise` | protocol/src/handshake.rs:191-243 | the response is the second, `e, ee, se, psk` and an empty payload, continued from that transcript |
| `Noise.KeysAreSplit` | protocol/src/handshake.rs:371-399 | the transport keys are the split of the final chaining key, each end sending under its own half |
| `Handshake.ChainDeterminesHandshake` | protocol/src/handshake.rs:191-243 | the responder chaining key determines its ephemeral secret, the initiation answered and the preshared key |
| `Wire.HandshakeOverTheWire` | protocol/src/handshake.rs:132-399 | the same on message octets with MACs written by any generator state: both MACs verify at their addressees, both messages read back as sent, the response dispatches to the initiator index, and the keys mirror |
| `Wire.WriteInitSealed` | protocol/src/handshake.rs:279-292 | after the clear fields the buffer holds exactly the body of the initiation |
| `Wire.WriteResp` | protocol/src/handshake.rs:206-231 | the buffer holds exactly the body of the response |
| `Wire.InitRoundTrip` | protocol/src/handshake.rs:30-42 | an initiation written to the wire reads back as itself, whatever its MAC fields, and dispatches as an initiation |
| `Wire.RespRoundTrip` | protocol/src/handshake.rs:44-55 | a response written to the wire reads back as itself and dispatches to its receiver index |
| `Wire.DataDispatch` | protocol/src/lib.rs:65-97 | a data packet dispatches to the index its sender addressed |
| `Layout.InitLayout` | protocol/src/handshake.rs:31-42 | an initiation octet by octet: type, sender, ephemeral, static, timestamp and both MACs, with keys, labels and offsets |
| `Layout.RespLayout` | protocol/src/handshake.rs:44-55 | a response octet by octet |
| `Layout.CookieLayout` | protocol/src/cookies.rs:187-221 | a cookie reply octet by octet: the prompting index, the nonce, and what is sealed under which key and bound to which MAC |
| `Layout.DataLayout` | protocol/src/transport.rs:134-157 | a data packet octet by octet, counter digits included |
| `Layout.DispatchExactly` | protocol/src/lib.rs:65-97 | which octets are dispatched at all, and which are refused for their length or their type |
| `Layout.Mac1Exactly` | protocol/src/cookies.rs:157-165 | exactly which octets carry a valid first MAC for a key |
| `Layout.Mac2Exactly` | protocol/src/cookies.rs:176-182 | exactly which carry a valid second one for a source and secret |
| `Wire.CookieDispatch` | protocol/src/lib.rs:65-97 | a cookie reply dispatches to the sender index of the handshake that prompted it |
| `PeerMachine.Session.constructor` | protocol/src/peer/session.rs:37-43 | a new session has zero counter and an empty window |
| `PeerMachine.Session.Send` | protocol/src/peer/session.rs:57-59 | sealing equals the value operation on this session |
| `PeerMachine.Session.Receive` | protocol/src/peer/session.rs:61-70 | opening then replay check equals the value operation: the window moves only for authentic packets |
| `PeerMachine.Peer.constructor` | protocol/src/peer.rs:165-178 | a new peer has empty slots and a generator addressed to its key |
| `PeerMachine.Peer.SetPresharedKey` | protocol/src/peer.rs:182-184 | changes the preshared key only, keeping a pending handshake |
| `PeerMachine.Peer.SetEndpoint` | protocol/src/peer.rs:198-200 | changes the endpoint only |
| `PeerMachine.Peer.Initiate` | protocol/src/peer.rs:209-237 | the state moves as the value operation, and the buffer starts with exactly the initiation octets and MACs, the rest untouched; every failure leaves the state and the generator |
| `PeerMachine.Peer.FinishInit` | protocol/src/handshake.rs:280-297 | completes the written fields and MACs of an initiation |
| `PeerMachine.Peer.AbandonHandshake` | protocol/src/peer.rs:241-243 | clears the pending handshake and returns its index |
| `PeerMachine.Peer.Respond` | protocol/src/peer.rs:252-289 | the state moves as the value operation (stale timestamps refused, `next` replaced), and the buffer starts with exactly the response octets and MACs |
| `PeerMachine.Peer.FinishResp` | protocol/src/handshake.rs:200-234 | writes the fields and MACs of a response |
| `PeerMachine.Peer.Install` | protocol/src/peer.rs:282-288 | puts a fresh unconfirmed session in `next` and returns the displaced index |
| `PeerMachine.Peer.CookieReply` | protocol/src/peer.rs:319-323 | the generator moves as its value operation and nothing else does |
| `PeerMachine.Peer.HandshakeResponse` | protocol/src/peer.rs:298-314 | reads the octets; adopts only an authentic response to the pending initiation, and otherwise changes nothing |
| `PeerMachine.Peer.AdoptCurrent` | protocol/src/peer.rs:404-409 | rotates current to previous in place, moving the session object with its counter and filter, and returns the dropped index |
| `PeerMachine.Peer.Encrypt` | protocol/src/peer.rs:331-351 | seals under `current` unless absent or expired |
| `PeerMachine.Peer.ReceiveOn` | protocol/src/peer.rs:383-389 | opens on the slot that holds the index, changing that session only |
| `PeerMachine.Peer.Confirm` | protocol/src/peer.rs:390-395 | an authentic packet moves the endpoint; one on `next` also promotes that session, and nothing else changes |
| `PeerMachine.Peer.Decrypt` | protocol/src/peer.rs:363-401 | equals the value operation, all error cases included |
| `ActorTheorems.FifoAndConservation` | tunnel/src/actor.rs:409-506 | in every reachable state the sealed payloads are submissions at strictly increasing positions; every submission was sealed, evicted or cleared once or is queued; the queue is the tail of the submissions, at most 128; while it is non-empty sealing is refused, now and later |
| `ActorTheorems.NoStrandedPayloads` | tunnel/src/actor.rs:194-407 | in every reachable state waiting payloads imply a scheduled attempt, no endpoint, or an unconfirmed session; a pending handshake has a timer; a held session has an endpoint; the two session deadlines are never both armed |
| `ActorTheorems.UnconfirmedSessionHoldsPayloads` | tunnel/src/actor.rs:332-372 | the third case is real: a reachable state with a queued payload and no timer of any kind |
| `ActorTheorems.BatchesPartition` | tunnel/src/actor.rs:426-493 | for any payloads, sealed prefix and segment limit the batches concatenate to the sealed packets in order, each of one size and at most 65,535 octets or one segment |
| `ActorTheorems.FlushBatches` | tunnel/src/actor.rs:426-493 | a flush puts on the wire exactly what it sealed, in such batches, also when sealing stalls |
| `Retransmission.RetransmissionBound` | tunnel/src/actor.rs:555-572 | in every reachable state one attempt has made at most 18 initiations |
| `Retransmission.AttemptAnchored` | tunnel/src/actor.rs:231-236 | while an attempt is in flight only its own timer or its completion changes it |
| `Retransmission.UnansweredAttempt` | tunnel/src/actor.rs:555-572 | an unanswered attempt amid any other arms, under exact timers, with sends up to any `gap` after the reading they belong to: it is in flight, younger than 95.334 s plus the gap and after at most 18 initiations, or an event of the run gave it up, at least 90 s in, clearing the queue; so none is in flight once the clock is past that bound |
| `Retransmission.AttemptEnds` | tunnel/src/actor.rs:61-80 | the same from any state of an attempt in flight |
| `Retransmission.SeventeenOrEighteen` | tunnel/src/actor.rs:555-572 | an attempt given up with sends within 291 ms of their timers has made 17 or 18 initiations |
| `Retransmission.StepAims` | tunnel/src/actor.rs:267-407 | no arm forgets a known endpoint or changes the peer key |
| `WireLedger.WireCarriesSealed` | tunnel/src/actor.rs:426-493 | in every reachable state the trains handed to the socket, concatenated, are one data packet per sealed payload, carrying it, in order |
| `WireLedger.CarriesOne` | protocol/src/transport.rs:134-157 | a data packet carries one payload only |
| `ArmEffects.SealedPackets` | tunnel/src/actor.rs:447-468 | the sealed packets are the payloads under consecutive counters of the current session, and nothing else of the machine moves |
| `ArmEffects.FlushEffect` | tunnel/src/actor.rs:426-506 | what a flush changes: wire, ledger, counter, and the session timers only when everything was sealed |
| `ArmEffects.KeepaliveEffect` | tunnel/src/actor.rs:508-547 | a keepalive uses one counter and stops owing; a refused one gives the session timers up |
| `ActorRuns.StepKeeps` | tunnel/src/actor.rs:599-644 | every arm of the select loop, cookie replies included, keeps the actor invariant |
| `ActorRuns.RunKeeps` | tunnel/src/actor.rs:599-644 | so does every run |
| `ActorRuns.FlushSendsKeeps` | tunnel/src/actor.rs:426-506 | flushing keeps order, conservation and the timer invariants on both the complete and the stalled path |
| `ActorRuns.SealAllStops` | tunnel/src/actor.rs:447-468 | sealing stops early only where the machine refuses, now and from then on |
| `ActorRuns.RecvDataKeeps` | tunnel/src/actor.rs:280-331 | a received packet, confirming or not, keeps the invariant |
| `ActorRuns.RecvRespKeeps` | tunnel/src/actor.rs:373-399 | adopting a session and flushing what waited keeps the invariant |
| `ActorRuns.HandshakeDueKeeps` | tunnel/src/actor.rs:555-572 | retransmitting and abandoning keep the invariant |
| `ActorTheorems.SegmentsExactly` | tunnel/src/actor.rs:655-659 | a number of segments fits one send if and only if it is one, or within the offload limit and 65,535 octets |
| `ActorSpec.MaxBatchSegments` | tunnel/src/actor.rs:655-659 | at least one segment, and no more than fit one message unless it is one |
| `ActorSpec.BatchEnd` | tunnel/src/actor.rs:440-446 | a train holds payloads of one size only and stays within the limit |
| `ActorTheorems.TrainIsMaximal` | tunnel/src/actor.rs:436-486 | every train a flush makes is as long as it can be: it ends at the last sealed packet, before another size, or where one more segment would exceed the offload limit or 65,535 octets |
| `Rekeying.BeginsExactly` | tunnel/src/actor.rs:267-597 | over every arm, with no attempt in flight: one is started if and only if the arm has its reason (connecting, a stalled flush, 2^60 messages, something sent by an initiator after 120 s, something received by one after 165 s, an unanswered-data or persistent timer) |
| `Rekeying.FlushBeginsExactly` | tunnel/src/actor.rs:487-506 | the attempt a flush leaves, if any, with its anchor and retry time: stalled, worn, or sent on an initiator session at least 120 s old |
| `Rekeying.KeepaliveBeginsExactly` | tunnel/src/actor.rs:508-547 | the same for a keepalive; a refused one starts nothing |
| `Rekeying.ReceiptExactly` | tunnel/src/actor.rs:280-331 | what a receipt does: clears the unanswered-data deadline, owes an answer after 10 s for a payload, starts the responder timers when it confirms, and rekeys an initiator session at least 165 s old |
| `Deadlines.FlushArms` | tunnel/src/actor.rs:105-112 | a flush that got something out owes nothing and expects an answer 15 s and the jitter after the first unanswered one; a stalled one drops the timers |
| `Deadlines.KeepalivePays` | tunnel/src/actor.rs:112-114 | a keepalive pays what is owed and leaves the other deadline |
| `Deadlines.ExpiryExactly` | tunnel/src/actor.rs:574-578 | the timers of a session are usable for 180 s, and its expiry drops them and nothing else |
| `Deadlines.QueueExactly` | tunnel/src/actor.rs:409-416 | what a flush leaves queued: the newest 128 of what waited and what was refused, the oldest evicted |
| `Deadlines.FlushSendsLast` | tunnel/src/actor.rs:494-506 | which reading a flush leaves as the time something last went out |
| `Deadlines.KeepaliveSendsLast` | tunnel/src/actor.rs:508-547 | the same for a keepalive |
| `Deadlines.ResponseSends` | tunnel/src/actor.rs:332-372 | and for an answered initiation |
| `Deadlines.PersistentExactly` | tunnel/src/actor.rs:549-553 | the persistent keepalive is due an interval after that, once configured and an endpoint is known |
| `Deadlines.SpawnedPersistent` | tunnel/src/actor.rs:664-698 | for an actor that never sent anything, an interval after its start |
| `Deadlines.PersistentNeverSpins` | tunnel/src/actor.rs:587-597 | whatever comes of it, its timer is next due at least an interval later |
| `Deadlines.ReadyExactly` | tunnel/src/actor.rs:258-265 | in every reachable state the application has been told of a session if and only if the machine has one to send on |
| `Actor.PeerActor.constructor` | tunnel/src/actor.rs:664-698 | a spawned actor is the initial value |
| `Actor.PeerActor.RetireIndex` | tunnel/src/actor.rs:178-184 | queues a retire message when there is an index |
| `Actor.PeerActor.Announce` | tunnel/src/actor.rs:186-190 | queues the retire before the bind |
| `Actor.PeerActor.SendHandshake` | tunnel/src/actor.rs:194-229 | equals the value operation: attempt timer, retire then bind, last-send |
| `Actor.PeerActor.EnsureHandshake` | tunnel/src/actor.rs:231-236 | starts an attempt only when none is in flight |
| `Actor.PeerActor.Stage` | tunnel/src/actor.rs:409-416 | appends and evicts the oldest beyond 128 |
| `Actor.PeerActor.FlushStaged` | tunnel/src/actor.rs:418-424 | takes the whole queue into a flush |
| `Actor.PeerActor.FindBatchEnd` | tunnel/src/actor.rs:440-446 | the scanning loop finds the end of the train |
| `Actor.PeerActor.SealBatch` | tunnel/src/actor.rs:447-468 | the sealing loop seals a train until refused |
| `Actor.PeerActor.SendTrain` | tunnel/src/actor.rs:437-482 | one pass of the outer loop seals and sends exactly the next train |
| `Actor.PeerActor.SealAndSend` | tunnel/src/actor.rs:436-486 | the nested loops together equal sealing everything and cutting it into trains |
| `Actor.PeerActor.Restage` | tunnel/src/actor.rs:487-493 | a stalled flush drops the session timers, requeues the rest and starts an attempt |
| `Actor.PeerActor.AfterSend` | tunnel/src/actor.rs:494-506 | a complete flush arms the timers and rekeys an old or worn session |
| `Actor.PeerActor.FlushSends` | tunnel/src/actor.rs:426-506 | equals the value operation |
| `Actor.PeerActor.SendKeepalive` | tunnel/src/actor.rs:508-547 | equals the value operation, including the refused case |
| `Actor.PeerActor.SessionEstablished` | tunnel/src/actor.rs:258-265 | flushes what waited; an initiator with nothing queued confirms with a keepalive |
| `Actor.PeerActor.Connect` | tunnel/src/actor.rs:270-274 | sets the endpoint and starts an attempt |
| `Actor.PeerActor.ApplyUpdate` | tunnel/src/actor.rs:238-254 | keep, clear and set for each setting |
| `Actor.PeerActor.Submit` | tunnel/src/actor.rs:275-279 | submitting is a flush of the submitted payloads |
| `Actor.PeerActor.ReceiveData` | tunnel/src/actor.rs:280-331 | equals the value arm |
| `Actor.PeerActor.ReceiveInit` | tunnel/src/actor.rs:332-372 | equals the value arm |
| `Actor.PeerActor.ReceiveResponse` | tunnel/src/actor.rs:373-399 | equals the value arm |
| `Actor.PeerActor.ReceiveCookie` | tunnel/src/actor.rs:400-405 | changes nothing of the driver; the cookie goes to the generator |
| `Actor.PeerActor.HandshakeDue` | tunnel/src/actor.rs:555-572 | equals the value arm |
| `Actor.PeerActor.SessionExpired` | tunnel/src/actor.rs:574-578 | drops the session timers only |
| `Actor.PeerActor.NewHandshakeDue` | tunnel/src/actor.rs:580-585 | disarms the deadline and starts an attempt |
| `Actor.PeerActor.PersistentKeepaliveDue` | tunnel/src/actor.rs:587-597 | a keepalive on a usable session, otherwise an attempt |
| `KeepaliveStart.NoSpuriousHandshake` | tunnel/src/actor.rs:258-399 | from the establishment of a session: an accepted response with any queue, other arms, then the first packet at a responder with any queue, then any arms that keep the session. On a lossless ordered link with a round trip under 5 s and prompt timers, unless a flush is made of empty payloads only, the unanswered-data deadline is never reached at either end, the two deadlines are never both armed, and every packet is accepted |
| `KeepaliveStart.EstablishOpens` | tunnel/src/actor.rs:373-399 | after an accepted response whatever waited at the initiator is on its way and every armed deadline is covered by it |
| `KeepaliveStart.Confirms` | tunnel/src/actor.rs:280-331 | the first packet opens on the waiting session, which becomes the one in use, starts its timers and releases the queue |
| `KeepaliveStart.FirstReady` | tunnel/src/actor.rs:258-265 | after it both ends use the session and every armed deadline is covered |
| `KeepaliveStart.IdleNeverFires` | tunnel/src/actor.rs:105-120 | the same from any pair that holds a session with nothing armed or in flight |
| `KeepaliveStart.SpawnedWait` | tunnel/src/actor.rs:332-399 | two freshly spawned actors with one preshared key reach that start by their own arms, for all keys, indices and timestamps |
| `KeepaliveStart.QuietStart` | tunnel/src/actor.rs:258-265 | a handshake with nothing queued at either end leaves the pair idle |
| `KeepaliveStart.SpawnedBecomeIdle` | tunnel/src/actor.rs:332-399 | so an idle pair is reached from two spawned actors |
| `KeepaliveActors.ReadyNeverFires` | tunnel/src/actor.rs:105-120 | from any state in which every armed deadline is covered, no run of any arms that keep the session reaches a deadline |
| `KeepaliveActors.EmptyPayloadFires` | tunnel/src/actor.rs:496-500 | from any idle pair and on a link of any delay, one submitted empty payload makes the deadline fire |
| `KeepaliveActors.StepMatches` | tunnel/src/actor.rs:267-547 | every step of two actors on one kept session is a step of the link, or nothing there, packets and timers included |
| `KeepaliveActors.Receipt` | tunnel/src/actor.rs:280-331 | a packet from the link opens on the session, is new to its window and moves its timers |
| `KeepaliveLink.NeverFiresExactly` | tunnel/src/actor.rs:580-585 | for every delay: no run at either end reaches an armed deadline if and only if a round trip is under 5 s and no flush consists of empty payloads only |
| `KeepaliveLink.RunKeeps` | tunnel/src/actor.rs:105-120 | with delivery in any order, every armed deadline stays covered by travelling data, an owed keepalive or a travelling answer |
| `EndToEnd.InboundIsSubmitted` | tunnel/src/actor.rs:267-407 | two drivers over a network that loses, duplicates, reorders and misdelivers, after every run: what one hands to its application was submitted at the other end, each submission at most once, and in submission order if and only if its packets arrived in the order of sealing |
| `EndToEnd.StepKeeps` | tunnel/src/actor.rs:599-644 | every move of either driver keeps the books that tie inbound payloads to deliveries and sealed payloads to packets |
| `EndToEnd.ArmMoves` | tunnel/src/actor.rs:267-407 | every arm but a data receipt is a run of the peer machine on the network: the same machine results, and only the listed packets and keepalives are sealed |
| `EndToEnd.ReceiptMoves` | tunnel/src/actor.rs:280-331 | a data receipt is a delivery on the network, then such a run, flush and rekey included |
| `EndToEnd.EstablishedMoves` | tunnel/src/actor.rs:258-265 | so is taking a session into use |
| `EndToEnd.TakenWasSealed` | tunnel/src/actor.rs:280-331 | every payload handed to the application came in a packet the other driver sealed for a submission |
| `Router.RoutingTable.constructor` | tunnel/src/router.rs:42-47 | starts with no peer registered |
| `Router.RoutingTable.RegisterPeer` | tunnel/src/router.rs:49-73 | refuses a registered key, else adds exactly that entry |
| `Router.RoutingTable.RemovePeer` | tunnel/src/router.rs:75-80 | removes exactly that entry and queues its purge |
| `Router.IndexRouter.constructor` | tunnel/src/router.rs:133-137 | starts with no index routed |
| `Router.IndexRouter.ApplyControl` | tunnel/src/router.rs:139-165 | bind, retire and purge change the map as specified, each guarded by the registry entry it names |
| `IndexAgreement.IndexCacheAgreement` | tunnel/src/router.rs:139-165 | with indices drawn outside every other live set, after any interleaving of registrations, harmless removals, re-registrations, actor arms, messages of removed actors and table updates, folding the queue over the table routes exactly the live indices of the registered peers, each to its peer |
| `IndexAgreement.RemovalExactly` | tunnel/src/router.rs:75-80 | after any such run a removal keeps that agreement if and only if the table routes no index to the removed key that is live at another peer |
| `IndexAgreement.FreshDrawsAgree` | tunnel/src/router.rs:139-165 | when indices are drawn outside what the table and the queue hold for other peers, every removal is harmless and agreement holds without the guard |
| `IndexAgreement.UnguardedRemovalBreaks` | tunnel/src/router.rs:139-165 | a run of live-fresh draws after which a removal leaves an index of another peer routed nowhere |
| `IndexAgreement.StepKeeps` | tunnel/src/router.rs:49-80 | each of those steps keeps the per-index invariant: the table entry and the queued messages about an index end in its holder |
| `IndexAgreement.DrainAgrees` | tunnel/src/router.rs:139-165 | draining the queue from any such state ends in agreement |
| `TunnelRouting.PacketsReachTheirPeer` | tunnel/src/lib.rs:207-226 | with many real actors coming and going by harmless removals, their indices drawn outside every live set: whenever the biased select reaches packets, an index is routed to a peer if and only if it is one of the at most four of its pending handshake and sessions, and nothing else is routed |
| `TunnelRouting.RemovalExactly` | tunnel/src/lib.rs:207-226 | after any run of the tunnel a removal is harmless if and only if the table routes no index to that peer which another machine answers to |
| `TunnelRouting.ArmMessages` | tunnel/src/actor.rs:178-229 | every arm emits messages that take its old live set to its new one, binding only fresh indices |
| `TunnelRouting.StepExtends` | tunnel/src/actor.rs:178-190 | every arm only appends to its message queue |
| `TunnelRouting.StepKeeps` | tunnel/src/lib.rs:207-226 | every step of the whole tunnel keeps the agreement |
| `PurgeFinal.PurgeIsFinal` | tunnel/src/router.rs:139-165 | with other threads interleaved between the registry read and the map update, once a purge is applied no later state of any run routes to that channel, even if the key is registered again |
| `PurgeFinal.StaleBindReachesNewActor` | tunnel/src/router.rs:139-150 | a bind still queued from an earlier actor lands on the new registration of its key |
| `PurgeFinal.StepKeeps` | tunnel/src/router.rs:49-80 | each atomic half-step keeps the invariant behind it |
| `Cookies.Mac1Verifies` | protocol/src/cookies.rs:157-165 | a generated mac1 verifies at the addressee and nowhere else |
| `Cookies.Mac2Verifies` | protocol/src/cookies.rs:176-182 | a generated mac2 verifies for exactly the source and secret behind a stored cookie at most 120 s old |
| `Cookies.ReplyAccepted` | protocol/src/cookies.rs:109-136 | a reply is accepted if and only if it answers the mac1 sent last under the right key; a rejected one changes nothing |
| `Cookies.CookieRoundTrip` | protocol/src/cookies.rs:187-221 | after a reply is processed every later handshake, however many were sent between, verifies for that source and secret if and only if within 120 s, and for no other |
| `Cookies.SendingKeepsCookie` | protocol/src/cookies.rs:76-105 | sending any number of handshakes never loses the stored cookie |
| `Cookies.XOpenOfXSeal` | protocol/src/crypto.rs:109-134 | opening a cookie inverts sealing exactly when key, nonce and associated data agree |
| `Cookies.Generator.constructor` | protocol/src/cookies.rs:65-72 | starts with no cookie and nothing sent |
| `Cookies.Generator.AddMacs` | protocol/src/cookies.rs:76-105 | writes both MAC fields of the message at the front of a buffer in place, leaves its body and the rest of the buffer, remembers mac1; refuses anything but a handshake |
| `Cookies.Generator.ProcessReply` | protocol/src/cookies.rs:109-136 | equals the value operation |
| `Crypto.Write` | protocol/src/cookies.rs:91-101 | copies octets into a buffer at an offset and touches nothing else |
| `LoadGuard.Guard.constructor` | protocol/src/peer/load.rs:37-45 | starts with an empty window |
| `LoadGuard.Guard.RotateSecret` | protocol/src/peer/load.rs:55-57 | replaces the secret only |
| `LoadGuard.Guard.Check` | protocol/src/peer/load.rs:61-98 | equals the value operation, 32-bit wrap of the counter included |
| `LoadGuard.GeneratedIsAnswered` | protocol/src/peer/load.rs:61-98 | a handshake addressed elsewhere is dropped uncounted; one addressed to the guard is never dropped, is processed if and only if the window has room or its sender holds a fresh cookie for this source and secret, and otherwise draws a challenge its sender accepts |
| `LoadGuard.ChallengeAnswered` | protocol/src/peer/load.rs:61-98 | a sender that processed the reply to its challenge is processed for that source, whatever the load and however many handshakes it sent in between, within 120 s and until the secret rotates |
| `LoadGuard.RateHoldsExactly` | protocol/src/peer/load.rs:61-98 | from any state of a guard, no continuation exceeds the rate in the second that starts now if and only if the rate is zero, the window is over, it starts now, or it is used up |
| `LoadGuard.RateBound` | protocol/src/peer/load.rs:61-98 | for every rate and every half-open second, the exact most a new guard processes without a valid mac2, over every run with secrets rotated at will: never exceeded, and reached by some run |
| `LoadGuard.CreditsFitRoom` | protocol/src/peer/load.rs:61-98 | from any state of the guard and any clock, what is processed on credit fits the room left in the interval |
| `LoadGuard.SourceBytesInjective` | protocol/src/peer/load.rs:101-115 | the octets a cookie is bound to determine address and port |
| `AllowedIps.ContainsExactly` | tunstile/src/allowed_ips.rs:44-50 | in numbers: a prefix contains the addresses of its family with the same quotient by the size of its host part |
| `AllowedIps.SameLengthSameNet` | tunstile/src/allowed_ips.rs:44-50 | two truncated prefixes of one length that share an address are equal |
| `AllowedIps.LongestIsUnique` | tunstile/src/allowed_ips.rs:44-50 | a table has at most one longest match |
| `AllowedIps.AnswerIsUnique` | tunstile/src/allowed_ips.rs:44-50 | so the answer depends on the map alone, whatever the entry order |
| `AllowedIps.Table.constructor` | tunstile/src/allowed_ips.rs:20-22 | the empty table |
| `AllowedIps.Table.Insert` | tunstile/src/allowed_ips.rs:24-35 | the list, without repeated prefixes, stands for the map updated at the truncated prefix |
| `AllowedIps.Table.Retain` | tunstile/src/allowed_ips.rs:39-41 | keeps exactly the entries whose owner passes |
| `AllowedIps.Table.LongestMatch` | tunstile/src/allowed_ips.rs:44-50 | answers the owner of the longest containing prefix, or none exactly when none contains the address |
| `AllowedIps.InsertAllEffect` | tunstile/src/lib.rs:222-245 | inserting a list of prefixes gives the owner exactly their truncations and leaves the rest |
| `AllowedIps.Device.constructor` | tunstile/src/lib.rs:88-96 | starts without peers or prefixes |
| `AllowedIps.Device.InsertNets` | tunstile/src/lib.rs:238-243 | the insertion loop inserts every prefix |
| `AllowedIps.Device.AddPeer` | tunstile/src/lib.rs:222-245 | a new peer owns exactly its truncated prefixes and others lose only those; a refusal changes nothing |
| `AllowedIps.Device.SetPeer` | tunstile/src/lib.rs:249-277 | keep changes nothing; clear and set leave the peer owning exactly the given prefixes and others losing only those; every owner stays registered |
| `AllowedIps.Device.Reassign` | tunstile/src/lib.rs:262-275 | the peer owns exactly the new prefixes, others lose only those |
| `AllowedIps.Device.RemovePeer` | tunstile/src/lib.rs:295-302 | the peer owns nothing afterwards and others keep what they had |
| `Pipeline.PipelineIsIdentity` | tunstile/src/lib.rs:134-219 | whatever is accepted is padded to a multiple of 16 or the limit, fits a 65,507-octet datagram sealed, and comes out of the mirrored session and receiving device as exactly its declared length with the same addresses, accepted if and only if its source routes back to the sender |
| `Pipeline.AcceptedExactly` | tunstile/src/lib.rs:134-145 | a buffer is accepted if and only if some prefix of it is an IP packet declaring exactly its own length within the limit; that prefix is unique and alone decides what is sent |
| `Pipeline.PreparedIsStable` | tunstile/src/lib.rs:134-145 | preparing is idempotent: a prepared packet passes through unchanged |
| `Pipeline.PlaintextLimit` | tunstile/src/lib.rs:88-96 | the largest packet limit, 65,472, is the largest multiple of 16 that fits a datagram once sealed |
| `Pipeline.ParsesV4` | tunstile/src/lib.rs:321-341 | a packet written with any IPv4 header of 20 to 60 octets parses to its source, destination and length, or not at all exactly when the length does not fit |
| `Pipeline.ParsesV6` | tunstile/src/lib.rs:341-353 | the same for IPv6 |
| `Pipeline.ParsesOnlyHeaders` | tunstile/src/lib.rs:321-354 | nothing else parses |
| `Pipeline.AddressValue` | tunstile/src/lib.rs:331-336 | the bits of an address are its octets as a number, most significant first |
| `Pipeline.ParsePrefix` | tunstile/src/lib.rs:321-354 | parsing depends on the declared length only |
| `Pipeline.MirrorsCarry` | protocol/src/transport.rs:134-184 | a session and its mirror carry any payload unchanged when the counter is admitted |
| `Pipeline.PadPacket` | tunstile/src/lib.rs:311-319 | zero-pads to the next multiple of 16 capped at the limit, or refuses and leaves the packet |
| `Pipeline.PrepareOutbound` | tunstile/src/lib.rs:134-145 | trim, pad and destination as specified |
| `Pipeline.SendPacket` | tunstile/src/lib.rs:160-168 | hands the padded packet to the owner of the longest match, or refuses exactly when there is none |
| `Pipeline.RecvPacket` | tunstile/src/lib.rs:197-219 | the loop returns the first acceptable packet, trimmed, and skips only unacceptable ones |

## Left out

- The primitives (BLAKE2s, HMAC, ChaCha20-Poly1305, X25519), zeroization and constant-time comparison: foreign library code, taken symbolically; all low-order points are one term.
- Probability: collisions of random indices, ephemerals or MACs are excluded by stated preconditions on runs.
- Forged messages on the two-party network: packets are those some party made, delivered any number of times, in any order, to either party.
- In-place opening of an initiation: `Handshake.Receive` works on the decoded fields, which `Wire.InitRoundTrip` ties to octets; what remains in the buffer afterwards is not stated. An index octet that is not a plain byte does not parse.
- The actor's peer object: `Actor.dfy` holds the machine as its value, messages as decoded fields; the in-place class in `Peer.dfy` is proved equal to that value on octets.
- The queue towards the application and the command queue: bounded capacity is an input bit (`room`) on the inbound side only; cancellation and shutdown of tasks are not modelled.
- The rest of the read loop: splitting coalesced segments, calling the guard before dispatch, when the cookie secret is rotated.
- Sockets, segmentation offload, logging, byte counters and status snapshots: I/O and plumbing; a send is an arbitrary success bit.
- Handle lifetimes (`Weak`, `Arc`), the command-line program, configuration, base64 keys: easy or outside the language.
- IPv6 flow labels and scope ids of socket addresses; saturation of time arithmetic at the largest duration.
- IndexAgreement.IndexCacheAgreement: a key is registered again only when no message of its earlier actor is queued, and that actor sends none afterwards, because such a message breaks the agreement (`PurgeFinal.StaleBindReachesNewActor`); each actor arm is one step.
- TunnelRouting.PacketsReachTheirPeer: the same assumption, for the same reason; removals are those `TunnelRouting.RemovalExactly` shows harmless.
- KeepaliveStart.NoSpuriousHandshake: the packets received are those of the new session's link; packets of earlier sessions arriving late, and a further handshake replacing the session, are not included.
- EndToEnd.InboundIsSubmitted: a data, initiation or response event is the reading of a message some party sent; malformed input and delivery guarantees (a payload may be lost) are not part of it.
- LoadGuard.RateBound: fewer than 2^32 messages per window, since the machine counter wraps beyond that.
- Retransmission.RetransmissionBound: the retransmit timer never fires early, which the runtime's timers provide.
