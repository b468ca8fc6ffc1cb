# Nethernet, verified

A Dafny model of the parts of `nethernet` that decide what happens: LAN and HTTP signaling, the router of the shared
media socket, the framing of data-channel messages, the rewriting of session descriptions, the identity assertions in
them, and the life cycles of sessions, the session pool, HTTP clients and pending offers. The theorems are about every
input and every run of these parts, with the network, the clock, the libraries and the peers free to do anything they
may do.

## How it is built

Each stateful part is given twice. A transition system over values (`Lan`, `Http`, `Router`, `Session`, `HttpClient`,
`SessionPool`, `PendingOffers`) says what one step does, and the theorems about runs are proved of it. A class with the
fields of the source (`LanSignaler`, `HttpSignaler`, `SharedSocket` and `SharedRoute`, `Session`, `NetherHttpClient`,
`PoolThread`, `Offers`) updates them in place, with the loops of the source, and each of its methods is proved to take
exactly that step. Their `Valid()` says that the object is where the transition system gets on everything handled so
far, so the theorems about runs hold of every object; `Offers`, whose limits come with each call, keeps its counts exact
instead. Pure parts are functions, and loops inside otherwise pure code are methods proved against them.

States carry, beside the fields of the source, logs of what a run has done so far (everything queued, every signal
submitted, every request asked). No step reads them; the theorems do.

| files | part |
|---|---|
| `Std`, `Text`, `Utf8`, `Bits`, `Net`, `Endpoint` | results, text splitting and numbers, UTF-8, addresses |
| `Codec`, `ServerData`, `Crypto`, `Packet`, `PacketFormat`, `Signal` | the LAN wire format |
| `Lan`, `LanSignaler`, `LanRetransmission`, `LanGiveUp`, `LanLog`, `LanPinning`, `LanTimer`, `LanDelivery`, `LanUpdates`, `LanPersistence`, `LanNetwork` | LAN signaling |
| `Router`, `SharedSocket` | the shared media socket |
| `Http`, `HttpSignaler`, `HttpRequests`, `HttpResponses`, `HttpJoins`, `HttpTimer`, `HttpCounts` | HTTP signaling |
| `Framing`, `FramingStreams` | data-channel messages |
| `Candidates`, `CandidateRewriting`, `CandidateGuarantees`, `CandidateIdempotence` | candidate lines |
| `Identity`, `IdentityProofs`, `IdentityValidity`, `IdentitySoundness`, `AnswerIntegrity` | identity assertions |
| `HttpClient`, `HttpClientEpochs` | the HTTP client |
| `SessionPool`, `ClientReports` | the session pool, and session, pool and client together |
| `Session`, `SessionObject`, `SessionLayers`, `SessionRuns`, `SessionReports` | sessions |
| `PendingOffers` | pending offers |

`dafny verify dfyconfig.toml` covers all of it.

## What is assumed of the libraries

- AES is a permutation of 16-byte blocks with an inverse; HMAC is a function of its input with 32-byte results.
- Base64 decoding inverts encoding, and its output stays within its alphabet.
- JSON reading inverts JSON writing where writing succeeds; the ES384 header reads as its algorithm; a quoted string
  shows where it ends.
- A signature made by a key verifies under its public key. Nothing is assumed about forging;
  `IdentitySoundness.OnlyIssuedFingerprintsPass` takes it as a hypothesis.
- The text of a normalized IP address is a literal that parses to the same address.

Each is a constant of a type that states just this, so the theorems hold for every such library.

## Where the code does not do what one might expect

- Two live sessions with one user-name fragment: the later registration hides the earlier, and dropping the later does
  not bring it back (`Router.NaiveScanExactlyWhen`, `Router.ReusedFragmentIsLost`).
- A connection id reused while a counted connection holds it leaves the address overcounted
  (`HttpCounts.ExactAfterConnect`, `HttpCounts.ReuseLeaksACount`).
- A random join id that is already waiting replaces that join, and its request gets no response
  (`HttpJoins.AskBalancesExactlyWhen`, `HttpRequests.CollidingJoinIsLost`).
- An empty message is split into a segment that the receiver refuses (`FramingStreams.SurvivesUnlessEmpty`).
- Rewriting candidates twice can drop the hosts the first pass kept (`CandidateIdempotence.IdempotentExactlyWhen`).
- An identity line appended to an answer that does not end its last line is glued to it and not found
  (`IdentityValidity.ValidatesExactlyWhen`, `IdentityValidity.UnfinishedIsMissing`); the comment on `augment` does not
  mention this.
- A session may report Ready after Failed (`SessionReports.ReadyFollowsFailedExactlyWhen`). The session pool sends
  a failure at the end of the pass and drops the session, so the HTTP client reports an opening and a closing when both
  fall into one pass, and only the failure otherwise (`SessionPool.PoolDelivers`,
  `ClientReports.LateReadyOpensAndCloses`).
- An error that stops the pump in which a session learns that its association is lost swallows the loss
  (`SessionReports.LossReportedExactlyWhen`). A session that does not become ready is still caught by its
  deadline (`SessionReports.DeadlineCatchesExactlyWhen`); a ready one never reports Failed for it
  (`SessionReports.LossGoesUnreported`, `SessionReports.ReadyNeverFailsUnreported`).
- A connect that returns an error leaves an earlier deadline running, so updates may still begin a join or report
  ConnectFailed (`HttpClientEpochs.SilentAfterFailedConnect`, `HttpClientEpochs.NoJoinAfterFailedConnect`,
  `HttpClientEpochs.EarlierDeadlineFires`).

## Model

| member | source | states |
|---|---|---|
| `LanNetwork.EverythingReceivedWasSent` | nethernet/src/signaling/lan/mod.rs:114-245 | In every run of any number of signalers, even with shared network ids, over a network that loses, duplicates, reorders and misdelivers but does not invent datagrams, every signal reported was earlier submitted by a signaler of the network id it names, to a target that parses to the receiver, with the same type, connection id and data; every server reported had been published as that record by a signaler of its id, with the transport layer replaced by 2 |
| `LanNetwork.DeliveredIsReported` | nethernet/src/signaling/lan/mod.rs:171-192 | and conversely a message datagram on the wire that reaches a signaler of the id it is for is reported there as the signal submitted, unless its sender is heard from elsewhere at the time |
| `LanNetwork.ServerIsDiscovered` | nethernet/src/signaling/lan/mod.rs:158-170 | and so is a record, while there is room for it |
| `LanDelivery.MessageIsReported` | nethernet/src/signaling/lan/mod.rs:171-192 | A message that reads as a signal to this signaler queues exactly that signal, pins its sender and answers exactly what was pending with that peer under that connection id; any other message queues and answers nothing |
| `LanDelivery.ResponseIsReported` | nethernet/src/signaling/lan/mod.rs:158-170 | A readable record is queued and kept exactly when there is room or the server is known already |
| `LanDelivery.RequestIsAnswered` | nethernet/src/signaling/lan/mod.rs:195-209 | A request is answered, if a record is set and fits, with one datagram to where it came from that decodes to the record set last |
| `LanDelivery.UnheardIsIgnored` | nethernet/src/signaling/lan/mod.rs:114-148 | A datagram that does not decode, is its own, or comes from elsewhere than its sender was heard within the timeout changes nothing |
| `LanDelivery.SubmissionIsSent` | nethernet/src/signaling/lan/mod.rs:211-245 | A submission is refused for one of three reasons, or sent once to the address its target was last heard from, as a datagram that decodes to it, and kept for retransmission after the interval of its type |
| `LanDelivery.SentIsReceived` | nethernet/src/signaling/lan/mod.rs:114-245 | End to end: what one signaler sends, the other reports when the datagram gets there |
| `LanUpdates.UpdateSends` | nethernet/src/signaling/lan/mod.rs:247-313 | An update queues, in order, every signal that is due with retries left and a known target, each to that address; the requests, when due, to the broadcast address and this host; and the wait |
| `LanUpdates.UpdateForgets` | nethernet/src/signaling/lan/mod.rs:315-322 | An update forgets exactly the addresses silent for the whole timeout, and the servers at them |
| `LanUpdates.ServersAreFound` | nethernet/src/signaling/lan/mod.rs:114-313 | Discovery end to end: the request of a due update is answered by a signaler with a record that fits, and the answer is reported with that record |
| `LanNetwork.LastRecordStands` | nethernet/src/signaling/lan/mod.rs:66 | In every run the record answered with is the one set last |
| `LanPersistence.KeepsTrying` | nethernet/src/signaling/lan/mod.rs:258-285 | From any reachable state, while its target is known and does not answer, a pending signal is transmitted once at every due update until its retries are used up, and dropped at the next |
| `LanPersistence.SubmissionKeepsTrying` | nethernet/src/signaling/lan/mod.rs:211-285 | So a submission is transmitted 1 + min(due updates, `signal_retries`) times |
| `LanPersistence.UpdatePersists` | nethernet/src/signaling/lan/mod.rs:258-285 | One update transmits a due signal once and schedules the next after the interval of its type |
| `LanNetwork.WireIsHonest` | nethernet/src/protocol/packet/discovery/packet.rs:67-134 | A datagram on the wire that decodes is the encoding of a packet its sender had reason to send |
| `LanNetwork.HandleExplained` | nethernet/src/signaling/lan/mod.rs:62-70 | Each output a step queues is a genuine encoding or comes from decoding the datagram just handled |
| `LanRetransmission.TransmissionsAreLimited` | nethernet/src/signaling/lan/mod.rs:184-285 | In every run a signal is transmitted at most `1 + signal_retries` times, its transmissions are at least its retry interval apart, and none follows an accepted reply on its peer and connection id |
| `LanLog.LogIsFaithful` | nethernet/src/signaling/lan/mod.rs:232-245 | The transmissions counted above are exactly the message datagrams queued: the k-th datagram decodes to the signal of the k-th recorded transmission, and there are no others |
| `LanGiveUp.StepSpends` | nethernet/src/signaling/lan/mod.rs:258-285 | The number of attempts a pending signal has left never grows and strictly falls on an update at which it is due |
| `LanGiveUp.GivenUp` | nethernet/src/signaling/lan/mod.rs:258-285 | After any run, whatever follows, a signal sees at most `signal_retries + 1` due updates, and after that many it is no longer pending |
| `LanPinning.AddressesArePinned` | nethernet/src/signaling/lan/mod.rs:133-156 | In every run with a non-decreasing clock two accepted datagrams for one network id from different addresses are at least `address_timeout` apart |
| `LanPinning.DiscoveredArePinned` | nethernet/src/signaling/lan/mod.rs:158-170 | In every run the discovered ids are pinned ids, at most `max_discovered`, never the own id |
| `LanTimer.UpdateSchedule` | nethernet/src/signaling/lan/mod.rs:247-256 | An update leaves nothing scheduled in the past and queues the wait for the next thing to do last |
| `LanTimer.TimerBounds` | nethernet/src/signaling/lan/mod.rs:324-342 | The timer is the minimum: no later than any retry or broadcast, and equal to one of them unless it is `address_timeout` |
| `LanTimer.WaitIsSafe` | nethernet/src/signaling/lan/mod.rs:247-342 | An update before the queued wait is over sends nothing, retransmits nothing and queues only another wait |
| `LanTimer.WaitIsTight` | nethernet/src/signaling/lan/mod.rs:324-342 | Unless the wait is the whole `address_timeout`, a retry or a broadcast is due when it is over |
| `LanSignalerObject.LanSignaler.constructor` | nethernet/src/signaling/lan/mod.rs:78-90 | A new signaler is the initial state |
| `LanSignalerObject.LanSignaler.Handle` | nethernet/src/signaling/lan/mod.rs:62-70 | State and error after an input are those of the transition system, so the signaler stays where that gets on all inputs handled |
| `LanSignalerObject.SignalerKeepsPromises` | nethernet/src/signaling/lan/mod.rs:28-41 | Every signaler, whatever it has handled, keeps the promises about transmissions, discovered servers and its log |
| `LanSignalerObject.LanSignaler.Poll` | nethernet/src/signaling/lan/mod.rs:72-74 | Outputs leave once, in the order they were queued, and nothing else changes |
| `LanSignalerObject.LanSignaler.HandleDatagram` | nethernet/src/signaling/lan/mod.rs:114-156 | Undecodable, own and pinned-elsewhere datagrams change nothing; others pin the sender and are handled |
| `LanSignalerObject.LanSignaler.HandlePacket` | nethernet/src/signaling/lan/mod.rs:158-193 | Requests are answered, responses remembered within the limit, messages for this id delivered and their pending counterparts dropped |
| `LanSignalerObject.LanSignaler.AnswerRequest` | nethernet/src/signaling/lan/mod.rs:195-209 | The published record is sent back, or nothing without one |
| `LanSignalerObject.LanSignaler.HandleSignal` | nethernet/src/signaling/lan/mod.rs:211-230 | A signal with a valid, known target is sent and queued for retries; otherwise an error and no change |
| `LanSignalerObject.LanSignaler.SendSignal` | nethernet/src/signaling/lan/mod.rs:232-245 | The encoded signal goes to the pinned address of its target |
| `LanSignalerObject.LanSignaler.HandleUpdate` | nethernet/src/signaling/lan/mod.rs:247-256 | Retransmit, broadcast, expire and queue the wait |
| `LanSignalerObject.LanSignaler.Retransmit` | nethernet/src/signaling/lan/mod.rs:258-285 | The in-place pass over the pending signals equals the filtered and rearmed list, and what is due is sent in order |
| `LanSignalerObject.LanSignaler.Broadcast` | nethernet/src/signaling/lan/mod.rs:287-313 | A due request goes to the broadcast address and to loopback |
| `LanSignalerObject.LanSignaler.Expire` | nethernet/src/signaling/lan/mod.rs:315-322 | Exactly the entries heard from within the timeout stay, and discovered servers with them |
| `LanSignalerObject.LanSignaler.NextTimer` | nethernet/src/signaling/lan/mod.rs:324-342 | The loop computes the minimum over the pending signals |
| `Packet.RoundTrip` | nethernet/src/protocol/packet/discovery/packet.rs:67-134 | Whenever encoding succeeds, decoding returns exactly the packet and the sender |
| `PacketFormat.DecodesExactlyWhen` | nethernet/src/protocol/packet/discovery/packet.rs:96-134 | A datagram decodes to a packet and sender exactly when it is the tag and encryption of a payload with that kind, sender and body, to its last byte |
| `PacketFormat.EncodesLaidOut` | nethernet/src/protocol/packet/discovery/packet.rs:67-94 | What is encoded has its own length, that layout and zeros between |
| `Packet.EncodeSucceeds` | nethernet/src/protocol/packet/discovery/packet.rs:67-93 | Encoding is refused exactly when the body has more than 65517 bytes |
| `Packet.EncodePacket` | nethernet/src/protocol/packet/discovery/packet.rs:67-93 | The buffer filled and patched in place is the specified encoding |
| `Packet.DecodePacket` | nethernet/src/protocol/packet/discovery/packet.rs:96-134 | Decrypting, checking the tag and walking a cursor is the specified decoder |
| `Packet.WriteBody` | nethernet/src/protocol/packet/discovery/packet.rs:24-31 | Each packet kind writes its specified body |
| `Packet.SerializeResponse` | nethernet/src/protocol/packet/discovery/response.rs:19-33 | Hex written chunk by chunk through a fixed buffer is the hex of the whole |
| `Packet.HexIntoBuffer` | nethernet/src/protocol/packet/discovery/response.rs:25-31 | The digits of one chunk fill the front of the buffer and nothing else changes |
| `Packet.HexDigitsAre` | nethernet/src/protocol/packet/discovery/response.rs:25-31 | The hex of a byte is two digits or lower-case letters that name its halves |
| `Packet.ReadWrittenResponse` | nethernet/src/protocol/packet/discovery/response.rs:19-41 | A response body reads back |
| `Packet.ReadWrittenMessage` | nethernet/src/protocol/packet/discovery/message.rs:20-32 | A message body reads back, its text through UTF-8 |
| `Packet.ReadWrittenHeader` | nethernet/src/protocol/packet/discovery/packet.rs:40-64 | A header reads back and the eight reserved bytes are skipped |
| `Crypto.DecryptInvertsEncrypt` | nethernet/src/protocol/packet/discovery/crypto.rs:27-65 | Decrypting x succeeds with y exactly when encrypting y gives x |
| `Crypto.PaddingMatches` | nethernet/src/protocol/packet/discovery/crypto.rs:53-61 | The xor-or accumulation is zero exactly when all padding bytes equal the padding length |
| `Crypto.EncryptBuffer` | nethernet/src/protocol/packet/discovery/crypto.rs:27-36 | Padding and in-place encryption give the specified ciphertext |
| `Crypto.DecryptBuffer` | nethernet/src/protocol/packet/discovery/crypto.rs:38-65 | In-place decryption and unpadding give the specified plaintext or fail |
| `ServerRecord.RoundTrip` | nethernet/src/protocol/packet/discovery/server_data.rs:153-298 | A V7 record reads back as itself with the transport layer replaced by 2, for strings of at most 65535 bytes |
| `ServerRecord.NothingFollows` | nethernet/src/protocol/packet/discovery/server_data.rs:153-163 | A record with anything after it is refused |
| `ServerRecord.VersionsRead` | nethernet/src/protocol/packet/discovery/server_data.rs:20-31 | and so is one of a version outside 4 to 7 |
| `ServerRecord.SerializedSize` | nethernet/src/protocol/packet/discovery/server_data.rs:300-315 | The size hint bounds the encoded length |
| `Codec.WriteVaruint32` | nethernet/src/protocol/codec.rs:79-87 | The shift loop appends the specified base-128 form |
| `Codec.ReadVaruint32` | nethernet/src/protocol/codec.rs:65-77 | The shift loop accepts and rejects what the specified reader does, with the same value and rest |
| `Codec.ReadWrittenVaruint` | nethernet/src/protocol/codec.rs:65-87 | A written unsigned varint reads back before any tail |
| `Codec.ReadWrittenVarint` | nethernet/src/protocol/codec.rs:89-97 | A written zigzag varint reads back, for every 32-bit value |
| `Codec.ReadWrittenBytesVaruint` | nethernet/src/protocol/codec.rs:99-108 | Length-prefixed bytes read back |
| `Codec.ReadWrittenBytesU32` | nethernet/src/protocol/codec.rs:46-63 | Bytes with a 32-bit length read back |
| `Signals.RoundTrip` | nethernet/src/protocol/signal.rs:93-126 | Parsing the text of a signal gives it back under the network id the reader supplies |
| `Signals.ReadsExactly` | nethernet/src/protocol/signal.rs:93-116 | A text reads as a signal exactly when it is the word of its kind, digits of its connection id and its data, parted by single spaces |
| `Signals.KindsOnTheWire` | nethernet/src/protocol/signal.rs:16-39 | Each kind is written under its own word |
| `Router.RoutesLikeScan` | nethernet-tokio/src/transport/shared.rs:157-222 | After every interleaving of register, send, claim and drop the three tables route a datagram as a scan of the live sessions does, the last registered session answering to a shared fragment |
| `Router.RoutesLikeNaiveScan` | nethernet-tokio/src/transport/shared.rs:157-222 | With fragments distinct among live sessions routing is the plain scan: the owner of the canonical address, else nothing for non-STUN, else the session of the fragment, else all that sent there before claiming |
| `Router.NaiveScanExactlyWhen` | nethernet-tokio/src/transport/shared.rs:173-211 | Datagram by datagram, for every run: routing is the plain scan exactly when the address is claimed, or it is no STUN request with a fragment, or no live session of the fragment is superseded, or the last one is gone and the superseded are the very ones that sent there |
| `Router.NaiveScanExactlyWhenUnique` | nethernet-tokio/src/transport/shared.rs:173-194 | All fragments at once, from an address nobody has sent to or claimed: exactly when no live session has had its fragment registered again |
| `Router.ReusedFragmentIsLost` | nethernet-tokio/src/transport/shared.rs:192-211 | A concrete run: the first of two sessions with one fragment becomes unreachable by it |
| `Router.DroppedIsGone` | nethernet-tokio/src/transport/shared.rs:146-222 | A session that is not live is in no table |
| `Router.ClaimedHearsBothForms` | nethernet-tokio/src/transport/shared.rs:157-194 | After every run a session that claimed an address gets, alone, every datagram from it in its IPv4 and in its mapped form |
| `Router.SentHearsBothForms` | nethernet-tokio/src/transport/shared.rs:157-206 | and a session that sent to an address nobody claimed gets replies without a known fragment from either form |
| `Router.SamePeerExactly` | nethernet-tokio/src/transport/shared.rs:157-159 | Two socket addresses are one peer exactly when port and host agree, an IPv4 address and its mapped form being one host |
| `Router.StepsExactly` | nethernet-tokio/src/transport/shared.rs:75-222 | What register, send, claim and drop each do to the live sessions |
| `Router.RunInv` | nethernet-tokio/src/transport/shared.rs:165-222 | Every reachable state keeps the three tables in step with the live sessions |
| `SharedSocketObject.NothingRoutedIsLost` | nethernet-tokio/src/transport/shared.rs:91-108 | Every session routed to still has a sender |
| `SharedSocketObject.SharedSocket.Route` | nethernet-tokio/src/transport/shared.rs:75-89 | Registering hands out a fresh id and records the fragment |
| `SharedSocketObject.SharedSocket.RouteDatagram` | nethernet-tokio/src/transport/shared.rs:172-190 | Reading the tables gives the specified sessions |
| `SharedSocketObject.SharedSocket.Dispatch` | nethernet-tokio/src/transport/shared.rs:91-108 | Every session routed to has a channel and gets the datagram unless that channel is full; no other channel and no table changes |
| `SharedSocketObject.SharedRoute.Receive` | nethernet-tokio/src/transport/shared.rs:127-129 | Datagrams are received in the order they were dispatched |
| `SharedSocketObject.SocketRoutesLikeScan` | nethernet-tokio/src/transport/shared.rs:157-222 | The tables of every socket, whatever was done with it, route as a scan of its live sessions does |
| `SharedSocketObject.SharedRoute.SendTo` | nethernet-tokio/src/transport/shared.rs:131-136 | Sending is noted until the route has claimed an address |
| `SharedSocketObject.SharedRoute.Claim` | nethernet-tokio/src/transport/shared.rs:139-143 | The first claimant keeps an address; a refused claim may be retried |
| `SharedSocketObject.SharedRoute.Drop` | nethernet-tokio/src/transport/shared.rs:146-154 | Dropping releases the session from every table |
| `HttpJoins.NoRequestIsLost` | nethernet/src/signaling/http/mod.rs:138-313 | At every moment of every run with fresh join ids: on each connection and in total, requests are responses plus waiting joins plus joins lost with their connection; every join was begun once and is waiting or was resolved once; no more wait than `max_pending_joins` |
| `HttpJoins.AskBalancesExactlyWhen` | nethernet/src/signaling/http/mod.rs:157-261 | A request keeps that balance, on every connection and in total, exactly when it does not open a join under an id that is already waiting |
| `HttpRequests.CollidingJoinIsLost` | nethernet/src/signaling/http/mod.rs:236-276 | A concrete run: two clients connect and post, drawing one id; the first is open, gets no response, is not waiting and was not lost by closing |
| `HttpJoins.ResolvedForGood` | nethernet/src/signaling/http/mod.rs:263-289 | Once a join was answered, rejected, timed out or lost, every later answer or rejection is refused and changes nothing, whatever happened in between |
| `HttpJoins.RunInv` | nethernet/src/signaling/http/mod.rs:54-79 | Every input keeps the balance, the once-only resolution and the cap |
| `HttpRequests.JoinsExactlyWhen` | nethernet/src/signaling/http/mod.rs:157-234 | A request becomes a join exactly when it posts to one network, there is room and its identity is accepted; without room it is refused before any identity is looked at |
| `HttpResponses.OfferHoldsTheRequest` | nethernet/src/signaling/http/mod.rs:202-261 | A request that is taken queues exactly one offer, with the join id, the network of the path, the body, the host, the client address and the authenticated player, and waits on its connection for the answer timeout |
| `HttpResponses.AskIsResponded` | nethernet/src/signaling/http/mod.rs:157-200 | Any other request gets exactly one response at once, on its connection, well formed: the server data with type and byte length, or a bare status |
| `HttpResponses.AnswerIsPassedOn` | nethernet/src/signaling/http/mod.rs:263-276 | An answer resolves its join with the rewritten text, its type and its length in bytes; an unknown id is an error |
| `HttpResponses.RejectionIsPassedOn` | nethernet/src/signaling/http/mod.rs:278-289 | A rejection resolves its join with the bare status of its reason |
| `HttpResponses.KeepAliveExactly` | nethernet/src/signaling/http/mod.rs:386-397 | HTTP/1.0 keeps a connection exactly when asked to, later versions unless asked to close |
| `HttpResponses.ProxyNamesItsClient` | nethernet/src/signaling/http/mod.rs:315-335 | Behind a trusted proxy the client is the first forwarded address, at the proxy port |
| `HttpResponses.ConnectionIsTakenOrClosed` | nethernet/src/signaling/http/mod.rs:101-136 | A connection is closed at once exactly when its address is no trusted proxy and holds all it may |
| `HttpResponses.LastSettingsStand` | nethernet/src/signaling/http/mod.rs:55-74 | In every run the server data and the trust that requests meet are those set last |
| `HttpRequests.StatusesExactly` | nethernet/src/signaling/http/mod.rs:157-234 | Each status of an immediate response stands for one reason, in both directions |
| `HttpRequests.SignedOfferIsTaken` | nethernet/src/signaling/http/mod.rs:202-261 | An offer signed as the identity theorems describe is taken under `Any` trust, with the claims minted for it |
| `HttpRequests.AnswerReturnsToAsker` | nethernet/src/signaling/http/mod.rs:236-276 | In every run an answer goes out on the connection that posted the offer, with the keep-alive wish of that request and rewritten candidates |
| `HttpRequests.WaitsForItsRequest` | nethernet/src/signaling/http/mod.rs:236-244 | In every run a waiting join has the connection, keep-alive and deadline of the request that opened it |
| `HttpRequests.WaitersStayOpen` | nethernet/src/signaling/http/mod.rs:138-155 | While requests come on open connections only, joins wait on open connections only |
| `HttpRequests.NetworkOfExactly` | nethernet/src/signaling/http/mod.rs:169-174 | A join path is the prefix and one non-empty segment |
| `HttpRequests.ForwardedIsIgnored` | nethernet/src/signaling/http/mod.rs:315-323 | Whatever a peer that is no trusted proxy claims to forward for, handling its request ends in the same state |
| `HttpRequests.FirstEntryIsFound` | nethernet/src/signaling/http/mod.rs:325-334 | The first forwarded entry is found among others, within blanks and within square brackets |
| `HttpTimer.UpdateTimesOutTheOverdue` | nethernet/src/signaling/http/mod.rs:291-313 | After an update exactly the joins with a deadline not after it are gone, each answered 504 once on its own connection, then one wait is queued |
| `HttpTimer.WaitBounds` | nethernet/src/signaling/http/mod.rs:304-311 | The wait ends at the earliest remaining deadline, or is the answer timeout when none is left |
| `HttpTimer.WaitIsSafe` | nethernet/src/signaling/http/mod.rs:291-313 | An update before the wait is over times out no join and sends no response |
| `HttpTimer.WaitIsTight` | nethernet/src/signaling/http/mod.rs:291-313 | An update when the wait is over times out a join if one is waiting |
| `HttpCounts.CountsAreExact` | nethernet/src/signaling/http/mod.rs:101-155 | While no id is reused for an open connection, the count of each address is the number of its open counted connections, within the limit; trusted proxies never enter; an idle entry stays only with a limit of zero |
| `HttpCounts.ExactAfterConnect` | nethernet/src/signaling/http/mod.rs:101-136 | With a reused id the counts stay exact unless a counted connection is displaced by an admitted one, and then they do not |
| `HttpCounts.ReuseLeaksACount` | nethernet/src/signaling/http/mod.rs:101-155 | A concrete run: one connection stays counted though none is open |
| `HttpCounts.RefusedLeavesNoTrace` | nethernet/src/signaling/http/mod.rs:114-146 | A refused connection changes no count, and its closing changes nothing |
| `HttpSignalerObject.HttpSignaler.constructor` | nethernet/src/signaling/http/mod.rs:82-91 | A new signaler is the initial state |
| `HttpSignalerObject.HttpSignaler.Handle` | nethernet/src/signaling/http/mod.rs:54-74 | State and error after an input are those of the transition system, in an iteration order of its own, so the signaler stays where that gets on all inputs handled |
| `HttpSignalerObject.SignalerKeepsPromises` | nethernet/src/signaling/http/mod.rs:39-48 | Every signaler, whatever it has handled, keeps the promises about requests, counts and waiting joins |
| `HttpSignalerObject.HttpSignaler.Poll` | nethernet/src/signaling/http/mod.rs:76-78 | Outputs leave once, in the order they were queued |
| `HttpSignalerObject.HttpSignaler.Connected` | nethernet/src/signaling/http/mod.rs:101-136 | Admission, refusal and proxies as specified |
| `HttpSignalerObject.HttpSignaler.Admit` | nethernet/src/signaling/http/mod.rs:114-127 | Counting first and taking back is the same as testing the limit first |
| `HttpSignalerObject.HttpSignaler.Closed` | nethernet/src/signaling/http/mod.rs:138-155 | The connection, its count and its waiting joins go |
| `HttpSignalerObject.HttpSignaler.HandleRequest` | nethernet/src/signaling/http/mod.rs:157-182 | Status, not found, wrong method or join as specified |
| `HttpSignalerObject.HttpSignaler.ServeStatus` | nethernet/src/signaling/http/mod.rs:184-200 | Status requests get 405, 404 or the server data |
| `HttpSignalerObject.HttpSignaler.Join` | nethernet/src/signaling/http/mod.rs:202-261 | 503 when full, 401 without a valid identity, else a join is opened and offered |
| `HttpSignalerObject.HttpSignaler.ClientAddress` | nethernet/src/signaling/http/mod.rs:315-335 | The peer, or for a trusted proxy the first forwarded address |
| `HttpSignalerObject.HttpSignaler.Answer` | nethernet/src/signaling/http/mod.rs:263-276 | The waiting join gets the answer with rewritten candidates; an unknown id is refused |
| `HttpSignalerObject.HttpSignaler.Reject` | nethernet/src/signaling/http/mod.rs:278-289 | The waiting join gets the status of the reason; an unknown id is refused |
| `HttpSignalerObject.HttpSignaler.HandleUpdate` | nethernet/src/signaling/http/mod.rs:291-313 | The loops over the table, in whatever order it iterates, time out the overdue joins and queue the wait |
| `HttpSignalerObject.SoonestSame` | nethernet/src/signaling/http/mod.rs:304-309 | The minimum does not depend on the order of iteration |
| `FramingStreams.MessagesArrive` | nethernet/src/protocol/message.rs:24-140 | Every list of non-empty messages of at most 255 segments, split, encoded, decoded and added in order, arrives as that list, each message on its last segment, leaving the buffer fresh |
| `FramingStreams.SurvivesUnlessEmpty` | nethernet/src/protocol/message.rs:32-46 | A message that can be split survives the wire exactly when it is not empty |
| `FramingStreams.ReturnedExactlyWhen` | nethernet/src/protocol/message.rs:65-102 | For every stream a message is returned exactly when the last k + 1 segments count down k to 0 with k at most 254, from a fresh buffer and within the size limit; it is their bodies put together |
| `FramingStreams.OutcomesExactly` | nethernet/src/protocol/message.rs:65-102 | Every segment of every stream is refused as out of order, refused as too large, kept or completes its message exactly under the stated conditions |
| `FramingStreams.ErrorsLeaveFresh` | nethernet/src/protocol/message.rs:66-91 | Every error leaves the buffer as new |
| `Framing.SegmentRoundTrip` | nethernet/src/protocol/message.rs:24-46 | A segment survives the wire exactly when its body is not empty, and only its own encoding decodes to it |
| `Framing.SplitShape` | nethernet/src/protocol/message.rs:106-140 | Splitting succeeds exactly up to 255 segments; counts run down to zero, bodies add up to the message, none is oversized or needlessly empty |
| `Framing.SplitIntoSegments` | nethernet/src/protocol/message.rs:106-140 | The loop computes the specified segments |
| `Framing.EncodeUnreliable` | nethernet/src/protocol/message.rs:143-148 | One segment that fits the size limit with its count byte and reads back |
| `Framing.Message.AddSegment` | nethernet/src/protocol/message.rs:65-102 | The buffer after a segment is the specified one, and fresh after an error |
| `Candidates.WithAdvertisedCandidates` | nethernet/src/util/candidate.rs:174-242 | The loops compute the specified rewriting |
| `Candidates.TranslatedCandidates` | nethernet/src/util/candidate.rs:244-272 | The nested loop over addresses and hosts keeps the first pair of each address and port and numbers them |
| `Candidates.Gather` | nethernet/src/util/candidate.rs:184-191 | The gathered addresses and the UDP hosts, in order |
| `Candidates.Partition` | nethernet/src/util/candidate.rs:193-202 | The allowed addresses split into gathered and not gathered |
| `Candidates.Weave` | nethernet/src/util/candidate.rs:214-241 | The single pass puts the translated lines before the line that ends the candidates |
| `CandidateGuarantees.LinesOfResult` | nethernet/src/util/candidate.rs:214-241 | The lines of the result are the survivors in order with the translated candidates as one block |
| `CandidateGuarantees.OtherLinesStay` | nethernet/src/util/candidate.rs:214-241 | Every line that is not a candidate stays, in its order |
| `CandidateGuarantees.ReadsExactly` | nethernet/src/util/candidate.rs:30-132 | A line reads as a candidate exactly when tokens 2, 4, 5, 6 and 7 are its transport, address, port, `typ` and the word of its kind |
| `CandidateGuarantees.ReflexiveAndRelayedStay` | nethernet/src/util/candidate.rs:216-227 | Every readable candidate whose type token is not `host` stays |
| `CandidateGuarantees.AllowedHostsStay` | nethernet/src/util/candidate.rs:219-227 | Every readable candidate on an allowed address stays |
| `CandidateGuarantees.OnlyAllowedHostsStay` | nethernet/src/util/candidate.rs:219-227 | Once an allowed address was gathered every candidate left is readable, and if its type token is `host` it was there before and its address is allowed |
| `CandidateGuarantees.NothingDropped` | nethernet/src/util/candidate.rs:219-227 | While none was gathered no line is dropped |
| `CandidateGuarantees.TranslatedLinesAreDistinct` | nethernet/src/util/candidate.rs:244-272 | The added lines read back as the candidates they announce, with pairwise distinct (address, port) and foundation |
| `CandidateGuarantees.TranslatedEndTheCandidates` | nethernet/src/util/candidate.rs:214-241 | The added lines stand together where the candidates of the description end for the first time |
| `CandidateGuarantees.TranslatedNamesItsHost` | nethernet/src/util/candidate.rs:95-110 | An added line carries the fixed component and priority and names the host it translates |
| `CandidateRewriting.TranslatedExactly` | nethernet/src/util/candidate.rs:244-272 | Exactly the allowed addresses not gathered that share a family with a UDP host are announced, for each port once |
| `CandidateRewriting.ReadsBack` | nethernet/src/util/candidate.rs:95-132 | A translated line parses as the server-reflexive candidate it announces |
| `CandidateRewriting.SortAscends` | nethernet/src/util/candidate.rs:203 | Foreign addresses are translated in ascending order |
| `CandidateRewriting.SortIsPermutation` | nethernet/src/util/candidate.rs:203 | and none is lost or repeated by sorting |
| `CandidateGuarantees.TranslatedAscend` | nethernet/src/util/candidate.rs:203-272 | so the added lines come in ascending order of their addresses |
| `CandidateRewriting.LinesOfJoin` | nethernet/src/util/candidate.rs:179-182 | Lines written with line ends split back into themselves |
| `CandidateGuarantees.HeldFirstSorts` | nethernet/src/util/candidate.rs:204 | Hosts on held addresses lead, and neither group is reordered |
| `CandidateGuarantees.HeldHostsArePreferred` | nethernet/src/util/candidate.rs:204-206 | A translation is based on another host only when no held host has its port and family |
| `CandidateGuarantees.NeverSilenced` | nethernet/src/util/candidate.rs:207-212 | A description with a readable candidate keeps one |
| `CandidateIdempotence.IdempotentExactlyWhen` | nethernet/src/util/candidate.rs:174-242 | Rewriting twice is rewriting once exactly when not (no allowed address was gathered and one can be translated) |
| `CandidateIdempotence.DroppedTheSecondTime` | nethernet/src/util/candidate.rs:219-227 | In that case the second pass drops a host line the first kept |
| `CandidateIdempotence.SecondPassDropsTheHost` | nethernet/src/util/candidate.rs:174-242 | The smallest such description |
| `Endpoint.NormalizedIsFixed` | nethernet/src/util/candidate.rs:280-282 | Normalizing an address twice changes nothing more and keeps what it parses to |
| `Endpoint.ParsesExactly` | nethernet/src/util/endpoint.rs:18-40 | An address is read exactly from a literal of at most 45 characters that the library reads, and never as a mapped one |
| `IdentityValidity.ValidatesExactlyWhen` | nethernet/src/identity/trust.rs:75-88 | For every signed answer that had fingerprints and no identity: it keeps its fingerprints if the inserted line stands on its own, and it validates, to the minted claims, exactly when the line does, the token has a lifetime, and the time is not past expiry plus 60 seconds; otherwise the error is `Missing` or `Untrusted` |
| `IdentitySoundness.AcceptsExactlyWhen` | nethernet/src/identity/trust.rs:75-88 | For every text: it is accepted with these claims exactly when it presents an identity whose token reads as them and has not run out, it has fingerprints, and the key in the claims verifies the ES384 signature over all of them |
| `IdentitySoundness.OnlyIssuedFingerprintsPass` | nethernet/src/identity/trust.rs:75-88 | If a key verifies only what its holder issued, whatever is accepted under it has exactly the fingerprints of one issued list |
| `IdentitySoundness.PayloadIsInjective` | nethernet/src/identity/envelope.rs:114-121 | Different lists of fingerprints, or one in another order, are signed as different texts |
| `IdentitySoundness.MessageIsInjective` | nethernet/src/identity/jws.rs:50-69 | What a detached signature covers determines header and payload |
| `IdentitySoundness.IssuingOneIssuesNoOther` | nethernet/src/identity/envelope.rs:114-121 | so a signature over one list vouches for no other |
| `IdentitySoundness.FingerprintsExactly` | nethernet/src/identity/envelope.rs:93-111 | The fingerprints of a description are those of its fingerprint lines, all of them, in order |
| `IdentitySoundness.PresentsExactly` | nethernet/src/identity/envelope.rs:57-75 | The identity is that of the first identity line, through base64, UTF-8 and JSON |
| `IdentityValidity.InsertedLine` | nethernet/src/identity/server.rs:141-166 | A line inserted on its own is the first identity line and no fingerprint line |
| `IdentityValidity.UndelimitedIsMissing` | nethernet/src/identity/envelope.rs:68-75 | A line glued to unfinished text is not found |
| `IdentityValidity.UnfinishedIsMissing` | nethernet/src/identity/trust.rs:75-88 | A concrete answer, one fingerprint line without its line end: signed, and refused as `Missing` |
| `AnswerIntegrity.RewritingKeepsIdentity` | nethernet/src/signaling/http/mod.rs:263-276 | For every description, list of addresses and instant, rewriting the candidates changes neither identity nor fingerprints, so validation gives the same claims or the same error |
| `AnswerIntegrity.RewrittenAnswerValidates` | nethernet/src/signaling/http/mod.rs:263-276 | An answer signed and then rewritten validates exactly when the signed one would |
| `IdentityProofs.InsertedBetween` | nethernet/src/identity/server.rs:149-163 | The line goes between two parts of the answer that add up to it |
| `IdentityProofs.InsertedBeforeMedia` | nethernet/src/identity/server.rs:141-166 | The line goes before the first media line, or to the end if there is none |
| `IdentityProofs.LineEndExactly` | nethernet/src/identity/server.rs:141-166 | The added line ends in a carriage return and line feed exactly when some line of the answer does |
| `IdentityProofs.MintedSays` | nethernet/src/identity/server.rs:169-195 | A token names the signing key, its instant and end in whole seconds, and its issuer unless empty |
| `IdentityProofs.ValueReadsBack` | nethernet/src/identity/server.rs:120-138 | The identity value reads back with the minted token and a signature the key in it verifies |
| `IdentityProofs.SignedReadsBack` | nethernet/src/identity/jws.rs:30-48 | A compact signature parses to its payload and verifies under its key |
| `IdentityProofs.DetachedReadsBack` | nethernet/src/identity/jws.rs:50-80 | Likewise with the payload left out and supplied by the reader |
| `IdentityProofs.EnvelopeReadsBack` | nethernet/src/identity/envelope.rs:45-90 | The base64 envelope reads back and holds no line break |
| `IdentityProofs.TokenReadsBack` | nethernet/src/identity/server.rs:169-187 | The minted token yields its claims until expiry plus leeway |
| `Identity.Augment` | nethernet/src/identity/server.rs:141-166 | The loop with its flag inserts before the first media line or appends |
| `Identity.SdpFingerprints` | nethernet/src/identity/envelope.rs:93-111 | The loop collects the fingerprints in order or stops at the first malformed one |
| `HttpClientEpochs.EpochEvents` | bevy-nethernet/src/http_client.rs:459-572 | The client loop alone, given any batches: after a successful connect, until the next, the connection events are a prefix of [ConnectFailed] or of [Connected, Disconnected] exactly when no batch says more after a failure; `ClientReports.ConnectionIsReportedOnce` shows that no pool sends such a batch |
| `HttpClientEpochs.ReadyAfterFailed` | bevy-nethernet/src/http_client.rs:517-549 | The client loop alone: a batch with readiness after failure, which no pool sends, would report both and leave `ready` without a pool |
| `ClientReports.ConnectionIsReportedOnce` | bevy-nethernet/src/http_client.rs:459-572 | Session, pool and client together: for every run of a session, every cutting of it into passes and batches, and every sequence of calls from a successful connect to the next, the connection events are a prefix of [ConnectFailed] or of [Connected, Disconnected] |
| `ClientReports.ClientOnPool` | bevy-nethernet/src/http_client.rs:513-550 | The same of the client and pool objects, whatever was called before |
| `ClientReports.ClientKeepsPromises` | bevy-nethernet/src/http_client.rs:346-361 | Every client object since its last connect: no more joins than allowed, and the events of one connection exactly when its batches are behaved |
| `ClientReports.OnePool` | bevy-nethernet/src/http_client.rs:480-494 | From one connect to the next at most one pool is made, whatever the batches |
| `ClientReports.PoolFailsLast` | bevy-nethernet/src/connection.rs:203-264 | Whatever a session does and however its outputs fall into passes, a failure is the last event the pool sends of it |
| `ClientReports.LateReadyOpensAndCloses` | bevy-nethernet/src/connection.rs:223-229 | A concrete run: a session that puts out Failed and then Ready in one pass reaches the client as Ready, Failed and is reported as Connected, Disconnected |
| `SessionPool.PoolDelivers` | bevy-nethernet/src/connection.rs:201-264 | In every run of the pool, with ids added, removed and reused: about each session it sends its readiness, messages and round-trip times in order, then one failure for each it put out, and nothing after; a session that failed is no longer driven |
| `SessionPool.SentExactly` | bevy-nethernet/src/connection.rs:215-264 | What is sent for a list of outputs, told from the outputs: readiness as such, messages and round-trip times as other events, in order, and one failure for each |
| `SessionPool.OwnItems` | bevy-nethernet/src/connection.rs:215-264 | In one pass what is sent about each session depends on its own outputs only |
| `SessionPool.PoolThread.DrivePass` | bevy-nethernet/src/connection.rs:201-264 | The loops of one pass: outputs at once, failures collected, entries dropped and failures sent at the end |
| `SessionPool.PoolThread.Poll` | bevy-nethernet/src/connection.rs:215-254 | The loop over the outputs of one session |
| `SessionPool.PoolThread.TakeAll` | bevy-nethernet/src/connection.rs:98-106 | A batch is everything sent and not taken yet, in order |
| `SessionPool.PoolThread.Register` | bevy-nethernet/src/connection.rs:159-173 | Adding a session |
| `SessionPool.PoolThread.Unregister` | bevy-nethernet/src/connection.rs:174-178 | Removing a session |
| `HttpClientEpochs.JoinsAreLimited` | bevy-nethernet/src/http_client.rs:346-361 | At most max(attempts, 1) joins are begun per connect |
| `HttpClientEpochs.LastAttemptsStand` | bevy-nethernet/src/http_client.rs:323-325 | In every run a connect has the attempts set last |
| `HttpClientEpochs.SilentAfterFailedConnect` | bevy-nethernet/src/http_client.rs:346-358 | After a connect that returned an error the client emits nothing exactly when no deadline was left over from before |
| `HttpClientEpochs.NoJoinAfterFailedConnect` | bevy-nethernet/src/http_client.rs:346-361 | and begins no join exactly when none was left over or there was only one attempt |
| `HttpClientEpochs.EarlierDeadlineFires` | bevy-nethernet/src/http_client.rs:552-571 | A concrete run of a new client: a connect, a connect that fails, and an update at the first deadline, which begins a third join or reports ConnectFailed |
| `HttpClientEpochs.ConnectJoins` | bevy-nethernet/src/http_client.rs:346-412 | A successful connect begins a join that has the negotiation timeout |
| `HttpClientEpochs.JoinUpdates` | bevy-nethernet/src/http_client.rs:459-571 | An update leaves a join pending in time alone, begins the next or reports failure when time is up, reports a refusal, and gives an accepted one the establish timeout |
| `HttpClientEpochs.EstablishUpdates` | bevy-nethernet/src/http_client.rs:513-571 | and opens, fails or times out a session being established |
| `HttpClientEpochs.OpenUpdates` | bevy-nethernet/src/http_client.rs:418-550 | An open connection ends only with its session or by the caller, and reports it |
| `HttpClient.AlwaysConnectedIsPool` | bevy-nethernet/src/http_client.rs:346-445 | In every run `connected` holds exactly when there is a pool |
| `HttpClient.NetherHttpClient.Connect` | bevy-nethernet/src/http_client.rs:346-358 | Connecting resets the connection but not the deadline |
| `HttpClient.NetherHttpClient.BeginJoin` | bevy-nethernet/src/http_client.rs:360-412 | An attempt is spent even when it fails |
| `HttpClient.NetherHttpClient.Disconnect` | bevy-nethernet/src/http_client.rs:418-429 | Only an open connection reports its end |
| `HttpClient.NetherHttpClient.SetAttempts` | bevy-nethernet/src/http_client.rs:323-325 | Later connects use the new number |
| `HttpClient.NetherHttpClient.SendOn` | bevy-nethernet/src/http_client.rs:439-445 | Whatever was called before, sending unwraps the pool only when there is one |
| `HttpClient.NetherHttpClient.DrivePool` | bevy-nethernet/src/http_client.rs:513-550 | The loop over the session events |
| `HttpClient.NetherHttpClient.Update` | bevy-nethernet/src/http_client.rs:459-572 | Join, session events, then deadline with retry |
| `SessionRuns.EventsAreEmittedOnce` | nethernet/src/session/mod.rs:406-480 | In every run Ready and Failed are each emitted at most once |
| `SessionRuns.FailsExactlyWhen` | nethernet/src/session/mod.rs:406-472 | After any pump, Failed has been emitted exactly when it had been before, ICE reports a failure, or no layer reports an error and the association reports its loss or the deadline has passed on a session that is not and does not become ready |
| `SessionRuns.InputsReport` | nethernet/src/session/mod.rs:488-503 | For every input: it makes the session failed or ready exactly when it leads to such a pump |
| `SessionRuns.InputsWait` | nethernet/src/session/mod.rs:326-344 | A wait follows exactly the descriptions and timeouts whose pump met no error |
| `SessionLayers.EventsExactly` | nethernet/src/session/mod.rs:424-450 | From the reports alone: a loss is noted and channels are opened by the events up to the first error |
| `SessionLayers.DriveExactly` | nethernet/src/session/mod.rs:406-472 | A pump goes through exactly when no layer reports an error, and then leaves the channels open that were, that the peer opened, or that a controlling side opened |
| `SessionLayers.StartsExactly` | nethernet/src/session/mod.rs:233-283 | An attempt to start spends role and certificate, and succeeds exactly when both layers can be created and every kept packet is read |
| `SessionLayers.PreparesExactly` | nethernet/src/session/mod.rs:173-232 | What each input changes before the layers are pumped, and whether they are |
| `SessionRuns.DeadlineSparesReady` | nethernet/src/session/mod.rs:346-351 | Once Ready was emitted only a failing layer causes Failed |
| `SessionRuns.DeadlineIsFixed` | nethernet/src/session/mod.rs:197-222 | The deadline counts from the first accepted remote description |
| `SessionRuns.ReadyExactlyWhen` | nethernet/src/session/mod.rs:455-462 | After any pump, Ready has been emitted exactly when it had been before, or no layer reports an error and both channels are open |
| `SessionReports.ReadyFollowsFailedExactlyWhen` | nethernet/src/session/mod.rs:406-472 | In every run Ready follows Failed exactly when some input leads to a pump without an error that leaves both channels of a session not ready yet open, while it had failed, ICE reports a failure or the association its loss |
| `SessionReports.PumpLate` | nethernet/src/session/mod.rs:406-472 | One pump puts Ready after Failed exactly under that condition |
| `SessionReports.LossReportedExactlyWhen` | nethernet/src/session/mod.rs:424-453 | When the association reports its loss, that pump reports Failed exactly when no layer reports an error |
| `SessionReports.LossGoesUnreported` | nethernet/src/session/mod.rs:424-453 | A run: a session becomes ready and loses its association while a write fails; whatever follows, unless a layer reports a failure or a loss of its own, Failed is never emitted |
| `SessionReports.ReadyNeverFailsUnreported` | nethernet/src/session/mod.rs:346-351 | From any ready session that has not failed, over every continuation in which no layer reports a failure or a loss, Failed is never emitted |
| `SessionReports.DeadlineCatchesExactlyWhen` | nethernet/src/session/mod.rs:406-472 | From any session that has not failed, over every such continuation, Failed is emitted exactly when some input leads to a pump without an error after the deadline that leaves the session unready |
| `SessionReports.ReadyAfterFailed` | nethernet/src/session/mod.rs:451-462 | A concrete run: Ready after Failed in one pump |
| `SessionRuns.WaitEndsByDeadline` | nethernet/src/session/mod.rs:339-363 | A wait is queued exactly when the deadline runs or the layers wish one, and ends at the earliest of these instants |
| `SessionRuns.FailedStartIsFinal` | nethernet/src/session/mod.rs:251-283 | A session whose layers could not be created never starts, in any continuation |
| `SessionRuns.EarlyPacketsComeFirst` | nethernet/src/session/mod.rs:233-316 | In every run DTLS reads the first at most eight packets from before the start in order, then every later packet in order; all the kept ones unless it refused one |
| `SessionObject.Session.Handle` | nethernet/src/session/mod.rs:488-504 | Each input as specified, so the session stays where the transition system gets on all inputs handled |
| `SessionObject.SessionKeepsPromises` | nethernet/src/session/mod.rs:95-115 | Every session object, whatever it has handled, keeps the promises about each event at most once, Ready after Failed, the deadline, and the order and completeness of the early packets |
| `SessionObject.Session.Pump` | nethernet/src/session/mod.rs:406-472 | The stages of a pump, stopping at the first error |
| `SessionObject.Session.PollIce` | nethernet/src/session/mod.rs:410-421 | Any ICE failure fails the session once |
| `SessionObject.Session.StartOnSelectedPair` | nethernet/src/session/mod.rs:233-283 | Role and certificate are spent by the attempt; kept packets are handed over in order |
| `SessionObject.Session.ReadEarly` | nethernet/src/session/mod.rs:245-247 | The loop stops at the packet DTLS refuses and drops the rest |
| `SessionObject.Session.PollSctp` | nethernet/src/session/mod.rs:426-439 | The loop over the association events, stopping at the first error |
| `SessionObject.Session.TakePacket` | nethernet/src/session/mod.rs:285-306 | A packet goes to ICE, to DTLS, or is kept while there is room |
| `SessionObject.Session.PushWait` | nethernet/src/session/mod.rs:339-363 | The earliest of deadline and layer timeouts |
| `PendingOffers.CountsAreLive` | nethernet-tokio/src/transport/pending.rs:19-49 | Over every interleaving of admissions and drops each count is the number of its live slots, none is zero, their sum is all live slots, and both limits hold |
| `PendingOffers.StepsExactly` | nethernet-tokio/src/transport/pending.rs:19-50 | In every run an offer is admitted exactly while fewer than both limits are live, and a drop ends one |
| `PendingOffers.TotalIsLive` | nethernet-tokio/src/transport/pending.rs:26 | The sum of the counts is the number of live slots |
| `PendingOffers.Offers.Sum` | nethernet-tokio/src/transport/pending.rs:26 | The loop over the values computes that sum |
| `PendingOffers.Offers.TryAdmit` | nethernet-tokio/src/transport/pending.rs:19-37 | A slot is granted exactly below both limits |
| `PendingOffers.Offers.Drop` | nethernet-tokio/src/transport/pending.rs:40-50 | Dropping a live slot never takes a count below zero and leaves no zero entry |

## Left out

- Sockets, threads, tasks, TLS, HTTP parsing and the rest of the Bevy plugins: I/O without decisions of its own.
- ICE, DTLS, SCTP and STUN internals: what they report is a free parameter of every step.
- Instants and durations are unbounded integers, so the panics of the source on `Instant` overflow do not occur here.
- Counters of the source with 32 or 64 bits (attempts, foundations, session ids) are unbounded here; no run reaches their limits.
- Log messages.
- `TokenTrust::Minecraft`, JWKS refresh, PEM loading, SPKI keys and key generation: branch checks over cryptographic libraries.
- Claims other than `cpk`, `iat`, `iss` and `exp`, and the default domain of an identity.
- The V4 to V6 server records are read as the source reads them but there is no writer to round-trip against; `from_pong_data`, the JSON form and the error-code tables are not modelled.
- `inferred_peer_candidates`: a bounded list of distinct ports, easier than the rewriting beside it.
- `has_routable_host_candidate`, address scopes and CIDR sets: classification by constants; trusted proxies are a set of addresses.
- The router of the session pool, which is a simpler sibling of the one modelled; packets, signals and sends only feed the sessions, whose inputs are free.
- SessionPool.PoolThread.DrivePass: the order of the hash map and what polling yields are parameters; the early return when nobody receives any more is not modelled.
- `join_path`, status and join response checks, and `JoinTarget::parse` of the HTTP client; its status queries, received messages, round-trip time and remote address.
- Datagrams and messages a session passes on, its remote address and message size limit.
- ServerRecord.RoundTrip: the reader advances a cursor in the source and returns the unread rest here, so reading in place is not captured.
- HttpSignalerObject.HttpSignaler.Join: what `validate_sdp` makes of the offer under Minecraft trust is a parameter; the system time is one too, where the source derives it from `now`.
- HttpSignalerObject.HttpSignaler.ServeStatus: the JSON text of the server data is a parameter.
- PendingOffers.Offers.Drop: a slot is named by its network id, and that each is dropped once is a precondition, which ownership gives in the source.
