# A verified model of the Telegram WebSocket proxy

The program is a SOCKS5 proxy that carries a Telegram client's TCP byte stream inside WebSocket
frames. This project models its protocol logic in Dafny and proves what that logic keeps: for every
client byte stream, every server behaviour, every mask key, every keystream and every interleaving of
the tasks and sessions that share state.

The modules follow the program:

- `Bytes` — bytes, XOR, big-endian numbers, joins, and a socket as bytes still to come plus writes made.
- `Frames`, `FrameBytes`, `Downstream`, `UpgradeHeaders` — the WebSocket codec of section 5.2 of RFC 6455,
  its bytes and opcodes one by one, the receiving loop with its pings, pongs and fragments, and the reader
  of the HTTP upgrade response.
- `Splitter`, `Init` — the MTProto splitter, which cuts ciphertext at plaintext boundaries, and the
  64-byte init packet with its encrypted signed data-centre number. AES-CTR enters only as a keystream:
  any function of key, iv and offset.
- `Hosts`, `Ipv6Cache`, `Ipv6Schedules` — targets, the address catalogue as a parameter, the learned IPv6
  map under concurrent sessions, and exactly which schedules of sessions keep it up to date.
- `Backoff` — the per-key WebSocket backoff under concurrent sessions, each attempt a begin step and an
  end step with anything in between.
- `Socks`, `HandshakeBytes`, `SocksAuth`, `SocksLogin`, `Accounts` — the SOCKS5 handshake of RFC 1928 and
  RFC 1929, its bytes on every outcome, the user-list parser, and the way from the one to the other.
- `Relay`, `RelayGuarantees`, `RelayProgress` — the two relay tasks sharing one writer behind a lock, as a
  step system in which a frame may go out in any number of partial writes; what every interleaving
  guarantees; and that none goes on for ever or gets stuck.
- `RelaySplitting`, `RelayRuns` — which frames carry which of the client's messages in every interleaving,
  and a run for every way of reading the client's bytes.
- `EndToEnd` — routing one connection, and the theorem that joins the pieces: whatever the peer has
  decoded is the client's stream behind the handshake.

Code that works by changing things step by step is a `method` or a `class` proved against a function in
closed form; the theorems are about those functions and about the step systems. Concurrency is a
`datatype` of actions with `Enabled`, `Next`, `Runs` and `Exec`; a theorem over every run quantifies over
every action list. Formats, constants and decision tables are stated once more with the bytes and numbers
written out, so that a function and its specification cannot drift together.

Check everything with `dafny verify dfyconfig.toml`.

## Results that are not what one might expect

- **A read that starts inside a message may be cut anywhere.** The splitter scans every read from its own
  first byte. `Splitter.FramedIffOnBoundaries` gives the exact condition, over any reads of any stream:
  the parts are the stream's messages if and only if no read starts or ends inside a message.
  `Splitter.MisalignedReadIsCut` is a concrete input. Bytes are never lost (`Splitter.RunJoin`).
- **Extraction narrows to eight bits.** The packet's number is taken modulo 256 before the range check, so
  258 reads as data centre 2; `Init.ExtractedIsCarried` says exactly when the number is the packet's own.
- **The resolver's override can disagree with its packet.** It does exactly when an entry is known for the
  target and the packet's magic is not recognised (`Init.OverrideAgrees`); `Init.UnmarkedDisagrees` gives
  the packet, for every keystream and entry.
- **A 404 ban is not always for good.** An attempt still in flight overwrites it when it ends;
  `Backoff.BanLifted` is a run from the start in which that happens, and `Backoff.DisabledForGood` the exact
  condition. docs/architecture.md:84 calls the ban temporary; the
  code has no expiry for it.
- **Pruning needs ordered clocks.** `Backoff.PruneInvisibleIff` shows that a prune with a later instant
  than the one asked about can change an answer, and that no other can; `Backoff.LatePruneForgets` is a run
  from the start in which one does.
- **A frame header can ask for more memory than there is.** The reader allocates the announced length before
  it reads (src/modules/ws.rs:484), and a refused allocation ends the process. The model has no allocator:
  there such a frame is merely truncated.
- **Overlapping sessions may leave a stale learned entry.** `Ipv6Cache.OverlapMayGoStale` gives a run.
  `Ipv6Schedules.CurrentIffNoOverlap` is the exact condition on a schedule of sessions, over all packets
  the clients may send: the entry stays up to date if and only if no two sessions on its address overlap. Before the first entry
  an overlap may be harmless or not (`Ipv6Cache.FirstOverlapHarmless`, `Ipv6Cache.NestedFirstOverlapStale`).
- docs/architecture.md:63 and :172 say there is no SOCKS5 authentication; the code has it, and so does the
  model.

## Model

| member | source | states |
|---|---|---|
| Frames.BuildFrame | src/modules/ws.rs:424-446 | For every opcode, payload below 2^64 bytes and key, the bytes pushed are the final, masked, shortest-form encoding of section 5.2 of RFC 6455 |
| Frames.MaskedTwice | src/modules/ws.rs:487-491 | Masking with the same key twice gives the payload back |
| Frames.EncodeComplete | src/modules/ws.rs:452-507 | An encoded frame, whatever follows, announces exactly its own size, opcode and payload in all three length forms |
| Frames.DecodeEncoded | src/modules/ws.rs:448-507 | Round trip: reading an encoded frame gives its classified opcode and payload and leaves the bytes behind it untouched |
| Frames.FramesOfEncoded | src/modules/ws.rs:448-507 | Repeated reading of any encoded frame list followed by any bytes gives the frames in order, then what those bytes hold |
| Frames.DecodeLocal | src/modules/ws.rs:452-491 | Decoding depends on the bytes of its own frame only |
| Frames.FramesOfPrefix | src/modules/ws.rs:452-491 | Cutting any byte stream anywhere yields a prefix of its frame list |
| Frames.PrefixFree | src/modules/ws.rs:452-491 | No strict prefix of an encoded frame reads as a frame; under two bytes it is a clean end, otherwise an error |
| Frames.FramesOfCutStream | src/modules/ws.rs:452-491 | An encoded stream cut inside one frame decodes to exactly the frames before it and leaves that frame's bytes |
| Frames.Unmask | src/modules/ws.rs:487-491 | Unmasking in place is XOR with the key repeated every four bytes |
| Frames.ReadFrame | src/modules/ws.rs:448-507 | The field-by-field reader returns, consumes and fails exactly as the closed-form decoder says, on every input whose announced length can be allocated |
| FrameBytes.OpcodeTable | src/modules/ws.rs:460-524 | For every frame on the wire: opcodes 0 to 2 read as data, 8 as a close with code and reason from its first two and later bytes, 9 as a ping, 10 as a pong, all others as other |
| FrameBytes.ReceiveTable | src/modules/ws.rs:159-175 | The receiving loop's answer to each of them: pongs vanish, other opcodes close with the proxy's own reason |
| FrameBytes.EndTable | src/modules/ws.rs:452-459 | A stream that stops between frames or one byte into one ends cleanly; one that stops later in a frame is broken |
| FrameBytes.HeaderBytes | src/modules/ws.rs:424-435 | Where flags, opcode, mask bit and length stand, and which of the three length forms is used when |
| FrameBytes.PayloadBytes | src/modules/ws.rs:437-444 | The key stands before the payload, and byte i is combined with key byte i mod 4 |
| FrameBytes.Examples | src/modules/ws.rs:424-446 | The single-frame examples of section 5.7 of RFC 6455, the masked "Hello" among them |
| FrameBytes.ExamplesRead | src/modules/ws.rs:448-507 | Those bytes read back, with anything behind them |
| FrameBytes.DrainedByOpcode | src/modules/relay.rs:71-100 | What any frame list gives the client and asks to be answered, by opcode up to the first one that ends the session |
| Bytes.BitXorBits | src/modules/ws.rs:443 | The exclusive or used throughout is one in exactly the binary digits in which its operands differ |
| Downstream.RecvFrame | src/modules/ws.rs:159-175 | The pong-skipping loop ends on every input and returns the first other frame, with an unexpected opcode turned into a close |
| Downstream.DrainIsDataBeforeStop | src/modules/relay.rs:71-100 | On every server stream the client's bytes are the data payloads before the first close or unexpected frame, and the pings seen are those before it |
| Downstream.DrainOfPrefix | src/modules/relay.rs:71-100 | A server stream cut short anywhere gives the client a prefix of its data and shows a prefix of its pings |
| Downstream.FragmentsDeliver | src/modules/ws.rs:461-504 | A message in any fragments allowed by section 5.4 of RFC 6455, with pings and pongs between, is delivered as exactly its bytes, then whatever follows |
| Downstream.FragmentationInvisible | src/modules/relay.rs:71-100 | Two fragmentations of one message give the client the same bytes and the same ending |
| UpgradeHeaders.ReadHandshakeHeaders | src/modules/ws.rs:264-293 | Succeeds exactly when a CRLFCRLF ends within 8192 bytes, returns the bytes up to the first one and consumes nothing more; both failures are exact |
| UpgradeHeaders.BlankLineBytes | src/modules/ws.rs:270-286 | The blank line is CR LF CR LF and the limit 8192 bytes |
| UpgradeHeaders.ResponseThenFrames | src/modules/ws.rs:264-293 | Bytes behind a response are left whole for the frame reader; the response is accepted if and only if it fits the limit |
| UpgradeHeaders.FirstFrameIntact | src/modules/ws.rs:264-293 | The frame reader's first answer behind the response is the server's first frame, with the bytes after it untouched |
| Splitter.CipherBytes | src/modules/telegram/splitter.rs:16-18 | Of any init the eight bytes of head are skipped, the next 32 are the key and the next 16 the iv, for the splitter and the init alike |
| Splitter.CryptBytes | src/modules/telegram/splitter.rs:31-32 | Byte i is combined with the keystream byte at the offset plus i |
| Splitter.CryptTwice | src/modules/telegram/splitter.rs:31-32 | Applying the keystream twice at one offset gives the bytes back |
| Splitter.MtProtoMessageSplitter.constructor | src/modules/telegram/splitter.rs:16-23 | A new splitter takes its key and iv from the init and stands behind the 64 keystream bytes the init used |
| Splitter.MtProtoMessageSplitter.New | src/modules/telegram/splitter.rs:11-24 | An init under 64 bytes gives no splitter; any other gives a new one as above |
| Splitter.MtProtoMessageSplitter.Scan | src/modules/telegram/splitter.rs:34-58 | The scanning loop finds exactly the ends of the messages that follow one another from position 0 |
| Splitter.MtProtoMessageSplitter.Cut | src/modules/telegram/splitter.rs:64-73 | The cutting loop cuts at the boundaries and keeps the remainder as a last part |
| Splitter.MtProtoMessageSplitter.Split | src/modules/telegram/splitter.rs:26-74 | The parts are the closed form `Parts` at the current offset, and the offset advances by the read's length |
| Splitter.PartsJoin | src/modules/telegram/splitter.rs:26-74 | For any read the parts join to the read, there is at least one, and none is empty unless the read is |
| Splitter.RunJoin | src/modules/telegram/splitter.rs:26-74 | Over any sequence of reads no byte is lost, added or moved |
| Splitter.ReadAtItsOffset | src/modules/telegram/splitter.rs:31-32 | Each read is decrypted at its own place in the stream |
| Splitter.WireBytes | src/modules/telegram/splitter.rs:37-50 | A message's header is its count of four-byte words, or 0x7f and the count in three bytes, least significant first |
| Splitter.ShortHeader | src/modules/telegram/splitter.rs:47-54 | The scanner's size for every first byte but 0x7f, in front of any bytes |
| Splitter.LongHeader | src/modules/telegram/splitter.rs:38-54 | And for every three-byte count |
| Splitter.WireScansWhole | src/modules/telegram/splitter.rs:37-57 | Every well-formed short or long abridged message is scanned whole |
| Splitter.TruncatedIsStuck | src/modules/telegram/splitter.rs:38-54 | Every strict prefix of a message is not yet a message |
| Splitter.SplitMessages | src/modules/telegram/splitter.rs:26-74 | A read of k messages and a tail that is no message gives those k encrypted messages and then the tail when k >= 2, or k = 1 without a tail; otherwise the whole read |
| Splitter.Decompose | src/modules/telegram/splitter.rs:34-58 | Every plaintext is well-formed messages and such a tail, so the row above covers every read |
| Splitter.FramedIffOnBoundaries | src/modules/telegram/splitter.rs:26-74 | Over any reads of any message stream, the parts are the encrypted messages in order if and only if no read starts or ends inside a message |
| Splitter.MisalignedReadIsCut | src/modules/telegram/splitter.rs:34-35 | A concrete message whose body, read by itself, falls into three parts |
| Init.DecryptHeader | src/modules/telegram/init.rs:63-79 | The loop over the generated keystream decrypts the last eight bytes |
| Init.ExtractInit | src/modules/telegram/init.rs:12-42 | Length, magic, narrowing and range checks together compute `ExtractDc` on every input |
| Init.PatchInit | src/modules/telegram/init.rs:44-61 | The copy with two bytes rewritten is `Patch`, on short and long inputs alike |
| Init.PatchTouches | src/modules/telegram/init.rs:44-61 | Patching changes bytes 60 and 61 at most, and keeps the cipher and whether the magic is recognised |
| Init.ExtractPatched | src/modules/telegram/init.rs:12-61 | Extraction after patching any 16-bit number gives that number's reading if the magic is recognised, unknown otherwise |
| Init.PatchThenExtract | src/modules/telegram/init.rs:12-61 | A patched-in data centre 1 to 5 is read back with its sign |
| Init.PatchOverrides | src/modules/telegram/init.rs:44-61 | A second patch leaves no trace of the first |
| Init.PatchRestores | src/modules/telegram/init.rs:44-61 | Patching in the number already carried changes nothing |
| Init.ExtractedIsCarried | src/modules/telegram/init.rs:29-31 | The extracted number is the packet's own if and only if its absolute value is 1 to 5; 258 reads as 2 |
| Init.PacketReads | src/modules/telegram/init.rs:12-79 | For every head, key, iv and plaintext: the data centre read from an init, by its three magics and its two number bytes, narrowing and sign included |
| Init.PacketCarries | src/modules/telegram/init.rs:12-79 | For every head, key, iv, padding, each magic and each 16-bit number, the packet built from them carries that number |
| Init.CraftedReads | src/modules/telegram/init.rs:12-42 | Under any keystream every 16-bit number is carried by some recognised packet and read as `InfoOf` says; the one carrying 258 is extracted as data centre 2 |
| Init.OverrideAgrees | src/modules/routing.rs:218-230 | The resolver's answer agrees with re-reading its packet if and only if no entry is known for the target or the packet's magic is recognised |
| Init.UnmarkedDisagrees | src/modules/routing.rs:218-230 | Under any keystream there is a packet that disagrees for every known entry: the answer names the data centre, the packet reads as unknown |
| Init.ResolveKeepsPacket | src/modules/routing.rs:213-238 | Resolution changes at most bytes 60 and 61, leaves an unresolved packet alone, keeps the cipher and yields only data centres 1 to 5 |
| Init.ResolveKeepsHttpVerdict | src/modules/routing.rs:85-171 | Resolution never changes whether a packet looks like plain HTTP |
| Ipv6Cache.Cache.LearnedEntry | src/modules/routing/ipv6_cache.rs:10-17 | Looks up the parsed address, if the text is one |
| Ipv6Cache.Cache.RememberEntry | src/modules/routing/ipv6_cache.rs:19-27 | Stores under the parsed address and changes nothing for other text |
| Ipv6Cache.Cache.ResolveTelegramInit | src/modules/routing.rs:213-238 | The step-by-step resolver computes `Resolve` with the learned entry first and the static table second |
| Ipv6Cache.Cache.RememberTelegramIpv6 | src/modules/routing.rs:240-252 | Stores a known data centre for IPv6 targets only |
| Ipv6Cache.LearnedWasSent | src/modules/routing/ipv6_cache.rs:10-27 | In every run of concurrent sessions a learned entry was extracted from an init sent to that same address and names a data centre 1 to 5 |
| Ipv6Cache.LearnedIsLatest | src/modules/routing.rs:82-83 | From the start, if the sections on an address do not overlap, the map holds what was last extracted for it, whatever happens on other addresses |
| Ipv6Schedules.CurrentIffNoOverlap | src/modules/routing.rs:82-83 | For a learned, up-to-date, idle address and any schedule of complete sessions: the map ends up to date for every choice of packets if and only if no two sections on the address overlap |
| Ipv6Schedules.OverlapGoesStale | src/modules/routing.rs:82-83 | For every schedule with an overlap on a learned address there are packets after which the old entry is back though a newer one was extracted |
| Ipv6Cache.FirstOverlapHarmless | src/modules/routing.rs:82-83 | Before anything is known of an address, two overlapping sections that store in the order they began leave the right entry for all packets |
| Ipv6Cache.NestedFirstOverlapStale | src/modules/routing.rs:82-83 | There, two that store in the opposite order leave the entry extracted first, for every keystream, address and pair of entries |
| Ipv6Cache.OverlapMayGoStale | src/modules/routing.rs:82-83 | For every keystream and address, a run in which overlapping sessions leave an older entry behind |
| Backoff.WsBackoff.BeginProbe | src/modules/routing/backoff.rs:34-50 | Prunes every expired entry, answers from what is left, and opens a 15 s probe window only when nothing is |
| Backoff.WsBackoff.RecordFailure | src/modules/routing/backoff.rs:52-55 | Overwrites the key's entry with a 60 s cooldown from the given instant |
| Backoff.WsBackoff.Disable404 | src/modules/routing/backoff.rs:57-59 | Overwrites the key's entry with the ban |
| Backoff.WsBackoff.Clear | src/modules/routing/backoff.rs:61-63 | Removes the key's entry |
| Backoff.AnswerTable | src/modules/routing/backoff.rs:34-50 | The answer for every entry and instant, an entry being over at the instant it names, and the 15 s window opened |
| Backoff.FinishTable | src/modules/routing.rs:134-155 | What each outcome leaves under the key: nothing, the ban for 404 from every domain, or 60 s of cooldown |
| Backoff.BeginsAttempt | src/modules/routing.rs:109-133 | A session connects exactly when it is told to probe or finds another probing |
| Backoff.ConnectWsRoute | src/modules/routing.rs:279-311 | Connects if and only if some domain does; when none does, the flag says whether every domain answered 404 |
| Backoff.AttemptWs | src/modules/routing.rs:107-155 | One session's use of the backoff: told to probe or finding a probe in flight it connects if some domain does, otherwise not at all; and the map after clear, ban or cooldown from the instant of asking |
| Backoff.EntriesExplained | src/modules/routing.rs:107-155 | In every run the very attempt that put a probing entry there, begun 15 s before its expiry, is in flight; a cooldown belongs to the last attempt to finish, begun 60 s before its expiry and failed without all 404; a ban to one whose two domains answered 404 |
| Backoff.DisabledForGood | src/modules/routing.rs:107-155 | A key is disabled in every continuation if and only if it is disabled now and no attempt on it is in flight |
| Backoff.BanLifted | src/modules/routing.rs:107-155 | For every key, a run from the start that disables it with an attempt still in flight, whose success then lifts the ban |
| Backoff.DisabledAnswers | src/modules/routing/backoff.rs:40-43 | From then on every question about it is answered with the ban, so no attempt starts |
| Backoff.DisabledBy404 | src/modules/routing.rs:147-148 | Only the end of an attempt on that key with 404 from every domain disables it |
| Backoff.ProbeAfterCooldown | src/modules/routing/backoff.rs:34-50 | In every run a key that is not disabled may be probed 60 s after the newest start on it |
| Backoff.ProbesSpaced | src/modules/routing/backoff.rs:34-50 | Two probe permissions for a key without a finish on it in between are at least 15 s apart, whatever other keys do |
| Backoff.PruningInvisible | src/modules/routing/backoff.rs:34-63 | For ordered probes the shared pruned map answers each key as its own never-pruned history would |
| Backoff.PruneInvisibleIff | src/modules/routing/backoff.rs:35-38 | A prune can change no answer at t if and only if its instant is not later than t |
| Backoff.LatePruneForgets | src/modules/routing/backoff.rs:35-38 | A run from the start in which another key's later prune turns a key's cooldown into a probe permission one nanosecond early |
| Socks.ReadAuthField | src/modules/socks.rs:153-162 | Reads a length byte and that much text, with exact consumption and both errors |
| Socks.AuthenticateUser | src/modules/socks.rs:126-151 | Accepts exactly configured pairs, with the exact replies and consumption of every outcome |
| Socks.ReadTargetAddress | src/modules/socks.rs:164-190 | Reads each address type with exact consumption; an unknown type consumes nothing |
| Socks.HandleSocks5Handshake | src/modules/socks.rs:77-124 | Result, bytes left and replies are those of the closed form, for every input |
| Socks.HandshakeUnderstands | src/modules/socks.rs:77-190 | Every admissible client encoding, with or without credentials, gives exactly its target, is consumed exactly, and gets exactly the expected replies |
| Socks.HandshakeOnlyUnderstands | src/modules/socks.rs:77-190 | On any input, success means it began with an admissible client's encoding, of which exactly that much was consumed |
| HandshakeBytes.HelloBytes | src/modules/socks.rs:84-115 | The client's greeting, login and request as bytes, in that order |
| HandshakeBytes.TargetBytes | src/modules/socks.rs:103-190 | The request for each address type: 1, 3 or 4, the address, and the port most significant byte first |
| HandshakeBytes.SuccessBytes | src/modules/socks.rs:92-123 | A client that is let in sees exactly 05 00 or 05 02 and 01 00, and the ten-byte success reply |
| HandshakeBytes.WrongVersion | src/modules/socks.rs:84-88 | Another version is refused without a reply |
| HandshakeBytes.MissingMethod | src/modules/socks.rs:92-96 | A missing method is answered 05 ff |
| HandshakeBytes.UnlistedUser | src/modules/socks.rs:137-150 | Well-formed credentials that are not configured are answered 05 02 and 01 01, and read to the end |
| HandshakeBytes.WrongLoginVersion | src/modules/socks.rs:130-135 | So is another login version, after one byte |
| HandshakeBytes.WrongCommand | src/modules/socks.rs:103-110 | Any other request header is answered with the ten-byte refusal, its address left unread |
| HandshakeBytes.WrongAddressType | src/modules/socks.rs:188 | An unknown address type is refused without a reply |
| Socks.SuccessReplied | src/modules/socks.rs:117-118 | The success reply is sent if and only if the handshake succeeds |
| Socks.SucceededDistinct | src/modules/socks.rs:94-118 | No other reply has the success reply's bytes |
| SocksAuth.ReadEntry | src/modules/socks.rs:53-67 | Splits at the first colon and reports a missing colon, an empty name or an empty password |
| SocksAuth.ParseSocksAuth | src/modules/socks.rs:41-75 | The loop over trimmed nonempty pieces computes `Parse`: all users in order or the first bad entry's error |
| SocksAuth.EntryTable | src/modules/socks.rs:53-67 | Name, colon and password, the first colon counting, and the three errors |
| SocksAuth.TwoUsers | src/modules/socks.rs:48-68 | Two users in one text behind a comma, a semicolon or a line break |
| SocksAuth.ParseWritten | src/modules/socks.rs:41-75 | Round trip: any users written with any separators, padding and blank slots parse back in order; no users parse as no authentication |
| SocksAuth.AcceptedIsWritten | src/modules/socks.rs:41-75 | Conversely every accepted text is one so written, and the users parsed are exactly those written in it |
| SocksLogin.ListedUserGetsIn | src/modules/socks.rs:41-151 | Every user on the list, however the list is written, gets in from any client that presents its bytes, with exactly the three replies |
| SocksLogin.OnlyListedUsersGetIn | src/modules/socks.rs:41-151 | Whatever the text of the list, if it is accepted and names users, whoever gets in has presented the bytes of a user written in it |
| Relay.StepInv | src/modules/relay.rs:27-108 | Every step of either task, failures included, keeps the invariant on lock, wire, plan, reads, deliveries and sizes |
| Relay.RunInv | src/modules/relay.rs:27-108 | So does every interleaving |
| Relay.DataOfEvents | src/modules/relay.rs:47-86 | The data and pongs planned are the reads' parts and the pings answered, in the order the lock was taken |
| RelayGuarantees.WireIsFrames | src/modules/ws.rs:178-197 | In every reachable state the wire is whole frames and at most one partial frame, completed by the bytes pending; until a failure or the close, a partial frame is the lock holder's own: the init, the current part of its read, or the pong it took the lock for |
| RelayGuarantees.WireFollowsPlan | src/modules/relay.rs:27-108 | Decoded, the wire is a prefix of the init and each use of the lock in turn, and all of it when the lock is free or the writer was closed cleanly |
| RelayGuarantees.UpstreamInOrder | src/modules/relay.rs:27-60 | The init is the first frame, and the data decoded is a prefix of the init and the client's bytes, all of it after a clean close |
| RelayGuarantees.PartsAreSplits | src/modules/relay.rs:47-56 | The parts sent are the splitter's answers to successive reads, each at its true place in the client's stream |
| RelaySplitting.FramesAreParts | src/modules/relay.rs:47-52 | With a splitter the data frames are, in every reachable state, the init and then the parts of the successive reads, cut short at most at the end |
| RelaySplitting.FramesAreMessages | src/modules/relay.rs:47-52 | After a clean close they are the init and the client's encrypted messages, one each, if and only if no read started or ended inside a message |
| RelaySplitting.FramesAreReads | src/modules/relay.rs:53-55 | Without a splitter each read is one frame |
| RelaySplitting.ReadsAreTheInput | src/modules/relay.rs:35-46 | Reads are nonempty, at most 32 KiB, and join to a prefix of the client's bytes, to all of them after a clean close |
| RelaySplitting.WrittenFrames | src/modules/ws.rs:178-197 | Everything written is the encoding of final, masked frames of opcode 2 or 10 |
| RelaySplitting.AnsweredByOpcode | src/modules/relay.rs:71-100 | The pongs answer the server's frames of opcode 9, and the client gets those of opcodes 0 to 2, up to the first of another opcode; all of them when the receiving task has ended |
| RelayRuns.Interleavings | src/modules/relay.rs:33-108 | A free lock goes to whichever task asks, writes and deliveries take any nonempty part, reads any part up to 32 KiB, and a failure may strike each of them |
| RelayRuns.EveryCutHappens | src/modules/ws.rs:179-184 | The wire may stop after any byte of a frame |
| RelayRuns.EveryReadingHappens | src/modules/relay.rs:33-66 | However the client's bytes are cut into reads of 1 to 32768 bytes, some run reads them so and closes cleanly |
| RelayRuns.TogetherYetApart | src/modules/relay.rs:47-52 | Messages that arrive together in one read leave as one frame each |
| RelayGuarantees.PongsBetweenReads | src/modules/relay.rs:47-86 | What precedes a pong on the wire is the init and whole uses of the lock, so none falls between the parts of a read |
| RelayGuarantees.PongsAnswerPings | src/modules/relay.rs:82-87 | The pongs decoded carry a prefix of the server's ping payloads, in order; with the writer at rest they and the one ping still waiting are all pings heard so far, and all the server sent once the receiving task has ended by itself and the writer is at rest or was closed |
| RelayGuarantees.DownstreamInOrder | src/modules/relay.rs:71-101 | The client has received a prefix of the server's data before any close, and all of it when the receiving task ends by itself |
| RelayProgress.EveryRunEnds | src/modules/relay.rs:33-108 | No interleaving of reads, partial writes, deliveries and failures goes on for ever |
| RelayProgress.RestsOnlyWhenDone | src/modules/relay.rs:33-108 | No deadlock: a state in which nothing but a failure could happen is exactly one with the lock free and each task finished, failed or facing a closed writer, and in it nothing at all can happen |
| RelayProgress.RestMeansDelivered | src/modules/relay.rs:33-108 | A session at rest without a failure has closed the writer and given the peer every client byte; the other task has delivered all the server's data and answered every ping, or holds a ping that came too late |
| EndToEnd.SelectRoute | src/modules/routing.rs:51-105 | Handshake, init read, resolution and learning choose the route `RouteOf`, update the map as `LearnedAfter`, and leave the client's remaining bytes unread |
| EndToEnd.RouteClient | src/modules/routing.rs:45-164 | Each backoff answer and connect outcome leads to its own ending and its own new backoff state: told to probe or finding a probe in flight, a session is bridged if some domain connects; and a bridged session has a new splitter built from its packet |
| EndToEnd.RouteKeepsBytes | src/modules/routing.rs:45-105 | On every route that forwards bytes they are the client's bytes behind the handshake: verbatim on both passthroughs and for an init that names its own data centre, otherwise up to bytes 60 and 61 towards the WebSocket; each route is taken only under its own conditions on target, HTTP prefix and data centre, and its key and packet are determined |
| EndToEnd.HttpPrefixes | src/modules/routing.rs:166-171 | Plain HTTP is told by four prefixes: POST, GET, HEAD and OPTIONS with a space |
| EndToEnd.InitIsLearned | src/modules/routing.rs:240-252 | A client of an IPv6 target whose init names a data centre leaves exactly that entry under the address |
| EndToEnd.LearnedBySession | src/modules/routing.rs:82-83 | One connection by itself changes the map as the two steps of a concurrent session do |
| EndToEnd.KnownInitRoutes | src/modules/routing.rs:51-107 | Every admissible client to Telegram whose init names a known data centre is routed to the WebSocket under that key with its packet and remaining bytes untouched |
| EndToEnd.WebSocketIff | src/modules/routing.rs:51-107 | The route is the WebSocket if and only if an admissible hello to Telegram is followed by 64 bytes that are not HTTP and the init or a known entry names a data centre |
| EndToEnd.LearnedStaysValid | src/modules/routing.rs:82-83 | A connection leaves the learned map fit for the next |
| EndToEnd.PeerGetsClientBytes | src/modules/routing.rs:45-164 | For every client stream routed to the WebSocket, every server and every interleaving, the peer's data is the client's stream behind the handshake in order, differing at most at indices 60 and 61 and not at all when the init names its own data centre, complete after a clean close; and the splitter is the one the client's own init defines |
| EndToEnd.PeerGetsMessages | src/modules/routing.rs:133-145 | When the bytes behind the init are messages under its cipher, the peer's frames after a clean close are the init and the messages, one each, if and only if no read started or ended inside a message |

## Left out

- AES, SHA-1, base64, randomness, TLS and TCP connect: the keystream is any function, the mask key is any four bytes, and connect outcomes are arbitrary.
- Negotiated WebSocket extensions: the request offers permessage-deflate but the reader ignores the RSV bits; none is assumed negotiated.
- Writing after the WebSocket writer was closed or has failed: the relay model stops each task at its next write there (a ping that arrives then stays unanswered), since what happens depends on the TLS library.
- I/O errors other than end of stream are modelled in the relay only, as failures of its reads, writes, close and shutdown; elsewhere a socket's bytes end or continue, and writes succeed.
- Cancellation, the connect and read timeouts, and the flush between frames.
- Frames.ReadFrame: lengths are taken as the 64-bit platform has them, and a declared length the allocator refuses, which ends the process, reads as a truncated frame.
- Frames.BuildFrame: requires a payload below 2^64 bytes, which every buffer in memory meets.
- UTF-8: close reasons stay raw bytes instead of their lossy decoding, and SOCKS text is bytes with an arbitrary validity predicate.
- Address text: targets are tagged addresses, and parsing and the static tables of src/modules/telegram/catalog.rs are parameters that name data centres 1 to 5 and map no IPv6 text to a static entry.
- SocksAuth.ParseWritten: white space is any predicate that contains the line break and none of the comma, semicolon and colon, which Rust's own satisfies.
- Ipv6Schedules.CurrentIffNoOverlap: is about addresses with a learned entry; before the first entry, no overlap suffices (`LearnedIsLatest`), is more than is needed (`FirstOverlapHarmless`) and cannot be dropped (`NestedFirstOverlapStale`).
- Relay.StepInv: the relay is a step system over values, so the 32 KiB buffer the reads share is modelled by its size alone.
- Byte and packet counters, end reasons and all logging.
- HTTP upgrade requests and the parsing and validation of the response (src/modules/ws.rs:295-418).
- The bidirectional copy behind a passthrough, which is a library function; the model ends with the bytes handed to it.
- `split_plain_mtproto_messages`, `route_decision` and `RawWsReader::recv`, which routing does not use.
- src/modules/pool.rs, src/modules/stats.rs, src/modules/health.rs, src/runtime, src/main.rs and the rest of src/config.rs: an unused connection pool, counters, the health endpoint, the listening sockets and shutdown, and the command line.
