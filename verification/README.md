# Verified model of the Ark wire protocol

A Dafny model of the transport between an Ark and its host, with proofs, from the
bytes in the receive buffer up to sessions over whole runs. `dafny verify dfyconfig.toml`
checks everything.

The layers follow the program:

- `Bytes`, `Splitter`, `Cobs`, `CobsBlocks`, `Packets`: what a byte stream means. Cut it at zeros, drop
  the pieces above the frame limit, decode the rest.
- `Limits`: the size arithmetic of the crate root.
- `Transport`, `Framing`, `Restarts`, `Pipeline`: readers and writers with a schedule of chunk sizes
  and failures, the framer as a class over its fixed buffers, and the framer's two ends
  joined. The framer counts where it looks at and copies bytes, and its books are tied to
  the frames it returned, skipped and lost. How far a call reads is exactly determined by
  the schedule.
- `Crypto`, `Session`: cryptography as an ideal functionality (records of what was signed
  and sealed; only what is on record verifies or opens) over arbitrary byte encodings, and
  the session class.
- `Turns`, `Listening`: what one side goes by while the rest of the world goes on. Before
  every read others may draw names, sign and seal, and bytes may arrive.
- `ArkMachine`, `HostMachine`: each side as a machine over the framer's inputs.
  `ArkSide`, `HostSide`: the classes with the nested loops, proved to move exactly as the
  machines do over exactly the inputs of the bytes that were there or arrived, each taken
  in the world as it was by then (a `Journey`).
- `Wire`, `ArkContract`, `HostContract`: what each side promises for each input and call, said
  of packets, records and bytes alone.
- `Network`, `Agreement`, `Delivery`, `Returns`: both machines over a network anybody can write to.
- `Channel`, `Lockstep`, `Sending`: both machines over two first-in-first-out byte streams.
- `Calls`: a call of either class is a stretch of such a run, the other side acting in
  between.
- `Continuity`, `Recovery`, `FirstAttempt`, `HostStream`: what a session survives, how the
  sides find each other again, and what the host writes.
- `FirstContact`, `PlainSuite`: the hypotheses hold together. A handshake goes through step
  by step whenever its values can be used, and does for a suite given in full.

The frame limit is a parameter throughout, so every statement holds for any limit. All
loops are proved to terminate: each turn consumes input, an interlude of the outside
world, or an entry of the read schedule.

Results that were not as expected:

- The framer's documentation promises resynchronisation on the next delimiter after an
  oversized frame. A read error while such a frame is being discarded breaks that: the
  mode is forgotten, and the rest of the frame passes for a frame.
  `Splitter.InterruptionHarmless` gives the exact condition under which this goes
  unnoticed, and `Pipeline.ForgedReset` is the framer on an input where a session reset
  comes up that nobody sent.
- The Ark writes no delimiter in front of its hello. After a cut write of its own the
  hello is lost to the host unless the stream is at a frame boundary;
  `Recovery.HelloNeedsBoundary` is the exact condition. The host has no such weakness
  (`HostStream.HostOutputUnmixed`).
- A send that reported failure may still be delivered: exactly if at most the delimiter
  was missing (`Recovery.CutMessageOpens`).

## Model

| member | source | states |
|---|---|---|
| Splitter.FramesOfJoin | src/framing.rs:99-169 | Reference meaning of the framer: any zero-free pieces, joined by delimiters and followed by an unfinished tail, split back into exactly the pieces of at most the limit, in order. |
| Splitter.EveryStreamIsJoined | src/framing.rs:10-19 | The reference meaning covers every stream: each is such a join, so the splitter is determined on all inputs. |
| Splitter.SkippedOfJoin | src/framing.rs:121-126 | What is reported in front of a frame are the true sizes of the oversized pieces there. |
| Transport.Reader.Read | fuzz/fuzz_targets/next_frame.rs:48-71 | A read does what its schedule entry says: it fails, or hands out so many bytes as are asked for, fit and are there, at least one of them unless the stream has ended. |
| Framing.Framing.NextFrame | src/framing.rs:104-169 | For every fragmentation, one call returns the splitter's next frame of the bytes not consumed yet and leaves exactly the rest; reports the true lengths of the oversized frames before it; on end of stream nothing was left to return; on a failed read it loses those frames and, in discard mode, the begun one. Delimiters, returned and discarded bytes are counted exactly, and it stops exactly where the schedule makes it stop. |
| Framing.Framing.FindDelimiter | src/framing.rs:110-113 | The first delimiter of the unscanned part, every byte up to it looked at once and none behind it. |
| Framing.Framing.Compact | src/framing.rs:133-143 | The partial frame is moved to the front, byte by byte counted, unless it is there. |
| Framing.Framing.MakeRoom | src/framing.rs:130-158 | After an unsuccessful search the partial frame survives compaction unchanged if it can still fit, and is discarded in full otherwise or in discard mode; there is always free space to read into. |
| Framing.Framing.Consume | src/framing.rs:110-128 | The found frame, its delimiter and the remaining bytes are together what was unconsumed before. |
| Framing.Framing.Fill | src/framing.rs:159-167 | One read moves bytes from the stream to the buffer without changing what is still to be consumed, never into an empty buffer, and exactly as many as the schedule and the space say. |
| Framing.Framing.NextPacket | src/framing.rs:65-81 | The call's outcome is the stream's next input: None exactly for an empty frame, the decoded packet, or a decode failure; the decoded packet always fits its buffer. |
| Framing.Framing.SendPacket | src/framing.rs:86-97 | Writes the packet's frame, or the prefix a failed write let through; refuses without writing exactly when the encoder's bound exceeds the limit. |
| Framing.Framing.SendFrame | src/framing.rs:174-181 | The delimiter goes into the slot behind the frame and both go out in one write. |
| Framing.Framing.SendReset | src/framing.rs:53-59 | Two delimiters, or the prefix a failed write let through. |
| Splitter.SkippedAreOversized | src/framing.rs:121-126 | No frame within the limit is ever skipped or reported. |
| Splitter.InterruptionHarmless | src/framing.rs:106-167 | A failed read changes the later frames exactly when it hits discard mode and the rest of the discarded frame ends within the limit. |
| Splitter.InterruptedDiscard | src/framing.rs:144-164 | What a failed read in discard mode does: the rest of the discarded frame comes up as one extra frame, the others are unchanged. |
| Splitter.InterruptedDiscardForgesReset | src/framing.rs:106-167 | For every limit there is a stream on which an interrupted discard yields an empty frame although the stream holds no frame at all. |
| Pipeline.ForgedReset | src/framing.rs:106-167 | That stream run through the framer, for every limit: the first call fails, and the second reports a session reset. |
| Pipeline.Drain | src/framing.rs:65-169 | Reading to the end, retrying after failed reads, yields what the splitter gives when restarted at every failure, decoded, for every fragmentation. Every delimiter is consumed, every returned byte accounted for, and no failure hits a discard if no frame is oversized. |
| Restarts.ReplayedFrames | src/framing.rs:106-167 | Over a whole reading, exactly as many frames come up besides the stream's as failures cut a discard whose rest ends within the limit. |
| Restarts.RestartsHarmless | src/framing.rs:106-167 | So the frames are those of the stream exactly if no failure did. |
| Pipeline.ReadWhole | src/framing.rs:110-158 | Over all the calls that read a stream, for every fragmentation and every pattern of failing reads: each byte is received once, looked at once and moved at most once, and is part of a returned frame, a delimiter, thrown away, or part of the unfinished frame; and the frames are those of the stream exactly if no failure forged one. |
| Pipeline.SentIsReceived | src/framing.rs:53-97 | Whatever list of packets and resets is sent, and whatever follows it, the receiver gets a packet for each packet that fits, two resets for each reset, in order. |
| Pipeline.RoundTrip | src/framing.rs:53-169 | End to end through both framers, for every list of calls, fragmentation and pattern of failing reads. |
| Cobs.DecodeEncode | src/framing.rs:230-321 | Decoding undoes encoding. |
| Cobs.EncodeDecode | src/framing.rs:248-263 | Encoding undoes decoding exactly for frames without an empty block after a full final run. |
| Cobs.EncodeZeroFree | src/framing.rs:10-19 | An encoding is never empty and holds no delimiter. |
| Cobs.EncodeLength | src/framing.rs:86-93 | An encoding is longer than its packet and within the encoder's bound, so buffer and delimiter slot suffice. |
| Cobs.DecodeShrinks | src/framing.rs:75-79 | A decoded packet is shorter than its frame. |
| Cobs.DecodeCutShort | src/framing.rs:68-80 | A frame cut short decodes to a strict prefix of its packet or not at all. |
| CobsBlocks.DecodeExactly | src/framing.rs:75-81 | A byte string decodes exactly if it is made of whole blocks, each beginning with its own length, and then to the data in them, a zero behind each but the last and the full ones. |
| CobsBlocks.InterpretExactly | src/framing.rs:65-81 | So a frame is a reset exactly if empty, and is refused exactly if it is neither empty nor made of whole blocks. |
| CobsBlocks.CutDecodesExactly | src/framing.rs:68-81 | A frame cut short decodes exactly if it was cut between blocks, and is refused otherwise. |
| CobsBlocks.CutExample | src/framing.rs:68-81 | In numbers: a frame cut inside its first block is refused. |
| CobsBlocks.FullRun | src/framing.rs:230-264 | A packet that ends with a run of 254 ends its frame with a full block and no extra byte. |
| Limits.MaxMessageSize | src/lib.rs:27-33 | The countdown gives the closed form, and underflows exactly when the limit carries not even an empty message. |
| Limits.ClosedForm | src/session.rs:79-87 | The closed form is the exact threshold: messages up to it are sure to fit sealed and framed, longer ones are not. |
| Wire.SendingExactly | src/framing.rs:86-97 | Sending a packet: an error naming the bound, and nothing written, if that is above the limit; otherwise the frame, or a part of it and an error. |
| Session.Session.Seal | src/session.rs:26-37 | Oversized messages leave the sequence and the scratch buffer untouched; otherwise the message is recorded as the context's next and the sequence advances. |
| Session.Session.Open | src/session.rs:42-49 | Opens the next message of the context only; a failure leaves the sequence, an undecodable message advances it. |
| Session.AcceptedIsDelivered | src/session.rs:26-37 | Sealing accepts exactly the messages whose sealed packet the framer sends, and that packet is the receiver's next input: size limits never lose an accepted message. |
| Listening.Outside.Listen | src/side_host.rs:137-141 | A read in an open world: bytes that arrived before it are behind those that were there, the records have grown by what others did, and the outcome is the next input of all that. |
| ArkSide.ArkSide.NextMessage | src/side_ark.rs:96-166 | With the rest of the world acting before every read: the loops take the inputs one by one exactly as the Ark machine does in the world of that moment, return at the first message opened, and on a transport error leave a session in place and a handshake abandoned. |
| ArkSide.ArkSide.Handshake | src/side_ark.rs:204-281 | From just after a reset to a session, a failure or a transport error, restarting on further resets, exactly as the machine, the host answering in between. |
| ArkSide.ArkSide.Answer | src/side_ark.rs:217-245 | Fresh key and encapsulation, the attester's current attestation, the signed hello on record, its frame or a prefix of it written; awaits the acknowledgement only if all went out. |
| ArkSide.ArkSide.Acknowledged | src/side_ark.rs:247-279 | Completes on a verified acknowledgement only, starts over on a reset, fails otherwise. |
| ArkContract.ResetsExactly | src/side_ark.rs:106-150 | In any phase a reset starts a handshake and a garbled frame ends everything; without a session packets are ignored. |
| ArkContract.AnswersExactly | src/side_ark.rs:211-245 | After a reset, the first packet is a hello, answered in full or in vain, or it ends the handshake. |
| ArkContract.CompletesExactly | src/side_ark.rs:247-279 | A waiting Ark comes to a session exactly on an acknowledgement for this handshake by the signer of the hello, not forged and usable. |
| ArkContract.OpensExactly | src/side_ark.rs:152-164 | A session opens its next packet, message or not, and goes with any other. |
| ArkContract.InterruptsExactly | src/side_ark.rs:102-104 | A failed read leaves a session and ends a handshake. |
| ArkSide.ArkSide.SendMessage | src/side_ark.rs:172-196 | In result, session, records and bytes written (`Wire.Sent`): without a session an error and nothing else; a message too long changes nothing; otherwise it is the next one sealed and its frame is written, and the session moves on exactly if all of that goes out. |
| ArkContract.SendsExactly | src/side_ark.rs:172-196 | The same of the machine, in all cases. |
| HostSide.HostSide.Handshake | src/side_host.rs:110-222 | Reset, fresh keys and hello, then polling the frames that are queued or arrive exactly as the host machine does in the world of that moment. It succeeds only with an earned session: the last packet read holds a hello bound to these keys, the policy names its signer for the attestation in it, its signature is not forged, and the session's contexts are those of the two hellos and the answer. |
| HostSide.HostSide.Acknowledge | src/side_host.rs:153-221 | Verifies the hello against the policy's identity, sets up both contexts, signs and sends the acknowledgement; a session only if all went out. |
| HostContract.BeginsExactly | src/side_host.rs:110-130 | What a handshake begins with, in all cases: the two delimiters and the hello, or as much as gets out, and the keys drawn. |
| HostContract.ComesUpExactly | src/side_host.rs:153-221 | A waiting host comes up on an input exactly if that is a hello bound to its keys which it may trust, by policy, signature and usable values, and the acknowledgement goes out. |
| HostContract.AnswersExactly | src/side_host.rs:184-221 | What such a hello is answered with, and which session there is then. |
| HostContract.RefusesExactly | src/side_host.rs:153-201 | Any other packet to the fresh key ends the handshake without a byte written, with the attestation's shape or anything else as the error. |
| HostContract.SkipsExactly | src/side_host.rs:137-152 | Frames for others are put up with 32 times; a garbled one ends the handshake. |
| HostContract.SessionsAreEarned | src/side_host.rs:132-221 | Over a whole handshake, a session comes of nothing but a hello the host may trust, in the world it read it in. |
| HostContract.ReadsExactly | src/side_host.rs:228-258 | A call returns a message exactly if there is a session, the packet read is the next one sealed for it, and what it holds is a message; every error has its one cause. |
| HostContract.ReadingMovesExactly | src/side_host.rs:233-255 | The session stays over an empty frame, moves on with its next packet, and goes with anything else. |
| HostSide.HostSide.NextMessage | src/side_host.rs:228-258 | On the next input there is, in the world of that moment, the result is the table `Wire.ReadAs`: the next message sealed for the session, or the one error that fits; the state is the machine's, and any transport error drops the session. |
| HostSide.HostSide.SendMessage | src/side_host.rs:264-288 | As for the Ark, in result, session, records and bytes written. |
| HostContract.SendsExactly | src/side_host.rs:264-288 | The same of the machine, in all cases. |
| Agreement.HandshakeAgreement | src/side_ark.rs:228-279 | In every run over an arbitrary network: an Ark that completed on a genuine host run's hello is the identity that run's policy named and verified, on the same hello and ephemeral key, with contexts paired in both directions, and no two completions share a run. |
| Agreement.HostAgreement | src/side_host.rs:153-221 | In every run over an arbitrary network: a host run that acknowledged a hello under this Ark's identity acknowledged one this Ark made, with that key and encapsulation, for exactly that run; a live session holds the contexts of the latest run. |
| Agreement.AckIsFromRun | src/side_ark.rs:253-264 | The acknowledgement the Ark accepts under a host run's key is that run's, made for this very handshake. |
| Agreement.HelloIsFromRun | src/side_host.rs:153-182 | The hello a host accepts from this Ark's identity was made by this Ark for that very run. |
| Delivery.DeliveredInOrder | src/side_ark.rs:143-164 | In every run over an arbitrary network, the messages opened in a context are a prefix of those sealed in it, and live sessions stand at the ends of these records. |
| Delivery.SessionDelivers | src/side_host.rs:241-257 | For a genuine session this holds in both of its contexts, which belong to the two agreeing runs and not to outsiders. |
| Delivery.HostSessionDelivers | src/side_host.rs:241-257 | The same for a host run that acknowledged this Ark's hello, whether or not the Ark ever completes. |
| Returns.ReturnedAreRead | src/side_ark.rs:152-164 | In every run, the messages a side's calls returned are, for each context, exactly those opened in it that are messages, in order. |
| Delivery.OnlySenderSeals | src/session.rs:34-36 | Only the live session holding a context's sender adds to what is sealed in it. |
| Delivery.DroppedNeverDelivers | src/side_ark.rs:110-160 | Once retired, a context never opens another message for the rest of the run. |
| Delivery.ArkDroppingRetires | src/side_ark.rs:110-160 | Whenever the Ark's session goes, its context is retired. |
| Delivery.HostDroppingRetires | src/side_host.rs:233-253 | Whenever the host's session goes, its context is retired. |
| Lockstep.SessionsInLockstep | src/side_ark.rs:106-117 | In every run over first-in-first-out streams with cut writes, failing reads, resets and repeated handshakes: whenever the two sides hold paired contexts, each sender is ahead of its peer by exactly the frames in flight, buffered ones included, which are the sealed and unopened messages in order, with nothing unfinished behind them. |
| Lockstep.LockstepDelivers | src/side_ark.rs:152-164 | In lockstep the next frame the Ark reads opens to the next sealed message and the session goes on. |
| Lockstep.LockstepDeliversToHost | src/side_host.rs:228-257 | In lockstep the next frame the host reads opens to the next sealed message and the session goes on. |
| Sending.SendingKeepsSession | src/side_ark.rs:172-196 | In lockstep a message within the limits whose write goes out whole is in flight behind the others, and both sides still hold the session. |
| Lockstep.NextAt | src/side_host.rs:110-288 | Every step keeps the Ark's place in the bytes of the host's current run, from whatever was ahead of it to the last message. |
| Lockstep.HostCanBegin | src/side_host.rs:116-121 | Whatever is in flight, there are keys nobody guessed, so the runs' hypothesis never keeps a host from beginning. |
| Lockstep.ArkCanTake | src/side_ark.rs:217-226 | Whatever is in flight, the Ark can take its next input with names nobody guessed. |
| Calls.HostCallIsRun | src/side_host.rs:137-221 | A handshake of the host class, the Ark acting before its reads, is a stretch of a run over first-in-first-out streams, each turn of it a poll, and ends in the state the class is in. |
| Calls.HandshakeIsRun | src/side_host.rs:110-222 | The same for the whole call, its beginning included, so what holds in runs holds after it. |
| Calls.HostReadIsStep | src/side_host.rs:228-258 | Reading a message is a step of the host in such a run. |
| Calls.HostFailureIsStep | src/side_host.rs:233-237 | A failed read is a step that takes the host down. |
| Calls.ArkCallIsRun | src/side_ark.rs:96-166 | A call of the Ark class, the host acting before its reads, is a stretch of a run, each turn of it the Ark taking an input. |
| Calls.ArkFailureIsStep | src/side_ark.rs:102-104 | A failed read is a step that ends a handshake in progress and keeps a session. |
| Continuity.ArkSkipsNothing | src/side_ark.rs:106-164 | An Ark's session survives a sequence of inputs exactly if each was, when it was read, the next packet sealed for it, and then each was opened: a garbled, foreign or missing frame always ends it. |
| Continuity.StayingIsRunning | src/side_ark.rs:143-164 | Surviving means that there is a session at every point of the run. |
| Continuity.HostSkipsNothing | src/side_host.rs:228-257 | The same for the host, which reports empty frames and otherwise ignores them. |
| Continuity.IdleUntilReset | src/side_ark.rs:143-150 | Without a session the Ark ignores everything, writing and opening nothing, until the next reset. |
| Recovery.ResetStabilises | src/side_ark.rs:119-139 | From every Ark phase and any bytes ahead, a reset and a hello leave the Ark awaiting the acknowledgement of exactly that hello, if its reply went out. |
| Recovery.ResetReachesArk | src/side_ark.rs:99-139 | The same of a call, however the bytes arrive during it. |
| Recovery.AckEstablishes | src/side_ark.rs:247-279 | The matching acknowledgement establishes the session, paired with the host's. |
| Recovery.StaleFramesSkipped | src/side_host.rs:137-152 | As a call sees it: with n stale frames queued or arriving in front of a packet for the fresh key, a handshake that ends skipped exactly those n and judged that packet if n is at most 32, and gave up after 33 otherwise. |
| Recovery.GarbledEndsHandshake | src/side_host.rs:138-141 | Only frames that decode are skipped: one that does not is the last one read, and the handshake fails with its error. |
| Recovery.HandshakeSucceeds | src/side_host.rs:132-221 | As a call sees it: the Ark's hello, signed while the host reads, arrives behind at most 32 stale frames; the handshake succeeds and its acknowledgement puts the waiting Ark in the paired session. |
| FirstAttempt.StaleFramesPolled | src/side_host.rs:137-152 | Over the runs of both sides: from a host's beginning, with complete stale frames in flight, oversized ones in front of them or not, and the Ark going on as it likes, the host reads what was in flight and what the Ark wrote since; it skips exactly the frames in front of the Ark's hello and judges that if they are at most 32, with nothing in flight behind it, and otherwise gives up with 33 read. |
| FirstAttempt.AllReadReplied | src/side_ark.rs:204-245 | Meanwhile an Ark that has read everything has answered this host's hello, behind everything else it wrote. |
| FirstAttempt.FirstAttemptSucceeds | src/side_host.rs:132-221 | In such a run, once the host has come to that hello and accepted it, the Ark's next read puts both sides in the same session, so lockstep holds from there. |
| FirstAttempt.SecondAttempt | src/side_ark.rs:245-245 | After a cut frame the Ark's hello merges with it and is lost, but once the merged frame is read, if it is seen at all, a host that begins again is at a first attempt, with the frames the Ark wrote since in flight. |
| FirstContact.HandshakeGoesThrough | src/side_host.rs:102-110 | From any quiet state, if the values the handshake draws can be used and its three packets fit, there is a run that ends with both sides in the same session, and the host's part of it is one call that succeeds. |
| FirstContact.Example | src/side_host.rs:102-110 | In numbers: for a certain suite, limit and values all that is assumed holds, and such a run exists from the very beginning. |
| Recovery.CutMessageOpens | src/side_host.rs:280-285 | A sealed message cut anywhere and ended by the next reset opens exactly if only its delimiter was missing. |
| Recovery.HelloNeedsBoundary | src/side_ark.rs:245-245 | Behind a cut frame the Ark's hello arrives as a frame of its own exactly at a frame boundary. |
| HostStream.HostOutputUnmixed | src/side_host.rs:110-130 | In every run each piece the host ever wrote is all or the beginning of one packet's frame, and its stream is at a frame boundary whenever it has or awaits a session. |
| HostStream.UnfinishedMeetsReset | src/framing.rs:50-59 | After an unterminated frame the host's next byte is a reset delimiter. |

## Left out

- Cryptography: signatures, HPKE, COSE and CBOR are an ideal functionality. An honest
  key's signature verifies only if on record, a packet opens only as the recorded next
  message of its context; randomness of envelopes is not modelled, so equal envelopes have
  equal bytes. Setting up a sender fails only for an unusable key and a receiver only for
  an unusable encapsulation; sealing a handshake envelope does not fail otherwise.
- Session.Session.Seal: protobuf encoding is the identity on encoded messages and cannot
  fail, so the encoding error of src/session.rs:32 does not occur; sealing fails only at a
  message limit of the context.
- Lockstep.SessionsInLockstep: assumes that nobody guessed: the bytes in flight when a key
  is drawn do not, read as a frame, already hold a hello naming that key, nor did the Ark
  answer one. `Step` states it for the host's two keys and the Ark's ephemeral key;
  `HostCanBegin` and `ArkCanTake` show that it never rules out drawing.
- FirstAttempt.StaleFramesPolled: assumes that no frame in flight when the host begins, and
  no sealed message the Ark sends after, passes for an envelope to the fresh key.
- Pipeline.RoundTrip: writes do not fail there; cut writes are covered by the recovery and
  lockstep results.
- HostSide.HostSide.Handshake: the attestation's info is not returned; the policy is an
  arbitrary function to an identity key or a refusal, and the attestation's shape an
  arbitrary predicate.
- The other side acts before a read, not in the middle of it or between two local steps:
  what it does there touches nothing this side looks at before its next read.
- The encoder's space bound is taken as n + n / 254 + 1; the codec crate is not part of
  this model and is replaced by a reference codec. Its encoder error cannot occur here.
- Root certificates, clocks, sockets, flushing as a separate step, logging other than the
  reported sizes of discarded frames, and the message definitions.
