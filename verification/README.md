# Kermit file transfer, verified

This project models the file transfer of the veetee terminal emulator
(`crates/vt-kermit`) from the bytes on the line up to whole files, and proves
what the transfer is for: whatever the line does, the files the receiver
finishes are the files the sender read. Three smaller parts of the program are
beside it: XON/XOFF flow control, the resampling of glyphs and the scrolling of
part of a page.

`dafny verify dfyconfig.toml` checks everything.

## How it is laid out

| files | what they are |
|---|---|
| `Bytes`, `Octets`, `Checks`, `Packets` | characters, bytes as bits, the three block checks, the short and the extended packet |
| `Data`, `Parameters`, `Text`, `Attributes` | prefix encoding, negotiation, line endings, attribute packets |
| `Protocol` | both ends as functions from state to state, with the bytes each step sends |
| `Link`, `Sender`, `Receiver` | the same ends as objects changed in place, each method proved to compute its function |
| `Streams`, `Tallies` | packets taken from a buffer, whole ends fed in pieces; what any packet does to a receiver's counts |
| `History`, `SenderSide`, `ReceiverSide` | what each end's steps keep, against the list of packets sent |
| `Network`, `Steps` | two ends, two lines, two users and an adversary; every step keeps the invariant |
| `Theorems`, `Outcomes`, `Contents`, `Liveness`, `Limits`, `Sizes`, `OnTheWire` | what holds of every run |
| `Reasons`, `Endings`, `Answers` | in every run: what an error says and does, what stops each end, and what is said to what |
| `Veetee`, `Captured` | two ends with the program's own parameters meet all that the theorems suppose; what other programs really send is what the model says it is |
| `Flow`, `Resample`, `Strokes`, `Grid` | the three smaller parts; `Strokes` is what a glyph's score measures |

A run is any list of events: a message delivered, lost, repeated, spoiled or
made up; either end's wait running out; either user stopping. An event that
cannot happen changes nothing, so a statement about every list is a statement
about every reachable state. A line either keeps its messages in order or
delivers any message no more than 62 packets old, which is what 64 sequence
numbers can tell apart. A message carries, for the proofs only, the number of
the packet it is or answers; no step of either end reads it, and `OnTheWire`
shows that as bytes a message arrives as the network lets it arrive, even when
it is read with a check it was not built with, and that delivering it is feeding
those bytes.

## What the two ends must have in common

`Setup.Sound` in `History` states what the program needs of its two ends for a
file to arrive as it was sent. The prefixes settled on are distinct and outside
0x3f to 0x5f. Each prefix field is the same at both ends, or one end says `Y`,
or one refuses. A packet has room for at least one character. Attributes are
agreed, or every file goes in the receiver's own mode. Nothing else about
either end's parameters is assumed, and `Veetee.OursAreSound` shows that the
parameters the program asks for meet all of it, so `Veetee.FilesArrive` supposes
nothing more. `Liveness.Willing` adds, for statements that a transfer gets
somewhere, that reads and writes succeed, names are taken, and three characters
fit in a packet or none do.

## Where the program does less than it might seem to

* A sender that is done is said to have had every file go and the far end know
  it (`crates/vt-kermit/src/transfer.rs:112-113`). Two things make that false, and
  `Outcomes.DoneExactly` says that they are all: every file was kept if and only
  if the sender ended none marked discard, had begun them all, and the receiver
  threw none away.
  - A sender that gives up waiting for the answer to its last packet is done, not
    cancelled, even if either user had asked for an end
    (`crates/vt-kermit/src/transfer.rs:811-817`): `Limits.DoneThoughStopped`.
  - A receiver whose user stops it after a file's last data and before its end
    throws the file away and answers as usual
    (`crates/vt-kermit/src/transfer.rs:459-470`,
    `crates/vt-kermit/src/transfer.rs:580-606`), so the sender counts it.
    `Limits.ThrownAwayOnAPerfectLine` is such a run in which nothing is lost and
    nobody's wait runs out; `Outcomes.StoppedExactly` says which stops do it.
* With no room for data, `send_data` goes on to the end of the file unread
  (`crates/vt-kermit/src/transfer.rs:926-942`). Every file then arrives empty
  (`Limits.NothingFits`), and arrive they do, complete and counted as sent
  (`Limits.EmptyFilesArrive`, and `Limits.AByteIsLost` for two given ends). With
  any room at all, `Theorems.FilesArrive` holds.
* Two ends that name different prefix characters each take the other's
  (`crates/vt-kermit/src/init.rs:257-263`): `Parameters.SettleMirrors` says exactly
  when they mirror, `Parameters.DifferentCharactersCross` shows a pair that does
  not.
* A comment says that the receiver reads with the one-character check until a
  file has begun (`crates/vt-kermit/src/transfer.rs:474-477`). The code asks
  whether it waits for a file with packet 1 expected, which is so again after
  every 64 packets: `Theorems.EitherCheckExactly`. What arrives is the same.
* While it reads with either check, what the receiver makes of its input can
  depend on how the input was split, because an extended packet that counts too
  few characters is refused before it is asked whether all of it has come
  (`crates/vt-kermit/src/lib.rs:399-405`). `Streams.SplittingMatters` says exactly
  which packets do that, and `Streams.ReceiverFeedsInPieces` exactly which input a
  receiver may be fed in pieces. No packet these ends build is of the kind,
  wherever it is cut: `Streams.BuiltCountsEnough`, `Streams.BuiltIsFedInPieces`.
* The gate for modem control is said to let no data out
  (`crates/veetee/src/session.rs:693-697`). It keeps back what is sent while it is
  shut, not what was queued before: an XON sends that
  (`crates/veetee/src/session.rs:727-741`). `Flow.ShutAndEmptyIsSilent` says when
  nothing goes out, `Flow.QueueGoesThroughShutGate` that otherwise it does.
* Prefixes that clash lose bytes: `Data.RoundTripExactly` says exactly which do
  not.
* A text file with CR LF inside does not come back the same on a system whose
  lines end in LF: `Text.RoundTripExactly`.

## Model

| member | source | states |
|---|---|---|
| `Checks.ComputeSum` | crates/vt-kermit/src/lib.rs:151-153 | the loop adds up every byte covered |
| `Checks.ComputeCrc16` | crates/vt-kermit/src/lib.rs:160-169 | the nibble-at-a-time loop is the bit-serial reflected CRC of x^16+x^12+x^5+1 |
| `Checks.NibblesAreSerial` | crates/vt-kermit/src/lib.rs:155-169 | the two agree from any starting value, on all inputs |
| `Checks.SerialInjective` | crates/vt-kermit/src/lib.rs:160-169 | for fixed data, different states stay different |
| `Checks.BurstChangesCrc` | crates/vt-kermit/src/lib.rs:160-169 | changing one or two adjacent bytes always changes the CRC |
| `Checks.CrcCharsInjective` | crates/vt-kermit/src/lib.rs:139-147 | the three characters tell every CRC apart |
| `Octets.CtlFlipsOneBit` | crates/vt-kermit/src/lib.rs:62-64 | of every byte, `ctl` flips one bit, that worth 64, and no other |
| `Checks.OneCharInBits` | crates/vt-kermit/src/lib.rs:125-131 | in bits: the one character is the sum with its bits 6 and 7 added at the bottom, the low six of that |
| `Checks.TwoCharsAreSum` | crates/vt-kermit/src/lib.rs:132-138 | the two characters are the low twelve bits of the sum, the high six first |
| `Checks.ThreeCharsAreCrc` | crates/vt-kermit/src/lib.rs:139-147 | the three characters are the sixteen bits of the CRC, the four highest first |
| `Checks.OneBitChangesOne` | crates/vt-kermit/src/lib.rs:125-131 | one bit changed in any byte covered, the two highest included, always changes the one-character check |
| `Checks.OneByteChangesTwo` | crates/vt-kermit/src/lib.rs:132-138 | one byte changed in any way always changes the two-character check |
| `Packets.Build` | crates/vt-kermit/src/lib.rs:285-314 | what is built in either form reads back as the same packet, whatever noise is before it and whatever follows; which characters those are is `Packets.BuiltInNumbers`, and what the check among them is `Checks.OneCharInBits` and its two neighbours |
| `Packets.ReadBuilt` | crates/vt-kermit/src/lib.rs:329-419 | reading a built packet gives it back and says how much it used |
| `Packets.ReadExactly` | crates/vt-kermit/src/lib.rs:329-419 | a packet is read from a mark if and only if the characters there hold it: counts, both checks and fields by position, in either form |
| `Packets.BuiltInNumbers` | crates/vt-kermit/src/lib.rs:285-314 | every character of a built packet by its place and number, in both forms, the longer count in base 95 with its high digit first |
| `Packets.KindsAreLetters` | crates/vt-kermit/src/lib.rs:203-235 | the letter of each kind, written and read |
| `Packets.PrefixIncomplete` | crates/vt-kermit/src/lib.rs:335-357 | every strict prefix of one packet is waited for, neither read nor refused |
| `Packets.VerdictStable` | crates/vt-kermit/src/lib.rs:329-419 | any other verdict stands whatever arrives afterwards |
| `Packets.WaitingIsShort` | crates/vt-kermit/src/lib.rs:335-405 | what is waited for is never longer than the longest packet |
| `Packets.ReadWithAnother` | crates/vt-kermit/src/lib.rs:329-419 | read with a check it was not built with, a packet is refused or read with its own number and kind |
| `Packets.RefusedYetWaited` | crates/vt-kermit/src/lib.rs:376-405 | exactly when one check refuses what the shortest check still waits for: a sound extended header that counts too few, on a packet that has not all come |
| `Packets.AlteredDataRefused` | crates/vt-kermit/src/lib.rs:366-410 | a packet with the CRC and any change in one or two adjacent data characters is refused, in both forms, amid anything |
| `Packets.AlteredBitRefused` | crates/vt-kermit/src/lib.rs:366-410 | so is one with the one-character check and any one bit of its data changed |
| `Packets.AlteredByteRefused` | crates/vt-kermit/src/lib.rs:366-410 | and one with the two-character check and any one data character changed |
| `Data.EncodeData` | crates/vt-kermit/src/data.rs:95-127 | never longer than the room; what it made decodes to the bytes it used; which characters those are is `Data.ByteInNumbers`, `Data.ControlInNumbers` and `Data.RunInNumbers` |
| `Data.CountRun` | crates/vt-kermit/src/data.rs:105-111 | the length of the run that begins here, up to what a count carries |
| `Data.DecodeData` | crates/vt-kermit/src/data.rs:135-154 | the loop decodes as the recursive reading does, a dangling prefix dropped; what each form decodes to is in numbers below |
| `Data.DecodeUndoesEncode` | crates/vt-kermit/src/data.rs:34-176 | for any bytes and any room, decoding gives back exactly the bytes used |
| `Data.EnoughRoom` | crates/vt-kermit/src/data.rs:95-127 | with three characters of room for each byte, all of the data is used |
| `Data.EncodeIsFull` | crates/vt-kermit/src/data.rs:95-127 | encoding stops before the end only where the next byte has no room left |
| `Data.ByteInNumbers` | crates/vt-kermit/src/data.rs:34-85 | what any byte by itself goes as, by number, and that it comes back |
| `Data.ControlInNumbers` | crates/vt-kermit/src/data.rs:64-85 | every control goes as the prefix and the character 64 above it, and DEL as the prefix and `?`, and they come back |
| `Data.RunInNumbers` | crates/vt-kermit/src/data.rs:103-119 | a run of three to 94 goes as the repeat prefix, its length and 32, and the byte |
| `Data.QuotedInNumbers` | crates/vt-kermit/src/data.rs:157-176 | what any quoted character at all is read as, also one no encoder here quotes |
| `Data.AnnouncedInNumbers` | crates/vt-kermit/src/data.rs:157-176 | what an announced character, and an announced quoted one, is read as |
| `Data.RoundTripExactly` | crates/vt-kermit/src/data.rs:24-31 | the round trip holds for all data and rooms if and only if the prefixes are distinct and outside the range the control prefix flips |
| `Data.PacketsRebuildFile` | crates/vt-kermit/src/data.rs:95-154 | encoding packet by packet with any rooms of three or more rebuilds the file |
| `Data.EncodedIsPrintable` | crates/vt-kermit/src/data.rs:54-85 | with an eighth-bit prefix and printable prefixes, everything sent is 0x20 to 0x7e |
| `Data.EncodedIsUnmarked` | crates/vt-kermit/src/data.rs:54-85 | unless a prefix is a mark nothing sent is one, whatever the bytes |
| `Parameters.BuildBlock` | crates/vt-kermit/src/init.rs:146-162 | the block reads back as the parameters, but for prefix fields that name no character |
| `Parameters.ReadFields` | crates/vt-kermit/src/init.rs:167-203 | of a block of any length nothing is lost or moved: built again, what was read is what came, completed with what the defaults would say, prefixes that name nothing as `N` and unknown checks as `1`; and a whole block gives back its parameters |
| `Parameters.BlockReadsBack` | crates/vt-kermit/src/init.rs:145-203 | reading gives back the same parameters if and only if no prefix field is `N` or a space |
| `Parameters.Long` | crates/vt-kermit/src/init.rs:130-142 | an end that offers long packets takes at least one character and never more than 9024; how many is `Parameters.LongIsSaid` |
| `Parameters.LongIsSaid` | crates/vt-kermit/src/init.rs:130-142 | for every length up to 9024 and any capability bytes, an end that says it in base 95 after its window is known to take exactly that |
| `Parameters.LongIsUnsaid` | crates/vt-kermit/src/init.rs:121-142 | an end that offers long packets and says no length takes 500; one that does not offer them, none |
| `Parameters.CapabilitiesAreBits` | crates/vt-kermit/src/init.rs:116-135 | which bits of a capability byte say what |
| `Parameters.SendsAsAsked` | crates/vt-kermit/src/init.rs:214-238 | field by field, what is used towards the other end is what that end asked for, but for this end's own control prefix |
| `Parameters.SettlesOn` | crates/vt-kermit/src/init.rs:257-267 | which prefix is used: none if either refuses, one's own if the other says `Y`, else the other's |
| `Parameters.NegotiationMirrors` | crates/vt-kermit/src/init.rs:205-263 | after each has read the other's block, checks agree, and one end's sending prefixes are the other's reading ones exactly when each field matches |
| `Parameters.SettleMirrors` | crates/vt-kermit/src/init.rs:240-263 | exactly when both ends settle on the same prefix |
| `Parameters.DifferentCharactersCross` | crates/vt-kermit/src/init.rs:257-263 | two ends naming different characters swap them |
| `Text.ToLineConverter.Convert` | crates/vt-kermit/src/text.rs:43-51 | the loop converts as the specification function does, from any state |
| `Text.FromLineConverter.Convert` | crates/vt-kermit/src/text.rs:72-89 | likewise, with the carriage return it holds back |
| `Text.FromLineConverter.Finished` | crates/vt-kermit/src/text.rs:91-96 | a carriage return still held is written at the end |
| `Text.ToLineInPieces` | crates/vt-kermit/src/text.rs:39-51 | any way of splitting the input gives the same output |
| `Text.FromLineInPieces` | crates/vt-kermit/src/text.rs:63-96 | likewise coming back |
| `Text.ToLineIsLined` | crates/vt-kermit/src/text.rs:39-51 | every LF on the line follows a CR |
| `Text.ToLineIdempotent` | crates/vt-kermit/src/text.rs:39-51 | converting twice is converting once |
| `Text.RoundTripReplaces` | crates/vt-kermit/src/text.rs:39-96 | there and back replaces each CR LF by LF and changes nothing else, lone CRs at the end included |
| `Text.RoundTripExactly` | crates/vt-kermit/src/text.rs:39-96 | there and back is the identity if and only if the file holds no CR LF |
| `Attributes.Build` | crates/vt-kermit/src/attributes.rs:92-109 | what is built reads back as what was said |
| `Attributes.Read` | crates/vt-kermit/src/attributes.rs:55-88 | the loop reads every item up to one it cannot, unknown tags passed over |
| `Attributes.BuiltReadsBack` | crates/vt-kermit/src/attributes.rs:55-109 | type and size survive the trip for every size of 64 bits |
| `Attributes.BuiltIsShort` | crates/vt-kermit/src/attributes.rs:92-109 | at most 49 characters, so it fits any packet |
| `Attributes.BuiltInNumbers` | crates/vt-kermit/src/attributes.rs:92-109 | what is said of a file, character by character |
| `Attributes.KilobytesInNumbers` | crates/vt-kermit/src/attributes.rs:76-82 | a size in kilobytes alone is 1024 times the number; one in bytes, before it or after, stands |
| `Attributes.TypeInNumbers` | crates/vt-kermit/src/attributes.rs:67-75 | of a type only the first letter counts, `A` or `B`, and another leaves none known |
| `Attributes.UnreadableSize` | crates/vt-kermit/src/attributes.rs:76-82 | a size that is no number: none is known if it was of bytes, nothing changes if it was of kilobytes |
| `Attributes.OthersPassedOver` | crates/vt-kermit/src/attributes.rs:55-88 | items of other tags change nothing, and nothing is read past the end of the list |
| `Links.Link.Agree` | crates/vt-kermit/src/transfer.rs:208-218 | the link's new agreement, attribute flag and long length |
| `Links.Link.Build` | crates/vt-kermit/src/transfer.rs:264-276 | padding, packet and end of line as the far end asked |
| `Links.Link.Send` | crates/vt-kermit/src/transfer.rs:280-285 | the packet is kept to be sent again, retries start over, the wait is armed |
| `Links.Link.Retry` | crates/vt-kermit/src/transfer.rs:288-292 | one more try, and whether it is within the limit; nothing else changes |
| `Links.Link.ErrorPacket` | crates/vt-kermit/src/transfer.rs:295-298 | an error cut to what one packet holds |
| `Links.Link.Take` | crates/vt-kermit/src/transfer.rs:309-337 | what arrives and what is left of the buffer, for any list of checks |
| `Senders.Sender.NextFile` | crates/vt-kermit/src/transfer.rs:895-914 | computes `Protocol.NextFile`, state, source and bytes |
| `Senders.Sender.FillPending` | crates/vt-kermit/src/transfer.rs:923-937 | the read loop ends, and leaves what `Fill` does however reads are cut up |
| `Senders.Sender.SendData` | crates/vt-kermit/src/transfer.rs:916-951 | computes `Protocol.SendData` |
| `Senders.Sender.Acknowledge` | crates/vt-kermit/src/transfer.rs:821-893 | computes `Protocol.Acknowledged` in every state |
| `Senders.Sender.SendAgain` | crates/vt-kermit/src/transfer.rs:803-819 | computes `Protocol.Again` |
| `Senders.Sender.Handle` | crates/vt-kermit/src/transfer.rs:778-801 | computes `Protocol.SenderHandle` |
| `Senders.Sender.Feed` | crates/vt-kermit/src/transfer.rs:735-751 | computes `Streams.SenderFeed` of what was buffered and what came |
| `Senders.Sender.Tick` | crates/vt-kermit/src/transfer.rs:754-760 | computes `Protocol.SenderTick` and forgets a packet half arrived |
| `Senders.Sender.Cancel` | crates/vt-kermit/src/transfer.rs:765-776 | computes `Protocol.SenderCancel` |
| `Receivers.Receiver.Handle` | crates/vt-kermit/src/transfer.rs:492-619 | computes `Protocol.ReceiverHandle`, state, store and bytes; what that does with each packet is in `Reasons`, `Endings` and `Answers` |
| `Receivers.Receiver.TakeData` | crates/vt-kermit/src/transfer.rs:559-579 | computes `Protocol.OnData` |
| `Receivers.Receiver.TakeEndOfFile` | crates/vt-kermit/src/transfer.rs:580-606 | computes `Protocol.OnEndOfFile` |
| `Receivers.Receiver.Feed` | crates/vt-kermit/src/transfer.rs:399-431 | computes `Streams.ReceiverFeed` while running and `Streams.DoneFeed` once done |
| `Receivers.Receiver.Tick` | crates/vt-kermit/src/transfer.rs:434-454 | computes `Protocol.ReceiverTick` and forgets a packet half arrived |
| `Receivers.Receiver.Cancel` | crates/vt-kermit/src/transfer.rs:459-470 | computes `Protocol.ReceiverCancel` |
| `Streams.TakeBuilt` | crates/vt-kermit/src/transfer.rs:309-337 | a built packet at the head of a buffer is taken exactly |
| `Streams.StreamIsTaken` | crates/vt-kermit/src/transfer.rs:309-337 | any list of packets with mark-free noise between them is taken in order and nothing else |
| `Streams.TakeStable` | crates/vt-kermit/src/transfer.rs:309-337 | with one check, what arrives later changes no verdict |
| `Streams.DamageIsRefusal` | crates/vt-kermit/src/transfer.rs:330-335 | with any checks there is damage exactly where none of them reads the packet and one refuses it, so the guard against noise never fires by itself |
| `Streams.SenderFeedsInPieces` | crates/vt-kermit/src/transfer.rs:735-751 | feeding `a` then `b` is feeding them together, while the sender runs |
| `Streams.ReceiverFeedsInPieces` | crates/vt-kermit/src/transfer.rs:399-431 | feeding a receiver `a` and then anything is feeding it both together if and only if at no point of `a` it refuses a packet for counting too few before it has all come |
| `Streams.SplittingMatters` | crates/vt-kermit/src/transfer.rs:309-337 | with either of two checks what is taken does not depend on what comes later if and only if the first mark does not begin such a packet |
| `Streams.DamageThenPacket` | crates/vt-kermit/src/transfer.rs:309-337 | such a packet is damage until its last byte has come, and then a packet |
| `Streams.BuiltCountsEnough` | crates/vt-kermit/src/lib.rs:285-314 | no packet built in either form with any check is of that kind, cut anywhere and followed by anything |
| `Streams.BuiltIsFedInPieces` | crates/vt-kermit/src/transfer.rs:399-431 | so what these ends put on the line any receiver may be fed in pieces, cut anywhere |
| `Streams.SenderBufferIsBounded` | crates/vt-kermit/src/transfer.rs:188-190 | whatever bytes arrive, a running sender holds back at most 9031 |
| `Streams.ReceiverBufferIsBounded` | crates/vt-kermit/src/transfer.rs:188-190 | so does a running receiver, reading with either of two checks |
| `Streams.SenderHandlesFrame` | crates/vt-kermit/src/transfer.rs:735-751 | a frame amid noise is what it arrives as handled and no more; with the sender's own check, its packet |
| `Streams.ReceiverHandlesFrame` | crates/vt-kermit/src/transfer.rs:417-431 | likewise at the receiver, with one check or either of two, damage answered by one nak |
| `Streams.DoneHandlesFrame` | crates/vt-kermit/src/transfer.rs:399-417 | at a receiver that is done a frame gets the last answer again if it is the last packet again, and nothing otherwise |
| `Streams.FrameArrives` | crates/vt-kermit/src/transfer.rs:309-337 | a frame arrives as itself, as damage, or misread in its data alone, and takes nothing of what follows with it |
| `Streams.DoneIsInert` | crates/vt-kermit/src/transfer.rs:399-417 | whatever bytes a receiver that is done hears, it and its store stay and it only repeats its last answer |
| `Tallies.HandlingTallies` | crates/vt-kermit/src/transfer.rs:492-619 | whatever the packet, only the end of a file at a receiver that means to keep it adds to the files, tries come back only with the packet waited for, and an error said is said on stopping and says what for |
| `History.LinksMirror` | crates/vt-kermit/src/transfer.rs:208-218 | the two ends' links agree on check, prefixes, attributes and long packets |
| `History.HistoryIsShort` | crates/vt-kermit/src/transfer.rs:821-951 | at most two packets and, for each file, three and as many as its bytes on the line |
| `SenderSide.FillKeeps` | crates/vt-kermit/src/transfer.rs:926-937 | what was read of the file is always what was sent of it and what is pending, in the line's form, however reads are cut up |
| `SenderSide.SendDataIsOk` | crates/vt-kermit/src/transfer.rs:916-951 | the next packet carries exactly the next stretch of the file, or ends it with all of it sent |
| `SenderSide.AcknowledgedIsOk` | crates/vt-kermit/src/transfer.rs:821-893 | an acknowledgement takes the sender one packet further along S (F [A] D* Z)* B, or stops it |
| `SenderSide.AgainIsOk` | crates/vt-kermit/src/transfer.rs:803-819 | sending again repeats the identical frame and keeps everything |
| `ReceiverSide.AcceptIsOk` | crates/vt-kermit/src/transfer.rs:508-618 | the next packet of the history is always one the receiver expects, and is answered or refused |
| `ReceiverSide.RepeatIsOk` | crates/vt-kermit/src/transfer.rs:498-503 | a copy of a packet already accepted is answered again and changes nothing |
| `ReceiverSide.DataContent` | crates/vt-kermit/src/transfer.rs:559-571 | a data packet adds to the file exactly what it carries, in this end's form |
| `ReceiverSide.WholeContent` | crates/vt-kermit/src/transfer.rs:580-599 | at the end of a file, with the held carriage return, the store has the whole of it |
| `Steps.ReceiverToldIsOk` | crates/vt-kermit/src/transfer.rs:472-506 | of the messages that may arrive only the packet waited for takes a receiver further, also across the change of check |
| `Steps.SenderToldIsOk` | crates/vt-kermit/src/transfer.rs:778-801 | only an answer to the packet waited for, or a nak for the one after, takes a sender further, and never from the send-init without the receiver's parameters |
| `Steps.AlwaysGood` | crates/vt-kermit/src/transfer.rs:366-969 | the system's invariant holds after every list of events |
| `Theorems.FilesArrive` | crates/vt-kermit/src/transfer.rs:492-951 | in every reachable state the complete files are the first of the source's, each whole, and the open one holds the beginning of the next |
| `Theorems.WhatArrives` | crates/vt-kermit/src/text.rs:39-96 | what whole means: the same bytes in binary, in text the line endings of the far end |
| `Theorems.StopAndWait` | crates/vt-kermit/src/transfer.rs:141-148 | the receiver is at the sender's packet or one past it; on a line in order only packets E-1 and E, Ack K-1 and K, Nak K and K+1 are about |
| `Theorems.NumbersTell` | crates/vt-kermit/src/transfer.rs:498-506 | of messages at most 62 packets old every comparison of sequence numbers is the comparison of packets |
| `Theorems.NeverSurprised` | crates/vt-kermit/src/transfer.rs:606-618 | what is sent follows the grammar, and no packet is ever unexpected at either end |
| `Theorems.OldPacketsDoNothing` | crates/vt-kermit/src/transfer.rs:498-506 | no packet takes effect twice: any but the one waited for, however often delivered and however misread, changes neither receiver nor store |
| `Theorems.EitherCheckExactly` | crates/vt-kermit/src/transfer.rs:472-483 | exactly when the receiver reads with either of two checks |
| `Theorems.DoneMeansDelivered` | crates/vt-kermit/src/transfer.rs:872-891 | where the receiver is done too or its user never stopped, a sender that is done counts exactly the files kept, all of them if neither user stopped |
| `Outcomes.FilesAreKeptOrThrown` | crates/vt-kermit/src/transfer.rs:580-606 | in every run the files whose whole end the receiver has taken are those kept complete and those it threw away, asked to stop |
| `Outcomes.DoneExactly` | crates/vt-kermit/src/transfer.rs:872-891 | a sender that is done counts the files kept and those thrown away; every file was kept if and only if none was ended marked discard, all were begun and none was thrown away; and none is unless the receiver's user stopped |
| `Outcomes.StoppedExactly` | crates/vt-kermit/src/transfer.rs:459-470 | once its user stops it inside a file a receiver keeps no more, and a sender then done counts right if and only if no file was sent to its end whose end had not been taken by then |
| `Theorems.RunningEndsWait` | crates/vt-kermit/src/transfer.rs:246-260 | an end that runs has a deadline exactly when a time limit is asked of it, by the other end once its parameters are known and by its own until then |
| `Theorems.ProgressIsTrue` | crates/vt-kermit/src/transfer.rs:121-132 | in every run: the counts shown are of bytes written, bytes read and files kept, the names of the files open at either end, and the size a receiver shows is the source's, shown once attributes have come |
| `Contents.ReadIsSentOrPending` | crates/vt-kermit/src/transfer.rs:916-951 | in every run: the data packets sent of the file, decoded and joined, and what is pending are exactly what was read, in the line's form |
| `Contents.OpenIsCarried` | crates/vt-kermit/src/transfer.rs:559-579 | in every run: the open file is exactly what the packets taken of it carried, in this end's form, unless it is being given up |
| `Theorems.StoppedStays` | crates/vt-kermit/src/transfer.rs:399-417 | once an end has stopped nothing that happens changes it, its files or its counts |
| `Reasons.ErrorsAlwaysExplain` | crates/vt-kermit/src/transfer.rs:294-298 | in every run an error on the line is from an end that has stopped, and says what that end stopped for |
| `Reasons.ReceiverHearsError` | crates/vt-kermit/src/transfer.rs:492-497 | in every run an error that reaches a running receiver is read, whatever each end has heard of the other, and ends it: with the sender's words as far as one packet holds them, nothing said back, and the open file the last, incomplete, with what had come of it |
| `Reasons.SenderHearsError` | crates/vt-kermit/src/transfer.rs:778-784 | and the other way: with the receiver's words, nothing said back and nothing more read, where the sender reads the check; otherwise it may do nothing |
| `Reasons.AgreedIsAlwaysAnswered` | crates/vt-kermit/src/transfer.rs:824-827 | a sender knows the other end's parameters only once its first packet has been accepted |
| `Endings.NoRefusalIgnored` | crates/vt-kermit/src/transfer.rs:518-606 | in every run a receiver running or done has had no operation on its files refused, one that stopped for a refusal names the first there was, and the only one never told is of closing a file given up |
| `Endings.NothingLeftOpen` | crates/vt-kermit/src/transfer.rs:634-641 | whatever event ends a receiver's run, the file it had open is the last of its files, incomplete, with at least what had come of it |
| `Endings.ReceiverGivesUpExactly` | crates/vt-kermit/src/transfer.rs:434-454 | when a time-out ends a receiver, and whether it says that nothing arrived or how many files are complete |
| `Endings.NoFaultIgnored` | crates/vt-kermit/src/transfer.rs:895-951 | in every run a sender has stopped for the first operation on its files that failed, naming it, if and only if one has |
| `Endings.SenderGivesUpExactly` | crates/vt-kermit/src/transfer.rs:803-819 | a time-out sends the identical packet again while a try is left; then the sender is done after its last packet and has had no answer after any other |
| `Answers.TakenIsAnswered` | crates/vt-kermit/src/transfer.rs:508-606 | in every run what takes the receiver further is the next packet sent, and one answer goes back, with its number and what its kind calls for; asked to stop, the receiver says so and writes nothing |
| `Answers.AskedAgain` | crates/vt-kermit/src/transfer.rs:434-454 | a wait that runs out with tries left asks for exactly the packet waited for |
| `Answers.DamageIsAskedAgain` | crates/vt-kermit/src/transfer.rs:417-431 | so does damage, and changes nothing else |
| `Answers.UnarmedNeverExpires` | crates/vt-kermit/src/transfer.rs:246-260 | at either end a wait that is not armed does not run out |
| `Answers.FramedAsAsked` | crates/vt-kermit/src/transfer.rs:264-276 | every packet of a run goes out with the padding and end of line its reader asked for, the first and what asks for it with the defaults |
| `Answers.StopsAreAsked` | crates/vt-kermit/src/transfer.rs:459-470 | exactly when a user's wish ends a run at once, and what is said then; and that otherwise nothing but the wish changes, at either end |
| `Answers.WishIsCarriedOut` | crates/vt-kermit/src/transfer.rs:859-881 | in every run a sender asked to stop ends the file it is in marked discard, and then the batch |
| `Answers.AnswersThatEnd` | crates/vt-kermit/src/transfer.rs:847-871 | which answers end a file where it is, and which end the batch |
| `Answers.RefusedFileIsSkipped` | crates/vt-kermit/src/transfer.rs:847-881 | a file the other program refuses is ended marked discard, not counted, and the next begun or the batch ended |
| `Answers.TwoSenders` | crates/vt-kermit/src/transfer.rs:786-787 | two senders facing each other each stop and say so |
| `Answers.TwoReceivers` | crates/vt-kermit/src/transfer.rs:607-610 | of two receivers the one that hears the other's first nak stops and says so |
| `Answers.UnexpectedExactly` | crates/vt-kermit/src/transfer.rs:508-618 | a packet with the number waited for is unexpected if and only if its kind is not one the state is ready for |
| `Answers.NothingElseMoves` | crates/vt-kermit/src/transfer.rs:778-800 | a sender is left as it is by everything but an error, the answer to its packet, a request for that or the next, and another sender's first packet |
| `Answers.AttributesAreTaken` | crates/vt-kermit/src/transfer.rs:547-558 | what any program says of a file is taken, and a type it does not name leaves the receiver's own |
| `Theorems.SendingsAreBounded` | crates/vt-kermit/src/transfer.rs:278-292 | however a run goes, at most (limit + 1) packets for each of the history and one error are sent |
| `Theorems.WaitsAreBounded` | crates/vt-kermit/src/transfer.rs:434-454 | and a receiver acts on at most as many time-outs as its limit for each packet it may wait for, and one more |
| `Theorems.BudgetIsLinear` | crates/vt-kermit/src/transfer.rs:916-951 | that bound is linear in the files' sizes |
| `Veetee.OursAreSound` | crates/vt-kermit/src/init.rs:84-106 | with the program's own parameters at both ends every hypothesis holds, packets of 9014 characters and the CRC agreed |
| `Veetee.NamesCross` | crates/vt-kermit/src/transfer.rs:903-911 | a name of up to 3004 bytes crosses uncut |
| `Veetee.FilesArrive` | crates/vt-kermit/src/transfer.rs:492-951 | between two such ends, in every run at all, what is complete is whole and in order |
| `Veetee.WholeBatchArrives` | crates/vt-kermit/src/transfer.rs:729-951 | and there is a run in which every file arrives |
| `Captured.GKermitIsRead` | crates/vt-kermit/src/init.rs:278-298 | the first packet G-Kermit sends, character for character, is read as what it is amid anything |
| `Captured.GKermitMeans` | crates/vt-kermit/src/init.rs:300-340 | what it says of that program, and what this one then uses |
| `Captured.OthersTake` | crates/vt-kermit/src/init.rs:362-396 | how long packets others take, by the capabilities they really send |
| `Captured.FirstAnswerIs` | crates/vt-kermit/src/lib.rs:448-465 | the first acknowledgement, character for character |
| `Captured.LongHeadIs` | crates/vt-kermit/src/lib.rs:616-632 | the head of an extended packet, likewise |
| `Captured.GKermitSaysOfText` | crates/vt-kermit/src/attributes.rs:128-134 | what G-Kermit says of a file is understood, and what this program says of it |
| `Captured.WaitedInVain` | crates/vt-kermit/src/transfer.rs:441-451 | what an end that waited in vain says, of one file and of any other number |
| `Captured.BothWords` | crates/vt-kermit/src/transfer.rs:132-137 | what two ends that do the same say |
| `Liveness.AcceptMoves` | crates/vt-kermit/src/transfer.rs:508-618 | where nothing outside refuses, the packet waited for is always accepted |
| `Liveness.NoDeadlock` | crates/vt-kermit/src/transfer.rs:754-760 | from every reachable state with nothing on the line, one time-out and a line that delivers take the sender a packet further |
| `Liveness.CanBeCompleted` | crates/vt-kermit/src/transfer.rs:803-893 | from every reachable state with both ends running there is a way to the end; to both ends done and every file complete if neither user stopped |
| `Limits.DoneThoughStopped` | crates/vt-kermit/src/transfer.rs:811-817 | a run that ends done with nothing kept, for every setup with a file that is not empty |
| `Limits.ThrownAwayOnAPerfectLine` | crates/vt-kermit/src/transfer.rs:459-470 | for every setup with a file, a run in which nothing is lost, the sender is done counting every file, and the last was not kept |
| `Limits.NothingFits` | crates/vt-kermit/src/transfer.rs:926-942 | with no room every file arrives empty, in every run |
| `Limits.EmptyFilesArrive` | crates/vt-kermit/src/transfer.rs:926-942 | and there is a run in which both ends are done and every file, whatever was in it, is kept complete, empty, and counted |
| `Limits.AByteIsLost` | crates/vt-kermit/src/transfer.rs:237-242 | two given ends, one taking packets of three characters, between which a file of one byte goes so |
| `Sizes.AgainHalves` | crates/vt-kermit/src/transfer.rs:803-807 | what a repeat does to the size and the ceiling: a large data packet brings the ceiling to half of it, and no lower than 80 |
| `Sizes.CeilingNeverRises` | crates/vt-kermit/src/transfer.rs:916-922 | over any run the ceiling only falls, never below 80, and later data keeps under it |
| `Sizes.SentAgainHalves` | crates/vt-kermit/src/transfer.rs:803-807 | once a packet of more than 80 characters went again, no later one is more than half of it, or 80 |
| `Sizes.DataFitsFarEnd` | crates/vt-kermit/src/transfer.rs:237-242 | in every run: where the far end's capabilities end in a window and the two digits of `n`, no packet of data or name is longer than `n` characters from its mark to the end of its check |
| `Sizes.ShortDataFitsFarEnd` | crates/vt-kermit/src/transfer.rs:237-242 | and where either end offers no long packets, what such a packet counts is no more than the far end's longest, or 94 |
| `Sizes.SizeDoubles` | crates/vt-kermit/src/transfer.rs:916-923 | while nothing goes again the size doubles from packet to packet until it meets the room or the ceiling |
| `Sizes.SizesBegin` | crates/vt-kermit/src/transfer.rs:644-647 | the first size, and that no repeat brings size or ceiling below 80 |
| `Sizes.DataTakesSize` | crates/vt-kermit/src/transfer.rs:916-951 | each data packet is within a byte's worth of what its size allows while there is more to send, and never over |
| `OnTheWire.ErrorFits` | crates/vt-kermit/src/transfer.rs:295-298 | an error fits a packet whatever is said in it |
| `OnTheWire.MessagesAreBytes` | crates/vt-kermit/src/transfer.rs:264-337 | as bytes amid noise, every message of a reachable state arrives as the network allows |
| `OnTheWire.SenderDelivering` | crates/vt-kermit/src/transfer.rs:735-751 | delivering a message leaves the sender as feeding it the bytes amid noise does, and puts on the line the frames that makes it send |
| `OnTheWire.ReceiverDelivering` | crates/vt-kermit/src/transfer.rs:399-431 | likewise the receiver: with one check or either of two, running, done or stopped |
| `OnTheWire.ReachedIsFedInPieces` | crates/vt-kermit/src/transfer.rs:399-431 | the exact condition for feeding in pieces holds in every reachable state |
| `OnTheWire.SentIsFedInPieces` | crates/vt-kermit/src/transfer.rs:264-276 | and what the sender of a run has sent meets it, cut anywhere |
| `Flow.Shared.Transmit` | crates/veetee/src/session.rs:692-705 | the call is its lock-level steps with no other in between: gate, queue or write, and the write may fail with part of it gone |
| `Flow.Shared.Hear` | crates/veetee/src/session.rs:715-746 | so is hearing bytes, what a failed write leaves of the queue being gone; and a notice goes when the line stopped or started |
| `Flow.HearingInNumbers` | crates/veetee/src/session.rs:715-746 | hearing 0x13 stops the line and nothing else, hearing 0x11 starts it and writes what is queued, and any other byte does nothing |
| `Flow.LastCharacterDecides` | crates/veetee/src/session.rs:715-746 | after any bytes the line is as the last 0x11 or 0x13 among them left it, or as it was |
| `Flow.NothingLostOrOvertaken` | crates/veetee/src/session.rs:692-746 | under every interleaving what is written is what was taken in lock order but for what failed writes lost, a prefix of it if none did; with the lock free the rest is exactly what is queued, nothing unless stopped |
| `Flow.StoppedCallsWait` | crates/veetee/src/session.rs:698-704 | a call begun after an XOFF writes nothing itself before an XON takes effect |
| `Flow.StoppedIsSilent` | crates/veetee/src/session.rs:727-741 | once stopped, with no one past the look, nothing at all is written until an XON |
| `Flow.ShutTakesNothing` | crates/veetee/src/session.rs:693-697 | while the gate is shut nothing more is taken to be sent |
| `Flow.ShutAndEmptyIsSilent` | crates/veetee/src/session.rs:693-741 | from rest with the gate shut, nothing is written while nothing is queued or no XON takes effect |
| `Flow.QueueGoesThroughShutGate` | crates/veetee/src/session.rs:727-741 | and whatever is queued an XON writes, gate or no gate |
| `Resample.Search.ForEachGrouping` | crates/vt-fonts/src/resample.rs:150-171 | the recursion leaves the shared list as it was and visits exactly the groupings, the best kept |
| `Resample.EveryGroupingOnce` | crates/vt-fonts/src/resample.rs:150-170 | every way to divide the dots is visited, once, and nothing else, in spite of the pruning |
| `Resample.ChosenIsBest` | crates/vt-fonts/src/resample.rs:78-92 | no division scores better than the one chosen, and the canonical one wins ties |
| `Resample.CanonicalDivides` | crates/vt-fonts/src/resample.rs:173-187 | the fixed grouping divides the dots with none left out |
| `Resample.MasksPartition` | crates/vt-fonts/src/resample.rs:94-104 | the masks of a division put every dot in one group and no other |
| `Resample.ComputeCost` | crates/vt-fonts/src/resample.rs:118-141 | the loops add up merged strokes, added dots and filled margins; what those are on the page is `Strokes.CostIs` |
| `Strokes.RunsAreStrokes` | crates/vt-fonts/src/resample.rs:113-116 | what is counted on a line is its strokes, the longest intervals of lit dots |
| `Strokes.CostIs` | crates/vt-fonts/src/resample.rs:118-141 | for every division the cost is exactly four times the strokes merged or lost over all lines, the dark dots whose group has a lit one, dot by dot, and the margins filled |
| `Strokes.ChangedCosts` | crates/vt-fonts/src/resample.rs:118-141 | so for every division the cost is at least four for each stroke merged or lost |
| `Strokes.ChosenKeepsStrokes` | crates/vt-fonts/src/resample.rs:69-92 | the strokes the chosen division changes are bounded by any division's score, so where some division scores under 64 the chosen one keeps every line's number of strokes |
| `Strokes.DistanceIsOffsets` | crates/vt-fonts/src/resample.rs:143-148 | the second measure is the sum of how far each boundary is from the fixed grouping's |
| `Strokes.CentreIsAlone` | crates/vt-fonts/src/resample.rs:173-187 | in the groupings of the program's own cells the dot that line drawing joins at stays a group of its own: column 4 of 10 to column 2 of 6, row 7 of 16 to row 4 of 10 |
| `Strokes.CrossingStays` | crates/vt-fonts/src/resample.rs:58-76 | so a crossing of line drawing is where it should be and nothing is added to it |
| `Strokes.InProportion` | crates/vt-fonts/src/resample.rs:58-67 | groups with no fixed grouping, and dots repeated to grow, are where the sizes in proportion have them |
| `Resample.Reduce` | crates/vt-fonts/src/resample.rs:58-92 | each line reduced, grown or left |
| `Resample.LitByBlocks` | crates/vt-fonts/src/resample.rs:22-92 | through both axes and both transposes a dot is lit if and only if some dot of its source block is |
| `Resample.NoDotLost` | crates/vt-fonts/src/resample.rs:22-92 | no lit dot of a cell that shrinks is lost |
| `Grids.Grid.ScrollUpWith` | crates/vt-core/src/grid.rs:164-209 | rotating or copying, the page is moved as the specification says, and the lines that left are named oldest first |
| `Grids.Grid.ScrollUp` | crates/vt-core/src/grid.rs:152-160 | the same with nothing reused |
| `Grids.Grid.ScrollDown` | crates/vt-core/src/grid.rs:212-235 | the same downwards |
| `Grids.MovedAt` | crates/vt-core/src/grid.rs:164-235 | every cell afterwards: moved, blank, or as it was |
| `Grids.OutsideStays` | crates/vt-core/src/grid.rs:164-235 | no row outside the region changes, and attributes only where whole lines move |
| `Grids.RotatingIsCopying` | crates/vt-core/src/grid.rs:176-208 | the fast path leaves the same cells as the slow one |
| `Grids.ScrollsAdd` | crates/vt-core/src/grid.rs:164-235 | scrolling by n and then by m is scrolling by n + m |
| `Grids.ScrollingBack` | crates/vt-core/src/grid.rs:164-235 | scrolling back brings back every row that did not leave |

## Left out

- Damage the check does not notice: on the model's line damage is always refused. What each check always notices is `Packets.AlteredBitRefused`, `Packets.AlteredByteRefused` and `Packets.AlteredDataRefused`.
- Time: a wait is armed or not, and may run out whenever it is armed; how long it is, is not modelled.
- Theorems.NumbersTell: speaks of data, answers and naks; an error packet stops an end whatever its number, as `Reasons.ReceiverHearsError` says.
- Names: what name a file is kept under is any function of the bytes that arrived, and the rules in `names.rs` are not modelled; nor are UTF-8 replacement and trimming in what an error packet said, and the quoting of a refused name.
- Counters: bytes, files and tries are unbounded; the program's are of 64 and 32 bits.
- Other Kermits: `X`, `N` and whatever else another program may send or answer is modelled in `Protocol` as the code treats it, and `Answers` says what becomes of it, but the statements about runs are about two of these ends.
- Reasons.SenderHearsError: a sender that has not heard the receiver's parameters may not read an error built with the check agreed; what it does then is what it does of any damage, and `Endings.SenderGivesUpExactly` says how that ends.
- Folders and paths: a source is a list of files whose reads may be cut up in any way and whose operations may fail at any point; a store keeps what it is given or refuses. `files.rs` is not part of this model.
- Flow: the pacer, which sends after giving up its own lock; and what becomes of bytes a write took but could not flush.
- Resample.ComputeCost: a line of dots is a set, so what a mask of more than sixteen bits would lose is not modelled; `from` is at most 16 in every font.
- Grid: inserting, deleting, resizing and taking lines off the top.
- Windows, rendering, audio, printing, serial, Telnet, SSH and LAT transports, command lines, profiles, character sets and colours: wide, and apart from what is modelled here.
