# QuMesh protocol and state cores in Dafny

QuMesh is a native console for Intel AMT machines. This project models the parts of it
that are protocols or state machines rather than user interface, and proves what they are
for. `dafny verify dfyconfig.toml` checks everything.

| module | what it models |
|---|---|
| `InboxDrain` | a session that appends chunks to an inbox and repeatedly parses, removes and acts; the segmentation and pacing theorems, for any step function that is stable under appended octets |
| `SolSession`, `RedirCodec`, `RedirClient` | the redirection handshake up to `Authenticated`, the hand-over to raw application octets, and the serial session on top |
| `RedirHost`, `SolHost`, `KvmHost`, `IderHost` | the other side of each protocol: its messages octet by octet, and what client and sessions make of them |
| `RedirStack` | the three sessions on top of the client, from TCP chunks to session trace |
| `KvmCodec`, `KvmDecoder`, `KvmPalette`, `KvmColour`, `KvmTiles`, `KvmRect`, `KvmSession` | the KVM tile format, the decoder as it runs, the tiles on which it leaves its palette, what colours look like, a reference encoder, the rect decoder with its inflate stream, and the session that drives them sixteen steps at a time |
| `IderCodec`, `IderSession` | the IDE-R session: framing, the SCSI commands, and the timer-driven READ engine |
| `BatchRunner` | the bounded-concurrency scheduler with re-entrant completion |
| `HostResolve` | the host look-up that two threads share through one atomic |
| `MovRecorder` | the QuickTime writer, against a reference demuxer (ISO/IEC 14496-12 boxes) |
| `Asciicast` | the terminal recorder that never splits a UTF-8 character (section 3 of RFC 3629) |
| `ImportPlan` | planning and applying a backup import |
| `TerminalScreen` | the character grid, its cursor, and the rendering of a line |
| `TargetRange`, `Scanner` | target expansion (section 3.1 of RFC 4632) and the paced presence-ping sweep |
| `SecretCodec` | the three envelopes secrets are stored in |
| `ByteCodec` | octets, fixed-width integers and concatenation, shared by the rest |

## How to read the model

- Octets are integers 0..255; wider fields carry their ranges in their types and
  truncation is written out. Everything else is unbounded.
- Code that updates fields is a class whose methods are proved against a function of the
  old state (`KvmStep`, `RedirStep`, `IderStep`, `Do`, `Step`, ...). The theorems are about
  those functions, over every input and every run.
- Readers are tied to writers: for every message a law says, from its octets, what the
  client or session does with it, and the writers in those laws do not use the readers.
- What a session does to the outside is a log: frames written, signals emitted, messages
  removed from the inbox. Writes always succeed: what callers do after a failed one
  (several carry on) is not modelled.
- `Halt` is a step that fails the session. Run theorems speak of the run up to the first
  failure unless they say otherwise.
- Parameters stand for what the model does not look into: the inflate library (a function
  of all blocks fed so far), the JPEG encoder, AES and MD5, random octets, the clock and
  the stop flag, case folding, socket binding, address syntax, SCSI mode pages.

## Where code and documentation differ

The model follows the code.

- `kvm/include/kvm/kvm_codec.h:14` calls the inflate stream raw deflate; the code expects a
  zlib header (`kvm/src/kvm_codec.cpp:22-27`). The model abstracts from either, except that
  `HonestBlockPasses` leaves room for the header.
- The parsers' contract says that "not parsed" means "more octets needed". More octets never
  help a ServerInit whose name length is negative or over a mebibyte, an authentication
  reply announcing over 64 KiB, or a challenge whose fields do not fit its body.
  `OversizedServerInitIsStuck` and `UnreadableAuthReplyIsStuck` state exactly when.
- Packed palettes run on across rows (`kvm/src/kvm_codec.cpp:426-433`) where section 7.7.6
  of RFC 6143 pads each row.

## What does not hold, and exactly when it does

- Only palette RLE checks its palette indices. On a packed palette the code can read past
  the array, which is a separate outcome (`OutOfPalette`) of the model. `OverreadWitness`
  gives a tile, `OverreadsIffStray` says for every tile whether it happens, and
  `WithinIffPaletteFillsField` what the subencoding octet alone tells: it never happens if
  and only if there is no packed palette, or one of 2, 4 or 16 entries.
- Restoring a saved cursor does not always put it back: it does if and only if the saved
  place is on the screen at that time (`RestoreAfterSave`). `RestoreMisses` gives the two
  ways to miss.
- A secret can be lost on saving. It comes back if and only if it is empty, or its text
  survives the conversion to UTF-8 and back and there was randomness to wrap it
  (`SecretRoundTrip`, `SecretLost`).
- READ CAPACITY wraps for images of over 2^32 blocks (`CapacityIsTheLimit`, `CapacityWraps`).
- A recording reads back if and only if its media data and its index are each under 2^32
  octets (`DemuxRecovers`, `FourGigabytesAreLost`).

## Model

| member | source | states |
|---|---|---|
| `InboxDrain.SegmentationIrrelevant` | kvm/src/kvm_session.cpp:80-110 | for every stable step, two ways of cutting the same stream end in the same state, inbox, actions and verdict |
| `InboxDrain.FeedAllIsOneFeed` | redir/src/sol_session.cpp:62-118 | feeding chunks one by one is feeding their concatenation |
| `InboxDrain.DrainAppend` | redir/src/sol_session.cpp:68-118 | draining, then draining again with more appended, is draining it all at once; a failed drain is not changed by what follows |
| `InboxDrain.PacingIrrelevant` | kvm/src/kvm_session.cpp:86-110 | a bounded drain that queues itself a wake-up does, once none is queued, what an unbounded one does, however arrivals and wake-ups interleave; as long as work is possible a wake-up is queued |
| `InboxDrain.WakesSettle` | kvm/src/kvm_session.cpp:106-110 | wake-ups alone bring such a session to rest, in a number bounded by the octets waiting |
| `InboxDrain.PacedRunKeeps` | kvm/src/kvm_session.cpp:86-110 | what every step keeps holds of a paced session after every event |
| `InboxDrain.PacedRunSettles` | kvm/src/kvm_session.cpp:106-110 | left to its wake-ups a paced session finishes what the full drain does |
| `InboxDrain.DrainPlays` | redir/src/sol_session.cpp:68-118 | whole messages that are each one step are drained as they play, whatever arrives behind them |
| `SolSession.SolStepStable` | redir/src/sol_session.cpp:68-118 | the serial step is decided by what it consumes, consumes something, and does nothing on an empty inbox |
| `SolSession.SolSegmentation` | redir/src/sol_session.cpp:62-118 | the serial session's trace does not depend on segmentation |
| `SolSession.InputArrives` | redir/src/redir_codec.cpp:290-299 | a host that reads the frames built from an input of any length receives exactly that input |
| `SolSession.Session.OnRawBytes` | redir/src/sol_session.cpp:62-66 | the object appends and drains as the step function says |
| `SolSession.Session.DrainInbox` | redir/src/sol_session.cpp:68-118 | the loop leaves state, inbox and log of the full drain |
| `SolSession.Session.SendInput` | redir/src/sol_session.cpp:46-55 | an open session writes the frames of the input in order and nothing else; a closed one writes nothing |
| `SolHost.MessageIsTaken` | redir/src/redir_codec.cpp:265-312 | every message of an honest firmware, from its octets, does what it is for: the first good reply opens the session, display data is shown |
| `SolHost.RefusalCloses` | redir/src/sol_session.cpp:73-81 | a reply with a bad status closes the session |
| `SolHost.ConsoleShowsTheText` | redir/src/sol_session.cpp:62-118 | over any honest stream the console is given exactly the text displayed, in order, and told once that the session is open |
| `RedirCodec.StartReplyStable` | redir/src/redir_codec.cpp:84-100 | a parsed start reply is unchanged by octets behind it |
| `RedirCodec.AuthReplyStable` | redir/src/redir_codec.cpp:146-207 | a parsed authentication reply is unchanged by octets behind it |
| `RedirCodec.AuthReplyMeaning` | redir/src/redir_codec.cpp:146-207 | what the parsed fields say about the frame's octets: an offer of DigestWithQop, a challenge with realm and nonce, an acceptance |
| `RedirCodec.UnreadableAuthReplyIsStuck` | redir/src/redir_codec.cpp:146-207 | a reply that is all there is parsed if and only if its length is within the cap and, for a challenge, its fields fit; otherwise it never will be, whatever arrives |
| `RedirCodec.ScanCaps` | redir/src/redir_codec.cpp:146-207 | the capability scan reports each of the four schemes exactly when its octet is listed |
| `RedirClient.RedirStepStable` | redir/src/redir_client.cpp:272-447 | the handshake step is stable, including the hand-over of raw octets |
| `RedirClient.RedirSegmentation` | redir/src/redir_client.cpp:255-447 | the client's trace does not depend on segmentation |
| `RedirClient.AuthenticatedRun` | redir/src/redir_client.cpp:272-447 | a client that ends authenticated has an empty inbox, has received exactly its handshake frames followed by the application octets it handed on, and since the latest 0x11 those frames are start success, DigestWithQop offer, challenge with realm and nonce, acceptance and, for KVM, 0x41 |
| `RedirClient.AuthenticatedInboxEmpty` | redir/src/redir_client.cpp:415-426 | `Authenticated` implies an empty inbox after every drain |
| `RedirClient.HandOff` | redir/src/redir_client.cpp:255-264 | octets arriving after authentication are handed on whole and in order |
| `RedirClient.Client.HandleReadyRead` | redir/src/redir_client.cpp:255-264 | the event handler does what feeding the chunk to the step function does, and keeps the empty-inbox invariant |
| `RedirClient.Client.DrainInbox` | redir/src/redir_client.cpp:272-447 | the loop leaves state, inbox and log of the full drain, the tail handed on as raw octets |
| `RedirClient.Client.DrainOne` | redir/src/redir_client.cpp:272-447 | one pass does one step; on reaching `Authenticated` the rest of the inbox is returned and the inbox emptied |
| `RedirHost.ChallengeReadsBack` | redir/src/redir_codec.cpp:146-207 | a challenge is read as the realm, nonce and protection it was written with, from its octets |
| `RedirHost.OfferReadsBack` | redir/src/redir_codec.cpp:167-178 | a list of schemes is read as the schemes in it |
| `RedirHost.ChallengeIsAnswered` | redir/src/redir_client.cpp:340-400 | the response is computed from the challenge's own realm and nonce, and its protection or "auth" |
| `RedirHost.HonestLogin` | redir/src/redir_client.cpp:272-447 | an honest firmware is always logged in to, and every octet behind the handshake is handed on |
| `RedirHost.RefusalsFail` | redir/src/redir_client.cpp:296-447 | a refused start, an offer without DigestWithQop and a rejected response each fail the session |
| `RedirHost.BadChallengesFail` | redir/src/redir_client.cpp:340-400 | so do a challenge without realm or nonce and a verdict where a challenge is due |
| `RedirStack.StackedSegmentation` | redir/src/redir_client.cpp:255-264 | for any session with a stable step, however the TCP stream is cut, handshake and all, the session behind the client ends in the same state with the same trace |
| `RedirStack.StackedRun` | redir/src/redir_client.cpp:415-426 | a session behind an authenticated client sees exactly the stream without the handshake frames at its head |
| `RedirStack.SolOverTcp` | redir/src/sol_session.cpp:62-118 | the serial session over TCP |
| `RedirStack.KvmOverTcp` | kvm/src/kvm_session.cpp:80-273 | the KVM session over TCP |
| `RedirStack.IderOverTcp` | ider/src/ider_session.cpp:72-143 | the IDE-R session over TCP, with timer shots at the same points of the stream |
| `KvmDecoder.DecodeRleInner` | kvm/src/kvm_codec.cpp:372-493 | fills the pixel buffer as the tile's specification says, fails exactly when that rejects, and leaves the palette exactly on tiles with a stray index |
| `KvmDecoder.DecodeRuns` | kvm/src/kvm_codec.cpp:436-456 | plain RLE: clipped runs painted in place, equal to the recursive specification |
| `KvmDecoder.DecodePaletteRuns` | kvm/src/kvm_codec.cpp:458-490 | palette RLE likewise, with its index check |
| `KvmDecoder.DecodePacked` | kvm/src/kvm_codec.cpp:414-434 | packed fields likewise, continuous across rows; an index is looked up beyond the palette exactly when one of the first fields present is not below its size |
| `KvmPalette.OverreadsIffStray` | kvm/src/kvm_codec.cpp:372-493 | the decoder leaves its palette if and only if the tile is packed, its palette is there, and among the first fields present, as many as there are pixels, one is not below the number of entries |
| `KvmPalette.WithinIffPaletteFillsField` | kvm/src/kvm_codec.cpp:414-434 | it stays within on all data and sizes of a subencoding if and only if that is no packed palette or one of 2, 4 or 16 entries |
| `KvmPalette.OverreadWitness` | kvm/src/kvm_codec.cpp:426-433 | a four-octet tile of three entries on which it does not |
| `KvmDecoder.PullRun` | kvm/src/kvm_codec.cpp:436-456 | reads a 255-continued run length, or reports that it is cut short |
| `KvmTiles.DecodeInvertsEncode` | kvm/src/kvm_codec.cpp:372-493 | for every valid raw, solid, packed, RLE or palette-RLE tile, both pixel formats, any octets behind it: the decoder yields the tile's pixels |
| `KvmColour.WireShows` | kvm/src/kvm_codec.cpp:112-130 | in both formats a colour's octets are shown as that colour, opaque, each channel in full range |
| `KvmColour.DecodeShowsTheImage` | kvm/src/kvm_codec.cpp:372-493 | for every image, in every way of writing it, the decoder paints the colours the host meant |
| `KvmTiles.RunsInvert` | kvm/src/kvm_codec.cpp:436-456 | every list of runs, however split, decodes to its flat expansion |
| `KvmTiles.ItemsInvert` | kvm/src/kvm_codec.cpp:458-490 | every list of palette runs decodes to its flat expansion |
| `KvmTiles.PackedInverts` | kvm/src/kvm_codec.cpp:414-434 | every list of packed indices decodes to its palette entries |
| `KvmTiles.BodyShort` | kvm/src/kvm_codec.cpp:517-529 | no valid tile is longer than `maxInner` |
| `KvmTiles.HonestBlockPasses` | kvm/src/kvm_codec.cpp:517-537 | every valid tile, framed by the marker or as stored deflate blocks, is within the `dataLen` ceiling |
| `KvmRect.RectStable` | kvm/src/kvm_codec.cpp:495-639 | a decided rect is unchanged by octets behind it and consumes only octets it was decided on |
| `KvmRect.UndecidedFeedsNothing` | kvm/src/kvm_codec.cpp:495-545 | while a rect needs more octets nothing has been fed to the inflate stream |
| `KvmRect.RectPainted` | kvm/src/kvm_codec.cpp:495-602 | a painted rect fed the inflate stream its whole block, once, if it is compressed, and nothing otherwise |
| `KvmRect.MarkerRectRoundTrip` | kvm/src/kvm_codec.cpp:495-571 | an RLE rect carrying any valid tile behind the marker is painted as that tile and leaves the inflate stream alone |
| `KvmRect.CompressedRectRoundTrip` | kvm/src/kvm_codec.cpp:573-602 | a block the inflate stream expands to a valid tile is painted as that tile, having been fed once |
| `KvmSession.AutoFormat` | kvm/include/kvm/kvm_codec.h:99-118 | automatic choice: the richer format if and only if it fits the display buffer, failure if and only if no format fits |
| `KvmHost.HeaderReadsBack` | kvm/src/kvm_codec.cpp:308-321 | every rect header is read as it was written |
| `KvmHost.PictureIsPainted` | kvm/src/kvm_session.cpp:179-231 | a rect, from its octets, is painted at its own place in the host's colours, and the last one is followed by a request |
| `KvmHost.UpdateIsPainted` | kvm/src/kvm_session.cpp:179-243 | every picture of an update appears at its place, in its colours and in order, and the next update is asked for |
| `KvmHost.ResizeIsAnnounced` | kvm/src/kvm_session.cpp:207-221 | a desktop-size rect announces the size, pins the format for it and asks for a full picture of that size |
| `KvmHost.GreetingIsAnswered` | kvm/src/kvm_session.cpp:112-177 | an honest server is answered message by message, and the session arrives in the frame loop with the server's size |
| `KvmHost.CeilingDecides` | kvm/src/kvm_codec.cpp:517-543 | an incomplete block is waited for, unless its length is over the ceiling, told exactly in octets |
| `KvmHost.OtherMessages` | kvm/src/kvm_session.cpp:244-268 | the bell rings, and cut text is skipped whole |
| `KvmHost.RefusalCloses` | kvm/src/kvm_session.cpp:129-140 | a server that turns the console away closes the session |
| `KvmSession.KvmStepStable` | kvm/src/kvm_session.cpp:112-273 | every handshake, rect and message step is decided by what it consumes |
| `KvmSession.KvmSegmentation` | kvm/src/kvm_session.cpp:80-273 | the session's trace does not depend on segmentation |
| `KvmSession.OversizedServerInitIsStuck` | kvm/src/kvm_codec.cpp:173-189 | no continuation ever gets past a ServerInit if and only if its name length is negative or over a mebibyte |
| `KvmSession.KvmRun` | kvm/src/kvm_session.cpp:112-273 | messages taken are the stream in order; the inflate stream was fed exactly the compressed blocks of the rects taken, in wire order; requests are one plus the completed non-empty updates, none written while rects are pending |
| `KvmSession.KvmPacing` | kvm/src/kvm_session.cpp:86-110 | the sixteen-step drain with rescheduling does what an unbounded drain does |
| `KvmSession.KvmPacedRun` | kvm/src/kvm_session.cpp:86-273 | the same account holds of the paced session at every point, wake-ups still queued or not |
| `KvmSession.KvmSettles` | kvm/src/kvm_session.cpp:106-110 | once the stream pauses, as many wake-ups as octets wait finish what an unbounded drain does |
| `KvmSession.FedIsInRaw` | kvm/src/kvm_session.cpp:181-231 | the blocks a rect fed can be read off the octets it removed |
| `KvmSession.Session.DrainInbox` | kvm/src/kvm_session.cpp:86-110 | at most sixteen steps, then a wake-up if octets are left |
| `KvmSession.Session.StepHandshake` | kvm/src/kvm_session.cpp:112-177 | version, security and result messages step as specified or wait |
| `KvmSession.Session.StepServerInit` | kvm/src/kvm_session.cpp:146-172 | desktop size, pixel format, encodings and the first request, or failure when no format fits |
| `KvmSession.Session.StepRect` | kvm/src/kvm_session.cpp:179-232 | a rect is consumed only once decided; an undecided one changes nothing |
| `KvmSession.Session.StepMessage` | kvm/src/kvm_session.cpp:233-273 | update headers, bell and cut text, with its length cap |
| `KvmSession.Session.NegotiatePixelFormat` | kvm/src/kvm_session.cpp:275-313 | pins the wanted format, or fails when it does not fit |
| `IderCodec.ParseStable` | ider/src/ider_codec.cpp:172-245 | a parsed frame is unchanged by octets behind it and is not longer than the buffer |
| `IderCodec.SendDataRoundTrip` | ider/src/ider_codec.cpp:128-170 | a data frame read back gives sequence, device, completion, transfer mode and data, for all data its length field can hold |
| `IderSession.IderStepStable` | ider/src/ider_session.cpp:80-143 | the IDE-R step is stable |
| `IderSession.IderSegmentation` | ider/src/ider_session.cpp:72-143 | up to the first failure, with timer shots at the same points of the stream, segmentation does not matter |
| `IderSession.ReadsAreFaithful` | ider/src/ider_session.cpp:345-435 | in every run, however commands, chunks and shots interleave, failures and what arrives after them included: frames are numbered consecutively, each accepted READ is streamed as exactly the blocks its command's octets name, by the transfer mode they name, each chunk within the agreed size, completed on the last and on no other |
| `IderSession.HostHearsTheDisc` | ider/src/ider_codec.cpp:128-170 | in every run a host that parses the data frames from the octets they were built into hears every one, and hears the octets of the disc it asked for |
| `IderSession.TickKeeps` | ider/src/ider_session.cpp:413-435 | a timer shot keeps file position and remaining count in step with what was sent |
| `IderSession.ScsiReadKeeps` | ider/src/ider_session.cpp:345-411 | an accepted, refused or overlapping READ keeps the account |
| `IderSession.HandleKeeps` | ider/src/ider_session.cpp:80-143 | so does every other message, whatever READ is in flight |
| `IderSession.ReadFinishes` | ider/src/ider_session.cpp:413-435 | left to the timer, a READ in flight ends |
| `IderSession.CapacityIsTheLimit` | ider/src/ider_session.cpp:329-343 | READ CAPACITY names the last block a one-block READ is accepted for, if and only if there are at most 2^32 blocks or their number wraps to zero |
| `IderSession.CapacityWraps` | ider/src/ider_session.cpp:329-343 | an image of 2^32 + 1 blocks, reported as one block |
| `IderHost.Read10IsAccepted` | ider/src/ider_session.cpp:345-411 | a READ(10), from its octets, is accepted for the very blocks it names |
| `IderHost.Read6IsAccepted` | ider/src/ider_session.cpp:357-364 | so is a READ(6), zero meaning 256 blocks |
| `IderHost.AskedAsWritten` | ider/src/ider_codec.cpp:202-217 | the request on record is the one the host wrote |
| `IderHost.ReadIsServed` | ider/src/ider_session.cpp:345-435 | wherever a run has got to, a READ(10) and enough timer shots put exactly its blocks on record |
| `IderHost.HeardAsSent` | ider/src/ider_session.cpp:72-143 | in every run the messages heard are the host's octets in order, up to what waits in the inbox |
| `IderHost.ReadsRefused` | ider/src/ider_session.cpp:345-376 | the floppy, a missing medium, blocks past the image and an empty READ get their own answers |
| `IderHost.CapacityIsAnswered` | ider/src/ider_session.cpp:329-343 | READ CAPACITY sends the last block's number and the block size, big-endian |
| `IderHost.UnitBecomesReady` | ider/src/ider_session.cpp:243-255 | the first TEST UNIT READY reports a change of medium, later ones that it is ready |
| `IderHost.OpenReplyIsTaken` | ider/src/ider_session.cpp:145-169 | a good reply sets the read buffer it names and enables the drive |
| `IderHost.BadOpenReplyFails` | ider/src/ider_session.cpp:145-156 | another protocol or an oversized buffer ends the session |
| `IderHost.StatusIsAnnounced` | ider/src/ider_session.cpp:186-193 | the status register's enable bit is followed, changes announced |
| `IderHost.BiosIsEnabledAgain` | ider/src/ider_session.cpp:173-185 | a BIOS that reports ready is enabled again |
| `IderHost.Housekeeping` | ider/src/ider_session.cpp:94-142 | pings, resets, notices and closing |
| `IderHost.TocIsAnswered` | ider/src/ider_session.cpp:437-479 | READ TOC in minutes, in blocks, and the session list |
| `IderHost.ModeSenseIsAnswered` | ider/src/ider_session.cpp:257-313 | both forms of MODE SENSE, the long one cut to the host's buffer |
| `IderHost.ConfigurationIsAnswered` | ider/src/ider_session.cpp:481-509 | GET CONFIGURATION sends all features behind their length, cut to the host's buffer |
| `IderHost.OtherCommands` | ider/src/ider_session.cpp:202-241 | writes refused, events and removal answered, unknown commands rejected |
| `IderSession.Session.OnRawBytes` | ider/src/ider_session.cpp:72-78 | the object does what feeding the chunk does |
| `IderSession.Session.SendNextScsiChunk` | ider/src/ider_session.cpp:413-435 | the timer handler does what a shot does |
| `IderSession.Session.Read` | ider/src/ider_session.cpp:345-411 | refusals, the empty READ, the overlapping READ and acceptance, in the source's order |
| `BatchRunner.Runner.PumpQueue` | app/src/batchrunner.cpp:66-116 | re-entrant pumping ends; afterwards in-flight equals Running jobs, is within the cap, callbacks owed match Running jobs row by row, and a running batch has no pending job or a full cap |
| `BatchRunner.Runner.CompleteOne` | app/src/batchrunner.cpp:118-141 | the reply is recorded in its job, status and detail as they are, a non-terminal one as a failure with its detail or the default text, and the books still balance |
| `BatchRunner.Runner.Deliver` | app/src/batchrunner.cpp:86-104 | no reply is dropped: every owed callback finds a Running job of its row, which then records it |
| `BatchRunner.Runner.Start` | app/src/batchrunner.cpp:17-41 | refused while running or without rows; otherwise one job per row, in order |
| `BatchRunner.Runner.RetryFailed` | app/src/batchrunner.cpp:43-64 | restarts exactly the failed jobs, keeping the others as they are |
| `BatchRunner.Runner.RunToEnd` | app/src/batchrunner.cpp:66-141 | once all callbacks are used every job is terminal, each row was dispatched as often as asked, the end was announced once, and the finished jobs are, as a multiset, those the batch began with and one for each reply, recorded as it says |
| `BatchRunner.MarkedRunning` | app/src/batchrunner.cpp:66-90 | dispatching a job moves one of its row from pending to dispatched and owed |
| `BatchRunner.MarkedDone` | app/src/batchrunner.cpp:118-141 | settling a job uses up exactly one owed callback of its row |
| `BatchRunner.OutcomesOneMore` | app/src/batchrunner.cpp:118-141 | a reply finishes exactly the job that records it |
| `BatchRunner.SomeOwed` | app/src/batchrunner.cpp:66-141 | a batch with jobs in flight is owed a callback |
| `HostResolve.EveryScheduleIsSafe` | ssh/src/ssh_session.cpp:75-157 | in every interleaving: nothing used after it is freed or freed twice, a returned address is what the worker stored before publishing, and when both threads are through result and cell have been freed exactly once |
| `HostResolve.StopIsPrompt` | ssh/src/ssh_session.cpp:75-157 | with the stop flag up, five caller steps return, whatever the worker does |
| `HostResolve.PollDecides` | ssh/src/ssh_session.cpp:130-156 | a published result is returned even if flag or deadline say otherwise; without one a raised flag cancels, and failing that a passed deadline times out |
| `HostResolve.GivesUpForAReason` | ssh/src/ssh_session.cpp:144-154 | cancelled only if the flag was seen up, timed out only if the deadline was seen passed |
| `HostResolve.RunKeepsInv` | ssh/src/ssh_session.cpp:84-157 | ownership of the result is with exactly one side at every point of every run |
| `MovRecorder.DemuxRecovers` | app/src/mjpeg_mov_recorder.cpp:270-382 | a demuxer that knows only the container finds the boxes as written and recovers exactly the pushed frames, if and only if media data and index are each under 2^32 octets |
| `MovRecorder.FileSizeIs` | app/src/mjpeg_mov_recorder.cpp:52-236 | a closed recording is 595 octets longer than its frames and their table entries, so its length can be told beforehand |
| `MovRecorder.PlaysAtSpeed` | app/src/mjpeg_mov_recorder.cpp:116-206 | a player that follows the headers shows each frame for one part in fps of a second, at the recording's size |
| `MovRecorder.DurationsAgree` | app/src/mjpeg_mov_recorder.cpp:71-128 | movie, track and media headers agree on the length |
| `MovRecorder.BoxesOfAtoms` | app/src/mjpeg_mov_recorder.cpp:52-60 | atoms one after the other are read back as written if and only if each fits its size field |
| `MovRecorder.FourGigabytesAreLost` | app/src/mjpeg_mov_recorder.cpp:366-382 | the shortest single frame that does not |
| `MovRecorder.DemuxReaches` | app/src/mjpeg_mov_recorder.cpp:314-364 | following box sizes from the top reaches the sample tables |
| `MovRecorder.ReadTableBack` | app/src/mjpeg_mov_recorder.cpp:219-227 | the size table reads back as the sizes |
| `MovRecorder.SlicesBack` | app/src/mjpeg_mov_recorder.cpp:208-236 | cutting the media data by the table, from the single chunk offset, gives the frames |
| `MovRecorder.Recorder.Start` | app/src/mjpeg_mov_recorder.cpp:244-282 | a recording in progress is finished first; the new file holds the opening with an unpatched size |
| `MovRecorder.Recorder.PushFrame` | app/src/mjpeg_mov_recorder.cpp:284-312 | appends the frame and records its size and offset |
| `MovRecorder.Recorder.Stop` | app/src/mjpeg_mov_recorder.cpp:366-382 | the closed file is the image of exactly the pushed frames |
| `MovRecorder.Recorder.PatchU32At` | app/src/mjpeg_mov_recorder.cpp:42-50 | rewrites four octets and returns to the old position |
| `Asciicast.IncompleteUtf8TailLen` | app/src/asciicast_recorder.cpp:21-44 | the scan computes the length of the cut-off character at the end |
| `Asciicast.CutIsClean` | app/src/asciicast_recorder.cpp:21-44 | if what is held, followed by the rest, is well-formed, then so are the kept part and the held part followed by the rest |
| `Asciicast.TailOfTail` | app/src/asciicast_recorder.cpp:21-44 | what is held back is itself wholly a cut-off character |
| `Asciicast.RecordingFaithful` | app/src/asciicast_recorder.cpp:79-131 | for any chunking, events and tail concatenate to what was pushed; if that is well-formed UTF-8, so is every event, and the tail at the end is empty |
| `Asciicast.Recorder.PushBytes` | app/src/asciicast_recorder.cpp:79-106 | the object writes and holds back what the specification says |
| `Asciicast.Recorder.Stop` | app/src/asciicast_recorder.cpp:108-131 | flushes the tail |
| `ImportPlan.ImportIsAnUpsert` | app/src/computermodel.cpp:385-481 | with distinct non-empty ids: updates name different rows, exactly those take the incoming data keeping id and place, others are untouched, and behind them come the new entries in order |
| `ImportPlan.PlanNamesApart` | app/src/computermodel.cpp:385-434 | no two update entries name the same row |
| `ImportPlan.PlanNamesUnclaimed` | app/src/computermodel.cpp:385-434 | an update entry names an unclaimed row it matches by id or by host and name |
| `ImportPlan.NewMeansTaken` | app/src/computermodel.cpp:385-434 | an entry is new only if every row it matches went to an earlier entry |
| `ImportPlan.IdWins` | app/src/computermodel.cpp:400-421 | a computer that carries the id of a row still free updates that row, whatever else it resembles |
| `ImportPlan.Hit` | app/src/computermodel.cpp:400-421 | the first free row with its id, else the first with its host and name |
| `ImportPlan.OnlyNamedRowsChange` | app/src/computermodel.cpp:436-472 | after any edits in between: every row keeps id and place, and one the plan does not name is untouched |
| `ImportPlan.AppendsNewRows` | app/src/computermodel.cpp:436-472 | as long as the named rows are there, exactly the new entries are appended |
| `ImportPlan.NewRowIs` | app/src/computermodel.cpp:463-471 | a new row is the incoming computer under its own id, or a fresh one |
| `ImportPlan.NamedRowIsRewritten` | app/src/computermodel.cpp:457-462 | the named row takes the incoming data, keeping its id |
| `ImportPlan.ComputerModel.PlanImport` | app/src/computermodel.cpp:385-434 | the loops with the claimed set compute the plan |
| `ImportPlan.ComputerModel.ApplyImport` | app/src/computermodel.cpp:436-481 | the loop applies the plan; if persisting fails the list is exactly as before |
| `TerminalScreen.Run` | terminal/src/terminalscreen.cpp:103-333 | every sequence of operations keeps the cursor in bounds and the grid in shape |
| `TerminalScreen.EraseBothWaysBlanks` | terminal/src/terminalscreen.cpp:285-299 | erasing below and above, in either order, is erasing all and leaves a blank screen |
| `TerminalScreen.EraseLineBothWaysBlanks` | terminal/src/terminalscreen.cpp:274-283 | the same within the line; no other line changes |
| `TerminalScreen.EraseLeavesTheRest` | terminal/src/terminalscreen.cpp:274-299 | which cells each mode blanks, and that it leaves the others |
| `TerminalScreen.LineFeedsScroll` | terminal/src/terminalscreen.cpp:247-255 | any number of line feeds: down to the last line, then everything up by one each |
| `TerminalScreen.MovesLandNearest` | terminal/src/terminalscreen.cpp:229-239 | moves land on the cell named or the nearest there is |
| `TerminalScreen.TabGoesToTheNextStop` | terminal/src/terminalscreen.cpp:265-272 | the next multiple of eight, or the last column if there is none |
| `TerminalScreen.AttributesShow` | terminal/src/terminalscreen.cpp:306-310 | setting an attribute shows in that attribute alone |
| `TerminalScreen.GlyphShows` | terminal/src/terminalscreen.cpp:198-227 | one unit or a surrogate pair, in the pen's style |
| `TerminalScreen.ResizeAndBack` | terminal/src/terminalscreen.cpp:103-124 | resizing and back restores the grid if and only if everything outside the smaller size was blank |
| `TerminalScreen.RestoreAfterSave` | terminal/src/terminalscreen.cpp:312-321 | whatever happens in between short of another save, resizing included, restoring puts the cursor back if and only if its row and column are on the screen as it is then; otherwise it ends on the nearest cell |
| `TerminalScreen.RestoreMisses` | terminal/src/terminalscreen.cpp:312-321 | saved past the last column, and saved beyond the edge of a screen that then shrinks: two inputs that miss |
| `TerminalScreen.TypingStaysOnTheLine` | terminal/src/terminalscreen.cpp:198-227 | typed text fills the cursor's line, the overflow lands in the last column, nothing else changes |
| `TerminalScreen.RunsSplitTheLine` | terminal/src/terminalscreen.cpp:142-196 | the style runs partition the line and are maximal |
| `TerminalScreen.SplitIsUnique` | terminal/src/terminalscreen.cpp:142-196 | there is only one such partition |
| `TerminalScreen.RenderingShowsTheLine` | terminal/src/terminalscreen.cpp:142-196 | a reader of the rich text sees every cell of the row, in order, in its own style |
| `TerminalScreen.RenderLine` | terminal/src/terminalscreen.cpp:182-196 | the run-flushing scan writes the rendering of those runs |
| `TerminalScreen.PutInGrid` | terminal/src/terminalscreen.cpp:98-101 | writing a slot of the flat vector is writing one cell of the grid, and no other |
| `TerminalScreen.Screen.Resize` | terminal/src/terminalscreen.cpp:103-124 | refines the grid operation, keeping what both sizes share |
| `TerminalScreen.Screen.ScrollUp` | terminal/src/terminalscreen.cpp:323-333 | the in-place copy drops the first line and appends a blank one |
| `TerminalScreen.Screen.EraseInDisplay` | terminal/src/terminalscreen.cpp:285-299 | refines erasing a stretch in reading order |
| `TerminalScreen.Screen.EraseInLine` | terminal/src/terminalscreen.cpp:274-283 | likewise within a line |
| `TerminalScreen.Screen.PutCellAtCursor` | terminal/src/terminalscreen.cpp:198-227 | refines writing one cell and moving right, or to the margin |
| `TerminalScreen.Screen.LineHtml` | terminal/src/terminalscreen.cpp:142-196 | renders the row's runs; nothing for a row that does not exist |
| `TargetRange.ParseTargets` | rmcp/src/target_range.cpp:33-113 | an accepted specification expands to exactly the addresses it denotes, increasing, at most 65536 of them; otherwise the error of the first rule broken |
| `TargetRange.TypedTargets` | rmcp/src/target_range.cpp:42-103 | a block or range as typed denotes what its two halves say |
| `TargetRange.TypedErrors` | rmcp/src/target_range.cpp:42-112 | and each thing wrong with one is named as it is |
| `TargetRange.BlockIsAnInterval` | rmcp/src/target_range.cpp:64-72 | the addresses with the base's prefix are an interval around it that ends before 2^32 |
| `TargetRange.ExpandBlock` | rmcp/src/target_range.cpp:64-72 | a CIDR block expands to exactly the addresses sharing its prefix, without wrap-around |
| `TargetRange.ExpandSpan` | rmcp/src/target_range.cpp:89-103 | a range expands to exactly the addresses between its ends |
| `Scanner.EveryRunReadsWell` | rmcp/src/scanner.cpp:37-127 | in every run pings follow each scan's list in order without gaps or repeats, every scan but the one running has had exactly one `finished`, and the quiet window is open only when all targets are pinged |
| `Scanner.UncancelledScan` | rmcp/src/scanner.cpp:37-190 | a scan left alone pings each target once in order, finishes once and leaves the scanner idle |
| `Scanner.StepKeepsInv` | rmcp/src/scanner.cpp:37-190 | start, stop, burst and timeout keep timers, index and log in step |
| `Scanner.BurstsOf32` | rmcp/src/scanner.cpp:101-127 | no burst is larger than 32, and only the last is smaller |
| `Scanner.ScannerObject.Start` | rmcp/src/scanner.cpp:37-72 | cancels, then begins with an immediate burst, or reports failure |
| `Scanner.ScannerObject.OnSendBurst` | rmcp/src/scanner.cpp:101-127 | pings the next 32 targets and arms the timer that follows |
| `SecretCodec.SecretRoundTrip` | app/src/secret_codec.cpp:102-143 | a secret, even one that looks like an envelope, is read back as saved if and only if it is empty, or its text survives UTF-8 and randomness was available |
| `SecretCodec.WrappedComesBack` | app/src/secret_codec.cpp:102-143 | a wrapped secret comes back through the two text conversions and nothing else |
| `SecretCodec.SecretLost` | app/src/secret_codec.cpp:102-121 | a secret saved without randomness |
| `SecretCodec.V3RoundTrip` | app/src/secret_codec.cpp:76-98 | the keystore envelope opens to what was sealed |
| `SecretCodec.V3Layout` | app/src/secret_codec.cpp:74-87 | prefix, vector and ciphertext, without the key |
| `SecretCodec.PrefersTheKeystore` | app/src/secret_codec.cpp:102-121 | with a master key the keystore envelope is used, the inline-key one only as a fallback |
| `SecretCodec.V2RoundTrip` | migrate/src/legacy_decrypt.cpp:132-198 | so does the inline-key envelope |
| `SecretCodec.V2Layout` | migrate/src/legacy_decrypt.cpp:177-198 | prefix, key, vector and ciphertext, in that order |
| `SecretCodec.LegacyRoundTrip` | migrate/src/legacy_decrypt.cpp:99-168 | a password envelope is sealed with a 32-octet key and a 16-octet vector, and opens to its contents if and only if it has any |
| `SecretCodec.EvpBytesToKeyMd5` | migrate/src/legacy_decrypt.cpp:99-117 | key and vector are adjoining stretches of the digest stream, however far it is extended, and for 32 and 16 octets the ones envelopes are opened with |
| `SecretCodec.DerivedWrittenOut` | migrate/src/legacy_decrypt.cpp:99-117 | the three digests written out, each over the one before and the password |
| `SecretCodec.OpenEnvelope` | migrate/src/legacy_decrypt.cpp:119-168 | detection, hexadecimal scan and key derivation open an envelope as specified |
| `SecretCodec.HexRoundTrip` | migrate/src/legacy_decrypt.cpp:92-95 | reading hexadecimal undoes writing it |
| `SecretCodec.HexDigits` | migrate/src/legacy_decrypt.cpp:92-95 | each octet is two digits, the high one first |
| `SecretCodec.IsHex` | app/src/secret_codec.cpp:64-72 | true exactly when every character is a hexadecimal digit |
| `SecretCodec.PlainValueMigrates` | app/src/secret_codec.cpp:123-143 | a value without an envelope is read as it is, and survives being wrapped exactly when any other text does |

## Left out

- Sockets, TLS, certificate trust, digest computation and the frames' credential contents (`redir_client`, `redir_codec`): frames written are named, not built octet by octet, except IDE-R data frames and serial input frames.
- Realm and nonce are octet strings; their decoding to text is not modelled.
- `KvmSession::start` with octets already waiting, key and pointer input, and `requestFullRefresh`: they only write.
- A FramebufferUpdate of zero rects asks for no successor, in the code as in the model, so `KvmRun` counts only updates with at least one rect.
- The inflate library: `CompressedRectRoundTrip` assumes what it expands a block to.
- A failing seek and an image file that changes while it is served; the file is fixed, and a short read is modelled only as reading past its end.
- Fixed SCSI mode pages and feature tables: parameters, since they are constants.
- Changing the concurrency cap in the middle of a batch, and listeners that call `start` from `batchFinished`.
- The rest of the ssh session: its outcomes belong to libssh.
- JPEG encoding, and what a player makes of a recording whose size fields have wrapped.
- The asciicast header and the JSON escaping of events.
- Uniqueness of ids after an import: the code does not promise it when a backup repeats one.
- Host names, ports and the other fields of a computer are carried along unread.
- The VT100 parser in front of the terminal grid, the repaint counter, HTML escapes and palette strings; cursor arithmetic is unbounded where the code uses 32-bit integers.
- `TargetRange.Network` clears the low bits by division where the code masks them.
- Pong parsing and reverse DNS; listeners that restart a scan from `finished`.
- UTF-8 conversion of secrets: two parameters, whose round trip is part of the condition in `SecretRoundTrip`.
- Key stores, and a master key that changes between saving and loading.
- WSMAN plumbing, QML models and controllers, updaters, branding: validate, call, refresh.
