/**
  * IDE-R from the host's side: its messages octet by octet, what the session answers, and the
  * blocks it gets.
  */
module IderHost {

  import opened ByteCodec
  import opened InboxDrain
  import opened IderCodec
  import opened IderSession

  // ----- Messages -----

  /** What a command message carries besides the command: octets the session does not look at. */
  datatype Envelope = Envelope(a: bytes, b: bytes, c: byte)

  predicate Sealed(e: Envelope) { |e.a| == 8 && |e.b| == 4 }

  /** A SCSI command on its way to the CD-ROM (bit 4 of the flags) or the floppy. */
  function CommandOctets(e: Envelope, feature: byte, flags: byte, cdb: bytes): (r: bytes)
    requires Sealed(e) && |cdb| == 12
    ensures |r| == 28
  {
    [0x50] + e.a + [feature] + e.b + [flags, e.c] + cdb
  }

  lemma CommandReadsBack(e: Envelope, feature: byte, flags: byte, cdb: bytes)
    requires Sealed(e) && |cdb| == 12
    ensures var raw := CommandOctets(e, feature, flags, cdb);
            && ParseInbound(raw) == Message(CommandWritten(ScsiCommand(feature, flags, cdb)), 28)
            && raw[9] == feature && raw[16..28] == cdb
  {
    var raw := CommandOctets(e, feature, flags, cdb);
    assert raw[0] == 0x50 && raw[9] == feature && raw[14] == flags;
    assert raw[16..28] == cdb;
  }

  /** The session's answer to a command is what its handler says, after the message itself. */
  lemma CommandIsHandled(s: State, e: Envelope, feature: byte, flags: byte, cdb: bytes)
    requires Sealed(e) && |cdb| == 12
    ensures var raw := CommandOctets(e, feature, flags, cdb); var h := HandleScsi(s, ScsiCommand(feature, flags, cdb));
            IderStep(s, raw) == Advance(28, h.next, [Took(raw)] + h.acts)
  {
    var raw := CommandOctets(e, feature, flags, cdb);
    CommandReadsBack(e, feature, flags, cdb);
    assert raw[..28] == raw;
  }

  // ----- READ -----

  /** READ(10): a 32-bit address and a 16-bit length. */
  function Read10(flags: byte, lba: u32, group: byte, len: u16, tail: bytes): (r: bytes)
    requires |tail| == 3
    ensures |r| == 12
  {
    [0x28, flags] + PackBe32(lba) + [group] + PackBe16(len) + tail
  }

  /** READ(6): a 21-bit address below the unit number, and a length of 1 to 256 written in one octet. */
  function Read6(unit: nat, lba: nat, len: nat, tail: bytes): (r: bytes)
    requires unit < 8 && lba < 0x20_0000 && 1 <= len <= 256 && |tail| == 7
    ensures |r| == 12
  {
    [0x08, unit * 32 + lba / 0x1_0000, lba / 0x100 % 0x100, lba % 0x100, len % 256] + tail
  }

  lemma Read10ReadsBack(flags: byte, lba: u32, group: byte, len: u16, tail: bytes)
    requires |tail| == 3
    ensures var cdb := Read10(flags, lba, group, len, tail); IsRead(cdb) && ReadLba(cdb) == lba && ReadLen(cdb) == len
  {
    var cdb := Read10(flags, lba, group, len, tail);
    assert cdb[2..6] == PackBe32(lba) && cdb[7..9] == PackBe16(len);
    FieldReads32(cdb, 2, lba);
    FieldReads16(cdb, 7, len);
  }

  lemma Read6ReadsBack(unit: nat, lba: nat, len: nat, tail: bytes)
    requires unit < 8 && lba < 0x20_0000 && 1 <= len <= 256 && |tail| == 7
    ensures var cdb := Read6(unit, lba, len, tail); IsRead(cdb) && ReadLba(cdb) == lba && ReadLen(cdb) == len
  {
    ThreeOctets(unit, lba);
    var cdb := Read6(unit, lba, len, tail);
    assert cdb[1] == unit * 32 + lba / 0x1_0000 && cdb[2] == lba / 0x100 % 0x100 && cdb[3] == lba % 0x100;
    assert cdb[4] == len % 256;
  }

  lemma ThreeOctets(unit: nat, lba: nat)
    requires unit < 8 && lba < 0x20_0000
    ensures (unit * 32 + lba / 0x1_0000) % 0x20 == lba / 0x1_0000
    ensures lba / 0x1_0000 * 0x1_0000 + lba / 0x100 % 0x100 * 0x100 + lba % 0x100 == lba
  {
    assert lba / 0x1_0000 == lba / 0x100 / 0x100;
    var top := lba / 0x1_0000;
    assert top < 32;
  }

  /** The chunk size a READ is served in: what the host asked for when the session opened, or 8192. */
  function ChunkFor(s: State): nat {
    if s.readBuffer > 0 then s.readBuffer else 8192
  }

  predicate Ready(s: State) { s.isoOpen && !s.stream.inFlight }

  /** The session once it has accepted a READ. */
  function Serving(s: State, lba: nat, len: nat, feature: byte): State {
    s.(stream := Stream(2048 * lba, 2048 * len, 0xB0, feature, ChunkFor(s), true, s.stream.armed + 1))
  }

  lemma ReadIsAccepted(s: State, cdb: bytes, feature: byte, flags: byte, lba: nat, len: nat)
    requires |cdb| == 12 && IsRead(cdb) && ReadLba(cdb) == lba && ReadLen(cdb) == len
    requires Ready(s) && flags / 16 % 2 == 1 && len > 0 && 2048 * (lba + len) <= |s.setup.iso|
    ensures HandleScsi(s, ScsiCommand(feature, flags, cdb))
            == Effect(Serving(s, lba, len, feature), [ReadAccepted(lba, len, ChunkFor(s))])
  {
    assert lba + len <= |s.setup.iso| / 2048;
  }

  /** A READ(10) of the CD-ROM within the image is accepted for the very blocks it names. */
  lemma Read10IsAccepted(s: State, e: Envelope, feature: byte, flags: byte, bits: byte, lba: u32, group: byte, len: u16, tail: bytes)
    requires Sealed(e) && |tail| == 3
    requires Ready(s) && flags / 16 % 2 == 1 && len > 0 && 2048 * (lba + len) <= |s.setup.iso|
    ensures var raw := CommandOctets(e, feature, flags, Read10(bits, lba, group, len, tail));
            IderStep(s, raw) == Advance(28, Serving(s, lba, len, feature), [Took(raw), ReadAccepted(lba, len, ChunkFor(s))])
  {
    var cdb := Read10(bits, lba, group, len, tail);
    Read10ReadsBack(bits, lba, group, len, tail);
    ReadIsAccepted(s, cdb, feature, flags, lba, len);
    CommandIsHandled(s, e, feature, flags, cdb);
  }

  /** So is a READ(6), a zero length octet standing for 256 blocks. */
  lemma Read6IsAccepted(s: State, e: Envelope, feature: byte, flags: byte, unit: nat, lba: nat, len: nat, tail: bytes)
    requires Sealed(e) && |tail| == 7 && unit < 8 && lba < 0x20_0000 && 1 <= len <= 256
    requires Ready(s) && flags / 16 % 2 == 1 && 2048 * (lba + len) <= |s.setup.iso|
    ensures var raw := CommandOctets(e, feature, flags, Read6(unit, lba, len, tail));
            IderStep(s, raw) == Advance(28, Serving(s, lba, len, feature), [Took(raw), ReadAccepted(lba, len, ChunkFor(s))])
  {
    var cdb := Read6(unit, lba, len, tail);
    Read6ReadsBack(unit, lba, len, tail);
    ReadIsAccepted(s, cdb, feature, flags, lba, len);
    CommandIsHandled(s, e, feature, flags, cdb);
  }

  /** The ledger's reading of a READ is the host's writing of it. */
  lemma AskedAsWritten(e: Envelope, feature: byte, flags: byte, bits: byte, lba10: u32, group: byte, len10: u16, tail3: bytes,
                       unit: nat, lba6: nat, len6: nat, tail7: bytes)
    requires Sealed(e) && |tail3| == 3 && |tail7| == 7 && unit < 8 && lba6 < 0x20_0000 && 1 <= len6 <= 256
    ensures Asked(CommandOctets(e, feature, flags, Read10(bits, lba10, group, len10, tail3)))
            == Request(lba10, len10, feature % 2 == 1)
    ensures Asked(CommandOctets(e, feature, flags, Read6(unit, lba6, len6, tail7))) == Request(lba6, len6, feature % 2 == 1)
  {
    var ten, six := Read10(bits, lba10, group, len10, tail3), Read6(unit, lba6, len6, tail7);
    CommandReadsBack(e, feature, flags, ten);
    CommandReadsBack(e, feature, flags, six);
    Read10ReadsBack(bits, lba10, group, len10, tail3);
    Read6ReadsBack(unit, lba6, len6, tail7);
    AskedOfCommand(CommandOctets(e, feature, flags, ten), ParseInbound(CommandOctets(e, feature, flags, ten)).m.cmd);
    AskedOfCommand(CommandOctets(e, feature, flags, six), ParseInbound(CommandOctets(e, feature, flags, six)).m.cmd);
  }

  // ----- Refusals -----

  /** A command's end with a sense key and an additional code, as the next frame. */
  function Ended(s: State, raw: bytes, sense: byte, dev: byte, asc: byte): Step<State, Act> {
    Advance(28, s.(sequence := if s.sequence == 0xFFFF_FFFF then 0 else s.sequence + 1),
            [Took(raw), Sent(Frame(s.sequence, CommandEnd(sense, dev, asc, 0)), Answering)])
  }

  /** READ of the floppy or without a medium: not ready; past the image: illegal; of nothing: good. */
  lemma ReadsRefused(s: State, e: Envelope, feature: byte, flags: byte, bits: byte, lba: u32, group: byte, len: u16, tail: bytes)
    requires Sealed(e) && |tail| == 3
    ensures var raw := CommandOctets(e, feature, flags, Read10(bits, lba, group, len, tail));
            var cd := flags / 16 % 2 == 1;
            && (!cd || !s.isoOpen ==> IderStep(s, raw) == Ended(s, raw, 2, if cd then 0xB0 else 0xA0, 0x3A))
            && (cd && s.isoOpen && 2048 * (lba + len) > |s.setup.iso| ==> IderStep(s, raw) == Ended(s, raw, 5, 0xB0, 0x21))
            && (cd && s.isoOpen && len == 0 && 2048 * lba <= |s.setup.iso| ==> IderStep(s, raw) == Ended(s, raw, 0, 0xB0, 0))
  {
    var cdb := Read10(bits, lba, group, len, tail);
    Read10ReadsBack(bits, lba, group, len, tail);
    CommandIsHandled(s, e, feature, flags, cdb);
    assert lba + len > |s.setup.iso| / 2048 <==> 2048 * (lba + len) > |s.setup.iso|;
  }

  // ----- READ CAPACITY and TEST UNIT READY -----

  /** READ CAPACITY answers, in one completed data frame, the last block's number and the block size. */
  lemma CapacityIsAnswered(s: State, e: Envelope, feature: byte, flags: byte, tail: bytes)
    requires Sealed(e) && |tail| == 11 && s.isoOpen && flags / 16 % 2 == 1
    requires 1 <= |s.setup.iso| / 2048 <= 0x1_0000_0000
    ensures var raw := CommandOctets(e, feature, flags, [0x25] + tail);
            IderStep(s, raw).acts
            == [Took(raw), Sent(Frame(s.sequence, SendData(0xB0, true, PackBe32(|s.setup.iso| / 2048 - 1) + [0, 0, 8, 0],
                                                           feature % 2 == 1)), Answering)]
            && IderStep(s, raw).Advance?
  {
    var cdb := [0x25] + tail;
    CommandIsHandled(s, e, feature, flags, cdb);
    CapacityBody(s, cdb, feature);
    assert Device(flags) == 0xB0;
  }

  lemma CapacityBody(s: State, cdb: bytes, feature: byte)
    requires |cdb| == 12 && cdb[0] == 0x25 && s.isoOpen && 1 <= |s.setup.iso| / 2048 <= 0x1_0000_0000
    ensures Answer(s, cdb, 0xB0, feature)
            == SendData(0xB0, true, PackBe32(|s.setup.iso| / 2048 - 1) + [0, 0, 8, 0], feature % 2 == 1)
  {
    assert LastLba(s) == |s.setup.iso| / 2048 - 1;
  }

  /** As the host reads it: a big-endian block number and 2048. */
  lemma CapacityData(last: u32)
    ensures var data := PackBe32(last) + [0, 0, 8, 0];
            |data| == 8 && ReadBe32(data, 0) == last && ReadBe32(data, 4) == 2048
  {
    var data := PackBe32(last) + [0, 0, 8, 0];
    assert data[0..4] == PackBe32(last);
    FieldReads32(data, 0, last);
    assert data[4] == 0 && data[5] == 0 && data[6] == 8 && data[7] == 0;
  }

  /** The first TEST UNIT READY reports that the medium may have changed, every later one that it is ready. */
  lemma UnitBecomesReady(s: State, e: Envelope, feature: byte, flags: byte, tail: bytes)
    requires Sealed(e) && |tail| == 11 && s.isoOpen && flags / 16 % 2 == 1
    ensures var raw := CommandOctets(e, feature, flags, [0x00] + tail); var st := IderStep(s, raw);
            && st.Advance? && st.next.cdReady
            && st.acts == [Took(raw), Sent(Frame(s.sequence, if s.cdReady then CommandEnd(0, 0xB0, 0, 0)
                                                             else CommandEnd(6, 0xB0, 0x28, 0)), Answering)]
  {
    CommandIsHandled(s, e, feature, flags, [0x00] + tail);
  }

  // ----- The other commands -----

  /** A command that is answered with one frame. */
  lemma AnsweredWith(s: State, e: Envelope, feature: byte, flags: byte, cdb: bytes, body: Body)
    requires Sealed(e) && |cdb| == 12 && !IsRead(cdb) && cdb[0] != 0
    requires Answer(s, cdb, if flags / 16 % 2 == 1 then 0xB0 else 0xA0, feature) == body
    ensures var raw := CommandOctets(e, feature, flags, cdb);
            IderStep(s, raw) == Advance(28, s.(sequence := if s.sequence == 0xFFFF_FFFF then 0 else s.sequence + 1),
                                        [Took(raw), Sent(Frame(s.sequence, body), Answering)])
  {
    CommandIsHandled(s, e, feature, flags, cdb);
  }

  /** READ TOC: one data track and the lead-out, in minutes or in blocks; the session list; nothing else, and not of the floppy. */
  lemma TocIsAnswered(s: State, cdb: bytes, feature: byte)
    requires |cdb| == 12 && cdb[0] == 0x43
    ensures Answer(s, cdb, 0xA0, feature) == CommandEnd(5, 0xA0, 0x20, 0)
    ensures cdb[2] == 0 && cdb[9] == 0 && cdb[1] == 2 ==>
              Answer(s, cdb, 0xB0, feature)
              == SendData(0xB0, true, [0, 18, 1, 1, 0, 20, 1, 0, 0, 0, 2, 0, 0, 20, 170, 0, 0, 0, 52, 19], feature % 2 == 1)
    ensures cdb[2] == 0 && cdb[9] == 0 && cdb[1] == 0 ==>
              Answer(s, cdb, 0xB0, feature)
              == SendData(0xB0, true, [0, 18, 1, 1, 0, 20, 1, 0, 0, 0, 0, 0, 0, 20, 170, 0, 0, 0, 0, 0], feature % 2 == 1)
    ensures cdb[2] == 1 ==>
              Answer(s, cdb, 0xB0, feature) == SendData(0xB0, true, [0, 10, 1, 1, 0, 20, 1, 0, 0, 0, 0, 0], feature % 2 == 1)
    ensures 2 <= cdb[2] < 8 ==> Answer(s, cdb, 0xB0, feature) == CommandEnd(5, 0xB0, 0x20, 0)
  {
  }

  /** MODE SENSE: the short form knows one page, the long one cuts the page it knows to the host's buffer. */
  lemma ModeSenseIsAnswered(s: State, cdb: bytes, dev: byte, feature: byte)
    requires |cdb| == 12 && (dev == 0xA0 || dev == 0xB0)
    ensures cdb[0] == 0x1A && (cdb[2] != 0x3F || cdb[3] != 0) ==> Answer(s, cdb, dev, feature) == CommandEnd(5, dev, 0x24, 0)
    ensures cdb[0] == 0x1A && cdb[2] == 0x3F && cdb[3] == 0 ==>
              Answer(s, cdb, dev, feature) == if dev == 0xB0 && s.isoOpen then SendData(dev, true, [0, 5, 0x80, 0], feature % 2 == 1)
                                              else CommandEnd(2, dev, 0x3A, 0)
    ensures cdb[0] == 0x5A && dev == 0xB0 && cdb[2] == 0x2A ==>
              var page, room := s.setup.tables.modePage(0x2A), cdb[7] as int * 256 + cdb[8];
              room > 0 && page != [] ==>
                Answer(s, cdb, dev, feature) == SendData(dev, true, page[..Min(room, |page|)], feature % 2 == 1)
    ensures cdb[0] == 0x5A && dev == 0xA0 && cdb[7] as int + cdb[8] > 0 ==> Answer(s, cdb, dev, feature) == CommandEnd(5, dev, 0x20, 0)
  {
    if cdb[0] == 0x5A && cdb[2] == 0x2A {
      var page := s.setup.tables.modePage(0x2A);
      assert page[..|page|] == page;
    }
  }

  /** GET CONFIGURATION from the first feature on: all of them behind their length, cut to the host's buffer. */
  lemma ConfigurationIsAnswered(s: State, cdb: bytes, dev: byte, feature: byte)
    requires |cdb| == 12 && cdb[0] == 0x46 && cdb[1] == 0 && cdb[2] == 0 && cdb[3] == 0
    ensures var t, room := s.setup.tables, cdb[7] as int * 256 + cdb[8];
            var body := [0, 0, 0, 8] + t.profiles + t.core + t.morphing + t.removable + t.random + t.read + t.power + t.timeout;
            var all := PackBe32(|body| % 0x1_0000_0000) + body;
            room > 0 ==> Answer(s, cdb, dev, feature) == SendData(dev, true, all[..Min(room, |all|)], feature % 2 == 1)
  {
    assert PackBe32(8) == [0, 0, 0, 8];
    var t := s.setup.tables;
    var body := [0, 0, 0, 8] + t.profiles + t.core + t.morphing + t.removable + t.random + t.read + t.power + t.timeout;
    assert ReadBe16(cdb, 2) == 0;
    assert Configuration(t, true, 0) == body;
    var all := PackBe32(|body| % 0x1_0000_0000) + body;
    assert all[..|all|] == all;
  }

  /** The drive is read-only, tells whether it has a medium, and does not know what it does not know. */
  lemma OtherCommands(s: State, cdb: bytes, dev: byte, feature: byte)
    requires |cdb| == 12 && (dev == 0xA0 || dev == 0xB0)
    ensures cdb[0] in {0x0A, 0x2A, 0x2E} ==> Answer(s, cdb, dev, feature) == CommandEnd(2, dev, 0x3A, 0)
    ensures cdb[0] == 0x4A && cdb[1] == 1 ==>
              Answer(s, cdb, dev, feature)
              == SendData(dev, true, [0, if dev == 0xB0 && s.isoOpen then 2 else 0, 0x80, 0], feature % 2 == 1)
    ensures cdb[0] == 0x1E ==>
              Answer(s, cdb, dev, feature) == if dev == 0xB0 && !s.isoOpen then CommandEnd(2, dev, 0x3A, 0) else CommandEnd(0, dev, 0, 0)
    ensures cdb[0] == 0x1B ==> Answer(s, cdb, dev, feature) == CommandEnd(0, dev, 0, 0)
    ensures cdb[0] in {0x51, 0x55, 0x12, 0xFF} ==> Answer(s, cdb, dev, feature) == CommandEnd(5, dev, 0x20, 0)
  {
  }

  // ----- The session's own messages -----

  /** The reply to OpenSession: buffer sizes, protocol, and octets the session does not look at. */
  function OpenReplyOctets(a: bytes, read: u16, write: u16, b: byte, proto: byte, c: bytes, oem: bytes): bytes
    requires |a| == 15 && |c| == 7 && |oem| < 0x100
  {
    [0x41] + a + PackLe16(read) + PackLe16(write) + [b, proto] + c + [|oem|] + oem
  }

  lemma OpenReplyReads(a: bytes, read: u16, write: u16, b: byte, proto: byte, c: bytes, oem: bytes)
    requires |a| == 15 && |c| == 7 && |oem| < 0x100
    ensures var raw := OpenReplyOctets(a, read, write, b, proto, c, oem);
            && ParseInbound(raw) == Message(OpenSessionReply(SessionInfo(read, write, proto)), |raw|)
            && raw[..|raw|] == raw
  {
    var raw := OpenReplyOctets(a, read, write, b, proto, c, oem);
    assert raw[16..18] == PackLe16(read) && raw[18..20] == PackLe16(write);
    assert raw[0] == 0x41 && raw[21] == proto && raw[29] == |oem|;
    FieldReads16(raw, 16, read);
    FieldReads16(raw, 18, write);
  }

  /** A good reply opens the session with the read buffer it names, and the drive is enabled. */
  lemma OpenReplyIsTaken(s: State, a: bytes, read: u16, write: u16, b: byte, c: bytes, oem: bytes)
    requires |a| == 15 && |c| == 7 && |oem| < 0x100 && read <= 8192 && write <= 8192
    ensures var raw := OpenReplyOctets(a, read, write, b, 0, c, oem);
            IderStep(s, raw) == Advance(|raw|,
              s.(readBuffer := read, sessionOpen := true,
                 sequence := if s.sequence == 0xFFFF_FFFF then 0 else s.sequence + 1),
              [Took(raw), OpenedSig, Sent(Frame(s.sequence, EnableFeatures(3, Enabling(s.setup.startOption))), Answering)])
  {
    OpenReplyReads(a, read, write, b, 0, c, oem);
  }

  /** The start option with the enable bit set. */
  function Enabling(option: byte): byte {
    if option % 2 == 1 then option else option + 1
  }

  /** Any other protocol, or a buffer over 8192 octets, ends the session. */
  lemma BadOpenReplyFails(s: State, a: bytes, read: u16, write: u16, b: byte, proto: byte, c: bytes, oem: bytes)
    requires |a| == 15 && |c| == 7 && |oem| < 0x100 && (proto != 0 || read > 8192 || write > 8192)
    ensures var raw := OpenReplyOctets(a, read, write, b, proto, c, oem); var st := IderStep(s, raw);
            && st.Advance? && st.next == s.(isoOpen := false, sessionOpen := false, enabled := false)
            && st.acts == [Took(raw)] + ((if s.sessionOpen || s.enabled then [EnabledSig(false)] else []) + [ClosedSig])
  {
    OpenReplyReads(a, read, write, b, proto, c, oem);
  }

  /** Register 2, bit 1, says whether the drive is enabled; a change is announced. */
  lemma StatusIsAnnounced(s: State, fill: bytes, value: u32)
    requires |fill| == 7
    ensures var raw := [0x49] + fill + [2] + PackLe32(value); var on := value / 2 % 2 == 1;
            IderStep(s, raw) == Advance(13, s.(enabled := on), [Took(raw)] + if on != s.enabled then [EnabledSig(on)] else [])
  {
    var raw := [0x49] + fill + [2] + PackLe32(value);
    assert raw[8] == 2 && raw[9..13] == PackLe32(value) && raw[..13] == raw;
    FieldReads32(raw, 9, value);
  }

  /** Pings are answered, resets acknowledged; notices are taken in silence; a close is the end. */
  lemma Housekeeping(s: State, seven: bytes, eight: bytes, ten: bytes)
    requires |seven| == 7 && |eight| == 8 && |ten| == 10
    ensures IderStep(s, [0x44] + seven) == Advance(8, Counted(s), [Took([0x44] + seven), Sent(Frame(s.sequence, Pong), Answering)])
    ensures IderStep(s, [0x46] + eight)
            == Advance(9, Counted(s), [Took([0x46] + eight), Sent(Frame(s.sequence, ResetResponse), Answering)])
    ensures IderStep(s, [0x45] + seven) == Advance(8, s, [Took([0x45] + seven)])
    ensures IderStep(s, [0x4B] + seven) == Advance(8, s, [Took([0x4B] + seven)])
    ensures IderStep(s, [0x4A] + ten) == Advance(11, s, [Took([0x4A] + ten)])
    ensures IderStep(s, [0x43] + seven).Halt? && IderStep(s, [0x43] + seven).n == 8
  {
    Whole7(seven);
    var r, e: bytes := [0x46] + eight, [0x4A] + ten;
    assert r[..9] == r && e[..11] == e;
  }

  /** Register 1, bit 0: a BIOS that is ready is enabled again. */
  lemma BiosIsEnabledAgain(s: State, seven: bytes, value: u32)
    requires |seven| == 7
    ensures var raw := [0x49] + seven + [1] + PackLe32(value);
            IderStep(s, raw)
            == if value % 2 == 1
               then Advance(13, Counted(s), [Took(raw), Sent(Frame(s.sequence, EnableFeatures(3, Enabling(s.setup.startOption))), Answering)])
               else Advance(13, s, [Took(raw)])
  {
    var raw := [0x49] + seven + [1] + PackLe32(value);
    assert raw[8] == 1 && raw[9..13] == PackLe32(value) && raw[..13] == raw;
    FieldReads32(raw, 9, value);
  }

  function Counted(s: State): State {
    s.(sequence := if s.sequence == 0xFFFF_FFFF then 0 else s.sequence + 1)
  }

  lemma Whole7(seven: bytes)
    requires |seven| == 7
    ensures forall tag: byte :: ([tag] + seven)[..8] == [tag] + seven
  {
  }

  // ----- Nothing heard that was not said -----

  function RawOf(a: Act): bytes { if a.Took? then a.raw else [] }

  function Taken(acts: seq<Act>): bytes {
    if acts == [] then [] else RawOf(acts[0]) + Taken(acts[1..])
  }

  lemma {:induction false} TakenAppend(a: seq<Act>, b: seq<Act>)
    ensures Taken(a + b) == Taken(a) + Taken(b)
  {
    if a == [] {
      assert a + b == b;
    } else {
      assert (a + b)[0] == a[0] && (a + b)[1..] == a[1..] + b;
      TakenAppend(a[1..], b);
      Regroup(RawOf(a[0]), Taken(a[1..]), Taken(b));
    }
  }

  lemma {:induction false} TookNothing(acts: seq<Act>)
    requires forall i :: 0 <= i < |acts| ==> !acts[i].Took?
    ensures Taken(acts) == []
  {
    if acts != [] {
      TookNothing(acts[1..]);
    }
  }

  lemma TookOne(raw: bytes, acts: seq<Act>)
    requires forall i :: 0 <= i < |acts| ==> !acts[i].Took?
    ensures Taken([Took(raw)] + acts) == raw
  {
    assert ([Took(raw)] + acts)[1..] == acts;
    TookNothing(acts);
    assert raw + [] == raw;
  }

  lemma HandleTakesNothing(s: State, m: Inbound)
    ensures forall i :: 0 <= i < |Handle(s, m).acts| ==> !Handle(s, m).acts[i].Took?
    ensures forall i :: 0 <= i < |Fail(s).acts| ==> !Fail(s).acts[i].Took?
  {
  }

  lemma StepTakes(s: State, b: bytes)
    ensures !IderStep(s, b).Stall? ==> Taken(IderStep(s, b).acts) == b[..IderStep(s, b).n]
  {
    if b != [] {
      match ParseInbound(b)
      case Incomplete =>
      case Unknown =>
        HandleTakesNothing(s, Close);
        TookNothing(Fail(s).acts);
      case Message(m, n) =>
        HandleTakesNothing(s, m);
        TookOne(b[..n], if m.Close? then Fail(s).acts else Handle(s, m).acts);
    }
  }

  lemma DrainTakes(s: State, b: bytes)
    requires Stable(IderStep)
    ensures var d := Drain(IderStep, s, b); Taken(d.acts) + d.inbox == b
  {
    forall t: State, c: bytes ensures TellsAt(IderStep, Taken, t, c) {
      StepTakes(t, c);
    }
    forall x: seq<Act>, y: seq<Act> ensures Splits(Taken, x, y) {
      TakenAppend(x, y);
    }
    DrainTallies(IderStep, Taken, s, b);
  }

  function SentBy(hs: seq<Happening>): bytes {
    if hs == [] then [] else (if hs[0].Arrives? then hs[0].chunk else []) + SentBy(hs[1..])
  }

  lemma TickTakesNothing(s: State)
    ensures Taken(Tick(s).acts) == []
  {
    assert forall i :: 0 <= i < |Tick(s).acts| ==> !Tick(s).acts[i].Took?;
    TookNothing(Tick(s).acts);
  }

  /**
    * In every run, failures included, the messages the session heard are the host's octets in
    * order, each once, up to what still waits in the inbox.
    */
  lemma {:induction false} HeardAsSent(o: Outcome<State, Act>, hs: seq<Happening>)
    requires Stable(IderStep)
    ensures var p := RunOn(o, hs); Taken(p.acts) + p.inbox == Taken(o.acts) + o.inbox + SentBy(hs)
    decreases |hs|
  {
    if hs == [] {
      assert Taken(o.acts) + o.inbox + [] == Taken(o.acts) + o.inbox;
    } else {
      var p := React(o, hs[0]);
      HeardAsSent(p, hs[1..]);
      match hs[0]
      case Arrives(chunk) =>
        var d := Drain(IderStep, o.state, o.inbox + chunk);
        DrainTakes(o.state, o.inbox + chunk);
        TakenAppend(o.acts, d.acts);
        Regroup(Taken(o.acts), Taken(d.acts), d.inbox);
        Regroup(Taken(o.acts), o.inbox, chunk);
        Regroup(Taken(o.acts) + o.inbox, chunk, SentBy(hs[1..]));
      case Shot =>
        TickTakesNothing(o.state);
        TakenAppend(o.acts, Tick(o.state).acts);
        assert Taken(o.acts) + [] == Taken(o.acts);
        assert [] + SentBy(hs[1..]) == SentBy(hs[1..]);
    }
  }

  // ----- From the command to the last block -----

  /** What is on record of the READ in progress, apart from how far it has got. */
  predicate SameRead(l: Ledger, m: Ledger) {
    l.last.Some? && m.last.Some? && m.last.value.asked == l.last.value.asked && m.last.value.chunk == l.last.value.chunk
  }

  lemma ShotOnRecord(s: State, l: Ledger)
    requires l.last.Some?
    ensures SameRead(l, EnterAll(l, Tick(s).acts)) && Tick(s).next.isoOpen == s.isoOpen
  {
    if Tick(s).acts != [] {
      assert |Tick(s).acts| == 1 && Tick(s).acts[0].Sent?;
      EnterOne(l, Tick(s).acts[0]);
      assert Tick(s).acts == [Tick(s).acts[0]];
    }
  }

  lemma {:induction false} ShotsOnRecord(o: Outcome<State, Act>, n: nat)
    requires Stable(IderStep) && EnterAll(FreshLedger(), o.acts).last.Some?
    ensures var p := RunOn(o, Shots(n));
            SameRead(EnterAll(FreshLedger(), o.acts), EnterAll(FreshLedger(), p.acts)) && p.state.isoOpen == o.state.isoOpen
    decreases n
  {
    if n > 0 {
      ShotOnRecord(o.state, EnterAll(FreshLedger(), o.acts));
      EnterAppend(FreshLedger(), o.acts, Tick(o.state).acts);
      assert Shots(n)[1..] == Shots(n - 1);
      ShotsOnRecord(TickOn(o), n - 1);
    }
  }

  lemma AcceptanceOnRecord(l: Ledger, raw: bytes, lba: nat, len: nat, chunk: nat)
    ensures EnterAll(l, [Took(raw), ReadAccepted(lba, len, chunk)]).last == Some(Episode(Asked(raw), chunk, [], false))
  {
    var took, accepted := Took(raw), ReadAccepted(lba, len, chunk);
    assert [took, accepted] == [took] + [accepted];
    EnterAppend(l, [took], [accepted]);
    EnterOne(l, took);
    EnterOne(l.(heard := raw), accepted);
  }

  /** The session stands ready, and its READ is on its way. */
  lemma ReadBegins(o: Outcome<State, Act>, raw: bytes, lba: nat, len: nat, feature: byte)
    requires Stable(IderStep) && LedgerInv(o.state, o.acts) && o.inbox == []
    requires IderStep(o.state, raw)
             == Advance(|raw|, Serving(o.state, lba, len, feature), [Took(raw), ReadAccepted(lba, len, ChunkFor(o.state))])
    ensures var q := React(o, Arrives(raw));
            && q.state == Serving(o.state, lba, len, feature) && LedgerInv(q.state, q.acts)
            && EnterAll(FreshLedger(), q.acts).last == Some(Episode(Asked(raw), ChunkFor(o.state), [], false))
  {
    var acts := [Took(raw), ReadAccepted(lba, len, ChunkFor(o.state))];
    FeedMessage(IderStep, o.(halted := false), raw, Serving(o.state, lba, len, feature), acts);
    ReactKeepsLedger(o, Arrives(raw));
    EnterAppend(FreshLedger(), o.acts, acts);
    AcceptanceOnRecord(EnterAll(FreshLedger(), o.acts), raw, lba, len, ChunkFor(o.state));
  }

  lemma ShotsFinish(q: Outcome<State, Act>, n: nat)
    requires Stable(IderStep) && LedgerInv(q.state, q.acts) && q.state.isoOpen && ShotsLeft(q.state) <= n
    requires EnterAll(FreshLedger(), q.acts).last.Some?
    ensures var l, m := EnterAll(FreshLedger(), q.acts), EnterAll(FreshLedger(), RunOn(q, Shots(n)).acts);
            SameRead(l, m) && Whole(q.state.setup.iso, m.last.value)
  {
    ShotsOnRecord(q, n);
    RunKeepsLedger(q, Shots(n));
    ReadFinishes(q, n);
  }

  /** Exactly the blocks that were asked for. */
  predicate Whole(iso: bytes, e: Episode) {
    && e.done && 2048 * (e.asked.lba + e.asked.len) <= |iso|
    && e.sent == iso[2048 * e.asked.lba..2048 * (e.asked.lba + e.asked.len)]
  }

  /**
    * The whole of it, wherever a run has got to: a READ(10) the host writes, and enough timer
    * shots, and on record is that request with exactly the blocks it names.
    */
  lemma ReadIsServed(iso: bytes, startOption: byte, tables: Tables, hs: seq<Happening>, e: Envelope, feature: byte, flags: byte,
                     bits: byte, lba: u32, group: byte, len: u16, tail: bytes, n: nat)
    requires Sealed(e) && |tail| == 3 && flags / 16 % 2 == 1
    requires len > 0 && 2048 * (lba + len) <= |iso| && n >= 2048 * len
    requires Stable(IderStep)
    requires var o := RunOn(Begun(Some(iso), startOption, tables), hs); Ready(o.state) && o.inbox == []
    ensures var o := RunOn(Begun(Some(iso), startOption, tables), hs);
            var raw := CommandOctets(e, feature, flags, Read10(bits, lba, group, len, tail));
            var l := EnterAll(FreshLedger(), RunOn(React(o, Arrives(raw)), Shots(n)).acts);
            && l.last.Some? && l.last.value.asked == Request(lba, len, feature % 2 == 1)
            && l.last.value.chunk == ChunkFor(o.state) && Whole(iso, l.last.value)
  {
    var o := RunOn(Begun(Some(iso), startOption, tables), hs);
    RunKeepsLedger(Begun(Some(iso), startOption, tables), hs);
    var raw := CommandOctets(e, feature, flags, Read10(bits, lba, group, len, tail));
    Read10IsAccepted(o.state, e, feature, flags, bits, lba, group, len, tail);
    AskedAsWritten(e, feature, flags, bits, lba, group, len, tail, 0, 0, 1, Zeros(7));
    AcceptedIsServed(o, raw, lba, len, feature, n);
  }

  lemma AcceptedIsServed(o: Outcome<State, Act>, raw: bytes, lba: nat, len: nat, feature: byte, n: nat)
    requires Stable(IderStep) && LedgerInv(o.state, o.acts) && o.inbox == [] && o.state.isoOpen && n >= 2048 * len
    requires IderStep(o.state, raw)
             == Advance(|raw|, Serving(o.state, lba, len, feature), [Took(raw), ReadAccepted(lba, len, ChunkFor(o.state))])
    ensures var l := EnterAll(FreshLedger(), RunOn(React(o, Arrives(raw)), Shots(n)).acts);
            && l.last.Some? && l.last.value.asked == Asked(raw)
            && l.last.value.chunk == ChunkFor(o.state) && Whole(o.state.setup.iso, l.last.value)
  {
    ReadBegins(o, raw, lba, len, feature);
    ShotsFinish(React(o, Arrives(raw)), n);
  }
}
