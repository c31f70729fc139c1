/**
  * IDE-R: a read-only CD-ROM served over the redirection connection. A SCSI READ is
  * streamed one chunk per timer tick while other commands keep arriving.
  */
module IderSession {

  import opened ByteCodec
  import opened InboxDrain
  import opened IderCodec

  const MAX_READ_CAP: nat := 8192
  const BLOCK: nat := 2048

  function Octets(blocks: nat): nat { 2048 * blocks }

  /** Fixed response tables of the emulated drive. */
  datatype Tables = Tables(modePage: byte -> bytes, profiles: bytes, core: bytes, morphing: bytes, removable: bytes,
                           random: bytes, read: bytes, power: bytes, timeout: bytes)

  /** Fixed before the session starts. */
  datatype Setup = Setup(iso: bytes, startOption: byte, tables: Tables)

  /** The READ being streamed: file position, octets to go, and timer shots outstanding. */
  datatype Stream = Stream(pos: nat, remaining: nat, dev: byte, feature: byte, chunk: nat, inFlight: bool, armed: nat)

  datatype State = State(
    sequence: u32,               // of the next frame sent
    setup: Setup, isoOpen: bool, stream: Stream,
    readBuffer: u16, sessionOpen: bool, enabled: bool, cdReady: bool)

  datatype Origin = Answering | Streaming

  datatype Act =
    | Took(raw: bytes)                               // a message removed from the inbox
    | Sent(frame: Frame, origin: Origin)
    | ReadAccepted(lba: nat, len: nat, chunk: nat)   // with the chunk size agreed for it
    | OpenedSig
    | EnabledSig(on: bool)
    | ClosedSig

  datatype Effect = Effect(next: State, acts: seq<Act>)

  function NextSequence(n: u32): u32 {
    if n == 0xFFFF_FFFF then 0 else n + 1
  }

  /** Bit 0 of the feature register asks for a DMA transfer. */
  predicate Dma(feature: byte) {
    feature % 2 == 1
  }

  function Send(s: State, body: Body, origin: Origin): Effect {
    Effect(s.(sequence := NextSequence(s.sequence)), [Sent(Frame(s.sequence, body), origin)])
  }

  function Fail(s: State): Effect {
    Effect(s.(isoOpen := false, sessionOpen := false, enabled := false),
           (if s.sessionOpen || s.enabled then [EnabledSig(false)] else []) + [ClosedSig])
  }

  // ----- Commands other than READ -----

  function NotReady(dev: byte): Body { CommandEnd(2, dev, 0x3A, 0) }
  function Illegal(dev: byte, asc: byte): Body { CommandEnd(5, dev, asc, 0) }
  function Good(dev: byte): Body { CommandEnd(0, dev, 0, 0) }

  function Data(dev: byte, data: bytes, feature: byte): Body {
    SendData(dev, true, data, Dma(feature))
  }

  function Clip(b: bytes, n: nat): bytes {
    if |b| > n then b[..n] else b
  }

  function LastLba(s: State): u32
    requires |s.setup.iso| >= BLOCK
  {
    (|s.setup.iso| / BLOCK - 1) % 0x1_0000_0000
  }

  function Configuration(t: Tables, all: bool, first: u16): bytes {
    PackBe32(8)
    + (if first == 0 then t.profiles else [])
    + (if first == 0x1 || (all && first < 0x1) then t.core else [])
    + (if first == 0x2 || (all && first < 0x2) then t.morphing else [])
    + (if first == 0x3 || (all && first < 0x3) then t.removable else [])
    + (if first == 0x10 || (all && first < 0x10) then t.random else [])
    + (if first == 0x1E || (all && first < 0x1E) then t.read else [])
    + (if first == 0x100 || (all && first < 0x100) then t.power else [])
    + (if first == 0x105 || (all && first < 0x105) then t.timeout else [])
  }

  const TOC_SESSION: bytes := [0x00, 0x0A, 0x01, 0x01, 0x00, 0x14, 0x01, 0x00, 0x00, 0x00, 0x00, 0x00]
  const TOC_MSF: bytes :=
    [0x00, 0x12, 0x01, 0x01, 0x00, 0x14, 0x01, 0x00, 0x00, 0x00, 0x02, 0x00, 0x00, 0x14, 0xAA, 0x00, 0x00, 0x00, 0x34, 0x13]
  const TOC_LBA: bytes :=
    [0x00, 0x12, 0x01, 0x01, 0x00, 0x14, 0x01, 0x00, 0x00, 0x00, 0x00, 0x00, 0x00, 0x14, 0xAA, 0x00, 0x00, 0x00, 0x00, 0x00]
  const FORMAT_CAPACITIES: bytes := [0x00, 0x00, 0x00, 0x08, 0x00, 0x00, 0x0B, 0x40, 0x02, 0x00, 0x02, 0x00]

  function ModeSense6(s: State, cdb: bytes, dev: byte, feature: byte): Body
    requires |cdb| == 12
  {
    if cdb[2] != 0x3F || cdb[3] != 0 then Illegal(dev, 0x24)
    else if dev != CD_ROM || !s.isoOpen then NotReady(dev)
    else Data(dev, [0, 0x05, 0x80, 0], feature)
  }

  function ModeSense10(s: State, cdb: bytes, dev: byte, feature: byte): Body
    requires |cdb| == 12
  {
    var buflen: nat := ReadBe16(cdb, 7);
    if buflen == 0 then Data(dev, PackBe32(0x3C_0000) + PackBe32(8), feature)
    else
      var page := cdb[2] % 0x40;
      var r := if dev == CD_ROM && page in {0x01, 0x1A, 0x1D, 0x2A, 0x3F} then s.setup.tables.modePage(page) else [];
      if r == [] then Illegal(dev, 0x20) else Data(dev, Clip(r, buflen), feature)
  }

  function ReadToc(cdb: bytes, dev: byte, feature: byte): Body
    requires |cdb| == 12
  {
    if dev != CD_ROM then Illegal(dev, 0x20)
    else
      var msf := cdb[1] / 2 % 2 == 1;
      var asked := cdb[2] % 8;
      var format := if asked == 0 then cdb[9] / 64 else asked;
      if format == 1 then Data(dev, TOC_SESSION, feature)
      else if format == 0 then Data(dev, if msf then TOC_MSF else TOC_LBA, feature)
      else Illegal(dev, 0x20)
  }

  function GetConfiguration(s: State, cdb: bytes, dev: byte, feature: byte): Body
    requires |cdb| == 12
  {
    var buflen: nat := ReadBe16(cdb, 7);
    if buflen == 0 then Data(dev, PackBe32(0x3C_0000) + PackBe32(8), feature)
    else
      var body := Configuration(s.setup.tables, cdb[1] != 2, ReadBe16(cdb, 2));
      Data(dev, Clip(PackBe32(|body| % 0x1_0000_0000) + body, buflen), feature)
  }

  function GetEventStatus(s: State, cdb: bytes, dev: byte, feature: byte): Body
    requires |cdb| == 12
  {
    if cdb[1] != 1 && cdb[4] != 0x10 then CommandEnd(5, dev, 0x26, 1)
    else Data(dev, [0, if dev == CD_ROM && s.isoOpen then 2 else 0, 0x80, 0], feature)
  }

  /** The one frame each command other than READ is answered with. */
  function Answer(s: State, cdb: bytes, dev: byte, feature: byte): Body
    requires |cdb| == 12
  {
    match cdb[0]
    case 0x00 =>
      if dev != CD_ROM || !s.isoOpen then NotReady(dev)
      else if !s.cdReady then CommandEnd(6, dev, 0x28, 0) else Good(dev)
    case 0x1A => ModeSense6(s, cdb, dev, feature)
    case 0x5A => ModeSense10(s, cdb, dev, feature)
    case 0x1E => if dev == CD_ROM && !s.isoOpen then NotReady(dev) else Good(dev)
    case 0x1B => Good(dev)
    case 0x25 =>
      if dev != CD_ROM || !s.isoOpen || |s.setup.iso| < BLOCK then NotReady(dev)
      else Data(dev, PackBe32(LastLba(s)) + [0, 0, 8, 0], feature)
    case 0x43 => ReadToc(cdb, dev, feature)
    case 0x46 => GetConfiguration(s, cdb, dev, feature)
    case 0x4A => GetEventStatus(s, cdb, dev, feature)
    case 0x23 =>
      if dev != CD_ROM || !s.isoOpen || |s.setup.iso| == 0 then Illegal(dev, 0x24)
      else Data(dev, FORMAT_CAPACITIES, feature)
    case 0x0A => NotReady(dev)
    case 0x2A => NotReady(dev)
    case 0x2E => NotReady(dev)
    case _ => Illegal(dev, 0x20)
  }

  // ----- READ -----

  predicate IsRead(cdb: bytes)
    requires |cdb| == 12
  {
    cdb[0] == 0x08 || cdb[0] == 0x28
  }

  function ReadLba(cdb: bytes): nat
    requires |cdb| == 12
  {
    if cdb[0] == 0x28 then ReadBe32(cdb, 2)
    else cdb[1] % 0x20 * 0x1_0000 + cdb[2] as int * 0x100 + cdb[3]
  }

  function ReadLen(cdb: bytes): nat
    requires |cdb| == 12
  {
    if cdb[0] == 0x28 then ReadBe16(cdb, 7) else if cdb[4] == 0 then 256 else cdb[4]
  }

  /** The chunk size the other side asked for, or the most it may ask for. */
  function Negotiated(s: State): nat {
    if s.readBuffer > 0 then s.readBuffer else MAX_READ_CAP
  }

  function ScsiRead(s: State, lba: nat, len: nat, dev: byte, feature: byte): Effect {
    if dev != CD_ROM || !s.isoOpen then Send(s, NotReady(dev), Answering)
    else if lba + len > |s.setup.iso| / BLOCK then Send(s, Illegal(dev, 0x21), Answering)
    else if len == 0 then Send(s, Good(dev), Answering)
    else if s.stream.inFlight then Fail(s)
    else
      Effect(s.(stream := Stream(Octets(lba), Octets(len), dev, feature, Negotiated(s), true, s.stream.armed + 1)),
             [ReadAccepted(lba, len, Negotiated(s))])
  }

  function Device(flags: byte): byte {
    if flags / 16 % 2 == 1 then CD_ROM else FLOPPY
  }

  function HandleScsi(s: State, cmd: ScsiCommand): Effect
    requires |cmd.cdb| == 12
  {
    var dev := Device(cmd.deviceFlags);
    if IsRead(cmd.cdb) then ScsiRead(s, ReadLba(cmd.cdb), ReadLen(cmd.cdb), dev, cmd.feature)
    else
      var ready := s.cdReady || (cmd.cdb[0] == 0x00 && dev == CD_ROM && s.isoOpen);
      var e := Send(s, Answer(s, cmd.cdb, dev, cmd.feature), Answering);
      e.(next := e.next.(cdReady := ready))
  }

  function FileRead(s: State, want: nat): bytes {
    if s.stream.pos >= |s.setup.iso| then []
    else if s.stream.pos + want <= |s.setup.iso| then s.setup.iso[s.stream.pos..s.stream.pos + want]
    else s.setup.iso[s.stream.pos..]
  }

  /** A timer shot: one chunk, and the next shot if there is more. */
  function Tick(s: State): Effect {
    if s.stream.armed == 0 then Effect(s, [])
    else
      var t := s.(stream := s.stream.(armed := s.stream.armed - 1));
      if !t.isoOpen || t.stream.remaining == 0 then Effect(t.(stream := t.stream.(inFlight := false)), [])
      else ChunkOut(t)
  }

  function Want(s: State): nat {
    if s.stream.remaining < s.stream.chunk then s.stream.remaining else s.stream.chunk
  }

  function ChunkOut(s: State): Effect {
    var data := FileRead(s, Want(s));
    var t := s.(stream := s.stream.(pos := s.stream.pos + |data|));
    if |data| != Want(s) then GivenUp(t) else Streamed(t, data)
  }

  lemma ChunkOutIs(s: State, t: State, data: bytes)
    requires data == FileRead(s, Want(s)) && t == s.(stream := s.stream.(pos := s.stream.pos + |data|))
    ensures |data| == Want(s) ==> |data| <= t.stream.remaining
    ensures ChunkOut(s) == if |data| != Want(s) then GivenUp(t) else Streamed(t, data)
  {
  }

  /** The file turned out shorter than it was: report it and stop. */
  function GivenUp(s: State): Effect {
    Send(s.(stream := s.stream.(remaining := 0, inFlight := false)), Illegal(s.stream.dev, 0x21), Answering)
  }

  /** Send a chunk that has been read, and arm the next shot unless it was the last. */
  function Streamed(s: State, data: bytes): Effect
    requires |data| <= s.stream.remaining
  {
    var left := s.stream.remaining - |data|;
    Send(s.(stream := Advanced(s.stream, left)),
         SendData(s.stream.dev, left == 0, data, Dma(s.stream.feature)), Streaming)
  }

  function Advanced(r: Stream, left: nat): Stream {
    if left > 0 then r.(remaining := left, armed := r.armed + 1) else r.(remaining := 0, inFlight := false)
  }

  // ----- The other messages -----

  function Enable(s: State): Body {
    EnableFeatures(3, if s.setup.startOption % 2 == 1 then s.setup.startOption else s.setup.startOption + 1)
  }

  function OnOpenSessionReply(s: State, info: SessionInfo): Effect {
    if info.proto != 0 || info.readBuffer > MAX_READ_CAP || info.writeBuffer > MAX_READ_CAP then Fail(s)
    else
      var e := Send(s.(readBuffer := info.readBuffer, sessionOpen := true), Enable(s), Answering);
      e.(acts := [OpenedSig] + e.acts)
  }

  function OnStatusData(s: State, kind: byte, value: u32): Effect {
    if kind == 1 then
      if value % 2 == 1 then Send(s, Enable(s), Answering) else Effect(s, [])
    else if kind == 2 then
      var on := value / 2 % 2 == 1;
      if on != s.enabled then Effect(s.(enabled := on), [EnabledSig(on)]) else Effect(s, [])
    else Effect(s, [])
  }

  function Handle(s: State, m: Inbound): Effect {
    match m
    case OpenSessionReply(info) => OnOpenSessionReply(s, info)
    case Close => Fail(s)
    case KeepAlivePing => Send(s, Pong, Answering)
    case ResetOccurred => Send(s, ResetResponse, Answering)
    case StatusData(kind, value) => OnStatusData(s, kind, value)
    case CommandWritten(cmd) => if |cmd.cdb| == 12 then HandleScsi(s, cmd) else Effect(s, [])
    case _ => Effect(s, [])
  }

  function IderStep(s: State, b: bytes): Step<State, Act> {
    if b == [] then Stall
    else
      match ParseInbound(b)
      case Incomplete => Stall
      case Unknown => Halt(0, Fail(s).next, Fail(s).acts)
      case Message(m, n) =>
        if m.Close? then Halt(n, Fail(s).next, [Took(b[..n])] + Fail(s).acts)
        else Advance(n, Handle(s, m).next, [Took(b[..n])] + Handle(s, m).acts)
  }

  lemma IderStepStable()
    ensures Stable(IderStep)
  {
    forall s: State, b: bytes, more: bytes | !IderStep(s, b).Stall?
      ensures IderStep(s, b + more) == IderStep(s, b)
    {
      ParseStable(b, more);
      if ParseInbound(b).Message? {
        assert (b + more)[..ParseInbound(b).n] == b[..ParseInbound(b).n];
      }
    }
  }

  /** Whether bytes suffice for a step never depends on the state. */
  lemma StallIgnoresState(s: State, t: State, b: bytes)
    ensures IderStep(s, b).Stall? == IderStep(t, b).Stall?
  {
  }

  // ----- Runs: chunks between timer shots -----

  ghost function TickOn(o: Outcome<State, Act>): Outcome<State, Act> {
    o.(state := Tick(o.state).next, acts := o.acts + Tick(o.state).acts)
  }

  /** Chunks, a timer shot, chunks, a timer shot, and so on. */
  ghost function RunSpans(o: Outcome<State, Act>, spans: seq<seq<bytes>>): Outcome<State, Act>
    requires Stable(IderStep)
    decreases |spans|
  {
    if spans == [] then o else RunSpans(TickOn(FeedAll(IderStep, o, spans[0])), spans[1..])
  }

  /**
    * Segmentation with the timer running: as long as each shot falls at the same point of
    * the stream, how the stretches in between were cut makes no difference.
    */
  lemma {:induction false} IderSegmentation(o: Outcome<State, Act>, one: seq<seq<bytes>>, other: seq<seq<bytes>>)
    requires Quiescent(IderStep, o)
    requires |one| == |other| && forall i :: 0 <= i < |one| ==> Flat(one[i]) == Flat(other[i])
    ensures Stable(IderStep)
    ensures RunSpans(o, one) == RunSpans(o, other)
    decreases |one|
  {
    IderStepStable();
    if one != [] {
      assert Flat(one[0]) == Flat(other[0]);
      SegmentationIrrelevant(IderStep, o, one[0], other[0]);
      var p := FeedAll(IderStep, o, one[0]);
      FeedAllIsOneFeed(IderStep, o, one[0]);
      FeedQuiesces(IderStep, o, Flat(one[0]));
      StallIgnoresState(p.state, TickOn(p).state, p.inbox);
      forall i | 0 <= i < |one[1..]|
        ensures Flat(one[1..][i]) == Flat(other[1..][i])
      {
        assert Flat(one[i + 1]) == Flat(other[i + 1]);
      }
      IderSegmentation(TickOn(p), one[1..], other[1..]);
    }
  }

  // ----- What a run sent -----

  /** What a READ asks for: blocks, and whether they are to come by DMA. */
  datatype Request = Request(lba: nat, len: nat, dma: bool)

  /**
    * A READ as its 28 octets say it, most significant octet first: four octets of address and
    * two of length, or 21 bits and one octet with zero meaning 256.
    */
  function Asked(raw: bytes): Request {
    if |raw| != 28 then Request(0, 0, false)
    else if raw[16] == 0x28 then
      Request(((raw[18] as int * 256 + raw[19]) * 256 + raw[20]) * 256 + raw[21], raw[23] as int * 256 + raw[24], raw[9] % 2 == 1)
    else
      Request((raw[17] as int % 32 * 256 + raw[18]) * 256 + raw[19], if raw[20] == 0 then 256 else raw[20], raw[9] % 2 == 1)
  }

  /** One accepted READ, as the host asked for it, and the data streamed for it. */
  datatype Episode = Episode(asked: Request, chunk: nat, sent: bytes, done: bool)

  /**
    * An account of a trace: its READs in order, the message before, the sequence number
    * expected next, and whether its frames were in order.
    */
  datatype Ledger = Ledger(past: seq<Episode>, last: Option<Episode>, heard: bytes, next: u32, ok: bool)

  /** A streamed frame belongs to a READ that is not finished, comes as asked, and is no larger than agreed. */
  predicate ChunkFits(l: Ledger, body: Body) {
    && l.last.Some? && !l.last.value.done
    && body.SendData? && 0 < |body.data| <= l.last.value.chunk
    && body.dev == 0xB0 && body.dma == l.last.value.asked.dma
  }

  function Enter(l: Ledger, a: Act): Ledger {
    match a
    case Took(raw) => l.(heard := raw)
    case ReadAccepted(_, _, chunk) =>
      l.(past := l.past + (if l.last.Some? then [l.last.value] else []),
         last := Some(Episode(Asked(l.heard), chunk, [], false)))
    case Sent(Frame(n, body), origin) =>
      var m := l.(next := NextSequence(n), ok := l.ok && n == l.next);
      if origin == Answering then m
      else if !ChunkFits(l, body) then m.(ok := false)
      else m.(last := Some(l.last.value.(sent := l.last.value.sent + body.data, done := body.completed)))
    case _ => l
  }

  function EnterAll(l: Ledger, acts: seq<Act>): Ledger
    decreases |acts|
  {
    if acts == [] then l else EnterAll(Enter(l, acts[0]), acts[1..])
  }

  lemma {:induction false} EnterAppend(l: Ledger, a: seq<Act>, b: seq<Act>)
    ensures EnterAll(l, a + b) == EnterAll(EnterAll(l, a), b)
    decreases |a|
  {
    if a == [] {
      assert a + b == b;
    } else {
      assert (a + b)[1..] == a[1..] + b;
      EnterAppend(Enter(l, a[0]), a[1..], b);
    }
  }

  lemma EnterOne(l: Ledger, a: Act)
    ensures EnterAll(l, [a]) == Enter(l, a)
  {
  }

  /** What has been sent is the head of what was asked for; it is done when it is all of it. */
  predicate Faithful(iso: bytes, e: Episode) {
    && 0 < e.asked.len && Octets(e.asked.lba + e.asked.len) <= |iso| && e.chunk <= MAX_READ_CAP
    && |e.sent| <= Octets(e.asked.len)
    && e.sent == iso[Octets(e.asked.lba)..Octets(e.asked.lba) + |e.sent|]
    && (e.done <==> |e.sent| == Octets(e.asked.len))
  }

  /** File position and remaining count, as long as a READ is being streamed. */
  predicate OnTrack(s: State, e: Episode) {
    && !e.done
    && s.stream.pos == Octets(e.asked.lba) + |e.sent|
    && s.stream.remaining == Octets(e.asked.len) - |e.sent|
    && 1 <= s.stream.chunk == e.chunk
    && s.stream.dev == CD_ROM && Dma(s.stream.feature) == e.asked.dma
  }

  predicate Books(s: State, l: Ledger) {
    && l.ok && l.next == s.sequence
    && s.stream.armed == (if s.stream.inFlight then 1 else 0)
    && s.readBuffer <= MAX_READ_CAP
    && (forall i :: 0 <= i < |l.past| ==> Faithful(s.setup.iso, l.past[i]) && l.past[i].done)
    && match l.last {
         case None => !s.stream.inFlight
         case Some(e) =>
           && Faithful(s.setup.iso, e)
           && (s.isoOpen && s.stream.inFlight ==> OnTrack(s, e))
           && (s.isoOpen && !s.stream.inFlight ==> e.done)
       }
  }

  ghost predicate BooksKept(s: State, l: Ledger, e: Effect) {
    Books(s, l) ==> Books(e.next, EnterAll(l, e.acts)) && e.next.setup.iso == s.setup.iso
  }

  lemma AnswerKeeps(s: State, next: State, l: Ledger, body: Body)
    requires Books(s, l)
    requires next == s.(sequence := next.sequence, readBuffer := next.readBuffer, sessionOpen := next.sessionOpen,
                        enabled := next.enabled, cdReady := next.cdReady)
    requires next.sequence == NextSequence(s.sequence) && next.readBuffer <= MAX_READ_CAP
    ensures Books(next, Enter(l, Sent(Frame(s.sequence, body), Answering)))
  {
  }

  lemma SignalsKeep(l: Ledger, acts: seq<Act>)
    requires |acts| <= 2 && forall i :: 0 <= i < |acts| ==> !acts[i].Sent? && !acts[i].ReadAccepted? && !acts[i].Took?
    ensures EnterAll(l, acts) == l
  {
    if |acts| == 2 {
      assert acts == [acts[0]] + [acts[1]];
      EnterAppend(l, [acts[0]], [acts[1]]);
    }
  }

  lemma FailKeeps(s: State, l: Ledger)
    ensures BooksKept(s, l, Fail(s))
  {
    SignalsKeep(l, Fail(s).acts);
  }

  lemma SendKeeps(s: State, l: Ledger, body: Body)
    ensures BooksKept(s, l, Send(s, body, Answering))
  {
    if Books(s, l) {
      AnswerKeeps(s, Send(s, body, Answering).next, l, body);
      EnterOne(l, Sent(Frame(s.sequence, body), Answering));
    }
  }

  lemma ScsiReadKeeps(s: State, lba: nat, len: nat, dev: byte, feature: byte, l: Ledger)
    requires Asked(l.heard) == Request(lba, len, Dma(feature))
    ensures BooksKept(s, l, ScsiRead(s, lba, len, dev, feature))
  {
    if dev != CD_ROM || !s.isoOpen {
      SendKeeps(s, l, NotReady(dev));
    } else if lba + len > |s.setup.iso| / BLOCK {
      SendKeeps(s, l, Illegal(dev, 0x21));
    } else if len == 0 {
      SendKeeps(s, l, Good(dev));
    } else if s.stream.inFlight {
      FailKeeps(s, l);
    } else if Books(s, l) {
      AcceptedKeeps(s, l, lba, len, feature);
      EnterOne(l, ReadAccepted(lba, len, Negotiated(s)));
    }
  }

  lemma AcceptedKeeps(s: State, l: Ledger, lba: nat, len: nat, feature: byte)
    requires Books(s, l) && s.isoOpen && !s.stream.inFlight
    requires len > 0 && lba + len <= |s.setup.iso| / BLOCK && Asked(l.heard) == Request(lba, len, Dma(feature))
    ensures Books(ScsiRead(s, lba, len, CD_ROM, feature).next, Enter(l, ReadAccepted(lba, len, Negotiated(s))))
  {
    assert Octets(lba + len) <= |s.setup.iso|;
    var e := Episode(Asked(l.heard), Negotiated(s), [], false);
    assert Faithful(s.setup.iso, e);
  }

  /** The message in `raw` is `m`: of a command, the octets it consists of. */
  predicate Says(raw: bytes, m: Inbound) {
    m.CommandWritten? ==> |raw| == 28 && m.cmd == ScsiCommand(raw[9], raw[14], raw[16..28])
  }

  lemma AskedOfCommand(raw: bytes, cmd: ScsiCommand)
    requires |raw| == 28 && cmd == ScsiCommand(raw[9], raw[14], raw[16..28]) && IsRead(cmd.cdb)
    ensures Asked(raw) == Request(ReadLba(cmd.cdb), ReadLen(cmd.cdb), Dma(cmd.feature))
  {
    var c := cmd.cdb;
    assert c[0] == raw[16] && c[1] == raw[17] && c[2] == raw[18] && c[3] == raw[19] && c[4] == raw[20];
    assert c[5] == raw[21] && c[7] == raw[23] && c[8] == raw[24];
  }

  lemma HandleKeeps(s: State, m: Inbound, l: Ledger)
    requires Says(l.heard, m)
    ensures BooksKept(s, l, Handle(s, m))
  {
    var e := Handle(s, m);
    if Books(s, l) {
      match m
      case OpenSessionReply(info) =>
        if info.proto != 0 || info.readBuffer > MAX_READ_CAP || info.writeBuffer > MAX_READ_CAP {
          FailKeeps(s, l);
        } else {
          AnswerKeeps(s, e.next, l, Enable(s));
          EnterAppend(l, [OpenedSig], e.acts[1..]);
          assert e.acts == [OpenedSig] + e.acts[1..];
          EnterOne(l, e.acts[1]);
        }
      case Close => FailKeeps(s, l);
      case KeepAlivePing => SendKeeps(s, l, Pong);
      case ResetOccurred => SendKeeps(s, l, ResetResponse);
      case StatusData(kind, value) => StatusKeeps(s, kind, value, l);
      case CommandWritten(cmd) =>
        if |cmd.cdb| == 12 {
          if IsRead(cmd.cdb) {
            AskedOfCommand(l.heard, cmd);
            ScsiReadKeeps(s, ReadLba(cmd.cdb), ReadLen(cmd.cdb), Device(cmd.deviceFlags), cmd.feature, l);
          } else {
            EnterOne(l, e.acts[0]);
            AnswerKeeps(s, e.next, l, e.acts[0].frame.body);
          }
        }
      case _ =>
    }
  }

  lemma StatusKeeps(s: State, kind: byte, value: u32, l: Ledger)
    ensures BooksKept(s, l, OnStatusData(s, kind, value))
  {
    if kind == 1 && value % 2 == 1 {
      SendKeeps(s, l, Enable(s));
    } else {
      SignalsKeep(l, OnStatusData(s, kind, value).acts);
    }
  }

  /** One chunk more: the READ stays on track, or is done with exactly its last octet. */
  lemma TickKeeps(s: State, l: Ledger)
    ensures BooksKept(s, l, Tick(s))
  {
    if Books(s, l) && s.stream.armed > 0 && s.isoOpen {
      ShotKeeps(s, l);
    }
  }

  lemma ShotKeeps(s: State, l: Ledger)
    requires Books(s, l) && s.stream.armed > 0 && s.isoOpen
    ensures Books(Tick(s).next, EnterAll(l, Tick(s).acts)) && Tick(s).next.setup.iso == s.setup.iso
  {
    InFile(s, l);
    ChunkSent(s);
    ChunkKeeps(s, l);
    EnterOne(l, Sent(NextChunk(s), Streaming));
  }

  /** While a READ is in flight, the next chunk is there to be read. */
  lemma InFile(s: State, l: Ledger)
    requires Books(s, l) && s.stream.inFlight && s.isoOpen
    ensures 0 < Want(s) <= s.stream.remaining && Want(s) <= s.stream.chunk
    ensures s.stream.pos + Want(s) <= |s.setup.iso|
  {
    var ep := l.last.value;
    assert s.stream.pos + s.stream.remaining == Octets(ep.asked.lba + ep.asked.len);
  }

  /** The next chunk of the READ in flight, and the session once it is sent. */
  function NextChunk(s: State): Frame
    requires s.stream.pos + Want(s) <= |s.setup.iso|
  {
    var data := s.setup.iso[s.stream.pos..s.stream.pos + Want(s)];
    Frame(s.sequence, SendData(s.stream.dev, s.stream.remaining == Want(s), data, Dma(s.stream.feature)))
  }

  function AfterChunk(s: State): State {
    var more := s.stream.remaining > Want(s);
    s.(sequence := NextSequence(s.sequence),
       stream := s.stream.(pos := s.stream.pos + Want(s), remaining := s.stream.remaining - Want(s),
                           armed := if more then 1 else 0, inFlight := more))
  }

  /** A shot that finds its octets in the file sends them. */
  lemma ChunkSent(s: State)
    requires s.stream.armed == 1 && s.stream.inFlight && s.isoOpen && s.stream.remaining > 0
    requires s.stream.pos + Want(s) <= |s.setup.iso|
    ensures Tick(s) == Effect(AfterChunk(s), [Sent(NextChunk(s), Streaming)])
  {
  }

  lemma SliceJoins(b: bytes, i: nat, j: nat, k: nat)
    requires i <= j <= k <= |b|
    ensures b[i..j] + b[j..k] == b[i..k]
  {
  }

  lemma ChunkKeeps(s: State, l: Ledger)
    requires Books(s, l) && s.stream.inFlight && s.isoOpen
    requires 0 < Want(s) <= s.stream.remaining && Want(s) <= s.stream.chunk && s.stream.pos + Want(s) <= |s.setup.iso|
    ensures Books(AfterChunk(s), Enter(l, Sent(NextChunk(s), Streaming)))
  {
    SentMore(s.setup.iso, l.last.value, Want(s));
  }

  /** The next octets of the disc, behind those sent so far. */
  lemma SentMore(iso: bytes, e: Episode, n: nat)
    requires Faithful(iso, e) && !e.done && 0 < n && |e.sent| + n <= Octets(e.asked.len)
    ensures var pos := Octets(e.asked.lba) + |e.sent|;
            Faithful(iso, e.(sent := e.sent + iso[pos..pos + n], done := |e.sent| + n == Octets(e.asked.len)))
  {
    var start := Octets(e.asked.lba);
    SliceJoins(iso, start, start + |e.sent|, start + |e.sent| + n);
  }

  function FreshLedger(): Ledger { Ledger([], None, [], 1, true) }

  ghost predicate LedgerInv(s: State, acts: seq<Act>) {
    Books(s, EnterAll(FreshLedger(), acts))
  }

  lemma LedgerKept()
    ensures Holds(IderStep, LedgerInv)
  {
    forall s: State, b: bytes, acts: seq<Act>
      ensures HoldsAt(IderStep, LedgerInv, s, b, acts)
    {
      LedgerKeptAt(s, b, acts);
    }
  }

  lemma LedgerKeptAt(s: State, b: bytes, acts: seq<Act>)
    ensures HoldsAt(IderStep, LedgerInv, s, b, acts)
  {
    var l := EnterAll(FreshLedger(), acts);
    var st := IderStep(s, b);
    if !st.Stall? {
      EnterAppend(FreshLedger(), acts, st.acts);
      match ParseInbound(b)
      case Unknown => FailKeeps(s, l);
      case Message(m, n) =>
        var took, after := Took(b[..n]), l.(heard := b[..n]);
        if m.CommandWritten? {
          assert b[..28][16..28] == b[16..28];
        }
        if Books(s, l) {
          assert Books(s, after);
        }
        EnterOne(l, took);
        EnterAppend(l, [took], Handle(s, m).acts);
        HandleKeeps(s, m, after);
    }
  }

  /** A session that has sent its OpenSession frame, serving `iso` if one could be opened. */
  function Begun(iso: Option<bytes>, startOption: byte, tables: Tables): Outcome<State, Act> {
    Outcome(State(1, Setup(if iso.Some? then iso.value else [], startOption, tables), iso.Some?,
                  Stream(0, 0, 0, 0, 0, false, 0), 0, false, false, false), [], [], false)
  }

  /** What can happen to a session: octets arrive, or the timer fires. */
  datatype Happening = Arrives(chunk: bytes) | Shot

  /** A session that has failed goes on parsing with the next chunk, as the code does. */
  ghost function React(o: Outcome<State, Act>, h: Happening): Outcome<State, Act>
    requires Stable(IderStep)
  {
    match h
    case Arrives(chunk) => Feed(IderStep, o.(halted := false), chunk)
    case Shot => TickOn(o)
  }

  ghost function RunOn(o: Outcome<State, Act>, hs: seq<Happening>): Outcome<State, Act>
    requires Stable(IderStep)
    decreases |hs|
  {
    if hs == [] then o else RunOn(React(o, hs[0]), hs[1..])
  }

  lemma ReactKeepsLedger(o: Outcome<State, Act>, h: Happening)
    requires Stable(IderStep) && LedgerInv(o.state, o.acts)
    ensures var p := React(o, h); LedgerInv(p.state, p.acts) && p.state.setup.iso == o.state.setup.iso
  {
    match h
    case Arrives(chunk) =>
      LedgerKept();
      DrainHolds(IderStep, LedgerInv, o.state, o.inbox + chunk, o.acts);
      DrainKeepsIso(o.state, o.inbox + chunk);
    case Shot =>
      TickKeeps(o.state, EnterAll(FreshLedger(), o.acts));
      EnterAppend(FreshLedger(), o.acts, Tick(o.state).acts);
  }

  lemma {:induction false} RunKeepsLedger(o: Outcome<State, Act>, hs: seq<Happening>)
    requires Stable(IderStep) && LedgerInv(o.state, o.acts)
    ensures LedgerInv(RunOn(o, hs).state, RunOn(o, hs).acts)
    ensures RunOn(o, hs).state.setup.iso == o.state.setup.iso
    decreases |hs|
  {
    if hs != [] {
      ReactKeepsLedger(o, hs[0]);
      RunKeepsLedger(React(o, hs[0]), hs[1..]);
    }
  }

  lemma DrainKeepsIso(s: State, b: bytes)
    requires Stable(IderStep)
    ensures Drain(IderStep, s, b).state.setup.iso == s.setup.iso
  {
    var same := (t: State, acts: seq<Act>) => t.setup.iso == s.setup.iso;
    forall t: State, c: bytes, acts: seq<Act>
      ensures HoldsAt(IderStep, same, t, c, acts)
    {
      IsoFixed(t, c);
    }
    DrainHolds(IderStep, same, s, b, []);
  }

  lemma IsoFixed(s: State, b: bytes)
    ensures !IderStep(s, b).Stall? ==> IderStep(s, b).next.setup.iso == s.setup.iso
  {
  }

  /** Every READ accepted before the last is whole, and the last one is as far as it has got. */
  predicate Served(disc: bytes, l: Ledger) {
    && l.ok
    && (forall i :: 0 <= i < |l.past| ==> Faithful(disc, l.past[i]) && l.past[i].done)
    && (l.last.Some? ==> Faithful(disc, l.last.value))
  }

  /**
    * The READ theorem, for every run: any messages in any chunks, other commands between
    * the chunks of a READ, timer shots anywhere, failures and what arrives after them
    * included. Frames are numbered consecutively; every READ accepted before the last was
    * streamed whole, as exactly the octets of its blocks, in chunks no larger than agreed for
    * it, completed on the last chunk and on no other; the last one is so far the head of its
    * blocks, and it is whole if the medium is still there and nothing is in flight.
    */
  lemma ReadsAreFaithful(iso: Option<bytes>, startOption: byte, tables: Tables, hs: seq<Happening>)
    ensures Stable(IderStep)
    ensures var o := RunOn(Begun(iso, startOption, tables), hs);
            var l := EnterAll(FreshLedger(), o.acts);
            && Served(if iso.Some? then iso.value else [], l)
            && (l.last.Some? && o.state.isoOpen && !o.state.stream.inFlight ==> l.last.value.done)
  {
    IderStepStable();
    RunKeepsLedger(Begun(iso, startOption, tables), hs);
  }

  // ----- The same, as the other side hears it -----

  /** A streamed frame is built into octets and read back from them; one that cannot be read is lost. */
  function Heard(a: Act): Act {
    if a.Sent? && a.origin == Streaming && a.frame.body.SendData? then
      var body := a.frame.body;
      match ParseSendData(BuildSendData(a.frame.sequence, body.dev, body.completed, body.data, body.dma))
      case Some(frame) => Sent(frame, Streaming)
      case None => ClosedSig
    else a
  }

  function HeardAll(acts: seq<Act>): seq<Act> {
    seq(|acts|, i requires 0 <= i < |acts| => Heard(acts[i]))
  }

  /** Small enough for the length field of its frame. */
  predicate Fits(a: Act) {
    a.Sent? && a.origin == Streaming ==> a.frame.body.SendData? && |a.frame.body.data| <= MAX_READ_CAP
  }

  predicate Capped(l: Ledger) {
    && (forall i :: 0 <= i < |l.past| ==> l.past[i].chunk <= MAX_READ_CAP)
    && (l.last.Some? ==> l.last.value.chunk <= MAX_READ_CAP)
  }

  lemma CappedBefore(l: Ledger, a: Act)
    requires Enter(l, a).ok && Capped(Enter(l, a))
    ensures l.ok && Capped(l) && Fits(a)
  {
    if a.ReadAccepted? {
      var past := Enter(l, a).past;
      forall i | 0 <= i < |l.past| ensures l.past[i].chunk <= MAX_READ_CAP {
        assert past[i] == l.past[i];
      }
      if l.last.Some? {
        assert past[|l.past|] == l.last.value;
      }
    }
  }

  /** An account in order, whose READs keep to the cap, has no frame over the cap in it. */
  lemma {:induction false} CappedThroughout(l: Ledger, acts: seq<Act>)
    requires EnterAll(l, acts).ok && Capped(EnterAll(l, acts))
    ensures l.ok && Capped(l) && forall i :: 0 <= i < |acts| ==> Fits(acts[i])
    decreases |acts|
  {
    if acts != [] {
      CappedThroughout(Enter(l, acts[0]), acts[1..]);
      CappedBefore(l, acts[0]);
      forall i | 0 <= i < |acts| ensures Fits(acts[i]) {
        if i > 0 {
          assert acts[i] == acts[1..][i - 1];
        }
      }
    }
  }

  lemma HeardAsSaid(acts: seq<Act>)
    requires forall i :: 0 <= i < |acts| ==> Fits(acts[i])
    ensures HeardAll(acts) == acts
  {
    forall i | 0 <= i < |acts| ensures Heard(acts[i]) == acts[i] {
      var a := acts[i];
      assert Fits(a);
      if a.Sent? && a.origin == Streaming {
        var body := a.frame.body;
        SendDataRoundTrip(a.frame.sequence, body.dev, body.completed, body.data, body.dma);
      }
    }
  }

  /**
    * In every run, a host that parses the data frames out of the octets they were built into
    * hears every one of them, and what it hears are the octets of the disc it asked for.
    */
  lemma HostHearsTheDisc(iso: Option<bytes>, startOption: byte, tables: Tables, hs: seq<Happening>)
    ensures Stable(IderStep)
    ensures var o := RunOn(Begun(iso, startOption, tables), hs);
            HeardAll(o.acts) == o.acts && Served(if iso.Some? then iso.value else [], EnterAll(FreshLedger(), HeardAll(o.acts)))
  {
    ReadsAreFaithful(iso, startOption, tables, hs);
    var o := RunOn(Begun(iso, startOption, tables), hs);
    CappedThroughout(FreshLedger(), o.acts);
    HeardAsSaid(o.acts);
  }

  // ----- Progress -----

  /** Timer shots with nothing arriving in between. */
  function Shots(n: nat): seq<Happening> {
    if n == 0 then [] else [Shot] + Shots(n - 1)
  }

  /** A shot either ends the READ or leaves strictly less of it. */
  lemma TickProgress(s: State, l: Ledger)
    requires Books(s, l)
    ensures var t := Tick(s).next;
            && t.isoOpen == s.isoOpen
            && (t.stream.inFlight ==> s.isoOpen && s.stream.inFlight && t.stream.remaining < s.stream.remaining)
  {
    TickKeeps(s, l);
  }

  /** Shots the READ in flight can still need: at most one per octet, or one to notice the medium is gone. */
  function ShotsLeft(s: State): nat {
    if !s.stream.inFlight then 0 else if s.isoOpen then s.stream.remaining else 1
  }

  /** Left to the timer, a READ comes to an end. */
  lemma {:induction false} ReadFinishes(o: Outcome<State, Act>, n: nat)
    requires Stable(IderStep) && LedgerInv(o.state, o.acts) && ShotsLeft(o.state) <= n
    ensures !RunOn(o, Shots(n)).state.stream.inFlight
    decreases n
  {
    if n > 0 {
      TickProgress(o.state, EnterAll(FreshLedger(), o.acts));
      ReactKeepsLedger(o, Shot);
      assert Shots(n)[1..] == Shots(n - 1);
      ReadFinishes(TickOn(o), n - 1);
    }
  }

  /** READ CAPACITY tells the truth: its last block is the last one a READ may name. */
  ghost predicate CapacityTells(s: State, feature: byte)
    requires |s.setup.iso| >= BLOCK
  {
    forall lba: u32 ::
      lba <= LastLba(s) <==> ScsiRead(s, lba, 1, CD_ROM, feature).acts == [ReadAccepted(lba, 1, Negotiated(s))]
  }

  /**
    * It does so for every image that 32 bits can number, and beyond that only where the
    * number of blocks wraps to zero.
    */
  lemma CapacityIsTheLimit(s: State, feature: byte)
    requires s.isoOpen && !s.stream.inFlight && |s.setup.iso| >= BLOCK
    ensures var blocks := |s.setup.iso| / BLOCK;
            CapacityTells(s, feature) <==> blocks <= 0x1_0000_0000 || blocks % 0x1_0000_0000 == 0
  {
    var blocks := |s.setup.iso| / BLOCK;
    forall lba: u32
      ensures ScsiRead(s, lba, 1, CD_ROM, feature).acts == [ReadAccepted(lba, 1, Negotiated(s))] <==> lba < blocks
    {
    }
    if blocks > 0x1_0000_0000 && blocks % 0x1_0000_0000 != 0 {
      var last: u32 := 0xFFFF_FFFF;
      assert LastLba(s) < last;
      assert ScsiRead(s, last, 1, CD_ROM, feature).acts == [ReadAccepted(last, 1, Negotiated(s))];
    }
  }

  /** One block more than 32 bits can number: the last block is reported as block 0, and block 1 is served. */
  lemma CapacityWraps(s: State, feature: byte)
    requires s.isoOpen && !s.stream.inFlight && s.setup.iso == Zeros(Octets(0x1_0000_0001))
    ensures LastLba(s) == 0 && ScsiRead(s, 1, 1, CD_ROM, feature).acts == [ReadAccepted(1, 1, Negotiated(s))]
  {
  }

  // ----- The object -----

  class Session {
    var inbox: bytes
    var sequence: u32
    const iso: bytes
    var isoOpen: bool
    var pos: nat
    const startOption: byte
    const tables: Tables
    var readBuffer: u16
    var sessionOpen: bool
    var enabled: bool
    var cdReady: bool
    var remaining: nat
    var chunkDev: byte
    var chunkFeature: byte
    var chunkSize: nat
    var inFlight: bool
    var armed: nat
    var log: seq<Act>

    /** A session that has sent its OpenSession frame. */
    constructor (iso: Option<bytes>, startOption: byte, tables: Tables)
      ensures Outcome(View(), inbox, log, false) == Begun(iso, startOption, tables)
    {
      this.iso, this.startOption, this.tables := if iso.Some? then iso.value else [], startOption, tables;
      isoOpen, pos, sequence, inbox, log := iso.Some?, 0, 1, [], [];
      readBuffer, sessionOpen, enabled, cdReady := 0, false, false, false;
      remaining, chunkDev, chunkFeature, chunkSize, inFlight, armed := 0, 0, 0, 0, false, 0;
    }

    ghost function View(): State
      reads this
    {
      State(sequence, Setup(iso, startOption, tables), isoOpen,
            Stream(pos, remaining, chunkDev, chunkFeature, chunkSize, inFlight, armed),
            readBuffer, sessionOpen, enabled, cdReady)
    }

    /** The object did what the effect says, and left its inbox alone. */
    twostate predicate Did(e: Effect)
      reads this
    {
      View() == e.next && log == old(log) + e.acts && inbox == old(inbox)
    }

    method OnRawBytes(chunk: bytes) returns (ghost halted: bool)
      modifies this
      ensures Stable(IderStep)
      ensures Feed(IderStep, Outcome(old(View()), old(inbox), old(log), false), chunk)
              == Outcome(View(), inbox, log, halted)
    {
      IderStepStable();
      inbox := inbox + chunk;
      halted := DrainInbox();
    }

    method DrainInbox() returns (ghost halted: bool)
      modifies this
      ensures Stable(IderStep)
      ensures After(old(log), Drain(IderStep, old(View()), old(inbox))) == Outcome(View(), inbox, log, halted)
    {
      IderStepStable();
      ghost var full := After(log, Drain(IderStep, View(), inbox));
      var v := Moved;
      while v == Moved
        invariant v == Moved ==> Owes(IderStep, full, View(), inbox, log)
        invariant v != Moved ==> full == Outcome(View(), inbox, log, v == Stopped)
        decreases v == Moved, |inbox|
      {
        ghost var s, b, l := View(), inbox, log;
        v := DrainOne();
        OwesAfterStep(IderStep, full, v, s, b, l, View(), inbox, log);
      }
      halted := v == Stopped;
    }

    /** The loop's guard and one pass through its body. */
    method DrainOne() returns (v: Verdict)
      modifies this
      ensures Follows(IderStep(old(View()), old(inbox)), v, old(View()), old(inbox), old(log), View(), inbox, log)
    {
      if inbox == [] { return Waiting; }
      match ParseInbound(inbox)
      case Incomplete => return Waiting;
      case Unknown =>
        FailNow();
        return Stopped;
      case Message(m, n) =>
        log := log + [Took(inbox[..n])];
        inbox := inbox[n..];
        Regroup(old(log), [Took(old(inbox)[..n])], Handle(View(), m).acts);
        if m.Close? {
          FailNow();
          return Stopped;
        }
        Dispatch(m);
        return Moved;
    }

    method Dispatch(m: Inbound)
      modifies this
      ensures View() == Handle(old(View()), m).next && log == old(log) + Handle(old(View()), m).acts && inbox == old(inbox)
    {
      match m
      case OpenSessionReply(info) => OpenReply(info);
      case Close => FailNow();
      case KeepAlivePing => Write(Pong, Answering);
      case ResetOccurred => Write(ResetResponse, Answering);
      case StatusData(kind, value) => Status(kind, value);
      case CommandWritten(cmd) => if |cmd.cdb| == 12 { Scsi(cmd); }
      case _ =>
    }

    /** Every outgoing frame takes the next sequence number. */
    method Write(body: Body, origin: Origin)
      modifies this`sequence, this`log
      ensures Did(Send(old(View()), body, origin))
    {
      log := log + [Sent(Frame(sequence, body), origin)];
      sequence := NextSequence(sequence);
    }

    method FailNow()
      modifies this
      ensures Did(Fail(old(View())))
    {
      isoOpen := false;
      if sessionOpen || enabled {
        sessionOpen, enabled := false, false;
        log := log + [EnabledSig(false)];
      }
      log := log + [ClosedSig];
    }

    method OpenReply(info: SessionInfo)
      modifies this
      ensures Did(OnOpenSessionReply(old(View()), info))
    {
      if info.proto != 0 {
        FailNow();
        return;
      }
      if info.readBuffer > MAX_READ_CAP || info.writeBuffer > MAX_READ_CAP {
        FailNow();
        return;
      }
      readBuffer, sessionOpen := info.readBuffer, true;
      log := log + [OpenedSig];
      Write(EnableFeatures(3, if startOption % 2 == 1 then startOption else startOption + 1), Answering);
    }

    method Status(kind: byte, value: u32)
      modifies this
      ensures Did(OnStatusData(old(View()), kind, value))
    {
      if kind == 1 {
        if value % 2 == 1 {
          Write(EnableFeatures(3, if startOption % 2 == 1 then startOption else startOption + 1), Answering);
        }
      } else if kind == 2 {
        var on := value / 2 % 2 == 1;
        if on != enabled {
          enabled := on;
          log := log + [EnabledSig(on)];
        }
      }
    }

    method Scsi(cmd: ScsiCommand)
      requires |cmd.cdb| == 12
      modifies this
      ensures Did(HandleScsi(old(View()), cmd))
    {
      var dev := Device(cmd.deviceFlags);
      if IsRead(cmd.cdb) {
        Read(ReadLba(cmd.cdb), ReadLen(cmd.cdb), dev, cmd.feature);
        return;
      }
      Write(Reply(cmd.cdb, dev, cmd.feature), Answering);
      if cmd.cdb[0] == 0x00 && dev == CD_ROM && isoOpen && !cdReady {
        cdReady := true;
      }
    }

    /** The answer to a command other than READ, from the fields it depends on. */
    function Reply(cdb: bytes, dev: byte, feature: byte): Body
      requires |cdb| == 12
      reads this
    {
      Answer(State(sequence, Setup(iso, startOption, tables), isoOpen,
                   Stream(pos, remaining, chunkDev, chunkFeature, chunkSize, inFlight, armed),
                   readBuffer, sessionOpen, enabled, cdReady), cdb, dev, feature)
    }

    method Read(lba: nat, len: nat, dev: byte, feature: byte)
      modifies this
      ensures Did(ScsiRead(old(View()), lba, len, dev, feature))
    {
      if dev != CD_ROM || !isoOpen {
        Write(NotReady(dev), Answering);
        return;
      }
      var totalBlocks := |iso| / BLOCK;
      if lba + len > totalBlocks {
        Write(Illegal(dev, 0x21), Answering);
        return;
      }
      if len == 0 {
        Write(Good(dev), Answering);
        return;
      }
      if inFlight {
        FailNow();
        return;
      }
      Accept(lba, len, dev, feature);
    }

    /** Seek, note what is to be streamed, and arm the timer. */
    method Accept(lba: nat, len: nat, dev: byte, feature: byte)
      modifies this`chunkSize, this`pos, this`remaining, this`chunkDev, this`chunkFeature, this`inFlight, this`armed, this`log
      ensures View() == old(View()).(stream := Stream(Octets(lba), Octets(len), dev, feature, Negotiated(old(View())),
                                                      true, old(armed) + 1))
      ensures log == old(log) + [ReadAccepted(lba, len, Negotiated(old(View())))] && inbox == old(inbox)
    {
      chunkSize := if readBuffer > 0 then readBuffer else MAX_READ_CAP;
      pos, remaining := Octets(lba), Octets(len);
      chunkDev, chunkFeature, inFlight := dev, feature, true;
      armed := armed + 1;
      log := log + [ReadAccepted(lba, len, chunkSize)];
    }

    /** A timer shot. */
    method SendNextScsiChunk()
      modifies this
      ensures Did(Tick(old(View())))
    {
      if armed == 0 { return; }
      ghost var s := View();
      armed := armed - 1;
      assert View() == s.(stream := s.stream.(armed := s.stream.armed - 1));
      if !isoOpen || remaining == 0 {
        inFlight := false;
        return;
      }
      SendChunk();
    }

    method SendChunk()
      modifies this
      ensures Did(ChunkOut(old(View())))
    {
      ghost var s := View();
      var want := if remaining < chunkSize then remaining else chunkSize;
      var data := TakeFromFile(want);
      ChunkOutIs(s, View(), data);
      if |data| != want {
        GiveUp();
      } else {
        StreamOut(data);
      }
    }

    method GiveUp()
      modifies this
      ensures Did(GivenUp(old(View())))
    {
      Write(Illegal(chunkDev, 0x21), Answering);
      remaining, inFlight := 0, false;
    }

    method TakeFromFile(want: nat) returns (data: bytes)
      modifies this`pos
      ensures data == FileRead(old(View()), want) && |data| <= want
      ensures View() == old(View()).(stream := old(View()).stream.(pos := old(pos) + |data|))
    {
      data := if pos >= |iso| then [] else if pos + want <= |iso| then iso[pos..pos + want] else iso[pos..];
      pos := pos + |data|;
    }

    method StreamOut(data: bytes)
      requires |data| <= remaining
      modifies this`remaining, this`sequence, this`armed, this`inFlight, this`log
      ensures Did(Streamed(old(View()), data))
    {
      remaining := remaining - |data|;
      var completed := remaining == 0;
      Write(SendData(chunkDev, completed, data, Dma(chunkFeature)), Streaming);
      if remaining > 0 {
        armed := armed + 1;
      } else {
        inFlight := false;
      }
    }
  }
}
