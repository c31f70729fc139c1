/** The KVM session: handshake, then framebuffer updates, drained at most sixteen steps at a time. */
module KvmSession {

  import opened ByteCodec
  import opened InboxDrain
  import opened KvmCodec
  import opened KvmRect

  datatype Phase = Idle | Version | Security | AuthResult | ServerInit | FrameLoop | Failed

  /** `preferred`, `compression` and the inflater are fixed before the session starts. */
  datatype State = State(
    phase: Phase, width: u16, height: u16, format: Format, pending: nat,
    fed: seq<bytes>,                 // every block put through the inflate stream so far
    preferred: Option<Format>, compression: bool, inflate: Inflater)

  datatype Out =
    | VersionReply | SecurityChoice | ClientInit | SetPixelFormat(format: Format) | SetEncodings
    | KvmExt(cmd: byte, value: byte)
    | UpdateRequest(incremental: bool, w: u16, h: u16)

  datatype Message = Handshake | UpdateHeader | Rect | Other

  datatype Act =
    | Took(message: Message, raw: bytes)    // a message removed from the inbox
    | Wrote(out: Out)
    | DesktopResized(w: u16, h: u16)
    | FormatChanged(format: Format)
    | Tile(x: u16, y: u16, px: seq<Pixel>)
    | Rang
    | Closed

  // ----- Choosing a pixel format -----

  const MAX_DISPLAY_BUFFER: nat := 9216000

  function DisplayBuffer(f: Format, w: nat, h: nat): nat {
    (if f == Rgb565 then 2 else 1) * w * h
  }

  function ChooseFormat(w: nat, h: nat): Format {
    if DisplayBuffer(Rgb565, w, h) <= MAX_DISPLAY_BUFFER then Rgb565 else Rgb332
  }

  function Wanted(s: State, w: nat, h: nat): Format {
    if s.preferred.Some? then s.preferred.value else ChooseFormat(w, h)
  }

  predicate FitsBuffer(s: State, w: nat, h: nat) {
    w == 0 || h == 0 || DisplayBuffer(Wanted(s, w, h), w, h) <= MAX_DISPLAY_BUFFER
  }

  function Negotiated(s: State, w: nat, h: nat): State {
    if w == 0 || h == 0 then s else s.(format := Wanted(s, w, h))
  }

  function NegotiationActs(s: State, w: nat, h: nat): seq<Act> {
    if w == 0 || h == 0 then []
    else [Wrote(SetPixelFormat(Wanted(s, w, h)))]
         + if Wanted(s, w, h) != s.format then [FormatChanged(Wanted(s, w, h))] else []
  }

  /**
    * Auto mode never asks for more display buffer than the firmware has, gives up only
    * on desktops that no format fits, and takes the richer format whenever it fits.
    */
  lemma AutoFormat(s: State, w: nat, h: nat)
    requires s.preferred.None? && w > 0 && h > 0
    ensures FitsBuffer(s, w, h) <==> w * h <= MAX_DISPLAY_BUFFER
    ensures Wanted(s, w, h) == Rgb565 <==> 2 * (w * h) <= MAX_DISPLAY_BUFFER
  {
    assert 2 * w * h == 2 * (w * h);
    assert 1 * w * h == w * h;
  }

  // ----- One step -----

  function KvmStep(s: State, b: bytes): Step<State, Act> {
    match s.phase
    case Idle => Stall
    case Failed => Stall
    case Version =>
      if |b| < 12 then Stall
      else Advance(12, s.(phase := Security), [Took(Handshake, b[..12]), Wrote(VersionReply)])
    case Security =>
      if |b| < 1 || |b| < 1 + b[0] as int then Stall
      else Advance(1 + b[0] as int, s.(phase := AuthResult), [Took(Handshake, b[..1 + b[0] as int]), Wrote(SecurityChoice)])
    case AuthResult =>
      if |b| < 4 then Stall
      else if ReadBe32(b, 0) != 0 then Halt(0, s.(phase := Failed), [Closed])
      else Advance(4, s.(phase := ServerInit), [Took(Handshake, b[..4]), Wrote(ClientInit)])
    case ServerInit => StepServerInit(s, b)
    case FrameLoop => if s.pending > 0 then StepRect(s, b) else StepMessage(s, b)
  }

  function ServerInitLength(b: bytes): (r: Option<nat>)
    ensures r.Some? ==> 24 <= r.value <= |b|
  {
    if |b| < 24 then None
    else
      var namelen := Signed32(ReadBe32(b, 20));
      if namelen < 0 || namelen > 0x10_0000 || |b| < 24 + namelen then None else Some(24 + namelen)
  }

  function StepServerInit(s: State, b: bytes): Step<State, Act> {
    match ServerInitLength(b)
    case None => Stall
    case Some(n) =>
      var w, h := ReadBe16(b, 0), ReadBe16(b, 2);
      var sized := s.(width := w, height := h);
      if !FitsBuffer(s, w, h) then
        Halt(n, sized.(phase := Failed), [Took(Handshake, b[..n])] + [DesktopResized(w, h), Closed])
      else
        Advance(n, Negotiated(sized, w, h).(phase := FrameLoop), [Took(Handshake, b[..n])] + Configuring(sized, w, h))
  }

  /** Once the desktop is known: pin the pixel format and ask for the first picture. */
  function Configuring(s: State, w: u16, h: u16): seq<Act> {
    [DesktopResized(w, h)] + NegotiationActs(s, w, h)
    + [Wrote(SetEncodings), Wrote(KvmExt(4, if s.compression then 1 else 0)), Wrote(UpdateRequest(false, w, h))]
  }

  /** The next request, once no rect of this update is left. */
  function Follow(pending: nat, incremental: bool, w: u16, h: u16): seq<Act> {
    if pending == 0 then [Wrote(UpdateRequest(incremental, w, h))] else []
  }

  function StepRect(s: State, b: bytes): Step<State, Act>
    requires s.pending > 0
  {
    if |b| < HEADER_SIZE then Stall
    else
      var r := ParseHeader(b);
      RectStep(s, b, r, TryDecodeRect(b[HEADER_SIZE..], r, WireOf(s.format), s.inflate, s.fed))
  }

  /** What becomes of a rect with header `r` that decoded to `d`. */
  function RectStep(s: State, b: bytes, r: RectHeader, d: RectResult): Step<State, Act>
    requires s.pending > 0 && |b| >= HEADER_SIZE
  {
    match d
    case NeedMore(_) => Stall
    case Bad(_, fed) => Halt(0, s.(phase := Failed, fed := s.fed + fed), [Closed])
    case NewDesktopSize =>
      var sized := s.(width := r.w, height := r.h);
      if !FitsBuffer(s, r.w, r.h) then Halt(0, sized.(phase := Failed), [DesktopResized(r.w, r.h), Closed])
      else
        Advance(HEADER_SIZE, Negotiated(sized, r.w, r.h).(pending := s.pending - 1),
                [DesktopResized(r.w, r.h)] + NegotiationActs(sized, r.w, r.h)
                + [Took(Rect, b[..HEADER_SIZE])] + Follow(s.pending - 1, false, r.w, r.h))
    case Blank =>
      Advance(HEADER_SIZE, s.(pending := s.pending - 1),
              [Took(Rect, b[..HEADER_SIZE])] + Follow(s.pending - 1, true, s.width, s.height))
    case Painted(px, consumed, fed) =>
      Advance(HEADER_SIZE + consumed, s.(pending := s.pending - 1, fed := s.fed + fed),
              [Tile(r.x, r.y, px), Took(Rect, Prefix(b, HEADER_SIZE + consumed))]
              + Follow(s.pending - 1, true, s.width, s.height))
  }

  function Prefix(b: bytes, n: nat): bytes {
    if n <= |b| then b[..n] else b
  }

  function StepMessage(s: State, b: bytes): Step<State, Act> {
    if b == [] then Stall
    else if b[0] == 0 then
      if |b| < 4 then Stall
      else Advance(4, s.(pending := ReadBe16(b, 2)), [Took(UpdateHeader, b[..4])])
    else if b[0] == 2 then Advance(1, s, [Took(Other, b[..1]), Rang])
    else if b[0] == 3 then
      if |b| < 8 then Stall
      else
        var len := ReadBe32(b, 4) as int;
        if len > 0x10_0000 then Halt(0, s.(phase := Failed), [Closed])
        else if |b| < 8 + len then Stall
        else Advance(8 + len, s, [Took(Other, b[..8 + len])])
    else Halt(0, s.(phase := Failed), [Closed])
  }

  // ----- Stability -----

  lemma HandshakeStable(s: State, b: bytes, more: bytes)
    requires s.phase == Version || s.phase == Security || s.phase == AuthResult
    requires !KvmStep(s, b).Stall?
    ensures KvmStep(s, b + more) == KvmStep(s, b)
  {
    match s.phase
    case Version => assert (b + more)[..12] == b[..12];
    case Security => assert (b + more)[..1 + b[0] as int] == b[..1 + b[0] as int];
    case AuthResult => assert (b + more)[..4] == b[..4] && ReadBe32(b + more, 0) == ReadBe32(b, 0);
  }

  lemma ServerInitStable(s: State, b: bytes, more: bytes)
    requires !StepServerInit(s, b).Stall?
    ensures StepServerInit(s, b + more) == StepServerInit(s, b)
  {
    assert ReadBe32(b + more, 20) == ReadBe32(b, 20);
    var n := ServerInitLength(b).value;
    assert (b + more)[..n] == b[..n];
    assert ReadBe16(b + more, 0) == ReadBe16(b, 0) && ReadBe16(b + more, 2) == ReadBe16(b, 2);
  }

  lemma HeaderStable(b: bytes, more: bytes)
    requires |b| >= HEADER_SIZE
    ensures ParseHeader(b + more) == ParseHeader(b)
    ensures (b + more)[..HEADER_SIZE] == b[..HEADER_SIZE]
    ensures (b + more)[HEADER_SIZE..] == b[HEADER_SIZE..] + more
  {
  }

  lemma RectStepStable(s: State, b: bytes, more: bytes)
    requires s.pending > 0 && !StepRect(s, b).Stall?
    ensures StepRect(s, b + more) == StepRect(s, b)
    ensures StepRect(s, b).Advance? ==> 0 < StepRect(s, b).n <= |b|
  {
    HeaderStable(b, more);
    RectStable(b[HEADER_SIZE..], more, ParseHeader(b), WireOf(s.format), s.inflate, s.fed);
    var d := TryDecodeRect(b[HEADER_SIZE..], ParseHeader(b), WireOf(s.format), s.inflate, s.fed);
    if d.Painted? {
      assert Prefix(b + more, HEADER_SIZE + d.consumed) == Prefix(b, HEADER_SIZE + d.consumed);
    }
  }

  lemma MessageStable(s: State, b: bytes, more: bytes)
    requires !StepMessage(s, b).Stall?
    ensures StepMessage(s, b + more) == StepMessage(s, b)
  {
    if b[0] == 0 {
      assert (b + more)[..4] == b[..4] && ReadBe16(b + more, 2) == ReadBe16(b, 2);
    } else if b[0] == 2 {
      assert (b + more)[..1] == b[..1];
    } else if b[0] == 3 {
      assert ReadBe32(b + more, 4) == ReadBe32(b, 4);
      var len := ReadBe32(b, 4) as int;
      assert len <= 0x10_0000 ==> (b + more)[..8 + len] == b[..8 + len];
    }
  }

  lemma StableAt(s: State, b: bytes, more: bytes)
    ensures KvmStep(s, []).Stall?
    ensures KvmStep(s, b).Advance? ==> 0 < KvmStep(s, b).n <= |b|
    ensures KvmStep(s, b).Halt? ==> KvmStep(s, b).n <= |b|
    ensures !KvmStep(s, b).Stall? ==> KvmStep(s, b + more) == KvmStep(s, b)
  {
    if !KvmStep(s, b).Stall? {
      if s.phase == ServerInit {
        ServerInitStable(s, b, more);
      } else if s.phase != FrameLoop {
        HandshakeStable(s, b, more);
      } else if s.pending > 0 {
        RectStepStable(s, b, more);
      } else {
        MessageStable(s, b, more);
      }
    }
  }

  lemma KvmStepStable()
    ensures Stable(KvmStep)
  {
    forall s: State, b: bytes
      ensures KvmStep(s, []).Stall?
      ensures KvmStep(s, b).Advance? ==> 0 < KvmStep(s, b).n <= |b|
      ensures KvmStep(s, b).Halt? ==> KvmStep(s, b).n <= |b|
    {
      StableAt(s, b, []);
    }
    forall s: State, b: bytes, more: bytes | !KvmStep(s, b).Stall?
      ensures KvmStep(s, b + more) == KvmStep(s, b)
    {
      StableAt(s, b, more);
    }
  }

  lemma KvmSegmentation(o: Outcome<State, Act>, one: seq<bytes>, other: seq<bytes>)
    requires Quiescent(KvmStep, o)
    requires Flat(one) == Flat(other)
    ensures Stable(KvmStep)
    ensures FeedAll(KvmStep, o, one) == FeedAll(KvmStep, o, other)
  {
    KvmStepStable();
    SegmentationIrrelevant(KvmStep, o, one, other);
  }

  /** Nothing that arrives makes the session take another step. */
  ghost predicate Stuck(s: State, b: bytes) {
    forall more: bytes :: KvmStep(s, b + more).Stall?
  }

  /**
    * A ServerInit blocks the session for good if and only if it announces a name of negative
    * length or of over a mebibyte.
    */
  lemma OversizedServerInitIsStuck(s: State, b: bytes)
    requires s.phase == ServerInit && |b| >= 24
    ensures Stuck(s, b) <==> !(0 <= Signed32(ReadBe32(b, 20)) <= 0x10_0000)
  {
    var n := Signed32(ReadBe32(b, 20));
    forall more: bytes
      ensures ReadBe32(b + more, 20) == ReadBe32(b, 20)
    {
    }
    if 0 <= n <= 0x10_0000 {
      var name: bytes := seq(n, _ => 0);
      assert ServerInitLength(b + name) == Some(24 + n);
      assert !KvmStep(s, b + name).Stall?;
    }
  }

  // ----- What a run adds up to -----

  /** The block a rect message carries for the inflate stream, read off its octets alone. */
  function BlockIn(raw: bytes): seq<bytes> {
    if |raw| >= 16 && ReadBe32(raw, 8) == 16 && !IsMarker(raw[16..]) then [raw[16..]] else []
  }

  /**
    * An account of a trace that looks only at what it shows: the octets of its messages,
    * the compressed blocks in its rects, rects still pending in the current update,
    * updates completed, and requests written.
    */
  datatype Tally = Tally(octets: bytes, blocks: seq<bytes>, pending: nat, completed: nat, requests: nat, quiet: bool)

  function Nothing(): Tally { Tally([], [], 0, 0, 0, true) }

  function Count(t: Tally, a: Act): Tally {
    match a
    case Took(Rect, raw) =>
      t.(octets := t.octets + raw, blocks := t.blocks + BlockIn(raw),
         pending := if t.pending > 0 then t.pending - 1 else 0,
         completed := if t.pending == 1 then t.completed + 1 else t.completed)
    case Took(UpdateHeader, raw) =>
      t.(octets := t.octets + raw, pending := if |raw| >= 4 then ReadBe16(raw, 2) else 0)
    case Took(_, raw) => t.(octets := t.octets + raw)
    case Wrote(UpdateRequest(_, _, _)) => t.(requests := t.requests + 1, quiet := t.quiet && t.pending == 0)
    case _ => t
  }

  function CountAll(t: Tally, acts: seq<Act>): Tally
    decreases |acts|
  {
    if acts == [] then t else CountAll(Count(t, acts[0]), acts[1..])
  }

  lemma {:induction false} CountAppend(t: Tally, a: seq<Act>, b: seq<Act>)
    ensures CountAll(t, a + b) == CountAll(CountAll(t, a), b)
    decreases |a|
  {
    if a == [] {
      assert a + b == b;
    } else {
      assert (a + b)[1..] == a[1..] + b;
      CountAppend(Count(t, a[0]), a[1..], b);
    }
  }

  lemma CountOne(t: Tally, a: Act)
    ensures CountAll(t, [a]) == Count(t, a)
  {
  }

  lemma CountTwo(t: Tally, a: Act, b: Act)
    ensures CountAll(t, [a, b]) == Count(Count(t, a), b)
  {
    assert [a, b] == [a] + [b];
    CountAppend(t, [a], [b]);
  }

  /** Acts that are neither messages nor requests leave the account as it is. */
  predicate Silent(a: Act) {
    !a.Took? && !(a.Wrote? && a.out.UpdateRequest?)
  }

  lemma {:induction false} CountSilent(t: Tally, acts: seq<Act>)
    requires forall i :: 0 <= i < |acts| ==> Silent(acts[i])
    ensures CountAll(t, acts) == t
    decreases |acts|
  {
    if acts != [] {
      CountSilent(t, acts[1..]);
    }
  }

  predicate Agrees(s: State, t: Tally) {
    && s.fed == t.blocks
    && t.quiet
    && s.pending == t.pending
    && (s.phase == FrameLoop ==> t.requests == 1 + t.completed)
    && (s.phase != FrameLoop ==> t.requests == 0 && t.completed == 0 && t.pending == 0)
  }

  ghost predicate KvmInv(s: State, acts: seq<Act>, taken: bytes) {
    var t := CountAll(Nothing(), acts);
    t.octets == taken && Agrees(s, t)
  }

  /** One step, counted: exactly the octets it removed, and agreement is kept. */
  ghost predicate StepCounts(s: State, b: bytes, t: Tally) {
    var st := KvmStep(s, b);
    st.Advance? && Agrees(s, t) ==>
      && st.n <= |b|
      && CountAll(t, st.acts).octets == t.octets + b[..st.n]
      && Agrees(st.next, CountAll(t, st.acts))
  }

  lemma HandshakeCounts(s: State, b: bytes, t: Tally)
    requires s.phase == Version || s.phase == Security || s.phase == AuthResult
    ensures StepCounts(s, b, t)
  {
    var st := KvmStep(s, b);
    if st.Advance? {
      CountTwo(t, st.acts[0], st.acts[1]);
    }
  }

  lemma ServerInitCounts(s: State, b: bytes, t: Tally)
    requires s.phase == ServerInit
    ensures StepCounts(s, b, t)
  {
    var st := KvmStep(s, b);
    if st.Advance? {
      var w, h := ReadBe16(b, 0), ReadBe16(b, 2);
      var taken := Took(Handshake, b[..st.n]);
      var quiet := [DesktopResized(w, h)] + NegotiationActs(s.(width := w, height := h), w, h)
                   + [Wrote(SetEncodings), Wrote(KvmExt(4, if s.compression then 1 else 0))];
      var last := Wrote(UpdateRequest(false, w, h));
      assert st.acts == [taken] + quiet + [last];
      CountAround(t, taken, quiet, [last]);
      CountOne(Count(t, taken), last);
    }
  }

  /** One message, then silence, then the rest. */
  lemma CountAround(t: Tally, first: Act, quiet: seq<Act>, rest: seq<Act>)
    requires forall i :: 0 <= i < |quiet| ==> Silent(quiet[i])
    ensures CountAll(t, [first] + quiet + rest) == CountAll(Count(t, first), rest)
    ensures CountAll(t, quiet + [first] + rest) == CountAll(Count(t, first), rest)
  {
    CountAppend(t, [first] + quiet, rest);
    CountAppend(t, [first], quiet);
    CountOne(t, first);
    CountSilent(Count(t, first), quiet);
    CountAppend(t, quiet + [first], rest);
    CountAppend(t, quiet, [first]);
    CountSilent(t, quiet);
  }

  /** What a rect message does to the account, and the request it may be followed by. */
  lemma RectCounts(s: State, next: State, t: Tally, raw: bytes, incremental: bool, w: u16, h: u16)
    requires s.phase == FrameLoop && s.pending > 0 && Agrees(s, t)
    requires next.phase == FrameLoop && next.pending == s.pending - 1 && next.fed == s.fed + BlockIn(raw)
    ensures var u := CountAll(Count(t, Took(Rect, raw)), Follow(s.pending - 1, incremental, w, h));
            u.octets == t.octets + raw && Agrees(next, u)
  {
    if s.pending == 1 {
      CountOne(Count(t, Took(Rect, raw)), Wrote(UpdateRequest(incremental, w, h)));
    }
  }

  /** The blocks a decoded rect fed are the blocks in its octets. */
  lemma FedIsInRaw(s: State, b: bytes)
    requires |b| >= HEADER_SIZE
    ensures var d := TryDecodeRect(b[HEADER_SIZE..], ParseHeader(b), WireOf(s.format), s.inflate, s.fed);
            d.Painted? ==> HEADER_SIZE + d.consumed <= |b| && BlockIn(b[..HEADER_SIZE + d.consumed]) == d.fed
  {
    var r, payload := ParseHeader(b), b[HEADER_SIZE..];
    var d := TryDecodeRect(payload, r, WireOf(s.format), s.inflate, s.fed);
    if d.Painted? {
      RectPainted(payload, r, WireOf(s.format), s.inflate, s.fed);
      BlockInHeaded(b, d.consumed);
    }
  }

  /** A message's block, told from the header and what follows it. */
  lemma BlockInHeaded(b: bytes, consumed: nat)
    requires HEADER_SIZE + consumed <= |b|
    ensures var raw, payload := b[..HEADER_SIZE + consumed], b[HEADER_SIZE..];
            BlockIn(raw) == if consumed >= 4 && ReadBe32(b, 8) == 16 && !IsMarker(payload[4..consumed])
                            then [payload[4..consumed]] else []
  {
    var raw, payload := b[..HEADER_SIZE + consumed], b[HEADER_SIZE..];
    assert ReadBe32(raw, 8) == ReadBe32(b, 8);
    if consumed >= 4 {
      assert raw[16..] == payload[4..consumed];
    }
  }

  lemma RectStepCounts(s: State, b: bytes, t: Tally)
    requires s.phase == FrameLoop && s.pending > 0
    ensures StepCounts(s, b, t)
  {
    if StepRect(s, b).Advance? && Agrees(s, t) {
      FedIsInRaw(s, b);
      RectResultCounts(s, b, ParseHeader(b), TryDecodeRect(b[HEADER_SIZE..], ParseHeader(b), WireOf(s.format), s.inflate, s.fed), t);
    }
  }

  lemma RectResultCounts(s: State, b: bytes, r: RectHeader, d: RectResult, t: Tally)
    requires s.phase == FrameLoop && s.pending > 0 && Agrees(s, t) && |b| >= HEADER_SIZE
    requires d.Painted? ==> HEADER_SIZE + d.consumed <= |b| && BlockIn(b[..HEADER_SIZE + d.consumed]) == d.fed
    ensures var st := RectStep(s, b, r, d);
            st.Advance? ==>
              && st.n <= |b|
              && CountAll(t, st.acts).octets == t.octets + b[..st.n]
              && Agrees(st.next, CountAll(t, st.acts))
  {
    var st := RectStep(s, b, r, d);
    if st.Advance? {
      match d
      case NewDesktopSize =>
        var quiet := [DesktopResized(r.w, r.h)] + NegotiationActs(s.(width := r.w, height := r.h), r.w, r.h);
        RectActsCount(s, st.next, t, b[..HEADER_SIZE], quiet, false, r.w, r.h);
      case Blank =>
        RectActsCount(s, st.next, t, b[..HEADER_SIZE], [], true, s.width, s.height);
        assert [] + [Took(Rect, b[..HEADER_SIZE])] == [Took(Rect, b[..HEADER_SIZE])];
      case Painted(px, consumed, fed) =>
        var raw := b[..HEADER_SIZE + consumed];
        RectActsCount(s, st.next, t, raw, [Tile(r.x, r.y, px)], true, s.width, s.height);
        assert [Tile(r.x, r.y, px)] + [Took(Rect, raw)] == [Tile(r.x, r.y, px), Took(Rect, raw)];
    }
  }

  /** Whatever a rect shows first, then its octets, then the request if it was the last. */
  lemma RectActsCount(s: State, next: State, t: Tally, raw: bytes, quiet: seq<Act>, incremental: bool, w: u16, h: u16)
    requires s.phase == FrameLoop && s.pending > 0 && Agrees(s, t)
    requires next.phase == FrameLoop && next.pending == s.pending - 1 && next.fed == s.fed + BlockIn(raw)
    requires forall i :: 0 <= i < |quiet| ==> Silent(quiet[i])
    ensures var u := CountAll(t, quiet + [Took(Rect, raw)] + Follow(s.pending - 1, incremental, w, h));
            u.octets == t.octets + raw && Agrees(next, u)
  {
    CountAround(t, Took(Rect, raw), quiet, Follow(s.pending - 1, incremental, w, h));
    RectCounts(s, next, t, raw, incremental, w, h);
  }

  lemma MessageCounts(s: State, b: bytes, t: Tally)
    requires s.phase == FrameLoop && s.pending == 0
    ensures StepCounts(s, b, t)
  {
    var st := StepMessage(s, b);
    if st.Advance? {
      if b[0] == 2 {
        CountTwo(t, st.acts[0], Rang);
      } else {
        CountOne(t, st.acts[0]);
      }
    }
  }

  lemma KvmKept()
    ensures Keeps(KvmStep, KvmInv)
  {
    forall s: State, b: bytes, acts: seq<Act>, taken: bytes
      ensures KeepsAt(KvmStep, KvmInv, s, b, acts, taken)
    {
      KvmKeptAt(s, b, acts, taken);
    }
  }

  lemma KvmKeptAt(s: State, b: bytes, acts: seq<Act>, taken: bytes)
    ensures KeepsAt(KvmStep, KvmInv, s, b, acts, taken)
  {
    var t := CountAll(Nothing(), acts);
    var st := KvmStep(s, b);
    if st.Advance? {
      if s.phase == ServerInit {
        ServerInitCounts(s, b, t);
      } else if s.phase != FrameLoop {
        HandshakeCounts(s, b, t);
      } else if s.pending > 0 {
        RectStepCounts(s, b, t);
      } else {
        MessageCounts(s, b, t);
      }
      CountAppend(Nothing(), acts, st.acts);
    }
  }

  function Started(preferred: Option<Format>, compression: bool, inflate: Inflater): Outcome<State, Act> {
    Outcome(State(Version, 0, 0, Rgb565, 0, [], preferred, compression, inflate), [], [], false)
  }

  /**
    * The session theorem, for every stream and every way of cutting it, up to a failure:
    * the messages taken are the stream in order, each octet once; the inflate stream was
    * fed exactly the compressed blocks of the rects taken, once each and in wire order;
    * requests number one more than the updates of one or more rects that have been
    * decoded completely, and none was written while rects were pending.
    */
  lemma KvmRun(preferred: Option<Format>, compression: bool, inflate: Inflater, chunks: seq<bytes>)
    ensures Stable(KvmStep)
    ensures var o := FeedAll(KvmStep, Started(preferred, compression, inflate), chunks);
            var t := CountAll(Nothing(), o.acts);
            !o.halted ==>
              && Flat(chunks) == t.octets + o.inbox
              && o.state.fed == t.blocks
              && t.quiet
              && t.requests == (if o.state.phase == FrameLoop then 1 + t.completed else 0)
  {
    KvmStepStable();
    var o := Started(preferred, compression, inflate);
    FeedAllIsOneFeed(KvmStep, o, chunks);
    var stream := Flat(chunks);
    var d := Drain(KvmStep, o.state, stream);
    assert [] + stream == stream && [] + d.acts == d.acts;
    KvmKept();
    DrainKeeps(KvmStep, KvmInv, o.state, stream, [], []);
    assert [] + Taken(stream, d) == Taken(stream, d);
  }

  // ----- Sixteen steps at a time -----

  const MAX_STEPS: nat := 16

  /**
    * However chunk arrivals and queued wake-ups interleave: once no wake-up is queued, the
    * sixteen-step drain has done exactly what an unbounded one would have.
    */
  lemma KvmPacing(o: Outcome<State, Act>, es: seq<Event>)
    requires Quiescent(KvmStep, o)
    ensures Stable(KvmStep)
    ensures var p := PacedRun(KvmStep, Paced(o, 0), es, MAX_STEPS);
            && (p.queued == 0 ==> SameRun(p.run, Feed(KvmStep, o, Received(es))))
            && (p.queued > 0 || Quiescent(KvmStep, p.run))
  {
    KvmStepStable();
    PacingIrrelevant(KvmStep, Paced(o, 0), es, MAX_STEPS);
  }

  /**
    * The account of `KvmRun` for the session as it is paced, at every point of every run,
    * with wake-ups still queued or not.
    */
  lemma KvmPacedRun(preferred: Option<Format>, compression: bool, inflate: Inflater, es: seq<Event>)
    ensures Stable(KvmStep)
    ensures var o := PacedRun(KvmStep, Paced(Started(preferred, compression, inflate), 0), es, MAX_STEPS).run;
            var t := CountAll(Nothing(), o.acts);
            !o.halted ==>
              && Received(es) == t.octets + o.inbox
              && o.state.fed == t.blocks
              && t.quiet
              && t.requests == (if o.state.phase == FrameLoop then 1 + t.completed else 0)
  {
    KvmStepStable();
    KvmKept();
    var p := Paced(Started(preferred, compression, inflate), 0);
    assert KvmInv(p.run.state, p.run.acts, []);
    assert [] == [] + p.run.inbox;
    PacedRunKeeps(KvmStep, KvmInv, p, es, MAX_STEPS, []);
    assert [] + Received(es) == Received(es);
    var o := PacedRun(KvmStep, p, es, MAX_STEPS).run;
    if !o.halted {
      AccountRead(o, Received(es));
    }
  }

  lemma AccountRead(o: Outcome<State, Act>, received: bytes)
    requires Accounted(KvmInv, o, received) && !o.halted
    ensures var t := CountAll(Nothing(), o.acts); received == t.octets + o.inbox && Agrees(o.state, t)
  {
  }

  /** When the stream pauses, the queued wake-ups alone finish what an unbounded drain would have done. */
  lemma KvmSettles(o: Outcome<State, Act>, es: seq<Event>, n: nat)
    requires Quiescent(KvmStep, o)
    requires Stable(KvmStep)
    requires var p := PacedRun(KvmStep, Paced(o, 0), es, MAX_STEPS); p.queued + |p.run.inbox| <= n
    ensures var q := PacedRun(KvmStep, Paced(o, 0), es + Wakes(n), MAX_STEPS);
            q.queued == 0 && SameRun(q.run, Feed(KvmStep, o, Received(es)))
  {
    PacedRunSettles(KvmStep, Paced(o, 0), es, n, MAX_STEPS);
  }

  class Session {
    var phase: Phase
    var width: u16
    var height: u16
    var format: Format
    var pending: nat
    var fed: seq<bytes>
    const preferred: Option<Format>
    const compression: bool
    const inflate: Inflater
    var inbox: bytes
    var queued: nat               // drains of this session waiting in the event loop
    var log: seq<Act>

    /** A session that has just been started on an authenticated connection. */
    constructor (preferred: Option<Format>, compression: bool, inflate: Inflater)
      ensures Run() == Paced(Started(preferred, compression, inflate), 0)
    {
      this.preferred, this.compression, this.inflate := preferred, compression, inflate;
      phase, width, height, format, pending, fed := Version, 0, 0, Rgb565, 0, [];
      inbox, queued, log := [], 0, [];
    }

    ghost function View(): State
      reads this
    {
      State(phase, width, height, format, pending, fed, preferred, compression, inflate)
    }

    ghost function Run(): Paced<State, Act>
      reads this
    {
      Paced(Outcome(View(), inbox, log, phase == Failed), queued)
    }

    method OnRawBytes(chunk: bytes)
      modifies this
      ensures Stable(KvmStep)
      ensures Run() == PacedEvent(KvmStep, old(Run()), Chunk(chunk), MAX_STEPS)
    {
      KvmStepStable();
      inbox := inbox + chunk;
      DrainInbox();
    }

    /** The event loop gets round to a queued drain. */
    method OnWake()
      modifies this
      ensures Stable(KvmStep)
      ensures Run() == PacedEvent(KvmStep, old(Run()), Wake, MAX_STEPS)
    {
      KvmStepStable();
      if queued == 0 { return; }
      queued := queued - 1;
      DrainInbox();
    }

    method DrainInbox()
      modifies this
      ensures Stable(KvmStep)
      ensures Run() == PacedDrain(KvmStep, old(Run()), MAX_STEPS)
    {
      KvmStepStable();
      if phase == Failed { return; }
      FailedOnlyByHalting(View(), inbox, MAX_STEPS);
      ghost var (o, spent) := DrainUpTo(KvmStep, View(), inbox, MAX_STEPS);
      var left := TakeSteps(MAX_STEPS);
      if left == 0 && inbox != [] {
        queued := queued + 1;
      }
    }

    /** Up to `budget` steps; the result is how many of them were not needed. */
    method TakeSteps(budget: nat) returns (left: nat)
      modifies this
      ensures Stable(KvmStep)
      ensures var (o, spent) := DrainUpTo(KvmStep, old(View()), old(inbox), budget);
              && View() == o.state && inbox == o.inbox && log == old(log) + o.acts
              && (left == 0 <==> spent) && queued == old(queued)
    {
      KvmStepStable();
      ghost var drained := DrainUpTo(KvmStep, View(), inbox, budget);
      ghost var full := (After(log, drained.0), drained.1);
      left := budget;
      while left > 0
        invariant left <= budget && queued == old(queued)
        invariant OwesUpTo(KvmStep, full, View(), inbox, log, left)
      {
        var v := OwedStep(full, left);
        if v != Moved { return left; }
        left := left - 1;
      }
      assert log + [] == log;
    }

    method OwedStep(ghost full: (Outcome<State, Act>, bool), ghost left: nat) returns (v: Verdict)
      requires Stable(KvmStep) && left > 0 && OwesUpTo(KvmStep, full, View(), inbox, log, left)
      modifies this
      ensures v == Moved ==> OwesUpTo(KvmStep, full, View(), inbox, log, left - 1)
      ensures v != Moved ==> full == (Outcome(View(), inbox, log, v == Stopped), false)
      ensures queued == old(queued)
    {
      ghost var s, b, l := View(), inbox, log;
      v := StepOnce();
      OwesUpToAfterStep(KvmStep, full, left, v, s, b, l, View(), inbox, log);
    }

    method StepOnce() returns (v: Verdict)
      modifies this
      ensures Follows(KvmStep(old(View()), old(inbox)), v, old(View()), old(inbox), old(log), View(), inbox, log)
      ensures queued == old(queued)
    {
      match phase
      case Version => v := StepHandshake();
      case Security => v := StepHandshake();
      case AuthResult => v := StepHandshake();
      case ServerInit => v := StepServerInit();
      case FrameLoop => if pending > 0 { v := StepRect(); } else { v := StepMessage(); }
      case Idle => v := Waiting;
      case Failed => v := Waiting;
    }

    method Fail()
      modifies this`phase, this`log
      ensures phase == Failed && log == old(log) + [Closed]
    {
      phase := Failed;
      log := log + [Closed];
    }

    method Take(message: Message, n: nat)
      requires n <= |inbox|
      modifies this`inbox, this`log
      ensures inbox == old(inbox)[n..] && log == old(log) + [Took(message, old(inbox)[..n])]
    {
      log := log + [Took(message, inbox[..n])];
      inbox := inbox[n..];
    }

    method StepHandshake() returns (v: Verdict)
      requires phase == Version || phase == Security || phase == AuthResult
      modifies this
      ensures Follows(KvmStep(old(View()), old(inbox)), v, old(View()), old(inbox), old(log), View(), inbox, log)
      ensures queued == old(queued)
    {
      if phase == Version {
        if |inbox| < 12 { return Waiting; }
        Take(Handshake, 12);
        log := log + [Wrote(VersionReply)];
        phase := Security;
        return Moved;
      }
      if phase == Security {
        if |inbox| < 1 { return Waiting; }
        var total := 1 + inbox[0] as int;
        if |inbox| < total { return Waiting; }
        Take(Handshake, total);
        log := log + [Wrote(SecurityChoice)];
        phase := AuthResult;
        return Moved;
      }
      if |inbox| < 4 { return Waiting; }
      if ReadBe32(inbox, 0) != 0 {
        Fail();
        return Stopped;
      }
      Take(Handshake, 4);
      log := log + [Wrote(ClientInit)];
      phase := ServerInit;
      return Moved;
    }

    method NegotiatePixelFormat(w: u16, h: u16) returns (ok: bool)
      modifies this`format, this`phase, this`log
      ensures ok <==> FitsBuffer(old(View()), w, h)
      ensures ok ==> View() == Negotiated(old(View()), w, h) && log == old(log) + NegotiationActs(old(View()), w, h)
      ensures !ok ==> View() == old(View()).(phase := Failed) && log == old(log) + [Closed]
    {
      if w == 0 || h == 0 { return true; }
      var wanted := if preferred.Some? then preferred.value else ChooseFormat(w, h);
      if DisplayBuffer(wanted, w, h) > MAX_DISPLAY_BUFFER {
        Fail();
        return false;
      }
      var changed := wanted != format;
      format := wanted;
      log := log + [Wrote(SetPixelFormat(wanted))];
      if changed {
        log := log + [FormatChanged(wanted)];
      }
      return true;
    }

    method StepServerInit() returns (v: Verdict)
      requires phase == ServerInit
      modifies this
      ensures Follows(KvmStep(old(View()), old(inbox)), v, old(View()), old(inbox), old(log), View(), inbox, log)
      ensures queued == old(queued)
    {
      match ServerInitLength(inbox)
      case None => return Waiting;
      case Some(n) =>
        var w, h := ReadBe16(inbox, 0), ReadBe16(inbox, 2);
        Take(Handshake, n);
        ghost var took, sized := [Took(Handshake, old(inbox)[..n])], View().(width := w, height := h);
        v := Configure(w, h);
        Regroup(old(log), took, Configuring(sized, w, h));
        Regroup(old(log), took, [DesktopResized(w, h), Closed]);
        return;
    }

    method Configure(w: u16, h: u16) returns (v: Verdict)
      modifies this`width, this`height, this`format, this`phase, this`log
      ensures var sized := old(View()).(width := w, height := h);
              if FitsBuffer(old(View()), w, h) then
                && v == Moved && View() == Negotiated(sized, w, h).(phase := FrameLoop)
                && log == old(log) + Configuring(sized, w, h)
              else
                && v == Stopped && View() == sized.(phase := Failed)
                && log == old(log) + [DesktopResized(w, h), Closed]
    {
      width, height := w, h;
      ghost var sized := View();
      log := log + [DesktopResized(w, h)];
      var ok := NegotiatePixelFormat(w, h);
      if !ok { return Stopped; }
      log := log + [Wrote(SetEncodings), Wrote(KvmExt(4, if compression then 1 else 0)), Wrote(UpdateRequest(false, w, h))];
      phase := FrameLoop;
      return Moved;
    }

    method StepRect() returns (v: Verdict)
      requires phase == FrameLoop && pending > 0
      modifies this
      ensures Follows(KvmStep(old(View()), old(inbox)), v, old(View()), old(inbox), old(log), View(), inbox, log)
      ensures queued == old(queued)
    {
      if |inbox| < HEADER_SIZE { return Waiting; }
      var r := ParseHeader(inbox);
      var d := TryDecodeRect(inbox[HEADER_SIZE..], r, WireOf(format), inflate, fed);
      if d.NeedMore? {
        UndecidedFeedsNothing(inbox[HEADER_SIZE..], r, WireOf(format), inflate, fed);
      }
      FedIsInRaw(View(), inbox);
      v := OnRect(r, d);
    }

    method OnRect(r: RectHeader, d: RectResult) returns (v: Verdict)
      requires pending > 0 && |inbox| >= HEADER_SIZE
      requires d.NeedMore? ==> d.fed == []
      requires d.Painted? ==> HEADER_SIZE + d.consumed <= |inbox|
      modifies this
      ensures Follows(RectStep(old(View()), old(inbox), r, d), v, old(View()), old(inbox), old(log), View(), inbox, log)
      ensures queued == old(queued)
    {
      match d
      case NeedMore(blocks) =>
        fed := fed + blocks;
        return Waiting;
      case Bad(_, blocks) =>
        fed := fed + blocks;
        Fail();
        return Stopped;
      case NewDesktopSize => v := Resize(r);
      case Blank =>
        Take(Rect, HEADER_SIZE);
        RectDone(true);
        return Moved;
      case Painted(px, consumed, blocks) =>
        Paint(r, px, consumed, blocks);
        return Moved;
    }

    /** A desktop-size rect: renegotiate before anything more is asked for. */
    method Resize(r: RectHeader) returns (v: Verdict)
      requires pending > 0 && |inbox| >= HEADER_SIZE
      modifies this
      ensures queued == old(queued)
      ensures var sized := old(View()).(width := r.w, height := r.h);
              if FitsBuffer(old(View()), r.w, r.h) then
                && v == Moved && View() == Negotiated(sized, r.w, r.h).(pending := old(pending) - 1)
                && inbox == old(inbox)[HEADER_SIZE..]
                && log == old(log) + ([DesktopResized(r.w, r.h)] + NegotiationActs(sized, r.w, r.h)
                                      + [Took(Rect, old(inbox)[..HEADER_SIZE])]
                                      + Follow(old(pending) - 1, false, r.w, r.h))
              else
                && v == Stopped && View() == sized.(phase := Failed) && inbox == old(inbox)
                && log == old(log) + [DesktopResized(r.w, r.h), Closed]
    {
      width, height := r.w, r.h;
      ghost var sized := View();
      log := log + [DesktopResized(r.w, r.h)];
      var ok := NegotiatePixelFormat(r.w, r.h);
      if !ok { return Stopped; }
      ghost var agreed := [DesktopResized(r.w, r.h)] + NegotiationActs(sized, r.w, r.h);
      assert log == old(log) + agreed;
      Take(Rect, HEADER_SIZE);
      RectDone(false);
      Regroup(old(log), agreed, [Took(Rect, old(inbox)[..HEADER_SIZE])]);
      Regroup(old(log), agreed + [Took(Rect, old(inbox)[..HEADER_SIZE])], Follow(pending, false, r.w, r.h));
      return Moved;
    }

    method Paint(r: RectHeader, px: seq<Pixel>, consumed: nat, blocks: seq<bytes>)
      requires pending > 0 && HEADER_SIZE + consumed <= |inbox|
      modifies this
      ensures queued == old(queued)
      ensures View() == old(View()).(pending := old(pending) - 1, fed := old(fed) + blocks)
      ensures inbox == old(inbox)[HEADER_SIZE + consumed..]
      ensures log == old(log) + ([Tile(r.x, r.y, px), Took(Rect, old(inbox)[..HEADER_SIZE + consumed])]
                                 + Follow(old(pending) - 1, true, width, height))
    {
      log := log + [Tile(r.x, r.y, px)];
      fed := fed + blocks;
      Take(Rect, HEADER_SIZE + consumed);
      RectDone(true);
    }

    /** One rect fewer to come; the last one asks for the next update. */
    method RectDone(incremental: bool)
      requires pending > 0
      modifies this`pending, this`log
      ensures pending == old(pending) - 1
      ensures log == old(log) + Follow(pending, incremental, width, height)
    {
      pending := pending - 1;
      if pending == 0 {
        log := log + [Wrote(UpdateRequest(incremental, width, height))];
      }
    }

    method StepMessage() returns (v: Verdict)
      requires phase == FrameLoop && pending == 0
      modifies this
      ensures Follows(KvmStep(old(View()), old(inbox)), v, old(View()), old(inbox), old(log), View(), inbox, log)
      ensures queued == old(queued)
    {
      if inbox == [] { return Waiting; }
      var tag := inbox[0];
      if tag == 0 {
        if |inbox| < 4 { return Waiting; }
        pending := ReadBe16(inbox, 2);
        Take(UpdateHeader, 4);
        return Moved;
      }
      if tag == 2 {
        Take(Other, 1);
        log := log + [Rang];
        return Moved;
      }
      if tag == 3 {
        if |inbox| < 8 { return Waiting; }
        var len := ReadBe32(inbox, 4) as int;
        if len > 0x10_0000 {
          Fail();
          return Stopped;
        }
        if |inbox| < 8 + len { return Waiting; }
        Take(Other, 8 + len);
        return Moved;
      }
      Fail();
      return Stopped;
    }
  }

  /** A session that has not failed fails only by halting. */
  lemma FailedOnlyByHalting(s: State, b: bytes, k: nat)
    requires Stable(KvmStep) && s.phase != Failed
    ensures var (o, _) := DrainUpTo(KvmStep, s, b, k); o.halted <==> o.state.phase == Failed
  {
    forall t: State, c: bytes
      ensures KvmStep(t, c).Halt? ==> KvmStep(t, c).next.phase == Failed
      ensures KvmStep(t, c).Advance? && t.phase != Failed ==> KvmStep(t, c).next.phase != Failed
    {
      FailureIsAHalt(t, c);
    }
    DrainUpToHalts(KvmStep, (t: State) => t.phase == Failed, s, b, k);
  }

  lemma FailureIsAHalt(s: State, b: bytes)
    ensures KvmStep(s, b).Halt? ==> KvmStep(s, b).next.phase == Failed
    ensures KvmStep(s, b).Advance? && s.phase != Failed ==> KvmStep(s, b).next.phase != Failed
  {
  }
}
