/**
  * The KVM session from the host's side: what an honest server writes, octet by octet, and
  * what the session makes of it.
  */
module KvmHost {

  import opened ByteCodec
  import opened InboxDrain
  import opened KvmCodec
  import opened KvmColour
  import KvmTiles
  import opened KvmRect
  import opened KvmSession

  // ----- Rects -----

  /** A signed quantity as its 32 bits. */
  function Unsigned32(v: int): u32
    requires -0x8000_0000 <= v < 0x8000_0000
  {
    if v < 0 then v + 0x1_0000_0000 else v
  }

  function HeaderOctets(x: u16, y: u16, w: u16, h: u16, encoding: int): (r: bytes)
    requires -0x8000_0000 <= encoding < 0x8000_0000
    ensures |r| == 12
  {
    PackBe16(x) + PackBe16(y) + PackBe16(w) + PackBe16(h) + PackBe32(Unsigned32(encoding))
  }

  /** Every header is read as it was written, whatever follows it. */
  lemma HeaderReadsBack(x: u16, y: u16, w: u16, h: u16, encoding: int, rest: bytes)
    requires -0x8000_0000 <= encoding < 0x8000_0000
    ensures ParseHeader(HeaderOctets(x, y, w, h, encoding) + rest) == RectHeader(x, y, w, h, encoding)
  {
    var b := HeaderOctets(x, y, w, h, encoding) + rest;
    assert b[0..2] == PackBe16(x) && b[2..4] == PackBe16(y) && b[4..6] == PackBe16(w) && b[6..8] == PackBe16(h);
    assert b[8..12] == PackBe32(Unsigned32(encoding));
    FieldReads16(b, 0, x);
    FieldReads16(b, 2, y);
    FieldReads16(b, 4, w);
    FieldReads16(b, 6, h);
    FieldReads32(b, 8, Unsigned32(encoding));
  }

  /** A rect as a host means it: an image behind the stored-block marker, or plain pixels. */
  datatype Picture =
    | Tiled(x: u16, y: u16, w: u16, h: u16, image: Image, a: byte, b: byte)
    | Plain(x: u16, y: u16, w: u16, h: u16, px: seq<Rgb>)

  function AreaOf(p: Picture): nat { p.w as nat * p.h as nat }

  predicate Sendable(fmt: Format, p: Picture) {
    && 1 <= p.w <= 4096 && 1 <= p.h <= 4096
    && match p {
         case Tiled(_, _, _, _, image, _, _) => Valid(fmt, image, AreaOf(p))
         case Plain(_, _, _, _, px) => |px| == AreaOf(p) && AllInDepth(fmt, px)
       }
  }

  /** Its colours, row after row. */
  function ColoursOf(fmt: Format, p: Picture): seq<Rgb>
    requires Sendable(fmt, p)
  {
    match p
    case Tiled(_, _, _, _, image, _, _) => Flattened(fmt, image, AreaOf(p))
    case Plain(_, _, _, _, px) => px
  }

  function BlockOf(fmt: Format, p: Picture): bytes
    requires Sendable(fmt, p) && p.Tiled?
    requires KvmTiles.ValidTile(WireOf(fmt), Written(fmt, p.image, AreaOf(p)), AreaOf(p))
  {
    TileBlock(WireOf(fmt), Written(fmt, p.image, AreaOf(p)), AreaOf(p), p.a, p.b)
  }

  function PictureOctets(fmt: Format, p: Picture): bytes
    requires Sendable(fmt, p)
  {
    match p
    case Tiled(x, y, w, h, image, _, _) =>
      WrittenShows(fmt, image, AreaOf(p));
      HeaderOctets(x, y, w, h, 16) + Framed(BlockOf(fmt, p))
    case Plain(x, y, w, h, px) =>
      HeaderOctets(x, y, w, h, 0) + Flat(AllOnWire(fmt, px))
  }

  lemma BehindHeader(header: bytes, payload: bytes)
    requires |header| == 12
    ensures (header + payload)[12..] == payload
  {
  }

  lemma TiledDecodes(fmt: Format, p: Picture, inflate: Inflater, history: seq<bytes>)
    requires Sendable(fmt, p) && p.Tiled?
    ensures var payload := PictureOctets(fmt, p)[12..];
            TryDecodeRect(payload, RectHeader(p.x, p.y, p.w, p.h, 16), WireOf(fmt), inflate, history)
            == Painted(AllShown(fmt, ColoursOf(fmt, p)), |payload|, [])
  {
    WrittenShows(fmt, p.image, AreaOf(p));
    MarkerRectRoundTrip(RectHeader(p.x, p.y, p.w, p.h, 16), WireOf(fmt), Written(fmt, p.image, AreaOf(p)), p.a, p.b, [],
                        inflate, history);
    assert Framed(BlockOf(fmt, p)) + [] == Framed(BlockOf(fmt, p));
    BehindHeader(HeaderOctets(p.x, p.y, p.w, p.h, 16), Framed(BlockOf(fmt, p)));
  }

  lemma PlainDecodes(fmt: Format, p: Picture, inflate: Inflater, history: seq<bytes>)
    requires Sendable(fmt, p) && p.Plain?
    ensures var payload := PictureOctets(fmt, p)[12..];
            TryDecodeRect(payload, RectHeader(p.x, p.y, p.w, p.h, 0), WireOf(fmt), inflate, history)
            == Painted(AllShown(fmt, ColoursOf(fmt, p)), |payload|, [])
  {
    var px := AllOnWire(fmt, p.px);
    ColoursShown(fmt, p.px);
    KvmTiles.FlatSpan(WireOf(fmt), px);
    BehindHeader(HeaderOctets(p.x, p.y, p.w, p.h, 0), Flat(px));
    assert Flat(px) + [] == Flat(px) && Flat(px)[0..] == Flat(px);
    KvmTiles.RawInverts(WireOf(fmt), Flat(px), 0, px, []);
  }

  function Last(pending: nat, a: Act): seq<Act> {
    if pending == 1 then [a] else []
  }

  /**
    * One rect: it is painted at its own place in the host's colours, its octets are taken, and
    * if it was the last of its update an incremental request for the whole desktop follows.
    */
  lemma PictureIsPainted(s: State, p: Picture)
    requires s.phase == FrameLoop && s.pending > 0 && Sendable(s.format, p)
    ensures var octets := PictureOctets(s.format, p);
            KvmStep(s, octets) == Advance(|octets|, s.(pending := s.pending - 1),
              [Tile(p.x, p.y, AllShown(s.format, ColoursOf(s.format, p))), Took(Rect, octets)]
              + Last(s.pending, Wrote(UpdateRequest(true, s.width, s.height))))
  {
    var octets := PictureOctets(s.format, p);
    var enc := if p.Tiled? then 16 else 0;
    assert octets == HeaderOctets(p.x, p.y, p.w, p.h, enc) + octets[12..];
    HeaderReadsBack(p.x, p.y, p.w, p.h, enc, octets[12..]);
    if p.Tiled? {
      TiledDecodes(s.format, p, s.inflate, s.fed);
    } else {
      PlainDecodes(s.format, p, s.inflate, s.fed);
    }
    RectPaints(s, octets, RectHeader(p.x, p.y, p.w, p.h, enc), AllShown(s.format, ColoursOf(s.format, p)));
  }

  lemma RectPaints(s: State, octets: bytes, r: RectHeader, px: seq<Pixel>)
    requires s.phase == FrameLoop && s.pending > 0 && |octets| >= 12 && ParseHeader(octets) == r
    requires TryDecodeRect(octets[12..], r, WireOf(s.format), s.inflate, s.fed) == Painted(px, |octets| - 12, [])
    ensures KvmStep(s, octets) == Advance(|octets|, s.(pending := s.pending - 1),
              [Tile(r.x, r.y, px), Took(Rect, octets)] + Last(s.pending, Wrote(UpdateRequest(true, s.width, s.height))))
  {
    assert s.fed + [] == s.fed;
    assert octets[..|octets|] == octets;
  }

  // ----- Updates -----

  function UpdateHeaderOctets(pad: byte, n: u16): bytes {
    [0, pad] + PackBe16(n)
  }

  predicate AllSendable(fmt: Format, ps: seq<Picture>) {
    forall i :: 0 <= i < |ps| ==> Sendable(fmt, ps[i])
  }

  function PicturesOctets(fmt: Format, ps: seq<Picture>): (r: seq<bytes>)
    requires AllSendable(fmt, ps)
    ensures |r| == |ps|
  {
    if ps == [] then [] else [PictureOctets(fmt, ps[0])] + PicturesOctets(fmt, ps[1..])
  }

  /** What the viewer is shown: each picture in order at its own place. */
  function Painting(fmt: Format, ps: seq<Picture>): seq<Act>
    requires AllSendable(fmt, ps)
  {
    if ps == [] then []
    else
      [Tile(ps[0].x, ps[0].y, AllShown(fmt, ColoursOf(fmt, ps[0]))), Took(Rect, PictureOctets(fmt, ps[0]))]
      + Painting(fmt, ps[1..])
  }

  lemma {:induction false} PicturesPlay(s: State, ps: seq<Picture>)
    requires s.phase == FrameLoop && s.pending == |ps| > 0 && AllSendable(s.format, ps)
    ensures Played(KvmStep, s, PicturesOctets(s.format, ps))
            == Some((s.(pending := 0), Painting(s.format, ps) + [Wrote(UpdateRequest(true, s.width, s.height))]))
    decreases |ps|
  {
    var p, others := ps[0], ps[1..];
    var octets, next := PictureOctets(s.format, p), s.(pending := s.pending - 1);
    var request := Wrote(UpdateRequest(true, s.width, s.height));
    var shown := [Tile(p.x, p.y, AllShown(s.format, ColoursOf(s.format, p))), Took(Rect, octets)];
    PictureIsPainted(s, p);
    if others == [] {
      PlayedCons(KvmStep, s, octets, [], next, shown + [request]);
      assert (shown + [request]) + [] == (shown + []) + [request];
    } else {
      PicturesPlay(next, others);
      assert shown + [] == shown;
      PlayedCons(KvmStep, s, octets, PicturesOctets(s.format, others), next, shown);
      Regroup(shown, Painting(s.format, others), [request]);
    }
  }

  function UpdateOctets(fmt: Format, pad: byte, ps: seq<Picture>): seq<bytes>
    requires |ps| < 0x1_0000 && AllSendable(fmt, ps)
  {
    [UpdateHeaderOctets(pad, |ps|)] + PicturesOctets(fmt, ps)
  }

  lemma UpdateHeaderIsRead(s: State, pad: byte, n: u16)
    requires s.phase == FrameLoop && s.pending == 0
    ensures var octets := UpdateHeaderOctets(pad, n);
            KvmStep(s, octets) == Advance(|octets|, s.(pending := n), [Took(UpdateHeader, octets)])
  {
    var octets := UpdateHeaderOctets(pad, n);
    assert octets[2..4] == PackBe16(n) && octets[..4] == octets;
    FieldReads16(octets, 2, n);
  }

  /**
    * Whole updates: every picture an honest host sends appears at its own place, in its own
    * colours and in order, then the next update is asked for, and the session is ready for
    * whatever follows.
    */
  lemma UpdateIsPainted(s: State, pad: byte, ps: seq<Picture>, rest: bytes)
    requires s.phase == FrameLoop && s.pending == 0 && 0 < |ps| < 0x1_0000 && AllSendable(s.format, ps)
    ensures Stable(KvmStep)
    ensures Drain(KvmStep, s, Flat(UpdateOctets(s.format, pad, ps)) + rest)
            == After([Took(UpdateHeader, UpdateHeaderOctets(pad, |ps|))]
                     + (Painting(s.format, ps) + [Wrote(UpdateRequest(true, s.width, s.height))]),
                     Drain(KvmStep, s, rest))
  {
    KvmStepStable();
    var header, next := UpdateHeaderOctets(pad, |ps|), s.(pending := |ps|);
    UpdateHeaderIsRead(s, pad, |ps|);
    PicturesPlay(next, ps);
    PlayedCons(KvmStep, s, header, PicturesOctets(s.format, ps), next, [Took(UpdateHeader, header)]);
    DrainPlays(KvmStep, s, UpdateOctets(s.format, pad, ps), rest);
    assert next.(pending := 0) == s;
  }

  // ----- The length ceiling -----

  lemma CeilingInOctets(m: nat, n: nat)
    ensures n > m + m / 1024 + 1024 <==> 1024 * n > 1025 * m + 0x10_0000
  {
    var q := n - m - 1024;
    assert m == 1024 * (m / 1024) + m % 1024;
    assert q > m / 1024 <==> 1024 * q > m;
  }

  /**
    * A block that is not all there yet is waited for, unless its announced length is beyond
    * what an honest one can have: the worst of `s` pixels, a 1024th more, and a kilobyte.
    */
  lemma CeilingDecides(r: RectHeader, fmt: Format, n: u32, rest: bytes, inflate: Inflater, history: seq<bytes>)
    requires r.encoding == 16 && 1 <= r.w <= 4096 && 1 <= r.h <= 4096 && 1 <= n < 0x8000_0000 && |rest| < n
    ensures var worst := 255 + (if fmt == Rgb565 then 3 else 2) * Area(r);
            TryDecodeRect(PackBe32(n) + rest, r, WireOf(fmt), inflate, history)
            == if 1024 * n > 1025 * worst + 0x10_0000 then Bad(Malformed, []) else NeedMore([])
  {
    var payload := PackBe32(n) + rest;
    assert payload[0..4] == PackBe32(n);
    FieldReads32(payload, 0, n);
    var worst := 255 + (if fmt == Rgb565 then 3 else 2) * Area(r);
    assert MaxInner(WireOf(fmt), Area(r)) == worst;
    CeilingInOctets(worst, n);
  }

  // ----- Other messages -----

  /** The bell rings, and cut text is skipped whole. */
  lemma OtherMessages(s: State, a: byte, b: byte, c: byte, text: bytes)
    requires s.phase == FrameLoop && s.pending == 0 && |text| <= 0x10_0000
    ensures KvmStep(s, [2]) == Advance(1, s, [Took(Other, [2]), Rang])
    ensures var cut := [3, a, b, c] + PackBe32(|text|) + text; KvmStep(s, cut) == Advance(|cut|, s, [Took(Other, cut)])
  {
    var bell: bytes := [2];
    assert bell[..1] == bell;
    var cut := [3, a, b, c] + PackBe32(|text|) + text;
    assert cut[4..8] == PackBe32(|text|) && cut[..|cut|] == cut;
    FieldReads32(cut, 4, |text|);
  }

  /** A server that turns the console away is taken at its word. */
  lemma RefusalCloses(s: State, code: u32)
    requires s.phase == AuthResult && code != 0
    ensures KvmStep(s, PackBe32(code)) == Halt(0, s.(phase := Failed), [Closed])
  {
    assert PackBe32(code)[0..4] == PackBe32(code);
    FieldReads32(PackBe32(code), 0, code);
  }

  // ----- Desktop sizes -----

  /** The format for a desktop: the one preferred, else the richer one if two octets a pixel fit the firmware's buffer. */
  function FormatFor(preferred: Option<Format>, w: nat, h: nat): Format {
    match preferred
    case Some(f) => f
    case None => if 2 * (w * h) <= 9216000 then Rgb565 else Rgb332
  }

  predicate Displayable(preferred: Option<Format>, w: nat, h: nat) {
    (if FormatFor(preferred, w, h) == Rgb565 then 2 else 1) * (w * h) <= 9216000
  }

  /** The format is pinned on the wire, and announced where it changes. */
  function Pinned(s: State, w: nat, h: nat): seq<Act> {
    var f := FormatFor(s.preferred, w, h);
    [Wrote(SetPixelFormat(f))] + if f != s.format then [FormatChanged(f)] else []
  }

  lemma FormatAgrees(s: State, w: nat, h: nat)
    requires w > 0 && h > 0 && Displayable(s.preferred, w, h)
    ensures FitsBuffer(s, w, h) && Wanted(s, w, h) == FormatFor(s.preferred, w, h)
    ensures Negotiated(s, w, h) == s.(format := FormatFor(s.preferred, w, h))
    ensures NegotiationActs(s, w, h) == Pinned(s, w, h)
  {
    assert 2 * w * h == 2 * (w * h);
    assert 1 * w * h == w * h;
  }

  /**
    * A desktop-size rect: the new size is announced, the format for it pinned, and if it was
    * the last rect a full picture of that size is asked for.
    */
  lemma ResizeIsAnnounced(s: State, x: u16, y: u16, w: u16, h: u16)
    requires s.phase == FrameLoop && s.pending > 0
    requires w > 0 && h > 0 && Displayable(s.preferred, w, h)
    ensures var octets := HeaderOctets(x, y, w, h, -223);
            KvmStep(s, octets) == Advance(12,
              s.(width := w, height := h, format := FormatFor(s.preferred, w, h), pending := s.pending - 1),
              [DesktopResized(w, h)] + Pinned(s, w, h) + [Took(Rect, octets)]
              + Last(s.pending, Wrote(UpdateRequest(false, w, h))))
  {
    var octets := HeaderOctets(x, y, w, h, -223);
    HeaderReadsBack(x, y, w, h, -223, []);
    assert octets + [] == octets && octets[..12] == octets;
    FormatAgrees(s, w, h);
    FormatAgrees(s.(width := w, height := h), w, h);
  }

  // ----- The handshake -----

  function ServerInitOctets(w: u16, h: u16, pixelFormat: bytes, name: bytes): bytes
    requires |name| <= 0x10_0000
  {
    PackBe16(w) + PackBe16(h) + pixelFormat + PackBe32(|name|) + name
  }

  /** The session once it knows the desktop. */
  function Looping(s: State, w: u16, h: u16): State {
    s.(phase := FrameLoop, width := w, height := h, format := FormatFor(s.preferred, w, h))
  }

  /** What it announces and writes then. */
  function Set(s: State, w: u16, h: u16): seq<Act> {
    [DesktopResized(w, h)] + Pinned(s, w, h)
    + [Wrote(SetEncodings), Wrote(KvmExt(4, if s.compression then 1 else 0)), Wrote(UpdateRequest(false, w, h))]
  }

  lemma ServerInitIsRead(s: State, w: u16, h: u16, pixelFormat: bytes, name: bytes)
    requires s.phase == ServerInit && |pixelFormat| == 16 && |name| <= 0x10_0000
    requires w > 0 && h > 0 && Displayable(s.preferred, w, h)
    ensures var octets := ServerInitOctets(w, h, pixelFormat, name);
            KvmStep(s, octets) == Advance(|octets|, Looping(s, w, h), [Took(Handshake, octets)] + Set(s, w, h))
  {
    var octets := ServerInitOctets(w, h, pixelFormat, name);
    assert octets[0..2] == PackBe16(w) && octets[2..4] == PackBe16(h) && octets[20..24] == PackBe32(|name|);
    FieldReads16(octets, 0, w);
    FieldReads16(octets, 2, h);
    FieldReads32(octets, 20, |name|);
    assert octets[..|octets|] == octets;
    FormatAgrees(s, w, h);
    FormatAgrees(s.(width := w, height := h), w, h);
  }

  /** What an honest server sends before the first update. */
  function Greeting(version: bytes, types: bytes, w: u16, h: u16, pixelFormat: bytes, name: bytes): seq<bytes>
    requires |types| < 0x100 && |name| <= 0x10_0000
  {
    [version, [|types|] + types, [0, 0, 0, 0], ServerInitOctets(w, h, pixelFormat, name)]
  }

  /** And what the console answers, message by message. */
  function Answers(version: bytes, types: bytes, octets: bytes, preferred: Option<Format>, compression: bool, w: u16, h: u16): seq<Act>
    requires |types| < 0x100
  {
    var f := FormatFor(preferred, w, h);
    [Took(Handshake, version), Wrote(VersionReply)]
    + ([Took(Handshake, [|types|] + types), Wrote(SecurityChoice)]
       + ([Took(Handshake, [0, 0, 0, 0]), Wrote(ClientInit)]
          + ([Took(Handshake, octets)]
             + ([DesktopResized(w, h)] + ([Wrote(SetPixelFormat(f))] + if f != Rgb565 then [FormatChanged(f)] else [])
                + [Wrote(SetEncodings), Wrote(KvmExt(4, if compression then 1 else 0)), Wrote(UpdateRequest(false, w, h))]))))
  }

  /**
    * The handshake: an honest server is answered step by step, and the session arrives in the
    * frame loop with the server's size and the format for it, the first picture asked for.
    */
  lemma GreetingIsAnswered(preferred: Option<Format>, compression: bool, inflate: Inflater,
                           version: bytes, types: bytes, w: u16, h: u16, pixelFormat: bytes, name: bytes, rest: bytes)
    requires |version| == 12 && |types| < 0x100 && |pixelFormat| == 16 && |name| <= 0x10_0000
    requires w > 0 && h > 0 && Displayable(preferred, w, h)
    ensures Stable(KvmStep)
    ensures var octets := ServerInitOctets(w, h, pixelFormat, name);
            var looping := State(FrameLoop, w, h, FormatFor(preferred, w, h), 0, [], preferred, compression, inflate);
            Drain(KvmStep, Started(preferred, compression, inflate).state,
                  Flat(Greeting(version, types, w, h, pixelFormat, name)) + rest)
            == After(Answers(version, types, octets, preferred, compression, w, h), Drain(KvmStep, looping, rest))
  {
    KvmStepStable();
    var s := Started(preferred, compression, inflate).state;
    GreetingPlays(s, version, types, w, h, pixelFormat, name);
    DrainPlays(KvmStep, s, Greeting(version, types, w, h, pixelFormat, name), rest);
  }

  lemma GreetingPlays(s: State, version: bytes, types: bytes, w: u16, h: u16, pixelFormat: bytes, name: bytes)
    requires s.phase == Version && s.format == Rgb565
    requires |version| == 12 && |types| < 0x100 && |pixelFormat| == 16 && |name| <= 0x10_0000
    requires w > 0 && h > 0 && Displayable(s.preferred, w, h)
    ensures Played(KvmStep, s, Greeting(version, types, w, h, pixelFormat, name))
            == Some((Looping(s, w, h),
                     Answers(version, types, ServerInitOctets(w, h, pixelFormat, name), s.preferred, s.compression, w, h)))
  {
    var octets := ServerInitOctets(w, h, pixelFormat, name);
    InitPlays(s.(phase := ServerInit), w, h, pixelFormat, name);
    ChoicePlays(s.(phase := Security), types, octets);
    assert version[..12] == version;
    PlayedCons(KvmStep, s, version, [[|types|] + types, [0, 0, 0, 0], octets], s.(phase := Security),
               [Took(Handshake, version), Wrote(VersionReply)]);
  }

  lemma ChoicePlays(s: State, types: bytes, octets: bytes)
    requires s.phase == Security && |types| < 0x100
    requires Played(KvmStep, s.(phase := ServerInit), [octets]).Some?
    ensures var (t, done) := Played(KvmStep, s.(phase := ServerInit), [octets]).value;
            Played(KvmStep, s, [[|types|] + types, [0, 0, 0, 0], octets])
            == Some((t, [Took(Handshake, [|types|] + types), Wrote(SecurityChoice)]
                        + ([Took(Handshake, [0, 0, 0, 0]), Wrote(ClientInit)] + done)))
  {
    ResultIsRead(s.(phase := AuthResult));
    PlayedCons(KvmStep, s.(phase := AuthResult), [0, 0, 0, 0], [octets], s.(phase := ServerInit),
               [Took(Handshake, [0, 0, 0, 0]), Wrote(ClientInit)]);
    TypesAreRead(s, types);
    PlayedCons(KvmStep, s, [|types|] + types, [[0, 0, 0, 0], octets], s.(phase := AuthResult),
               [Took(Handshake, [|types|] + types), Wrote(SecurityChoice)]);
  }

  lemma InitPlays(s: State, w: u16, h: u16, pixelFormat: bytes, name: bytes)
    requires s.phase == ServerInit && |pixelFormat| == 16 && |name| <= 0x10_0000
    requires w > 0 && h > 0 && Displayable(s.preferred, w, h)
    ensures var octets := ServerInitOctets(w, h, pixelFormat, name);
            Played(KvmStep, s, [octets]) == Some((Looping(s, w, h), [Took(Handshake, octets)] + Set(s, w, h)))
  {
    var octets := ServerInitOctets(w, h, pixelFormat, name);
    ServerInitIsRead(s, w, h, pixelFormat, name);
    PlayedCons(KvmStep, s, octets, [], Looping(s, w, h), [Took(Handshake, octets)] + Set(s, w, h));
    assert ([Took(Handshake, octets)] + Set(s, w, h)) + [] == [Took(Handshake, octets)] + Set(s, w, h);
  }

  lemma TypesAreRead(s: State, types: bytes)
    requires s.phase == Security && |types| < 0x100
    ensures var choice := [|types|] + types;
            KvmStep(s, choice) == Advance(|choice|, s.(phase := AuthResult), [Took(Handshake, choice), Wrote(SecurityChoice)])
  {
    var choice := [|types|] + types;
    assert choice[..|choice|] == choice;
  }

  lemma ResultIsRead(s: State)
    requires s.phase == AuthResult
    ensures KvmStep(s, [0, 0, 0, 0]) == Advance(4, s.(phase := ServerInit), [Took(Handshake, [0, 0, 0, 0]), Wrote(ClientInit)])
  {
    var result: bytes := [0, 0, 0, 0];
    assert ReadBe32(result, 0) == 0 && result[..4] == result;
  }
}
