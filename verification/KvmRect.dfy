/** Rect headers and payloads: framing, the length ceiling, and the session-long inflate stream. */
module KvmRect {

  import opened ByteCodec
  import opened KvmCodec
  import KvmTiles

  const ENC_RAW: int := 0
  const ENC_RLE: int := 16
  const ENC_DESKTOP_SIZE: int := -223

  datatype RectHeader = RectHeader(x: u16, y: u16, w: u16, h: u16, encoding: int)

  const HEADER_SIZE: nat := 12

  function ParseHeader(b: bytes): RectHeader
    requires |b| >= HEADER_SIZE
  {
    RectHeader(ReadBe16(b, 0), ReadBe16(b, 2), ReadBe16(b, 4), ReadBe16(b, 6), Signed32(ReadBe32(b, 8)))
  }

  /**
    * The inflate stream spans the session: what a block expands to depends on every block
    * fed before it. An inflater gives the expansion of the last block of such a history.
    */
  type Inflater = seq<bytes> -> Option<bytes>

  datatype Fault = UnsupportedEncoding | UnsupportedSubencoding | Malformed | BeyondPalette

  /** `fed` lists the blocks this rect put through the inflate stream: none or one. */
  datatype RectResult =
    | NeedMore(fed: seq<bytes>)
    | Painted(px: seq<Pixel>, consumed: nat, fed: seq<bytes>)
    | Blank
    | NewDesktopSize
    | Bad(why: Fault, fed: seq<bytes>)

  /** A stored block announces itself: a zero octet and its own length. */
  predicate IsMarker(block: bytes) {
    |block| >= 6 && block[0] == 0 && ReadLe16(block, 1) == (|block| - 5) % 0x1_0000
  }

  function TileResult(d: Decode, consumed: nat, fed: seq<bytes>): RectResult {
    match d
    case Pixels(px) => Painted(px, consumed, fed)
    case Rejected => Bad(UnsupportedSubencoding, fed)
    case OutOfPalette => Bad(BeyondPalette, fed)
  }

  function DecodeBlock(block: bytes, s: nat, f: Wire, inflate: Inflater, history: seq<bytes>): RectResult {
    if IsMarker(block) then TileResult(Inner(block[6..], block[5], s, f), 4 + |block|, [])
    else
      match inflate(history + [block])
      case None => Bad(Malformed, [block])
      case Some(tile) =>
        if tile == [] then Bad(Malformed, [block])
        else TileResult(Inner(tile[1..], tile[0], s, f), 4 + |block|, [block])
  }

  function DecodeRle(payload: bytes, s: nat, f: Wire, inflate: Inflater, history: seq<bytes>): RectResult {
    if |payload| < 4 then NeedMore([])
    else
      var dataLen := Signed32(ReadBe32(payload, 0));
      if dataLen < 1 || dataLen > MaxBlock(f, s) then Bad(Malformed, [])
      else if |payload| < 4 + dataLen then NeedMore([])
      else DecodeBlock(payload[4..4 + dataLen], s, f, inflate, history)
  }

  function DecodeRaw(payload: bytes, s: nat, f: Wire): RectResult {
    if |payload| < Span(f, s) then NeedMore([])
    else
      match RawFrom(f, payload, 0, s)
      case Pixels(px) => Painted(px, Span(f, s), [])
      case _ => Bad(Malformed, [])      // not reached: the length has been checked
  }

  function TryDecodeRect(payload: bytes, r: RectHeader, f: Wire, inflate: Inflater, history: seq<bytes>): RectResult {
    if r.encoding == ENC_DESKTOP_SIZE then NewDesktopSize
    else if r.w == 0 || r.h == 0 then Blank
    else if r.w > 4096 || r.h > 4096 then Bad(Malformed, [])
    else if r.encoding == ENC_RAW then DecodeRaw(payload, Area(r), f)
    else if r.encoding == ENC_RLE then DecodeRle(payload, Area(r), f, inflate, history)
    else Bad(UnsupportedEncoding, [])
  }

  function Area(r: RectHeader): nat { r.w as nat * r.h as nat }

  lemma {:induction false} RawFromStable(f: Wire, b: bytes, more: bytes, p: nat, left: nat)
    requires p <= |b| && Span(f, left) <= |b| - p
    ensures RawFrom(f, b + more, p, left) == RawFrom(f, b, p, left)
    decreases left
  {
    if left > 0 {
      assert (b + more)[p..p + Bpp(f)] == b[p..p + Bpp(f)];
      RawFromStable(f, b, more, p + Bpp(f), left - 1);
    }
  }

  /**
    * A decided rect stays decided as it is, whatever arrives behind it; and how much it
    * consumed lies within what it was decided on.
    */
  lemma RectStable(payload: bytes, more: bytes, r: RectHeader, f: Wire, inflate: Inflater, history: seq<bytes>)
    requires !TryDecodeRect(payload, r, f, inflate, history).NeedMore?
    ensures TryDecodeRect(payload + more, r, f, inflate, history) == TryDecodeRect(payload, r, f, inflate, history)
    ensures var d := TryDecodeRect(payload, r, f, inflate, history); d.Painted? ==> d.consumed <= |payload|
  {
    if r.encoding == ENC_RAW && |payload| >= Span(f, Area(r)) {
      RawFromStable(f, payload, more, 0, Area(r));
    } else if r.encoding == ENC_RLE && |payload| >= 4 {
      assert ReadBe32(payload + more, 0) == ReadBe32(payload, 0);
      var n := Signed32(ReadBe32(payload, 0));
      if 1 <= n && 4 + n <= |payload| {
        assert (payload + more)[4..4 + n] == payload[4..4 + n];
      }
    }
  }

  /** As long as a rect is undecided the inflate stream has not been touched, so nothing is fed twice. */
  lemma UndecidedFeedsNothing(payload: bytes, r: RectHeader, f: Wire, inflate: Inflater, history: seq<bytes>)
    requires TryDecodeRect(payload, r, f, inflate, history).NeedMore?
    ensures TryDecodeRect(payload, r, f, inflate, history).fed == []
  {
  }

  /** A painted block was fed to the inflate stream, whole, unless it carries the marker. */
  lemma RlePainted(payload: bytes, s: nat, f: Wire, inflate: Inflater, history: seq<bytes>)
    requires DecodeRle(payload, s, f, inflate, history).Painted?
    ensures var d := DecodeRle(payload, s, f, inflate, history);
            && 4 < d.consumed <= |payload|
            && d.fed == if IsMarker(payload[4..d.consumed]) then [] else [payload[4..d.consumed]]
  {
  }

  /** And of all rects, only such blocks are fed. */
  lemma RectPainted(payload: bytes, r: RectHeader, f: Wire, inflate: Inflater, history: seq<bytes>)
    requires TryDecodeRect(payload, r, f, inflate, history).Painted?
    ensures var d := TryDecodeRect(payload, r, f, inflate, history);
            && d.consumed <= |payload|
            && (r.encoding == ENC_RLE ==> 4 < d.consumed)
            && d.fed == if r.encoding != ENC_RLE || IsMarker(payload[4..d.consumed]) then [] else [payload[4..d.consumed]]
  {
    if r.encoding == ENC_RLE {
      RlePainted(payload, Area(r), f, inflate, history);
    }
  }

  // ----- Honest rects decode -----

  /** A tile behind the stored-block marker; the two complement octets are not looked at. */
  function MarkerBlock(tile: bytes, x: byte, y: byte): bytes {
    [0] + PackLe16(|tile| % 0x1_0000) + [x, y] + tile
  }

  lemma MarkerBlockIs(tile: bytes, x: byte, y: byte)
    requires tile != []
    ensures var b := MarkerBlock(tile, x, y);
            IsMarker(b) && |b| == 5 + |tile| && b[5] == tile[0] && b[6..] == tile[1..]
  {
    var b := MarkerBlock(tile, x, y);
    assert b == [0] + PackLe16(|tile| % 0x1_0000) + ([x, y] + tile);
    ReadAfterPack16([0], |tile| % 0x1_0000, [x, y] + tile);
    assert b[5..] == tile;
  }

  lemma AreaBound(r: RectHeader)
    requires 1 <= r.w <= 4096 && 1 <= r.h <= 4096
    ensures 1 <= Area(r) <= 0x100_0000
  {
    assert r.w as nat * r.h as nat <= 4096 * r.h as nat;
  }

  /** A block behind its length. */
  function Framed(block: bytes): bytes {
    PackBe32(|block| % 0x1_0000_0000) + block
  }

  lemma BlockRead(block: bytes, junk: bytes, s: nat, f: Wire, inflate: Inflater, history: seq<bytes>)
    requires 1 <= |block| <= MaxBlock(f, s) && |block| < 0x8000_0000
    ensures DecodeRle(Framed(block) + junk, s, f, inflate, history) == DecodeBlock(block, s, f, inflate, history)
  {
    var payload := Framed(block) + junk;
    assert payload[0..4] == PackBe32(|block|);
    FieldReads32(payload, 0, |block|);
    assert payload[4..4 + |block|] == block;
  }

  lemma CeilingFits(f: Wire, s: nat)
    requires s <= 0x100_0000
    ensures MaxBlock(f, s) < 0x8000_0000
  {
  }

  /** A tile's block, behind the marker. */
  function TileBlock(f: Wire, t: KvmTiles.Tile, s: nat, x: byte, y: byte): bytes
    requires KvmTiles.ValidTile(f, t, s)
  {
    MarkerBlock([KvmTiles.Sub(t)] + KvmTiles.Body(f, t, s), x, y)
  }

  /** Every valid tile, framed with the marker, is painted as it is and leaves the inflate stream alone. */
  lemma MarkerRectRoundTrip(r: RectHeader, f: Wire, t: KvmTiles.Tile, x: byte, y: byte, junk: bytes,
                            inflate: Inflater, history: seq<bytes>)
    requires r.encoding == ENC_RLE && 1 <= r.w <= 4096 && 1 <= r.h <= 4096
    requires KvmTiles.ValidTile(f, t, Area(r))
    ensures var block := TileBlock(f, t, Area(r), x, y);
            |block| < 0x8000_0000 &&
            TryDecodeRect(Framed(block) + junk, r, f, inflate, history)
            == Painted(KvmTiles.TilePixels(f, t, Area(r)), 4 + |block|, [])
  {
    var s := Area(r);
    AreaBound(r);
    TileBlockIs(f, t, s, x, y);
    PaintsTile(r, f, t, TileBlock(f, t, s, x, y)[6..]);
    RleRect(r, TileBlock(f, t, s, x, y), junk, f, inflate, history);
  }

  lemma TileBlockIs(f: Wire, t: KvmTiles.Tile, s: nat, x: byte, y: byte)
    requires KvmTiles.ValidTile(f, t, s) && 1 <= s <= 0x100_0000
    ensures var b := TileBlock(f, t, s, x, y);
            && IsMarker(b) && b[5] == KvmTiles.Sub(t) && b[6..] == KvmTiles.Body(f, t, s)
            && 1 <= |b| <= MaxBlock(f, s) && |b| < 0x8000_0000
  {
    var tile := [KvmTiles.Sub(t)] + KvmTiles.Body(f, t, s);
    MarkerBlockIs(tile, x, y);
    KvmTiles.HonestBlockPasses(f, t, s, KvmTiles.Marker);
    CeilingFits(f, s);
    assert tile[1..] == KvmTiles.Body(f, t, s);
  }

  lemma RleRect(r: RectHeader, block: bytes, junk: bytes, f: Wire, inflate: Inflater, history: seq<bytes>)
    requires r.encoding == ENC_RLE && 1 <= r.w <= 4096 && 1 <= r.h <= 4096
    requires 1 <= |block| <= MaxBlock(f, Area(r)) && |block| < 0x8000_0000
    ensures TryDecodeRect(Framed(block) + junk, r, f, inflate, history)
            == DecodeBlock(block, Area(r), f, inflate, history)
  {
    BlockRead(block, junk, Area(r), f, inflate, history);
  }

  lemma PaintsTile(r: RectHeader, f: Wire, t: KvmTiles.Tile, body: bytes)
    requires KvmTiles.ValidTile(f, t, Area(r)) && body == KvmTiles.Body(f, t, Area(r))
    ensures Inner(body, KvmTiles.Sub(t), Area(r), f) == Pixels(KvmTiles.TilePixels(f, t, Area(r)))
  {
    KvmTiles.DecodeInvertsEncode(f, t, Area(r), []);
    assert body + [] == body;
  }

  /** And a block the inflate stream expands to the tile is painted likewise, having been fed once. */
  lemma CompressedRectRoundTrip(r: RectHeader, f: Wire, t: KvmTiles.Tile, block: bytes, junk: bytes,
                                inflate: Inflater, history: seq<bytes>)
    requires r.encoding == ENC_RLE && 1 <= r.w <= 4096 && 1 <= r.h <= 4096
    requires KvmTiles.ValidTile(f, t, Area(r))
    requires 1 <= |block| <= MaxBlock(f, Area(r)) && !IsMarker(block)
    requires inflate(history + [block]) == Some([KvmTiles.Sub(t)] + KvmTiles.Body(f, t, Area(r)))
    ensures TryDecodeRect(Framed(block) + junk, r, f, inflate, history)
            == Painted(KvmTiles.TilePixels(f, t, Area(r)), 4 + |block|, [block])
  {
    var s := Area(r);
    var body := KvmTiles.Body(f, t, s);
    AreaBound(r);
    CeilingFits(f, s);
    assert ([KvmTiles.Sub(t)] + body)[1..] == body;
    PaintsTile(r, f, t, body);
    RleRect(r, block, junk, f, inflate, history);
  }
}
