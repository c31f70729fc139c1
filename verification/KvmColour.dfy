/** Colours on the wire: what a host writes for a colour, and what the decoder shows for it. */
module KvmColour {

  import opened ByteCodec
  import opened KvmCodec
  import opened KvmTiles

  /** A colour in the depth of its format: 5, 6 and 5 bits, or 3, 3 and 2. */
  datatype Rgb = Rgb(r: nat, g: nat, b: nat)

  predicate InDepth(fmt: Format, c: Rgb) {
    match fmt
    case Rgb565 => c.r < 32 && c.g < 64 && c.b < 32
    case Rgb332 => c.r < 8 && c.g < 8 && c.b < 4
  }

  /** The octets a host sends for a colour. */
  function OnWire(fmt: Format, c: Rgb): bytes
    requires InDepth(fmt, c)
  {
    match fmt
    case Rgb565 => PackLe16(c.r * 0x800 + c.g * 0x20 + c.b)
    case Rgb332 => [c.r * 32 + c.g * 4 + c.b]
  }

  /** An opaque pixel of the given channels, 0 to 255 each. */
  function Opaque(r: byte, g: byte, b: byte): Pixel {
    0xFF00_0000 + r as int * 0x1_0000 + g as int * 0x100 + b
  }

  /** What it looks like: five or six bits shifted up, three or two bits scaled to the full range. */
  function Shown(fmt: Format, c: Rgb): Pixel {
    if !InDepth(fmt, c) then 0
    else
      match fmt
      case Rgb565 => Opaque(8 * c.r, 4 * c.g, 8 * c.b)
      case Rgb332 => Opaque(255 * c.r / 7, 255 * c.g / 7, 255 * c.b / 3)
  }

  lemma FieldsOf565(r: nat, g: nat, b: nat)
    requires r < 32 && g < 64 && b < 32
    ensures var v := r * 0x800 + g * 0x20 + b; v < 0x1_0000 && v / 0x800 % 0x20 == r && v / 0x20 % 0x40 == g && v % 0x20 == b
  {
    var v := r * 0x800 + g * 0x20 + b;
    assert v / 0x20 == r * 0x40 + g;
    assert v / 0x800 == r;
  }

  lemma FieldsOf332(r: nat, g: nat, b: nat)
    requires r < 8 && g < 8 && b < 4
    ensures var v := r * 32 + g * 4 + b; v < 0x100 && v / 0x20 % 8 == r && v / 4 % 8 == g && v % 4 == b
  {
    var v := r * 32 + g * 4 + b;
    assert v / 4 == r * 8 + g;
    assert v / 32 == r;
  }

  lemma WideShows(v: u16, r: nat, g: nat, b: nat)
    requires r < 32 && g < 64 && b < 32
    requires v / 0x800 % 0x20 == r && v / 0x20 % 0x40 == g && v % 0x20 == b
    ensures Wide(PackLe16(v)) == Opaque(8 * r, 4 * g, 8 * b)
  {
    ReadAfterPack16([], v, []);
    assert [] + PackLe16(v) + [] == PackLe16(v);
  }

  lemma NarrowShows(v: byte, r: nat, g: nat, b: nat)
    requires r < 8 && g < 8 && b < 4 && v / 0x20 % 8 == r && v / 4 % 8 == g && v % 4 == b
    ensures Narrow([v]) == Opaque(255 * r / 7, 255 * g / 7, 255 * b / 3)
  {
  }

  lemma ShowsWide(c: Rgb)
    requires InDepth(Rgb565, c)
    ensures |OnWire(Rgb565, c)| == 2 && Wide(OnWire(Rgb565, c)) == Shown(Rgb565, c)
  {
    FieldsOf565(c.r, c.g, c.b);
    WideShows(c.r * 0x800 + c.g * 0x20 + c.b, c.r, c.g, c.b);
  }

  lemma ShowsNarrow(c: Rgb)
    requires InDepth(Rgb332, c)
    ensures |OnWire(Rgb332, c)| == 1 && Narrow(OnWire(Rgb332, c)) == Shown(Rgb332, c)
  {
    FieldsOf332(c.r, c.g, c.b);
    NarrowShows(c.r * 32 + c.g * 4 + c.b, c.r, c.g, c.b);
  }

  /** In both formats the decoder shows a colour as what it is. */
  lemma WireShows(fmt: Format, c: Rgb)
    requires InDepth(fmt, c)
    ensures IsWire(WireOf(fmt), OnWire(fmt, c)) && WireOf(fmt).colour(OnWire(fmt, c)) == Shown(fmt, c)
  {
    match fmt
    case Rgb565 => ShowsWide(c);
    case Rgb332 => ShowsNarrow(c);
  }

  // ----- Tiles of colours -----

  datatype Stretch = Stretch(c: Rgb, len: nat)

  /** A tile as a host means it. */
  datatype Image =
    | Raw(px: seq<Rgb>)
    | Solid(c: Rgb)
    | Packed(palette: seq<Rgb>, ixs: seq<nat>)
    | Stretches(runs: seq<Stretch>)
    | Paletted(palette: seq<Rgb>, items: seq<PaletteRun>)

  predicate AllInDepth(fmt: Format, cs: seq<Rgb>) {
    forall i :: 0 <= i < |cs| ==> InDepth(fmt, cs[i])
  }

  function Expand(runs: seq<Stretch>): seq<Rgb> {
    if runs == [] then [] else seq(runs[0].len, _ => runs[0].c) + Expand(runs[1..])
  }

  function ExpandItems(palette: seq<Rgb>, items: seq<PaletteRun>): seq<Rgb>
    requires forall i :: 0 <= i < |items| ==> items[i].ix < |palette|
  {
    if items == [] then []
    else seq(items[0].len, _ => palette[items[0].ix]) + ExpandItems(palette, items[1..])
  }

  function Look(palette: seq<Rgb>, ixs: seq<nat>): seq<Rgb>
    requires Below(ixs, |palette|)
  {
    seq(|ixs|, i requires 0 <= i < |ixs| => palette[ixs[i]])
  }

  predicate Valid(fmt: Format, m: Image, s: nat) {
    match m
    case Raw(px) => |px| == s && AllInDepth(fmt, px)
    case Solid(c) => InDepth(fmt, c)
    case Packed(palette, ixs) => 2 <= |palette| <= 16 && AllInDepth(fmt, palette) && |ixs| == s && Below(ixs, |palette|)
    case Stretches(runs) =>
      (forall i :: 0 <= i < |runs| ==> InDepth(fmt, runs[i].c) && runs[i].len >= 1) && |Expand(runs)| == s
    case Paletted(palette, items) =>
      && 2 <= |palette| <= 127 && AllInDepth(fmt, palette)
      && ValidItems(items, |palette|) && |ExpandItems(palette, items)| == s
  }

  /** The colours of its `s` pixels, row after row. */
  function Flattened(fmt: Format, m: Image, s: nat): seq<Rgb>
    requires Valid(fmt, m, s)
  {
    match m
    case Raw(px) => px
    case Solid(c) => seq(s, _ => c)
    case Packed(palette, ixs) => Look(palette, ixs)
    case Stretches(runs) => Expand(runs)
    case Paletted(palette, items) => ExpandItems(palette, items)
  }

  function AllShown(fmt: Format, cs: seq<Rgb>): (r: seq<Pixel>)
    ensures |r| == |cs| && forall i :: 0 <= i < |r| ==> r[i] == Shown(fmt, cs[i])
  {
    seq(|cs|, i requires 0 <= i < |cs| => Shown(fmt, cs[i]))
  }

  // ----- As the encoder takes them -----

  function AllOnWire(fmt: Format, cs: seq<Rgb>): (r: seq<bytes>)
    requires AllInDepth(fmt, cs)
    ensures |r| == |cs| && forall i :: 0 <= i < |r| ==> r[i] == OnWire(fmt, cs[i])
  {
    seq(|cs|, i requires 0 <= i < |cs| => OnWire(fmt, cs[i]))
  }

  function RunsOnWire(fmt: Format, runs: seq<Stretch>): (r: seq<Run>)
    requires forall i :: 0 <= i < |runs| ==> InDepth(fmt, runs[i].c)
    ensures |r| == |runs| && forall i :: 0 <= i < |r| ==> r[i] == Run(OnWire(fmt, runs[i].c), runs[i].len)
  {
    seq(|runs|, i requires 0 <= i < |runs| => Run(OnWire(fmt, runs[i].c), runs[i].len))
  }

  function Written(fmt: Format, m: Image, s: nat): Tile
    requires Valid(fmt, m, s)
  {
    match m
    case Raw(px) => RawTile(AllOnWire(fmt, px))
    case Solid(c) => SolidTile(OnWire(fmt, c))
    case Packed(palette, ixs) => PackedTile(AllOnWire(fmt, palette), ixs)
    case Stretches(runs) => RunTile(RunsOnWire(fmt, runs))
    case Paletted(palette, items) => PaletteTile(AllOnWire(fmt, palette), items)
  }

  lemma ColoursShown(fmt: Format, cs: seq<Rgb>)
    requires AllInDepth(fmt, cs)
    ensures AllWire(WireOf(fmt), AllOnWire(fmt, cs))
    ensures Colours(WireOf(fmt), AllOnWire(fmt, cs)) == AllShown(fmt, cs)
  {
    forall i | 0 <= i < |cs|
      ensures IsWire(WireOf(fmt), OnWire(fmt, cs[i])) && WireOf(fmt).colour(OnWire(fmt, cs[i])) == Shown(fmt, cs[i])
    {
      WireShows(fmt, cs[i]);
    }
  }

  lemma ShownAppend(fmt: Format, a: seq<Rgb>, b: seq<Rgb>)
    ensures AllShown(fmt, a + b) == AllShown(fmt, a) + AllShown(fmt, b)
  {
  }

  lemma ShownFill(fmt: Format, n: nat, c: Rgb, p: Pixel)
    requires p == Shown(fmt, c)
    ensures AllShown(fmt, seq(n, _ => c)) == Fill(n, p)
  {
  }

  lemma {:induction false} RunsShown(fmt: Format, runs: seq<Stretch>)
    requires forall i :: 0 <= i < |runs| ==> InDepth(fmt, runs[i].c) && runs[i].len >= 1
    ensures ValidRuns(WireOf(fmt), RunsOnWire(fmt, runs))
    ensures RunPixels(WireOf(fmt), RunsOnWire(fmt, runs)) == AllShown(fmt, Expand(runs))
    decreases |runs|
  {
    forall i | 0 <= i < |runs| ensures IsWire(WireOf(fmt), OnWire(fmt, runs[i].c)) {
      WireShows(fmt, runs[i].c);
    }
    if runs != [] {
      var first, others := runs[0], runs[1..];
      RunsShown(fmt, others);
      assert RunsOnWire(fmt, runs)[1..] == RunsOnWire(fmt, others);
      WireShows(fmt, first.c);
      ShownFill(fmt, first.len, first.c, WireOf(fmt).colour(OnWire(fmt, first.c)));
      ShownAppend(fmt, seq(first.len, _ => first.c), Expand(others));
    }
  }

  lemma {:induction false} ItemsShown(fmt: Format, palette: seq<Rgb>, items: seq<PaletteRun>, px: seq<Pixel>)
    requires ValidItems(items, |palette|) && px == AllShown(fmt, palette)
    ensures ItemPixels(px, items) == AllShown(fmt, ExpandItems(palette, items))
    decreases |items|
  {
    if items != [] {
      var first, others := items[0], items[1..];
      ItemsShown(fmt, palette, others, px);
      ShownFill(fmt, first.len, palette[first.ix], px[first.ix]);
      ShownAppend(fmt, seq(first.len, _ => palette[first.ix]), ExpandItems(palette, others));
    }
  }

  lemma {:induction false} IndicesShown(fmt: Format, palette: seq<Rgb>, ixs: seq<nat>, px: seq<Pixel>)
    requires Below(ixs, |palette|) && px == AllShown(fmt, palette)
    ensures IndexPixels(px, ixs) == AllShown(fmt, Look(palette, ixs))
    decreases |ixs|
  {
    if ixs != [] {
      IndicesShown(fmt, palette, ixs[1..], px);
      assert Look(palette, ixs) == [palette[ixs[0]]] + Look(palette, ixs[1..]);
      ShownAppend(fmt, [palette[ixs[0]]], Look(palette, ixs[1..]));
    }
  }

  /** Written for the wire, an image is a valid tile that shows its own colours. */
  lemma WrittenShows(fmt: Format, m: Image, s: nat)
    requires Valid(fmt, m, s)
    ensures ValidTile(WireOf(fmt), Written(fmt, m, s), s)
    ensures TilePixels(WireOf(fmt), Written(fmt, m, s), s) == AllShown(fmt, Flattened(fmt, m, s))
  {
    match m
    case Raw(px) => ColoursShown(fmt, px);
    case Solid(c) =>
      WireShows(fmt, c);
      ShownFill(fmt, s, c, WireOf(fmt).colour(OnWire(fmt, c)));
    case Packed(palette, ixs) =>
      ColoursShown(fmt, palette);
      IndicesShown(fmt, palette, ixs, Colours(WireOf(fmt), AllOnWire(fmt, palette)));
    case Stretches(runs) => RunsShown(fmt, runs);
    case Paletted(palette, items) =>
      ColoursShown(fmt, palette);
      ItemsShown(fmt, palette, items, Colours(WireOf(fmt), AllOnWire(fmt, palette)));
  }

  /**
    * The tile theorem in colours: for every image, in every way of writing it and both pixel
    * formats, what the decoder paints are the colours the host meant, pixel by pixel.
    */
  lemma DecodeShowsTheImage(fmt: Format, m: Image, s: nat, junk: bytes)
    requires Valid(fmt, m, s)
    ensures ValidTile(WireOf(fmt), Written(fmt, m, s), s)
    ensures var t := Written(fmt, m, s);
            Inner(Body(WireOf(fmt), t, s) + junk, Sub(t), s, WireOf(fmt)) == Pixels(AllShown(fmt, Flattened(fmt, m, s)))
  {
    WrittenShows(fmt, m, s);
    DecodeInvertsEncode(WireOf(fmt), Written(fmt, m, s), s, junk);
  }
}
