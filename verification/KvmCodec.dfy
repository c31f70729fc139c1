/** Rect payloads of the AMT KVM stream: an RLE and palette format close to ZRLE (section 7.7.6 of RFC 6143). */
module KvmCodec {

  import opened ByteCodec

  type Pixel = u32                    // 0xAARRGGBB

  datatype Format = Rgb565 | Rgb332

  function Rgb565ToArgb(v: u16): Pixel {
    var r := v / 0x800 % 0x20 * 8;
    var g := v / 0x20 % 0x40 * 4;
    var b := v % 0x20 * 8;
    0xFF00_0000 + r * 0x1_0000 + g * 0x100 + b
  }

  function Rgb332ToArgb(v: byte): Pixel {
    var r := v / 0x20 % 8 * 255 / 7;
    var g := v / 4 % 8 * 255 / 7;
    var b := v % 4 * 255 / 3;
    0xFF00_0000 + r * 0x1_0000 + g * 0x100 + b
  }

  /** How one pixel travels: one octet or two, and the colour they stand for. */
  datatype Wire = Wire(wide: bool, colour: bytes -> Pixel)

  function Bpp(f: Wire): (n: nat)
    ensures n == 1 || n == 2
  {
    if f.wide then 2 else 1
  }

  function Wide(w: bytes): Pixel { if |w| < 2 then 0 else Rgb565ToArgb(ReadLe16(w, 0)) }
  function Narrow(w: bytes): Pixel { if |w| < 1 then 0 else Rgb332ToArgb(w[0]) }

  /** Two octets little-endian RGB565, or one octet RGB332. */
  function WireOf(f: Format): Wire {
    if f == Rgb565 then Wire(true, Wide) else Wire(false, Narrow)
  }

  predicate IsWire(f: Wire, w: bytes) {
    |w| == Bpp(f)
  }

  /** Octets that `n` pixels take. */
  function Span(f: Wire, n: nat): nat {
    if f.wide then 2 * n else n
  }

  /** The pixel at octet `p`. */
  function At(f: Wire, data: bytes, p: nat): Pixel
    requires p + Bpp(f) <= |data|
  {
    f.colour(data[p..p + Bpp(f)])
  }

  // ----- Decoding a tile -----

  datatype Decode =
    | Pixels(px: seq<Pixel>)
    | Rejected
    | OutOfPalette        // a packed index beyond the palette, which the decoder does not guard against

  /** `px` in front of whatever the rest of a tile decodes to. */
  function Then(px: seq<Pixel>, d: Decode): Decode {
    if d.Pixels? then Pixels(px + d.px) else d
  }

  function Fill(n: nat, c: Pixel): (r: seq<Pixel>)
    ensures |r| == n
  {
    seq(n, _ => c)
  }

  /** A run length from `p` on: octets add up, and 255 means another follows. */
  function ReadRun(data: bytes, p: nat, run: nat): (r: Option<(nat, nat)>)
    requires p <= |data|
    ensures r.Some? ==> run <= r.value.0 && p < r.value.1 <= |data|
    decreases |data| - p
  {
    if p == |data| then None
    else if data[p] == 0xFF then ReadRun(data, p + 1, run + 0xFF)
    else Some((run + data[p] as int, p + 1))
  }

  /** `left` pixels, one after another. */
  function RawFrom(f: Wire, data: bytes, p: nat, left: nat): Decode
    requires p <= |data|
    decreases left
  {
    if left == 0 then Pixels([])
    else if |data| - p < Bpp(f) then Rejected
    else Then([At(f, data, p)], RawFrom(f, data, p + Bpp(f), left - 1))
  }

  /** Colour and run length, until `left` pixels are painted; the last run is clipped. */
  function RunsFrom(f: Wire, data: bytes, p: nat, left: nat): Decode
    requires p <= |data|
    decreases |data| - p
  {
    if left == 0 then Pixels([])
    else if |data| - p < Bpp(f) then Rejected
    else
      match ReadRun(data, p + Bpp(f), 1)
      case None => Rejected
      case Some((run, q)) =>
        var n := Min(run, left);
        Then(Fill(n, At(f, data, p)), RunsFrom(f, data, q, left - n))
  }

  function LowSeven(v: byte): nat {
    if v < 0x80 then v else v - 0x80
  }

  /** Palette index, with bit 7 announcing a run length. */
  function PaletteRunsFrom(palette: seq<Pixel>, data: bytes, p: nat, left: nat): Decode
    requires p <= |data|
    decreases |data| - p
  {
    if left == 0 then Pixels([])
    else if p == |data| then Rejected
    else
      var ix := LowSeven(data[p]);
      if ix >= |palette| then Rejected
      else if data[p] < 0x80 then Then([palette[ix]], PaletteRunsFrom(palette, data, p + 1, left - 1))
      else
        match ReadRun(data, p + 1, 1)
        case None => Rejected
        case Some((run, q)) =>
          var n := Min(run, left);
          Then(Fill(n, palette[ix]), PaletteRunsFrom(palette, data, q, left - n))
  }

  function ShiftRight(v: byte, shift: nat): nat {
    match shift
    case 0 => v case 1 => v / 2 case 2 => v / 4 case 3 => v / 8
    case 4 => v / 16 case 5 => v / 32 case 6 => v / 64 case 7 => v / 128
    case _ => 0
  }

  function Bit(v: byte, shift: nat): nat { ShiftRight(v, shift) % 2 }
  function Crumb(v: byte, shift: nat): nat { ShiftRight(v, shift) % 4 }
  function Nibble(v: byte, shift: nat): nat { ShiftRight(v, shift) % 16 }

  /** How indices sit in an octet: their width in bits, and `(v >> shift) & mask`. */
  datatype Packing = Packing(br: nat, field: (byte, nat) -> nat)

  function PackingFor(sub: byte): (k: Packing)
    ensures 1 <= k.br <= 4
  {
    if sub == 2 then Packing(1, Bit) else if sub <= 4 then Packing(2, Crumb) else Packing(4, Nibble)
  }

  /** Fields in one octet. */
  function PerOctet(br: nat): nat {
    if br == 1 then 8 else if br == 2 then 4 else 2
  }

  /** Pixels of one packed octet, from the field at `shift` downwards, at most `left` of them. */
  function UnpackFrom(palette: seq<Pixel>, v: byte, k: Packing, shift: int, left: nat): (d: Decode)
    requires 1 <= k.br
    ensures d.Pixels? ==> |d.px| <= left && (shift >= 0 && left > 0 ==> d.px != [])
    decreases shift + k.br
  {
    if shift < 0 || left == 0 then Pixels([])
    else
      var ix := k.field(v, shift);
      if ix >= |palette| then OutOfPalette
      else Then([palette[ix]], UnpackFrom(palette, v, k, shift - k.br, left - 1))
  }

  /** Packed indices run on across rows: no padding until the tile is full. */
  function PackedFrom(palette: seq<Pixel>, k: Packing, data: bytes, p: nat, left: nat): Decode
    requires 1 <= k.br <= 8 && p <= |data|
    decreases |data| - p
  {
    if left == 0 then Pixels([])
    else if p == |data| then Rejected
    else
      match UnpackFrom(palette, data[p], k, 8 - k.br, left)
      case Pixels(here) => Then(here, PackedFrom(palette, k, data, p + 1, left - |here|))
      case other => other
  }

  /** `n` palette entries from the head of the tile. */
  function PaletteAt(f: Wire, data: bytes, n: nat): Decode {
    RawFrom(f, data, 0, n)
  }

  /** The tile decoder: subencoding `sub`, `s` pixels, `data` behind the subencoding octet. */
  function Inner(data: bytes, sub: byte, s: nat, f: Wire): Decode {
    if sub == 0 then RawFrom(f, data, 0, s)
    else if sub == 1 then
      if |data| < Bpp(f) then Rejected else Pixels(Fill(s, At(f, data, 0)))
    else if 2 <= sub <= 16 then
      match PaletteAt(f, data, sub)
      case Pixels(palette) =>
        if |data| < Span(f, sub) then Rejected
        else PackedFrom(palette, PackingFor(sub), data, Span(f, sub), s)
      case other => other
    else if sub == 128 then RunsFrom(f, data, 0, s)
    else if sub >= 130 then
      match PaletteAt(f, data, sub - 128)
      case Pixels(palette) =>
        if |data| < Span(f, sub - 128) then Rejected
        else PaletteRunsFrom(palette, data, Span(f, sub - 128), s)
      case other => other
    else Rejected
  }

  /** The longest an inner payload of `s` pixels can honestly be. */
  function MaxInner(f: Wire, s: nat): nat {
    1 + (Span(f, s) + s) + 127 * 2
  }

  /** The ceiling on a block's announced length. */
  function MaxBlock(f: Wire, s: nat): nat {
    MaxInner(f, s) + MaxInner(f, s) / 1024 + 1024
  }

  lemma {:induction false} RawNeeds(f: Wire, data: bytes, p: nat, left: nat)
    requires p <= |data|
    ensures RawFrom(f, data, p, left).Pixels? <==> |data| - p >= Span(f, left)
    ensures RawFrom(f, data, p, left).Pixels? ==> |RawFrom(f, data, p, left).px| == left
    ensures !RawFrom(f, data, p, left).OutOfPalette?
    decreases left
  {
    if left > 0 {
      if |data| - p >= Bpp(f) {
        RawNeeds(f, data, p + Bpp(f), left - 1);
      }
    }
  }
}
