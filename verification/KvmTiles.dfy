/**
  * A reference encoder for KVM tiles. The decoder inverts it on every tile, and every
  * block it can produce passes the length ceiling.
  */
module KvmTiles {

  import opened ByteCodec
  import opened KvmCodec

  datatype Run = Run(px: bytes, len: nat)

  /** A run of one palette entry; `counted` writes a length even where a single pixel needs none. */
  datatype PaletteRun = PaletteRun(ix: nat, len: nat, counted: bool)

  datatype Tile =
    | RawTile(px: seq<bytes>)
    | SolidTile(one: bytes)
    | PackedTile(palette: seq<bytes>, ixs: seq<nat>)
    | RunTile(runs: seq<Run>)
    | PaletteTile(palette: seq<bytes>, items: seq<PaletteRun>)

  // ----- What a tile shows -----

  function Colours(f: Wire, px: seq<bytes>): (r: seq<Pixel>)
    ensures |r| == |px|
    ensures forall i :: 0 <= i < |r| ==> r[i] == f.colour(px[i])
  {
    seq(|px|, i requires 0 <= i < |px| => f.colour(px[i]))
  }

  function RunPixels(f: Wire, runs: seq<Run>): seq<Pixel> {
    if runs == [] then [] else Fill(runs[0].len, f.colour(runs[0].px)) + RunPixels(f, runs[1..])
  }

  /** A palette entry; validity keeps indices inside the palette. */
  function Entry(palette: seq<Pixel>, ix: nat): Pixel {
    if ix < |palette| then palette[ix] else 0
  }

  function ItemPixels(palette: seq<Pixel>, items: seq<PaletteRun>): seq<Pixel> {
    if items == [] then [] else Fill(items[0].len, Entry(palette, items[0].ix)) + ItemPixels(palette, items[1..])
  }

  function IndexPixels(palette: seq<Pixel>, ixs: seq<nat>): (r: seq<Pixel>)
    ensures |r| == |ixs|
  {
    if ixs == [] then [] else [Entry(palette, ixs[0])] + IndexPixels(palette, ixs[1..])
  }

  predicate ValidRuns(f: Wire, runs: seq<Run>) {
    forall i :: 0 <= i < |runs| ==> IsWire(f, runs[i].px) && runs[i].len >= 1
  }

  predicate ValidItems(items: seq<PaletteRun>, n: nat) {
    forall i :: 0 <= i < |items| ==>
      items[i].ix < n && items[i].len >= 1 && (items[i].len > 1 ==> items[i].counted)
  }

  /** Every index names one of `n` entries. */
  predicate Below(ixs: seq<nat>, n: nat) {
    forall i :: 0 <= i < |ixs| ==> ixs[i] < n
  }

  predicate ValidTile(f: Wire, t: Tile, s: nat) {
    match t
    case RawTile(px) => |px| == s && AllWire(f, px)
    case SolidTile(px) => IsWire(f, px)
    case PackedTile(palette, ixs) =>
      && 2 <= |palette| <= 16 && AllWire(f, palette)
      && |ixs| == s && Below(ixs, |palette|)
    case RunTile(runs) => ValidRuns(f, runs) && |RunPixels(f, runs)| == s
    case PaletteTile(palette, items) =>
      && 2 <= |palette| <= 127 && AllWire(f, palette)
      && ValidItems(items, |palette|)
      && |ItemPixels(Colours(f, palette), items)| == s
  }

  predicate AllWire(f: Wire, px: seq<bytes>) {
    forall i :: 0 <= i < |px| ==> IsWire(f, px[i])
  }

  function TilePixels(f: Wire, t: Tile, s: nat): seq<Pixel>
    requires ValidTile(f, t, s)
  {
    match t
    case RawTile(px) => Colours(f, px)
    case SolidTile(px) => Fill(s, f.colour(px))
    case PackedTile(palette, ixs) => IndexPixels(Colours(f, palette), ixs)
    case RunTile(runs) => RunPixels(f, runs)
    case PaletteTile(palette, items) => ItemPixels(Colours(f, palette), items)
  }

  // ----- How a tile is written -----

  /** A length less one, in octets that add up, 255 meaning more to come. */
  function LengthOctets(n: nat): bytes {
    if n < 255 then [n] else [255] + LengthOctets(n - 255)
  }

  function RunOctet(r: Run): bytes {
    r.px + LengthOctets(if r.len == 0 then 0 else r.len - 1)
  }

  function RunOctets(runs: seq<Run>): bytes {
    if runs == [] then [] else RunOctet(runs[0]) + RunOctets(runs[1..])
  }

  function ItemOctet(item: PaletteRun): bytes {
    var ix := if item.ix < 0x80 then item.ix else 0;
    if item.counted then [0x80 + ix] + LengthOctets(if item.len == 0 then 0 else item.len - 1) else [ix]
  }

  function ItemOctets(items: seq<PaletteRun>): bytes {
    if items == [] then [] else ItemOctet(items[0]) + ItemOctets(items[1..])
  }

  /** Index `k` of a group, as a digit of `base`; 0 where the group is short. */
  function Ix(ixs: seq<nat>, k: nat, base: nat): (d: nat)
    requires base > 0
    ensures d < base
  {
    if k < |ixs| then ixs[k] % base else 0
  }

  /** Up to eight indices in one octet, the first in the highest bits. */
  function PackOctet(ixs: seq<nat>, br: nat): byte {
    if br == 1 then
      Ix(ixs, 0, 2) * 128 + Ix(ixs, 1, 2) * 64 + Ix(ixs, 2, 2) * 32 + Ix(ixs, 3, 2) * 16
      + Ix(ixs, 4, 2) * 8 + Ix(ixs, 5, 2) * 4 + Ix(ixs, 6, 2) * 2 + Ix(ixs, 7, 2)
    else if br == 2 then Ix(ixs, 0, 4) * 64 + Ix(ixs, 1, 4) * 16 + Ix(ixs, 2, 4) * 4 + Ix(ixs, 3, 4)
    else Ix(ixs, 0, 16) * 16 + Ix(ixs, 1, 16)
  }

  function PackOctets(ixs: seq<nat>, br: nat): (r: bytes)
    ensures |r| <= |ixs|
    decreases |ixs|
  {
    if ixs == [] then []
    else
      var n := Min(PerOctet(br), |ixs|);
      [PackOctet(ixs[..n], br)] + PackOctets(ixs[n..], br)
  }

  function Sub(t: Tile): byte
    requires t.PackedTile? ==> |t.palette| <= 16
    requires t.PaletteTile? ==> |t.palette| <= 127
  {
    match t
    case RawTile(_) => 0
    case SolidTile(_) => 1
    case PackedTile(palette, _) => |palette|
    case RunTile(_) => 128
    case PaletteTile(palette, _) => 128 + |palette|
  }

  function Body(f: Wire, t: Tile, s: nat): bytes
    requires ValidTile(f, t, s)
  {
    match t
    case RawTile(px) => Flat(px)
    case SolidTile(px) => px
    case PackedTile(palette, ixs) => Flat(palette) + PackOctets(ixs, PackingFor(|palette|).br)
    case RunTile(runs) => RunOctets(runs)
    case PaletteTile(palette, items) => Flat(palette) + ItemOctets(items)
  }

  // ----- The decoder inverts the encoder -----

  /** `a` at position `p` and `rest` behind it. */
  predicate Here(data: bytes, p: nat, a: bytes, rest: bytes) {
    p <= |data| && data[p..] == a + rest
  }

  lemma HereSplits(data: bytes, p: nat, a: bytes, b: bytes, rest: bytes)
    requires Here(data, p, a + b, rest)
    ensures Here(data, p, a, b + rest) && Here(data, p + |a|, b, rest)
  {
    Regroup(a, b, rest);
    assert data[p + |a|..] == data[p..][|a|..];
  }

  lemma HereIs(data: bytes, p: nat, a: bytes, rest: bytes)
    requires Here(data, p, a, rest)
    ensures p + |a| <= |data| && data[p..p + |a|] == a && (a != [] ==> data[p] == a[0])
  {
    assert data[p..p + |a|] == data[p..][..|a|];
    assert a != [] ==> data[p] == data[p..][0];
  }

  lemma {:induction false} FlatSpan(f: Wire, px: seq<bytes>)
    requires AllWire(f, px)
    ensures |Flat(px)| == Span(f, |px|)
  {
    if px != [] {
      FlatSpan(f, px[1..]);
    }
  }

  /** Raw pixels, and palettes, come back as their colours. */
  lemma {:induction false} RawInverts(f: Wire, data: bytes, p: nat, px: seq<bytes>, rest: bytes)
    requires AllWire(f, px) && Here(data, p, Flat(px), rest)
    ensures RawFrom(f, data, p, |px|) == Pixels(Colours(f, px))
    decreases |px|
  {
    if px == [] {
      assert Colours(f, px) == [];
    } else {
      HereSplits(data, p, px[0], Flat(px[1..]), rest);
      HereIs(data, p, px[0], Flat(px[1..]) + rest);
      RawInverts(f, data, p + Bpp(f), px[1..], rest);
      assert Colours(f, px) == [f.colour(px[0])] + Colours(f, px[1..]);
    }
  }

  lemma {:induction false} LengthInverts(data: bytes, p: nat, n: nat, rest: bytes, run: nat)
    requires Here(data, p, LengthOctets(n), rest)
    ensures ReadRun(data, p, run) == Some((run + n, p + |LengthOctets(n)|))
    decreases n
  {
    HereIs(data, p, LengthOctets(n), rest);
    if n >= 255 {
      HereSplits(data, p, [255], LengthOctets(n - 255), rest);
      LengthInverts(data, p + 1, n - 255, rest, run + 255);
    }
  }

  /** One run: its pixels, and then whatever follows it. */
  lemma RunHead(f: Wire, data: bytes, p: nat, r: Run, rest: bytes, left: nat)
    requires IsWire(f, r.px) && 1 <= r.len <= left
    requires Here(data, p, RunOctet(r), rest)
    ensures RunsFrom(f, data, p, left)
            == Then(Fill(r.len, f.colour(r.px)), RunsFrom(f, data, p + |RunOctet(r)|, left - r.len))
  {
    RunRead(f, data, p, r, rest);
  }

  lemma RunRead(f: Wire, data: bytes, p: nat, r: Run, rest: bytes)
    requires IsWire(f, r.px) && 1 <= r.len
    requires Here(data, p, RunOctet(r), rest)
    ensures |data| - p >= Bpp(f) && At(f, data, p) == f.colour(r.px)
    ensures ReadRun(data, p + Bpp(f), 1) == Some((r.len, p + |RunOctet(r)|))
  {
    HereSplits(data, p, r.px, LengthOctets(r.len - 1), rest);
    HereIs(data, p, r.px, LengthOctets(r.len - 1) + rest);
    LengthInverts(data, p + Bpp(f), r.len - 1, rest, 1);
  }

  lemma RunStep(f: Wire, data: bytes, p: nat, r: Run, rest: bytes, tail: seq<Pixel>, px: seq<Pixel>)
    requires IsWire(f, r.px) && 1 <= r.len
    requires Here(data, p, RunOctet(r), rest)
    requires RunsFrom(f, data, p + |RunOctet(r)|, |tail|) == Pixels(tail)
    requires px == Fill(r.len, f.colour(r.px)) + tail
    ensures RunsFrom(f, data, p, |px|) == Pixels(px)
  {
    RunHead(f, data, p, r, rest, r.len + |tail|);
  }

  lemma {:induction false} RunsInvert(f: Wire, data: bytes, p: nat, runs: seq<Run>, rest: bytes)
    requires ValidRuns(f, runs)
    requires Here(data, p, RunOctets(runs), rest)
    ensures RunsFrom(f, data, p, |RunPixels(f, runs)|) == Pixels(RunPixels(f, runs))
    decreases |runs|
  {
    if runs != [] {
      RunsCons(f, runs);
      RunsHere(data, p, runs, rest);
      RunsInvert(f, data, p + |RunOctet(runs[0])|, runs[1..], rest);
      RunsInvertStep(f, data, p, runs, RunOctets(runs[1..]) + rest);
    }
  }

  lemma RunsInvertStep(f: Wire, data: bytes, p: nat, runs: seq<Run>, behind: bytes)
    requires runs != [] && ValidRuns(f, runs) && Here(data, p, RunOctet(runs[0]), behind)
    requires p + |RunOctet(runs[0])| <= |data|
    requires var tail := RunPixels(f, runs[1..]); RunsFrom(f, data, p + |RunOctet(runs[0])|, |tail|) == Pixels(tail)
    ensures RunsFrom(f, data, p, |RunPixels(f, runs)|) == Pixels(RunPixels(f, runs))
  {
    RunsCons(f, runs);
    RunStep(f, data, p, runs[0], behind, RunPixels(f, runs[1..]), RunPixels(f, runs));
  }

  lemma RunsHere(data: bytes, p: nat, runs: seq<Run>, rest: bytes)
    requires runs != [] && Here(data, p, RunOctets(runs), rest)
    ensures var n := |RunOctet(runs[0])|;
            && Here(data, p, RunOctet(runs[0]), RunOctets(runs[1..]) + rest)
            && Here(data, p + n, RunOctets(runs[1..]), rest) && p + n <= |data|
  {
    HereSplits(data, p, RunOctet(runs[0]), RunOctets(runs[1..]), rest);
  }

  lemma RunsCons(f: Wire, runs: seq<Run>)
    requires ValidRuns(f, runs) && runs != []
    ensures ValidRuns(f, runs[1..]) && IsWire(f, runs[0].px) && 1 <= runs[0].len
    ensures RunOctets(runs) == RunOctet(runs[0]) + RunOctets(runs[1..])
    ensures RunPixels(f, runs) == Fill(runs[0].len, f.colour(runs[0].px)) + RunPixels(f, runs[1..])
  {
  }

  lemma ItemHead(palette: seq<Pixel>, data: bytes, p: nat, item: PaletteRun, rest: bytes, left: nat)
    requires |palette| <= 127
    requires item.ix < |palette| && 1 <= item.len <= left && (item.len > 1 ==> item.counted)
    requires Here(data, p, ItemOctet(item), rest)
    ensures PaletteRunsFrom(palette, data, p, left)
            == Then(Fill(item.len, Entry(palette, item.ix)), PaletteRunsFrom(palette, data, p + |ItemOctet(item)|, left - item.len))
  {
    HereIs(data, p, ItemOctet(item), rest);
    if item.counted {
      HereSplits(data, p, [0x80 + item.ix], LengthOctets(item.len - 1), rest);
      LengthInverts(data, p + 1, item.len - 1, rest, 1);
    } else {
      assert Fill(1, palette[item.ix]) == [palette[item.ix]];
    }
  }

  lemma ItemStep(palette: seq<Pixel>, data: bytes, p: nat, item: PaletteRun, rest: bytes, tail: seq<Pixel>)
    requires |palette| <= 127
    requires item.ix < |palette| && 1 <= item.len && (item.len > 1 ==> item.counted)
    requires Here(data, p, ItemOctet(item), rest)
    requires PaletteRunsFrom(palette, data, p + |ItemOctet(item)|, |tail|) == Pixels(tail)
    ensures var px := Fill(item.len, Entry(palette, item.ix)) + tail;
            PaletteRunsFrom(palette, data, p, |px|) == Pixels(px)
  {
    ItemHead(palette, data, p, item, rest, item.len + |tail|);
  }

  lemma {:induction false} ItemsInvert(palette: seq<Pixel>, data: bytes, p: nat, items: seq<PaletteRun>, rest: bytes)
    requires |palette| <= 127 && ValidItems(items, |palette|)
    requires Here(data, p, ItemOctets(items), rest)
    ensures PaletteRunsFrom(palette, data, p, |ItemPixels(palette, items)|) == Pixels(ItemPixels(palette, items))
    decreases |items|
  {
    if items != [] {
      HereSplits(data, p, ItemOctet(items[0]), ItemOctets(items[1..]), rest);
      ItemsInvert(palette, data, p + |ItemOctet(items[0])|, items[1..], rest);
      ItemStep(palette, data, p, items[0], ItemOctets(items[1..]) + rest, ItemPixels(palette, items[1..]));
    }
  }

  // ----- Packed palettes -----

  lemma FieldOfPair(a: nat, b: nat)
    requires a < 16 && b < 16
    ensures Nibble(a * 16 + b, 4) == a && Nibble(a * 16 + b, 0) == b
  {
  }

  lemma FieldOfQuad(a: nat, b: nat, c: nat, d: nat)
    requires a < 4 && b < 4 && c < 4 && d < 4
    ensures var v := a * 64 + b * 16 + c * 4 + d;
            Crumb(v, 6) == a && Crumb(v, 4) == b && Crumb(v, 2) == c && Crumb(v, 0) == d
  {
    var v := a * 64 + b * 16 + c * 4 + d;
    assert v / 64 == a;
    assert v / 16 == a * 4 + b;
    assert v / 4 == a * 16 + b * 4 + c;
  }

  /** Bit `k` of an octet, told from what is above and below it. */
  lemma BitIs(v: byte, k: nat, above: nat, bit: nat, below: nat)
    requires k < 8 && bit < 2 && below < Weight(k) && v == Up(2 * above + bit, k) + below
    ensures Bit(v, k) == bit
  {
    assert ShiftRight(v, k) == 2 * above + bit;
  }

  function Weight(k: nat): nat {
    match k
    case 0 => 1 case 1 => 2 case 2 => 4 case 3 => 8 case 4 => 16 case 5 => 32 case 6 => 64 case _ => 128
  }

  function Up(n: nat, k: nat): nat {
    match k
    case 0 => n case 1 => 2 * n case 2 => 4 * n case 3 => 8 * n
    case 4 => 16 * n case 5 => 32 * n case 6 => 64 * n case _ => 128 * n
  }

  /** Bit position of index `i` in its octet. */
  function Shift(br: nat, i: nat): int {
    if br == 1 then 7 - i else if br == 2 then 6 - 2 * i else 4 - 4 * i
  }

  lemma PairField(ixs: seq<nat>, i: nat)
    requires Below(ixs, 16) && i < |ixs| <= 2
    ensures Nibble(PackOctet(ixs, 4), 4 - 4 * i) == ixs[i]
  {
    FieldOfPair(Ix(ixs, 0, 16), Ix(ixs, 1, 16));
    assert Ix(ixs, i, 16) == ixs[i];
  }

  lemma QuadField(ixs: seq<nat>, i: nat)
    requires Below(ixs, 4) && i < |ixs| <= 4
    ensures Crumb(PackOctet(ixs, 2), 6 - 2 * i) == ixs[i]
  {
    FieldOfQuad(Ix(ixs, 0, 4), Ix(ixs, 1, 4), Ix(ixs, 2, 4), Ix(ixs, 3, 4));
    assert Ix(ixs, i, 4) == ixs[i];
  }

  lemma BitField(ixs: seq<nat>, i: nat)
    requires Below(ixs, 2) && i < |ixs| <= 8
    ensures Bit(PackOctet(ixs, 1), 7 - i) == ixs[i]
  {
    var v := PackOctet(ixs, 1);
    var a, b, c, d := Ix(ixs, 0, 2), Ix(ixs, 1, 2), Ix(ixs, 2, 2), Ix(ixs, 3, 2);
    var e, f, g, h := Ix(ixs, 4, 2), Ix(ixs, 5, 2), Ix(ixs, 6, 2), Ix(ixs, 7, 2);
    BitChosen(v, a, b, c, d, e, f, g, h, i, Ix(ixs, i, 2));
    assert Ix(ixs, i, 2) == ixs[i];
  }

  lemma BitChosen(v: byte, a: nat, b: nat, c: nat, d: nat, e: nat, f: nat, g: nat, h: nat, i: nat, bit: nat)
    requires a < 2 && b < 2 && c < 2 && d < 2 && e < 2 && f < 2 && g < 2 && h < 2 && i < 8
    requires v == a * 128 + b * 64 + c * 32 + d * 16 + e * 8 + f * 4 + g * 2 + h
    requires bit == [a, b, c, d, e, f, g, h][i]
    ensures Bit(v, 7 - i) == bit
  {
    match i
    case 0 => BitIs(v, 7, 0, a, b * 64 + c * 32 + d * 16 + e * 8 + f * 4 + g * 2 + h);
    case 1 => BitIs(v, 6, a, b, c * 32 + d * 16 + e * 8 + f * 4 + g * 2 + h);
    case 2 => BitIs(v, 5, a * 2 + b, c, d * 16 + e * 8 + f * 4 + g * 2 + h);
    case 3 => BitIs(v, 4, a * 4 + b * 2 + c, d, e * 8 + f * 4 + g * 2 + h);
    case 4 => BitIs(v, 3, a * 8 + b * 4 + c * 2 + d, e, f * 4 + g * 2 + h);
    case 5 => BitIs(v, 2, a * 16 + b * 8 + c * 4 + d * 2 + e, f, g * 2 + h);
    case 6 => BitIs(v, 1, a * 32 + b * 16 + c * 8 + d * 4 + e * 2 + f, g, h);
    case 7 => BitIs(v, 0, a * 64 + b * 32 + c * 16 + d * 8 + e * 4 + f * 2 + g, h, 0);
  }

  ghost predicate IsPacking(k: Packing) {
    k == Packing(1, Bit) || k == Packing(2, Crumb) || k == Packing(4, Nibble)
  }

  /** Values one field can take. */
  function Values(br: nat): nat {
    if br == 1 then 2 else if br == 2 then 4 else 16
  }

  /** Index `i` of an octet sits in the field its position calls for. */
  lemma FieldOfPack(ixs: seq<nat>, k: Packing, i: nat)
    requires IsPacking(k) && Below(ixs, Values(k.br))
    requires i < |ixs| <= PerOctet(k.br)
    ensures 0 <= Shift(k.br, i) && k.field(PackOctet(ixs, k.br), Shift(k.br, i)) == ixs[i]
  {
    if k.br == 4 {
      PairField(ixs, i);
    } else if k.br == 2 {
      QuadField(ixs, i);
    } else {
      BitField(ixs, i);
    }
  }

  /** `v` holds these indices from the field at `shift` downwards; if `full`, it has room for no more. */
  predicate HoldsFrom(v: byte, k: Packing, shift: int, ixs: seq<nat>, full: bool) {
    if ixs == [] then full ==> shift < 0
    else shift >= 0 && k.field(v, shift) == ixs[0] && HoldsFrom(v, k, shift - k.br, ixs[1..], full)
  }

  lemma {:induction false} PackHolds(ixs: seq<nat>, k: Packing, i: nat)
    requires IsPacking(k) && Below(ixs, Values(k.br)) && i <= |ixs| <= PerOctet(k.br)
    ensures HoldsFrom(PackOctet(ixs, k.br), k, Shift(k.br, i), ixs[i..], |ixs| == PerOctet(k.br))
    decreases |ixs| - i
  {
    if i < |ixs| {
      FieldOfPack(ixs, k, i);
      PackHolds(ixs, k, i + 1);
      assert ixs[i..][1..] == ixs[i + 1..];
      assert Shift(k.br, i) - k.br == Shift(k.br, i + 1);
    }
  }

  /** Unpacking an octet yields its indices, stopping when the octet or the tile ends. */
  lemma {:induction false} OctetInverts(palette: seq<Pixel>, v: byte, k: Packing, shift: int, ixs: seq<nat>, full: bool, left: nat)
    requires 1 <= k.br
    requires HoldsFrom(v, k, shift, ixs, full) && Below(ixs, |palette|)
    requires left == |ixs| || (left > |ixs| && full)
    ensures UnpackFrom(palette, v, k, shift, left) == Pixels(IndexPixels(palette, ixs))
    decreases |ixs|
  {
    if ixs != [] {
      OctetInverts(palette, v, k, shift - k.br, ixs[1..], full, left - 1);
    }
  }

  lemma {:induction false} IndexPixelsAppend(palette: seq<Pixel>, a: seq<nat>, b: seq<nat>)
    ensures IndexPixels(palette, a + b) == IndexPixels(palette, a) + IndexPixels(palette, b)
  {
    if a == [] {
      assert a + b == b;
    } else {
      assert (a + b)[1..] == a[1..] + b;
      IndexPixelsAppend(palette, a[1..], b);
    }
  }

  /** A whole group read from its octet. */
  lemma GroupInverts(palette: seq<Pixel>, k: Packing, ixs: seq<nat>, left: nat)
    requires IsPacking(k) && Below(ixs, Values(k.br)) && Below(ixs, |palette|)
    requires |ixs| == Min(PerOctet(k.br), left)
    ensures UnpackFrom(palette, PackOctet(ixs, k.br), k, 8 - k.br, left) == Pixels(IndexPixels(palette, ixs))
  {
    PackHolds(ixs, k, 0);
    assert ixs[0..] == ixs && Shift(k.br, 0) == 8 - k.br;
    OctetInverts(palette, PackOctet(ixs, k.br), k, 8 - k.br, ixs, |ixs| == PerOctet(k.br), left);
  }

  lemma {:induction false} PackedInverts(palette: seq<Pixel>, k: Packing, data: bytes, p: nat, ixs: seq<nat>, rest: bytes)
    requires IsPacking(k) && Below(ixs, Values(k.br)) && Below(ixs, |palette|)
    requires Here(data, p, PackOctets(ixs, k.br), rest)
    ensures PackedFrom(palette, k, data, p, |ixs|) == Pixels(IndexPixels(palette, ixs))
    decreases |ixs|
  {
    if ixs != [] {
      var n := Min(PerOctet(k.br), |ixs|);
      var now, later := ixs[..n], ixs[n..];
      HereSplits(data, p, [PackOctet(now, k.br)], PackOctets(later, k.br), rest);
      HereIs(data, p, [PackOctet(now, k.br)], PackOctets(later, k.br) + rest);
      GroupInverts(palette, k, now, |ixs|);
      PackedInverts(palette, k, data, p + 1, later, rest);
      IndexPixelsAppend(palette, now, later);
      assert now + later == ixs;
      PackedStep(palette, k, data, p, |ixs|, IndexPixels(palette, now), IndexPixels(palette, later));
    }
  }

  lemma PackedStep(palette: seq<Pixel>, k: Packing, data: bytes, p: nat, left: nat, here: seq<Pixel>, later: seq<Pixel>)
    requires 1 <= k.br <= 8 && p < |data| && left == |here| + |later| && left > 0
    requires UnpackFrom(palette, data[p], k, 8 - k.br, left) == Pixels(here)
    requires PackedFrom(palette, k, data, p + 1, |later|) == Pixels(later)
    ensures PackedFrom(palette, k, data, p, left) == Pixels(here + later)
  {
  }

  // ----- The inversion theorem -----

  lemma PaletteInverts(f: Wire, palette: seq<bytes>, rest: bytes)
    requires AllWire(f, palette)
    ensures PaletteAt(f, Flat(palette) + rest, |palette|) == Pixels(Colours(f, palette))
    ensures |Flat(palette)| == Span(f, |palette|)
  {
    FlatSpan(f, palette);
    RawInverts(f, Flat(palette) + rest, 0, palette, rest);
  }

  lemma PackedTileInverts(f: Wire, palette: seq<bytes>, ixs: seq<nat>, junk: bytes)
    requires ValidTile(f, PackedTile(palette, ixs), |ixs|)
    ensures var octets := PackOctets(ixs, PackingFor(|palette|).br);
            Inner(Flat(palette) + (octets + junk), |palette|, |ixs|, f) == Pixels(IndexPixels(Colours(f, palette), ixs))
  {
    var octets := PackOctets(ixs, PackingFor(|palette|).br);
    var data := Flat(palette) + (octets + junk);
    PaletteInverts(f, palette, octets + junk);
    PackedInverts(Colours(f, palette), PackingFor(|palette|), data, |Flat(palette)|, ixs, junk);
  }

  lemma PaletteTileInverts(f: Wire, palette: seq<bytes>, items: seq<PaletteRun>, s: nat, junk: bytes)
    requires ValidTile(f, PaletteTile(palette, items), s)
    ensures Inner(Flat(palette) + (ItemOctets(items) + junk), 128 + |palette|, s, f)
            == Pixels(ItemPixels(Colours(f, palette), items))
  {
    var data := Flat(palette) + (ItemOctets(items) + junk);
    PaletteInverts(f, palette, ItemOctets(items) + junk);
    ItemsInvert(Colours(f, palette), data, |Flat(palette)|, items, junk);
  }

  /**
    * For every valid tile of every kind, in both pixel formats, with any octets behind
    * it: the decoder accepts the encoding and yields the tile's pixels.
    */
  lemma DecodeInvertsEncode(f: Wire, t: Tile, s: nat, junk: bytes)
    requires ValidTile(f, t, s)
    ensures Inner(Body(f, t, s) + junk, Sub(t), s, f) == Pixels(TilePixels(f, t, s))
  {
    var data := Body(f, t, s) + junk;
    match t
    case RawTile(px) =>
      RawInverts(f, data, 0, px, junk);
    case SolidTile(px) =>
      assert data[0..|px|] == px;
    case PackedTile(palette, ixs) =>
      assert data == Flat(palette) + (PackOctets(ixs, PackingFor(|palette|).br) + junk);
      PackedTileInverts(f, palette, ixs, junk);
    case RunTile(runs) =>
      RunsInvert(f, data, 0, runs, junk);
    case PaletteTile(palette, items) =>
      assert data == Flat(palette) + (ItemOctets(items) + junk);
      PaletteTileInverts(f, palette, items, s, junk);
  }

  // ----- The length ceiling -----

  lemma {:induction false} LengthOctetsShort(n: nat)
    ensures |LengthOctets(n)| <= 1 + n
  {
    if n >= 255 {
      LengthOctetsShort(n - 255);
    }
  }

  lemma {:induction false} RunOctetsShort(f: Wire, runs: seq<Run>)
    requires ValidRuns(f, runs)
    ensures |RunOctets(runs)| <= Span(f, |RunPixels(f, runs)|) + |RunPixels(f, runs)|
  {
    if runs != [] {
      LengthOctetsShort(runs[0].len - 1);
      RunOctetsShort(f, runs[1..]);
    }
  }

  lemma {:induction false} ItemOctetsShort(palette: seq<Pixel>, items: seq<PaletteRun>)
    requires ValidItems(items, |palette|)
    ensures |ItemOctets(items)| <= 2 * |ItemPixels(palette, items)|
  {
    if items != [] {
      LengthOctetsShort(items[0].len - 1);
      ItemOctetsShort(palette, items[1..]);
    }
  }

  /** No tile body is longer than a palette of 127 wide entries and a pixel-and-length pair per pixel. */
  lemma BodyShort(f: Wire, t: Tile, s: nat)
    requires ValidTile(f, t, s) && s >= 1
    ensures 1 + |Body(f, t, s)| <= MaxInner(f, s)
  {
    match t
    case RawTile(px) => FlatSpan(f, px);
    case SolidTile(_) =>
    case PackedTile(palette, ixs) => FlatSpan(f, palette);
    case RunTile(runs) => RunOctetsShort(f, runs);
    case PaletteTile(palette, items) =>
      FlatSpan(f, palette);
      ItemOctetsShort(Colours(f, palette), items);
  }

  /** The two ways a tile is framed: the stored-block marker, or a zlib stream of stored blocks. */
  datatype Framing = Marker | Stored(header: bool, flush: bool)

  /** Length of a block that carries `n` octets of tile. */
  function BlockLength(n: nat, how: Framing): nat {
    match how
    case Marker => 5 + n
    case Stored(header, flush) =>
      (if header then 2 else 0) + n + 5 * (1 + n / 65535) + (if flush then 5 else 0)
  }

  /** No honest block is turned away, however badly its tile compresses. */
  lemma HonestBlockPasses(f: Wire, t: Tile, s: nat, how: Framing)
    requires ValidTile(f, t, s) && s >= 1
    ensures BlockLength(1 + |Body(f, t, s)|, how) <= MaxBlock(f, s)
  {
    BodyShort(f, t, s);
    var n, m := 1 + |Body(f, t, s)|, MaxInner(f, s);
    assert n / 65535 <= m / 65535 <= m / 1024;
    StoredOverhead(n, m);
  }

  lemma StoredOverhead(n: nat, m: nat)
    requires n <= m
    ensures n + 5 * (1 + n / 65535) + 7 <= m + m / 1024 + 1024
  {
    assert 65535 * (n / 65535) <= n;
    assert 1024 * (m / 1024) + 1024 > m;
  }
}
