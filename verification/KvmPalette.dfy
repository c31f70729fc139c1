/** Packed palettes: which tiles make the decoder look up an index that the palette does not have. */
module KvmPalette {

  import opened ByteCodec
  import opened KvmCodec

  /** Bits that `m` fields take. */
  function Bits(br: nat, m: nat): nat {
    if br == 1 then m else if br == 2 then 2 * m else 4 * m
  }

  predicate Packs(k: Packing) {
    k.br == 1 || k.br == 2 || k.br == 4
  }

  /** Whether the octet that holds field `i` is there. */
  predicate Present(k: Packing, data: bytes, p: nat, i: nat) {
    p + i / PerOctet(k.br) < |data|
  }

  /** Field `i` of the octets from `p` on, the first in the high bits. */
  function IndexAt(k: Packing, data: bytes, p: nat, i: nat): nat
    requires Packs(k) && Present(k, data, p, i)
  {
    k.field(data[p + i / PerOctet(k.br)], 8 - k.br - Bits(k.br, i % PerOctet(k.br)))
  }

  /** One of the first `left` fields from `p` on is there and is no index into a palette of `n`. */
  ghost predicate Stray(k: Packing, data: bytes, p: nat, left: nat, n: nat)
    requires Packs(k)
  {
    exists i :: 0 <= i < left && Present(k, data, p, i) && IndexAt(k, data, p, i) >= n
  }

  // ----- One octet -----

  /** The same for the fields of one octet from `shift` downwards. */
  ghost predicate StrayFrom(k: Packing, v: byte, shift: int, left: nat, n: nat) {
    exists m :: 0 <= m < left && StrayAt(k, v, shift, n, m)
  }

  /** Field `m` from `shift` downwards is there and is no index into a palette of `n`. */
  predicate StrayAt(k: Packing, v: byte, shift: int, n: nat, m: nat) {
    Bits(k.br, m) <= shift && k.field(v, shift - Bits(k.br, m)) >= n
  }

  lemma StrayNext(k: Packing, v: byte, shift: nat, n: nat, m: nat)
    requires Packs(k)
    ensures StrayAt(k, v, shift, n, 0) <==> k.field(v, shift) >= n
    ensures StrayAt(k, v, shift, n, m + 1) <==> StrayAt(k, v, shift - k.br, n, m)
  {
    assert Bits(k.br, m + 1) == Bits(k.br, m) + k.br;
    assert shift - Bits(k.br, m + 1) == shift - k.br - Bits(k.br, m);
  }

  lemma StrayHead(k: Packing, v: byte, shift: nat, left: nat, n: nat)
    requires Packs(k) && left > 0
    ensures StrayFrom(k, v, shift, left, n) <==> k.field(v, shift) >= n || StrayFrom(k, v, shift - k.br, left - 1, n)
  {
    StrayNext(k, v, shift, n, 0);
    if m :| 0 <= m < left && StrayAt(k, v, shift, n, m) {
      if m > 0 {
        StrayNext(k, v, shift, n, m - 1);
        assert StrayAt(k, v, shift - k.br, n, m - 1);
      }
    }
    var low := shift - k.br;
    if m :| 0 <= m < left - 1 && StrayAt(k, v, low, n, m) {
      StrayNext(k, v, shift, n, m);
      assert StrayAt(k, v, shift, n, m + 1);
    }
  }

  lemma {:induction false} UnpackStray(palette: seq<Pixel>, v: byte, k: Packing, shift: int, left: nat)
    requires Packs(k)
    ensures UnpackFrom(palette, v, k, shift, left).OutOfPalette? <==> StrayFrom(k, v, shift, left, |palette|)
    ensures !UnpackFrom(palette, v, k, shift, left).Rejected?
    decreases shift + k.br
  {
    if shift >= 0 && left > 0 {
      StrayHead(k, v, shift, left, |palette|);
      UnpackStray(palette, v, k, shift - k.br, left - 1);
    }
  }

  /** An octet without stray fields yields them all, or as many as are wanted. */
  lemma {:induction false} UnpackCount(palette: seq<Pixel>, v: byte, k: Packing, m: nat, left: nat)
    requires Packs(k) && m <= PerOctet(k.br)
    requires UnpackFrom(palette, v, k, Bits(k.br, m) - k.br, left).Pixels?
    ensures |UnpackFrom(palette, v, k, Bits(k.br, m) - k.br, left).px| == Min(m, left)
    decreases m
  {
    if m > 0 && left > 0 {
      assert Bits(k.br, m) - k.br - k.br == Bits(k.br, m - 1) - k.br;
      UnpackCount(palette, v, k, m - 1, left - 1);
    }
  }

  // ----- All octets -----

  lemma NextOctet(per: nat, i: nat)
    requires (per == 2 || per == 4 || per == 8) && i >= per
    ensures (i - per) / per == i / per - 1 && (i - per) % per == i % per
  {
  }

  lemma FirstOctet(per: nat, i: nat)
    requires (per == 2 || per == 4 || per == 8) && i < per
    ensures i / per == 0 && i % per == i
  {
  }

  /** Fields past the first octet are the fields of what follows it. */
  lemma LaterField(k: Packing, data: bytes, p: nat, i: nat)
    requires Packs(k)
    ensures Present(k, data, p, PerOctet(k.br) + i) <==> Present(k, data, p + 1, i)
    ensures Present(k, data, p + 1, i) ==> IndexAt(k, data, p, PerOctet(k.br) + i) == IndexAt(k, data, p + 1, i)
  {
    NextOctet(PerOctet(k.br), PerOctet(k.br) + i);
  }

  lemma EarlyField(k: Packing, data: bytes, p: nat, i: nat)
    requires Packs(k) && p < |data| && i < PerOctet(k.br)
    ensures Present(k, data, p, i) && IndexAt(k, data, p, i) == k.field(data[p], 8 - k.br - Bits(k.br, i))
  {
    FirstOctet(PerOctet(k.br), i);
  }

  lemma StrayHere(k: Packing, data: bytes, p: nat, left: nat, n: nat)
    requires Packs(k) && p < |data| && StrayFrom(k, data[p], 8 - k.br, left, n)
    ensures Stray(k, data, p, left, n)
  {
    var m :| 0 <= m < left && StrayAt(k, data[p], 8 - k.br, n, m);
    EarlyField(k, data, p, m);
  }

  lemma StrayLater(k: Packing, data: bytes, p: nat, left: nat, n: nat)
    requires Packs(k) && p < |data| && left > PerOctet(k.br) && Stray(k, data, p + 1, left - PerOctet(k.br), n)
    ensures Stray(k, data, p, left, n)
  {
    var i :| 0 <= i < left - PerOctet(k.br) && Present(k, data, p + 1, i) && IndexAt(k, data, p + 1, i) >= n;
    LaterField(k, data, p, i);
  }

  lemma StraySplits(k: Packing, data: bytes, p: nat, left: nat, n: nat)
    requires Packs(k) && p < |data| && Stray(k, data, p, left, n)
    ensures StrayFrom(k, data[p], 8 - k.br, left, n)
            || (left > PerOctet(k.br) && Stray(k, data, p + 1, left - PerOctet(k.br), n))
  {
    var i :| 0 <= i < left && Present(k, data, p, i) && IndexAt(k, data, p, i) >= n;
    if i < PerOctet(k.br) {
      EarlyField(k, data, p, i);
      assert StrayAt(k, data[p], 8 - k.br, n, i);
    } else {
      LaterField(k, data, p, i - PerOctet(k.br));
    }
  }

  lemma {:induction false} PackedStray(palette: seq<Pixel>, k: Packing, data: bytes, p: nat, left: nat)
    requires Packs(k) && p <= |data|
    ensures PackedFrom(palette, k, data, p, left).OutOfPalette? <==> Stray(k, data, p, left, |palette|)
    decreases |data| - p
  {
    if left > 0 && p < |data| {
      var n := |palette|;
      UnpackStray(palette, data[p], k, 8 - k.br, left);
      if StrayFrom(k, data[p], 8 - k.br, left, n) {
        StrayHere(k, data, p, left, n);
      } else {
        UnpackCount(palette, data[p], k, PerOctet(k.br), left);
        PackedStray(palette, k, data, p + 1, left - Min(PerOctet(k.br), left));
        if Stray(k, data, p, left, n) {
          StraySplits(k, data, p, left, n);
        } else if left > PerOctet(k.br) && Stray(k, data, p + 1, left - PerOctet(k.br), n) {
          StrayLater(k, data, p, left, n);
        }
      }
    }
  }

  // ----- The tile decoder -----

  lemma {:induction false} RunsNeverStray(f: Wire, data: bytes, p: nat, left: nat)
    requires p <= |data|
    ensures !RunsFrom(f, data, p, left).OutOfPalette?
    decreases |data| - p
  {
    if left > 0 && |data| - p >= Bpp(f) {
      match ReadRun(data, p + Bpp(f), 1)
      case None =>
      case Some((run, q)) => RunsNeverStray(f, data, q, left - Min(run, left));
    }
  }

  lemma {:induction false} PaletteRunsNeverStray(palette: seq<Pixel>, data: bytes, p: nat, left: nat)
    requires p <= |data|
    ensures !PaletteRunsFrom(palette, data, p, left).OutOfPalette?
    decreases |data| - p
  {
    if left > 0 && p < |data| {
      if data[p] < 0x80 {
        PaletteRunsNeverStray(palette, data, p + 1, left - 1);
      } else {
        match ReadRun(data, p + 1, 1)
        case None =>
        case Some((run, q)) => PaletteRunsNeverStray(palette, data, q, left - Min(run, left));
      }
    }
  }

  /** A packed tile whose palette is all there and one of whose indices is not in it. */
  ghost predicate HasStrayIndex(data: bytes, sub: byte, s: nat, f: Wire) {
    && 2 <= sub <= 16
    && |data| >= Span(f, sub)
    && Stray(PackingFor(sub), data, Span(f, sub), s, sub)
  }

  /**
    * Exactly which tiles make the decoder read outside its palette: packed ones with the
    * palette present and, among the first `s` fields that are there, one that is not below
    * the number of entries.
    */
  lemma OverreadsIffStray(data: bytes, sub: byte, s: nat, f: Wire)
    ensures Inner(data, sub, s, f).OutOfPalette? <==> HasStrayIndex(data, sub, s, f)
  {
    if sub == 0 {
      RawNeeds(f, data, 0, s);
    } else if 2 <= sub <= 16 {
      RawNeeds(f, data, 0, sub);
      if |data| >= Span(f, sub) {
        PackedStray(PaletteAt(f, data, sub).px, PackingFor(sub), data, Span(f, sub), s);
      }
    } else if sub == 128 {
      RunsNeverStray(f, data, 0, s);
    } else if sub >= 130 {
      RawNeeds(f, data, 0, sub - 128);
      match PaletteAt(f, data, sub - 128)
      case Pixels(palette) =>
        if |data| >= Span(f, sub - 128) {
          PaletteRunsNeverStray(palette, data, Span(f, sub - 128), s);
        }
      case _ =>
    }
  }

  /** An input on which it does: three entries, and the first two bits of the octet behind them say 3. */
  lemma OverreadWitness()
    ensures Inner([1, 2, 3, 0xC0], 3, 1, WireOf(Rgb332)) == OutOfPalette
  {
    var data: bytes, f := [1, 2, 3, 0xC0], WireOf(Rgb332);
    assert Present(PackingFor(3), data, 3, 0) && IndexAt(PackingFor(3), data, 3, 0) == 3;
    OverreadsIffStray(data, 3, 1, f);
  }

  /** No tile of this subencoding, whatever its octets and size, leads outside its palette. */
  ghost predicate AlwaysWithin(sub: byte, f: Wire) {
    forall data: bytes, s: nat :: !Inner(data, sub, s, f).OutOfPalette?
  }

  lemma FieldRange(sub: byte, v: byte, shift: nat)
    requires sub == 2 || sub == 4 || sub == 16
    ensures PackingFor(sub).field(v, shift) < sub
  {
  }

  lemma FilledNeverStray(sub: byte, data: bytes, p: nat, s: nat)
    requires sub == 2 || sub == 4 || sub == 16
    ensures !Stray(PackingFor(sub), data, p, s, sub)
  {
    var k := PackingFor(sub);
    forall i: nat | Present(k, data, p, i)
      ensures IndexAt(k, data, p, i) < sub
    {
      FieldRange(sub, data[p + i / PerOctet(k.br)], 8 - k.br - Bits(k.br, i % PerOctet(k.br)));
    }
  }

  /** Zeroes for the palette, then an octet of ones: its first field is the highest there is. */
  lemma OnesStray(sub: byte, f: Wire)
    requires sub == 3 || 5 <= sub <= 15
    ensures HasStrayIndex(Zeros(Span(f, sub)) + [0xFF], sub, 1, f)
  {
    var data := Zeros(Span(f, sub)) + [0xFF];
    var k := PackingFor(sub);
    EarlyField(k, data, Span(f, sub), 0);
    assert IndexAt(k, data, Span(f, sub), 0) >= sub;
  }

  /**
    * What can be told from the subencoding octet alone, in either pixel format: the decoder
    * stays inside the palette on every tile if and only if the octet announces no packed
    * palette, or one of 2, 4 or 16 entries, which its field width exactly fills.
    */
  lemma WithinIffPaletteFillsField(sub: byte, f: Wire)
    ensures AlwaysWithin(sub, f) <==> !(2 <= sub <= 16) || sub == 2 || sub == 4 || sub == 16
  {
    if sub == 3 || 5 <= sub <= 15 {
      var data := Zeros(Span(f, sub)) + [0xFF];
      OnesStray(sub, f);
      OverreadsIffStray(data, sub, 1, f);
    } else {
      forall data: bytes, s: nat
        ensures !Inner(data, sub, s, f).OutOfPalette?
      {
        OverreadsIffStray(data, sub, s, f);
        if 2 <= sub <= 16 {
          FilledNeverStray(sub, data, Span(f, sub), s);
        }
      }
    }
  }
}
