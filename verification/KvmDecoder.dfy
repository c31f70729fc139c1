/**
  * The tile decoder as it runs: a position in the data, and pixels painted into a buffer.
  *
  * Every loop of the decoder is a method here, proved to give what the tile format means for
  * the same data: the same pixels, or no pixels at all, and whether an index lies beyond the
  * palette.
  */
module KvmDecoder {

  import opened ByteCodec
  import opened KvmCodec
  import opened KvmPalette

  /** Pull `n` pixels from the head of the data, as for a palette or a raw tile. */
  method PullPixels(f: Wire, data: bytes, n: nat) returns (ok: bool, out: seq<Pixel>, p: nat)
    ensures ok <==> PaletteAt(f, data, n).Pixels?
    ensures ok ==> PaletteAt(f, data, n) == Pixels(out) && |out| == n && p == Span(f, n) <= |data|
  {
    out, p := [], 0;
    while |out| < n
      invariant |out| <= n && p == Span(f, |out|) <= |data|
      invariant PaletteAt(f, data, n) == Then(out, RawFrom(f, data, p, n - |out|))
    {
      if |data| - p < Bpp(f) { return false, out, p; }
      var c := At(f, data, p);
      ThenThen(out, [c], RawFrom(f, data, p + Bpp(f), n - |out| - 1));
      out := out + [c];
      p := p + Bpp(f);
    }
    assert out + [] == out;
    return true, out, p;
  }

  method PaintRun(argb: array<Pixel>, i: nat, run: nat, c: Pixel)
    requires i + run <= argb.Length
    modifies argb
    ensures argb[..i + run] == old(argb[..i]) + Fill(run, c)
  {
    for k := 0 to run
      invariant argb[..i + k] == old(argb[..i]) + Fill(k, c)
    {
      argb[i + k] := c;
      assert argb[..i + k + 1] == argb[..i + k] + [c];
    }
  }

  method PullRun(data: bytes, start: nat) returns (ok: bool, run: nat, p: nat)
    requires start <= |data|
    ensures ok <==> ReadRun(data, start, 1).Some?
    ensures ok ==> ReadRun(data, start, 1) == Some((run, p))
  {
    run, p := 1, start;
    while p < |data|
      invariant start <= p <= |data|
      invariant ReadRun(data, start, 1) == ReadRun(data, p, run)
    {
      var delta := data[p];
      p := p + 1;
      if delta != 0xFF {
        return true, run + delta as int, p;
      }
      run := run + delta as int;
    }
    return false, run, p;
  }

  method DecodeOneRun(f: Wire, data: bytes, argb: array<Pixel>, start: nat, p: nat) returns (ok: bool, i: nat, q: nat)
    requires start < argb.Length && p <= |data|
    modifies argb
    ensures !ok ==> RunsOwed(f, data, old(argb[..start]), p, argb.Length - start) == Rejected
    ensures ok ==> start <= i <= argb.Length && p < q <= |data|
    ensures ok ==> RunsOwed(f, data, old(argb[..start]), p, argb.Length - start)
                   == RunsOwed(f, data, argb[..i], q, argb.Length - i)
  {
    i := start;
    RunTaken(f, data, argb[..start], p, argb.Length - start);
    if |data| - p < Bpp(f) { return false, start, p; }
    var run;
    ok, run, q := PullRun(data, p + Bpp(f));
    if !ok { return; }
    if start + run > argb.Length {
      run := argb.Length - start;
    }
    PaintRun(argb, start, run, At(f, data, p));
    i := start + run;
  }

  method DecodeRuns(f: Wire, data: bytes, argb: array<Pixel>) returns (ok: bool)
    modifies argb
    ensures ok <==> RunsFrom(f, data, 0, argb.Length).Pixels?
    ensures ok ==> RunsFrom(f, data, 0, argb.Length) == Pixels(argb[..])
    ensures !RunsFrom(f, data, 0, argb.Length).OutOfPalette?
  {
    ok := true;
    var i, p := 0, 0;
    RunsOwedStart(f, data, argb.Length);
    while i < argb.Length
      invariant 0 <= i <= argb.Length && p <= |data|
      invariant RunsFrom(f, data, 0, argb.Length) == RunsOwed(f, data, argb[..i], p, argb.Length - i)
      decreases |data| - p
    {
      ok, i, p := DecodeOneRun(f, data, argb, i, p);
      if !ok { return; }
    }
    RunsOwedEnd(f, data, argb[..i], p);
    assert argb[..i] == argb[..];
    return true;
  }

  /** The outcome, once `done` has been painted and `left` pixels are to come from `p` on. */
  function RunsOwed(f: Wire, data: bytes, done: seq<Pixel>, p: nat, left: nat): Decode
    requires p <= |data|
  {
    Then(done, RunsFrom(f, data, p, left))
  }

  lemma RunsOwedStart(f: Wire, data: bytes, left: nat)
    ensures RunsOwed(f, data, [], 0, left) == RunsFrom(f, data, 0, left)
  {
    var d := RunsFrom(f, data, 0, left);
    if d.Pixels? {
      assert [] + d.px == d.px;
    }
  }

  lemma RunsOwedEnd(f: Wire, data: bytes, done: seq<Pixel>, p: nat)
    requires p <= |data|
    ensures RunsOwed(f, data, done, p, 0) == Pixels(done)
  {
    assert done + [] == done;
  }

  lemma RunTaken(f: Wire, data: bytes, done: seq<Pixel>, p: nat, left: nat)
    requires p <= |data| && left > 0
    ensures |data| - p < Bpp(f) ==> RunsOwed(f, data, done, p, left) == Rejected
    ensures |data| - p >= Bpp(f) ==>
              match ReadRun(data, p + Bpp(f), 1)
              case None => RunsOwed(f, data, done, p, left) == Rejected
              case Some((run, q)) =>
                var n := Min(run, left);
                RunsOwed(f, data, done, p, left) == RunsOwed(f, data, done + Fill(n, At(f, data, p)), q, left - n)
  {
    if |data| - p >= Bpp(f) {
      match ReadRun(data, p + Bpp(f), 1)
      case None =>
      case Some((run, q)) =>
        var n := Min(run, left);
        ThenThen(done, Fill(n, At(f, data, p)), RunsFrom(f, data, q, left - n));
    }
  }

  lemma ThenThen(a: seq<Pixel>, b: seq<Pixel>, d: Decode)
    ensures Then(a, Then(b, d)) == Then(a + b, d)
  {
    if d.Pixels? {
      Regroup(a, b, d.px);
    }
  }

  method DecodePaletteRuns(palette: seq<Pixel>, data: bytes, start: nat, argb: array<Pixel>) returns (ok: bool)
    requires start <= |data|
    modifies argb
    ensures ok <==> PaletteRunsFrom(palette, data, start, argb.Length).Pixels?
    ensures ok ==> PaletteRunsFrom(palette, data, start, argb.Length) == Pixels(argb[..])
    ensures !PaletteRunsFrom(palette, data, start, argb.Length).OutOfPalette?
  {
    var i, p := 0, start;
    while i < argb.Length && p < |data|
      invariant 0 <= i <= argb.Length && start <= p <= |data|
      invariant PaletteRunsFrom(palette, data, start, argb.Length)
                == Then(argb[..i], PaletteRunsFrom(palette, data, p, argb.Length - i))
      decreases |data| - p
    {
      var index := data[p];
      var ix := LowSeven(index);
      if ix >= |palette| { return false; }
      var run, q := 1, p + 1;
      if index >= 0x80 {
        var got;
        got, run, q := PullRun(data, p + 1);
        if !got { return false; }
      } else {
        assert Fill(1, palette[ix]) == [palette[ix]];
      }
      if i + run > argb.Length {
        run := argb.Length - i;
      }
      ghost var rest := PaletteRunsFrom(palette, data, q, argb.Length - i - run);
      ThenThen(argb[..i], Fill(run, palette[ix]), rest);
      PaintRun(argb, i, run, palette[ix]);
      i, p := i + run, q;
    }
    assert argb[..argb.Length] == argb[..];
    return i >= argb.Length;
  }

  /** The fields of one octet, painted from index `i` on while the tile has room. */
  method UnpackOctet(palette: seq<Pixel>, v: byte, k: Packing, argb: array<Pixel>, start: nat) returns (ok: bool, i: nat)
    requires 1 <= k.br <= 8 && start <= argb.Length
    modifies argb
    ensures start <= i <= argb.Length && argb[..start] == old(argb[..start])
    ensures ok ==> UnpackFrom(palette, v, k, 8 - k.br, argb.Length - start) == Pixels(argb[start..i])
    ensures !ok ==> UnpackFrom(palette, v, k, 8 - k.br, argb.Length - start) == OutOfPalette
  {
    i := start;
    var shift := 8 - k.br;
    while shift >= 0 && i < argb.Length
      invariant start <= i <= argb.Length && shift < 8
      invariant argb[..start] == old(argb[..start])
      invariant UnpackFrom(palette, v, k, 8 - k.br, argb.Length - start)
                == Then(argb[start..i], UnpackFrom(palette, v, k, shift, argb.Length - i))
      decreases shift + k.br
    {
      var ix := k.field(v, shift);
      if ix >= |palette| { return false, i; }
      ThenThen(argb[start..i], [palette[ix]], UnpackFrom(palette, v, k, shift - k.br, argb.Length - i - 1));
      argb[i] := palette[ix];
      assert argb[start..i + 1] == argb[start..i] + [palette[ix]];
      i := i + 1;
      shift := shift - k.br;
    }
    return true, i;
  }

  method DecodePacked(palette: seq<Pixel>, k: Packing, data: bytes, start: nat, argb: array<Pixel>)
    returns (ok: bool, beyond: bool)
    requires Packs(k) && start <= |data|
    modifies argb
    ensures ok <==> PackedFrom(palette, k, data, start, argb.Length).Pixels?
    ensures ok ==> PackedFrom(palette, k, data, start, argb.Length) == Pixels(argb[..])
    ensures beyond <==> Stray(k, data, start, argb.Length, |palette|)
  {
    PackedStray(palette, k, data, start, argb.Length);
    var i, p := 0, start;
    while i < argb.Length && p < |data|
      invariant 0 <= i <= argb.Length && start <= p <= |data|
      invariant PackedFrom(palette, k, data, start, argb.Length)
                == Then(argb[..i], PackedFrom(palette, k, data, p, argb.Length - i))
      decreases |data| - p
    {
      var within, j := UnpackOctet(palette, data[p], k, argb, i);
      if !within { return false, true; }
      ThenThen(argb[..i], argb[i..j], PackedFrom(palette, k, data, p + 1, argb.Length - j));
      assert argb[..j] == argb[..i] + argb[i..j];
      i, p := j, p + 1;
    }
    assert argb[..argb.Length] == argb[..];
    return i >= argb.Length, false;
  }

  method DecodeRawTile(f: Wire, data: bytes, argb: array<Pixel>) returns (ok: bool)
    modifies argb
    ensures ok <==> RawFrom(f, data, 0, argb.Length).Pixels?
    ensures ok ==> RawFrom(f, data, 0, argb.Length) == Pixels(argb[..])
  {
    RawNeeds(f, data, 0, argb.Length);
    if |data| < Span(f, argb.Length) { return false; }
    var p := 0;
    for i := 0 to argb.Length
      invariant p == Span(f, i)
      invariant RawFrom(f, data, 0, argb.Length) == Then(argb[..i], RawFrom(f, data, p, argb.Length - i))
    {
      ThenThen(argb[..i], [At(f, data, p)], RawFrom(f, data, p + Bpp(f), argb.Length - i - 1));
      argb[i] := At(f, data, p);
      assert argb[..i + 1] == argb[..i] + [argb[i]];
      p := p + Bpp(f);
    }
    assert argb[..argb.Length] == argb[..];
    return true;
  }

  /**
    * The whole tile decoder, filling a fresh pixel buffer; `beyond` tells that it has looked
    * up an index the palette does not have.
    */
  method DecodeRleInner(data: bytes, sub: byte, s: nat, f: Wire) returns (ok: bool, beyond: bool, argb: array<Pixel>)
    ensures argb.Length == s && fresh(argb)
    ensures ok <==> Inner(data, sub, s, f).Pixels?
    ensures ok ==> Inner(data, sub, s, f) == Pixels(argb[..])
    ensures beyond <==> HasStrayIndex(data, sub, s, f)
  {
    argb := new Pixel[s](_ => 0);
    beyond := false;
    if sub == 0 {
      RawNeeds(f, data, 0, s);
      ok := DecodeRawTile(f, data, argb);
    } else if sub == 1 {
      if |data| < Bpp(f) { return false, false, argb; }
      PaintRun(argb, 0, s, At(f, data, 0));
      assert argb[..s] == argb[..];
      ok := true;
    } else if 2 <= sub <= 16 {
      ok, beyond := DecodePackedTile(data, sub, f, argb);
    } else if sub == 128 {
      ok := DecodeRuns(f, data, argb);
    } else if sub >= 130 {
      ok := DecodePaletteTile(data, sub, f, argb);
    } else {
      ok := false;
    }
  }

  method DecodePackedTile(data: bytes, sub: byte, f: Wire, argb: array<Pixel>) returns (ok: bool, beyond: bool)
    requires 2 <= sub <= 16
    modifies argb
    ensures ok <==> Inner(data, sub, argb.Length, f).Pixels?
    ensures ok ==> Inner(data, sub, argb.Length, f) == Pixels(argb[..])
    ensures beyond <==> HasStrayIndex(data, sub, argb.Length, f)
  {
    RawNeeds(f, data, 0, sub);
    var got, palette, p := PullPixels(f, data, sub);
    if !got { return false, false; }
    ok, beyond := DecodePacked(palette, PackingFor(sub), data, p, argb);
  }

  method DecodePaletteTile(data: bytes, sub: byte, f: Wire, argb: array<Pixel>) returns (ok: bool)
    requires sub >= 130
    modifies argb
    ensures ok <==> Inner(data, sub, argb.Length, f).Pixels?
    ensures ok ==> Inner(data, sub, argb.Length, f) == Pixels(argb[..])
    ensures !Inner(data, sub, argb.Length, f).OutOfPalette?
  {
    RawNeeds(f, data, 0, sub - 128);
    var got, palette, p := PullPixels(f, data, sub - 128);
    if !got { return false; }
    ok := DecodePaletteRuns(palette, data, p, argb);
  }
}
