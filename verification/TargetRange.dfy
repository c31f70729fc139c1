/** Expanding a typed target (address, range or CIDR block) into the addresses to scan. */
module TargetRange {
  import opened ByteCodec

  type Address = u32

  datatype Target = One(address: Address) | Span(lo: Address, hi: Address) | Block(base: Address, mask: nat)

  datatype Error = Empty | CidrForm | CidrBase | CidrMask | TooBroad | RangeForm | RangeEnds | Backwards | TooLong | NotAnAddress

  datatype Result<+T> = Ok(value: T) | Err(error: Error)

  const MAX_TARGETS := 65536

  function Pow2(n: nat): nat {
    if n == 0 then 1 else 2 * Pow2(n - 1)
  }

  /** The addresses a target stands for; a block holds those with the base's leading `mask` bits. */
  ghost predicate Denotes(t: Target, a: Address) {
    match t
    case One(address) => a == address
    case Span(lo, hi) => lo <= a <= hi
    case Block(base, mask) => mask <= 32 && SamePrefix(a, base, mask)
  }

  /** Dropping the `32 - mask` low bits leaves the same prefix. */
  predicate SamePrefix(a: Address, b: Address, mask: nat)
    requires mask <= 32
  {
    Prefix(a, Pow2(32 - mask)) == Prefix(b, Pow2(32 - mask))
  }

  function Prefix(a: Address, size: nat): nat {
    if size == 0 then 0 else a / size
  }

  predicate Acceptable(t: Target) {
    match t
    case One(_) => true
    case Span(lo, hi) => lo <= hi && hi - lo + 1 <= MAX_TARGETS
    case Block(_, mask) => 16 <= mask <= 32
  }

  // ----- Powers of two -----

  lemma {:induction false} Pow2Sum(a: nat, b: nat)
    ensures Pow2(a + b) == Pow2(a) * Pow2(b)
    decreases a
  {
    if a > 0 {
      Pow2Sum(a - 1, b);
      assert Pow2(a) * Pow2(b) == 2 * (Pow2(a - 1) * Pow2(b));
    }
  }

  lemma {:induction false} Pow2Grows(a: nat, b: nat)
    requires a <= b
    ensures 0 < Pow2(a) <= Pow2(b)
    decreases b
  {
    if a < b {
      Pow2Grows(a, b - 1);
    } else if a > 0 {
      Pow2Grows(a - 1, a - 1);
    }
  }

  lemma Pow2Values()
    ensures Pow2(16) == 0x1_0000 && Pow2(32) == 0x1_0000_0000
  {
    assert Pow2(4) == 16;
    Pow2Sum(4, 4);
    Pow2Sum(8, 8);
    Pow2Sum(16, 16);
  }

  lemma Spread(d: int, size: int)
    requires size > 0
    ensures d >= 1 ==> d * size >= size
    ensures d <= -1 ==> d * size <= -size
  {
  }

  lemma DivBounds(a: int, size: int, q: int)
    requires size > 0
    ensures a / size == q <==> q * size <= a < q * size + size
  {
    var d := q - a / size;
    Spread(d, size);
    assert d * size == q * size - (a / size) * size;
    assert 0 <= a - (a / size) * size < size;
  }

  /** Of tiles of one size, one that starts before the end also ends before it. */
  lemma TileEnds(q: int, size: int, tiles: int)
    requires size > 0 && q * size < tiles * size
    ensures q * size + size <= tiles * size
  {
    Spread(tiles - q, size);
    Spread(q - tiles, size);
    assert (tiles - q) * size == tiles * size - q * size;
  }

  /** The base with its `32 - mask` low bits cleared. */
  function Network(base: Address, mask: nat): nat
    requires mask <= 32
  {
    Prefix(base, Pow2(32 - mask)) * Pow2(32 - mask)
  }

  lemma SamePrefixIsInterval(a: Address, base: Address, mask: nat)
    requires mask <= 32
    ensures SamePrefix(a, base, mask) <==> Network(base, mask) <= a < Network(base, mask) + Pow2(32 - mask)
  {
    Pow2Grows(0, 32 - mask);
    DivBounds(a, Pow2(32 - mask), base / Pow2(32 - mask));
  }

  lemma BlockEnds(base: Address, mask: nat)
    requires mask <= 32
    ensures Network(base, mask) <= base
    ensures Network(base, mask) + Pow2(32 - mask) <= 0x1_0000_0000
  {
    Pow2Grows(0, 32 - mask);
    SamePrefixIsInterval(base, base, mask);
    Pow2Values();
    Pow2Sum(mask, 32 - mask);
    TileEnds(Prefix(base, Pow2(32 - mask)), Pow2(32 - mask), Pow2(mask));
  }

  /**
    * A block starts at or before its base, ends before 2^32, and what lies in it is
    * what shares its prefix.
    */
  lemma BlockIsAnInterval(base: Address, mask: nat)
    requires mask <= 32
    ensures var network, end := Network(base, mask), Network(base, mask) + Pow2(32 - mask);
            && network <= base < end <= 0x1_0000_0000
            && forall a: Address :: SamePrefix(a, base, mask) <==> network <= a < end
  {
    BlockEnds(base, mask);
    SamePrefixIsInterval(base, base, mask);
    forall a: Address
      ensures SamePrefix(a, base, mask) <==> Network(base, mask) <= a < Network(base, mask) + Pow2(32 - mask)
    {
      SamePrefixIsInterval(a, base, mask);
    }
  }

  // ----- Expansion -----

  /** Exactly the denoted addresses, each once, in increasing order. */
  ghost predicate Expands(t: Target, out: seq<Address>) {
    && (forall i, j :: 0 <= i < j < |out| ==> out[i] < out[j])
    && (forall a: Address :: a in out <==> Denotes(t, a))
  }

  predicate Consecutive(out: seq<Address>, first: Address) {
    forall i :: 0 <= i < |out| ==> out[i] == first + i
  }

  lemma ConsecutiveIsInterval(out: seq<Address>, first: Address)
    requires Consecutive(out, first)
    ensures forall i, j :: 0 <= i < j < |out| ==> out[i] < out[j]
    ensures forall a: Address :: a in out <==> first <= a < first + |out|
  {
    forall a: Address | first <= a < first + |out| ensures a in out {
      assert out[a - first] == a;
    }
  }

  method ExpandBlock(base: Address, mask: nat) returns (out: seq<Address>)
    requires Acceptable(Block(base, mask))
    ensures Expands(Block(base, mask), out)
    ensures 0 < |out| == Pow2(32 - mask) <= MAX_TARGETS
  {
    var count := Pow2(32 - mask);
    BlockIsAnInterval(base, mask);
    Pow2Grows(32 - mask, 16);
    Pow2Values();
    var network := Network(base, mask);
    out := CountUp(network, count);
    ConsecutiveIsInterval(out, network);
  }

  method CountUp(first: Address, count: nat) returns (out: seq<Address>)
    requires first + count <= 0x1_0000_0000
    ensures |out| == count && Consecutive(out, first)
  {
    out := [];
    for i := 0 to count
      invariant |out| == i && Consecutive(out, first)
    {
      out := out + [Wrapped(first + i)];
    }
  }

  /** Addresses are cut to 32 bits; within them nothing is lost. */
  function Wrapped(n: nat): (a: Address)
    ensures n < 0x1_0000_0000 ==> a == n
  {
    n % 0x1_0000_0000
  }

  method ExpandSpan(lo: Address, hi: Address) returns (out: seq<Address>)
    requires Acceptable(Span(lo, hi))
    ensures Expands(Span(lo, hi), out)
    ensures 0 < |out| == hi - lo + 1 <= MAX_TARGETS
  {
    out := [];
    var v: int := lo;
    while v <= hi
      invariant lo <= v <= hi + 1 && |out| == v - lo && Consecutive(out, lo)
    {
      out := out + [Wrapped(v)];
      v := v + 1;
    }
    ConsecutiveIsInterval(out, lo);
  }

  // ----- Reading the specification -----

  /** Pieces between occurrences of `sep`; one piece when there is none. */
  function Split(s: string, sep: char): (parts: seq<string>)
    ensures |parts| >= 1
    ensures |parts| == 1 <==> sep !in s
  {
    if s == [] then [[]]
    else
      var rest := Split(s[1..], sep);
      if s[0] == sep then [[]] + rest else [[s[0]] + rest[0]] + rest[1..]
  }

  /** Two pieces around one separator are those two pieces; that is how a block or a range is taken apart. */
  lemma {:induction false} SplitInTwo(a: string, sep: char, b: string)
    requires sep !in a && sep !in b
    ensures Split(a + [sep] + b, sep) == [a, b]
    decreases |a|
  {
    var s := a + [sep] + b;
    if a == [] {
      assert s[0] == sep && s[1..] == b;
      SplitAlone(b, sep);
    } else {
      assert s[1..] == a[1..] + [sep] + b && s[0] == a[0];
      SplitInTwo(a[1..], sep, b);
      assert [a[0]] + a[1..] == a;
    }
  }

  lemma {:induction false} SplitAlone(s: string, sep: char)
    requires sep !in s
    ensures Split(s, sep) == [s]
  {
    if s != [] {
      SplitAlone(s[1..], sep);
      assert [s[0]] + s[1..] == s;
    }
  }

  /** How addresses and decimal numbers are read. */
  datatype Reader = Reader(ipv4: string -> Option<Address>, number: string -> Option<int>)

  function ReadBlock(parts: seq<string>, rd: Reader): Result<Target> {
    if |parts| != 2 then Err(CidrForm)
    else
      var base, mask := rd.ipv4(parts[0]), rd.number(parts[1]);
      if base.None? then Err(CidrBase)
      else if mask.None? || mask.value < 0 || mask.value > 32 then Err(CidrMask)
      else if mask.value < 16 then Err(TooBroad)
      else Ok(Block(base.value, mask.value))
  }

  function ReadSpan(parts: seq<string>, rd: Reader): Result<Target> {
    if |parts| != 2 then Err(RangeForm)
    else
      var lo, hi := rd.ipv4(parts[0]), rd.ipv4(parts[1]);
      if lo.None? || hi.None? then Err(RangeEnds)
      else if hi.value < lo.value then Err(Backwards)
      else if hi.value - lo.value + 1 > MAX_TARGETS then Err(TooLong)
      else Ok(Span(lo.value, hi.value))
  }

  /** `spec` with blanks trimmed off. A slash makes it a block, else a dash makes it a range. */
  function ReadTarget(spec: string, rd: Reader): (r: Result<Target>)
    ensures r.Ok? ==> Acceptable(r.value)
  {
    if spec == [] then Err(Empty)
    else if '/' in spec then ReadBlock(Split(spec, '/'), rd)
    else if '-' in spec then ReadSpan(Split(spec, '-'), rd)
    else if rd.ipv4(spec).None? then Err(NotAnAddress)
    else Ok(One(rd.ipv4(spec).value))
  }

  /** A block or a range as it is typed denotes what its two halves say. */
  lemma TypedTargets(a: string, b: string, rd: Reader)
    requires '/' !in a && '/' !in b
    ensures rd.ipv4(a).Some? && rd.number(b).Some? && 16 <= rd.number(b).value <= 32 ==>
              ReadTarget(a + ['/'] + b, rd) == Ok(Block(rd.ipv4(a).value, rd.number(b).value))
    ensures '-' !in a && '-' !in b && rd.ipv4(a).Some? && rd.ipv4(b).Some?
            && rd.ipv4(a).value <= rd.ipv4(b).value < rd.ipv4(a).value + 65536 ==>
              ReadTarget(a + ['-'] + b, rd) == Ok(Span(rd.ipv4(a).value, rd.ipv4(b).value))
  {
    SplitInTwo(a, '/', b);
    var block, range := a + ['/'] + b, a + ['-'] + b;
    assert block[|a|] == '/' && range[|a|] == '-';
    if '-' !in a && '-' !in b {
      SplitInTwo(a, '-', b);
    }
  }

  /** And what is wrong with one is said as it is. */
  lemma TypedErrors(a: string, b: string, rd: Reader)
    requires '/' !in a && '/' !in b
    ensures var r := ReadTarget(a + ['/'] + b, rd);
            && (rd.ipv4(a).None? ==> r == Err(CidrBase))
            && (rd.ipv4(a).Some? && (rd.number(b).None? || !(0 <= rd.number(b).value <= 32)) ==> r == Err(CidrMask))
            && (rd.ipv4(a).Some? && rd.number(b).Some? && 0 <= rd.number(b).value < 16 ==> r == Err(TooBroad))
    ensures '-' !in a && '-' !in b ==>
              var r := ReadTarget(a + ['-'] + b, rd);
              && (rd.ipv4(a).None? || rd.ipv4(b).None? ==> r == Err(RangeEnds))
              && (rd.ipv4(a).Some? && rd.ipv4(b).Some? && rd.ipv4(b).value < rd.ipv4(a).value ==> r == Err(Backwards))
              && (rd.ipv4(a).Some? && rd.ipv4(b).Some? && rd.ipv4(b).value - rd.ipv4(a).value >= 65536 ==> r == Err(TooLong))
    ensures '-' !in a ==> ReadTarget(a, rd) == if a == "" then Err(Empty) else if rd.ipv4(a).None? then Err(NotAnAddress) else Ok(One(rd.ipv4(a).value))
  {
    SplitInTwo(a, '/', b);
    var block, range := a + ['/'] + b, a + ['-'] + b;
    assert block[|a|] == '/' && range[|a|] == '-';
    if '-' !in a && '-' !in b {
      SplitInTwo(a, '-', b);
    }
  }

  /** Every accepted specification expands to exactly what it denotes, and to at most 65536 addresses. */
  method ParseTargets(spec: string, rd: Reader) returns (r: Result<seq<Address>>)
    ensures r.Ok? <==> ReadTarget(spec, rd).Ok?
    ensures r.Ok? ==> Expands(ReadTarget(spec, rd).value, r.value) && 0 < |r.value| <= MAX_TARGETS
    ensures r.Err? ==> r.error == ReadTarget(spec, rd).error
  {
    var target := ReadTarget(spec, rd);
    if target.Err? {
      return Err(target.error);
    }
    var out;
    match target.value {
      case One(address) => out := [address];
      case Span(lo, hi) => out := ExpandSpan(lo, hi);
      case Block(base, mask) => out := ExpandBlock(base, mask);
    }
    r := Ok(out);
  }
}
