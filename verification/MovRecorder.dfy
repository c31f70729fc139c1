/**
  * Motion-JPEG QuickTime writer: an `ftyp` box, an `mdat` box into which frames are
  * streamed, and a `moov` box whose sample table must describe the bytes already
  * written (ISO/IEC 14496-12).
  */
module MovRecorder {

  import opened ByteCodec

  type FourCC = c: bytes | |c| == 4 witness [0, 0, 0, 0]

  const FTYP: FourCC := [0x66, 0x74, 0x79, 0x70]
  const MDAT: FourCC := [0x6D, 0x64, 0x61, 0x74]
  const MOOV: FourCC := [0x6D, 0x6F, 0x6F, 0x76]
  const MVHD: FourCC := [0x6D, 0x76, 0x68, 0x64]
  const TRAK: FourCC := [0x74, 0x72, 0x61, 0x6B]
  const TKHD: FourCC := [0x74, 0x6B, 0x68, 0x64]
  const MDIA: FourCC := [0x6D, 0x64, 0x69, 0x61]
  const MDHD: FourCC := [0x6D, 0x64, 0x68, 0x64]
  const HDLR: FourCC := [0x68, 0x64, 0x6C, 0x72]
  const MINF: FourCC := [0x6D, 0x69, 0x6E, 0x66]
  const VMHD: FourCC := [0x76, 0x6D, 0x68, 0x64]
  const DINF: FourCC := [0x64, 0x69, 0x6E, 0x66]
  const DREF: FourCC := [0x64, 0x72, 0x65, 0x66]
  const URL:  FourCC := [0x75, 0x72, 0x6C, 0x20]
  const STBL: FourCC := [0x73, 0x74, 0x62, 0x6C]
  const STSD: FourCC := [0x73, 0x74, 0x73, 0x64]
  const STTS: FourCC := [0x73, 0x74, 0x74, 0x73]
  const STSC: FourCC := [0x73, 0x74, 0x73, 0x63]
  const STSZ: FourCC := [0x73, 0x74, 0x73, 0x7A]
  const STCO: FourCC := [0x73, 0x74, 0x63, 0x6F]
  const JPEG: FourCC := [0x6A, 0x70, 0x65, 0x67]
  const QT:   FourCC := [0x71, 0x74, 0x20, 0x20]
  const VIDE: FourCC := [0x76, 0x69, 0x64, 0x65]
  const VIDEO_HANDLER: bytes :=
    [0x56, 0x69, 0x64, 0x65, 0x6F, 0x48, 0x61, 0x6E, 0x64, 0x6C, 0x65, 0x72, 0x00]
  const MOTION_JPEG: bytes :=
    [0x4D, 0x6F, 0x74, 0x69, 0x6F, 0x6E, 0x20, 0x4A, 0x50, 0x45, 0x47]

  /** The narrowing casts to unsigned 32 and 16 bits. */
  function U32(n: int): u32 { n % 0x1_0000_0000 }
  function U16(n: int): u16 { n % 0x1_0000 }

  function Be32(n: int): (r: bytes)
    ensures |r| == 4
  {
    PackBe32(U32(n))
  }

  function Be16(n: int): (r: bytes)
    ensures |r| == 2
  {
    PackBe16(U16(n))
  }

  /** A payload behind its size-and-type header. */
  function Atom(cc: FourCC, payload: bytes): (r: bytes)
    ensures |r| == 8 + |payload|
  {
    Be32(8 + |payload|) + cc + payload
  }

  // ----- Payloads -----

  function FtypPayload(): bytes { QT + Be32(0x200) + QT }

  function Matrix(): bytes {
    Be32(0x1_0000) + Be32(0) + Be32(0) + Be32(0) + Be32(0x1_0000) + Be32(0) + Be32(0) + Be32(0) + Be32(0x4000_0000)
  }

  function MvhdPayload(timescale: int, duration: int): bytes {
    Be32(0) + Be32(0) + Be32(0) + Be32(timescale) + Be32(duration) + Be32(0x1_0000) + Be16(0x100)
    + Zeros(10) + Matrix() + Zeros(24) + Be32(2)
  }

  function TkhdPayload(trackId: int, duration: int, width: int, height: int): bytes {
    Be32(7) + Be32(0) + Be32(0) + Be32(trackId) + Be32(0) + Be32(duration) + Zeros(8)
    + Be16(0) + Be16(0) + Be16(0) + Be16(0) + Matrix() + Be32(width * 0x1_0000) + Be32(height * 0x1_0000)
  }

  function MdhdPayload(timescale: int, duration: int): bytes {
    Be32(0) + Be32(0) + Be32(0) + Be32(timescale) + Be32(duration) + Be16(0x55C4) + Be16(0)
  }

  function HdlrPayload(): bytes { Be32(0) + Be32(0) + VIDE + Zeros(12) + VIDEO_HANDLER }

  function VmhdPayload(): bytes { Be32(1) + Be16(0) + Be16(0) + Be16(0) + Be16(0) }

  function DrefPayload(): bytes { Be32(0) + Be32(1) + Atom(URL, Be32(1)) }

  function StsdPayload(width: int, height: int): bytes {
    Be32(0) + Be32(1) + Atom(JPEG,
      Be32(0) + Be16(0) + Be16(1) + Be16(0) + Be16(0) + Be32(0) + Be32(0) + Be32(0)
      + Be16(width) + Be16(height) + Be32(0x48_0000) + Be32(0x48_0000) + Be32(0) + Be16(1)
      + [11] + MOTION_JPEG + Zeros(20) + Be16(24) + Be16(0xFFFF))
  }

  function SttsPayload(count: int): bytes { Be32(0) + Be32(1) + Be32(count) + Be32(1) }

  function StscPayload(count: int): bytes { Be32(0) + Be32(1) + Be32(1) + Be32(count) + Be32(1) }

  function Table(ns: seq<int>): (r: bytes)
    ensures |r| == 4 * |ns|
  {
    if ns == [] then [] else Be32(ns[0]) + Table(ns[1..])
  }

  function StszPayload(sizes: seq<int>): bytes { Be32(0) + Be32(0) + Be32(|sizes|) + Table(sizes) }

  function StcoPayload(offset: int): bytes { Be32(0) + Be32(1) + Be32(offset) }

  lemma PayloadLengths(a: int, b: int, c: int, d: int)
    ensures |FtypPayload()| == 12 && |MvhdPayload(a, b)| == 100 && |TkhdPayload(a, b, c, d)| == 84
    ensures |MdhdPayload(a, b)| == 24 && |HdlrPayload()| == 37 && |VmhdPayload()| == 12 && |DrefPayload()| == 20
    ensures |StsdPayload(c, d)| == 94 && |SttsPayload(a)| == 16 && |StscPayload(a)| == 20 && |StcoPayload(a)| == 12
  {
  }

  // ----- Nesting -----

  datatype Box = Box(cc: FourCC, payload: bytes)

  /** Atoms one after another. */
  function Atoms(boxes: seq<Box>): (r: bytes)
    decreases |boxes|
  {
    if boxes == [] then [] else Atom(boxes[0].cc, boxes[0].payload) + Atoms(boxes[1..])
  }

  /** The leaf payloads of an index, outermost first. */
  datatype Index = Index(mvhd: bytes, tkhd: bytes, mdhd: bytes, hdlr: bytes, vmhd: bytes, dref: bytes,
                         stsd: bytes, stts: bytes, stsc: bytes, stsz: bytes, stco: bytes)

  function Stbl(x: Index): bytes {
    Atoms([Box(STSD, x.stsd), Box(STTS, x.stts), Box(STSC, x.stsc), Box(STSZ, x.stsz), Box(STCO, x.stco)])
  }

  function Minf(x: Index): bytes {
    Atoms([Box(VMHD, x.vmhd), Box(DINF, Atom(DREF, x.dref)), Box(STBL, Stbl(x))])
  }

  function Mdia(x: Index): bytes {
    Atoms([Box(MDHD, x.mdhd), Box(HDLR, x.hdlr), Box(MINF, Minf(x))])
  }

  function Trak(x: Index): bytes {
    Atoms([Box(TKHD, x.tkhd), Box(MDIA, Mdia(x))])
  }

  function Moov(x: Index): bytes {
    Atoms([Box(MVHD, x.mvhd), Box(TRAK, Trak(x))])
  }

  /** A type box, the media data and the index. */
  function Movie(ftyp: bytes, mdat: bytes, x: Index): bytes {
    Atoms([Box(FTYP, ftyp), Box(MDAT, mdat), Box(MOOV, Moov(x))])
  }

  lemma TwoAtoms(a: Box, b: Box)
    ensures |Atoms([a, b])| == 16 + |a.payload| + |b.payload|
  {
    assert [a, b][1..] == [b];
    assert Atoms([b]) == Atom(b.cc, b.payload) + [];
  }

  lemma ThreeAtoms(a: Box, b: Box, c: Box)
    ensures |Atoms([a, b, c])| == 24 + |a.payload| + |b.payload| + |c.payload|
  {
    assert [a, b, c][1..] == [b, c];
    TwoAtoms(b, c);
  }

  lemma FiveAtoms(a: Box, b: Box, c: Box, d: Box, e: Box)
    ensures |Atoms([a, b, c, d, e])| == 40 + |a.payload| + |b.payload| + |c.payload| + |d.payload| + |e.payload|
  {
    assert [a, b, c, d, e][1..] == [b, c, d, e];
    assert [b, c, d, e][1..] == [c, d, e];
    ThreeAtoms(c, d, e);
  }

  lemma MoovLength(x: Index)
    ensures |Moov(x)| == 128 + |x.mvhd| + |x.tkhd| + |x.mdhd| + |x.hdlr| + |x.vmhd| + |x.dref|
                         + |x.stsd| + |x.stts| + |x.stsc| + |x.stsz| + |x.stco|
  {
    FiveAtoms(Box(STSD, x.stsd), Box(STTS, x.stts), Box(STSC, x.stsc), Box(STSZ, x.stsz), Box(STCO, x.stco));
    ThreeAtoms(Box(VMHD, x.vmhd), Box(DINF, Atom(DREF, x.dref)), Box(STBL, Stbl(x)));
    ThreeAtoms(Box(MDHD, x.mdhd), Box(HDLR, x.hdlr), Box(MINF, Minf(x)));
    TwoAtoms(Box(TKHD, x.tkhd), Box(MDIA, Mdia(x)));
    TwoAtoms(Box(MVHD, x.mvhd), Box(TRAK, Trak(x)));
  }

  /** The index for samples of the given sizes, laid end to end from `offset`. */
  function IndexFor(width: int, height: int, fps: int, sizes: seq<int>, offset: int): Index {
    var n := |sizes|;
    Index(MvhdPayload(fps, n), TkhdPayload(1, n, width, height), MdhdPayload(fps, n), HdlrPayload(), VmhdPayload(),
          DrefPayload(), StsdPayload(width, height), SttsPayload(n), StscPayload(n), StszPayload(sizes), StcoPayload(offset))
  }

  function Sizes(jpegs: seq<bytes>): (r: seq<int>)
    ensures |r| == |jpegs|
    ensures forall i :: 0 <= i < |r| ==> r[i] == |jpegs[i]|
  {
    seq(|jpegs|, i requires 0 <= i < |jpegs| => |jpegs[i]|)
  }

  const PAYLOAD_START: nat := 28

  function IndexOf(width: int, height: int, fps: int, jpegs: seq<bytes>): Index {
    IndexFor(width, height, fps, Sizes(jpegs), if jpegs == [] then 0 else PAYLOAD_START)
  }

  /** The whole recording, byte for byte. */
  function FileImage(width: int, height: int, fps: int, jpegs: seq<bytes>): bytes {
    Movie(FtypPayload(), Flat(jpegs), IndexOf(width, height, fps, jpegs))
  }

  // ----- A reference demuxer -----

  /** Boxes that tile a byte string exactly, or nothing if they do not. */
  function Boxes(b: bytes): (r: Option<seq<Box>>)
    decreases |b|
  {
    if b == [] then Some([])
    else if |b| < 8 then None
    else
      var size: nat := ReadBe32(b, 0);
      if size < 8 || size > |b| then None
      else
        match Boxes(b[size..])
        case None => None
        case Some(rest) => Some([Box(b[4..8], b[8..size])] + rest)
  }

  function Find(boxes: seq<Box>, cc: FourCC): Option<bytes> {
    if boxes == [] then None
    else if boxes[0].cc == cc then Some(boxes[0].payload)
    else Find(boxes[1..], cc)
  }

  function Child(b: Option<bytes>, cc: FourCC): Option<bytes> {
    match b
    case None => None
    case Some(x) => match Boxes(x) case None => None case Some(boxes) => Find(boxes, cc)
  }

  function ReadTable(p: bytes, off: nat, n: nat): (r: Option<seq<nat>>)
    decreases n
  {
    if n == 0 then Some([])
    else if off + 4 > |p| then None
    else
      match ReadTable(p, off + 4, n - 1)
      case None => None
      case Some(rest) => Some([ReadBe32(p, off) as nat] + rest)
  }

  function SampleSizes(stsz: bytes): Option<seq<nat>> {
    if |stsz| < 12 then None
    else
      var each: nat := ReadBe32(stsz, 4);
      var n: nat := ReadBe32(stsz, 8);
      if each != 0 then Some(seq(n, _ => each)) else ReadTable(stsz, 12, n)
  }

  function ChunkOffsets(stco: bytes): Option<seq<nat>> {
    if |stco| < 8 then None else ReadTable(stco, 8, ReadBe32(stco, 4))
  }

  /** The sample-to-chunk table as (first chunk, samples per chunk, description) triples in a row. */
  function ChunkRuns(stsc: bytes): Option<seq<nat>> {
    if |stsc| < 8 then None else ReadTable(stsc, 8, 3 * ReadBe32(stsc, 4) as int)
  }

  /** Samples in chunk number `c` (from 1): the last run that starts at or before it. */
  function SamplesPerChunk(runs: seq<nat>, c: nat): nat {
    if |runs| < 3 then 0
    else if |runs| >= 6 && runs[3] <= c then SamplesPerChunk(runs[3..], c)
    else runs[1]
  }

  /** The samples of consecutive sizes found from `off` on. */
  function Slices(file: bytes, off: nat, sizes: seq<nat>): Option<seq<bytes>>
    decreases |sizes|
  {
    if sizes == [] then Some([])
    else if off + sizes[0] > |file| then None
    else
      match Slices(file, off + sizes[0], sizes[1..])
      case None => None
      case Some(rest) => Some([file[off..off + sizes[0]]] + rest)
  }

  /** Walk the chunks in order, giving each the samples its run says. */
  function Chunks(file: bytes, offsets: seq<nat>, c: nat, runs: seq<nat>, sizes: seq<nat>): Option<seq<bytes>>
    decreases |offsets|
  {
    if offsets == [] then (if sizes == [] then Some([]) else None)
    else
      var n := SamplesPerChunk(runs, c);
      if n > |sizes| then None
      else
        match Slices(file, offsets[0], sizes[..n])
        case None => None
        case Some(here) =>
          match Chunks(file, offsets[1..], c + 1, runs, sizes[n..])
          case None => None
          case Some(rest) => Some(here + rest)
  }

  function Demux(file: bytes): Option<seq<bytes>> {
    var stbl := Child(Child(Child(Child(Child(Some(file), MOOV), TRAK), MDIA), MINF), STBL);
    match Child(stbl, STSZ)
    case None => None
    case Some(stsz) =>
      match Child(stbl, STCO)
      case None => None
      case Some(stco) =>
        match Child(stbl, STSC)
        case None => None
        case Some(stsc) => DemuxTables(file, SampleSizes(stsz), ChunkOffsets(stco), ChunkRuns(stsc))
  }

  function DemuxTables(file: bytes, sizes: Option<seq<nat>>, offsets: Option<seq<nat>>, runs: Option<seq<nat>>): Option<seq<bytes>> {
    if sizes.None? || offsets.None? || runs.None? then None
    else Chunks(file, offsets.value, 1, runs.value, sizes.value)
  }

  // ----- Reading back what was written -----

  lemma BoxesAtom(cc: FourCC, payload: bytes, rest: bytes)
    requires 8 + |payload| < 0x1_0000_0000
    ensures Boxes(Atom(cc, payload) + rest) ==
            match Boxes(rest) case None => None case Some(bs) => Some([Box(cc, payload)] + bs)
  {
    var b := Atom(cc, payload) + rest;
    assert b == [] + PackBe32(8 + |payload|) + (cc + payload + rest);
    ReadAfterPack32([], 8 + |payload|, cc + payload + rest);
    assert b[4..8] == cc;
    assert b[8..8 + |payload|] == payload;
    assert b[8 + |payload|..] == rest;
  }

  /** Every size field can hold its box's length. */
  predicate SizesFit(boxes: seq<Box>) {
    forall i :: 0 <= i < |boxes| ==> 8 + |boxes[i].payload| < 0x1_0000_0000
  }

  /** A box too long for its size field is read as a shorter one, if at all. */
  lemma BoxesOversized(cc: FourCC, payload: bytes, rest: bytes)
    requires 8 + |payload| >= 0x1_0000_0000
    ensures var r := Boxes(Atom(cc, payload) + rest); r.Some? ==> r.value != [] && |r.value[0].payload| < |payload|
  {
    var b := Atom(cc, payload) + rest;
    var size := U32(8 + |payload|);
    Regroup(PackBe32(size), cc, payload);
    Regroup(PackBe32(size), cc + payload, rest);
    assert b == [] + PackBe32(size) + (cc + payload + rest);
    ReadAfterPack32([], size, cc + payload + rest);
  }

  /** Atoms written in a row are read back as written if and only if each fits its size field. */
  lemma {:induction false} BoxesOfAtoms(boxes: seq<Box>)
    ensures Boxes(Atoms(boxes)) == Some(boxes) <==> SizesFit(boxes)
    decreases |boxes|
  {
    if boxes != [] {
      var first, rest := boxes[0], boxes[1..];
      BoxesOfAtoms(rest);
      assert boxes == [first] + rest;
      assert SizesFit(boxes) <==> 8 + |first.payload| < 0x1_0000_0000 && SizesFit(rest);
      if 8 + |first.payload| < 0x1_0000_0000 {
        BoxesAtom(first.cc, first.payload, Atoms(rest));
        HeadAndTail(first, rest, Boxes(Atoms(rest)));
      } else {
        BoxesOversized(first.cc, first.payload, Atoms(rest));
      }
    }
  }

  lemma HeadAndTail(first: Box, rest: seq<Box>, r: Option<seq<Box>>)
    ensures r.Some? ==> ([first] + r.value == [first] + rest <==> r.value == rest)
  {
    if r.Some? {
      assert ([first] + r.value)[1..] == r.value && ([first] + rest)[1..] == rest;
    }
  }

  /** A box is no longer than what contains it. */
  lemma {:induction false} AtomInside(boxes: seq<Box>, i: nat)
    requires i < |boxes|
    ensures 8 + |boxes[i].payload| <= |Atoms(boxes)|
    decreases |boxes|
  {
    if i > 0 {
      AtomInside(boxes[1..], i - 1);
    }
  }

  lemma {:induction false} FindSkips(boxes: seq<Box>, k: nat, cc: FourCC)
    requires k <= |boxes| && forall i :: 0 <= i < k ==> boxes[i].cc != cc
    ensures Find(boxes, cc) == Find(boxes[k..], cc)
    decreases k
  {
    if k == 0 {
      assert boxes[0..] == boxes;
    } else {
      FindSkips(boxes[1..], k - 1, cc);
      assert boxes[1..][k - 1..] == boxes[k..];
    }
  }

  /** The first box of a type among atoms written in a row is found, with its payload. */
  lemma ChildAt(boxes: seq<Box>, i: nat)
    requires i < |boxes| && forall j :: 0 <= j < i ==> boxes[j].cc != boxes[i].cc
    requires SizesFit(boxes)
    ensures Child(Some(Atoms(boxes)), boxes[i].cc) == Some(boxes[i].payload)
  {
    BoxesOfAtoms(boxes);
    FindSkips(boxes, i, boxes[i].cc);
  }

  /** What fits as a whole fits in its parts. */
  lemma PartsFit(boxes: seq<Box>)
    requires |Atoms(boxes)| < 0x1_0000_0000
    ensures SizesFit(boxes)
  {
    forall i | 0 <= i < |boxes| ensures 8 + |boxes[i].payload| < 0x1_0000_0000 {
      AtomInside(boxes, i);
    }
  }

  lemma NestedChild(boxes: seq<Box>, i: nat)
    requires i < |boxes| && forall j :: 0 <= j < i ==> boxes[j].cc != boxes[i].cc
    requires |Atoms(boxes)| < 0x1_0000_0000
    ensures Child(Some(Atoms(boxes)), boxes[i].cc) == Some(boxes[i].payload)
    ensures |boxes[i].payload| < 0x1_0000_0000
  {
    PartsFit(boxes);
    ChildAt(boxes, i);
  }

  lemma MovieChild(ftyp: bytes, mdat: bytes, x: Index)
    requires SizesFit([Box(FTYP, ftyp), Box(MDAT, mdat), Box(MOOV, Moov(x))])
    ensures Child(Some(Movie(ftyp, mdat, x)), MOOV) == Some(Moov(x)) && |Moov(x)| < 0x1_0000_0000
  {
    var boxes := [Box(FTYP, ftyp), Box(MDAT, mdat), Box(MOOV, Moov(x))];
    ChildAt(boxes, 2);
    assert 8 + |boxes[2].payload| < 0x1_0000_0000;
  }

  lemma MoovChild(x: Index)
    requires |Moov(x)| < 0x1_0000_0000
    ensures Child(Some(Moov(x)), TRAK) == Some(Trak(x)) && |Trak(x)| < 0x1_0000_0000
  {
    NestedChild([Box(MVHD, x.mvhd), Box(TRAK, Trak(x))], 1);
  }

  lemma TrakChild(x: Index)
    requires |Trak(x)| < 0x1_0000_0000
    ensures Child(Some(Trak(x)), MDIA) == Some(Mdia(x)) && |Mdia(x)| < 0x1_0000_0000
  {
    NestedChild([Box(TKHD, x.tkhd), Box(MDIA, Mdia(x))], 1);
  }

  lemma MdiaChild(x: Index)
    requires |Mdia(x)| < 0x1_0000_0000
    ensures Child(Some(Mdia(x)), MINF) == Some(Minf(x)) && |Minf(x)| < 0x1_0000_0000
  {
    NestedChild([Box(MDHD, x.mdhd), Box(HDLR, x.hdlr), Box(MINF, Minf(x))], 2);
  }

  lemma MinfChild(x: Index)
    requires |Minf(x)| < 0x1_0000_0000
    ensures Child(Some(Minf(x)), STBL) == Some(Stbl(x)) && |Stbl(x)| < 0x1_0000_0000
  {
    NestedChild([Box(VMHD, x.vmhd), Box(DINF, Atom(DREF, x.dref)), Box(STBL, Stbl(x))], 2);
  }

  lemma StblChildren(x: Index)
    requires |Stbl(x)| < 0x1_0000_0000
    ensures Child(Some(Stbl(x)), STSC) == Some(x.stsc)
    ensures Child(Some(Stbl(x)), STSZ) == Some(x.stsz)
    ensures Child(Some(Stbl(x)), STCO) == Some(x.stco)
    ensures |x.stsz| < 0x1_0000_0000
  {
    var boxes := [Box(STSD, x.stsd), Box(STTS, x.stts), Box(STSC, x.stsc), Box(STSZ, x.stsz), Box(STCO, x.stco)];
    NestedChild(boxes, 2);
    NestedChild(boxes, 3);
    NestedChild(boxes, 4);
  }

  /** The demuxer reaches the three tables it needs, whatever the other payloads hold. */
  lemma DemuxReaches(ftyp: bytes, mdat: bytes, x: Index)
    requires SizesFit([Box(FTYP, ftyp), Box(MDAT, mdat), Box(MOOV, Moov(x))])
    ensures var file := Movie(ftyp, mdat, x);
            Demux(file) == DemuxTables(file, SampleSizes(x.stsz), ChunkOffsets(x.stco), ChunkRuns(x.stsc))
    ensures |x.stsz| < 0x1_0000_0000
  {
    MovieChild(ftyp, mdat, x);
    MoovChild(x);
    TrakChild(x);
    MdiaChild(x);
    MinfChild(x);
    StblChildren(x);
  }

  // ----- The sample table -----

  /** A table of 32-bit entries is read back entry by entry, wherever it starts. */
  lemma {:induction false} ReadTableBack(pre: bytes, ns: seq<nat>)
    requires forall i :: 0 <= i < |ns| ==> ns[i] < 0x1_0000_0000
    ensures ReadTable(pre + Table(ns), |pre|, |ns|) == Some(ns)
    decreases |ns|
  {
    if ns != [] {
      var v, rest := ns[0], Table(ns[1..]);
      Regroup(pre, PackBe32(v), rest);
      ReadAfterPack32(pre, v, rest);
      ReadTableBack(pre + PackBe32(v), ns[1..]);
      assert [v] + ns[1..] == ns;
    }
  }

  lemma SizesRead(sizes: seq<nat>)
    requires |sizes| < 0x1_0000_0000
    requires forall i :: 0 <= i < |sizes| ==> sizes[i] < 0x1_0000_0000
    ensures SampleSizes(StszPayload(sizes)) == Some(sizes)
  {
    var p := StszPayload(sizes);
    var head := Be32(0) + Be32(0) + Be32(|sizes|);
    assert p == Be32(0) + PackBe32(0) + (Be32(|sizes|) + Table(sizes));
    ReadAfterPack32(Be32(0), 0, Be32(|sizes|) + Table(sizes));
    assert p == (Be32(0) + Be32(0)) + PackBe32(|sizes|) + Table(sizes);
    ReadAfterPack32(Be32(0) + Be32(0), |sizes|, Table(sizes));
    assert p == head + Table(sizes);
    ReadTableBack(head, sizes);
  }

  lemma OffsetsRead(offset: nat)
    requires offset < 0x1_0000_0000
    ensures ChunkOffsets(StcoPayload(offset)) == Some([offset])
  {
    var head := Be32(0) + Be32(1);
    assert Table([offset]) == Be32(offset) + [] == Be32(offset);
    assert StcoPayload(offset) == head + Table([offset]);
    ReadAfterPack32(Be32(0), 1, Be32(offset));
    ReadTableBack(head, [offset]);
  }

  lemma RunsRead(count: nat)
    requires count < 0x1_0000_0000
    ensures ChunkRuns(StscPayload(count)) == Some([1, count, 1])
  {
    var head := Be32(0) + Be32(1);
    var ns: seq<nat> := [1, count, 1];
    assert Table(ns[1..][1..]) == Be32(1) + Table(ns[1..][1..][1..]) == Be32(1);
    assert Table(ns[1..]) == Be32(count) + Table(ns[1..][1..]);
    assert Table(ns) == Be32(1) + Table(ns[1..]);
    assert StscPayload(count) == head + Table(ns);
    assert StscPayload(count) == Be32(0) + PackBe32(1) + (Be32(1) + Be32(count) + Be32(1));
    ReadAfterPack32(Be32(0), 1, Be32(1) + Be32(count) + Be32(1));
    ReadTableBack(head, ns);
  }

  /** Frames laid end to end from `off` on are cut apart again by their sizes. */
  lemma {:induction false} SlicesBack(file: bytes, off: nat, jpegs: seq<bytes>, post: bytes)
    requires off <= |file| && file[off..] == Flat(jpegs) + post
    ensures Slices(file, off, Sizes(jpegs)) == Some(jpegs)
    decreases |jpegs|
  {
    if jpegs != [] {
      var first, others := jpegs[0], Flat(jpegs[1..]);
      Regroup(first, others, post);
      Cut(file, off, first, others + post);
      SlicesBack(file, off + |first|, jpegs[1..], post);
      assert Sizes(jpegs)[1..] == Sizes(jpegs[1..]);
      assert [first] + jpegs[1..] == jpegs;
    }
  }

  lemma Cut(file: bytes, off: nat, first: bytes, rest: bytes)
    requires off <= |file| && file[off..] == first + rest
    ensures off + |first| <= |file| && file[off..off + |first|] == first && file[off + |first|..] == rest
  {
    assert |file| == off + |first| + |rest|;
    assert file[off..off + |first|] == file[off..][..|first|];
    assert file[off + |first|..] == file[off..][|first|..];
  }

  lemma {:induction false} FlatLength(jpegs: seq<bytes>)
    ensures forall i :: 0 <= i < |jpegs| ==> |jpegs[i]| <= |Flat(jpegs)|
  {
    if jpegs != [] {
      FlatLength(jpegs[1..]);
      forall i | 0 <= i < |jpegs|
        ensures |jpegs[i]| <= |Flat(jpegs)|
      {
        if i > 0 {
          assert jpegs[i] == jpegs[1..][i - 1];
        }
      }
    }
  }

  /** One chunk holding every sample: the walk is a single cut. */
  lemma OneChunk(file: bytes, offset: nat, sizes: seq<nat>, frames: seq<bytes>)
    requires Slices(file, offset, sizes) == Some(frames)
    ensures Chunks(file, [offset], 1, [1, |sizes|, 1], sizes) == Some(frames)
  {
    assert sizes[..|sizes|] == sizes && sizes[|sizes|..] == [];
    assert frames + [] == frames;
  }

  /** The first 28 bytes: the type box and the header of the media box. */
  function Opening(size: int): (r: bytes)
    ensures |r| == PAYLOAD_START
  {
    Atom(FTYP, FtypPayload()) + Be32(size) + MDAT
  }

  /** The media data sits behind the opening, whatever the index. */
  lemma MovieShape(ftyp: bytes, mdat: bytes, x: Index)
    ensures Movie(ftyp, mdat, x) == (Atom(FTYP, ftyp) + Be32(8 + |mdat|) + MDAT) + mdat + Atom(MOOV, Moov(x))
  {
    var boxes := [Box(FTYP, ftyp), Box(MDAT, mdat), Box(MOOV, Moov(x))];
    assert boxes[1..][1..][1..] == [];
    assert Atoms(boxes[2..]) == Atom(MOOV, Moov(x)) + [] == Atom(MOOV, Moov(x));
    assert boxes[1..][1..] == boxes[2..];
    assert Atoms(boxes[1..]) == Atom(MDAT, mdat) + Atom(MOOV, Moov(x));
  }

  /** Everything but the frames and their four-octet table entries takes 595 octets. */
  function FileSize(jpegs: seq<bytes>): nat {
    28 + |Flat(jpegs)| + IndexSize(|jpegs|)
  }

  function IndexSize(n: nat): nat { 567 + 4 * n }

  lemma IndexSizeIs(width: int, height: int, fps: int, jpegs: seq<bytes>)
    ensures 8 + |Moov(IndexOf(width, height, fps, jpegs))| == IndexSize(|jpegs|)
  {
    var n, x := |jpegs|, IndexOf(width, height, fps, jpegs);
    MoovLength(x);
    PayloadLengths(fps, n, width, height);
    PayloadLengths(1, n, width, height);
    PayloadLengths(n, n, width, height);
    PayloadLengths(if jpegs == [] then 0 else PAYLOAD_START, n, width, height);
  }

  lemma FileSizeIs(width: int, height: int, fps: int, jpegs: seq<bytes>)
    ensures |FileImage(width, height, fps, jpegs)| == FileSize(jpegs)
  {
    var x := IndexOf(width, height, fps, jpegs);
    ThreeAtoms(Box(FTYP, FtypPayload()), Box(MDAT, Flat(jpegs)), Box(MOOV, Moov(x)));
    IndexSizeIs(width, height, fps, jpegs);
    PayloadLengths(0, 0, 0, 0);
  }

  /** Both long boxes, the media data and the index, fit their 32-bit size fields. */
  predicate Holdable(jpegs: seq<bytes>) {
    8 + |Flat(jpegs)| < 0x1_0000_0000 && IndexSize(|jpegs|) < 0x1_0000_0000
  }

  function TopLevel(width: int, height: int, fps: int, jpegs: seq<bytes>): seq<Box> {
    [Box(FTYP, FtypPayload()), Box(MDAT, Flat(jpegs)), Box(MOOV, Moov(IndexOf(width, height, fps, jpegs)))]
  }

  lemma HoldableFits(width: int, height: int, fps: int, jpegs: seq<bytes>)
    ensures SizesFit(TopLevel(width, height, fps, jpegs)) <==> Holdable(jpegs)
  {
    var boxes := TopLevel(width, height, fps, jpegs);
    IndexSizeIs(width, height, fps, jpegs);
    PayloadLengths(0, 0, 0, 0);
    assert |boxes[0].payload| == 12 && 8 + |boxes[2].payload| == IndexSize(|jpegs|) && boxes[1].payload == Flat(jpegs);
  }

  /**
    * A player that knows only the container format finds the three boxes as they were written
    * and gets back exactly the frames that were pushed, in order, if and only if the media
    * data and the index are each under 2^32 octets.
    */
  lemma DemuxRecovers(width: int, height: int, fps: int, jpegs: seq<bytes>)
    ensures var file := FileImage(width, height, fps, jpegs);
            Boxes(file) == Some(TopLevel(width, height, fps, jpegs)) && Demux(file) == Some(jpegs) <==> Holdable(jpegs)
  {
    HoldableFits(width, height, fps, jpegs);
    BoxesOfAtoms(TopLevel(width, height, fps, jpegs));
    if Holdable(jpegs) {
      HoldableRecovers(width, height, fps, jpegs);
    }
  }

  /** The shortest single frame that is too long. */
  lemma FourGigabytesAreLost(width: int, height: int, fps: int)
    ensures var jpegs := [Zeros(0xFFFF_FFF8)]; var file := FileImage(width, height, fps, jpegs);
            !(Boxes(file) == Some(TopLevel(width, height, fps, jpegs)) && Demux(file) == Some(jpegs))
  {
    var jpegs := [Zeros(0xFFFF_FFF8)];
    assert Flat(jpegs) == jpegs[0] + Flat(jpegs[1..]);
    DemuxRecovers(width, height, fps, jpegs);
  }

  lemma HoldableRecovers(width: int, height: int, fps: int, jpegs: seq<bytes>)
    requires Holdable(jpegs)
    ensures Demux(FileImage(width, height, fps, jpegs)) == Some(jpegs)
  {
    var offset := if jpegs == [] then 0 else PAYLOAD_START;
    var x := IndexOf(width, height, fps, jpegs);
    var file := FileImage(width, height, fps, jpegs);
    HoldableFits(width, height, fps, jpegs);
    DemuxReaches(FtypPayload(), Flat(jpegs), x);
    FileShape(width, height, fps, jpegs);
    FlatLength(jpegs);
    TablesRead(Sizes(jpegs), offset, |x.stsz|);
    FramesSliced(Atom(MOOV, Moov(x)), jpegs);
    OneChunk(file, offset, Sizes(jpegs), jpegs);
  }

  // ----- At the right speed -----

  /** What a player takes from the headers: time units a second, frames, units a frame, and the picture's size. */
  datatype Play = Play(timescale: nat, count: nat, delta: nat, width: nat, height: nat)

  function ReadHeaders(mdhd: bytes, stts: bytes, stsd: bytes): Option<Play> {
    if |mdhd| != 24 || |stts| != 16 || ReadBe32(stts, 4) != 1 || |stsd| < 44 then None
    else Some(Play(ReadBe32(mdhd, 12), ReadBe32(stts, 8), ReadBe32(stts, 12), ReadBe16(stsd, 40), ReadBe16(stsd, 42)))
  }

  function Headers(file: bytes): Option<Play> {
    var mdia := Child(Child(Child(Some(file), MOOV), TRAK), MDIA);
    var stbl := Child(Child(mdia, MINF), STBL);
    var mdhd, stts, stsd := Child(mdia, MDHD), Child(stbl, STTS), Child(stbl, STSD);
    if mdhd.None? || stts.None? || stsd.None? then None else ReadHeaders(mdhd.value, stts.value, stsd.value)
  }

  lemma HeadersReached(ftyp: bytes, mdat: bytes, x: Index)
    requires SizesFit([Box(FTYP, ftyp), Box(MDAT, mdat), Box(MOOV, Moov(x))])
    ensures Headers(Movie(ftyp, mdat, x)) == ReadHeaders(x.mdhd, x.stts, x.stsd)
  {
    MovieChild(ftyp, mdat, x);
    MoovChild(x);
    TrakChild(x);
    MdiaChild(x);
    MinfChild(x);
    NestedChild([Box(MDHD, x.mdhd), Box(HDLR, x.hdlr), Box(MINF, Minf(x))], 0);
    var boxes := [Box(STSD, x.stsd), Box(STTS, x.stts), Box(STSC, x.stsc), Box(STSZ, x.stsz), Box(STCO, x.stco)];
    NestedChild(boxes, 0);
    NestedChild(boxes, 1);
  }

  lemma MdhdReads(timescale: int, duration: int)
    ensures var p := MdhdPayload(timescale, duration);
            |p| == 24 && ReadBe32(p, 12) == U32(timescale) && ReadBe32(p, 16) == U32(duration)
  {
    var p := MdhdPayload(timescale, duration);
    assert p[12..16] == Be32(timescale) && p[16..20] == Be32(duration);
    FieldReads32(p, 12, U32(timescale));
    FieldReads32(p, 16, U32(duration));
  }

  lemma MvhdReads(timescale: int, duration: int)
    ensures var p := MvhdPayload(timescale, duration);
            |p| == 100 && ReadBe32(p, 12) == U32(timescale) && ReadBe32(p, 16) == U32(duration)
  {
    var p := MvhdPayload(timescale, duration);
    assert p[12..16] == Be32(timescale) && p[16..20] == Be32(duration);
    FieldReads32(p, 12, U32(timescale));
    FieldReads32(p, 16, U32(duration));
  }

  lemma TkhdReads(duration: int, width: int, height: int)
    ensures var p := TkhdPayload(1, duration, width, height);
            |p| == 84 && ReadBe32(p, 12) == 1 && ReadBe32(p, 20) == U32(duration)
            && ReadBe32(p, 76) == U32(width * 0x1_0000) && ReadBe32(p, 80) == U32(height * 0x1_0000)
  {
    var p := TkhdPayload(1, duration, width, height);
    assert p[12..16] == PackBe32(1) && p[20..24] == Be32(duration);
    assert p[76..80] == Be32(width * 0x1_0000) && p[80..84] == Be32(height * 0x1_0000);
    FieldReads32(p, 12, 1);
    FieldReads32(p, 20, U32(duration));
    FieldReads32(p, 76, U32(width * 0x1_0000));
    FieldReads32(p, 80, U32(height * 0x1_0000));
  }

  /** Movie, track and media headers agree on how long it is, in the same units. */
  lemma DurationsAgree(width: int, height: int, fps: int, n: nat)
    ensures var movie, track, media := MvhdPayload(fps, n), TkhdPayload(1, n, width, height), MdhdPayload(fps, n);
            && |movie| == 100 && |track| == 84 && |media| == 24
            && ReadBe32(movie, 12) == ReadBe32(media, 12) == U32(fps)
            && ReadBe32(movie, 16) == ReadBe32(track, 20) == ReadBe32(media, 16) == U32(n)
  {
    MvhdReads(fps, n);
    TkhdReads(n, width, height);
    MdhdReads(fps, n);
  }

  lemma SttsReads(count: int)
    ensures var p := SttsPayload(count);
            |p| == 16 && ReadBe32(p, 4) == 1 && ReadBe32(p, 8) == U32(count) && ReadBe32(p, 12) == 1
  {
    var p := SttsPayload(count);
    assert p[4..8] == PackBe32(1) && p[8..12] == Be32(count) && p[12..16] == PackBe32(1);
    FieldReads32(p, 4, 1);
    FieldReads32(p, 8, U32(count));
    FieldReads32(p, 12, 1);
  }

  lemma StsdReads(width: int, height: int)
    ensures var p := StsdPayload(width, height);
            |p| >= 44 && ReadBe16(p, 40) == U16(width) && ReadBe16(p, 42) == U16(height)
  {
    var p := StsdPayload(width, height);
    assert p[40..42] == Be16(width) && p[42..44] == Be16(height);
    FieldReads16(p, 40, U16(width));
    FieldReads16(p, 42, U16(height));
  }

  lemma HeadersSay(width: int, height: int, fps: int, n: nat)
    requires 0 < fps < 0x1_0000_0000 && 0 < width < 0x1_0000 && 0 < height < 0x1_0000 && n < 0x1_0000_0000
    ensures ReadHeaders(MdhdPayload(fps, n), SttsPayload(n), StsdPayload(width, height)) == Some(Play(fps, n, 1, width, height))
  {
    MdhdReads(fps, n);
    SttsReads(n);
    StsdReads(width, height);
    Narrowed(fps, width);
    Narrowed(n, height);
    HeadersFrom(MdhdPayload(fps, n), SttsPayload(n), StsdPayload(width, height), fps, n, width, height);
  }

  lemma Narrowed(a: int, b: int)
    ensures 0 <= a < 0x1_0000_0000 ==> U32(a) == a
    ensures 0 <= b < 0x1_0000 ==> U16(b) == b
  {
  }

  lemma HeadersFrom(mdhd: bytes, stts: bytes, stsd: bytes, fps: nat, n: nat, width: nat, height: nat)
    requires |mdhd| == 24 && ReadBe32(mdhd, 12) == fps
    requires |stts| == 16 && ReadBe32(stts, 4) == 1 && ReadBe32(stts, 8) == n && ReadBe32(stts, 12) == 1
    requires |stsd| >= 44 && ReadBe16(stsd, 40) == width && ReadBe16(stsd, 42) == height
    ensures ReadHeaders(mdhd, stts, stsd) == Some(Play(fps, n, 1, width, height))
  {
  }

  /** How long one frame is shown, in seconds. */
  function Seconds(p: Play): real
    requires p.timescale > 0
  {
    p.delta as real / p.timescale as real
  }

  lemma IndexFields(width: int, height: int, fps: int, jpegs: seq<bytes>)
    ensures var x, n := IndexOf(width, height, fps, jpegs), |jpegs|;
            x.mdhd == MdhdPayload(fps, n) && x.stts == SttsPayload(n) && x.stsd == StsdPayload(width, height)
  {
  }

  /**
    * A player that follows the headers shows every frame for one part in `fps` of a second,
    * at the size the recording was started with.
    */
  lemma PlaysAtSpeed(width: int, height: int, fps: int, jpegs: seq<bytes>)
    requires Holdable(jpegs) && 0 < fps < 0x1_0000_0000 && 0 < width < 0x1_0000 && 0 < height < 0x1_0000
    ensures Headers(FileImage(width, height, fps, jpegs)) == Some(Play(fps, |jpegs|, 1, width, height))
    ensures Seconds(Play(fps, |jpegs|, 1, width, height)) == 1.0 / fps as real
  {
    HoldableFits(width, height, fps, jpegs);
    HeadersReached(FtypPayload(), Flat(jpegs), IndexOf(width, height, fps, jpegs));
    IndexFields(width, height, fps, jpegs);
    HeadersSay(width, height, fps, |jpegs|);
  }

  lemma FileShape(width: int, height: int, fps: int, jpegs: seq<bytes>)
    ensures FileImage(width, height, fps, jpegs) ==
            (Opening(8 + |Flat(jpegs)|) + Flat(jpegs)) + Atom(MOOV, Moov(IndexOf(width, height, fps, jpegs)))
  {
    MovieShape(FtypPayload(), Flat(jpegs), IndexOf(width, height, fps, jpegs));
  }

  lemma TablesRead(sizes: seq<nat>, offset: nat, limit: nat)
    requires offset < 0x1_0000_0000
    requires limit == |StszPayload(sizes)| < 0x1_0000_0000
    requires forall i :: 0 <= i < |sizes| ==> sizes[i] < 0x1_0000_0000
    ensures SampleSizes(StszPayload(sizes)) == Some(sizes)
    ensures ChunkOffsets(StcoPayload(offset)) == Some([offset])
    ensures ChunkRuns(StscPayload(|sizes|)) == Some([1, |sizes|, 1])
  {
    SizesRead(sizes);
    OffsetsRead(offset);
    RunsRead(|sizes|);
  }

  lemma Behind(opening: bytes, rest: bytes)
    ensures (opening + rest)[|opening|..] == rest
  {
  }

  lemma FramesSliced(moov: bytes, jpegs: seq<bytes>)
    ensures var file := Opening(8 + |Flat(jpegs)|) + Flat(jpegs) + moov;
            Slices(file, if jpegs == [] then 0 else PAYLOAD_START, Sizes(jpegs)) == Some(jpegs)
  {
    var file := Opening(8 + |Flat(jpegs)|) + Flat(jpegs) + moov;
    if jpegs != [] {
      Regroup(Opening(8 + |Flat(jpegs)|), Flat(jpegs), moov);
      Behind(Opening(8 + |Flat(jpegs)|), Flat(jpegs) + moov);
      SlicesBack(file, PAYLOAD_START, jpegs, moov);
    }
  }

  // ----- The recorder -----

  datatype Sample = Sample(size: u32, offset: u32)

  /** Where sample `i` begins: after the frames before it. */
  function OffsetOf(jpegs: seq<bytes>, i: nat): nat
    requires i <= |jpegs|
  {
    PAYLOAD_START + |Flat(jpegs[..i])|
  }

  class Recorder {
    var open: bool
    var file: bytes
    var pos: nat                      // write position in the file
    var width: int
    var height: int
    var fps: int
    var mdatSizeOffset: nat
    var mdatPayloadStart: nat
    var frames: seq<Sample>
    ghost var jpegs: seq<bytes>       // what has been pushed
    var finished: seq<bytes>          // recordings closed so far

    constructor ()
      ensures Valid() && !open && finished == []
    {
      open, file, pos, width, height, fps := false, [], 0, 0, 0, 5;
      mdatSizeOffset, mdatPayloadStart, frames, jpegs, finished := 0, 0, [], [], [];
    }

    ghost predicate Valid()
      reads this
    {
      open ==>
        && file == Opening(0) + Flat(jpegs)
        && pos == |file|
        && mdatSizeOffset == 20 && mdatPayloadStart == PAYLOAD_START
        && |frames| == |jpegs|
        && forall i :: 0 <= i < |frames| ==> frames[i] == Sample(U32(|jpegs[i]|), U32(OffsetOf(jpegs, i)))
    }

    /** Overwrites from the current position, extending the file where it runs past the end. */
    method Write(data: bytes)
      requires pos <= |file|
      modifies this`file, this`pos
      ensures file == old(file)[..old(pos)] + data
                      + if old(pos) + |data| < |old(file)| then old(file)[old(pos) + |data|..] else []
      ensures pos == old(pos) + |data| <= |file|
      ensures old(pos) == |old(file)| ==> file == old(file) + data
    {
      file := file[..pos] + data + if pos + |data| < |file| then file[pos + |data|..] else [];
      pos := pos + |data|;
    }

    method Start(width: int, height: int, fps: int, opens: bool) returns (ok: bool)
      requires Valid()
      modifies this
      ensures Valid()
      ensures ok <==> width > 0 && height > 0 && fps > 0 && opens
      ensures open == ok
      ensures ok ==> jpegs == [] && this.width == width && this.height == height && this.fps == fps
      ensures finished == old(finished) +
                if old(open) then [FileImage(old(this.width), old(this.height), old(this.fps), old(jpegs))] else []
    {
      if open { Stop(); }
      if width <= 0 || height <= 0 || fps <= 0 || !opens { return false; }
      open := true;
      this.width, this.height, this.fps := width, height, fps;
      frames, jpegs := [], [];
      BeginFile();
      assert Opening(0) + Flat(jpegs) == Opening(0);
      return true;
    }

    method BeginFile()
      modifies this`file, this`pos, this`mdatSizeOffset, this`mdatPayloadStart
      ensures file == Opening(0) && pos == |file| && mdatSizeOffset == 20 && mdatPayloadStart == PAYLOAD_START
    {
      file, pos := [], 0;
      Write(Atom(FTYP, FtypPayload()));
      mdatSizeOffset := pos;
      Write(Be32(0));
      Write(MDAT);
      mdatPayloadStart := pos;
    }

    /** Rewrites four bytes at `offset` and comes back to where the file was. */
    method PatchU32At(offset: nat, v: int)
      requires offset + 4 <= |file| && pos <= |file|
      modifies this`file, this`pos
      ensures pos == old(pos) && file == old(file)[..offset] + Be32(v) + old(file)[offset + 4..]
    {
      var here := pos;
      pos := offset;
      Write(Be32(v));
      pos := here;
      assert file == old(file)[..offset] + Be32(v) + old(file)[offset + 4..];
    }

    /** `encoded` is what the JPEG encoder made of the image, if it could. */
    method PushFrame(encoded: Option<bytes>) returns (ok: bool)
      requires Valid()
      modifies this`file, this`pos, this`frames, this`jpegs
      ensures Valid()
      ensures ok <==> open && encoded.Some?
      ensures jpegs == old(jpegs) + if ok then [encoded.value] else []
    {
      if !open || encoded.None? { return false; }
      var jpeg := encoded.value;
      PushedOne(jpegs, jpeg);
      var s := Sample(U32(|jpeg|), U32(pos));
      Write(jpeg);
      frames := frames + [s];
      jpegs := jpegs + [jpeg];
      return true;
    }

    /** Patches the media size, appends the index and closes: the file is the recording. */
    method Stop()
      requires Valid()
      modifies this
      ensures Valid() && !open
      ensures width == old(width) && height == old(height) && fps == old(fps)
      ensures finished == old(finished) + if old(open) then [FileImage(width, height, fps, old(jpegs))] else []
    {
      if !open { return; }
      PatchSize();
      AppendIndex();
      FileShape(width, height, fps, jpegs);
      finished := finished + [file];
      open, frames := false, [];
    }

    method PatchSize()
      requires Valid() && open
      modifies this`file, this`pos
      ensures file == Opening(8 + |Flat(jpegs)|) + Flat(jpegs) && pos == |file|
    {
      OpeningPatched(Flat(jpegs), 8 + |Flat(jpegs)|);
      PatchU32At(mdatSizeOffset, pos - mdatSizeOffset);
    }

    method AppendIndex()
      requires pos == |file|
      requires |frames| == |jpegs| && forall i :: 0 <= i < |frames| ==> frames[i].size == U32(|jpegs[i]|)
      requires mdatPayloadStart == PAYLOAD_START
      modifies this`file, this`pos
      ensures file == old(file) + Atom(MOOV, Moov(IndexOf(width, height, fps, jpegs)))
    {
      var moov := BuildMoov();
      Write(moov);
    }

    method BuildMoov() returns (moov: bytes)
      requires |frames| == |jpegs| && forall i :: 0 <= i < |frames| ==> frames[i].size == U32(|jpegs[i]|)
      requires mdatPayloadStart == PAYLOAD_START
      ensures moov == Atom(MOOV, Moov(IndexOf(width, height, fps, jpegs)))
    {
      var sizes: seq<int> := [];
      for i := 0 to |frames|
        invariant |sizes| == i && forall k :: 0 <= k < i ==> sizes[k] == U32(|jpegs[k]|)
      {
        sizes := sizes + [frames[i].size];
      }
      SameTable(sizes, Sizes(jpegs));
      moov := Atom(MOOV, Moov(IndexFor(width, height, fps, sizes, if |frames| == 0 then 0 else mdatPayloadStart)));
    }
  }

  /** The table records sizes modulo 2^32, so reducing them first changes nothing. */
  lemma {:induction false} SameTable(a: seq<int>, b: seq<int>)
    requires |a| == |b| && forall i :: 0 <= i < |a| ==> a[i] == U32(b[i])
    ensures Table(a) == Table(b)
    decreases |a|
  {
    if a != [] {
      SameTable(a[1..], b[1..]);
      assert U32(a[0]) == U32(b[0]);
      assert Table(a) == Be32(a[0]) + Table(a[1..]) && Table(b) == Be32(b[0]) + Table(b[1..]);
    }
  }

  lemma PushedOne(jpegs: seq<bytes>, jpeg: bytes)
    ensures Flat(jpegs + [jpeg]) == Flat(jpegs) + jpeg
    ensures OffsetOf(jpegs + [jpeg], |jpegs|) == PAYLOAD_START + |Flat(jpegs)|
    ensures forall i :: 0 <= i < |jpegs| ==> OffsetOf(jpegs + [jpeg], i) == OffsetOf(jpegs, i)
  {
    FlatAppend(jpegs, [jpeg]);
    assert Flat([jpeg]) == jpeg + [] == jpeg;
    assert (jpegs + [jpeg])[..|jpegs|] == jpegs;
    forall i | 0 <= i < |jpegs|
      ensures OffsetOf(jpegs + [jpeg], i) == OffsetOf(jpegs, i)
    {
      assert (jpegs + [jpeg])[..i] == jpegs[..i];
    }
  }

  /** Overwriting the four size octets, and nothing else. */
  lemma OpeningPatched(media: bytes, size: int)
    ensures var before := Opening(0) + media;
            before[..20] + Be32(size) + before[24..] == Opening(size) + media
  {
    var before, ftyp := Opening(0) + media, Atom(FTYP, FtypPayload());
    assert before == ftyp + Be32(0) + (MDAT + media);
    assert before[..20] == ftyp && before[24..] == MDAT + media;
    assert ftyp + Be32(size) + (MDAT + media) == (ftyp + Be32(size) + MDAT) + media;
  }
}
