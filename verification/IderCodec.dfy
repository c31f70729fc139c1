/** IDE-R frames: inbound messages and the outbound data frame. */
module IderCodec {

  import opened ByteCodec

  const CD_ROM: byte := 0xB0
  const FLOPPY: byte := 0xA0

  datatype SessionInfo = SessionInfo(readBuffer: u16, writeBuffer: u16, proto: byte)

  datatype ScsiCommand = ScsiCommand(feature: byte, deviceFlags: byte, cdb: bytes)

  datatype Inbound =
    | OpenSessionReply(info: SessionInfo)
    | Close | KeepAlivePing | KeepAlivePong | ResetOccurred | ErrorOccurred | Heartbeat
    | StatusData(kind: byte, value: u32)
    | CommandWritten(cmd: ScsiCommand)

  datatype Parse = Incomplete | Unknown | Message(m: Inbound, n: nat)

  function Fixed(b: bytes, size: nat, m: Inbound): Parse {
    if |b| < size then Incomplete else Message(m, size)
  }

  /** The message at the head of a non-empty inbox. */
  function ParseInbound(b: bytes): (r: Parse)
    requires b != []
    ensures r.Message? ==> 0 < r.n <= |b|
  {
    if b[0] == 0x41 then
      if |b| < 30 || |b| < 30 + b[29] as int then Incomplete
      else Message(OpenSessionReply(SessionInfo(ReadLe16(b, 16), ReadLe16(b, 18), b[21])), 30 + b[29] as int)
    else if b[0] == 0x43 then Fixed(b, 8, Close)
    else if b[0] == 0x44 then Fixed(b, 8, KeepAlivePing)
    else if b[0] == 0x45 then Fixed(b, 8, KeepAlivePong)
    else if b[0] == 0x46 then Fixed(b, 9, ResetOccurred)
    else if b[0] == 0x49 then
      if |b| < 13 then Incomplete else Message(StatusData(b[8], ReadLe32(b, 9)), 13)
    else if b[0] == 0x4A then Fixed(b, 11, ErrorOccurred)
    else if b[0] == 0x4B then Fixed(b, 8, Heartbeat)
    else if b[0] == 0x50 then
      if |b| < 28 then Incomplete else Message(CommandWritten(ScsiCommand(b[9], b[14], b[16..28])), 28)
    else Unknown
  }

  lemma ParseStable(b: bytes, more: bytes)
    requires b != [] && ParseInbound(b) != Incomplete
    ensures ParseInbound(b + more) == ParseInbound(b)
  {
    assert (b + more)[0] == b[0];
    if b[0] == 0x41 {
      assert ReadLe16(b + more, 16) == ReadLe16(b, 16) && ReadLe16(b + more, 18) == ReadLe16(b, 18);
    } else if b[0] == 0x49 {
      assert ReadLe32(b + more, 9) == ReadLe32(b, 9);
    } else if b[0] == 0x50 {
      assert (b + more)[16..28] == b[16..28];
    }
  }

  // ----- Outbound -----

  datatype Body =
    | Pong
    | ResetResponse
    | EnableFeatures(kind: byte, value: byte)
    | CommandEnd(sense: byte, dev: byte, asc: byte, asq: byte)
    | SendData(dev: byte, completed: bool, data: bytes, dma: bool)

  datatype Frame = Frame(sequence: u32, body: Body)

  /** The 0x54 frame: an eight-octet header, a 26-octet response header, the data. */
  function BuildSendData(sequence: u32, dev: byte, completed: bool, data: bytes, dma: bool): (r: bytes)
    ensures |r| == 34 + |data|
  {
    var attributes := (if completed then 2 else 0) + (if dma then 1 else 0);
    var n := PackLe16(|data| % 0x1_0000);
    [0x54, 0, 0, attributes] + PackLe32(sequence) + ([0] + n + SendDataTail(dev, completed, n, dma) + data)
  }

  function SendDataTail(dev: byte, completed: bool, n: bytes, dma: bool): (r: bytes)
    requires |n| == 2
    ensures |r| == 23 && r[7] == dev
  {
    [0, if dma then 0xB4 else 0xB5, 0, 2, 0] + (if dma then [0, 0] else n) + [dev, 0x58]
    + (if completed then [0x85, 0, 3, 0, 0, 0, dev, 0x50] + Zeros(6) else Zeros(14))
  }

  /** The data frame as the other side reads it. */
  function ParseSendData(f: bytes): Option<Frame> {
    if |f| < 34 || f[0] != 0x54 || f[3] >= 4 then None
    else if |f| != 34 + ReadLe16(f, 9) as int then None
    else Some(Frame(ReadLe32(f, 4), SendData(f[18], f[3] >= 2, f[34..], f[3] == 1 || f[3] == 3)))
  }

  /** A data frame says what it was built to say, as long as the data fits its length field. */
  lemma SendDataRoundTrip(sequence: u32, dev: byte, completed: bool, data: bytes, dma: bool)
    requires |data| < 0x1_0000
    ensures ParseSendData(BuildSendData(sequence, dev, completed, data, dma))
            == Some(Frame(sequence, SendData(dev, completed, data, dma)))
  {
    var n := PackLe16(|data|);
    var head := [0x54, 0, 0, (if completed then 2 else 0) + (if dma then 1 else 0)];
    var rest := [0] + n + SendDataTail(dev, completed, n, dma) + data;
    ReadAfterPack32(head, sequence, rest);
    RestOfSendData(n, SendDataTail(dev, completed, n, dma), data);
    Behind(head + PackLe32(sequence), rest);
  }

  lemma Behind(head: bytes, rest: bytes)
    requires |head| == 8 && |rest| >= 26
    ensures var f := head + rest;
            f[0] == head[0] && f[3] == head[3] && f[9] == rest[1] && f[10] == rest[2] && f[18] == rest[10] && f[34..] == rest[26..]
  {
  }

  lemma RestOfSendData(n: bytes, tail: bytes, data: bytes)
    requires |n| == 2 && |tail| == 23 && |data| < 0x1_0000 && n == PackLe16(|data|)
    ensures var rest := [0] + n + tail + data;
            && |rest| == 26 + |data| && rest[1] == n[0] && rest[2] == n[1] && rest[10] == tail[7] && rest[26..] == data
            && n[0] as int + 0x100 * n[1] as int == |data|
  {
  }
}
