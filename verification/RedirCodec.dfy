/** Frames of the AMT redirection handshake (0x11 start reply, 0x14 authentication reply). */
module RedirCodec {

  import opened ByteCodec

  const AUTH_QUERY: byte := 0
  const DIGEST_NO_QOP: byte := 3
  const DIGEST_WITH_QOP: byte := 4
  const AUTH_REPLY_MAX_DATA: nat := 0x1_0000

  datatype Caps = Caps(basic: bool, kerberos: bool, digestNoQop: bool, digestWithQop: bool)

  datatype AuthReply = AuthReply(status: byte, authType: byte, caps: Caps, realm: bytes, nonce: bytes, qop: bytes)

  datatype Parsed<+T> = NotYet | Parsed(value: T, consumed: nat)

  /** The reply's status octet; the OEM data is skipped over. */
  function TryParseStartReply(b: bytes): (r: Parsed<byte>)
    ensures r.Parsed? ==> 13 <= r.consumed <= |b|
  {
    if |b| < 13 || b[0] != 0x11 then NotYet
    else if |b| < 13 + b[12] as int then NotYet
    else Parsed(b[1], 13 + b[12] as int)
  }

  /** A length-prefixed field at `p`: its contents and the position after it. */
  function ReadLp(data: bytes, p: nat): (r: Option<(bytes, nat)>)
    ensures r.Some? ==> p < r.value.1 <= |data| && r.value.0 == data[p + 1..r.value.1]
  {
    if p >= |data| then None
    else if |data| - (p + 1) < data[p] then None
    else Some((data[p + 1..p + 1 + data[p] as int], p + 1 + data[p] as int))
  }

  function ParseAuthBody(status: byte, authType: byte, data: bytes): Option<AuthReply> {
    if authType == AUTH_QUERY then
      Some(AuthReply(status, authType, Caps(1 in data, 2 in data, 3 in data, 4 in data), [], [], []))
    else
      var none := AuthReply(status, authType, Caps(false, false, false, false), [], [], []);
      if (authType == DIGEST_WITH_QOP || authType == DIGEST_NO_QOP) && status == 1 then
        match ReadLp(data, 0)
        case None => None
        case Some((realm, p)) =>
          match ReadLp(data, p)
          case None => None
          case Some((nonce, q)) =>
            var qop := if authType == DIGEST_WITH_QOP && ReadLp(data, q).Some? then ReadLp(data, q).value.0 else [];
            Some(none.(realm := realm, nonce := nonce, qop := qop))
      else Some(none)
  }

  function TryParseAuthReply(b: bytes): (r: Parsed<AuthReply>)
    ensures r.Parsed? ==> 9 <= r.consumed <= |b|
  {
    if |b| < 9 || b[0] != 0x14 then NotYet
    else
      var dataLen: nat := ReadLe32(b, 5);
      if dataLen > AUTH_REPLY_MAX_DATA || |b| < 9 + dataLen then NotYet
      else
        match ParseAuthBody(b[1], b[4], b[9..9 + dataLen])
        case None => NotYet
        case Some(reply) => Parsed(reply, 9 + dataLen)
  }

  /** The capability scan: one pass over the octets that name the offered schemes. */
  method ScanCaps(data: bytes) returns (caps: Caps)
    ensures caps == Caps(1 in data, 2 in data, 3 in data, 4 in data)
  {
    caps := Caps(false, false, false, false);
    for i := 0 to |data|
      invariant caps == Caps(1 in data[..i], 2 in data[..i], 3 in data[..i], 4 in data[..i])
    {
      assert data[..i + 1] == data[..i] + [data[i]];
      match data[i]
      case 1 => caps := caps.(basic := true);
      case 2 => caps := caps.(kerberos := true);
      case 3 => caps := caps.(digestNoQop := true);
      case 4 => caps := caps.(digestWithQop := true);
      case _ =>
    }
    assert data[..|data|] == data;
  }

  lemma StartReplyStable(b: bytes, more: bytes)
    requires TryParseStartReply(b).Parsed?
    ensures TryParseStartReply(b + more) == TryParseStartReply(b)
  {
  }

  lemma AuthReplyStable(b: bytes, more: bytes)
    requires TryParseAuthReply(b).Parsed?
    ensures TryParseAuthReply(b + more) == TryParseAuthReply(b)
  {
    assert ReadLe32(b + more, 5) == ReadLe32(b, 5);
    var n: nat := ReadLe32(b, 5);
    assert (b + more)[9..9 + n] == b[9..9 + n];
  }

  // ----- What the handshake frames look like on the wire -----

  predicate IsStartSuccess(f: bytes) {
    |f| >= 13 && f[0] == 0x11 && f[1] == 0 && |f| == 13 + f[12] as int
  }

  predicate IsAuthFrame(f: bytes) {
    |f| >= 9 && f[0] == 0x14 && |f| == 9 + ReadLe32(f, 5) as int
  }

  predicate IsDigestOffer(f: bytes) {
    IsAuthFrame(f) && f[4] == 0 && 4 in f[9..]
  }

  /** Status 1, a digest scheme, and two length-prefixed fields that are both non-empty. */
  predicate IsChallenge(f: bytes) {
    && IsAuthFrame(f) && f[1] == 1 && (f[4] == 3 || f[4] == 4)
    && |f| >= 10 && f[9] > 0
    && |f| > 10 + f[9] as int
    && f[10 + f[9] as int] > 0
    && |f| >= 11 + f[9] as int + f[10 + f[9] as int] as int
  }

  predicate IsAccept(f: bytes) {
    IsAuthFrame(f) && f[1] == 0
  }

  predicate IsKvmOpened(f: bytes) {
    |f| == 8 && f[0] == 0x41
  }

  /** The parsed reply tells exactly what its own octets say. */
  lemma AuthReplyMeaning(b: bytes)
    requires TryParseAuthReply(b).Parsed?
    ensures var r := TryParseAuthReply(b).value;
            var f := b[..TryParseAuthReply(b).consumed];
            && IsAuthFrame(f) && r.status == f[1]
            && (r.caps.digestWithQop <==> IsDigestOffer(f))
            && (r.status == 1 && r.realm != [] && r.nonce != [] <==> IsChallenge(f))
  {
    var f := b[..TryParseAuthReply(b).consumed];
    var n: nat := ReadLe32(b, 5);
    assert ReadLe32(f, 5) == n;
    assert f[9..] == b[9..9 + n];
    var data := f[9..];
    if f[1] == 1 && (f[4] == 3 || f[4] == 4) {
      var (realm, p) := ReadLp(data, 0).value;
      var (nonce, q) := ReadLp(data, p).value;
      assert data[0] == f[9] && p == 1 + f[9] as int;
      assert data[p] == f[10 + f[9] as int];
    }
  }

  /** Room for two length-prefixed fields. */
  predicate HoldsTwoFields(data: bytes) {
    |data| >= 1 && |data| >= 2 + data[0] as int && |data| >= 2 + data[0] as int + data[1 + data[0] as int] as int
  }

  /** A reply that announces over 64 KiB, or a challenge whose fields do not fit its body. */
  predicate Unreadable(b: bytes)
    requires |b| >= 9
  {
    var n: nat := ReadLe32(b, 5);
    || n > AUTH_REPLY_MAX_DATA
    || (|b| >= 9 + n && b[1] == 1 && (b[4] == 3 || b[4] == 4) && !HoldsTwoFields(b[9..9 + n]))
  }

  /**
    * A reply whose announced octets are all there, or that announces too many, is taken off
    * the inbox if and only if it is readable; otherwise nothing that arrives behind it ever
    * helps, since the parser cannot tell it from one still incomplete.
    */
  lemma UnreadableAuthReplyIsStuck(b: bytes, more: bytes)
    requires |b| >= 9 && b[0] == 0x14
    requires |b| >= 9 + ReadLe32(b, 5) as int || ReadLe32(b, 5) > AUTH_REPLY_MAX_DATA
    ensures TryParseAuthReply(b).NotYet? <==> Unreadable(b)
    ensures TryParseAuthReply(b + more).NotYet? <==> Unreadable(b)
  {
    assert ReadLe32(b + more, 5) == ReadLe32(b, 5);
    var n: nat := ReadLe32(b, 5);
    if |b| >= 9 + n {
      var data := b[9..9 + n];
      assert (b + more)[9..9 + n] == data;
      assert ReadLp(data, 0).Some? ==> ReadLp(data, 0).value.1 == 1 + data[0] as int;
    }
  }
}
