/** Secrets at rest: the v3 envelope, the inline-key v2 envelope and the older password envelope. */
module SecretCodec {
  import opened ByteCodec

  /** The library primitives: AES-256 in counter mode and MD5. */
  datatype Crypto = Crypto(cipher: (bytes, bytes, bytes) -> bytes, md5: bytes -> bytes)

  /** UTF-16 code units, and how the library turns them into UTF-8 octets and back. */
  type Text = seq<u16>
  datatype Utf8 = Utf8(octets: Text -> bytes, text: bytes -> Text)

  /** Counter mode is its own inverse and keeps the length; an MD5 digest has 16 octets. */
  ghost predicate Sound(c: Crypto) {
    && (forall key, iv, x :: |c.cipher(key, iv, x)| == |x|)
    && (forall key, iv, x :: c.cipher(key, iv, c.cipher(key, iv, x)) == x)
    && (forall x :: |c.md5(x)| == 16)
  }

  const KEY_LEN := 32
  const IV_LEN := 16
  const PASSWORD_HEX_LEN := 512
  const V2: bytes := [0x76, 0x32, 0x3A]   // "v2:"
  const V3: bytes := [0x76, 0x33, 0x3A]   // "v3:"

  // ----- Hexadecimal -----

  type Nibble = n: int | 0 <= n < 16

  function Digit(n: Nibble): byte { if n < 10 then 0x30 + n else 0x57 + n }

  function Value(c: byte): Option<Nibble> {
    if 0x30 <= c <= 0x39 then Some(c - 0x30)
    else if 0x61 <= c <= 0x66 then Some(c - 0x57)
    else if 0x41 <= c <= 0x46 then Some(c - 0x37)
    else None
  }

  predicate AllHex(s: bytes) { forall i :: 0 <= i < |s| ==> Value(s[i]).Some? }

  method IsHex(s: bytes) returns (r: bool)
    ensures r <==> AllHex(s)
  {
    for i := 0 to |s|
      invariant AllHex(s[..i])
    {
      if Value(s[i]).None? { return false; }
    }
    assert s[..|s|] == s;
    return true;
  }

  function ToHex(b: bytes): (s: bytes)
    ensures |s| == 2 * |b|
    ensures AllHex(s)
  {
    if b == [] then []
    else
      var last := b[|b| - 1];
      ToHex(b[..|b| - 1]) + [Digit(last / 16), Digit(last % 16)]
  }

  /** Characters that are no digits are skipped. */
  function Digits(s: bytes): seq<Nibble> {
    if s == [] then []
    else
      var v := Value(s[|s| - 1]);
      Digits(s[..|s| - 1]) + if v.Some? then [v.value] else []
  }

  /** Digits pair up from the end; a lone first digit is an octet of its own. */
  function Paired(d: seq<Nibble>): bytes {
    if d == [] then []
    else if |d| == 1 then [d[0]]
    else Paired(d[..|d| - 2]) + [d[|d| - 2] as int * 16 + d[|d| - 1]]
  }

  function FromHex(s: bytes): bytes { Paired(Digits(s)) }

  lemma DigitsOfPair(s: bytes, hi: Nibble, lo: Nibble)
    ensures Digits(s + [Digit(hi), Digit(lo)]) == Digits(s) + [hi, lo]
  {
    var all := s + [Digit(hi), Digit(lo)];
    assert all[..|all| - 1] == s + [Digit(hi)];
    assert (s + [Digit(hi)])[..|s|] == s;
  }

  lemma {:induction false} HexRoundTrip(b: bytes)
    ensures FromHex(ToHex(b)) == b
  {
    if b != [] {
      var init, last := b[..|b| - 1], b[|b| - 1];
      HexRoundTrip(init);
      DigitsOfPair(ToHex(init), last / 16, last % 16);
      var d := Digits(ToHex(init));
      assert (d + [last / 16, last % 16])[..|d|] == d;
    }
  }

  /** Each octet is two digits, the high one first, wherever it stands. */
  lemma {:induction false} HexDigits(b: bytes, i: nat)
    requires i < |b|
    ensures Value(ToHex(b)[2 * i]).Some? && Value(ToHex(b)[2 * i + 1]).Some?
    ensures Value(ToHex(b)[2 * i]).value as int * 16 + Value(ToHex(b)[2 * i + 1]).value == b[i]
    decreases |b|
  {
    var init, last := b[..|b| - 1], b[|b| - 1];
    if i == |b| - 1 {
      assert ToHex(b)[2 * i] == Digit(last / 16) && ToHex(b)[2 * i + 1] == Digit(last % 16);
    } else {
      HexDigits(init, i);
      assert ToHex(b)[2 * i] == ToHex(init)[2 * i] && ToHex(b)[2 * i + 1] == ToHex(init)[2 * i + 1];
    }
  }

  // ----- The inline-key envelope -----

  datatype Result<+T> = Ok(value: T) | Err

  function EncryptV2(p: bytes, key: bytes, iv: bytes, c: Crypto): bytes {
    V2 + ToHex(key) + ToHex(iv) + ToHex(c.cipher(key, iv, p))
  }

  function DecryptV2(rest: bytes, c: Crypto): Result<bytes> {
    if |rest| < 2 * KEY_LEN + 2 * IV_LEN then Err
    else
      var key := FromHex(rest[..2 * KEY_LEN]);
      var iv := FromHex(rest[2 * KEY_LEN..2 * KEY_LEN + 2 * IV_LEN]);
      var ct := FromHex(rest[2 * KEY_LEN + 2 * IV_LEN..]);
      if |key| != KEY_LEN || |iv| != IV_LEN then Err else Ok(c.cipher(key, iv, ct))
  }

  lemma V2RoundTrip(p: bytes, key: bytes, iv: bytes, c: Crypto)
    requires Sound(c) && |key| == KEY_LEN && |iv| == IV_LEN
    ensures EncryptV2(p, key, iv, c)[..3] == V2
    ensures DecryptV2(EncryptV2(p, key, iv, c)[3..], c) == Ok(p)
  {
    var ct := c.cipher(key, iv, p);
    var rest := EncryptV2(p, key, iv, c)[3..];
    HexRoundTrip(key);
    HexRoundTrip(iv);
    HexRoundTrip(ct);
    assert rest == ToHex(key) + ToHex(iv) + ToHex(ct);
    assert rest[..2 * KEY_LEN] == ToHex(key);
    assert rest[2 * KEY_LEN..2 * KEY_LEN + 2 * IV_LEN] == ToHex(iv);
    assert rest[2 * KEY_LEN + 2 * IV_LEN..] == ToHex(ct);
  }

  /** Where things are in it: the prefix, 64 digits of key, 32 of vector, then the ciphertext. */
  lemma V2Layout(p: bytes, key: bytes, iv: bytes, c: Crypto)
    requires |key| == 32 && |iv| == 16
    ensures var s := EncryptV2(p, key, iv, c);
            && |s| >= 99 && s[..3] == [0x76, 0x32, 0x3A]
            && FromHex(s[3..67]) == key && FromHex(s[67..99]) == iv && FromHex(s[99..]) == c.cipher(key, iv, p)
  {
    var s, ct := EncryptV2(p, key, iv, c), c.cipher(key, iv, p);
    HexRoundTrip(key);
    HexRoundTrip(iv);
    HexRoundTrip(ct);
    assert s[3..67] == ToHex(key) && s[67..99] == ToHex(iv) && s[99..] == ToHex(ct);
  }

  // ----- The password envelope -----

  /** Digests chained as OpenSSL derives keys: each covers the one before it and the password. */
  function Chain(password: bytes, rounds: nat, md5: bytes -> bytes): bytes {
    if rounds == 0 then [] else md5(Chain(password, rounds - 1, md5) + password)
  }

  function Stream(password: bytes, rounds: nat, md5: bytes -> bytes): bytes {
    if rounds == 0 then [] else Stream(password, rounds - 1, md5) + Chain(password, rounds, md5)
  }

  /** Key and vector are adjoining stretches of the digest stream, however long it is made. */
  method EvpBytesToKeyMd5(password: bytes, keyLen: nat, ivLen: nat, c: Crypto)
    returns (key: bytes, iv: bytes)
    requires Sound(c)
    ensures |key| == keyLen && |iv| == ivLen
    ensures exists n: nat :: |Stream(password, n, c.md5)| >= keyLen + ivLen
    ensures forall n: nat :: |Stream(password, n, c.md5)| >= keyLen + ivLen ==>
              Stream(password, n, c.md5)[..keyLen + ivLen] == key + iv
    ensures keyLen == KEY_LEN && ivLen == IV_LEN ==> (key, iv) == Derived(password, c)
  {
    var out, last: bytes := [], [];
    ghost var rounds := 0;
    while |out| < keyLen + ivLen
      invariant out == Stream(password, rounds, c.md5) && last == Chain(password, rounds, c.md5)
      decreases keyLen + ivLen - |out|
    {
      last := c.md5(last + password);
      out := out + last;
      rounds := rounds + 1;
    }
    key := out[..keyLen];
    iv := out[keyLen..keyLen + ivLen];
    assert key + iv == out[..keyLen + ivLen];
    forall n: nat | |Stream(password, n, c.md5)| >= keyLen + ivLen
      ensures Stream(password, n, c.md5)[..keyLen + ivLen] == key + iv
    {
      StreamsAgree(password, rounds, n, c.md5, keyLen + ivLen);
    }
    if keyLen == KEY_LEN && ivLen == IV_LEN {
      ThreeDigests(password, c);
      assert Stream(password, 3, c.md5)[..KEY_LEN + IV_LEN] == key + iv;
      SplitAlike(key, iv, Derived(password, c).0, Derived(password, c).1);
    }
  }

  lemma SplitAlike(a: bytes, b: bytes, x: bytes, y: bytes)
    requires |a| == |x| && a + b == x + y
    ensures a == x && b == y
  {
    assert a == (a + b)[..|a|] && x == (x + y)[..|x|];
    assert b == (a + b)[|a|..] && y == (x + y)[|x|..];
  }

  lemma {:induction false} StreamPrefix(password: bytes, m: nat, n: nat, md5: bytes -> bytes)
    requires m <= n
    ensures Stream(password, m, md5) <= Stream(password, n, md5)
  {
    if m < n {
      StreamPrefix(password, m, n - 1, md5);
    }
  }

  lemma StreamsAgree(password: bytes, m: nat, n: nat, md5: bytes -> bytes, len: nat)
    requires |Stream(password, m, md5)| >= len && |Stream(password, n, md5)| >= len
    ensures Stream(password, m, md5)[..len] == Stream(password, n, md5)[..len]
  {
    if m <= n {
      StreamPrefix(password, m, n, md5);
    } else {
      StreamPrefix(password, n, m, md5);
    }
  }

  /** Three digests make the 48 octets of key and vector. */
  function Derived(password: bytes, c: Crypto): (bytes, bytes) {
    var s := Stream(password, 3, c.md5);
    if |s| < KEY_LEN + IV_LEN then ([], []) else (s[..KEY_LEN], s[KEY_LEN..KEY_LEN + IV_LEN])
  }

  lemma ThreeDigests(password: bytes, c: Crypto)
    requires Sound(c)
    ensures |Derived(password, c).0| == KEY_LEN && |Derived(password, c).1| == IV_LEN
    ensures Stream(password, 3, c.md5) == Derived(password, c).0 + Derived(password, c).1
  {
    assert Stream(password, 1, c.md5) == [] + Chain(password, 1, c.md5);
    assert Stream(password, 2, c.md5) == Stream(password, 1, c.md5) + Chain(password, 2, c.md5);
  }

  /** Written out: each digest covers the one before it and then the password. */
  lemma DerivedWrittenOut(password: bytes, c: Crypto)
    requires Sound(c)
    ensures var a := c.md5(password); var b := c.md5(a + password); var d := c.md5(b + password);
            Derived(password, c) == (a + b, d)
  {
    var a := c.md5(password);
    var b := c.md5(a + password);
    var d := c.md5(b + password);
    assert [] + password == password;
    assert Chain(password, 0, c.md5) == [] && Chain(password, 1, c.md5) == a;
    assert Chain(password, 2, c.md5) == b && Chain(password, 3, c.md5) == d;
    assert Stream(password, 1, c.md5) == [] + a == a;
    assert Stream(password, 2, c.md5) == a + b;
    assert Stream(password, 3, c.md5) == (a + b) + d;
    assert |a| == 16 && |b| == 16 && |d| == 16;
    assert ((a + b) + d)[..32] == a + b && ((a + b) + d)[32..48] == d;
  }

  datatype Format = FormatV2 | FormatLegacy | FormatUnknown

  function DetectFormat(s: bytes): Format {
    if |s| >= 3 && s[..3] == V2 then FormatV2
    else if |s| > PASSWORD_HEX_LEN && AllHex(s[..PASSWORD_HEX_LEN]) then FormatLegacy
    else FormatUnknown
  }

  function Decrypt(s: bytes, c: Crypto): Result<bytes> {
    match DetectFormat(s)
    case FormatV2 => DecryptV2(s[3..], c)
    case FormatLegacy =>
      var password, ct := s[..PASSWORD_HEX_LEN], s[PASSWORD_HEX_LEN..];
      if !AllHex(ct) then Err
      else
        var (key, iv) := Derived(password, c);
        Ok(c.cipher(key, iv, FromHex(ct)))
    case FormatUnknown => Err
  }

  /** The two envelopes as they are opened. */
  method OpenEnvelope(s: bytes, c: Crypto) returns (r: Result<bytes>)
    requires Sound(c)
    ensures r == Decrypt(s, c)
  {
    if |s| >= 3 && s[..3] == V2 {
      return DecryptV2(s[3..], c);
    }
    if |s| <= PASSWORD_HEX_LEN { return Err; }
    var legacy := IsHex(s[..PASSWORD_HEX_LEN]);
    if !legacy { return Err; }
    var hex := IsHex(s[PASSWORD_HEX_LEN..]);
    if !hex { return Err; }
    var key, iv := EvpBytesToKeyMd5(s[..PASSWORD_HEX_LEN], KEY_LEN, IV_LEN, c);
    r := Ok(c.cipher(key, iv, FromHex(s[PASSWORD_HEX_LEN..])));
  }

  /** What the older program wrote: the hexadecimal password, then the ciphertext. */
  function LegacyEnvelope(password: bytes, p: bytes, c: Crypto): bytes {
    var (key, iv) := Derived(password, c);
    password + ToHex(c.cipher(key, iv, p))
  }

  /** A password envelope is sealed with a key and vector of full length, and opens if and only if it holds anything. */
  lemma LegacyRoundTrip(password: bytes, p: bytes, c: Crypto)
    requires Sound(c) && |password| == PASSWORD_HEX_LEN && AllHex(password)
    ensures |Derived(password, c).0| == KEY_LEN && |Derived(password, c).1| == IV_LEN
    ensures Decrypt(LegacyEnvelope(password, p, c), c) == if p == [] then Err else Ok(p)
  {
    ThreeDigests(password, c);
    var (key, iv) := Derived(password, c);
    var ct := c.cipher(key, iv, p);
    var s := LegacyEnvelope(password, p, c);
    HexRoundTrip(ct);
    assert s[..PASSWORD_HEX_LEN] == password && s[PASSWORD_HEX_LEN..] == ToHex(ct);
    NotAPrefix(s, password[0]);
  }

  /** Neither envelope prefix begins with a digit. */
  lemma NotAPrefix(s: bytes, first: byte)
    requires |s| >= 3 && s[0] == first && Value(first).Some?
    ensures s[..3] != V2 && s[..3] != V3
  {
    assert s[..3][0] == first;
  }

  // ----- The keystore envelope and the front door -----

  function EncryptV3(p: bytes, key: bytes, iv: bytes, c: Crypto): bytes {
    V3 + ToHex(iv) + ToHex(c.cipher(key, iv, p))
  }

  /** The empty secret stands for every failure. */
  function DecryptV3(body: bytes, key: bytes, c: Crypto): bytes {
    if |body| < 2 * IV_LEN || !AllHex(body) then []
    else
      var iv, ct := FromHex(body[..2 * IV_LEN]), FromHex(body[2 * IV_LEN..]);
      if |iv| != IV_LEN then [] else c.cipher(key, iv, ct)
  }

  /** Random octets as drawn: the v3 vector, then the v2 key and vector; none if the source failed. */
  datatype Random = Random(iv3: Option<bytes>, v2: Option<(bytes, bytes)>)

  predicate Drawn(r: Random) {
    && (r.iv3.Some? ==> |r.iv3.value| == IV_LEN)
    && (r.v2.Some? ==> |r.v2.value.0| == KEY_LEN && |r.v2.value.1| == IV_LEN)
  }

  /** Randomness enough to wrap a secret one way or the other. */
  predicate CanWrap(master: bytes, r: Random) {
    (|master| == KEY_LEN && r.iv3.Some?) || r.v2.Some?
  }

  /** An envelope is plain ASCII, so as text it is the same numbers. */
  function Encode(p: Text, master: bytes, r: Random, c: Crypto, u: Utf8): Text {
    if p == [] then []
    else if |master| == KEY_LEN && r.iv3.Some? then EncryptV3(u.octets(p), master, r.iv3.value, c)
    else if r.v2.Some? then EncryptV2(u.octets(p), r.v2.value.0, r.v2.value.1, c)
    else []
  }

  /** Code units that Latin-1 does not have become question marks. */
  function Latin1(t: Text): (b: bytes)
    ensures |b| == |t|
    ensures (forall i :: 0 <= i < |t| ==> t[i] < 0x100) ==> b == t
  {
    seq(|t|, i requires 0 <= i < |t| => if t[i] < 0x100 then t[i] else 0x3F)
  }

  predicate HasPrefix(s: Text, prefix: bytes) {
    |prefix| <= |s| && s[..|prefix|] == prefix
  }

  function Decode(s: Text, master: bytes, c: Crypto, u: Utf8): Text {
    if s == [] then []
    else if HasPrefix(s, V3) then
      if |master| != KEY_LEN then [] else u.text(DecryptV3(Latin1(s[3..]), master, c))
    else if HasPrefix(s, V2) then
      var d := Decrypt(Latin1(s), c);
      if d.Ok? then u.text(d.value) else []
    else s
  }

  lemma V3RoundTrip(p: bytes, key: bytes, iv: bytes, c: Crypto)
    requires Sound(c) && |iv| == IV_LEN
    ensures EncryptV3(p, key, iv, c)[..3] == V3
    ensures DecryptV3(EncryptV3(p, key, iv, c)[3..], key, c) == p
  {
    var ct := c.cipher(key, iv, p);
    var body := EncryptV3(p, key, iv, c)[3..];
    HexRoundTrip(iv);
    HexRoundTrip(ct);
    assert body == ToHex(iv) + ToHex(ct);
    assert body[..2 * IV_LEN] == ToHex(iv) && body[2 * IV_LEN..] == ToHex(ct);
  }

  /** The key stays outside: prefix, 32 digits of vector, ciphertext. */
  lemma V3Layout(p: bytes, key: bytes, iv: bytes, c: Crypto)
    requires |iv| == 16
    ensures var s := EncryptV3(p, key, iv, c);
            && |s| >= 35 && s[..3] == [0x76, 0x33, 0x3A]
            && FromHex(s[3..35]) == iv && FromHex(s[35..]) == c.cipher(key, iv, p)
  {
    var s, ct := EncryptV3(p, key, iv, c), c.cipher(key, iv, p);
    HexRoundTrip(iv);
    HexRoundTrip(ct);
    assert s[3..35] == ToHex(iv) && s[35..] == ToHex(ct);
  }

  /** What is read back from a wrapped secret has been through both conversions and nothing else. */
  lemma WrappedComesBack(p: Text, master: bytes, r: Random, c: Crypto, u: Utf8)
    requires Sound(c) && Drawn(r) && p != [] && CanWrap(master, r)
    ensures Decode(Encode(p, master, r, c, u), master, c, u) == u.text(u.octets(p))
  {
    var o := u.octets(p);
    if |master| == KEY_LEN && r.iv3.Some? {
      V3RoundTrip(o, master, r.iv3.value, c);
      assert Latin1(EncryptV3(o, master, r.iv3.value, c)[3..]) == EncryptV3(o, master, r.iv3.value, c)[3..];
    } else {
      V2RoundTrip(o, r.v2.value.0, r.v2.value.1, c);
      assert Latin1(EncryptV2(o, r.v2.value.0, r.v2.value.1, c)) == EncryptV2(o, r.v2.value.0, r.v2.value.1, c);
    }
  }

  /**
    * A secret, whatever it looks like (even like an envelope), comes back as it was saved if
    * and only if it is empty, or its text survives UTF-8 and randomness was there to wrap it.
    */
  lemma SecretRoundTrip(p: Text, master: bytes, r: Random, c: Crypto, u: Utf8)
    requires Sound(c) && Drawn(r)
    ensures Decode(Encode(p, master, r, c, u), master, c, u) == p
            <==> p == [] || (u.text(u.octets(p)) == p && CanWrap(master, r))
  {
    if p != [] && CanWrap(master, r) {
      WrappedComesBack(p, master, r, c, u);
    }
  }

  /** With a master key the key stays out of the envelope; the inline-key form is only the fallback. */
  lemma PrefersTheKeystore(p: Text, master: bytes, r: Random, c: Crypto, u: Utf8)
    requires p != [] && Drawn(r)
    ensures |master| == 32 && r.iv3.Some? ==> HasPrefix(Encode(p, master, r, c, u), [0x76, 0x33, 0x3A])
    ensures !(|master| == 32 && r.iv3.Some?) && r.v2.Some? ==> HasPrefix(Encode(p, master, r, c, u), [0x76, 0x32, 0x3A])
  {
  }

  /** Without any randomness the secret "p" is saved as nothing. */
  lemma SecretLost(master: bytes, c: Crypto, u: Utf8)
    ensures Decode(Encode([0x70], master, Random(None, None), c, u), master, c, u) == []
  {
  }

  /** A value from before the codec is read as it is; wrapping it loses it exactly when it would any other. */
  lemma PlainValueMigrates(s: Text, master: bytes, r: Random, c: Crypto, u: Utf8)
    requires Sound(c) && Drawn(r) && !HasPrefix(s, V2) && !HasPrefix(s, V3)
    ensures Decode(s, master, c, u) == s
    ensures Decode(Encode(Decode(s, master, c, u), master, r, c, u), master, c, u) == s
            <==> s == [] || (u.text(u.octets(s)) == s && CanWrap(master, r))
  {
    SecretRoundTrip(s, master, r, c, u);
  }
}
