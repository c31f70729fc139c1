/**
  * The redirection handshake from the firmware's side: its frames octet by octet, and what
  * the client makes of them.
  */
module RedirHost {

  import opened ByteCodec
  import opened InboxDrain
  import opened RedirCodec
  import opened RedirClient

  // ----- Frames -----

  function StartReplyOctets(status: byte, fill: bytes, oem: bytes): bytes
    requires |fill| == 10 && |oem| < 0x100
  {
    [0x11, status] + fill + [|oem|] + oem
  }

  function AuthOctets(status: byte, x: byte, y: byte, scheme: byte, body: bytes): bytes
    requires |body| <= 0x1_0000
  {
    [0x14, status, x, y, scheme] + PackLe32(|body|) + body
  }

  /** A field behind its length. */
  function Lp(field: bytes): bytes
    requires |field| < 0x100
  {
    [|field|] + field
  }

  lemma StartReplyReadsBack(status: byte, fill: bytes, oem: bytes)
    requires |fill| == 10 && |oem| < 0x100
    ensures var f := StartReplyOctets(status, fill, oem); TryParseStartReply(f) == Parsed(status, |f|)
  {
    assert StartReplyOctets(status, fill, oem)[12] == |oem|;
  }

  lemma AuthFrameReads(status: byte, x: byte, y: byte, scheme: byte, body: bytes)
    requires |body| <= 0x1_0000
    ensures var f := AuthOctets(status, x, y, scheme, body);
            && f[1] == status && f[4] == scheme && ReadLe32(f, 5) == |body| && |f| == 9 + |body| && f[9..9 + |body|] == body
  {
    var f := AuthOctets(status, x, y, scheme, body);
    assert f[5..9] == PackLe32(|body|);
    FieldReads32(f, 5, |body|);
    assert f[9..9 + |body|] == body;
  }

  /** An authentication frame is read as its body is. */
  lemma AuthParses(status: byte, x: byte, y: byte, scheme: byte, body: bytes)
    requires |body| <= 0x1_0000
    ensures var f := AuthOctets(status, x, y, scheme, body);
            TryParseAuthReply(f) == match ParseAuthBody(status, scheme, body)
                                    case None => NotYet
                                    case Some(reply) => Parsed(reply, |f|)
  {
    AuthFrameReads(status, x, y, scheme, body);
  }

  const NO_CAPS: Caps := Caps(false, false, false, false)

  /** A list of offered schemes is read as the schemes in it. */
  lemma OfferReadsBack(status: byte, x: byte, y: byte, schemes: bytes)
    requires |schemes| <= 0x1_0000
    ensures var f := AuthOctets(status, x, y, 0, schemes);
            TryParseAuthReply(f)
            == Parsed(AuthReply(status, 0, Caps(1 in schemes, 2 in schemes, 3 in schemes, 4 in schemes), [], [], []), |f|)
  {
    AuthFrameReads(status, x, y, 0, schemes);
  }

  /** A verdict carries its status and nothing else that is read. */
  lemma VerdictReadsBack(status: byte, x: byte, y: byte, scheme: byte, body: bytes)
    requires |body| <= 0x1_0000 && scheme != 0 && status != 1
    ensures var f := AuthOctets(status, x, y, scheme, body);
            TryParseAuthReply(f) == Parsed(AuthReply(status, scheme, NO_CAPS, [], [], []), |f|)
  {
    AuthFrameReads(status, x, y, scheme, body);
  }

  lemma LpReads(pre: bytes, field: bytes, rest: bytes)
    requires |field| < 0x100
    ensures ReadLp(pre + Lp(field) + rest, |pre|) == Some((field, |pre| + 1 + |field|))
  {
    var data := pre + Lp(field) + rest;
    assert data[|pre|] == |field| && data[|pre| + 1..|pre| + 1 + |field|] == field;
  }

  /** The optional third field. */
  function Third(qop: Option<bytes>): (r: bytes)
    requires qop.Some? ==> |qop.value| < 0x100
    ensures |r| <= 0x100
  {
    if qop.Some? then Lp(qop.value) else []
  }

  function ChallengeBody(realm: bytes, nonce: bytes, qop: Option<bytes>): (r: bytes)
    requires |realm| < 0x100 && |nonce| < 0x100 && (qop.Some? ==> |qop.value| < 0x100)
    ensures |r| <= 0x300
  {
    Lp(realm) + Lp(nonce) + Third(qop)
  }

  lemma TwoFields(realm: bytes, nonce: bytes, tail: bytes)
    requires |realm| < 0x100 && |nonce| < 0x100
    ensures var body := Lp(realm) + Lp(nonce) + tail; var p := 1 + |realm|;
            ReadLp(body, 0) == Some((realm, p)) && ReadLp(body, p) == Some((nonce, p + 1 + |nonce|))
  {
    Regroup(Lp(realm), Lp(nonce), tail);
    assert [] + Lp(realm) == Lp(realm);
    LpReads([], realm, Lp(nonce) + tail);
    LpReads(Lp(realm), nonce, tail);
  }

  lemma ThirdField(head: bytes, qop: Option<bytes>)
    requires qop.Some? ==> |qop.value| < 0x100
    ensures ReadLp(head + Third(qop), |head|) == (if qop.Some? then Some((qop.value, |head| + 1 + |qop.value|)) else None)
  {
    if qop.Some? {
      assert head + Lp(qop.value) + [] == head + Third(qop);
      LpReads(head, qop.value, []);
    }
  }

  lemma ChallengeBodyReads(scheme: byte, realm: bytes, nonce: bytes, qop: Option<bytes>)
    requires scheme == 3 || scheme == 4
    requires |realm| < 0x100 && |nonce| < 0x100 && (qop.Some? ==> |qop.value| < 0x100)
    ensures ParseAuthBody(1, scheme, ChallengeBody(realm, nonce, qop))
            == Some(AuthReply(1, scheme, NO_CAPS, realm, nonce, if scheme == 4 && qop.Some? then qop.value else []))
  {
    TwoFields(realm, nonce, Third(qop));
    ThirdField(Lp(realm) + Lp(nonce), qop);
  }

  /** A challenge is read as the realm, the nonce and the protection it was written with. */
  lemma ChallengeReadsBack(x: byte, y: byte, scheme: byte, realm: bytes, nonce: bytes, qop: Option<bytes>)
    requires scheme == 3 || scheme == 4
    requires |realm| < 0x100 && |nonce| < 0x100 && (qop.Some? ==> |qop.value| < 0x100)
    ensures var f := AuthOctets(1, x, y, scheme, ChallengeBody(realm, nonce, qop));
            TryParseAuthReply(f)
            == Parsed(AuthReply(1, scheme, NO_CAPS, realm, nonce, if scheme == 4 && qop.Some? then qop.value else []), |f|)
  {
    AuthParses(1, x, y, scheme, ChallengeBody(realm, nonce, qop));
    ChallengeBodyReads(scheme, realm, nonce, qop);
  }

  // ----- What the client does with them -----

  lemma StartIsTaken(s: State, fill: bytes, oem: bytes)
    requires s.phase == SelectorSent && s.hasUser && |fill| == 10 && |oem| < 0x100
    ensures var f := StartReplyOctets(0, fill, oem);
            RedirStep(s, f) == Advance(|f|, s.(phase := AuthQuerying), [Consumed(f), SessionOpenedSig, Wrote(AuthQuery)])
  {
    var f := StartReplyOctets(0, fill, oem);
    StartReplyReadsBack(0, fill, oem);
    assert f[..|f|] == f;
  }

  lemma OfferIsTaken(s: State, status: byte, x: byte, y: byte, schemes: bytes)
    requires s.phase == AuthQuerying && |schemes| <= 0x1_0000 && 4 in schemes
    ensures var f := AuthOctets(status, x, y, 0, schemes);
            RedirStep(s, f) == Advance(|f|, s.(phase := AuthChallenging), [Consumed(f), Wrote(DigestQuery)])
  {
    var f := AuthOctets(status, x, y, 0, schemes);
    OfferReadsBack(status, x, y, schemes);
    assert f[..|f|] == f;
  }

  const AUTH: bytes := [0x61, 0x75, 0x74, 0x68]     // "auth"

  function Protection(qop: Option<bytes>): bytes {
    if qop.Some? && qop.value != [] then qop.value else AUTH
  }

  /** The response is computed from the challenge's own realm and nonce, and its protection or "auth". */
  lemma ChallengeIsAnswered(s: State, x: byte, y: byte, realm: bytes, nonce: bytes, qop: Option<bytes>)
    requires s.phase == AuthChallenging
    requires 0 < |realm| < 0x100 && 0 < |nonce| < 0x100 && (qop.Some? ==> |qop.value| < 0x100)
    ensures var f := AuthOctets(1, x, y, 4, ChallengeBody(realm, nonce, qop));
            RedirStep(s, f) == Advance(|f|, s.(phase := AuthResponding),
                                       [Consumed(f), Wrote(DigestResponse(realm, nonce, Protection(qop)))])
  {
    var f := AuthOctets(1, x, y, 4, ChallengeBody(realm, nonce, qop));
    ChallengeReadsBack(x, y, 4, realm, nonce, qop);
    ReplyStepped(s, f, AuthReply(1, 4, NO_CAPS, realm, nonce, if qop.Some? then qop.value else []));
  }

  lemma ReplyStepped(s: State, f: bytes, reply: AuthReply)
    requires s.phase == AuthChallenging && f != [] && f[0] == 0x14 && TryParseAuthReply(f) == Parsed(reply, |f|)
    ensures RedirStep(s, f) == StepAuth(s, f, reply)
  {
    assert f[..|f|] == f;
  }

  lemma AcceptanceIsTaken(s: State, x: byte, y: byte, scheme: byte, body: bytes)
    requires s.phase == AuthResponding && |body| <= 0x1_0000 && scheme != 0
    ensures var f := AuthOctets(0, x, y, scheme, body);
            RedirStep(s, f) == Advance(|f|, s.(phase := if s.kvm then KvmStarting else Authenticated),
                                       [Consumed(f), if s.kvm then Wrote(KvmStart) else AuthenticatedSig])
  {
    var f := AuthOctets(0, x, y, scheme, body);
    VerdictReadsBack(0, x, y, scheme, body);
    assert f[..|f|] == f;
  }

  lemma KvmOpenedIsTaken(s: State, fill: bytes)
    requires s.phase == KvmStarting && |fill| == 7
    ensures var f := [0x41] + fill;
            RedirStep(s, f) == Advance(8, s.(phase := Authenticated), [Consumed(f), AuthenticatedSig])
  {
    var f := [0x41] + fill;
    assert f[..8] == f;
  }

  // ----- The honest handshake -----

  /** What the firmware puts into the frames the client does not look at. */
  datatype Login = Login(start: bytes, oem: bytes, schemes: bytes, realm: bytes, nonce: bytes, qop: Option<bytes>,
                         scheme: byte, body: bytes, opening: bytes, x: byte, y: byte, status: byte)

  predicate Honest(l: Login) {
    && |l.start| == 10 && |l.oem| < 0x100
    && |l.schemes| <= 0x1_0000 && 4 in l.schemes
    && 0 < |l.realm| < 0x100 && 0 < |l.nonce| < 0x100 && (l.qop.Some? ==> |l.qop.value| < 0x100)
    && l.scheme != 0 && |l.body| <= 0x1_0000
    && |l.opening| == 7
  }

  function StartFrame(l: Login): bytes requires Honest(l) { StartReplyOctets(0, l.start, l.oem) }
  function OfferFrame(l: Login): bytes requires Honest(l) { AuthOctets(l.status, l.x, l.y, 0, l.schemes) }
  function ChallengeFrame(l: Login): bytes requires Honest(l) {
    AuthOctets(1, l.x, l.y, 4, ChallengeBody(l.realm, l.nonce, l.qop))
  }
  function AcceptFrame(l: Login): bytes requires Honest(l) { AuthOctets(0, l.x, l.y, l.scheme, l.body) }

  function LoginFrames(l: Login, kvm: bool): seq<bytes>
    requires Honest(l)
  {
    [StartFrame(l), OfferFrame(l), ChallengeFrame(l), AcceptFrame(l)] + if kvm then [[0x41] + l.opening] else []
  }

  /** The client's side of it, frame by frame. */
  function LoginActs(l: Login, kvm: bool): seq<Act>
    requires Honest(l)
  {
    [Consumed(StartFrame(l)), SessionOpenedSig, Wrote(AuthQuery)]
    + ([Consumed(OfferFrame(l)), Wrote(DigestQuery)]
       + ([Consumed(ChallengeFrame(l)), Wrote(DigestResponse(l.realm, l.nonce, Protection(l.qop)))]
          + ([Consumed(AcceptFrame(l)), if kvm then Wrote(KvmStart) else AuthenticatedSig]
             + if kvm then [Consumed([0x41] + l.opening), AuthenticatedSig] else [])))
  }

  lemma EndPlays(s: State, l: Login)
    requires Honest(l) && s.phase == AuthResponding
    ensures Played(RedirStep, s, [AcceptFrame(l)] + if s.kvm then [[0x41] + l.opening] else [])
            == Some((s.(phase := Authenticated),
                     [Consumed(AcceptFrame(l)), if s.kvm then Wrote(KvmStart) else AuthenticatedSig]
                     + if s.kvm then [Consumed([0x41] + l.opening), AuthenticatedSig] else []))
  {
    AcceptanceIsTaken(s, l.x, l.y, l.scheme, l.body);
    if s.kvm {
      var mid, opened' := s.(phase := KvmStarting), [0x41] + l.opening;
      var acts := [Consumed(opened'), AuthenticatedSig];
      KvmOpenedIsTaken(mid, l.opening);
      PlayedCons(RedirStep, mid, opened', [], s.(phase := Authenticated), acts);
      assert acts + [] == acts && [opened'] + [] == [opened'];
      PlayedCons(RedirStep, s, AcceptFrame(l), [opened'], mid, [Consumed(AcceptFrame(l)), Wrote(KvmStart)]);
    } else {
      PlayedCons(RedirStep, s, AcceptFrame(l), [], s.(phase := Authenticated), [Consumed(AcceptFrame(l)), AuthenticatedSig]);
    }
  }

  lemma MiddlePlays(s: State, l: Login)
    requires Honest(l) && s.phase == AuthChallenging
    ensures Played(RedirStep, s, [ChallengeFrame(l)] + ([AcceptFrame(l)] + if s.kvm then [[0x41] + l.opening] else []))
            == Some((s.(phase := Authenticated),
                     [Consumed(ChallengeFrame(l)), Wrote(DigestResponse(l.realm, l.nonce, Protection(l.qop)))]
                     + ([Consumed(AcceptFrame(l)), if s.kvm then Wrote(KvmStart) else AuthenticatedSig]
                        + if s.kvm then [Consumed([0x41] + l.opening), AuthenticatedSig] else [])))
  {
    var end := [AcceptFrame(l)] + if s.kvm then [[0x41] + l.opening] else [];
    EndPlays(s.(phase := AuthResponding), l);
    ChallengeIsAnswered(s, l.x, l.y, l.realm, l.nonce, l.qop);
    PlayedCons(RedirStep, s, ChallengeFrame(l), end, s.(phase := AuthResponding),
               [Consumed(ChallengeFrame(l)), Wrote(DigestResponse(l.realm, l.nonce, Protection(l.qop)))]);
  }

  lemma LoginPlays(s: State, l: Login)
    requires Honest(l) && s.phase == SelectorSent && s.hasUser
    ensures Played(RedirStep, s, LoginFrames(l, s.kvm)) == Some((s.(phase := Authenticated), LoginActs(l, s.kvm)))
  {
    var end := [ChallengeFrame(l)] + ([AcceptFrame(l)] + if s.kvm then [[0x41] + l.opening] else []);
    MiddlePlays(s.(phase := AuthChallenging), l);
    OfferIsTaken(s.(phase := AuthQuerying), l.status, l.x, l.y, l.schemes);
    PlayedCons(RedirStep, s.(phase := AuthQuerying), OfferFrame(l), end, s.(phase := AuthChallenging),
               [Consumed(OfferFrame(l)), Wrote(DigestQuery)]);
    StartIsTaken(s, l.start, l.oem);
    PlayedCons(RedirStep, s, StartFrame(l), [OfferFrame(l)] + end, s.(phase := AuthQuerying),
               [Consumed(StartFrame(l)), SessionOpenedSig, Wrote(AuthQuery)]);
    assert LoginFrames(l, s.kvm) == [StartFrame(l)] + ([OfferFrame(l)] + end);
  }

  /**
    * An honest firmware is always logged in to: start, offer, challenge and acceptance, and for
    * KVM the opening, end in `Authenticated`; the response carries the challenge's own fields;
    * and every octet behind the handshake is handed on.
    */
  lemma HonestLogin(kvm: bool, l: Login, app: bytes)
    requires Honest(l)
    ensures Stable(RedirStep)
    ensures Drain(RedirStep, Begun(true, kvm).state, Flat(LoginFrames(l, kvm)) + app)
            == Outcome(State(Authenticated, true, kvm), [], LoginActs(l, kvm) + Apps(app), false)
  {
    RedirStepStable();
    var s := Begun(true, kvm).state;
    LoginPlays(s, l);
    DrainPlays(RedirStep, s, LoginFrames(l, kvm), app);
    HandOff(s.(phase := Authenticated), app);
  }

  // ----- Refusals -----

  /** Each frame that refuses ends the session with a failure. */
  lemma RefusalsFail(s: State, l: Login, status: byte)
    requires Honest(l)
    ensures s.phase != Authenticated && status != 0 ==>
              var f := StartReplyOctets(status, l.start, l.oem);
              RedirStep(s, f) == Halt(|f|, s.(phase := Failed), [Consumed(f), FailedSig])
    ensures s.phase == AuthQuerying ==> forall schemes: bytes :: |schemes| <= 0x1_0000 && 4 !in schemes ==>
              var f := AuthOctets(status, l.x, l.y, 0, schemes);
              RedirStep(s, f) == Halt(|f|, s.(phase := Failed), [Consumed(f), FailedSig])
    ensures s.phase == AuthResponding && status > 1 ==>
              var f := AuthOctets(status, l.x, l.y, l.scheme, l.body);
              RedirStep(s, f) == Halt(|f|, s.(phase := Failed), [Consumed(f), FailedSig])
  {
    var f := StartReplyOctets(status, l.start, l.oem);
    StartReplyReadsBack(status, l.start, l.oem);
    assert f[..|f|] == f;
    forall schemes: bytes | |schemes| <= 0x1_0000 && 4 !in schemes && s.phase == AuthQuerying
      ensures var g := AuthOctets(status, l.x, l.y, 0, schemes);
              RedirStep(s, g) == Halt(|g|, s.(phase := Failed), [Consumed(g), FailedSig])
    {
      var g := AuthOctets(status, l.x, l.y, 0, schemes);
      OfferReadsBack(status, l.x, l.y, schemes);
      assert g[..|g|] == g;
    }
    if status > 1 {
      var g := AuthOctets(status, l.x, l.y, l.scheme, l.body);
      VerdictReadsBack(status, l.x, l.y, l.scheme, l.body);
      assert g[..|g|] == g;
    }
  }

  /** So does a challenge without a realm or without a nonce, and a verdict where a challenge is due. */
  lemma BadChallengesFail(s: State, x: byte, y: byte, scheme: byte, realm: bytes, nonce: bytes, qop: Option<bytes>,
                          status: byte, body: bytes)
    requires s.phase == AuthChallenging && (scheme == 3 || scheme == 4)
    requires |realm| < 0x100 && |nonce| < 0x100 && (qop.Some? ==> |qop.value| < 0x100)
    requires status != 1 && |body| <= 0x1_0000
    ensures realm == [] || nonce == [] ==>
              var f := AuthOctets(1, x, y, scheme, ChallengeBody(realm, nonce, qop));
              RedirStep(s, f) == Halt(|f|, s.(phase := Failed), [Consumed(f), FailedSig])
    ensures var f := AuthOctets(status, x, y, scheme, body);
            RedirStep(s, f) == Halt(|f|, s.(phase := Failed), [Consumed(f), FailedSig])
  {
    var f := AuthOctets(1, x, y, scheme, ChallengeBody(realm, nonce, qop));
    ChallengeReadsBack(x, y, scheme, realm, nonce, qop);
    ReplyStepped(s, f, TryParseAuthReply(f).value);
    var g := AuthOctets(status, x, y, scheme, body);
    VerdictReadsBack(status, x, y, scheme, body);
    ReplyStepped(s, g, TryParseAuthReply(g).value);
  }
}
