/** The redirection client: handshake frames up to `Authenticated`, raw application bytes after. */
module RedirClient {

  import opened ByteCodec
  import opened InboxDrain
  import opened RedirCodec

  datatype Phase =
    | Disconnected | Connecting | SelectorSent | SessionOpened | AuthQuerying
    | AuthChallenging | AuthResponding | KvmStarting | Authenticated | Failed

  /** `hasUser` and `kvm` are set before connecting and do not change afterwards. */
  datatype State = State(phase: Phase, hasUser: bool, kvm: bool)

  datatype Request = AuthQuery | DigestQuery | DigestResponse(realm: bytes, nonce: bytes, qop: bytes) | KvmStart

  datatype Act =
    | Consumed(frame: bytes)       // a handshake frame taken off the inbox
    | Wrote(request: Request)
    | SessionOpenedSig
    | AuthenticatedSig
    | App(octet: byte)             // one octet of a rawBytes emission
    | FailedSig

  /** A rawBytes emission of a whole chunk, octet by octet. */
  function Apps(chunk: bytes): (r: seq<Act>)
    ensures |r| == |chunk|
  {
    if chunk == [] then [] else [App(chunk[0])] + Apps(chunk[1..])
  }

  function StepAuth(s: State, frame: bytes, reply: AuthReply): Step<State, Act> {
    var n := |frame|;
    match s.phase
    case AuthQuerying =>
      if !reply.caps.digestWithQop then Halt(n, s.(phase := Failed), [Consumed(frame), FailedSig])
      else Advance(n, s.(phase := AuthChallenging), [Consumed(frame), Wrote(DigestQuery)])
    case AuthChallenging =>
      if reply.status != 1 || reply.realm == [] || reply.nonce == [] then
        Halt(n, s.(phase := Failed), [Consumed(frame), FailedSig])
      else
        Advance(n, s.(phase := AuthResponding),
                [Consumed(frame), Wrote(DigestResponse(reply.realm, reply.nonce, Qop(reply)))])
    case AuthResponding =>
      if reply.status != 0 then Halt(n, s.(phase := Failed), [Consumed(frame), FailedSig])
      else if s.kvm then Advance(n, s.(phase := KvmStarting), [Consumed(frame), Wrote(KvmStart)])
      else Advance(n, s.(phase := Authenticated), [Consumed(frame), AuthenticatedSig])
    case _ => Halt(n, s.(phase := Failed), [Consumed(frame), FailedSig])
  }

  function Qop(reply: AuthReply): bytes {
    if reply.qop == [] then [0x61, 0x75, 0x74, 0x68] else reply.qop     // "auth"
  }

  function StepStart(s: State, frame: bytes, status: byte): Step<State, Act> {
    if status != 0 then Halt(|frame|, s.(phase := Failed), [Consumed(frame), FailedSig])
    else if s.hasUser then
      Advance(|frame|, s.(phase := AuthQuerying), [Consumed(frame), SessionOpenedSig, Wrote(AuthQuery)])
    else Advance(|frame|, s.(phase := SessionOpened), [Consumed(frame), SessionOpenedSig])
  }

  /** One message: a handshake frame, or one octet of the application stream. */
  function RedirStep(s: State, b: bytes): Step<State, Act> {
    if b == [] then Stall
    else if s.phase == Authenticated then Advance(1, s, [App(b[0])])
    else if s.phase == KvmStarting && b[0] == 0x41 then
      if |b| < 8 then Stall
      else Advance(8, s.(phase := Authenticated), [Consumed(b[..8]), AuthenticatedSig])
    else if b[0] == 0x11 then
      match TryParseStartReply(b)
      case NotYet => Stall
      case Parsed(status, n) => StepStart(s, b[..n], status)
    else if b[0] == 0x14 then
      match TryParseAuthReply(b)
      case NotYet => Stall
      case Parsed(reply, n) => StepAuth(s, b[..n], reply)
    else Halt(0, s.(phase := Failed), [FailedSig])
  }

  lemma RedirStepStable()
    ensures Stable(RedirStep)
  {
    forall s: State, b: bytes, more: bytes | !RedirStep(s, b).Stall?
      ensures RedirStep(s, b + more) == RedirStep(s, b)
    {
      StableAt(s, b, more);
    }
  }

  lemma StableAt(s: State, b: bytes, more: bytes)
    requires !RedirStep(s, b).Stall?
    ensures RedirStep(s, b + more) == RedirStep(s, b)
  {
    assert (b + more)[0] == b[0];
    if s.phase == Authenticated {
    } else if s.phase == KvmStarting && b[0] == 0x41 {
      assert (b + more)[..8] == b[..8];
    } else if b[0] == 0x11 {
      StartReplyStable(b, more);
      var n := TryParseStartReply(b).consumed;
      assert (b + more)[..n] == b[..n];
    } else if b[0] == 0x14 {
      AuthReplyStable(b, more);
      var n := TryParseAuthReply(b).consumed;
      assert (b + more)[..n] == b[..n];
    }
  }

  lemma RedirSegmentation(o: Outcome<State, Act>, one: seq<bytes>, other: seq<bytes>)
    requires Quiescent(RedirStep, o)
    requires Flat(one) == Flat(other)
    ensures Stable(RedirStep)
    ensures FeedAll(RedirStep, o, one) == FeedAll(RedirStep, o, other)
  {
    RedirStepStable();
    SegmentationIrrelevant(RedirStep, o, one, other);
  }

  // ----- What a run consumed -----

  function FramesOf(acts: seq<Act>): seq<bytes> {
    if acts == [] then []
    else (if acts[0].Consumed? then [acts[0].frame] else []) + FramesOf(acts[1..])
  }

  function AppOf(acts: seq<Act>): bytes {
    if acts == [] then []
    else (if acts[0].App? then [acts[0].octet] else []) + AppOf(acts[1..])
  }

  lemma {:induction false} ProjectionsAppend(a: seq<Act>, b: seq<Act>)
    ensures FramesOf(a + b) == FramesOf(a) + FramesOf(b)
    ensures AppOf(a + b) == AppOf(a) + AppOf(b)
  {
    if a == [] {
      assert a + b == b;
    } else {
      assert (a + b)[1..] == a[1..] + b;
      ProjectionsAppend(a[1..], b);
      Regroup(if a[0].Consumed? then [a[0].frame] else [], FramesOf(a[1..]), FramesOf(b));
      Regroup(if a[0].App? then [a[0].octet] else [], AppOf(a[1..]), AppOf(b));
    }
  }

  /** The frames from the latest 0x11 on (all of them if there is none). */
  function SinceStart(frames: seq<bytes>): (r: seq<bytes>)
    ensures |r| <= |frames| && r == frames[|frames| - |r|..]
  {
    if frames == [] then []
    else
      var last := frames[|frames| - 1];
      if last != [] && last[0] == 0x11 then [last]
      else SinceStart(frames[..|frames| - 1]) + [last]
  }

  /** The handshake a client in `s` has been through since its latest 0x11. */
  predicate Handshake(s: State, frames: seq<bytes>) {
    match s.phase
    case SessionOpened => |frames| == 1 && IsStartSuccess(frames[0])
    case AuthQuerying => |frames| == 1 && IsStartSuccess(frames[0])
    case AuthChallenging => |frames| == 2 && IsStartSuccess(frames[0]) && IsDigestOffer(frames[1])
    case AuthResponding =>
      |frames| == 3 && IsStartSuccess(frames[0]) && IsDigestOffer(frames[1]) && IsChallenge(frames[2])
    case KvmStarting =>
      s.kvm && |frames| == 4 && IsStartSuccess(frames[0]) && IsDigestOffer(frames[1])
      && IsChallenge(frames[2]) && IsAccept(frames[3])
    case Authenticated => FullHandshake(s.kvm, frames)
    case _ => true
  }

  predicate FullHandshake(kvm: bool, frames: seq<bytes>) {
    && |frames| == (if kvm then 5 else 4)
    && IsStartSuccess(frames[0])
    && IsDigestOffer(frames[1])
    && IsChallenge(frames[2])
    && IsAccept(frames[3])
    && (kvm ==> IsKvmOpened(frames[4]))
  }

  /** Bytes taken so far, application bytes last; and the handshake that led here. */
  ghost predicate RunInv(s: State, history: seq<Act>, taken: bytes) {
    && taken == Flat(FramesOf(history)) + AppOf(history)
    && (s.phase != Authenticated ==> AppOf(history) == [])
    && Handshake(s, SinceStart(FramesOf(history)))
  }

  lemma SinceStartSnoc(frames: seq<bytes>, f: bytes)
    ensures SinceStart(frames + [f]) == if f != [] && f[0] == 0x11 then [f] else SinceStart(frames) + [f]
  {
    assert (frames + [f])[..|frames|] == frames;
  }

  /** Consuming one frame extends the frame list by it and adds no application byte. */
  lemma FrameStepProjections(acts: seq<Act>, frame: bytes)
    requires |acts| > 0 && acts[0] == Consumed(frame)
    requires forall i :: 1 <= i < |acts| ==> !acts[i].Consumed? && !acts[i].App?
    ensures FramesOf(acts) == [frame] && AppOf(acts) == []
  {
    QuietTail(acts[1..]);
  }

  lemma {:induction false} QuietTail(acts: seq<Act>)
    requires forall i :: 0 <= i < |acts| ==> !acts[i].Consumed? && !acts[i].App?
    ensures FramesOf(acts) == [] && AppOf(acts) == []
  {
    if acts != [] {
      QuietTail(acts[1..]);
    }
  }

  lemma FrameAccounted(history: seq<Act>, taken: bytes, acts: seq<Act>, frame: bytes)
    requires taken == Flat(FramesOf(history)) + AppOf(history) && AppOf(history) == []
    requires FramesOf(acts) == [frame] && AppOf(acts) == []
    ensures FramesOf(history + acts) == FramesOf(history) + [frame]
    ensures AppOf(history + acts) == []
    ensures taken + frame == Flat(FramesOf(history + acts)) + AppOf(history + acts)
  {
    ProjectionsAppend(history, acts);
    FlatSnoc(FramesOf(history), frame);
  }

  /** Each frame step extends the handshake by the frame its next phase calls for. */
  lemma FrameExtendsHandshake(s: State, b: bytes, since: seq<bytes>)
    requires s.phase != Authenticated && Handshake(s, since)
    requires RedirStep(s, b).Advance?
    ensures var st := RedirStep(s, b);
            && 0 < st.n <= |b|
            && Handshake(st.next, if b[0] == 0x11 then [b[..st.n]] else since + [b[..st.n]])
  {
    if b[0] == 0x14 {
      AuthReplyMeaning(b);
    }
  }

  lemma FrameStepShape(s: State, b: bytes)
    requires s.phase != Authenticated && RedirStep(s, b).Advance?
    ensures var st := RedirStep(s, b);
            && 0 < st.n <= |b| && |st.acts| > 0 && st.acts[0] == Consumed(b[..st.n])
            && forall i :: 1 <= i < |st.acts| ==> !st.acts[i].Consumed? && !st.acts[i].App?
  {
  }

  lemma AppKeepsRun(s: State, b: bytes, history: seq<Act>, taken: bytes)
    requires RunInv(s, history, taken) && s.phase == Authenticated && b != []
    ensures RunInv(s, history + [App(b[0])], taken + b[..1])
  {
    ProjectionsAppend(history, [App(b[0])]);
    assert AppOf([App(b[0])]) == [b[0]] == b[..1];
    assert FramesOf(history) + [] == FramesOf(history);
    Regroup(Flat(FramesOf(history)), AppOf(history), b[..1]);
  }

  lemma FrameKeepsRun(s: State, b: bytes, history: seq<Act>, taken: bytes)
    requires RunInv(s, history, taken) && s.phase != Authenticated
    requires RedirStep(s, b).Advance?
    ensures var st := RedirStep(s, b);
            st.n <= |b| && RunInv(st.next, history + st.acts, taken + b[..st.n])
  {
    var st := RedirStep(s, b);
    FrameStepShape(s, b);
    var frame := b[..st.n];
    FrameStepProjections(st.acts, frame);
    FrameAccounted(history, taken, st.acts, frame);
    FrameExtendsHandshake(s, b, SinceStart(FramesOf(history)));
    SinceStartSnoc(FramesOf(history), frame);
  }

  lemma RunKept()
    ensures Keeps(RedirStep, RunInv)
  {
    forall s: State, b: bytes, acts: seq<Act>, taken: bytes
      ensures KeepsAt(RedirStep, RunInv, s, b, acts, taken)
    {
      StepKeepsRun(s, b, acts, taken);
    }
  }

  lemma StepKeepsRun(s: State, b: bytes, history: seq<Act>, taken: bytes)
    ensures KeepsAt(RedirStep, RunInv, s, b, history, taken)
  {
    if RunInv(s, history, taken) && RedirStep(s, b).Advance? {
      if s.phase == Authenticated {
        AppKeepsRun(s, b, history, taken);
      } else {
        FrameKeepsRun(s, b, history, taken);
      }
    }
  }

  lemma {:induction false} AuthenticatedInboxEmpty(s: State, b: bytes)
    requires Stable(RedirStep)
    ensures var d := Drain(RedirStep, s, b); d.state.phase == Authenticated ==> d.inbox == []
    decreases |b|
  {
    match RedirStep(s, b)
    case Stall =>
    case Halt(_, _, _) =>
    case Advance(n, next, _) => AuthenticatedInboxEmpty(next, b[n..]);
  }

  function Begun(hasUser: bool, kvm: bool): Outcome<State, Act> {
    Outcome(State(SelectorSent, hasUser, kvm), [], [], false)
  }

  /**
    * The authentication theorem, for every stream and every way of cutting it: a client
    * that ends up authenticated has an empty inbox; what it received is exactly the
    * handshake frames it consumed followed by the application bytes it handed on; and
    * since the latest 0x11 those frames are a start success, an offer of DigestWithQop,
    * a challenge with realm and nonce, an acceptance and, for KVM, an 0x41.
    */
  lemma AuthenticatedRun(hasUser: bool, kvm: bool, chunks: seq<bytes>)
    ensures Stable(RedirStep)
    ensures var o := FeedAll(RedirStep, Begun(hasUser, kvm), chunks);
            o.state.phase == Authenticated ==>
              && o.inbox == []
              && Flat(chunks) == Flat(FramesOf(o.acts)) + AppOf(o.acts)
              && FullHandshake(kvm, SinceStart(FramesOf(o.acts)))
  {
    RedirStepStable();
    var o := Begun(hasUser, kvm);
    FeedAllIsOneFeed(RedirStep, o, chunks);
    assert [] + Flat(chunks) == Flat(chunks);
    AuthenticatedDrain(hasUser, kvm, Flat(chunks));
    assert [] + Drain(RedirStep, o.state, Flat(chunks)).acts == Drain(RedirStep, o.state, Flat(chunks)).acts;
  }

  lemma AuthenticatedDrain(hasUser: bool, kvm: bool, stream: bytes)
    requires Stable(RedirStep)
    ensures GoodIfAuthenticated(kvm, stream, Drain(RedirStep, Begun(hasUser, kvm).state, stream))
  {
    var s := Begun(hasUser, kvm).state;
    var d := Drain(RedirStep, s, stream);
    AuthenticatedInboxEmpty(s, stream);
    ConfigFixed(s, stream);
    HaltedMeansFailed(s, stream);
    if d.state.phase == Authenticated {
      DrainAccounted(s, stream);
      AccountIsGood(kvm, stream, d);
    }
  }

  ghost predicate GoodIfAuthenticated(kvm: bool, stream: bytes, d: Outcome<State, Act>) {
    d.state.phase == Authenticated ==>
      && d.inbox == []
      && stream == Flat(FramesOf(d.acts)) + AppOf(d.acts)
      && FullHandshake(kvm, SinceStart(FramesOf(d.acts)))
  }

  lemma AccountIsGood(kvm: bool, stream: bytes, d: Outcome<State, Act>)
    requires d.state.phase == Authenticated && d.state.kvm == kvm && d.inbox == []
    requires RunInv(d.state, d.acts, Taken(stream, d))
    ensures GoodIfAuthenticated(kvm, stream, d)
  {
    assert Taken(stream, d) == stream;
  }

  lemma DrainAccounted(s: State, stream: bytes)
    requires Stable(RedirStep) && s.phase == SelectorSent && !Drain(RedirStep, s, stream).halted
    ensures var d := Drain(RedirStep, s, stream); RunInv(d.state, d.acts, Taken(stream, d))
  {
    var d := Drain(RedirStep, s, stream);
    RunKept();
    DrainKeeps(RedirStep, RunInv, s, stream, [], []);
    assert [] + d.acts == d.acts && [] + Taken(stream, d) == Taken(stream, d);
  }

  lemma StepFacts(s: State, b: bytes)
    ensures !RedirStep(s, b).Stall? ==> RedirStep(s, b).next.kvm == s.kvm
    ensures RedirStep(s, b).Halt? ==> RedirStep(s, b).next.phase == Failed
  {
  }

  lemma ConfigFixed(s: State, b: bytes)
    requires Stable(RedirStep)
    ensures Drain(RedirStep, s, b).state.kvm == s.kvm
  {
    var same := (t: State, _: seq<Act>) => t.kvm == s.kvm;
    forall t: State, c: bytes, acts: seq<Act>
      ensures HoldsAt(RedirStep, same, t, c, acts)
    {
      StepFacts(t, c);
    }
    DrainHolds(RedirStep, same, s, b, []);
  }

  lemma HaltedMeansFailed(s: State, b: bytes)
    requires Stable(RedirStep)
    ensures Drain(RedirStep, s, b).halted ==> Drain(RedirStep, s, b).state.phase == Failed
  {
    forall t: State, c: bytes
      ensures RedirStep(t, c).Halt? ==> RedirStep(t, c).next.phase == Failed
    {
      StepFacts(t, c);
    }
    DrainHalts(RedirStep, (t: State) => t.phase == Failed, s, b);
  }

  /** Once authenticated, draining is handing every byte on. */
  lemma {:induction false} HandOff(s: State, b: bytes)
    requires Stable(RedirStep)
    requires s.phase == Authenticated
    ensures Drain(RedirStep, s, b) == Outcome(s, [], Apps(b), false)
    decreases |b|
  {
    if b != [] {
      HandOff(s, b[1..]);
    }
  }

  /** After one pass: either the loop still owes the same drain, or the drain is complete. */
  lemma PassDone(full: Outcome<State, Act>, v: Verdict, s: State, b: bytes, l: seq<Act>,
                 s': State, b': bytes, leftover: bytes, l': seq<Act>)
    requires Stable(RedirStep) && Owes(RedirStep, full, s, b, l) && s.phase != Authenticated
    requires Follows(RedirStep(s, b), v, s, b, l, s', b' + leftover, l')
    requires if s'.phase == Authenticated then b' == [] else leftover == []
    ensures v == Moved && s'.phase == Authenticated ==> full == Outcome(s', [], l' + Apps(leftover), false)
    ensures v == Moved && s'.phase != Authenticated ==> Owes(RedirStep, full, s', b', l') && |b'| < |b|
    ensures v != Moved ==> full == Outcome(s', b', l', v == Stopped)
  {
    StepFacts(s, b);
    OwesAfterStep(RedirStep, full, v, s, b, l, s', b' + leftover, l');
    assert [] + leftover == leftover;
    assert b' + [] == b';
    if v == Moved && s'.phase == Authenticated {
      HandOff(s', leftover);
    }
  }

  // ----- The object -----

  class Client {
    var phase: Phase
    var inbox: bytes
    const hasUser: bool
    const kvm: bool
    var log: seq<Act>

    /** A client that has just written its protocol selector. */
    constructor (hasUser: bool, kvm: bool)
      ensures Outcome(View(), inbox, log, false) == Begun(hasUser, kvm)
    {
      this.hasUser, this.kvm := hasUser, kvm;
      phase, inbox, log := SelectorSent, [], [];
    }

    ghost function View(): State
      reads this
    {
      State(phase, hasUser, kvm)
    }

    method Fail()
      modifies this
      ensures phase == Failed && inbox == old(inbox) && log == old(log) + [FailedSig]
    {
      phase := Failed;
      log := log + [FailedSig];
    }

    method EmitRawBytes(chunk: bytes)
      modifies this
      ensures log == old(log) + Apps(chunk) && phase == old(phase) && inbox == old(inbox)
    {
      log := log + Apps(chunk);
    }

    method HandleReadyRead(chunk: bytes) returns (ghost halted: bool)
      requires phase == Authenticated ==> inbox == []
      modifies this
      ensures Stable(RedirStep)
      ensures Feed(RedirStep, Outcome(old(View()), old(inbox), old(log), false), chunk)
              == Outcome(View(), inbox, log, halted)
      ensures phase == Authenticated ==> inbox == []
    {
      RedirStepStable();
      if phase == Authenticated {
        HandOff(View(), chunk);
        assert inbox + chunk == chunk;
        EmitRawBytes(chunk);
        halted := false;
      } else {
        inbox := inbox + chunk;
        AuthenticatedInboxEmpty(View(), inbox);
        halted := DrainInbox();
      }
    }

    method DrainInbox() returns (ghost halted: bool)
      requires phase != Authenticated
      modifies this
      ensures Stable(RedirStep)
      ensures After(old(log), Drain(RedirStep, old(View()), old(inbox))) == Outcome(View(), inbox, log, halted)
    {
      RedirStepStable();
      ghost var full := After(log, Drain(RedirStep, View(), inbox));
      var v := Moved;
      while v == Moved
        invariant v == Moved ==> phase != Authenticated && Owes(RedirStep, full, View(), inbox, log)
        invariant v != Moved ==> full == Outcome(View(), inbox, log, v == Stopped)
        decreases v == Moved, |inbox|
      {
        v := DrainPass(full);
      }
      halted := v == Stopped;
    }

    method DrainPass(ghost full: Outcome<State, Act>) returns (v: Verdict)
      requires phase != Authenticated
      requires Stable(RedirStep) && Owes(RedirStep, full, View(), inbox, log)
      modifies this
      ensures v == Moved ==>
                phase != Authenticated && Owes(RedirStep, full, View(), inbox, log) && |inbox| < |old(inbox)|
      ensures v != Moved ==> full == Outcome(View(), inbox, log, v == Stopped)
    {
      var leftover;
      v, leftover := OwedPass(full);
      if v == Moved && phase == Authenticated {
        EmitRawBytes(leftover);
        v := Waiting;
      }
    }

    method OwedPass(ghost full: Outcome<State, Act>) returns (v: Verdict, leftover: bytes)
      requires phase != Authenticated
      requires Stable(RedirStep) && Owes(RedirStep, full, View(), inbox, log)
      modifies this
      ensures v == Moved && phase == Authenticated ==>
                inbox == [] && full == Outcome(View(), [], log + Apps(leftover), false)
      ensures v == Moved && phase != Authenticated ==>
                Owes(RedirStep, full, View(), inbox, log) && |inbox| < |old(inbox)|
      ensures v != Moved ==> full == Outcome(View(), inbox, log, v == Stopped)
    {
      ghost var s, b, l := View(), inbox, log;
      v, leftover := DrainOne();
      PassDone(full, v, s, b, l, View(), inbox, leftover, log);
    }

    /**
      * The loop's guard and one pass through its body. On reaching `Authenticated` the
      * inbox is emptied and its contents come back as the bytes to hand on.
      */
    method DrainOne() returns (v: Verdict, leftover: bytes)
      requires phase != Authenticated
      modifies this
      ensures Follows(RedirStep(old(View()), old(inbox)), v,
                      old(View()), old(inbox), old(log), View(), inbox + leftover, log)
      ensures if phase == Authenticated then inbox == [] else leftover == []
    {
      leftover := [];
      assert inbox + leftover == inbox;
      if inbox == [] { return Waiting, []; }
      var tag := inbox[0];
      if phase == KvmStarting && tag == 0x41 {
        if |inbox| < 8 { return Waiting, []; }
        leftover := inbox[8..];
        log := log + [Consumed(inbox[..8]), AuthenticatedSig];
        inbox := [];
        phase := Authenticated;
        assert inbox + leftover == leftover;
        return Moved, leftover;
      }
      if tag == 0x11 {
        v := OnStartReply();
        assert inbox + leftover == inbox;
        return v, [];
      }
      if tag == 0x14 {
        v := OnAuthFrame();
        if phase == Authenticated {
          leftover := inbox;
          inbox := [];
        }
        assert inbox + leftover == if phase == Authenticated then leftover else inbox;
        return;
      }
      Fail();
      assert inbox + leftover == inbox == inbox[0..];
      return Stopped, [];
    }

    method OnStartReply() returns (v: Verdict)
      requires inbox != [] && inbox[0] == 0x11 && phase != Authenticated
      modifies this
      ensures Follows(RedirStep(old(View()), old(inbox)), v,
                      old(View()), old(inbox), old(log), View(), inbox, log)
      ensures phase != Authenticated
    {
      match TryParseStartReply(inbox)
      case NotYet => return Waiting;
      case Parsed(status, consumed) =>
        log := log + [Consumed(inbox[..consumed])];
        inbox := inbox[consumed..];
        if status != 0 {
          Fail();
          return Stopped;
        }
        log := log + [SessionOpenedSig];
        phase := SessionOpened;
        if hasUser {
          log := log + [Wrote(AuthQuery)];
          phase := AuthQuerying;
        }
        return Moved;
    }

    method OnAuthFrame() returns (v: Verdict)
      requires inbox != [] && inbox[0] == 0x14 && phase != Authenticated
      modifies this
      ensures Follows(RedirStep(old(View()), old(inbox)), v,
                      old(View()), old(inbox), old(log), View(), inbox, log)
    {
      match TryParseAuthReply(inbox)
      case NotYet => return Waiting;
      case Parsed(reply, consumed) =>
        log := log + [Consumed(inbox[..consumed])];
        inbox := inbox[consumed..];
        v := OnAuthReply(reply);
        return;
    }

    /** Dispatch on the phase; the frame has already been removed and logged. */
    method OnAuthReply(reply: AuthReply) returns (v: Verdict)
      requires log != [] && log[|log| - 1].Consumed?
      modifies this
      ensures var st := StepAuth(old(View()), old(log)[|old(log)| - 1].frame, reply);
              && !st.Stall?
              && inbox == old(inbox) && View() == st.next
              && log == old(log) + st.acts[1..]
              && v == (if st.Halt? then Stopped else Moved)
    {
      match phase
      case AuthQuerying =>
        if !reply.caps.digestWithQop {
          Fail();
          return Stopped;
        }
        log := log + [Wrote(DigestQuery)];
        phase := AuthChallenging;
        return Moved;
      case AuthChallenging =>
        if reply.status != 1 || reply.realm == [] || reply.nonce == [] {
          Fail();
          return Stopped;
        }
        log := log + [Wrote(DigestResponse(reply.realm, reply.nonce, Qop(reply)))];
        phase := AuthResponding;
        return Moved;
      case AuthResponding =>
        if reply.status != 0 {
          Fail();
          return Stopped;
        }
        if kvm {
          log := log + [Wrote(KvmStart)];
          phase := KvmStarting;
          return Moved;
        }
        phase := Authenticated;
        log := log + [AuthenticatedSig];
        return Moved;
      case _ =>
        Fail();
        return Stopped;
    }
  }
}
