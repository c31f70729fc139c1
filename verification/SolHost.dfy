/** The serial session from the firmware's side: its messages octet by octet, and what the console shows. */
module SolHost {

  import opened ByteCodec
  import opened InboxDrain
  import opened SolSession

  datatype Message =
    | OpenReply(status: byte, a: bytes, b: bytes)   // eight octets before the status, thirteen behind it
    | Display(fill: bytes, text: bytes)
    | Heartbeat(fill: bytes)
    | SettingsEcho(fill: bytes)

  predicate Sendable(m: Message) {
    match m
    case OpenReply(_, a, b) => |a| == 8 && |b| == 13
    case Display(fill, text) => |fill| == 7 && |text| < 0x1_0000
    case Heartbeat(fill) => |fill| == 7
    case SettingsEcho(fill) => |fill| == 9
  }

  function Octets(m: Message): bytes
    requires Sendable(m)
  {
    match m
    case OpenReply(status, a, b) => [0x21] + a + [status] + b
    case Display(fill, text) => [0x2A] + fill + PackLe16(|text|) + text
    case Heartbeat(fill) => [0x2B] + fill
    case SettingsEcho(fill) => [0x29] + fill
  }

  /** A first good reply opens the session, once, under the next sequence number. */
  function Next(s: State, m: Message): State {
    if m.OpenReply? && !s.settingsSent
    then State(if s.sequence == 0xFFFF_FFFF then 0 else s.sequence + 1, true, true, true) else s
  }

  function Acts(s: State, m: Message): seq<Act> {
    match m
    case OpenReply(_, _, _) =>
      if s.settingsSent then [] else [Wrote([0x27, 0, 0, 0] + PackLe32(s.sequence) + [0, 0, 0x1B, 0, 0, 0]), Opened]
    case Display(_, text) => if text == [] then [] else [Data(text)]
    case _ => []
  }

  lemma DisplayIsRead(s: State, fill: bytes, text: bytes)
    requires |fill| == 7 && |text| < 0x1_0000
    ensures var f := [0x2A] + fill + PackLe16(|text|) + text;
            SolStep(s, f) == Advance(|f|, s, if text == [] then [] else [Data(text)])
  {
    var f := [0x2A] + fill + PackLe16(|text|) + text;
    assert f[8..10] == PackLe16(|text|);
    FieldReads16(f, 8, |text|);
    assert f[10..10 + |text|] == text;
  }

  /** Every message of an honest firmware is taken whole and does what it is for. */
  lemma MessageIsTaken(s: State, m: Message)
    requires Sendable(m) && (m.OpenReply? ==> m.status == 0)
    ensures SolStep(s, Octets(m)) == Advance(|Octets(m)|, Next(s, m), Acts(s, m))
  {
    match m
    case OpenReply(status, a, b) =>
      assert Octets(m)[9] == status;
      assert (s.sequence + 1) % 0x1_0000_0000 == if s.sequence == 0xFFFF_FFFF then 0 else s.sequence + 1;
    case Display(fill, text) => DisplayIsRead(s, fill, text);
    case _ =>
  }

  /** A bad status closes the session. */
  lemma RefusalCloses(s: State, m: Message)
    requires Sendable(m) && m.OpenReply? && m.status != 0
    ensures SolStep(s, Octets(m)) == Halt(23, s.(open := false, keepalive := false), [Closed])
  {
    assert Octets(m)[9] == m.status;
  }

  // ----- A whole stream -----

  predicate Honest(ms: seq<Message>) {
    forall i :: 0 <= i < |ms| ==> Sendable(ms[i]) && (ms[i].OpenReply? ==> ms[i].status == 0)
  }

  function AllOctets(ms: seq<Message>): seq<bytes>
    requires Honest(ms)
  {
    if ms == [] then [] else [Octets(ms[0])] + AllOctets(ms[1..])
  }

  /** The text the firmware displays. */
  function Text(ms: seq<Message>): bytes {
    if ms == [] then [] else (if ms[0].Display? then ms[0].text else []) + Text(ms[1..])
  }

  /** The text the console is given, and how often it is told that the session is open. */
  function Shown(acts: seq<Act>): bytes {
    if acts == [] then [] else (if acts[0].Data? then acts[0].payload else []) + Shown(acts[1..])
  }

  function Openings(acts: seq<Act>): nat {
    if acts == [] then 0 else (if acts[0].Opened? then 1 else 0) + Openings(acts[1..])
  }

  lemma {:induction false} ShownAppend(a: seq<Act>, b: seq<Act>)
    ensures Shown(a + b) == Shown(a) + Shown(b) && Openings(a + b) == Openings(a) + Openings(b)
  {
    if a == [] {
      assert a + b == b;
    } else {
      assert (a + b)[1..] == a[1..] + b;
      ShownAppend(a[1..], b);
      Regroup(if a[0].Data? then a[0].payload else [], Shown(a[1..]), Shown(b));
    }
  }

  lemma ActsShow(s: State, m: Message)
    ensures Shown(Acts(s, m)) == (if m.Display? then m.text else [])
    ensures Openings(Acts(s, m)) == (if m.OpenReply? && !s.settingsSent then 1 else 0)
  {
    var acts := Acts(s, m);
    if m.OpenReply? && !s.settingsSent {
      assert acts[1..] == [Opened] && acts[1..][1..] == [];
      assert Shown(acts) == Shown(acts[1..]) && Openings(acts) == Openings(acts[1..]);
    } else if m.Display? && m.text != [] {
      assert acts[1..] == [] && m.text + [] == m.text;
    }
  }

  predicate HasReply(ms: seq<Message>) {
    exists i :: 0 <= i < |ms| && ms[i].OpenReply?
  }

  lemma HasReplyCons(ms: seq<Message>)
    requires ms != []
    ensures HasReply(ms) <==> ms[0].OpenReply? || HasReply(ms[1..])
  {
    if i :| 0 <= i < |ms| && ms[i].OpenReply? {
      assert i > 0 ==> ms[1..][i - 1] == ms[i];
    }
    if i :| 0 <= i < |ms[1..]| && ms[1..][i].OpenReply? {
      assert ms[i + 1] == ms[1..][i];
    }
  }

  lemma {:induction false} StreamPlays(s: State, ms: seq<Message>)
    requires Honest(ms)
    ensures Played(SolStep, s, AllOctets(ms)).Some?
    ensures var (t, acts) := Played(SolStep, s, AllOctets(ms)).value;
            && Shown(acts) == Text(ms)
            && Openings(acts) == (if HasReply(ms) && !s.settingsSent then 1 else 0)
            && (HasReply(ms) && !s.settingsSent ==> t.open)
    decreases |ms|
  {
    if ms != [] {
      var m, others := ms[0], ms[1..];
      assert Honest(others) && Sendable(m);
      MessageIsTaken(s, m);
      StreamPlays(Next(s, m), others);
      PlayedCons(SolStep, s, Octets(m), AllOctets(others), Next(s, m), Acts(s, m));
      var (_, more) := Played(SolStep, Next(s, m), AllOctets(others)).value;
      ShownAppend(Acts(s, m), more);
      ActsShow(s, m);
      HasReplyCons(ms);
      if Next(s, m).open {
        OpenKept(Next(s, m), others);
      }
    }
  }

  /** An open session stays open through honest messages. */
  lemma {:induction false} OpenKept(s: State, ms: seq<Message>)
    requires Honest(ms) && s.open
    ensures Played(SolStep, s, AllOctets(ms)).Some? ==> Played(SolStep, s, AllOctets(ms)).value.0.open
    decreases |ms|
  {
    if ms != [] {
      assert Honest(ms[1..]) && Sendable(ms[0]);
      MessageIsTaken(s, ms[0]);
      assert AllOctets(ms)[1..] == AllOctets(ms[1..]);
      OpenKept(Next(s, ms[0]), ms[1..]);
    }
  }

  /**
    * The console shows exactly the text the firmware displays, whole and in order among any
    * other messages; the session is announced open once, on the first good reply.
    */
  lemma ConsoleShowsTheText(s: State, ms: seq<Message>, rest: bytes)
    requires Honest(ms)
    ensures Stable(SolStep) && Played(SolStep, s, AllOctets(ms)).Some?
    ensures var (t, acts) := Played(SolStep, s, AllOctets(ms)).value;
            && Drain(SolStep, s, Flat(AllOctets(ms)) + rest) == After(acts, Drain(SolStep, t, rest))
            && Shown(acts) == Text(ms)
            && Openings(acts) == (if HasReply(ms) && !s.settingsSent then 1 else 0)
            && (HasReply(ms) && !s.settingsSent ==> t.open)
  {
    SolStepStable();
    StreamPlays(s, ms);
    DrainPlays(SolStep, s, AllOctets(ms), rest);
  }
}
