/** Serial-over-LAN on top of an authenticated redirection connection. */
module SolSession {

  import opened ByteCodec
  import opened InboxDrain

  datatype Act =
    | Wrote(frame: bytes)
    | Opened
    | Data(payload: bytes)
    | Closed

  datatype State = State(sequence: u32, open: bool, settingsSent: bool, keepalive: bool)

  const MAX_PAYLOAD: nat := 0xFFFF

  function Next(sequence: u32): u32 {
    (sequence + 1) % 0x1_0000_0000
  }

  function BuildSettings(sequence: u32): bytes {
    [0x27, 0, 0, 0] + PackLe32(sequence) + [0x00, 0x00, 0x1B, 0x00, 0x00, 0x00]
  }

  function BuildDataToHost(data: bytes): (r: bytes)
    requires |data| <= MAX_PAYLOAD
    ensures |r| == 10 + |data|
  {
    [0x28] + Zeros(7) + PackLe16(|data|) + data
  }

  function Failed(s: State): State {
    s.(open := false, keepalive := false)
  }

  /** One iteration of the drain loop, as a function of state and inbox. */
  function SolStep(s: State, b: bytes): Step<State, Act> {
    if b == [] then Stall
    else if b[0] == 0x21 then
      if |b| < 23 then Stall
      else if b[9] != 0 then Halt(23, Failed(s), [Closed])
      else if s.settingsSent then Advance(23, s, [])
      else Advance(23, State(Next(s.sequence), true, true, true),
                   [Wrote(BuildSettings(s.sequence)), Opened])
    else if b[0] == 0x2A then
      if |b| < 10 || |b| < 10 + ReadLe16(b, 8) then Stall
      else
        var n := ReadLe16(b, 8);
        Advance(10 + n, s, if n == 0 then [] else [Data(b[10..10 + n])])
    else if b[0] == 0x2B then
      if |b| < 8 then Stall else Advance(8, s, [])
    else if b[0] == 0x29 then
      if |b| < 10 then Stall else Advance(10, s, [])
    else Halt(0, Failed(s), [Closed])
  }

  lemma SolStepStable()
    ensures Stable(SolStep)
  {
    forall s: State, b: bytes, more: bytes | !SolStep(s, b).Stall?
      ensures SolStep(s, b + more) == SolStep(s, b)
    {
      if b[0] == 0x2A {
        assert ReadLe16(b + more, 8) == ReadLe16(b, 8);
        var n := ReadLe16(b, 8);
        assert (b + more)[10..10 + n] == b[10..10 + n];
      }
    }
  }

  /** However TCP cuts the serial stream, the console sees the same events in the same order. */
  lemma SolSegmentation(o: Outcome<State, Act>, one: seq<bytes>, other: seq<bytes>)
    requires Quiescent(SolStep, o)
    requires Flat(one) == Flat(other)
    ensures Stable(SolStep)
    ensures FeedAll(SolStep, o, one) == FeedAll(SolStep, o, other)
  {
    SolStepStable();
    SegmentationIrrelevant(SolStep, o, one, other);
  }

  // ----- Typed input -----

  /** Payload length of the 0x28 frame at the head of the wire, if it is all there. */
  function HeadFrame(wire: bytes): (r: Option<nat>)
    ensures r.Some? ==> 10 + r.value <= |wire|
  {
    if |wire| < 10 || wire[0] != 0x28 then None
    else
      var n: nat := ReadLe16(wire, 8);
      if |wire| < 10 + n then None else Some(n)
  }

  /** What a host that understands 0x28 frames reads back from the wire. */
  function HostReceives(wire: bytes): Option<bytes>
    decreases |wire|
  {
    if wire == [] then Some([])
    else
      match HeadFrame(wire)
      case None => None
      case Some(n) =>
        match HostReceives(wire[10 + n..])
        case None => None
        case Some(rest) => Some(wire[10..10 + n] + rest)
  }

  /** The frames `input` is cut into: full ones, then the remainder. */
  function Frames(input: bytes): (r: seq<bytes>)
    decreases |input|
  {
    if input == [] then []
    else
      var n := if |input| < MAX_PAYLOAD then |input| else MAX_PAYLOAD;
      [BuildDataToHost(input[..n])] + Frames(input[n..])
  }

  lemma HeadFrameIs(data: bytes, rest: bytes)
    requires |data| <= MAX_PAYLOAD
    ensures HeadFrame(BuildDataToHost(data) + rest) == Some(|data|)
    ensures (BuildDataToHost(data) + rest)[10..10 + |data|] == data
    ensures (BuildDataToHost(data) + rest)[10 + |data|..] == rest
  {
    var head := [0x28] + Zeros(7);
    var wire := BuildDataToHost(data) + rest;
    assert wire == head + PackLe16(|data|) + (data + rest);
    ReadAfterPack16(head, |data|, data + rest);
  }

  /** Input of any length reaches the host whole and in order. */
  lemma {:induction false} InputArrives(input: bytes)
    ensures HostReceives(Flat(Frames(input))) == Some(input)
    decreases |input|
  {
    if input != [] {
      var n := if |input| < MAX_PAYLOAD then |input| else MAX_PAYLOAD;
      InputArrives(input[n..]);
      HeadFrameIs(input[..n], Flat(Frames(input[n..])));
      assert input[..n] + input[n..] == input;
    }
  }

  function Writes(frames: seq<bytes>): seq<Act> {
    seq(|frames|, i requires 0 <= i < |frames| => Wrote(frames[i]))
  }

  lemma WritesSnoc(frames: seq<bytes>, frame: bytes)
    ensures Writes(frames + [frame]) == Writes(frames) + [Wrote(frame)]
  {
  }

  class Session {
    var inbox: bytes
    var sequence: u32
    var open: bool
    var settingsSent: bool
    var keepalive: bool
    var log: seq<Act>      // everything written or signalled, oldest first

    constructor ()
      ensures inbox == [] && log == []
      ensures View() == State(1, false, false, false)
    {
      inbox, sequence, open, settingsSent, keepalive, log := [], 1, false, false, false, [];
    }

    ghost function View(): State
      reads this
    {
      State(sequence, open, settingsSent, keepalive)
    }

    method Fail()
      modifies this
      ensures View() == Failed(old(View()))
      ensures log == old(log) + [Closed] && inbox == old(inbox)
    {
      open, keepalive := false, false;
      log := log + [Closed];
    }

    method OnRawBytes(chunk: bytes) returns (ghost halted: bool)
      modifies this
      ensures Stable(SolStep)
      ensures Feed(SolStep, Outcome(old(View()), old(inbox), old(log), false), chunk)
              == Outcome(View(), inbox, log, halted)
    {
      inbox := inbox + chunk;
      SolStepStable();
      halted := DrainInbox();
    }

    method DrainInbox() returns (ghost halted: bool)
      modifies this
      ensures Stable(SolStep)
      ensures After(old(log), Drain(SolStep, old(View()), old(inbox))) == Outcome(View(), inbox, log, halted)
    {
      SolStepStable();
      ghost var full := After(log, Drain(SolStep, View(), inbox));
      var v := Moved;
      while v == Moved
        invariant v == Moved ==> Owes(SolStep, full, View(), inbox, log)
        invariant v != Moved ==> full == Outcome(View(), inbox, log, v == Stopped)
        decreases v == Moved, |inbox|
      {
        ghost var s, b, l := View(), inbox, log;
        v := DrainOne();
        OwesAfterStep(SolStep, full, v, s, b, l, View(), inbox, log);
      }
      halted := v == Stopped;
    }

    /** The loop's guard and one pass through its body. */
    method DrainOne() returns (v: Verdict)
      modifies this
      ensures Follows(SolStep(old(View()), old(inbox)), v, old(View()), old(inbox), old(log), View(), inbox, log)
    {
      if inbox == [] { return Waiting; }
      var tag := inbox[0];
      if tag == 0x21 {
        if |inbox| < 23 { return Waiting; }
        var status := inbox[9];
        inbox := inbox[23..];
        if status != 0 {
          Fail();
          return Stopped;
        }
        if !settingsSent {
          log := log + [Wrote(BuildSettings(sequence)), Opened];
          sequence := (sequence + 1) % 0x1_0000_0000;
          settingsSent, open, keepalive := true, true, true;
        }
        return Moved;
      }
      if tag == 0x2A {
        if |inbox| < 10 { return Waiting; }
        var n: nat := ReadLe16(inbox, 8);
        if |inbox| < 10 + n { return Waiting; }
        var payload := inbox[10..10 + n];
        inbox := inbox[10 + n..];
        if payload != [] {
          log := log + [Data(payload)];
        }
        return Moved;
      }
      if tag == 0x2B {
        if |inbox| < 8 { return Waiting; }
        inbox := inbox[8..];
        return Moved;
      }
      if tag == 0x29 {
        if |inbox| < 10 { return Waiting; }
        inbox := inbox[10..];
        return Moved;
      }
      Fail();
      return Stopped;
    }

    method SendInput(input: bytes)
      modifies this
      ensures View() == old(View()) && inbox == old(inbox)
      ensures log == old(log) + if open then Writes(Frames(input)) else []
    {
      if !open { return; }
      var off := 0;
      ghost var sent: seq<bytes> := [];
      while off < |input|
        invariant 0 <= off <= |input|
        invariant View() == old(View()) && inbox == old(inbox)
        invariant Frames(input) == sent + Frames(input[off..])
        invariant log == old(log) + Writes(sent)
      {
        var n := if |input| - off < MAX_PAYLOAD then |input| - off else MAX_PAYLOAD;
        var frame := BuildDataToHost(input[off..off + n]);
        assert input[off..][..n] == input[off..off + n];
        assert input[off..][n..] == input[off + n..];
        Regroup(sent, [frame], Frames(input[off + n..]));
        WritesSnoc(sent, frame);
        Regroup(log, Writes(sent), [Wrote(frame)]);
        log := log + [Wrote(frame)];
        sent := sent + [frame];
        off := off + n;
      }
      assert sent == Frames(input);
    }
  }
}
