/**
  * The paced presence-ping sweep: bursts on a timer, then a quiet window, then `finished`.
  *
  * Starts, stops and the ticks of two timers may come in any order. They leave a log behind,
  * and the laws say how every log reads: one scan after the other, each with its targets in
  * order and one `finished`.
  */
module Scanner {
  import opened TargetRange

  const BURST_SIZE := 32

  /** What happens, in order; `Began` marks the acceptance of a scan. */
  datatype Effect = Began(targets: seq<Address>) | Ping(to: Address) | Finished

  datatype State = State(
    socket: bool,
    sendTimer: bool,       // running, not merely created
    waitTimer: bool,
    pending: seq<Address>,
    next: nat,
    log: seq<Effect>)

  datatype Event = Start(targets: seq<Address>, binds: bool) | Stop | SendTick | WaitElapsed

  function Pings(to: seq<Address>): (p: seq<Effect>)
    ensures |p| == |to| && forall i :: 0 <= i < |p| ==> p[i] == Ping(to[i])
  {
    seq(|to|, i requires 0 <= i < |to| => Ping(to[i]))
  }

  lemma PingsJoin(targets: seq<Address>, a: nat, b: nat, c: nat)
    requires a <= b <= c <= |targets|
    ensures Pings(targets[a..b]) + Pings(targets[b..c]) == Pings(targets[a..c])
  {
  }

  function Idle(log: seq<Effect>): State { State(false, false, false, [], 0, log) }

  function Stopped(s: State): State {
    Idle(if s.pending == [] then s.log else s.log + [Finished])
  }

  function BurstEnd(s: State): int {
    if s.next + BURST_SIZE < |s.pending| then s.next + BURST_SIZE else |s.pending|
  }

  /** One burst, the timers left as the next one needs them. */
  function Burst(s: State): State
    requires s.next <= |s.pending|
  {
    var end := BurstEnd(s);
    s.(next := end, log := s.log + Pings(s.pending[s.next..end]),
       sendTimer := end < |s.pending|, waitTimer := end == |s.pending|)
  }

  /** A timer that is not running does not fire. */
  function Step(s: State, e: Event): State
    requires Inv(s)
  {
    match e
    case Start(targets, binds) =>
      var idle := Stopped(s);
      if targets == [] || !binds then idle
      else Burst(State(true, false, false, targets, 0, idle.log + [Began(targets)]))
    case Stop => Stopped(s)
    case SendTick => if s.sendTimer then Burst(s) else s
    case WaitElapsed => if s.waitTimer then Idle(s.log + [Finished]) else s
  }

  // ----- What the log says -----

  /** A scan that has begun and not finished: its targets and how many have been pinged. */
  datatype Scan = Closed | Running(targets: seq<Address>, pinged: nat) | Broken

  /** Reads the log as scans one after the other, each pinging its targets in order. */
  function Read1(scan: Scan, e: Effect): Scan {
    match (scan, e)
    case (Closed, Began(targets)) => if targets == [] then Broken else Running(targets, 0)
    case (Running(targets, k), Ping(to)) => if k < |targets| && to == targets[k] then Running(targets, k + 1) else Broken
    case (Running(_, _), Finished) => Closed
    case _ => Broken
  }

  function ReadLog(log: seq<Effect>): Scan {
    if log == [] then Closed else Read1(ReadLog(log[..|log| - 1]), log[|log| - 1])
  }

  lemma ReadMore(log: seq<Effect>, e: Effect)
    ensures ReadLog(log + [e]) == Read1(ReadLog(log), e)
  {
    assert (log + [e])[..|log|] == log;
  }

  lemma {:induction false} ReadPings(log: seq<Effect>, targets: seq<Address>, from: nat, upTo: nat)
    requires from <= upTo <= |targets| && ReadLog(log) == Running(targets, from)
    ensures ReadLog(log + Pings(targets[from..upTo])) == Running(targets, upTo)
    decreases upTo - from
  {
    if from == upTo {
      assert log + Pings([]) == log;
    } else {
      ReadMore(log, Ping(targets[from]));
      ReadPings(log + [Ping(targets[from])], targets, from + 1, upTo);
      FirstPing(log, targets, from, upTo);
    }
  }

  lemma FirstPing(log: seq<Effect>, targets: seq<Address>, from: nat, upTo: nat)
    requires from < upTo <= |targets|
    ensures log + [Ping(targets[from])] + Pings(targets[from + 1..upTo]) == log + Pings(targets[from..upTo])
  {
    assert Pings(targets[from..upTo]) == [Ping(targets[from])] + Pings(targets[from + 1..upTo]);
  }

  function Count(log: seq<Effect>, finished: bool): nat {
    if log == [] then 0
    else
      var e := log[|log| - 1];
      (if (if finished then e.Finished? else e.Began?) then 1 else 0) + Count(log[..|log| - 1], finished)
  }

  /** A log that reads well has a `finished` for every scan begun, except the one still running. */
  lemma {:induction false} OneFinishedEach(log: seq<Effect>)
    requires !ReadLog(log).Broken?
    ensures Count(log, false) == Count(log, true) + if ReadLog(log).Running? then 1 else 0
  {
    if log != [] {
      OneFinishedEach(log[..|log| - 1]);
    }
  }

  // ----- Every run -----

  /**
    * Idle, sending or waiting; the log agrees, and the quiet window is only ever open
    * once every target has been pinged.
    */
  ghost predicate Inv(s: State) {
    if s.pending == [] then
      s == Idle(s.log) && ReadLog(s.log) == Closed
    else
      && s.socket
      && s.next <= |s.pending|
      && ReadLog(s.log) == Running(s.pending, s.next)
      && s.sendTimer == (s.next < |s.pending|)
      && s.waitTimer == (s.next == |s.pending|)
  }

  lemma BurstReads(s: State)
    requires s.pending != [] && s.socket && s.next <= |s.pending| && ReadLog(s.log) == Running(s.pending, s.next)
    ensures Inv(Burst(s))
  {
    ReadPings(s.log, s.pending, s.next, BurstEnd(s));
  }

  lemma StepKeepsInv(s: State, e: Event)
    requires Inv(s)
    ensures Inv(Step(s, e))
  {
    ReadMore(s.log, Finished);
    match e
    case Start(targets, binds) =>
      var idle := Stopped(s);
      ReadMore(idle.log, Began(targets));
      if targets != [] && binds {
        BurstReads(State(true, false, false, targets, 0, idle.log + [Began(targets)]));
      }
    case SendTick =>
      if s.sendTimer {
        BurstReads(s);
      }
    case _ =>
  }

  ghost function Run(s: State, events: seq<Event>): (t: State)
    requires Inv(s)
    ensures Inv(t)
    decreases |events|
  {
    if events == [] then s else StepKeepsInv(s, events[0]); Run(Step(s, events[0]), events[1..])
  }

  /**
    * In every run from a fresh scanner: pings follow each scan's target list in order without
    * gaps or repeats, every scan but one still running has had exactly one `finished`, and
    * when the quiet window is open all targets have been pinged.
    */
  lemma EveryRunReadsWell(events: seq<Event>)
    ensures var s := Run(Idle([]), events);
            && ReadLog(s.log) == (if s.pending == [] then Closed else Running(s.pending, s.next))
            && Count(s.log, false) == Count(s.log, true) + (if s.pending == [] then 0 else 1)
            && (s.waitTimer ==> s.next == |s.pending|)
            && (s.pending != [] ==> s.sendTimer != s.waitTimer)
  {
    OneFinishedEach(Run(Idle([]), events).log);
  }

  /** No burst is larger than 32, and only the last one is smaller. */
  lemma BurstsOf32(s: State)
    requires Inv(s) && s.sendTimer
    ensures var t := Step(s, SendTick); var n := |t.log| - |s.log|;
            && t.log == s.log + Pings(s.pending[s.next..s.next + n]) && t.next == s.next + n
            && (n == 32 || (n < 32 && t.next == |s.pending|))
  {
  }

  // ----- A scan left alone -----

  function Ticks(n: nat): seq<Event> { seq(n, _ => SendTick) }

  /** Bursts needed after the one sent by `start`. */
  function MoreBursts(left: nat): nat
    decreases left
  {
    if left == 0 then 0 else 1 + MoreBursts(if left > BURST_SIZE then left - BURST_SIZE else 0)
  }

  /** Everything sent, the quiet window open. */
  function Waiting(s: State): State
    requires s.next <= |s.pending|
  {
    s.(next := |s.pending|, log := s.log + Pings(s.pending[s.next..|s.pending|]), sendTimer := false, waitTimer := true)
  }

  lemma BurstThenRest(s: State)
    requires s.next <= |s.pending|
    ensures Waiting(Burst(s)) == Waiting(s)
  {
    PingsJoin(s.pending, s.next, BurstEnd(s), |s.pending|);
  }

  lemma {:induction false} TicksSendTheRest(s: State)
    requires Inv(s) && s.pending != []
    ensures Run(s, Ticks(MoreBursts(|s.pending| - s.next))) == Waiting(s)
    decreases |s.pending| - s.next
  {
    var left := |s.pending| - s.next;
    if left > 0 {
      var t := Burst(s);
      StepKeepsInv(s, SendTick);
      TicksSendTheRest(t);
      assert Ticks(MoreBursts(left))[1..] == Ticks(MoreBursts(|t.pending| - t.next));
      BurstThenRest(s);
    }
  }

  /** An uncancelled scan pings each target once, in order, finishes once and leaves the scanner idle. */
  lemma UncancelledScan(log: seq<Effect>, targets: seq<Address>)
    requires ReadLog(log) == Closed && targets != []
    ensures var started := Step(Idle(log), Start(targets, true));
            && Inv(started)
            && Step(Run(started, Ticks(MoreBursts(|targets| - started.next))), WaitElapsed)
               == Idle(log + [Began(targets)] + Pings(targets) + [Finished])
  {
    var begun := State(true, false, false, targets, 0, log + [Began(targets)]);
    ReadMore(log, Began(targets));
    BurstReads(begun);
    assert Step(Idle(log), Start(targets, true)) == Burst(begun);
    TicksSendTheRest(Burst(begun));
    BurstThenRest(begun);
    WaitEnds(begun);
  }

  lemma WaitEnds(s: State)
    requires s.pending != [] && s.next == 0 && Inv(Waiting(s))
    ensures Inv(Waiting(s)) && Step(Waiting(s), WaitElapsed) == Idle(s.log + Pings(s.pending) + [Finished])
  {
    assert s.pending[0..|s.pending|] == s.pending;
  }

  // ----- The object -----

  class ScannerObject {
    var socket: bool
    var sendTimer: bool
    var waitTimer: bool
    var pending: seq<Address>
    var next: nat
    var log: seq<Effect>

    ghost function Now(): State
      reads this
    {
      State(socket, sendTimer, waitTimer, pending, next, log)
    }

    constructor ()
      ensures Now() == Idle([]) && Inv(Now())
    {
      socket, sendTimer, waitTimer, pending, next, log := false, false, false, [], 0, [];
    }

    method Start(targets: seq<Address>, binds: bool) returns (ok: bool)
      requires Inv(Now())
      modifies this
      ensures Now() == Step(old(Now()), Event.Start(targets, binds)) && Inv(Now())
      ensures ok == (targets != [] && binds)
    {
      StepKeepsInv(Now(), Event.Start(targets, binds));
      Stop();
      if targets == [] || !binds {
        return false;
      }
      socket := true;
      pending, next := targets, 0;
      log := log + [Began(targets)];
      OnSendBurst();
      if next < |pending| {
        sendTimer := true;
      }
      return true;
    }

    method Stop()
      requires Inv(Now())
      modifies this
      ensures Now() == Stopped(old(Now())) && Inv(Now())
    {
      StepKeepsInv(Now(), Event.Stop);
      sendTimer, waitTimer := false, false;
      socket := false;
      if pending != [] {
        pending, next := [], 0;
        log := log + [Finished];
      }
    }

    /** Called by `Start` with the send timer not yet running, and by that timer. */
    method OnSendBurst()
      requires socket ==> !waitTimer && next <= |pending|
      modifies this
      ensures !old(socket) ==> Now() == old(Now())
      ensures old(socket) ==> Now() == Burst(old(Now())).(sendTimer := if next < |pending| then old(sendTimer) else false)
    {
      if !socket {
        return;
      }
      var end := if next + BURST_SIZE < |pending| then next + BURST_SIZE else |pending|;
      for i := next to end
        invariant unchanged(this`socket, this`sendTimer, this`waitTimer, this`pending, this`next)
        invariant log == old(log) + Pings(pending[next..i])
      {
        assert Pings(pending[next..i + 1]) == Pings(pending[next..i]) + [Ping(pending[i])];
        log := log + [Ping(pending[i])];
      }
      next := end;
      if next >= |pending| {
        sendTimer := false;
        waitTimer := true;
      }
    }

    method OnSendTimer()
      requires Inv(Now()) && sendTimer
      modifies this
      ensures Now() == Step(old(Now()), SendTick) && Inv(Now())
    {
      StepKeepsInv(Now(), SendTick);
      OnSendBurst();
    }

    method OnWaitElapsed()
      requires Inv(Now()) && waitTimer
      modifies this
      ensures Now() == Step(old(Now()), WaitElapsed) && Inv(Now())
    {
      StepKeepsInv(Now(), WaitElapsed);
      waitTimer, socket := false, false;
      pending, next := [], 0;
      log := log + [Finished];
    }
  }
}
