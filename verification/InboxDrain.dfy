/**
  * Incremental protocol drains.
  *
  * Every session of the console appends TCP chunks to an inbox and then parses,
  * removes and acts on one message after another. This module states once what
  * makes such a drain independent of how TCP cuts the stream.
  */
module InboxDrain {

  import opened ByteCodec

  /** What one iteration of a drain loop does with the inbox it finds. */
  datatype Step<+S, +A> =
    | Stall                                      // nothing parsed: wait for more bytes
    | Advance(n: nat, next: S, acts: seq<A>)     // `n` bytes removed, loop goes on
    | Halt(n: nat, next: S, acts: seq<A>)        // the session failed or closed

  datatype Outcome<+S, +A> = Outcome(state: S, inbox: bytes, acts: seq<A>, halted: bool)

  /**
    * A step is stable when an empty inbox enables nothing, every parsed message is
    * non-empty and inside the inbox, and bytes beyond a parsed message never change
    * what was parsed.
    */
  ghost predicate Stable<S(!new), A(!new)>(step: (S, bytes) -> Step<S, A>) {
    && (forall s: S :: step(s, []).Stall?)
    && (forall s: S, b: bytes :: step(s, b).Advance? ==> 0 < step(s, b).n <= |b|)
    && (forall s: S, b: bytes :: step(s, b).Halt? ==> step(s, b).n <= |b|)
    && (forall s: S, b: bytes, more: bytes {:trigger step(s, b + more)} ::
          !step(s, b).Stall? ==> step(s, b + more) == step(s, b))
  }

  /** Drain to quiescence: step until the inbox stalls or the session halts. */
  ghost function Drain<S(!new), A(!new)>(step: (S, bytes) -> Step<S, A>, s: S, inbox: bytes): Outcome<S, A>
    requires Stable(step)
    decreases |inbox|
  {
    match step(s, inbox)
    case Stall => Outcome(s, inbox, [], false)
    case Halt(n, next, acts) => Outcome(next, inbox[n..], acts, true)
    case Advance(n, next, acts) => After(acts, Drain(step, next, inbox[n..]))
  }

  function After<S, A>(acts: seq<A>, o: Outcome<S, A>): Outcome<S, A> {
    o.(acts := acts + o.acts)
  }

  /** A chunk arrives: append it and drain. A halted session takes no further steps. */
  ghost function Feed<S(!new), A(!new)>(step: (S, bytes) -> Step<S, A>, o: Outcome<S, A>, chunk: bytes): Outcome<S, A>
    requires Stable(step)
  {
    if o.halted then o.(inbox := o.inbox + chunk)
    else After(o.acts, Drain(step, o.state, o.inbox + chunk))
  }

  ghost function FeedAll<S(!new), A(!new)>(step: (S, bytes) -> Step<S, A>, o: Outcome<S, A>, chunks: seq<bytes>): Outcome<S, A>
    requires Stable(step)
    decreases |chunks|
  {
    if chunks == [] then o else FeedAll(step, Feed(step, o, chunks[0]), chunks[1..])
  }

  /** Nothing is left to do with the bytes at hand. */
  ghost predicate Quiescent<S, A>(step: (S, bytes) -> Step<S, A>, o: Outcome<S, A>) {
    o.halted || step(o.state, o.inbox).Stall?
  }

  /** Equal in everything observable; bytes that pile up behind a failure do not count. */
  ghost predicate SameRun<S, A>(a: Outcome<S, A>, b: Outcome<S, A>) {
    && a.state == b.state
    && a.acts == b.acts
    && a.halted == b.halted
    && (!a.halted ==> a.inbox == b.inbox)
  }

  lemma {:induction false} DrainQuiesces<S(!new), A(!new)>(step: (S, bytes) -> Step<S, A>, s: S, inbox: bytes)
    requires Stable(step)
    ensures Quiescent(step, Drain(step, s, inbox))
    ensures |Drain(step, s, inbox).inbox| <= |inbox|
    decreases |inbox|
  {
    match step(s, inbox)
    case Stall =>
    case Halt(_, _, _) =>
    case Advance(n, next, _) => DrainQuiesces(step, next, inbox[n..]);
  }

  /** Draining a longer inbox is draining the shorter one and then carrying on. */
  lemma {:induction false} DrainAppend<S(!new), A(!new)>(step: (S, bytes) -> Step<S, A>, s: S, inbox: bytes, more: bytes)
    requires Stable(step)
    ensures var d := Drain(step, s, inbox);
            var e := Drain(step, s, inbox + more);
            if d.halted then SameRun(d, e) && e.inbox == d.inbox + more
            else e == After(d.acts, Drain(step, d.state, d.inbox + more))
    decreases |inbox|
  {
    match step(s, inbox)
    case Stall =>
      assert After([], Drain(step, s, inbox + more)) == Drain(step, s, inbox + more);
    case Halt(n, next, acts) =>
      assert step(s, inbox + more) == step(s, inbox);
      assert (inbox + more)[n..] == inbox[n..] + more;
    case Advance(n, next, acts) =>
      assert step(s, inbox + more) == step(s, inbox);
      assert (inbox + more)[n..] == inbox[n..] + more;
      DrainAppend(step, next, inbox[n..], more);
      var d := Drain(step, next, inbox[n..]);
      if !d.halted {
        var t := Drain(step, d.state, d.inbox + more);
        Regroup(acts, d.acts, t.acts);
      }
  }

  /**
    * Whole messages, one after the other: where they lead from `s` and what is done on the
    * way; none if one of them is not exactly one step.
    */
  function Played<S, A>(step: (S, bytes) -> Step<S, A>, s: S, messages: seq<bytes>): Option<(S, seq<A>)>
    decreases |messages|
  {
    if messages == [] then Some((s, []))
    else
      match step(s, messages[0])
      case Advance(n, next, acts) =>
        if n != |messages[0]| then None
        else
          (match Played(step, next, messages[1..])
           case Some((t, more)) => Some((t, acts + more))
           case None => None)
      case _ => None
  }

  /** Messages that play are drained as they play, whatever arrives behind them. */
  lemma {:induction false} DrainPlays<S(!new), A(!new)>(step: (S, bytes) -> Step<S, A>, s: S, messages: seq<bytes>, rest: bytes)
    requires Stable(step) && Played(step, s, messages).Some?
    ensures var (t, acts) := Played(step, s, messages).value;
            Drain(step, s, Flat(messages) + rest) == After(acts, Drain(step, t, rest))
    decreases |messages|
  {
    if messages == [] {
      assert Flat(messages) + rest == rest;
      assert [] + Drain(step, s, rest).acts == Drain(step, s, rest).acts;
    } else {
      var first, others := messages[0], messages[1..];
      var st := step(s, first);
      DrainPlays(step, st.next, others, rest);
      Regroup(first, Flat(others), rest);
      var all := first + (Flat(others) + rest);
      assert step(s, all) == st && all[|first|..] == Flat(others) + rest;
      var (t, more) := Played(step, st.next, others).value;
      Regroup(st.acts, more, Drain(step, t, rest).acts);
    }
  }

  lemma PlayedCons<S, A>(step: (S, bytes) -> Step<S, A>, s: S, first: bytes, others: seq<bytes>, next: S, acts: seq<A>)
    requires step(s, first) == Advance(|first|, next, acts)
    requires Played(step, next, others).Some?
    ensures var (t, more) := Played(step, next, others).value;
            Played(step, s, [first] + others) == Some((t, acts + more))
  {
    assert ([first] + others)[1..] == others;
  }

  /** A message that is exactly one step, arriving on an empty inbox. */
  lemma FeedMessage<S(!new), A(!new)>(step: (S, bytes) -> Step<S, A>, o: Outcome<S, A>, message: bytes, next: S, acts: seq<A>)
    requires Stable(step) && o.inbox == [] && !o.halted && step(o.state, message) == Advance(|message|, next, acts)
    ensures Feed(step, o, message) == Outcome(next, [], o.acts + acts, false)
  {
    assert [] + message == message && message[|message|..] == [];
    assert Drain(step, next, []) == Outcome(next, [], [], false);
    assert acts + [] == acts;
  }

  /** What every halting step leaves behind, a halted drain leaves behind. */
  lemma {:induction false} DrainHalts<S(!new), A(!new)>(step: (S, bytes) -> Step<S, A>, left: S -> bool, s: S, b: bytes)
    requires Stable(step)
    requires forall t: S, c: bytes :: step(t, c).Halt? ==> left(step(t, c).next)
    ensures var d := Drain(step, s, b); d.halted ==> left(d.state)
    decreases |b|
  {
    match step(s, b)
    case Stall =>
    case Halt(_, _, _) =>
    case Advance(n, next, _) => DrainHalts(step, left, next, b[n..]);
  }

  /** A state that only halting leads to tells whether a bounded drain has halted. */
  lemma {:induction false} DrainUpToHalts<S(!new), A(!new)>(step: (S, bytes) -> Step<S, A>, left: S -> bool, s: S, b: bytes, k: nat)
    requires Stable(step) && !left(s)
    requires forall t: S, c: bytes :: step(t, c).Halt? ==> left(step(t, c).next)
    requires forall t: S, c: bytes :: step(t, c).Advance? && !left(t) ==> !left(step(t, c).next)
    ensures var (d, _) := DrainUpTo(step, s, b, k); d.halted <==> left(d.state)
    decreases k
  {
    if k > 0 && step(s, b).Advance? {
      DrainUpToHalts(step, left, step(s, b).next, b[step(s, b).n..], k - 1);
    }
  }

  ghost predicate Splits<A(!new)>(tally: seq<A> -> bytes, x: seq<A>, y: seq<A>) {
    tally(x + y) == tally(x) + tally(y)
  }

  ghost predicate TellsAt<S(!new), A(!new)>(step: (S, bytes) -> Step<S, A>, tally: seq<A> -> bytes, s: S, b: bytes) {
    var st := step(s, b);
    !st.Stall? ==> st.n <= |b| && tally(st.acts) == b[..st.n]
  }

  /** If every step tells in its actions which octets it took, so does a drain, halted or not. */
  lemma {:induction false} DrainTallies<S(!new), A(!new)>(step: (S, bytes) -> Step<S, A>, tally: seq<A> -> bytes, s: S, b: bytes)
    requires Stable(step) && tally([]) == []
    requires forall t: S, c: bytes :: TellsAt(step, tally, t, c)
    requires forall x: seq<A>, y: seq<A> :: Splits(tally, x, y)
    ensures var d := Drain(step, s, b); tally(d.acts) + d.inbox == b
    decreases |b|
  {
    assert TellsAt(step, tally, s, b);
    match step(s, b)
    case Stall => assert [] + b == b;
    case Halt(n, _, _) => assert b[..n] + b[n..] == b;
    case Advance(n, next, acts) =>
      DrainTallies(step, tally, next, b[n..]);
      var d := Drain(step, next, b[n..]);
      assert Splits(tally, acts, d.acts);
      TallyJoins(tally, acts, d.acts, b, n, d.inbox);
  }

  lemma TallyJoins<A(!new)>(tally: seq<A> -> bytes, acts: seq<A>, more: seq<A>, b: bytes, n: nat, inbox: bytes)
    requires n <= |b| && Splits(tally, acts, more) && tally(acts) == b[..n] && tally(more) + inbox == b[n..]
    ensures tally(acts + more) + inbox == b
  {
    Regroup(b[..n], tally(more), inbox);
    assert b[..n] + b[n..] == b;
  }

  /** `inv` relates a state to the actions taken and the bytes consumed on the way to it. */
  ghost predicate KeepsAt<S(!new), A(!new)>(step: (S, bytes) -> Step<S, A>, inv: (S, seq<A>, bytes) -> bool,
                                            s: S, b: bytes, acts: seq<A>, taken: bytes)
  {
    var st := step(s, b);
    inv(s, acts, taken) && st.Advance? ==> st.n <= |b| && inv(st.next, acts + st.acts, taken + b[..st.n])
  }

  ghost predicate Keeps<S(!new), A(!new)>(step: (S, bytes) -> Step<S, A>, inv: (S, seq<A>, bytes) -> bool) {
    forall s: S, b: bytes, acts: seq<A>, taken: bytes :: KeepsAt(step, inv, s, b, acts, taken)
  }

  /** Bytes a drain of `inbox` takes off it. */
  ghost function Taken<S, A>(inbox: bytes, d: Outcome<S, A>): bytes {
    if |d.inbox| <= |inbox| then inbox[..|inbox| - |d.inbox|] else []
  }

  lemma TakenSplits<S, A>(b: bytes, n: nat, d: Outcome<S, A>, before: bytes)
    requires n <= |b| && b[n..] == Taken(b[n..], d) + d.inbox
    ensures b == Taken(b, d) + d.inbox
    ensures (before + b[..n]) + Taken(b[n..], d) == before + Taken(b, d)
  {
    assert b == b[..n] + b[n..];
    assert Taken(b, d) == b[..n] + Taken(b[n..], d);
  }

  /** What every step keeps holds of a whole drain; what was not taken is still there, in order. */
  lemma {:induction false} DrainKeeps<S(!new), A(!new)>(
    step: (S, bytes) -> Step<S, A>, inv: (S, seq<A>, bytes) -> bool, s: S, b: bytes, acts: seq<A>, taken: bytes)
    requires Stable(step) && Keeps(step, inv) && inv(s, acts, taken)
    ensures var d := Drain(step, s, b);
            !d.halted ==> b == Taken(b, d) + d.inbox && inv(d.state, acts + d.acts, taken + Taken(b, d))
    decreases |b|
  {
    match step(s, b)
    case Stall =>
      assert acts + [] == acts && taken + b[..0] == taken;
    case Halt(_, _, _) =>
    case Advance(n, next, more) =>
      assert KeepsAt(step, inv, s, b, acts, taken);
      DrainKeeps(step, inv, next, b[n..], acts + more, taken + b[..n]);
      var d := Drain(step, next, b[n..]);
      if !d.halted {
        TakenSplits(b, n, d, taken);
        Regroup(acts, more, d.acts);
      }
  }

  /** `inv` relates a state to the actions taken on the way to it, and survives a halt as well. */
  ghost predicate HoldsAt<S(!new), A(!new)>(step: (S, bytes) -> Step<S, A>, inv: (S, seq<A>) -> bool, s: S, b: bytes, acts: seq<A>) {
    var st := step(s, b);
    inv(s, acts) && !st.Stall? ==> inv(st.next, acts + st.acts)
  }

  ghost predicate Holds<S(!new), A(!new)>(step: (S, bytes) -> Step<S, A>, inv: (S, seq<A>) -> bool) {
    forall s: S, b: bytes, acts: seq<A> :: HoldsAt(step, inv, s, b, acts)
  }

  lemma {:induction false} DrainHolds<S(!new), A(!new)>(
    step: (S, bytes) -> Step<S, A>, inv: (S, seq<A>) -> bool, s: S, b: bytes, acts: seq<A>)
    requires Stable(step) && Holds(step, inv) && inv(s, acts)
    ensures inv(Drain(step, s, b).state, acts + Drain(step, s, b).acts)
    decreases |b|
  {
    assert HoldsAt(step, inv, s, b, acts);
    match step(s, b)
    case Stall => assert acts + [] == acts;
    case Halt(_, _, _) =>
    case Advance(n, next, more) =>
      DrainHolds(step, inv, next, b[n..], acts + more);
      var d := Drain(step, next, b[n..]);
      Regroup(acts, more, d.acts);
  }

  lemma {:induction false} FeedAllHolds<S(!new), A(!new)>(
    step: (S, bytes) -> Step<S, A>, inv: (S, seq<A>) -> bool, o: Outcome<S, A>, chunks: seq<bytes>)
    requires Stable(step) && Holds(step, inv) && inv(o.state, o.acts)
    ensures inv(FeedAll(step, o, chunks).state, FeedAll(step, o, chunks).acts)
    decreases |chunks|
  {
    if chunks != [] {
      if !o.halted {
        DrainHolds(step, inv, o.state, o.inbox + chunks[0], o.acts);
      }
      FeedAllHolds(step, inv, Feed(step, o, chunks[0]), chunks[1..]);
    }
  }

  lemma FeedQuiesces<S(!new), A(!new)>(step: (S, bytes) -> Step<S, A>, o: Outcome<S, A>, chunk: bytes)
    requires Stable(step)
    ensures Quiescent(step, Feed(step, o, chunk))
  {
    if !o.halted {
      DrainQuiesces(step, o.state, o.inbox + chunk);
    }
  }

  lemma FeedTwice<S(!new), A(!new)>(step: (S, bytes) -> Step<S, A>, o: Outcome<S, A>, a: bytes, b: bytes)
    requires Stable(step)
    ensures SameRun(Feed(step, Feed(step, o, a), b), Feed(step, o, a + b))
    ensures Feed(step, Feed(step, o, a), b).inbox == Feed(step, o, a + b).inbox
  {
    Regroup(o.inbox, a, b);
    if !o.halted {
      DrainAppend(step, o.state, o.inbox + a, b);
      var d := Drain(step, o.state, o.inbox + a);
      if !d.halted {
        var t := Drain(step, d.state, d.inbox + b);
        Regroup(o.acts, d.acts, t.acts);
      }
    }
  }

  /** Any chunking is worth one delivery of the whole. */
  lemma {:induction false} FeedAllIsOneFeed<S(!new), A(!new)>(step: (S, bytes) -> Step<S, A>, o: Outcome<S, A>, chunks: seq<bytes>)
    requires Stable(step) && Quiescent(step, o)
    ensures FeedAll(step, o, chunks) == Feed(step, o, Flat(chunks))
    decreases |chunks|
  {
    if chunks == [] {
      assert o.inbox + [] == o.inbox;
      assert o.acts + [] == o.acts;
    } else {
      var p := Feed(step, o, chunks[0]);
      FeedQuiesces(step, o, chunks[0]);
      FeedAllIsOneFeed(step, p, chunks[1..]);
      FeedTwice(step, o, chunks[0], Flat(chunks[1..]));
    }
  }

  /**
    * The segmentation theorem: two ways of cutting the same byte stream give the same
    * session state, the same actions in the same order and the same verdict.
    */
  lemma SegmentationIrrelevant<S(!new), A(!new)>(
    step: (S, bytes) -> Step<S, A>, o: Outcome<S, A>, one: seq<bytes>, other: seq<bytes>)
    requires Stable(step) && Quiescent(step, o)
    requires Flat(one) == Flat(other)
    ensures FeedAll(step, o, one) == FeedAll(step, o, other)
  {
    FeedAllIsOneFeed(step, o, one);
    FeedAllIsOneFeed(step, o, other);
  }

  // ----- Loops that take one step per iteration -----

  /** How one pass through a loop body left the session. */
  datatype Verdict = Waiting | Moved | Stopped

  /** A pass from (`s`, `inbox`, `log`) to (`s'`, `inbox'`, `log'`) did what `st` says. */
  ghost predicate Follows<S, A>(st: Step<S, A>, v: Verdict,
                                s: S, inbox: bytes, log: seq<A>, s': S, inbox': bytes, log': seq<A>)
  {
    match st
    case Stall => v == Waiting && s' == s && inbox' == inbox && log' == log
    case Advance(n, next, acts) =>
      v == Moved && s' == next && n <= |inbox| && inbox' == inbox[n..] && log' == log + acts
    case Halt(n, next, acts) =>
      v == Stopped && s' == next && n <= |inbox| && inbox' == inbox[n..] && log' == log + acts
  }

  /** Having logged `log`, a loop now at (`s`, `inbox`) still owes exactly the drain `full`. */
  ghost predicate Owes<S(!new), A(!new)>(step: (S, bytes) -> Step<S, A>, full: Outcome<S, A>, s: S, inbox: bytes, log: seq<A>)
    requires Stable(step)
  {
    full == After(log, Drain(step, s, inbox))
  }

  lemma OwesAfterStep<S(!new), A(!new)>(step: (S, bytes) -> Step<S, A>, full: Outcome<S, A>, v: Verdict,
                                        s: S, inbox: bytes, log: seq<A>, s': S, inbox': bytes, log': seq<A>)
    requires Stable(step) && Owes(step, full, s, inbox, log)
    requires Follows(step(s, inbox), v, s, inbox, log, s', inbox', log')
    ensures v == Moved ==> Owes(step, full, s', inbox', log') && |inbox'| < |inbox|
    ensures v != Moved ==> full == Outcome(s', inbox', log', v == Stopped)
  {
    match step(s, inbox)
    case Stall => assert log + [] == log;
    case Halt(_, _, _) =>
    case Advance(n, next, more) =>
      var rest := Drain(step, next, inbox[n..]).acts;
      Regroup(log, more, rest);
  }

  // ----- Draining a bounded number of steps at a time -----

  /** At most `k` steps; the flag says whether the budget ran out before anything else did. */
  ghost function DrainUpTo<S(!new), A(!new)>(step: (S, bytes) -> Step<S, A>, s: S, inbox: bytes, k: nat): (Outcome<S, A>, bool)
    requires Stable(step)
  {
    if k == 0 then (Outcome(s, inbox, [], false), true)
    else
      match step(s, inbox)
      case Stall => (Outcome(s, inbox, [], false), false)
      case Halt(n, next, acts) => (Outcome(next, inbox[n..], acts, true), false)
      case Advance(n, next, acts) =>
        var (o, spent) := DrainUpTo(step, next, inbox[n..], k - 1);
        (After(acts, o), spent)
  }

  /** As `Owes`, for a loop with `k` steps left to take. */
  ghost predicate OwesUpTo<S(!new), A(!new)>(step: (S, bytes) -> Step<S, A>, full: (Outcome<S, A>, bool),
                                             s: S, inbox: bytes, log: seq<A>, k: nat)
    requires Stable(step)
  {
    var (o, spent) := DrainUpTo(step, s, inbox, k);
    full == (After(log, o), spent)
  }

  lemma OwesUpToAfterStep<S(!new), A(!new)>(step: (S, bytes) -> Step<S, A>, full: (Outcome<S, A>, bool), k: nat, v: Verdict,
                                            s: S, inbox: bytes, log: seq<A>, s': S, inbox': bytes, log': seq<A>)
    requires Stable(step) && k > 0 && OwesUpTo(step, full, s, inbox, log, k)
    requires Follows(step(s, inbox), v, s, inbox, log, s', inbox', log')
    ensures v == Moved ==> OwesUpTo(step, full, s', inbox', log', k - 1)
    ensures v != Moved ==> full == (Outcome(s', inbox', log', v == Stopped), false)
  {
    match step(s, inbox)
    case Stall => assert log + [] == log;
    case Halt(_, _, _) =>
    case Advance(n, next, more) =>
      var (o, _) := DrainUpTo(step, next, inbox[n..], k - 1);
      Regroup(log, more, o.acts);
  }

  /** A session whose drain may stop early and queue a wake-up of itself. */
  datatype Paced<S, A> = Paced(run: Outcome<S, A>, queued: nat)

  datatype Event = Chunk(data: bytes) | Wake

  ghost function PacedDrain<S(!new), A(!new)>(step: (S, bytes) -> Step<S, A>, p: Paced<S, A>, k: nat): Paced<S, A>
    requires Stable(step)
  {
    if p.run.halted then p
    else
      var (o, spent) := DrainUpTo(step, p.run.state, p.run.inbox, k);
      Paced(After(p.run.acts, o), if spent && o.inbox != [] then p.queued + 1 else p.queued)
  }

  /** A wake-up runs only if one is queued; a chunk drains at once, ahead of any queued wake-up. */
  ghost function PacedEvent<S(!new), A(!new)>(step: (S, bytes) -> Step<S, A>, p: Paced<S, A>, e: Event, k: nat): Paced<S, A>
    requires Stable(step)
  {
    match e
    case Chunk(data) => PacedDrain(step, p.(run := p.run.(inbox := p.run.inbox + data)), k)
    case Wake => if p.queued == 0 then p else PacedDrain(step, p.(queued := p.queued - 1), k)
  }

  ghost function PacedRun<S(!new), A(!new)>(step: (S, bytes) -> Step<S, A>, p: Paced<S, A>, es: seq<Event>, k: nat): Paced<S, A>
    requires Stable(step)
    decreases |es|
  {
    if es == [] then p else PacedRun(step, PacedEvent(step, p, es[0], k), es[1..], k)
  }

  function Received(es: seq<Event>): bytes {
    if es == [] then [] else (if es[0].Chunk? then es[0].data else []) + Received(es[1..])
  }

  lemma {:induction false} DrainUpToResumes<S(!new), A(!new)>(step: (S, bytes) -> Step<S, A>, s: S, inbox: bytes, k: nat)
    requires Stable(step)
    ensures var (o, spent) := DrainUpTo(step, s, inbox, k);
            && Drain(step, s, inbox) == (if o.halted then o else After(o.acts, Drain(step, o.state, o.inbox)))
            && (!spent ==> Quiescent(step, o))
            && (o.halted ==> !spent)
    decreases k
  {
    if k == 0 {
      assert After([], Drain(step, s, inbox)) == Drain(step, s, inbox);
    } else {
      match step(s, inbox)
      case Stall =>
      case Halt(_, _, _) =>
      case Advance(n, next, acts) =>
        DrainUpToResumes(step, next, inbox[n..], k - 1);
        var (o, _) := DrainUpTo(step, next, inbox[n..], k - 1);
        if !o.halted {
          var t := Drain(step, o.state, o.inbox);
          Regroup(acts, o.acts, t.acts);
        }
    }
  }

  /** Either a wake-up is queued or nothing is left to do. */
  ghost predicate Armed<S, A>(step: (S, bytes) -> Step<S, A>, p: Paced<S, A>) {
    p.queued > 0 || Quiescent(step, p.run)
  }

  lemma PacedDrainResumes<S(!new), A(!new)>(step: (S, bytes) -> Step<S, A>, p: Paced<S, A>, k: nat)
    requires Stable(step)
    ensures SameRun(Feed(step, PacedDrain(step, p, k).run, []), Feed(step, p.run, []))
    ensures Armed(step, PacedDrain(step, p, k))
    ensures !p.run.halted ==> Feed(step, PacedDrain(step, p, k).run, []) == Feed(step, p.run, [])
  {
    var q := PacedDrain(step, p, k);
    assert p.run.inbox + [] == p.run.inbox;
    if !p.run.halted {
      var (o, spent) := DrainUpTo(step, p.run.state, p.run.inbox, k);
      DrainUpToResumes(step, p.run.state, p.run.inbox, k);
      assert q.run.inbox + [] == q.run.inbox == o.inbox;
      if !o.halted {
        var t := Drain(step, o.state, o.inbox);
        Regroup(p.run.acts, o.acts, t.acts);
      }
    }
  }

  lemma FeedNothingThen<S(!new), A(!new)>(step: (S, bytes) -> Step<S, A>, o: Outcome<S, A>, data: bytes)
    requires Stable(step)
    ensures Feed(step, Feed(step, o, []), data) == Feed(step, o.(inbox := o.inbox + data), [])
  {
    FeedTwice(step, o, [], data);
    assert [] + data == data;
    assert (o.inbox + data) + [] == o.inbox + data;
  }

  /**
    * Pacing theorem: however chunk arrivals and queued wake-ups interleave, the paced
    * session stays on the way to the full drain of everything received so far, and it
    * is never left with work to do and no wake-up queued. So once no wake-up is queued
    * it has done exactly what an unbounded drain of the whole stream does.
    */
  lemma {:induction false} PacingIrrelevant<S(!new), A(!new)>(step: (S, bytes) -> Step<S, A>, p: Paced<S, A>, es: seq<Event>, k: nat)
    requires Stable(step) && Armed(step, p)
    ensures Armed(step, PacedRun(step, p, es, k))
    ensures SameRun(Feed(step, PacedRun(step, p, es, k).run, []), Feed(step, p.run, Received(es)))
    ensures PacedRun(step, p, es, k).queued == 0 ==>
              SameRun(PacedRun(step, p, es, k).run, Feed(step, p.run, Received(es)))
    decreases |es|
  {
    var q := PacedRun(step, p, es, k);
    if es == [] {
    } else {
      var next := PacedEvent(step, p, es[0], k);
      PacedEventArmed(step, p, es[0], k);
      PacingIrrelevant(step, next, es[1..], k);
      PacedEventFeeds(step, p, es[0], Received(es[1..]), k);
    }
    QuiescentFeed(step, q.run);
  }

  lemma QuiescentFeed<S(!new), A(!new)>(step: (S, bytes) -> Step<S, A>, o: Outcome<S, A>)
    requires Stable(step)
    ensures Quiescent(step, o) ==> Feed(step, o, []) == o
  {
    assert o.inbox + [] == o.inbox;
    assert o.acts + [] == o.acts;
  }

  lemma PacedEventArmed<S(!new), A(!new)>(step: (S, bytes) -> Step<S, A>, p: Paced<S, A>, e: Event, k: nat)
    requires Stable(step) && Armed(step, p)
    ensures Armed(step, PacedEvent(step, p, e, k))
  {
    match e
    case Chunk(data) => PacedDrainResumes(step, p.(run := p.run.(inbox := p.run.inbox + data)), k);
    case Wake => if p.queued > 0 { PacedDrainResumes(step, p.(queued := p.queued - 1), k); }
  }

  lemma PacedEventFeeds<S(!new), A(!new)>(step: (S, bytes) -> Step<S, A>, p: Paced<S, A>, e: Event, later: bytes, k: nat)
    requires Stable(step)
    ensures SameRun(Feed(step, PacedEvent(step, p, e, k).run, later),
                    Feed(step, p.run, (if e.Chunk? then e.data else []) + later))
  {
    var q := PacedEvent(step, p, e, k);
    var data := if e.Chunk? then e.data else [];
    var start := p.run.(inbox := p.run.inbox + data);
    assert e.Wake? ==> start == p.run;
    assert SameRun(Feed(step, q.run, []), Feed(step, start, [])) by {
      if e.Chunk? {
        PacedDrainResumes(step, p.(run := start), k);
      } else if p.queued > 0 {
        PacedDrainResumes(step, p.(queued := p.queued - 1), k);
      }
    }
    FeedTwice(step, q.run, [], later);
    FeedTwice(step, start, [], later);
    FeedTwice(step, p.run, data, later);
    assert [] + later == later;
    FeedNothingThen(step, p.run, data);
    Regroup(p.run.inbox, data, later);
  }

  lemma {:induction false} DrainUpToShrinks<S(!new), A(!new)>(step: (S, bytes) -> Step<S, A>, s: S, inbox: bytes, k: nat)
    requires Stable(step)
    ensures var (o, spent) := DrainUpTo(step, s, inbox, k);
            if spent then |o.inbox| + k <= |inbox| else |o.inbox| <= |inbox|
    decreases k
  {
    if k > 0 && step(s, inbox).Advance? {
      DrainUpToShrinks(step, step(s, inbox).next, inbox[step(s, inbox).n..], k - 1);
    }
  }

  /** Pacing cannot go on for ever: that many wake-ups, with no new bytes, leave none queued. */
  lemma {:induction false} WakesSettle<S(!new), A(!new)>(step: (S, bytes) -> Step<S, A>, p: Paced<S, A>, n: nat, k: nat)
    requires Stable(step) && k > 0
    requires p.queued + |p.run.inbox| <= n
    ensures PacedRun(step, p, Wakes(n), k).queued == 0
    decreases n
  {
    if n > 0 {
      var es := Wakes(n);
      assert es[1..] == Wakes(n - 1);
      var q := PacedEvent(step, p, Wake, k);
      DrainUpToShrinks(step, p.run.state, p.run.inbox, k);
      if p.queued > 0 {
        WakesSettle(step, q, n - 1, k);
      } else {
        WakesNoOp(step, p, n, k);
      }
    }
  }

  lemma {:induction false} WakesNoOp<S(!new), A(!new)>(step: (S, bytes) -> Step<S, A>, p: Paced<S, A>, n: nat, k: nat)
    requires Stable(step) && p.queued == 0
    ensures PacedRun(step, p, Wakes(n), k) == p
    decreases n
  {
    if n > 0 {
      assert Wakes(n)[1..] == Wakes(n - 1);
      WakesNoOp(step, p, n - 1, k);
    }
  }

  // ----- What a paced session keeps -----

  /** Of the octets received so far, some were taken, in order, and `inv` accounts for them. */
  ghost predicate Accounted<S(!new), A(!new)>(inv: (S, seq<A>, bytes) -> bool, o: Outcome<S, A>, received: bytes) {
    o.halted || exists taken: bytes :: received == taken + o.inbox && inv(o.state, o.acts, taken)
  }

  lemma {:induction false} DrainUpToKeeps<S(!new), A(!new)>(
    step: (S, bytes) -> Step<S, A>, inv: (S, seq<A>, bytes) -> bool, s: S, b: bytes, acts: seq<A>, taken: bytes, k: nat)
    requires Stable(step) && Keeps(step, inv) && inv(s, acts, taken)
    ensures var (d, _) := DrainUpTo(step, s, b, k);
            !d.halted ==> b == Taken(b, d) + d.inbox && inv(d.state, acts + d.acts, taken + Taken(b, d))
    decreases k
  {
    if k == 0 {
      assert acts + [] == acts && taken + b[..0] == taken;
    } else {
      match step(s, b)
      case Stall =>
        assert acts + [] == acts && taken + b[..0] == taken;
      case Halt(_, _, _) =>
      case Advance(n, next, more) =>
        assert KeepsAt(step, inv, s, b, acts, taken);
        DrainUpToKeeps(step, inv, next, b[n..], acts + more, taken + b[..n], k - 1);
        var (d, _) := DrainUpTo(step, next, b[n..], k - 1);
        if !d.halted {
          TakenSplits(b, n, d, taken);
          Regroup(acts, more, d.acts);
        }
    }
  }

  lemma PacedDrainKeeps<S(!new), A(!new)>(
    step: (S, bytes) -> Step<S, A>, inv: (S, seq<A>, bytes) -> bool, p: Paced<S, A>, k: nat, received: bytes)
    requires Stable(step) && Keeps(step, inv) && Accounted(inv, p.run, received)
    ensures Accounted(inv, PacedDrain(step, p, k).run, received)
  {
    if !p.run.halted {
      var taken: bytes :| received == taken + p.run.inbox && inv(p.run.state, p.run.acts, taken);
      DrainUpToKeeps(step, inv, p.run.state, p.run.inbox, p.run.acts, taken, k);
      var (d, _) := DrainUpTo(step, p.run.state, p.run.inbox, k);
      if !d.halted {
        Regroup(taken, Taken(p.run.inbox, d), d.inbox);
      }
    }
  }

  lemma PacedEventKeeps<S(!new), A(!new)>(
    step: (S, bytes) -> Step<S, A>, inv: (S, seq<A>, bytes) -> bool, p: Paced<S, A>, e: Event, k: nat, received: bytes)
    requires Stable(step) && Keeps(step, inv) && Accounted(inv, p.run, received)
    ensures Accounted(inv, PacedEvent(step, p, e, k).run, received + if e.Chunk? then e.data else [])
  {
    match e
    case Chunk(data) =>
      var q := p.(run := p.run.(inbox := p.run.inbox + data));
      if !p.run.halted {
        var taken: bytes :| received == taken + p.run.inbox && inv(p.run.state, p.run.acts, taken);
        Regroup(taken, p.run.inbox, data);
      }
      PacedDrainKeeps(step, inv, q, k, received + data);
    case Wake =>
      assert received + [] == received;
      if p.queued > 0 {
        PacedDrainKeeps(step, inv, p.(queued := p.queued - 1), k, received);
      }
  }

  /** What every step keeps holds of a paced session at every point, wake-ups still queued or not. */
  lemma {:induction false} PacedRunKeeps<S(!new), A(!new)>(
    step: (S, bytes) -> Step<S, A>, inv: (S, seq<A>, bytes) -> bool, p: Paced<S, A>, es: seq<Event>, k: nat, received: bytes)
    requires Stable(step) && Keeps(step, inv) && Accounted(inv, p.run, received)
    ensures Accounted(inv, PacedRun(step, p, es, k).run, received + Received(es))
    decreases |es|
  {
    if es == [] {
      assert received + [] == received;
    } else {
      var data := if es[0].Chunk? then es[0].data else [];
      PacedEventKeeps(step, inv, p, es[0], k, received);
      PacedRunKeeps(step, inv, PacedEvent(step, p, es[0], k), es[1..], k, received + data);
      Regroup(received, data, Received(es[1..]));
    }
  }

  // ----- Left to its wake-ups -----

  function Wakes(n: nat): (es: seq<Event>)
    ensures |es| == n && forall i :: 0 <= i < n ==> es[i] == Wake
  {
    seq(n, _ => Wake)
  }

  lemma {:induction false} PacedRunAppend<S(!new), A(!new)>(
    step: (S, bytes) -> Step<S, A>, p: Paced<S, A>, a: seq<Event>, b: seq<Event>, k: nat)
    requires Stable(step)
    ensures PacedRun(step, p, a + b, k) == PacedRun(step, PacedRun(step, p, a, k), b, k)
    ensures Received(a + b) == Received(a) + Received(b)
    decreases |a|
  {
    if a == [] {
      assert a + b == b;
    } else {
      assert (a + b)[1..] == a[1..] + b;
      PacedRunAppend(step, PacedEvent(step, p, a[0], k), a[1..], b, k);
      Regroup(if a[0].Chunk? then a[0].data else [], Received(a[1..]), Received(b));
    }
  }

  lemma {:induction false} WakesBringNothing(n: nat)
    ensures Received(Wakes(n)) == []
  {
    if n > 0 {
      assert Wakes(n)[1..] == Wakes(n - 1);
      WakesBringNothing(n - 1);
    }
  }

  /** Once nothing more arrives, as many wake-ups as octets wait finish what the full drain does. */
  lemma PacedRunSettles<S(!new), A(!new)>(step: (S, bytes) -> Step<S, A>, p: Paced<S, A>, es: seq<Event>, n: nat, k: nat)
    requires Stable(step) && Armed(step, p) && k > 0
    requires PacedRun(step, p, es, k).queued + |PacedRun(step, p, es, k).run.inbox| <= n
    ensures var q := PacedRun(step, p, es + Wakes(n), k);
            q.queued == 0 && SameRun(q.run, Feed(step, p.run, Received(es)))
  {
    PacedRunAppend(step, p, es, Wakes(n), k);
    WakesSettle(step, PacedRun(step, p, es, k), n, k);
    WakesBringNothing(n);
    assert Received(es) + [] == Received(es);
    PacingIrrelevant(step, p, es + Wakes(n), k);
  }
}
