/**
  * Serial-console recorder: bytes arrive in arbitrary chunks, each chunk becomes one text
  * event, and a character cut in two by a chunk boundary is held back until it is whole.
  */
module Asciicast {

  import opened ByteCodec

  // ----- Well-formed UTF-8 (section 4 of RFC 3629) -----

  predicate Tail(b: byte) { 0x80 <= b <= 0xBF }

  /** Octets a character beginning with `b` has; 0 if none can begin with it. */
  function Needed(b: byte): nat {
    if b <= 0x7F then 1
    else if 0xC2 <= b <= 0xDF then 2
    else if 0xE0 <= b <= 0xEF then 3
    else if 0xF0 <= b <= 0xF4 then 4
    else 0
  }

  /** What the second octet may be after the first. */
  predicate SecondFits(first: byte, second: byte) {
    && Tail(second)
    && (first == 0xE0 ==> 0xA0 <= second)
    && (first == 0xED ==> second <= 0x9F)
    && (first == 0xF0 ==> 0x90 <= second)
    && (first == 0xF4 ==> second <= 0x8F)
  }

  /** Length of the character at the head of `b`, or 0 if there is no whole one. */
  function CharLen(b: bytes): (n: nat)
    ensures n <= |b| && n <= 4
  {
    if b == [] then 0
    else
      var n := Needed(b[0]);
      if n == 0 || n > |b| then 0
      else if n >= 2 && !SecondFits(b[0], b[1]) then 0
      else if n >= 3 && !Tail(b[2]) then 0
      else if n == 4 && !Tail(b[3]) then 0
      else n
  }

  predicate WellFormed(b: bytes)
    decreases |b|
  {
    b == [] || (CharLen(b) > 0 && WellFormed(b[CharLen(b)..]))
  }

  // ----- The scan for an unfinished character -----

  /** What one octet tells a backwards scan that has gone back `back` octets. */
  datatype Look = Finished(tail: nat) | Further

  function LookAt(b: byte, back: nat): Look {
    if b < 0x80 then Finished(0)
    else if b < 0xC0 then Further
    else if b < 0xE0 then Finished(if back < 2 then back else 0)
    else if b < 0xF0 then Finished(if back < 3 then back else 0)
    else if b < 0xF8 then Finished(if back < 4 then back else 0)
    else Finished(0)
  }

  function TailFrom(b: bytes, back: nat): (r: nat)
    requires 1 <= back
    ensures r <= |b| && r <= 3
    decreases 4 - back
  {
    if back > 3 || back > |b| then 0
    else
      match LookAt(b[|b| - back], back)
      case Finished(tail) => tail
      case Further => TailFrom(b, back + 1)
  }

  /** Octets at the end of `b` that begin a character and do not finish it. */
  function TailLen(b: bytes): (r: nat)
    ensures r <= |b| && r <= 3
  {
    TailFrom(b, 1)
  }

  method IncompleteUtf8TailLen(b: bytes) returns (r: nat)
    ensures r == TailLen(b)
  {
    var back := 1;
    while back <= 3 && back <= |b|
      invariant 1 <= back <= 4
      invariant TailLen(b) == TailFrom(b, back)
    {
      var x := b[|b| - back];
      if x < 0x80 { return 0; }
      if x < 0xC0 {
        back := back + 1;
        continue;
      }
      var needed;
      if x < 0xE0 {
        needed := 2;
      } else if x < 0xF0 {
        needed := 3;
      } else if x < 0xF8 {
        needed := 4;
      } else {
        return 0;
      }
      return if back < needed then back else 0;
    }
    return 0;
  }

  // ----- Cutting a well-formed stream anywhere -----

  /** A whole character leaves nothing unfinished. */
  lemma WholeCharNoTail(c: bytes)
    requires c != [] && CharLen(c) == |c|
    ensures TailLen(c) == 0
  {
    if |c| == 2 {
      assert TailFrom(c, 2) == 0;
    } else if |c| == 3 {
      assert TailFrom(c, 3) == 0;
      assert TailFrom(c, 2) == 0;
    } else if |c| == 4 {
      assert TailFrom(c, 4) == 0;
      assert TailFrom(c, 3) == 0;
      assert TailFrom(c, 2) == 0;
    }
  }

  /** A proper prefix of a character is all unfinished. */
  lemma PartialCharAllTail(c: bytes, more: bytes)
    requires c != [] && CharLen(c + more) > |c|
    ensures TailLen(c) == |c|
  {
    assert forall i :: 0 <= i < |c| ==> (c + more)[i] == c[i];
    if |c| == 2 {
      assert TailFrom(c, 2) == 2;
    } else if |c| == 3 {
      assert TailFrom(c, 3) == 3;
      assert TailFrom(c, 2) == 3;
    }
  }

  /** The scan never looks past an octet that is not a continuation. */
  lemma {:induction false} TailFromLocal(c: bytes, b: bytes, back: nat)
    requires 1 <= back && b != [] && !Tail(b[0])
    requires back <= |b|
    ensures TailFrom(c + b, back) == TailFrom(b, back)
    decreases 4 - back
  {
    if back <= 3 {
      assert (c + b)[|c + b| - back] == b[|b| - back];
      if LookAt(b[|b| - back], back).Further? {
        assert back < |b|;
        TailFromLocal(c, b, back + 1);
      }
    }
  }

  function Kept(b: bytes): bytes { b[..|b| - TailLen(b)] }
  function Held(b: bytes): bytes { b[|b| - TailLen(b)..] }

  /** Off with the unfinished tail: whole characters remain, and the tail goes on to finish its own. */
  predicate CleanCut(b: bytes, rest: bytes) {
    WellFormed(Kept(b)) && WellFormed(Held(b) + rest)
  }

  /** The cut of a character followed by more is the cut of what follows. */
  lemma CutAfterChar(c: bytes, after: bytes, rest: bytes)
    requires c != [] && CharLen(c) == |c| && WellFormed(after + rest)
    ensures Kept(c + after) == c + Kept(after) && Held(c + after) == Held(after)
  {
    TailLenAfter(c, after, rest);
  }

  lemma WellFormedCons(c: bytes, x: bytes)
    requires c != [] && CharLen(c) == |c| && WellFormed(x)
    ensures WellFormed(c + x)
  {
    HeadChar(c, x, c + x, |c|);
  }

  lemma CutPartial(b: bytes, rest: bytes)
    requires WellFormed(b + rest) && (b != [] ==> CharLen(b + rest) > |b|)
    ensures CleanCut(b, rest)
  {
    if b != [] {
      PartialCharAllTail(b, rest);
    }
    assert b[0..] == b;
  }

  /** However a well-formed stream is cut, the scan finds where its last whole character ends. */
  lemma {:induction false} CutIsClean(b: bytes, rest: bytes)
    requires WellFormed(b + rest)
    ensures CleanCut(b, rest)
    decreases |b|
  {
    var n := CharLen(b + rest);
    if b == [] || n > |b| {
      CutPartial(b, rest);
    } else {
      var c, after := b[..n], b[n..];
      assert b == c + after;
      assert b + rest == c + (after + rest);
      HeadChar(c, after + rest, b + rest, n);
      CutIsClean(after, rest);
      CutAfterChar(c, after, rest);
      WellFormedCons(c, Kept(after));
    }
  }

  /** A whole character in front of anything is the head character of the whole. */
  lemma HeadChar(c: bytes, rest: bytes, b: bytes, n: nat)
    requires b == c + rest && |c| == n
    ensures 0 < n && (CharLen(c) == n || CharLen(b) == n) ==> CharLen(c) == CharLen(b) == n && b[n..] == rest
  {
    assert forall i :: 0 <= i < n ==> b[i] == c[i];
  }

  lemma TailLenAfter(c: bytes, after: bytes, rest: bytes)
    requires c != [] && CharLen(c) == |c|
    requires WellFormed(after + rest)
    ensures TailLen(c + after) == TailLen(after)
  {
    if after == [] {
      assert c + after == c;
      WholeCharNoTail(c);
    } else {
      assert (after + rest)[0] == after[0];
      TailFromLocal(c, after, 1);
    }
  }

  /** The octet an unfinished tail begins with is not a continuation. */
  lemma {:induction false} TailStarts(b: bytes, back: nat)
    requires 1 <= back && TailFrom(b, back) > 0
    ensures !Tail(b[|b| - TailFrom(b, back)])
    decreases 4 - back
  {
    if LookAt(b[|b| - back], back).Further? {
      TailStarts(b, back + 1);
    }
  }

  /** What is held back is itself wholly unfinished. */
  lemma TailOfTail(b: bytes)
    ensures var n := TailLen(b); TailLen(b[|b| - n..]) == n
  {
    var n := TailLen(b);
    if n > 0 {
      TailStarts(b, 1);
      assert b == b[..|b| - n] + b[|b| - n..];
      TailFromLocal(b[..|b| - n], b[|b| - n..], 1);
    }
  }

  lemma {:induction false} WellFormedNoTail(b: bytes)
    requires WellFormed(b)
    ensures TailLen(b) == 0
    decreases |b|
  {
    if b != [] {
      var n := CharLen(b);
      var c, after := b[..n], b[n..];
      WellFormedNoTail(after);
      assert b == c + after && after + [] == after;
      HeadChar(c, after, b, n);
      TailLenAfter(c, after, []);
    }
  }

  // ----- The recording -----

  /** The byte strings turned into text events so far, and the octets held back. */
  datatype Recording = Recording(events: seq<bytes>, tail: bytes)

  function Push(r: Recording, chunk: bytes): Recording {
    if chunk == [] then r
    else
      var buf := r.tail + chunk;
      var cut := |buf| - TailLen(buf);
      Recording(if cut == 0 then r.events else r.events + [buf[..cut]], buf[cut..])
  }

  function PushAll(r: Recording, chunks: seq<bytes>): Recording
    decreases |chunks|
  {
    if chunks == [] then r else PushAll(Push(r, chunks[0]), chunks[1..])
  }

  /** Closing writes an unfinished character as an event of its own. */
  function Close(r: Recording): Recording {
    if r.tail == [] then r else Recording(r.events + [r.tail], [])
  }

  ghost predicate AllWellFormed(events: seq<bytes>) {
    forall i :: 0 <= i < |events| ==> WellFormed(events[i])
  }

  predicate HeldBack(r: Recording) {
    TailLen(r.tail) == |r.tail|
  }

  lemma PushKeepsBytes(r: Recording, chunk: bytes)
    requires HeldBack(r)
    ensures Flat(Push(r, chunk).events) + Push(r, chunk).tail == Flat(r.events) + r.tail + chunk
    ensures HeldBack(Push(r, chunk)) && |Push(r, chunk).tail| <= 3
  {
    var buf := r.tail + chunk;
    var cut := |buf| - TailLen(buf);
    if chunk == [] {
      assert Flat(r.events) + r.tail + [] == Flat(r.events) + r.tail;
    } else {
      TailOfTail(buf);
      FlatSnoc(r.events, buf[..cut]);
      assert buf == buf[..cut] + buf[cut..];
      Regroup(Flat(r.events), r.tail, chunk);
      Regroup(Flat(r.events), buf[..cut], buf[cut..]);
      assert cut == 0 ==> buf[cut..] == buf;
    }
  }

  lemma PushKeepsText(r: Recording, chunk: bytes, rest: bytes)
    requires AllWellFormed(r.events) && WellFormed(r.tail + (chunk + rest))
    ensures AllWellFormed(Push(r, chunk).events) && WellFormed(Push(r, chunk).tail + rest)
  {
    if chunk == [] {
      assert chunk + rest == rest;
    } else {
      var buf := r.tail + chunk;
      Regroup(r.tail, chunk, rest);
      CutIsClean(buf, rest);
    }
  }

  lemma {:induction false} PushAllKeepsBytes(r: Recording, chunks: seq<bytes>)
    requires HeldBack(r) && |r.tail| <= 3
    ensures var z := PushAll(r, chunks);
            && Flat(z.events) + z.tail == Flat(r.events) + r.tail + Flat(chunks)
            && HeldBack(z) && |z.tail| <= 3
    decreases |chunks|
  {
    var before := Flat(r.events) + r.tail;
    if chunks == [] {
      assert before + [] == before;
    } else {
      PushKeepsBytes(r, chunks[0]);
      PushAllKeepsBytes(Push(r, chunks[0]), chunks[1..]);
      Regroup(before, chunks[0], Flat(chunks[1..]));
    }
  }

  lemma {:induction false} PushAllKeepsText(r: Recording, chunks: seq<bytes>)
    requires AllWellFormed(r.events) && WellFormed(r.tail + Flat(chunks))
    ensures AllWellFormed(PushAll(r, chunks).events) && WellFormed(PushAll(r, chunks).tail)
    decreases |chunks|
  {
    if chunks == [] {
      assert r.tail + [] == r.tail;
    } else {
      PushKeepsText(r, chunks[0], Flat(chunks[1..]));
      PushAllKeepsText(Push(r, chunks[0]), chunks[1..]);
    }
  }

  /**
    * For any chunking: the events and what is held back are exactly the bytes received,
    * with at most three held back, and closing loses none of them. If the stream is
    * well-formed UTF-8, then no event splits a character and nothing is left to close.
    */
  lemma RecordingFaithful(chunks: seq<bytes>)
    ensures var z := PushAll(Recording([], []), chunks);
            && Flat(z.events) + z.tail == Flat(chunks)
            && |z.tail| <= 3
            && Flat(Close(z).events) == Flat(chunks)
            && (WellFormed(Flat(chunks)) ==> z.tail == [] && Close(z) == z && AllWellFormed(z.events))
  {
    var z := PushAll(Recording([], []), chunks);
    PushAllKeepsBytes(Recording([], []), chunks);
    assert [] + [] + Flat(chunks) == Flat(chunks);
    assert [] + Flat(chunks) == Flat(chunks);
    FlatSnoc(z.events, z.tail);
    if WellFormed(Flat(chunks)) {
      PushAllKeepsText(Recording([], []), chunks);
      WellFormedNoTail(z.tail);
    }
    assert z.tail == [] ==> Flat(z.events) + z.tail == Flat(z.events);
  }

  class Recorder {
    var open: bool
    var tail: bytes
    var events: seq<bytes>

    constructor ()
      ensures open && View() == Recording([], [])
    {
      open, tail, events := true, [], [];
    }

    ghost function View(): Recording
      reads this
    {
      Recording(events, tail)
    }

    method PushBytes(chunk: bytes)
      modifies this
      ensures open == old(open)
      ensures View() == if open then Push(old(View()), chunk) else old(View())
    {
      if !open || chunk == [] { return; }
      var buf := tail + chunk;
      var tailLen := IncompleteUtf8TailLen(buf);
      tail := buf[|buf| - tailLen..];
      buf := buf[..|buf| - tailLen];
      if buf == [] { return; }
      events := events + [buf];
    }

    method Stop()
      modifies this
      ensures !open && tail == []
      ensures events == if old(open) then Close(old(View())).events else old(events)
    {
      if !open {
        tail := [];
        return;
      }
      if tail != [] {
        events := events + [tail];
        tail := [];
      }
      open := false;
    }
  }
}
