/** A session on top of the redirection client: TCP chunks go in below, application octets come out above. */
module RedirStack {

  import opened ByteCodec
  import opened InboxDrain
  import opened RedirClient
  import SolSession
  import KvmSession
  import IderSession

  type Below = Outcome<State, Act>

  /** What the client hands to the session for each chunk it receives. */
  ghost function HandedOn(o: Below, chunks: seq<bytes>): (up: seq<bytes>)
    requires Stable(RedirStep)
    ensures |up| == |chunks|
    decreases |chunks|
  {
    if chunks == [] then []
    else
      var p := Feed(RedirStep, o, chunks[0]);
      [AppOf(p.acts[|o.acts|..])] + HandedOn(p, chunks[1..])
  }

  /** Nothing is lost or added between the client's trace and what the session is fed. */
  lemma {:induction false} HandedOnIsTheTrace(o: Below, chunks: seq<bytes>)
    requires Stable(RedirStep)
    ensures AppOf(FeedAll(RedirStep, o, chunks).acts) == AppOf(o.acts) + Flat(HandedOn(o, chunks))
    decreases |chunks|
  {
    if chunks == [] {
      assert AppOf(o.acts) + [] == AppOf(o.acts);
    } else {
      var p := Feed(RedirStep, o, chunks[0]);
      var more := p.acts[|o.acts|..];
      assert p.acts == o.acts + more;
      ProjectionsAppend(o.acts, more);
      HandedOnIsTheTrace(p, chunks[1..]);
      Regroup(AppOf(o.acts), AppOf(more), Flat(HandedOn(p, chunks[1..])));
    }
  }

  lemma SameOctetsUp(o: Below, one: seq<bytes>, other: seq<bytes>)
    requires Stable(RedirStep) && Quiescent(RedirStep, o) && Flat(one) == Flat(other)
    ensures Flat(HandedOn(o, one)) == Flat(HandedOn(o, other))
  {
    SegmentationIrrelevant(RedirStep, o, one, other);
    HandedOnIsTheTrace(o, one);
    HandedOnIsTheTrace(o, other);
    SamePrefix(AppOf(o.acts), Flat(HandedOn(o, one)), Flat(HandedOn(o, other)));
  }

  lemma SamePrefix(a: bytes, b: bytes, c: bytes)
    requires a + b == a + c
    ensures b == c
  {
    assert b == (a + b)[|a|..] && c == (a + c)[|a|..];
  }

  /**
    * Segmentation through both layers, for any session with a stable step: however the TCP
    * stream is cut, handshake and all, the session ends in the same state with the same trace.
    */
  lemma StackedSegmentation<S(!new), A(!new)>(
    step: (S, bytes) -> Step<S, A>, session: Outcome<S, A>, client: Below, one: seq<bytes>, other: seq<bytes>)
    requires Stable(step) && Quiescent(step, session)
    requires Stable(RedirStep) && Quiescent(RedirStep, client) && Flat(one) == Flat(other)
    ensures FeedAll(step, session, HandedOn(client, one)) == FeedAll(step, session, HandedOn(client, other))
  {
    SameOctetsUp(client, one, other);
    SegmentationIrrelevant(step, session, HandedOn(client, one), HandedOn(client, other));
  }

  /**
    * And what a session sees behind an authenticated client is exactly the stream without the
    * handshake frames at its head.
    */
  lemma StackedRun<S(!new), A(!new)>(
    step: (S, bytes) -> Step<S, A>, session: Outcome<S, A>, hasUser: bool, kvm: bool, chunks: seq<bytes>)
    requires Stable(step) && Quiescent(step, session)
    ensures Stable(RedirStep)
    ensures var client := FeedAll(RedirStep, Begun(hasUser, kvm), chunks);
            var head := Flat(FramesOf(client.acts));
            client.state.phase == Authenticated ==>
              && head <= Flat(chunks)
              && FeedAll(step, session, HandedOn(Begun(hasUser, kvm), chunks)) == Feed(step, session, Flat(chunks)[|head|..])
  {
    RedirStepStable();
    var o := Begun(hasUser, kvm);
    AuthenticatedRun(hasUser, kvm, chunks);
    HandedOnIsTheTrace(o, chunks);
    FeedAllIsOneFeed(step, session, HandedOn(o, chunks));
    assert AppOf(o.acts) + Flat(HandedOn(o, chunks)) == Flat(HandedOn(o, chunks));
  }

  // ----- The three sessions -----

  lemma SolOverTcp(session: Outcome<SolSession.State, SolSession.Act>, client: Below, one: seq<bytes>, other: seq<bytes>)
    requires Quiescent(SolSession.SolStep, session) && Quiescent(RedirStep, client) && Flat(one) == Flat(other)
    ensures Stable(SolSession.SolStep) && Stable(RedirStep)
    ensures FeedAll(SolSession.SolStep, session, HandedOn(client, one))
            == FeedAll(SolSession.SolStep, session, HandedOn(client, other))
  {
    SolSession.SolStepStable();
    RedirStepStable();
    StackedSegmentation(SolSession.SolStep, session, client, one, other);
  }

  lemma KvmOverTcp(session: Outcome<KvmSession.State, KvmSession.Act>, client: Below, one: seq<bytes>, other: seq<bytes>)
    requires Quiescent(KvmSession.KvmStep, session) && Quiescent(RedirStep, client) && Flat(one) == Flat(other)
    ensures Stable(KvmSession.KvmStep) && Stable(RedirStep)
    ensures FeedAll(KvmSession.KvmStep, session, HandedOn(client, one))
            == FeedAll(KvmSession.KvmStep, session, HandedOn(client, other))
  {
    KvmSession.KvmStepStable();
    RedirStepStable();
    StackedSegmentation(KvmSession.KvmStep, session, client, one, other);
  }

  /** What goes up between timer shots. */
  ghost function SpansUp(o: Below, spans: seq<seq<bytes>>): (up: seq<seq<bytes>>)
    requires Stable(RedirStep)
    ensures |up| == |spans|
    decreases |spans|
  {
    if spans == [] then [] else [HandedOn(o, spans[0])] + SpansUp(FeedAll(RedirStep, o, spans[0]), spans[1..])
  }

  /** The same octets in every stretch. */
  predicate SameStretches(one: seq<seq<bytes>>, other: seq<seq<bytes>>) {
    |one| == |other| && forall i :: 0 <= i < |one| ==> Flat(one[i]) == Flat(other[i])
  }

  lemma SameTail(one: seq<seq<bytes>>, other: seq<seq<bytes>>)
    requires SameStretches(one, other) && one != []
    ensures Flat(one[0]) == Flat(other[0]) && SameStretches(one[1..], other[1..])
  {
    assert Flat(one[0]) == Flat(other[0]);
    forall i | 0 <= i < |one[1..]| ensures Flat(one[1..][i]) == Flat(other[1..][i]) {
      assert Flat(one[i + 1]) == Flat(other[i + 1]);
    }
  }

  lemma SameCons(a: seq<bytes>, b: seq<bytes>, one: seq<seq<bytes>>, other: seq<seq<bytes>>)
    requires Flat(a) == Flat(b) && SameStretches(one, other)
    ensures SameStretches([a] + one, [b] + other)
  {
    var x, y := [a] + one, [b] + other;
    forall i | 0 <= i < |x| ensures Flat(x[i]) == Flat(y[i]) {
      if i == 0 {
        assert x[i] == a && y[i] == b;
      } else {
        assert x[i] == one[i - 1] && y[i] == other[i - 1];
      }
    }
  }

  /** After a stretch the client is the same and at rest, however it was cut. */
  lemma StretchDone(o: Below, one: seq<bytes>, other: seq<bytes>)
    requires Stable(RedirStep) && Quiescent(RedirStep, o) && Flat(one) == Flat(other)
    ensures FeedAll(RedirStep, o, one) == FeedAll(RedirStep, o, other) && Quiescent(RedirStep, FeedAll(RedirStep, o, one))
  {
    SegmentationIrrelevant(RedirStep, o, one, other);
    FeedAllIsOneFeed(RedirStep, o, one);
    FeedQuiesces(RedirStep, o, Flat(one));
  }

  lemma {:induction false} SameSpansUp(o: Below, one: seq<seq<bytes>>, other: seq<seq<bytes>>)
    requires Stable(RedirStep) && Quiescent(RedirStep, o) && SameStretches(one, other)
    ensures SameStretches(SpansUp(o, one), SpansUp(o, other))
    decreases |one|
  {
    if one != [] {
      SameTail(one, other);
      SameOctetsUp(o, one[0], other[0]);
      StretchDone(o, one[0], other[0]);
      var p := FeedAll(RedirStep, o, one[0]);
      SameSpansUp(p, one[1..], other[1..]);
      SameCons(HandedOn(o, one[0]), HandedOn(o, other[0]), SpansUp(p, one[1..]), SpansUp(p, other[1..]));
    }
  }

  lemma IderOverTcp(session: Outcome<IderSession.State, IderSession.Act>, client: Below,
                    one: seq<seq<bytes>>, other: seq<seq<bytes>>)
    requires Quiescent(IderSession.IderStep, session) && Quiescent(RedirStep, client) && SameStretches(one, other)
    ensures Stable(IderSession.IderStep) && Stable(RedirStep)
    ensures IderSession.RunSpans(session, SpansUp(client, one)) == IderSession.RunSpans(session, SpansUp(client, other))
  {
    RedirStepStable();
    SameSpansUp(client, one, other);
    IderSession.IderSegmentation(session, SpansUp(client, one), SpansUp(client, other));
  }
}
