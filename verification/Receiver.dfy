/** The chunk-driven receivers against the reference reading of the stream. */
module Receiver {
  import opened Wire
  import opened Framing

  // ------------------------------------------------------------------
  // The reference reading, one chunk further

  /** Feeding `c` to a state that misses at least |c| bytes. */
  function Feed(s: RecvState, c: seq<byte>): (o: Outcome)
    requires WithinPart(s) && |c| <= Missing(s)
  {
    if |c| < Missing(s) then Go(s.(cache := s.cache + c), [])
    else if s.inBody then FinishBody(s, s.cache + c)
    else FinishHead(s, s.cache + c)
  }

  /** `c` read after `a` is what the longer stream `a + c` reads as. */
  ghost predicate Extends(b: RecvState, a: seq<byte>, c: seq<byte>)
    requires AtBoundary(b)
    requires |c| <= Missing(Parse(b, a).state)
  {
    var p := Parse(b, a);
    var o := Feed(p.state, c);
    o.Go? && WithinPart(o.state) && Parse(b, a + c) == Parsed(p.events + o.events, o.state)
  }

  lemma ExtendsInHead(b: RecvState, a: seq<byte>, c: seq<byte>)
    requires AtBoundary(b) && |a| < HEAD_LEN && |a + c| <= HEAD_LEN
    ensures |c| <= Missing(Parse(b, a).state) && Extends(b, a, c)
  {
    if |a + c| == HEAD_LEN {
      assert (a + c)[..HEAD_LEN] == a + c && (a + c)[HEAD_LEN..] == [];
    }
  }

  lemma ExtendsInBody(b: RecvState, a: seq<byte>, c: seq<byte>)
    requires AtBoundary(b) && HEAD_LEN <= |a| < FrameLen(a[..HEAD_LEN])
    requires |a + c| <= FrameLen(a[..HEAD_LEN])
    ensures |c| <= Missing(Parse(b, a).state) && Extends(b, a, c)
  {
    var head := a[..HEAD_LEN];
    assert (a + c)[..HEAD_LEN] == head && (a + c)[HEAD_LEN..] == a[HEAD_LEN..] + c;
    if |a + c| == FrameLen(head) {
      assert (a + c)[HEAD_LEN..|a + c|] == a[HEAD_LEN..] + c && (a + c)[|a + c|..] == [];
      assert Parse(Noted(b, head), []) == Parsed([], Noted(b, head));
    }
  }

  /** Reading past one complete frame. */
  lemma ParsePastFrame(b: RecvState, bytes: seq<byte>)
    requires AtBoundary(b) && HEAD_LEN <= |bytes| && FrameLen(bytes[..HEAD_LEN]) <= |bytes|
    ensures var head := bytes[..HEAD_LEN];
            var end := FrameLen(head);
            Parse(b, bytes) == Parse(Noted(b, head), bytes[end..]).After(FrameEvents(head, bytes[HEAD_LEN..end]))
  {
  }

  /** Reading on from a state reached earlier gives what reading the longer
      stream from its start gives. */
  lemma {:induction false} ParseExtends(b: RecvState, a: seq<byte>, c: seq<byte>)
    requires AtBoundary(b)
    requires |c| <= Missing(Parse(b, a).state)
    ensures Extends(b, a, c)
    decreases |a|
  {
    hide Parse;
    if |a| < HEAD_LEN {
      assert |a + c| <= HEAD_LEN by { PartsInHead(b, a); }
      ExtendsInHead(b, a, c);
    } else if |a| < FrameLen(a[..HEAD_LEN]) {
      assert |a + c| <= FrameLen(a[..HEAD_LEN]) by { PartsInBody(b, a); }
      ExtendsInBody(b, a, c);
    } else {
      var head := a[..HEAD_LEN];
      var end := FrameLen(head);
      ParsePastFrame(b, a);
      ParseExtends(Noted(b, head), a[end..], c);
      assert (a + c)[..HEAD_LEN] == head && (a + c)[HEAD_LEN..end] == a[HEAD_LEN..end];
      assert (a + c)[end..] == a[end..] + c;
      ParsePastFrame(b, a + c);
    }
  }

  lemma PartsInHead(b: RecvState, a: seq<byte>)
    requires AtBoundary(b) && |a| < HEAD_LEN
    ensures Missing(Parse(b, a).state) == HEAD_LEN - |a|
  {
  }

  lemma PartsInBody(b: RecvState, a: seq<byte>)
    requires AtBoundary(b) && HEAD_LEN <= |a| < FrameLen(a[..HEAD_LEN])
    ensures Missing(Parse(b, a).state) == FrameLen(a[..HEAD_LEN]) - |a|
  {
  }

  /** The reference, frame by frame. A header that is not recognised is skipped
      alone, whatever length it announces; a data frame shows its body; a
      heartbeat is echoed and counted. */
  lemma FrameLaw(b: RecvState, head: seq<byte>, body: seq<byte>, more: seq<byte>)
    requires AtBoundary(b) && |head| == HEAD_LEN
    ensures Classify(head) == Unknown ==> Parse(b, head + more) == Parse(b, more)
    ensures Classify(head) == Data && |body| == DataLen(head) ==>
      Parse(b, head + body + more) ==
      Parse(b.(kind := Data, salt := Salt(head)), more).After(if body == [] then [] else [Deliver(body)])
    ensures Classify(head) == HeartBeat && |body| == DataLen(head) ==>
      Parse(b, head + body + more) ==
      Parse(b.(kind := HeartBeat, salt := Salt(head)), more)
        .After(if body == [] then [Beat, Echo(head)] else [Echo(head), Beat])
    ensures Classify(head) != Unknown && |body| < DataLen(head) ==>
      Parse(b, head + body) ==
      Parsed(if Classify(head) == HeartBeat then [Echo(head)] else [],
             RecvState(true, DataLen(head), Classify(head), Salt(head), body))
  {
    hide Parse;
    assert (head + more)[..HEAD_LEN] == head && (head + more)[HEAD_LEN..HEAD_LEN] == [];
    assert (head + more)[HEAD_LEN..] == more;
    var whole := head + body + more;
    assert whole[..HEAD_LEN] == head;
    if Classify(head) == Unknown {
      ParsePastFrame(b, head + more);
    } else if |body| == DataLen(head) {
      assert whole[HEAD_LEN..HEAD_LEN + |body|] == body && whole[HEAD_LEN + |body|..] == more;
      ParsePastFrame(b, whole);
    } else if |body| < DataLen(head) {
      assert (head + body)[..HEAD_LEN] == head && (head + body)[HEAD_LEN..] == body;
      ParseCutFrame(b, head + body);
    }
  }

  lemma ParseCutFrame(b: RecvState, bytes: seq<byte>)
    requires AtBoundary(b) && HEAD_LEN <= |bytes| < FrameLen(bytes[..HEAD_LEN])
    ensures var head := bytes[..HEAD_LEN];
      Parse(b, bytes) == Parsed(if Classify(head) == HeartBeat then [Echo(head)] else [],
                                RecvState(true, DataLen(head), Classify(head), Salt(head), bytes[HEAD_LEN..]))
  {
  }

  /** More bytes never take back an event. */
  lemma {:induction false} ParseMonotone(b: RecvState, a: seq<byte>, c: seq<byte>)
    requires AtBoundary(b)
    ensures Parse(b, a).events <= Parse(b, a + c).events
    decreases |c|
  {
    hide Parse;
    var m := Missing(Parse(b, a).state);
    if |c| <= m {
      ParseExtends(b, a, c);
    } else {
      ParseExtends(b, a, c[..m]);
      ParseMonotone(b, a + c[..m], c[m..]);
      assert a + c == a + c[..m] + c[m..];
    }
  }

  // ------------------------------------------------------------------
  // Which chunks a receiver takes without losing the stream

  /** `c`, arriving where the stream misses Missing(s) bytes, keeps variant
      `v` on the stream: it stays inside the frame part; and, in the two
      shipped variants, a body arrives in one piece. (On Linux a body announced
      with 2^31 bytes or more reads as negative and is held.) */
  predicate Fits(v: Variant, s: RecvState, c: seq<byte>)
    requires WithinPart(s)
  {
    |c| <= Missing(s) &&
    (s.inBody ==>
       match v
       case Intended => true
       case Iocp => |c| == Missing(s)
       case Epoll => |c| == Missing(s) || Missing(s) >= TWO_31)
  }

  /** How many leading chunks fit, judged on the stream alone: `a` has been
      read from boundary `b`. */
  function FittingPrefix(v: Variant, b: RecvState, a: seq<byte>, chunks: seq<seq<byte>>): (k: nat)
    requires AtBoundary(b)
    ensures k <= |chunks|
    decreases |chunks|
  {
    if chunks == [] || !Fits(v, Parse(b, a).state, chunks[0]) then 0
    else 1 + FittingPrefix(v, b, a + chunks[0], chunks[1..])
  }

  predicate Aligned(v: Variant, b: RecvState, chunks: seq<seq<byte>>)
    requires AtBoundary(b)
  {
    forall i :: 0 <= i < |chunks| ==> Fits(v, Parse(b, Flat(chunks[..i])).state, chunks[i])
  }

  lemma {:induction false} FittingPrefixIsLongest(v: Variant, b: RecvState, a: seq<byte>, chunks: seq<seq<byte>>)
    requires AtBoundary(b)
    ensures var k := FittingPrefix(v, b, a, chunks);
      && (forall i :: 0 <= i < k ==> Fits(v, Parse(b, a + Flat(chunks[..i])).state, chunks[i]))
      && (k < |chunks| ==> !Fits(v, Parse(b, a + Flat(chunks[..k])).state, chunks[k]))
    decreases |chunks|
  {
    hide Parse;
    assert a + Flat(chunks[..0]) == a;
    var k := FittingPrefix(v, b, a, chunks);
    if k > 0 {
      var c := chunks[0];
      FittingPrefixIsLongest(v, b, a + c, chunks[1..]);
      forall i | 0 < i <= |chunks| ensures a + Flat(chunks[..i]) == a + c + Flat(chunks[1..][..i - 1]) {
        assert chunks[..i][1..] == chunks[1..][..i - 1];
      }
    }
  }

  lemma AlignedIffAllFit(v: Variant, b: RecvState, chunks: seq<seq<byte>>)
    requires AtBoundary(b)
    ensures Aligned(v, b, chunks) <==> FittingPrefix(v, b, [], chunks) == |chunks|
  {
    FittingPrefixIsLongest(v, b, [], chunks);
    forall i | 0 <= i <= |chunks| ensures [] + Flat(chunks[..i]) == Flat(chunks[..i]) {
    }
  }

  // ------------------------------------------------------------------
  // After an over-long body chunk

  /** The cache holds more than the body asked for. */
  predicate Stuck(v: Variant, s: RecvState) {
    s.inBody && |s.cache| > s.need && Gap(s) > ChunkLimit(v)
  }

  lemma GapShrinks(s: RecvState, c: seq<byte>)
    requires |c| <= Gap(s)
    ensures Gap(s.(cache := s.cache + c)) == Gap(s) - |c|
  {
  }

  /** A stuck receiver shows nothing more, whatever arrives. */
  lemma {:induction false} StuckForever(v: Variant, s: RecvState, chunks: seq<seq<byte>>)
    requires Stuck(v, s) && ChunksOk(v, chunks) && v != Intended
    ensures Run(v, s, chunks).events == []
    ensures Run(v, s, chunks).alive ==> Stuck(v, Run(v, s, chunks).state)
    decreases |chunks|
  {
    if chunks != [] {
      var c := chunks[0];
      GapShrinks(s, c);
      if Step(v, s, c).Go? {
        StuckForever(v, Step(v, s, c).state, chunks[1..]);
      }
    }
  }

  /** A chunk that fits is taken as the reference reads it. */
  lemma FittingStep(v: Variant, s: RecvState, c: seq<byte>)
    requires WithinPart(s) && 0 < |c| <= ChunkLimit(v) && Fits(v, s, c)
    ensures Step(v, s, c) == Feed(s, c)
  {
  }

  /** A chunk that does not fit ends the session or leaves it stuck. */
  lemma MisfitStep(v: Variant, s: RecvState, c: seq<byte>)
    requires WithinPart(s) && 0 < |c| <= ChunkLimit(v) && !Fits(v, s, c)
    ensures var o := Step(v, s, c);
            o.Go? ==> v != Intended && o.events == [] && Stuck(v, o.state)
  {
    if s.inBody && |c| > Missing(s) {
      assert Gap(s.(cache := s.cache + c)) == Missing(s) - |c| + TWO_32;
    }
  }

  // ------------------------------------------------------------------
  // What a run delivers, for every chunk sequence

  /** A run from the state the stream has reached after `a` shows what the
      reference finds in the fitting prefix, and either ends where the reference
      does or is stuck. */
  ghost predicate Follows(v: Variant, b: RecvState, a: seq<byte>, chunks: seq<seq<byte>>, r: Ran)
    requires AtBoundary(b)
  {
    var k := FittingPrefix(v, b, a, chunks);
    && Parse(b, a + Flat(chunks[..k])).events == Parse(b, a).events + r.events
    && (k == |chunks| ==> r.alive && r.state == Parse(b, a + Flat(chunks)).state)
    && (k < |chunks| ==> r.alive ==> Stuck(v, r.state))
  }

  lemma {:induction false} RunFollowsStream(v: Variant, b: RecvState, a: seq<byte>, chunks: seq<seq<byte>>)
    requires AtBoundary(b) && ChunksOk(v, chunks)
    ensures Follows(v, b, a, chunks, Run(v, Parse(b, a).state, chunks))
    decreases |chunks|
  {
    assert a + Flat(chunks[..0]) == a;
    if chunks != [] {
      var s, c := Parse(b, a).state, chunks[0];
      if Fits(v, s, c) {
        FittingStep(v, s, c);
        ParseExtends(b, a, c);
        RunFollowsStream(v, b, a + c, chunks[1..]);
        FollowsFromFirst(v, b, a, chunks, Run(v, Parse(b, a + c).state, chunks[1..]));
      } else {
        MisfitStep(v, s, c);
        if Step(v, s, c).Go? {
          StuckForever(v, Step(v, s, c).state, chunks[1..]);
        }
      }
    }
  }

  lemma {:induction false} FollowsFromFirst(v: Variant, b: RecvState, a: seq<byte>, chunks: seq<seq<byte>>, r: Ran)
    requires AtBoundary(b) && chunks != [] && Fits(v, Parse(b, a).state, chunks[0])
    requires Extends(b, a, chunks[0]) && Follows(v, b, a + chunks[0], chunks[1..], r)
    ensures Follows(v, b, a, chunks,
                    Ran(Feed(Parse(b, a).state, chunks[0]).events + r.events, r.alive, r.state))
  {
    hide Parse;
    FlatFromFirst(a, chunks, FittingPrefix(v, b, a, chunks));
    FlatFromFirst(a, chunks, |chunks|);
  }

  lemma FlatFromFirst(a: seq<byte>, chunks: seq<seq<byte>>, k: nat)
    requires 0 < k <= |chunks|
    ensures a + Flat(chunks[..k]) == a + chunks[0] + Flat(chunks[1..][..k - 1])
    ensures chunks[..|chunks|] == chunks && chunks[1..][..|chunks| - 1] == chunks[1..]
  {
    assert chunks[..k][1..] == chunks[1..][..k - 1];
  }

  /** The whole behaviour of all three receivers on every chunk sequence: they
      show what the reference finds up to the first chunk that does not fit,
      and nothing after it. */
  lemma {:induction false} ReceiverOutput(v: Variant, b: RecvState, chunks: seq<seq<byte>>)
    requires AtBoundary(b) && ChunksOk(v, chunks)
    ensures var k := FittingPrefix(v, b, [], chunks);
            Run(v, b, chunks).events == Parse(b, Flat(chunks[..k])).events
  {
    var k := FittingPrefix(v, b, [], chunks);
    assert [] + Flat(chunks[..k]) == Flat(chunks[..k]);
    RunFollowsStream(v, b, [], chunks);
  }

  /** Soundness: nothing is shown that the stream does not contain, in the
      stream's order. */
  lemma {:induction false} ReceiverSound(v: Variant, b: RecvState, chunks: seq<seq<byte>>)
    requires AtBoundary(b) && ChunksOk(v, chunks)
    ensures Run(v, b, chunks).events <= Parse(b, Flat(chunks)).events
  {
    var k := FittingPrefix(v, b, [], chunks);
    ReceiverOutput(v, b, chunks);
    assert chunks == chunks[..k] + chunks[k..];
    FlatAppend(chunks[..k], chunks[k..]);
    ParseMonotone(b, Flat(chunks[..k]), Flat(chunks[k..]));
  }

  /** A receiver ends in the state the reference reaches exactly when every
      chunk fits. */
  lemma {:induction false} InStepIffAligned(v: Variant, b: RecvState, chunks: seq<seq<byte>>)
    requires AtBoundary(b) && ChunksOk(v, chunks)
    ensures var r := Run(v, b, chunks);
            (r.alive && r.state == Parse(b, Flat(chunks)).state) <==> Aligned(v, b, chunks)
    ensures Aligned(v, b, chunks) ==> Run(v, b, chunks).events == Parse(b, Flat(chunks)).events
  {
    assert [] + Flat(chunks) == Flat(chunks);
    RunFollowsStream(v, b, [], chunks);
    AlignedIffAllFit(v, b, chunks);
    ReceiverOutput(v, b, chunks);
    assert chunks[..|chunks|] == chunks;
  }

  /** A misaligned run never shows anything again: it is dead, or every
      continuation is silent. */
  lemma {:induction false} MisalignedIsSilent(v: Variant, b: RecvState, chunks: seq<seq<byte>>, more: seq<seq<byte>>)
    requires AtBoundary(b) && ChunksOk(v, chunks) && ChunksOk(v, more) && !Aligned(v, b, chunks)
    ensures var r := Run(v, b, chunks);
            r.alive ==> Run(v, r.state, more).events == []
  {
    AlignedIffAllFit(v, b, chunks);
    RunFollowsStream(v, b, [], chunks);
    assert v == Intended ==> !Run(v, b, chunks).alive by {
      if v == Intended { IntendedNeverSticks(b, [], chunks); }
    }
    if Run(v, b, chunks).alive {
      StuckForever(v, Run(v, b, chunks).state, more);
    }
  }

  lemma {:induction false} IntendedNeverSticks(b: RecvState, a: seq<byte>, chunks: seq<seq<byte>>)
    requires AtBoundary(b) && ChunksOk(Intended, chunks)
    requires FittingPrefix(Intended, b, a, chunks) < |chunks|
    ensures !Run(Intended, Parse(b, a).state, chunks).alive
    decreases |chunks|
  {
    var s, c := Parse(b, a).state, chunks[0];
    if Fits(Intended, s, c) {
      FittingStep(Intended, s, c);
      ParseExtends(b, a, c);
      IntendedNeverSticks(b, a + c, chunks[1..]);
    } else {
      MisfitStep(Intended, s, c);
    }
  }

  /** On Linux, where a read returns at most 1024 bytes, a body announced
      longer than that is never delivered, however its bytes arrive. */
  lemma LongBodyNeverDelivered(s: RecvState, chunks: seq<seq<byte>>)
    requires s.inBody && s.cache == [] && 1024 < s.need < TWO_32 && ChunksOk(Epoll, chunks)
    ensures Run(Epoll, s, chunks).events == []
  {
    SilentWhileGapIsLarge(s, chunks);
  }

  lemma {:induction false} SilentWhileGapIsLarge(s: RecvState, chunks: seq<seq<byte>>)
    requires s.inBody && Gap(s) > READ_LEN && ChunksOk(Epoll, chunks)
    ensures var r := Run(Epoll, s, chunks);
            r.events == [] && |r.state.cache| >= |s.cache|
    decreases |chunks|
  {
    if chunks != [] {
      GapShrinks(s, chunks[0]);
      if Step(Epoll, s, chunks[0]).Go? {
        SilentWhileGapIsLarge(Step(Epoll, s, chunks[0]).state, chunks[1..]);
      }
    }
  }

  // ------------------------------------------------------------------
  // Who survives a chunk that does not fit

  /** A chunk that does not fit leaves a shipped receiver alive exactly when it is
      a body chunk longer than the bytes missing; it is then held as it is. */
  lemma MisfitSurvivesIff(v: Variant, s: RecvState, c: seq<byte>)
    requires v != Intended && WithinPart(s) && 0 < |c| <= ChunkLimit(v) && !Fits(v, s, c)
    ensures Step(v, s, c).Go? <==> s.inBody && |c| > Missing(s)
    ensures Step(v, s, c).Go? ==> Step(v, s, c) == Go(s.(cache := s.cache + c), [])
  {
  }

  /** Bytes held beyond the end of the body. */
  function Excess(s: RecvState): int {
    |s.cache| - s.need
  }

  /** What a receiver that holds too much goes on to survive: on Windows nothing;
      on Linux every chunk that finds at most 2^31 bytes too many. */
  predicate GoesOn(v: Variant, excess: int, chunks: seq<seq<byte>>) {
    chunks == [] || (v == Epoll && excess + |Flat(chunks[..|chunks| - 1])| <= TWO_31)
  }

  lemma GoesOnFurther(v: Variant, excess: int, chunks: seq<seq<byte>>)
    requires chunks != [] && 0 < excess
    ensures GoesOn(v, excess, chunks) <==>
            v == Epoll && excess <= TWO_31 && GoesOn(v, excess + |chunks[0]|, chunks[1..])
  {
    if |chunks| > 1 {
      assert chunks[..|chunks| - 1][1..] == chunks[1..][..|chunks| - 2];
    } else {
      assert chunks[..0] == [];
    }
  }

  /** While it goes on, it holds every byte it is handed. */
  lemma {:induction false} OverlongRun(v: Variant, s: RecvState, chunks: seq<seq<byte>>)
    requires v != Intended && s.inBody && s.need < TWO_32 && ChunksOk(v, chunks)
    requires 0 < Excess(s) <= TWO_31 + ChunkLimit(v) && (v == Iocp ==> Excess(s) <= ChunkLimit(v))
    ensures var r := Run(v, s, chunks);
      && (r.alive <==> GoesOn(v, Excess(s), chunks))
      && (r.alive ==> r.state == s.(cache := s.cache + Flat(chunks)))
    decreases |chunks|
  {
    assert GoesOn(v, Excess(s), []);
    hide Step, Gap, GoesOn;
    if chunks == [] {
      assert s.cache + Flat(chunks) == s.cache;
    } else {
      var c := chunks[0];
      GoesOnFurther(v, Excess(s), chunks);
      OverlongStep(v, s, c);
      if v == Epoll && Excess(s) <= TWO_31 {
        var held := s.(cache := s.cache + c);
        OverlongRun(v, held, chunks[1..]);
        assert held.cache + Flat(chunks[1..]) == s.cache + Flat(chunks);
      }
    }
  }

  lemma OverlongStep(v: Variant, s: RecvState, c: seq<byte>)
    requires v != Intended && s.inBody && s.need < TWO_32 && 0 < |c| <= ChunkLimit(v)
    requires 0 < Excess(s) <= TWO_31 + ChunkLimit(v) && (v == Iocp ==> Excess(s) <= ChunkLimit(v))
    ensures Step(v, s, c) == if v == Epoll && Excess(s) <= TWO_31 then Go(s.(cache := s.cache + c), []) else Fail
  {
    assert Gap(s) == TWO_32 - Excess(s);
  }

  /** The survival law, on the stream: a run of a shipped receiver lives exactly
      when all its chunks fit, or the first that does not is a body chunk longer
      than the bytes missing and the receiver goes on from there; and then it
      holds the whole rest of the stream from the body's start. */
  ghost predicate Survives(v: Variant, b: RecvState, a: seq<byte>, chunks: seq<seq<byte>>, r: Ran)
    requires AtBoundary(b)
  {
    var k := FittingPrefix(v, b, a, chunks);
    k < |chunks| ==>
      var s := Parse(b, a + Flat(chunks[..k])).state;
      && (r.alive <==> s.inBody && |chunks[k]| > Missing(s)
                       && GoesOn(v, Excess(s) + |chunks[k]|, chunks[k + 1..]))
      && (r.alive ==> r.state == s.(cache := s.cache + Flat(chunks[k..])))
  }

  lemma {:induction false} SurvivalLaw(v: Variant, b: RecvState, a: seq<byte>, chunks: seq<seq<byte>>)
    requires v != Intended && AtBoundary(b) && ChunksOk(v, chunks)
    ensures Survives(v, b, a, chunks, Run(v, Parse(b, a).state, chunks))
    ensures FittingPrefix(v, b, a, chunks) == |chunks| ==> Run(v, Parse(b, a).state, chunks).alive
    decreases |chunks|
  {
    hide Parse, Step;
    if chunks != [] {
      var s, c := Parse(b, a).state, chunks[0];
      if Fits(v, s, c) {
        FittingStep(v, s, c);
        ParseExtends(b, a, c);
        SurvivalLaw(v, b, a + c, chunks[1..]);
        SurvivesFromFirst(v, b, a, chunks, Run(v, Parse(b, a + c).state, chunks[1..]),
                          Run(v, s, chunks));
      } else {
        MisfitSurvives(v, b, a, chunks);
      }
    }
  }

  lemma SurvivesFromFirst(v: Variant, b: RecvState, a: seq<byte>, chunks: seq<seq<byte>>, rest: Ran, r: Ran)
    requires AtBoundary(b) && chunks != [] && Fits(v, Parse(b, a).state, chunks[0])
    requires Survives(v, b, a + chunks[0], chunks[1..], rest) && r.alive == rest.alive && r.state == rest.state
    ensures Survives(v, b, a, chunks, r)
  {
    hide Parse, Fits, GoesOn;
    var k := FittingPrefix(v, b, a, chunks);
    if k < |chunks| {
      FlatFromFirst(a, chunks, k);
      assert chunks[1..][k - 1] == chunks[k] && chunks[1..][k..] == chunks[k + 1..];
      assert chunks[1..][k - 1..] == chunks[k..];
    }
  }

  lemma RunFirst(v: Variant, s: RecvState, chunks: seq<seq<byte>>)
    requires chunks != []
    ensures var o := Step(v, s, chunks[0]);
      && (o.Fail? ==> Run(v, s, chunks) == Ran([], false, s))
      && (o.Go? ==> var r := Run(v, o.state, chunks[1..]);
                    Run(v, s, chunks) == Ran(o.events + r.events, r.alive, r.state))
  {
  }

  lemma HeldIsTooMuch(v: Variant, s: RecvState, c: seq<byte>)
    requires WithinPart(s) && s.inBody && Missing(s) < |c| <= ChunkLimit(v)
    ensures Excess(s.(cache := s.cache + c)) == Excess(s) + |c|
    ensures 0 < Excess(s) + |c| <= ChunkLimit(v) && s.need < TWO_32
  {
  }

  lemma MisfitSurvives(v: Variant, b: RecvState, a: seq<byte>, chunks: seq<seq<byte>>)
    requires v != Intended && AtBoundary(b) && ChunksOk(v, chunks)
    requires chunks != [] && !Fits(v, Parse(b, a).state, chunks[0])
    ensures Survives(v, b, a, chunks, Run(v, Parse(b, a).state, chunks))
  {
    hide Run, Parse, Fits;
    var s := Parse(b, a).state;
    MisfitRun(v, s, chunks);
    SurvivesHere(v, b, a, chunks, Run(v, s, chunks));
  }

  lemma SurvivesHere(v: Variant, b: RecvState, a: seq<byte>, chunks: seq<seq<byte>>, r: Ran)
    requires AtBoundary(b) && chunks != [] && !Fits(v, Parse(b, a).state, chunks[0])
    requires HoldsOn(v, Parse(b, a).state, chunks, r)
    ensures Survives(v, b, a, chunks, r)
  {
    hide Parse, Fits, GoesOn;
    assert a + Flat(chunks[..0]) == a && chunks[0..] == chunks;
  }

  /** Where the first chunk does not fit: who lives on, and holding what. */
  predicate HoldsOn(v: Variant, s: RecvState, chunks: seq<seq<byte>>, r: Ran)
    requires WithinPart(s) && chunks != []
  {
    && (r.alive <==> s.inBody && |chunks[0]| > Missing(s) && GoesOn(v, Excess(s) + |chunks[0]|, chunks[1..]))
    && (r.alive ==> r.state == s.(cache := s.cache + Flat(chunks)))
  }

  lemma MisfitRun(v: Variant, s: RecvState, chunks: seq<seq<byte>>)
    requires v != Intended && WithinPart(s) && ChunksOk(v, chunks)
    requires chunks != [] && !Fits(v, s, chunks[0])
    ensures HoldsOn(v, s, chunks, Run(v, s, chunks))
  {
    var c := chunks[0];
    assert Flat(chunks) == c + Flat(chunks[1..]);
    hide Step, Fits, GoesOn, Gap, Run, ChunkLimit, Excess, Flat;
    RunFirst(v, s, chunks);
    MisfitSurvivesIff(v, s, c);
    if s.inBody && |c| > Missing(s) {
      HeldIsTooMuch(v, s, c);
      OverlongRun(v, s.(cache := s.cache + c), chunks[1..]);
      assert s.cache + c + Flat(chunks[1..]) == s.cache + (c + Flat(chunks[1..]));
    }
  }

  // ------------------------------------------------------------------
  // The intended body branch

  /** No chunk reaches beyond the frame part it starts in; `a` has been read
      from boundary `b`. */
  predicate WithinFrames(b: RecvState, a: seq<byte>, chunks: seq<seq<byte>>)
    requires AtBoundary(b)
    decreases |chunks|
  {
    chunks == [] ||
    (|chunks[0]| <= Missing(Parse(b, a).state) && WithinFrames(b, a + chunks[0], chunks[1..]))
  }

  lemma {:induction false} WithinFramesIffAllFit(b: RecvState, a: seq<byte>, chunks: seq<seq<byte>>)
    requires AtBoundary(b)
    ensures WithinFrames(b, a, chunks) <==> FittingPrefix(Intended, b, a, chunks) == |chunks|
    decreases |chunks|
  {
    if chunks != [] {
      WithinFramesIffAllFit(b, a + chunks[0], chunks[1..]);
    }
  }

  /** Any two chunkings of one stream that never cross the end of a header or
      body come to the same events and the same state. */
  lemma {:induction false} FragmentationIndependence(b: RecvState, xs: seq<seq<byte>>, ys: seq<seq<byte>>)
    requires AtBoundary(b) && ChunksOk(Intended, xs) && ChunksOk(Intended, ys)
    requires Flat(xs) == Flat(ys)
    requires WithinFrames(b, [], xs) && WithinFrames(b, [], ys)
    ensures Run(Intended, b, xs) == Run(Intended, b, ys)
    ensures Run(Intended, b, xs).alive
  {
    WithinFramesIffAllFit(b, [], xs);
    WithinFramesIffAllFit(b, [], ys);
    AlignedIffAllFit(Intended, b, xs);
    AlignedIffAllFit(Intended, b, ys);
    InStepIffAligned(Intended, b, xs);
    InStepIffAligned(Intended, b, ys);
  }

  /** The body branch as shipped refuses the second half of a payload that the
      intended branch delivers. */
  lemma ShortBodyChunkBreaksShippedBranch()
    ensures var chunks: seq<seq<byte>> := [DataHead(2), [7], [9]];
      && Flat(chunks) == Encode([7, 9])
      && Run(Intended, FRESH, chunks) == Ran([Deliver([7, 9])], true, FRESH.(kind := Data))
      && !Run(Epoll, FRESH, chunks).alive && Run(Epoll, FRESH, chunks).events == []
      && !Run(Iocp, FRESH, chunks).alive && Run(Iocp, FRESH, chunks).events == []
  {
    hide Run, DataHead, Flat;
    var h, halves: seq<seq<byte>> := DataHead(2), [[7], [9]];
    assert [h, [7], [9]] == [h] + halves;
    assert Flat([h]) == h && Flat(halves) == [7, 9] by { FlatOfFew(h); }
    FlatAppend([h], halves);
    assert FRESH.cache + h == h;
    forall v: Variant ensures Run(v, FRESH, [h] + halves) == Run(v, RecvState(true, 2, Data, 0, []), halves) {
      HeadInPieces(v, FRESH, 2, [h], halves);
    }
    HalvesRun();
  }

  lemma FlatOfFew(h: seq<byte>)
    ensures Flat([h]) == h && Flat([[7], [9]]) == [7, 9]
  {
    assert [[7], [9]][1..] == [[9]] && [[9]][1..] == [];
  }

  lemma HalvesRun()
    ensures var s := RecvState(true, 2, Data, 0, []);
      && Run(Intended, s, [[7], [9]]) == Ran([Deliver([7, 9])], true, FRESH.(kind := Data))
      && Run(Epoll, s, [[7], [9]]) == Run(Iocp, s, [[7], [9]]) == Ran([], false, s)
  {
    var s, t := RecvState(true, 2, Data, 0, []), RecvState(true, 2, Data, 0, [7]);
    assert [[7], [9]][1..] == [[9]] && [[9]][1..] == [] && [] + [7] == [7] && [7] + [9] == [7, 9];
    assert Step(Intended, s, [7]) == Go(t, []);
    assert Step(Intended, t, [9]) == Go(FRESH.(kind := Data), [Deliver([7, 9])]);
  }

  // ------------------------------------------------------------------
  // The two shipped receivers against each other

  /** In any state, on any chunk, the two shipped receivers take the same step
      exactly when the signed reading of the missing length is not negative. */
  lemma PlatformsAgreeIff(s: RecvState, c: seq<byte>)
    requires 0 < |c| < TWO_31
    ensures Step(Epoll, s, c) == Step(Iocp, s, c) <==> !(s.inBody && Gap(s) >= TWO_31)
  {
  }

  /** No chunk that the Windows receiver still processes arrives where 2^31 or
      more bytes of a body are missing. */
  predicate NoGiantReached(b: RecvState, a: seq<byte>, chunks: seq<seq<byte>>)
    requires AtBoundary(b)
    decreases |chunks|
  {
    var s := Parse(b, a).state;
    chunks == [] ||
    ((s.inBody ==> Missing(s) < TWO_31) &&
     (Fits(Iocp, s, chunks[0]) ==> NoGiantReached(b, a + chunks[0], chunks[1..])))
  }

  /** On every chunking that stays within frame parts, the two shipped
      receivers pass through the same states to the same events and the same
      end exactly when no such body is reached. */
  lemma {:induction false} PlatformsSimulateIff(b: RecvState, a: seq<byte>, chunks: seq<seq<byte>>)
    requires AtBoundary(b) && ChunksOk(Epoll, chunks)
    requires WithinFrames(b, a, chunks)
    ensures var s := Parse(b, a).state;
            Run(Epoll, s, chunks) == Run(Iocp, s, chunks) <==> NoGiantReached(b, a, chunks)
    decreases |chunks|
  {
    hide Parse;
    if chunks != [] {
      var s, c := Parse(b, a).state, chunks[0];
      PlatformsAgreeIff(s, c);
      if s.inBody && Missing(s) >= TWO_31 {
        GapShrinks(s, c);
        SilentWhileGapIsLarge(Step(Epoll, s, c).state, chunks[1..]);
      } else if Fits(Iocp, s, c) {
        FittingStep(Iocp, s, c);
        ParseExtends(b, a, c);
        PlatformsSimulateIff(b, a + c, chunks[1..]);
        var o := Feed(s, c);
        var x, y := Run(Epoll, o.state, chunks[1..]), Run(Iocp, o.state, chunks[1..]);
        assert x.events == (o.events + x.events)[|o.events|..];
        assert y.events == (o.events + y.events)[|o.events|..];
      } else {
        assert Gap(s) == Missing(s) && Step(Iocp, s, c) == Fail;
      }
    }
  }

  // ------------------------------------------------------------------
  // The length the Windows receiver posts

  /** wsaBuf.len before each WSARecv in header mode. */
  function PostedLen(s: RecvState): nat {
    if s.inBody then Gap(s) else (HEAD_LEN - |s.cache|) % TWO_32
  }

  /** Every completion is at most the length posted for it. */
  predicate WithinPosts(s: RecvState, chunks: seq<seq<byte>>)
    decreases |chunks|
  {
    chunks == [] ||
    (|chunks[0]| <= PostedLen(s) &&
     (var o := Step(Iocp, s, chunks[0]); o.Go? ==> WithinPosts(o.state, chunks[1..])))
  }

  predicate BodyUntouched(s: RecvState) {
    WithinPart(s) && (s.inBody ==> s.cache == [])
  }

  lemma PostedStep(s: RecvState, c: seq<byte>)
    requires BodyUntouched(s) && 0 < |c| <= PostedLen(s)
    ensures PostedLen(s) == Missing(s) > 0
    ensures Step(Iocp, s, c).Go? ==> BodyUntouched(Step(Iocp, s, c).state)
  {
  }

  /** The first post, and every repost after completions that respect their
      posts, asks for exactly the bytes the current part misses. So no
      completion crosses a frame boundary, the over-long branches are not
      taken, and no body is ever partly cached. */
  lemma {:induction false} PostsAreExact(s: RecvState, chunks: seq<seq<byte>>)
    requires BodyUntouched(s) && ChunksOk(Iocp, chunks) && WithinPosts(s, chunks)
    ensures PostedLen(s) == Missing(s) > 0
    ensures chunks != [] ==> |chunks[0]| <= Missing(s)
    ensures var r := Run(Iocp, s, chunks);
            r.alive ==> BodyUntouched(r.state) && PostedLen(r.state) == Missing(r.state) > 0
    decreases |chunks|
  {
    if chunks != [] {
      PostedStep(s, chunks[0]);
      var o := Step(Iocp, s, chunks[0]);
      if o.Go? {
        PostsAreExact(o.state, chunks[1..]);
      }
    }
  }

  /** Under its own posts the shipped Windows receiver survives exactly when
      every body completes in one read. */
  lemma {:induction false} PostedRunSurvivesIff(b: RecvState, a: seq<byte>, chunks: seq<seq<byte>>)
    requires AtBoundary(b) && BodyUntouched(Parse(b, a).state)
    requires ChunksOk(Iocp, chunks) && WithinPosts(Parse(b, a).state, chunks)
    ensures Run(Iocp, Parse(b, a).state, chunks).alive <==>
            FittingPrefix(Iocp, b, a, chunks) == |chunks|
    decreases |chunks|
  {
    hide Parse;
    if chunks != [] {
      var s, c := Parse(b, a).state, chunks[0];
      if Fits(Iocp, s, c) {
        FittingStep(Iocp, s, c);
        ParseExtends(b, a, c);
        PostedRunSurvivesIff(b, a + c, chunks[1..]);
      }
    }
  }

  // ------------------------------------------------------------------
  // Round trip with the sender

  function Deliveries(payloads: seq<seq<byte>>): seq<Event> {
    if payloads == [] then []
    else (if payloads[0] == [] then [] else [Deliver(payloads[0])]) + Deliveries(payloads[1..])
  }

  /** The reference finds in the sender's bytes exactly the payloads sent, in
      order; an empty payload's frame is skipped. */
  lemma {:induction false} ParseEncoded(b: RecvState, payloads: seq<seq<byte>>)
    requires AtBoundary(b) && (forall p :: p in payloads ==> Sendable(p))
    ensures var q := Parse(b, EncodeAll(payloads));
            q.events == Deliveries(payloads) && AtBoundary(q.state)
    decreases |payloads|
  {
    if payloads != [] {
      var p, more := payloads[0], EncodeAll(payloads[1..]);
      var bytes := EncodeAll(payloads);
      assert Sendable(p);
      var head := DataHead(|p|);
      DataHeadReads(|p|);
      ParseEncoded(b.(kind := Data, salt := 0), payloads[1..]);
      assert bytes == head + p + more;
      assert bytes[..HEAD_LEN] == head && bytes[HEAD_LEN..HEAD_LEN + |p|] == p;
      assert bytes[HEAD_LEN + |p|..] == more;
    }
  }

  /** Round trip: the sender's bytes, in any chunking that fits the variant,
      deliver exactly the payloads sent. For the shipped variants each body
      must arrive whole; for the intended one, chunks need only stay within
      frame parts. */
  lemma {:induction false} RoundTrip(v: Variant, payloads: seq<seq<byte>>, chunks: seq<seq<byte>>)
    requires forall p :: p in payloads ==> Sendable(p)
    requires Flat(chunks) == EncodeAll(payloads)
    requires ChunksOk(v, chunks) && Aligned(v, FRESH, chunks)
    ensures var r := Run(v, FRESH, chunks);
            r.alive && r.events == Deliveries(payloads) && AtBoundary(r.state)
  {
    ParseEncoded(FRESH, payloads);
    InStepIffAligned(v, FRESH, chunks);
  }

  /** Under posted lengths: the sender's bytes, completed in any sizes the
      Windows receiver posted, are delivered in full exactly when every body
      completes in one read. */
  lemma {:induction false} RoundTripPosted(payloads: seq<seq<byte>>, chunks: seq<seq<byte>>)
    requires forall p :: p in payloads ==> Sendable(p)
    requires Flat(chunks) == EncodeAll(payloads)
    requires ChunksOk(Iocp, chunks) && WithinPosts(FRESH, chunks)
    ensures var r := Run(Iocp, FRESH, chunks);
            (r.alive && r.events == Deliveries(payloads) && AtBoundary(r.state)) <==> Aligned(Iocp, FRESH, chunks)
  {
    assert Parse(FRESH, []).state == FRESH;
    PostedRunSurvivesIff(FRESH, [], chunks);
    AlignedIffAllFit(Iocp, FRESH, chunks);
    if Aligned(Iocp, FRESH, chunks) {
      RoundTrip(Iocp, payloads, chunks);
    }
  }

  /** One data frame as it arrives: its header in pieces, its body in one. */
  datatype Arrival = Arrival(head: seq<seq<byte>>, body: seq<byte>)

  predicate ArrivesWhole(v: Variant, f: Arrival) {
    && 0 < |f.body| <= ChunkLimit(v) && Sendable(f.body)
    && Flat(f.head) == DataHead(|f.body|) && (forall c :: c in f.head ==> c != [])
  }

  function Arriving(frames: seq<Arrival>): seq<seq<byte>> {
    if frames == [] then [] else frames[0].head + [frames[0].body] + Arriving(frames[1..])
  }

  function Bodies(frames: seq<Arrival>): seq<seq<byte>> {
    if frames == [] then [] else [frames[0].body] + Bodies(frames[1..])
  }

  lemma {:induction false} FlatIsLonger(pieces: seq<seq<byte>>)
    requires forall c :: c in pieces ==> c != []
    ensures pieces == [] <==> Flat(pieces) == []
  {
    if pieces != [] {
      assert pieces[0] in pieces;
    }
  }

  /** A piece of a data header is kept, or completes the header; it is at most
      what Windows posted for it. */
  lemma HeadPiece(v: Variant, s: RecvState, n: nat, c: seq<byte>)
    requires !s.inBody && s.need == 0 && 0 < n < TWO_31
    requires |s.cache| < HEAD_LEN && c != [] && s.cache + c <= DataHead(n)
    ensures Step(v, s, c) == Go(if s.cache + c == DataHead(n) then RecvState(true, n, Data, 0, [])
                                else s.(cache := s.cache + c), [])
    ensures |c| <= PostedLen(s)
  {
    DataHeadReads(n);
  }

  /** The pieces of a data header, however cut, leave the receiver waiting for
      the body. */
  lemma {:induction false} HeadInPieces(v: Variant, s: RecvState, n: nat, pieces: seq<seq<byte>>, more: seq<seq<byte>>)
    requires !s.inBody && s.need == 0 && 0 < n < TWO_31
    requires s.cache + Flat(pieces) == DataHead(n) && |s.cache| < HEAD_LEN
    requires forall c :: c in pieces ==> c != []
    ensures var waiting := RecvState(true, n, Data, 0, []);
      && Run(v, s, pieces + more) == Run(v, waiting, more)
      && (v == Iocp && WithinPosts(waiting, more) ==> WithinPosts(s, pieces + more))
    decreases |pieces|
  {
    hide Step, PostedLen, DataHead;
    var c, rest := pieces[0], pieces[1..];
    assert c in pieces && forall d :: d in rest ==> d in pieces;
    FlatIsLonger(rest);
    assert s.cache + c + Flat(rest) == DataHead(n);
    HeadPiece(v, s, n, c);
    assert (pieces + more)[0] == c && (pieces + more)[1..] == rest + more;
    if rest == [] {
      assert s.cache + c == DataHead(n) && [] + more == more;
    } else {
      HeadInPieces(v, s.(cache := s.cache + c), n, rest, more);
    }
  }

  /** A body in one piece, at most as long as the platform reads at once, is
      delivered. */
  lemma WholeBody(v: Variant, body: seq<byte>, more: seq<seq<byte>>)
    requires 0 < |body| <= ChunkLimit(v)
    ensures var waiting := RecvState(true, |body|, Data, 0, []);
      var r := Run(v, FRESH.(kind := Data), more);
      && Run(v, waiting, [body] + more) == Ran([Deliver(body)] + r.events, r.alive, r.state)
      && (v == Iocp && WithinPosts(FRESH.(kind := Data), more) ==> WithinPosts(waiting, [body] + more))
  {
    var waiting := RecvState(true, |body|, Data, 0, []);
    assert ([body] + more)[1..] == more && [] + body == body;
    assert Step(v, waiting, body) == Go(FRESH.(kind := Data), [Deliver(body)]);
  }

  lemma FlatOfFrame(head: seq<seq<byte>>, body: seq<byte>, more: seq<seq<byte>>)
    ensures Flat(head + [body] + more) == Flat(head) + body + Flat(more)
  {
    FlatSnoc(head, body);
    FlatAppend(head + [body], more);
  }

  lemma {:induction false} ArrivingIsEncoded(v: Variant, frames: seq<Arrival>)
    requires forall f :: f in frames ==> ArrivesWhole(v, f)
    ensures forall p :: p in Bodies(frames) ==> Sendable(p)
    ensures Flat(Arriving(frames)) == EncodeAll(Bodies(frames))
  {
    hide DataHead, ChunkLimit, Flat;
    if frames != [] {
      var f, rest := frames[0], frames[1..];
      assert f in frames && ArrivesWhole(v, f);
      ArrivingIsEncoded(v, rest);
      FlatOfFrame(f.head, f.body, Arriving(rest));
      assert Bodies(frames)[1..] == Bodies(rest);
    } else {
      assert Flat([]) == [] by { FlatIsLonger([]); }
    }
  }

  lemma {:induction false} ArrivingIsDelivered(v: Variant, s: RecvState, frames: seq<Arrival>)
    requires AtBoundary(s) && (forall f :: f in frames ==> ArrivesWhole(v, f))
    ensures var r := Run(v, s, Arriving(frames));
            r.alive && r.events == Deliveries(Bodies(frames)) && AtBoundary(r.state)
    ensures v == Iocp ==> WithinPosts(s, Arriving(frames))
    decreases |frames|
  {
    if frames != [] {
      hide Run, WithinPosts, Flat, DataHead, ChunkLimit;
      var f, rest := frames[0], frames[1..];
      assert f in frames && ArrivesWhole(v, f);
      ArrivingIsDelivered(v, FRESH.(kind := Data), rest);
      WholeBody(v, f.body, Arriving(rest));
      HeadInPieces(v, s, |f.body|, f.head, [f.body] + Arriving(rest));
      assert Arriving(frames) == f.head + ([f.body] + Arriving(rest));
      assert Bodies(frames)[1..] == Bodies(rest);
    }
  }

  /** Round trip from the sender's side: frames with their headers cut anywhere
      and each body in one read are delivered exactly and in order; and on
      Windows these completions respect their posts. */
  lemma {:induction false} WholeBodiesRoundTrip(v: Variant, frames: seq<Arrival>)
    requires forall f :: f in frames ==> ArrivesWhole(v, f)
    ensures forall p :: p in Bodies(frames) ==> Sendable(p)
    ensures Flat(Arriving(frames)) == EncodeAll(Bodies(frames))
    ensures var r := Run(v, FRESH, Arriving(frames));
            r.alive && r.events == Deliveries(Bodies(frames)) && AtBoundary(r.state)
    ensures v == Iocp ==> WithinPosts(FRESH, Arriving(frames))
  {
    ArrivingIsEncoded(v, frames);
    ArrivingIsDelivered(v, FRESH, frames);
  }

  /** The other direction: if the stream holds only data frames as the sender
      prints them (salt zero, not empty) and ends at a boundary, then encoding
      what was delivered gives the stream back. */
  predicate SenderFrames(bytes: seq<byte>)
    decreases |bytes|
  {
    bytes == [] ||
    (|bytes| >= HEAD_LEN && Classify(bytes[..HEAD_LEN]) == Data && Salt(bytes[..HEAD_LEN]) == 0 &&
     var n := DataLen(bytes[..HEAD_LEN]);
     0 < n < TWO_31 - HEAD_LEN && |bytes| >= HEAD_LEN + n && SenderFrames(bytes[HEAD_LEN + n..]))
  }

  lemma {:induction false} EncodeParsed(b: RecvState, bytes: seq<byte>) returns (payloads: seq<seq<byte>>)
    requires AtBoundary(b) && SenderFrames(bytes)
    ensures forall p :: p in payloads ==> Sendable(p) && p != []
    ensures EncodeAll(payloads) == bytes
    ensures Parse(b, bytes).events == Deliveries(payloads)
    decreases |bytes|
  {
    if bytes == [] {
      payloads := [];
    } else {
      var head := bytes[..HEAD_LEN];
      var end := HEAD_LEN + DataLen(head);
      DataHeadIsUnique(head);
      var more := EncodeParsed(b.(kind := Data, salt := 0), bytes[end..]);
      var p := bytes[HEAD_LEN..end];
      payloads := [p] + more;
      assert bytes == Encode(p) + bytes[end..];
    }
  }

  // ------------------------------------------------------------------
  // Heartbeat echoes

  /** The heartbeat headers of a stream, found by walking its frames. A header
      that is not recognised announces no body. */
  function HeartbeatHeads(bytes: seq<byte>): seq<seq<byte>>
    decreases |bytes|
  {
    if |bytes| < HEAD_LEN then [] else
    var head := bytes[..HEAD_LEN];
    var end := FrameLen(head);
    (if Classify(head) == HeartBeat then [head] else []) +
    (if |bytes| < end then [] else HeartbeatHeads(bytes[end..]))
  }

  lemma {:induction false} ParseEchoesHeartbeats(b: RecvState, bytes: seq<byte>)
    requires AtBoundary(b)
    ensures Echoes(Parse(b, bytes).events) == HeartbeatHeads(bytes)
    decreases |bytes|
  {
    if |bytes| >= HEAD_LEN {
      var head := bytes[..HEAD_LEN];
      var end := FrameLen(head);
      if |bytes| >= end {
        var shown := FrameEvents(head, bytes[HEAD_LEN..end]);
        ParseEchoesHeartbeats(Noted(b, head), bytes[end..]);
        EchoesAppend(shown, Parse(Noted(b, head), bytes[end..]).events);
        assert Echoes(shown) == if Classify(head) == HeartBeat then [head] else [];
      }
    }
  }

  /** The headers submitted for echo are, byte for byte and in order, the
      heartbeat headers of the bytes consumed before the first misfit. */
  lemma {:induction false} EchoesAreHeartbeats(v: Variant, b: RecvState, chunks: seq<seq<byte>>)
    requires AtBoundary(b) && ChunksOk(v, chunks)
    ensures var k := FittingPrefix(v, b, [], chunks);
            Echoes(Run(v, b, chunks).events) == HeartbeatHeads(Flat(chunks[..k]))
  {
    var k := FittingPrefix(v, b, [], chunks);
    ReceiverOutput(v, b, chunks);
    ParseEchoesHeartbeats(b, Flat(chunks[..k]));
  }
}
