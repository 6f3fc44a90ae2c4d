/** Heartbeat expiry of one Linux session over a whole timeline of arriving
    chunks and reaper sweeps. */
module Heartbeat {
  import opened Wire
  import opened Framing
  import opened Receiver
  import Session

  /** TcpSession_IsHeartbeatTimeOut. */
  predicate TimedOut(stamp: int, now: int) {
    now - stamp > HEARTBEAT_TIMEOUT
  }

  datatype Tick = Arrive(now: int, chunk: seq<byte>) | Sweep(now: int)

  datatype Status = Removed | Live(state: RecvState, stamp: int)

  /** The session after the ticks: a failing chunk or a sweep past the timeout
      ends it for good. (Removed after a failing chunk means that it is never read
      again: it is torn down, or left unarmed when the removal misses.) */
  function After(framed: bool, start: Status, ticks: seq<Tick>): Status {
    if ticks == [] then start else
    var last := ticks[|ticks| - 1];
    match After(framed, start, ticks[..|ticks| - 1])
    case Removed => Removed
    case Live(s, stamp) =>
      if last.Sweep? then
        if TimedOut(stamp, last.now) then Removed else Live(s, stamp)
      else
        var o := Session.Take(framed, Epoll, s, last.chunk);
        if o.Fail? then Removed else Live(o.state, Session.Stamped(stamp, o.events, last.now))
  }

  lemma {:induction false} AfterAppend(framed: bool, start: Status, a: seq<Tick>, b: seq<Tick>)
    ensures After(framed, start, a + b) == After(framed, After(framed, start, a), b)
    decreases |b|
  {
    if b == [] {
      assert a + b == a;
    } else {
      var n := |b| - 1;
      assert (a + b)[..|a + b| - 1] == a + b[..n] && (a + b)[|a + b| - 1] == b[n];
      AfterAppend(framed, start, a, b[..n]);
    }
  }

  /** The ticks that one read loop amounts to. */
  function Ticks(trace: seq<Session.ReadResult>): seq<Tick>
    requires Session.Ends(trace)
  {
    if trace[0].Got? then [Arrive(trace[0].now, trace[0].bytes)] + Ticks(trace[1..])
    else if trace[0].Interrupted? then Ticks(trace[1..])
    else []
  }

  /** One TcpSession_IORecv over a trace of any number of chunks is that many
      arrivals: the same state, the same stamp, the same end. */
  lemma {:induction false} ReadLoopIsTicks(framed: bool, s: RecvState, stamp: int, trace: seq<Session.ReadResult>)
    requires Session.Ends(trace)
    ensures var r := Session.TakeAll(framed, Epoll, s, Session.Chunks(trace));
      After(framed, Live(s, stamp), Ticks(trace)) ==
      if r.alive then Live(r.state, Session.StampAfter(framed, s, trace, stamp)) else Removed
    decreases |trace|
  {
    if trace[0].Got? {
      var first := Arrive(trace[0].now, trace[0].bytes);
      Session.UnfoldGot(framed, s, stamp, trace);
      AfterAppend(framed, Live(s, stamp), [first], Ticks(trace[1..]));
      AfterOne(framed, Live(s, stamp), first);
      var o := Session.Take(framed, Epoll, s, trace[0].bytes);
      if o.Go? {
        ReadLoopIsTicks(framed, o.state, Session.Stamped(stamp, o.events, trace[0].now), trace[1..]);
      } else {
        RemovedStays(framed, Ticks(trace[1..]));
      }
    } else {
      Session.UnfoldOther(framed, s, stamp, trace);
      if trace[0].Interrupted? {
        ReadLoopIsTicks(framed, s, stamp, trace[1..]);
      }
    }
  }

  lemma AfterOne(framed: bool, start: Status, t: Tick)
    requires start.Live? && t.Arrive?
    ensures var o := Session.Take(framed, Epoll, start.state, t.chunk);
      After(framed, start, [t]) ==
      if o.Fail? then Removed else Live(o.state, Session.Stamped(start.stamp, o.events, t.now))
  {
    assert [t][..0] == [];
  }

  lemma {:induction false} RemovedStays(framed: bool, ticks: seq<Tick>)
    ensures After(framed, Removed, ticks) == Removed
    decreases |ticks|
  {
    if ticks != [] { RemovedStays(framed, ticks[..|ticks| - 1]); }
  }

  /** The chunks that arrived, in order. */
  function Arrived(ticks: seq<Tick>): seq<seq<byte>> {
    if ticks == [] then [] else
    Arrived(ticks[..|ticks| - 1]) + if ticks[|ticks| - 1].Arrive? then [ticks[|ticks| - 1].chunk] else []
  }

  /** Tick `i` brings the last byte of a heartbeat frame of the stream, and every
      chunk up to it fits the stream. */
  predicate CompletesHeartbeat(b: RecvState, ticks: seq<Tick>, i: nat)
    requires AtBoundary(b) && i < |ticks|
  {
    ticks[i].Arrive? && BringsBeat(b, Arrived(ticks[..i]), ticks[i].chunk)
  }

  predicate BringsBeat(b: RecvState, before: seq<seq<byte>>, c: seq<byte>)
    requires AtBoundary(b)
  {
    Aligned(Epoll, b, before + [c]) &&
    var s := Parse(b, Flat(before)).state;
    |c| <= Missing(s) && Beat in Feed(s, c).events
  }

  predicate Monotone(start: int, ticks: seq<Tick>) {
    && (forall i :: 0 <= i < |ticks| ==> start <= ticks[i].now)
    && (forall i, j :: 0 <= i <= j < |ticks| ==> ticks[i].now <= ticks[j].now)
  }

  /** A sweep at tick `i` comes within the timeout of the session's start or of
      a heartbeat completed before it. */
  predicate Timely(b: RecvState, start: int, ticks: seq<Tick>, i: nat)
    requires AtBoundary(b) && i < |ticks|
  {
    ticks[i].Sweep? ==>
      || ticks[i].now - start <= HEARTBEAT_TIMEOUT
      || exists j :: 0 <= j < i && CompletesHeartbeat(b, ticks, j)
                     && ticks[i].now - ticks[j].now <= HEARTBEAT_TIMEOUT
  }

  /** `stamp` is the latest of the start and the heartbeats completed so far. */
  predicate Latest(b: RecvState, start: int, ticks: seq<Tick>, stamp: int)
    requires AtBoundary(b)
  {
    && (stamp == start || exists j :: 0 <= j < |ticks| && CompletesHeartbeat(b, ticks, j) && stamp == ticks[j].now)
    && start <= stamp
    && (forall j :: 0 <= j < |ticks| && CompletesHeartbeat(b, ticks, j) ==> ticks[j].now <= stamp)
  }

  // ------------------------------------------------------------------
  // One more chunk

  lemma {:induction false} RunSnoc(v: Variant, s: RecvState, chunks: seq<seq<byte>>, c: seq<byte>)
    ensures var r := Run(v, s, chunks);
      Run(v, s, chunks + [c]) ==
      if !r.alive then r
      else match Step(v, r.state, c)
        case Fail => r.(alive := false)
        case Go(s', es) => Ran(r.events + es, true, s')
    decreases |chunks|
  {
    hide Step;
    if chunks == [] {
      assert [c][1..] == [] && [] + [c] == [c];
    } else {
      assert (chunks + [c])[1..] == chunks[1..] + [c];
      if Step(v, s, chunks[0]).Go? {
        RunSnoc(v, Step(v, s, chunks[0]).state, chunks[1..], c);
      }
    }
  }

  lemma AlignedSnoc(b: RecvState, chunks: seq<seq<byte>>, c: seq<byte>)
    requires AtBoundary(b)
    ensures Aligned(Epoll, b, chunks + [c]) <==>
            Aligned(Epoll, b, chunks) && Fits(Epoll, Parse(b, Flat(chunks)).state, c)
  {
    hide Parse, Fits;
    var all := chunks + [c];
    assert all[..|chunks|] == chunks;
    forall i | 0 <= i < |chunks| ensures all[..i] == chunks[..i] {
    }
    if Aligned(Epoll, b, all) {
      assert Fits(Epoll, Parse(b, Flat(all[..|chunks|])).state, all[|chunks|]);
      forall i | 0 <= i < |chunks| ensures Fits(Epoll, Parse(b, Flat(chunks[..i])).state, chunks[i]) {
        assert Fits(Epoll, Parse(b, Flat(all[..i])).state, all[i]);
      }
    }
  }

  /** A chunk that a live session takes shows a heartbeat exactly when it
      completes one in the stream and everything up to it fitted: a session
      that has lost the stream shows nothing. */
  lemma ChunkShowsBeat(b: RecvState, chunks: seq<seq<byte>>, c: seq<byte>)
    requires AtBoundary(b) && ChunksOk(Epoll, chunks) && 0 < |c| <= READ_LEN
    requires Run(Epoll, b, chunks).alive && Step(Epoll, Run(Epoll, b, chunks).state, c).Go?
    ensures Beat in Step(Epoll, Run(Epoll, b, chunks).state, c).events <==> BringsBeat(b, chunks, c)
  {
    hide Parse, Step, Run;
    var s := Run(Epoll, b, chunks).state;
    AlignedSnoc(b, chunks, c);
    InStepIffAligned(Epoll, b, chunks);
    if Aligned(Epoll, b, chunks) {
      if Fits(Epoll, s, c) {
        FittingStep(Epoll, s, c);
      } else {
        MisfitStep(Epoll, s, c);
      }
    } else {
      LostShowsNothing(b, chunks, c);
    }
  }

  lemma LostShowsNothing(b: RecvState, chunks: seq<seq<byte>>, c: seq<byte>)
    requires AtBoundary(b) && ChunksOk(Epoll, chunks) && 0 < |c| <= READ_LEN && !Aligned(Epoll, b, chunks)
    requires Run(Epoll, b, chunks).alive && Step(Epoll, Run(Epoll, b, chunks).state, c).Go?
    ensures Step(Epoll, Run(Epoll, b, chunks).state, c).events == []
  {
    hide Parse, Step, Aligned;
    var s := Run(Epoll, b, chunks).state;
    MisalignedIsSilent(Epoll, b, chunks, [c]);
    assert [c][1..] == [];
    var o := Step(Epoll, s, c);
    assert Run(Epoll, o.state, []) == Ran([], true, o.state);
    assert Run(Epoll, s, [c]).events == o.events + [];
  }

  // ------------------------------------------------------------------
  // The stamp over a timeline

  lemma PrefixCompletes(b: RecvState, ticks: seq<Tick>)
    requires AtBoundary(b) && ticks != []
    ensures var init := ticks[..|ticks| - 1];
      forall k :: 0 <= k < |init| ==> CompletesHeartbeat(b, init, k) == CompletesHeartbeat(b, ticks, k)
  {
    hide BringsBeat;
    var init := ticks[..|ticks| - 1];
    forall k | 0 <= k < |init| ensures init[..k] == ticks[..k] && init[k] == ticks[k] {
    }
  }

  lemma TimelyOfPrefix(b: RecvState, start: int, ticks: seq<Tick>, i: nat)
    requires AtBoundary(b) && i < |ticks| - 1
    ensures Timely(b, start, ticks, i) == Timely(b, start, ticks[..|ticks| - 1], i)
  {
    hide CompletesHeartbeat;
    PrefixCompletes(b, ticks);
  }

  lemma ArrivedSnoc(ticks: seq<Tick>)
    requires ticks != []
    ensures var n := |ticks| - 1;
      Arrived(ticks) == if ticks[n].Arrive? then Arrived(ticks[..n]) + [ticks[n].chunk] else Arrived(ticks[..n])
  {
  }

  /** The last tick either completes a heartbeat, and the stamp becomes its
      time, or leaves the latest one as it is. */
  lemma LatestFurther(b: RecvState, start: int, ticks: seq<Tick>, stamp: int)
    requires AtBoundary(b) && ticks != [] && Monotone(start, ticks)
    requires Latest(b, start, ticks[..|ticks| - 1], stamp)
    ensures var n := |ticks| - 1;
      Latest(b, start, ticks, if CompletesHeartbeat(b, ticks, n) then ticks[n].now else stamp)
  {
    hide CompletesHeartbeat;
    var n := |ticks| - 1;
    PrefixCompletes(b, ticks);
    if !CompletesHeartbeat(b, ticks, n) && stamp != start {
      var j :| 0 <= j < n && CompletesHeartbeat(b, ticks[..n], j) && stamp == ticks[..n][j].now;
      assert CompletesHeartbeat(b, ticks, j) && stamp == ticks[j].now;
    }
    forall j | 0 <= j < |ticks| && CompletesHeartbeat(b, ticks, j)
      ensures ticks[j].now <= if CompletesHeartbeat(b, ticks, n) then ticks[n].now else stamp
    {
      if !CompletesHeartbeat(b, ticks, n) {
        assert j < n && CompletesHeartbeat(b, ticks[..n], j) && ticks[..n][j] == ticks[j];
      }
    }
  }

  lemma SweepIsTimely(b: RecvState, start: int, ticks: seq<Tick>, stamp: int)
    requires AtBoundary(b) && ticks != [] && ticks[|ticks| - 1].Sweep?
    requires Latest(b, start, ticks[..|ticks| - 1], stamp)
    ensures Timely(b, start, ticks, |ticks| - 1) <==> !TimedOut(stamp, ticks[|ticks| - 1].now)
  {
    hide CompletesHeartbeat;
    var n := |ticks| - 1;
    PrefixCompletes(b, ticks);
    if stamp != start {
      var j :| 0 <= j < n && CompletesHeartbeat(b, ticks[..n], j) && stamp == ticks[..n][j].now;
      assert CompletesHeartbeat(b, ticks, j) && stamp == ticks[j].now;
    }
    if j :| 0 <= j < n && CompletesHeartbeat(b, ticks, j) && ticks[n].now - ticks[j].now <= HEARTBEAT_TIMEOUT {
      assert CompletesHeartbeat(b, ticks[..n], j) && ticks[..n][j] == ticks[j];
    }
  }

  predicate AllTimely(b: RecvState, start: int, ticks: seq<Tick>)
    requires AtBoundary(b)
  {
    forall i :: 0 <= i < |ticks| ==> Timely(b, start, ticks, i)
  }

  lemma AllTimelySnoc(b: RecvState, start: int, ticks: seq<Tick>)
    requires AtBoundary(b) && ticks != []
    ensures var n := |ticks| - 1;
      AllTimely(b, start, ticks) <==> AllTimely(b, start, ticks[..n]) && Timely(b, start, ticks, n)
  {
    hide Timely;
    var n := |ticks| - 1;
    forall i | 0 <= i < n ensures Timely(b, start, ticks, i) == Timely(b, start, ticks[..n], i) {
      TimelyOfPrefix(b, start, ticks, i);
    }
    if AllTimely(b, start, ticks) {
      forall i | 0 <= i < n ensures Timely(b, start, ticks[..n], i) {
        assert Timely(b, start, ticks, i);
      }
    }
  }

  /** While a session lives, it is where its chunks alone would have brought it,
      and its stamp is the latest of its start and the heartbeats completed in
      the stream; it is gone once a chunk has failed or a sweep came too late. */
  lemma {:induction false} StampIsLatestHeartbeat(b: RecvState, start: int, ticks: seq<Tick>)
    requires AtBoundary(b) && Monotone(start, ticks) && ChunksOk(Epoll, Arrived(ticks))
    ensures var r := Run(Epoll, b, Arrived(ticks));
      match After(true, Live(b, start), ticks)
      case Removed => !r.alive || !AllTimely(b, start, ticks)
      case Live(s, stamp) => r.alive && s == r.state && Latest(b, start, ticks, stamp) && AllTimely(b, start, ticks)
  {
    hide Step, CompletesHeartbeat, Timely, Latest, AllTimely, Arrived, Run;
    if ticks == [] {
      NothingYet(b, start);
    } else {
      var n := |ticks| - 1;
      var init, last := ticks[..n], ticks[n];
      ArrivedSnoc(ticks);
      assert ChunksOk(Epoll, Arrived(init)) by {
        assert forall c :: c in Arrived(init) ==> c in Arrived(ticks);
      }
      StampIsLatestHeartbeat(b, start, init);
      AllTimelySnoc(b, start, ticks);
      var before := After(true, Live(b, start), init);
      if last.Arrive? {
        RunSnoc(Epoll, b, Arrived(init), last.chunk);
        ArrivalIsTimely(b, start, ticks, n);
        if before.Live? && Step(Epoll, before.state, last.chunk).Go? {
          assert last.chunk in Arrived(ticks);
          LatestAfterArrival(b, start, ticks, before.stamp);
        }
      } else if before.Live? {
        LatestAfterSweep(b, start, ticks, before.stamp);
        SweepIsTimely(b, start, ticks, before.stamp);
      }
    }
  }

  lemma NothingYet(b: RecvState, start: int)
    requires AtBoundary(b)
    ensures Run(Epoll, b, Arrived([])) == Ran([], true, b) && Latest(b, start, [], start) && AllTimely(b, start, [])
  {
  }

  lemma ArrivalIsTimely(b: RecvState, start: int, ticks: seq<Tick>, i: nat)
    requires AtBoundary(b) && i < |ticks| && ticks[i].Arrive?
    ensures Timely(b, start, ticks, i)
  {
  }

  lemma LatestAfterArrival(b: RecvState, start: int, ticks: seq<Tick>, stamp: int)
    requires AtBoundary(b) && Monotone(start, ticks) && ticks != [] && ticks[|ticks| - 1].Arrive?
    requires ChunksOk(Epoll, Arrived(ticks[..|ticks| - 1])) && 0 < |ticks[|ticks| - 1].chunk| <= READ_LEN
    requires Latest(b, start, ticks[..|ticks| - 1], stamp)
    requires var r := Run(Epoll, b, Arrived(ticks[..|ticks| - 1]));
      r.alive && Step(Epoll, r.state, ticks[|ticks| - 1].chunk).Go?
    ensures var last := ticks[|ticks| - 1];
      var o := Step(Epoll, Run(Epoll, b, Arrived(ticks[..|ticks| - 1])).state, last.chunk);
      Latest(b, start, ticks, Session.Stamped(stamp, o.events, last.now))
  {
    hide Step, Run, Latest, Arrived, BringsBeat;
    var n := |ticks| - 1;
    ChunkShowsBeat(b, Arrived(ticks[..n]), ticks[n].chunk);
    LatestFurther(b, start, ticks, stamp);
  }

  lemma LatestAfterSweep(b: RecvState, start: int, ticks: seq<Tick>, stamp: int)
    requires AtBoundary(b) && Monotone(start, ticks) && ticks != [] && ticks[|ticks| - 1].Sweep?
    requires Latest(b, start, ticks[..|ticks| - 1], stamp)
    ensures Latest(b, start, ticks, stamp)
  {
    hide Latest;
    LatestFurther(b, start, ticks, stamp);
  }

  /** Over every timeline with a monotone clock, whatever its chunks of one to
      1024 bytes, a framed session survives exactly when none of its chunks
      fails and every sweep comes within the timeout of its start or of a
      heartbeat completed before the sweep while the stream still fitted. */
  lemma {:induction false} SurvivesIffTimely(b: RecvState, start: int, ticks: seq<Tick>)
    requires AtBoundary(b) && Monotone(start, ticks) && ChunksOk(Epoll, Arrived(ticks))
    ensures After(true, Live(b, start), ticks).Live? <==>
            Run(Epoll, b, Arrived(ticks)).alive && AllTimely(b, start, ticks)
  {
    StampIsLatestHeartbeat(b, start, ticks);
  }

  /** After a chunk that did not fit, no heartbeat is completed any more. */
  lemma {:induction false} LostStreamCompletesNothing(b: RecvState, ticks: seq<Tick>, i: nat, j: nat)
    requires AtBoundary(b) && i <= j < |ticks| && !Aligned(Epoll, b, Arrived(ticks[..i]))
    ensures !CompletesHeartbeat(b, ticks, j)
  {
    hide Aligned, Parse, Feed;
    if ticks[j].Arrive? {
      AlignedSnoc(b, Arrived(ticks[..j]), ticks[j].chunk);
      StaysLost(b, ticks, i, j);
    }
  }

  lemma {:induction false} StaysLost(b: RecvState, ticks: seq<Tick>, i: nat, j: nat)
    requires AtBoundary(b) && i <= j <= |ticks| && !Aligned(Epoll, b, Arrived(ticks[..i]))
    ensures !Aligned(Epoll, b, Arrived(ticks[..j]))
    decreases j
  {
    hide Aligned;
    if i < j {
      StaysLost(b, ticks, i, j - 1);
      assert ticks[..j][..j - 1] == ticks[..j - 1];
      ArrivedSnoc(ticks[..j]);
      if ticks[j - 1].Arrive? {
        AlignedSnoc(b, Arrived(ticks[..j - 1]), ticks[j - 1].chunk);
      }
    }
  }

  /** A session that has lost the stream and lives on, holding what arrives, is
      removed by the first sweep past the timeout after its last heartbeat:
      `last` bounds its start and the heartbeats completed before tick `i`. */
  lemma {:induction false} LostSessionExpires(b: RecvState, start: int, ticks: seq<Tick>, i: nat, last: int, j: nat)
    requires AtBoundary(b) && Monotone(start, ticks) && ChunksOk(Epoll, Arrived(ticks))
    requires i <= j < |ticks| && !Aligned(Epoll, b, Arrived(ticks[..i]))
    requires start <= last && forall k :: 0 <= k < i && CompletesHeartbeat(b, ticks, k) ==> ticks[k].now <= last
    requires ticks[j].Sweep? && TimedOut(last, ticks[j].now)
    ensures After(true, Live(b, start), ticks) == Removed
  {
    hide CompletesHeartbeat, Aligned, Run, After;
    SurvivesIffTimely(b, start, ticks);
    if Timely(b, start, ticks, j) {
      var k :| 0 <= k < j && CompletesHeartbeat(b, ticks, k) && ticks[j].now - ticks[k].now <= HEARTBEAT_TIMEOUT;
      LostStreamCompletesNothing(b, ticks, i, if k < i then i else k);
    }
  }

  /** A session without framing never refreshes its stamp: it survives exactly
      the sweeps up to twenty seconds after its start, whatever arrives. */
  lemma {:induction false} UnframedExpires(s: RecvState, start: int, ticks: seq<Tick>)
    ensures After(false, Live(s, start), ticks) ==
            if forall i :: 0 <= i < |ticks| && ticks[i].Sweep? ==> ticks[i].now <= start + 20
            then Live(s, start) else Removed
  {
    if ticks != [] {
      var init := ticks[..|ticks| - 1];
      UnframedExpires(s, start, init);
      if i :| 0 <= i < |init| && init[i].Sweep? && init[i].now > start + HEARTBEAT_TIMEOUT {
        assert ticks[i].Sweep? && ticks[i].now > start + HEARTBEAT_TIMEOUT;
      }
    }
  }
}
