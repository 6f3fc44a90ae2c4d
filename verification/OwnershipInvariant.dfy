/** The invariant of EventOwnership, and that a step keeps it exactly when the
    step's guard holds. */
module OwnershipInvariant {
  import opened EventOwnership

  /** Erase, deregister, finalise, delete: one actor's teardown, `done` calls
      after the erase. */
  function Torn(who: Actor, done: nat): (h: seq<Act>)
    ensures |h| == if done < 3 then done + 1 else 4
    ensures h[0] == Erase(who)
  {
    if done == 0 then [Erase(who)]
    else if done == 1 then [Erase(who), Deregister(who)]
    else if done == 2 then [Erase(who), Deregister(who), Finalise(who)]
    else [Erase(who), Deregister(who), Finalise(who), Delete(who)]
  }

  const ABORT_ADD: seq<Act> := [Erase(Acceptor), Finalise(Acceptor), Delete(Acceptor)]
  const ABORT_POST: seq<Act> := [Deregister(Acceptor), Erase(Acceptor), Finalise(Acceptor), Delete(Acceptor)]
  const SHUTDOWN: seq<Act> := [Finalise(Manager), Delete(Manager)]

  predicate Complete(h: seq<Act>) {
    h == ABORT_ADD || h == ABORT_POST || h == SHUTDOWN ||
    (|h| == 4 && (h[0].who.Worker? || h[0].who.Reaper?) && h == Torn(h[0].who, 3))
  }

  /** The actor that erased the session is still at work on it. */
  predicate Underway(s: State, sid: nat, h: seq<Act>) {
    && 0 < |h| < 4 && h == Torn(h[0].who, |h| - 1)
    && match h[0].who
       case Worker(w) => IsWorker(s, w) && s.threads[w].now == Tearing(sid, |h| - 1)
       case Reaper => s.reaper == Reaping(sid, |h| - 1)
       case _ => false
  }

  predicate NotFinalised(h: seq<Act>) {
    forall i :: 0 <= i < |h| ==> !h[i].Finalise?
  }

  predicate Fresh(s: State, sid: nat) {
    s.acceptor == Inited(sid) || s.acceptor == Added(sid)
  }

  /** What a session's own fields always satisfy. */
  predicate RecordOk(x: SessionRecord) {
    && (x.armed ==> x.registered && !x.parked)
    && (x.registered ==> x.open)
    && (x.open <==> NotFinalised(x.hist))
  }

  predicate HistoryOk(s: State, sid: nat)
    requires sid < |s.sessions|
  {
    var x := s.sessions[sid];
    && (x.hist == [] || Complete(x.hist) || Underway(s, sid, x.hist))
    && (x.hist == [] ==> Listed(s, sid) || s.acceptor == Inited(sid))
  }

  /** A held session is not armed, and its socket's entry, if any, is its own. */
  predicate HeldOk(s: State, sid: nat)
    requires sid < |s.sessions|
  {
    var x := s.sessions[sid];
    !x.armed && !x.parked && !Fresh(s, sid) && (x.sock in s.table ==> s.table[x.sock] == sid)
  }

  predicate PlaceOk(s: State, sid: nat)
    requires sid < |s.sessions|
  {
    var x := s.sessions[sid];
    && (x.hist == [] ==> x.armed || x.parked || Fresh(s, sid) || Held(s, sid))
    && (Held(s, sid) ==> HeldOk(s, sid))
  }

  predicate SessionOk(s: State, sid: nat)
    requires sid < |s.sessions|
  {
    RecordOk(s.sessions[sid]) && HistoryOk(s, sid) && PlaceOk(s, sid)
  }

  predicate SessionsOk(s: State) {
    forall sid :: 0 <= sid < |s.sessions| ==> SessionOk(s, sid)
  }

  /** A worker has each session at most once, and its teardown is where the
      session's history says. */
  predicate ThreadOk(s: State, t: Thread, who: Actor) {
    && Distinct(t.queue)
    && (t.now.Reading? || t.now.Failed? ==> t.now.sid !in t.queue)
    && (t.now.Tearing? ==>
          t.now.sid < |s.sessions| && t.now.done <= 2 && s.sessions[t.now.sid].hist == Torn(who, t.now.done))
  }

  predicate ThreadsOk(s: State) {
    forall w :: 0 <= w < |s.threads| ==> ThreadOk(s, s.threads[w], Worker(w))
  }

  predicate ReaperOk(s: State)
    requires WellFormed(s)
  {
    s.reaper.Reaping? ==>
      s.reaper.done <= 2 && s.sessions[s.reaper.sid].hist == Torn(Reaper, s.reaper.done)
  }

  predicate AcceptorOk(s: State)
    requires WellFormed(s)
  {
    s.acceptor.Inited? || s.acceptor.Added? ==>
      var x := s.sessions[s.acceptor.sid];
      && !x.armed && !x.registered && !x.parked
      && (s.acceptor.Inited? ==> x.hist == [] && x.sock !in s.table)
  }

  predicate TableOk(s: State)
    requires WellFormed(s)
  {
    forall k :: k in s.table ==> s.sessions[s.table[k]].sock == k && s.sessions[s.table[k]].hist == []
  }

  predicate SocketsOk(s: State) {
    forall i, j | 0 <= i < |s.sessions| && 0 <= j < |s.sessions| && s.sessions[i].sock == s.sessions[j].sock ::
      s.sessions[i].open && s.sessions[j].open ==> i == j
  }

  /** No two workers hold one session. */
  ghost predicate Exclusive(s: State) {
    forall v, w, sid | 0 <= v < |s.threads| && 0 <= w < |s.threads| ::
      Holds(s.threads[v], sid) && Holds(s.threads[w], sid) ==> v == w
  }

  function Midway(threads: seq<Thread>): nat {
    if threads == [] then 0
    else (if threads[0].now.Tearing? && threads[0].now.done <= 1 then 1 else 0) + Midway(threads[1..])
  }

  /** Sessions announced but not yet entered in the table, and sessions erased
      but not yet finalised. */
  function Unlisted(s: State): nat {
    Midway(s.threads) + (if s.reaper.Reaping? && s.reaper.done <= 1 then 1 else 0)
    + (if s.acceptor.Inited? then 1 else 0)
  }

  predicate CountsOk(s: State) {
    s.connects - s.disconnects == |s.table| + Unlisted(s)
  }

  ghost predicate Inv(s: State) {
    && WellFormed(s) && SessionsOk(s) && ThreadsOk(s) && ReaperOk(s) && AcceptorOk(s)
    && TableOk(s) && SocketsOk(s) && Exclusive(s) && CountsOk(s)
  }

  // ------------------------------------------------------------------
  // What does not concern a session

  /** Nothing that session `i` depends on differs between the two states. */
  predicate Elsewhere(s: State, s': State, i: nat) {
    && i < |s.sessions| && i < |s'.sessions| && s'.sessions[i] == s.sessions[i]
    && (Listed(s, i) ==> Listed(s', i))
    && (var k := s.sessions[i].sock; k in s'.table && Held(s, i) ==> k in s.table && s'.table[k] == s.table[k])
    && Fresh(s', i) == Fresh(s, i) && (s.acceptor == Inited(i) ==> s'.acceptor == Inited(i))
    && Held(s', i) == Held(s, i)
    && (Underway(s, i, s.sessions[i].hist) ==> Underway(s', i, s.sessions[i].hist))
  }

  lemma SessionStays(s: State, s': State, i: nat)
    requires Elsewhere(s, s', i) && SessionOk(s, i)
    ensures SessionOk(s', i)
  {
    hide Held, Listed, Fresh, Underway, Complete, RecordOk;
  }

  /** Only worker `w` changed, and not as to session `i`. */
  lemma HeldSame(s: State, s': State, w: nat, i: nat)
    requires w < |s.threads| == |s'.threads| && s'.threads == s.threads[w := s'.threads[w]]
    requires Holds(s'.threads[w], i) == Holds(s.threads[w], i)
    ensures Held(s', i) == Held(s, i)
  {
    hide Holds;
    if v :| 0 <= v < |s.threads| && Holds(s.threads[v], i) { assert Holds(s'.threads[v], i); }
    if v :| 0 <= v < |s'.threads| && Holds(s'.threads[v], i) { assert Holds(s.threads[v], i); }
  }

  lemma {:induction false} MidwayUpdate(threads: seq<Thread>, w: nat, t: Thread)
    requires w < |threads|
    ensures Midway(threads[w := t]) == Midway(threads)
      - (if threads[w].now.Tearing? && threads[w].now.done <= 1 then 1 else 0)
      + (if t.now.Tearing? && t.now.done <= 1 then 1 else 0)
  {
    var after := threads[w := t];
    if w == 0 {
      assert after[1..] == threads[1..];
    } else {
      assert after[1..] == threads[1..][w - 1 := t];
      MidwayUpdate(threads[1..], w - 1, t);
    }
  }

  lemma ListedAreOpen(s: State)
    requires Inv(s)
    ensures forall k :: k in s.table ==> s.sessions[s.table[k]].open
  {
    forall k | k in s.table ensures s.sessions[s.table[k]].open {
      assert SessionOk(s, s.table[k]);
    }
  }

  // ------------------------------------------------------------------
  // Worker steps on one session

  /** A step of worker `w` about session `sid` alone: it may stop holding it,
      unlist it and write its record, but not its socket. */
  ghost predicate WorkerStep(s: State, s': State, w: nat, sid: nat)
    requires WellFormed(s)
  {
    && w < |s.threads| && sid < |s.sessions|
    && (s.threads[w].now.Idle? || (s.threads[w].now.sid == sid && !s.threads[w].now.Tearing?))
    && |s'.threads| == |s.threads| && s'.threads == s.threads[w := s'.threads[w]]
    && (s'.threads[w].now.Idle? || s'.threads[w].now.sid == sid)
    && |s'.sessions| == |s.sessions| && s'.sessions == s.sessions[sid := s'.sessions[sid]]
    && s'.sessions[sid].sock == s.sessions[sid].sock && s'.sessions[sid].open == s.sessions[sid].open
    && s'.acceptor == s.acceptor && s'.reaper == s.reaper
    && (forall k :: k in s.table && s.table[k] != sid ==> k in s'.table)
    && (forall k :: k in s'.table ==> k in s.table && s'.table[k] == s.table[k])
    && Holds(s.threads[w], sid)
    && (forall i :: i != sid ==> Holds(s'.threads[w], i) == Holds(s.threads[w], i))
    && (s'.sessions[sid].hist == s.sessions[sid].hist
        || (s.sessions[sid].hist == [] && forall k :: k in s'.table ==> s'.table[k] != sid))
  }

  lemma WorkerStepOthers(s: State, s': State, w: nat, sid: nat, i: nat)
    requires Inv(s) && WorkerStep(s, s', w, sid) && i < |s.sessions| && i != sid
    ensures SessionOk(s', i)
  {
    hide Complete, Torn, NotFinalised, RecordOk, Holds, ThreadsOk, ReaperOk, AcceptorOk, SocketsOk, Exclusive, CountsOk;
    assert SessionOk(s, i);
    HeldSame(s, s', w, i);
    hide Held;
    SessionStays(s, s', i);
  }

  lemma WorkerStepThreads(s: State, s': State, w: nat, sid: nat, v: nat)
    requires Inv(s) && WorkerStep(s, s', w, sid) && v < |s.threads| && v != w
    ensures ThreadOk(s', s'.threads[v], Worker(v))
  {
    hide SessionsOk, AcceptorOk, TableOk, SocketsOk, Exclusive, CountsOk, Holds, Torn;
    assert ThreadOk(s, s.threads[v], Worker(v));
  }

  lemma WorkerStepRest(s: State, s': State, w: nat, sid: nat)
    requires Inv(s) && WorkerStep(s, s', w, sid)
    ensures WellFormed(s') && ReaperOk(s') && TableOk(s') && SocketsOk(s')
  {
    hide SessionsOk, AcceptorOk, Exclusive, CountsOk, Torn, ThreadsOk;
    forall k | 0 <= k < |s'.threads[w].queue| ensures s'.threads[w].queue[k] < |s'.sessions| {
      var i := s'.threads[w].queue[k];
      assert Holds(s'.threads[w], i);
      assert i == sid || Holds(s.threads[w], i);
    }
  }

  lemma WorkerStepAcceptor(s: State, s': State, w: nat, sid: nat)
    requires Inv(s) && WellFormed(s') && WorkerStep(s, s', w, sid)
    ensures AcceptorOk(s')
  {
    hide TableOk, SocketsOk, ThreadsOk, ReaperOk, Exclusive, CountsOk, Torn, HistoryOk, RecordOk;
    assert SessionOk(s, sid) && Held(s, sid);
  }

  lemma WorkerStepExclusive(s: State, s': State, w: nat, sid: nat)
    requires Inv(s) && WorkerStep(s, s', w, sid)
    ensures Exclusive(s')
  {
    hide Holds, SessionsOk, ThreadsOk, TableOk, SocketsOk, CountsOk, ReaperOk, AcceptorOk;
    forall v, u, i
      | 0 <= v < |s'.threads| && 0 <= u < |s'.threads| && Holds(s'.threads[v], i) && Holds(s'.threads[u], i)
      ensures v == u
    {
      assert Holds(s.threads[v], i) && Holds(s.threads[u], i);
    }
  }

  /** All that is left to show of such a step concerns the session, the worker
      and the counts. */
  lemma WorkerStepKeeps(s: State, s': State, w: nat, sid: nat)
    requires Inv(s) && WorkerStep(s, s', w, sid)
    requires SessionOk(s', sid) && ThreadOk(s', s'.threads[w], Worker(w)) && CountsOk(s')
    ensures Inv(s')
  {
    WorkerStepRest(s, s', w, sid);
    WorkerStepAcceptor(s, s', w, sid);
    WorkerStepExclusive(s, s', w, sid);
    hide SessionOk, ThreadOk, CountsOk, AcceptorOk, Exclusive, TableOk, SocketsOk, ReaperOk;
    forall i | 0 <= i < |s'.sessions| ensures SessionOk(s', i) {
      if i != sid { WorkerStepOthers(s, s', w, sid, i); }
    }
    forall v | 0 <= v < |s'.threads| ensures ThreadOk(s', s'.threads[v], Worker(v)) {
      if v != w { WorkerStepThreads(s, s', w, sid, v); }
    }
  }

  /** The session a worker holds, and that no other worker does. */
  lemma HeldAlone(s: State, w: nat, sid: nat)
    requires Inv(s) && w < |s.threads| && Holds(s.threads[w], sid)
    ensures sid < |s.sessions| && SessionOk(s, sid) && HeldOk(s, sid)
    ensures forall v :: 0 <= v < |s.threads| && v != w ==> !Holds(s.threads[v], sid)
  {
    assert sid < |s.sessions|;
    assert SessionOk(s, sid) && Held(s, sid);
  }

  lemma NextKeeps(s: State, w: nat)
    requires Inv(s) && Enabled(s, DoNext(w))
    ensures Inv(Apply(s, DoNext(w)))
  {
    var s' := Apply(s, DoNext(w));
    var t := s.threads[w];
    var sid := t.queue[0];
    assert t.queue == [sid] + t.queue[1..];
    assert ThreadOk(s, t, Worker(w));
    HeldAlone(s, w, sid);
    HeldSame(s, s', w, sid);
    MidwayUpdate(s.threads, w, s'.threads[w]);
    assert s'.sessions == s.sessions[sid := s.sessions[sid]];
    assert SessionOk(s', sid) by { SessionStays(s, s', sid); }
    WorkerStepKeeps(s, s', w, sid);
  }

  lemma SkipKeeps(s: State, w: nat)
    requires Inv(s) && Enabled(s, DoSkip(w))
    ensures Inv(Apply(s, DoSkip(w)))
  {
    hide Complete, Torn, NotFinalised;
    var s' := Apply(s, DoSkip(w));
    var t := s.threads[w];
    var sid := t.queue[0];
    assert t.queue == [sid] + t.queue[1..];
    assert ThreadOk(s, t, Worker(w));
    HeldAlone(s, w, sid);
    GivenUp(s, s', w, sid);
    MidwayUpdate(s.threads, w, s'.threads[w]);
    WorkerStepKeeps(s, s', w, sid);
  }

  /** After its only holder let go of it, nobody holds a session. */
  lemma GivenUp(s: State, s': State, w: nat, sid: nat)
    requires w < |s.threads| == |s'.threads| && s'.threads == s.threads[w := s'.threads[w]]
    requires forall v :: 0 <= v < |s.threads| && v != w ==> !Holds(s.threads[v], sid)
    requires !Holds(s'.threads[w], sid)
    ensures !Held(s', sid)
  {
  }

  lemma ReadDoneKeeps(s: State, w: nat)
    requires Inv(s) && Enabled(s, DoReadDone(w))
    ensures Inv(Apply(s, DoReadDone(w)))
  {
    hide Complete, Torn, NotFinalised;
    var s' := Apply(s, DoReadDone(w));
    var sid := s.threads[w].now.sid;
    assert ThreadOk(s, s.threads[w], Worker(w));
    HeldAlone(s, w, sid);
    GivenUp(s, s', w, sid);
    MidwayUpdate(s.threads, w, s'.threads[w]);
    WorkerStepKeeps(s, s', w, sid);
  }

  lemma ReadFailedKeeps(s: State, w: nat)
    requires Inv(s) && Enabled(s, DoReadFailed(w))
    ensures Inv(Apply(s, DoReadFailed(w)))
  {
    var s' := Apply(s, DoReadFailed(w));
    var sid := s.threads[w].now.sid;
    assert ThreadOk(s, s.threads[w], Worker(w));
    HeldAlone(s, w, sid);
    HeldSame(s, s', w, sid);
    MidwayUpdate(s.threads, w, s'.threads[w]);
    assert s'.sessions == s.sessions[sid := s.sessions[sid]];
    assert SessionOk(s', sid) by { SessionStays(s, s', sid); }
    WorkerStepKeeps(s, s', w, sid);
  }

  lemma RemoveHitKeeps(s: State, w: nat, key: int)
    requires Inv(s) && Enabled(s, DoRemove(w, key)) && key in s.table && s.table[key] == s.threads[w].now.sid
    ensures Inv(Apply(s, DoRemove(w, key)))
  {
    var s' := Apply(s, DoRemove(w, key));
    var sid := s.threads[w].now.sid;
    assert ThreadOk(s, s.threads[w], Worker(w));
    HeldAlone(s, w, sid);
    GivenUp(s, s', w, sid);
    MidwayUpdate(s.threads, w, s'.threads[w]);
    assert s'.sessions[sid].hist == Torn(Worker(w), 0);
    WorkerStepKeeps(s, s', w, sid);
  }

  lemma RemoveMissKeeps(s: State, w: nat, key: int)
    requires Inv(s) && Enabled(s, DoRemove(w, key)) && key !in s.table && !s.threads[w].flag
    ensures Inv(Apply(s, DoRemove(w, key)))
  {
    hide Complete, Torn, NotFinalised;
    var s' := Apply(s, DoRemove(w, key));
    var sid := s.threads[w].now.sid;
    assert ThreadOk(s, s.threads[w], Worker(w));
    HeldAlone(s, w, sid);
    GivenUp(s, s', w, sid);
    MidwayUpdate(s.threads, w, s'.threads[w]);
    WorkerStepKeeps(s, s', w, sid);
  }

  // ------------------------------------------------------------------
  // A batch of events

  lemma FetchedHeld(s: State, w: nat, sids: seq<nat>, i: nat)
    requires Inv(s) && Enabled(s, DoFetch(w, sids))
    ensures Held(Apply(s, DoFetch(w, sids)), i) <==> Held(s, i) || i in sids
  {
    var s' := Apply(s, DoFetch(w, sids));
    if i in sids {
      assert Holds(s'.threads[w], i);
    } else {
      HeldSame(s, s', w, i);
    }
  }

  /** A session that is armed is nobody's. */
  lemma ArmedIsFree(s: State, sid: nat)
    requires Inv(s) && sid < |s.sessions| && s.sessions[sid].armed
    ensures SessionOk(s, sid) && !Held(s, sid) && !Fresh(s, sid)
  {
    assert SessionOk(s, sid);
  }

  lemma FetchSession(s: State, w: nat, sids: seq<nat>, i: nat)
    requires Inv(s) && Enabled(s, DoFetch(w, sids)) && i < |s.sessions|
    ensures SessionOk(Apply(s, DoFetch(w, sids)), i)
  {
    hide Complete, Torn, NotFinalised, Holds;
    var s' := Apply(s, DoFetch(w, sids));
    FetchedHeld(s, w, sids, i);
    hide Held;
    assert SessionOk(s, i);
    if i in sids {
      ArmedIsFree(s, i);
      ListedAreOpen(s);
    } else {
      SessionStays(s, s', i);
    }
  }

  lemma OnlyFetcher(s: State, w: nat, sids: seq<nat>, v: nat, i: nat)
    requires Inv(s) && Enabled(s, DoFetch(w, sids)) && v < |s.threads| && i in sids
    requires Holds(Apply(s, DoFetch(w, sids)).threads[v], i)
    ensures v == w
  {
    var s' := Apply(s, DoFetch(w, sids));
    assert s'.threads == s.threads[w := s'.threads[w]];
    ArmedIsFree(s, i);
  }

  lemma FetchExclusive(s: State, w: nat, sids: seq<nat>)
    requires Inv(s) && Enabled(s, DoFetch(w, sids))
    ensures Exclusive(Apply(s, DoFetch(w, sids)))
  {
    var s' := Apply(s, DoFetch(w, sids));
    forall v, u, i
      | 0 <= v < |s'.threads| && 0 <= u < |s'.threads| && Holds(s'.threads[v], i) && Holds(s'.threads[u], i)
      ensures v == u
    {
      if i in sids {
        OnlyFetcher(s, w, sids, v, i);
        OnlyFetcher(s, w, sids, u, i);
      } else {
        assert Holds(s.threads[v], i) && Holds(s.threads[u], i);
      }
    }
  }

  lemma FetchRest(s: State, w: nat, sids: seq<nat>)
    requires Inv(s) && Enabled(s, DoFetch(w, sids))
    ensures var s' := Apply(s, DoFetch(w, sids));
      WellFormed(s') && ReaperOk(s') && AcceptorOk(s') && TableOk(s') && SocketsOk(s') && CountsOk(s')
  {
    hide SessionsOk, ThreadsOk, Exclusive, Torn;
    var s' := Apply(s, DoFetch(w, sids));
    MidwayUpdate(s.threads, w, s'.threads[w]);
  }

  lemma FetchKeeps(s: State, w: nat, sids: seq<nat>)
    requires Inv(s) && Enabled(s, DoFetch(w, sids))
    ensures Inv(Apply(s, DoFetch(w, sids)))
  {
    var s' := Apply(s, DoFetch(w, sids));
    FetchRest(s, w, sids);
    FetchExclusive(s, w, sids);
    hide SessionOk, AcceptorOk, Exclusive, TableOk, SocketsOk, ReaperOk, CountsOk, Torn;
    forall i | 0 <= i < |s'.sessions| ensures SessionOk(s', i) {
      FetchSession(s, w, sids, i);
    }
    forall v | 0 <= v < |s'.threads| ensures ThreadOk(s', s'.threads[v], Worker(v)) {
      assert ThreadOk(s, s.threads[v], Worker(v));
    }
  }

  // ------------------------------------------------------------------
  // Acceptor steps

  lemma HeldOfThreads(s: State, s': State, i: nat)
    requires s'.threads == s.threads
    ensures Held(s', i) == Held(s, i)
  {
  }

  lemma InitKeeps(s: State, sock: int)
    requires Inv(s) && Enabled(s, DoInit(sock))
    ensures Inv(Apply(s, DoInit(sock)))
  {
    hide Complete, Torn, NotFinalised, Holds;
    var s' := Apply(s, DoInit(sock));
    ListedAreOpen(s);
    forall i | 0 <= i < |s'.sessions| ensures SessionOk(s', i) {
      HeldOfThreads(s, s', i);
      if i < |s.sessions| {
        assert SessionOk(s, i);
        SessionStays(s, s', i);
      } else {
        NewcomerOk(s, sock);
      }
    }
    forall v | 0 <= v < |s'.threads| ensures ThreadOk(s', s'.threads[v], Worker(v)) {
      assert ThreadOk(s, s.threads[v], Worker(v));
    }
  }

  lemma NewcomerOk(s: State, sock: int)
    requires WellFormed(s) && Enabled(s, DoInit(sock))
    ensures SessionOk(Apply(s, DoInit(sock)), |s.sessions|)
  {
  }

  /** A step of the acceptor about its session `sid`. A new entry may not take
      a socket number of which a worker holds another session. */
  ghost predicate AcceptorStep(s: State, s': State, sid: nat)
    requires WellFormed(s)
  {
    && sid < |s.sessions| && !s.acceptor.Waiting? && s.acceptor.sid == sid
    && (s'.acceptor.Waiting? || s'.acceptor.sid == sid) && !s'.acceptor.Inited?
    && |s'.sessions| == |s.sessions| && s'.sessions == s.sessions[sid := s'.sessions[sid]]
    && s'.threads == s.threads && s'.reaper == s.reaper
    && (var x, y := s.sessions[sid], s'.sessions[sid];
        && y.sock == x.sock && (y.open ==> x.open)
        && (s'.table == s.table || (x.sock in s.table ==> s.table[x.sock] == sid))
        && (forall k :: k in s.table && k != x.sock ==> k in s'.table)
        && (forall k :: k in s'.table ==>
              (k in s.table && s'.table[k] == s.table[k])
              || (k == x.sock && s'.table[k] == sid
                  && forall i :: 0 <= i < |s.sessions| && Held(s, i) ==> s.sessions[i].sock != x.sock))
        && (y.hist == x.hist || (x.hist == [] && forall k :: k in s'.table ==> s'.table[k] != sid))
        && (s'.table == s.table || y.hist != [] || x.hist == []))
  }

  lemma AcceptorStepOthers(s: State, s': State, sid: nat, i: nat)
    requires Inv(s) && AcceptorStep(s, s', sid) && i < |s.sessions| && i != sid
    ensures SessionOk(s', i)
  {
    hide Complete, Torn, NotFinalised, RecordOk, Holds, ThreadsOk, ReaperOk, AcceptorOk, SocketsOk, Exclusive, CountsOk;
    assert SessionOk(s, i);
    HeldOfThreads(s, s', i);
    hide Held;
    SessionStays(s, s', i);
  }

  lemma AcceptorStepRest(s: State, s': State, sid: nat)
    requires Inv(s) && AcceptorStep(s, s', sid)
    ensures WellFormed(s') && ThreadsOk(s') && ReaperOk(s') && SocketsOk(s') && Exclusive(s')
  {
    hide SessionsOk, AcceptorOk, CountsOk, Torn, TableOk;
    forall v | 0 <= v < |s'.threads| ensures ThreadOk(s', s'.threads[v], Worker(v)) {
      assert ThreadOk(s, s.threads[v], Worker(v));
    }
  }

  lemma AcceptorStepKeeps(s: State, s': State, sid: nat)
    requires Inv(s) && AcceptorStep(s, s', sid) && WellFormed(s')
    requires SessionOk(s', sid) && AcceptorOk(s') && TableOk(s') && CountsOk(s')
    ensures Inv(s')
  {
    AcceptorStepRest(s, s', sid);
    hide SessionOk, AcceptorOk, Exclusive, TableOk, SocketsOk, ReaperOk, CountsOk, ThreadsOk;
    forall i | 0 <= i < |s'.sessions| ensures SessionOk(s', i) {
      if i != sid { AcceptorStepOthers(s, s', sid, i); }
    }
  }

  lemma AddKeeps(s: State)
    requires Inv(s) && Enabled(s, DoAdd) && Guard(s, DoAdd)
    ensures Inv(Apply(s, DoAdd))
  {
    hide Complete, Torn, NotFinalised, Holds;
    var s' := Apply(s, DoAdd);
    var sid := s.acceptor.sid;
    assert SessionOk(s, sid);
    HeldOfThreads(s, s', sid);
    assert s'.sessions == s.sessions[sid := s'.sessions[sid]];
    AcceptorStepKeeps(s, s', sid);
  }

  lemma ArmKeeps(s: State)
    requires Inv(s) && Enabled(s, DoArm(true))
    ensures Inv(Apply(s, DoArm(true)))
  {
    hide Complete, Torn, NotFinalised, Holds;
    var s' := Apply(s, DoArm(true));
    var sid := s.acceptor.sid;
    assert SessionOk(s, sid);
    HeldOfThreads(s, s', sid);
    AcceptorStepKeeps(s, s', sid);
  }

  lemma PostKeeps(s: State)
    requires Inv(s) && Enabled(s, DoPost(true)) && Guard(s, DoPost(true))
    ensures Inv(Apply(s, DoPost(true)))
  {
    hide Complete, Torn, NotFinalised, Holds;
    var s' := Apply(s, DoPost(true));
    var sid := s.acceptor.sid;
    assert SessionOk(s, sid);
    HeldOfThreads(s, s', sid);
    AcceptorStepKeeps(s, s', sid);
  }

  /** The acceptor's failure paths are safe while the session is still listed. */
  lemma AbortKeeps(s: State, st: Step)
    requires Inv(s) && (st == DoArm(false) || st == DoPost(false)) && Enabled(s, st) && Guard(s, st)
    ensures Inv(Apply(s, st))
  {
    var s' := Apply(s, st);
    var sid := s.acceptor.sid;
    AbortOwn(s, st);
    AbortRest(s, st);
    AbortIsAcceptorStep(s, st);
    hide Inv, Apply, Guard, Enabled, WellFormed, AcceptorStep, SessionOk, AcceptorOk, TableOk, CountsOk;
    AcceptorStepKeeps(s, s', sid);
  }

  lemma AbortRest(s: State, st: Step)
    requires Inv(s) && (st == DoArm(false) || st == DoPost(false)) && Enabled(s, st) && Guard(s, st)
    ensures var s' := Apply(s, st); WellFormed(s') && AcceptorOk(s') && TableOk(s') && CountsOk(s')
  {
    hide Holds, SessionsOk, ThreadsOk, ReaperOk, SocketsOk, Exclusive, Held;
    ApplyWellFormed(s, st);
  }

  lemma AbortIsAcceptorStep(s: State, st: Step)
    requires Inv(s) && (st == DoArm(false) || st == DoPost(false)) && Enabled(s, st) && Guard(s, st)
    ensures AcceptorStep(s, Apply(s, st), s.acceptor.sid)
  {
    AbortOwn(s, st);
    hide Holds, Held, SessionOk, ThreadsOk, ReaperOk, SocketsOk, Exclusive, CountsOk;
  }

  lemma AbortOwn(s: State, st: Step)
    requires Inv(s) && (st == DoArm(false) || st == DoPost(false)) && Enabled(s, st) && Guard(s, st)
    ensures s.acceptor.sid < |s.sessions| && s.sessions[s.acceptor.sid].hist == []
    ensures s.acceptor.sid < |Apply(s, st).sessions|
    ensures Apply(s, st).sessions[s.acceptor.sid].hist != [] && SessionOk(Apply(s, st), s.acceptor.sid)
  {
    hide Holds, ThreadsOk, ReaperOk, SocketsOk, Exclusive, CountsOk;
    var s' := Apply(s, st);
    var sid := s.acceptor.sid;
    assert SessionOk(s, sid) && s.sessions[sid].hist == [];
    HeldOfThreads(s, s', sid);
    var h := s'.sessions[sid].hist;
    assert h == if st == DoArm(false) then ABORT_ADD else ABORT_POST;
    assert h[|h| - 2].Finalise?;
  }

  // ------------------------------------------------------------------
  // Teardown steps

  lemma TornFurther(x: SessionRecord, who: Actor, done: nat, ok: bool)
    requires done <= 2 && x.hist == Torn(who, done)
    ensures TornBy(x, who, done, ok).hist == Torn(who, done + 1)
    ensures NotFinalised(Torn(who, done)) <==> done < 2
    ensures NotFinalised(Torn(who, done + 1)) <==> done < 1
  {
    assert done >= 1 ==> Torn(who, done + 1)[2].Finalise?;
    assert done == 2 ==> Torn(who, done)[2].Finalise?;
  }

  /** One teardown call on session `sid` by its owner. */
  ghost predicate TornStep(s: State, s': State, sid: nat, who: Actor, done: nat, ok: bool) {
    && sid < |s.sessions| && done <= 2 && s.sessions[sid].hist == Torn(who, done)
    && s'.sessions == s.sessions[sid := TornBy(s.sessions[sid], who, done, ok)]
    && s'.table == s.table && s'.acceptor == s.acceptor && |s'.threads| == |s.threads|
    && match who
       case Worker(w) =>
         && w < |s.threads| && s'.threads == s.threads[w := s'.threads[w]] && s'.reaper == s.reaper
         && s'.threads[w].queue == s.threads[w].queue && s.threads[w].now == Tearing(sid, done)
         && s'.threads[w].now == (if done < 2 then Tearing(sid, done + 1) else Idle)
       case Reaper =>
         && s'.threads == s.threads && s.reaper == Reaping(sid, done)
         && s'.reaper == if done < 2 then Reaping(sid, done + 1) else Resting
       case _ => false
  }

  lemma TornStepHeld(s: State, s': State, sid: nat, who: Actor, done: nat, ok: bool, i: nat)
    requires TornStep(s, s', sid, who, done, ok)
    ensures Held(s', i) == Held(s, i)
  {
    if who.Worker? { HeldSame(s, s', who.w, i); } else { HeldOfThreads(s, s', i); }
  }

  lemma TornStepOthers(s: State, s': State, sid: nat, who: Actor, done: nat, ok: bool, i: nat)
    requires Inv(s) && TornStep(s, s', sid, who, done, ok) && i < |s.sessions| && i != sid
    ensures SessionOk(s', i)
  {
    hide TornBy, NotFinalised, Complete, Holds, Torn;
    assert SessionOk(s, i);
    TornStepHeld(s, s', sid, who, done, ok, i);
    hide Held;
    SessionStays(s, s', i);
  }

  lemma TornStepOwn(s: State, s': State, sid: nat, who: Actor, done: nat, ok: bool)
    requires Inv(s) && TornStep(s, s', sid, who, done, ok)
    ensures SessionOk(s', sid)
  {
    hide Torn, Holds;
    assert SessionOk(s, sid);
    TornStepHeld(s, s', sid, who, done, ok, sid);
    hide Held;
    TornFurther(s.sessions[sid], who, done, ok);
  }

  lemma TornStepRest(s: State, s': State, sid: nat, who: Actor, done: nat, ok: bool)
    requires Inv(s) && TornStep(s, s', sid, who, done, ok)
    ensures WellFormed(s') && TableOk(s') && SocketsOk(s') && AcceptorOk(s')
  {
    hide Torn, Holds, SessionsOk, ThreadsOk, Exclusive, CountsOk;
    TornFurther(s.sessions[sid], who, done, ok);
  }

  lemma TornStepThreads(s: State, s': State, sid: nat, who: Actor, done: nat, ok: bool)
    requires Inv(s) && TornStep(s, s', sid, who, done, ok) && WellFormed(s')
    ensures ThreadsOk(s') && ReaperOk(s') && Exclusive(s')
  {
    hide TornBy, SessionsOk, AcceptorOk, TableOk, SocketsOk, CountsOk;
    TornFurther(s.sessions[sid], who, done, ok);
    forall v | 0 <= v < |s'.threads| ensures ThreadOk(s', s'.threads[v], Worker(v)) {
      assert ThreadOk(s, s.threads[v], Worker(v));
    }
    forall v, u, i
      | 0 <= v < |s'.threads| && 0 <= u < |s'.threads| && Holds(s'.threads[v], i) && Holds(s'.threads[u], i)
      ensures v == u
    {
      assert Holds(s.threads[v], i) && Holds(s.threads[u], i);
    }
  }

  lemma TornStepKeeps(s: State, s': State, sid: nat, who: Actor, done: nat, ok: bool)
    requires Inv(s) && TornStep(s, s', sid, who, done, ok) && CountsOk(s')
    ensures Inv(s')
  {
    TornStepOwn(s, s', sid, who, done, ok);
    TornStepRest(s, s', sid, who, done, ok);
    TornStepThreads(s, s', sid, who, done, ok);
    hide Torn, TornBy, SessionOk, AcceptorOk, TableOk, SocketsOk, ThreadsOk, Exclusive, CountsOk, ReaperOk;
    forall i | 0 <= i < |s'.sessions| ensures SessionOk(s', i) {
      if i != sid { TornStepOthers(s, s', sid, who, done, ok, i); }
    }
  }

  lemma AdvanceKeeps(s: State, w: nat, ok: bool)
    requires Inv(s) && Enabled(s, DoAdvance(w, ok))
    ensures Inv(Apply(s, DoAdvance(w, ok)))
  {
    hide Torn, TornBy, SessionsOk, AcceptorOk, TableOk, SocketsOk, Exclusive;
    var s' := Apply(s, DoAdvance(w, ok));
    var now := s.threads[w].now;
    assert ThreadOk(s, s.threads[w], Worker(w));
    MidwayUpdate(s.threads, w, s'.threads[w]);
    TornStepKeeps(s, s', now.sid, Worker(w), now.done, ok);
  }

  lemma ReapAdvanceKeeps(s: State, ok: bool)
    requires Inv(s) && Enabled(s, DoReapAdvance(ok))
    ensures Inv(Apply(s, DoReapAdvance(ok)))
  {
    hide Torn, TornBy, SessionsOk, AcceptorOk, TableOk, SocketsOk, Exclusive;
    TornStepKeeps(s, Apply(s, DoReapAdvance(ok)), s.reaper.sid, Reaper, s.reaper.done, ok);
  }

  lemma ReapKeeps(s: State, sock: int)
    requires Inv(s) && Enabled(s, DoReap(sock))
    ensures Inv(Apply(s, DoReap(sock)))
  {
    hide Holds;
    var s' := Apply(s, DoReap(sock));
    var sid := s.table[sock];
    assert SessionOk(s, sid);
    assert s'.sessions[sid].hist == Torn(Reaper, 0);
    forall i | 0 <= i < |s'.sessions| ensures SessionOk(s', i) {
      assert SessionOk(s, i);
      HeldOfThreads(s, s', i);
      if i != sid { SessionStays(s, s', i); }
    }
    forall v | 0 <= v < |s'.threads| ensures ThreadOk(s', s'.threads[v], Worker(v)) {
      assert ThreadOk(s, s.threads[v], Worker(v));
    }
  }

  lemma ShutdownKeeps(s: State, sock: int)
    requires Inv(s) && Enabled(s, DoShutdown(sock))
    ensures Inv(Apply(s, DoShutdown(sock)))
  {
    var s' := Apply(s, DoShutdown(sock));
    var sid := s.table[sock];
    assert SessionOk(s, sid);
    assert s'.sessions[sid].hist == SHUTDOWN && SHUTDOWN[0].Finalise?;
    forall i | 0 <= i < |s'.sessions| ensures SessionOk(s', i) {
      assert SessionOk(s, i);
      HeldOfThreads(s, s', i);
      if i != sid { SessionStays(s, s', i); }
    }
    forall v | 0 <= v < |s'.threads| ensures ThreadOk(s', s'.threads[v], Worker(v)) {
      assert ThreadOk(s, s.threads[v], Worker(v));
    }
  }

  lemma SafeStepKeeps(s: State, st: Step)
    requires Inv(s) && Enabled(s, st) && Guard(s, st)
    ensures Inv(Apply(s, st))
  {
    hide Inv;
    match st
    case DoInit(sock) => InitKeeps(s, sock);
    case DoAdd => AddKeeps(s);
    case DoArm(ok) => if ok { ArmKeeps(s); } else { AbortKeeps(s, st); }
    case DoPost(ok) => if ok { PostKeeps(s); } else { AbortKeeps(s, st); }
    case DoFetch(w, sids) => FetchKeeps(s, w, sids);
    case DoNext(w) => NextKeeps(s, w);
    case DoSkip(w) => SkipKeeps(s, w);
    case DoReadDone(w) => ReadDoneKeeps(s, w);
    case DoReadFailed(w) => ReadFailedKeeps(s, w);
    case DoRemove(w, key) => if key in s.table { RemoveHitKeeps(s, w, key); } else { RemoveMissKeeps(s, w, key); }
    case DoAdvance(w, ok) => AdvanceKeeps(s, w, ok);
    case DoReap(sock) => ReapKeeps(s, sock);
    case DoReapAdvance(ok) => ReapAdvanceKeeps(s, ok);
    case DoShutdown(sock) => ShutdownKeeps(s, sock);
  }

  // ------------------------------------------------------------------
  // Every guard is needed

  lemma UnsafeAddBreaks(s: State)
    requires Inv(s) && Enabled(s, DoAdd) && !Guard(s, DoAdd)
    ensures !Inv(Apply(s, DoAdd))
  {
    var s' := Apply(s, DoAdd);
    var i :| 0 <= i < |s.sessions| && Held(s, i) && s.sessions[i].sock == s.sessions[s.acceptor.sid].sock;
    assert SessionOk(s, i);
    HeldOfThreads(s, s', i);
    assert !SessionOk(s', i);
  }

  lemma UnsafePostBreaks(s: State)
    requires Inv(s) && Enabled(s, DoPost(true)) && !Guard(s, DoPost(true))
    ensures !Inv(Apply(s, DoPost(true)))
  {
    var s' := Apply(s, DoPost(true));
    HeldOfThreads(s, s', s.acceptor.sid);
    assert !SessionOk(s', s.acceptor.sid);
  }

  /** A history that ends in a delete by someone other than its first actor, or
      that goes on after a complete teardown, is neither complete nor underway. */
  lemma ForeignDelete(s: State, sid: nat, h: seq<Act>, tail: seq<Act>)
    requires h == [] || Complete(h) || Underway(s, sid, h)
    requires tail != [] && tail[|tail| - 1].Delete?
    requires h != [] && !Complete(h) ==> tail[|tail| - 1].who != h[0].who
    requires h == [] ==> |tail| == 1
    ensures !Complete(h + tail)
    ensures forall s': State :: !Underway(s', sid, h + tail)
  {
    var g := h + tail;
    assert g[|g| - 1] == tail[|tail| - 1];
    if h != [] {
      assert g[0] == h[0];
      if Complete(h) && (h == ABORT_ADD || h == ABORT_POST || h == SHUTDOWN) {
        assert g[1] == h[1];
      }
    }
  }

  /** What an unsafe abort appends to the session's history. */
  function AbortTail(s: State, st: Step): seq<Act>
    requires WellFormed(s) && !s.acceptor.Waiting?
  {
    (if st == DoArm(false) then [] else [Deregister(Acceptor)])
    + (if s.sessions[s.acceptor.sid].sock in s.table then [Erase(Acceptor)] else [])
    + [Finalise(Acceptor), Delete(Acceptor)]
  }

  lemma UnsafeAbortHistory(s: State, st: Step)
    requires Inv(s) && (st == DoArm(false) || st == DoPost(false)) && Enabled(s, st) && !Guard(s, st)
    ensures var h := Apply(s, st).sessions[s.acceptor.sid].hist;
      && s.sessions[s.acceptor.sid].hist != []
      && h == s.sessions[s.acceptor.sid].hist + AbortTail(s, st)
      && !Complete(h) && !Underway(Apply(s, st), s.acceptor.sid, h)
  {
    hide ThreadsOk, ReaperOk, AcceptorOk, TableOk, SocketsOk, Exclusive, CountsOk, Complete, Torn, NotFinalised;
    var sid := s.acceptor.sid;
    assert SessionOk(s, sid);
    assert Apply(s, st).sessions[sid].hist == s.sessions[sid].hist + AbortTail(s, st);
    ForeignDelete(s, sid, s.sessions[sid].hist, AbortTail(s, st));
  }

  lemma UnsafeAbortBreaks(s: State, st: Step)
    requires Inv(s) && (st == DoArm(false) || st == DoPost(false)) && Enabled(s, st) && !Guard(s, st)
    ensures !Inv(Apply(s, st))
  {
    UnsafeAbortHistory(s, st);
    assert !SessionOk(Apply(s, st), s.acceptor.sid);
  }

  /** A removal with a stale flag deletes a session that somebody else took
      down. */
  lemma StaleDeleteHistory(s: State, w: nat, key: int)
    requires Inv(s) && Enabled(s, DoRemove(w, key)) && key !in s.table && s.threads[w].flag
    ensures var sid := s.threads[w].now.sid;
      var h := Apply(s, DoRemove(w, key)).sessions[sid].hist;
      && h == s.sessions[sid].hist + [Delete(Worker(w))]
      && !Complete(h) && !Underway(Apply(s, DoRemove(w, key)), sid, h)
  {
    var sid := s.threads[w].now.sid;
    assert Holds(s.threads[w], sid) && SessionOk(s, sid);
    ForeignDelete(s, sid, s.sessions[sid].hist, [Delete(Worker(w))]);
  }

  /** A removal that hits somebody else's entry leaves a session that nobody
      took down without an entry. */
  lemma ForeignEraseUnlists(s: State, w: nat, key: int)
    requires Inv(s) && Enabled(s, DoRemove(w, key)) && key in s.table && s.table[key] != s.threads[w].now.sid
    ensures var s' := Apply(s, DoRemove(w, key));
      var victim := s.table[key];
      && victim < |s'.sessions| && s'.sessions[victim].hist == []
      && !Listed(s', victim) && s'.acceptor != Inited(victim)
  {
    assert SessionOk(s, s.table[key]);
  }

  lemma UnsafeRemoveBreaks(s: State, w: nat, key: int)
    requires Inv(s) && Enabled(s, DoRemove(w, key)) && !Guard(s, DoRemove(w, key))
    ensures !Inv(Apply(s, DoRemove(w, key)))
  {
    var s' := Apply(s, DoRemove(w, key));
    if key in s.table {
      ForeignEraseUnlists(s, w, key);
      assert !SessionOk(s', s.table[key]);
    } else {
      StaleDeleteHistory(s, w, key);
      assert !SessionOk(s', s.threads[w].now.sid);
    }
  }

  /** From a good state, a step leads to a good state exactly when its guard
      holds. */
  lemma StepSafeIff(s: State, st: Step)
    requires Inv(s) && Enabled(s, st)
    ensures Inv(Apply(s, st)) <==> Guard(s, st)
  {
    if Guard(s, st) {
      SafeStepKeeps(s, st);
    } else {
      match st
      case DoAdd => UnsafeAddBreaks(s);
      case DoArm(ok) => UnsafeAbortBreaks(s, st);
      case DoPost(ok) => if ok { UnsafePostBreaks(s); } else { UnsafeAbortBreaks(s, st); }
      case DoRemove(w, key) => UnsafeRemoveBreaks(s, w, key);
    }
  }
}
