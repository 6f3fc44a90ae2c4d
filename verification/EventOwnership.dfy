/** Who may touch a session, and who destroys it: the Linux workers, the
    heartbeat reaper, the acceptor and manager shutdown, sharing one session
    table and one-shot epoll registrations. Every step below is a stretch of
    source that runs without interference, as written; `Guard` says when such
    a step is safe. */
module EventOwnership {

  /** Events that one epoll_wait returns at most. */
  const MAX_EVENT_NUM: nat := 1000

  datatype Actor = Worker(w: nat) | Reaper | Acceptor | Manager

  /** One call that takes a session apart. */
  datatype Act = Erase(who: Actor) | Deregister(who: Actor) | Finalise(who: Actor) | Delete(who: Actor)

  /** What is kept about a session object: its socket, whether that is still open, whether epoll
      knows it and will report one more event, whether it was left unarmed on
      purpose, and the teardown calls made on it so far. */
  datatype SessionRecord = SessionRecord(
    sock: int, open: bool, registered: bool, armed: bool, parked: bool, hist: seq<Act>)

  /** What a worker does about the event it has come to: nothing yet; it is
      inside TcpSession_IORecv; that has failed; it tears the session down,
      `done` calls after the erase. */
  datatype Phase = Idle | Reading(sid: nat) | Failed(sid: nat) | Tearing(sid: nat, done: nat)

  /** A worker: the events of its last epoll_wait that it has not come to yet,
      in order; the one it has come to; and its bFlag. */
  datatype Thread = Thread(queue: seq<nat>, now: Phase, flag: bool)

  datatype ReaperState = Resting | Reaping(sid: nat, done: nat)

  /** The acceptor after TcpSession_Init, after AddSession, after AddEvent. */
  datatype AcceptorState = Waiting | Inited(sid: nat) | Added(sid: nat) | Armed(sid: nat)

  /** Sessions are named by their index. */
  datatype State = State(
    sessions: seq<SessionRecord>, table: map<int, nat>, threads: seq<Thread>,
    reaper: ReaperState, acceptor: AcceptorState,
    connects: int, disconnects: int)

  datatype Step =
    | DoInit(sock: int)                   // accept and TcpSession_Init
    | DoAdd                               // TcpSessionMgr_AddSession
    | DoArm(ok: bool)                     // NetEventModleEpoll_AddEvent
    | DoPost(ok: bool)                    // TcpSession_IORecv(1): registers again
    | DoFetch(w: nat, sids: seq<nat>)     // epoll_wait returns these events
    | DoNext(w: nat)                      // the worker comes to an EPOLLIN event
    | DoSkip(w: nat)                      // the worker comes to a hang-up or error event
    | DoReadDone(w: nat)                  // EAGAIN, and ModEvent succeeds
    | DoReadFailed(w: nat)                // TcpSession_IORecv returns below zero
    | DoRemove(w: nat, key: int)          // TcpSessionMgr_DelSession(nSock)
    | DoAdvance(w: nat, ok: bool)         // the worker's next teardown call
    | DoReap(sock: int)                   // the sweep erases an expired entry
    | DoReapAdvance(ok: bool)             // the sweep's next teardown call
    | DoShutdown(sock: int)               // TcpSessionMgr_Fini on one entry

  // ------------------------------------------------------------------
  // The steps as written

  function Start(workers: nat): State {
    State([], map[], seq(workers, _ => Thread([], Idle, false)), Resting, Waiting, 0, 0)
  }

  predicate Listed(s: State, sid: nat) {
    sid < |s.sessions| && s.sessions[sid].sock in s.table && s.table[s.sessions[sid].sock] == sid
  }

  /** A worker is between receiving the session's event, in a batch or singly,
      and re-arming it or giving it up. */
  predicate Holds(t: Thread, sid: nat) {
    sid in t.queue || t.now == Reading(sid) || t.now == Failed(sid)
  }

  predicate IsWorker(s: State, w: nat) {
    w < |s.threads|
  }

  /** The ids in play exist. */
  predicate WellFormed(s: State) {
    && (forall w, k :: 0 <= w < |s.threads| && 0 <= k < |s.threads[w].queue| ==> s.threads[w].queue[k] < |s.sessions|)
    && (forall w :: 0 <= w < |s.threads| && !s.threads[w].now.Idle? ==> s.threads[w].now.sid < |s.sessions|)
    && (forall k :: k in s.table ==> s.table[k] < |s.sessions|)
    && (!s.reaper.Resting? ==> s.reaper.sid < |s.sessions|)
    && (!s.acceptor.Waiting? ==> s.acceptor.sid < |s.sessions|)
  }

  predicate AtRest(t: Thread) {
    t.queue == [] && t.now.Idle?
  }

  predicate AllIdle(s: State) {
    s.reaper.Resting? && s.acceptor.Waiting? && forall w :: 0 <= w < |s.threads| ==> AtRest(s.threads[w])
  }

  predicate Distinct(sids: seq<nat>) {
    forall i, j :: 0 <= i < j < |sids| ==> sids[i] != sids[j]
  }

  /** epoll_wait reports registrations that are armed, each once. */
  predicate Reportable(s: State, sids: seq<nat>) {
    0 < |sids| <= MAX_EVENT_NUM && Distinct(sids) &&
    forall k :: 0 <= k < |sids| ==> sids[k] < |s.sessions| && s.sessions[sids[k]].armed
  }

  predicate Enabled(s: State, st: Step)
    requires WellFormed(s)
  {
    match st
    case DoInit(sock) =>
      // the kernel hands out a descriptor that is not open
      s.acceptor.Waiting? && forall i :: 0 <= i < |s.sessions| && s.sessions[i].open ==> s.sessions[i].sock != sock
    case DoAdd => s.acceptor.Inited?
    case DoArm(ok) => s.acceptor.Added? && (ok ==> s.sessions[s.acceptor.sid].open)
    case DoPost(ok) => s.acceptor.Armed? && (ok ==> s.sessions[s.acceptor.sid].registered)
    case DoFetch(w, sids) => IsWorker(s, w) && AtRest(s.threads[w]) && Reportable(s, sids)
    case DoNext(w) => IsWorker(s, w) && s.threads[w].now.Idle? && s.threads[w].queue != []
    case DoSkip(w) => IsWorker(s, w) && s.threads[w].now.Idle? && s.threads[w].queue != []
    case DoReadDone(w) =>
      IsWorker(s, w) && s.threads[w].now.Reading? && s.sessions[s.threads[w].now.sid].registered
    case DoReadFailed(w) => IsWorker(s, w) && s.threads[w].now.Reading?
    case DoRemove(w, key) => IsWorker(s, w) && s.threads[w].now.Failed?
    case DoAdvance(w, ok) => IsWorker(s, w) && s.threads[w].now.Tearing?
    case DoReap(sock) => s.reaper.Resting? && sock in s.table
    case DoReapAdvance(ok) => s.reaper.Reaping?
    case DoShutdown(sock) => AllIdle(s) && sock in s.table
  }

  function Set(s: State, sid: nat, x: SessionRecord): State
    requires sid < |s.sessions|
  {
    s.(sessions := s.sessions[sid := x])
  }

  function SetThread(s: State, w: nat, t: Thread): State
    requires IsWorker(s, w)
  {
    s.(threads := s.threads[w := t])
  }

  /** EPOLLONESHOT: every registration reported is disarmed at once. */
  function Disarmed(sessions: seq<SessionRecord>, sids: seq<nat>): seq<SessionRecord> {
    seq(|sessions|, i requires 0 <= i < |sessions| =>
      if i in sids then sessions[i].(armed := false) else sessions[i])
  }

  /** The teardown call after the erase and `done` further calls: DelEvent
      (which may fail), TcpSession_Fini (which closes the socket and with it the
      registration), delete. */
  function TornBy(x: SessionRecord, who: Actor, done: nat, ok: bool): SessionRecord {
    if done == 0 then
      x.(hist := x.hist + [Deregister(who)], registered := x.registered && !ok, armed := x.armed && !ok)
    else if done == 1 then
      x.(hist := x.hist + [Finalise(who)], open := false, registered := false, armed := false)
    else
      x.(hist := x.hist + [Delete(who)])
  }

  /** A delete by worker `w` without a finalise before it. */
  function Deleted(x: SessionRecord, w: nat): SessionRecord {
    x.(hist := x.hist + [Delete(Worker(w))], open := false, registered := false, armed := false)
  }

  /** The acceptor's failure paths: whatever DelSession answers, the session is
      finalised and deleted. */
  function Aborted(s: State, first: seq<Act>): State
    requires WellFormed(s) && !s.acceptor.Waiting?
  {
    var sid := s.acceptor.sid;
    var x := s.sessions[sid];
    var erased := if x.sock in s.table then [Erase(Acceptor)] else [];
    Set(s, sid, x.(hist := x.hist + first + erased + [Finalise(Acceptor), Delete(Acceptor)],
                   open := false, registered := false, armed := false))
      .(table := s.table - {x.sock}, acceptor := Waiting, disconnects := s.disconnects + 1)
  }

  function Apply(s: State, st: Step): State
    requires WellFormed(s) && Enabled(s, st)
  {
    match st
    case DoInit(sock) =>
      s.(sessions := s.sessions + [SessionRecord(sock, true, false, false, false, [])],
         acceptor := Inited(|s.sessions|), connects := s.connects + 1)
    case DoAdd =>
      var sid := s.acceptor.sid;
      var sock := s.sessions[sid].sock;
      s.(table := if sock in s.table then s.table else s.table[sock := sid], acceptor := Added(sid))
    case DoArm(ok) =>
      if !ok then Aborted(s, []) else
      var sid := s.acceptor.sid;
      Set(s, sid, s.sessions[sid].(registered := true, armed := true, parked := false)).(acceptor := Armed(sid))
    case DoPost(ok) =>
      if !ok then Aborted(s, [Deregister(Acceptor)]) else
      var sid := s.acceptor.sid;
      Set(s, sid, s.sessions[sid].(armed := true, parked := false)).(acceptor := Waiting)
    case DoFetch(w, sids) =>
      SetThread(s, w, s.threads[w].(queue := sids)).(sessions := Disarmed(s.sessions, sids))
    case DoNext(w) =>
      var t := s.threads[w];
      SetThread(s, w, t.(queue := t.queue[1..], now := Reading(t.queue[0])))
    case DoSkip(w) =>
      var t := s.threads[w];
      var sid := t.queue[0];
      SetThread(Set(s, sid, s.sessions[sid].(parked := true)), w, t.(queue := t.queue[1..]))
    case DoReadDone(w) =>
      var t := s.threads[w];
      var sid := t.now.sid;
      SetThread(Set(s, sid, s.sessions[sid].(armed := true)), w, t.(now := Idle))
    case DoReadFailed(w) =>
      var t := s.threads[w];
      SetThread(s, w, t.(now := Failed(t.now.sid)))
    case DoRemove(w, key) =>
      var t := s.threads[w];
      var sid := t.now.sid;
      var x := s.sessions[sid];
      if key in s.table then
        SetThread(Set(s, sid, x.(hist := x.hist + [Erase(Worker(w))])), w, t.(now := Tearing(sid, 0)))
          .(table := s.table - {key})
      else
        // nothing erased, but a flag left over from an earlier teardown still
        // deletes, and the destructor closes the socket if it is open
        SetThread(Set(s, sid, (if t.flag then Deleted(x, w) else x).(parked := true)), w, t.(now := Idle))
    case DoAdvance(w, ok) =>
      var t := s.threads[w];
      var (sid, done) := (t.now.sid, t.now.done);
      SetThread(Set(s, sid, TornBy(s.sessions[sid], Worker(w), done, ok)), w,
                t.(now := if done < 2 then Tearing(sid, done + 1) else Idle, flag := t.flag || done == 1))
        .(disconnects := if done == 1 then s.disconnects + 1 else s.disconnects)
    case DoReap(sock) =>
      var sid := s.table[sock];
      var x := s.sessions[sid];
      Set(s, sid, x.(hist := x.hist + [Erase(Reaper)])).(table := s.table - {sock}, reaper := Reaping(sid, 0))
    case DoReapAdvance(ok) =>
      var (sid, done) := (s.reaper.sid, s.reaper.done);
      Set(s, sid, TornBy(s.sessions[sid], Reaper, done, ok))
        .(reaper := if done < 2 then Reaping(sid, done + 1) else Resting,
          disconnects := if done == 1 then s.disconnects + 1 else s.disconnects)
    case DoShutdown(sock) =>
      var sid := s.table[sock];
      var x := s.sessions[sid];
      Set(s, sid, x.(hist := x.hist + [Finalise(Manager), Delete(Manager)],
                     open := false, registered := false, armed := false))
        .(table := s.table - {sock}, disconnects := s.disconnects + 1)
  }

  lemma ApplyWellFormed(s: State, st: Step)
    requires WellFormed(s) && Enabled(s, st)
    ensures WellFormed(Apply(s, st))
    ensures |Apply(s, st).sessions| >= |s.sessions| && |Apply(s, st).threads| == |s.threads|
  {
    ApplySizes(s, st);
    ApplyThreads(s, st);
    hide TornBy, Deleted, Disarmed, Holds;
  }

  lemma ApplySizes(s: State, st: Step)
    requires WellFormed(s) && Enabled(s, st)
    ensures |Apply(s, st).sessions| >= |s.sessions| && |Apply(s, st).threads| == |s.threads|
  {
    hide TornBy, Deleted, Holds;
  }

  lemma ApplyThreads(s: State, st: Step)
    requires WellFormed(s) && Enabled(s, st)
    ensures var s' := Apply(s, st);
      && (forall w, k :: 0 <= w < |s'.threads| && 0 <= k < |s'.threads[w].queue| ==>
            s'.threads[w].queue[k] < |s'.sessions|)
      && (forall w :: 0 <= w < |s'.threads| && !s'.threads[w].now.Idle? ==> s'.threads[w].now.sid < |s'.sessions|)
  {
    ApplySizes(s, st);
    hide TornBy, Deleted, Disarmed, Holds;
  }

  // ------------------------------------------------------------------
  // When a step is safe

  predicate Held(s: State, sid: nat) {
    exists w :: 0 <= w < |s.threads| && Holds(s.threads[w], sid)
  }

  /** Most steps are always safe. The exceptions: entering a socket number
      another session of which a worker still holds; the acceptor's second
      registration while a worker already holds the session; the acceptor's
      failure paths once someone else took the session over; and a worker's
      removal that hits somebody else's entry, or misses while its flag is
      stale. */
  predicate Guard(s: State, st: Step)
    requires WellFormed(s) && Enabled(s, st)
  {
    match st
    case DoAdd =>
      forall i :: 0 <= i < |s.sessions| && Held(s, i) ==> s.sessions[i].sock != s.sessions[s.acceptor.sid].sock
    case DoArm(ok) => ok || Listed(s, s.acceptor.sid)
    case DoPost(ok) => if ok then !Held(s, s.acceptor.sid) else Listed(s, s.acceptor.sid)
    case DoRemove(w, key) => if key in s.table then s.table[key] == s.threads[w].now.sid else !s.threads[w].flag
    case _ => true
  }
}
