/** Runs from the start of the engine, each breaking a promise of Ownership. The
    first three are runs of the code as written: two read no key, and one holds
    for whatever listed number a key reads as. The other three are runs of the
    code with the event's union repaired, so that the key a worker reads is the
    socket. */
module Counterexamples {
  import opened EventOwnership
  import opened OwnershipInvariant
  import opened Ownership
  import opened OwnershipRuns

  // ------------------------------------------------------------------
  // Stretches of a run

  lemma Then(s0: State, run: seq<Step>, s: State, st: Step)
    requires Possible(s0, run) && Final(s0, run) == s && Enabled(s, st)
    ensures Possible(s0, run + [st]) && Final(s0, run + [st]) == Apply(s, st) && WellFormed(Apply(s, st))
  {
    One(s, st);
    Append(s0, run, [st]);
    ApplyWellFormed(s, st);
  }

  function Known(sock: int, armed: bool): SessionRecord {
    SessionRecord(sock, true, true, armed, false, [])
  }

  const REST := Thread([], Idle, false)

  /** A connection accepted on `sock`, up to its first registration. */
  function AcceptSteps(sock: int): seq<Step> {
    [DoInit(sock), DoAdd, DoArm(true)]
  }

  function Accepted(s: State, sock: int): State {
    s.(sessions := s.sessions + [Known(sock, true)], table := s.table[sock := |s.sessions|],
       acceptor := Armed(|s.sessions|), connects := s.connects + 1)
  }

  lemma AcceptRun(s: State, sock: int)
    requires WellFormed(s) && Enabled(s, DoInit(sock)) && sock !in s.table
    ensures Possible(s, AcceptSteps(sock)) && Final(s, AcceptSteps(sock)) == Accepted(s, sock)
  {
    hide Possible, Final;
    var s1 := Apply(s, DoInit(sock));
    ApplyWellFormed(s, DoInit(sock));
    var s2 := Apply(s1, DoAdd);
    ApplyWellFormed(s1, DoAdd);
    var s3 := Apply(s2, DoArm(true));
    assert s3.sessions == Accepted(s, sock).sessions;
    hide Apply, Enabled, WellFormed;
    One(s2, DoArm(true));
    Prepend(s1, DoAdd, [DoArm(true)]);
    Prepend(s, DoInit(sock), [DoAdd] + [DoArm(true)]);
    assert AcceptSteps(sock) == [DoInit(sock)] + ([DoAdd] + [DoArm(true)]);
  }

  /** Worker 0, alone, fails to read session `sid` and takes it down. */
  function FailSteps(sock: int): seq<Step> {
    [DoReadFailed(0), DoRemove(0, sock), DoAdvance(0, true), DoAdvance(0, true), DoAdvance(0, true)]
  }

  /** The state `done` calls after the erase. */
  function Failing(s: State, sid: nat, sock: int, done: nat): State
    requires sid < |s.sessions|
  {
    var x := s.sessions[sid];
    var y := x.(hist := x.hist + Torn(Worker(0), done), open := x.open && done < 2,
                registered := x.registered && done == 0, armed := x.armed && done == 0);
    s.(sessions := s.sessions[sid := y], table := s.table - {sock},
       threads := [Thread([], if done < 3 then Tearing(sid, done) else Idle, done >= 2)],
       disconnects := if done < 2 then s.disconnects else s.disconnects + 1)
  }

  predicate Reads(s: State, sid: nat, sock: int) {
    WellFormed(s) && s.threads == [Thread([], Reading(sid), false)] && sock in s.table && s.table[sock] == sid
  }

  lemma FailingOn(s: State, sid: nat, sock: int, done: nat)
    requires Reads(s, sid, sock) && done <= 2
    ensures var a := Failing(s, sid, sock, done);
      && WellFormed(a) && Enabled(a, DoAdvance(0, true))
      && Apply(a, DoAdvance(0, true)) == Failing(s, sid, sock, done + 1)
  {
    var a, b := Failing(s, sid, sock, done), Failing(s, sid, sock, done + 1);
    var x := s.sessions[sid];
    assert TornBy(a.sessions[sid], Worker(0), done, true).hist == x.hist + Torn(Worker(0), done + 1);
    assert Apply(a, DoAdvance(0, true)).sessions == b.sessions && Apply(a, DoAdvance(0, true)).threads == b.threads;
  }

  lemma FailsAndErases(s: State, sid: nat, sock: int) returns (s1: State)
    requires Reads(s, sid, sock)
    ensures WellFormed(s) && Enabled(s, DoReadFailed(0)) && s1 == Apply(s, DoReadFailed(0))
    ensures WellFormed(s1) && Enabled(s1, DoRemove(0, sock))
    ensures Apply(s1, DoRemove(0, sock)) == Failing(s, sid, sock, 0)
  {
    s1 := Apply(s, DoReadFailed(0));
    ApplyWellFormed(s, DoReadFailed(0));
    assert Apply(s1, DoRemove(0, sock)).sessions == Failing(s, sid, sock, 0).sessions;
  }

  const TEAR: seq<Step> := [DoAdvance(0, true), DoAdvance(0, true), DoAdvance(0, true)]

  lemma TearRun(s: State, sid: nat, sock: int)
    requires Reads(s, sid, sock)
    ensures Possible(Failing(s, sid, sock, 0), TEAR)
    ensures Final(Failing(s, sid, sock, 0), TEAR) == Failing(s, sid, sock, 3)
  {
    assert sid < |s.sessions|;
    hide Possible, Final, Guarded, Apply, Enabled, Failing, WellFormed, Guard;
    var go := DoAdvance(0, true);
    FailingOn(s, sid, sock, 0);
    FailingOn(s, sid, sock, 1);
    FailingOn(s, sid, sock, 2);
    One(Failing(s, sid, sock, 2), go);
    Prepend(Failing(s, sid, sock, 1), go, [go]);
    Prepend(Failing(s, sid, sock, 0), go, [go] + [go]);
    assert TEAR == [go] + ([go] + [go]);
  }

  lemma FailRun(s: State, sid: nat, sock: int)
    requires Reads(s, sid, sock)
    ensures Possible(s, FailSteps(sock)) && Final(s, FailSteps(sock)) == Failing(s, sid, sock, 3)
  {
    assert sid < |s.sessions| && WellFormed(s);
    hide Possible, Final, Guarded, Apply, Enabled, Failing, Reads, WellFormed, Guard;
    var s1 := FailsAndErases(s, sid, sock);
    TearRun(s, sid, sock);
    Prepend(s1, DoRemove(0, sock), TEAR);
    Prepend(s, DoReadFailed(0), [DoRemove(0, sock)] + TEAR);
    assert FailSteps(sock) == [DoReadFailed(0)] + ([DoRemove(0, sock)] + TEAR);
  }

  /** One worker, one session on socket 5 that the acceptor has entered. */
  function Single(x: SessionRecord, t: Thread, acceptor: AcceptorState): State {
    State([x], map[5 := 0], [t], Resting, acceptor, 1, 0)
  }

  lemma FetchFirst(acceptor: AcceptorState)
    requires acceptor == Waiting || acceptor == Armed(0)
    ensures var s := Single(Known(5, true), REST, acceptor);
      && WellFormed(s) && Enabled(s, DoFetch(0, [0]))
      && Apply(s, DoFetch(0, [0])) == Single(Known(5, false), Thread([0], Idle, false), acceptor)
  {
    var s := Single(Known(5, true), REST, acceptor);
    assert Apply(s, DoFetch(0, [0])).sessions == [Known(5, false)];
  }

  lemma ReachFirst(acceptor: AcceptorState)
    requires acceptor == Waiting || acceptor == Armed(0)
    ensures var s := Single(Known(5, false), Thread([0], Idle, false), acceptor);
      && WellFormed(s) && Enabled(s, DoNext(0))
      && Apply(s, DoNext(0)) == Single(Known(5, false), Thread([], Reading(0), false), acceptor)
  {
    assert [0][1..] == [];
  }

  const FIRST_EVENT: seq<Step> := [DoFetch(0, [0])] + [DoNext(0)]

  /** The first event of the first session reaches the only worker. */
  lemma FirstEvent(acceptor: AcceptorState)
    requires acceptor == Waiting || acceptor == Armed(0)
    ensures var s := Single(Known(5, true), REST, acceptor);
      && Possible(s, FIRST_EVENT)
      && Final(s, FIRST_EVENT) == Single(Known(5, false), Thread([], Reading(0), false), acceptor)
  {
    hide Possible, Final, Apply, Enabled, WellFormed;
    FetchFirst(acceptor);
    ReachFirst(acceptor);
    var s := Single(Known(5, true), REST, acceptor);
    One(s, DoFetch(0, [0]));
    Then(s, [DoFetch(0, [0])], Single(Known(5, false), Thread([0], Idle, false), acceptor), DoNext(0));
  }

  lemma StartAccepted()
    ensures Possible(Start(1), AcceptSteps(5))
    ensures Final(Start(1), AcceptSteps(5)) == Single(Known(5, true), REST, Armed(0))
    ensures Possible(Start(1), AcceptSteps(5) + [DoPost(true)])
    ensures Final(Start(1), AcceptSteps(5) + [DoPost(true)]) == Single(Known(5, true), REST, Waiting)
  {
    hide Possible, Final;
    AcceptRun(Start(1), 5);
    var s := Single(Known(5, true), REST, Armed(0));
    assert Start(1).threads == [REST];
    assert Accepted(Start(1), 5) == s;
    assert Apply(s, DoPost(true)) == Single(Known(5, true), REST, Waiting);
    Then(Start(1), AcceptSteps(5), s, DoPost(true));
  }

  // ------------------------------------------------------------------
  // Two workers in one session

  /** Two workers and the session on socket 5. */
  function Double(armed: bool, t0: Thread, t1: Thread, acceptor: AcceptorState): State {
    State([Known(5, armed)], map[5 := 0], [t0, t1], Resting, acceptor, 1, 0)
  }

  const GOT := Thread([0], Idle, false)
  const IN := Thread([], Reading(0), false)

  /** `st` leads from `s` to `s'`. */
  ghost predicate Leads(s: State, st: Step, s': State) {
    WellFormed(s) && Enabled(s, st) && Apply(s, st) == s'
  }

  lemma DoubleFetch()
    ensures Leads(Double(true, REST, REST, Armed(0)), DoFetch(0, [0]), Double(false, GOT, REST, Armed(0)))
  {
    assert Apply(Double(true, REST, REST, Armed(0)), DoFetch(0, [0])).sessions == [Known(5, false)];
  }

  lemma DoublePost()
    ensures Leads(Double(false, GOT, REST, Armed(0)), DoPost(true), Double(true, GOT, REST, Waiting))
  {
  }

  lemma DoubleFetchAgain()
    ensures Leads(Double(true, GOT, REST, Waiting), DoFetch(1, [0]), Double(false, GOT, GOT, Waiting))
  {
    assert Apply(Double(true, GOT, REST, Waiting), DoFetch(1, [0])).sessions == [Known(5, false)];
  }

  lemma DoubleNext()
    ensures Leads(Double(false, GOT, GOT, Waiting), DoNext(1), Double(false, GOT, IN, Waiting))
  {
    assert [0][1..] == [];
  }

  lemma DoubleNextAgain()
    ensures Leads(Double(false, GOT, IN, Waiting), DoNext(0), Double(false, IN, IN, Waiting))
  {
    assert [0][1..] == [];
  }

  lemma DoubleAccepted()
    ensures Possible(Start(2), AcceptSteps(5))
    ensures Final(Start(2), AcceptSteps(5)) == Double(true, REST, REST, Armed(0))
  {
    hide Possible, Final;
    AcceptRun(Start(2), 5);
    assert Start(2).threads == [REST, REST];
  }

  const TWO_READERS: seq<Step> :=
    AcceptSteps(5) + [DoFetch(0, [0])] + [DoPost(true)] + [DoFetch(1, [0])] + [DoNext(1)] + [DoNext(0)]

  /** The acceptor registers every session twice (AddEvent, then
      TcpSession_IORecv(1)). A worker that was handed the first event, and has
      perhaps not come to it yet, and a second worker that is handed the next
      one end up reading the same session. */
  lemma SecondRegistrationBreaksExclusion()
    ensures Possible(Start(2), TWO_READERS)
    ensures Final(Start(2), TWO_READERS) == Double(false, IN, IN, Waiting)
    ensures !ExclusionHolds(Final(Start(2), TWO_READERS))
  {
    hide Possible, Final;
    DoubleAccepted();
    DoubleFetch();
    DoublePost();
    DoubleFetchAgain();
    DoubleNext();
    DoubleNextAgain();
    hide Apply, Enabled, WellFormed;
    var run := AcceptSteps(5);
    Then(Start(2), run, Double(true, REST, REST, Armed(0)), DoFetch(0, [0]));
    run := run + [DoFetch(0, [0])];
    Then(Start(2), run, Double(false, GOT, REST, Armed(0)), DoPost(true));
    run := run + [DoPost(true)];
    Then(Start(2), run, Double(true, GOT, REST, Waiting), DoFetch(1, [0]));
    run := run + [DoFetch(1, [0])];
    Then(Start(2), run, Double(false, GOT, GOT, Waiting), DoNext(1));
    run := run + [DoNext(1)];
    Then(Start(2), run, Double(false, GOT, IN, Waiting), DoNext(0));
    assert Holds(Double(false, IN, IN, Waiting).threads[0], 0) && Holds(Double(false, IN, IN, Waiting).threads[1], 0);
  }

  // ------------------------------------------------------------------
  // A sweep between the acceptor's steps

  /** One session on `sock`, not yet registered, and what is left of it. */
  function Announced(x: SessionRecord, acceptor: AcceptorState, table: map<int, nat>, disconnects: int): State {
    State([x], table, [REST], Resting, acceptor, 1, disconnects)
  }

  function New(sock: int): SessionRecord {
    SessionRecord(sock, true, false, false, false, [])
  }

  function Gone(sock: int, hist: seq<Act>): SessionRecord {
    SessionRecord(sock, false, false, false, false, hist)
  }

  const SWEPT_AND_ABORTED: seq<Act> := Torn(Reaper, 3) + [Finalise(Acceptor), Delete(Acceptor)]

  lemma InitAndAdd(sock: int)
    ensures Leads(Start(1), DoInit(sock), Announced(New(sock), Inited(0), map[], 0))
    ensures Leads(Announced(New(sock), Inited(0), map[], 0), DoAdd, Announced(New(sock), Added(0), map[sock := 0], 0))
  {
    assert Start(1).threads == [REST];
  }

  lemma SweptBeforeRegistration(sock: int)
    ensures var s := Announced(New(sock), Added(0), map[sock := 0], 0);
      && WellFormed(s)
      && TakenDown(s, sock, Torn(Reaper, 3)) == Announced(Gone(sock, Torn(Reaper, 3)), Added(0), map[], 1)
  {
    assert [] + Torn(Reaper, 3) == Torn(Reaper, 3);
    assert Announced(New(sock), Added(0), map[sock := 0], 0).table - {sock} == map[];
  }

  lemma RegistrationFails(sock: int)
    ensures Leads(Announced(Gone(sock, Torn(Reaper, 3)), Added(0), map[], 1), DoArm(false),
                  Announced(Gone(sock, SWEPT_AND_ABORTED), Waiting, map[], 2))
  {
    assert Torn(Reaper, 3) + [] + [] + [Finalise(Acceptor), Delete(Acceptor)] == SWEPT_AND_ABORTED;
  }

  function SweptSteps(sock: int): seq<Step> {
    [DoInit(sock)] + [DoAdd] + ReapSteps(sock, false) + [DoArm(false)]
  }

  /** As written, with no key read: the stamp is taken when the session is
      constructed, and the CONNECT callback in TcpSession_Init may take longer
      than the timeout. A sweep then takes the session down between AddSession
      and AddEvent; AddEvent fails on the closed socket, and the acceptor
      finalises and deletes the session again. */
  lemma SweepBeforeRegistrationTearsDownTwice(sock: int)
    ensures Possible(Start(1), SweptSteps(sock))
    ensures Final(Start(1), SweptSteps(sock)) == Announced(Gone(sock, SWEPT_AND_ABORTED), Waiting, map[], 2)
    ensures !TeardownHolds(Announced(Gone(sock, SWEPT_AND_ABORTED), Waiting, map[], 2))
    ensures !Balanced(Announced(Gone(sock, SWEPT_AND_ABORTED), Waiting, map[], 2))
  {
    var end := Announced(Gone(sock, SWEPT_AND_ABORTED), Waiting, map[], 2);
    NeitherIsNotInOrder(end, 0, Torn(Reaper, 3), [Finalise(Acceptor), Delete(Acceptor)]);
    assert Midway([REST]) == 0 + Midway([]);
    assert !TeardownHolds(end) by { assert end.sessions[0].hist == SWEPT_AND_ABORTED; }
    hide Possible, Final, Apply, Enabled, TakenDown, OnceInOrder, TeardownHolds, Balanced;
    InitAndAdd(sock);
    SweptBeforeRegistration(sock);
    RegistrationFails(sock);
    var added := Announced(New(sock), Added(0), map[sock := 0], 0);
    ReapRun(added, sock, false);
    hide Announced, Leads, WellFormed;
    SweptRun(sock, added, Announced(Gone(sock, Torn(Reaper, 3)), Added(0), map[], 1), end);
  }

  lemma SweptRun(sock: int, added: State, swept: State, end: State)
    requires Leads(Start(1), DoInit(sock), Announced(New(sock), Inited(0), map[], 0))
    requires Leads(Announced(New(sock), Inited(0), map[], 0), DoAdd, added)
    requires Possible(added, ReapSteps(sock, false)) && Final(added, ReapSteps(sock, false)) == swept
    requires Leads(swept, DoArm(false), end)
    ensures Possible(Start(1), SweptSteps(sock)) && Final(Start(1), SweptSteps(sock)) == end
  {
    hide Possible, Final, Apply, Enabled, Announced;
    One(Start(1), DoInit(sock));
    LeadsOn(Start(1), [DoInit(sock)], Announced(New(sock), Inited(0), map[], 0), DoAdd, added);
    Append(Start(1), [DoInit(sock)] + [DoAdd], ReapSteps(sock, false));
    LeadsOn(Start(1), [DoInit(sock)] + [DoAdd] + ReapSteps(sock, false), swept, DoArm(false), end);
  }

  // ------------------------------------------------------------------
  // A key that is another session's number

  /** Two registered sessions, one worker. */
  function Both(a: int, b: int, armed: bool, t: Thread): State {
    State([Known(a, armed), Known(b, true)], map[a := 0, b := 1], [t], Resting, Waiting, 2, 0)
  }

  function Robbed(a: int, b: int): State {
    State([Known(a, false).(hist := [Erase(Worker(0))]), Known(b, true)], map[a := 0],
          [Thread([], Tearing(0, 0), false)], Resting, Waiting, 2, 0)
  }

  lemma BothAccepted(a: int, b: int)
    requires a != b
    ensures var run := AcceptSteps(a) + [DoPost(true)] + AcceptSteps(b) + [DoPost(true)];
      Possible(Start(1), run) && Final(Start(1), run) == Both(a, b, true, REST)
  {
    hide Possible, Final;
    assert Start(1).threads == [REST];
    AcceptRun(Start(1), a);
    var s := Accepted(Start(1), a);
    Then(Start(1), AcceptSteps(a), s, DoPost(true));
    var s' := Apply(s, DoPost(true));
    AcceptRun(s', b);
    Append(Start(1), AcceptSteps(a) + [DoPost(true)], AcceptSteps(b));
    Then(Start(1), AcceptSteps(a) + [DoPost(true)] + AcceptSteps(b), Accepted(s', b), DoPost(true));
    assert Apply(Accepted(s', b), DoPost(true)).sessions == Both(a, b, true, REST).sessions;
  }

  lemma BothFetch(a: int, b: int)
    requires a != b
    ensures Leads(Both(a, b, true, REST), DoFetch(0, [0]), Both(a, b, false, GOT))
  {
    assert Apply(Both(a, b, true, REST), DoFetch(0, [0])).sessions == Both(a, b, false, GOT).sessions;
  }

  lemma BothRead(a: int, b: int)
    requires a != b
    ensures Leads(Both(a, b, false, GOT), DoNext(0), Both(a, b, false, IN))
    ensures Leads(Both(a, b, false, IN), DoReadFailed(0), Both(a, b, false, Thread([], Failed(0), false)))
  {
    assert [0][1..] == [];
  }

  lemma BothRemove(a: int, b: int)
    requires a != b
    ensures Leads(Both(a, b, false, Thread([], Failed(0), false)), DoRemove(0, b), Robbed(a, b))
  {
    var s := Both(a, b, false, Thread([], Failed(0), false));
    assert [] + [Erase(Worker(0))] == [Erase(Worker(0))];
    assert Apply(s, DoRemove(0, b)).sessions == Robbed(a, b).sessions;
    assert s.table - {b} == map[a := 0];
  }

  function ForeignKeySteps(a: int, b: int): seq<Step> {
    AcceptSteps(a) + [DoPost(true)] + AcceptSteps(b) + [DoPost(true)]
    + [DoFetch(0, [0])] + [DoNext(0)] + [DoReadFailed(0)] + [DoRemove(0, b)]
  }

  /** As written, for any two socket numbers: data.fd reads as part of the
      session pointer. Where that is another session's listed number, a failed
      read erases that session's entry, and goes on to take its own session down
      while that is still listed. */
  lemma ForeignKeyErases(a: int, b: int)
    requires a != b
    ensures Possible(Start(1), ForeignKeySteps(a, b)) && Final(Start(1), ForeignKeySteps(a, b)) == Robbed(a, b)
    ensures EntryLost(Robbed(a, b), 1) && Listed(Robbed(a, b), 0) && !TeardownHolds(Robbed(a, b))
  {
    LostEntryBreaks(Robbed(a, b), 1);
    hide Possible, Final, Apply, Enabled, WellFormed, TeardownHolds;
    BothAccepted(a, b);
    BothFetch(a, b);
    BothRead(a, b);
    BothRemove(a, b);
    hide Both, Robbed, Leads;
    var run := AcceptSteps(a) + [DoPost(true)] + AcceptSteps(b) + [DoPost(true)];
    LeadsOn(Start(1), run, Both(a, b, true, REST), DoFetch(0, [0]), Both(a, b, false, GOT));
    run := run + [DoFetch(0, [0])];
    LeadsOn(Start(1), run, Both(a, b, false, GOT), DoNext(0), Both(a, b, false, IN));
    run := run + [DoNext(0)];
    LeadsOn(Start(1), run, Both(a, b, false, IN), DoReadFailed(0), Both(a, b, false, Thread([], Failed(0), false)));
    run := run + [DoReadFailed(0)];
    LeadsOn(Start(1), run, Both(a, b, false, Thread([], Failed(0), false)), DoRemove(0, b), Robbed(a, b));
  }

  lemma LeadsOn(s0: State, run: seq<Step>, s: State, st: Step, s': State)
    requires Possible(s0, run) && Final(s0, run) == s && Leads(s, st, s')
    ensures Possible(s0, run + [st]) && Final(s0, run + [st]) == s'
  {
    Then(s0, run, s, st);
  }

  // ------------------------------------------------------------------
  // With the key repaired: a socket number handed out again

  const REAPED := SessionRecord(5, false, false, false, false, Torn(Reaper, 3))

  /** The session on socket 5 reaped while its event waits in the worker's
      batch. */
  function ReapedInBatch(t: Thread): State {
    State([REAPED], map[], [t], Resting, Waiting, 1, 1)
  }

  /** The new session on socket 5, added but not yet registered. */
  function Reused(t: Thread): State {
    State([REAPED, New(5)], map[5 := 1], [t], Resting, Added(1), 2, 1)
  }

  function ReuseEnd(): State {
    State([REAPED.(hist := Torn(Reaper, 3) + [Erase(Worker(0))]), New(5)], map[],
          [Thread([], Tearing(0, 0), false)], Resting, Added(1), 2, 1)
  }

  lemma ReuseSteps() returns (mid: State)
    ensures Leads(ReapedInBatch(GOT), DoInit(5), mid) && Leads(mid, DoAdd, Reused(GOT))
  {
    mid := Apply(ReapedInBatch(GOT), DoInit(5));
    ApplyWellFormed(ReapedInBatch(GOT), DoInit(5));
    assert Apply(mid, DoAdd).sessions == Reused(GOT).sessions;
  }

  lemma LateNextStep()
    ensures Leads(Reused(GOT), DoNext(0), Reused(IN))
  {
    assert [0][1..] == [];
  }

  lemma LateFailure()
    ensures Leads(Reused(IN), DoReadFailed(0), Reused(Thread([], Failed(0), false)))
  {
  }

  lemma LateRemoval()
    ensures Leads(Reused(Thread([], Failed(0), false)), DoRemove(0, 5), ReuseEnd())
  {
    var s := Reused(Thread([], Failed(0), false));
    assert Apply(s, DoRemove(0, 5)).sessions == ReuseEnd().sessions;
  }

  const REUSED_SOCKET: seq<Step> :=
    AcceptSteps(5) + [DoPost(true)] + [DoFetch(0, [0])] + ReapSteps(5, true) + [DoInit(5)] + [DoAdd]
    + [DoNext(0)] + [DoReadFailed(0)] + [DoRemove(0, 5)]

  lemma ReapedWaiting()
    ensures var s := Single(Known(5, false), GOT, Waiting);
      WellFormed(s) && TakenDown(s, 5, Torn(Reaper, 3)) == ReapedInBatch(GOT)
  {
    assert [] + Torn(Reaper, 3) == Torn(Reaper, 3);
    assert Single(Known(5, false), GOT, Waiting).table - {5} == map[];
  }

  lemma ReapedWhileWaiting()
    ensures var run := AcceptSteps(5) + [DoPost(true)] + [DoFetch(0, [0])] + ReapSteps(5, true);
      Possible(Start(1), run) && Final(Start(1), run) == ReapedInBatch(GOT)
  {
    hide Possible, Final, Apply, Enabled, WellFormed, TakenDown;
    StartAccepted();
    FetchFirst(Waiting);
    ReapedWaiting();
    Then(Start(1), AcceptSteps(5) + [DoPost(true)], Single(Known(5, true), REST, Waiting), DoFetch(0, [0]));
    var s := Single(Known(5, false), GOT, Waiting);
    ReapRun(s, 5, true);
    Append(Start(1), AcceptSteps(5) + [DoPost(true)] + [DoFetch(0, [0])], ReapSteps(5, true));
  }

  /** With the socket as the key: a session is reaped while its event waits in
      a worker's batch; the socket number is handed out again and entered; the
      worker comes to the old event, its read fails, and its removal by number erases the new session's
      entry and starts a second teardown of the old one. */
  lemma ReusedSocketBreaksTeardown()
    ensures Possible(Start(1), REUSED_SOCKET) && Final(Start(1), REUSED_SOCKET) == ReuseEnd()
    ensures !TeardownHolds(ReuseEnd()) && EntryLost(ReuseEnd(), 1)
  {
    hide Possible, Final;
    ReapedWhileWaiting();
    var mid := ReuseSteps();
    LateNextStep();
    LateFailure();
    LateRemoval();
    LostEntryBreaks(ReuseEnd(), 1);
    hide ReapedInBatch, Reused, ReuseEnd, Apply, Enabled, WellFormed;
    var run := AcceptSteps(5) + [DoPost(true)] + [DoFetch(0, [0])] + ReapSteps(5, true);
    Then(Start(1), run, ReapedInBatch(GOT), DoInit(5));
    run := run + [DoInit(5)];
    Then(Start(1), run, mid, DoAdd);
    run := run + [DoAdd];
    Then(Start(1), run, Reused(GOT), DoNext(0));
    run := run + [DoNext(0)];
    Then(Start(1), run, Reused(IN), DoReadFailed(0));
    run := run + [DoReadFailed(0)];
    Then(Start(1), run, Reused(Thread([], Failed(0), false)), DoRemove(0, 5));
  }

  // ------------------------------------------------------------------
  // With the key repaired: the acceptor after a worker's teardown

  const DOWN := SessionRecord(5, false, false, false, false, Torn(Worker(0), 3))

  /** The worker has taken the first session down. */
  function FirstDown(acceptor: AcceptorState): State {
    State([DOWN], map[], [Thread([], Idle, true)], Resting, acceptor, 1, 1)
  }

  lemma FirstFails(acceptor: AcceptorState)
    requires acceptor == Waiting || acceptor == Armed(0)
    ensures var s := Single(Known(5, true), REST, acceptor);
      && Possible(s, FIRST_EVENT + FailSteps(5))
      && Final(s, FIRST_EVENT + FailSteps(5)) == FirstDown(acceptor)
  {
    hide Possible, Final;
    FirstEvent(acceptor);
    var s := Single(Known(5, false), IN, acceptor);
    assert Failing(s, 0, 5, 3) == FirstDown(acceptor) by {
      assert [] + Torn(Worker(0), 3) == Torn(Worker(0), 3);
      assert s.table - {5} == map[];
    }
    FailRun(s, 0, 5);
    Append(Single(Known(5, true), REST, acceptor), FIRST_EVENT, FailSteps(5));
  }

  const ABORT_TAIL: seq<Act> := [Deregister(Acceptor), Finalise(Acceptor), Delete(Acceptor)]

  lemma AbortAfterTeardown()
    ensures Leads(FirstDown(Armed(0)), DoPost(false),
                  State([DOWN.(hist := Torn(Worker(0), 3) + ABORT_TAIL)], map[], [Thread([], Idle, true)],
                        Resting, Waiting, 1, 2))
  {
    assert Torn(Worker(0), 3) + [Deregister(Acceptor)] + [] + [Finalise(Acceptor), Delete(Acceptor)]
        == Torn(Worker(0), 3) + ABORT_TAIL;
  }

  const ACCEPTOR_ABORT: seq<Step> := AcceptSteps(5) + (FIRST_EVENT + FailSteps(5)) + [DoPost(false)]

  /** With the socket as the key: a worker takes a session down between the
      acceptor's two registrations; the second then fails, and the acceptor deregisters, finalises and deletes
      the session again. */
  lemma AcceptorAbortTearsDownTwice()
    ensures Possible(Start(1), ACCEPTOR_ABORT)
    ensures var s := Final(Start(1), ACCEPTOR_ABORT);
      && s.sessions == [DOWN.(hist := Torn(Worker(0), 3) + ABORT_TAIL)]
      && !TeardownHolds(s) && !Balanced(s)
  {
    AbortAfterTeardown();
    NeitherIsNotInOrder(FirstDown(Armed(0)), 0, Torn(Worker(0), 3), ABORT_TAIL);
    assert Midway([Thread([], Idle, true)]) == 0 + Midway([]);
    hide Possible, Final, Apply, Enabled, Leads, FirstDown, OnceInOrder;
    StartAccepted();
    FirstFails(Armed(0));
    var run := AcceptSteps(5) + (FIRST_EVENT + FailSteps(5));
    Append(Start(1), AcceptSteps(5), FIRST_EVENT + FailSteps(5));
    LeadsOn(Start(1), run, FirstDown(Armed(0)), DoPost(false),
            State([DOWN.(hist := Torn(Worker(0), 3) + ABORT_TAIL)], map[], [Thread([], Idle, true)],
                  Resting, Waiting, 1, 2));
  }

  // ------------------------------------------------------------------
  // With the key repaired: a flag that was not reset

  /** After the first teardown: a second session, on socket 6. */
  function Second(x: SessionRecord, now: Thread, table: map<int, nat>,
                  acceptor: AcceptorState, disconnects: int): State {
    State([DOWN, x], table, [now], Resting, acceptor, 2, disconnects)
  }

  const STALE := Thread([], Idle, true)
  const IN_STALE := Thread([], Reading(1), true)
  const SIX_REAPED := SessionRecord(6, false, false, false, false, Torn(Reaper, 3))

  lemma SecondAccepted()
    ensures Possible(FirstDown(Waiting), AcceptSteps(6))
    ensures Final(FirstDown(Waiting), AcceptSteps(6)) == Second(Known(6, true), STALE, map[6 := 1], Armed(1), 1)
  {
    hide Possible, Final;
    AcceptRun(FirstDown(Waiting), 6);
  }

  lemma SecondPost()
    ensures Leads(Second(Known(6, true), STALE, map[6 := 1], Armed(1), 1), DoPost(true),
                  Second(Known(6, true), STALE, map[6 := 1], Waiting, 1))
  {
  }

  lemma SecondFetch()
    ensures Leads(Second(Known(6, true), STALE, map[6 := 1], Waiting, 1), DoFetch(0, [1]),
                  Second(Known(6, false), Thread([1], Idle, true), map[6 := 1], Waiting, 1))
  {
    assert Apply(Second(Known(6, true), STALE, map[6 := 1], Waiting, 1), DoFetch(0, [1])).sessions
        == [DOWN, Known(6, false)];
  }

  lemma SecondNext()
    ensures Leads(Second(Known(6, false), Thread([1], Idle, true), map[6 := 1], Waiting, 1), DoNext(0),
                  Second(Known(6, false), IN_STALE, map[6 := 1], Waiting, 1))
  {
    assert [1][1..] == [];
  }

  lemma SecondReaped()
    ensures var s := Second(Known(6, false), IN_STALE, map[6 := 1], Waiting, 1);
      WellFormed(s) && TakenDown(s, 6, Torn(Reaper, 3)) == Second(SIX_REAPED, IN_STALE, map[], Waiting, 2)
  {
    var s := Second(Known(6, false), IN_STALE, map[6 := 1], Waiting, 1);
    assert [] + Torn(Reaper, 3) == Torn(Reaper, 3);
    assert s.table - {6} == map[];
    assert TakenDown(s, 6, Torn(Reaper, 3)).sessions == [DOWN, SIX_REAPED];
  }

  lemma SecondFails()
    ensures Leads(Second(SIX_REAPED, IN_STALE, map[], Waiting, 2), DoReadFailed(0),
                  Second(SIX_REAPED, Thread([], Failed(1), true), map[], Waiting, 2))
  {
  }

  lemma SecondRemoved()
    ensures Leads(Second(SIX_REAPED, Thread([], Failed(1), true), map[], Waiting, 2), DoRemove(0, 6), StaleEnd())
  {
    var s := Second(SIX_REAPED, Thread([], Failed(1), true), map[], Waiting, 2);
    assert Apply(s, DoRemove(0, 6)).sessions == StaleEnd().sessions;
  }

  function StaleEnd(): (s: State)
    ensures |s.sessions| == 2
  {
    Second(SIX_REAPED.(hist := Torn(Reaper, 3) + [Delete(Worker(0))], parked := true), STALE, map[], Waiting, 2)
  }

  const FIRST_LIFE: seq<Step> := AcceptSteps(5) + [DoPost(true)] + (FIRST_EVENT + FailSteps(5))

  const STALE_FLAG: seq<Step> :=
    FIRST_LIFE + AcceptSteps(6) + [DoPost(true)] + [DoFetch(0, [1])] + [DoNext(0)] + ReapSteps(6, true)
    + [DoReadFailed(0)] + [DoRemove(0, 6)]

  lemma FirstLife()
    ensures Possible(Start(1), FIRST_LIFE) && Final(Start(1), FIRST_LIFE) == FirstDown(Waiting)
  {
    hide Possible, Final;
    StartAccepted();
    FirstFails(Waiting);
    Append(Start(1), AcceptSteps(5) + [DoPost(true)], FIRST_EVENT + FailSteps(5));
  }

  /** With the socket as the key: bFlag is not reset before an EPOLLIN event. A
      worker that once took a session down fails to read another one, which the reaper has taken down
      meanwhile; its removal misses, and it deletes that session again. */
  lemma StaleFlagDeletesTwice()
    ensures Possible(Start(1), STALE_FLAG) && Final(Start(1), STALE_FLAG) == StaleEnd()
    ensures StaleEnd().sessions[1].hist == Torn(Reaper, 3) + [Delete(Worker(0))]
    ensures !TeardownHolds(StaleEnd())
  {
    NeitherIsNotInOrder(Second(SIX_REAPED, STALE, map[], Waiting, 2), 1, Torn(Reaper, 3), [Delete(Worker(0))]);
    assert !TeardownHolds(StaleEnd()) by {
      assert StaleEnd().sessions[1].hist == Torn(Reaper, 3) + [Delete(Worker(0))];
    }
    assert StaleEnd().sessions[1].hist == Torn(Reaper, 3) + [Delete(Worker(0))];
    hide Possible, Final, Apply, Enabled, Leads, Second, FirstDown, StaleEnd, TakenDown, WellFormed, TeardownHolds;
    FirstLife();
    SecondAccepted();
    var run := FIRST_LIFE + AcceptSteps(6);
    Append(Start(1), FIRST_LIFE, AcceptSteps(6));
    SecondPost();
    var s := Second(Known(6, true), STALE, map[6 := 1], Waiting, 1);
    LeadsOn(Start(1), run, Second(Known(6, true), STALE, map[6 := 1], Armed(1), 1), DoPost(true), s);
    run := run + [DoPost(true)];
    SecondFetch();
    var got := Second(Known(6, false), Thread([1], Idle, true), map[6 := 1], Waiting, 1);
    LeadsOn(Start(1), run, s, DoFetch(0, [1]), got);
    run := run + [DoFetch(0, [1])];
    SecondNext();
    var reading := Second(Known(6, false), IN_STALE, map[6 := 1], Waiting, 1);
    LeadsOn(Start(1), run, got, DoNext(0), reading);
    run := run + [DoNext(0)];
    StaleTail(run, reading);
  }

  lemma StaleTail(run: seq<Step>, reading: State)
    requires reading == Second(Known(6, false), IN_STALE, map[6 := 1], Waiting, 1)
    requires Possible(Start(1), run) && Final(Start(1), run) == reading
    ensures var whole := run + ReapSteps(6, true) + [DoReadFailed(0)] + [DoRemove(0, 6)];
      Possible(Start(1), whole) && Final(Start(1), whole) == StaleEnd()
  {
    assert reading.reaper.Resting? && 6 in reading.table;
    hide Possible, Final, Apply, Enabled, Leads, Second, StaleEnd, TakenDown, WellFormed;
    SecondReaped();
    ReapRun(reading, 6, true);
    Append(Start(1), run, ReapSteps(6, true));
    var reaped := run + ReapSteps(6, true);
    SecondFails();
    var gone := Second(SIX_REAPED, IN_STALE, map[], Waiting, 2);
    var failed := Second(SIX_REAPED, Thread([], Failed(1), true), map[], Waiting, 2);
    LeadsOn(Start(1), reaped, gone, DoReadFailed(0), failed);
    SecondRemoved();
    LeadsOn(Start(1), reaped + [DoReadFailed(0)], failed, DoRemove(0, 6), StaleEnd());
  }
}
