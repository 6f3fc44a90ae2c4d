/** What the engine promises about its sessions, over whole runs: every guarded
    run keeps the promises, and the first step without its guard breaks one. */
module Ownership {
  import opened EventOwnership
  import opened OwnershipInvariant

  /** Every step of the run can be taken. */
  ghost predicate Possible(s: State, steps: seq<Step>)
    decreases |steps|
  {
    WellFormed(s) &&
    (steps == [] || (Enabled(s, steps[0]) && Possible(Apply(s, steps[0]), steps[1..])))
  }

  ghost function Final(s: State, steps: seq<Step>): (end: State)
    requires Possible(s, steps)
    ensures WellFormed(end)
    decreases |steps|
  {
    if steps == [] then s else Final(Apply(s, steps[0]), steps[1..])
  }

  /** Every step of the run is taken under its guard. */
  ghost predicate Guarded(s: State, steps: seq<Step>)
    requires Possible(s, steps)
    decreases |steps|
  {
    steps == [] || (Guard(s, steps[0]) && Guarded(Apply(s, steps[0]), steps[1..]))
  }

  lemma Stop(s: State)
    requires WellFormed(s)
    ensures Possible(s, []) && Final(s, []) == s && Guarded(s, [])
  {
  }

  lemma Prepend(s: State, st: Step, steps: seq<Step>)
    requires WellFormed(s) && Enabled(s, st) && Possible(Apply(s, st), steps)
    ensures Possible(s, [st] + steps) && Final(s, [st] + steps) == Final(Apply(s, st), steps)
    ensures Guarded(s, [st] + steps) <==> Guard(s, st) && Guarded(Apply(s, st), steps)
  {
    assert ([st] + steps)[1..] == steps;
  }

  lemma One(s: State, st: Step)
    requires WellFormed(s) && Enabled(s, st)
    ensures Possible(s, [st]) && Final(s, [st]) == Apply(s, st) && (Guarded(s, [st]) <==> Guard(s, st))
  {
    ApplyWellFormed(s, st);
    assert [st][1..] == [];
  }

  lemma {:induction false} Append(s: State, a: seq<Step>, b: seq<Step>)
    requires Possible(s, a) && Possible(Final(s, a), b)
    ensures Possible(s, a + b) && Final(s, a + b) == Final(Final(s, a), b)
    ensures Guarded(s, a + b) <==> Guarded(s, a) && Guarded(Final(s, a), b)
    decreases |a|
  {
    hide Enabled, Apply, WellFormed, Guard;
    if a == [] {
      assert a + b == b;
    } else {
      assert (a + b)[1..] == a[1..] + b;
      Append(Apply(s, a[0]), a[1..], b);
    }
  }

  lemma {:induction false} NoneMidway(n: nat)
    ensures Midway(seq(n, _ => Thread([], Idle, false))) == 0
  {
    if n > 0 {
      NoneMidway(n - 1);
      assert seq(n, _ => Thread([], Idle, false))[1..] == seq(n - 1, _ => Thread([], Idle, false));
    }
  }

  lemma StartIsGood(n: nat)
    ensures Inv(Start(n))
  {
    NoneMidway(n);
  }

  lemma FirstIsPossible(s: State, steps: seq<Step>)
    requires Possible(s, steps) && steps != []
    ensures WellFormed(s) && Enabled(s, steps[0])
  {
  }

  /** Every state of every guarded run satisfies the invariant; a run's prefixes
      are runs. */
  lemma {:induction false} RunIsGood(s: State, steps: seq<Step>)
    requires Inv(s) && Possible(s, steps) && Guarded(s, steps)
    ensures Inv(Final(s, steps))
    decreases |steps|
  {
    hide Inv, Guard, Enabled, WellFormed;
    if steps != [] {
      assert WellFormed(s) && Enabled(s, steps[0]) by { FirstIsPossible(s, steps); }
      StepSafeIff(s, steps[0]);
      RunIsGood(Apply(s, steps[0]), steps[1..]);
    }
  }

  // ------------------------------------------------------------------
  // The promises

  /** A worker has received an event of each session at most once. */
  predicate TakenOnce(t: Thread) {
    Distinct(t.queue) && (t.now.Reading? || t.now.Failed? ==> t.now.sid !in t.queue)
  }

  /** Worker exclusion: at most one worker, and that worker at most once, is
      between receiving a session's event, alone or in a batch, and re-arming it
      or giving it up; and meanwhile epoll reports no further event for it. */
  ghost predicate ExclusionHolds(s: State) {
    && Exclusive(s)
    && (forall w :: 0 <= w < |s.threads| ==> TakenOnce(s.threads[w]))
    && (forall sid :: 0 <= sid < |s.sessions| && Held(s, sid) ==> !s.sessions[sid].armed)
  }

  /** All calls of a history by one actor, in teardown order, none twice. */
  predicate OnceInOrder(h: seq<Act>) {
    h == [] || h <= Torn(h[0].who, 3) || h == ABORT_ADD || h == ABORT_POST || h == SHUTDOWN
  }

  /** Exactly-once teardown: the calls made on a session are by one actor, in
      order, none repeated; there are none exactly while it is listed or being
      announced; its socket is open exactly until the finalise call. */
  predicate TeardownHolds(s: State) {
    forall sid :: 0 <= sid < |s.sessions| ==>
      var x := s.sessions[sid];
      && OnceInOrder(x.hist)
      && (x.hist == [] <==> Listed(s, sid) || s.acceptor == Inited(sid))
      && (x.open <==> NotFinalised(x.hist))
  }

  function Count(b: bool): nat {
    if b then 1 else 0
  }

  /** No lost session: a listed session is in exactly one of four conditions:
      armed; held by a worker; parked after an error event or a failed read; or
      entered by the acceptor and not yet registered with epoll. */
  predicate NoneLost(s: State) {
    forall sid :: 0 <= sid < |s.sessions| && Listed(s, sid) ==>
      var x := s.sessions[sid];
      Count(x.armed) + Count(Held(s, sid)) + Count(x.parked) + Count(s.acceptor == Added(sid)) == 1
  }

  /** CONNECT minus DISCONNECT notifications count the sessions in the table,
      plus those announced and not yet entered, plus those erased and not yet
      finalised; when nobody is at work, just the table. */
  predicate Balanced(s: State) {
    && s.connects - s.disconnects == |s.table| + Unlisted(s)
    && (AllIdle(s) ==> s.connects - s.disconnects == |s.table|)
  }

  ghost predicate Promises(s: State) {
    ExclusionHolds(s) && TeardownHolds(s) && NoneLost(s) && Balanced(s)
  }

  lemma InvExclusion(s: State)
    requires Inv(s)
    ensures ExclusionHolds(s)
  {
    forall w | 0 <= w < |s.threads| ensures TakenOnce(s.threads[w]) {
      assert ThreadOk(s, s.threads[w], Worker(w));
    }
    forall sid | 0 <= sid < |s.sessions| && Held(s, sid) ensures !s.sessions[sid].armed {
      assert SessionOk(s, sid);
    }
  }

  lemma InvTeardown(s: State)
    requires Inv(s)
    ensures TeardownHolds(s)
  {
    forall sid | 0 <= sid < |s.sessions|
      ensures var x := s.sessions[sid];
        && OnceInOrder(x.hist)
        && (x.hist == [] <==> Listed(s, sid) || s.acceptor == Inited(sid))
        && (x.open <==> NotFinalised(x.hist))
    {
      assert SessionOk(s, sid);
    }
  }

  lemma InvNoneLost(s: State)
    requires Inv(s)
    ensures NoneLost(s)
  {
    hide Complete, Torn, NotFinalised, Held;
    forall sid | 0 <= sid < |s.sessions| && Listed(s, sid)
      ensures var x := s.sessions[sid];
        Count(x.armed) + Count(Held(s, sid)) + Count(x.parked) + Count(s.acceptor == Added(sid)) == 1
    {
      assert SessionOk(s, sid);
    }
  }

  lemma {:induction false} IdleMidway(threads: seq<Thread>)
    requires forall w :: 0 <= w < |threads| ==> AtRest(threads[w])
    ensures Midway(threads) == 0
  {
    if threads != [] {
      IdleMidway(threads[1..]);
    }
  }

  lemma InvBalanced(s: State)
    requires Inv(s)
    ensures Balanced(s)
  {
    if AllIdle(s) {
      IdleMidway(s.threads);
    }
  }

  lemma InvKeepsPromises(s: State)
    requires Inv(s)
    ensures Promises(s)
  {
    InvExclusion(s);
    InvTeardown(s);
    InvNoneLost(s);
    InvBalanced(s);
  }

  // ------------------------------------------------------------------
  // Every guarded run keeps every promise

  lemma WorkerExclusion(n: nat, steps: seq<Step>)
    requires Possible(Start(n), steps) && Guarded(Start(n), steps)
    ensures ExclusionHolds(Final(Start(n), steps))
  {
    StartIsGood(n);
    RunIsGood(Start(n), steps);
    InvExclusion(Final(Start(n), steps));
  }

  lemma TeardownExactlyOnce(n: nat, steps: seq<Step>)
    requires Possible(Start(n), steps) && Guarded(Start(n), steps)
    ensures TeardownHolds(Final(Start(n), steps))
  {
    StartIsGood(n);
    RunIsGood(Start(n), steps);
    InvTeardown(Final(Start(n), steps));
  }

  lemma NoLostSession(n: nat, steps: seq<Step>)
    requires Possible(Start(n), steps) && Guarded(Start(n), steps)
    ensures NoneLost(Final(Start(n), steps))
  {
    StartIsGood(n);
    RunIsGood(Start(n), steps);
    InvNoneLost(Final(Start(n), steps));
  }

  lemma NotificationsBalance(n: nat, steps: seq<Step>)
    requires Possible(Start(n), steps) && Guarded(Start(n), steps)
    ensures Balanced(Final(Start(n), steps))
  {
    StartIsGood(n);
    RunIsGood(Start(n), steps);
    InvBalanced(Final(Start(n), steps));
  }

  // ------------------------------------------------------------------
  // Every step without its guard breaks a promise

  lemma UnguardedPostBreaksExclusion(s: State)
    requires Inv(s) && Enabled(s, DoPost(true)) && !Guard(s, DoPost(true))
    ensures !ExclusionHolds(Apply(s, DoPost(true)))
  {
    HeldOfThreads(s, Apply(s, DoPost(true)), s.acceptor.sid);
  }

  /** And any other worker at rest can then be handed the same session. */
  lemma UnguardedPostLetsTwoIn(s: State, v: nat)
    requires Inv(s) && Enabled(s, DoPost(true)) && IsWorker(s, v) && AtRest(s.threads[v])
    requires exists w :: 0 <= w < |s.threads| && w != v && Holds(s.threads[w], s.acceptor.sid)
    ensures var s' := Apply(s, DoPost(true));
      var fetch := DoFetch(v, [s.acceptor.sid]);
      WellFormed(s') && Enabled(s', fetch) && !Exclusive(Apply(s', fetch))
  {
    var s' := Apply(s, DoPost(true));
    var sid := s.acceptor.sid;
    ApplyWellFormed(s, DoPost(true));
    var end := Apply(s', DoFetch(v, [sid]));
    var w :| 0 <= w < |s.threads| && w != v && Holds(s.threads[w], sid);
    assert Holds(end.threads[w], sid) && Holds(end.threads[v], sid);
  }

  /** A history that goes on after its actor's teardown, or under another
      actor, is not one teardown in order. */
  lemma NeitherIsNotInOrder(s: State, sid: nat, h: seq<Act>, tail: seq<Act>)
    requires h != [] && (Complete(h) || Underway(s, sid, h))
    requires tail != [] && (Complete(h) || tail[0].who != h[0].who)
    ensures !OnceInOrder(h + tail)
  {
    var g := h + tail;
    assert g[0] == h[0] && g[|h|] == tail[0];
    if Complete(h) {
      assert h[1] == g[1];
    }
  }

  lemma UnguardedAbortBreaksTeardown(s: State, st: Step)
    requires Inv(s) && (st == DoArm(false) || st == DoPost(false)) && Enabled(s, st) && !Guard(s, st)
    ensures !TeardownHolds(Apply(s, st))
  {
    UnsafeAbortHistory(s, st);
    var sid := s.acceptor.sid;
    assert SessionOk(s, sid);
    NeitherIsNotInOrder(s, sid, s.sessions[sid].hist, AbortTail(s, st));
  }

  lemma UnguardedRemoveBreaksTeardown(s: State, w: nat, key: int)
    requires Inv(s) && Enabled(s, DoRemove(w, key)) && !Guard(s, DoRemove(w, key))
    ensures !TeardownHolds(Apply(s, DoRemove(w, key)))
  {
    if key in s.table {
      ForeignEraseUnlists(s, w, key);
    } else {
      StaleDeleteHistory(s, w, key);
      StaleDeleteBreaks(s, w, key);
    }
  }

  lemma StaleDeleteBreaks(s: State, w: nat, key: int)
    requires Inv(s) && Enabled(s, DoRemove(w, key)) && key !in s.table && s.threads[w].flag
    ensures !TeardownHolds(Apply(s, DoRemove(w, key)))
  {
    var sid := s.threads[w].now.sid;
    var h := s.sessions[sid].hist;
    StaleDeleteHistory(s, w, key);
    assert SessionOk(s, sid);
    if h != [] {
      NeitherIsNotInOrder(s, sid, h, [Delete(Worker(w))]);
    }
  }

  predicate ByWorker(st: Step, w: nat) {
    match st
    case DoFetch(v, _) => v == w
    case DoNext(v) => v == w
    case DoSkip(v) => v == w
    case DoReadDone(v) => v == w
    case DoReadFailed(v) => v == w
    case DoRemove(v, _) => v == w
    case DoAdvance(v, _) => v == w
    case _ => false
  }

  /** Session `c` has no teardown behind it and yet no entry. */
  predicate EntryLost(s: State, c: nat) {
    c < |s.sessions| && s.sessions[c].hist == [] && !Listed(s, c) && s.acceptor != Inited(c)
  }

  /** Worker `w` still holds session `i`, whose socket number is listed for the
      new session `c`. */
  predicate Late(s: State, w: nat, i: nat, c: nat) {
    && WellFormed(s) && IsWorker(s, w) && Holds(s.threads[w], i) && i != c && i < |s.sessions|
    && Listed(s, c) && s.sessions[c].hist == [] && s.sessions[i].sock == s.sessions[c].sock && s.acceptor != Inited(c)
    && !Holds(s.threads[w], c) && (s.threads[w].now.Tearing? ==> s.threads[w].now.sid != c)
  }

  /** Calls left for the event a worker has come to. */
  function Left(now: Phase): nat {
    match now
    case Idle => 0
    case Tearing(_, done) => if done < 2 then 3 - done else 1
    case Failed(_) => 4
    case Reading(_) => 5
  }

  /** What the worker does next if the key it reads is the socket: it fails
      every read, skips the batch up to session `i`, and removes by the socket
      number of the session at hand. */
  function LateStep(s: State, w: nat, i: nat): Step
    requires WellFormed(s) && IsWorker(s, w) && Holds(s.threads[w], i)
  {
    match s.threads[w].now
    case Idle => if s.threads[w].queue[0] == i then DoNext(w) else DoSkip(w)
    case Reading(_) => DoReadFailed(w)
    case Failed(j) => DoRemove(w, s.sessions[j].sock)
    case Tearing(_, _) => DoAdvance(w, true)
  }

  lemma LateRemoves(s: State, w: nat, i: nat, c: nat)
    requires Late(s, w, i, c) && s.threads[w].now.Failed?
    ensures var s' := Apply(s, LateStep(s, w, i));
      EntryLost(s', c) ||
      (Late(s', w, i, c) && s'.threads[w].queue == s.threads[w].queue
       && Left(s'.threads[w].now) < Left(s.threads[w].now))
  {
    ApplyWellFormed(s, LateStep(s, w, i));
  }

  lemma LateAdvances(s: State, w: nat, i: nat, c: nat)
    requires Late(s, w, i, c) && s.threads[w].now.Tearing?
    ensures var s' := Apply(s, LateStep(s, w, i));
      Late(s', w, i, c) && s'.threads[w].queue == s.threads[w].queue && Left(s'.threads[w].now) < Left(s.threads[w].now)
  {
    ApplyWellFormed(s, LateStep(s, w, i));
  }

  /** One such step brings the worker closer, or does the damage. */
  lemma LateStepFurther(s: State, w: nat, i: nat, c: nat)
    requires Late(s, w, i, c)
    ensures var st := LateStep(s, w, i);
      var t := s.threads[w];
      && Enabled(s, st) && ByWorker(st, w)
      && (EntryLost(Apply(s, st), c) ||
          (var t' := Apply(s, st).threads[w];
           && Late(Apply(s, st), w, i, c)
           && (|t'.queue| < |t.queue| || (t'.queue == t.queue && Left(t'.now) < Left(t.now)))))
  {
    var st := LateStep(s, w, i);
    var t := s.threads[w];
    if t.now.Failed? {
      LateRemoves(s, w, i, c);
    } else if t.now.Tearing? {
      LateAdvances(s, w, i, c);
    } else {
      assert t.now.Idle? ==> t.queue == [t.queue[0]] + t.queue[1..];
      ApplyWellFormed(s, st);
    }
  }

  /** With the socket as the key, a worker that is late with session `i` erases,
      by its own steps alone, the entry of the new session on the same number. */
  lemma {:induction false} LateWorkerErases(s: State, w: nat, i: nat, c: nat) returns (steps: seq<Step>)
    requires Late(s, w, i, c)
    ensures Possible(s, steps) && EntryLost(Final(s, steps), c)
    ensures forall st :: st in steps ==> ByWorker(st, w)
    decreases |s.threads[w].queue|, Left(s.threads[w].now)
  {
    hide Possible, Final, Late, LateStep, Apply, Enabled, EntryLost, WellFormed;
    var st, s' := LateNext(s, w, i, c);
    if EntryLost(s', c) {
      One(s, st);
      steps := [st];
    } else {
      var more := LateWorkerErases(s', w, i, c);
      Prepend(s, st, more);
      steps := [st] + more;
    }
  }

  lemma LateNext(s: State, w: nat, i: nat, c: nat) returns (st: Step, s': State)
    requires Late(s, w, i, c)
    ensures WellFormed(s) && Enabled(s, st) && ByWorker(st, w) && s' == Apply(s, st)
    ensures IsWorker(s, w)
    ensures EntryLost(s', c) ||
      (Late(s', w, i, c) && IsWorker(s', w) &&
       (|s'.threads[w].queue| < |s.threads[w].queue|
        || (s'.threads[w].queue == s.threads[w].queue && Left(s'.threads[w].now) < Left(s.threads[w].now))))
  {
    LateStepFurther(s, w, i, c);
    st := LateStep(s, w, i);
    s' := Apply(s, st);
  }

  lemma UnguardedAddMakesLate(s: State) returns (w: nat, i: nat)
    requires Inv(s) && Enabled(s, DoAdd) && !Guard(s, DoAdd)
    ensures Late(Apply(s, DoAdd), w, i, s.acceptor.sid)
  {
    var c := s.acceptor.sid;
    i :| 0 <= i < |s.sessions| && Held(s, i) && s.sessions[i].sock == s.sessions[c].sock;
    w :| 0 <= w < |s.threads| && Holds(s.threads[w], i);
    assert SessionOk(s, i) && SessionOk(s, c) && ThreadOk(s, s.threads[w], Worker(w));
    ApplyWellFormed(s, DoAdd);
  }

  /** The converse of the promises: after a guarded run, a step without its
      guard breaks one; at once, or, if it is the entering of a socket number
      that a worker is late with, through that worker's own further steps. */
  lemma UnguardedStepBreaksPromise(n: nat, steps: seq<Step>, st: Step) returns (w: nat, more: seq<Step>)
    requires Possible(Start(n), steps) && Guarded(Start(n), steps)
    requires Enabled(Final(Start(n), steps), st) && !Guard(Final(Start(n), steps), st)
    ensures var s := Apply(Final(Start(n), steps), st);
      && Possible(s, more) && !Promises(Final(s, more))
      && (forall m :: m in more ==> ByWorker(m, w))
      && (!st.DoAdd? ==> more == [])
  {
    hide Inv, Possible, Final, ExclusionHolds, TeardownHolds, NoneLost, Balanced;
    StartIsGood(n);
    RunIsGood(Start(n), steps);
    var s := Final(Start(n), steps);
    ApplyWellFormed(s, st);
    Stop(Apply(s, st));
    w, more := 0, [];
    match st
    case DoAdd =>
      var i;
      w, i := UnguardedAddMakesLate(s);
      more := LateWorkerErases(Apply(s, st), w, i, s.acceptor.sid);
      LostEntryBreaks(Final(Apply(s, st), more), s.acceptor.sid);
    case DoArm(ok) => UnguardedAbortBreaksTeardown(s, st);
    case DoPost(ok) => if ok { UnguardedPostBreaksExclusion(s); } else { UnguardedAbortBreaksTeardown(s, st); }
    case DoRemove(v, key) => UnguardedRemoveBreaksTeardown(s, v, key);
  }

  lemma LostEntryBreaks(s: State, c: nat)
    requires EntryLost(s, c)
    ensures !TeardownHolds(s)
  {
  }
}
