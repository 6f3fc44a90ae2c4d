/** Laws of single steps of EventOwnership that the promises leave open, and what
    they come to over whole runs: registrations and who still sees them, sessions
    given up, the calls of each teardown, and that nobody waits for anybody. */
module OwnershipLaws {
  import opened EventOwnership
  import opened OwnershipInvariant
  import opened Ownership
  import opened OwnershipRuns
  import opened Counterexamples

  // ------------------------------------------------------------------
  // A registration lives until it is taken back or the socket closes

  /** While the reaper takes an armed session down, a worker at rest can still be
      handed its event after the deregistration exactly if that failed, and not
      after the finalise. */
  lemma ReaperDeregistration(s: State, v: nat, ok: bool, ok': bool)
    requires WellFormed(s) && s.reaper.Reaping? && s.reaper.done == 0 && s.sessions[s.reaper.sid].armed
    requires IsWorker(s, v) && AtRest(s.threads[v])
    ensures var fetch := DoFetch(v, [s.reaper.sid]);
      var s1 := Apply(s, DoReapAdvance(ok));
      && WellFormed(s1) && (Enabled(s1, fetch) <==> !ok)
      && Enabled(s1, DoReapAdvance(ok'))
      && (var s2 := Apply(s1, DoReapAdvance(ok')); WellFormed(s2) && !Enabled(s2, fetch))
  {
    ApplyWellFormed(s, DoReapAdvance(ok));
    ApplyWellFormed(Apply(s, DoReapAdvance(ok)), DoReapAdvance(ok'));
    var sids := [s.reaper.sid];
    assert sids[0] == s.reaper.sid;
  }

  /** The same for a worker's teardown, seen by another worker. */
  lemma WorkerDeregistration(s: State, w: nat, v: nat, ok: bool, ok': bool)
    requires WellFormed(s) && IsWorker(s, w) && s.threads[w].now.Tearing? && s.threads[w].now.done == 0
    requires s.sessions[s.threads[w].now.sid].armed && IsWorker(s, v) && v != w && AtRest(s.threads[v])
    ensures var fetch := DoFetch(v, [s.threads[w].now.sid]);
      var s1 := Apply(s, DoAdvance(w, ok));
      && WellFormed(s1) && (Enabled(s1, fetch) <==> !ok)
      && Enabled(s1, DoAdvance(w, ok'))
      && (var s2 := Apply(s1, DoAdvance(w, ok')); WellFormed(s2) && !Enabled(s2, fetch))
  {
    ApplyWellFormed(s, DoAdvance(w, ok));
    ApplyWellFormed(Apply(s, DoAdvance(w, ok)), DoAdvance(w, ok'));
    var sids := [s.threads[w].now.sid];
    assert sids[0] == s.threads[w].now.sid;
  }

  predicate NotGone(h: seq<Act>) {
    forall k :: 0 <= k < |h| ==> !h[k].Finalise? && !h[k].Delete?
  }

  predicate RegistrationOk(x: SessionRecord) {
    (x.open <==> NotGone(x.hist)) && (x.registered ==> x.open) && (x.armed ==> x.registered)
  }

  /** Open until finalised or deleted, registered only while open, armed only
      while registered; whoever is about to delete has closed. */
  predicate RegistrationsOk(s: State)
    requires WellFormed(s)
  {
    && (forall i :: 0 <= i < |s.sessions| ==> RegistrationOk(s.sessions[i]))
    && (forall w :: 0 <= w < |s.threads| && s.threads[w].now.Tearing? && s.threads[w].now.done >= 2 ==>
          !s.sessions[s.threads[w].now.sid].open)
    && (s.reaper.Reaping? && s.reaper.done >= 2 ==> !s.sessions[s.reaper.sid].open)
  }

  lemma NotGoneSnoc(h: seq<Act>, tail: seq<Act>)
    ensures NotGone(h + tail) <==> NotGone(h) && NotGone(tail)
  {
    if NotGone(h + tail) {
      forall k | 0 <= k < |h| ensures !h[k].Finalise? && !h[k].Delete? { assert (h + tail)[k] == h[k]; }
      forall k | 0 <= k < |tail| ensures !tail[k].Finalise? && !tail[k].Delete? {
        assert (h + tail)[|h| + k] == tail[k];
      }
    }
  }

  lemma TornByKeeps(x: SessionRecord, who: Actor, done: nat, ok: bool)
    requires RegistrationOk(x) && (done >= 2 ==> !x.open)
    ensures RegistrationOk(TornBy(x, who, done, ok))
    ensures done >= 1 ==> !TornBy(x, who, done, ok).open
    ensures TornBy(x, who, done, ok).open ==> x.open
  {
    NotGoneSnoc(x.hist, [Deregister(who)]);
    NotGoneSnoc(x.hist, [Finalise(who)]);
    NotGoneSnoc(x.hist, [Delete(who)]);
    assert [Finalise(who)][0].Finalise? && [Delete(who)][0].Delete?;
  }

  /** What one step leaves of one session that was there before. */
  lemma RecordKeeps(s: State, st: Step, i: nat)
    requires WellFormed(s) && RegistrationsOk(s) && Enabled(s, st) && i < |s.sessions|
    ensures WellFormed(Apply(s, st)) && i < |Apply(s, st).sessions|
    ensures var y := Apply(s, st).sessions[i];
      RegistrationOk(y) && (y.open ==> s.sessions[i].open)
  {
    hide NotGone, TornBy;
    ApplyWellFormed(s, st);
    var x := s.sessions[i];
    match st
    case DoAdvance(w, ok) => if s.threads[w].now.sid == i { TornByKeeps(x, Worker(w), s.threads[w].now.done, ok); }
    case DoReapAdvance(ok) => if s.reaper.sid == i { TornByKeeps(x, Reaper, s.reaper.done, ok); }
    case DoRemove(w, key) => EraseStays(x.hist, Worker(w)); DeleteGoes(x.hist, Worker(w));
    case DoReap(_) => EraseStays(x.hist, Reaper);
    case DoShutdown(_) => FinaliseGoes(x.hist, Manager);
    case DoArm(ok) => if !ok && s.acceptor.sid == i { AbortGoes(s, []); }
    case DoPost(ok) => if !ok && s.acceptor.sid == i { AbortGoes(s, [Deregister(Acceptor)]); }
    case _ =>
  }

  lemma EraseStays(h: seq<Act>, who: Actor)
    ensures NotGone(h + [Erase(who)]) <==> NotGone(h)
  {
    NotGoneSnoc(h, [Erase(who)]);
  }

  lemma DeleteGoes(h: seq<Act>, who: Actor)
    ensures !NotGone(h + [Delete(who)])
  {
    NotGoneSnoc(h, [Delete(who)]);
    assert [Delete(who)][0].Delete?;
  }

  lemma FinaliseGoes(h: seq<Act>, who: Actor)
    ensures !NotGone(h + [Finalise(who), Delete(who)])
  {
    NotGoneSnoc(h, [Finalise(who), Delete(who)]);
    assert [Finalise(who), Delete(who)][0].Finalise?;
  }

  lemma AbortGoes(s: State, first: seq<Act>)
    requires WellFormed(s) && !s.acceptor.Waiting?
    ensures !NotGone(Aborted(s, first).sessions[s.acceptor.sid].hist)
  {
    var x := s.sessions[s.acceptor.sid];
    var erased := if x.sock in s.table then [Erase(Acceptor)] else [];
    FinaliseGoes(x.hist + first + erased, Acceptor);
  }

  lemma RegistrationsKeep(s: State, st: Step)
    requires WellFormed(s) && RegistrationsOk(s) && Enabled(s, st)
    ensures WellFormed(Apply(s, st)) && RegistrationsOk(Apply(s, st))
  {
    ApplyWellFormed(s, st);
    forall i | 0 <= i < |s.sessions|
      ensures RegistrationOk(Apply(s, st).sessions[i]) && (Apply(s, st).sessions[i].open ==> s.sessions[i].open)
    {
      RecordKeeps(s, st, i);
    }
    ClosersKeep(s, st);
  }

  lemma ClosersKeep(s: State, st: Step)
    requires WellFormed(s) && RegistrationsOk(s) && Enabled(s, st) && WellFormed(Apply(s, st))
    requires forall i :: 0 <= i < |s.sessions| ==>
      RegistrationOk(Apply(s, st).sessions[i]) && (Apply(s, st).sessions[i].open ==> s.sessions[i].open)
    ensures RegistrationsOk(Apply(s, st))
  {
    hide RegistrationOk;
    assert st.DoInit? ==> RegistrationOk(Apply(s, st).sessions[|s.sessions|]) by { NewIsOk(s, st); }
  }

  lemma NewIsOk(s: State, st: Step)
    requires WellFormed(s) && Enabled(s, st)
    ensures st.DoInit? ==> RegistrationOk(Apply(s, st).sessions[|s.sessions|])
  {
  }

  lemma {:induction false} RegistrationsOverRuns(s: State, steps: seq<Step>)
    requires WellFormed(s) && RegistrationsOk(s) && Possible(s, steps)
    ensures RegistrationsOk(Final(s, steps))
    decreases |steps|
  {
    hide RegistrationsOk, Enabled, Apply, WellFormed;
    if steps != [] {
      FirstIsPossible(s, steps);
      RegistrationsKeep(s, steps[0]);
      RegistrationsOverRuns(Apply(s, steps[0]), steps[1..]);
    }
  }

  /** In every run, guarded or not, a session that was finalised or deleted is
      closed and unarmed, and no worker is ever handed an event of it again. */
  lemma {:induction false} GoneIsNeverReported(n: nat, steps: seq<Step>, sid: nat, v: nat, sids: seq<nat>)
    requires Possible(Start(n), steps) && sid < |Final(Start(n), steps).sessions| && sid in sids
    requires !NotGone(Final(Start(n), steps).sessions[sid].hist)
    ensures var s := Final(Start(n), steps);
      !s.sessions[sid].open && !s.sessions[sid].registered && !s.sessions[sid].armed && !Enabled(s, DoFetch(v, sids))
  {
    RegistrationsOverRuns(Start(n), steps);
    var s := Final(Start(n), steps);
    assert RegistrationOk(s.sessions[sid]);
    var k :| 0 <= k < |sids| && sids[k] == sid;
  }

  /** A run in which a session is handed to a worker between a deregistration that
      fails and the finalise. */
  function FailedDeregistration(): seq<Step> {
    AcceptSteps(5) + [DoPost(true)] + [DoReap(5)] + [DoReapAdvance(false)] + [DoFetch(0, [0])] + [DoReapAdvance(true)]
  }

  /** The session on socket 5, `done` reaper calls after the erase. */
  function Reaping5(open: bool, armed: bool, t: Thread, done: nat): State {
    State([SessionRecord(5, open, open, armed, false, Torn(Reaper, done))], map[], [t],
          Reaping(0, done), Waiting, 1, if open then 0 else 1)
  }

  lemma Reaping5Steps()
    ensures Leads(Single(Known(5, true), REST, Waiting), DoReap(5), Reaping5(true, true, REST, 0))
    ensures Leads(Reaping5(true, true, REST, 0), DoReapAdvance(false), Reaping5(true, true, REST, 1))
  {
    assert Single(Known(5, true), REST, Waiting).table - {5} == map[];
    assert [] + [Erase(Reaper)] == Torn(Reaper, 0) && Torn(Reaper, 0) + [Deregister(Reaper)] == Torn(Reaper, 1);
  }

  lemma Reaping5Fetched()
    ensures Leads(Reaping5(true, true, REST, 1), DoFetch(0, [0]), Reaping5(true, false, GOT, 1))
    ensures Leads(Reaping5(true, false, GOT, 1), DoReapAdvance(true), Reaping5(false, false, GOT, 2))
  {
    var s := Reaping5(true, true, REST, 1);
    assert Apply(s, DoFetch(0, [0])).sessions == Reaping5(true, false, GOT, 1).sessions;
    assert Torn(Reaper, 1) + [Finalise(Reaper)] == Torn(Reaper, 2);
  }

  lemma FetchedBeforeFinalise()
    ensures Possible(Start(1), FailedDeregistration())
    ensures Final(Start(1), FailedDeregistration()) == Reaping5(false, false, GOT, 2)
  {
    hide Possible, Final, Apply, Enabled, WellFormed;
    StartAccepted();
    Reaping5Steps();
    Reaping5Fetched();
    hide Leads, Single, Reaping5;
    var run := AcceptSteps(5) + [DoPost(true)];
    LeadsOn(Start(1), run, Single(Known(5, true), REST, Waiting), DoReap(5), Reaping5(true, true, REST, 0));
    run := run + [DoReap(5)];
    LeadsOn(Start(1), run, Reaping5(true, true, REST, 0), DoReapAdvance(false), Reaping5(true, true, REST, 1));
    run := run + [DoReapAdvance(false)];
    LeadsOn(Start(1), run, Reaping5(true, true, REST, 1), DoFetch(0, [0]), Reaping5(true, false, GOT, 1));
    run := run + [DoFetch(0, [0])];
    LeadsOn(Start(1), run, Reaping5(true, false, GOT, 1), DoReapAdvance(true), Reaping5(false, false, GOT, 2));
  }

  // ------------------------------------------------------------------
  // The calls of each teardown

  /** In every state of a guarded run, a session that was deleted has one of these
      histories behind it, by who took it down. */
  lemma DeletedHistories(n: nat, steps: seq<Step>, sid: nat, k: nat)
    requires Possible(Start(n), steps) && Guarded(Start(n), steps) && sid < |Final(Start(n), steps).sessions|
    requires k < |Final(Start(n), steps).sessions[sid].hist| && Final(Start(n), steps).sessions[sid].hist[k].Delete?
    ensures var h := Final(Start(n), steps).sessions[sid].hist;
      var who := h[0].who;
      match who
      case Worker(_) => h == [Erase(who), Deregister(who), Finalise(who), Delete(who)]
      case Reaper => h == [Erase(who), Deregister(who), Finalise(who), Delete(who)]
      case Manager => h == [Finalise(who), Delete(who)]
      case Acceptor =>
        h == [Erase(who), Finalise(who), Delete(who)] || h == [Deregister(who), Erase(who), Finalise(who), Delete(who)]
  {
    StartIsGood(n);
    RunIsGood(Start(n), steps);
    hide Possible, Final, Guarded;
    var s := Final(Start(n), steps);
    assert SessionOk(s, sid);
  }

  /** What the acceptor calls when a registration fails while the session is
      listed: no deregistration if there was nothing to take back. */
  lemma AbortCalls(s: State, st: Step)
    requires Inv(s) && (st == DoArm(false) || st == DoPost(false)) && Enabled(s, st) && Listed(s, s.acceptor.sid)
    ensures Apply(s, st).sessions[s.acceptor.sid].hist ==
      if st == DoArm(false) then [Erase(Acceptor), Finalise(Acceptor), Delete(Acceptor)]
      else [Deregister(Acceptor), Erase(Acceptor), Finalise(Acceptor), Delete(Acceptor)]
    ensures s.acceptor.sid !in Apply(s, st).table.Values
  {
    assert SessionOk(s, s.acceptor.sid);
    var s' := Apply(s, st);
    AbortKeeps(s, st);
    forall k | k in s'.table ensures s'.table[k] != s.acceptor.sid {
      assert s'.sessions[s'.table[k]].hist == [];
    }
  }

  // ------------------------------------------------------------------
  // Sessions given up

  /** A hang-up or error event, and a removal that finds nothing, leave the session
      unarmed and parked. */
  lemma GivenUpIsParked(s: State, st: Step)
    requires Inv(s) && Enabled(s, st) && Guard(s, st)
    requires st.DoSkip? || (st.DoRemove? && st.key !in s.table)
    ensures var sid := if st.DoSkip? then s.threads[st.w].queue[0] else s.threads[st.w].now.sid;
      && sid < |s.sessions| && Apply(s, st).sessions[sid].parked && !Apply(s, st).sessions[sid].armed
      && Apply(s, st).sessions[sid].hist == s.sessions[sid].hist && Apply(s, st).table == s.table
  {
    HeldAlone(s, st.w, if st.DoSkip? then s.threads[st.w].queue[0] else s.threads[st.w].now.sid);
  }

  /** A parked session that the acceptor is done with. */
  predicate LeftParked(s: State, sid: nat) {
    && sid < |s.sessions| && s.sessions[sid].parked && !s.sessions[sid].armed
    && (!s.acceptor.Waiting? ==> s.acceptor.sid != sid)
  }

  lemma ParkedStays(s: State, st: Step, sid: nat)
    requires Inv(s) && Enabled(s, st) && LeftParked(s, sid)
    ensures LeftParked(Apply(s, st), sid) && (st.DoFetch? ==> sid !in st.sids)
  {
    hide Complete, Torn, NotFinalised, SocketsOk, TableOk, CountsOk, Exclusive, HistoryOk;
    assert SessionOk(s, sid);
    if st.DoReadDone? {
      HeldAlone(s, st.w, s.threads[st.w].now.sid);
    }
  }

  ghost predicate NeverFetched(s: State, steps: seq<Step>, sid: nat)
    requires Possible(s, steps)
    decreases |steps|
  {
    steps == [] ||
    ((steps[0].DoFetch? ==> sid !in steps[0].sids) && NeverFetched(Apply(s, steps[0]), steps[1..], sid))
  }

  /** Such a session is never read again: over every guarded run it stays parked,
      and no worker is handed it, until somebody takes it down. */
  lemma {:induction false} ParkedIsNeverRead(s: State, steps: seq<Step>, sid: nat)
    requires Inv(s) && Possible(s, steps) && Guarded(s, steps) && LeftParked(s, sid)
    ensures NeverFetched(s, steps, sid) && LeftParked(Final(s, steps), sid)
    decreases |steps|
  {
    hide Inv, Guard, Enabled, WellFormed, LeftParked, Apply;
    if steps != [] {
      FirstIsPossible(s, steps);
      ParkedStays(s, steps[0], sid);
      StepSafeIff(s, steps[0]);
      ParkedIsNeverRead(Apply(s, steps[0]), steps[1..], sid);
    }
  }

  // ------------------------------------------------------------------
  // Nobody waits for anybody

  /** The sweep can take any listed session whenever the reaper is at rest, and go
      on whenever it is not; a worker can be handed any batch of armed sessions
      when it is at rest, and whatever its read and its calls come to, it can go
      on when it is not; no other thread's state matters. */
  lemma NobodyWaits(s: State, w: nat, sids: seq<nat>, key: int)
    requires WellFormed(s)
    ensures s.reaper.Resting? && key in s.table ==> Enabled(s, DoReap(key))
    ensures s.reaper.Reaping? ==> Enabled(s, DoReapAdvance(true)) && Enabled(s, DoReapAdvance(false))
    ensures IsWorker(s, w) ==>
      match s.threads[w].now
      case Idle => s.threads[w].queue != [] ==> Enabled(s, DoNext(w)) && Enabled(s, DoSkip(w))
      case Reading(sid) => Enabled(s, DoReadFailed(w)) && (s.sessions[sid].registered ==> Enabled(s, DoReadDone(w)))
      case Failed(_) => Enabled(s, DoRemove(w, key))
      case Tearing(_, _) => Enabled(s, DoAdvance(w, true)) && Enabled(s, DoAdvance(w, false))
    ensures IsWorker(s, w) && AtRest(s.threads[w]) && 0 < |sids| <= 1000 && Distinct(sids) &&
            (forall k :: 0 <= k < |sids| ==> sids[k] < |s.sessions| && s.sessions[sids[k]].armed) ==>
              Enabled(s, DoFetch(w, sids))
    ensures match s.acceptor
      case Waiting =>
        (forall i :: 0 <= i < |s.sessions| && s.sessions[i].open ==> s.sessions[i].sock != key) ==>
          Enabled(s, DoInit(key))
      case Inited(_) => Enabled(s, DoAdd)
      case Added(sid) => Enabled(s, DoArm(false)) && (s.sessions[sid].open ==> Enabled(s, DoArm(true)))
      case Armed(sid) => Enabled(s, DoPost(false)) && (s.sessions[sid].registered ==> Enabled(s, DoPost(true)))
  {
  }

  /** map::insert: entering a session displaces no entry. */
  lemma AddDisplacesNothing(s: State)
    requires WellFormed(s) && Enabled(s, DoAdd)
    ensures var s' := Apply(s, DoAdd);
      var sock := s.sessions[s.acceptor.sid].sock;
      && (forall k :: k in s.table ==> k in s'.table && s'.table[k] == s.table[k])
      && (forall k :: k in s'.table && k !in s.table ==> k == sock && s'.table[k] == s.acceptor.sid)
      && sock in s'.table
  {
  }
}
