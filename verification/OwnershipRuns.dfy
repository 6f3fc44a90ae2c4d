/** Runs of the transition system: what the reaper's sweep and manager shutdown
    amount to. */
module OwnershipRuns {
  import opened EventOwnership
  import opened OwnershipInvariant
  import opened Ownership
  import M = SessionMgr

  // ------------------------------------------------------------------
  // The sweep and the shutdown as runs

  /** A session after the teardown `calls`, which close its socket. */
  function TornDown(x: SessionRecord, calls: seq<Act>): SessionRecord {
    x.(hist := x.hist + calls, open := false, registered := false, armed := false)
  }

  /** The session listed under `sock` taken off the table and down. */
  function TakenDown(s: State, sock: int, calls: seq<Act>): State
    requires WellFormed(s) && sock in s.table
  {
    var sid := s.table[sock];
    s.(sessions := s.sessions[sid := TornDown(s.sessions[sid], calls)], table := s.table - {sock},
       disconnects := s.disconnects + 1)
  }

  function ReapSteps(sock: int, ok: bool): seq<Step> {
    [DoReap(sock), DoReapAdvance(ok), DoReapAdvance(true), DoReapAdvance(true)]
  }

  lemma ReapRun(s: State, sock: int, ok: bool)
    requires WellFormed(s) && s.reaper.Resting? && sock in s.table
    ensures Possible(s, ReapSteps(sock, ok)) && Guarded(s, ReapSteps(sock, ok))
    ensures Final(s, ReapSteps(sock, ok)) == TakenDown(s, sock, Torn(Reaper, 3))
  {
    hide Possible, Final, Guarded, Apply, Enabled, WellFormed, TakenDown, Torn;
    var s1, s2, s3 := ReapStates(s, sock, ok);
    var go, go' := DoReapAdvance(ok), DoReapAdvance(true);
    One(s3, go');
    Prepend(s2, go', [go']);
    Prepend(s1, go, [go'] + [go']);
    Prepend(s, DoReap(sock), [go] + ([go'] + [go']));
    assert ReapSteps(sock, ok) == [DoReap(sock)] + ([go] + ([go'] + [go']));
  }

  lemma ReapStates(s: State, sock: int, ok: bool) returns (s1: State, s2: State, s3: State)
    requires WellFormed(s) && s.reaper.Resting? && sock in s.table
    ensures var go, go' := DoReapAdvance(ok), DoReapAdvance(true);
      && Enabled(s, DoReap(sock)) && s1 == Apply(s, DoReap(sock))
      && WellFormed(s1) && Enabled(s1, go) && s2 == Apply(s1, go)
      && WellFormed(s2) && Enabled(s2, go') && s3 == Apply(s2, go')
      && WellFormed(s3) && Enabled(s3, go') && Apply(s3, go') == TakenDown(s, sock, Torn(Reaper, 3))
  {
    var go, go' := DoReapAdvance(ok), DoReapAdvance(true);
    s1 := Apply(s, DoReap(sock));
    ApplyWellFormed(s, DoReap(sock));
    s2 := Apply(s1, go);
    ApplyWellFormed(s1, go);
    s3 := Apply(s2, go');
    ApplyWellFormed(s2, go');
    var x := s.sessions[s.table[sock]];
    assert x.hist + [Erase(Reaper)] + [Deregister(Reaper)] + [Finalise(Reaper)] + [Delete(Reaper)]
        == x.hist + Torn(Reaper, 3);
  }

  /** The calls of one sweep, read as steps: `ok(k)` says whether the
      deregistration for key k succeeds. */
  function SweepSteps(deeds: seq<M.Deed>, ok: int -> bool): seq<Step> {
    if deeds == [] then [] else
    var d := deeds[|deeds| - 1];
    SweepSteps(deeds[..|deeds| - 1], ok) +
    [match d.act
     case Erase(_) => DoReap(d.socket)
     case Deregister(_) => DoReapAdvance(ok(d.socket))
     case _ => DoReapAdvance(true)]
  }

  lemma SweepStepsOfOne(deeds: seq<M.Deed>, k: int, ok: int -> bool)
    ensures SweepSteps(deeds + M.ReapCalls(k), ok)
         == SweepSteps(deeds, ok) + ReapSteps(k, ok(k))
  {
    var d1 := deeds + [M.Deed(k, Erase(Reaper))];
    var d2 := d1 + [M.Deed(k, Deregister(Reaper))];
    var d3 := d2 + [M.Deed(k, Finalise(Reaper))];
    var d4 := d3 + [M.Deed(k, Delete(Reaper))];
    assert d1[..|d1| - 1] == deeds && d2[..|d2| - 1] == d1 && d3[..|d3| - 1] == d2 && d4[..|d4| - 1] == d3;
    assert d4 == deeds + M.ReapCalls(k);
    assert SweepSteps(d1, ok) == SweepSteps(deeds, ok) + [DoReap(k)];
    assert SweepSteps(d2, ok) == SweepSteps(d1, ok) + [DoReapAdvance(ok(k))];
    assert SweepSteps(d3, ok) == SweepSteps(d2, ok) + [DoReapAdvance(true)];
    assert SweepSteps(d4, ok) == SweepSteps(d3, ok) + [DoReapAdvance(true)];
  }

  /** The sessions listed under `keys` taken off the table, each with one whole
      teardown, and nothing else touched. */
  ghost predicate AllTakenDown(s: State, keys: seq<int>, calls: seq<Act>, s': State)
    requires WellFormed(s)
  {
    && WellFormed(s') && s'.threads == s.threads && s'.acceptor == s.acceptor && s'.reaper == s.reaper
    && s'.table == s.table - (set k | k in keys)
    && s'.disconnects == s.disconnects + |keys| && s'.connects == s.connects
    && |s'.sessions| == |s.sessions|
    && (forall i :: 0 <= i < |s.sessions| ==>
          s'.sessions[i] == if s.sessions[i].sock in keys && Listed(s, i) then TornDown(s.sessions[i], calls)
                            else s.sessions[i])
  }

  lemma NoneTakenDown(s: State, calls: seq<Act>)
    requires WellFormed(s)
    ensures AllTakenDown(s, [], calls, s)
  {
    var keys: seq<int> := [];
    assert (set k | k in keys) == {};
  }

  lemma OneMoreTakenDown(s: State, init: seq<int>, k: int, calls: seq<Act>, mid: State)
    requires WellFormed(s) && TableOk(s) && k in s.table && k !in init && AllTakenDown(s, init, calls, mid)
    ensures k in mid.table && AllTakenDown(s, init + [k], calls, TakenDown(mid, k, calls))
  {
    var keys, end := init + [k], TakenDown(mid, k, calls);
    assert forall j :: j in keys <==> j in init || j == k;
    assert (set j | j in keys) == (set j | j in init) + {k};
    var sid := s.table[k];
    assert mid.table[k] == sid;
    forall i | 0 <= i < |s.sessions|
      ensures end.sessions[i] == if s.sessions[i].sock in keys && Listed(s, i) then TornDown(s.sessions[i], calls)
                                 else s.sessions[i]
    {
      assert i == sid <==> s.sessions[i].sock == k && Listed(s, i);
    }
  }

  /** The calls of TcpSessionMgr.Sweep are a guarded run of the reaper, which
      takes exactly the swept sessions down. */
  lemma {:induction false} SweepIsRun(s: State, keys: seq<int>, ok: int -> bool)
    requires WellFormed(s) && TableOk(s) && s.reaper.Resting?
    requires M.Ascending(keys) && forall k :: k in keys ==> k in s.table
    ensures var steps := SweepSteps(M.ReapDeeds(keys), ok);
      Possible(s, steps) && Guarded(s, steps) && AllTakenDown(s, keys, Torn(Reaper, 3), Final(s, steps))
    decreases |keys|
  {
    hide Possible, Final, Guarded;
    if keys == [] {
      Stop(s);
      NoneTakenDown(s, Torn(Reaper, 3));
    } else {
      var n := |keys| - 1;
      var init, k := keys[..n], keys[n];
      assert keys == init + [k] && k in keys;
      SweepIsRun(s, init, ok);
      var before := SweepSteps(M.ReapDeeds(init), ok);
      var mid := Final(s, before);
      OneMoreTakenDown(s, init, k, Torn(Reaper, 3), mid);
      ReapRun(mid, k, ok(k));
      Append(s, before, ReapSteps(k, ok(k)));
      SweepStepsOfOne(M.ReapDeeds(init), k, ok);
    }
  }

  /** The calls of manager shutdown, read as steps: finalise and delete are one
      step, taken at the finalise. */
  function ShutdownSteps(deeds: seq<M.Deed>): seq<Step> {
    if deeds == [] then [] else
    var d := deeds[|deeds| - 1];
    ShutdownSteps(deeds[..|deeds| - 1]) + if d.act.Finalise? then [DoShutdown(d.socket)] else []
  }

  lemma ShutdownStepsOfOne(deeds: seq<M.Deed>, k: int)
    ensures ShutdownSteps(deeds + M.ShutdownCalls(k)) == ShutdownSteps(deeds) + [DoShutdown(k)]
  {
    var d1 := deeds + [M.Deed(k, Finalise(Manager))];
    var d2 := d1 + [M.Deed(k, Delete(Manager))];
    assert d1[..|d1| - 1] == deeds && d2[..|d2| - 1] == d1;
    assert d2 == deeds + M.ShutdownCalls(k);
    assert ShutdownSteps(d1) == ShutdownSteps(deeds) + [DoShutdown(k)];
  }

  lemma ShutdownStep(s: State, k: int)
    requires WellFormed(s) && AllIdle(s) && k in s.table
    ensures Enabled(s, DoShutdown(k)) && Guard(s, DoShutdown(k))
    ensures Apply(s, DoShutdown(k)) == TakenDown(s, k, SHUTDOWN)
  {
  }

  /** The calls of TcpSessionMgr.Fini are guarded shutdown steps, which take
      exactly the listed sessions down. */
  lemma {:induction false} ShutdownIsRun(s: State, keys: seq<int>)
    requires WellFormed(s) && TableOk(s) && AllIdle(s)
    requires M.Ascending(keys) && forall k :: k in keys ==> k in s.table
    ensures var steps := ShutdownSteps(M.ShutdownDeeds(keys));
      Possible(s, steps) && Guarded(s, steps) && AllTakenDown(s, keys, SHUTDOWN, Final(s, steps))
    decreases |keys|
  {
    hide Possible, Final, Guarded, Apply, Enabled, TakenDown;
    if keys == [] {
      Stop(s);
      NoneTakenDown(s, SHUTDOWN);
    } else {
      var n := |keys| - 1;
      var init, k := keys[..n], keys[n];
      assert keys == init + [k] && k in keys;
      ShutdownIsRun(s, init);
      var before := ShutdownSteps(M.ShutdownDeeds(init));
      var mid := Final(s, before);
      OneMoreTakenDown(s, init, k, SHUTDOWN, mid);
      ShutdownStep(mid, k);
      One(mid, DoShutdown(k));
      Append(s, before, [DoShutdown(k)]);
      ShutdownStepsOfOne(M.ShutdownDeeds(init), k);
    }
  }
}
