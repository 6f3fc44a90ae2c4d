/** CTcpSessionMgr: the session table and the heartbeat reaper's sweep. */
module SessionMgr {
  import opened Session
  import opened EventOwnership
  import Heartbeat

  datatype Option<+T> = None | Some(value: T)

  /** A teardown call on the session that was entered under this socket, the
      erasing of its entry first. */
  datatype Deed = Deed(socket: int, act: Act)

  /** The reaper's calls on one session, and the manager's at shutdown, when the
      event modules are gone, so that nothing is deregistered, and the table is
      cleared as a whole. */
  function ReapCalls(k: int): seq<Deed> {
    [Deed(k, Erase(Reaper)), Deed(k, Deregister(Reaper)), Deed(k, Finalise(Reaper)), Deed(k, Delete(Reaper))]
  }

  function ShutdownCalls(k: int): seq<Deed> {
    [Deed(k, Finalise(Manager)), Deed(k, Delete(Manager))]
  }

  predicate Ascending(keys: seq<int>) {
    forall i, j :: 0 <= i < j < |keys| ==> keys[i] < keys[j]
  }

  /** What the reaper does to the sessions under these keys, one after the
      other. */
  function ReapDeeds(keys: seq<int>): seq<Deed> {
    if keys == [] then [] else
    var k := keys[|keys| - 1];
    ReapDeeds(keys[..|keys| - 1]) + ReapCalls(k)
  }

  /** What manager shutdown does, likewise. */
  function ShutdownDeeds(keys: seq<int>): seq<Deed> {
    if keys == [] then [] else
    var k := keys[|keys| - 1];
    ShutdownDeeds(keys[..|keys| - 1]) + ShutdownCalls(k)
  }

  lemma OneMore(was: seq<Deed>, keys: seq<int>, k: int)
    ensures was + ReapDeeds(keys + [k]) == was + ReapDeeds(keys) + ReapCalls(k)
    ensures was + ShutdownDeeds(keys + [k]) == was + ShutdownDeeds(keys) + ShutdownCalls(k)
  {
    assert (keys + [k])[..|keys|] == keys && (keys + [k])[|keys|] == k;
  }

  /** The calls among these that are about the session under key `k`. */
  function ActsOn(deeds: seq<Deed>, k: int): seq<Act> {
    if deeds == [] then [] else
    var d := deeds[|deeds| - 1];
    ActsOn(deeds[..|deeds| - 1], k) + if d.socket == k then [d.act] else []
  }

  lemma {:induction false} ActsAppend(a: seq<Deed>, b: seq<Deed>, k: int)
    ensures ActsOn(a + b, k) == ActsOn(a, k) + ActsOn(b, k)
    decreases |b|
  {
    if b == [] {
      assert a + b == a;
    } else {
      var n := |b| - 1;
      assert (a + b)[..|a + b| - 1] == a + b[..n] && (a + b)[|a + b| - 1] == b[n];
      ActsAppend(a, b[..n], k);
    }
  }

  lemma CallsOnOne(j: int, k: int)
    ensures ActsOn(ReapCalls(j), k) ==
            if j == k then [Erase(Reaper), Deregister(Reaper), Finalise(Reaper), Delete(Reaper)] else []
    ensures ActsOn(ShutdownCalls(j), k) == if j == k then [Finalise(Manager), Delete(Manager)] else []
  {
    var d, e, f := Deed(j, Erase(Reaper)), Deed(j, Deregister(Reaper)), Deed(j, Finalise(Reaper));
    assert ReapCalls(j)[..3] == [d, e, f] && [d, e, f][..2] == [d, e] && [d, e][..1] == [d] && [d][..0] == [];
    assert ActsOn([d], k) == if j == k then [d.act] else [];
    assert ActsOn([d, e], k) == if j == k then [d.act, e.act] else [];
    assert ActsOn([d, e, f], k) == if j == k then [d.act, e.act, f.act] else [];
    var m := Deed(j, Finalise(Manager));
    assert ShutdownCalls(j)[..1] == [m] && [m][..0] == [];
    assert ActsOn([m], k) == if j == k then [m.act] else [];
  }

  /** A sweep erases, deregisters, finalises and deletes each session it takes
      down, in this order and once; a shutdown finalises and deletes; and no
      other session is touched. */
  lemma {:induction false} CallsInOrder(keys: seq<int>, k: int)
    requires Ascending(keys)
    ensures ActsOn(ReapDeeds(keys), k) ==
            if k in keys then [Erase(Reaper), Deregister(Reaper), Finalise(Reaper), Delete(Reaper)] else []
    ensures ActsOn(ShutdownDeeds(keys), k) == if k in keys then [Finalise(Manager), Delete(Manager)] else []
    decreases |keys|
  {
    hide ReapCalls, ShutdownCalls, ActsOn;
    NoCalls(k);
    if keys != [] {
      var n := |keys| - 1;
      var init, j := keys[..n], keys[n];
      CallsInOrder(init, k);
      CallsOnOne(j, k);
      ActsAppend(ReapDeeds(init), ReapCalls(j), k);
      ActsAppend(ShutdownDeeds(init), ShutdownCalls(j), k);
      InitOfAscending(keys, k);
      var reaped, shut := ActsOn(ReapDeeds(init), k), ActsOn(ShutdownDeeds(init), k);
      if k in init {
        assert reaped + [] == reaped && shut + [] == shut;
      } else {
        assert [] + ActsOn(ReapCalls(j), k) == ActsOn(ReapCalls(j), k);
        assert [] + ActsOn(ShutdownCalls(j), k) == ActsOn(ShutdownCalls(j), k);
      }
    }
  }

  lemma NoCalls(k: int)
    ensures ActsOn([], k) == []
  {
  }

  lemma InitOfAscending(keys: seq<int>, k: int)
    requires Ascending(keys) && keys != []
    ensures var n := |keys| - 1;
      && (k in keys <==> k in keys[..n] || k == keys[n])
      && (k in keys[..n] ==> k != keys[n])
  {
    assert keys == keys[..|keys| - 1] + [keys[|keys| - 1]];
  }

  /** An ascending list of keys is determined by which keys it holds. */
  lemma {:induction false} AscendingUnique(xs: seq<int>, ys: seq<int>)
    requires Ascending(xs) && Ascending(ys)
    requires forall k :: k in xs <==> k in ys
    ensures xs == ys
  {
    SameKeysSameEmptiness(xs, ys);
    if xs != [] {
      var m, n := |xs| - 1, |ys| - 1;
      var x, y := xs[m], ys[n];
      assert x in xs && y in ys && x in ys && y in xs;
      forall k ensures k in xs[..m] <==> k in ys[..n] {
        assert k in xs[..m] <==> k in xs && k != xs[m];
        assert k in ys[..n] <==> k in ys && k != ys[n];
      }
      AscendingUnique(xs[..m], ys[..n]);
    }
  }

  lemma SameKeysSameEmptiness(xs: seq<int>, ys: seq<int>)
    requires forall k :: k in xs <==> k in ys
    ensures xs == [] <==> ys == []
  {
    if |xs| > 0 { var x := xs[0]; assert x in xs && x in ys; }
    if |ys| > 0 { var y := ys[0]; assert y in ys && y in xs; }
  }

  /** The keys of a set, in order. */
  ghost predicate Lists(keys: seq<int>, these: set<int>) {
    Ascending(keys) && forall k :: k in keys <==> k in these
  }

  /** A walk over `all` in key order that has passed everything but `ahead` and
      noted, in `noted`, the keys of `chosen` it passed. */
  ghost predicate Walked(all: set<int>, chosen: set<int>, ahead: set<int>, noted: seq<int>) {
    && ahead <= all && chosen <= all && Ascending(noted)
    && (forall i :: 0 <= i < |noted| ==> noted[i] in chosen - ahead)
    && (forall k :: k in chosen - ahead ==> k in noted)
    && (forall k, j :: k in all - ahead && j in ahead ==> k < j)
  }

  lemma WalkStart(all: set<int>, chosen: set<int>)
    requires chosen <= all
    ensures Walked(all, chosen, all, [])
  {
  }

  lemma WalkPast(all: set<int>, chosen: set<int>, ahead: set<int>, noted: seq<int>, key: int)
    requires Walked(all, chosen, ahead, noted) && key in ahead && key !in chosen
    requires forall j :: j in ahead ==> key <= j
    ensures Walked(all, chosen, ahead - {key}, noted)
  {
    assert chosen - (ahead - {key}) == chosen - ahead;
    forall k, j | k in all - (ahead - {key}) && j in ahead - {key} ensures k < j {
      assert j in ahead && (k == key || k in all - ahead);
    }
  }

  lemma WalkNoting(all: set<int>, chosen: set<int>, ahead: set<int>, noted: seq<int>, key: int)
    requires Walked(all, chosen, ahead, noted) && key in ahead && key in chosen
    requires forall j :: j in ahead ==> key <= j
    ensures Walked(all, chosen, ahead - {key}, noted + [key])
  {
    var now := noted + [key];
    assert chosen - (ahead - {key}) == chosen - ahead + {key};
    assert now[|noted|] == key;
    forall k | k in chosen - ahead + {key} ensures k in now {
      assert k == key || k in noted;
    }
    forall k, j | k in all - (ahead - {key}) && j in ahead - {key} ensures k < j {
      assert j in ahead && (k == key || k in all - ahead);
    }
    forall i, j | 0 <= i < j < |now| ensures now[i] < now[j] {
      var k := noted[i];
      assert k in chosen - ahead && k in all - ahead && now[i] == k;
    }
  }

  lemma WalkEnd(all: set<int>, chosen: set<int>, ahead: set<int>, noted: seq<int>)
    requires Walked(all, chosen, ahead, noted) && ahead == {}
    ensures Lists(noted, chosen)
    ensures forall keys :: Lists(keys, chosen) ==> keys == noted
  {
    forall k | k in chosen ensures k in noted {
      assert k in chosen - ahead;
    }
    forall k | k in noted ensures k in chosen {
      var i :| 0 <= i < |noted| && noted[i] == k;
    }
    forall keys | Lists(keys, chosen) ensures keys == noted {
      AscendingUnique(keys, noted);
    }
  }

  lemma SweepCalls(was: seq<Deed>, torn: seq<int>, chosen: set<int>)
    requires Lists(torn, chosen)
    ensures forall k ::
      ActsOn(was + ReapDeeds(torn), k) == ActsOn(was, k) +
      (if k in chosen then [Erase(Reaper), Deregister(Reaper), Finalise(Reaper), Delete(Reaper)] else [])
    ensures forall k ::
      ActsOn(was + ShutdownDeeds(torn), k) == ActsOn(was, k) +
      (if k in chosen then [Finalise(Manager), Delete(Manager)] else [])
  {
    hide ReapDeeds, ShutdownDeeds, ActsOn;
    forall k
      ensures ActsOn(was + ReapDeeds(torn), k) == ActsOn(was, k) +
        if k in chosen then [Erase(Reaper), Deregister(Reaper), Finalise(Reaper), Delete(Reaper)] else []
      ensures ActsOn(was + ShutdownDeeds(torn), k) == ActsOn(was, k) +
        if k in chosen then [Finalise(Manager), Delete(Manager)] else []
    {
      CallsInOrder(torn, k);
      ActsAppend(was, ReapDeeds(torn), k);
      ActsAppend(was, ShutdownDeeds(torn), k);
      assert k in torn <==> k in chosen;
    }
  }

  /** The table without the chosen keys passed so far, one key further. */
  lemma LeftFurther<T>(table: map<int, T>, chosen: set<int>, ahead: set<int>, key: int)
    requires key in ahead
    ensures table - (chosen - (ahead - {key}))
            == if key in chosen then table - (chosen - ahead) - {key} else table - (chosen - ahead)
  {
    assert chosen - (ahead - {key}) == if key in chosen then chosen - ahead + {key} else chosen - ahead;
  }

  /** The keys an iterator has not passed: those from its own on. */
  ghost function From(it: Option<int>, keys: set<int>): set<int> {
    set k | k in keys && it.Some? && it.value <= k
  }

  /** Moving the iterator on passes one key; erasing that key then leaves the
      rest ahead. */
  lemma FromFurther(keys: set<int>, key: int, it: Option<int>)
    requires key in keys && IsNext(keys, key, it)
    ensures From(it, keys) == From(Some(key), keys) - {key}
    ensures From(it, keys - {key}) == From(it, keys)
  {
  }

  lemma StandsOn(it: Option<int>, keys: set<int>)
    requires it.Some? ==> it.value in keys
    ensures it.Some? ==> it.value in From(it, keys) && forall j :: j in From(it, keys) ==> it.value <= j
    ensures it.None? ==> From(it, keys) == {}
  {
  }

  ghost predicate IsNext(keys: set<int>, key: int, it: Option<int>) {
    match it
    case None => forall k :: k in keys ==> k <= key
    case Some(next) => next in keys && key < next && forall k :: k in keys && key < k ==> next <= k
  }

  lemma FromBegin(keys: set<int>, it: Option<int>)
    requires it.None? ==> keys == {}
    requires it.Some? ==> it.value in keys && forall k :: k in keys ==> it.value <= k
    ensures From(it, keys) == keys
  {
  }

  method Pick<T>(keys: set<T>) returns (k: T)
    requires keys != {}
    ensures k in keys
  {
    k :| k in keys;
  }

  method Least(keys: set<int>) returns (k: int)
    requires keys != {}
    ensures k in keys && forall j :: j in keys ==> k <= j
  {
    k := Pick(keys);
    var seen, rest := {k}, keys - {k};
    while rest != {}
      invariant seen + rest == keys && k in seen
      invariant forall j :: j in seen ==> k <= j
      decreases rest
    {
      var j := Pick(rest);
      if j < k {
        k := j;
      }
      seen, rest := seen + {j}, rest - {j};
    }
  }

  class TcpSessionMgr {
    var sessions: map<int, TcpSession>   // m_TcpSessions, keyed by socket
    var deeds: seq<Deed>                 // teardown calls, in order

    constructor ()
      ensures sessions == map[] && deeds == []
    {
      sessions, deeds := map[], [];
    }

    /** map::insert: a key already present keeps its session. */
    method AddSession(socket: int, session: TcpSession)
      modifies this`sessions
      ensures sessions == if socket in old(sessions) then old(sessions) else old(sessions)[socket := session]
    {
      if socket !in sessions {
        sessions := sessions[socket := session];
      }
    }

    method DelSession(socket: int) returns (ret: int)
      modifies this`sessions
      ensures ret == if socket in old(sessions) then 0 else -1
      ensures sessions == old(sessions) - {socket}
    {
      if socket !in sessions {
        return -1;
      }
      sessions := sessions - {socket};
      return 0;
    }

    /** The keys whose sessions a sweep finds timed out. */
    ghost function Expired(clock: int -> int): set<int>
      reads this, sessions.Values
    {
      set k | k in sessions && Heartbeat.TimedOut(sessions[k].stamp, clock(k))
    }

    /** begin(). */
    method Begin() returns (it: Option<int>)
      ensures it.None? ==> sessions.Keys == {}
      ensures it.Some? ==> it.value in sessions && forall k :: k in sessions ==> it.value <= k
    {
      if sessions.Keys == {} {
        return None;
      }
      var key := Least(sessions.Keys);
      it := Some(key);
    }

    /** ++it, which only an iterator whose entry is still in the map allows. */
    method Next(key: int) returns (it: Option<int>)
      requires key in sessions
      ensures IsNext(sessions.Keys, key, it)
    {
      var later := set k | k in sessions.Keys && key < k;
      assert forall k :: k in sessions.Keys && key < k ==> k in later;
      if later == {} {
        return None;
      }
      var next := Least(later);
      it := Some(next);
    }

    /** One pass of TcpSessionMgr_HeartbeatDetection, under the table lock:
        `clock(k)` is the time read when key k is visited. The loop erases the
        entry it stands on after moving on. */
    method Sweep(clock: int -> int) returns (torn: seq<int>)
      modifies this
      ensures Lists(torn, old(Expired(clock)))
      ensures forall keys :: Lists(keys, old(Expired(clock))) ==> keys == torn
      ensures sessions == old(sessions - Expired(clock))
      ensures deeds == old(deeds) + ReapDeeds(torn)
      ensures forall k ::
        ActsOn(deeds, k) == ActsOn(old(deeds), k) +
        (if k in old(Expired(clock)) then [Erase(Reaper), Deregister(Reaper), Finalise(Reaper), Delete(Reaper)] else [])
    {
      torn := [];
      ghost var chosen := Expired(clock);
      ghost var table := sessions;
      ghost var was := deeds;
      assert was + ReapDeeds([]) == was;
      hide ReapDeeds, ReapCalls, Walked, From, IsNext, Lists, ActsOn;
      WalkStart(table.Keys, chosen);
      var it := Begin();
      FromBegin(table.Keys, it);
      ghost var ahead := table.Keys;
      while it.Some?
        invariant it.Some? ==> it.value in sessions
        invariant ahead == From(it, sessions.Keys)
        invariant Walked(table.Keys, chosen, ahead, torn)
        invariant ahead <= table.Keys && sessions == table - (chosen - ahead)
        invariant deeds == was + ReapDeeds(torn)
        decreases ahead
      {
        var key := it.value;
        var session := sessions[key];
        StandsOn(it, sessions.Keys);
        LeftFurther(table, chosen, ahead, key);
        assert key in chosen <==> Heartbeat.TimedOut(session.stamp, clock(key));
        it := Next(key);
        FromFurther(sessions.Keys, key, it);
        if Heartbeat.TimedOut(session.stamp, clock(key)) {
          WalkNoting(table.Keys, chosen, ahead, torn, key);
          sessions := sessions - {key};
          OneMore(was, torn, key);
  deeds := deeds + ReapCalls(key);
          torn := torn + [key];
        } else {
          WalkPast(table.Keys, chosen, ahead, torn, key);
        }
        ahead := ahead - {key};
      }
      StandsOn(it, sessions.Keys);
      WalkEnd(table.Keys, chosen, ahead, torn);
      SweepCalls(was, torn, chosen);
      assert chosen == old(Expired(clock)) && was == old(deeds);
    }

    /** The locked part of TcpSessionMgr_Fini. */
    method Fini() returns (torn: seq<int>)
      modifies this
      ensures Lists(torn, old(sessions).Keys)
      ensures sessions == map[]
      ensures deeds == old(deeds) + ShutdownDeeds(torn)
      ensures forall k ::
        ActsOn(deeds, k) == ActsOn(old(deeds), k) +
        (if k in old(sessions) then [Finalise(Manager), Delete(Manager)] else [])
    {
      torn := [];
      ghost var was := deeds;
      assert was + ShutdownDeeds([]) == was;
      hide ShutdownDeeds, ShutdownCalls, Walked, From, IsNext, Lists, ActsOn;
      WalkStart(sessions.Keys, sessions.Keys);
      var it := Begin();
      FromBegin(sessions.Keys, it);
      ghost var ahead := sessions.Keys;
      while it.Some?
        invariant sessions == old(sessions) && (it.Some? ==> it.value in sessions)
        invariant ahead == From(it, sessions.Keys)
        invariant Walked(sessions.Keys, sessions.Keys, ahead, torn)
        invariant deeds == was + ShutdownDeeds(torn)
        decreases ahead
      {
        var key := it.value;
        StandsOn(it, sessions.Keys);
        WalkNoting(sessions.Keys, sessions.Keys, ahead, torn, key);
        OneMore(was, torn, key);
        deeds := deeds + ShutdownCalls(key);
        torn := torn + [key];
        it := Next(key);
        FromFurther(sessions.Keys, key, it);
        ahead := ahead - {key};
      }
      StandsOn(it, sessions.Keys);
      WalkEnd(sessions.Keys, sessions.Keys, ahead, torn);
      SweepCalls(was, torn, sessions.Keys);
      sessions := map[];
    }
  }
}
