/** CNetEventModleEpoll::NetEventModleEpoll_HandleData: one worker working off
    the events epoll_wait returned, on real sessions, while the other threads go
    on; against the steps of EventOwnership. */
module EpollWorker {
  import opened EventOwnership
  import opened OwnershipInvariant
  import opened Ownership
  import opened Session
  import opened Framing

  /** One epoll_event as the worker sees it: `fd` is what data.fd reads as (the
      union also holds the session pointer), `other` whether RDHUP, HUP, ERR or
      PRI is set; then the reads the session will see, and whether epoll takes
      the new registration and the deregistration. EPOLLOUT is never asked
      for. */
  datatype EpollEvent = EpollEvent(fd: int, sid: nat, session: TcpSession, other: bool,
                                   trace: seq<ReadResult>, accepted: bool, delOk: bool)

  function Sids(events: seq<EpollEvent>): seq<nat> {
    seq(|events|, i requires 0 <= i < |events| => events[i].sid)
  }

  /** What became of an event. */
  datatype Fate = Skipped | Rearmed | Missed | TakenDown

  /** The steps the worker takes for it. */
  function Script(w: nat, e: EpollEvent, o: Fate): seq<Step> {
    match o
    case Skipped => [DoSkip(w)]
    case Rearmed => [DoNext(w), DoReadDone(w)]
    case Missed => [DoNext(w), DoReadFailed(w), DoRemove(w, e.fd)]
    case TakenDown => [DoNext(w), DoReadFailed(w), DoRemove(w, e.fd),
                       DoAdvance(w, e.delOk), DoAdvance(w, true), DoAdvance(w, true)]
  }

  function Scripts(w: nat, events: seq<EpollEvent>, fates: seq<Fate>): seq<Step>
    requires |fates| == |events|
  {
    if events == [] then [] else
    var n := |events| - 1;
    Scripts(w, events[..n], fates[..n]) + Script(w, events[n], fates[n])
  }

  /** The steps of a run that worker `w` takes. */
  function Own(steps: seq<Step>, w: nat): seq<Step> {
    if steps == [] then [] else
    var n := |steps| - 1;
    Own(steps[..n], w) + if ByWorker(steps[n], w) then [steps[n]] else []
  }

  lemma {:induction false} OwnAppend(a: seq<Step>, b: seq<Step>, w: nat)
    ensures Own(a + b, w) == Own(a, w) + Own(b, w)
    decreases |b|
  {
    if b == [] {
      assert a + b == a;
    } else {
      var n := |b| - 1;
      assert (a + b)[..|a + b| - 1] == a + b[..n] && (a + b)[|a + b| - 1] == b[n];
      OwnAppend(a, b[..n], w);
    }
  }

  /** `steps` lead from `s` to `s'`, and those of worker `w` among them are
      `own`. */
  ghost predicate Runs(s: State, steps: seq<Step>, s': State, w: nat, own: seq<Step>) {
    Possible(s, steps) && Final(s, steps) == s' && Own(steps, w) == own
  }

  lemma RunsStop(s: State, w: nat)
    requires WellFormed(s)
    ensures Runs(s, [], s, w, [])
  {
  }

  lemma RunsThen(s: State, a: seq<Step>, mid: State, b: seq<Step>, s': State, w: nat, x: seq<Step>, y: seq<Step>)
    requires Runs(s, a, mid, w, x) && Runs(mid, b, s', w, y)
    ensures Runs(s, a + b, s', w, x + y)
  {
    Append(s, a, b);
    OwnAppend(a, b, w);
  }

  /** A run, then one step of the worker itself. */
  lemma RunsOn(s: State, steps: seq<Step>, mid: State, st: Step, w: nat, own: seq<Step>)
    requires Runs(s, steps, mid, w, own) && WellFormed(mid) && Enabled(mid, st) && ByWorker(st, w)
    ensures Runs(s, steps + [st], Apply(mid, st), w, own + [st]) && WellFormed(Apply(mid, st))
  {
    RunsOne(mid, st, w);
    RunsThen(s, steps, mid, [st], Apply(mid, st), w, own, [st]);
  }

  /** A run, then steps of the others. */
  lemma RunsIdly(s: State, a: seq<Step>, mid: State, b: seq<Step>, s': State, w: nat, own: seq<Step>)
    requires Runs(s, a, mid, w, own) && Runs(mid, b, s', w, [])
    ensures Runs(s, a + b, s', w, own)
  {
    RunsThen(s, a, mid, b, s', w, own, []);
    assert own + [] == own;
  }

  lemma RunsOne(s: State, st: Step, w: nat)
    requires WellFormed(s) && Enabled(s, st)
    ensures Runs(s, [st], Apply(s, st), w, if ByWorker(st, w) then [st] else [])
    ensures WellFormed(Apply(s, st))
  {
    One(s, st);
    ApplyWellFormed(s, st);
    assert [st][..0] == [] && Own([], w) == [];
  }

  /** Nobody else moves a worker. */
  lemma OthersLeaveIt(s: State, st: Step, w: nat)
    requires WellFormed(s) && Enabled(s, st) && !ByWorker(st, w) && IsWorker(s, w)
    ensures IsWorker(Apply(s, st), w) && Apply(s, st).threads[w] == s.threads[w]
    ensures |Apply(s, st).sessions| >= |s.sessions|
  {
  }

  lemma TeardownEnabled(s: State, w: nat, ok: bool)
    requires WellFormed(s) && IsWorker(s, w) && s.threads[w].now.Tearing?
    ensures Enabled(s, DoAdvance(w, ok))
    ensures var t, t' := s.threads[w], Apply(s, DoAdvance(w, ok)).threads[w];
      && t'.queue == t.queue
      && t'.now == (if t.now.done < 2 then Tearing(t.now.sid, t.now.done + 1) else Idle)
    ensures |Apply(s, DoAdvance(w, ok)).threads| == |s.threads|
    ensures |Apply(s, DoAdvance(w, ok)).sessions| == |s.sessions|
  {
  }

  lemma RemoveEnabled(s: State, w: nat, key: int)
    requires WellFormed(s) && IsWorker(s, w) && s.threads[w].now.Failed?
    ensures Enabled(s, DoRemove(w, key))
    ensures var s' := Apply(s, DoRemove(w, key));
      && |s'.threads| == |s.threads| && |s'.sessions| == |s.sessions|
      && s'.threads[w].queue == s.threads[w].queue
      && s'.threads[w].now == if key in s.table then Tearing(s.threads[w].now.sid, 0) else Idle
  {
  }

  /** The worker is between events and comes to `e` next. */
  predicate AtEvent(t: Thread, e: EpollEvent) {
    t.now.Idle? && t.queue != [] && t.queue[0] == e.sid
  }

  lemma NextEnabled(s: State, w: nat)
    requires WellFormed(s) && IsWorker(s, w) && s.threads[w].now.Idle? && s.threads[w].queue != []
    ensures Enabled(s, DoNext(w)) && Enabled(s, DoSkip(w)) && s.threads[w].queue[0] < |s.sessions|
    ensures var t := s.threads[w];
      && Apply(s, DoNext(w)).sessions == s.sessions && |Apply(s, DoSkip(w)).sessions| == |s.sessions|
      && |Apply(s, DoNext(w)).threads| == |Apply(s, DoSkip(w)).threads| == |s.threads|
      && Apply(s, DoNext(w)).threads[w] == Thread(t.queue[1..], Reading(t.queue[0]), t.flag)
      && Apply(s, DoSkip(w)).threads[w] == Thread(t.queue[1..], Idle, t.flag)
  {
  }

  lemma ReceivedEnabled(s: State, w: nat)
    requires WellFormed(s) && IsWorker(s, w) && s.threads[w].now.Reading?
    ensures Enabled(s, DoReadFailed(w)) && s.threads[w].now.sid < |s.sessions|
    ensures s.sessions[s.threads[w].now.sid].registered ==> Enabled(s, DoReadDone(w))
    ensures var t := s.threads[w];
      && Apply(s, DoReadFailed(w)).threads == s.threads[w := Thread(t.queue, Failed(t.now.sid), t.flag)]
      && Apply(s, DoReadFailed(w)).sessions == s.sessions
      && (Enabled(s, DoReadDone(w)) ==>
            && Apply(s, DoReadDone(w)).threads == s.threads[w := Thread(t.queue, Idle, t.flag)]
            && |Apply(s, DoReadDone(w)).sessions| == |s.sessions|)
  {
  }

  lemma RunsMeans(s: State, steps: seq<Step>, s': State, w: nat, own: seq<Step>)
    requires Runs(s, steps, s', w, own)
    ensures Possible(s, steps) && Final(s, steps) == s'
  {
  }

  /** The read loop ends with the socket drained and the session alive. */
  predicate Drains(framed: bool, s: RecvState, trace: seq<ReadResult>)
    requires Ends(trace)
  {
    TakeAll(framed, Epoll, s, Chunks(trace)).alive && Ending(trace).Drained?
  }

  class NetEventModle {
    const me: nat
    var world: State                   // what the threads share, and where each of them stands

    constructor (me: nat, world: State)
      ensures this.me == me && this.world == world
    {
      this.me, this.world := me, world;
    }

    ghost predicate Valid()
      reads this
    {
      WellFormed(world) && IsWorker(world, me)
    }

    /** Any number of steps of the other threads. */
    method Interfere() returns (ghost steps: seq<Step>)
      requires Valid()
      modifies this
      ensures Valid() && Runs(old(world), steps, world, me, [])
      ensures world.threads[me] == old(world).threads[me] && |world.sessions| >= |old(world).sessions|
    {
      steps := [];
      RunsStop(world, me);
      var n: nat := *;
      while n > 0
        invariant Valid() && Runs(old(world), steps, world, me, [])
        invariant world.threads[me] == old(world).threads[me] && |world.sessions| >= |old(world).sessions|
      {
        var st: Step := *;
        if !ByWorker(st, me) && Enabled(world, st) {
          hide Runs, Apply, Enabled, WellFormed;
          OthersLeaveIt(world, st, me);
          RunsOne(world, st, me);
          RunsThen(old(world), steps, world, [st], Apply(world, st), me, [], []);
          world := Apply(world, st);
          steps := steps + [st];
        }
        n := n - 1;
      }
    }

    // ----------------------------------------------------------------
    // The worker's own moves

    /** epoll_wait: every registration reported is disarmed. */
    method Fetch(events: seq<EpollEvent>)
      requires Valid() && Enabled(world, DoFetch(me, Sids(events)))
      modifies this
      ensures world == Apply(old(world), DoFetch(me, Sids(events)))
    {
      var sessions := world.sessions;
      for i := 0 to |events|
        invariant |sessions| == |world.sessions| && world == old(world)
        invariant forall j :: 0 <= j < |sessions| ==>
          sessions[j] == if j in Sids(events)[..i] then world.sessions[j].(armed := false) else world.sessions[j]
      {
        var sid := events[i].sid;
        assert Sids(events)[i] == sid && Sids(events)[..i + 1] == Sids(events)[..i] + [sid];
        sessions := sessions[sid := sessions[sid].(armed := false)];
      }
      assert Sids(events)[..|events|] == Sids(events);
      world := world.(sessions := sessions, threads := world.threads[me := world.threads[me].(queue := Sids(events))]);
      assert sessions == Disarmed(old(world).sessions, Sids(events));
    }

    /** The worker comes to an EPOLLIN event. */
    method Next()
      requires Valid() && Enabled(world, DoNext(me))
      modifies this
      ensures world == Apply(old(world), DoNext(me))
    {
      var t := world.threads[me];
      world := world.(threads := world.threads[me := Thread(t.queue[1..], Reading(t.queue[0]), t.flag)]);
    }

    /** The worker comes to a hang-up or error event and does nothing. */
    method Skip()
      requires Valid() && Enabled(world, DoSkip(me))
      modifies this
      ensures world == Apply(old(world), DoSkip(me))
    {
      var t := world.threads[me];
      var x := world.sessions[t.queue[0]];
      world := world.(sessions := world.sessions[t.queue[0] := x.(parked := true)],
                      threads := world.threads[me := t.(queue := t.queue[1..])]);
    }

    /** TcpSessionMgr_DelSession, and, when it finds nothing, the delete that a
        flag left over leads to. */
    method DelSession(nSock: int) returns (ret: int)
      requires Valid() && Enabled(world, DoRemove(me, nSock))
      modifies this
      ensures world == Apply(old(world), DoRemove(me, nSock))
      ensures ret == if nSock in old(world).table then 0 else -1
    {
      var t := world.threads[me];
      var sid := t.now.sid;
      var x := world.sessions[sid];
      if nSock !in world.table {
        if t.flag {
          // ~CTcpSession closes the socket, and with it the registration
          x := x.(hist := x.hist + [Delete(Worker(me))], open := false, registered := false, armed := false);
        }
        world := world.(sessions := world.sessions[sid := x.(parked := true)],
                        threads := world.threads[me := t.(now := Idle)]);
        return -1;
      }
      world := world.(table := world.table - {nSock},
                      sessions := world.sessions[sid := x.(hist := x.hist + [Erase(Worker(me))])],
                      threads := world.threads[me := t.(now := Tearing(sid, 0))]);
      return 0;
    }

    /** NetEventModleEpoll_DelEvent, TcpSession_Fini, and the delete, in turn. */
    method Teardown(done: nat, ok: bool)
      requires Valid() && Enabled(world, DoAdvance(me, ok)) && world.threads[me].now.done == done <= 2
      modifies this
      ensures world == Apply(old(world), DoAdvance(me, ok))
    {
      var t := world.threads[me];
      var sid := t.now.sid;
      var x := world.sessions[sid];
      if done == 0 {
        x := x.(hist := x.hist + [Deregister(Worker(me))]);
        if ok {
          x := x.(registered := false, armed := false);
        }
      } else if done == 1 {
        x := x.(hist := x.hist + [Finalise(Worker(me))], open := false, registered := false, armed := false);
        t := t.(flag := true);
        world := world.(disconnects := world.disconnects + 1);
      } else {
        x := x.(hist := x.hist + [Delete(Worker(me))]);
      }
      world := world.(sessions := world.sessions[sid := x],
                      threads := world.threads[me := t.(now := if done < 2 then Tearing(sid, done + 1) else Idle)]);
    }

    /** What TcpSession_IORecv's result makes of the event at hand: zero means
        the session is registered again. */
    method Received(ret: int)
      requires Valid() && Enabled(world, if ret < 0 then DoReadFailed(me) else DoReadDone(me))
      modifies this
      ensures world == Apply(old(world), if ret < 0 then DoReadFailed(me) else DoReadDone(me))
    {
      var t := world.threads[me];
      var sid := t.now.sid;
      if ret < 0 {
        world := world.(threads := world.threads[me := t.(now := Failed(sid))]);
      } else {
        world := world.(sessions := world.sessions[sid := world.sessions[sid].(armed := true)],
                        threads := world.threads[me := t.(now := Idle)]);
      }
    }

    // ----------------------------------------------------------------
    // One event, with the other threads going on between any two moves

    /** The others go on, then the next teardown call. */
    method Call(done: nat, ok: bool) returns (ghost steps: seq<Step>)
      requires Valid() && world.threads[me].now.Tearing? && world.threads[me].now.done == done <= 2
      modifies this
      ensures Valid() && Runs(old(world), steps, world, me, [DoAdvance(me, ok)])
      ensures world.threads[me].queue == old(world).threads[me].queue && |world.sessions| >= |old(world).sessions|
      ensures if done < 2 then world.threads[me].now.Tearing? && world.threads[me].now.done == done + 1
              else world.threads[me].now.Idle?
    {
      hide Runs, Apply, Enabled, WellFormed;
      steps := Interfere();
      TeardownEnabled(world, me, ok);
      RunsOn(old(world), steps, world, DoAdvance(me, ok), me, []);
      Teardown(done, ok);
      steps := steps + [DoAdvance(me, ok)];
      assert [] + [DoAdvance(me, ok)] == [DoAdvance(me, ok)];
    }

    /** The failure branch, after the others went on: DelSession, and, if it found the entry, DelEvent,
        TcpSession_Fini and delete. */
    method GiveUp(nSock: int, delOk: bool) returns (ghost steps: seq<Step>, ghost o: Fate)
      requires Valid() && world.threads[me].now.Failed?
      modifies this
      ensures Valid() && world.threads[me].now.Idle? && world.threads[me].queue == old(world).threads[me].queue
      ensures |world.sessions| >= |old(world).sessions|
      ensures o.Missed? || o.TakenDown?
      ensures Runs(old(world), steps, world, me,
                   if o.Missed? then [DoRemove(me, nSock)]
                   else [DoRemove(me, nSock), DoAdvance(me, delOk), DoAdvance(me, true), DoAdvance(me, true)])
    {
      hide Runs, Apply, Enabled, WellFormed;
      ghost var start := world;
      steps := Interfere();
      RemoveEnabled(world, me, nSock);
      RunsOn(start, steps, world, DoRemove(me, nSock), me, []);
      var ret := DelSession(nSock);
      steps := steps + [DoRemove(me, nSock)];
      ghost var own, mid := [DoRemove(me, nSock)], world;
      assert [] + own == own;
      if ret < 0 {
        o := Missed;
        return;
      }
      o := TakenDown;
      ghost var more := Call(0, delOk);
      RunsThen(start, steps, mid, more, world, me, own, [DoAdvance(me, delOk)]);
      steps, own, mid := steps + more, own + [DoAdvance(me, delOk)], world;
      more := Call(1, true);
      RunsThen(start, steps, mid, more, world, me, own, [DoAdvance(me, true)]);
      steps, own, mid := steps + more, own + [DoAdvance(me, true)], world;
      more := Call(2, true);
      RunsThen(start, steps, mid, more, world, me, own, [DoAdvance(me, true)]);
      steps, own := steps + more, own + [DoAdvance(me, true)];
      assert own == [DoRemove(me, nSock), DoAdvance(me, delOk), DoAdvance(me, true), DoAdvance(me, true)];
    }

    /** The body of the event loop. `seen` leads to the moment the read loop
        ends: the session is registered again exactly if the reads drained the
        socket, the session's machine lived, and epoll still knew the
        registration and took it. */
    method HandleEvent(e: EpollEvent) returns (ghost steps: seq<Step>, ghost seen: seq<Step>, ghost o: Fate)
      requires Valid() && AtEvent(world.threads[me], e)
      requires Served(e)
      modifies this, e.session
      ensures Valid() && Runs(old(world), steps, world, me, Script(me, e, o))
      ensures world.threads[me].now.Idle? && world.threads[me].queue == old(world).threads[me].queue[1..]
      ensures o.Skipped? <==> e.other
      ensures Delivered(e, old(e.session.Abs()), old(e.session.shown))
      ensures seen <= steps && Possible(old(world), seen) && |Final(old(world), seen).sessions| > e.sid
      ensures !e.other ==> |seen| < |steps| && steps[|seen|] == if o.Rearmed? then DoReadDone(me) else DoReadFailed(me)
      ensures !e.other ==>
        (o.Rearmed? <==> Drains(e.session.framed, old(e.session.Abs()), e.trace) && e.accepted
                         && Final(old(world), seen).sessions[e.sid].registered)
    {
      hide Runs, Apply, Enabled, WellFormed, TakeAll, Ends, Ending, Chunks, StampAfter, EchoWire, Reachable;
      ghost var start := world;
      NextEnabled(world, me);
      RunsStop(start, me);
      if e.other {
        RunsOne(world, DoSkip(me), me);
        Skip();
        steps, seen, o := [DoSkip(me)], [], Skipped;
        assert seen == [] && Possible(start, seen) && Final(start, seen) == start by { Stop(start); }
        return;
      }
      RunsOne(world, DoNext(me), me);
      Next();
      steps := [DoNext(me)];
      ghost var own, mid := steps, world;
      ghost var more := Interfere();
      RunsIdly(start, steps, mid, more, world, me, own);
      steps := steps + more;
      seen := steps;
      RunsMeans(start, steps, world, me, own);
      ReceivedEnabled(world, me);
      var accepted := e.accepted && world.sessions[e.sid].registered;
      var ret := e.session.IORecv(e.trace, accepted);
      ghost var st := if ret < 0 then DoReadFailed(me) else DoReadDone(me);
      RunsOn(start, steps, world, st, me, own);
      Received(ret);
      steps, own, mid := steps + [st], own + [st], world;
      if ret >= 0 {
        o := Rearmed;
        assert own == Script(me, e, o);
        return;
      }
      more, o := GiveUp(e.fd, e.delOk);
      ghost var last := if o.Missed? then [DoRemove(me, e.fd)]
                        else [DoRemove(me, e.fd), DoAdvance(me, e.delOk), DoAdvance(me, true), DoAdvance(me, true)];
      RunsThen(start, steps, mid, more, world, me, own, last);
      steps := steps + more;
      assert own + last == Script(me, e, o);
    }

    /** One batch of events: epoll_wait, then the events in order, the others
        going on before each of them. */
    method HandleData(events: seq<EpollEvent>) returns (ghost steps: seq<Step>, ghost fates: seq<Fate>)
      requires Valid() && Enabled(world, DoFetch(me, Sids(events)))
      requires forall i :: 0 <= i < |events| ==> Served(events[i])
      requires forall i, j :: 0 <= i < j < |events| ==> events[i].session != events[j].session
      modifies this, set e | e in events :: e.session
      ensures Valid() && AtRest(world.threads[me]) && |fates| == |events|
      ensures Runs(old(world), steps, world, me, [DoFetch(me, Sids(events))] + Scripts(me, events, fates))
      ensures forall i :: 0 <= i < |events| ==> (fates[i].Skipped? <==> events[i].other)
      ensures forall i :: 0 <= i < |events| ==>
        Delivered(events[i], old(events[i].session.Abs()), old(events[i].session.shown))
    {
      hide Runs, Apply, Enabled, WellFormed, Delivered, Served, Script, Scripts;
      ghost var start := world;
      FetchEnabled(world, me, Sids(events));
      RunsOne(world, DoFetch(me, Sids(events)), me);
      Fetch(events);
      steps, fates := [DoFetch(me, Sids(events))], [];
      NoScripts(me, events);
      for i := 0 to |events|
        invariant Valid() && |fates| == i && world.threads[me].now.Idle?
        invariant world.threads[me].queue == Sids(events)[i..]
        invariant Runs(start, steps, world, me, [DoFetch(me, Sids(events))] + Scripts(me, events[..i], fates))
        invariant forall j :: i <= j < |events| ==>
          Served(events[j]) && events[j].session.Abs() == old(events[j].session.Abs())
          && events[j].session.shown == old(events[j].session.shown)
        invariant forall j :: 0 <= j < i ==> (fates[j].Skipped? <==> events[j].other)
        invariant forall j :: 0 <= j < i ==>
          Delivered(events[j], old(events[j].session.Abs()), old(events[j].session.shown))
      {
        var e := events[i];
        ghost var mid := world;
        ghost var idle := Interfere();
        ghost var met := world;
        ghost var more, seen, o := HandleEvent(e);
        RunsEvent(start, steps, mid, idle, met, more, world, me, events, fates, i, o);
        steps := steps + idle + more;
        fates := fates + [o];
      }
      assert events[..|events|] == events;
    }
  }

  /** What handling an event leaves of a session that stood at `s` and had
      shown `shown`. */
  ghost predicate Delivered(e: EpollEvent, s: RecvState, shown: seq<Event>)
    reads e.session
  {
    && e.session.LinuxValid()
    && if e.other then e.session.Abs() == s && e.session.shown == shown else
       Ends(e.trace) &&
       var r := TakeAll(e.session.framed, Epoll, s, Chunks(e.trace));
       e.session.Abs() == r.state && e.session.shown == shown + r.events
  }

  lemma NoScripts(w: nat, events: seq<EpollEvent>)
    ensures [DoFetch(w, Sids(events))] + Scripts(w, events[..0], []) == [DoFetch(w, Sids(events))]
  {
  }

  /** The session behind an event and the reads it will see are in order. */
  ghost predicate Served(e: EpollEvent)
    reads e.session
  {
    e.session.LinuxValid() && Ends(e.trace) && forall r :: r in e.trace ==> Readable(r)
  }

  lemma ScriptsOfOne(w: nat, events: seq<EpollEvent>, fates: seq<Fate>, i: nat, o: Fate)
    requires i < |events| && |fates| == i
    ensures Scripts(w, events[..i + 1], fates + [o]) == Scripts(w, events[..i], fates) + Script(w, events[i], o)
  {
    var es, os := events[..i + 1], fates + [o];
    assert es[..i] == events[..i] && es[i] == events[i] && os[..i] == fates && os[i] == o;
  }

  lemma RunsEvent(start: State, steps: seq<Step>, mid: State, idle: seq<Step>, met: State, more: seq<Step>, end: State,
                  w: nat, events: seq<EpollEvent>, fates: seq<Fate>, i: nat, o: Fate)
    requires i < |events| && |fates| == i
    requires Runs(start, steps, mid, w, [DoFetch(w, Sids(events))] + Scripts(w, events[..i], fates))
    requires Runs(mid, idle, met, w, []) && Runs(met, more, end, w, Script(w, events[i], o))
    ensures Runs(start, steps + idle + more, end, w,
                 [DoFetch(w, Sids(events))] + Scripts(w, events[..i + 1], fates + [o]))
  {
    hide Runs, Scripts, Script;
    var own := [DoFetch(w, Sids(events))] + Scripts(w, events[..i], fates);
    RunsIdly(start, steps, mid, idle, met, w, own);
    RunsThen(start, steps + idle, met, more, end, w, own, Script(w, events[i], o));
    ScriptsOfOne(w, events, fates, i, o);
    assert own + Script(w, events[i], o) ==
      [DoFetch(w, Sids(events))] + (Scripts(w, events[..i], fates) + Script(w, events[i], o));
  }

  lemma FetchEnabled(s: State, w: nat, sids: seq<nat>)
    requires WellFormed(s) && Enabled(s, DoFetch(w, sids))
    ensures var s' := Apply(s, DoFetch(w, sids));
      && |s'.threads| == |s.threads| && s'.threads[w] == Thread(sids, Idle, s.threads[w].flag)
      && |s'.sessions| == |s.sessions|
  {
  }

  // ------------------------------------------------------------------
  // The intended worker

  /** A step as the design has it: a worker removes by the socket of the session
      at hand, with its flag reset for the event (an entry it finds is then torn
      down, and one it does not find is left alone); the acceptor's steps under
      their guards. */
  predicate Intended(s: State, st: Step)
    requires WellFormed(s) && Enabled(s, st)
  {
    match st
    case DoRemove(w, key) =>
      key == s.sessions[s.threads[w].now.sid].sock && (key in s.table || !s.threads[w].flag)
    case _ => Guard(s, st)
  }

  /** With the socket as the key, the entry a worker finds is its own session's:
      so every intended step is guarded, whatever the other threads do. */
  lemma IntendedIsGuarded(s: State, st: Step)
    requires Inv(s) && Enabled(s, st) && Intended(s, st)
    ensures Guard(s, st)
  {
    if st.DoRemove? {
      HeldAlone(s, st.w, s.threads[st.w].now.sid);
    }
  }

  ghost predicate AllIntended(s: State, steps: seq<Step>)
    requires Possible(s, steps)
    decreases |steps|
  {
    steps == [] || (Intended(s, steps[0]) && AllIntended(Apply(s, steps[0]), steps[1..]))
  }

  /** The intended design over whole runs: batches of any number of workers,
      the reaper, the acceptor and shutdown, interleaved in any way, keep every
      promise. */
  lemma {:induction false} IntendedRunsKeepPromises(s: State, steps: seq<Step>)
    requires Inv(s) && Possible(s, steps) && AllIntended(s, steps)
    ensures Guarded(s, steps) && Promises(Final(s, steps))
    decreases |steps|
  {
    hide Inv, Guard, Enabled, WellFormed, Intended, Promises;
    if steps == [] {
      InvKeepsPromises(s);
    } else {
      assert WellFormed(s) && Enabled(s, steps[0]) by { FirstIsPossible(s, steps); }
      IntendedIsGuarded(s, steps[0]);
      StepSafeIff(s, steps[0]);
      IntendedRunsKeepPromises(Apply(s, steps[0]), steps[1..]);
    }
  }

  // ------------------------------------------------------------------
  // The worker as written, while its keys name nothing

  /** A step of the code as written while no key that data.fd reads as is a
      listed number, as a heap address is not: every removal misses. */
  predicate Misses(s: State, st: Step)
    requires WellFormed(s) && Enabled(s, st)
  {
    match st
    case DoRemove(_, key) => key !in s.table
    case _ => Guard(s, st)
  }

  ghost predicate AllMiss(s: State, steps: seq<Step>)
    requires Possible(s, steps)
    decreases |steps|
  {
    steps == [] || (Misses(s, steps[0]) && AllMiss(Apply(s, steps[0]), steps[1..]))
  }

  /** No worker has a flag set, takes a session down, or ever did. */
  predicate WorkersTearNothing(s: State) {
    FlagsClear(s) && (forall i :: 0 <= i < |s.sessions| ==> NoWorkerActs(s.sessions[i].hist))
  }

  predicate FlagsClear(s: State) {
    forall w :: 0 <= w < |s.threads| ==> !s.threads[w].flag && !s.threads[w].now.Tearing?
  }

  predicate NoWorkerActs(h: seq<Act>) {
    forall k :: 0 <= k < |h| ==> !h[k].who.Worker?
  }

  lemma MissKeepsFlags(s: State, st: Step)
    requires WellFormed(s) && FlagsClear(s) && Enabled(s, st) && (st.DoRemove? ==> st.key !in s.table)
    ensures FlagsClear(Apply(s, st))
  {
  }

  lemma MissKeepsHistories(s: State, st: Step, i: nat)
    requires WellFormed(s) && WorkersTearNothing(s) && Enabled(s, st) && (st.DoRemove? ==> st.key !in s.table)
    requires i < |Apply(s, st).sessions|
    ensures NoWorkerActs(Apply(s, st).sessions[i].hist)
  {
  }

  lemma MissTearsNothing(s: State, st: Step)
    requires WellFormed(s) && WorkersTearNothing(s) && Enabled(s, st) && (st.DoRemove? ==> st.key !in s.table)
    ensures WorkersTearNothing(Apply(s, st))
  {
    MissKeepsFlags(s, st);
    hide Apply, FlagsClear, NoWorkerActs;
    forall i | 0 <= i < |Apply(s, st).sessions| ensures NoWorkerActs(Apply(s, st).sessions[i].hist) {
      MissKeepsHistories(s, st, i);
    }
  }

  /** So, as written, no worker ever takes a session down: a failed read leaves
      its session listed and unarmed, for the reaper or shutdown; and while the
      acceptor's steps are under their guards, every promise holds. */
  lemma {:induction false} MissingKeysKeepPromises(s: State, steps: seq<Step>)
    requires Inv(s) && WorkersTearNothing(s) && Possible(s, steps) && AllMiss(s, steps)
    ensures Guarded(s, steps) && Promises(Final(s, steps)) && WorkersTearNothing(Final(s, steps))
    decreases |steps|
  {
    hide Inv, Enabled, WellFormed, Promises;
    if steps == [] {
      InvKeepsPromises(s);
    } else {
      var st := steps[0];
      assert WellFormed(s) && Enabled(s, st) by { FirstIsPossible(s, steps); }
      MissIsGuarded(s, st);
      MissTearsNothing(s, st);
      hide WorkersTearNothing, Guard, Misses;
      StepSafeIff(s, st);
      MissingKeysKeepPromises(Apply(s, st), steps[1..]);
    }
  }

  lemma MissIsGuarded(s: State, st: Step)
    requires WellFormed(s) && Enabled(s, st) && WorkersTearNothing(s) && Misses(s, st)
    ensures Guard(s, st)
  {
  }

  /** In particular over every such run from the start. */
  lemma {:induction false} MissingKeysFromStart(n: nat, steps: seq<Step>)
    requires Possible(Start(n), steps) && AllMiss(Start(n), steps)
    ensures var end := Final(Start(n), steps);
      Promises(end) && forall i :: 0 <= i < |end.sessions| ==> NoWorkerActs(end.sessions[i].hist)
  {
    hide Possible, Final, AllMiss, Inv;
    StartIsGood(n);
    MissingKeysKeepPromises(Start(n), steps);
  }
}
