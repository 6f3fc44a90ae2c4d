/** CTcpSession: one connection's receive cache, frame flags and send paths,
    for both platforms of the source. */
module Session {
  import opened Wire
  import opened Framing
  import opened WriteLoop
  import OverlappedSend
  import Receiver

  // ------------------------------------------------------------------
  // The environment of the Linux read loop

  /** One read call: bytes (with the clock as the chunk is processed and the
      write calls an echo would see), end of stream, EINTR, EAGAIN, or another
      error. */
  datatype ReadResult =
    | Got(bytes: seq<byte>, now: int, writes: seq<WriteResult>)
    | Eof
    | Interrupted
    | Drained
    | ReadError

  predicate Readable(r: ReadResult) {
    r.Got? ==> 0 < |r.bytes| <= READ_LEN && Settles(r.writes, HEAD_LEN)
  }

  /** Every trace the read loop can see ends: it is long enough to contain a
      result that leaves the loop. */
  predicate Ends(trace: seq<ReadResult>) {
    trace != [] && (trace[0].Eof? || trace[0].Drained? || trace[0].ReadError? || Ends(trace[1..]))
  }

  function Ending(trace: seq<ReadResult>): ReadResult
    requires Ends(trace)
  {
    if trace[0].Got? || trace[0].Interrupted? then Ending(trace[1..]) else trace[0]
  }

  /** The chunks read before the result that leaves the loop. */
  function Chunks(trace: seq<ReadResult>): seq<seq<byte>>
    requires Ends(trace)
  {
    if trace[0].Got? then [trace[0].bytes] + Chunks(trace[1..])
    else if trace[0].Interrupted? then Chunks(trace[1..])
    else []
  }

  /** What a trace comes to: the bytes read before the first end of stream,
      EAGAIN or error, in order; interrupted reads leave no mark. */
  lemma {:induction false} TraceMeans(seen: seq<ReadResult>, end: ReadResult, rest: seq<ReadResult>)
    requires forall r :: r in seen ==> r.Got? || r.Interrupted?
    requires end.Eof? || end.Drained? || end.ReadError?
    ensures var trace := seen + [end] + rest;
      Ends(trace) && Ending(trace) == end && Chunks(trace) == BytesRead(seen)
  {
    var trace := seen + [end] + rest;
    if seen == [] {
      assert trace[0] == end;
    } else {
      assert trace[0] == seen[0] && seen[0] in seen && trace[1..] == seen[1..] + [end] + rest;
      TraceMeans(seen[1..], end, rest);
    }
  }

  function BytesRead(seen: seq<ReadResult>): seq<seq<byte>> {
    if seen == [] then [] else (if seen[0].Got? then [seen[0].bytes] else []) + BytesRead(seen[1..])
  }

  // ------------------------------------------------------------------
  // What the session does with a chunk, with and without framing

  function Take(framed: bool, v: Variant, s: RecvState, c: seq<byte>): Outcome {
    if framed then Step(v, s, c) else Go(s, [Deliver(c)])
  }

  function TakeAll(framed: bool, v: Variant, s: RecvState, chunks: seq<seq<byte>>): Ran
    decreases |chunks|
  {
    if chunks == [] then Ran([], true, s) else
    match Take(framed, v, s, chunks[0])
    case Fail => Ran([], false, s)
    case Go(s', es) =>
      var r := TakeAll(framed, v, s', chunks[1..]);
      Ran(es + r.events, r.alive, r.state)
  }

  predicate EachDelivered(chunks: seq<seq<byte>>, events: seq<Event>) {
    |events| == |chunks| && forall i :: 0 <= i < |chunks| ==> events[i] == Deliver(chunks[i])
  }

  /** Without framing every chunk is delivered as it is read, one delivery each,
      and nothing else happens. */
  lemma {:induction false} UnframedDelivers(v: Variant, s: RecvState, chunks: seq<seq<byte>>)
    ensures var r := TakeAll(false, v, s, chunks);
      r.alive && r.state == s && EachDelivered(chunks, r.events)
    decreases |chunks|
  {
    if chunks != [] { UnframedDelivers(v, s, chunks[1..]); }
  }

  lemma {:induction false} TakeAllFramed(v: Variant, s: RecvState, chunks: seq<seq<byte>>)
    ensures TakeAll(true, v, s, chunks) == Run(v, s, chunks)
    decreases |chunks|
  {
    if chunks != [] && Step(v, s, chunks[0]).Go? {
      TakeAllFramed(v, Step(v, s, chunks[0]).state, chunks[1..]);
    }
  }

  /** The heartbeat stamp after a chunk that showed `es` at time `now`. */
  function Stamped(stamp: int, es: seq<Event>, now: int): int {
    if Beat in es then now else stamp
  }

  /** The heartbeat stamp after a read loop. */
  function StampAfter(framed: bool, s: RecvState, trace: seq<ReadResult>, stamp: int): int
    requires Ends(trace)
    decreases |trace|
  {
    match trace[0]
    case Got(c, now, _) =>
      (match Take(framed, Epoll, s, c)
       case Fail => stamp
       case Go(s', es) => StampAfter(framed, s', trace[1..], Stamped(stamp, es, now)))
    case Interrupted => StampAfter(framed, s, trace[1..], stamp)
    case _ => stamp
  }

  /** The part of the events' echoes that the write calls let through. */
  function Written(es: seq<Event>, writes: seq<WriteResult>): seq<byte>
    requires Settles(writes, HEAD_LEN)
  {
    var echo := Flat(Echoes(es));
    if |echo| == HEAD_LEN then echo[..Sent(writes, HEAD_LEN)] else []
  }

  /** The bytes a read loop writes. */
  function EchoWire(framed: bool, s: RecvState, trace: seq<ReadResult>): seq<byte>
    requires Ends(trace) && forall r :: r in trace ==> Readable(r)
    decreases |trace|
  {
    assert Readable(trace[0]);
    match trace[0]
    case Got(c, _, writes) =>
      (match Take(framed, Epoll, s, c)
       case Fail => []
       case Go(s', es) => Written(es, writes) + EchoWire(framed, s', trace[1..]))
    case Interrupted => EchoWire(framed, s, trace[1..])
    case _ => []
  }

  /** What every receive state a platform can reach satisfies: in a header the
      cached bytes stay below eight; in a body nothing is cached, or the
      receiver can no longer complete (the missing length counts as larger than
      any chunk). */
  predicate Reachable(s: RecvState, limit: nat) {
    if s.inBody then 0 < s.need < TWO_32 && (s.cache == [] || Gap(s) > limit)
    else s.need == 0 && |s.cache| < HEAD_LEN
  }

  /** Taking the cached total modulo 2^32 first makes no difference. */
  lemma TotalWraps(need: int, total: nat)
    ensures (need - total % TWO_32) % TWO_32 == (need - total) % TWO_32
  {
    var q := total / TWO_32;
    assert need - total % TWO_32 == (need - total) + q * TWO_32;
  }

  /** A held body chunk leaves the receiver where it can no longer complete, or
      was already. */
  lemma HoldStaysReachable(v: Variant, s: RecvState, chunk: seq<byte>, limit: nat)
    requires Reachable(s, limit) && s.inBody && 0 < |chunk| <= limit <= MAX_BUFFER_LEN && v != Intended
    requires BodyBranch(v, Gap(s), |chunk|) == Hold
    ensures Reachable(s.(cache := s.cache + chunk), limit)
  {
    if Gap(s) < |chunk| {
      assert s.cache == [] && Gap(s) == s.need;
      assert Gap(s.(cache := s.cache + chunk)) == s.need - |chunk| + TWO_32;
    } else {
      Receiver.GapShrinks(s, chunk);
    }
  }

  /** A body chunk that completes does so on an empty cache. */
  lemma CompleteIsWhole(v: Variant, s: RecvState, chunk: seq<byte>, limit: nat)
    requires Reachable(s, limit) && s.inBody && 0 < |chunk| <= limit <= MAX_BUFFER_LEN && v != Intended
    requires BodyBranch(v, Gap(s), |chunk|) == Complete
    ensures s.cache == [] && |chunk| == s.need
  {
  }

  lemma EmptyIsReachable(s: RecvState, limit: nat)
    requires !s.inBody && s.need == 0 && s.cache == []
    ensures Reachable(s, limit)
  {
  }

  /** A complete header leaves the receiver at the start of a body or of the
      next header. */
  lemma FinishHeadIsReachable(s: RecvState, head: seq<byte>, limit: nat)
    requires Reachable(s, limit) && !s.inBody && |head| == HEAD_LEN
    ensures FinishHead(s, head).Go? && Reachable(FinishHead(s, head).state, limit)
  {
  }

  lemma FlatUpTo(bufs: seq<seq<byte>>, i: nat)
    requires i < |bufs|
    ensures Flat(bufs[..i + 1]) == Flat(bufs[..i]) + bufs[i]
    ensures |Flat(bufs[..i + 1])| <= |Flat(bufs)|
  {
    assert bufs[..i + 1] == bufs[..i] + [bufs[i]];
    FlatSnoc(bufs[..i], bufs[i]);
    assert bufs == bufs[..i + 1] + bufs[i + 1..];
    FlatAppend(bufs[..i + 1], bufs[i + 1..]);
  }

  lemma FlatOfNone(bufs: seq<seq<byte>>)
    requires bufs == []
    ensures Flat(bufs) == []
  {
  }

  /** `was` with `src` copied over it from index `at` on. */
  function Overwritten(was: seq<byte>, at: nat, src: seq<byte>): (now: seq<byte>)
    requires at + |src| <= |was|
    ensures |now| == |was|
  {
    was[..at] + src + was[at + |src|..]
  }

  /** Copying one source right behind another is copying both at once. */
  lemma OverwriteTwice(was: seq<byte>, front: seq<byte>, src: seq<byte>)
    requires |front| + |src| <= |was|
    ensures Overwritten(Overwritten(was, 0, front), |front|, src) == Overwritten(was, 0, front + src)
  {
  }

  lemma OverwriteFront(was: seq<byte>, front: seq<byte>)
    requires |front| <= |was|
    ensures Overwritten(was, 0, front) == front + was[|front|..]
  {
  }

  lemma FrontGrows(was: seq<byte>, data: seq<byte>, from: nat, n: nat)
    requires from + n <= |data|
    ensures was + data[..from] + data[from..from + n] == was + data[..from + n]
  {
  }

  function Zeros(n: nat): seq<byte> {
    seq(n, _ => 0)
  }

  method Memcpy(dst: array<byte>, at: nat, src: seq<byte>)
    requires at + |src| <= dst.Length
    modifies dst
    ensures dst[..] == Overwritten(old(dst[..]), at, src)
  {
    forall i | 0 <= i < |src| {
      dst[at + i] := src[i];
    }
  }

  class TcpSession {
    const framed: bool                 // m_bIsHaveHead
    var recvBufs: seq<seq<byte>>       // m_RecvBufs
    var isRecvHead: bool               // m_bIsRecvHead
    var needLen: nat                   // m_nNeedRecvDataLen
    var kind: HeadType                 // m_nRecvDataType
    var salt: nat                      // m_uSaltValue
    var stamp: int                     // m_tHeartbeatTimeStamp
    var shown: seq<Event>              // listener calls and echo submissions, in order

    // Linux
    var sendBufs: seq<seq<byte>>       // m_SendBufs
    var armed: bool                    // the registration will report one event
    var asksOut: bool                  // the last registration included EPOLLOUT
    var wire: seq<byte>                // bytes the socket has taken

    // Windows
    const ioBuf: array<byte>           // szBuffer of m_pPerIoContextRecv
    var postedLen: nat                 // wsaBuf.len of the last WSARecv
    var sends: OverlappedSend.SendState

    ghost function Abs(): RecvState
      reads this
    {
      RecvState(isRecvHead, needLen, kind, salt, Flat(recvBufs))
    }

    /** Holds in every state a Linux session reaches: the deferred-send queue is
        empty and EPOLLOUT was never asked for. */
    ghost predicate LinuxValid()
      reads this
    {
      Reachable(Abs(), READ_LEN) && sendBufs == [] && !asksOut
    }

    /** Holds in every state a Windows session reaches: a header-mode post asks
        for exactly what the current part misses. */
    ghost predicate WindowsValid()
      reads this
    {
      && ioBuf.Length == MAX_BUFFER_LEN
      && Reachable(Abs(), MAX_BUFFER_LEN)
      && (framed ==> Receiver.BodyUntouched(Abs()))
      && postedLen == (if framed then Receiver.PostedLen(Abs()) else MAX_BUFFER_LEN)
    }

    /** The member initialisers and constructor, then TcpSession_Init, before
        any event; `now` is the clock at construction. The first Windows post
        is made by PostRecv. */
    constructor (framed: bool, now: int)
      ensures this.framed == framed && Abs() == FRESH && stamp == now && shown == []
      ensures LinuxValid() && !armed && wire == []
      ensures fresh(ioBuf) && ioBuf.Length == MAX_BUFFER_LEN && sends == OverlappedSend.EMPTY
    {
      this.framed := framed;
      recvBufs, isRecvHead, needLen, kind, salt := [], false, 0, Unknown, 0;
      stamp, shown := now, [];
      sendBufs, armed, asksOut, wire := [], false, false, [];
      ioBuf := new byte[MAX_BUFFER_LEN](_ => 0);
      postedLen, sends := MAX_BUFFER_LEN, OverlappedSend.EMPTY;
    }

    // ----------------------------------------------------------------
    // The receive cache

    /** TcpSession_GetRecvCacheLen: a 32-bit total. */
    method GetRecvCacheLen() returns (total: nat)
      ensures total == |Flat(recvBufs)| % TWO_32
    {
      hide Flat;
      total := 0;
      assert |Flat(recvBufs[..0])| == 0 by { FlatOfNone(recvBufs[..0]); }
      for i := 0 to |recvBufs|
        invariant total == |Flat(recvBufs[..i])| % TWO_32
      {
        FlatUpTo(recvBufs, i);
        total := (total + |recvBufs[i]|) % TWO_32;
      }
      assert recvBufs[..|recvBufs|] == recvBufs;
    }

    /** TcpSession_GetRecvCacheBuf: flattens the cache into the front of szBuf
        and empties it. */
    method GetRecvCacheBuf(szBuf: array<byte>) returns (n: nat)
      requires |Flat(recvBufs)| <= szBuf.Length
      modifies this`recvBufs, szBuf
      ensures n == old(|Flat(recvBufs)|) && recvBufs == []
      ensures szBuf[..] == old(Flat(recvBufs)) + old(szBuf[n..])
    {
      hide Flat, Overwritten;
      n := 0;
      var bufs := recvBufs;
      ghost var was := szBuf[..];
      assert Flat(bufs[..0]) == [] by { FlatOfNone(bufs[..0]); }
      OverwriteFront(was, []);
      for i := 0 to |bufs|
        invariant recvBufs == bufs
        invariant n == |Flat(bufs[..i])| <= szBuf.Length
        invariant szBuf[..] == Overwritten(was, 0, Flat(bufs[..i]))
      {
        FlatUpTo(bufs, i);
        OverwriteTwice(was, Flat(bufs[..i]), bufs[i]);
        Memcpy(szBuf, n, bufs[i]);
        n := n + |bufs[i]|;
      }
      assert bufs[..|bufs|] == bufs;
      OverwriteFront(was, Flat(bufs));
      recvBufs := [];
    }

    /** A short chunk is copied and queued. */
    method Cache(chunk: seq<byte>)
      modifies this`recvBufs
      ensures Flat(recvBufs) == old(Flat(recvBufs)) + chunk
    {
      FlatSnoc(recvBufs, chunk);
      recvBufs := recvBufs + [chunk];
    }

    /** A zeroed buffer of `size` bytes that takes the cache and the chunk: the
        copies stay in bounds and what is not filled stays zero. */
    method Assemble(size: nat, chunk: seq<byte>) returns (szBuf: array<byte>)
      requires |Flat(recvBufs)| + |chunk| <= size
      modifies this`recvBufs
      ensures fresh(szBuf) && recvBufs == []
      ensures var whole := old(Flat(recvBufs)) + chunk;
              szBuf[..] == whole + Zeros(size - |whole|)
    {
      szBuf := new byte[size](_ => 0);
      assert szBuf[..] == Zeros(size);
      var n := GetRecvCacheBuf(szBuf);
      Memcpy(szBuf, n, chunk);
    }

    // ----------------------------------------------------------------
    // Completing a header or a body

    /** TcpSession_HeadleHB. */
    method HandleHeartbeat(now: int)
      modifies this`stamp, this`shown
      ensures stamp == now && shown == old(shown) + [Beat]
    {
      stamp := now;
      shown := shown + [Beat];
    }

    /** The header branch once the header is complete, up to the submission of
        an echo, which is left to the caller. */
    method CompleteHead(chunk: seq<byte>, now: int) returns (echo: seq<byte>)
      requires !isRecvHead && needLen == 0 && |Flat(recvBufs)| + |chunk| == HEAD_LEN
      modifies this`recvBufs, this`isRecvHead, this`needLen, this`kind, this`salt, this`stamp, this`shown
      ensures var o := FinishHead(old(Abs()), old(Flat(recvBufs)) + chunk);
        && Abs() == o.state
        && shown == old(shown) + o.events
        && stamp == Stamped(old(stamp), o.events, now)
        && echo == Flat(Echoes(o.events)) && |echo| in {0, HEAD_LEN}
    {
      var szBuf := Assemble(HEAD_LEN, chunk);
      var head := szBuf[..];
      assert head == old(Flat(recvBufs)) + chunk;
      echo := [];
      if Tagged(head, HEART_BEAT) {
        kind := HeartBeat;
        needLen := DataLen(head);
        salt := Salt(head);
        if needLen > 0 {
          isRecvHead := true;
        } else {
          HandleHeartbeat(now);
        }
        shown := shown + [Echo(head)];
        echo := head;
        assert Flat([head]) == head && Echoes([Echo(head)]) == [head];
      } else if Tagged(head, RECV_DATA) {
        kind := Data;
        needLen := DataLen(head);
        salt := Salt(head);
        if needLen > 0 {
          isRecvHead := true;
        }
      }
    }

    /** The body branch once the body is complete: szBuf, which a listener is
        given, holds exactly the announced bytes, with a zero after them. */
    method CompleteBody(chunk: seq<byte>, now: int) returns (szBuf: array<byte>)
      requires isRecvHead && |Flat(recvBufs)| + |chunk| == needLen
      modifies this`recvBufs, this`isRecvHead, this`needLen, this`stamp, this`shown
      ensures fresh(szBuf) && szBuf[..] == old(Flat(recvBufs)) + chunk + [0]
      ensures var o := FinishBody(old(Abs()), old(Flat(recvBufs)) + chunk);
        && Abs() == o.state
        && shown == old(shown) + o.events
        && stamp == Stamped(old(stamp), o.events, now)
    {
      szBuf := Assemble(needLen + 1, chunk);
      assert szBuf[..needLen] == old(Flat(recvBufs)) + chunk;
      if kind == HeartBeat {
        HandleHeartbeat(now);
      } else if kind == Data {
        shown := shown + [Deliver(szBuf[..needLen])];
      }
      isRecvHead := false;
      needLen := 0;
    }

    // ----------------------------------------------------------------
    // Linux: sending

    /** NetEventModleEpoll_ModEvent (and AddEvent): a one-shot registration that
        asks for EPOLLOUT when something is queued. */
    method ModEvent(accepted: bool) returns (ret: int)
      modifies this`armed, this`asksOut
      ensures ret == if accepted then 0 else -1
      ensures if accepted then armed && asksOut == (sendBufs != [])
              else armed == old(armed) && asksOut == old(asksOut)
    {
      if !accepted {
        return -1;
      }
      armed := true;
      asksOut := sendBufs != [];
      return 0;
    }

    /** TcpSession_IOSend(data) on Linux, nobody else writing to the socket
        meanwhile. */
    method IOSend(data: seq<byte>, writes: seq<WriteResult>) returns (ret: int)
      requires Settles(writes, |data|)
      modifies this`wire
      ensures data == [] ==> ret == -1
      ensures data != [] ==> ret == if Errs(writes, |data|) then -2 else 0
      ensures wire == old(wire) + data[..Sent(writes, |data|)]
      ensures ret == 0 ==> wire == old(wire) + data
      ensures ret == -2 ==> Sent(writes, |data|) < |data|
    {
      if data == [] {
        return -1;
      }
      hide Settles, Sent, Errs, Taken;
      var written, rest := 0, writes;
      ErrsIffShort(writes, |data|);
      while written < |data|
        invariant 0 <= written <= |data| && Settles(rest, |data| - written)
        invariant written + Sent(rest, |data| - written) == Sent(writes, |data|)
        invariant Errs(rest, |data| - written) == Errs(writes, |data|)
        invariant wire == old(wire) + data[..written]
        decreases |rest|
      {
        UnfoldWrite(rest, |data| - written);
        var w := rest[0];
        rest := rest[1..];
        if w.WouldBlock? {
          continue;
        }
        if w.WriteError? {
          return -2;
        }
        var n := Taken(w, |data| - written);
        FrontGrows(old(wire), data, written, n);
        wire := wire + data[written..written + n];
        written := written + n;
      }
      UnfoldWrite(rest, 0);
      if written < |data| {
        // The deferred-send branch: nothing reaches it.
        assert false;
      }
      return 0;
    }

    /** TcpSession_IOSend(int) on Linux, the EPOLLOUT handler: write the front of
        the queue and register again. In a valid session it returns at once. */
    method DrainDeferred(w: WriteResult, accepted: bool) returns (ret: int)
      modifies this`sendBufs, this`wire, this`armed, this`asksOut
      ensures old(LinuxValid()) ==>
        LinuxValid() && ret == 0 && wire == old(wire) && armed == old(armed)
      ensures old(sendBufs) != [] ==>
        var front := old(sendBufs)[0];
        var n := Taken(w, |front|);
        && sendBufs == old(sendBufs)[1..] && wire == old(wire) + front[..n]
        && ret == (if w.WriteError? then -1 else if w.Room? && n != |front| then -2 else if accepted then 0 else -1)
        && armed == (old(armed) || ret == 0)
    {
      if sendBufs == [] {
        return 0;
      }
      var buf := sendBufs[0];
      sendBufs := sendBufs[1..];
      if w.WriteError? {
        return -1;
      }
      if w.Room? {
        var n := Taken(w, |buf|);
        wire := wire + buf[..n];
        if n != |buf| {
          return -2;
        }
      }
      ret := ModEvent(accepted);
    }

    /** The buffer TcpSession_SendData prints in header mode. */
    method BuildFrame(payload: seq<byte>) returns (szBuf: array<byte>)
      requires Sendable(payload)
      ensures fresh(szBuf) && szBuf[..] == Encode(payload)
    {
      var head := new byte[HEAD_LEN](_ => 0);
      assert head[..] == Zeros(HEAD_LEN);
      Memcpy(head, 4, Htonl(|payload|));
      assert head[..] == Zeros(4) + Htonl(|payload|);
      Memcpy(head, 0, RECV_DATA);
      assert head[..] == RECV_DATA + [0] + Htonl(|payload|);
      szBuf := new byte[|payload| + HEAD_LEN](_ => 0);
      Memcpy(szBuf, 0, head[..]);
      Memcpy(szBuf, HEAD_LEN, payload);
    }

    /** TcpSession_SendData on Linux. */
    method SendData(payload: seq<byte>, writes: seq<WriteResult>) returns (ret: int)
      requires Sendable(payload)
      requires Settles(writes, if framed then |payload| + HEAD_LEN else |payload|)
      modifies this`wire
      ensures var data := if framed then Encode(payload) else payload;
        && wire == old(wire) + data[..Sent(writes, |data|)]
        && ret == (if data == [] then -1 else if Errs(writes, |data|) then -2 else 0)
        && (ret == 0 ==> wire == old(wire) + data)
    {
      if framed {
        var szBuf := BuildFrame(payload);
        ret := IOSend(szBuf[..], writes);
      } else {
        ret := IOSend(payload, writes);
      }
    }

    // ----------------------------------------------------------------
    // Linux: receiving

    /** A chunk that arrives while a body is expected. */
    method OnBodyChunk(chunk: seq<byte>, now: int) returns (ret: int)
      requires LinuxValid() && isRecvHead && 0 < |chunk| <= READ_LEN
      modifies this`recvBufs, this`isRecvHead, this`needLen, this`stamp, this`shown
      ensures LinuxValid()
      ensures match Step(Epoll, old(Abs()), chunk)
        case Fail => ret == -1 && Abs() == old(Abs()) && shown == old(shown) && stamp == old(stamp)
        case Go(s, es) =>
          && ret == 0 && Abs() == s && shown == old(shown) + es
          && stamp == Stamped(old(stamp), es, now) && Echoes(es) == []
    {
      ghost var s0 := Abs();
      var cached := GetRecvCacheLen();
      var gap := (needLen - cached) % TWO_32;
      assert gap == Gap(s0) by { TotalWraps(needLen, |Flat(recvBufs)|); }
      var missing := AsInt32(gap);
      hide Gap, Reachable;
      if missing == |chunk| {
        CompleteIsWhole(Epoll, s0, chunk, READ_LEN);
        var szBuf := CompleteBody(chunk, now);
        assert Reachable(Abs(), READ_LEN) by { EmptyIsReachable(Abs(), READ_LEN); }
      } else if missing < |chunk| {
        HoldStaysReachable(Epoll, s0, chunk, READ_LEN);
        Cache(chunk);
      } else {
        return -1;
      }
      return 0;
    }

    /** A chunk that arrives while a header is expected. */
    method OnHeadChunk(chunk: seq<byte>, now: int, writes: seq<WriteResult>) returns (ret: int)
      requires LinuxValid() && !isRecvHead && 0 < |chunk| <= READ_LEN && Settles(writes, HEAD_LEN)
      modifies this`recvBufs, this`isRecvHead, this`needLen, this`kind, this`salt, this`stamp, this`shown, this`wire
      ensures LinuxValid()
      ensures match Step(Epoll, old(Abs()), chunk)
        case Fail =>
          ret == -1 && Abs() == old(Abs()) && shown == old(shown) && stamp == old(stamp) && wire == old(wire)
        case Go(s, es) =>
          && ret == 0 && Abs() == s && shown == old(shown) + es
          && stamp == Stamped(old(stamp), es, now)
          && wire == old(wire) + Written(es, writes)
    {
      ghost var s0 := Abs();
      var cached := GetRecvCacheLen();
      var missing := HEAD_LEN - cached;
      hide FinishHead, Gap;
      if |chunk| > missing {
        return -1;
      } else if |chunk| < missing {
        Cache(chunk);
      } else {
        FinishHeadIsReachable(s0, s0.cache + chunk, READ_LEN);
        var echo := CompleteHead(chunk, now);
        if echo != [] {
          var sent := IOSend(echo, writes);  // a failed echo is only logged
        }
      }
      return 0;
    }

    /** The body of the read loop for one chunk. */
    method OnChunk(chunk: seq<byte>, now: int, writes: seq<WriteResult>) returns (ret: int)
      requires LinuxValid() && 0 < |chunk| <= READ_LEN && Settles(writes, HEAD_LEN)
      modifies this`recvBufs, this`isRecvHead, this`needLen, this`kind, this`salt, this`stamp, this`shown, this`wire
      ensures LinuxValid()
      ensures match Take(framed, Epoll, old(Abs()), chunk)
        case Fail =>
          ret == -1 && Abs() == old(Abs()) && shown == old(shown) && stamp == old(stamp) && wire == old(wire)
        case Go(s, es) =>
          && ret == 0 && Abs() == s && shown == old(shown) + es
          && stamp == Stamped(old(stamp), es, now)
          && wire == old(wire) + Written(es, writes)
      ensures !framed ==> ret == 0 && shown == old(shown) + [Deliver(chunk)] && Abs() == old(Abs())
    {
      if !framed {
        shown := shown + [Deliver(chunk)];
        assert Echoes([Deliver(chunk)]) == [];
        return 0;
      }
      if isRecvHead {
        ret := OnBodyChunk(chunk, now);
      } else {
        ret := OnHeadChunk(chunk, now, writes);
      }
    }

    /** TcpSession_IORecv() on Linux: read until the socket is drained, then
        register again. */
    method IORecv(trace: seq<ReadResult>, accepted: bool) returns (ret: int)
      requires LinuxValid() && Ends(trace) && forall r :: r in trace ==> Readable(r)
      modifies this`recvBufs, this`isRecvHead, this`needLen, this`kind, this`salt, this`stamp, this`shown
      modifies this`wire, this`armed, this`asksOut
      ensures LinuxValid()
      ensures var r := TakeAll(framed, Epoll, old(Abs()), Chunks(trace));
        && Abs() == r.state && shown == old(shown) + r.events
        && (!framed ==> r.alive && r.state == old(Abs()) && EachDelivered(Chunks(trace), r.events))
        && (ret == 0 <==> r.alive && Ending(trace).Drained? && accepted)
        && (ret == -2 <==> r.alive && Ending(trace).ReadError?)
        && ret in {0, -1, -2}
      ensures wire == old(wire) + EchoWire(framed, old(Abs()), trace)
      ensures stamp == StampAfter(framed, old(Abs()), trace, old(stamp))
      ensures armed == (old(armed) || ret == 0)
    {
      hide EachDelivered, Take, Step, Reachable, Stamped, Settles, Written;
      hide TakeAll, StampAfter, EchoWire, Chunks, Ends, Ending;
      ghost var r := TakeAll(framed, Epoll, Abs(), Chunks(trace));
      UnframedDelivers(Epoll, Abs(), Chunks(trace));
      ghost var es: seq<Event> := [];
      var rest := trace;
      while true
        invariant Ends(rest) && Ending(rest) == Ending(trace) && forall x :: x in rest ==> x in trace
        invariant LinuxValid() && shown == old(shown) + es && armed == old(armed)
        invariant Follows(r, es, TakeAll(framed, Epoll, Abs(), Chunks(rest)))
        invariant StampAfter(framed, Abs(), rest, stamp) == StampAfter(framed, old(Abs()), trace, old(stamp))
        invariant wire + EchoWire(framed, Abs(), rest) == old(wire) + EchoWire(framed, old(Abs()), trace)
        decreases |rest|
      {
        assert rest != [] by { EndsNotEmpty(rest); }
        var read := rest[0];
        assert Readable(read) && es + [] == es;
        UnfoldEchoes(framed, Abs(), rest, wire);
        if read.Got? { UnfoldGot(framed, Abs(), stamp, rest); } else { UnfoldOther(framed, Abs(), stamp, rest); }
        match read {
          case Got(chunk, now, writes) =>
            ghost var o := Take(framed, Epoll, Abs(), chunk);
            var taken := OnChunk(chunk, now, writes);
            if taken < 0 {
              return -1;
            }
            es := es + o.events;
          case Eof =>
            return -1;
          case ReadError =>
            return -2;
          case Interrupted =>
          case Drained =>
            break;
        }
        rest := rest[1..];
      }
      ret := ModEvent(accepted);
    }

    // ----------------------------------------------------------------
    // Windows: sending

    /** TcpSession_IOSend(data) on Windows. m_nSquence is a signed 32-bit
        counter that must not overflow. */
    method IOSendOverlapped(data: seq<byte>, posted: bool) returns (ret: int)
      requires sends.last < TWO_31 - 1
      modifies this`sends
      ensures (sends, ret) == OverlappedSend.Submit(old(sends), data, posted)
    {
      if data == [] {
        return -1;
      }
      if !sends.closing {
        var sequence := sends.last + 1;
        sends := sends.(last := sequence);
        if !posted {
          return -2;
        }
        var context := OverlappedSend.Context(sequence, data, 0, |data|);
        sends := sends.(pending := sends.pending + [context]);
      }
      return 0;
    }

    /** TcpSession_IOSend(nSquence) on Windows, once the worker has stored the
        completed length. */
    method CompleteSend(sequence: int, n: nat, posted: bool) returns (ret: int)
      modifies this`sends
      ensures (sends, ret) == OverlappedSend.Complete(old(sends), sequence, n, posted)
    {
      var pending := sends.pending;
      var i := 0;
      while i < |pending| && pending[i].sequence != sequence
        invariant 0 <= i <= |pending|
        invariant forall j :: 0 <= j < i ==> pending[j].sequence != sequence
      {
        i := i + 1;
      }
      assert i == OverlappedSend.IndexOf(pending, sequence);
      if i == |pending| {
        return 0;
      }
      var context := pending[i];
      if n == context.len {
        sends := sends.(pending := pending[..i] + pending[i + 1..]);
        return 0;
      } else if n > context.len {
        sends := sends.(pending := pending[..i] + pending[i + 1..]);
        return -2;
      }
      context := context.(off := context.off + n, len := context.len - n);
      sends := sends.(pending := pending[i := context]);
      if !sends.closing && !posted {
        return -3;
      }
      return 0;
    }

    /** TcpSession_IoSendCount: from here on nothing is posted, so the count it
        returns bounds what is pending after any further calls and completions.
        `h` is the history of the sends so far. */
    method IoSendCount(ghost h: OverlappedSend.History) returns (n: nat)
      requires OverlappedSend.Conserved(OverlappedSend.World(sends, h))
      modifies this`sends
      ensures sends == old(sends).(closing := true) && n == |sends.pending|
      ensures forall ops: seq<OverlappedSend.Op> ::
        |OverlappedSend.RunOps(OverlappedSend.World(sends, h), ops).s.pending| <= n
    {
      sends := sends.(closing := true);
      n := |sends.pending|;
      ghost var w := OverlappedSend.World(sends, h);
      OverlappedSend.StepConserves(OverlappedSend.World(old(sends), h), OverlappedSend.DoClose);
      forall ops: seq<OverlappedSend.Op> ensures |OverlappedSend.RunOps(w, ops).s.pending| <= n {
        OverlappedSend.CountFallsAfterClose(w, ops);
      }
    }

    /** TcpSession_SendData on Windows. */
    method SendDataOverlapped(payload: seq<byte>, posted: bool) returns (ret: int)
      requires Sendable(payload) && sends.last < TWO_31 - 1
      modifies this`sends
      ensures (sends, ret) ==
              OverlappedSend.Submit(old(sends), if framed then Encode(payload) else payload, posted)
    {
      if framed {
        var szBuf := BuildFrame(payload);
        ret := IOSendOverlapped(szBuf[..], posted);
      } else {
        ret := IOSendOverlapped(payload, posted);
      }
    }

    // ----------------------------------------------------------------
    // Windows: receiving

    /** The posting code at the end of TcpSession_IORecv() and in
        TcpSession_IORecv(int). */
    method PostRecv(accepted: bool) returns (ret: int)
      requires Reachable(Abs(), MAX_BUFFER_LEN)
      modifies this`postedLen
      ensures postedLen == if framed then Receiver.PostedLen(Abs()) else 4096
      ensures ret == if sends.closing || accepted then 0 else -1
    {
      if framed {
        var cached := GetRecvCacheLen();
        TotalWraps(needLen, |Flat(recvBufs)|);
        TotalWraps(HEAD_LEN, |Flat(recvBufs)|);
        if isRecvHead {
          postedLen := (needLen - cached) % TWO_32;
        } else {
          postedLen := (HEAD_LEN - cached) % TWO_32;
        }
      } else {
        postedLen := MAX_BUFFER_LEN;
      }
      if !sends.closing && !accepted {
        return -1;
      }
      return 0;
    }

    /** A completed read while a body is expected. */
    method OnBodyCompletion(chunk: seq<byte>, now: int) returns (ret: int)
      requires Reachable(Abs(), MAX_BUFFER_LEN) && isRecvHead && 0 < |chunk| <= MAX_BUFFER_LEN
      modifies this`recvBufs, this`isRecvHead, this`needLen, this`stamp, this`shown
      ensures match Step(Iocp, old(Abs()), chunk)
        case Fail => ret == -1 && Abs() == old(Abs()) && shown == old(shown) && stamp == old(stamp)
        case Go(s, es) =>
          && ret == 0 && Abs() == s && shown == old(shown) + es
          && stamp == Stamped(old(stamp), es, now) && Echoes(es) == []
          && Reachable(s, MAX_BUFFER_LEN)
    {
      ghost var s0 := Abs();
      var cached := GetRecvCacheLen();
      var missing := (needLen - cached) % TWO_32;
      assert missing == Gap(s0) by { TotalWraps(needLen, |Flat(recvBufs)|); }
      hide Gap, Reachable;
      if missing == |chunk| {
        CompleteIsWhole(Iocp, s0, chunk, MAX_BUFFER_LEN);
        var szBuf := CompleteBody(chunk, now);
        assert Reachable(Abs(), MAX_BUFFER_LEN) by { EmptyIsReachable(Abs(), MAX_BUFFER_LEN); }
      } else if missing < |chunk| {
        HoldStaysReachable(Iocp, s0, chunk, MAX_BUFFER_LEN);
        Cache(chunk);
      } else {
        return -1;
      }
      return 0;
    }

    /** A completed read while a header is expected. */
    method OnHeadCompletion(chunk: seq<byte>, now: int, echoPosted: bool) returns (ret: int)
      requires Reachable(Abs(), MAX_BUFFER_LEN) && !isRecvHead && 0 < |chunk|
      requires sends.last < TWO_31 - 1
      modifies this`recvBufs, this`isRecvHead, this`needLen, this`kind, this`salt, this`stamp, this`shown, this`sends
      ensures match Step(Iocp, old(Abs()), chunk)
        case Fail =>
          ret == -1 && Abs() == old(Abs()) && shown == old(shown) && stamp == old(stamp) && sends == old(sends)
        case Go(s, es) =>
          && ret == 0 && Abs() == s && shown == old(shown) + es
          && stamp == Stamped(old(stamp), es, now)
          && sends == OverlappedSend.Submit(old(sends), Flat(Echoes(es)), echoPosted).0
          && Reachable(s, MAX_BUFFER_LEN)
    {
      ghost var s0 := Abs();
      var cached := GetRecvCacheLen();
      var missing := HEAD_LEN - cached;
      hide FinishHead, Gap;
      if |chunk| > missing {
        return -1;
      } else if |chunk| < missing {
        Cache(chunk);
      } else {
        FinishHeadIsReachable(s0, s0.cache + chunk, MAX_BUFFER_LEN);
        var echo := CompleteHead(chunk, now);
        if echo != [] {
          var sent := IOSendOverlapped(echo, echoPosted);  // a failed echo is only logged
        }
      }
      return 0;
    }

    /** TcpSession_IORecv() on Windows: `n` bytes have completed into ioBuf. */
    method IORecvCompleted(n: nat, now: int, echoPosted: bool, accepted: bool) returns (ret: int)
      requires WindowsValid() && n <= MAX_BUFFER_LEN && n <= postedLen && sends.last < TWO_31 - 1
      modifies this`recvBufs, this`isRecvHead, this`needLen, this`kind, this`salt, this`stamp, this`shown
      modifies this`sends, this`postedLen, ioBuf
      ensures WindowsValid()
      ensures n == 0 ==>
        && Abs() == old(Abs()) && shown == old(shown) && stamp == old(stamp) && sends == old(sends)
        && ret == (if sends.closing || accepted then 0 else -1)
      ensures n > 0 && !framed ==> shown == old(shown) + [Deliver(old(ioBuf[..n]))] && Abs() == old(Abs())
      ensures n > 0 ==>
        match Take(framed, Iocp, old(Abs()), old(ioBuf[..n]))
        case Fail =>
          ret == -1 && Abs() == old(Abs()) && shown == old(shown) && stamp == old(stamp) && sends == old(sends)
        case Go(s, es) =>
          && Abs() == s && shown == old(shown) + es && stamp == Stamped(old(stamp), es, now)
          && sends == OverlappedSend.Submit(old(sends), Flat(Echoes(es)), echoPosted).0
          && ret == (if sends.closing || accepted then 0 else -1)
    {
      hide Step;
      if n != 0 {
        var chunk := ioBuf[..n];
        if framed {
          Receiver.PostedStep(Abs(), chunk);
          ret := 0;
          if isRecvHead {
            ret := OnBodyCompletion(chunk, now);
          } else {
            ret := OnHeadCompletion(chunk, now, echoPosted);
          }
          if ret < 0 {
            return;
          }
        } else {
          shown := shown + [Deliver(chunk)];
          assert Echoes([Deliver(chunk)]) == [];
        }
      }
      Memcpy(ioBuf, 0, Zeros(MAX_BUFFER_LEN));
      ret := PostRecv(accepted);
    }
  }

  /** `r` is the run `q` after the events `es`. */
  ghost predicate Follows(r: Ran, es: seq<Event>, q: Ran) {
    r == Ran(es + q.events, q.alive, q.state)
  }

  lemma EndsNotEmpty(trace: seq<ReadResult>)
    requires Ends(trace)
    ensures trace != []
  {
  }

  /** A trace that starts with a chunk, unfolded. */
  lemma UnfoldGot(framed: bool, s: RecvState, stamp: int, trace: seq<ReadResult>)
    requires Ends(trace) && trace[0].Got?
    ensures Ends(trace[1..]) && Ending(trace[1..]) == Ending(trace)
    ensures var o := Take(framed, Epoll, s, trace[0].bytes);
      var r := TakeAll(framed, Epoll, s, Chunks(trace));
      if o.Fail? then r == Ran([], false, s) && StampAfter(framed, s, trace, stamp) == stamp
      else
        && Follows(r, o.events, TakeAll(framed, Epoll, o.state, Chunks(trace[1..])))
        && StampAfter(framed, s, trace, stamp)
           == StampAfter(framed, o.state, trace[1..], Stamped(stamp, o.events, trace[0].now))
  {
    assert Chunks(trace)[1..] == Chunks(trace[1..]);
  }

  /** A trace that starts with anything else, unfolded. */
  lemma UnfoldOther(framed: bool, s: RecvState, stamp: int, trace: seq<ReadResult>)
    requires Ends(trace) && !trace[0].Got?
    ensures var r := TakeAll(framed, Epoll, s, Chunks(trace));
      if trace[0].Interrupted? then
        && Ends(trace[1..]) && Ending(trace[1..]) == Ending(trace)
        && r == TakeAll(framed, Epoll, s, Chunks(trace[1..]))
        && StampAfter(framed, s, trace, stamp) == StampAfter(framed, s, trace[1..], stamp)
      else
        Ending(trace) == trace[0] && r == Ran([], true, s) && StampAfter(framed, s, trace, stamp) == stamp
  {
  }

  /** What a read loop writes after `wire`, unfolded. */
  lemma UnfoldEchoes(framed: bool, s: RecvState, trace: seq<ReadResult>, wire: seq<byte>)
    requires Ends(trace) && forall r :: r in trace ==> Readable(r)
    ensures trace[0].Got? ==>
      var o := Take(framed, Epoll, s, trace[0].bytes);
      && Readable(trace[0])
      && wire + EchoWire(framed, s, trace) ==
         if o.Fail? then wire
         else wire + Written(o.events, trace[0].writes) + EchoWire(framed, o.state, trace[1..])
    ensures !trace[0].Got? ==>
      wire + EchoWire(framed, s, trace) ==
      wire + if trace[0].Interrupted? then EchoWire(framed, s, trace[1..]) else []
  {
    assert Readable(trace[0]);
  }

  /** No echo written while handling these reads meets a write error. */
  predicate AllEchoesSent(trace: seq<ReadResult>) {
    forall r :: r in trace && r.Got? && Settles(r.writes, HEAD_LEN) ==> !Errs(r.writes, HEAD_LEN)
  }

  /** A step shows at most one echo, and an echo is a whole header. */
  lemma OneEcho(framed: bool, s: RecvState, c: seq<byte>, writes: seq<WriteResult>)
    requires Settles(writes, HEAD_LEN) && !Errs(writes, HEAD_LEN)
    ensures var o := Take(framed, Epoll, s, c);
            o.Go? ==> Written(o.events, writes) == Flat(Echoes(o.events))
  {
    ErrsIffShort(writes, HEAD_LEN);
    var head := s.cache + c;
    assert Echoes([Beat]) == [] && Echoes([Deliver(head)]) == [] && Echoes([Deliver(c)]) == [];
    assert [Beat, Echo(head)][1..] == [Echo(head)] && Echoes([Echo(head)]) == [head] && Flat([head]) == head;
  }

  /** Unless a write fails, the loop writes exactly the echoes it shows. */
  lemma {:induction false} EchoWireIsEchoes(framed: bool, s: RecvState, trace: seq<ReadResult>)
    requires Ends(trace) && (forall r :: r in trace ==> Readable(r)) && AllEchoesSent(trace)
    ensures EchoWire(framed, s, trace) == Flat(Echoes(TakeAll(framed, Epoll, s, Chunks(trace)).events))
    decreases |trace|
  {
    hide Step, Written;
    var read := trace[0];
    assert read in trace && Readable(read);
    assert [] + EchoWire(framed, s, trace) == EchoWire(framed, s, trace);
    UnfoldEchoes(framed, s, trace, []);
    if read.Got? {
      UnfoldGot(framed, s, 0, trace);
      var o := Take(framed, Epoll, s, read.bytes);
      if o.Go? {
        OneEcho(framed, s, read.bytes, read.writes);
        EchoWireIsEchoes(framed, o.state, trace[1..]);
        var more := TakeAll(framed, Epoll, o.state, Chunks(trace[1..])).events;
        EchoesAppend(o.events, more);
        FlatAppend(Echoes(o.events), Echoes(more));
      }
    } else if read.Interrupted? {
      EchoWireIsEchoes(framed, s, trace[1..]);
    }
  }
}
