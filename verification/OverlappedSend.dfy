/** The pending overlapped sends of the Windows session: m_PerIoContextSends,
    m_nSquence and the completion arithmetic of TcpSession_IOSend(int). */
module OverlappedSend {
  import opened Wire

  /** One pending send: wsaBuf is the window of `len` bytes at `off` inside the
      buffer. */
  datatype Context = Context(sequence: int, buffer: seq<byte>, off: nat, len: nat)

  predicate InBounds(c: Context) {
    0 < c.len && c.off + c.len == |c.buffer|
  }

  function Window(c: Context): seq<byte>
    requires InBounds(c)
  {
    c.buffer[c.off..c.off + c.len]
  }

  /** `closing` is m_bIsToBeClose, `last` is m_nSquence. */
  datatype SendState = SendState(last: int, pending: seq<Context>, closing: bool)

  const EMPTY := SendState(0, [], false)

  /** The position of the first context with this sequence number, or the
      length of the vector. */
  function IndexOf(pending: seq<Context>, sequence: int): (i: nat)
    ensures i <= |pending|
    ensures i < |pending| ==> pending[i].sequence == sequence
    ensures forall j :: 0 <= j < i ==> pending[j].sequence != sequence
  {
    if pending == [] || pending[0].sequence == sequence then 0
    else 1 + IndexOf(pending[1..], sequence)
  }

  /** TcpSession_IOSend(data): new state and return value; `posted` says
      whether WSASend accepted the request. */
  function Submit(s: SendState, data: seq<byte>, posted: bool): (SendState, int) {
    if data == [] then (s, -1)
    else if s.closing then (s, 0)
    else if !posted then (s.(last := s.last + 1), -2)
    else (s.(last := s.last + 1, pending := s.pending + [Context(s.last + 1, data, 0, |data|)]), 0)
  }

  /** The vector without its i-th context. */
  function Without(pending: seq<Context>, i: nat): seq<Context>
    requires i < |pending|
  {
    pending[..i] + pending[i + 1..]
  }

  /** TcpSession_IOSend(sequence) after the worker stored `n` in dwSendLen. */
  function Complete(s: SendState, sequence: int, n: nat, posted: bool): (SendState, int) {
    var i := IndexOf(s.pending, sequence);
    if i == |s.pending| then (s, 0) else
    var c := s.pending[i];
    var gone := s.(pending := Without(s.pending, i));
    if n == c.len then (gone, 0)
    else if n > c.len then (gone, -2)
    else (s.(pending := s.pending[i := c.(off := c.off + n, len := c.len - n)]),
          if s.closing || posted then 0 else -3)
  }

  // ------------------------------------------------------------------
  // Runs, with the history a reader of the wire would keep

  datatype Op =
    | DoSubmit(data: seq<byte>, posted: bool)
    | DoComplete(sequence: int, n: nat, posted: bool)
    | DoClose

  /** For each sequence number accepted by WSASend, the payload submitted and
      the bytes acknowledged so far; and the sends dropped because a completion
      claimed more than was posted. */
  datatype History = History(payloads: map<int, seq<byte>>, acked: map<int, seq<byte>>, overrun: set<int>)

  datatype World = World(s: SendState, h: History)

  const START := World(EMPTY, History(map[], map[], {}))

  /** WSASend is tried with something, and takes it: what is submitted then has
      to be pending, or acknowledged. */
  predicate Accepts(s: SendState, data: seq<byte>, posted: bool) {
    data != [] && !s.closing && posted
  }

  /** The history is kept from the operations alone; only an acknowledgement
      looks up which context it is about. */
  function Apply(w: World, op: Op): World {
    match op
    case DoClose => w.(s := w.s.(closing := true))
    case DoSubmit(data, posted) =>
      var s' := Submit(w.s, data, posted).0;
      World(s', if !Accepts(w.s, data, posted) then w.h else
                  w.h.(payloads := w.h.payloads[w.s.last + 1 := data], acked := w.h.acked[w.s.last + 1 := []]))
    case DoComplete(sequence, n, posted) =>
      var i := IndexOf(w.s.pending, sequence);
      World(Complete(w.s, sequence, n, posted).0,
            if i == |w.s.pending| then w.h
            else if n > w.s.pending[i].len then w.h.(overrun := w.h.overrun + {sequence})
            else w.h.(acked := w.h.acked[sequence := AckedOr(w.h, sequence) + Front(w.s.pending[i], n)]))
  }

  function AckedOr(h: History, sequence: int): seq<byte> {
    if sequence in h.acked then h.acked[sequence] else []
  }

  /** The first `n` bytes of a context's window. */
  function Front(c: Context, n: nat): seq<byte> {
    if c.off + n <= |c.buffer| then c.buffer[c.off..c.off + n] else []
  }

  function RunOps(w: World, ops: seq<Op>): World
    decreases |ops|
  {
    if ops == [] then w else RunOps(Apply(w, ops[0]), ops[1..])
  }

  /** Sequence numbers in the vector rise strictly and stay at or below the
      counter. */
  predicate Ordered(s: SendState) {
    && (forall i, j :: 0 <= i < j < |s.pending| ==> s.pending[i].sequence < s.pending[j].sequence)
    && (forall i :: 0 <= i < |s.pending| ==> s.pending[i].sequence <= s.last)
  }

  /** Nothing of a pending payload is lost or repeated: what was acknowledged,
      followed by the window still posted, is the payload. */
  predicate PendingConserved(w: World) {
    forall i :: 0 <= i < |w.s.pending| ==>
      var c := w.s.pending[i];
      && InBounds(c)
      && c.sequence in w.h.payloads && c.sequence in w.h.acked
      && w.h.payloads[c.sequence] == c.buffer
      && w.h.acked[c.sequence] == c.buffer[..c.off]
  }

  /** A send that has left the vector was acknowledged in full, unless a
      completion claimed more bytes than were posted. */
  predicate SettledConserved(w: World) {
    && w.h.payloads.Keys == w.h.acked.Keys
    && (forall q :: q in w.h.payloads ==> q <= w.s.last)
    && (forall q :: q in w.h.payloads && IndexOf(w.s.pending, q) == |w.s.pending| ==>
          w.h.acked[q] == w.h.payloads[q] || q in w.h.overrun)
  }

  predicate Conserved(w: World) {
    Ordered(w.s) && PendingConserved(w) && SettledConserved(w)
  }

  lemma IndexOfIsUnique(s: SendState, i: nat)
    requires Ordered(s) && i < |s.pending|
    ensures IndexOf(s.pending, s.pending[i].sequence) == i
  {
  }

  /** In an ordered vector, a sequence number is missing exactly when no
      context carries it. */
  predicate Pending(s: SendState, q: int) {
    IndexOf(s.pending, q) < |s.pending|
  }

  lemma SubmitConserves(w: World, data: seq<byte>, posted: bool)
    requires Conserved(w)
    ensures Conserved(Apply(w, DoSubmit(data, posted)))
  {
    SubmitOrders(w, data, posted);
    SubmitSettles(w, data, posted);
  }

  lemma SubmitOrders(w: World, data: seq<byte>, posted: bool)
    requires Conserved(w)
    ensures var w' := Apply(w, DoSubmit(data, posted)); Ordered(w'.s) && PendingConserved(w')
  {
    hide IndexOf;
    var p := w.s.pending;
    if Accepts(w.s, data, posted) {
      var p' := Apply(w, DoSubmit(data, posted)).s.pending;
      assert |p'| == |p| + 1 && p'[|p|] == Context(w.s.last + 1, data, 0, |data|);
      assert forall i :: 0 <= i < |p| ==> p'[i] == p[i];
    }
  }

  lemma PendingOneMore(s: SendState, c: Context, last: int, q: int)
    requires Pending(s, q) || q == c.sequence
    ensures Pending(s.(last := last, pending := s.pending + [c]), q)
  {
    var i := if Pending(s, q) then IndexOf(s.pending, q) else |s.pending|;
    assert (s.pending + [c])[i].sequence == q;
  }

  lemma SubmitSettles(w: World, data: seq<byte>, posted: bool)
    requires Conserved(w)
    ensures SettledConserved(Apply(w, DoSubmit(data, posted)))
  {
    hide IndexOf, Ordered, PendingConserved;
    if Accepts(w.s, data, posted) {
      var w' := Apply(w, DoSubmit(data, posted));
      var c := Context(w.s.last + 1, data, 0, |data|);
      forall q | q in w'.h.payloads && !Pending(w'.s, q)
        ensures w'.h.acked[q] == w'.h.payloads[q] || q in w'.h.overrun
      {
        if Pending(w.s, q) || q == c.sequence { PendingOneMore(w.s, c, w.s.last + 1, q); }
      }
    }
  }

  lemma WithoutAt(s: SendState, i: nat, h: History)
    requires i < |s.pending| && Ordered(s) && PendingConserved(World(s, h))
    ensures var gone := s.(pending := Without(s.pending, i));
      && Ordered(gone)
      && PendingConserved(World(gone, h))
      && (forall k :: 0 <= k < |gone.pending| ==> gone.pending[k].sequence != s.pending[i].sequence)
  {
    var gone := Without(s.pending, i);
    forall k | 0 <= k < |gone| ensures gone[k] == s.pending[if k < i then k else k + 1] {
    }
  }

  lemma WithoutKeepsOthers(s: SendState, i: nat, q: int)
    requires i < |s.pending| && Pending(s, q) && q != s.pending[i].sequence
    ensures Pending(s.(pending := Without(s.pending, i)), q)
  {
    var j := IndexOf(s.pending, q);
    assert Without(s.pending, i)[if j < i then j else j - 1].sequence == q;
  }

  lemma RemoveConserves(w: World, i: nat, h: History)
    requires Conserved(w) && i < |w.s.pending|
    requires var c := w.s.pending[i];
      || h == w.h.(overrun := w.h.overrun + {c.sequence})
      || h == w.h.(acked := w.h.acked[c.sequence := c.buffer])
    ensures Conserved(World(w.s.(pending := Without(w.s.pending, i)), h))
  {
    WithoutAt(w.s, i, w.h);
    var gone := w.s.(pending := Without(w.s.pending, i));
    forall q | q in w.h.payloads && !Pending(gone, q) && q != w.s.pending[i].sequence
      ensures w.h.acked[q] == w.h.payloads[q] || q in w.h.overrun
    {
      if Pending(w.s, q) { WithoutKeepsOthers(w.s, i, q); }
    }
    assert w.s.pending[i].sequence in w.h.payloads;
  }

  function Advanced(c: Context, n: nat): Context
    requires n <= c.len
  {
    c.(off := c.off + n, len := c.len - n)
  }

  lemma AdvancedKeepsPending(s: SendState, i: nat, n: nat, q: int)
    requires i < |s.pending| && n <= s.pending[i].len
    ensures Pending(s.(pending := s.pending[i := Advanced(s.pending[i], n)]), q) <==> Pending(s, q)
  {
    var now := s.pending[i := Advanced(s.pending[i], n)];
    if Pending(s, q) { assert now[IndexOf(s.pending, q)].sequence == q; }
    if IndexOf(now, q) < |now| { assert s.pending[IndexOf(now, q)].sequence == q; }
  }

  lemma AdvanceConserves(w: World, i: nat, n: nat)
    requires Conserved(w) && i < |w.s.pending| && n < w.s.pending[i].len
    ensures var c := w.s.pending[i];
            Conserved(World(w.s.(pending := w.s.pending[i := Advanced(c, n)]),
                            w.h.(acked := w.h.acked[c.sequence := c.buffer[..c.off] + Front(c, n)])))
  {
    hide IndexOf;
    var c := w.s.pending[i];
    assert c.buffer[..c.off] + Front(c, n) == c.buffer[..c.off + n];
    var now := w.s.(pending := w.s.pending[i := Advanced(c, n)]);
    assert Pending(w.s, c.sequence) by { IndexOfIsUnique(w.s, i); }
    forall q | q in w.h.payloads && !Pending(now, q)
      ensures q != c.sequence && (w.h.acked[q] == w.h.payloads[q] || q in w.h.overrun)
    {
      AdvancedKeepsPending(w.s, i, n, q);
    }
  }

  lemma StepConserves(w: World, op: Op)
    requires Conserved(w)
    ensures Conserved(Apply(w, op))
  {
    match op
    case DoClose =>
      assert Conserved(w.(s := w.s.(closing := true)));
    case DoSubmit(data, posted) => SubmitConserves(w, data, posted);
    case DoComplete(sequence, n, posted) => CompleteConserves(w, sequence, n, posted);
  }

  lemma CompleteConserves(w: World, sequence: int, n: nat, posted: bool)
    requires Conserved(w)
    ensures Conserved(Apply(w, DoComplete(sequence, n, posted)))
  {
    hide IndexOf;
    var i := IndexOf(w.s.pending, sequence);
    if i < |w.s.pending| {
      var c := w.s.pending[i];
      assert InBounds(c) && AckedOr(w.h, sequence) == c.buffer[..c.off];
      var w' := Apply(w, DoComplete(sequence, n, posted));
      if n < c.len {
        AdvanceConserves(w, i, n);
      } else {
        assert n == c.len ==> c.buffer[..c.off] + Front(c, n) == c.buffer;
        RemoveConserves(w, i, w'.h);
        assert w'.s == w.s.(pending := Without(w.s.pending, i));
      }
    }
  }

  /** Conservation in every reachable state of the Windows send path. */
  lemma {:induction false} SendConservation(ops: seq<Op>, w: World)
    requires Conserved(w)
    ensures Conserved(RunOps(w, ops))
    decreases |ops|
  {
    if ops != [] {
      StepConserves(w, ops[0]);
      SendConservation(ops[1..], Apply(w, ops[0]));
    }
  }

  /** The sends a run of operations gets accepted, with the numbers they are
      given: the counter goes up with every try, and closing ends the tries. */
  function AcceptedSends(last: int, closing: bool, ops: seq<Op>): seq<(int, seq<byte>)>
    decreases |ops|
  {
    if ops == [] then [] else
    match ops[0]
    case DoClose => AcceptedSends(last, true, ops[1..])
    case DoComplete(_, _, _) => AcceptedSends(last, closing, ops[1..])
    case DoSubmit(data, posted) =>
      if data == [] || closing then AcceptedSends(last, closing, ops[1..])
      else (if posted then [(last + 1, data)] else []) + AcceptedSends(last + 1, closing, ops[1..])
  }

  predicate Rising(last: int, sent: seq<(int, seq<byte>)>) {
    && (forall i :: 0 <= i < |sent| ==> sent[i].0 > last)
    && (forall i, j :: 0 <= i < j < |sent| ==> sent[i].0 < sent[j].0)
  }

  lemma RisingOneMore(last: int, data: seq<byte>, rest: seq<(int, seq<byte>)>)
    requires Rising(last + 1, rest)
    ensures Rising(last, [(last + 1, data)] + rest) && Rising(last, [] + rest)
  {
    var sent := [(last + 1, data)] + rest;
    assert forall i :: 0 < i < |sent| ==> sent[i] == rest[i - 1];
  }

  lemma {:induction false} NumbersRise(last: int, closing: bool, ops: seq<Op>)
    ensures Rising(last, AcceptedSends(last, closing, ops))
    decreases |ops|
  {
    if ops != [] {
      match ops[0]
      case DoClose => NumbersRise(last, true, ops[1..]);
      case DoComplete(_, _, _) => NumbersRise(last, closing, ops[1..]);
      case DoSubmit(data, posted) =>
        if data == [] || closing {
          NumbersRise(last, closing, ops[1..]);
        } else {
          NumbersRise(last + 1, closing, ops[1..]);
          RisingOneMore(last, data, AcceptedSends(last + 1, closing, ops[1..]));
        }
    }
  }

  predicate Kept(before: map<int, seq<byte>>, after: map<int, seq<byte>>, q: int) {
    q in before && q in after && after[q] == before[q]
  }

  /** The payloads on record are those of the accepted sends, each under its
      number. */
  ghost predicate Records(before: map<int, seq<byte>>, sent: seq<(int, seq<byte>)>, after: map<int, seq<byte>>) {
    && (forall i :: 0 <= i < |sent| ==> sent[i].0 in after && after[sent[i].0] == sent[i].1)
    && (forall q :: q in after ==> Kept(before, after, q) || exists i :: 0 <= i < |sent| && sent[i].0 == q)
    && (forall q :: q in before ==> q in after)
  }

  /** Over every run, the payloads on record are exactly the accepted submits, in
      order, each under the number it was given. */
  lemma {:induction false} RecordedAreAccepted(w: World, ops: seq<Op>)
    requires Conserved(w)
    ensures Records(w.h.payloads, AcceptedSends(w.s.last, w.s.closing, ops), RunOps(w, ops).h.payloads)
    ensures Rising(w.s.last, AcceptedSends(w.s.last, w.s.closing, ops))
    decreases |ops|
  {
    hide Conserved, Records, Rising, Submit, Complete;
    NumbersRise(w.s.last, w.s.closing, ops);
    if ops == [] {
      assert Records(w.h.payloads, [], w.h.payloads) by { NothingRecorded(w.h.payloads); }
    } else {
      var w' := Apply(w, ops[0]);
      StepConserves(w, ops[0]);
      RecordedAreAccepted(w', ops[1..]);
      NumbersRise(w'.s.last, w'.s.closing, ops[1..]);
      StepRecords(w, ops[0]);
      var end := RunOps(w, ops).h.payloads;
      var sent, rest := AcceptedSends(w.s.last, w.s.closing, ops), AcceptedSends(w'.s.last, w'.s.closing, ops[1..]);
      assert [] + rest == rest;
      if ops[0].DoSubmit? && Accepts(w.s, ops[0].data, ops[0].posted) {
        RecordsOneMore(w.h.payloads, w.s.last + 1, ops[0].data, w'.h.payloads, rest, end);
      }
    }
  }

  lemma StepRecords(w: World, op: Op)
    ensures var w' := Apply(w, op);
      && w'.s.closing == (w.s.closing || op.DoClose?)
      && w'.s.last == (if op.DoSubmit? && op.data != [] && !w.s.closing then w.s.last + 1 else w.s.last)
      && w'.h.payloads == (if op.DoSubmit? && op.data != [] && !w.s.closing && op.posted
                           then w.h.payloads[w.s.last + 1 := op.data] else w.h.payloads)
  {
  }

  lemma NothingRecorded(payloads: map<int, seq<byte>>)
    ensures Records(payloads, [], payloads)
  {
  }

  lemma RecordsOneMore(before: map<int, seq<byte>>, q: int, data: seq<byte>, mid: map<int, seq<byte>>,
                       rest: seq<(int, seq<byte>)>, after: map<int, seq<byte>>)
    requires mid == before[q := data] && Records(mid, rest, after)
    requires Rising(q, rest)
    ensures Records(before, [(q, data)] + rest, after)
  {
    var sent := [(q, data)] + rest;
    forall k | k in after ensures Kept(before, after, k) || exists i :: 0 <= i < |sent| && sent[i].0 == k {
      if !Kept(before, after, k) {
        if k == q {
          assert sent[0].0 == k;
        } else {
          var i :| 0 <= i < |rest| && rest[i].0 == k;
          assert sent[i + 1].0 == k;
        }
      }
    }
    assert after[q] == data;
  }

  /** Nothing accepted is lost: over every run, each accepted send is either still
      pending, its acknowledged bytes and its window making up its payload, or
      acknowledged in full, unless a completion overran it. */
  lemma NothingAcceptedIsLost(ops: seq<Op>, i: nat)
    requires i < |AcceptedSends(0, false, ops)|
    ensures var (q, data) := AcceptedSends(0, false, ops)[i];
      var w := RunOps(START, ops);
      && q in w.h.acked
      && (if Pending(w.s, q) then
            var c := w.s.pending[IndexOf(w.s.pending, q)];
            c.buffer == data && InBounds(c) && w.h.acked[q] + Window(c) == data
          else
            w.h.acked[q] == data || q in w.h.overrun)
  {
    RecordedAreAccepted(START, ops);
    SendConservation(ops, START);
    hide RunOps, AcceptedSends;
    var (q, data) := AcceptedSends(0, false, ops)[i];
    var w := RunOps(START, ops);
    assert q in w.h.payloads && w.h.payloads[q] == data;
    if Pending(w.s, q) {
      var c := w.s.pending[IndexOf(w.s.pending, q)];
      assert InBounds(c) && c.sequence == q;
    }
  }

  /** What a submit answers: -1 to nothing, 0 unheard once closing, -2 to what
      WSASend refused, and 0 to what is on its way from then on. */
  lemma SubmitAnswers(s: SendState, data: seq<byte>, posted: bool)
    ensures var (s', ret) := Submit(s, data, posted);
      && (ret == -1 <==> data == [])
      && (ret == -2 <==> data != [] && !s.closing && !posted)
      && (Accepts(s, data, posted) ==>
            ret == 0 && |s'.pending| == |s.pending| + 1 && s'.pending[..|s.pending|] == s.pending
            && s'.pending[|s.pending|] == Context(s.last + 1, data, 0, |data|))
      && (!Accepts(s, data, posted) ==> s'.pending == s.pending)
      && (data == [] || s.closing ==> s' == s)
  {
  }

  /** What a completion answers, in terms of the history: nothing to a send that
      is not pending; 0 when the rest is acknowledged, -2 when more than the rest
      is claimed; and for a part of it, -3 exactly when the remainder has to be
      posted again and WSASend refuses. */
  lemma CompleteAnswers(w: World, sequence: int, n: nat, posted: bool)
    requires Conserved(w)
    ensures var (s', ret) := Complete(w.s, sequence, n, posted);
      if !Pending(w.s, sequence) then s' == w.s && ret == 0 else
      sequence in w.h.payloads && sequence in w.h.acked &&
      var left := |w.h.payloads[sequence]| - |w.h.acked[sequence]|;
      && left > 0
      && (ret == -2 <==> n > left)
      && (ret == -3 <==> n < left && !w.s.closing && !posted)
      && (ret == 0 <==> n == left || (n < left && (w.s.closing || posted)))
      && (Pending(s', sequence) <==> n < left)
  {
    var i := IndexOf(w.s.pending, sequence);
    if i < |w.s.pending| {
      var c := w.s.pending[i];
      assert InBounds(c) && c.sequence == sequence;
      if n < c.len {
        AdvancedKeepsPending(w.s, i, n, sequence);
      } else {
        WithoutAt(w.s, i, w.h);
      }
    }
  }

  /** What a completion puts on record: nothing for a send that is not pending; the
      next bytes of the payload as acknowledged; an overrun exactly if more than
      the rest was claimed. */
  lemma CompletionOnRecord(w: World, sequence: int, n: nat, posted: bool)
    requires Conserved(w)
    ensures var h := Apply(w, DoComplete(sequence, n, posted)).h;
      if !Pending(w.s, sequence) then h == w.h else
      sequence in w.h.payloads && sequence in w.h.acked &&
      var data, done := w.h.payloads[sequence], |w.h.acked[sequence]|;
      && h.payloads == w.h.payloads
      && (done + n <= |data| ==> h.acked == w.h.acked[sequence := data[..done + n]] && h.overrun == w.h.overrun)
      && (done + n > |data| ==> h.acked == w.h.acked && h.overrun == w.h.overrun + {sequence})
  {
    var i := IndexOf(w.s.pending, sequence);
    if i < |w.s.pending| {
      var c := w.s.pending[i];
      assert InBounds(c) && c.sequence == sequence;
      if n <= c.len {
        assert c.buffer[..c.off] + Front(c, n) == c.buffer[..c.off + n];
      }
    }
  }

  /** Read out for one pending send: acknowledged bytes and window make up the
      payload, and the lookup finds this context and no other. */
  lemma AckedPlusWindowIsPayload(ops: seq<Op>, i: nat)
    requires i < |RunOps(START, ops).s.pending|
    ensures var w := RunOps(START, ops);
            var c := w.s.pending[i];
      && InBounds(c)
      && c.sequence in w.h.acked && c.sequence in w.h.payloads
      && w.h.acked[c.sequence] + Window(c) == w.h.payloads[c.sequence]
      && IndexOf(w.s.pending, c.sequence) == i
      && (forall j :: 0 <= j < |w.s.pending| && w.s.pending[j].sequence == c.sequence ==> j == i)
  {
    SendConservation(ops, START);
    IndexOfIsUnique(RunOps(START, ops).s, i);
  }

  function Remaining(pending: seq<Context>): nat {
    if pending == [] then 0 else pending[0].len + Remaining(pending[1..])
  }

  lemma {:induction false} RemainingSplit(a: seq<Context>, c: Context, b: seq<Context>)
    ensures Remaining(a + [c] + b) == Remaining(a) + c.len + Remaining(b)
    ensures Remaining(a + b) == Remaining(a) + Remaining(b)
  {
    if a == [] {
      assert [] + [c] + b == [c] + b && ([c] + b)[1..] == b && [] + b == b;
    } else {
      assert (a + [c] + b)[1..] == a[1..] + [c] + b && (a + b)[1..] == a[1..] + b;
      RemainingSplit(a[1..], c, b);
    }
  }

  lemma RemainingAt(p: seq<Context>, i: nat, c: Context)
    requires i < |p|
    ensures Remaining(p[i := c]) == Remaining(p) - p[i].len + c.len
    ensures Remaining(Without(p, i)) == Remaining(p) - p[i].len
  {
    assert p == p[..i] + [p[i]] + p[i + 1..];
    assert p[i := c] == p[..i] + [c] + p[i + 1..];
    RemainingSplit(p[..i], p[i], p[i + 1..]);
    RemainingSplit(p[..i], c, p[i + 1..]);
  }

  /** Every completion of a pending send takes its bytes off the total, never
      more than its window; so non-zero completions make the total fall. */
  lemma CompletionShrinksRemaining(w: World, sequence: int, n: nat, posted: bool)
    requires PendingConserved(w) && Pending(w.s, sequence)
    ensures var c := w.s.pending[IndexOf(w.s.pending, sequence)];
            Remaining(Complete(w.s, sequence, n, posted).0.pending)
            == Remaining(w.s.pending) - (if n < c.len then n else c.len)
    ensures n > 0 ==> Remaining(Complete(w.s, sequence, n, posted).0.pending) < Remaining(w.s.pending)
  {
    hide Remaining;
    var i := IndexOf(w.s.pending, sequence);
    var c := w.s.pending[i];
    assert c.len > 0;
    RemainingAt(w.s.pending, i, c.(off := c.off + n, len := if n < c.len then c.len - n else 0));
  }

  /** Once closing, only completions change the vector: every context still
      there was there before, with no more left to send, in the same order. */
  predicate Drained(p: seq<Context>, q: seq<Context>)
    decreases |p| + |q|
  {
    if q == [] then true
    else if p == [] then false
    else if p[0].sequence == q[0].sequence then
      p[0].buffer == q[0].buffer && q[0].off >= p[0].off && q[0].len <= p[0].len && Drained(p[1..], q[1..])
    else Drained(p[1..], q)
  }

  lemma {:induction false} DrainedSelf(p: seq<Context>)
    ensures Drained(p, p)
  {
    if p != [] { DrainedSelf(p[1..]); }
  }

  lemma {:induction false} DrainedWithout(p: seq<Context>, i: nat)
    requires i < |p| && forall j, k :: 0 <= j < k < |p| ==> p[j].sequence < p[k].sequence
    ensures Drained(p, Without(p, i))
    decreases i
  {
    var q := Without(p, i);
    if i == 0 {
      assert q == p[1..];
      DrainedSelf(p[1..]);
    } else {
      assert q[0] == p[0] && q[1..] == Without(p[1..], i - 1);
      DrainedWithout(p[1..], i - 1);
    }
  }

  lemma {:induction false} DrainedAdvanced(p: seq<Context>, i: nat, n: nat)
    requires i < |p| && n <= p[i].len
    ensures Drained(p, p[i := Advanced(p[i], n)])
    decreases i
  {
    var q := p[i := Advanced(p[i], n)];
    if i == 0 {
      assert q[1..] == p[1..];
      DrainedSelf(p[1..]);
    } else {
      assert q[1..] == p[1..][i - 1 := Advanced(p[i], n)];
      DrainedAdvanced(p[1..], i - 1, n);
    }
  }

  /** After TcpSession_IoSendCount no step posts anything new: the counter
      stands, and what is pending only drains. */
  lemma ClosedOnlyDrains(w: World, op: Op)
    requires Conserved(w) && w.s.closing
    ensures var w' := Apply(w, op);
      && w'.s.closing && w'.s.last == w.s.last && w'.h.payloads == w.h.payloads
      && Drained(w.s.pending, w'.s.pending) && |w'.s.pending| <= |w.s.pending|
      && Remaining(w'.s.pending) <= Remaining(w.s.pending)
  {
    hide Drained, Remaining;
    DrainedSelf(w.s.pending);
    if op.DoComplete? {
      var i := IndexOf(w.s.pending, op.sequence);
      if i < |w.s.pending| {
        var c := w.s.pending[i];
        CompletionShrinksRemaining(w, op.sequence, op.n, op.posted);
        if op.n < c.len {
          DrainedAdvanced(w.s.pending, i, op.n);
        } else {
          DrainedWithout(w.s.pending, i);
        }
      }
    }
  }

  /** So over every run after closing the count only falls. */
  lemma {:induction false} CountFallsAfterClose(w: World, ops: seq<Op>)
    requires Conserved(w) && w.s.closing
    ensures var end := RunOps(w, ops);
      && end.s.closing && end.s.last == w.s.last && end.h.payloads == w.h.payloads
      && |end.s.pending| <= |w.s.pending| && Remaining(end.s.pending) <= Remaining(w.s.pending)
    decreases |ops|
  {
    hide Conserved, Apply, Drained;
    if ops != [] {
      StepConserves(w, ops[0]);
      ClosedOnlyDrains(w, ops[0]);
      CountFallsAfterClose(Apply(w, ops[0]), ops[1..]);
    }
  }
}
