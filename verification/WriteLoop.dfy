/** The environment of the Linux write loop in TcpSession_IOSend, and what the
    loop makes of it. */
module WriteLoop {

  /** One write call: the socket has room for `room` bytes (write takes the
      smaller of that and what is offered), it reports EAGAIN, or it fails. */
  datatype WriteResult = Room(room: nat) | WouldBlock | WriteError

  /** Bytes taken from `n` offered. */
  function Taken(w: WriteResult, n: nat): (k: nat)
    ensures w.Room? ==> k <= n && k <= w.room && (k == n || k == w.room)
    ensures !w.Room? ==> k == 0
  {
    if w.Room? then (if w.room < n then w.room else n) else 0
  }

  /** The trace is long enough for the loop to return. */
  predicate Settles(ws: seq<WriteResult>, n: nat)
    decreases |ws|
  {
    n == 0 || (ws != [] && (ws[0].WriteError? || Settles(ws[1..], n - Taken(ws[0], n))))
  }

  /** Bytes the loop has written when it returns. */
  function Sent(ws: seq<WriteResult>, n: nat): (k: nat)
    requires Settles(ws, n)
    ensures k <= n
    decreases |ws|
  {
    if n == 0 || ws[0].WriteError? then 0
    else Taken(ws[0], n) + Sent(ws[1..], n - Taken(ws[0], n))
  }

  /** The loop leaves through the write-failure branch exactly when it stops
      short. */
  predicate Errs(ws: seq<WriteResult>, n: nat)
    requires Settles(ws, n)
    decreases |ws|
  {
    n > 0 && (ws[0].WriteError? || Errs(ws[1..], n - Taken(ws[0], n)))
  }

  lemma {:induction false} ErrsIffShort(ws: seq<WriteResult>, n: nat)
    requires Settles(ws, n)
    ensures Errs(ws, n) <==> Sent(ws, n) < n
    decreases |ws|
  {
    if n > 0 && !ws[0].WriteError? {
      ErrsIffShort(ws[1..], n - Taken(ws[0], n));
    }
  }

  /** One turn of the loop, unfolded. */
  lemma UnfoldWrite(ws: seq<WriteResult>, n: nat)
    requires Settles(ws, n)
    ensures n == 0 ==> Sent(ws, n) == 0 && !Errs(ws, n)
    ensures n > 0 ==> ws != []
    ensures n > 0 && ws[0].WriteError? ==> Sent(ws, n) == 0 && Errs(ws, n)
    ensures n > 0 && ws[0].WouldBlock? ==> Taken(ws[0], n) == 0
    ensures n > 0 && !ws[0].WriteError? ==>
      var k := Taken(ws[0], n);
      && k <= n && Settles(ws[1..], n - k)
      && Sent(ws, n) == k + Sent(ws[1..], n - k) && Errs(ws, n) == Errs(ws[1..], n - k)
  {
  }

  predicate Stall(w: WriteResult) {
    w.WouldBlock? || w == Room(0)
  }

  /** The loop terminates against every environment that stalls (EAGAIN, or a
      write of nothing) only finitely often: with no stall from call `quiet`
      on, it returns within the stalls left plus one call per byte. */
  lemma {:induction false} FiniteStallsSettle(env: nat -> WriteResult, from: nat, quiet: nat, n: nat)
    requires forall i :: i >= quiet ==> !Stall(env(i))
    ensures var stallsLeft := if from < quiet then quiet - from else 0;
            Settles(seq(stallsLeft + n, i requires i >= 0 => env(from + i)), n)
    decreases n, if from < quiet then quiet - from else 0
  {
    var stallsLeft := if from < quiet then quiet - from else 0;
    if n > 0 && !env(from).WriteError? {
      var ws := seq(stallsLeft + n, i requires i >= 0 => env(from + i));
      assert ws[0] == env(from);
      var k := Taken(env(from), n);
      assert from >= quiet ==> !Stall(env(from));
      FiniteStallsSettle(env, from + 1, quiet, n - k);
      var left := if from + 1 < quiet then quiet - (from + 1) else 0;
      var us := seq(left + (n - k), i requires i >= 0 => env(from + 1 + i));
      assert us == ws[1..][..|us|];
      SettlesLonger(us, ws[1..], n - k);
    }
  }

  lemma {:induction false} SettlesLonger(us: seq<WriteResult>, ws: seq<WriteResult>, n: nat)
    requires |us| <= |ws| && us == ws[..|us|] && Settles(us, n)
    ensures Settles(ws, n)
    decreases |us|
  {
    if n > 0 && !us[0].WriteError? {
      assert us[1..] == ws[1..][..|us| - 1];
      SettlesLonger(us[1..], ws[1..], n - Taken(us[0], n));
    }
  }
}
