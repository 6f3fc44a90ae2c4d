/** What a receiver does with a byte stream. `Parse` is the reference: it
    reads the whole stream front to back, one frame at a time. `Step` and
    `Run` are the chunk-driven machine of TcpSession_IORecv, whose body branch
    exists in three variants. */
module Framing {
  import opened Wire

  /** What a session shows to the outside while it receives: a payload handed
      to the listener, a header submitted for echo, a refreshed heartbeat. */
  datatype Event = Deliver(payload: seq<byte>) | Echo(head: seq<byte>) | Beat

  /** m_bIsRecvHead, m_nNeedRecvDataLen, m_nRecvDataType, m_uSaltValue and the
      bytes held in m_RecvBufs. */
  datatype RecvState = RecvState(inBody: bool, need: nat, kind: HeadType, salt: nat, cache: seq<byte>)

  const FRESH := RecvState(false, 0, Unknown, 0, [])

  predicate AtBoundary(s: RecvState) {
    !s.inBody && s.need == 0 && s.cache == []
  }

  /** The state sits inside a frame part that still misses bytes. */
  predicate WithinPart(s: RecvState) {
    if s.inBody then |s.cache| < s.need < TWO_32 else s.need == 0 && |s.cache| < HEAD_LEN
  }

  /** Bytes missing from the current header or body. */
  function Missing(s: RecvState): (n: nat)
    requires WithinPart(s)
    ensures n > 0
  {
    if s.inBody then s.need - |s.cache| else HEAD_LEN - |s.cache|
  }

  datatype Parsed = Parsed(events: seq<Event>, state: RecvState) {
    function After(earlier: seq<Event>): Parsed {
      Parsed(earlier + events, state)
    }
  }

  /** Bytes of the frame a header opens. A header that is not recognised is
      a frame of its own. */
  function FrameLen(head: seq<byte>): (n: nat)
    requires |head| == HEAD_LEN
    ensures HEAD_LEN <= n
  {
    HEAD_LEN + if Classify(head) == Unknown then 0 else DataLen(head)
  }

  /** What one complete frame shows: a heartbeat is echoed and counted (an
      empty one counts before it is echoed), data is delivered, and everything
      else is skipped. */
  function FrameEvents(head: seq<byte>, body: seq<byte>): seq<Event>
    requires |head| == HEAD_LEN
  {
    match Classify(head)
    case HeartBeat => if body == [] then [Beat, Echo(head)] else [Echo(head), Beat]
    case Data => if body == [] then [] else [Deliver(body)]
    case Unknown => []
  }

  /** The kind and salt a header leaves behind. */
  function Noted(b: RecvState, head: seq<byte>): RecvState
    requires |head| == HEAD_LEN
  {
    if Classify(head) == Unknown then b else b.(kind := Classify(head), salt := Salt(head))
  }

  /** The reference reading of `bytes`, starting at frame boundary `b`. */
  function Parse(b: RecvState, bytes: seq<byte>): (p: Parsed)
    requires AtBoundary(b)
    ensures WithinPart(p.state)
    decreases |bytes|
  {
    if |bytes| < HEAD_LEN then Parsed([], b.(cache := bytes)) else
    var head := bytes[..HEAD_LEN];
    var end := FrameLen(head);
    if |bytes| < end then
      Parsed(if Classify(head) == HeartBeat then [Echo(head)] else [],
             Noted(b, head).(inBody := true, need := DataLen(head), cache := bytes[HEAD_LEN..]))
    else
      Parse(Noted(b, head), bytes[end..]).After(FrameEvents(head, bytes[HEAD_LEN..end]))
  }

  /** The body branch as the Linux code has it (signed comparison), as the
      Windows code has it (unsigned comparison), and as the header branch of
      both has it: short chunks cached, over-long chunks refused. */
  datatype Variant = Epoll | Iocp | Intended

  datatype Branch = Complete | Hold | Refuse

  /** The unsigned 32-bit difference of announced and cached length. */
  function Gap(s: RecvState): (g: nat)
    ensures g < TWO_32
  {
    (s.need - |s.cache|) % TWO_32
  }

  function AsInt32(u: nat): int
    requires u < TWO_32
  {
    if u < TWO_31 then u else u - TWO_32
  }

  function BodyBranch(v: Variant, gap: nat, n: nat): Branch
    requires gap < TWO_32
  {
    match v
    case Epoll => if AsInt32(gap) == n then Complete else if AsInt32(gap) < n then Hold else Refuse
    case Iocp => if gap == n then Complete else if gap < n then Hold else Refuse
    case Intended => if gap == n then Complete else if gap < n then Refuse else Hold
  }

  datatype Outcome = Go(state: RecvState, events: seq<Event>) | Fail

  /** A complete header is dispatched on its tag. */
  function FinishHead(s: RecvState, head: seq<byte>): Outcome
    requires |head| == HEAD_LEN
  {
    var n := DataLen(head);
    match Classify(head)
    case Unknown => Go(s.(cache := []), [])
    case HeartBeat =>
      Go(s.(inBody := n > 0, need := n, kind := HeartBeat, salt := Salt(head), cache := []),
         if n > 0 then [Echo(head)] else [Beat, Echo(head)])
    case Data =>
      Go(s.(inBody := n > 0, need := n, kind := Data, salt := Salt(head), cache := []), [])
  }

  /** A complete body refreshes the heartbeat or goes to the listener. */
  function FinishBody(s: RecvState, body: seq<byte>): Outcome {
    Go(s.(inBody := false, need := 0, cache := []),
       match s.kind
       case HeartBeat => [Beat]
       case Data => [Deliver(body)]
       case Unknown => [])
  }

  /** One non-empty chunk handed to the receiver. */
  function Step(v: Variant, s: RecvState, c: seq<byte>): Outcome {
    var held := s.(cache := s.cache + c);
    if s.inBody then
      match BodyBranch(v, Gap(s), |c|)
      case Complete => FinishBody(s, s.cache + c)
      case Hold => Go(held, [])
      case Refuse => Fail
    else if |s.cache| + |c| > HEAD_LEN then Fail
    else if |s.cache| + |c| < HEAD_LEN then Go(held, [])
    else FinishHead(s, s.cache + c)
  }

  /** The outcome of a run: the events shown, and whether the session lives. */
  datatype Ran = Ran(events: seq<Event>, alive: bool, state: RecvState)

  function Run(v: Variant, s: RecvState, chunks: seq<seq<byte>>): Ran
    decreases |chunks|
  {
    if chunks == [] then Ran([], true, s) else
    match Step(v, s, chunks[0])
    case Fail => Ran([], false, s)
    case Go(s', es) =>
      var r := Run(v, s', chunks[1..]);
      Ran(es + r.events, r.alive, r.state)
  }

  /** The headers submitted for echo, in order. */
  function Echoes(es: seq<Event>): seq<seq<byte>> {
    if es == [] then [] else (if es[0].Echo? then [es[0].head] else []) + Echoes(es[1..])
  }

  lemma {:induction false} EchoesAppend(xs: seq<Event>, ys: seq<Event>)
    ensures Echoes(xs + ys) == Echoes(xs) + Echoes(ys)
  {
    if xs == [] {
      assert xs + ys == ys;
    } else {
      assert (xs + ys)[1..] == xs[1..] + ys;
      EchoesAppend(xs[1..], ys);
    }
  }

  /** The largest chunk a variant is ever handed. */
  function ChunkLimit(v: Variant): nat {
    match v
    case Epoll => READ_LEN
    case Iocp => MAX_BUFFER_LEN
    case Intended => TWO_31 - 1
  }

  predicate ChunksOk(v: Variant, chunks: seq<seq<byte>>) {
    forall c :: c in chunks ==> 0 < |c| <= ChunkLimit(v)
  }
}
