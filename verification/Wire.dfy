/** The wire format of TransPortEngineSdk: the eight-byte frame header that
    CTcpSession.h lays out, its two type tags, and the frame that
    TcpSession_SendData prints. */
module Wire {

  type byte = b: int | 0 <= b < 256

  const TWO_31: int := 0x8000_0000
  const TWO_32: int := 0x1_0000_0000

  /** sizeof(HEAD_MSG_T): two tag bytes, a 16-bit salt, a 32-bit length. */
  const HEAD_LEN: nat := 8
  /** The Linux receiver reads at most this many bytes at a time. */
  const READ_LEN: nat := 1024
  const MAX_BUFFER_LEN: nat := 4096
  const HEARTBEAT_TIMEOUT: int := 20

  datatype HeadType = HeartBeat | Data | Unknown

  /** The string literals "HB" and "DT". The source compares and copies
      sizeof(literal) bytes, so the terminating zero belongs to the tag. */
  const HEART_BEAT: seq<byte> := [72, 66, 0]
  const RECV_DATA: seq<byte> := [68, 84, 0]

  /** A 32-bit length in network byte order. */
  function Htonl(n: nat): (bs: seq<byte>)
    requires n < TWO_32
    ensures |bs| == 4
  {
    [n / 0x100_0000, n / 0x1_0000 % 0x100, n / 0x100 % 0x100, n % 0x100]
  }

  function Ntohl(bs: seq<byte>): (n: nat)
    requires |bs| == 4
    ensures n < TWO_32
  {
    (((bs[0] as int) * 0x100 + bs[1]) * 0x100 + bs[2]) * 0x100 + bs[3]
  }

  lemma NtohlInvertsHtonl(n: nat)
    requires n < TWO_32
    ensures Ntohl(Htonl(n)) == n
  {
    var a, b, c := n / 0x100, n / 0x1_0000, n / 0x100_0000;
    assert n == a * 0x100 + n % 0x100;
    assert a == b * 0x100 + a % 0x100;
    assert b == c * 0x100 + b % 0x100;
  }

  lemma HtonlInvertsNtohl(bs: seq<byte>)
    requires |bs| == 4
    ensures Htonl(Ntohl(bs)) == bs
  {
    var n := Ntohl(bs);
    assert n / 0x100 == ((bs[0] as int) * 0x100 + bs[1]) * 0x100 + bs[2];
    assert n / 0x1_0000 == (bs[0] as int) * 0x100 + bs[1];
    assert n / 0x100_0000 == bs[0];
  }

  /** The length is read, and so, by the inverses above, printed, with its most
      significant byte first. */
  lemma MostSignificantFirst(bs: seq<byte>)
    requires |bs| == 4
    ensures Ntohl(bs) == (bs[0] as int) * 0x100_0000 + (bs[1] as int) * 0x1_0000 + (bs[2] as int) * 0x100 + bs[3] as int
    ensures Ntohl(bs) / 0x100_0000 == bs[0] as int && Ntohl(bs) % 0x100 == bs[3] as int
  {
  }

  /** memcmp of the tag and the first salt byte against a literal. */
  predicate Tagged(head: seq<byte>, tag: seq<byte>)
    requires |head| == HEAD_LEN && |tag| == 3
  {
    head[0] == tag[0] && head[1] == tag[1] && head[2] == tag[2]
  }

  function Classify(head: seq<byte>): HeadType
    requires |head| == HEAD_LEN
  {
    if Tagged(head, HEART_BEAT) then HeartBeat
    else if Tagged(head, RECV_DATA) then Data
    else Unknown
  }

  function Salt(head: seq<byte>): nat
    requires |head| == HEAD_LEN
  {
    (head[2] as int) * 0x100 + head[3]
  }

  function DataLen(head: seq<byte>): (n: nat)
    requires |head| == HEAD_LEN
    ensures n < TWO_32
  {
    Ntohl(head[4..])
  }

  /** Because the three-byte comparison runs one byte into the salt, a header
      is recognised exactly when its two tag bytes match and its salt is
      below 256. */
  lemma RecognisedIffTagAndLowSalt(head: seq<byte>)
    requires |head| == HEAD_LEN
    ensures Classify(head) == HeartBeat <==> head[..2] == [72, 66] && Salt(head) < 0x100
    ensures Classify(head) == Data <==> head[..2] == [68, 84] && Salt(head) < 0x100
    ensures Salt(head) / 0x100 == head[2] as int && Salt(head) % 0x100 == head[3] as int
  {
    assert head[..2] == [head[0], head[1]];
    assert Salt(head) < 0x100 <==> head[2] == 0;
  }

  /** The header of a data frame: salt zero, so the tag's third byte and the
      salt's first byte agree. */
  function DataHead(n: nat): (head: seq<byte>)
    requires n < TWO_32
    ensures |head| == HEAD_LEN
  {
    RECV_DATA + [0] + Htonl(n)
  }

  lemma DataHeadReads(n: nat)
    requires n < TWO_32
    ensures |DataHead(n)| == 8 && Classify(DataHead(n)) == Data && Salt(DataHead(n)) == 0 && DataLen(DataHead(n)) == n
  {
    NtohlInvertsHtonl(n);
    assert DataHead(n)[4..] == Htonl(n);
  }

  lemma DataHeadIsUnique(head: seq<byte>)
    requires |head| == HEAD_LEN && Classify(head) == Data && Salt(head) == 0
    ensures head == DataHead(DataLen(head))
  {
    HtonlInvertsNtohl(head[4..]);
    assert head == [head[0], head[1], head[2]] + [head[3]] + head[4..];
  }

  /** A payload TcpSession_SendData can frame: its length plus the header
      stays inside a signed 32-bit int. */
  predicate Sendable(payload: seq<byte>) {
    |payload| + HEAD_LEN < TWO_31
  }

  function Encode(payload: seq<byte>): seq<byte>
    requires Sendable(payload)
  {
    DataHead(|payload|) + payload
  }

  function EncodeAll(payloads: seq<seq<byte>>): seq<byte>
    requires forall p :: p in payloads ==> Sendable(p)
  {
    if payloads == [] then [] else Encode(payloads[0]) + EncodeAll(payloads[1..])
  }

  function Flat(chunks: seq<seq<byte>>): seq<byte> {
    if chunks == [] then [] else chunks[0] + Flat(chunks[1..])
  }

  lemma {:induction false} FlatAppend(a: seq<seq<byte>>, b: seq<seq<byte>>)
    ensures Flat(a + b) == Flat(a) + Flat(b)
  {
    if a == [] {
      assert a + b == b;
    } else {
      assert (a + b)[1..] == a[1..] + b;
      FlatAppend(a[1..], b);
    }
  }

  lemma FlatSnoc(a: seq<seq<byte>>, c: seq<byte>)
    ensures Flat(a + [c]) == Flat(a) + c
  {
    FlatAppend(a, [c]);
    assert Flat([c]) == c + Flat([]);
  }
}
