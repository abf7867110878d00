/**
 common.c: integers, length-prefixed lines and connection records over a byte stream whose
 reads and writes may be short or interrupted. The meant loops retry an interrupted call
 without moving; the loops as written step back by one, and are treated at the end.
 */
module Framing {
  import opened Basics

  type Bytes = seq<Byte>
  type Int32 = x: int | -0x8000_0000 <= x < 0x8000_0000

  const HOSTNAME_MAX_LENGTH := 255

  // ---------------------------------------------------------------- formats

  function Power256(n: nat): nat {
    if n == 0 then 1 else 256 * Power256(n - 1)
  }

  /** The n low octets of a number, least significant first. */
  function Octets(u: nat, n: nat): (bs: Bytes)
    ensures |bs| == n
  {
    if n == 0 then [] else [u % 256] + Octets(u / 256, n - 1)
  }

  function Value(bs: Bytes): (v: nat)
    ensures v < Power256(|bs|)
  {
    if bs == [] then 0 else (bs[0] as int) + 256 * Value(bs[1..])
  }

  lemma {:induction false} ValueOfOctets(u: nat, n: nat)
    requires u < Power256(n)
    ensures Value(Octets(u, n)) == u
  {
    if n == 0 {
    } else {
      ValueOfOctets(u / 256, n - 1);
    }
  }

  /** An int32_t as it lies in memory. */
  function EncodeInt(x: Int32): (bs: Bytes)
    ensures |bs| == 4
  {
    Octets(if x < 0 then x + 0x1_0000_0000 else x, 4)
  }

  function DecodeInt(bs: Bytes): Int32
    requires |bs| == 4
  {
    assert Power256(4) == 256 * (256 * (256 * 256));
    var u := Value(bs);
    if u < 0x8000_0000 then u else u - 0x1_0000_0000
  }

  lemma IntRoundTrip(x: Int32)
    ensures DecodeInt(EncodeInt(x)) == x
  {
    assert Power256(4) == 256 * (256 * (256 * 256));
    ValueOfOctets(if x < 0 then x + 0x1_0000_0000 else x, 4);
  }

  /** The C string at the start of a block of memory: everything before its first NUL. */
  function CString(mem: Bytes): (str: Bytes)
    ensures |str| <= |mem| && str == mem[..|str|] && NUL !in str
    ensures |str| < |mem| ==> mem[|str|] == NUL
  {
    if mem == [] || mem[0] == NUL then [] else [mem[0]] + CString(mem[1..])
  }

  lemma {:induction false} CStringOf(str: Bytes, tail: Bytes)
    requires NUL !in str && (tail == [] || tail[0] == NUL)
    ensures CString(str + tail) == str
  {
    if str == [] {
      assert str + tail == tail;
    } else {
      assert (str + tail)[1..] == str[1..] + tail;
      CStringOf(str[1..], tail);
    }
  }

  function EncodeLine(str: Bytes): Bytes
    requires |str| < 0x8000_0000
  {
    EncodeInt(|str|) + str
  }

  /** The fields of dsm_proc_conn_t that travel. */
  datatype ConnInfo = ConnInfo(rank: Int32, host: Bytes, port: Int32)

  predicate ValidInfo(c: ConnInfo) {
    |c.host| < HOSTNAME_MAX_LENGTH && NUL !in c.host
  }

  function EncodeInfo(c: ConnInfo): Bytes
    requires |c.host| < 0x8000_0000
  {
    EncodeInt(c.rank) + EncodeLine(c.host) + EncodeInt(c.port)
  }

  // ---------------------------------------------------------------- the stream

  /** One direction of a socket: bytes written and not yet read, in order. The counter bounds
      how often calls on it are still going to be interrupted. */
  class Stream {
    var content: Bytes
    var interruptions: nat

    constructor (interruptions: nat)
      ensures content == [] && this.interruptions == interruptions
    {
      content := [];
      this.interruptions := interruptions;
    }

    /** write(2): -1 when interrupted, otherwise some part of the data, not empty unless the
        data is. */
    method Write(data: Bytes) returns (k: int)
      modifies this
      ensures k == -1 ==> content == old(content) && interruptions < old(interruptions)
      ensures k != -1 ==>
                && 0 <= k <= |data| && (k == 0 ==> data == [])
                && content == old(content) + data[..k]
                && interruptions == old(interruptions)
    {
      var part: nat :| part <= |data| && (part == 0 ==> data == []);
      var interrupted: bool :| interrupted ==> interruptions > 0;
      if interrupted {
        interruptions := interruptions - 1;
        return -1;
      }
      content := content + data[..part];
      return part;
    }

    /** read(2) of at most `want` bytes; with bytes to come it returns at least one. */
    method Read(want: nat) returns (k: int, got: Bytes)
      requires want > 0 ==> content != []
      modifies this
      ensures k == -1 ==> content == old(content) && interruptions < old(interruptions)
      ensures k != -1 ==>
                && 0 <= k <= want && k <= |old(content)| && (k == 0 ==> want == 0)
                && got == old(content)[..k] && content == old(content)[k..]
                && interruptions == old(interruptions)
    {
      var part: nat :| part <= want && part <= |content| && (part == 0 ==> want == 0);
      var interrupted: bool :| interrupted ==> interruptions > 0;
      if interrupted {
        interruptions := interruptions - 1;
        return -1, [];
      }
      k, got := part, content[..part];
      content := content[part..];
    }
  }

  // ---------------------------------------------------------------- sending and receiving

  /** The loop of send_int and send_line. */
  method SendBytes(s: Stream, data: Bytes)
    modifies s
    ensures s.content == old(s.content) + data
  {
    var cursor, left := 0, |data|;
    var again := true;
    while again
      invariant 0 <= cursor && 0 <= left && cursor + left == |data|
      invariant !again ==> left == 0
      invariant s.content == old(s.content) + data[..cursor]
      decreases left + s.interruptions + if again then 1 else 0
    {
      var sent := s.Write(data[cursor..cursor + left]);
      if sent != -1 {
        assert data[..cursor + sent] == data[..cursor] + data[cursor..cursor + left][..sent];
        cursor, left := cursor + sent, left - sent;
      }
      again := left > 0;
    }
  }

  /** Cutting off the next piece of what is left. */
  lemma NextPiece(all: Bytes, cursor: nat, count: nat)
    requires cursor + count <= |all|
    ensures all[..cursor] + all[cursor..][..count] == all[..cursor + count]
    ensures all[cursor..][count..] == all[cursor + count..]
  {
  }

  /** What stands before and behind a stored piece. */
  lemma StoredPiece(was: Bytes, now: Bytes, at: nat, bytes: Bytes)
    requires at + |bytes| <= |was| && now == was[..at] + bytes + was[at + |bytes|..]
    ensures now[..at + |bytes|] == was[..at] + bytes
    ensures now[at + |bytes|..] == was[at..][|bytes|..]
  {
  }

  /** The loop of recv_int and recv_line: fills the front of the buffer. */
  method RecvBytes(s: Stream, buffer: array<Byte>, n: nat)
    requires n <= buffer.Length && n <= |s.content|
    modifies s, buffer
    ensures s.content == old(s.content)[n..]
    ensures buffer[..n] == old(s.content)[..n]
    ensures buffer[n..] == old(buffer[n..])
  {
    var cursor, left := 0, n;
    var again := true;
    while again
      invariant 0 <= cursor && 0 <= left && cursor + left == n
      invariant !again ==> left == 0
      invariant s.content == old(s.content)[cursor..]
      invariant buffer[..cursor] == old(s.content)[..cursor]
      invariant buffer[cursor..] == old(buffer[..])[cursor..]
      decreases left + s.interruptions + if again then 1 else 0
    {
      var count, got := s.Read(left);
      if count != -1 {
        ghost var was := buffer[..];
        Store(buffer, cursor, got);
        NextPiece(old(s.content), cursor, count);
        StoredPiece(was, buffer[..], cursor, got);
        NextPiece(old(buffer[..]), cursor, count);
        cursor, left := cursor + count, left - count;
      }
      again := left > 0;
    }
    assert buffer[n..] == old(buffer[..])[n..];
  }

  /** What read(2) does to the caller's memory. */
  method Store(buffer: array<Byte>, at: nat, bytes: Bytes)
    requires at + |bytes| <= buffer.Length
    modifies buffer
    ensures buffer[..] == old(buffer[..at]) + bytes + old(buffer[at + |bytes|..])
  {
    forall i | 0 <= i < |bytes| {
      buffer[at + i] := bytes[i];
    }
  }

  method SendInt(s: Stream, x: Int32)
    modifies s
    ensures s.content == old(s.content) + EncodeInt(x)
  {
    SendBytes(s, EncodeInt(x));
  }

  method RecvInt(s: Stream) returns (x: Int32)
    requires |s.content| >= 4
    modifies s
    ensures x == DecodeInt(old(s.content)[..4])
    ensures s.content == old(s.content)[4..]
  {
    var received := new Byte[4](_ => 0);
    RecvBytes(s, received, 4);
    x := DecodeInt(received[..4]);
  }

  /** Sends the C string that `mem` starts with. */
  method SendLine(s: Stream, mem: Bytes)
    requires NUL in mem && |CString(mem)| < 0x8000_0000
    modifies s
    ensures s.content == old(s.content) + EncodeLine(CString(mem))
  {
    var str := CString(mem);
    SendInt(s, |str|);
    SendBytes(s, str);
    assert old(s.content) + EncodeInt(|str|) + str == old(s.content) + EncodeLine(str);
  }

  /** Receives a line into the front of the buffer; no terminator is added. */
  method RecvLine(s: Stream, buffer: array<Byte>, ghost line: Bytes, ghost rest: Bytes)
    requires |line| < 0x8000_0000 && |line| <= buffer.Length
    requires s.content == EncodeLine(line) + rest
    modifies s, buffer
    ensures s.content == rest
    ensures buffer[..] == line + old(buffer[|line|..])
  {
    IntRoundTrip(|line|);
    assert s.content[..4] == EncodeInt(|line|);
    assert s.content[4..] == line + rest;
    var left := RecvInt(s);
    RecvBytes(s, buffer, left);
    assert buffer[..] == buffer[..left] + buffer[left..];
  }

  method SendInfo(s: Stream, c: ConnInfo)
    requires ValidInfo(c)
    modifies s
    ensures s.content == old(s.content) + EncodeInfo(c)
  {
    SendInt(s, c.rank);
    CStringOf(c.host, [NUL]);
    SendLine(s, c.host + [NUL]);
    SendInt(s, c.port);
    ghost var sent, rank, line, port := old(s.content), EncodeInt(c.rank), EncodeLine(c.host), EncodeInt(c.port);
    assert s.content == sent + rank + line + port;
    Associative(sent, rank, line);
    Associative(sent, rank + line, port);
  }

  /** Receives into a record that the caller has zeroed. */
  method RecvInfo(s: Stream, ghost c: ConnInfo, ghost rest: Bytes) returns (r: ConnInfo)
    requires ValidInfo(c) && s.content == EncodeInfo(c) + rest
    modifies s
    ensures r == c && s.content == rest
  {
    IntRoundTrip(c.rank);
    IntRoundTrip(c.port);
    assert s.content[..4] == EncodeInt(c.rank);
    assert s.content[4..] == EncodeLine(c.host) + (EncodeInt(c.port) + rest);
    var rank := RecvInt(s);
    var host := new Byte[HOSTNAME_MAX_LENGTH](_ => NUL);
    RecvLine(s, host, c.host, EncodeInt(c.port) + rest);
    CStringOf(c.host, host[|c.host|..]);
    assert s.content[..4] == EncodeInt(c.port);
    var port := RecvInt(s);
    r := ConnInfo(rank, CString(host[..]), port);
  }

  // ---------------------------------------------------------------- sequences of items

  datatype Item = Int(x: Int32) | Line(str: Bytes) | Info(c: ConnInfo)
  datatype Kind = IntKind | LineKind | InfoKind

  function KindOf(i: Item): Kind {
    match i
    case Int(_) => IntKind
    case Line(_) => LineKind
    case Info(_) => InfoKind
  }

  /** A line is a C string that fits the receiver's buffer with its terminator. */
  predicate ValidItem(i: Item) {
    match i
    case Int(_) => true
    case Line(str) => |str| < 0x8000_0000 && NUL !in str
    case Info(c) => ValidInfo(c)
  }

  function EncodeItem(i: Item): Bytes
    requires ValidItem(i)
  {
    match i
    case Int(x) => EncodeInt(x)
    case Line(str) => EncodeLine(str)
    case Info(c) => EncodeInfo(c)
  }

  predicate ValidItems(items: seq<Item>) {
    forall k | 0 <= k < |items| :: ValidItem(items[k])
  }

  function EncodeItems(items: seq<Item>): Bytes
    requires ValidItems(items)
  {
    if items == [] then [] else EncodeItem(items[0]) + EncodeItems(items[1..])
  }

  method SendItem(s: Stream, i: Item)
    requires ValidItem(i)
    modifies s
    ensures s.content == old(s.content) + EncodeItem(i)
  {
    match i
    case Int(x) => SendInt(s, x);
    case Line(str) =>
      CStringOf(str, [NUL]);
      SendLine(s, str + [NUL]);
    case Info(c) => SendInfo(s, c);
  }

  method SendItems(s: Stream, items: seq<Item>)
    requires ValidItems(items)
    modifies s
    ensures s.content == old(s.content) + EncodeItems(items)
  {
    if items != [] {
      SendItem(s, items[0]);
      SendItems(s, items[1..]);
      Associative(old(s.content), EncodeItem(items[0]), EncodeItems(items[1..]));
    }
  }

  method RecvItem(s: Stream, kind: Kind, bufferSize: nat, ghost item: Item, ghost rest: Bytes)
    returns (got: Item)
    requires ValidItem(item) && kind == KindOf(item) && (item.Line? ==> |item.str| < bufferSize)
    requires s.content == EncodeItem(item) + rest
    modifies s
    ensures got == item && s.content == rest
  {
    match kind
    case IntKind =>
      IntRoundTrip(item.x);
      assert s.content[..4] == EncodeInt(item.x);
      var x := RecvInt(s);
      got := Int(x);
    case LineKind =>
      var buffer := new Byte[bufferSize](_ => NUL);
      RecvLine(s, buffer, item.str, rest);
      CStringOf(item.str, buffer[|item.str|..]);
      got := Line(CString(buffer[..]));
    case InfoKind =>
      var c := RecvInfo(s, item.c, rest);
      got := Info(c);
  }

  /** The receiver knows only which kind comes next, and consumes exactly what was sent. */
  method RecvItems(s: Stream, kinds: seq<Kind>, bufferSize: nat, ghost items: seq<Item>, ghost rest: Bytes)
    returns (got: seq<Item>)
    requires ValidItems(items)
    requires forall k | 0 <= k < |items| && items[k].Line? :: |items[k].str| < bufferSize
    requires |kinds| == |items| && forall k | 0 <= k < |items| :: kinds[k] == KindOf(items[k])
    requires s.content == EncodeItems(items) + rest
    modifies s
    ensures got == items && s.content == rest
  {
    if kinds == [] {
      got := [];
    } else {
      Associative(EncodeItem(items[0]), EncodeItems(items[1..]), rest);
      var first := RecvItem(s, kinds[0], bufferSize, items[0], EncodeItems(items[1..]) + rest);
      var others := RecvItems(s, kinds[1..], bufferSize, items[1..], rest);
      got := [first] + others;
    }
  }

  /** A received line reads back as a C string exactly when the byte after it was NUL before:
      recv_line adds no terminator, so its callers' zeroed destination is needed. */
  lemma LineNeedsZeroedBuffer(line: Bytes, before: Bytes)
    requires NUL !in line && |line| < |before|
    ensures CString(line + before[|line|..]) == line <==> before[|line|] == NUL
  {
    var after := line + before[|line|..];
    if before[|line|] == NUL {
      CStringOf(line, before[|line|..]);
    } else {
      assert after[|line|] != NUL;
    }
  }

  // ---------------------------------------------------------------- the loops as written

  datatype Outcome = Moved(k: nat) | Interrupted

  /** The outcomes of a loop's calls until nothing is left, the first of which is made even when
      nothing is to be moved: an interrupted call adds its -1 to the cursor and takes it from the
      count. */
  predicate Completes(left: nat, outcomes: seq<Outcome>)
    decreases outcomes
  {
    && outcomes != []
    && match outcomes[0]
       case Moved(k) =>
         && k <= left && (k == 0 ==> left == 0)
         && if k == left then |outcomes| == 1 else Completes(left - k, outcomes[1..])
       case Interrupted => Completes(left + 1, outcomes[1..])
  }

  /** The bytes such a loop sends out of memory, starting at `cursor`. */
  function WrittenSend(mem: int -> Byte, cursor: int, left: nat, outcomes: seq<Outcome>): Bytes
    requires Completes(left, outcomes)
    decreases outcomes
  {
    match outcomes[0]
    case Moved(k) =>
      seq(k, i => mem(cursor + i))
      + if k == left then [] else WrittenSend(mem, cursor + k, left - k, outcomes[1..])
    case Interrupted => WrittenSend(mem, cursor - 1, left + 1, outcomes[1..])
  }

  function Interruptions(outcomes: seq<Outcome>): nat {
    if outcomes == [] then 0
    else (if outcomes[0].Interrupted? then 1 else 0) + Interruptions(outcomes[1..])
  }

  lemma {:induction false} WrittenSendLength(mem: int -> Byte, cursor: int, left: nat, outcomes: seq<Outcome>)
    requires Completes(left, outcomes)
    ensures |WrittenSend(mem, cursor, left, outcomes)| == left + Interruptions(outcomes)
    decreases outcomes
  {
    match outcomes[0]
    case Moved(k) =>
      if k == left {
        assert outcomes[1..] == [];
      } else {
        WrittenSendLength(mem, cursor + k, left - k, outcomes[1..]);
      }
    case Interrupted => WrittenSendLength(mem, cursor - 1, left + 1, outcomes[1..]);
  }

  lemma {:induction false} WrittenSendUninterrupted(mem: int -> Byte, cursor: int, left: nat, outcomes: seq<Outcome>)
    requires Completes(left, outcomes) && Interruptions(outcomes) == 0
    ensures WrittenSend(mem, cursor, left, outcomes) == seq(left, i => mem(cursor + i))
    decreases outcomes
  {
    var k := outcomes[0].k;
    if k == left {
    } else {
      WrittenSendUninterrupted(mem, cursor + k, left - k, outcomes[1..]);
    }
  }

  /** The loop as written sends the data exactly when none of its calls is interrupted: every
      interruption makes it send one byte too many. */
  lemma WrittenSendIff(mem: int -> Byte, start: int, size: nat, outcomes: seq<Outcome>)
    requires Completes(size, outcomes)
    ensures WrittenSend(mem, start, size, outcomes) == seq(size, i => mem(start + i))
            <==> Interruptions(outcomes) == 0
  {
    WrittenSendLength(mem, start, size, outcomes);
    if Interruptions(outcomes) == 0 {
      WrittenSendUninterrupted(mem, start, size, outcomes);
    }
  }

  /** How often a call has been interrupted before the t-th byte is moved. */
  function StepsBack(outcomes: seq<Outcome>, t: nat): nat {
    if outcomes == [] then 0
    else
      match outcomes[0]
      case Moved(k) => if t < k then 0 else StepsBack(outcomes[1..], t - k)
      case Interrupted => 1 + StepsBack(outcomes[1..], t)
  }

  /** What it sends instead: every interruption takes it back by a byte of memory. */
  lemma {:induction false} WrittenSendAt(mem: int -> Byte, start: int, size: nat, outcomes: seq<Outcome>, t: nat)
    requires Completes(size, outcomes) && t < size + Interruptions(outcomes)
    ensures |WrittenSend(mem, start, size, outcomes)| == size + Interruptions(outcomes)
    ensures WrittenSend(mem, start, size, outcomes)[t] == mem(start + t - StepsBack(outcomes, t))
    decreases outcomes
  {
    WrittenSendLength(mem, start, size, outcomes);
    match outcomes[0]
    case Moved(k) =>
      if k == size {
        assert outcomes[1..] == [];
      } else if t >= k {
        WrittenSendAt(mem, start + k, size - k, outcomes[1..], t - k);
      }
    case Interrupted => WrittenSendAt(mem, start - 1, size + 1, outcomes[1..], t);
  }

  /** The bytes a completed loop has moved, back-steps not counted. */
  function Transferred(outcomes: seq<Outcome>): nat {
    if outcomes == [] then 0
    else (if outcomes[0].Moved? then outcomes[0].k else 0) + Transferred(outcomes[1..])
  }

  /** The receiving loops as written take exactly their own bytes from the stream when none of
      their calls is interrupted, and bytes of what follows otherwise. */
  lemma {:induction false} WrittenRecvIff(size: nat, outcomes: seq<Outcome>)
    requires Completes(size, outcomes)
    ensures Transferred(outcomes) == size + Interruptions(outcomes)
    ensures Transferred(outcomes) == size <==> Interruptions(outcomes) == 0
    decreases outcomes
  {
    match outcomes[0]
    case Moved(k) =>
      if k == size {
        assert outcomes[1..] == [];
      } else {
        WrittenRecvIff(size - k, outcomes[1..]);
      }
    case Interrupted => WrittenRecvIff(size + 1, outcomes[1..]);
  }

  /** The memory after such a loop has received from the stream, starting at `cursor`. */
  function WrittenRecv(mem: int -> Byte, cursor: int, left: nat, outcomes: seq<Outcome>, stream: Bytes): int -> Byte
    requires Completes(left, outcomes) && Transferred(outcomes) <= |stream|
    decreases outcomes
  {
    match outcomes[0]
    case Moved(k) =>
      var stored := (a: int) => if cursor <= a < cursor + k then stream[a - cursor] else mem(a);
      if k == left then stored else WrittenRecv(stored, cursor + k, left - k, outcomes[1..], stream[k..])
    case Interrupted => WrittenRecv(mem, cursor - 1, left + 1, outcomes[1..], stream)
  }

  /** Uninterrupted it stores its bytes in the buffer, and nothing else. */
  lemma {:induction false} WrittenRecvUninterrupted(mem: int -> Byte, cursor: int, left: nat,
        outcomes: seq<Outcome>, stream: Bytes, a: int)
    requires Completes(left, outcomes) && Transferred(outcomes) <= |stream| && Interruptions(outcomes) == 0
    ensures left <= |stream|
    ensures WrittenRecv(mem, cursor, left, outcomes, stream)(a)
            == if cursor <= a < cursor + left then stream[a - cursor] else mem(a)
    decreases outcomes
  {
    WrittenRecvIff(left, outcomes);
    var k := outcomes[0].k;
    if k == left {
    } else {
      var stored := (a: int) => if cursor <= a < cursor + k then stream[a - cursor] else mem(a);
      WrittenRecvUninterrupted(stored, cursor + k, left - k, outcomes[1..], stream[k..], a);
    }
  }

  /** However often it is interrupted, the last byte of the buffer is the last byte it has taken. */
  lemma {:induction false} WrittenRecvLast(mem: int -> Byte, cursor: int, left: nat, outcomes: seq<Outcome>,
        stream: Bytes)
    requires Completes(left, outcomes) && Transferred(outcomes) <= |stream| && left > 0
    ensures Transferred(outcomes) > 0
    ensures WrittenRecv(mem, cursor, left, outcomes, stream)(cursor + left - 1) == stream[Transferred(outcomes) - 1]
    decreases outcomes
  {
    match outcomes[0]
    case Moved(k) =>
      if k == left {
        assert outcomes[1..] == [];
      } else {
        var stored := (a: int) => if cursor <= a < cursor + k then stream[a - cursor] else mem(a);
        WrittenRecvLast(stored, cursor + k, left - k, outcomes[1..], stream[k..]);
      }
    case Interrupted => WrittenRecvLast(mem, cursor - 1, left + 1, outcomes[1..], stream);
  }

  /** The buffer holds the first bytes of the stream, `start` being its first address. */
  predicate Holds(mem: int -> Byte, start: int, size: nat, stream: Bytes) {
    size <= |stream| && forall j | 0 <= j < size :: mem(start + j) == stream[j]
  }

  /** A buffer that is not empty is sure to hold what was sent exactly when no call of the receiving
      loop as written is interrupted. */
  lemma WrittenBufferIff(mem: int -> Byte, start: int, size: nat, outcomes: seq<Outcome>)
    requires Completes(size, outcomes) && size > 0
    ensures Interruptions(outcomes) == 0
            <==> forall stream: Bytes | Transferred(outcomes) <= |stream| ::
                   Holds(WrittenRecv(mem, start, size, outcomes, stream), start, size, stream)
  {
    WrittenRecvIff(size, outcomes);
    if Interruptions(outcomes) == 0 {
      forall stream: Bytes | Transferred(outcomes) <= |stream|
        ensures Holds(WrittenRecv(mem, start, size, outcomes, stream), start, size, stream)
      {
        forall j | 0 <= j < size
          ensures WrittenRecv(mem, start, size, outcomes, stream)(start + j) == stream[j]
        {
          WrittenRecvUninterrupted(mem, start, size, outcomes, stream, start + j);
        }
      }
    } else {
      var n := Transferred(outcomes);
      var stream: Bytes := seq(n, t => if t == n - 1 then 1 else 0);
      WrittenRecvLast(mem, start, size, outcomes, stream);
      var j := size - 1;
      assert WrittenRecv(mem, start, size, outcomes, stream)(start + j) == 1 && stream[j] == 0;
      assert !Holds(WrittenRecv(mem, start, size, outcomes, stream), start, size, stream);
    }
  }
}
