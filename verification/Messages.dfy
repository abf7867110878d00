/**
 The three protocol messages as bytes, and the daemon's way of reading them back: a type,
 then the fields that type calls for. A link carrying encoded messages behaves as the FIFO
 queue of messages that the protocol works with.
 */
module Messages {
  import opened Basics
  import opened Framing
  import Protocol

  type Message = Protocol.Message
  type Queue = Protocol.Queue

  // dsm_message_t
  const SEND_PAGE: Int32 := 0
  const SEND_INFO: Int32 := 1
  const PAGE_REQUEST: Int32 := 2

  /** Page and node numbers are C ints, and so is the length of a page. A lone header is the
      beginning of a message, and a scrap the end of one. */
  predicate Sendable(m: Message) {
    && !m.PageHeader? && !m.Scrap?
    && m.page < 0x8000_0000
    && (m.SendInfo? ==> m.owner < 0x8000_0000)
    && (m.SendPage? ==> |m.body| < 0x8000_0000)
  }

  predicate AllSendable(q: Queue) {
    forall k | 0 <= k < |q| :: Sendable(q[k])
  }

  function EncodeMessage(m: Message): (bs: Bytes)
    requires Sendable(m)
    ensures |bs| >= 8
  {
    match m
    case SendPage(p, body) => EncodeInt(SEND_PAGE) + (EncodeInt(p) + EncodeLine(body))
    case SendInfo(p, owner) => EncodeInt(SEND_INFO) + (EncodeInt(p) + EncodeInt(owner))
    case PageRequest(p) => EncodeInt(PAGE_REQUEST) + EncodeInt(p)
  }

  function EncodeQueue(q: Queue): Bytes
    requires AllSendable(q)
  {
    if q == [] then [] else EncodeMessage(q[0]) + EncodeQueue(q[1..])
  }

  // ---------------------------------------------------------------- parsing

  datatype Parsed =
    | Got(m: Message, rest: Bytes)
    | Skipped(rest: Bytes)   // a type the switch has no case for: only the type is consumed
    | Starved                // the reader would block for more bytes, or the fields make no sense

  /** recv_int, where the bytes are there. */
  function ParseInt(bs: Bytes): Option<(Int32, Bytes)> {
    if |bs| < 4 then None else Some((DecodeInt(bs[..4]), bs[4..]))
  }

  function ParseMessage(bs: Bytes): Parsed {
    match ParseInt(bs)
    case None => Starved
    case Some((kind, fields)) =>
      if kind != SEND_PAGE && kind != SEND_INFO && kind != PAGE_REQUEST then Skipped(fields)
      else
        match ParseInt(fields)
        case None => Starved
        case Some((page, more)) =>
          if page < 0 then Starved
          else if kind == PAGE_REQUEST then Got(Protocol.PageRequest(page), more)
          else
            match ParseInt(more)
            case None => Starved
            case Some((x, tail)) =>
              if x < 0 then Starved
              else if kind == SEND_INFO then Got(Protocol.SendInfo(page, x), tail)
              else if |tail| < x then Starved
              else Got(Protocol.SendPage(page, tail[..x]), tail[x..])
  }

  lemma ParseEncodedInt(x: Int32, rest: Bytes)
    ensures ParseInt(EncodeInt(x) + rest) == Some((x, rest))
  {
    IntRoundTrip(x);
    assert (EncodeInt(x) + rest)[..4] == EncodeInt(x);
    assert (EncodeInt(x) + rest)[4..] == rest;
  }

  /** The dispatch recovers the message and consumes exactly its own bytes. */
  lemma MessageRoundTrip(m: Message, rest: Bytes)
    requires Sendable(m)
    ensures ParseMessage(EncodeMessage(m) + rest) == Got(m, rest)
  {
    match m
    case SendPage(p, body) =>
      var b := EncodeLine(body) + rest;
      Associative(EncodeInt(SEND_PAGE), EncodeInt(p) + EncodeLine(body), rest);
      Associative(EncodeInt(p), EncodeLine(body), rest);
      Associative(EncodeInt(|body|), body, rest);
      ParseEncodedInt(SEND_PAGE, EncodeInt(p) + b);
      ParseEncodedInt(p, b);
      ParseEncodedInt(|body|, body + rest);
      assert (body + rest)[..|body|] == body && (body + rest)[|body|..] == rest;
    case SendInfo(p, owner) =>
      Associative(EncodeInt(SEND_INFO), EncodeInt(p) + EncodeInt(owner), rest);
      Associative(EncodeInt(p), EncodeInt(owner), rest);
      ParseEncodedInt(SEND_INFO, EncodeInt(p) + (EncodeInt(owner) + rest));
      ParseEncodedInt(p, EncodeInt(owner) + rest);
      ParseEncodedInt(owner, rest);
    case PageRequest(p) =>
      Associative(EncodeInt(PAGE_REQUEST), EncodeInt(p), rest);
      ParseEncodedInt(PAGE_REQUEST, EncodeInt(p) + rest);
      ParseEncodedInt(p, rest);
  }

  lemma ParseShrinks(bs: Bytes)
    ensures ParseMessage(bs).Got? ==> |ParseMessage(bs).rest| < |bs|
    ensures ParseMessage(bs).Skipped? ==> |ParseMessage(bs).rest| < |bs|
  {
  }

  /** All messages a byte stream holds, in order; what is not a whole message ends it. */
  function ParseAll(bs: Bytes): Queue
    decreases |bs|
  {
    ParseShrinks(bs);
    match ParseMessage(bs)
    case Got(m, rest) => [m] + ParseAll(rest)
    case Skipped(rest) => ParseAll(rest)
    case Starved => []
  }

  /** Any sequence of messages written to a link is recovered exactly and in order. */
  lemma {:induction false} StreamRoundTrip(q: Queue)
    requires AllSendable(q)
    ensures ParseAll(EncodeQueue(q)) == q
  {
    if q == [] {
    } else {
      MessageRoundTrip(q[0], EncodeQueue(q[1..]));
      StreamRoundTrip(q[1..]);
    }
  }

  /** Hence no two queues look alike on the wire. */
  lemma StreamsAreUnambiguous(q: Queue, r: Queue)
    requires AllSendable(q) && AllSendable(r) && EncodeQueue(q) == EncodeQueue(r)
    ensures q == r
  {
    StreamRoundTrip(q);
    StreamRoundTrip(r);
  }

  lemma {:induction false} EncodeQueueAppend(q: Queue, r: Queue)
    requires AllSendable(q) && AllSendable(r)
    ensures AllSendable(q + r) && EncodeQueue(q + r) == EncodeQueue(q) + EncodeQueue(r)
  {
    if q == [] {
      assert q + r == r;
    } else {
      assert (q + r)[1..] == q[1..] + r;
      EncodeQueueAppend(q[1..], r);
      Associative(EncodeMessage(q[0]), EncodeQueue(q[1..]), EncodeQueue(r));
    }
  }

  // ---------------------------------------------------------------- on a socket

  method SendFields(s: Stream, kind: Int32, page: Int32)
    modifies s
    ensures s.content == old(s.content) + (EncodeInt(kind) + EncodeInt(page))
  {
    SendInt(s, kind);
    SendInt(s, page);
    Associative(old(s.content), EncodeInt(kind), EncodeInt(page));
  }

  /** dsm_send_page, dsm_send_info and dsm_send_request on the wire. */
  method SendMessage(s: Stream, m: Message)
    requires Sendable(m)
    modifies s
    ensures s.content == old(s.content) + EncodeMessage(m)
  {
    match m
    case SendPage(p, body) =>
      SendFields(s, SEND_PAGE, p);
      SendInt(s, |body|);
      SendBytes(s, body);
      Associative(old(s.content), EncodeInt(SEND_PAGE) + EncodeInt(p), EncodeInt(|body|));
      Associative(old(s.content), EncodeInt(SEND_PAGE) + EncodeInt(p) + EncodeInt(|body|), body);
      Associative(EncodeInt(SEND_PAGE) + EncodeInt(p), EncodeInt(|body|), body);
      Associative(EncodeInt(SEND_PAGE), EncodeInt(p), EncodeLine(body));
    case SendInfo(p, owner) =>
      SendFields(s, SEND_INFO, p);
      SendInt(s, owner);
      Associative(old(s.content), EncodeInt(SEND_INFO) + EncodeInt(p), EncodeInt(owner));
      Associative(EncodeInt(SEND_INFO), EncodeInt(p), EncodeInt(owner));
    case PageRequest(p) =>
      SendFields(s, PAGE_REQUEST, p);
  }

  /** The daemon's reading of one message: the type, then the fields of that type. */
  method RecvMessage(s: Stream) returns (r: Option<Message>)
    requires !ParseMessage(s.content).Starved?
    modifies s
    ensures var p := ParseMessage(old(s.content));
            s.content == p.rest && r == if p.Got? then Some(p.m) else None
  {
    var kind := RecvInt(s);
    if kind == SEND_PAGE {
      var askedPage := RecvInt(s);
      var left := RecvInt(s);
      var buffer := new Byte[left](_ => 0);
      RecvBytes(s, buffer, left);
      assert buffer[..] == buffer[..left];
      r := Some(Protocol.SendPage(askedPage, buffer[..]));
    } else if kind == SEND_INFO {
      var page := RecvInt(s);
      var newOwner := RecvInt(s);
      r := Some(Protocol.SendInfo(page, newOwner));
    } else if kind == PAGE_REQUEST {
      var wantedPage := RecvInt(s);
      r := Some(Protocol.PageRequest(wantedPage));
    } else {
      r := None;
    }
  }

  /** A link is a FIFO: sending appends to the queue its bytes stand for, receiving takes the
      head, so the bytes in transit always encode the queue of the protocol. */
  method SendOnLink(s: Stream, m: Message, ghost q: Queue)
    requires AllSendable(q) && Sendable(m) && s.content == EncodeQueue(q)
    modifies s
    ensures AllSendable(q + [m]) && s.content == EncodeQueue(q + [m])
  {
    SendMessage(s, m);
    EncodeQueueAppend(q, [m]);
    assert EncodeQueue([m]) == EncodeMessage(m) by {
      assert [m][1..] == [];
    }
  }

  method RecvOnLink(s: Stream, ghost q: Queue) returns (m: Message)
    requires AllSendable(q) && q != [] && s.content == EncodeQueue(q)
    modifies s
    ensures m == q[0] && s.content == EncodeQueue(q[1..])
  {
    MessageRoundTrip(q[0], EncodeQueue(q[1..]));
    var r := RecvMessage(s);
    m := r.value;
  }

  // ---------------------------------------------------------------- messages that are not whole

  /** What a daemon has sent of a page when it faults on copying it. */
  function EncodeHeader(p: Int32): Bytes {
    EncodeInt(SEND_PAGE) + EncodeInt(p)
  }

  /** After a lone header its reader blocks. */
  lemma LoneHeaderStarves(p: Int32)
    requires p >= 0
    ensures ParseMessage(EncodeHeader(p)) == Starved
  {
    assert EncodeInt(p) + [] == EncodeInt(p);
    ParseEncodedInt(SEND_PAGE, EncodeInt(p));
    ParseEncodedInt(p, []);
  }

  lemma CutInt(q: Int32, rest: Bytes)
    ensures (EncodeInt(q) + rest)[..2] == EncodeInt(q)[..2]
    ensures (EncodeInt(q) + rest)[2..] == EncodeInt(q)[2..] + rest
  {
  }

  /** What is sent after it is taken for its page: a request for q yields a page of two bytes, and
      the rest of the link is out of step. */
  lemma HeaderSwallowsRequest(p: Int32, q: Int32, rest: Bytes)
    requires p >= 0 && q >= 0
    ensures ParseMessage(EncodeHeader(p) + (EncodeMessage(Protocol.PageRequest(q)) + rest))
            == Got(Protocol.SendPage(p, EncodeInt(q)[..2]), EncodeInt(q)[2..] + rest)
  {
    var tail := EncodeInt(q) + rest;
    var fields := EncodeInt(p) + (EncodeInt(PAGE_REQUEST) + tail);
    assert EncodeHeader(p) + (EncodeMessage(Protocol.PageRequest(q)) + rest) == EncodeInt(SEND_PAGE) + fields by {
      Associative(EncodeInt(PAGE_REQUEST), EncodeInt(q), rest);
      Associative(EncodeInt(SEND_PAGE), EncodeInt(p), EncodeInt(PAGE_REQUEST) + tail);
    }
    ParseEncodedInt(SEND_PAGE, fields);
    ParseEncodedInt(p, EncodeInt(PAGE_REQUEST) + tail);
    ParseEncodedInt(PAGE_REQUEST, tail);
    CutInt(q, rest);
  }

  lemma SmallOctets(q: Int32)
    requires 0 <= q < 0x1_0000
    ensures EncodeInt(q) == [q % 256, q / 256, 0, 0]
  {
    assert q / 256 % 256 == q / 256 && q / 256 / 256 == 0;
    assert Octets(q, 4) == [q % 256] + Octets(q / 256, 3);
    assert Octets(q / 256, 3) == [q / 256] + Octets(0, 2);
    assert Octets(0, 2) == [0] + Octets(0, 1);
    assert Octets(0, 1) == [0];
  }

  /** That page is what the protocol takes it for: the two bytes, and then what the fresh buffer
      held. Of the request two NULs are left on the link. */
  lemma MangledIsWhatIsRead(q: Int32, stale: Bytes)
    requires 0 <= q < 0x1_0000 && |stale| >= 2
    ensures Protocol.Mangled(q, stale) == EncodeInt(q)[..2] + stale[2..]
    ensures EncodeInt(q)[2..] == [0, 0]
  {
    SmallOctets(q);
    assert q / 256 % 256 == q / 256;
  }

  // ---------------------------------------------------------------- reading on out of step

  /** Requests, as they lie behind the misread one: the scrap of that is two NULs. */
  function EncodeRequests(pages: seq<nat>): Bytes
    requires forall k | 0 <= k < |pages| :: pages[k] < 0x1_0000
  {
    if pages == [] then [] else EncodeMessage(Protocol.PageRequest(pages[0])) + EncodeRequests(pages[1..])
  }

  function BehindScrap(pages: seq<nat>): Bytes
    requires forall k | 0 <= k < |pages| :: pages[k] < 0x1_0000
  {
    [0, 0] + EncodeRequests(pages)
  }

  /** The page number that is read where a request begins two bytes late. */
  const SKEWED: Int32 := 0x2_0000

  /** Two NULs and the first half of a number below 65536 are read as that many times 65536. */
  lemma SkewedInt(q: Int32, rest: Bytes)
    requires 0 <= q < 0x1_0000
    ensures ParseInt([0, 0, q % 256, q / 256] + rest)
            == Some((if q < 0x8000 then 0x1_0000 * q else 0x1_0000 * q - 0x1_0000_0000, rest))
  {
    var bs: Bytes := [0, 0, q % 256, q / 256];
    assert (bs + rest)[..4] == bs && (bs + rest)[4..] == rest;
    assert Value([]) == 0;
    assert Value(bs[3..]) == q / 256 by { assert bs[3..][1..] == []; }
    assert Value(bs[2..]) == q by { assert bs[2..][1..] == bs[3..]; }
    assert Value(bs[1..]) == 256 * q by { assert bs[1..][1..] == bs[2..]; }
    assert Value(bs) == 0x1_0000 * q;
  }

  /** Behind the scrap a request is read in three skewed integers. */
  lemma BehindScrapAs(pages: seq<nat>)
    requires pages != [] && forall k | 0 <= k < |pages| :: pages[k] < 0x1_0000
    ensures BehindScrap(pages)
            == [0, 0, 2, 0] + ([0, 0, pages[0] % 256, pages[0] / 256] + BehindScrap(pages[1..]))
  {
    SmallOctets(PAGE_REQUEST);
    SmallOctets(pages[0]);
  }

  lemma TypeIsSkipped(pages: seq<nat>)
    requires pages != [] && forall k | 0 <= k < |pages| :: pages[k] < 0x1_0000
    ensures ParseMessage(BehindScrap(pages))
            == Skipped([0, 0, pages[0] % 256, pages[0] / 256] + BehindScrap(pages[1..]))
  {
    BehindScrapAs(pages);
    SkewedInt(2, [0, 0, pages[0] % 256, pages[0] / 256] + BehindScrap(pages[1..]));
  }

  lemma NumberIsSkipped(q: Int32, rest: Bytes)
    requires 0 < q < 0x1_0000
    ensures ParseMessage([0, 0, q % 256, q / 256] + rest) == Skipped(rest)
  {
    SkewedInt(q, rest);
  }

  /** Whatever requests follow, the reader that goes on behind a misreading skips what it reads, or
      it reads a page whose number is out of every region of fewer than 65536 pages first. */
  lemma {:induction false} NothingReadBehindScrap(pages: seq<nat>)
    requires forall k | 0 <= k < |pages| :: pages[k] < 0x1_0000
    ensures var read := ParseAll(BehindScrap(pages));
            read == [] || (read[0].SendPage? && read[0].page == SKEWED)
  {
    if pages == [] {
      assert BehindScrap(pages) == [0, 0];
    } else {
      var rest := BehindScrap(pages[1..]);
      TypeIsSkipped(pages);
      if pages[0] > 0 {
        NumberIsSkipped(pages[0], rest);
        NothingReadBehindScrap(pages[1..]);
      } else {
        SkewedPage(pages[1..]);
      }
    }
  }

  /** A request for page 0 makes the reader expect a page, whose number is skewed too. */
  lemma SkewedPage(pages: seq<nat>)
    requires forall k | 0 <= k < |pages| :: pages[k] < 0x1_0000
    ensures var p := ParseMessage([0, 0, 0, 0] + BehindScrap(pages));
            p.Starved? || (p.Got? && p.m.SendPage? && p.m.page == SKEWED)
  {
    SkewedInt(0, BehindScrap(pages));
    if pages == [] {
      assert BehindScrap(pages) == [0, 0];
    } else {
      var rest: Bytes := [0, 0, pages[0] % 256, pages[0] / 256] + BehindScrap(pages[1..]);
      BehindScrapAs(pages);
      SkewedInt(2, rest);
    }
  }

  // ---------------------------------------------------------------- the page body as written

  /** As written, the body goes through strlen: only the bytes before the first NUL travel, and
      the rest of the installed page is whatever the receiver's fresh buffer held. */
  function WrittenBody(body: Bytes, stale: Bytes): (r: Bytes)
    requires |stale| == |body|
    ensures |r| == |body|
  {
    CString(body) + stale[|CString(body)|..]
  }

  /** A page is sure to arrive whole exactly when none of its bytes is NUL. (Then strlen runs off
      the end of the buffer; the NUL is taken to lie just behind it.) */
  lemma WrittenBodyIff(body: Bytes)
    ensures NUL !in body <==> forall stale: Bytes | |stale| == |body| :: WrittenBody(body, stale) == body
  {
    if NUL !in body {
      CStringOf(body, []);
      assert body + [] == body;
    } else {
      var k := |CString(body)|;
      assert CString(body) != body;
      var stale: Bytes := seq(|body|, _ => 1);
      assert WrittenBody(body, stale)[k] == 1 && body[k] == NUL;
    }
  }
}
