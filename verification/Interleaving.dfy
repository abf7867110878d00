/**
 Two writers on one socket. The daemon writes SEND_INFO and SEND_PAGE, the fault handler in the
 application thread PAGE_REQUEST, each integer by integer and the body of a page in pieces, and
 nothing keeps them apart. The reader recovers both messages, whatever their values, exactly
 when the schedule splits neither.
 */
module Interleaving {
  import opened Basics
  import opened Framing
  import opened Messages
  import Protocol

  // ---------------------------------------------------------------- reading takes whole encodings

  /** Octets and value undo each other. */
  lemma {:induction false} OctetsOfValue(bs: Bytes)
    ensures Octets(Value(bs), |bs|) == bs
  {
    if bs == [] {
    } else {
      var u := Value(bs);
      assert u % 256 == bs[0] && u / 256 == Value(bs[1..]);
      OctetsOfValue(bs[1..]);
    }
  }

  lemma EncodeDecoded(bs: Bytes)
    requires |bs| == 4
    ensures EncodeInt(DecodeInt(bs)) == bs
  {
    OctetsOfValue(bs);
  }

  lemma ParsedInt(bs: Bytes)
    requires |bs| >= 4
    ensures bs == EncodeInt(ParseInt(bs).value.0) + ParseInt(bs).value.1
  {
    EncodeDecoded(bs[..4]);
  }

  /** The first two integers of what is read, and what is behind them. */
  lemma ReadHead(bs: Bytes, kind: Int32)
    requires ParseMessage(bs).Got? && ParseInt(bs).value.0 == kind
    ensures var more := ParseInt(ParseInt(bs).value.1).value.1;
            bs == EncodeInt(kind) + (EncodeInt(ParseMessage(bs).m.page) + more)
  {
    ParsedInt(bs);
    ParsedInt(ParseInt(bs).value.1);
  }

  lemma ReadRequest(bs: Bytes)
    requires ParseMessage(bs).Got? && ParseMessage(bs).m.PageRequest?
    ensures bs == EncodeMessage(ParseMessage(bs).m) + ParseMessage(bs).rest
  {
    var p := ParseMessage(bs);
    ReadHead(bs, PAGE_REQUEST);
    Associative(EncodeInt(PAGE_REQUEST), EncodeInt(p.m.page), p.rest);
  }

  lemma ReadNews(bs: Bytes)
    requires ParseMessage(bs).Got? && ParseMessage(bs).m.SendInfo?
    ensures bs == EncodeMessage(ParseMessage(bs).m) + ParseMessage(bs).rest
  {
    var p := ParseMessage(bs);
    ReadHead(bs, SEND_INFO);
    ParsedInt(ParseInt(ParseInt(bs).value.1).value.1);
    Associative(EncodeInt(p.m.page), EncodeInt(p.m.owner), p.rest);
    Associative(EncodeInt(SEND_INFO), EncodeInt(p.m.page) + EncodeInt(p.m.owner), p.rest);
  }

  lemma BodyTogether(kind: Bytes, page: Bytes, size: Bytes, body: Bytes, rest: Bytes)
    ensures kind + (page + (size + (body + rest))) == (kind + (page + (size + body))) + rest
  {
    Associative(size, body, rest);
    Associative(page, size + body, rest);
    Associative(kind, page + (size + body), rest);
  }

  /** What is behind the page number of a page that is read. */
  lemma ReadBody(bs: Bytes)
    requires ParseMessage(bs).Got? && ParseMessage(bs).m.SendPage?
    ensures var body, rest := ParseMessage(bs).m.body, ParseMessage(bs).rest;
            |body| < 0x8000_0000
            && ParseInt(ParseInt(bs).value.1).value.1 == EncodeInt(|body|) + (body + rest)
  {
    var more := ParseInt(ParseInt(bs).value.1).value.1;
    ParsedInt(more);
    assert ParseInt(more).value.1 == ParseMessage(bs).m.body + ParseMessage(bs).rest;
  }

  lemma ReadPage(bs: Bytes)
    requires ParseMessage(bs).Got? && ParseMessage(bs).m.SendPage?
    ensures bs == EncodeMessage(ParseMessage(bs).m) + ParseMessage(bs).rest
  {
    var m, rest := ParseMessage(bs).m, ParseMessage(bs).rest;
    ReadHead(bs, SEND_PAGE);
    ReadBody(bs);
    BodyTogether(EncodeInt(SEND_PAGE), EncodeInt(m.page), EncodeInt(|m.body|), m.body, rest);
  }

  /** A message that is read is encoded in the bytes taken for it. */
  lemma ReadIsEncoded(bs: Bytes)
    requires ParseMessage(bs).Got?
    ensures Sendable(ParseMessage(bs).m) && bs == EncodeMessage(ParseMessage(bs).m) + ParseMessage(bs).rest
  {
    match ParseMessage(bs).m
    case SendPage(_, _) => ReadPage(bs);
    case SendInfo(_, _) => ReadNews(bs);
    case PageRequest(_) => ReadRequest(bs);
  }

  /** What is read is no longer than the stream, and as long only if the stream is its encoding. */
  lemma {:induction false} AllReadIsEncoded(bs: Bytes)
    ensures AllSendable(ParseAll(bs)) && |EncodeQueue(ParseAll(bs))| <= |bs|
    ensures |EncodeQueue(ParseAll(bs))| == |bs| ==> EncodeQueue(ParseAll(bs)) == bs
    decreases |bs|
  {
    ParseShrinks(bs);
    match ParseMessage(bs)
    case Got(m, rest) =>
      ReadIsEncoded(bs);
      AllReadIsEncoded(rest);
      assert ParseAll(bs) == [m] + ParseAll(rest) && ([m] + ParseAll(rest))[1..] == ParseAll(rest);
    case Skipped(rest) =>
      AllReadIsEncoded(rest);
    case Starved =>
  }

  /** So a stream as long as the encoding of a queue is read as that queue only if it is it. */
  lemma ReadOnlyIfEncoded(bs: Bytes, q: Queue)
    requires AllSendable(q) && |bs| == |EncodeQueue(q)|
    ensures ParseAll(bs) == q <==> bs == EncodeQueue(q)
  {
    if ParseAll(bs) == q {
      AllReadIsEncoded(bs);
    }
    StreamRoundTrip(q);
  }

  // ---------------------------------------------------------------- schedules

  function Concat(pieces: seq<Bytes>): Bytes {
    if pieces == [] then [] else pieces[0] + Concat(pieces[1..])
  }

  function Singles(body: Bytes): (r: seq<Bytes>)
    ensures |r| == |body|
  {
    seq(|body|, k requires 0 <= k < |body| => [body[k]])
  }

  /** The daemon's message in the smallest pieces it may be written in. */
  function Pieces(m: Message): seq<Bytes>
    requires Sendable(m) && !m.PageRequest?
  {
    match m
    case SendPage(p, body) => [EncodeInt(SEND_PAGE), EncodeInt(p), EncodeInt(|body|)] + Singles(body)
    case SendInfo(p, owner) => [EncodeInt(SEND_INFO), EncodeInt(p), EncodeInt(owner)]
  }

  /** `a` written after the first i pieces, and `b` after the first j. */
  function Woven(pieces: seq<Bytes>, a: Bytes, b: Bytes, i: nat, j: nat): Bytes
    requires i <= j <= |pieces|
  {
    Concat(pieces[..i]) + a + Concat(pieces[i..j]) + b + Concat(pieces[j..])
  }

  /** A request for q whose two integers are written among the pieces of m. */
  function Interleaved(m: Message, q: nat, i: nat, j: nat): Bytes
    requires Sendable(m) && !m.PageRequest? && q < 0x8000_0000 && i <= j <= |Pieces(m)|
  {
    Woven(Pieces(m), EncodeInt(PAGE_REQUEST), EncodeInt(q), i, j)
  }

  /** The request is written at once, before the message or behind it. */
  predicate SplitsNeither(i: nat, j: nat, n: nat) {
    i == j && (i == 0 || i == n)
  }

  predicate BothRecovered(bs: Bytes, m: Message, q: nat) {
    ParseAll(bs) == [m, Protocol.PageRequest(q)] || ParseAll(bs) == [Protocol.PageRequest(q), m]
  }

  /** The messages of the daemon, by how they are cut. */
  datatype Shape = News | Body(size: nat)

  predicate HasShape(m: Message, shape: Shape) {
    match shape
    case News => m.SendInfo?
    case Body(size) => m.SendPage? && |m.body| == size
  }

  function PieceCount(shape: Shape): nat {
    if shape.News? then 3 else 3 + shape.size
  }

  lemma {:induction false} ConcatSplit(pieces: seq<Bytes>, i: nat)
    requires i <= |pieces|
    ensures Concat(pieces) == Concat(pieces[..i]) + Concat(pieces[i..])
  {
    if i == 0 {
      assert pieces[0..] == pieces && pieces[..0] == [];
    } else {
      ConcatSplit(pieces[1..], i - 1);
      assert pieces[..i][1..] == pieces[1..][..i - 1] && pieces[i..] == pieces[1..][i - 1..];
      Associative(pieces[0], Concat(pieces[1..][..i - 1]), Concat(pieces[i..]));
    }
  }

  lemma {:induction false} ConcatSingles(body: Bytes)
    ensures Concat(Singles(body)) == body
  {
    if body == [] {
    } else {
      ConcatSingles(body[1..]);
      assert Singles(body)[1..] == Singles(body[1..]);
      assert body == [body[0]] + body[1..];
    }
  }

  lemma ConcatThree(a: Bytes, b: Bytes, c: Bytes, more: seq<Bytes>)
    ensures Concat([a, b, c] + more) == a + (b + (c + Concat(more)))
  {
    ConcatOneMore(a, [b, c] + more);
    ConcatOneMore(b, [c] + more);
    ConcatOneMore(c, more);
    assert [a, b, c] + more == [a] + ([b, c] + more) && [b, c] + more == [b] + ([c] + more);
  }

  lemma ConcatOneMore(a: Bytes, more: seq<Bytes>)
    ensures Concat([a] + more) == a + Concat(more)
  {
    assert ([a] + more)[1..] == more;
  }

  lemma PiecesAreTheMessage(m: Message)
    requires Sendable(m) && !m.PageRequest?
    ensures Concat(Pieces(m)) == EncodeMessage(m)
  {
    match m
    case SendPage(p, body) =>
      ConcatThree(EncodeInt(SEND_PAGE), EncodeInt(p), EncodeInt(|body|), Singles(body));
      ConcatSingles(body);
    case SendInfo(p, owner) =>
      var ints := [EncodeInt(SEND_INFO), EncodeInt(p), EncodeInt(owner)];
      ConcatThree(EncodeInt(SEND_INFO), EncodeInt(p), EncodeInt(owner), []);
      assert ints + [] == ints && EncodeInt(owner) + [] == EncodeInt(owner);
  }

  // ---------------------------------------------------------------- what a split schedule looks like

  function End(bs: Bytes, k: nat): Bytes
    requires k <= |bs|
  {
    bs[|bs| - k..]
  }

  lemma EndOfSum(x: Bytes, y: Bytes, k: nat)
    requires k <= |y|
    ensures End(x + y, k) == End(y, k)
  {
  }

  /** Whatever is cut off in front, the message ends with its last piece. */
  lemma EndOfPieces(pieces: seq<Bytes>, i: nat, k: nat)
    requires i < |pieces| && k <= |pieces[|pieces| - 1]|
    ensures k <= |Concat(pieces[i..])|
    ensures End(Concat(pieces[i..]), k) == End(pieces[|pieces| - 1], k)
  {
    var rest, n := pieces[i..], |pieces| - i - 1;
    ConcatSplit(rest, n);
    ConcatOneMore(pieces[|pieces| - 1], []);
    assert rest[n..] == [pieces[|pieces| - 1]] + [];
    assert Concat(rest[n..]) == pieces[|pieces| - 1];
    EndOfSum(Concat(rest[..n]), Concat(rest[n..]), k);
  }

  /** Where `a` and `b` end otherwise than the message does, both are behind it only if they were
      written behind it. */
  lemma MessageFirst(pieces: seq<Bytes>, a: Bytes, b: Bytes, i: nat, j: nat, k: nat)
    requires i <= j <= |pieces| && pieces != [] && k <= |a| && k <= |b| && k <= |pieces[|pieces| - 1]|
    requires End(a, k) != End(pieces[|pieces| - 1], k) && End(b, k) != End(pieces[|pieces| - 1], k)
    requires Woven(pieces, a, b, i, j) == Concat(pieces) + (a + b)
    ensures i == j == |pieces|
  {
    Associative(Concat(pieces), a, b);
    EndOfSum(Concat(pieces) + a, b, k);
    var front := Concat(pieces[..i]) + a + Concat(pieces[i..j]);
    if j < |pieces| {
      EndOfPieces(pieces, j, k);
      EndOfSum(front + b, Concat(pieces[j..]), k);
      assert false;
    } else if i < |pieces| {
      ConcatSplit(pieces, i);
      assert pieces[i..j] == pieces[i..];
      assert front + b + [] == (Concat(pieces) + a) + b;
      assert front == (front + b + [])[..|front|] == Concat(pieces) + a;
      EndOfPieces(pieces, i, k);
      EndOfSum(Concat(pieces[..i]) + a, Concat(pieces[i..]), k);
      EndOfSum(Concat(pieces), a, k);
      assert false;
    }
  }

  /** What the stream begins with when the message is not behind both. */
  lemma WovenStart(pieces: seq<Bytes>, a: Bytes, b: Bytes, i: nat, j: nat)
    requires i <= j <= |pieces| && pieces != [] && |pieces[0]| == |a| == |b| == 4
    ensures |Woven(pieces, a, b, i, j)| >= 8
    ensures i > 0 ==> Woven(pieces, a, b, i, j)[..4] == pieces[0]
    ensures i == 0 < j ==> Woven(pieces, a, b, i, j)[4..8] == pieces[0]
  {
    if i > 0 {
      assert Concat(pieces[..i])[..4] == pieces[0];
    } else if j > 0 {
      assert pieces[i..j] == pieces[..j];
      assert Concat(pieces[..j])[..4] == pieces[0];
    }
  }

  /** And in front of it only if they were written in front. */
  lemma RequestFirst(pieces: seq<Bytes>, a: Bytes, b: Bytes, i: nat, j: nat)
    requires i <= j <= |pieces| && pieces != [] && |pieces[0]| == |a| == |b| == 4
    requires pieces[0] != a && pieces[0] != b
    requires Woven(pieces, a, b, i, j) == (a + b) + Concat(pieces)
    ensures i == j == 0
  {
    WovenStart(pieces, a, b, i, j);
    assert Woven(pieces, a, b, i, j)[..4] == a && Woven(pieces, a, b, i, j)[4..8] == b;
  }

  lemma TwoEncoded(m: Message, r: Message)
    requires Sendable(m) && Sendable(r)
    ensures EncodeQueue([m, r]) == EncodeMessage(m) + EncodeMessage(r)
  {
    assert [m, r][1..] == [r] && [r][1..] == [];
    assert EncodeMessage(r) + [] == EncodeMessage(r);
    assert EncodeQueue([r]) == EncodeMessage(r);
  }

  lemma {:induction false} WovenLength(pieces: seq<Bytes>, a: Bytes, b: Bytes, i: nat, j: nat)
    requires i <= j <= |pieces|
    ensures |Woven(pieces, a, b, i, j)| == |Concat(pieces)| + |a| + |b|
  {
    ConcatSplit(pieces, j);
    ConcatSplit(pieces[..j], i);
    assert pieces[..j][..i] == pieces[..i] && pieces[..j][i..] == pieces[i..j];
  }

  /** Both are recovered exactly when the stream is the one message behind the other. */
  lemma RecoveredIff(m: Message, q: nat, i: nat, j: nat)
    requires Sendable(m) && !m.PageRequest? && q < 0x8000_0000 && i <= j <= |Pieces(m)|
    ensures var bs, request := Interleaved(m, q, i, j), EncodeInt(PAGE_REQUEST) + EncodeInt(q);
            BothRecovered(bs, m, q)
            <==> bs == Concat(Pieces(m)) + request || bs == request + Concat(Pieces(m))
  {
    var bs, r := Interleaved(m, q, i, j), Protocol.PageRequest(q);
    PiecesAreTheMessage(m);
    WovenLength(Pieces(m), EncodeInt(PAGE_REQUEST), EncodeInt(q), i, j);
    TwoEncoded(m, r);
    TwoEncoded(r, m);
    ReadOnlyIfEncoded(bs, [m, r]);
    ReadOnlyIfEncoded(bs, [r, m]);
  }

  // ---------------------------------------------------------------- the exact condition

  lemma WovenWhole(pieces: seq<Bytes>, a: Bytes, b: Bytes)
    ensures Woven(pieces, a, b, 0, 0) == (a + b) + Concat(pieces)
    ensures Woven(pieces, a, b, |pieces|, |pieces|) == Concat(pieces) + (a + b)
  {
    assert pieces[..0] == [] && pieces[0..0] == [] && pieces[0..] == pieces;
    assert [] + a + [] == a;
    var n := |pieces|;
    assert pieces[..n] == pieces && pieces[n..n] == [] && pieces[n..] == [];
    assert Concat(pieces) + a + [] + b + [] == Concat(pieces) + a + b;
    Associative(Concat(pieces), a, b);
  }

  lemma WholeIsRecovered(m: Message, q: nat, i: nat)
    requires Sendable(m) && !m.PageRequest? && q < 0x8000_0000 && (i == 0 || i == |Pieces(m)|)
    ensures BothRecovered(Interleaved(m, q, i, i), m, q)
  {
    RecoveredIff(m, q, i, i);
    WovenWhole(Pieces(m), EncodeInt(PAGE_REQUEST), EncodeInt(q));
  }

  /** The message begins with neither integer of the request, and the last k bytes of each differ
      from its own. */
  predicate Telling(m: Message, q: nat, k: nat) {
    && Sendable(m) && !m.PageRequest? && q < 0x8000_0000
    && var pieces, a, b := Pieces(m), EncodeInt(PAGE_REQUEST), EncodeInt(q);
       && pieces[0] != a && pieces[0] != b && k <= 4 && k <= |pieces[|pieces| - 1]|
       && End(a, k) != End(pieces[|pieces| - 1], k) && End(b, k) != End(pieces[|pieces| - 1], k)
  }

  lemma SplitIsNotRecovered(m: Message, q: nat, i: nat, j: nat, k: nat)
    requires Sendable(m) && !m.PageRequest? && q < 0x8000_0000 && i <= j <= |Pieces(m)|
    requires !SplitsNeither(i, j, |Pieces(m)|) && Telling(m, q, k)
    ensures !BothRecovered(Interleaved(m, q, i, j), m, q)
  {
    var pieces, a, b := Pieces(m), EncodeInt(PAGE_REQUEST), EncodeInt(q);
    RecoveredIff(m, q, i, j);
    if Interleaved(m, q, i, j) == Concat(pieces) + (a + b) {
      MessageFirst(pieces, a, b, i, j, k);
    } else if Interleaved(m, q, i, j) == (a + b) + Concat(pieces) {
      RequestFirst(pieces, a, b, i, j);
    }
  }

  lemma DifferentInts(x: Int32, y: Int32)
    requires x != y
    ensures EncodeInt(x) != EncodeInt(y)
  {
    IntRoundTrip(x);
    IntRoundTrip(y);
  }

  /** Where a message ends with an integer, a request that has neither it nor its type. */
  lemma TellingInt(m: Message, q: Int32, kind: Int32, last: Int32)
    requires Sendable(m) && !m.PageRequest? && q >= 0
    requires Pieces(m)[0] == EncodeInt(kind) && Pieces(m)[|Pieces(m)| - 1] == EncodeInt(last)
    requires kind != PAGE_REQUEST && kind != q && last != PAGE_REQUEST && last != q
    ensures Telling(m, q, 4)
  {
    DifferentInts(kind, PAGE_REQUEST);
    DifferentInts(kind, q);
    DifferentInts(last, PAGE_REQUEST);
    DifferentInts(last, q);
  }

  lemma SmallEnd(q: Int32)
    requires 0 <= q < 0x1_0000
    ensures End(EncodeInt(q), 1) == [0]
  {
    SmallOctets(q);
  }

  lemma EndsOfPage(p: nat, body: Bytes)
    requires p < 0x8000_0000 && 0 < |body| < 0x8000_0000
    ensures var pieces := Pieces(Protocol.SendPage(p, body));
            pieces[0] == EncodeInt(SEND_PAGE) && pieces[|pieces| - 1] == [body[|body| - 1]]
  {
    var ints := [EncodeInt(SEND_PAGE), EncodeInt(p), EncodeInt(|body|)];
    assert (ints + Singles(body))[|body| + 2] == Singles(body)[|body| - 1];
  }

  /** Where it ends with the body of a page, a byte that no small integer ends with. */
  lemma TellingByte(body: Bytes)
    requires 0 < |body| < 0x8000_0000 && body[|body| - 1] == 255
    ensures Telling(Protocol.SendPage(3, body), 5, 1)
  {
    EndsOfPage(3, body);
    DifferentInts(SEND_PAGE, PAGE_REQUEST);
    DifferentInts(SEND_PAGE, 5);
    SmallEnd(PAGE_REQUEST);
    SmallEnd(5);
    assert End([255], 1) == [255];
  }

  /** Values for which no split schedule of the shape is recovered, and where they show it. */
  lemma TellingValues(shape: Shape) returns (m: Message, k: nat)
    requires shape.Body? ==> shape.size < 0x8000_0000
    ensures HasShape(m, shape) && Telling(m, 5, k) && |Pieces(m)| == PieceCount(shape)
  {
    match shape
    case News =>
      m, k := Protocol.SendInfo(3, 4), 4;
      TellingInt(m, 5, SEND_INFO, 4);
    case Body(size) =>
      m, k := Protocol.SendPage(3, seq(size, _ => 255)), if size == 0 then 4 else 1;
      if size == 0 {
        TellingInt(m, 5, SEND_PAGE, 0);
      } else {
        TellingByte(m.body);
      }
  }

  /** The reader recovers the message of the daemon and the request of the handler, whatever they
      say, exactly when the request is not written inside the message nor the message inside the
      request. */
  lemma RecoveredIffWhole(shape: Shape, i: nat, j: nat)
    requires i <= j <= PieceCount(shape) && (shape.Body? ==> shape.size < 0x8000_0000)
    ensures SplitsNeither(i, j, PieceCount(shape))
            <==> forall m, q: nat | HasShape(m, shape) && Sendable(m) && q < 0x8000_0000 ::
                   BothRecovered(Interleaved(m, q, i, j), m, q)
  {
    if SplitsNeither(i, j, PieceCount(shape)) {
      forall m, q: nat | HasShape(m, shape) && Sendable(m) && q < 0x8000_0000
        ensures BothRecovered(Interleaved(m, q, i, j), m, q)
      {
        WholeIsRecovered(m, q, i);
      }
    } else {
      var m, k := TellingValues(shape);
      SplitIsNotRecovered(m, 5, i, j, k);
    }
  }

  // ---------------------------------------------------------------- what is read instead

  lemma NewsCutInTwo(p: nat, owner: nat)
    requires p < 0x8000_0000 && owner < 0x8000_0000
    ensures var pieces := Pieces(Protocol.SendInfo(p, owner));
            Concat(pieces[..1]) == EncodeInt(SEND_INFO) && Concat(pieces[1..]) == EncodeInt(p) + EncodeInt(owner)
  {
    var pieces := Pieces(Protocol.SendInfo(p, owner));
    assert pieces[..1] == [EncodeInt(SEND_INFO)] && pieces[1..] == [EncodeInt(p), EncodeInt(owner)];
    ConcatOneMore(EncodeInt(SEND_INFO), []);
    ConcatOneMore(EncodeInt(p), [EncodeInt(owner)]);
    ConcatOneMore(EncodeInt(owner), []);
  }

  /** With three nodes: a request between the first two integers of news is read as news nobody
      sent. */
  lemma RequestInNews(p: nat, owner: nat, q: nat)
    requires p < 0x8000_0000 && owner < 0x8000_0000 && q < 0x8000_0000
    ensures ParseMessage(Interleaved(Protocol.SendInfo(p, owner), q, 1, 1))
            == Got(Protocol.SendInfo(PAGE_REQUEST, q), EncodeInt(p) + EncodeInt(owner))
  {
    var kind, a, b := EncodeInt(SEND_INFO), EncodeInt(PAGE_REQUEST), EncodeInt(q);
    MessageRoundTrip(Protocol.SendInfo(PAGE_REQUEST, q), EncodeInt(p) + EncodeInt(owner));
    NewsCutInTwo(p, owner);
    assert Pieces(Protocol.SendInfo(p, owner))[1..1] == [];
    assert kind + a + [] == kind + a;
    Associative(kind, a, b);
  }

  lemma PageCutInTwo(p: nat, body: Bytes)
    requires p < 0x8000_0000 && |body| < 0x8000_0000
    ensures var pieces := Pieces(Protocol.SendPage(p, body));
            Concat(pieces[..2]) == EncodeHeader(p) && Concat(pieces[2..]) == EncodeLine(body)
  {
    var pieces := Pieces(Protocol.SendPage(p, body));
    assert pieces[..2] == [EncodeInt(SEND_PAGE), EncodeInt(p)];
    assert pieces[2..] == [EncodeInt(|body|)] + Singles(body);
    ConcatOneMore(EncodeInt(SEND_PAGE), [EncodeInt(p)]);
    ConcatOneMore(EncodeInt(p), []);
    ConcatOneMore(EncodeInt(|body|), Singles(body));
    ConcatSingles(body);
  }

  /** With two: a request between the page number and the length is read as the length and the
      beginning of the page, which arrives as two bytes; its own length and body are out of step. */
  lemma RequestInPage(p: nat, body: Bytes, q: nat)
    requires p < 0x8000_0000 && |body| < 0x8000_0000 && q < 0x8000_0000
    ensures ParseMessage(Interleaved(Protocol.SendPage(p, body), q, 2, 2))
            == Got(Protocol.SendPage(p, EncodeInt(q)[..2]), EncodeInt(q)[2..] + EncodeLine(body))
  {
    var header, a, b, line := EncodeHeader(p), EncodeInt(PAGE_REQUEST), EncodeInt(q), EncodeLine(body);
    HeaderSwallowsRequest(p, q, line);
    PageCutInTwo(p, body);
    assert Pieces(Protocol.SendPage(p, body))[2..2] == [];
    assert header + a + [] == header + a;
    Associative(header, a, b);
    Associative(header, a + b, line);
  }
}
