/**
 What travels, octet by octet. The other files prove that what is written is read back; this one
 says what it looks like on the way, in the terms of common.c and dsm.h: integers of four octets
 in two's complement, lengths in front of characters, and the order of the fields.
 */
module WireFormat {
  import opened Basics
  import opened Framing
  import opened Messages
  import opened Handshake
  import Protocol

  // ---------------------------------------------------------------- integers

  /** The number four octets stand for: two's complement, the least significant first. */
  function Signed(b0: Byte, b1: Byte, b2: Byte, b3: Byte): int {
    var low := (b0 as int) + 0x100 * (b1 as int) + 0x1_0000 * (b2 as int);
    low + 0x100_0000 * (if b3 < 128 then b3 as int else b3 as int - 256)
  }

  lemma ValueOfFour(bs: Bytes)
    requires |bs| == 4
    ensures Value(bs) == (bs[0] as int) + 0x100 * (bs[1] as int) + 0x1_0000 * (bs[2] as int)
                         + 0x100_0000 * (bs[3] as int)
  {
    assert Value([]) == 0;
    assert Value(bs[3..]) == bs[3] as int by { assert bs[3..][1..] == []; }
    assert Value(bs[2..]) == bs[2] as int + 256 * Value(bs[3..]) by { assert bs[2..][1..] == bs[3..]; }
    assert Value(bs[1..]) == bs[1] as int + 256 * Value(bs[2..]) by { assert bs[1..][1..] == bs[2..]; }
  }

  /** Any four octets are read as the number they stand for. */
  lemma IntFromWire(bs: Bytes)
    requires |bs| == 4
    ensures DecodeInt(bs) == Signed(bs[0], bs[1], bs[2], bs[3])
  {
    ValueOfFour(bs);
  }

  lemma SignedIsUnique(b: Bytes, c: Bytes)
    requires |b| == 4 && |c| == 4 && Signed(b[0], b[1], b[2], b[3]) == Signed(c[0], c[1], c[2], c[3])
    ensures b == c
  {
    assert b[0] == c[0] && b[1] == c[1] && b[2] == c[2] && b[3] == c[3];
  }

  /** A number is written as just the four octets that stand for it. */
  lemma IntOnWire(x: Int32, bs: Bytes)
    requires |bs| == 4
    ensures EncodeInt(x) == bs <==> Signed(bs[0], bs[1], bs[2], bs[3]) == x
  {
    var e := EncodeInt(x);
    IntRoundTrip(x);
    IntFromWire(e);
    if Signed(bs[0], bs[1], bs[2], bs[3]) == x {
      SignedIsUnique(e, bs);
    }
  }

  // ---------------------------------------------------------------- lines and records

  /** A line is its length and then its characters. */
  lemma LineOnWire(str: Bytes)
    requires |str| < 0x8000_0000
    ensures var bs := EncodeLine(str); |bs| == 4 + |str| && DecodeInt(bs[..4]) == |str| && bs[4..] == str
  {
    IntRoundTrip(|str|);
    assert EncodeLine(str)[..4] == EncodeInt(|str|);
  }

  /** A record fits when its hostname is of at most 254 characters; it is the rank, the length and
      the characters of the hostname, and the port. */
  lemma RecordOnWire(c: ConnInfo)
    ensures ValidInfo(c) <==> |c.host| <= 254 && NUL !in c.host
    ensures ValidInfo(c) ==>
              var bs, end := EncodeInfo(c), 8 + |c.host|;
              && |bs| == end + 4
              && DecodeInt(bs[..4]) == c.rank && DecodeInt(bs[4..8]) == |c.host|
              && bs[8..end] == c.host && DecodeInt(bs[end..]) == c.port
  {
    if ValidInfo(c) {
      var bs, end := EncodeInfo(c), 8 + |c.host|;
      IntRoundTrip(c.rank);
      IntRoundTrip(|c.host|);
      IntRoundTrip(c.port);
      assert bs[..4] == EncodeInt(c.rank);
      assert bs[4..8] == EncodeInt(|c.host|);
      assert bs[8..end] == c.host;
      assert bs[end..] == EncodeInt(c.port);
    }
  }

  // ---------------------------------------------------------------- the daemons' messages

  /** For the numbers a region of 100 pages and fewer than 65536 nodes need: the three messages as
      octets. */
  lemma MessageOnWire(m: Message)
    requires Sendable(m) && m.page < 0x1_0000
    requires (m.SendInfo? ==> m.owner < 0x1_0000) && (m.SendPage? ==> |m.body| < 0x1_0000)
    ensures EncodeMessage(m)
            == if m.SendPage? then
                 [0, 0, 0, 0, m.page % 256, m.page / 256, 0, 0, |m.body| % 256, |m.body| / 256, 0, 0] + m.body
               else if m.SendInfo? then
                 [1, 0, 0, 0, m.page % 256, m.page / 256, 0, 0, m.owner % 256, m.owner / 256, 0, 0]
               else
                 [2, 0, 0, 0, m.page % 256, m.page / 256, 0, 0]
  {
    SmallOctets(m.page);
    if m.SendPage? {
      SmallOctets(0);
      SmallOctets(|m.body|);
    } else if m.SendInfo? {
      SmallOctets(1);
      SmallOctets(m.owner);
    } else {
      SmallOctets(2);
    }
  }

  /** The switch has a case for the types 0, 1 and 2; of a message of any other type just the type
      is taken. */
  lemma OtherTypesSkipped(kind: Int32, rest: Bytes)
    ensures ParseMessage(EncodeInt(kind) + rest).Skipped? <==> kind < 0 || kind > 2
    ensures kind < 0 || kind > 2 ==> ParseMessage(EncodeInt(kind) + rest) == Skipped(rest)
  {
    ParseEncodedInt(kind, rest);
  }

  /** As written a page whose first NUL is at k arrives as its first k bytes, in front of what the
      receiver's fresh buffer held. */
  lemma WrittenBodyIs(body: Bytes, stale: Bytes, k: nat)
    requires |stale| == |body| && k <= |body| && NUL !in body[..k] && (k < |body| ==> body[k] == NUL)
    ensures WrittenBody(body, stale) == body[..k] + stale[k..]
  {
    assert body == body[..k] + body[k..];
    CStringOf(body[..k], body[k..]);
  }

  /** That is what the program's own calls make of a page: strlen and the line of dsm_send_page, the
      line of dsm_recv_page into a fresh buffer. */
  method TransferBody(s: Stream, body: Bytes, buffer: array<Byte>)
    requires s.content == [] && |body| == buffer.Length < 0x8000_0000
    modifies s, buffer
    ensures buffer[..] == WrittenBody(body, old(buffer[..])) && s.content == []
  {
    var mem := body + [NUL];
    assert mem[|body|] == NUL;
    CStringOf(CString(body), body[|CString(body)|..] + [NUL]);
    assert mem == CString(body) + (body[|CString(body)|..] + [NUL]);
    SendLine(s, mem);
    assert s.content == EncodeLine(CString(body)) + [];
    RecvLine(s, buffer, CString(body), []);
  }

  // ---------------------------------------------------------------- launcher and workers

  lemma ThreeInts(x: Int32, y: Int32, z: Int32, rest: Bytes)
    ensures var bs := EncodeInt(x) + (EncodeInt(y) + (EncodeInt(z) + rest));
            && |bs| == 12 + |rest| && bs[12..] == rest
            && DecodeInt(bs[..4]) == x && DecodeInt(bs[4..8]) == y && DecodeInt(bs[8..12]) == z
  {
    var bs := EncodeInt(x) + (EncodeInt(y) + (EncodeInt(z) + rest));
    IntRoundTrip(x);
    IntRoundTrip(y);
    IntRoundTrip(z);
    assert bs[..4] == EncodeInt(x) && bs[4..8] == EncodeInt(y) && bs[8..12] == EncodeInt(z);
  }

  /** A worker announces itself in twelve octets: rank, pid, port. */
  lemma AnnouncementOnWire(rank: Int32, pid: Int32, port: Int32)
    ensures var bs := Announcement(rank, pid, port);
            && |bs| == 12
            && DecodeInt(bs[..4]) == rank && DecodeInt(bs[4..8]) == pid && DecodeInt(bs[8..12]) == port
  {
    ThreeInts(rank, pid, port, []);
    assert EncodeInt(port) + [] == EncodeInt(port);
  }

  /** The ranks from k to n - 1, in order and without `me`. */
  function OtherRanks(n: nat, me: nat, k: nat): (ranks: seq<nat>)
    requires k <= n
    ensures forall j | 0 <= j < |ranks| :: ranks[j] < n
    decreases n - k
  {
    if k == n then [] else (if k == me then [] else [k]) + OtherRanks(n, me, k + 1)
  }

  lemma {:induction false} OtherRankAt(n: nat, me: nat, k: nat, j: nat)
    requires me < n && k <= n
    ensures |OtherRanks(n, me, k)| == n - k - if k <= me then 1 else 0
    ensures j < |OtherRanks(n, me, k)| ==> OtherRanks(n, me, k)[j] == if k <= me <= k + j then k + j + 1 else k + j
    decreases n - k
  {
    if k == n {
    } else {
      OtherRankAt(n, me, k + 1, if k == me then j else if j == 0 then 0 else j - 1);
    }
  }

  /** The records of these ranks, one behind the other. */
  ghost function Records(workers: seq<Worker>, ranks: seq<nat>): Bytes
    requires ValidWorkers(workers) && forall j | 0 <= j < |ranks| :: ranks[j] < |workers|
  {
    if ranks == [] then [] else EncodeInfo(workers[ranks[0]].info) + Records(workers, ranks[1..])
  }

  lemma RecordFirst(workers: seq<Worker>, me: nat, k: nat, ranks: seq<nat>)
    requires ValidWorkers(workers) && k < |workers| && forall j | 0 <= j < |ranks| :: ranks[j] < |workers|
    ensures var all := (if k == me then [] else [k]) + ranks;
            && (forall j | 0 <= j < |all| :: all[j] < |workers|)
            && Records(workers, all) == RecordFor(workers, me, k) + Records(workers, ranks)
  {
    if k == me {
      assert [] + ranks == ranks && [] + Records(workers, ranks) == Records(workers, ranks);
    } else {
      assert ([k] + ranks)[1..] == ranks;
    }
  }

  lemma {:induction false} OthersAreRecords(workers: seq<Worker>, me: nat, k: nat)
    requires ValidWorkers(workers) && k <= |workers|
    ensures OthersFrom(workers, me, k) == Records(workers, OtherRanks(|workers|, me, k))
    decreases |workers| - k
  {
    if k == |workers| {
    } else {
      OthersAreRecords(workers, me, k + 1);
      RecordFirst(workers, me, k, OtherRanks(|workers|, me, k + 1));
    }
  }

  /** A briefing is the signal 0, the number of nodes and the rank, in twelve octets, and then the
      records of the ranks 0 to N - 1 in order, the own one left out. */
  lemma BriefingOnWire(workers: seq<Worker>, me: nat, j: nat)
    requires ValidWorkers(workers) && me < |workers|
    ensures var bs, ranks := Briefing(workers, me), OtherRanks(|workers|, me, 0);
            && |bs| >= 12
            && DecodeInt(bs[..4]) == 0 && DecodeInt(bs[4..8]) == |workers| && DecodeInt(bs[8..12]) == me
            && bs[12..] == Records(workers, ranks)
            && |ranks| == |workers| - 1 && (j < |ranks| ==> ranks[j] == if j < me then j else j + 1)
  {
    ThreeInts(0, |workers|, me, OthersFrom(workers, me, 0));
    OthersAreRecords(workers, me, 0);
    OtherRankAt(|workers|, me, 0, j);
  }
}
