/**
 The exchange between the launcher and its workers: each worker connects and announces its
 rank, pid and port; when all have, the launcher tells each of them the number of nodes, its
 rank, and where the others listen. The workers may connect in any order. All of it is
 carried by the byte streams and the framing of common.c.
 */
module Handshake {
  import opened Basics
  import opened Framing

  /** What is known of one worker: its process and how the others reach it. */
  datatype Worker = Worker(pid: Int32, info: ConnInfo)

  /** dsm_proc_t: `fd` says which accepted connection is the worker's. */
  datatype ProcEntry = ProcEntry(fd: nat, pid: Int32, info: ConnInfo)

  /** What a worker knows at the end: DSM_NODE_NUM, DSM_NODE_ID and dsm_conn_array. */
  datatype WorkerView = WorkerView(nodeNum: Int32, nodeId: Int32, table: seq<ConnInfo>)

  const CLEARED := ConnInfo(0, [], 0)

  ghost predicate ValidWorkers(workers: seq<Worker>) {
    && |workers| < 0x8000_0000
    && forall r | 0 <= r < |workers| :: ValidInfo(workers[r].info) && workers[r].info.rank == r
  }

  /** The order in which the workers connect: every rank once. */
  ghost predicate ConnectionOrder(order: seq<nat>, n: nat) {
    && |order| == n
    && (forall t | 0 <= t < n :: order[t] < n)
    && (forall t, u | 0 <= t < u < n :: order[t] != order[u])
    && (forall r: nat | r < n :: r in order)
  }

  ghost predicate Distinct(streams: seq<Stream>) {
    forall t, u | 0 <= t < u < |streams| :: streams[t] != streams[u]
  }

  // ---------------------------------------------------------------- what is said

  function Announcement(rank: Int32, pid: Int32, port: Int32): Bytes {
    EncodeInt(rank) + (EncodeInt(pid) + EncodeInt(port))
  }

  /** What worker `me` is sent about worker k: nothing about itself. */
  ghost function RecordFor(workers: seq<Worker>, me: nat, k: nat): Bytes
    requires ValidWorkers(workers) && k < |workers|
  {
    if k == me then [] else EncodeInfo(workers[k].info)
  }

  /** The connection records of all workers from k on, but the own one. */
  ghost function OthersFrom(workers: seq<Worker>, me: nat, k: nat): Bytes
    requires ValidWorkers(workers) && k <= |workers|
    decreases |workers| - k
  {
    if k == |workers| then [] else RecordFor(workers, me, k) + OthersFrom(workers, me, k + 1)
  }

  ghost function Briefing(workers: seq<Worker>, me: nat): Bytes
    requires ValidWorkers(workers) && me < |workers|
  {
    EncodeInt(0) + (EncodeInt(|workers|) + (EncodeInt(me) + OthersFrom(workers, me, 0)))
  }

  // ---------------------------------------------------------------- the worker

  /** dsmwrap's side: rank, pid, then the port of its listening socket. */
  method Announce(up: Stream, rank: Int32, pid: Int32, port: Int32)
    modifies up
    ensures up.content == old(up.content) + Announcement(rank, pid, port)
  {
    SendInt(up, rank);
    SendInt(up, pid);
    SendInt(up, port);
    Associative(old(up.content), EncodeInt(rank), EncodeInt(pid));
    Associative(old(up.content), EncodeInt(rank) + EncodeInt(pid), EncodeInt(port));
    Associative(EncodeInt(rank), EncodeInt(pid), EncodeInt(port));
  }

  method RecvKnownInt(s: Stream, ghost x: Int32, ghost rest: Bytes) returns (r: Int32)
    requires s.content == EncodeInt(x) + rest
    modifies s
    ensures r == x && s.content == rest
  {
    IntRoundTrip(x);
    assert s.content[..4] == EncodeInt(x) && s.content[4..] == rest;
    r := RecvInt(s);
  }

  ghost predicate TableOf(table: seq<ConnInfo>, workers: seq<Worker>, me: nat) {
    && |table| == |workers|
    && forall j | 0 <= j < |workers| :: table[j] == if j == me then CLEARED else workers[j].info
  }

  /** The view of worker `me`: everything about the others, exactly. */
  ghost predicate KnowsOthers(view: WorkerView, workers: seq<Worker>, me: nat) {
    view.nodeNum == |workers| && view.nodeId == me && TableOf(view.table, workers, me)
  }

  method RecvRecord(down: Stream, table: array<ConnInfo>, i: nat, nodeId: nat,
        ghost workers: seq<Worker>, ghost rest: Bytes)
    requires ValidWorkers(workers) && table.Length == |workers| && i < |workers| && table[i] == CLEARED
    requires down.content == RecordFor(workers, nodeId, i) + rest
    modifies down, table
    ensures table[..] == old(table[..])[i := if i == nodeId then CLEARED else workers[i].info]
    ensures down.content == rest
  {
    if i != nodeId {
      var temp := RecvInfo(down, workers[i].info, rest);
      table[i] := temp;
    }
  }

  /** dsm_init's loop: a record for every rank but the own one, whose slot stays cleared. */
  method RecvTable(down: Stream, nodeNum: nat, nodeId: nat, ghost workers: seq<Worker>)
    returns (table: array<ConnInfo>)
    requires ValidWorkers(workers) && nodeNum == |workers| && nodeId < nodeNum
    requires down.content == OthersFrom(workers, nodeId, 0)
    modifies down
    ensures TableOf(table[..], workers, nodeId) && down.content == []
  {
    table := new ConnInfo[nodeNum](_ => CLEARED);
    for i := 0 to nodeNum
      invariant forall j | 0 <= j < i :: table[j] == if j == nodeId then CLEARED else workers[j].info
      invariant forall j | i <= j < nodeNum :: table[j] == CLEARED
      invariant down.content == OthersFrom(workers, nodeId, i)
    {
      ghost var was := table[..];
      RecvRecord(down, table, i, nodeId, workers, OthersFrom(workers, nodeId, i + 1));
      assert forall j | 0 <= j < nodeNum && j != i :: table[j] == was[j];
    }
  }

  /** dsmwrap's wait for the signal, then the start of dsm_init on the inherited socket. */
  method Initialise(down: Stream, ghost workers: seq<Worker>, ghost me: nat) returns (view: WorkerView)
    requires ValidWorkers(workers) && me < |workers|
    requires down.content == Briefing(workers, me)
    modifies down
    ensures KnowsOthers(view, workers, me) && down.content == []
  {
    ghost var others := OthersFrom(workers, me, 0);
    var signal := RecvKnownInt(down, 0, EncodeInt(|workers|) + (EncodeInt(me) + others));
    var nodeNum := RecvKnownInt(down, |workers|, EncodeInt(me) + others);
    var nodeId := RecvKnownInt(down, me, others);
    var table := RecvTable(down, nodeNum, nodeId, workers);
    view := WorkerView(nodeNum, nodeId, table[..]);
  }

  // ---------------------------------------------------------------- the launcher

  ghost function AnnouncementOf(workers: seq<Worker>, r: nat): Bytes
    requires ValidWorkers(workers) && r < |workers|
  {
    Announcement(r, workers[r].pid, workers[r].info.port)
  }

  /** One accepted connection: the rank it sends decides which entry it fills. */
  method CollectOne(up: Stream, procs: array<ProcEntry>, i: nat, ghost workers: seq<Worker>, ghost r: nat)
    requires ValidWorkers(workers) && procs.Length == |workers| && r < |workers|
    requires up.content == AnnouncementOf(workers, r)
    modifies up, procs
    ensures up.content == []
    ensures procs[..] == old(procs[..])[r := ProcEntry(i, workers[r].pid,
                                               old(procs[r]).info.(port := workers[r].info.port))]
  {
    ghost var w := workers[r];
    var rank := RecvKnownInt(up, r, EncodeInt(w.pid) + EncodeInt(w.info.port));
    procs[rank] := procs[rank].(fd := i);
    var pid := RecvKnownInt(up, w.pid, EncodeInt(w.info.port));
    procs[rank] := procs[rank].(pid := pid);
    assert EncodeInt(w.info.port) == EncodeInt(w.info.port) + [];
    var port := RecvKnownInt(up, w.info.port, []);
    procs[rank] := procs[rank].(info := procs[rank].info.(port := port));
  }

  /** The entry of rank r once its announcement has come over the t-th connection. */
  ghost predicate Collected(e: ProcEntry, t: nat, w: Worker) {
    e == ProcEntry(t, w.pid, w.info)
  }

  /** What the children have put into the table before: rank and hostname. */
  ghost predicate Prefilled(e: ProcEntry, w: Worker) {
    e.info.rank == w.info.rank && e.info.host == w.info.host
  }

  /** The first i connections have been read; the others still hold their announcements. */
  ghost predicate CollectedUpTo(ups: seq<Stream>, order: seq<nat>, workers: seq<Worker>, i: nat)
    requires ValidWorkers(workers) && ConnectionOrder(order, |workers|) && |ups| == |workers|
    reads set t | 0 <= t < |ups| :: ups[t]
  {
    forall t | 0 <= t < |ups| ::
      ups[t].content == if t < i then [] else AnnouncementOf(workers, order[t])
  }

  /** The table after i connections. */
  ghost predicate TableUpTo(procs: seq<ProcEntry>, order: seq<nat>, workers: seq<Worker>, i: nat)
    requires ValidWorkers(workers) && ConnectionOrder(order, |workers|) && |procs| == |workers| && i <= |order|
  {
    && (forall t | 0 <= t < i :: Collected(procs[order[t]], t, workers[order[t]]))
    && (forall r | 0 <= r < |procs| :: Prefilled(procs[r], workers[r]))
  }

  lemma TableGrows(procs: seq<ProcEntry>, order: seq<nat>, workers: seq<Worker>, i: nat)
    requires ValidWorkers(workers) && ConnectionOrder(order, |workers|) && |procs| == |workers| && i < |order|
    requires TableUpTo(procs, order, workers, i)
    ensures var r, w := order[i], workers[order[i]];
            TableUpTo(procs[r := ProcEntry(i, w.pid, procs[r].info.(port := w.info.port))], order, workers, i + 1)
  {
  }

  /** The i-th connection, whoever made it. */
  method CollectNext(ups: seq<Stream>, procs: array<ProcEntry>, i: nat, ghost order: seq<nat>,
        ghost workers: seq<Worker>)
    requires ValidWorkers(workers) && ConnectionOrder(order, |workers|)
    requires i < |ups| == procs.Length == |workers| && Distinct(ups)
    requires CollectedUpTo(ups, order, workers, i) && TableUpTo(procs[..], order, workers, i)
    modifies procs, ups[i]
    ensures CollectedUpTo(ups, order, workers, i + 1) && TableUpTo(procs[..], order, workers, i + 1)
  {
    TableGrows(procs[..], order, workers, i);
    label Reading:
    CollectOne(ups[i], procs, i, workers, order[i]);
    assert forall t | 0 <= t < |ups| && t != i :: ups[t].content == old@Reading(ups[t].content);
  }

  /** Collects the announcements into the shared table, by rank. The t-th connection is that of
      worker order[t]. */
  method Collect(ups: seq<Stream>, procs: array<ProcEntry>, ghost order: seq<nat>, ghost workers: seq<Worker>)
    requires ValidWorkers(workers) && ConnectionOrder(order, |workers|)
    requires |ups| == procs.Length == |workers| && Distinct(ups)
    requires forall t | 0 <= t < |ups| :: ups[t].content == AnnouncementOf(workers, order[t])
    requires forall r | 0 <= r < procs.Length :: Prefilled(procs[r], workers[r])
    modifies procs, set t | 0 <= t < |ups| :: ups[t]
    ensures forall t | 0 <= t < |order| :: Collected(procs[order[t]], t, workers[order[t]])
    ensures forall t | 0 <= t < |ups| :: ups[t].content == []
  {
    for i := 0 to procs.Length
      invariant CollectedUpTo(ups, order, workers, i) && TableUpTo(procs[..], order, workers, i)
    {
      CollectNext(ups, procs, i, order, workers);
    }
  }

  /** The launcher compares ranks to skip the worker's own record. */
  method SendRecord(down: Stream, procs: array<ProcEntry>, i: nat, j: nat, ghost workers: seq<Worker>)
    requires ValidWorkers(workers) && procs.Length == |workers| && i < |workers| && j < |workers|
    requires forall r | 0 <= r < procs.Length :: procs[r].info == workers[r].info
    modifies down
    ensures down.content == old(down.content) + RecordFor(workers, i, j)
  {
    if procs[j].info.rank != procs[i].info.rank {
      SendInfo(down, procs[j].info);
    }
  }

  lemma OthersStep(sent: Bytes, workers: seq<Worker>, i: nat, j: nat)
    requires ValidWorkers(workers) && i < |workers| && j < |workers|
    ensures (sent + RecordFor(workers, i, j)) + OthersFrom(workers, i, j + 1) == sent + OthersFrom(workers, i, j)
  {
    Associative(sent, RecordFor(workers, i, j), OthersFrom(workers, i, j + 1));
  }

  method SendOthers(down: Stream, procs: array<ProcEntry>, i: nat, ghost workers: seq<Worker>)
    requires ValidWorkers(workers) && procs.Length == |workers| && i < |workers|
    requires forall r | 0 <= r < procs.Length :: procs[r].info == workers[r].info
    modifies down
    ensures down.content == old(down.content) + OthersFrom(workers, i, 0)
  {
    ghost var goal := down.content + OthersFrom(workers, i, 0);
    for j := 0 to procs.Length
      invariant down.content + OthersFrom(workers, i, j) == goal
    {
      OthersStep(down.content, workers, i, j);
      SendRecord(down, procs, i, j, workers);
    }
    assert down.content + [] == down.content;
  }

  /** What the launcher writes to one worker. */
  method Brief(down: Stream, procs: array<ProcEntry>, i: nat, ghost workers: seq<Worker>)
    requires ValidWorkers(workers) && procs.Length == |workers| && i < |workers|
    requires forall r | 0 <= r < procs.Length :: procs[r].info == workers[r].info
    requires down.content == []
    modifies down
    ensures down.content == Briefing(workers, i)
  {
    SendInt(down, 0);
    SendInt(down, procs.Length);
    SendInt(down, procs[i].info.rank);
    ghost var a, b, c := EncodeInt(0), EncodeInt(|workers|), EncodeInt(i);
    assert down.content == a + b + c;
    SendOthers(down, procs, i, workers);
    ghost var others := OthersFrom(workers, i, 0);
    Associative(a + b, c, others);
    Associative(a, b, c + others);
  }

  /** Where each rank stands in the order of connections. */
  lemma {:induction false} Positions(order: seq<nat>, n: nat) returns (at: seq<nat>)
    requires |order| == n && forall r: nat | r < n :: r in order
    ensures |at| == n && forall r | 0 <= r < n :: at[r] < n && order[at[r]] == r
  {
    at := [];
    for r := 0 to n
      invariant |at| == r && forall q | 0 <= q < r :: at[q] < n && order[at[q]] == q
    {
      assert r in order;
      var t: nat :| t < |order| && order[t] == r;
      at := at + [t];
    }
  }

  /** Every entry has its worker's record and leads to its connection. */
  ghost predicate Directory(procs: seq<ProcEntry>, order: seq<nat>, workers: seq<Worker>)
    requires ValidWorkers(workers) && ConnectionOrder(order, |workers|) && |procs| == |workers|
  {
    forall r | 0 <= r < |procs| ::
      procs[r].info == workers[r].info && procs[r].fd < |order| && order[procs[r].fd] == r
  }

  lemma CollectedIsDirectory(procs: seq<ProcEntry>, order: seq<nat>, workers: seq<Worker>)
    requires ValidWorkers(workers) && ConnectionOrder(order, |workers|) && |procs| == |workers|
    requires forall t | 0 <= t < |order| :: Collected(procs[order[t]], t, workers[order[t]])
    ensures Directory(procs, order, workers)
  {
    var at := Positions(order, |workers|);
    forall r | 0 <= r < |procs|
      ensures procs[r].info == workers[r].info && procs[r].fd < |order| && order[procs[r].fd] == r
    {
      assert Collected(procs[order[at[r]]], at[r], workers[order[at[r]]]);
    }
  }

  /** The workers of ranks below i have been briefed. */
  ghost predicate BriefedBelow(downs: seq<Stream>, order: seq<nat>, workers: seq<Worker>, i: nat)
    requires ValidWorkers(workers) && ConnectionOrder(order, |workers|) && |downs| == |workers|
    reads set t | 0 <= t < |downs| :: downs[t]
  {
    forall t | 0 <= t < |downs| :: downs[t].content == if order[t] < i then Briefing(workers, order[t]) else []
  }

  /** Worker i, over the connection its entry names. */
  method BriefNext(downs: seq<Stream>, procs: array<ProcEntry>, i: nat, ghost order: seq<nat>,
        ghost workers: seq<Worker>)
    requires ValidWorkers(workers) && ConnectionOrder(order, |workers|)
    requires i < |downs| == procs.Length == |workers| && Distinct(downs)
    requires Directory(procs[..], order, workers) && BriefedBelow(downs, order, workers, i)
    requires procs[i].fd < |downs|
    modifies downs[procs[i].fd]
    ensures BriefedBelow(downs, order, workers, i + 1)
  {
    ghost var k := procs[i].fd;
    assert forall t | 0 <= t < |downs| && t != k :: order[t] != i;
    label Briefing:
    Brief(downs[procs[i].fd], procs, i, workers);
    assert forall t | 0 <= t < |downs| && t != k :: downs[t].content == old@Briefing(downs[t].content);
  }

  /** Briefs the workers in rank order, each over its own connection. */
  method Distribute(downs: seq<Stream>, procs: array<ProcEntry>, ghost order: seq<nat>, ghost workers: seq<Worker>)
    requires ValidWorkers(workers) && ConnectionOrder(order, |workers|)
    requires |downs| == procs.Length == |workers| && Distinct(downs)
    requires forall t | 0 <= t < |order| :: Collected(procs[order[t]], t, workers[order[t]])
    requires forall t | 0 <= t < |downs| :: downs[t].content == []
    modifies set t | 0 <= t < |downs| :: downs[t]
    ensures forall t | 0 <= t < |downs| :: downs[t].content == Briefing(workers, order[t])
  {
    CollectedIsDirectory(procs[..], order, workers);
    for i := 0 to procs.Length
      invariant BriefedBelow(downs, order, workers, i) && Directory(procs[..], order, workers)
    {
      label Next:
      var at := procs[i].fd;
      assert at < |downs|;
      BriefNext(downs, procs, i, order, workers);
      assert procs[..] == old@Next(procs[..]);
    }
  }

  // ---------------------------------------------------------------- the whole exchange

  /** Fresh, distinct, silent streams, on which calls may be interrupted so many times. */
  method OpenStreams(interruptions: seq<nat>) returns (streams: seq<Stream>)
    ensures |streams| == |interruptions| && Distinct(streams)
    ensures forall t | 0 <= t < |streams| :: fresh(streams[t]) && streams[t].content == []
  {
    streams := [];
    for i := 0 to |interruptions|
      invariant |streams| == i && Distinct(streams)
      invariant forall t | 0 <= t < i :: fresh(streams[t]) && streams[t].content == []
    {
      var s := new Stream(interruptions[i]);
      streams := streams + [s];
    }
  }

  method AnnounceAll(ups: seq<Stream>, order: seq<nat>, workers: seq<Worker>)
    requires ValidWorkers(workers) && ConnectionOrder(order, |workers|)
    requires |ups| == |workers| && Distinct(ups)
    requires forall t | 0 <= t < |ups| :: ups[t].content == []
    modifies set t | 0 <= t < |ups| :: ups[t]
    ensures forall t | 0 <= t < |ups| :: ups[t].content == AnnouncementOf(workers, order[t])
  {
    for i := 0 to |ups|
      invariant forall t | 0 <= t < i :: ups[t].content == AnnouncementOf(workers, order[t])
      invariant forall t | i <= t < |ups| :: ups[t].content == []
    {
      var w := workers[order[i]];
      Announce(ups[i], order[i], w.pid, w.info.port);
    }
  }

  /** The first i workers have read their briefings. */
  ghost predicate BriefedUpTo(downs: seq<Stream>, order: seq<nat>, workers: seq<Worker>, i: nat)
    requires ValidWorkers(workers) && ConnectionOrder(order, |workers|) && |downs| == |workers|
    reads set t | 0 <= t < |downs| :: downs[t]
  {
    forall t | 0 <= t < |downs| :: downs[t].content == if t < i then [] else Briefing(workers, order[t])
  }

  /** They know what they should. */
  ghost predicate ViewsUpTo(views: seq<WorkerView>, order: seq<nat>, workers: seq<Worker>)
    requires ValidWorkers(workers) && ConnectionOrder(order, |workers|) && |views| <= |order|
  {
    forall t | 0 <= t < |views| :: KnowsOthers(views[t], workers, order[t])
  }

  lemma ViewsGrow(views: seq<WorkerView>, view: WorkerView, order: seq<nat>, workers: seq<Worker>)
    requires ValidWorkers(workers) && ConnectionOrder(order, |workers|) && |views| < |order|
    requires ViewsUpTo(views, order, workers) && KnowsOthers(view, workers, order[|views|])
    ensures ViewsUpTo(views + [view], order, workers)
  {
  }

  method InitialiseNext(downs: seq<Stream>, i: nat, ghost order: seq<nat>, ghost workers: seq<Worker>)
    returns (view: WorkerView)
    requires ValidWorkers(workers) && ConnectionOrder(order, |workers|)
    requires i < |downs| == |workers| && Distinct(downs) && BriefedUpTo(downs, order, workers, i)
    modifies downs[i]
    ensures KnowsOthers(view, workers, order[i]) && BriefedUpTo(downs, order, workers, i + 1)
  {
    label Initialising:
    view := Initialise(downs[i], workers, order[i]);
    assert forall t | 0 <= t < |downs| && t != i :: downs[t].content == old@Initialising(downs[t].content);
  }

  method InitialiseAll(downs: seq<Stream>, ghost order: seq<nat>, ghost workers: seq<Worker>)
    returns (views: seq<WorkerView>)
    requires ValidWorkers(workers) && ConnectionOrder(order, |workers|)
    requires |downs| == |workers| && Distinct(downs)
    requires forall t | 0 <= t < |downs| :: downs[t].content == Briefing(workers, order[t])
    modifies set t | 0 <= t < |downs| :: downs[t]
    ensures |views| == |workers|
    ensures forall t | 0 <= t < |views| :: KnowsOthers(views[t], workers, order[t])
    ensures forall t | 0 <= t < |downs| :: downs[t].content == []
  {
    views := [];
    for i := 0 to |downs|
      invariant |views| == i && BriefedUpTo(downs, order, workers, i) && ViewsUpTo(views, order, workers)
    {
      var view := InitialiseNext(downs, i, order, workers);
      ViewsGrow(views, view, order, workers);
      views := views + [view];
    }
  }

  /** Launcher and workers together, for any order of connections and any interruptions of the
      calls on each: the worker behind every connection ends up with the number of nodes, its own
      rank, and exactly the records of the others; nothing is left unread in either direction. */
  method Exchange(order: seq<nat>, workers: seq<Worker>, upInterruptions: seq<nat>, downInterruptions: seq<nat>)
    returns (views: seq<WorkerView>, ups: seq<Stream>, downs: seq<Stream>)
    requires ValidWorkers(workers) && ConnectionOrder(order, |workers|)
    requires |upInterruptions| == |downInterruptions| == |workers|
    ensures |views| == |ups| == |downs| == |workers|
    ensures forall t | 0 <= t < |views| :: KnowsOthers(views[t], workers, order[t])
    ensures forall t | 0 <= t < |ups| :: ups[t].content == [] && downs[t].content == []
  {
    var n := |workers|;
    ups := OpenStreams(upInterruptions);
    downs := OpenStreams(downInterruptions);
    AnnounceAll(ups, order, workers);
    var procs := new ProcEntry[n](r requires 0 <= r < n =>
                                    ProcEntry(0, 0, ConnInfo(r, workers[r].info.host, 0)));
    Collect(ups, procs, order, workers);
    Distribute(downs, procs, order, workers);
    views := InitialiseAll(downs, order, workers);
  }
}
