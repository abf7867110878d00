/**
 Request accounting. Once a giver records the grant in its own table, no node without a page
 is ever told that it owns it, so no request is addressed to its own sender. Once the handler
 also waits for ownership, every thread of a node that waits is owed exactly one request or
 page, and a thread that runs is owed none. Besides the application thread that is the
 daemon, which asks for a page of its own when it faults; then it serves nobody any more, so
 what is owed to which thread is only told for nodes whose daemon is serving.
 */
module Requests {
  import opened Basics
  import opened Protocol
  import opened Traffic

  /** A node that lacks a page believes in another owner, no SEND_INFO names its addressee, and
      nothing is on a node's link to itself. */
  ghost predicate NeverSelf(cfg: Config, s: State)
    requires Shaped(cfg, s)
  {
    && (forall i: nat, p: nat | i < cfg.nodes && p < cfg.pages ::
          s.nodes[i].table[p].owner < cfg.nodes
          && (p !in s.nodes[i].mapped ==> s.nodes[i].table[p].owner != i))
    && (forall x: nat, y: nat, m: Message {:trigger m in s.links[x][y]}
          | x < cfg.nodes && y < cfg.nodes && m in s.links[x][y] ::
          m.SendInfo? ==> m.owner < cfg.nodes && m.owner != y)
    && (forall x: nat | x < cfg.nodes :: s.links[x][x] == [])
  }

  lemma NeverSelfNode(cfg: Config, v: Variant, s: State, l: Label, i: nat, p: nat)
    requires Shaped(cfg, s) && Enabled(cfg, v, s, l) && v.recordsGrant
    requires NeverSelf(cfg, s) && i < cfg.nodes && p < cfg.pages
    ensures var node := Next(cfg, v, s, l).nodes[i];
            node.table[p].owner < cfg.nodes && (p !in node.mapped ==> node.table[p].owner != i)
  {
    assert s.nodes[i].table[p].owner < cfg.nodes;
    if l.Deliver? && l.dst == i {
      assert l.msg in s.links[l.src][l.dst];
    }
  }

  lemma NeverSelfLink(cfg: Config, v: Variant, s: State, l: Label, x: nat, y: nat, m: Message)
    requires Shaped(cfg, s) && Enabled(cfg, v, s, l)
    requires NeverSelf(cfg, s) && x < cfg.nodes && y < cfg.nodes
    requires m in Next(cfg, v, s, l).links[x][y]
    ensures m.SendInfo? ==> m.owner < cfg.nodes && m.owner != y
  {
    NoStrayMessages(cfg, v, s, l, x, y, m);
  }

  lemma NeverSelfFault(cfg: Config, v: Variant, s: State, l: Label)
    requires Shaped(cfg, s) && Enabled(cfg, v, s, l) && NeverSelf(cfg, s)
    ensures l.Fault? ==> l.to < cfg.nodes && l.to != l.node
  {
  }

  lemma NeverSelfStep(cfg: Config, v: Variant, s: State, l: Label)
    requires Shaped(cfg, s) && Enabled(cfg, v, s, l) && v.recordsGrant
    requires NeverSelf(cfg, s)
    ensures NeverSelf(cfg, Next(cfg, v, s, l))
  {
    var s' := Next(cfg, v, s, l);
    forall i: nat, p: nat | i < cfg.nodes && p < cfg.pages
      ensures s'.nodes[i].table[p].owner < cfg.nodes
      ensures p !in s'.nodes[i].mapped ==> s'.nodes[i].table[p].owner != i
    {
      NeverSelfNode(cfg, v, s, l, i, p);
    }
    forall x: nat, y: nat, m: Message | x < cfg.nodes && y < cfg.nodes && m in s'.links[x][y]
      ensures m.SendInfo? ==> m.owner < cfg.nodes && m.owner != y
    {
      NeverSelfLink(cfg, v, s, l, x, y, m);
    }
    forall x: nat | x < cfg.nodes
      ensures s'.links[x][x] == []
    {
      NeverSelfFault(cfg, v, s, l);
      LinkAfter(cfg, v, s, l, x, x);
    }
  }

  lemma {:induction false} NeverSelfInRuns(cfg: Config, v: Variant, run: seq<Label>)
    requires ValidConfig(cfg) && Legal(cfg, v, run) && v.recordsGrant
    ensures NeverSelf(cfg, After(cfg, v, run))
  {
    if run == [] {
    } else {
      NeverSelfInRuns(cfg, v, run[..|run| - 1]);
      NeverSelfStep(cfg, v, After(cfg, v, run[..|run| - 1]), run[|run| - 1]);
    }
  }

  // ---------------------------------------------------------------- a daemon that faulted

  /** A daemon in its own fault handler never leaves it: nobody else changes its table. */
  lemma {:induction false} StuckForever(cfg: Config, v: Variant, run: seq<Label>, more: seq<Label>, i: nat)
    requires ValidConfig(cfg) && Legal(cfg, v, run) && Legal(cfg, v, run + more) && i < cfg.nodes
    requires After(cfg, v, run).nodes[i].daemon.Stuck?
    ensures After(cfg, v, run + more).nodes[i].daemon == After(cfg, v, run).nodes[i].daemon
  {
    if more == [] {
      assert run + more == run;
    } else {
      var most := more[..|more| - 1];
      assert (run + more)[..|run + more| - 1] == run + most;
      StuckForever(cfg, v, run, most, i);
    }
  }

  /** The message is the mark of a sender that faulted: its header, or what a misreading left. */
  predicate Marks(m: Message) {
    m.PageHeader? || m.Scrap?
  }

  /** Nothing but requests comes behind a header or a scrap, and a scrap comes first. */
  predicate OnlyRequestsBehind(q: Queue) {
    && (forall j, k | 0 <= j < k < |q| :: Marks(q[j]) ==> q[k].PageRequest?)
    && (forall k | 0 < k < |q| :: !q[k].Scrap?)
  }

  predicate Unmarked(q: Queue) {
    forall k | 0 <= k < |q| :: !Marks(q[k])
  }

  /** The sender of a header or scrap is stuck, serving its addressee. */
  predicate SenderIsStuck(daemon: Daemon, to: nat, q: Queue) {
    forall m | m in q ::
      && (m.PageHeader? ==> daemon == Stuck(to, m.page))
      && (m.Scrap? ==> daemon.Stuck? && daemon.src == to)
  }

  /** What daemons that faulted have on their links: the request each is stuck on is at the head
      of the link it came by, and behind its header there are only requests. */
  ghost predicate HeaderMeansStuck(cfg: Config, s: State)
    requires Shaped(cfg, s)
  {
    && (forall b: nat | b < cfg.nodes && s.nodes[b].daemon.Stuck? ::
          AtHead(cfg, s, s.nodes[b].daemon.src, b, PageRequest(s.nodes[b].daemon.page)))
    && (forall x: nat, y: nat | x < cfg.nodes && y < cfg.nodes ::
          SenderIsStuck(s.nodes[x].daemon, y, s.links[x][y]) && OnlyRequestsBehind(s.links[x][y]))
  }

  lemma StuckHeadStays(cfg: Config, v: Variant, s: State, l: Label, b: nat)
    requires Shaped(cfg, s) && Enabled(cfg, v, s, l) && HeaderMeansStuck(cfg, s)
    requires b < cfg.nodes && Next(cfg, v, s, l).nodes[b].daemon.Stuck?
    ensures var s' := Next(cfg, v, s, l);
            AtHead(cfg, s', s'.nodes[b].daemon.src, b, PageRequest(s'.nodes[b].daemon.page))
  {
    var s' := Next(cfg, v, s, l);
    var a, p := s'.nodes[b].daemon.src, s'.nodes[b].daemon.page;
    assert AtHead(cfg, s, a, b, PageRequest(p));
    LinkAfter(cfg, v, s, l, a, b);
    assert s'.links[a][b] == s.links[a][b] + Emitted(cfg, v, s, l, a, b);
  }

  /** A daemon that serves has left no mark on its links. */
  lemma ServingIsUnmarked(daemon: Daemon, to: nat, q: Queue)
    requires daemon.Serving? && SenderIsStuck(daemon, to, q)
    ensures Unmarked(q)
  {
    forall k | 0 <= k < |q|
      ensures !Marks(q[k])
    {
      assert q[k] in q;
    }
  }

  lemma BehindAppend(q: Queue, out: Queue)
    requires OnlyRequestsBehind(q)
    requires Unmarked(q) ==> OnlyRequestsBehind(out) && forall k | 0 <= k < |out| :: !out[k].Scrap?
    requires !Unmarked(q) ==> forall k | 0 <= k < |out| :: out[k].PageRequest?
    ensures OnlyRequestsBehind(q + out)
  {
    var r := q + out;
    forall j, k | 0 <= j < k < |r| && Marks(r[j])
      ensures r[k].PageRequest?
    {
      if j < |q| {
        assert Marks(q[j]);
      }
    }
  }

  lemma MarksAfterStep(cfg: Config, v: Variant, s: State, l: Label, x: nat, y: nat)
    requires Shaped(cfg, s) && Enabled(cfg, v, s, l) && HeaderMeansStuck(cfg, s)
    requires x < cfg.nodes && y < cfg.nodes
    ensures OnlyRequestsBehind(Next(cfg, v, s, l).links[x][y])
  {
    var q, out := Rest(cfg, v, s, l, x, y), Emitted(cfg, v, s, l, x, y);
    LinkAfter(cfg, v, s, l, x, y);
    assert SenderIsStuck(s.nodes[x].daemon, y, s.links[x][y]) && OnlyRequestsBehind(s.links[x][y]);
    assert OnlyRequestsBehind(q);
    if s.nodes[x].daemon.Serving? {
      ServingIsUnmarked(s.nodes[x].daemon, y, s.links[x][y]);
    }
    BehindAppend(q, out);
  }

  lemma SenderAfterStep(cfg: Config, v: Variant, s: State, l: Label, x: nat, y: nat)
    requires Shaped(cfg, s) && Enabled(cfg, v, s, l) && HeaderMeansStuck(cfg, s)
    requires x < cfg.nodes && y < cfg.nodes
    ensures SenderIsStuck(Next(cfg, v, s, l).nodes[x].daemon, y, Next(cfg, v, s, l).links[x][y])
  {
    var s' := Next(cfg, v, s, l);
    assert SenderIsStuck(s.nodes[x].daemon, y, s.links[x][y]);
    if l.Misread? && l.src == x && l.dst == y {
      assert PageHeader(l.page) in s.links[x][y];
    }
    forall m | m in s'.links[x][y]
      ensures m.PageHeader? ==> s'.nodes[x].daemon == Stuck(y, m.page)
      ensures m.Scrap? ==> s'.nodes[x].daemon.Stuck? && s'.nodes[x].daemon.src == y
    {
      NoStrayMessages(cfg, v, s, l, x, y, m);
    }
  }

  lemma HeaderStep(cfg: Config, v: Variant, s: State, l: Label)
    requires Shaped(cfg, s) && Enabled(cfg, v, s, l) && HeaderMeansStuck(cfg, s)
    ensures HeaderMeansStuck(cfg, Next(cfg, v, s, l))
  {
    var s' := Next(cfg, v, s, l);
    forall x: nat, y: nat | x < cfg.nodes && y < cfg.nodes
      ensures SenderIsStuck(s'.nodes[x].daemon, y, s'.links[x][y]) && OnlyRequestsBehind(s'.links[x][y])
    {
      MarksAfterStep(cfg, v, s, l, x, y);
      SenderAfterStep(cfg, v, s, l, x, y);
    }
    forall b: nat | b < cfg.nodes && s'.nodes[b].daemon.Stuck?
      ensures AtHead(cfg, s', s'.nodes[b].daemon.src, b, PageRequest(s'.nodes[b].daemon.page))
    {
      StuckHeadStays(cfg, v, s, l, b);
    }
  }

  /** In every reachable state a lone header on a link means that its sender is stuck, with the
      request of its addressee, and that nothing but requests will ever come behind it: what a
      reader may take for the content of the page is always a request. */
  lemma {:induction false} HeadersInRuns(cfg: Config, v: Variant, run: seq<Label>)
    requires ValidConfig(cfg) && Legal(cfg, v, run)
    ensures HeaderMeansStuck(cfg, After(cfg, v, run))
  {
    if run == [] {
    } else {
      HeadersInRuns(cfg, v, run[..|run| - 1]);
      HeaderStep(cfg, v, After(cfg, v, run[..|run| - 1]), run[|run| - 1]);
    }
  }

  // ---------------------------------------------------------------- what each node is owed

  datatype Pending =
    | Idle
    | Asked(page: nat, to: nat)      // its request is on the link to `to`
    | Coming(page: nat, from: nat)   // the page is on the link from `from`

  function NextPending(l: Label, i: nat, pd: Pending): Pending {
    match l
    case Fault(j, p, to) => if j == i then Asked(p, to) else pd
    case Deliver(a, b, PageRequest(p)) => if a == i then Coming(p, b) else pd
    case Deliver(a, b, SendPage(_, _)) => if b == i then Idle else pd
    case Misread(_, b, _, _, _) => if b == i then Idle else pd
    case _ => pd
  }

  function PendingAfter(run: seq<Label>, i: nat): Pending {
    if run == [] then Idle
    else NextPending(run[|run| - 1], i, PendingAfter(run[..|run| - 1], i))
  }

  /** Node i has read past the header of y, which is stuck with its request for ever. */
  predicate Stale(s: State, i: nat, y: nat)
    requires y < |s.links| && i < |s.links[y]|
  {
    s.links[y][i] != [] && s.links[y][i][0].Scrap?
  }

  /** The requests of node i that anybody may still serve, and the pages addressed to it, are
      exactly what `pd` says, and its application thread waits for just that. A thread that spins
      may also wait on when nothing is pending any more. */
  ghost predicate Owed(cfg: Config, v: Variant, s: State, i: nat, pd: Pending)
    requires Shaped(cfg, s) && i < cfg.nodes
  {
    && OwedThread(v, s.nodes[i].app, pd)
    && OwedNode(cfg, s.nodes[i], i, pd)
    && (forall y: nat | y < cfg.nodes ::
          QueueCost(AnyRequest, s.links[i][y])
          == (if pd.Asked? && pd.to == y then 1 else 0) + (if Stale(s, i, y) then 1 else 0))
    && (forall x: nat | x < cfg.nodes ::
          QueueCost(AnyPage, s.links[x][i]) == if pd.Coming? && pd.from == x then 1 else 0)
    && (forall y: nat, m: Message | y < cfg.nodes && m in s.links[i][y] && m.PageRequest? ::
          Stale(s, i, y) || (pd.Asked? && m.page == pd.page))
    && (forall x: nat, m: Message | x < cfg.nodes && m in s.links[x][i] && m.SendPage? ::
          pd.Coming? && m.page == pd.page)
  }

  predicate OwedThread(v: Variant, app: App, pd: Pending) {
    && (!pd.Idle? ==> app == Waiting(pd.page))
    && (pd.Idle? && v.wakesAtOnce ==> app == Running)
  }

  predicate OwedNode(cfg: Config, node: Node, i: nat, pd: Pending) {
    && (!pd.Idle? ==> pd.page < cfg.pages && pd.page !in node.mapped)
    && (pd.Asked? ==> pd.to < cfg.nodes && pd.to != i)
    && (pd.Coming? ==> pd.from < cfg.nodes && pd.from != i)
  }

  /** A header addressed to a node that is in its loop is for the page its thread asked for. */
  lemma HeaderIsAwaited(cfg: Config, v: Variant, s: State, y: nat, i: nat, p: nat, pd: Pending)
    requires Shaped(cfg, s) && HeaderMeansStuck(cfg, s) && y < cfg.nodes && i < cfg.nodes
    requires Owed(cfg, v, s, i, pd) && PageHeader(p) in s.links[y][i]
    ensures pd == Asked(p, y) && !Stale(s, i, y)
  {
    assert SenderIsStuck(s.nodes[y].daemon, i, s.links[y][i]) && OnlyRequestsBehind(s.links[y][i]);
    assert AtHead(cfg, s, i, y, PageRequest(p));
    CostOfMember(AnyRequest, s.links[i][y], PageRequest(p));
  }

  /** A request becomes stale when its sender misreads the header, and stays so. */
  lemma StaleAfter(cfg: Config, v: Variant, s: State, l: Label, i: nat, y: nat)
    requires Shaped(cfg, s) && Enabled(cfg, v, s, l) && HeaderMeansStuck(cfg, s)
    requires i < cfg.nodes && y < cfg.nodes
    ensures Stale(Next(cfg, v, s, l), i, y) <==> Stale(s, i, y) || (l.Misread? && l.src == y && l.dst == i)
  {
    LinkAfter(cfg, v, s, l, y, i);
    assert OnlyRequestsBehind(s.links[y][i]);
  }

  /** A misread page ends the wait of the thread it comes to. */
  lemma OwedAtMisread(cfg: Config, v: Variant, s: State, l: Label, i: nat, pd: Pending)
    requires Shaped(cfg, s) && Enabled(cfg, v, s, l) && i < cfg.nodes && AsMeant(v) && HeaderMeansStuck(cfg, s)
    requires Owed(cfg, v, s, i, pd) && l.Misread?
    ensures OwedThread(v, Next(cfg, v, s, l).nodes[i].app, NextPending(l, i, pd))
    ensures OwedNode(cfg, Next(cfg, v, s, l).nodes[i], i, NextPending(l, i, pd))
    ensures l.dst == i ==> s.nodes[i].app == Waiting(l.page)
    ensures l.dst == i && v.wakesAtOnce ==> Next(cfg, v, s, l).nodes[i].app.Running?
  {
    if l.dst == i {
      assert PageHeader(l.page) in s.links[l.src][i];
      HeaderIsAwaited(cfg, v, s, l.src, i, l.page, pd);
    }
  }

  lemma OwedAtDelivery(cfg: Config, v: Variant, s: State, l: Label, i: nat, pd: Pending)
    requires Shaped(cfg, s) && Enabled(cfg, v, s, l) && i < cfg.nodes && AsMeant(v) && l.Deliver?
    requires NeverSelf(cfg, s) && HeaderMeansStuck(cfg, s) && Owed(cfg, v, s, i, pd)
    ensures OwedThread(v, Next(cfg, v, s, l).nodes[i].app, NextPending(l, i, pd))
    ensures OwedNode(cfg, Next(cfg, v, s, l).nodes[i], i, NextPending(l, i, pd))
  {
    assert l.msg in s.links[l.src][l.dst];
    DeliveredRequest(cfg, v, s, l, i, pd);
  }

  lemma OwedAtNode(cfg: Config, v: Variant, s: State, l: Label, i: nat, pd: Pending)
    requires Shaped(cfg, s) && Enabled(cfg, v, s, l) && i < cfg.nodes && AsMeant(v) && HeaderMeansStuck(cfg, s)
    requires NeverSelf(cfg, s) && Owed(cfg, v, s, i, pd)
    ensures OwedThread(v, Next(cfg, v, s, l).nodes[i].app, NextPending(l, i, pd))
    ensures OwedNode(cfg, Next(cfg, v, s, l).nodes[i], i, NextPending(l, i, pd))
  {
    if l.Misread? {
      OwedAtMisread(cfg, v, s, l, i, pd);
    } else if l.Deliver? {
      OwedAtDelivery(cfg, v, s, l, i, pd);
    }
  }

  /** Requests come from faults only. */
  lemma RequestsEmitted(cfg: Config, v: Variant, s: State, l: Label, x: nat, y: nat)
    requires Shaped(cfg, s) && Enabled(cfg, v, s, l) && x < cfg.nodes && y < cfg.nodes
    requires !(l.DaemonFault? && l.dst == x)
    ensures QueueCost(AnyRequest, Emitted(cfg, v, s, l, x, y))
            == if l.Fault? && l.node == x && l.to == y then 1 else 0
  {
    var out := Emitted(cfg, v, s, l, x, y);
    if out != [] {
      CostOfSingleton(AnyRequest, out[0]);
    }
  }

  /** Pages come from grants only. */
  lemma PagesEmitted(cfg: Config, v: Variant, s: State, l: Label, x: nat, y: nat)
    requires Shaped(cfg, s) && Enabled(cfg, v, s, l) && x < cfg.nodes && y < cfg.nodes
    ensures QueueCost(AnyPage, Emitted(cfg, v, s, l, x, y))
            == if l.Deliver? && l.msg.PageRequest? && l.dst == x && l.src == y then 1 else 0
  {
    var out := Emitted(cfg, v, s, l, x, y);
    if l.DaemonFault? && l.dst == x {
      var request: Queue := if y == l.to then [PageRequest(l.page)] else [];
      CostOfDaemonFault(AnyPage, HeaderMail(s.nodes[x], l.src, l.page, y), l.page, request);
      CostOfSingleton(AnyPage, PageRequest(l.page));
    } else if out != [] {
      CostOfSingleton(AnyPage, out[0]);
    }
  }

  /** A misreading is never forgotten: its scrap stays at the head of its link. */
  lemma {:induction false} ScrapStays(cfg: Config, v: Variant, run: seq<Label>) returns (x: nat, y: nat)
    requires ValidConfig(cfg) && Legal(cfg, v, run) && !InStep(run)
    ensures x < cfg.nodes && y < cfg.nodes && Stale(After(cfg, v, run), y, x)
  {
    var before, l := run[..|run| - 1], run[|run| - 1];
    var s := After(cfg, v, before);
    HeadersInRuns(cfg, v, before);
    InStepLast(run);
    if l.Misread? {
      x, y := l.src, l.dst;
    } else {
      x, y := ScrapStays(cfg, v, before);
    }
    StaleAfter(cfg, v, s, l, y, x);
  }

  /** What a step takes of the requests of a node that is in its loop: what is delivered. */
  lemma RequestsTaken(cfg: Config, v: Variant, s: State, l: Label, i: nat, y: nat)
    requires Shaped(cfg, s) && Enabled(cfg, v, s, l) && HeaderMeansStuck(cfg, s)
    requires i < cfg.nodes && y < cfg.nodes && s.nodes[i].daemon.Serving?
    ensures Taken(AnyRequest, l, i, y)
            == if l.Deliver? && l.src == i && l.dst == y && l.msg.PageRequest? then 1 else 0
  {
    assert SenderIsStuck(s.nodes[i].daemon, y, s.links[i][y]);
  }

  /** The requests of a node that is in its loop: less the one delivered, plus the one asked. */
  lemma RequestsChange(cfg: Config, v: Variant, s: State, l: Label, i: nat, y: nat)
    requires Shaped(cfg, s) && Enabled(cfg, v, s, l) && i < cfg.nodes && y < cfg.nodes
    requires HeaderMeansStuck(cfg, s) && s.nodes[i].daemon.Serving? && !(l.DaemonFault? && l.dst == i)
    ensures QueueCost(AnyRequest, Next(cfg, v, s, l).links[i][y])
               + (if l.Deliver? && l.src == i && l.dst == y && l.msg.PageRequest? then 1 else 0)
            == QueueCost(AnyRequest, s.links[i][y]) + (if l.Fault? && l.node == i && l.to == y then 1 else 0)
  {
    RequestsTaken(cfg, v, s, l, i, y);
    RequestsEmitted(cfg, v, s, l, i, y);
    LinkCost(cfg, v, s, l, AnyRequest, i, y);
  }

  lemma OwedRequests(cfg: Config, v: Variant, s: State, l: Label, i: nat, pd: Pending, y: nat)
    requires Shaped(cfg, s) && Enabled(cfg, v, s, l) && i < cfg.nodes && y < cfg.nodes
    requires HeaderMeansStuck(cfg, s) && s.nodes[i].daemon.Serving?
    requires NeverSelf(cfg, s) && Owed(cfg, v, s, i, pd) && !(l.DaemonFault? && l.dst == i)
    requires OwedThread(v, Next(cfg, v, s, l).nodes[i].app, NextPending(l, i, pd))
    ensures var pd' := NextPending(l, i, pd);
            QueueCost(AnyRequest, Next(cfg, v, s, l).links[i][y])
            == (if pd'.Asked? && pd'.to == y then 1 else 0) + (if Stale(Next(cfg, v, s, l), i, y) then 1 else 0)
  {
    StaleAfter(cfg, v, s, l, i, y);
    RequestsChange(cfg, v, s, l, i, y);
    if l.Misread? && l.dst == i {
      assert PageHeader(l.page) in s.links[l.src][i];
      HeaderIsAwaited(cfg, v, s, l.src, i, l.page, pd);
    } else if l.Deliver? {
      DeliveredRequest(cfg, v, s, l, i, pd);
    }
  }

  /** A delivered message of or for node i is what was pending. */
  lemma DeliveredRequest(cfg: Config, v: Variant, s: State, l: Label, i: nat, pd: Pending)
    requires Shaped(cfg, s) && Enabled(cfg, v, s, l) && l.Deliver? && i < cfg.nodes
    requires HeaderMeansStuck(cfg, s) && Owed(cfg, v, s, i, pd)
    ensures l.src == i && l.msg.PageRequest? ==> pd == Asked(l.msg.page, l.dst)
    ensures l.dst == i && l.msg.SendPage? ==> pd == Coming(l.msg.page, l.src)
  {
    assert l.msg in s.links[l.src][l.dst];
    if l.src == i && l.msg.PageRequest? {
      assert SenderIsStuck(s.nodes[l.dst].daemon, i, s.links[l.dst][i]);
      assert !Stale(s, i, l.dst);
      CostOfMember(AnyRequest, s.links[i][l.dst], l.msg);
    }
    if l.dst == i && l.msg.SendPage? {
      CostOfMember(AnyPage, s.links[l.src][i], l.msg);
    }
  }

  lemma OwedRequest(cfg: Config, v: Variant, s: State, l: Label, i: nat, pd: Pending, y: nat, m: Message)
    requires Shaped(cfg, s) && Enabled(cfg, v, s, l) && i < cfg.nodes && y < cfg.nodes
    requires HeaderMeansStuck(cfg, s)
    requires Owed(cfg, v, s, i, pd) && !(l.DaemonFault? && l.dst == i)
    requires m in Next(cfg, v, s, l).links[i][y] && m.PageRequest?
    requires var pd' := NextPending(l, i, pd);
             QueueCost(AnyRequest, Next(cfg, v, s, l).links[i][y])
             == (if pd'.Asked? && pd'.to == y then 1 else 0) + (if Stale(Next(cfg, v, s, l), i, y) then 1 else 0)
    ensures Stale(Next(cfg, v, s, l), i, y)
            || (NextPending(l, i, pd).Asked? && m.page == NextPending(l, i, pd).page)
  {
    CostOfMember(AnyRequest, Next(cfg, v, s, l).links[i][y], m);
    NoStrayMessages(cfg, v, s, l, i, y, m);
    StaleAfter(cfg, v, s, l, i, y);
  }

  lemma OwedPages(cfg: Config, v: Variant, s: State, l: Label, i: nat, pd: Pending, x: nat)
    requires Shaped(cfg, s) && Enabled(cfg, v, s, l) && i < cfg.nodes && x < cfg.nodes
    requires HeaderMeansStuck(cfg, s)
    requires NeverSelf(cfg, s) && Owed(cfg, v, s, i, pd) && !(l.DaemonFault? && l.dst == i)
    ensures var pd' := NextPending(l, i, pd);
            QueueCost(AnyPage, Next(cfg, v, s, l).links[x][i]) == if pd'.Coming? && pd'.from == x then 1 else 0
  {
    PagesEmitted(cfg, v, s, l, x, i);
    LinkCost(cfg, v, s, l, AnyPage, x, i);
    if l.Misread? && l.dst == i {
      assert PageHeader(l.page) in s.links[l.src][i];
      HeaderIsAwaited(cfg, v, s, l.src, i, l.page, pd);
    } else if l.Deliver? {
      DeliveredRequest(cfg, v, s, l, i, pd);
    }
  }

  lemma OwedPage(cfg: Config, v: Variant, s: State, l: Label, i: nat, pd: Pending, x: nat, m: Message)
    requires Shaped(cfg, s) && Enabled(cfg, v, s, l) && i < cfg.nodes && x < cfg.nodes
    requires HeaderMeansStuck(cfg, s)
    requires Owed(cfg, v, s, i, pd) && !(l.DaemonFault? && l.dst == i)
    requires m in Next(cfg, v, s, l).links[x][i] && m.SendPage?
    requires var pd' := NextPending(l, i, pd);
             QueueCost(AnyPage, Next(cfg, v, s, l).links[x][i]) == if pd'.Coming? && pd'.from == x then 1 else 0
    ensures NextPending(l, i, pd).Coming? && m.page == NextPending(l, i, pd).page
  {
    CostOfMember(AnyPage, Next(cfg, v, s, l).links[x][i], m);
    NoStrayMessages(cfg, v, s, l, x, i, m);
    if l.Deliver? {
      DeliveredRequest(cfg, v, s, l, i, pd);
    }
  }

  lemma OwedStep(cfg: Config, v: Variant, s: State, l: Label, i: nat, pd: Pending)
    requires Shaped(cfg, s) && Enabled(cfg, v, s, l) && i < cfg.nodes && AsMeant(v)
    requires HeaderMeansStuck(cfg, s) && s.nodes[i].daemon.Serving?
    requires NeverSelf(cfg, s) && Owed(cfg, v, s, i, pd) && !(l.DaemonFault? && l.dst == i)
    ensures Owed(cfg, v, Next(cfg, v, s, l), i, NextPending(l, i, pd))
  {
    OwedAtNode(cfg, v, s, l, i, pd);
    forall y: nat | y < cfg.nodes { OwedRequests(cfg, v, s, l, i, pd, y); }
    forall x: nat | x < cfg.nodes { OwedPages(cfg, v, s, l, i, pd, x); }
    var s', pd' := Next(cfg, v, s, l), NextPending(l, i, pd);
    forall y: nat, m: Message | y < cfg.nodes && m in s'.links[i][y] && m.PageRequest?
      ensures Stale(s', i, y) || (pd'.Asked? && m.page == pd'.page)
    {
      OwedRequest(cfg, v, s, l, i, pd, y, m);
    }
    forall x: nat, m: Message | x < cfg.nodes && m in s'.links[x][i] && m.SendPage?
      ensures pd'.Coming? && m.page == pd'.page
    {
      OwedPage(cfg, v, s, l, i, pd, x, m);
    }
  }

  /** In every reachable state, misreadings included, a running node has no request of its own and
      no page addressed to it undelivered, but for requests that a stuck daemon will never serve
      and whose page it has misread; a node waiting on p has at most one of the two, it is for p,
      and it has one unless its thread only has yet to see that p has come. */
  lemma {:induction false} OwedInRuns(cfg: Config, v: Variant, run: seq<Label>, i: nat)
    requires ValidConfig(cfg) && Legal(cfg, v, run) && i < cfg.nodes && AsMeant(v)
    requires After(cfg, v, run).nodes[i].daemon.Serving?
    ensures Owed(cfg, v, After(cfg, v, run), i, PendingAfter(run, i))
  {
    if run == [] {
    } else {
      var before := run[..|run| - 1];
      OwedInRuns(cfg, v, before, i);
      NeverSelfInRuns(cfg, v, before);
      HeadersInRuns(cfg, v, before);
      OwedStep(cfg, v, After(cfg, v, before), run[|run| - 1], i, PendingAfter(before, i));
    }
  }

  // ---------------------------------------------------------------- as a count, daemons included

  function ColumnCost(w: Weight, links: Links, i: nat): nat
    requires forall x | 0 <= x < |links| :: i < |links[x]|
  {
    if links == [] then 0 else QueueCost(w, links[0][i]) + ColumnCost(w, links[1..], i)
  }

  lemma {:induction false} ColumnCostUpdate(w: Weight, links: Links, i: nat, a: nat, row: Row)
    requires a < |links| && i < |row| && forall x | 0 <= x < |links| :: i < |links[x]|
    ensures ColumnCost(w, links[a := row], i) + QueueCost(w, links[a][i])
            == ColumnCost(w, links, i) + QueueCost(w, row[i])
  {
    if a == 0 {
      assert links[a := row][1..] == links[1..];
    } else {
      ColumnCostUpdate(w, links[1..], i, a - 1, row);
      assert links[a := row][1..] == links[1..][a - 1 := row];
    }
  }

  /** Requests of node i and pages addressed to it, over all links. */
  function Debt(cfg: Config, s: State, i: nat): nat
    requires Shaped(cfg, s) && i < cfg.nodes
  {
    RowCost(AnyRequest, s.links[i]) + ColumnCost(AnyPage, s.links, i)
  }

  /** What a step adds to the debt: a fault of either thread one, the arrival of a page minus one,
      and so does the misreading of a request; a page given turns a request into a page. */
  function DebtChange(l: Label, i: nat): int {
    match l
    case Fault(j, _, _) => if j == i then 1 else 0
    case DaemonFault(_, b, _, _) => if b == i then 1 else 0
    case Deliver(_, b, SendPage(_, _)) => if b == i then -1 else 0
    case Misread(a, _, _, _, _) => if a == i then -1 else 0
    case _ => 0
  }

  lemma DebtAfterPop(cfg: Config, s: State, a: nat, b: nat, i: nat)
    requires Shaped(cfg, s) && i < cfg.nodes && a < cfg.nodes && b < cfg.nodes && s.links[a][b] != []
    ensures var m := s.links[a][b][0];
            Debt(cfg, s, i) == Debt(cfg, s.(links := Pop(s.links, a, b)), i)
                               + (if a == i then Cost(AnyRequest, m) else 0)
                               + (if b == i then Cost(AnyPage, m) else 0)
  {
    var row := s.links[a][b := s.links[a][b][1..]];
    RowCostUpdate(AnyRequest, s.links[a], b, s.links[a][b][1..]);
    ColumnCostUpdate(AnyPage, s.links, i, a, row);
  }

  lemma DebtAfterPush(cfg: Config, s: State, me: nat, e: Effect, i: nat)
    requires Shaped(cfg, s) && i < cfg.nodes && me < cfg.nodes
    requires |e.out| == cfg.nodes && |e.node.table| == cfg.pages
    ensures Debt(cfg, Apply(cfg, s, me, e), i)
            == Debt(cfg, s, i) + (if me == i then RowCost(AnyRequest, e.out) else 0) + QueueCost(AnyPage, e.out[i])
  {
    RowCostPush(AnyRequest, s.links[me], e.out);
    ColumnCostUpdate(AnyPage, s.links, i, me, PushRow(s.links[me], e.out));
    CostAppend(AnyPage, s.links[me][i], e.out[i]);
  }

  lemma DebtAfterThreadFault(cfg: Config, v: Variant, s: State, l: Label, i: nat)
    requires Shaped(cfg, s) && Enabled(cfg, v, s, l) && i < cfg.nodes && l.Fault? && l.to < cfg.nodes
    ensures Debt(cfg, Next(cfg, v, s, l), i) == Debt(cfg, s, i) + DebtChange(l, i)
  {
    var e := AskForPage(cfg.nodes, v, l.node, s.nodes[l.node], l.page);
    CostOfSingleton(AnyRequest, PageRequest(l.page));
    CostOfSingleton(AnyPage, PageRequest(l.page));
    DebtAfterPush(cfg, s, l.node, e, i);
    RowCostOne(AnyRequest, e.out, l.to, 1);
  }

  lemma DebtAfterDaemonFault(cfg: Config, v: Variant, s: State, l: Label, i: nat)
    requires Shaped(cfg, s) && Enabled(cfg, v, s, l) && i < cfg.nodes && l.DaemonFault? && l.to < cfg.nodes
    ensures Debt(cfg, Next(cfg, v, s, l), i) == Debt(cfg, s, i) + DebtChange(l, i)
  {
    var e := FaultInDaemon(cfg.nodes, s.nodes[l.dst], l.src, l.page);
    CostOfSingleton(AnyRequest, PageRequest(l.page));
    CostOfSingleton(AnyPage, PageRequest(l.page));
    DebtAfterPush(cfg, s, l.dst, e, i);
    forall d: nat, w: Weight | d < cfg.nodes && (w == AnyRequest || w == AnyPage)
      ensures QueueCost(w, e.out[d]) == if d == l.to && w == AnyRequest then 1 else 0
    {
      CostOfDaemonFault(w, HeaderMail(s.nodes[l.dst], l.src, l.page, d), l.page,
                        if d == l.to then [PageRequest(l.page)] else []);
    }
    RowCostOne(AnyRequest, e.out, l.to, 1);
  }

  lemma DebtAfterDelivery(cfg: Config, v: Variant, s: State, l: Label, i: nat)
    requires Shaped(cfg, s) && Enabled(cfg, v, s, l) && i < cfg.nodes && l.Deliver?
    ensures Debt(cfg, Next(cfg, v, s, l), i) == Debt(cfg, s, i) + DebtChange(l, i)
  {
    var popped := s.(links := Pop(s.links, l.src, l.dst));
    var e := Handle(cfg.nodes, v, l.dst, s.nodes[l.dst], l.src, l.msg);
    DebtAfterPop(cfg, s, l.src, l.dst, i);
    DebtAfterPush(cfg, popped, l.dst, e, i);
    forall d: nat | d < cfg.nodes
      ensures QueueCost(AnyRequest, e.out[d]) == 0
      ensures QueueCost(AnyPage, e.out[d]) == if l.msg.PageRequest? && d == l.src then 1 else 0
    {
      if e.out[d] != [] {
        CostOfSingleton(AnyRequest, e.out[d][0]);
        CostOfSingleton(AnyPage, e.out[d][0]);
      }
    }
    RowCostOne(AnyRequest, e.out, -1, 0);
  }

  lemma DebtAfterMisread(cfg: Config, v: Variant, s: State, l: Label, i: nat)
    requires Shaped(cfg, s) && Enabled(cfg, v, s, l) && i < cfg.nodes && l.Misread?
    ensures Debt(cfg, Next(cfg, v, s, l), i) == Debt(cfg, s, i) + DebtChange(l, i)
  {
    var a, b := l.src, l.dst;
    var q := [Scrap(l.req)] + s.links[a][b][2..];
    MisreadCost(AnyRequest, l.page, l.req, s.links[a][b]);
    MisreadCost(AnyPage, l.page, l.req, s.links[a][b]);
    RowCostUpdate(AnyRequest, s.links[a], b, q);
    ColumnCostUpdate(AnyPage, s.links, i, a, s.links[a][b := q]);
  }

  lemma DebtAfter(cfg: Config, v: Variant, s: State, l: Label, i: nat)
    requires Shaped(cfg, s) && Enabled(cfg, v, s, l) && i < cfg.nodes
    requires l.Fault? || l.DaemonFault? ==> l.to < cfg.nodes
    ensures Debt(cfg, Next(cfg, v, s, l), i) == Debt(cfg, s, i) + DebtChange(l, i)
  {
    if l.Deliver? {
      DebtAfterDelivery(cfg, v, s, l, i);
    } else if l.Misread? {
      DebtAfterMisread(cfg, v, s, l, i);
    } else if l.Fault? {
      DebtAfterThreadFault(cfg, v, s, l, i);
    } else if l.DaemonFault? {
      DebtAfterDaemonFault(cfg, v, s, l, i);
    }
  }

  /** Threads of a node that wait for a page. */
  function WaitingThreads(node: Node): nat {
    (if node.app.Waiting? then 1 else 0) + (if node.daemon.Stuck? then 1 else 0)
  }

  /** Requests of node i that were taken for the content of a page. */
  function Swallowed(run: seq<Label>, i: nat): nat {
    if run == [] then 0
    else
      var l := run[|run| - 1];
      Swallowed(run[..|run| - 1], i) + if l.Misread? && l.src == i then 1 else 0
  }

  /** Waits of node i that a misread page ended. */
  function Fooled(run: seq<Label>, i: nat): nat {
    if run == [] then 0
    else
      var l := run[|run| - 1];
      Fooled(run[..|run| - 1], i) + if l.Misread? && l.dst == i then 1 else 0
  }

  /** As many requests and pages under way for node i as threads that wait, when misreadings are
      made up for. */
  ghost predicate Accounted(cfg: Config, s: State, run: seq<Label>, i: nat)
    requires Shaped(cfg, s) && i < cfg.nodes
  {
    Debt(cfg, s, i) + Swallowed(run, i) == WaitingThreads(s.nodes[i]) + Fooled(run, i)
  }

  /** The page a thread waits for ends its wait; news and gives do not. */
  lemma WaitingAfterPage(cfg: Config, v: Variant, s: State, l: Label, i: nat, pd: Pending)
    requires Shaped(cfg, s) && Enabled(cfg, v, s, l) && i < cfg.nodes && AsMeant(v) && v.wakesAtOnce
    requires l.Deliver? && l.dst == i && l.msg.SendPage? && Owed(cfg, v, s, i, pd)
    requires pd == Coming(l.msg.page, l.src)
    ensures WaitingThreads(Next(cfg, v, s, l).nodes[i]) == WaitingThreads(s.nodes[i]) - 1
  {
  }

  lemma WaitingAfterDelivery(cfg: Config, v: Variant, s: State, l: Label, i: nat, pd: Pending)
    requires Shaped(cfg, s) && Enabled(cfg, v, s, l) && i < cfg.nodes && AsMeant(v) && v.wakesAtOnce
    requires NeverSelf(cfg, s) && HeaderMeansStuck(cfg, s) && l.Deliver? && l.dst == i
    requires Owed(cfg, v, s, i, pd)
    ensures WaitingThreads(Next(cfg, v, s, l).nodes[i]) == WaitingThreads(s.nodes[i]) + DebtChange(l, i)
  {
    assert l.msg in s.links[l.src][l.dst];
    if l.msg.SendPage? {
      DeliveredRequest(cfg, v, s, l, i, pd);
      WaitingAfterPage(cfg, v, s, l, i, pd);
    }
  }

  lemma WaitingThreadsAfter(cfg: Config, v: Variant, s: State, l: Label, i: nat, pd: Pending)
    requires Shaped(cfg, s) && Enabled(cfg, v, s, l) && i < cfg.nodes && AsMeant(v) && v.wakesAtOnce
    requires NeverSelf(cfg, s) && HeaderMeansStuck(cfg, s)
    requires s.nodes[i].daemon.Serving? ==> Owed(cfg, v, s, i, pd)
    ensures WaitingThreads(Next(cfg, v, s, l).nodes[i])
            == WaitingThreads(s.nodes[i])
               + if l.Misread? then (if l.dst == i then -1 else 0) else DebtChange(l, i)
  {
    if l.Misread? && l.dst == i {
      OwedAtMisread(cfg, v, s, l, i, pd);
    } else if l.Deliver? && l.dst == i {
      WaitingAfterDelivery(cfg, v, s, l, i, pd);
    }
  }

  lemma {:induction false} NoDebtYet(cfg: Config, n: nat, i: nat)
    requires i < cfg.nodes
    ensures ColumnCost(AnyPage, seq(n, _ => Silence(cfg.nodes)), i) == 0
    ensures RowCost(AnyRequest, Silence(n)) == 0
  {
    if n == 0 {
    } else {
      NoDebtYet(cfg, n - 1, i);
      assert seq(n, _ => Silence(cfg.nodes))[1..] == seq(n - 1, _ => Silence(cfg.nodes));
      assert Silence(n)[1..] == Silence(n - 1);
    }
  }

  /** In every reachable state, for any number of nodes, the requests of a node and the pages on
      their way to it are together as many as its threads that wait; a request that was misread
      counts as still due, and a wait that a misread page ended as still going on. */
  lemma {:induction false} OneThingPerWaitingThread(cfg: Config, v: Variant, run: seq<Label>, i: nat)
    requires ValidConfig(cfg) && Legal(cfg, v, run) && i < cfg.nodes && AsMeant(v) && v.wakesAtOnce
    ensures Accounted(cfg, After(cfg, v, run), run, i)
  {
    if run == [] {
      NoDebtYet(cfg, cfg.nodes, i);
    } else {
      var before := run[..|run| - 1];
      var s := After(cfg, v, before);
      OneThingPerWaitingThread(cfg, v, before, i);
      NeverSelfInRuns(cfg, v, before);
      HeadersInRuns(cfg, v, before);
      if s.nodes[i].daemon.Serving? {
        OwedInRuns(cfg, v, before, i);
      }
      WaitingThreadsAfter(cfg, v, s, run[|run| - 1], i, PendingAfter(before, i));
      DebtAfter(cfg, v, s, run[|run| - 1], i);
    }
  }

  lemma {:induction false} NobodyFooled(run: seq<Label>, i: nat)
    requires InStep(run)
    ensures Swallowed(run, i) == 0 && Fooled(run, i) == 0
  {
    if run == [] {
    } else {
      NobodyFooled(run[..|run| - 1], i);
    }
  }
}
