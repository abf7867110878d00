/**
 What each node can always do, in every reachable state of any number of nodes and every
 variant: a thread that runs reads, writes or faults as the hardware has it, and is never left
 waiting by a handler that looks at once; and what is at the head of a link is taken by a daemon
 that is in its loop in exactly one way.
 */
module Progress {
  import opened Basics
  import opened Protocol
  import opened Traffic
  import opened Requests
  import Addresses

  // ---------------------------------------------------------------- the beginning

  lemma NextQuotient(x: nat, n: nat)
    requires n > 0
    ensures (x + 1) / n == x / n + if (x + 1) % n == 0 then 1 else 0
  {
    var q, r := x / n, x % n;
    if r == n - 1 {
      assert n * (q + 1) == n * q + n;
      Addresses.RemainderIs(x + 1, n, q + 1, 0);
    } else {
      Addresses.RemainderIs(x + 1, n, q, r + 1);
    }
  }

  lemma ShiftedRemainder(p: nat, n: nat, i: nat)
    requires i < n
    ensures (p + n - i) % n == 0 <==> p % n == i
  {
    var a, b := p / n, p % n;
    assert n * (a + 1) == n * a + n;
    if b >= i {
      Addresses.RemainderIs(p + n - i, n, a + 1, b - i);
    } else {
      Addresses.RemainderIs(p + n - i, n, a, n + b - i);
    }
  }

  lemma OneMoreDealt(p: nat, n: nat, i: nat)
    requires i < n
    ensures (p + 1 + n - 1 - i) / n == (p + n - 1 - i) / n + if p % n == i then 1 else 0
  {
    NextQuotient(p + n - 1 - i, n);
    ShiftedRemainder(p, n, i);
    assert p + 1 + n - 1 - i == p + n - i == p + n - 1 - i + 1;
  }

  /** A page more is one page more for the node whose turn it is. */
  lemma OneMoreMapped(cfg: Config, less: Config, i: nat)
    requires ValidConfig(less) && cfg == less.(pages := less.pages + 1)
    ensures InitialNode(cfg, i).mapped
            == if less.pages % cfg.nodes == i then InitialNode(less, i).mapped[less.pages := Zeros(cfg.pageSize)]
               else InitialNode(less, i).mapped
  {
  }

  lemma {:induction false} DealtEvenly(cfg: Config, i: nat)
    requires ValidConfig(cfg) && i < cfg.nodes
    ensures |InitialNode(cfg, i).mapped| == (cfg.pages + cfg.nodes - 1 - i) / cfg.nodes
    decreases cfg.pages
  {
    if cfg.pages == 0 {
      assert InitialNode(cfg, i).mapped == map[];
      Addresses.RemainderIs(cfg.nodes - 1 - i, cfg.nodes, 0, cfg.nodes - 1 - i);
    } else {
      var less := cfg.(pages := cfg.pages - 1);
      DealtEvenly(less, i);
      OneMoreMapped(cfg, less, i);
      OneMoreDealt(less.pages, cfg.nodes, i);
    }
  }

  /** The pages are dealt round-robin: page p is at node p modulo N, all zero, every table says so,
      and each node has as many as its turn gives it. */
  lemma DealtRoundRobin(cfg: Config, i: nat)
    requires ValidConfig(cfg) && i < cfg.nodes
    ensures var node := Init(cfg).nodes[i];
            && (forall p: nat :: p in node.mapped <==> p < cfg.pages && p % cfg.nodes == i)
            && (forall p: nat | p in node.mapped :: node.mapped[p] == seq(cfg.pageSize, _ => 0))
            && (forall p: nat | p < cfg.pages :: node.table[p].owner == p % cfg.nodes)
            && |node.mapped| == (cfg.pages + cfg.nodes - 1 - i) / cfg.nodes
  {
    DealtEvenly(cfg, i);
  }

  // ---------------------------------------------------------------- pages and table entries

  /** A change of the table is one of the entry for the page, and of no other: NO_CHANGE keeps its
      status, a negative owner keeps its owner, and a page that is not of the region keeps all. */
  lemma OneEntryChanges(table: seq<Entry>, page: int, state: PageState, owner: int, p: nat)
    requires p < |table|
    ensures var t := ChangeInfo(table, page, state, owner);
            && |t| == |table| && (page < 0 || page >= |table| ==> t == table)
            && (p != page ==> t[p] == table[p])
            && (p == page && state != NoChange ==> t[p].status == state)
            && (p == page && state == NoChange ==> t[p].status == table[p].status)
            && (p == page && owner >= 0 ==> t[p].owner == owner)
            && (p == page && owner < 0 ==> t[p].owner == table[p].owner)
  {
  }

  /** Pages in memory and in flight are pages of the region and of its page size. */
  ghost predicate PagesAreWhole(cfg: Config, s: State)
    requires Shaped(cfg, s)
  {
    && (forall i: nat, p: nat | i < cfg.nodes && p in s.nodes[i].mapped ::
          p < cfg.pages && |s.nodes[i].mapped[p]| == cfg.pageSize)
    && (forall x: nat, y: nat, m: Message {:trigger m in s.links[x][y]}
          | x < cfg.nodes && y < cfg.nodes && m in s.links[x][y] ::
          m.page < cfg.pages && (m.SendPage? ==> |m.body| == cfg.pageSize))
  }

  lemma MappedStaysWhole(cfg: Config, v: Variant, s: State, l: Label, i: nat, p: nat)
    requires Shaped(cfg, s) && Enabled(cfg, v, s, l) && PagesAreWhole(cfg, s)
    requires i < cfg.nodes && p in Next(cfg, v, s, l).nodes[i].mapped
    ensures p < cfg.pages && |Next(cfg, v, s, l).nodes[i].mapped[p]| == cfg.pageSize
  {
    if l.Deliver? || l.Misread? {
      assert s.links[l.src][l.dst][0] in s.links[l.src][l.dst];
    }
  }

  lemma MailStaysWhole(cfg: Config, v: Variant, s: State, l: Label, x: nat, y: nat, m: Message)
    requires Shaped(cfg, s) && Enabled(cfg, v, s, l) && PagesAreWhole(cfg, s)
    requires x < cfg.nodes && y < cfg.nodes && m in Next(cfg, v, s, l).links[x][y]
    ensures m.page < cfg.pages && (m.SendPage? ==> |m.body| == cfg.pageSize)
  {
    NoStrayMessages(cfg, v, s, l, x, y, m);
    if l.Misread? {
      assert s.links[l.src][l.dst][1] in s.links[l.src][l.dst];
    }
  }

  lemma {:induction false} WholeInRuns(cfg: Config, v: Variant, run: seq<Label>)
    requires ValidConfig(cfg) && Legal(cfg, v, run)
    ensures PagesAreWhole(cfg, After(cfg, v, run))
  {
    if run == [] {
    } else {
      var before, l := run[..|run| - 1], run[|run| - 1];
      var s, s' := After(cfg, v, before), After(cfg, v, run);
      WholeInRuns(cfg, v, before);
      forall i: nat, p: nat | i < cfg.nodes && p in s'.nodes[i].mapped
        ensures p < cfg.pages && |s'.nodes[i].mapped[p]| == cfg.pageSize
      {
        MappedStaysWhole(cfg, v, s, l, i, p);
      }
      forall x: nat, y: nat, m: Message | x < cfg.nodes && y < cfg.nodes && m in s'.links[x][y]
        ensures m.page < cfg.pages && (m.SendPage? ==> |m.body| == cfg.pageSize)
      {
        MailStaysWhole(cfg, v, s, l, x, y, m);
      }
    }
  }

  lemma StatusStep(cfg: Config, v: Variant, s: State, l: Label, i: nat, p: nat)
    requires Shaped(cfg, s) && Enabled(cfg, v, s, l) && i < cfg.nodes && p < cfg.pages
    requires s.nodes[i].table[p].status == Write
    ensures Next(cfg, v, s, l).nodes[i].table[p].status == Write
  {
  }

  /** The status in a table entry tells nothing: it is WRITE from the start, and stays so. */
  lemma {:induction false} StatusIsWrite(cfg: Config, v: Variant, run: seq<Label>, i: nat, p: nat)
    requires ValidConfig(cfg) && Legal(cfg, v, run) && i < cfg.nodes && p < cfg.pages
    ensures After(cfg, v, run).nodes[i].table[p].status == Write
  {
    if run == [] {
    } else {
      StatusIsWrite(cfg, v, run[..|run| - 1], i, p);
      StatusStep(cfg, v, After(cfg, v, run[..|run| - 1]), run[|run| - 1], i, p);
    }
  }

  // ---------------------------------------------------------------- threads

  lemma AwakeStep(cfg: Config, v: Variant, s: State, l: Label, i: nat)
    requires Shaped(cfg, s) && Enabled(cfg, v, s, l) && v.wakesAtOnce && i < cfg.nodes
    requires !TestHolds(v, i, s.nodes[i])
    ensures !TestHolds(v, i, Next(cfg, v, s, l).nodes[i])
  {
  }

  /** A handler that looks at once never waits while its test holds. */
  lemma {:induction false} AwakeInTime(cfg: Config, v: Variant, run: seq<Label>, i: nat)
    requires ValidConfig(cfg) && Legal(cfg, v, run) && v.wakesAtOnce && i < cfg.nodes
    ensures !TestHolds(v, i, After(cfg, v, run).nodes[i])
  {
    if run == [] {
    } else {
      AwakeInTime(cfg, v, run[..|run| - 1], i);
      AwakeStep(cfg, v, After(cfg, v, run[..|run| - 1]), run[|run| - 1], i);
    }
  }

  /** A thread may go on by itself from its wait exactly when it spins and its test holds. */
  lemma SpinsIff(cfg: Config, v: Variant, run: seq<Label>, i: nat)
    requires ValidConfig(cfg) && Legal(cfg, v, run) && i < cfg.nodes
    ensures Legal(cfg, v, run + [Spin(i)]) <==> TestHolds(v, i, After(cfg, v, run).nodes[i])
  {
    assert (run + [Spin(i)])[..|run|] == run;
    if v.wakesAtOnce {
      AwakeInTime(cfg, v, run, i);
    }
  }

  lemma LegalIff(cfg: Config, v: Variant, run: seq<Label>, l: Label)
    requires ValidConfig(cfg) && Legal(cfg, v, run)
    ensures Legal(cfg, v, run + [l]) <==> Enabled(cfg, v, After(cfg, v, run), l)
  {
    assert (run + [l])[..|run|] == run;
  }

  lemma ThreadSteps(cfg: Config, v: Variant, s: State, i: nat, p: nat, off: nat, val: Byte, to: nat)
    requires Shaped(cfg, s) && PagesAreWhole(cfg, s) && i < cfg.nodes && p < cfg.pages && off < cfg.pageSize
    requires s.nodes[i].app.Running?
    ensures var node := s.nodes[i];
            if p in node.mapped then
              && off < |node.mapped[p]| && Enabled(cfg, v, s, AppWrite(i, p, off, val))
              && (Enabled(cfg, v, s, AppRead(i, p, off, val)) <==> val == node.mapped[p][off])
              && !Enabled(cfg, v, s, Fault(i, p, to))
            else
              && !Enabled(cfg, v, s, AppWrite(i, p, off, val)) && !Enabled(cfg, v, s, AppRead(i, p, off, val))
              && (Enabled(cfg, v, s, Fault(i, p, to)) <==> to == node.table[p].owner)
  {
  }

  /** A thread that runs is never hindered: each byte of a page of the region it can write, and
      read as just the value it has, when the page is mapped, and otherwise it faults, and asks
      just the node its table names. */
  lemma ThreadIsFree(cfg: Config, v: Variant, run: seq<Label>, i: nat, p: nat, off: nat, val: Byte, to: nat)
    requires ValidConfig(cfg) && Legal(cfg, v, run) && i < cfg.nodes && p < cfg.pages && off < cfg.pageSize
    requires After(cfg, v, run).nodes[i].app.Running?
    ensures var node := After(cfg, v, run).nodes[i];
            if p in node.mapped then
              && off < |node.mapped[p]| && Legal(cfg, v, run + [AppWrite(i, p, off, val)])
              && (Legal(cfg, v, run + [AppRead(i, p, off, val)]) <==> val == node.mapped[p][off])
              && !Legal(cfg, v, run + [Fault(i, p, to)])
            else
              && !Legal(cfg, v, run + [AppWrite(i, p, off, val)]) && !Legal(cfg, v, run + [AppRead(i, p, off, val)])
              && (Legal(cfg, v, run + [Fault(i, p, to)]) <==> to == node.table[p].owner)
  {
    var s := After(cfg, v, run);
    WholeInRuns(cfg, v, run);
    ThreadSteps(cfg, v, s, i, p, off, val, to);
    LegalIff(cfg, v, run, AppWrite(i, p, off, val));
    LegalIff(cfg, v, run, AppRead(i, p, off, val));
    LegalIff(cfg, v, run, Fault(i, p, to));
  }

  // ---------------------------------------------------------------- daemons

  /** What the daemon of y does with the head of its link from x: install, learn, give, fault, or
      misread; at a lone header and behind a scrap, nothing. */
  function HeadStep(node: Node, q: Queue, x: nat, y: nat, stale: Page): Option<Label> {
    if q == [] then None
    else
      match q[0]
      case SendPage(_, _) => Some(Deliver(x, y, q[0]))
      case SendInfo(_, _) => Some(Deliver(x, y, q[0]))
      case PageRequest(p) =>
        if p in node.mapped then Some(Deliver(x, y, q[0]))
        else if p < |node.table| then Some(DaemonFault(x, y, p, node.table[p].owner))
        else None
      case PageHeader(p) => if |q| == 1 then None else Some(Misread(x, y, p, q[1].page, stale))
      case Scrap(_) => None
  }

  /** A daemon that is in its loop takes what is at the head of a link, and can take it in no other
      way: of all its steps there just that one is possible, whatever its fresh buffer holds. */
  lemma HeadIsTaken(cfg: Config, v: Variant, run: seq<Label>, x: nat, y: nat, stale: Page, l: Label)
    requires ValidConfig(cfg) && Legal(cfg, v, run) && x < cfg.nodes && y < cfg.nodes && x != y
    requires After(cfg, v, run).nodes[y].daemon.Serving? && |stale| == cfg.pageSize
    requires OfDaemon(l) && l.src == x && l.dst == y && (l.Misread? ==> l.stale == stale)
    ensures var s := After(cfg, v, run);
            Legal(cfg, v, run + [l]) <==> HeadStep(s.nodes[y], s.links[x][y], x, y, stale) == Some(l)
  {
    var s := After(cfg, v, run);
    var q := s.links[x][y];
    HeadersInRuns(cfg, v, run);
    assert OnlyRequestsBehind(q);
    assert (run + [l])[..|run|] == run;
    if |q| >= 2 && q[0].PageHeader? {
      assert q[1].PageRequest?;
    }
  }
}
