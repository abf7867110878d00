/**
 What the owner tables are good for, with any number of nodes. Where the transfers of a page
 do not overlap and its news is delivered, whoever asks for the page, thread or daemon, asks
 the node that maps it; and a quiet pair of nodes then moves the page in two deliveries, with
 the last values written in it.
 */
module Directed {
  import opened Basics
  import opened Protocol
  import opened Traffic
  import opened SingleCopy
  import opened FlatMemory
  import opened OwnerHints

  /** Transfers of p have not overlapped so far, and no news of p is under way. */
  ghost predicate AtPeace(cfg: Config, v: Variant, run: seq<Label>, p: nat)
    requires ValidConfig(cfg) && Legal(cfg, v, run)
  {
    InStep(run) && OneTransferAtATime(cfg, v, run, p) && Settled(cfg, After(cfg, v, run), p)
  }

  /** A thread or a daemon asks for page p. */
  predicate Asks(l: Label, p: nat) {
    (l.Fault? || l.DaemonFault?) && l.page == p
  }

  /** A request goes to the one node that maps the page. */
  lemma RequestsGoToTheHolder(cfg: Config, v: Variant, run: seq<Label>, p: nat, l: Label)
    requires ValidConfig(cfg) && Legal(cfg, v, run) && v.recordsGrant && p < cfg.pages && AtPeace(cfg, v, run, p)
    requires Enabled(cfg, v, After(cfg, v, run), l) && Asks(l, p)
    ensures var s := After(cfg, v, run);
            && l.to < cfg.nodes && PlaceAfter(cfg, run, p) == At(l.to)
            && (forall k: nat | k < cfg.nodes :: p in s.nodes[k].mapped <==> k == l.to)
    ensures PageRequest(p) in Next(cfg, v, After(cfg, v, run), l).links[Mover(l)][l.to]
  {
    var s := After(cfg, v, run);
    TablesAgreeWhenSettled(cfg, v, run, p);
    SingleCopyInRuns(cfg, v, run, p);
    var g: nat :| g < cfg.nodes && p in s.nodes[g].mapped
                  && forall k: nat | k < cfg.nodes :: s.nodes[k].table[p].owner == g;
    LinkAfter(cfg, v, s, l, Mover(l), l.to);
  }

  /** Conversely, a thread that lacks the page can ask, and can ask nobody else. */
  lemma ThreadAsksTheHolder(cfg: Config, v: Variant, run: seq<Label>, p: nat, i: nat, to: nat)
    requires ValidConfig(cfg) && Legal(cfg, v, run) && v.recordsGrant && p < cfg.pages && AtPeace(cfg, v, run, p)
    requires i < cfg.nodes && After(cfg, v, run).nodes[i].app.Running?
    ensures Enabled(cfg, v, After(cfg, v, run), Fault(i, p, to))
            <==> p !in After(cfg, v, run).nodes[i].mapped && PlaceAfter(cfg, run, p) == At(to)
  {
    TablesAgreeWhenSettled(cfg, v, run, p);
    SingleCopyInRuns(cfg, v, run, p);
  }

  // ---------------------------------------------------------------- a whole transfer

  /** Nodes i and to are in their loops, and nothing is under way between them. */
  predicate QuietPair(cfg: Config, s: State, i: nat, to: nat)
    requires Shaped(cfg, s)
  {
    && i < cfg.nodes && to < cfg.nodes
    && s.nodes[i].daemon.Serving? && s.nodes[to].daemon.Serving?
    && s.links[i][to] == [] && s.links[to][i] == []
  }

  /** The request, the give, and the arrival of the page. */
  function Transfer(i: nat, to: nat, p: nat, body: Page): seq<Label> {
    [Fault(i, p, to)] + [Deliver(i, to, PageRequest(p))] + [Deliver(to, i, SendPage(p, body))]
  }

  lemma AskingIsNoNews(cfg: Config, v: Variant, s: State, l: Label, p: nat)
    requires Shaped(cfg, s) && Enabled(cfg, v, s, l) && l.Fault? && Settled(cfg, s, p)
    ensures Settled(cfg, Next(cfg, v, s, l), p)
  {
    forall x: nat, y: nat | x < cfg.nodes && y < cfg.nodes
      ensures QueueCost(NewsOf(p), Next(cfg, v, s, l).links[x][y]) == 0
    {
      LinkCost(cfg, v, s, l, NewsOf(p), x, y);
    }
  }

  lemma AsksInPeace(cfg: Config, v: Variant, run: seq<Label>, p: nat, i: nat, to: nat)
    requires ValidConfig(cfg) && Legal(cfg, v, run) && AsMeant(v) && p < cfg.pages && AtPeace(cfg, v, run, p)
    requires Enabled(cfg, v, After(cfg, v, run), Fault(i, p, to)) && QuietPair(cfg, After(cfg, v, run), i, to)
    ensures var run1 := run + [Fault(i, p, to)];
            && Legal(cfg, v, run1) && AtPeace(cfg, v, run1, p) && i != to
            && var s, s1 := After(cfg, v, run), After(cfg, v, run1);
               && p in s.nodes[to].mapped && s1.nodes == s.nodes[i := s.nodes[i].(app := Waiting(p))]
               && s1.links[i][to] == [PageRequest(p)] && s1.links[to][i] == []
  {
    var l, s := Fault(i, p, to), After(cfg, v, run);
    RequestsGoToTheHolder(cfg, v, run, p, l);
    OneMore(cfg, v, run, l);
    var run1 := run + [l];
    assert run1[..|run|] == run;
    InStepLast(run1);
    AskingIsNoNews(cfg, v, s, l, p);
  }

  /** Node i waits for p, its request is at the head of its link, and `to` has the page. */
  predicate Asked(cfg: Config, s: State, p: nat, i: nat, to: nat)
    requires Shaped(cfg, s)
  {
    && i < cfg.nodes && to < cfg.nodes && i != to && p < cfg.pages
    && s.nodes[i].daemon.Serving? && s.nodes[to].daemon.Serving?
    && s.nodes[i].app == Waiting(p) && p in s.nodes[to].mapped
    && s.links[i][to] == [PageRequest(p)] && s.links[to][i] == []
  }

  lemma GivesToAsker(cfg: Config, v: Variant, s: State, p: nat, i: nat, to: nat)
    requires Shaped(cfg, s) && Asked(cfg, s, p, i, to) && AsMeant(v)
    ensures Enabled(cfg, v, s, Deliver(i, to, PageRequest(p)))
    ensures var s1 := Next(cfg, v, s, Deliver(i, to, PageRequest(p)));
            && s1.nodes[i] == s.nodes[i] && p !in s1.nodes[to].mapped && s1.nodes[to].table[p].owner == i
            && s1.links[to][i] == [SendPage(p, s.nodes[to].mapped[p])] && s1.links[i][to] == []
            && forall k: nat | k < cfg.nodes && k != i && k != to ::
                 s1.nodes[k] == s.nodes[k] && s1.links[to][k] == s.links[to][k] + [SendInfo(p, i)]
  {
    var l := Deliver(i, to, PageRequest(p));
    forall k: nat | k < cfg.nodes { LinkAfter(cfg, v, s, l, to, k); }
    LinkAfter(cfg, v, s, l, i, to);
  }

  /** Node i has the page, as `body`, and both tables say so. */
  predicate Moved(cfg: Config, v: Variant, s: State, p: nat, i: nat, to: nat, body: Page)
    requires Shaped(cfg, s)
  {
    && i < cfg.nodes && to < cfg.nodes && p < cfg.pages
    && p in s.nodes[i].mapped && s.nodes[i].mapped[p] == body && p !in s.nodes[to].mapped
    && s.nodes[i].table[p].owner == i && s.nodes[to].table[p].owner == i
    && s.links[i][to] == [] && s.links[to][i] == []
    && if v.wakesAtOnce then s.nodes[i].app.Running? else TestHolds(v, i, s.nodes[i])
  }

  lemma AskerReceives(cfg: Config, v: Variant, s: State, p: nat, i: nat, to: nat, body: Page)
    requires Shaped(cfg, s) && AsMeant(v) && i < cfg.nodes && to < cfg.nodes && i != to && p < cfg.pages
    requires s.nodes[i].daemon.Serving? && s.nodes[i].app == Waiting(p)
    requires p !in s.nodes[to].mapped && s.nodes[to].table[p].owner == i
    requires s.links[to][i] == [SendPage(p, body)] && s.links[i][to] == []
    ensures Enabled(cfg, v, s, Deliver(to, i, SendPage(p, body)))
    ensures var s1 := Next(cfg, v, s, Deliver(to, i, SendPage(p, body)));
            && Moved(cfg, v, s1, p, i, to, body)
            && forall k: nat | k < cfg.nodes && k != i && k != to ::
                 s1.nodes[k] == s.nodes[k] && s1.links[to][k] == s.links[to][k]
  {
    var l := Deliver(to, i, SendPage(p, body));
    LinkAfter(cfg, v, s, l, i, to);
    forall k: nat | k < cfg.nodes { LinkAfter(cfg, v, s, l, to, k); }
  }

  /** Any number of nodes: a page that is at peace moves from its holder to a node that faults on
      it in two deliveries when nothing else is under way between the two. It arrives with the last
      values written, both tables name its new holder, every third node is told, and the thread goes
      on, or will as soon as it looks. */
  lemma FaultIsServed(cfg: Config, v: Variant, run: seq<Label>, p: nat, i: nat, to: nat)
    returns (body: Page)
    requires ValidConfig(cfg) && Legal(cfg, v, run) && AsMeant(v) && p < cfg.pages && AtPeace(cfg, v, run, p)
    requires Enabled(cfg, v, After(cfg, v, run), Fault(i, p, to)) && QuietPair(cfg, After(cfg, v, run), i, to)
    ensures Legal(cfg, v, run + Transfer(i, to, p, body)) && Current(cfg, run, p, body)
    ensures var s := After(cfg, v, run + Transfer(i, to, p, body));
            && Moved(cfg, v, s, p, i, to, body)
            && forall k: nat | k < cfg.nodes && k != i && k != to ::
                 SendInfo(p, i) in s.links[to][k] && s.nodes[k] == After(cfg, v, run).nodes[k]
    ensures OneTransferAtATime(cfg, v, run + Transfer(i, to, p, body), p)
            && InStep(run + Transfer(i, to, p, body))
  {
    var s := After(cfg, v, run);
    AsksInPeace(cfg, v, run, p, i, to);
    body := s.nodes[to].mapped[p];
    CurrentInRuns(cfg, v, run);
    var ask, give, take := Fault(i, p, to), Deliver(i, to, PageRequest(p)), Deliver(to, i, SendPage(p, body));
    var run1 := run + [ask];
    GivesToAsker(cfg, v, After(cfg, v, run1), p, i, to);
    OneMore(cfg, v, run1, give);
    var run2 := run1 + [give];
    AskerReceives(cfg, v, After(cfg, v, run2), p, i, to, body);
    OneMore(cfg, v, run2, take);
    assert run + Transfer(i, to, p, body) == run2 + [take];
    TransferIsOne(cfg, v, run1, give, take, p);
  }

  lemma TransferIsOne(cfg: Config, v: Variant, run: seq<Label>, give: Label, take: Label, p: nat)
    requires ValidConfig(cfg) && Legal(cfg, v, run) && AtPeace(cfg, v, run, p)
    requires !give.Misread? && !take.Misread? && !Grants(take, p)
    requires Legal(cfg, v, run + [give] + [take])
    ensures OneTransferAtATime(cfg, v, run + [give] + [take], p) && InStep(run + [give] + [take])
  {
    var run2 := run + [give];
    assert run2[..|run|] == run && (run2 + [take])[..|run2|] == run2;
    InStepLast(run2);
    InStepLast(run2 + [take]);
  }
}
