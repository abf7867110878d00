/**
 What each step of the protocol changes, and that it changes no more: the table, the mappings and
 the thread of the one node that moves, and every link.
 */
module Steps {
  import opened Basics
  import opened Protocol
  import opened Traffic

  /** Where the thread is when the daemon has changed the table: out of its wait, if it looks at once
      and the table names what it waits for. */
  predicate LeavesWait(v: Variant, me: nat, app: App, table: seq<Entry>) {
    && v.wakesAtOnce && app.Waiting? && app.page < |table|
    && (table[app.page].owner == me <==> v.waitsForOwnership)
  }

  /** Of all nodes only node b has changed, from `node` to one with this table, these mappings and
      this daemon, whose thread has left its wait or not. */
  ghost predicate OnlyNode(v: Variant, s: State, s': State, b: nat, table: seq<Entry>, mapped: map<nat, Page>,
        app: App, daemon: Daemon)
    requires b < |s.nodes|
  {
    var thread := if LeavesWait(v, b, app, table) then Running else app;
    s'.nodes == s.nodes[b := Node(table, mapped, thread, daemon)]
  }

  /** The head of link (a, b) has gone, and node b has appended `out(d)` to its link to each d. */
  ghost predicate OnlyLinks(cfg: Config, s: State, s': State, a: nat, b: nat, out: nat -> Queue)
    requires Shaped(cfg, s) && Shaped(cfg, s') && a < cfg.nodes && b < cfg.nodes && s.links[a][b] != []
  {
    forall x: nat, y: nat | x < cfg.nodes && y < cfg.nodes ::
      s'.links[x][y] == (if x == a && y == b then s.links[x][y][1..] else s.links[x][y])
                        + if x == b then out(y) else []
  }

  /** A page arrives: it is mapped with just the content sent, and the table names its own node. */
  lemma PageArrives(cfg: Config, v: Variant, s: State, a: nat, b: nat, p: nat, body: Page)
    requires Shaped(cfg, s) && p < cfg.pages && Enabled(cfg, v, s, Deliver(a, b, SendPage(p, body)))
    ensures var s', node := Next(cfg, v, s, Deliver(a, b, SendPage(p, body))), s.nodes[b];
            && OnlyNode(v, s, s', b, node.table[p := Entry(Write, b)], node.mapped[p := body], node.app, Serving)
            && OnlyLinks(cfg, s, s', a, b, _ => [])
  {
    LinksOf(cfg, v, s, Deliver(a, b, SendPage(p, body)), _ => []);
  }

  /** News arrives: the table names the node that it names, whatever it named before. */
  lemma NewsArrives(cfg: Config, v: Variant, s: State, a: nat, b: nat, p: nat, owner: nat)
    requires Shaped(cfg, s) && p < cfg.pages && Enabled(cfg, v, s, Deliver(a, b, SendInfo(p, owner)))
    ensures var s', node := Next(cfg, v, s, Deliver(a, b, SendInfo(p, owner))), s.nodes[b];
            && OnlyNode(v, s, s', b, node.table[p := Entry(Write, owner)], node.mapped, node.app, Serving)
            && OnlyLinks(cfg, s, s', a, b, _ => [])
  {
    LinksOf(cfg, v, s, Deliver(a, b, SendInfo(p, owner)), _ => []);
  }

  /** A request is served: the page goes to the node that asks and is unmapped, every third node is
      told of it once, and the giver's own table only where grants are recorded. */
  lemma RequestIsServed(cfg: Config, v: Variant, s: State, a: nat, b: nat, p: nat)
    requires Shaped(cfg, s) && p < cfg.pages && Enabled(cfg, v, s, Deliver(a, b, PageRequest(p)))
    ensures var s', node := Next(cfg, v, s, Deliver(a, b, PageRequest(p))), s.nodes[b];
            var entry := if v.recordsGrant then node.table[p].(owner := a) else node.table[p];
            && p in node.mapped
            && OnlyNode(v, s, s', b, node.table[p := entry], node.mapped - {p}, node.app, Serving)
            && OnlyLinks(cfg, s, s', a, b,
                         d => if d == a then [SendPage(p, node.mapped[p])] else if d == b then [] else [SendInfo(p, a)])
  {
    var node := s.nodes[b];
    assert node.table[p := node.table[p]] == node.table;
    LinksOf(cfg, v, s, Deliver(a, b, PageRequest(p)),
            d => if d == a then [SendPage(p, node.mapped[p])] else if d == b then [] else [SendInfo(p, a)]);
  }

  lemma LinksOf(cfg: Config, v: Variant, s: State, l: Label, out: nat -> Queue)
    requires Shaped(cfg, s) && l.Deliver? && Enabled(cfg, v, s, l)
    requires forall y: nat | y < cfg.nodes :: Emitted(cfg, v, s, l, l.dst, y) == out(y)
    ensures OnlyLinks(cfg, s, Next(cfg, v, s, l), l.src, l.dst, out)
  {
    forall x: nat, y: nat | x < cfg.nodes && y < cfg.nodes
      ensures Next(cfg, v, s, l).links[x][y]
              == (if x == l.src && y == l.dst then s.links[x][y][1..] else s.links[x][y])
                 + if x == l.dst then out(y) else []
    {
      LinkAfter(cfg, v, s, l, x, y);
    }
  }

  /** A thread faults: it waits, and the node that its table names is asked, once. */
  lemma ThreadFaults(cfg: Config, v: Variant, s: State, i: nat, p: nat, to: nat)
    requires Shaped(cfg, s) && Enabled(cfg, v, s, Fault(i, p, to))
    ensures var s', node := Next(cfg, v, s, Fault(i, p, to)), s.nodes[i];
            && to == node.table[p].owner
            && OnlyNode(v, s, s', i, node.table, node.mapped, Waiting(p), node.daemon)
            && forall x: nat, y: nat | x < cfg.nodes && y < cfg.nodes ::
                 s'.links[x][y] == s.links[x][y] + if x == i && y == to then [PageRequest(p)] else []
  {
    var l := Fault(i, p, to);
    forall x: nat, y: nat | x < cfg.nodes && y < cfg.nodes
      ensures Next(cfg, v, s, l).links[x][y]
              == s.links[x][y] + if x == i && y == to then [PageRequest(p)] else []
    {
      LinkAfter(cfg, v, s, l, x, y);
    }
  }

  /** A thread that touches a mapped page, or leaves its wait by itself, changes no link and no
      table, and of the mappings only the byte it writes. */
  lemma ThreadMoves(cfg: Config, v: Variant, s: State, l: Label, p: nat, off: nat)
    requires Shaped(cfg, s) && (l.AppRead? || l.AppWrite? || l.Spin?) && Enabled(cfg, v, s, l)
    ensures var s', node := Next(cfg, v, s, l), s.nodes[l.node];
            && s'.links == s.links
            && s'.nodes == s.nodes[l.node := node.(mapped := s'.nodes[l.node].mapped, app := Running)]
            && s'.nodes[l.node].mapped.Keys == node.mapped.Keys
            && (p in node.mapped && off < |node.mapped[p]| ==>
                  && |s'.nodes[l.node].mapped[p]| == |node.mapped[p]|
                  && s'.nodes[l.node].mapped[p][off]
                     == if l.AppWrite? && l.page == p && l.off == off then l.val else node.mapped[p][off])
  {
  }

  /** A daemon reads on behind a lone header: it has a page of that number with two bytes of the
      request in front of what its buffer held, names itself, and leaves a scrap. */
  lemma DaemonMisreads(cfg: Config, v: Variant, s: State, a: nat, b: nat, p: nat, q: nat, stale: Page)
    requires Shaped(cfg, s) && p < cfg.pages && Enabled(cfg, v, s, Misread(a, b, p, q, stale))
    ensures var s', node, body := Next(cfg, v, s, Misread(a, b, p, q, stale)), s.nodes[b], Mangled(q, stale);
            && OnlyNode(v, s, s', b, node.table[p := Entry(Write, b)], node.mapped[p := body], node.app, Serving)
            && s'.links[a][b] == [Scrap(q)] + s.links[a][b][2..]
            && (forall x: nat, y: nat | x < cfg.nodes && y < cfg.nodes && !(x == a && y == b) ::
                  s'.links[x][y] == s.links[x][y])
            && (|stale| >= 2 && q < 0x1_0000 ==> body == [q % 256, q / 256] + stale[2..])
  {
    assert q < 0x1_0000 ==> q / 256 % 256 == q / 256;
  }
}
