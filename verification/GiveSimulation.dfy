/**
 The written order of dsm_send_page against the atomic give of the protocol. A page that is
 copied but not shipped is seen as still asked for; a page that is shipped is seen as given,
 with the news already sent. What the giver's own thread does in between decides whether that
 picture is right: it must leave the page alone, and a request it sends to a third node must
 not overtake the news for that node. Between two nodes there is no third.
 */
module GiveSimulation {
  import opened Basics
  import opened Protocol
  import opened Traffic
  import opened FineGive

  // ---------------------------------------------------------------- what is seen of a give

  function SeenNode(v: Variant, i: nat, node: Node, g: Give): Node {
    if g.Shipped? then GiveUp(v, i, node, g.dest, g.page) else node
  }

  /** The request that b is serving, while it is only copying. */
  function Before(g: Give, a: nat): Queue {
    if g.Copying? && g.dest == a then [PageRequest(g.page)] else []
  }

  /** The news that a has yet to send. */
  function Behind(g: Give, a: nat, b: nat): Queue {
    if g.Shipped? && b != a && b != g.dest then [SendInfo(g.page, g.dest)] else []
  }

  function Seen(cfg: Config, v: Variant, f: GiveState): (s: State)
    requires GiveShaped(cfg, f)
    ensures Shaped(cfg, s)
  {
    State(seq(cfg.nodes, i requires 0 <= i < cfg.nodes => SeenNode(v, i, f.base.nodes[i], f.give[i])),
          seq(cfg.nodes, a requires 0 <= a < cfg.nodes =>
            seq(cfg.nodes, b requires 0 <= b < cfg.nodes =>
              Before(f.give[b], a) + f.base.links[a][b] + Behind(f.give[a], a, b))))
  }

  /** Giving happens, as it is seen, when the page is shipped. */
  function Erased(fl: GiveLabel): seq<Label> {
    match fl
    case Coarse(l) => [l]
    case Ship(i, dest, p) => [Deliver(dest, i, PageRequest(p))]
    case _ => []
  }

  function Erase(run: seq<GiveLabel>): seq<Label> {
    if run == [] then [] else Erase(run[..|run| - 1]) + Erased(run[|run| - 1])
  }

  predicate GoodGive(cfg: Config, node: Node, g: Give, i: nat) {
    !g.NoGive? ==>
      && g.dest < cfg.nodes && g.dest != i && g.page in node.mapped && node.daemon.Serving?
      && (g.Copying? ==> node.mapped[g.page] == g.body)
  }

  ghost predicate GoodGives(cfg: Config, f: GiveState)
    requires GiveShaped(cfg, f)
  {
    forall i: nat | i < cfg.nodes :: GoodGive(cfg, f.base.nodes[i], f.give[i], i)
  }

  // ---------------------------------------------------------------- what the thread may do

  /** Besides leaving a given page alone, the giver's thread does not take a wait for it as over
      between shipping and unmapping. */
  predicate LeavesAlone(f: GiveState, fl: GiveLabel) {
    && LeavesGivenPage(f, fl)
    && (fl.Coarse? && fl.l.Spin? && fl.l.node < |f.give| && fl.l.node < |f.base.nodes| ==>
          var g, app := f.give[fl.l.node], f.base.nodes[fl.l.node].app;
          g.Shipped? && app.Waiting? ==> app.page != g.page)
  }

  /** It asks no third node for a page before that node is informed. */
  predicate AsksNoThird(f: GiveState, fl: GiveLabel) {
    fl.Coarse? && fl.l.Fault? && fl.l.node < |f.give| && f.give[fl.l.node].Shipped? ==>
      fl.l.to == fl.l.node || fl.l.to == f.give[fl.l.node].dest
  }

  /** In the whole run the giver's threads leave given pages alone. */
  predicate LeftAlone(cfg: Config, v: Variant, run: seq<GiveLabel>)
    requires ValidConfig(cfg) && GiveLegal(cfg, v, run)
  {
    run == []
    || (LeftAlone(cfg, v, run[..|run| - 1])
        && LeavesAlone(GiveAfter(cfg, v, run[..|run| - 1]), run[|run| - 1]))
  }

  /** Nor do they ask a third node while news for it is due. */
  predicate NoneOvertaken(cfg: Config, v: Variant, run: seq<GiveLabel>)
    requires ValidConfig(cfg) && GiveLegal(cfg, v, run)
  {
    run == []
    || (NoneOvertaken(cfg, v, run[..|run| - 1])
        && AsksNoThird(GiveAfter(cfg, v, run[..|run| - 1]), run[|run| - 1]))
  }

  // ---------------------------------------------------------------- each kind of step

  lemma SeenEnables(cfg: Config, v: Variant, f: GiveState, l: Label)
    requires GiveShaped(cfg, f) && GiveEnabled(cfg, v, f, Coarse(l)) && GoodGives(cfg, f)
    requires LeavesAlone(f, Coarse(l))
    ensures Enabled(cfg, v, Seen(cfg, v, f), l)
  {
    assert Mover(l) < cfg.nodes;
    assert GoodGive(cfg, f.base.nodes[Mover(l)], f.give[Mover(l)], Mover(l));
  }

  lemma NodeAfterThread(cfg: Config, v: Variant, f: GiveState, l: Label, i: nat)
    requires GiveShaped(cfg, f) && GiveEnabled(cfg, v, f, Coarse(l)) && GoodGives(cfg, f)
    requires LeavesAlone(f, Coarse(l)) && i < cfg.nodes && Enabled(cfg, v, Seen(cfg, v, f), l)
    requires !OfDaemon(l) && l.node == i
    ensures SeenNode(v, i, Next(cfg, v, f.base, l).nodes[i], f.give[i]) == Next(cfg, v, Seen(cfg, v, f), l).nodes[i]
    ensures GoodGive(cfg, Next(cfg, v, f.base, l).nodes[i], f.give[i], i)
  {
    assert GoodGive(cfg, f.base.nodes[i], f.give[i], i);
  }

  lemma NodeAfterCoarse(cfg: Config, v: Variant, f: GiveState, l: Label, i: nat)
    requires GiveShaped(cfg, f) && GiveEnabled(cfg, v, f, Coarse(l)) && GoodGives(cfg, f)
    requires LeavesAlone(f, Coarse(l)) && i < cfg.nodes && Enabled(cfg, v, Seen(cfg, v, f), l)
    ensures SeenNode(v, i, Next(cfg, v, f.base, l).nodes[i], f.give[i]) == Next(cfg, v, Seen(cfg, v, f), l).nodes[i]
    ensures GoodGive(cfg, Next(cfg, v, f.base, l).nodes[i], f.give[i], i)
  {
    assert GoodGive(cfg, f.base.nodes[i], f.give[i], i);
    if !OfDaemon(l) && l.node == i {
      NodeAfterThread(cfg, v, f, l, i);
    } else if Mover(l) == i {
      assert f.give[i].NoGive?;
    } else {
      assert Next(cfg, v, f.base, l).nodes[i] == f.base.nodes[i];
    }
  }

  lemma SameEmission(cfg: Config, v: Variant, f: GiveState, l: Label, a: nat, b: nat)
    requires GiveShaped(cfg, f) && GiveEnabled(cfg, v, f, Coarse(l)) && Enabled(cfg, v, Seen(cfg, v, f), l)
    requires AsksNoThird(f, Coarse(l)) && a < cfg.nodes && b < cfg.nodes
    ensures Emitted(cfg, v, Seen(cfg, v, f), l, a, b) == Emitted(cfg, v, f.base, l, a, b)
    ensures Emitted(cfg, v, f.base, l, a, b) != [] ==> Behind(f.give[a], a, b) == []
  {
  }

  lemma SameRest(cfg: Config, v: Variant, f: GiveState, l: Label, a: nat, b: nat)
    requires GiveShaped(cfg, f) && GiveEnabled(cfg, v, f, Coarse(l)) && Enabled(cfg, v, Seen(cfg, v, f), l)
    requires a < cfg.nodes && b < cfg.nodes
    ensures Rest(cfg, v, Seen(cfg, v, f), l, a, b)
            == Before(f.give[b], a) + Rest(cfg, v, f.base, l, a, b) + Behind(f.give[a], a, b)
  {
  }

  lemma LinkAfterCoarse(cfg: Config, v: Variant, f: GiveState, l: Label, a: nat, b: nat)
    requires GiveShaped(cfg, f) && GiveEnabled(cfg, v, f, Coarse(l)) && Enabled(cfg, v, Seen(cfg, v, f), l)
    requires AsksNoThird(f, Coarse(l)) && a < cfg.nodes && b < cfg.nodes
    ensures Before(f.give[b], a) + Next(cfg, v, f.base, l).links[a][b] + Behind(f.give[a], a, b)
            == Next(cfg, v, Seen(cfg, v, f), l).links[a][b]
  {
    LinkAfter(cfg, v, Seen(cfg, v, f), l, a, b);
    LinkAfter(cfg, v, f.base, l, a, b);
    SameEmission(cfg, v, f, l, a, b);
    SameRest(cfg, v, f, l, a, b);
    Associative(Before(f.give[b], a), Rest(cfg, v, f.base, l, a, b), Emitted(cfg, v, f.base, l, a, b));
  }

  lemma SeenAfterCoarse(cfg: Config, v: Variant, f: GiveState, l: Label)
    requires GiveShaped(cfg, f) && GiveEnabled(cfg, v, f, Coarse(l)) && GoodGives(cfg, f)
    requires LeavesAlone(f, Coarse(l)) && AsksNoThird(f, Coarse(l))
    ensures Enabled(cfg, v, Seen(cfg, v, f), l)
    ensures Seen(cfg, v, GiveNext(cfg, v, f, Coarse(l))) == Next(cfg, v, Seen(cfg, v, f), l)
    ensures GoodGives(cfg, GiveNext(cfg, v, f, Coarse(l)))
  {
    SeenEnables(cfg, v, f, l);
    var s, f' := Seen(cfg, v, f), GiveNext(cfg, v, f, Coarse(l));
    forall i: nat | i < cfg.nodes
      ensures Seen(cfg, v, f').nodes[i] == Next(cfg, v, s, l).nodes[i]
      ensures GoodGive(cfg, f'.base.nodes[i], f'.give[i], i)
    {
      NodeAfterCoarse(cfg, v, f, l, i);
    }
    forall a: nat, b: nat | a < cfg.nodes && b < cfg.nodes
      ensures Seen(cfg, v, f').links[a][b] == Next(cfg, v, s, l).links[a][b]
    {
      LinkAfterCoarse(cfg, v, f, l, a, b);
    }
    SameState(cfg, Seen(cfg, v, f'), Next(cfg, v, s, l));
  }

  lemma SeenAfterCopy(cfg: Config, v: Variant, f: GiveState, fl: GiveLabel)
    requires GiveShaped(cfg, f) && GiveEnabled(cfg, v, f, fl) && fl.CopyOut? && GoodGives(cfg, f) && !v.unmapsFirst
    ensures Seen(cfg, v, GiveNext(cfg, v, f, fl)) == Seen(cfg, v, f)
    ensures GoodGives(cfg, GiveNext(cfg, v, f, fl))
  {
    var f' := GiveNext(cfg, v, f, fl);
    forall a: nat, b: nat | a < cfg.nodes && b < cfg.nodes
      ensures Seen(cfg, v, f').links[a][b] == Seen(cfg, v, f).links[a][b]
    {
      if a == fl.src && b == fl.dst {
        assert f.base.links[a][b] == [PageRequest(fl.page)] + f'.base.links[a][b];
      }
    }
    SameState(cfg, Seen(cfg, v, f'), Seen(cfg, v, f));
    assert forall i: nat | i < cfg.nodes :: GoodGive(cfg, f.base.nodes[i], f.give[i], i);
  }

  lemma SeenAfterFinish(cfg: Config, v: Variant, f: GiveState, i: nat)
    requires GiveShaped(cfg, f) && GiveEnabled(cfg, v, f, Finish(i)) && GoodGives(cfg, f) && !v.unmapsFirst
    ensures Seen(cfg, v, GiveNext(cfg, v, f, Finish(i))) == Seen(cfg, v, f)
    ensures GoodGives(cfg, GiveNext(cfg, v, f, Finish(i)))
  {
    var f' := GiveNext(cfg, v, f, Finish(i));
    forall a: nat, b: nat | a < cfg.nodes && b < cfg.nodes
      ensures Seen(cfg, v, f').links[a][b] == Seen(cfg, v, f).links[a][b]
    {
      if a == i {
        Associative(Before(f.give[b], a), f.base.links[a][b], Behind(f.give[a], a, b));
      }
    }
    SameState(cfg, Seen(cfg, v, f'), Seen(cfg, v, f));
    assert forall k: nat | k < cfg.nodes :: GoodGive(cfg, f.base.nodes[k], f.give[k], k);
  }

  lemma ShipEmission(cfg: Config, v: Variant, f: GiveState, fl: GiveLabel, l: Label, b: nat)
    requires GiveShaped(cfg, f) && GiveEnabled(cfg, v, f, fl) && fl.Ship? && b < cfg.nodes
    requires GoodGive(cfg, f.base.nodes[fl.node], f.give[fl.node], fl.node)
    requires l == Deliver(fl.dest, fl.node, PageRequest(fl.page)) && Enabled(cfg, v, Seen(cfg, v, f), l)
    ensures Emitted(cfg, v, Seen(cfg, v, f), l, fl.node, b)
            == PageMail(cfg.nodes, fl.dest, fl.page, f.give[fl.node].body)[b]
               + Behind(Shipped(fl.dest, fl.page), fl.node, b)
  {
  }

  /** The giver's own links: the page, and the news behind it. */
  lemma OwnLinkAfterShip(cfg: Config, v: Variant, f: GiveState, fl: GiveLabel, l: Label, b: nat)
    requires GiveShaped(cfg, f) && GiveEnabled(cfg, v, f, fl) && fl.Ship? && b < cfg.nodes
    requires GoodGive(cfg, f.base.nodes[fl.node], f.give[fl.node], fl.node)
    requires l == Deliver(fl.dest, fl.node, PageRequest(fl.page)) && Enabled(cfg, v, Seen(cfg, v, f), l)
    ensures Seen(cfg, v, GiveNext(cfg, v, f, fl)).links[fl.node][b]
            == Seen(cfg, v, f).links[fl.node][b] + Emitted(cfg, v, Seen(cfg, v, f), l, fl.node, b)
  {
    var a := fl.node;
    var page := PageMail(cfg.nodes, fl.dest, fl.page, f.give[a].body)[b];
    var news := Behind(Shipped(fl.dest, fl.page), a, b);
    ShipEmission(cfg, v, f, fl, l, b);
    Associative(Before(f.give[b], a), f.base.links[a][b], page);
    Associative(Before(f.give[b], a) + f.base.links[a][b], page, news);
  }

  lemma LinkAfterShip(cfg: Config, v: Variant, f: GiveState, fl: GiveLabel, l: Label, a: nat, b: nat)
    requires GiveShaped(cfg, f) && GiveEnabled(cfg, v, f, fl) && fl.Ship?
    requires GoodGive(cfg, f.base.nodes[fl.node], f.give[fl.node], fl.node)
    requires l == Deliver(fl.dest, fl.node, PageRequest(fl.page)) && Enabled(cfg, v, Seen(cfg, v, f), l)
    requires a < cfg.nodes && b < cfg.nodes
    ensures Seen(cfg, v, GiveNext(cfg, v, f, fl)).links[a][b] == Next(cfg, v, Seen(cfg, v, f), l).links[a][b]
  {
    LinkAfter(cfg, v, Seen(cfg, v, f), l, a, b);
    if a == fl.node {
      OwnLinkAfterShip(cfg, v, f, fl, l, b);
    }
  }

  lemma SeenAfterShip(cfg: Config, v: Variant, f: GiveState, fl: GiveLabel)
    requires GiveShaped(cfg, f) && GiveEnabled(cfg, v, f, fl) && fl.Ship? && GoodGives(cfg, f)
    ensures var l := Deliver(fl.dest, fl.node, PageRequest(fl.page));
            Enabled(cfg, v, Seen(cfg, v, f), l)
            && Seen(cfg, v, GiveNext(cfg, v, f, fl)) == Next(cfg, v, Seen(cfg, v, f), l)
    ensures GoodGives(cfg, GiveNext(cfg, v, f, fl))
  {
    var s, f', i := Seen(cfg, v, f), GiveNext(cfg, v, f, fl), fl.node;
    var l := Deliver(fl.dest, i, PageRequest(fl.page));
    assert GoodGive(cfg, f.base.nodes[i], f.give[i], i);
    assert Enabled(cfg, v, s, l);
    forall a: nat, b: nat | a < cfg.nodes && b < cfg.nodes
      ensures Seen(cfg, v, f').links[a][b] == Next(cfg, v, s, l).links[a][b]
    {
      LinkAfterShip(cfg, v, f, fl, l, a, b);
    }
    SameState(cfg, Seen(cfg, v, f'), Next(cfg, v, s, l));
    assert forall k: nat | k < cfg.nodes :: GoodGive(cfg, f.base.nodes[k], f.give[k], k);
  }

  // ---------------------------------------------------------------- runs

  ghost predicate Simulates(cfg: Config, v: Variant, f: GiveState, run: seq<Label>)
    requires ValidConfig(cfg) && GiveShaped(cfg, f)
  {
    GoodGives(cfg, f) && Legal(cfg, v, run) && After(cfg, v, run) == Seen(cfg, v, f)
  }

  lemma GiveStepSimulated(cfg: Config, v: Variant, f: GiveState, fl: GiveLabel, run: seq<Label>)
    requires ValidConfig(cfg) && GiveShaped(cfg, f) && Simulates(cfg, v, f, run) && !v.unmapsFirst
    requires GiveEnabled(cfg, v, f, fl) && LeavesAlone(f, fl) && AsksNoThird(f, fl)
    ensures Simulates(cfg, v, GiveNext(cfg, v, f, fl), run + Erased(fl))
  {
    assert run + [] == run;
    match fl
    case Coarse(l) =>
      SeenAfterCoarse(cfg, v, f, l);
      OneMore(cfg, v, run, l);
    case CopyOut(_, _, _) =>
      SeenAfterCopy(cfg, v, f, fl);
    case Ship(i, dest, p) =>
      SeenAfterShip(cfg, v, f, fl);
      OneMore(cfg, v, run, Deliver(dest, i, PageRequest(p)));
    case Finish(i) =>
      SeenAfterFinish(cfg, v, f, i);
  }

  /** A run of the written order, of any number of nodes, in which the giver's threads leave given
      pages alone and ask no third node in between, is a run of the atomic protocol in which
      giving happens when the page is shipped. */
  lemma {:induction false} GiveRunsAreSimulated(cfg: Config, v: Variant, run: seq<GiveLabel>)
    requires ValidConfig(cfg) && GiveLegal(cfg, v, run) && !v.unmapsFirst
    requires LeftAlone(cfg, v, run) && NoneOvertaken(cfg, v, run)
    ensures Simulates(cfg, v, GiveAfter(cfg, v, run), Erase(run))
  {
    if run == [] {
      SameState(cfg, Init(cfg), Seen(cfg, v, GiveAfter(cfg, v, run)));
    } else {
      var before := run[..|run| - 1];
      GiveRunsAreSimulated(cfg, v, before);
      GiveStepSimulated(cfg, v, GiveAfter(cfg, v, before), run[|run| - 1], Erase(before));
    }
  }

  /** Between two nodes there is no third to ask. */
  lemma {:induction false} TwoNodesOvertakeNothing(cfg: Config, v: Variant, run: seq<GiveLabel>)
    requires ValidConfig(cfg) && GiveLegal(cfg, v, run) && !v.unmapsFirst && cfg.nodes == 2
    requires LeftAlone(cfg, v, run)
    ensures NoneOvertaken(cfg, v, run)
  {
    if run == [] {
    } else {
      var before, fl := run[..|run| - 1], run[|run| - 1];
      var f := GiveAfter(cfg, v, before);
      TwoNodesOvertakeNothing(cfg, v, before);
      GiveRunsAreSimulated(cfg, v, before);
      InRangeInRuns(cfg, v, Erase(before));
      if fl.Coarse? && fl.l.Fault? {
        SeenEnables(cfg, v, f, fl.l);
        assert GoodGive(cfg, f.base.nodes[fl.l.node], f.give[fl.l.node], fl.l.node);
        assert After(cfg, v, Erase(before)).nodes[fl.l.node].table[fl.l.page].owner == fl.l.to < 2;
      }
    }
  }

  /** So with two nodes it is enough that the giver's threads leave given pages alone. */
  lemma TwoNodeGivesAreSimulated(cfg: Config, v: Variant, run: seq<GiveLabel>)
    requires ValidConfig(cfg) && GiveLegal(cfg, v, run) && !v.unmapsFirst && cfg.nodes == 2
    requires LeftAlone(cfg, v, run)
    ensures Simulates(cfg, v, GiveAfter(cfg, v, run), Erase(run))
  {
    TwoNodesOvertakeNothing(cfg, v, run);
    GiveRunsAreSimulated(cfg, v, run);
  }
}
