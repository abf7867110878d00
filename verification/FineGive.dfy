/**
 dsm_send_page in its real steps. The daemon copies the page into a buffer, ships the buffer,
 and only then unmaps the page and informs the others; the application threads run in
 between. So two nodes may be able to write one page, and a write that comes after the copy
 is lost. Among runs in step, in which no daemon reads on behind a lone header, single copy and
 flat memory hold exactly for the variant that takes the page out of memory before it copies
 it. As written they hold in every such run in which the giver's thread leaves the page alone
 from the copy to the unmapping. What the steps do to routing is in FineRouting.dfy, and the
 exact conditions for all runs are in FineMisreading.dfy.
 */
module FineGive {
  import opened Basics
  import opened Protocol
  import opened Traffic
  import opened FlatMemory

  /** Where the daemon of a node is in giving a page. */
  datatype Give =
    | NoGive
    | Copying(dest: nat, page: nat, body: Page)   // copied, not shipped
    | Shipped(dest: nat, page: nat)               // shipped, the others not informed

  datatype GiveState = GiveState(base: State, give: seq<Give>)

  datatype GiveLabel =
    | Coarse(l: Label)
    | CopyOut(src: nat, dst: nat, page: nat)
    | Ship(node: nat, dest: nat, page: nat)
    | Finish(node: nat)

  predicate GiveShaped(cfg: Config, f: GiveState) {
    Shaped(cfg, f.base) && |f.give| == cfg.nodes
  }

  predicate GiveEnabled(cfg: Config, v: Variant, f: GiveState, fl: GiveLabel)
    requires GiveShaped(cfg, f)
  {
    match fl
    case Coarse(l) =>
      && Enabled(cfg, v, f.base, l)
      && (OfDaemon(l) ==> f.give[l.dst].NoGive?)
      && (l.Deliver? ==> !l.msg.PageRequest?)
    case CopyOut(a, b, p) =>
      AtHead(cfg, f.base, a, b, PageRequest(p)) && Serves(f.base.nodes[b], PageRequest(p)) && f.give[b].NoGive?
    case Ship(i, dest, p) => i < cfg.nodes && f.give[i].Copying? && f.give[i].dest == dest && f.give[i].page == p
    case Finish(i) => i < cfg.nodes && f.give[i].Shipped?
  }

  function PageMail(n: nat, dest: nat, page: nat, body: Page): Row {
    seq(n, d => if d == dest then [SendPage(page, body)] else [])
  }

  function InfoMail(n: nat, me: nat, dest: nat, page: nat): Row {
    seq(n, d => if d == dest || d == me then [] else [SendInfo(page, dest)])
  }

  function GiveNext(cfg: Config, v: Variant, f: GiveState, fl: GiveLabel): (f': GiveState)
    requires GiveShaped(cfg, f) && GiveEnabled(cfg, v, f, fl)
    ensures GiveShaped(cfg, f')
  {
    match fl
    case Coarse(l) => f.(base := Next(cfg, v, f.base, l))
    case CopyOut(a, b, p) =>
      var node := f.base.nodes[b];
      var node' := if v.unmapsFirst then GiveUp(v, b, node, a, p) else node;
      GiveState(State(f.base.nodes[b := node'], Pop(f.base.links, a, b)),
                f.give[b := Copying(a, p, node.mapped[p])])
    case Ship(i, dest, p) =>
      GiveState(Apply(cfg, f.base, i, Effect(f.base.nodes[i], PageMail(cfg.nodes, dest, p, f.give[i].body))),
                f.give[i := Shipped(dest, p)])
    case Finish(i) =>
      var node, dest, p := f.base.nodes[i], f.give[i].dest, f.give[i].page;
      var node' := if v.unmapsFirst then node else GiveUp(v, i, node, dest, p);
      GiveState(Apply(cfg, f.base, i, Effect(node', InfoMail(cfg.nodes, i, dest, p))), f.give[i := NoGive])
  }

  function GiveExec(cfg: Config, v: Variant, run: seq<GiveLabel>): (r: Option<GiveState>)
    requires ValidConfig(cfg)
    ensures r.Some? ==> GiveShaped(cfg, r.value)
  {
    if run == [] then Some(GiveState(Init(cfg), seq(cfg.nodes, _ => NoGive)))
    else
      var before := GiveExec(cfg, v, run[..|run| - 1]);
      var fl := run[|run| - 1];
      if before.Some? && GiveEnabled(cfg, v, before.value, fl)
      then Some(GiveNext(cfg, v, before.value, fl)) else None
  }

  predicate GiveLegal(cfg: Config, v: Variant, run: seq<GiveLabel>)
    requires ValidConfig(cfg)
  {
    GiveExec(cfg, v, run).Some?
  }

  function GiveAfter(cfg: Config, v: Variant, run: seq<GiveLabel>): (f: GiveState)
    requires ValidConfig(cfg) && GiveLegal(cfg, v, run)
    ensures GiveShaped(cfg, f)
  {
    GiveExec(cfg, v, run).value
  }

  lemma OneMoreGive(cfg: Config, v: Variant, run: seq<GiveLabel>, fl: GiveLabel)
    requires ValidConfig(cfg) && GiveLegal(cfg, v, run) && GiveEnabled(cfg, v, GiveAfter(cfg, v, run), fl)
    ensures GiveLegal(cfg, v, run + [fl])
    ensures GiveAfter(cfg, v, run + [fl]) == GiveNext(cfg, v, GiveAfter(cfg, v, run), fl)
  {
    assert (run + [fl])[..|run|] == run;
  }

  /** No daemon of the run has read on behind a lone header. */
  predicate GiveInStep(run: seq<GiveLabel>) {
    forall k | 0 <= k < |run| :: !ReadsOn(run[k])
  }

  predicate ReadsOn(fl: GiveLabel) {
    fl.Coarse? && fl.l.Misread?
  }

  lemma GiveInStepLast(run: seq<GiveLabel>)
    requires run != []
    ensures GiveInStep(run) <==> GiveInStep(run[..|run| - 1]) && !ReadsOn(run[|run| - 1])
  {
    forall k | 0 <= k < |run| - 1
      ensures run[..|run| - 1][k] == run[k]
    {
    }
  }

  function WholeStep(fl: GiveLabel): seq<Label> {
    if fl.Coarse? then [fl.l] else []
  }

  /** The accesses of a run, among its other steps that are not part of a give. */
  function Accesses(run: seq<GiveLabel>): seq<Label> {
    if run == [] then [] else Accesses(run[..|run| - 1]) + WholeStep(run[|run| - 1])
  }

  // ---------------------------------------------------------------- as written: the lost write

  /** A handler that does not wait for ownership has returned before the page comes; one that
      spins sees its ownership afterwards. */
  function Early(v: Variant): seq<GiveLabel> {
    if v.wakesAtOnce || v.waitsForOwnership then [] else [Coarse(Spin(1))]
  }

  function Late(v: Variant): seq<GiveLabel> {
    if v.wakesAtOnce || !v.waitsForOwnership then [] else [Coarse(Spin(1))]
  }

  /** Node 1 gets page 0 from node 0, which has yet to unmap it. */
  function SharedPage(cfg: Config, v: Variant): seq<GiveLabel> {
    [Coarse(Fault(1, 0, 0))] + Early(v) + [CopyOut(1, 0, 0)] + [Ship(0, 1, 0)]
    + [Coarse(Deliver(0, 1, SendPage(0, Zeros(cfg.pageSize))))] + Late(v)
  }

  /** The page is with node 1 as well, whose thread runs or is about to see that it may. */
  ghost predicate Doubled(cfg: Config, v: Variant, f: GiveState, seen: bool) {
    && GiveShaped(cfg, f) && cfg.nodes >= 2
    && f.base.nodes[0] == InitialNode(cfg, 0)
    && 0 in f.base.nodes[1].mapped && f.base.nodes[1].mapped[0] == Zeros(cfg.pageSize)
    && (f.base.nodes[1].app.Running?
        || (!seen && !v.wakesAtOnce && v.waitsForOwnership && TestHolds(v, 1, f.base.nodes[1])))
  }

  /** Node 1 has asked node 0 for page 0, and waits or runs as the variant has it. */
  ghost predicate Asked(cfg: Config, v: Variant, f: GiveState) {
    && GiveShaped(cfg, f) && cfg.nodes >= 2
    && f.give == seq(cfg.nodes, _ => NoGive)
    && f.base.nodes[0] == InitialNode(cfg, 0) && f.base.nodes[1].(app := Running) == InitialNode(cfg, 1)
    && f.base.links[1][0] == [PageRequest(0)] && f.base.links[0][1] == []
    && (if v.waitsForOwnership then f.base.nodes[1].app == Waiting(0) else f.base.nodes[1].app.Running?)
  }

  lemma AskingStep(cfg: Config, v: Variant)
    requires ValidConfig(cfg) && cfg.nodes >= 2 && cfg.pages >= 1
    ensures GiveLegal(cfg, v, [Coarse(Fault(1, 0, 0))])
    ensures var f := GiveAfter(cfg, v, [Coarse(Fault(1, 0, 0))]);
            && f.give == seq(cfg.nodes, _ => NoGive)
            && f.base.nodes[0] == InitialNode(cfg, 0)
            && f.base.nodes[1] == InitialNode(cfg, 1).(app := if v.wakesAtOnce && !v.waitsForOwnership then Running
                                                              else Waiting(0))
            && f.base.links[1][0] == [PageRequest(0)] && f.base.links[0][1] == []
  {
    OneMoreGive(cfg, v, [], Coarse(Fault(1, 0, 0)));
    assert [] + [Coarse(Fault(1, 0, 0))] == [Coarse(Fault(1, 0, 0))];
  }

  lemma PageIsAsked(cfg: Config, v: Variant)
    requires ValidConfig(cfg) && cfg.nodes >= 2 && cfg.pages >= 1
    ensures GiveLegal(cfg, v, [Coarse(Fault(1, 0, 0))] + Early(v))
    ensures Asked(cfg, v, GiveAfter(cfg, v, [Coarse(Fault(1, 0, 0))] + Early(v)))
  {
    var ask := [Coarse(Fault(1, 0, 0))];
    AskingStep(cfg, v);
    if Early(v) == [] {
      assert ask + [] == ask;
    } else {
      OneMoreGive(cfg, v, ask, Coarse(Spin(1)));
    }
  }

  lemma PageIsShipped(cfg: Config, v: Variant, run: seq<GiveLabel>)
    requires ValidConfig(cfg) && cfg.nodes >= 2 && cfg.pages >= 1 && !v.unmapsFirst
    requires run == [Coarse(Fault(1, 0, 0))] + Early(v)
    ensures var run' := run + [CopyOut(1, 0, 0)] + [Ship(0, 1, 0)];
            && GiveLegal(cfg, v, run) && GiveLegal(cfg, v, run')
            && var f := GiveAfter(cfg, v, run');
               && f.base.nodes == GiveAfter(cfg, v, run).base.nodes && f.give[1].NoGive?
               && f.base.links[0][1] == [SendPage(0, Zeros(cfg.pageSize))]
  {
    PageIsAsked(cfg, v);
    OneMoreGive(cfg, v, run, CopyOut(1, 0, 0));
    OneMoreGive(cfg, v, run + [CopyOut(1, 0, 0)], Ship(0, 1, 0));
  }

  lemma PageArrives(cfg: Config, v: Variant, run: seq<GiveLabel>)
    requires ValidConfig(cfg) && cfg.nodes >= 2 && cfg.pages >= 1 && GiveLegal(cfg, v, run)
    requires var f := GiveAfter(cfg, v, run);
             && f.give[1].NoGive? && f.base.links[0][1] == [SendPage(0, Zeros(cfg.pageSize))]
             && f.base.nodes[0] == InitialNode(cfg, 0) && f.base.nodes[1].(app := Running) == InitialNode(cfg, 1)
             && (if v.waitsForOwnership then f.base.nodes[1].app == Waiting(0) else f.base.nodes[1].app.Running?)
    ensures var run' := run + [Coarse(Deliver(0, 1, SendPage(0, Zeros(cfg.pageSize))))];
            GiveLegal(cfg, v, run') && Doubled(cfg, v, GiveAfter(cfg, v, run'), false)
  {
    OneMoreGive(cfg, v, run, Coarse(Deliver(0, 1, SendPage(0, Zeros(cfg.pageSize)))));
  }

  lemma PageIsSeen(cfg: Config, v: Variant, run: seq<GiveLabel>)
    requires ValidConfig(cfg) && GiveLegal(cfg, v, run) && Doubled(cfg, v, GiveAfter(cfg, v, run), false)
    requires Late(v) == [] ==> GiveAfter(cfg, v, run).base.nodes[1].app.Running?
    requires Late(v) != [] ==> TestHolds(v, 1, GiveAfter(cfg, v, run).base.nodes[1])
    ensures GiveLegal(cfg, v, run + Late(v)) && Doubled(cfg, v, GiveAfter(cfg, v, run + Late(v)), true)
  {
    if Late(v) == [] {
      assert run + [] == run;
    } else {
      OneMoreGive(cfg, v, run, Coarse(Spin(1)));
    }
  }

  lemma PageIsShared(cfg: Config, v: Variant)
    requires ValidConfig(cfg) && cfg.nodes >= 2 && cfg.pages >= 1 && !v.unmapsFirst
    ensures GiveLegal(cfg, v, SharedPage(cfg, v)) && Doubled(cfg, v, GiveAfter(cfg, v, SharedPage(cfg, v)), true)
  {
    var asked := [Coarse(Fault(1, 0, 0))] + Early(v);
    var arriving := Coarse(Deliver(0, 1, SendPage(0, Zeros(cfg.pageSize))));
    var run := asked + [CopyOut(1, 0, 0)] + [Ship(0, 1, 0)];
    PageIsAsked(cfg, v);
    PageIsShipped(cfg, v, asked);
    PageArrives(cfg, v, run);
    PageIsSeen(cfg, v, run + [arriving]);
  }

  /** As written, for every configuration with two nodes and a page: both nodes can touch the
      page, and what the giver writes is not read by the other. */
  lemma LostWrite(cfg: Config, v: Variant) returns (run: seq<GiveLabel>)
    requires ValidConfig(cfg) && cfg.nodes >= 2 && cfg.pages >= 1 && cfg.pageSize >= 1 && !v.unmapsFirst
    ensures GiveLegal(cfg, v, run) && GiveLegal(cfg, v, run + [Coarse(AppRead(1, 0, 0, 0))]) && GiveInStep(run)
    ensures CanAccess(cfg, GiveAfter(cfg, v, run).base, 0, 0, 0) && CanAccess(cfg, GiveAfter(cfg, v, run).base, 1, 0, 0)
    ensures LastWritten(Accesses(run), 0, 0) == 7
  {
    var shared, write := SharedPage(cfg, v), Coarse(AppWrite(0, 0, 0, 7));
    PageIsShared(cfg, v);
    OneMoreGive(cfg, v, shared, write);
    run := shared + [write];
    OneMoreGive(cfg, v, run, Coarse(AppRead(1, 0, 0, 0)));
    assert Accesses(run) == Accesses(shared) + [write.l];
  }

  // ---------------------------------------------------------------- where a page is

  datatype GivePlace = At(node: nat) | InBuffer(node: nat) | OnLink(src: nat, dst: nat)

  function NextGivePlace(v: Variant, fl: GiveLabel, p: nat, pl: GivePlace): GivePlace {
    match fl
    case Coarse(Deliver(_, b, SendPage(q, _))) => if q == p then At(b) else pl
    case CopyOut(_, b, q) => if q == p && v.unmapsFirst then InBuffer(b) else pl
    case Ship(i, dest, q) => if q == p then OnLink(i, dest) else pl
    case _ => pl
  }

  function GivePlaceAfter(cfg: Config, v: Variant, run: seq<GiveLabel>, p: nat): GivePlace
    requires ValidConfig(cfg)
  {
    if run == [] then At(p % cfg.nodes)
    else NextGivePlace(v, run[|run| - 1], p, GivePlaceAfter(cfg, v, run[..|run| - 1], p))
  }

  predicate ShippedHere(g: Give, p: nat) {
    g.Shipped? && g.page == p
  }

  predicate CopyingHere(g: Give, p: nat) {
    g.Copying? && g.page == p
  }

  /** Node i: what it maps and what its daemon is doing agree with the place of p. */
  predicate NodeAgrees(v: Variant, node: Node, g: Give, i: nat, p: nat, pl: GivePlace) {
    && (p in node.mapped <==> pl == At(i) || (!v.unmapsFirst && ShippedHere(g, p)))
    && (ShippedHere(g, p) ==> pl != At(i))
    && (CopyingHere(g, p) ==> pl == if v.unmapsFirst then InBuffer(i) else At(i))
    && (g.Copying? || g.Shipped? ==> node.daemon.Serving? && g.dest != i)
  }

  /** The page is at `pl`, and besides only in the memory of a giver that has shipped it. */
  ghost predicate OnlyThere(cfg: Config, v: Variant, f: GiveState, p: nat, pl: GivePlace)
    requires GiveShaped(cfg, f)
  {
    && (forall i: nat | i < cfg.nodes :: NodeAgrees(v, f.base.nodes[i], f.give[i], i, p, pl))
    && (forall x: nat, y: nat | x < cfg.nodes && y < cfg.nodes ::
          QueueCost(CopyOf(p), f.base.links[x][y]) == if pl == OnLink(x, y) then 1 else 0)
  }

  lemma DeliveredIsThere(cfg: Config, v: Variant, f: GiveState, p: nat, pl: GivePlace, a: nat, b: nat)
    requires GiveShaped(cfg, f) && OnlyThere(cfg, v, f, p, pl)
    requires a < cfg.nodes && b < cfg.nodes && f.base.links[a][b] != []
    requires Cost(CopyOf(p), f.base.links[a][b][0]) > 0
    ensures pl == OnLink(a, b)
    ensures QueueCost(CopyOf(p), f.base.links[a][b][1..]) == 0
  {
  }

  lemma NodeAfterCoarse(cfg: Config, v: Variant, f: GiveState, l: Label, p: nat, pl: GivePlace, i: nat)
    requires GiveShaped(cfg, f) && GiveEnabled(cfg, v, f, Coarse(l)) && OnlyThere(cfg, v, f, p, pl) && i < cfg.nodes
    requires !l.Misread?
    ensures NodeAgrees(v, Next(cfg, v, f.base, l).nodes[i], f.give[i], i, p, NextGivePlace(v, Coarse(l), p, pl))
  {
    assert NodeAgrees(v, f.base.nodes[i], f.give[i], i, p, pl);
    if l.Deliver? && l.msg.SendPage? && l.msg.page == p {
      DeliveredIsThere(cfg, v, f, p, pl, l.src, l.dst);
    }
  }

  lemma NodeStillAgrees(cfg: Config, v: Variant, f: GiveState, fl: GiveLabel, p: nat, pl: GivePlace, i: nat)
    requires GiveShaped(cfg, f) && GiveEnabled(cfg, v, f, fl) && OnlyThere(cfg, v, f, p, pl) && i < cfg.nodes
    requires !ReadsOn(fl)
    ensures var f' := GiveNext(cfg, v, f, fl);
            NodeAgrees(v, f'.base.nodes[i], f'.give[i], i, p, NextGivePlace(v, fl, p, pl))
  {
    assert NodeAgrees(v, f.base.nodes[i], f.give[i], i, p, pl);
    match fl
    case Coarse(l) => NodeAfterCoarse(cfg, v, f, l, p, pl, i);
    case CopyOut(_, b, _) => assert NodeAgrees(v, f.base.nodes[b], f.give[b], b, p, pl);
    case Ship(k, _, _) => assert NodeAgrees(v, f.base.nodes[k], f.give[k], k, p, pl);
    case Finish(k) =>
  }

  lemma LinkAfterCoarse(cfg: Config, v: Variant, f: GiveState, l: Label, p: nat, pl: GivePlace, x: nat, y: nat)
    requires GiveShaped(cfg, f) && GiveEnabled(cfg, v, f, Coarse(l)) && OnlyThere(cfg, v, f, p, pl) && !l.Misread?
    requires x < cfg.nodes && y < cfg.nodes
    ensures QueueCost(CopyOf(p), Next(cfg, v, f.base, l).links[x][y])
            == if NextGivePlace(v, Coarse(l), p, pl) == OnLink(x, y) then 1 else 0
  {
    if l.Deliver? && l.msg.SendPage? && l.msg.page == p {
      DeliveredIsThere(cfg, v, f, p, pl, l.src, l.dst);
    }
    LinkCost(cfg, v, f.base, l, CopyOf(p), x, y);
  }

  lemma LinkAfterShip(cfg: Config, v: Variant, f: GiveState, fl: GiveLabel, p: nat, pl: GivePlace, x: nat, y: nat)
    requires GiveShaped(cfg, f) && GiveEnabled(cfg, v, f, fl) && fl.Ship? && OnlyThere(cfg, v, f, p, pl)
    requires x < cfg.nodes && y < cfg.nodes
    ensures QueueCost(CopyOf(p), GiveNext(cfg, v, f, fl).base.links[x][y])
            == if NextGivePlace(v, fl, p, pl) == OnLink(x, y) then 1 else 0
  {
    var body := f.give[fl.node].body;
    assert NodeAgrees(v, f.base.nodes[fl.node], f.give[fl.node], fl.node, p, pl);
    CostAppend(CopyOf(p), f.base.links[x][y], PageMail(cfg.nodes, fl.dest, fl.page, body)[y]);
    CostOfSingleton(CopyOf(p), SendPage(fl.page, body));
  }

  lemma LinkStillAgrees(cfg: Config, v: Variant, f: GiveState, fl: GiveLabel, p: nat, pl: GivePlace, x: nat, y: nat)
    requires GiveShaped(cfg, f) && GiveEnabled(cfg, v, f, fl) && OnlyThere(cfg, v, f, p, pl) && !ReadsOn(fl)
    requires x < cfg.nodes && y < cfg.nodes
    ensures QueueCost(CopyOf(p), GiveNext(cfg, v, f, fl).base.links[x][y])
            == if NextGivePlace(v, fl, p, pl) == OnLink(x, y) then 1 else 0
  {
    match fl
    case Coarse(l) => LinkAfterCoarse(cfg, v, f, l, p, pl, x, y);
    case CopyOut(_, b, _) => assert NodeAgrees(v, f.base.nodes[b], f.give[b], b, p, pl);
    case Ship(_, _, _) => LinkAfterShip(cfg, v, f, fl, p, pl, x, y);
    case Finish(i) =>
      CostAppend(CopyOf(p), f.base.links[x][y], InfoMail(cfg.nodes, i, f.give[i].dest, f.give[i].page)[y]);
      CostOfSingleton(CopyOf(p), SendInfo(f.give[i].page, f.give[i].dest));
  }

  /** In every run in step, of either order: a page is in one place, or besides in the memory of a giver
      that has shipped it and not yet unmapped it, which the other order never has. */
  lemma {:induction false} GivenPageInOnePlace(cfg: Config, v: Variant, run: seq<GiveLabel>, p: nat)
    requires ValidConfig(cfg) && GiveLegal(cfg, v, run) && GiveInStep(run) && p < cfg.pages
    ensures OnlyThere(cfg, v, GiveAfter(cfg, v, run), p, GivePlaceAfter(cfg, v, run, p))
  {
    if run == [] {
    } else {
      var before, fl := run[..|run| - 1], run[|run| - 1];
      var f, pl := GiveAfter(cfg, v, before), GivePlaceAfter(cfg, v, before, p);
      GiveInStepLast(run);
      GivenPageInOnePlace(cfg, v, before, p);
      forall i: nat | i < cfg.nodes { NodeStillAgrees(cfg, v, f, fl, p, pl, i); }
      forall x: nat, y: nat | x < cfg.nodes && y < cfg.nodes { LinkStillAgrees(cfg, v, f, fl, p, pl, x, y); }
    }
  }

  // ---------------------------------------------------------------- careful runs

  /** The thread of a giver does not write the page once it is copied, nor read it once it is
      shipped. */
  predicate LeavesGivenPage(f: GiveState, fl: GiveLabel) {
    match fl
    case Coarse(AppWrite(i, p, _, _)) =>
      i < |f.give| ==> !CopyingHere(f.give[i], p) && !ShippedHere(f.give[i], p)
    case Coarse(AppRead(i, p, _, _)) => i < |f.give| ==> !ShippedHere(f.give[i], p)
    case _ => true
  }

  predicate Careful(cfg: Config, v: Variant, run: seq<GiveLabel>)
    requires ValidConfig(cfg) && GiveLegal(cfg, v, run)
  {
    run == []
    || (Careful(cfg, v, run[..|run| - 1])
        && LeavesGivenPage(GiveAfter(cfg, v, run[..|run| - 1]), run[|run| - 1]))
  }

  /** Nothing appears on a link but what the step puts there. */
  lemma NoStrayMail(cfg: Config, v: Variant, f: GiveState, fl: GiveLabel, x: nat, y: nat, m: Message)
    requires GiveShaped(cfg, f) && GiveEnabled(cfg, v, f, fl)
    requires x < cfg.nodes && y < cfg.nodes && m in GiveNext(cfg, v, f, fl).base.links[x][y]
    ensures m in f.base.links[x][y]
            || (ReadsOn(fl) && m == Scrap(fl.l.req))
            || (fl.Coarse? && m in Emitted(cfg, v, f.base, fl.l, x, y))
            || (fl.Ship? && m == SendPage(fl.page, f.give[fl.node].body))
            || (fl.Finish? && m.SendInfo? && m.page == f.give[fl.node].page)
  {
    if fl.Coarse? {
      NoStrayMessages(cfg, v, f.base, fl.l, x, y, m);
    }
  }

  // ---------------------------------------------------------------- what the copies hold

  /** A mapped page that the node has not shipped. */
  predicate Usable(f: GiveState, i: nat, p: nat)
    requires i < |f.base.nodes| == |f.give|
  {
    p in f.base.nodes[i].mapped && !ShippedHere(f.give[i], p)
  }

  ghost predicate GivesCurrent(cfg: Config, run: seq<Label>, g: Give) {
    && (!g.NoGive? ==> g.page < cfg.pages)
    && (g.Copying? ==> Current(cfg, run, g.page, g.body))
  }

  ghost predicate MailCurrent(cfg: Config, run: seq<Label>, m: Message) {
    m.page < cfg.pages && (m.SendPage? ==> Current(cfg, run, m.page, m.body))
  }

  /** Every usable copy, every buffer and every page in flight holds the last values written. */
  ghost predicate AllUsableCurrent(cfg: Config, run: seq<Label>, f: GiveState)
    requires GiveShaped(cfg, f)
  {
    && (forall i: nat, p: nat | i < cfg.nodes && p in f.base.nodes[i].mapped ::
          p < cfg.pages && (Usable(f, i, p) ==> Current(cfg, run, p, f.base.nodes[i].mapped[p])))
    && (forall i: nat | i < cfg.nodes :: GivesCurrent(cfg, run, f.give[i]))
    && (forall x: nat, y: nat, m: Message {:trigger m in f.base.links[x][y]}
          | x < cfg.nodes && y < cfg.nodes && m in f.base.links[x][y] :: MailCurrent(cfg, run, m))
  }

  predicate Writes(fl: GiveLabel, p: nat) {
    fl.Coarse? && fl.l.AppWrite? && fl.l.page == p
  }

  lemma StillCurrentAfter(cfg: Config, run: seq<Label>, fl: GiveLabel, p: nat, body: Page)
    requires Current(cfg, run, p, body) && !Writes(fl, p)
    ensures Current(cfg, run + WholeStep(fl), p, body)
  {
    if fl.Coarse? {
      StillCurrent(cfg, run, fl.l, p, body);
    } else {
      assert run + [] == run;
    }
  }

  /** A careful write meets the only copy of its page that counts. */
  lemma WriteIsExclusive(cfg: Config, v: Variant, f: GiveState, fl: GiveLabel, p: nat, pl: GivePlace)
    requires GiveShaped(cfg, f) && GiveEnabled(cfg, v, f, fl) && LeavesGivenPage(f, fl) && Writes(fl, p)
    requires OnlyThere(cfg, v, f, p, pl)
    ensures forall j: nat | j < cfg.nodes && j != fl.l.node :: !Usable(f, j, p)
    ensures forall j: nat | j < cfg.nodes :: !CopyingHere(f.give[j], p)
    ensures forall x: nat, y: nat, m: Message {:trigger m in f.base.links[x][y]}
              | x < cfg.nodes && y < cfg.nodes && m in f.base.links[x][y] :: m.SendPage? ==> m.page != p
  {
    var i := fl.l.node;
    assert NodeAgrees(v, f.base.nodes[i], f.give[i], i, p, pl);
    assert pl == At(i);
    forall j: nat | j < cfg.nodes
      ensures j != i ==> !Usable(f, j, p)
      ensures !CopyingHere(f.give[j], p)
    {
      assert NodeAgrees(v, f.base.nodes[j], f.give[j], j, p, pl);
    }
    forall x: nat, y: nat, m: Message | x < cfg.nodes && y < cfg.nodes && m in f.base.links[x][y] && m.SendPage?
      ensures m.page != p
    {
      if m.page == p {
        CostOfMember(CopyOf(p), f.base.links[x][y], m);
        assert false;
      }
    }
  }

  /** What `WriteIsExclusive` says of whichever page the step writes. */
  ghost predicate Exclusive(cfg: Config, f: GiveState, fl: GiveLabel)
    requires GiveShaped(cfg, f)
  {
    fl.Coarse? && fl.l.AppWrite? ==>
      && (forall j: nat | j < cfg.nodes && j != fl.l.node :: !Usable(f, j, fl.l.page))
      && (forall j: nat | j < cfg.nodes :: !CopyingHere(f.give[j], fl.l.page))
      && (forall x: nat, y: nat, m: Message {:trigger m in f.base.links[x][y]}
            | x < cfg.nodes && y < cfg.nodes && m in f.base.links[x][y] :: m.SendPage? ==> m.page != fl.l.page)
  }

  /** The other order leaves nothing behind once a page is shipped. */
  ghost predicate NothingLeft(v: Variant, f: GiveState) {
    v.unmapsFirst ==> forall i: nat | i < |f.base.nodes| && i < |f.give| && f.give[i].Shipped? ::
                        f.give[i].page !in f.base.nodes[i].mapped
  }

  lemma MemoryAfterCoarse(cfg: Config, v: Variant, run: seq<Label>, f: GiveState, l: Label, i: nat, p: nat)
    requires GiveShaped(cfg, f) && GiveEnabled(cfg, v, f, Coarse(l)) && AllUsableCurrent(cfg, run, f)
    requires !l.Misread? && Exclusive(cfg, f, Coarse(l))
    requires i < cfg.nodes && p in Next(cfg, v, f.base, l).nodes[i].mapped
    ensures p < cfg.pages
    ensures !ShippedHere(f.give[i], p) ==> Current(cfg, run + [l], p, Next(cfg, v, f.base, l).nodes[i].mapped[p])
  {
    if l.Deliver? && l.dst == i {
      assert MailCurrent(cfg, run, l.msg) by {
        assert l.msg in f.base.links[l.src][i];
      }
    }
    if !ShippedHere(f.give[i], p) {
      if Writes(Coarse(l), p) {
        assert Usable(f, i, p);
        WrittenIsCurrent(cfg, run, l, f.base.nodes[i].mapped[p]);
      } else {
        var body := Next(cfg, v, f.base, l).nodes[i].mapped[p];
        assert Current(cfg, run, p, body) by {
          if !(l.Deliver? && l.dst == i && l.msg.page == p) {
            assert Usable(f, i, p);
          }
        }
        StillCurrent(cfg, run, l, p, body);
      }
    }
  }

  lemma MemoryStaysCurrent(cfg: Config, v: Variant, run: seq<Label>, f: GiveState, fl: GiveLabel, i: nat, p: nat)
    requires GiveShaped(cfg, f) && GiveEnabled(cfg, v, f, fl) && AllUsableCurrent(cfg, run, f)
    requires !ReadsOn(fl) && Exclusive(cfg, f, fl) && NothingLeft(v, f)
    requires i < cfg.nodes && p in GiveNext(cfg, v, f, fl).base.nodes[i].mapped
    ensures p < cfg.pages
    ensures Usable(GiveNext(cfg, v, f, fl), i, p) ==>
              Current(cfg, run + WholeStep(fl), p, GiveNext(cfg, v, f, fl).base.nodes[i].mapped[p])
  {
    if fl.Coarse? {
      MemoryAfterCoarse(cfg, v, run, f, fl.l, i, p);
    } else {
      assert run + [] == run;
      if Usable(GiveNext(cfg, v, f, fl), i, p) {
        assert Usable(f, i, p);
      }
    }
  }

  lemma GivesStayCurrent(cfg: Config, v: Variant, run: seq<Label>, f: GiveState, fl: GiveLabel, i: nat)
    requires GiveShaped(cfg, f) && GiveEnabled(cfg, v, f, fl) && AllUsableCurrent(cfg, run, f)
    requires Exclusive(cfg, f, fl) && i < cfg.nodes
    ensures GivesCurrent(cfg, run + WholeStep(fl), GiveNext(cfg, v, f, fl).give[i])
  {
    var g := GiveNext(cfg, v, f, fl).give[i];
    assert GivesCurrent(cfg, run, f.give[i]);
    if g.Copying? {
      if fl.CopyOut? && fl.dst == i {
        assert Usable(f, i, fl.page);
      }
      StillCurrentAfter(cfg, run, fl, g.page, g.body);
    }
  }

  lemma MailStaysCurrent(cfg: Config, v: Variant, run: seq<Label>, f: GiveState, fl: GiveLabel,
        x: nat, y: nat, m: Message)
    requires GiveShaped(cfg, f) && GiveEnabled(cfg, v, f, fl) && AllUsableCurrent(cfg, run, f)
    requires !ReadsOn(fl) && Exclusive(cfg, f, fl) && x < cfg.nodes && y < cfg.nodes
    requires m in GiveNext(cfg, v, f, fl).base.links[x][y]
    ensures MailCurrent(cfg, run + WholeStep(fl), m)
  {
    NoStrayMail(cfg, v, f, fl, x, y, m);
    if fl.Ship? {
      assert GivesCurrent(cfg, run, f.give[fl.node]);
    }
    if fl.Finish? {
      assert GivesCurrent(cfg, run, f.give[fl.node]);
    }
    if fl.Coarse? && fl.l.DaemonFault? {
      assert PageRequest(fl.l.page) in f.base.links[fl.l.src][fl.l.dst];
    }
    if m.SendPage? {
      StillCurrentAfter(cfg, run, fl, m.page, m.body);
    }
  }

  lemma UsableStaysCurrent(cfg: Config, v: Variant, run: seq<Label>, f: GiveState, fl: GiveLabel)
    requires GiveShaped(cfg, f) && GiveEnabled(cfg, v, f, fl) && AllUsableCurrent(cfg, run, f)
    requires !ReadsOn(fl) && Exclusive(cfg, f, fl) && NothingLeft(v, f)
    ensures AllUsableCurrent(cfg, run + WholeStep(fl), GiveNext(cfg, v, f, fl))
  {
    var f', run' := GiveNext(cfg, v, f, fl), run + WholeStep(fl);
    forall i: nat, p: nat | i < cfg.nodes && p in f'.base.nodes[i].mapped
      ensures p < cfg.pages && (Usable(f', i, p) ==> Current(cfg, run', p, f'.base.nodes[i].mapped[p]))
    {
      MemoryStaysCurrent(cfg, v, run, f, fl, i, p);
    }
    forall i: nat | i < cfg.nodes { GivesStayCurrent(cfg, v, run, f, fl, i); }
    forall x: nat, y: nat, m: Message | x < cfg.nodes && y < cfg.nodes && m in f'.base.links[x][y]
      ensures MailCurrent(cfg, run', m)
    {
      MailStaysCurrent(cfg, v, run, f, fl, x, y, m);
    }
  }

  lemma NothingLeftInRuns(cfg: Config, v: Variant, run: seq<GiveLabel>)
    requires ValidConfig(cfg) && GiveLegal(cfg, v, run) && GiveInStep(run)
    requires AllUsableCurrent(cfg, Accesses(run), GiveAfter(cfg, v, run))
    ensures NothingLeft(v, GiveAfter(cfg, v, run))
  {
    var f := GiveAfter(cfg, v, run);
    forall i: nat | i < cfg.nodes && f.give[i].Shipped? && v.unmapsFirst
      ensures f.give[i].page !in f.base.nodes[i].mapped
    {
      var p := f.give[i].page;
      assert GivesCurrent(cfg, Accesses(run), f.give[i]);
      GivenPageInOnePlace(cfg, v, run, p);
      assert NodeAgrees(v, f.base.nodes[i], f.give[i], i, p, GivePlaceAfter(cfg, v, run, p));
    }
  }

  lemma {:induction false} CarefulIsCurrent(cfg: Config, v: Variant, run: seq<GiveLabel>)
    requires ValidConfig(cfg) && GiveLegal(cfg, v, run) && GiveInStep(run) && Careful(cfg, v, run)
    ensures AllUsableCurrent(cfg, Accesses(run), GiveAfter(cfg, v, run))
  {
    if run == [] {
    } else {
      var before, fl := run[..|run| - 1], run[|run| - 1];
      var f := GiveAfter(cfg, v, before);
      GiveInStepLast(run);
      CarefulIsCurrent(cfg, v, before);
      if fl.Coarse? && fl.l.AppWrite? {
        GivenPageInOnePlace(cfg, v, before, fl.l.page);
        WriteIsExclusive(cfg, v, f, fl, fl.l.page, GivePlaceAfter(cfg, v, before, fl.l.page));
      }
      NothingLeftInRuns(cfg, v, before);
      UsableStaysCurrent(cfg, v, Accesses(before), f, fl);
    }
  }

  // ---------------------------------------------------------------- main results

  /** In every run in step in which the giver's thread leaves the page alone from the copy to the
      unmapping, a read returns the last value written. */
  lemma CarefulReadsReturnLastWrite(cfg: Config, v: Variant, run: seq<GiveLabel>, l: Label)
    requires ValidConfig(cfg) && GiveLegal(cfg, v, run + [Coarse(l)]) && Careful(cfg, v, run + [Coarse(l)])
    requires GiveInStep(run) && l.AppRead?
    ensures l.val == LastWritten(Accesses(run), l.page, l.off)
  {
    assert (run + [Coarse(l)])[..|run|] == run;
    CarefulIsCurrent(cfg, v, run);
    assert Usable(GiveAfter(cfg, v, run), l.node, l.page);
    assert Current(cfg, Accesses(run), l.page, GiveAfter(cfg, v, run).base.nodes[l.node].mapped[l.page]);
  }

  /** Two nodes that can touch the same page in a run in step: one of them has just shipped it, as
      only the written order allows. */
  lemma OneUserPerPage(cfg: Config, v: Variant, run: seq<GiveLabel>, p: nat, i: nat, off: nat, j: nat, off': nat)
    requires ValidConfig(cfg) && GiveLegal(cfg, v, run) && GiveInStep(run) && p < cfg.pages
    requires CanAccess(cfg, GiveAfter(cfg, v, run).base, i, p, off)
    requires CanAccess(cfg, GiveAfter(cfg, v, run).base, j, p, off')
    ensures i == j || (!v.unmapsFirst && (ShippedHere(GiveAfter(cfg, v, run).give[i], p)
                                          || ShippedHere(GiveAfter(cfg, v, run).give[j], p)))
  {
    GivenPageInOnePlace(cfg, v, run, p);
    var f, pl := GiveAfter(cfg, v, run), GivePlaceAfter(cfg, v, run, p);
    assert NodeAgrees(v, f.base.nodes[i], f.give[i], i, p, pl);
    assert NodeAgrees(v, f.base.nodes[j], f.give[j], j, p, pl);
  }

  /** Unmapping first takes the page out of the thread's reach, so every run in step is careful. */
  lemma {:induction false} UnmappingFirstIsCareful(cfg: Config, v: Variant, run: seq<GiveLabel>)
    requires ValidConfig(cfg) && GiveLegal(cfg, v, run) && GiveInStep(run) && v.unmapsFirst
    ensures Careful(cfg, v, run)
  {
    if run == [] {
    } else {
      var before, fl := run[..|run| - 1], run[|run| - 1];
      GiveInStepLast(run);
      UnmappingFirstIsCareful(cfg, v, before);
      if fl.Coarse? && (fl.l.AppWrite? || fl.l.AppRead?) {
        var f, i, p := GiveAfter(cfg, v, before), fl.l.node, fl.l.page;
        CarefulIsCurrent(cfg, v, before);
        GivenPageInOnePlace(cfg, v, before, p);
        assert NodeAgrees(v, f.base.nodes[i], f.give[i], i, p, GivePlaceAfter(cfg, v, before, p));
      }
    }
  }

  /** No run in step lets two nodes touch one page, exactly when the page is unmapped before it is
      copied. `FineMisreading.SingleCopyIff` is about all runs. */
  lemma SingleCopyInStepIff(cfg: Config, v: Variant)
    requires ValidConfig(cfg) && cfg.nodes >= 2 && cfg.pages >= 1 && cfg.pageSize >= 1
    ensures v.unmapsFirst
            <==> forall run, p: nat, i: nat, j: nat, off: nat, off': nat
                   | GiveLegal(cfg, v, run) && GiveInStep(run) && p < cfg.pages
                     && CanAccess(cfg, GiveAfter(cfg, v, run).base, i, p, off)
                     && CanAccess(cfg, GiveAfter(cfg, v, run).base, j, p, off') :: i == j
  {
    if v.unmapsFirst {
      forall run, p: nat, i: nat, j: nat, off: nat, off': nat
        | GiveLegal(cfg, v, run) && GiveInStep(run) && p < cfg.pages
          && CanAccess(cfg, GiveAfter(cfg, v, run).base, i, p, off)
          && CanAccess(cfg, GiveAfter(cfg, v, run).base, j, p, off')
        ensures i == j
      {
        OneUserPerPage(cfg, v, run, p, i, off, j, off');
      }
    } else {
      var run := LostWrite(cfg, v);
    }
  }

  /** All reads of all runs in step return the last value written, exactly when the page is
      unmapped before it is copied. `FineMisreading.FlatMemoryIff` is about all runs. */
  lemma FlatMemoryInStepIff(cfg: Config, v: Variant)
    requires ValidConfig(cfg) && cfg.nodes >= 2 && cfg.pages >= 1 && cfg.pageSize >= 1
    ensures v.unmapsFirst
            <==> forall run, l: Label | GiveLegal(cfg, v, run + [Coarse(l)]) && GiveInStep(run) && l.AppRead? ::
                   l.val == LastWritten(Accesses(run), l.page, l.off)
  {
    if v.unmapsFirst {
      forall run, l: Label | GiveLegal(cfg, v, run + [Coarse(l)]) && GiveInStep(run) && l.AppRead?
        ensures l.val == LastWritten(Accesses(run), l.page, l.off)
      {
        var full := run + [Coarse(l)];
        assert full[..|full| - 1] == run;
        GiveInStepLast(full);
        UnmappingFirstIsCareful(cfg, v, full);
        CarefulReadsReturnLastWrite(cfg, v, run, l);
      }
    } else {
      var run := LostWrite(cfg, v);
      var l := AppRead(1, 0, 0, 0);
      assert GiveLegal(cfg, v, run + [Coarse(l)]) && l.val != LastWritten(Accesses(run), l.page, l.off);
    }
  }

  // ---------------------------------------------------------------- a give comes to its end

  /** What a daemon that is giving a page does next. */
  function NextOfGive(job: Give, i: nat): GiveLabel
    requires !job.NoGive?
  {
    match job
    case Copying(dest, p, _) => Ship(i, dest, p)
    case Shipped(_, _) => Finish(i)
  }

  /** The step is one of the daemon of node i. */
  predicate OfGiver(fl: GiveLabel, i: nat) {
    match fl
    case Coarse(l) => OfDaemon(l) && l.dst == i
    case CopyOut(_, b, _) => b == i
    case Ship(b, _, _) => b == i
    case Finish(b) => b == i
  }

  /** A daemon that is giving a page can go on with it whatever the others have done since, and does
      nothing else; a thread is never hindered by it. */
  lemma GiverGoesOn(cfg: Config, v: Variant, run: seq<GiveLabel>, fl: GiveLabel, i: nat)
    requires ValidConfig(cfg) && GiveLegal(cfg, v, run) && i < cfg.nodes
    ensures var f := GiveAfter(cfg, v, run);
            && (OfGiver(fl, i) && !f.give[i].NoGive? ==>
                  (GiveLegal(cfg, v, run + [fl]) <==> fl == NextOfGive(f.give[i], i)))
            && (fl.Coarse? && !OfDaemon(fl.l) ==>
                  (GiveLegal(cfg, v, run + [fl]) <==> Enabled(cfg, v, f.base, fl.l)))
  {
    assert (run + [fl])[..|run|] == run;
  }

  function GiveLeft(job: Give): nat {
    match job
    case NoGive => 0
    case Copying(_, _, _) => 2
    case Shipped(_, _) => 1
  }

  function GivesLeft(give: seq<Give>): nat {
    if give == [] then 0 else GiveLeft(give[0]) + GivesLeft(give[1..])
  }

  lemma {:induction false} GivesLeftUpdate(give: seq<Give>, i: nat, job: Give)
    requires i < |give|
    ensures GivesLeft(give[i := job]) == GivesLeft(give) - GiveLeft(give[i]) + GiveLeft(job)
  {
    if i == 0 {
      assert give[i := job][1..] == give[1..];
    } else {
      GivesLeftUpdate(give[1..], i - 1, job);
      assert give[i := job][1..] == give[1..][i - 1 := job];
    }
  }

  lemma {:induction false} NoneLeft(give: seq<Give>)
    requires forall i | 0 <= i < |give| :: give[i].NoGive?
    ensures GivesLeft(give) == 0
  {
    if give == [] {
    } else {
      NoneLeft(give[1..]);
    }
  }

  lemma GiveStepCounts(cfg: Config, v: Variant, run: seq<GiveLabel>, i: nat)
    requires ValidConfig(cfg) && GiveLegal(cfg, v, run) && i < cfg.nodes && !GiveAfter(cfg, v, run).give[i].NoGive?
    ensures var fl := NextOfGive(GiveAfter(cfg, v, run).give[i], i);
            && GiveLegal(cfg, v, run + [fl])
            && GivesLeft(GiveAfter(cfg, v, run + [fl]).give) == GivesLeft(GiveAfter(cfg, v, run).give) - 1
  {
    var f := GiveAfter(cfg, v, run);
    var fl := NextOfGive(f.give[i], i);
    OneMoreGive(cfg, v, run, fl);
    GivesLeftUpdate(f.give, i, GiveNext(cfg, v, f, fl).give[i]);
  }

  /** So from every state all gives under way can be brought to their end by the givers alone, in
      just the steps that are left of them. */
  lemma {:induction false} GivesCanEnd(cfg: Config, v: Variant, run: seq<GiveLabel>) returns (more: seq<GiveLabel>)
    requires ValidConfig(cfg) && GiveLegal(cfg, v, run)
    ensures GiveLegal(cfg, v, run + more) && |more| == GivesLeft(GiveAfter(cfg, v, run).give)
    ensures forall i: nat | i < cfg.nodes :: GiveAfter(cfg, v, run + more).give[i].NoGive?
    ensures forall k | 0 <= k < |more| :: more[k].Ship? || more[k].Finish?
    decreases GivesLeft(GiveAfter(cfg, v, run).give)
  {
    var f := GiveAfter(cfg, v, run);
    if i: nat :| i < cfg.nodes && !f.give[i].NoGive? {
      var fl := NextOfGive(f.give[i], i);
      GiveStepCounts(cfg, v, run, i);
      var rest := GivesCanEnd(cfg, v, run + [fl]);
      more := [fl] + rest;
      Associative(run, [fl], rest);
    } else {
      more := [];
      NoneLeft(f.give);
      assert run + more == run;
    }
  }
}
