/**
 What the steps of dsm_send_page do to routing between two nodes. In the written order the page
 stays mapped until it is shipped, so the giver's thread asks for it only behind the page on the
 same FIFO, and every request still finds its page. In the other order the thread may ask in
 between: its request overtakes the page, and the daemon it reaches faults. So the order that
 keeps one copy of a page (FineGive.dfy) and the order that keeps requests behind their pages
 exclude each other. What a page contains does not matter here: the proof erases it, and then
 reduces the erased run to the atomic protocol.
 */
module FineRouting {
  import opened Basics
  import opened Protocol
  import opened Traffic
  import opened Requests
  import opened TwoNodes
  import opened Variants
  import opened FineGive
  import opened GiveSimulation
  import opened GiveReduction

  // ---------------------------------------------------------------- pages without content

  function BlankConfig(cfg: Config): Config {
    cfg.(pageSize := 0)
  }

  function BlankMessage(m: Message): Message {
    if m.SendPage? then SendPage(m.page, []) else m
  }

  function BlankQueue(q: Queue): (r: Queue)
    ensures |r| == |q|
  {
    seq(|q|, k requires 0 <= k < |q| => BlankMessage(q[k]))
  }

  function BlankNode(node: Node): Node {
    node.(mapped := map p | p in node.mapped :: [])
  }

  function BlankState(cfg: Config, s: State): (r: State)
    requires Shaped(cfg, s)
    ensures Shaped(BlankConfig(cfg), r)
  {
    State(seq(cfg.nodes, i requires 0 <= i < cfg.nodes => BlankNode(s.nodes[i])),
          seq(cfg.nodes, a requires 0 <= a < cfg.nodes =>
            seq(cfg.nodes, b requires 0 <= b < cfg.nodes => BlankQueue(s.links[a][b]))))
  }

  predicate Access(l: Label) {
    l.AppRead? || l.AppWrite?
  }

  /** A step on pages without content; accesses are none. */
  function BlankLabel(l: Label): Label
    requires !Access(l)
  {
    match l
    case Deliver(a, b, m) => Deliver(a, b, BlankMessage(m))
    case Misread(a, b, p, q, _) => Misread(a, b, p, q, [])
    case _ => l
  }

  lemma BlankAppend(q: Queue, r: Queue)
    ensures BlankQueue(q + r) == BlankQueue(q) + BlankQueue(r)
  {
  }

  lemma BlankTail(q: Queue)
    requires q != []
    ensures BlankQueue(q[1..]) == BlankQueue(q)[1..] && BlankQueue(q)[0] == BlankMessage(q[0])
  {
  }

  /** A write changes nothing but content. */
  lemma BlankAccess(cfg: Config, v: Variant, s: State, l: Label)
    requires Shaped(cfg, s) && Enabled(cfg, v, s, l) && Access(l)
    ensures BlankState(cfg, Next(cfg, v, s, l)) == BlankState(cfg, s)
  {
    SameState(BlankConfig(cfg), BlankState(cfg, Next(cfg, v, s, l)), BlankState(cfg, s));
  }

  lemma BlankEnables(cfg: Config, v: Variant, s: State, l: Label)
    requires Shaped(cfg, s) && Enabled(cfg, v, s, l) && !Access(l)
    ensures Enabled(BlankConfig(cfg), v, BlankState(cfg, s), BlankLabel(l))
  {
  }

  /** What handling a message does to a node, content apart. */
  lemma BlankHandle(n: nat, v: Variant, me: nat, node: Node, src: nat, m: Message)
    requires Serves(node, m) && Serves(BlankNode(node), BlankMessage(m))
    ensures Handle(n, v, me, BlankNode(node), src, BlankMessage(m)).node
            == BlankNode(Handle(n, v, me, node, src, m).node)
  {
    assert Handle(n, v, me, BlankNode(node), src, BlankMessage(m)).node.mapped
           == BlankNode(Handle(n, v, me, node, src, m).node).mapped;
  }

  lemma BlankNodeStep(cfg: Config, v: Variant, s: State, l: Label, i: nat)
    requires Shaped(cfg, s) && Enabled(cfg, v, s, l) && !Access(l) && i < cfg.nodes
    requires Enabled(BlankConfig(cfg), v, BlankState(cfg, s), BlankLabel(l))
    ensures Next(BlankConfig(cfg), v, BlankState(cfg, s), BlankLabel(l)).nodes[i]
            == BlankNode(Next(cfg, v, s, l).nodes[i])
  {
    if l.Deliver? {
      if l.dst == i {
        BlankHandle(cfg.nodes, v, i, s.nodes[i], l.src, l.msg);
      }
    } else if l.Misread? && l.dst == i {
      assert BlankNode(s.nodes[i]).mapped[l.page := []] == BlankNode(Next(cfg, v, s, l).nodes[i]).mapped;
    }
  }

  lemma BlankEmitted(cfg: Config, v: Variant, s: State, l: Label, x: nat, y: nat)
    requires Shaped(cfg, s) && Enabled(cfg, v, s, l) && !Access(l) && x < cfg.nodes && y < cfg.nodes
    requires Enabled(BlankConfig(cfg), v, BlankState(cfg, s), BlankLabel(l))
    ensures Emitted(BlankConfig(cfg), v, BlankState(cfg, s), BlankLabel(l), x, y)
            == BlankQueue(Emitted(cfg, v, s, l, x, y))
  {
  }

  lemma BlankLinkStep(cfg: Config, v: Variant, s: State, l: Label, x: nat, y: nat)
    requires Shaped(cfg, s) && Enabled(cfg, v, s, l) && !Access(l) && x < cfg.nodes && y < cfg.nodes
    requires Enabled(BlankConfig(cfg), v, BlankState(cfg, s), BlankLabel(l))
    ensures Next(BlankConfig(cfg), v, BlankState(cfg, s), BlankLabel(l)).links[x][y]
            == BlankQueue(Next(cfg, v, s, l).links[x][y])
  {
    var cfg0, s0, l0 := BlankConfig(cfg), BlankState(cfg, s), BlankLabel(l);
    LinkAfter(cfg, v, s, l, x, y);
    LinkAfter(cfg0, v, s0, l0, x, y);
    BlankAppend(Rest(cfg, v, s, l, x, y), Emitted(cfg, v, s, l, x, y));
    assert Rest(cfg0, v, s0, l0, x, y) == BlankQueue(Rest(cfg, v, s, l, x, y));
    BlankEmitted(cfg, v, s, l, x, y);
  }

  lemma BlankStep(cfg: Config, v: Variant, s: State, l: Label)
    requires Shaped(cfg, s) && Enabled(cfg, v, s, l) && !Access(l)
    ensures Enabled(BlankConfig(cfg), v, BlankState(cfg, s), BlankLabel(l))
    ensures Next(BlankConfig(cfg), v, BlankState(cfg, s), BlankLabel(l)) == BlankState(cfg, Next(cfg, v, s, l))
  {
    var cfg0, s0, l0, s' := BlankConfig(cfg), BlankState(cfg, s), BlankLabel(l), BlankState(cfg, Next(cfg, v, s, l));
    BlankEnables(cfg, v, s, l);
    forall i: nat | i < cfg.nodes
      ensures Next(cfg0, v, s0, l0).nodes[i] == s'.nodes[i]
    {
      BlankNodeStep(cfg, v, s, l, i);
    }
    forall x: nat, y: nat | x < cfg.nodes && y < cfg.nodes
      ensures Next(cfg0, v, s0, l0).links[x][y] == s'.links[x][y]
    {
      BlankLinkStep(cfg, v, s, l, x, y);
    }
    SameState(cfg0, Next(cfg0, v, s0, l0), s');
  }

  // ---------------------------------------------------------------- gives without content

  function BlankGive(g: Give): Give {
    if g.Copying? then Copying(g.dest, g.page, []) else g
  }

  function BlankGiveState(cfg: Config, f: GiveState): (r: GiveState)
    requires GiveShaped(cfg, f)
    ensures GiveShaped(BlankConfig(cfg), r)
  {
    GiveState(BlankState(cfg, f.base), seq(cfg.nodes, i requires 0 <= i < cfg.nodes => BlankGive(f.give[i])))
  }

  function BlankGiveLabel(fl: GiveLabel): seq<GiveLabel> {
    if !fl.Coarse? then [fl] else if Access(fl.l) then [] else [Coarse(BlankLabel(fl.l))]
  }

  function BlankRun(run: seq<GiveLabel>): seq<GiveLabel> {
    if run == [] then [] else BlankRun(run[..|run| - 1]) + BlankGiveLabel(run[|run| - 1])
  }

  lemma BlankGiveUp(v: Variant, me: nat, node: Node, dest: nat, p: nat)
    ensures GiveUp(v, me, BlankNode(node), dest, p) == BlankNode(GiveUp(v, me, node, dest, p))
  {
    assert BlankNode(node).mapped - {p} == BlankNode(GiveUp(v, me, node, dest, p)).mapped;
  }

  lemma SameGiveState(cfg: Config, f: GiveState, g: GiveState)
    requires GiveShaped(cfg, f) && GiveShaped(cfg, g)
    requires forall i: nat | i < cfg.nodes :: f.base.nodes[i] == g.base.nodes[i] && f.give[i] == g.give[i]
    requires forall a: nat, b: nat | a < cfg.nodes && b < cfg.nodes :: f.base.links[a][b] == g.base.links[a][b]
    ensures f == g
  {
    SameState(cfg, f.base, g.base);
    assert f.give == g.give;
  }

  lemma BlankCopyOut(cfg: Config, v: Variant, f: GiveState, fl: GiveLabel)
    requires GiveShaped(cfg, f) && GiveEnabled(cfg, v, f, fl) && fl.CopyOut?
    ensures GiveEnabled(BlankConfig(cfg), v, BlankGiveState(cfg, f), fl)
    ensures GiveNext(BlankConfig(cfg), v, BlankGiveState(cfg, f), fl) == BlankGiveState(cfg, GiveNext(cfg, v, f, fl))
  {
    var cfg0, f0 := BlankConfig(cfg), BlankGiveState(cfg, f);
    BlankTail(f.base.links[fl.src][fl.dst]);
    BlankGiveUp(v, fl.dst, f.base.nodes[fl.dst], fl.src, fl.page);
    SameGiveState(cfg0, GiveNext(cfg0, v, f0, fl), BlankGiveState(cfg, GiveNext(cfg, v, f, fl)));
  }

  lemma BlankShip(cfg: Config, v: Variant, f: GiveState, fl: GiveLabel)
    requires GiveShaped(cfg, f) && GiveEnabled(cfg, v, f, fl) && fl.Ship?
    ensures GiveEnabled(BlankConfig(cfg), v, BlankGiveState(cfg, f), fl)
    ensures GiveNext(BlankConfig(cfg), v, BlankGiveState(cfg, f), fl) == BlankGiveState(cfg, GiveNext(cfg, v, f, fl))
  {
    var cfg0, f0 := BlankConfig(cfg), BlankGiveState(cfg, f);
    forall x: nat, y: nat | x < cfg.nodes && y < cfg.nodes
      ensures GiveNext(cfg0, v, f0, fl).base.links[x][y] == BlankQueue(GiveNext(cfg, v, f, fl).base.links[x][y])
    {
      BlankAppend(f.base.links[x][y], PageMail(cfg.nodes, fl.dest, fl.page, f.give[fl.node].body)[y]);
    }
    SameGiveState(cfg0, GiveNext(cfg0, v, f0, fl), BlankGiveState(cfg, GiveNext(cfg, v, f, fl)));
  }

  lemma BlankFinish(cfg: Config, v: Variant, f: GiveState, fl: GiveLabel)
    requires GiveShaped(cfg, f) && GiveEnabled(cfg, v, f, fl) && fl.Finish?
    ensures GiveEnabled(BlankConfig(cfg), v, BlankGiveState(cfg, f), fl)
    ensures GiveNext(BlankConfig(cfg), v, BlankGiveState(cfg, f), fl) == BlankGiveState(cfg, GiveNext(cfg, v, f, fl))
  {
    var cfg0, f0, i := BlankConfig(cfg), BlankGiveState(cfg, f), fl.node;
    BlankGiveUp(v, i, f.base.nodes[i], f.give[i].dest, f.give[i].page);
    forall x: nat, y: nat | x < cfg.nodes && y < cfg.nodes
      ensures GiveNext(cfg0, v, f0, fl).base.links[x][y] == BlankQueue(GiveNext(cfg, v, f, fl).base.links[x][y])
    {
      BlankAppend(f.base.links[x][y], InfoMail(cfg.nodes, i, f.give[i].dest, f.give[i].page)[y]);
    }
    SameGiveState(cfg0, GiveNext(cfg0, v, f0, fl), BlankGiveState(cfg, GiveNext(cfg, v, f, fl)));
  }

  /** Erasing content turns a step into a step, or an access into none. */
  lemma BlankGiveStep(cfg: Config, v: Variant, f: GiveState, fl: GiveLabel)
    requires GiveShaped(cfg, f) && GiveEnabled(cfg, v, f, fl)
    ensures var f0, f0' := BlankGiveState(cfg, f), BlankGiveState(cfg, GiveNext(cfg, v, f, fl));
            if BlankGiveLabel(fl) == [] then f0' == f0
            else GiveEnabled(BlankConfig(cfg), v, f0, BlankGiveLabel(fl)[0])
                 && GiveNext(BlankConfig(cfg), v, f0, BlankGiveLabel(fl)[0]) == f0'
  {
    match fl
    case Coarse(l) =>
      if Access(l) {
        BlankAccess(cfg, v, f.base, l);
      } else {
        BlankStep(cfg, v, f.base, l);
      }
    case CopyOut(_, _, _) => BlankCopyOut(cfg, v, f, fl);
    case Ship(_, _, _) => BlankShip(cfg, v, f, fl);
    case Finish(_) => BlankFinish(cfg, v, f, fl);
  }

  /** The second run is the first with its content erased, and nobody writes in it. */
  ghost predicate Blanked(cfg: Config, v: Variant, run: seq<GiveLabel>, blank: seq<GiveLabel>)
    requires ValidConfig(cfg) && GiveLegal(cfg, v, run)
  {
    && GiveLegal(BlankConfig(cfg), v, blank)
    && GiveAfter(BlankConfig(cfg), v, blank) == BlankGiveState(cfg, GiveAfter(cfg, v, run))
    && NoLateWrites(BlankConfig(cfg), v, blank)
  }

  lemma BlankNext(cfg: Config, v: Variant, run: seq<GiveLabel>, blank: seq<GiveLabel>, fl: GiveLabel)
    requires ValidConfig(cfg) && GiveLegal(cfg, v, run) && Blanked(cfg, v, run, blank)
    requires GiveEnabled(cfg, v, GiveAfter(cfg, v, run), fl)
    ensures GiveLegal(cfg, v, run + [fl]) && Blanked(cfg, v, run + [fl], blank + BlankGiveLabel(fl))
  {
    var more := BlankGiveLabel(fl);
    BlankGiveStep(cfg, v, GiveAfter(cfg, v, run), fl);
    OneMoreGive(cfg, v, run, fl);
    if more == [] {
      assert blank + more == blank;
    } else {
      OneMoreGive(BlankConfig(cfg), v, blank, more[0]);
      assert more == [more[0]] && (blank + more)[..|blank|] == blank;
    }
  }

  /** A run with its content erased is a run, and nobody writes late in it: nobody writes. */
  lemma {:induction false} BlankIsLegal(cfg: Config, v: Variant, run: seq<GiveLabel>)
    requires ValidConfig(cfg) && GiveLegal(cfg, v, run)
    ensures Blanked(cfg, v, run, BlankRun(run))
  {
    if run == [] {
      BlankInit(cfg, v);
    } else {
      var before, fl := run[..|run| - 1], run[|run| - 1];
      BlankIsLegal(cfg, v, before);
      BlankNext(cfg, v, before, BlankRun(before), fl);
      assert before + [fl] == run;
    }
  }

  lemma BlankInit(cfg: Config, v: Variant)
    requires ValidConfig(cfg)
    ensures GiveAfter(BlankConfig(cfg), v, []) == BlankGiveState(cfg, GiveAfter(cfg, v, []))
  {
    var cfg0 := BlankConfig(cfg);
    forall i: nat | i < cfg.nodes
      ensures InitialNode(cfg0, i) == BlankNode(InitialNode(cfg, i))
    {
      assert Zeros(0) == [];
      assert InitialNode(cfg0, i).mapped == BlankNode(InitialNode(cfg, i)).mapped;
    }
    SameGiveState(cfg0, GiveAfter(cfg0, v, []), BlankGiveState(cfg, GiveAfter(cfg, v, [])));
  }

  // ---------------------------------------------------------------- the written order routes

  /** A daemon that is free finds the page a request at the head of its link asks for. */
  ghost predicate FreeDaemonsFindPages(cfg: Config, f: GiveState)
    requires GiveShaped(cfg, f)
  {
    forall i: nat, j: nat | i < cfg.nodes && j < cfg.nodes && i != j && f.give[i].NoGive? ::
      f.base.links[j][i] != [] && f.base.links[j][i][0].PageRequest?
      ==> f.base.links[j][i][0].page in f.base.nodes[i].mapped
  }

  /** The atomic run that the erased run is seen as. */
  lemma AtomicWithoutContent(cfg: Config, v: Variant, run: seq<GiveLabel>) returns (atomic: seq<Label>)
    requires ValidConfig(cfg) && GiveLegal(cfg, v, run) && !v.unmapsFirst && v.waitsForOwnership
    ensures Legal(BlankConfig(cfg), v, atomic)
    ensures After(BlankConfig(cfg), v, atomic)
            == Seen(BlankConfig(cfg), v, BlankGiveState(cfg, GiveAfter(cfg, v, run)))
  {
    BlankIsLegal(cfg, v, run);
    var ds;
    atomic, ds := GivesAreAtomic(BlankConfig(cfg), v, BlankRun(run));
  }

  /** With two nodes and the written order no daemon ever faults, whatever the threads do. */
  lemma WrittenOrderServes(cfg: Config, v: Variant, run: seq<GiveLabel>)
    requires ValidConfig(cfg) && cfg.nodes == 2 && v.waitsForOwnership && !v.unmapsFirst && GiveLegal(cfg, v, run)
    ensures AllServing(GiveAfter(cfg, v, run).base) && FreeDaemonsFindPages(cfg, GiveAfter(cfg, v, run))
  {
    var cfg0, f := BlankConfig(cfg), GiveAfter(cfg, v, run);
    var f0 := BlankGiveState(cfg, f);
    var atomic := AtomicWithoutContent(cfg, v, run);
    WaitingTwoRoute(cfg0, v, atomic);
    var s := Seen(cfg0, v, f0);
    forall i: nat | i < 2
      ensures f.base.nodes[i].daemon.Serving?
    {
      assert s.nodes[i].daemon == f.base.nodes[i].daemon;
    }
    forall i: nat, j: nat | i < 2 && j < 2 && i != j && f.give[i].NoGive?
      ensures f.base.links[j][i] != [] && f.base.links[j][i][0].PageRequest?
              ==> f.base.links[j][i][0].page in f.base.nodes[i].mapped
    {
      if f.base.links[j][i] != [] && f.base.links[j][i][0].PageRequest? {
        assert s.links[j][i][0] == f.base.links[j][i][0];
        assert s.nodes[i].mapped.Keys == f.base.nodes[i].mapped.Keys;
      }
    }
  }

  /** And so nothing is misread. */
  lemma {:induction false} WrittenOrderInStep(cfg: Config, v: Variant, run: seq<GiveLabel>)
    requires ValidConfig(cfg) && cfg.nodes == 2 && v.waitsForOwnership && !v.unmapsFirst && GiveLegal(cfg, v, run)
    ensures GiveInStep(run)
  {
    if run == [] {
    } else {
      var before, fl := run[..|run| - 1], run[|run| - 1];
      GiveInStepLast(run);
      WrittenOrderInStep(cfg, v, before);
      if ReadsOn(fl) {
        WrittenOrderServes(cfg, v, before);
        NoHeaderInWrittenOrder(cfg, v, before, fl.l.src, fl.l.dst);
        assert false;
      }
    }
  }

  lemma NoHeaderInWrittenOrder(cfg: Config, v: Variant, run: seq<GiveLabel>, a: nat, b: nat)
    requires ValidConfig(cfg) && cfg.nodes == 2 && v.waitsForOwnership && !v.unmapsFirst && GiveLegal(cfg, v, run)
    requires a < 2 && b < 2 && GiveAfter(cfg, v, run).give[b].NoGive?
    ensures var q := GiveAfter(cfg, v, run).base.links[a][b]; q != [] ==> !q[0].PageHeader?
  {
    var cfg0, f := BlankConfig(cfg), GiveAfter(cfg, v, run);
    var atomic := AtomicWithoutContent(cfg, v, run);
    WaitingTwoRoute(cfg0, v, atomic);
    NoMarksWhileServing(cfg0, v, atomic);
    var q, q0 := f.base.links[a][b], After(cfg0, v, atomic).links[a][b];
    assert Unmarked(q0);
    if q != [] {
      assert q0[0] == BlankMessage(q[0]);
    }
  }

  // ---------------------------------------------------------------- the other order does not

  /** Nothing has happened yet, but perhaps accesses. */
  ghost predicate Untouched(cfg: Config, f: GiveState) {
    && GiveShaped(cfg, f) && cfg.nodes >= 2 && cfg.pages >= 1
    && f.give[0].NoGive? && f.give[1].NoGive?
    && 0 in f.base.nodes[0].mapped
    && f.base.nodes[0] == InitialNode(cfg, 0).(mapped := f.base.nodes[0].mapped)
    && f.base.nodes[1] == InitialNode(cfg, 1)
    && f.base.links[0][1] == [] && f.base.links[1][0] == []
  }

  /** Node 1 asks for page 0. The daemon of node 0 unmaps and copies it, and before it ships the
      copy the thread of node 0 wants the page back: its request is ahead of the page. */
  function Overtaking(first: seq<GiveLabel>): seq<GiveLabel> {
    first + [Coarse(Fault(1, 0, 0))] + [CopyOut(1, 0, 0)] + [Coarse(Fault(0, 0, 1))] + [Ship(0, 1, 0)]
  }

  lemma TakenOutFirst(cfg: Config, v: Variant, first: seq<GiveLabel>)
    requires ValidConfig(cfg) && GiveLegal(cfg, v, first) && Untouched(cfg, GiveAfter(cfg, v, first))
    requires AsMeant(v) && v.unmapsFirst
    ensures var run := first + [Coarse(Fault(1, 0, 0))] + [CopyOut(1, 0, 0)];
            && GiveLegal(cfg, v, run)
            && var f := GiveAfter(cfg, v, run);
               && f.give[0] == Copying(1, 0, GiveAfter(cfg, v, first).base.nodes[0].mapped[0]) && f.give[1].NoGive?
               && f.base.links[0][1] == [] && f.base.links[1][0] == []
               && f.base.nodes[0].app.Running? && f.base.nodes[0].daemon.Serving?
               && 0 !in f.base.nodes[0].mapped && f.base.nodes[0].table[0].owner == 1
               && f.base.nodes[1] == InitialNode(cfg, 1).(app := Waiting(0))
  {
    OneMoreGive(cfg, v, first, Coarse(Fault(1, 0, 0)));
    OneMoreGive(cfg, v, first + [Coarse(Fault(1, 0, 0))], CopyOut(1, 0, 0));
  }

  lemma RequestOvertakes(cfg: Config, v: Variant, first: seq<GiveLabel>)
    requires ValidConfig(cfg) && GiveLegal(cfg, v, first) && Untouched(cfg, GiveAfter(cfg, v, first))
    requires AsMeant(v) && v.unmapsFirst
    ensures GiveLegal(cfg, v, Overtaking(first))
    ensures var f := GiveAfter(cfg, v, Overtaking(first));
            && f.base.links[0][1] == [PageRequest(0), SendPage(0, GiveAfter(cfg, v, first).base.nodes[0].mapped[0])]
            && f.base.links[1][0] == [] && f.give[0].Shipped? && f.give[1].NoGive?
            && f.base.nodes[0].app == Waiting(0) && f.base.nodes[0].daemon.Serving?
            && f.base.nodes[1] == InitialNode(cfg, 1).(app := Waiting(0))
  {
    var taken := first + [Coarse(Fault(1, 0, 0))] + [CopyOut(1, 0, 0)];
    TakenOutFirst(cfg, v, first);
    OneMoreGive(cfg, v, taken, Coarse(Fault(0, 0, 1)));
    OneMoreGive(cfg, v, taken + [Coarse(Fault(0, 0, 1))], Ship(0, 1, 0));
  }

  /** The daemon that the request reaches faults, and asks back. */
  lemma OvertakenFaults(cfg: Config, v: Variant, first: seq<GiveLabel>)
    requires ValidConfig(cfg) && GiveLegal(cfg, v, first) && Untouched(cfg, GiveAfter(cfg, v, first))
    requires AsMeant(v) && v.unmapsFirst
    ensures var run := Overtaking(first) + [Coarse(DaemonFault(0, 1, 0, 0))];
            && GiveLegal(cfg, v, run)
            && var f := GiveAfter(cfg, v, run);
               && f.base.nodes[1].daemon == Stuck(0, 0) && f.base.links[1][0] == [PageHeader(0), PageRequest(0)]
               && f.give[0].Shipped? && f.base.nodes[0].app == Waiting(0) && f.base.nodes[0].daemon.Serving?
  {
    RequestOvertakes(cfg, v, first);
    OneMoreGive(cfg, v, Overtaking(first), Coarse(DaemonFault(0, 1, 0, 0)));
  }

  /** With two nodes and the steps of a give, daemons are sure to keep serving, requests to find
      their pages and links to stay in step, exactly when the page is unmapped last. That is the
      order that `FineGive.SingleCopyInStepIff` excludes. */
  lemma FineRoutingIff(cfg: Config, v: Variant)
    requires ValidConfig(cfg) && cfg.nodes == 2 && cfg.pages >= 1 && AsMeant(v)
    ensures !v.unmapsFirst
            <==> forall run | GiveLegal(cfg, v, run) ::
                   && AllServing(GiveAfter(cfg, v, run).base) && GiveInStep(run)
                   && FreeDaemonsFindPages(cfg, GiveAfter(cfg, v, run))
  {
    if v.unmapsFirst {
      OvertakenFaults(cfg, v, []);
      var run := Overtaking([]) + [Coarse(DaemonFault(0, 1, 0, 0))];
      assert GiveLegal(cfg, v, run) && !AllServing(GiveAfter(cfg, v, run).base);
    } else {
      forall run | GiveLegal(cfg, v, run)
        ensures AllServing(GiveAfter(cfg, v, run).base) && GiveInStep(run)
        ensures FreeDaemonsFindPages(cfg, GiveAfter(cfg, v, run))
      {
        WrittenOrderServes(cfg, v, run);
        WrittenOrderInStep(cfg, v, run);
      }
    }
  }
}
