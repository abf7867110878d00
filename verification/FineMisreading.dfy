/**
 Departures (g) and (h) of README.md together: the steps of a give, in all runs, those included
 in which a reader goes on behind a lone header. One node at a time can touch a page exactly
 with two nodes and the page unmapped before it is copied. Reads return the last value written
 only if, besides, handlers wait for ownership and grants are not recorded: then a page moves
 once and no daemon ever faults. As meant, neither order is enough: unmapping last loses writes,
 and unmapping first lets a request overtake the page, so that a header is misread.
 */
module FineMisreading {
  import opened Basics
  import opened Protocol
  import opened Traffic
  import opened FlatMemory
  import opened Requests
  import opened TwoNodes
  import opened FineGive
  import opened FineRouting
  import opened Misreading

  // ---------------------------------------------------------------- atomic gives, in steps

  /** A run, and then a step of the atomic system in its own steps. */
  function InItsSteps(run: seq<GiveLabel>, l: Label): seq<GiveLabel> {
    match l
    case Deliver(a, b, PageRequest(p)) => run + [CopyOut(a, b, p)] + [Ship(b, a, p)] + [Finish(b)]
    case _ => run + [Coarse(l)]
  }

  function Stepwise(run: seq<Label>): seq<GiveLabel> {
    if run == [] then [] else InItsSteps(Stepwise(run[..|run| - 1]), run[|run| - 1])
  }

  function BetweenGives(cfg: Config, s: State): GiveState {
    GiveState(s, seq(cfg.nodes, _ => NoGive))
  }

  ghost predicate AtOnce(cfg: Config, v: Variant, fine: seq<GiveLabel>, s: State)
    requires ValidConfig(cfg)
  {
    Shaped(cfg, s) && GiveLegal(cfg, v, fine) && GiveAfter(cfg, v, fine) == BetweenGives(cfg, s)
  }

  /** The state in which a copied page has been shipped, and what the last step makes of it. */
  lemma StepsOfAGive(cfg: Config, v: Variant, f: GiveState, a: nat, b: nat, p: nat)
    requires GiveShaped(cfg, f) && GiveEnabled(cfg, v, f, CopyOut(a, b, p))
    ensures var f1 := GiveNext(cfg, v, f, CopyOut(a, b, p));
            && GiveEnabled(cfg, v, f1, Ship(b, a, p))
            && var f2 := GiveNext(cfg, v, f1, Ship(b, a, p));
               && GiveEnabled(cfg, v, f2, Finish(b))
               && var f3 := GiveNext(cfg, v, f2, Finish(b));
                  && f3.base.nodes == f.base.nodes[b := GiveUp(v, b, f.base.nodes[b], a, p)]
                  && f3.give == f.give
                  && forall x: nat, y: nat | x < cfg.nodes && y < cfg.nodes ::
                       f3.base.links[x][y]
                       == if x != b then Pop(f.base.links, a, b)[x][y]
                          else Pop(f.base.links, a, b)[b][y]
                               + PageMail(cfg.nodes, a, p, f.base.nodes[b].mapped[p])[y]
                               + InfoMail(cfg.nodes, b, a, p)[y]
  {
    var f1 := GiveNext(cfg, v, f, CopyOut(a, b, p));
    var f2 := GiveNext(cfg, v, f1, Ship(b, a, p));
    var f3 := GiveNext(cfg, v, f2, Finish(b));
    assert f3.base.nodes == f.base.nodes[b := GiveUp(v, b, f.base.nodes[b], a, p)];
    assert f3.give == f.give;
  }

  lemma GiveInItsSteps(cfg: Config, v: Variant, fine: seq<GiveLabel>, s: State, a: nat, b: nat, p: nat)
    requires ValidConfig(cfg) && AtOnce(cfg, v, fine, s) && Enabled(cfg, v, s, Deliver(a, b, PageRequest(p)))
    ensures var l := Deliver(a, b, PageRequest(p));
            AtOnce(cfg, v, InItsSteps(fine, l), Next(cfg, v, s, l))
  {
    var l, f := Deliver(a, b, PageRequest(p)), BetweenGives(cfg, s);
    StepsOfAGive(cfg, v, f, a, b, p);
    OneMoreGive(cfg, v, fine, CopyOut(a, b, p));
    OneMoreGive(cfg, v, fine + [CopyOut(a, b, p)], Ship(b, a, p));
    OneMoreGive(cfg, v, fine + [CopyOut(a, b, p)] + [Ship(b, a, p)], Finish(b));
    var f' := GiveAfter(cfg, v, InItsSteps(fine, l));
    forall x: nat, y: nat | x < cfg.nodes && y < cfg.nodes
      ensures f'.base.links[x][y] == Next(cfg, v, s, l).links[x][y]
    {
      LinkAfter(cfg, v, s, l, x, y);
    }
    SameState(cfg, f'.base, Next(cfg, v, s, l));
  }

  /** The other direction of FineGive.dfy's reductions: every run with giving as one step is one
      of the real steps, of either order. */
  lemma {:induction false} AtomicRunsAreFine(cfg: Config, v: Variant, run: seq<Label>)
    requires ValidConfig(cfg) && Legal(cfg, v, run)
    ensures AtOnce(cfg, v, Stepwise(run), After(cfg, v, run))
  {
    if run == [] {
    } else {
      var before, l := run[..|run| - 1], run[|run| - 1];
      AtomicRunsAreFine(cfg, v, before);
      if l.Deliver? && l.msg.PageRequest? {
        GiveInItsSteps(cfg, v, Stepwise(before), After(cfg, v, before), l.src, l.dst, l.msg.page);
      } else {
        OneMoreGive(cfg, v, Stepwise(before), Coarse(l));
      }
    }
  }

  lemma OneMoreAccess(run: seq<GiveLabel>, fl: GiveLabel)
    ensures Accesses(run + [fl]) == Accesses(run) + WholeStep(fl)
  {
    assert (run + [fl])[..|run|] == run;
  }

  lemma AccessesInItsSteps(fine: seq<GiveLabel>, l: Label)
    ensures Accesses(InItsSteps(fine, l))
            == Accesses(fine) + if l.Deliver? && l.msg.PageRequest? then [] else [l]
  {
    if l.Deliver? && l.msg.PageRequest? {
      var copied := fine + [CopyOut(l.src, l.dst, l.msg.page)];
      var shipped := copied + [Ship(l.dst, l.src, l.msg.page)];
      OneMoreAccess(fine, CopyOut(l.src, l.dst, l.msg.page));
      OneMoreAccess(copied, Ship(l.dst, l.src, l.msg.page));
      OneMoreAccess(shipped, Finish(l.dst));
    } else {
      OneMoreAccess(fine, Coarse(l));
    }
  }

  lemma LastWrittenAfter(run: seq<Label>, l: Label, p: nat, off: nat)
    ensures LastWritten(run + [l], p, off)
            == if l.AppWrite? && l.page == p && l.off == off then l.val else LastWritten(run, p, off)
  {
    assert (run + [l])[..|run|] == run;
  }

  lemma {:induction false} SameWrites(run: seq<Label>, p: nat, off: nat)
    ensures LastWritten(Accesses(Stepwise(run)), p, off) == LastWritten(run, p, off)
  {
    if run == [] {
    } else {
      var before, l := run[..|run| - 1], run[|run| - 1];
      var fine := Accesses(Stepwise(before));
      SameWrites(before, p, off);
      AccessesInItsSteps(Stepwise(before), l);
      assert fine + [] == fine;
      assert before + [l] == run;
      LastWrittenAfter(before, l, p, off);
      LastWrittenAfter(fine, l, p, off);
    }
  }

  // ---------------------------------------------------------------- headers, in the steps of a give

  /** A daemon that gives is in its loop; one that faulted still lacks the page it faulted on. */
  predicate GoodDaemon(cfg: Config, node: Node, g: Give, i: nat) {
    && (!g.NoGive? ==> node.daemon.Serving? && g.dest < cfg.nodes && g.dest != i)
    && (node.daemon.Stuck? ==> node.daemon.page !in node.mapped)
  }

  ghost predicate GoodDaemons(cfg: Config, f: GiveState)
    requires GiveShaped(cfg, f)
  {
    forall i: nat | i < cfg.nodes :: GoodDaemon(cfg, f.base.nodes[i], f.give[i], i)
  }

  lemma GoodDaemonsStep(cfg: Config, v: Variant, f: GiveState, fl: GiveLabel)
    requires GiveShaped(cfg, f) && GiveEnabled(cfg, v, f, fl) && GoodDaemons(cfg, f)
    ensures GoodDaemons(cfg, GiveNext(cfg, v, f, fl))
  {
    var f' := GiveNext(cfg, v, f, fl);
    forall i: nat | i < cfg.nodes
      ensures GoodDaemon(cfg, f'.base.nodes[i], f'.give[i], i)
    {
      assert GoodDaemon(cfg, f.base.nodes[i], f.give[i], i);
    }
  }

  /** What a give mails is no request, and carries no mark. */
  lemma MailKeepsHeaders(cfg: Config, s: State, i: nat, e: Effect)
    requires Shaped(cfg, s) && HeaderMeansStuck(cfg, s) && i < cfg.nodes && s.nodes[i].daemon.Serving?
    requires |e.out| == cfg.nodes && |e.node.table| == cfg.pages && e.node.daemon.Serving?
    requires forall d | 0 <= d < cfg.nodes :: |e.out[d]| <= 1 && Unmarked(e.out[d])
    ensures HeaderMeansStuck(cfg, Apply(cfg, s, i, e))
  {
    var s' := Apply(cfg, s, i, e);
    forall x: nat, y: nat | x < cfg.nodes && y < cfg.nodes
      ensures SenderIsStuck(s'.nodes[x].daemon, y, s'.links[x][y]) && OnlyRequestsBehind(s'.links[x][y])
    {
      assert SenderIsStuck(s.nodes[x].daemon, y, s.links[x][y]) && OnlyRequestsBehind(s.links[x][y]);
      if x == i {
        ServingIsUnmarked(s.nodes[i].daemon, y, s.links[i][y]);
        BehindAppend(s.links[i][y], e.out[y]);
      }
    }
  }

  lemma CopyOutKeepsHeaders(cfg: Config, v: Variant, f: GiveState, fl: GiveLabel)
    requires GiveShaped(cfg, f) && GiveEnabled(cfg, v, f, fl) && fl.CopyOut? && HeaderMeansStuck(cfg, f.base)
    ensures HeaderMeansStuck(cfg, GiveNext(cfg, v, f, fl).base)
  {
    var s, s' := f.base, GiveNext(cfg, v, f, fl).base;
    forall x: nat, y: nat | x < cfg.nodes && y < cfg.nodes
      ensures SenderIsStuck(s'.nodes[x].daemon, y, s'.links[x][y]) && OnlyRequestsBehind(s'.links[x][y])
    {
      assert SenderIsStuck(s.nodes[x].daemon, y, s.links[x][y]) && OnlyRequestsBehind(s.links[x][y]);
    }
  }

  lemma HeadersStep(cfg: Config, v: Variant, f: GiveState, fl: GiveLabel)
    requires GiveShaped(cfg, f) && GiveEnabled(cfg, v, f, fl) && GoodDaemons(cfg, f) && HeaderMeansStuck(cfg, f.base)
    ensures HeaderMeansStuck(cfg, GiveNext(cfg, v, f, fl).base)
  {
    match fl
    case Coarse(l) => HeaderStep(cfg, v, f.base, l);
    case CopyOut(_, _, _) => CopyOutKeepsHeaders(cfg, v, f, fl);
    case Ship(i, dest, p) =>
      assert GoodDaemon(cfg, f.base.nodes[i], f.give[i], i);
      MailKeepsHeaders(cfg, f.base, i, Effect(f.base.nodes[i], PageMail(cfg.nodes, dest, p, f.give[i].body)));
    case Finish(i) =>
      var node, dest, p := f.base.nodes[i], f.give[i].dest, f.give[i].page;
      assert GoodDaemon(cfg, node, f.give[i], i);
      var node' := if v.unmapsFirst then node else GiveUp(v, i, node, dest, p);
      MailKeepsHeaders(cfg, f.base, i, Effect(node', InfoMail(cfg.nodes, i, dest, p)));
  }

  /** With the steps of a give, too, a lone header means a stuck sender with only requests behind. */
  lemma {:induction false} GiveHeadersInRuns(cfg: Config, v: Variant, run: seq<GiveLabel>)
    requires ValidConfig(cfg) && GiveLegal(cfg, v, run)
    ensures GoodDaemons(cfg, GiveAfter(cfg, v, run)) && HeaderMeansStuck(cfg, GiveAfter(cfg, v, run).base)
  {
    if run == [] {
    } else {
      var before, fl := run[..|run| - 1], run[|run| - 1];
      GiveHeadersInRuns(cfg, v, before);
      GoodDaemonsStep(cfg, v, GiveAfter(cfg, v, before), fl);
      HeadersStep(cfg, v, GiveAfter(cfg, v, before), fl);
    }
  }

  // ---------------------------------------------------------------- two nodes: at most one live copy

  /** Copies of p at node i, in memory or in the buffer of its daemon. */
  function Here(f: GiveState, i: nat, p: nat): nat
    requires i < |f.base.nodes| == |f.give|
  {
    (if p in f.base.nodes[i].mapped then 1 else 0) + (if CopyingHere(f.give[i], p) then 1 else 0)
  }

  /** Copies of p on their way to node i, if its daemon will ever read them. */
  function Underway(cfg: Config, f: GiveState, i: nat, p: nat): nat
    requires GiveShaped(cfg, f) && cfg.nodes == 2 && i < 2
  {
    if f.base.nodes[i].daemon.Serving? then QueueCost(CopyOf(p), f.base.links[1 - i][i]) else 0
  }

  function CopiesFor(cfg: Config, f: GiveState, i: nat, p: nat): nat
    requires GiveShaped(cfg, f) && cfg.nodes == 2 && i < 2
  {
    Here(f, i, p) + Underway(cfg, f, i, p)
  }

  function LiveCopies(cfg: Config, f: GiveState, p: nat): nat
    requires GiveShaped(cfg, f) && cfg.nodes == 2
  {
    CopiesFor(cfg, f, 0, p) + CopiesFor(cfg, f, 1, p)
  }

  /** Behind a header there is no page. */
  lemma {:induction false} NoPageBehindHeader(q: Queue, p: nat)
    requires OnlyRequestsBehind(q) && q != [] && q[0].PageHeader?
    ensures QueueCost(CopyOf(p), q) == 0
  {
    if |q| == 1 {
      CostOfSingleton(CopyOf(p), q[0]);
    } else {
      forall k | 0 <= k < |q[1..]|
        ensures q[1..][k].PageRequest?
      {
        assert q[1..][k] == q[k + 1];
      }
      RequestsCostNothing(q[1..], p);
    }
  }

  lemma {:induction false} RequestsCostNothing(q: Queue, p: nat)
    requires forall k | 0 <= k < |q| :: q[k].PageRequest?
    ensures QueueCost(CopyOf(p), q) == 0
  {
    if q == [] {
    } else {
      RequestsCostNothing(q[1..], p);
    }
  }

  /** The page that a misreading makes is the only live copy: the sender of the header is stuck
      without the page, and nothing of it is behind the header. */
  lemma MisreadingReplaces(cfg: Config, v: Variant, f: GiveState, l: Label)
    requires GiveShaped(cfg, f) && GiveEnabled(cfg, v, f, Coarse(l)) && l.Misread? && cfg.nodes == 2
    requires GoodDaemons(cfg, f) && HeaderMeansStuck(cfg, f.base)
    ensures LiveCopies(cfg, GiveNext(cfg, v, f, Coarse(l)), l.page) == 1
  {
    var a, b, p := l.src, l.dst, l.page;
    var f' := GiveNext(cfg, v, f, Coarse(l));
    assert PageHeader(p) in f.base.links[a][b];
    assert SenderIsStuck(f.base.nodes[a].daemon, b, f.base.links[a][b]) && OnlyRequestsBehind(f.base.links[a][b]);
    assert GoodDaemon(cfg, f.base.nodes[a], f.give[a], a);
    NoPageBehindHeader(f.base.links[a][b], p);
    MisreadCost(CopyOf(p), p, l.req, f.base.links[a][b]);
    assert f'.base.links[a][b] == [Scrap(l.req)] + f.base.links[a][b][2..];
    assert Here(f', a, p) == 0 && Here(f', b, p) == 1;
  }

  lemma NoPagesButGiven(cfg: Config, v: Variant, s: State, l: Label, p: nat, x: nat, y: nat)
    requires Shaped(cfg, s) && Enabled(cfg, v, s, l) && x < cfg.nodes && y < cfg.nodes
    requires !(l.Deliver? && l.msg.PageRequest?)
    ensures QueueCost(CopyOf(p), Emitted(cfg, v, s, l, x, y)) == 0
  {
    var out := Emitted(cfg, v, s, l, x, y);
    if l.DaemonFault? && l.dst == x {
      var request: Queue := if y == l.to then [PageRequest(l.page)] else [];
      CostOfDaemonFault(CopyOf(p), HeaderMail(s.nodes[x], l.src, l.page, y), l.page, request);
      CostOfSingleton(CopyOf(p), PageRequest(l.page));
    } else if out != [] {
      CostOfSingleton(CopyOf(p), out[0]);
    }
  }

  /** A page comes to node i from a SEND_PAGE only. */
  function Arrives(l: Label, i: nat, p: nat): nat {
    if l.Deliver? && l.dst == i && l.msg.SendPage? && l.msg.page == p then 1 else 0
  }

  lemma HereAfterCoarse(cfg: Config, v: Variant, f: GiveState, l: Label, p: nat, i: nat)
    requires GiveShaped(cfg, f) && GiveEnabled(cfg, v, f, Coarse(l)) && i < cfg.nodes
    requires !(l.Misread? && l.page == p)
    ensures Here(GiveNext(cfg, v, f, Coarse(l)), i, p) <= Here(f, i, p) + Arrives(l, i, p)
    ensures GiveNext(cfg, v, f, Coarse(l)).base.nodes[i].daemon.Serving? ==> f.base.nodes[i].daemon.Serving?
  {
  }

  lemma CopiesAfterCoarse(cfg: Config, v: Variant, f: GiveState, l: Label, p: nat, i: nat)
    requires GiveShaped(cfg, f) && GiveEnabled(cfg, v, f, Coarse(l)) && cfg.nodes == 2 && i < 2
    requires !(l.Misread? && l.page == p)
    ensures CopiesFor(cfg, GiveNext(cfg, v, f, Coarse(l)), i, p) <= CopiesFor(cfg, f, i, p)
  {
    HereAfterCoarse(cfg, v, f, l, p, i);
    LinkCost(cfg, v, f.base, l, CopyOf(p), 1 - i, i);
    NoPagesButGiven(cfg, v, f.base, l, p, 1 - i, i);
    assert Taken(CopyOf(p), l, 1 - i, i) == Arrives(l, i, p);
  }

  lemma CopiesAfterCopyOut(cfg: Config, v: Variant, f: GiveState, fl: GiveLabel, p: nat, i: nat)
    requires GiveShaped(cfg, f) && GiveEnabled(cfg, v, f, fl) && cfg.nodes == 2 && i < 2
    requires fl.CopyOut? && v.unmapsFirst
    ensures CopiesFor(cfg, GiveNext(cfg, v, f, fl), i, p) <= CopiesFor(cfg, f, i, p)
  {
  }

  lemma CopiesAfterShip(cfg: Config, v: Variant, f: GiveState, fl: GiveLabel, p: nat)
    requires GiveShaped(cfg, f) && GiveEnabled(cfg, v, f, fl) && cfg.nodes == 2 && fl.Ship? && GoodDaemons(cfg, f)
    ensures LiveCopies(cfg, GiveNext(cfg, v, f, fl), p) <= LiveCopies(cfg, f, p)
  {
    var i := fl.node;
    assert GoodDaemon(cfg, f.base.nodes[i], f.give[i], i);
    var m := SendPage(fl.page, f.give[i].body);
    CostAppend(CopyOf(p), f.base.links[i][1 - i], [m]);
    CostOfSingleton(CopyOf(p), m);
    CostAppend(CopyOf(p), f.base.links[1 - i][i], []);
  }

  lemma CopiesAfterFinish(cfg: Config, v: Variant, f: GiveState, fl: GiveLabel, p: nat, i: nat)
    requires GiveShaped(cfg, f) && GiveEnabled(cfg, v, f, fl) && cfg.nodes == 2 && i < 2
    requires fl.Finish? && v.unmapsFirst
    ensures CopiesFor(cfg, GiveNext(cfg, v, f, fl), i, p) <= CopiesFor(cfg, f, i, p)
  {
    var job := f.give[fl.node];
    CostAppend(CopyOf(p), f.base.links[1 - i][i], InfoMail(2, fl.node, job.dest, job.page)[i]);
    CostOfSingleton(CopyOf(p), SendInfo(job.page, job.dest));
  }

  lemma LiveCopiesStep(cfg: Config, v: Variant, f: GiveState, fl: GiveLabel, p: nat)
    requires GiveShaped(cfg, f) && GiveEnabled(cfg, v, f, fl) && cfg.nodes == 2 && v.unmapsFirst
    requires GoodDaemons(cfg, f) && HeaderMeansStuck(cfg, f.base) && LiveCopies(cfg, f, p) <= 1
    ensures LiveCopies(cfg, GiveNext(cfg, v, f, fl), p) <= 1
  {
    if ReadsOn(fl) && fl.l.page == p {
      MisreadingReplaces(cfg, v, f, fl.l);
    } else if fl.Ship? {
      CopiesAfterShip(cfg, v, f, fl, p);
    } else {
      forall i: nat | i < 2
        ensures CopiesFor(cfg, GiveNext(cfg, v, f, fl), i, p) <= CopiesFor(cfg, f, i, p)
      {
        match fl
        case Coarse(l) => CopiesAfterCoarse(cfg, v, f, l, p, i);
        case CopyOut(_, _, _) => CopiesAfterCopyOut(cfg, v, f, fl, p, i);
        case Finish(_) => CopiesAfterFinish(cfg, v, f, fl, p, i);
      }
    }
  }

  /** With two nodes and the page unmapped first there is never more than one copy that anybody
      may still use, misreadings included: a misread page replaces one that its owner lost. */
  lemma {:induction false} AtMostOneLiveCopy(cfg: Config, v: Variant, run: seq<GiveLabel>, p: nat)
    requires ValidConfig(cfg) && GiveLegal(cfg, v, run) && cfg.nodes == 2 && v.unmapsFirst
    ensures LiveCopies(cfg, GiveAfter(cfg, v, run), p) <= 1
  {
    if run == [] {
    } else {
      var before := run[..|run| - 1];
      AtMostOneLiveCopy(cfg, v, before, p);
      GiveHeadersInRuns(cfg, v, before);
      LiveCopiesStep(cfg, v, GiveAfter(cfg, v, before), run[|run| - 1], p);
    }
  }

  // ---------------------------------------------------------------- one user at a time

  /** Whatever happens, the steps of a give included, no two nodes can touch one page: exactly
      with two nodes and the page unmapped before it is copied. */
  lemma SingleCopyIff(cfg: Config, v: Variant)
    requires ValidConfig(cfg) && cfg.nodes >= 2 && cfg.pages >= 3 && cfg.pageSize >= 1
    ensures v.unmapsFirst && cfg.nodes <= 2
            <==> forall run, p: nat, i: nat, j: nat, off: nat, off': nat
                   | GiveLegal(cfg, v, run)
                     && CanAccess(cfg, GiveAfter(cfg, v, run).base, i, p, off)
                     && CanAccess(cfg, GiveAfter(cfg, v, run).base, j, p, off') :: i == j
  {
    if !v.unmapsFirst {
      var run := LostWrite(cfg, v);
    } else if cfg.nodes > 2 {
      var run := TwoTouchOnePage(cfg, v, Zeros(cfg.pageSize));
      AtomicRunsAreFine(cfg, v, run);
      assert GiveAfter(cfg, v, Stepwise(run)).base == After(cfg, v, run);
    } else {
      forall run, p: nat, i: nat, j: nat, off: nat, off': nat
        | GiveLegal(cfg, v, run)
          && CanAccess(cfg, GiveAfter(cfg, v, run).base, i, p, off)
          && CanAccess(cfg, GiveAfter(cfg, v, run).base, j, p, off')
        ensures i == j
      {
        AtMostOneLiveCopy(cfg, v, run, p);
      }
    }
  }

  /** A variant that takes the page out of memory first. */
  function UnmappingFirst(v: Variant): Variant {
    v.(unmapsFirst := true)
  }

  lemma SameStep(cfg: Config, v: Variant, s: State, l: Label)
    requires Shaped(cfg, s)
    ensures Enabled(cfg, UnmappingFirst(v), s, l) == Enabled(cfg, v, s, l)
    ensures Enabled(cfg, v, s, l) ==> Next(cfg, UnmappingFirst(v), s, l) == Next(cfg, v, s, l)
  {
  }

  /** With giving as one step the order does not matter. */
  lemma {:induction false} SameWithoutSteps(cfg: Config, v: Variant, run: seq<Label>)
    requires ValidConfig(cfg)
    ensures Exec(cfg, UnmappingFirst(v), run) == Exec(cfg, v, run)
  {
    if run == [] {
    } else {
      var before := run[..|run| - 1];
      SameWithoutSteps(cfg, v, before);
      if Legal(cfg, v, before) {
        SameStep(cfg, v, After(cfg, v, before), run[|run| - 1]);
      }
    }
  }

  lemma OneLiveCopyAtOnce(cfg: Config, v: Variant, run: seq<Label>, p: nat)
    requires ValidConfig(cfg) && Legal(cfg, v, run) && cfg.nodes == 2
    ensures !(p in After(cfg, v, run).nodes[0].mapped && p in After(cfg, v, run).nodes[1].mapped)
  {
    SameWithoutSteps(cfg, v, run);
    AtomicRunsAreFine(cfg, UnmappingFirst(v), run);
    AtMostOneLiveCopy(cfg, UnmappingFirst(v), Stepwise(run), p);
    assert GiveAfter(cfg, UnmappingFirst(v), Stepwise(run)).base == After(cfg, v, run);
  }

  /** With giving as one step: exactly with two nodes. */
  lemma NoTwoWritersIff(cfg: Config, v: Variant)
    requires ValidConfig(cfg) && cfg.nodes >= 2 && cfg.pages >= 3 && cfg.pageSize >= 1
    ensures cfg.nodes <= 2
            <==> forall run, p: nat, i: nat, j: nat, off: nat, off': nat
                   | Legal(cfg, v, run)
                     && CanAccess(cfg, After(cfg, v, run), i, p, off)
                     && CanAccess(cfg, After(cfg, v, run), j, p, off') :: i == j
  {
    if cfg.nodes > 2 {
      var run := TwoTouchOnePage(cfg, v, Zeros(cfg.pageSize));
    } else {
      forall run, p: nat, i: nat, j: nat, off: nat, off': nat
        | Legal(cfg, v, run)
          && CanAccess(cfg, After(cfg, v, run), i, p, off)
          && CanAccess(cfg, After(cfg, v, run), j, p, off')
        ensures i == j
      {
        OneLiveCopyAtOnce(cfg, v, run, p);
      }
    }
  }

  // ---------------------------------------------------------------- pages that move once

  /** Between two nodes, when handlers wait and grants are not recorded, page p has been with its
      home h, in the buffer of h, on the link to the other node o, and stays there: h keeps naming
      itself, and o asks once. */
  ghost predicate MovedOnce(cfg: Config, f: GiveState, p: nat, h: nat, o: nat, pl: GivePlace)
    requires GiveShaped(cfg, f) && cfg.nodes == 2 && p < cfg.pages && h < 2 && o < 2
  {
    && (pl == At(h) || pl == InBuffer(h) || pl == OnLink(h, o) || pl == At(o))
    && f.base.nodes[h].table[p].owner == h
    && f.base.nodes[o].table[p].owner == (if pl == At(o) then o else h)
    && (pl == InBuffer(h) || pl == OnLink(h, o) ==> f.base.nodes[o].app == Waiting(p))
    && QueueCost(RequestFor(p), f.base.links[h][o]) == 0
    && QueueCost(RequestFor(p), f.base.links[o][h])
       <= (if pl == At(h) && f.base.nodes[o].app == Waiting(p) then 1 else 0)
  }

  /** With two nodes there is nobody to inform. */
  ghost predicate NoNews(cfg: Config, f: GiveState)
    requires GiveShaped(cfg, f)
  {
    forall x: nat, y: nat, m: Message {:trigger m in f.base.links[x][y]}
      | x < cfg.nodes && y < cfg.nodes && m in f.base.links[x][y] :: !m.SendInfo?
  }

  /** The coarse steps left when nobody faults in a daemon and there is no news. */
  predicate Plain(l: Label) {
    !l.Misread? && !l.DaemonFault? && (l.Deliver? ==> l.msg.SendPage?)
  }

  /** What a plain step does to the place of a page that has moved at most once. */
  lemma PlaceAfterPlain(cfg: Config, v: Variant, f: GiveState, l: Label, p: nat, h: nat, o: nat, pl: GivePlace)
    requires GiveShaped(cfg, f) && cfg.nodes == 2 && p < cfg.pages && h < 2 && o < 2 && h != o
    requires GiveEnabled(cfg, v, f, Coarse(l)) && Plain(l)
    requires OnlyThere(cfg, v, f, p, pl) && MovedOnce(cfg, f, p, h, o, pl)
    ensures l.Deliver? && l.msg.page == p ==> pl == OnLink(h, o) && l.src == h && l.dst == o
    ensures NextGivePlace(v, Coarse(l), p, pl) == if l.Deliver? && l.msg.page == p then At(o) else pl
  {
    if l.Deliver? && l.msg.page == p {
      DeliveredIsThere(cfg, v, f, p, pl, l.src, l.dst);
    }
  }

  lemma TablesAfterPlain(cfg: Config, v: Variant, f: GiveState, l: Label, p: nat, h: nat, o: nat, pl: GivePlace)
    requires GiveShaped(cfg, f) && cfg.nodes == 2 && p < cfg.pages && h < 2 && o < 2 && h != o
    requires GiveEnabled(cfg, v, f, Coarse(l)) && Plain(l)
    requires OnlyThere(cfg, v, f, p, pl) && MovedOnce(cfg, f, p, h, o, pl)
    ensures var s', pl' := Next(cfg, v, f.base, l), NextGivePlace(v, Coarse(l), p, pl);
            s'.nodes[h].table[p].owner == h && s'.nodes[o].table[p].owner == if pl' == At(o) then o else h
  {
    PlaceAfterPlain(cfg, v, f, l, p, h, o, pl);
  }

  lemma WaitAfterPlain(cfg: Config, v: Variant, f: GiveState, l: Label, p: nat, h: nat, o: nat, pl: GivePlace)
    requires GiveShaped(cfg, f) && cfg.nodes == 2 && p < cfg.pages && h < 2 && o < 2 && h != o
    requires v.waitsForOwnership && GiveEnabled(cfg, v, f, Coarse(l)) && Plain(l)
    requires OnlyThere(cfg, v, f, p, pl) && MovedOnce(cfg, f, p, h, o, pl)
    ensures var app, pl' := Next(cfg, v, f.base, l).nodes[o].app, NextGivePlace(v, Coarse(l), p, pl);
            && (pl' != At(o) && f.base.nodes[o].app == Waiting(p) ==> app == Waiting(p))
            && (l.Fault? && l.node == o && l.page == p ==> pl' == At(h) && l.to == h && app == Waiting(p))
  {
    PlaceAfterPlain(cfg, v, f, l, p, h, o, pl);
    assert NodeAgrees(v, f.base.nodes[o], f.give[o], o, p, pl);
  }

  lemma RequestsAfterPlain(cfg: Config, v: Variant, f: GiveState, l: Label, p: nat, h: nat, o: nat, pl: GivePlace)
    requires GiveShaped(cfg, f) && cfg.nodes == 2 && p < cfg.pages && h < 2 && o < 2 && h != o
    requires v.waitsForOwnership && GiveEnabled(cfg, v, f, Coarse(l)) && Plain(l)
    requires OnlyThere(cfg, v, f, p, pl) && MovedOnce(cfg, f, p, h, o, pl)
    ensures var s', pl' := Next(cfg, v, f.base, l), NextGivePlace(v, Coarse(l), p, pl);
            && QueueCost(RequestFor(p), s'.links[h][o]) == 0
            && QueueCost(RequestFor(p), s'.links[o][h])
               <= if pl' == At(h) && s'.nodes[o].app == Waiting(p) then 1 else 0
  {
    PlaceAfterPlain(cfg, v, f, l, p, h, o, pl);
    WaitAfterPlain(cfg, v, f, l, p, h, o, pl);
    LinkCost(cfg, v, f.base, l, RequestFor(p), h, o);
    LinkCost(cfg, v, f.base, l, RequestFor(p), o, h);
  }

  lemma MovedAfterPlain(cfg: Config, v: Variant, f: GiveState, l: Label, p: nat, h: nat, o: nat, pl: GivePlace)
    requires GiveShaped(cfg, f) && cfg.nodes == 2 && p < cfg.pages && h < 2 && o < 2 && h != o
    requires v.waitsForOwnership && GiveEnabled(cfg, v, f, Coarse(l)) && Plain(l)
    requires OnlyThere(cfg, v, f, p, pl) && MovedOnce(cfg, f, p, h, o, pl)
    ensures MovedOnce(cfg, GiveNext(cfg, v, f, Coarse(l)), p, h, o, NextGivePlace(v, Coarse(l), p, pl))
  {
    PlaceAfterPlain(cfg, v, f, l, p, h, o, pl);
    TablesAfterPlain(cfg, v, f, l, p, h, o, pl);
    WaitAfterPlain(cfg, v, f, l, p, h, o, pl);
    RequestsAfterPlain(cfg, v, f, l, p, h, o, pl);
  }

  lemma MovedAfterCopyOut(cfg: Config, v: Variant, f: GiveState, fl: GiveLabel, p: nat, h: nat, o: nat, pl: GivePlace)
    requires GiveShaped(cfg, f) && cfg.nodes == 2 && p < cfg.pages && h < 2 && o < 2 && h != o
    requires v.unmapsFirst && v.waitsForOwnership && !v.recordsGrant && GiveEnabled(cfg, v, f, fl) && fl.CopyOut?
    requires OnlyThere(cfg, v, f, p, pl) && MovedOnce(cfg, f, p, h, o, pl)
    ensures MovedOnce(cfg, GiveNext(cfg, v, f, fl), p, h, o, NextGivePlace(v, fl, p, pl))
  {
    if fl.page == p {
      CostOfMember(RequestFor(p), f.base.links[fl.src][fl.dst], PageRequest(p));
    }
  }

  /** Neither shipping nor finishing sends a request. */
  lemma MailIsNoRequest(cfg: Config, v: Variant, f: GiveState, fl: GiveLabel, p: nat, x: nat, y: nat)
    requires GiveShaped(cfg, f) && GiveEnabled(cfg, v, f, fl) && x < cfg.nodes && y < cfg.nodes
    requires fl.Ship? || fl.Finish?
    ensures QueueCost(RequestFor(p), GiveNext(cfg, v, f, fl).base.links[x][y])
            == QueueCost(RequestFor(p), f.base.links[x][y])
  {
    var job, q := f.give[fl.node], f.base.links[x][y];
    if fl.Ship? {
      CostAppend(RequestFor(p), q, PageMail(cfg.nodes, fl.dest, fl.page, job.body)[y]);
      CostOfSingleton(RequestFor(p), SendPage(fl.page, job.body));
    } else {
      CostAppend(RequestFor(p), q, InfoMail(cfg.nodes, fl.node, job.dest, job.page)[y]);
      CostOfSingleton(RequestFor(p), SendInfo(job.page, job.dest));
    }
  }

  lemma MovedAfterMail(cfg: Config, v: Variant, f: GiveState, fl: GiveLabel, p: nat, h: nat, o: nat, pl: GivePlace)
    requires GiveShaped(cfg, f) && cfg.nodes == 2 && p < cfg.pages && h < 2 && o < 2 && h != o
    requires v.unmapsFirst && GiveEnabled(cfg, v, f, fl) && (fl.Ship? || fl.Finish?) && GoodDaemons(cfg, f)
    requires OnlyThere(cfg, v, f, p, pl) && MovedOnce(cfg, f, p, h, o, pl)
    ensures MovedOnce(cfg, GiveNext(cfg, v, f, fl), p, h, o, NextGivePlace(v, fl, p, pl))
  {
    var i := fl.node;
    assert GoodDaemon(cfg, f.base.nodes[i], f.give[i], i);
    assert NodeAgrees(v, f.base.nodes[i], f.give[i], i, p, pl);
    MailIsNoRequest(cfg, v, f, fl, p, h, o);
    MailIsNoRequest(cfg, v, f, fl, p, o, h);
  }

  /** Page p has moved at most once from its first home. */
  ghost predicate MovedFromHome(cfg: Config, v: Variant, run: seq<GiveLabel>, p: nat)
    requires ValidConfig(cfg) && GiveLegal(cfg, v, run) && cfg.nodes == 2 && p < cfg.pages
  {
    MovedOnce(cfg, GiveAfter(cfg, v, run), p, p % 2, 1 - p % 2, GivePlaceAfter(cfg, v, run, p))
  }

  /** Every page has moved at most once, no daemon has faulted, and there is no news. */
  ghost predicate AllMovedOnce(cfg: Config, v: Variant, run: seq<GiveLabel>)
    requires ValidConfig(cfg) && GiveLegal(cfg, v, run) && cfg.nodes == 2
  {
    var f := GiveAfter(cfg, v, run);
    && AllServing(f.base) && NoNews(cfg, f)
    && forall p: nat | p < cfg.pages :: MovedFromHome(cfg, v, run, p)
  }

  /** A request is at the page's home, which still has the page. */
  lemma RequestIsAtHome(cfg: Config, v: Variant, f: GiveState, p: nat, h: nat, o: nat, pl: GivePlace, a: nat, b: nat)
    requires GiveShaped(cfg, f) && cfg.nodes == 2 && p < cfg.pages && h < 2 && o < 2 && h != o
    requires OnlyThere(cfg, v, f, p, pl) && MovedOnce(cfg, f, p, h, o, pl)
    requires a < 2 && b < 2 && a != b && PageRequest(p) in f.base.links[a][b]
    ensures p in f.base.nodes[b].mapped
  {
    CostOfMember(RequestFor(p), f.base.links[a][b], PageRequest(p));
    assert NodeAgrees(v, f.base.nodes[b], f.give[b], b, p, pl);
  }

  lemma NobodyMisreads(cfg: Config, v: Variant, run: seq<GiveLabel>, l: Label)
    requires ValidConfig(cfg) && GiveLegal(cfg, v, run) && AllServing(GiveAfter(cfg, v, run).base)
    requires GiveEnabled(cfg, v, GiveAfter(cfg, v, run), Coarse(l))
    ensures !l.Misread?
  {
    if l.Misread? {
      var s := GiveAfter(cfg, v, run).base;
      GiveHeadersInRuns(cfg, v, run);
      ServingIsUnmarked(s.nodes[l.src].daemon, l.dst, s.links[l.src][l.dst]);
      assert false;
    }
  }

  /** A request on a link is for a page of the region. */
  lemma RequestInRange(cfg: Config, v: Variant, run: seq<GiveLabel>, a: nat, b: nat, p: nat)
    requires ValidConfig(cfg) && GiveLegal(cfg, v, run) && GiveInStep(run) && v.unmapsFirst
    requires a < cfg.nodes && b < cfg.nodes && PageRequest(p) in GiveAfter(cfg, v, run).base.links[a][b]
    ensures p < cfg.pages
  {
    UnmappingFirstIsCareful(cfg, v, run);
    CarefulIsCurrent(cfg, v, run);
    assert MailCurrent(cfg, Accesses(run), PageRequest(p));
  }

  lemma OnlyPlainSteps(cfg: Config, v: Variant, run: seq<GiveLabel>, l: Label)
    requires ValidConfig(cfg) && GiveLegal(cfg, v, run) && GiveInStep(run) && cfg.nodes == 2 && v.unmapsFirst
    requires AllMovedOnce(cfg, v, run) && GiveEnabled(cfg, v, GiveAfter(cfg, v, run), Coarse(l))
    ensures Plain(l)
  {
    var f := GiveAfter(cfg, v, run);
    NobodyMisreads(cfg, v, run, l);
    if l.DaemonFault? {
      var p := l.page;
      assert PageRequest(p) in f.base.links[l.src][l.dst];
      RequestInRange(cfg, v, run, l.src, l.dst, p);
      GivenPageInOnePlace(cfg, v, run, p);
      assert MovedFromHome(cfg, v, run, p);
      RequestIsAtHome(cfg, v, f, p, p % 2, 1 - p % 2, GivePlaceAfter(cfg, v, run, p), l.src, l.dst);
      assert false;
    } else if l.Deliver? {
      assert l.msg in f.base.links[l.src][l.dst];
    }
  }

  lemma NoNewsNext(cfg: Config, v: Variant, f: GiveState, fl: GiveLabel)
    requires GiveShaped(cfg, f) && cfg.nodes == 2 && GiveEnabled(cfg, v, f, fl) && GoodDaemons(cfg, f)
    requires NoNews(cfg, f) && (fl.Coarse? ==> Plain(fl.l))
    ensures NoNews(cfg, GiveNext(cfg, v, f, fl))
  {
    var f' := GiveNext(cfg, v, f, fl);
    forall x: nat, y: nat, m: Message | x < cfg.nodes && y < cfg.nodes && m in f'.base.links[x][y]
      ensures !m.SendInfo?
    {
      NoStrayMail(cfg, v, f, fl, x, y, m);
      if fl.Finish? {
        assert GoodDaemon(cfg, f.base.nodes[fl.node], f.give[fl.node], fl.node);
        assert f'.base.links[x][y] == f.base.links[x][y];
      }
    }
  }

  lemma MovedStep(cfg: Config, v: Variant, f: GiveState, fl: GiveLabel, p: nat, h: nat, o: nat, pl: GivePlace)
    requires GiveShaped(cfg, f) && cfg.nodes == 2 && p < cfg.pages && h < 2 && o < 2 && h != o
    requires v.unmapsFirst && v.waitsForOwnership && !v.recordsGrant && GiveEnabled(cfg, v, f, fl)
    requires fl.Coarse? ==> Plain(fl.l)
    requires GoodDaemons(cfg, f) && OnlyThere(cfg, v, f, p, pl) && MovedOnce(cfg, f, p, h, o, pl)
    ensures MovedOnce(cfg, GiveNext(cfg, v, f, fl), p, h, o, NextGivePlace(v, fl, p, pl))
  {
    match fl
    case Coarse(l) => MovedAfterPlain(cfg, v, f, l, p, h, o, pl);
    case CopyOut(_, _, _) => MovedAfterCopyOut(cfg, v, f, fl, p, h, o, pl);
    case _ => MovedAfterMail(cfg, v, f, fl, p, h, o, pl);
  }

  lemma MovedNext(cfg: Config, v: Variant, run: seq<GiveLabel>, fl: GiveLabel, p: nat)
    requires ValidConfig(cfg) && GiveLegal(cfg, v, run) && GiveInStep(run) && cfg.nodes == 2 && p < cfg.pages
    requires v.unmapsFirst && v.waitsForOwnership && !v.recordsGrant
    requires MovedFromHome(cfg, v, run, p) && GiveEnabled(cfg, v, GiveAfter(cfg, v, run), fl)
    requires fl.Coarse? ==> Plain(fl.l)
    ensures GiveLegal(cfg, v, run + [fl]) && MovedFromHome(cfg, v, run + [fl], p)
  {
    GivenPageInOnePlace(cfg, v, run, p);
    GiveHeadersInRuns(cfg, v, run);
    MovedStep(cfg, v, GiveAfter(cfg, v, run), fl, p, p % 2, 1 - p % 2, GivePlaceAfter(cfg, v, run, p));
    OneMoreGive(cfg, v, run, fl);
    assert (run + [fl])[..|run|] == run;
  }

  lemma AllMovedOnceNext(cfg: Config, v: Variant, run: seq<GiveLabel>, fl: GiveLabel)
    requires ValidConfig(cfg) && GiveLegal(cfg, v, run) && GiveInStep(run) && cfg.nodes == 2
    requires v.unmapsFirst && v.waitsForOwnership && !v.recordsGrant
    requires AllMovedOnce(cfg, v, run) && GiveEnabled(cfg, v, GiveAfter(cfg, v, run), fl)
    ensures GiveLegal(cfg, v, run + [fl]) && AllMovedOnce(cfg, v, run + [fl]) && !ReadsOn(fl)
  {
    var f := GiveAfter(cfg, v, run);
    OneMoreGive(cfg, v, run, fl);
    assert (run + [fl])[..|run|] == run;
    if fl.Coarse? {
      OnlyPlainSteps(cfg, v, run, fl.l);
    }
    GiveHeadersInRuns(cfg, v, run);
    NoNewsNext(cfg, v, f, fl);
    forall p: nat | p < cfg.pages { MovedNext(cfg, v, run, fl, p); }
  }

  /** Two nodes, the page unmapped first, handlers that wait, grants not recorded: pages move once,
      so no daemon ever faults and nothing is misread. */
  lemma {:induction false} PagesMoveOnce(cfg: Config, v: Variant, run: seq<GiveLabel>)
    requires ValidConfig(cfg) && GiveLegal(cfg, v, run) && cfg.nodes == 2
    requires v.unmapsFirst && v.waitsForOwnership && !v.recordsGrant
    ensures GiveInStep(run) && AllMovedOnce(cfg, v, run)
  {
    if run == [] {
    } else {
      var before, fl := run[..|run| - 1], run[|run| - 1];
      PagesMoveOnce(cfg, v, before);
      AllMovedOnceNext(cfg, v, before, fl);
      GiveInStepLast(run);
      assert before + [fl] == run;
    }
  }

  // ---------------------------------------------------------------- as meant, with the page unmapped first

  lemma OneMoreWritten(run: seq<GiveLabel>, fl: GiveLabel, p: nat, off: nat)
    requires !(fl.Coarse? && fl.l.AppWrite?)
    ensures LastWritten(Accesses(run + [fl]), p, off) == LastWritten(Accesses(run), p, off)
  {
    OneMoreAccess(run, fl);
    if fl.Coarse? {
      LastWrittenAfter(Accesses(run), fl.l, p, off);
    } else {
      assert Accesses(run) + [] == Accesses(run);
    }
  }

  /** Node 0 writes page 0 before anything else happens. */
  function Written(): seq<GiveLabel> {
    [Coarse(AppWrite(0, 0, 0, 7))]
  }

  lemma WritesFirst(cfg: Config, v: Variant)
    requires ValidConfig(cfg) && cfg.nodes >= 2 && cfg.pages >= 1 && cfg.pageSize >= 1
    ensures GiveLegal(cfg, v, Written()) && Untouched(cfg, GiveAfter(cfg, v, Written()))
    ensures LastWritten(Accesses(Written()), 0, 0) == 7
  {
    var write := AppWrite(0, 0, 0, 7);
    FirstHome(cfg);
    assert Enabled(cfg, v, Init(cfg), write);
    OneMoreGive(cfg, v, [], Coarse(write));
    assert [] + [Coarse(write)] == Written();
    OneMoreAccess([], Coarse(write));
    LastWrittenAfter([], write, 0, 0);
    assert [] + [write] == [write];
  }

  /** The request of its thread overtakes the page that node 0 gives; the daemon of node 1 faults,
      and node 0, once it has given the page, misreads the header. */
  function Overtaken(stale: Page): seq<GiveLabel> {
    Overtaking(Written()) + [Coarse(DaemonFault(0, 1, 0, 0))] + [Finish(0)]
    + [Coarse(Misread(1, 0, 0, 0, stale))]
  }

  lemma OvertakenIsWritten(stale: Page)
    requires LastWritten(Accesses(Written()), 0, 0) == 7
    ensures LastWritten(Accesses(Overtaken(stale)), 0, 0) == 7
  {
    var run := Written();
    var asked := run + [Coarse(Fault(1, 0, 0))];
    var taken := asked + [CopyOut(1, 0, 0)];
    var wanted := taken + [Coarse(Fault(0, 0, 1))];
    var faulted := Overtaking(run) + [Coarse(DaemonFault(0, 1, 0, 0))];
    OneMoreWritten(run, Coarse(Fault(1, 0, 0)), 0, 0);
    OneMoreWritten(asked, CopyOut(1, 0, 0), 0, 0);
    OneMoreWritten(taken, Coarse(Fault(0, 0, 1)), 0, 0);
    OneMoreWritten(wanted, Ship(0, 1, 0), 0, 0);
    OneMoreWritten(Overtaking(run), Coarse(DaemonFault(0, 1, 0, 0)), 0, 0);
    OneMoreWritten(faulted, Finish(0), 0, 0);
    OneMoreWritten(faulted + [Finish(0)], Coarse(Misread(1, 0, 0, 0, stale)), 0, 0);
  }

  lemma OvertakenIsMisread(cfg: Config, v: Variant, stale: Page)
    requires ValidConfig(cfg) && cfg.nodes >= 2 && cfg.pages >= 1 && cfg.pageSize >= 1 && |stale| == cfg.pageSize
    requires AsMeant(v) && v.unmapsFirst
    ensures GiveLegal(cfg, v, Overtaken(stale))
    ensures var f := GiveAfter(cfg, v, Overtaken(stale));
            && 0 in f.base.nodes[0].mapped && f.base.nodes[0].mapped[0] == Mangled(0, stale)
            && (f.base.nodes[0].app.Running? || TestHolds(v, 0, f.base.nodes[0]))
            && (v.wakesAtOnce ==> f.base.nodes[0].app.Running?)
  {
    var faulted := Overtaking(Written()) + [Coarse(DaemonFault(0, 1, 0, 0))];
    WritesFirst(cfg, v);
    OvertakenFaults(cfg, v, Written());
    OneMoreGive(cfg, v, faulted, Finish(0));
    OneMoreGive(cfg, v, faulted + [Finish(0)], Coarse(Misread(1, 0, 0, 0, stale)));
  }

  /** Two nodes, everything as meant and the page unmapped first: node 0 reads the number of a page
      where it wrote. */
  lemma WriteIsMisread(cfg: Config, v: Variant, stale: Page) returns (run: seq<GiveLabel>)
    requires ValidConfig(cfg) && cfg.nodes >= 2 && cfg.pages >= 1 && cfg.pageSize >= 1 && |stale| == cfg.pageSize
    requires AsMeant(v) && v.unmapsFirst
    ensures GiveLegal(cfg, v, run + [Coarse(AppRead(0, 0, 0, 0))]) && LastWritten(Accesses(run), 0, 0) == 7
  {
    run := Overtaken(stale);
    OvertakenIsMisread(cfg, v, stale);
    WritesFirst(cfg, v);
    OvertakenIsWritten(stale);
    if !GiveAfter(cfg, v, run).base.nodes[0].app.Running? {
      OneMoreGive(cfg, v, run, Coarse(Spin(0)));
      OneMoreWritten(run, Coarse(Spin(0)), 0, 0);
      run := run + [Coarse(Spin(0))];
    }
    OneMoreGive(cfg, v, run, Coarse(AppRead(0, 0, 0, 0)));
  }

  /** So neither order will do as meant: one lets two nodes touch a page, the other lets a daemon
      fault. */
  lemma NeitherOrderWillDo(cfg: Config, v: Variant) returns (run: seq<GiveLabel>)
    requires ValidConfig(cfg) && cfg.nodes >= 2 && cfg.pages >= 1 && cfg.pageSize >= 1 && AsMeant(v)
    ensures GiveLegal(cfg, v, run)
    ensures var s := GiveAfter(cfg, v, run).base;
            (CanAccess(cfg, s, 0, 0, 0) && CanAccess(cfg, s, 1, 0, 0)) || !AllServing(s)
  {
    if v.unmapsFirst {
      OvertakenFaults(cfg, v, []);
      run := Overtaking([]) + [Coarse(DaemonFault(0, 1, 0, 0))];
    } else {
      run := LostWrite(cfg, v);
    }
  }

  // ---------------------------------------------------------------- reads, in all runs

  /** A run that reads something else than the last value written, for every variant and number of
      nodes that is not in `FlatMemoryIff`. */
  lemma WrongRead(cfg: Config, v: Variant) returns (run: seq<GiveLabel>, l: Label)
    requires ValidConfig(cfg) && cfg.nodes >= 2 && cfg.pages >= 3 && cfg.pageSize >= 1
    requires !(v.unmapsFirst && v.waitsForOwnership && !v.recordsGrant && cfg.nodes <= 2)
    ensures GiveLegal(cfg, v, run + [Coarse(l)]) && l.AppRead?
    ensures l.val != LastWritten(Accesses(run), l.page, l.off)
  {
    if !v.unmapsFirst {
      run := LostWrite(cfg, v);
      l := AppRead(1, 0, 0, 0);
    } else if cfg.nodes > 2 {
      var atomic := TwoTouchOnePage(cfg, v, Zeros(cfg.pageSize));
      l := AppRead(2, 0, 0, 2);
      run := ReadInSteps(cfg, v, atomic, l);
    } else if !v.waitsForOwnership {
      var atomic;
      atomic, l := WriteIsOverwritten(cfg, v, Zeros(cfg.pageSize));
      run := ReadInSteps(cfg, v, atomic, l);
    } else {
      run := WriteIsMisread(cfg, v, Zeros(cfg.pageSize));
      l := AppRead(0, 0, 0, 0);
    }
  }

  /** A read of the atomic system, in its steps. */
  lemma ReadInSteps(cfg: Config, v: Variant, atomic: seq<Label>, l: Label) returns (run: seq<GiveLabel>)
    requires ValidConfig(cfg) && Legal(cfg, v, atomic + [l]) && l.AppRead?
    ensures GiveLegal(cfg, v, run + [Coarse(l)])
    ensures LastWritten(Accesses(run), l.page, l.off) == LastWritten(atomic, l.page, l.off)
  {
    assert (atomic + [l])[..|atomic|] == atomic;
    run := Stepwise(atomic);
    AtomicRunsAreFine(cfg, v, atomic);
    OneMoreGive(cfg, v, run, Coarse(l));
    SameWrites(atomic, l.page, l.off);
  }

  /** Whatever happens, the steps of a give included, every read returns the last value written:
      exactly with two nodes, the page unmapped first, handlers that wait for ownership, and grants
      not recorded. So never with everything as the rest of the program needs it. */
  lemma FlatMemoryIff(cfg: Config, v: Variant)
    requires ValidConfig(cfg) && cfg.nodes >= 2 && cfg.pages >= 3 && cfg.pageSize >= 1
    ensures v.unmapsFirst && v.waitsForOwnership && !v.recordsGrant && cfg.nodes <= 2
            <==> forall run, l: Label | GiveLegal(cfg, v, run + [Coarse(l)]) && l.AppRead? ::
                   l.val == LastWritten(Accesses(run), l.page, l.off)
  {
    if v.unmapsFirst && v.waitsForOwnership && !v.recordsGrant && cfg.nodes <= 2 {
      forall run, l: Label | GiveLegal(cfg, v, run + [Coarse(l)]) && l.AppRead?
        ensures l.val == LastWritten(Accesses(run), l.page, l.off)
      {
        var full := run + [Coarse(l)];
        assert full[..|full| - 1] == run;
        PagesMoveOnce(cfg, v, full);
        GiveInStepLast(full);
        UnmappingFirstIsCareful(cfg, v, full);
        CarefulReadsReturnLastWrite(cfg, v, run, l);
      }
    } else {
      var run, l := WrongRead(cfg, v);
    }
  }

  // ---------------------------------------------------------------- daemons that go on serving

  /** A misreading leaves a daemon stuck. */
  lemma MisreadMeansStuck(cfg: Config, v: Variant, run: seq<Label>)
    requires ValidConfig(cfg) && Legal(cfg, v, run) && !InStep(run)
    ensures !AllServing(After(cfg, v, run))
  {
    var x, y := ScrapStays(cfg, v, run);
    var s := After(cfg, v, run);
    HeadersInRuns(cfg, v, run);
    assert SenderIsStuck(s.nodes[x].daemon, y, s.links[x][y]);
    assert s.links[x][y][0] in s.links[x][y];
  }

  /** A run in which a daemon faults, for every variant and number of nodes not in `ServingIff`. */
  lemma FaultingRun(cfg: Config, v: Variant) returns (run: seq<GiveLabel>)
    requires ValidConfig(cfg) && cfg.nodes >= 2 && cfg.pages >= 3 && cfg.pageSize >= 1
    requires !(v.waitsForOwnership && !(v.recordsGrant && v.unmapsFirst) && cfg.nodes <= 2)
    ensures GiveLegal(cfg, v, run) && !AllServing(GiveAfter(cfg, v, run).base)
  {
    if cfg.nodes > 2 || !v.waitsForOwnership {
      var atomic;
      if cfg.nodes > 2 {
        atomic := TwoTouchOnePage(cfg, v, Zeros(cfg.pageSize));
      } else {
        var l;
        atomic, l := WriteIsOverwritten(cfg, v, Zeros(cfg.pageSize));
      }
      MisreadMeansStuck(cfg, v, atomic);
      AtomicRunsAreFine(cfg, v, atomic);
      run := Stepwise(atomic);
    } else {
      OvertakenFaults(cfg, v, []);
      run := Overtaking([]) + [Coarse(DaemonFault(0, 1, 0, 0))];
    }
  }

  /** With the steps of a give no daemon ever faults, and every run is in step: exactly with two
      nodes whose handlers wait for ownership, and not both grants recorded and the page unmapped
      first. */
  lemma ServingIff(cfg: Config, v: Variant)
    requires ValidConfig(cfg) && cfg.nodes >= 2 && cfg.pages >= 3 && cfg.pageSize >= 1
    ensures v.waitsForOwnership && !(v.recordsGrant && v.unmapsFirst) && cfg.nodes <= 2
            <==> forall run | GiveLegal(cfg, v, run) :: AllServing(GiveAfter(cfg, v, run).base) && GiveInStep(run)
  {
    if v.waitsForOwnership && !(v.recordsGrant && v.unmapsFirst) && cfg.nodes <= 2 {
      forall run | GiveLegal(cfg, v, run)
        ensures AllServing(GiveAfter(cfg, v, run).base) && GiveInStep(run)
      {
        if v.unmapsFirst {
          PagesMoveOnce(cfg, v, run);
        } else {
          WrittenOrderServes(cfg, v, run);
          WrittenOrderInStep(cfg, v, run);
        }
      }
    } else {
      var run := FaultingRun(cfg, v);
    }
  }
}
