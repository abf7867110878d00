/**
 Which of the disputed lines each property needs, and how many nodes it allows. dsm.c as
 written neither records a grant in the giver's table nor waits for ownership, and its handler
 spins in its own thread; here every guarantee of the protocol that depends on those lines is
 shown to hold exactly for the variants that have them, with a run that breaks it for each of
 the others. Giving is one step here; FineRouting.dfy and FineMisreading.dfy have its steps. In
 runs in step single copy and flat memory need none of these lines; which lines keep every run
 in step is in Misreading.dfy.
 */
module Variants {
  import opened Basics
  import opened Protocol
  import opened Traffic
  import opened SingleCopy
  import opened FlatMemory
  import opened Requests
  import opened OwnerHints
  import opened TwoNodes

  // ---------------------------------------------------------------- runs that break things

  /** Node 1 asks node 0 for page 0. */
  function Asking(): Label {
    Fault(1, 0, 0)
  }

  /** Node 0 gives it. */
  function Giving(): Label {
    Deliver(1, 0, PageRequest(0))
  }

  lemma AskingIsLegal(cfg: Config, v: Variant)
    requires ValidConfig(cfg) && cfg.nodes >= 2 && cfg.pages >= 1
    ensures Legal(cfg, v, [Asking()])
    ensures After(cfg, v, [Asking()]) == Next(cfg, v, Init(cfg), Asking())
  {
    OneMore(cfg, v, [], Asking());
    assert [] + [Asking()] == [Asking()];
  }

  /** A giver that keeps its own name in the table. */
  lemma ForgottenGrant(cfg: Config, v: Variant)
    requires ValidConfig(cfg) && cfg.nodes >= 2 && cfg.pages >= 1 && !v.recordsGrant
    ensures Legal(cfg, v, [Asking(), Giving()])
    ensures var s := After(cfg, v, [Asking(), Giving()]);
            && s.nodes[0].table[0].owner == 0 && 0 !in s.nodes[0].mapped
            && s.nodes[0].app.Running?
            && (forall x: nat | x < cfg.nodes :: s.links[x][0] == [])
            && s.links[0][0] == []
  {
    AskingIsLegal(cfg, v);
    OneMore(cfg, v, [Asking()], Giving());
    assert [Asking()] + [Giving()] == [Asking(), Giving()];
  }

  /** The next access of that node asks the node itself, and the handler does not even wait
      when it is meant to wait for ownership. */
  lemma AsksItself(cfg: Config, v: Variant)
    requires ValidConfig(cfg) && cfg.nodes >= 2 && cfg.pages >= 1 && !v.recordsGrant
    ensures Legal(cfg, v, [Asking(), Giving(), Fault(0, 0, 0)])
    ensures var s := After(cfg, v, [Asking(), Giving(), Fault(0, 0, 0)]);
            && s.links[0][0] == [PageRequest(0)] && s.nodes[0].daemon.Serving?
            && (s.nodes[0].app.Running? <==> v.waitsForOwnership && v.wakesAtOnce)
  {
    ForgottenGrant(cfg, v);
    OneMore(cfg, v, [Asking(), Giving()], Fault(0, 0, 0));
    assert [Asking(), Giving()] + [Fault(0, 0, 0)] == [Asking(), Giving(), Fault(0, 0, 0)];
  }

  /** Node 1 asks, and its handler returns as soon as it tests the table. */
  function AskingInVain(v: Variant): seq<Label> {
    if v.wakesAtOnce then [Asking()] else [Asking()] + [Spin(1)]
  }

  lemma ReturnsAtOnce(cfg: Config, v: Variant)
    requires ValidConfig(cfg) && cfg.nodes >= 2 && cfg.pages >= 1 && !v.waitsForOwnership
    ensures Legal(cfg, v, AskingInVain(v))
    ensures var s := After(cfg, v, AskingInVain(v));
            && s.nodes[1] == InitialNode(cfg, 1) && s.nodes[0] == InitialNode(cfg, 0)
            && s.links[1][0] == [PageRequest(0)] && s.links[0][1] == []
  {
    AskingIsLegal(cfg, v);
    if !v.wakesAtOnce {
      OneMore(cfg, v, [Asking()], Spin(1));
    }
  }

  /** A handler that returns at once asks again, and the second request finds the page gone. */
  lemma AsksTwice(cfg: Config, v: Variant)
    requires ValidConfig(cfg) && cfg.nodes >= 2 && cfg.pages >= 1 && !v.waitsForOwnership
    ensures var run := AskingInVain(v) + [Asking()] + [Giving()];
            && Legal(cfg, v, run)
            && After(cfg, v, run).links[1][0] == [PageRequest(0)]
            && 0 !in After(cfg, v, run).nodes[0].mapped
  {
    ReturnsAtOnce(cfg, v);
    OneMore(cfg, v, AskingInVain(v), Asking());
    OneMore(cfg, v, AskingInVain(v) + [Asking()], Giving());
  }

  /** Page 0 reaches node 1. */
  function Arriving(cfg: Config): Label {
    Deliver(0, 1, SendPage(0, Zeros(cfg.pageSize)))
  }

  /** A thread that spins has what it asked for before it sees so. */
  lemma SlowToSee(cfg: Config, v: Variant)
    requires ValidConfig(cfg) && cfg.nodes >= 2 && cfg.pages >= 1 && !v.wakesAtOnce
    ensures Legal(cfg, v, [Asking()] + [Giving()] + [Arriving(cfg)])
    ensures var s := After(cfg, v, [Asking()] + [Giving()] + [Arriving(cfg)]);
            && s.nodes[1].app == Waiting(0) && s.nodes[1].daemon.Serving?
            && s.nodes[0].app.Running? && 0 !in s.nodes[0].mapped
            && (v.recordsGrant ==> s.nodes[0].table[0].owner == 1)
            && (forall y: nat | y < cfg.nodes :: s.links[1][y] == [])
            && (forall x: nat | x < cfg.nodes :: s.links[x][1] == [])
  {
    AskingIsLegal(cfg, v);
    OneMore(cfg, v, [Asking()], Giving());
    var s := After(cfg, v, [Asking()] + [Giving()]);
    assert s.links[0][1] == [SendPage(0, Zeros(cfg.pageSize))];
    OneMore(cfg, v, [Asking()] + [Giving()], Arriving(cfg));
  }

  // ---------------------------------------------------------------- exact conditions

  /** No run puts a message on a node's link to itself, exactly when grants are recorded. */
  lemma NobodyAsksItselfIff(cfg: Config, v: Variant)
    requires ValidConfig(cfg) && cfg.nodes >= 2 && cfg.pages >= 1
    ensures v.recordsGrant
            <==> forall run, i: nat | Legal(cfg, v, run) && i < cfg.nodes :: After(cfg, v, run).links[i][i] == []
  {
    if v.recordsGrant {
      forall run, i: nat | Legal(cfg, v, run) && i < cfg.nodes
        ensures After(cfg, v, run).links[i][i] == []
      {
        NeverSelfInRuns(cfg, v, run);
      }
    } else {
      AsksItself(cfg, v);
      var run := [Asking(), Giving(), Fault(0, 0, 0)];
      assert After(cfg, v, run).links[0][0] != [];
    }
  }

  /** A node whose application thread waits is owed one request or page, any other none. */
  ghost predicate Balanced(cfg: Config, s: State)
    requires Shaped(cfg, s)
  {
    forall i: nat | i < cfg.nodes :: Debt(cfg, s, i) == if s.nodes[i].app.Running? then 0 else 1
  }

  /** The same with the daemons' own faults counted, and misreadings made up for. */
  ghost predicate ThreadsBalanced(cfg: Config, s: State, run: seq<Label>)
    requires Shaped(cfg, s)
  {
    forall i: nat | i < cfg.nodes :: Accounted(cfg, s, run, i)
  }

  lemma {:induction false} NoColumnCost(w: Weight, links: Links, i: nat)
    requires forall x | 0 <= x < |links| :: i < |links[x]| && links[x][i] == []
    ensures ColumnCost(w, links, i) == 0
  {
    if links == [] {
    } else {
      NoColumnCost(w, links[1..], i);
    }
  }

  lemma UnbalancedByRequest(cfg: Config, s: State, run: seq<Label>, i: nat, y: nat)
    requires Shaped(cfg, s) && i < cfg.nodes && y < cfg.nodes && InStep(run)
    requires s.nodes[i].app.Running? && PageRequest(0) in s.links[i][y]
    ensures !Balanced(cfg, s)
    ensures s.nodes[i].daemon.Serving? ==> !ThreadsBalanced(cfg, s, run)
  {
    RowCostBound(AnyRequest, s.links[i], y);
    CostOfMember(AnyRequest, s.links[i][y], PageRequest(0));
    NobodyFooled(run, i);
    assert s.nodes[i].daemon.Serving? ==> !Accounted(cfg, s, run, i);
  }

  lemma UnbalancedBySpinning(cfg: Config, v: Variant)
    requires ValidConfig(cfg) && cfg.nodes >= 2 && cfg.pages >= 1 && !v.wakesAtOnce
    ensures var run := [Asking()] + [Giving()] + [Arriving(cfg)];
            && Legal(cfg, v, run)
            && !Balanced(cfg, After(cfg, v, run)) && !ThreadsBalanced(cfg, After(cfg, v, run), run)
  {
    SlowToSee(cfg, v);
    var run := [Asking()] + [Giving()] + [Arriving(cfg)];
    var s := After(cfg, v, run);
    RowCostOne(AnyRequest, s.links[1], -1, 0);
    NoColumnCost(AnyPage, s.links, 1);
    assert Debt(cfg, s, 1) == 0;
    NobodyFooled(run, 1);
    assert !Accounted(cfg, s, run, 1);
  }

  /** Where the lines are not as meant, some two nodes have a request nobody waits for, or wait
      for nothing that is under way. */
  lemma UnbalancedRun(cfg: Config, v: Variant) returns (run: seq<Label>)
    requires ValidConfig(cfg) && cfg.nodes >= 2 && cfg.pages >= 1 && !(AsMeant(v) && v.wakesAtOnce)
    ensures Legal(cfg, v, run)
    ensures !Balanced(cfg, After(cfg, v, run)) && !ThreadsBalanced(cfg, After(cfg, v, run), run)
  {
    if !v.wakesAtOnce {
      run := [Asking()] + [Giving()] + [Arriving(cfg)];
      UnbalancedBySpinning(cfg, v);
    } else if !v.waitsForOwnership {
      run := AskingInVain(v);
      ReturnsAtOnce(cfg, v);
      UnbalancedByRequest(cfg, After(cfg, v, run), run, 1, 0);
    } else {
      run := [Asking(), Giving(), Fault(0, 0, 0)];
      AsksItself(cfg, v);
      UnbalancedByRequest(cfg, After(cfg, v, run), run, 0, 0);
    }
  }

  /** With daemons counted, request accounting holds for any number of nodes, exactly when
      ownership is recorded, waited for and seen at once. */
  lemma ThreadsBalancedIff(cfg: Config, v: Variant)
    requires ValidConfig(cfg) && cfg.nodes >= 2 && cfg.pages >= 1
    ensures AsMeant(v) && v.wakesAtOnce
            <==> forall run | Legal(cfg, v, run) :: ThreadsBalanced(cfg, After(cfg, v, run), run)
  {
    if AsMeant(v) && v.wakesAtOnce {
      forall run | Legal(cfg, v, run)
        ensures ThreadsBalanced(cfg, After(cfg, v, run), run)
      {
        forall i: nat | i < cfg.nodes { OneThingPerWaitingThread(cfg, v, run, i); }
      }
    } else {
      var run := UnbalancedRun(cfg, v);
    }
  }

  /** For the application threads alone it also needs that no daemon ever faults, hence at most
      two nodes. */
  lemma BalancedIff(cfg: Config, v: Variant)
    requires ValidConfig(cfg) && cfg.nodes >= 2 && cfg.pages >= 1
    ensures AsMeant(v) && v.wakesAtOnce && cfg.nodes <= 2
            <==> forall run | Legal(cfg, v, run) :: Balanced(cfg, After(cfg, v, run))
  {
    if !(AsMeant(v) && v.wakesAtOnce) {
      var run := UnbalancedRun(cfg, v);
    } else if cfg.nodes > 2 {
      DaemonAsks(cfg, v);
      UnbalancedByRequest(cfg, After(cfg, v, DaemonAsking()), DaemonAsking(), 0, 1);
    } else {
      forall run | Legal(cfg, v, run)
        ensures Balanced(cfg, After(cfg, v, run))
      {
        TwoNodeRouting(cfg, v, run);
        forall i: nat | i < cfg.nodes
          ensures Debt(cfg, After(cfg, v, run), i) == if After(cfg, v, run).nodes[i].app.Running? then 0 else 1
        {
          OneThingPerWaitingThread(cfg, v, run, i);
          NobodyFooled(run, i);
        }
      }
    }
  }

  /** Tables converge in every run in step that makes one transfer at a time, exactly when grants
      are recorded. */
  lemma ConvergingIff(cfg: Config, v: Variant)
    requires ValidConfig(cfg) && cfg.nodes >= 2 && cfg.pages >= 1
    ensures v.recordsGrant
            <==> forall run, p: nat
                   | Legal(cfg, v, run) && InStep(run) && p < cfg.pages && OneTransferAtATime(cfg, v, run, p) ::
                   Converging(cfg, After(cfg, v, run), p, LastGrantee(cfg, run, p))
  {
    if v.recordsGrant {
      forall run, p: nat | Legal(cfg, v, run) && InStep(run) && p < cfg.pages && OneTransferAtATime(cfg, v, run, p)
        ensures Converging(cfg, After(cfg, v, run), p, LastGrantee(cfg, run, p))
      {
        ConvergingInRuns(cfg, v, run, p);
      }
    } else {
      var run := [Asking(), Giving()];
      ForgottenGrant(cfg, v);
      OneTransferInForgottenGrant(cfg, v);
      assert LastGrantee(cfg, run, 0) == 1;
      assert !NewsFor(cfg, After(cfg, v, run), 0, 0);
      assert !KnowsOrWillHear(cfg, After(cfg, v, run), 0, 1, 0);
      assert !Converging(cfg, After(cfg, v, run), 0, 1);
    }
  }

  lemma OneTransferInForgottenGrant(cfg: Config, v: Variant)
    requires ValidConfig(cfg) && cfg.nodes >= 2 && cfg.pages >= 1 && !v.recordsGrant
    requires Legal(cfg, v, [Asking(), Giving()])
    ensures OneTransferAtATime(cfg, v, [Asking(), Giving()], 0)
  {
    var run := [Asking(), Giving()];
    AskingIsLegal(cfg, v);
    assert run[..1] == [Asking()];
    assert [Asking()][..0] == [];
    var s := After(cfg, v, [Asking()]);
    CostOfSingleton(NewsOf(0), PageRequest(0));
    assert Settled(cfg, s, 0);
    var first := [Asking()];
    assert !Grants(first[|first| - 1], 0);
    assert OneTransferAtATime(cfg, v, first, 0);
  }

  // ---------------------------------------------------------------- routing with two nodes

  /** When grants are not recorded but the handler waits, a page moves at most once: from its
      home h to the other node o, on o's one request. Its home keeps naming itself. */
  ghost predicate MovesOnce(cfg: Config, s: State, p: nat, h: nat, o: nat, pl: Place)
    requires Shaped(cfg, s) && cfg.nodes == 2 && p < cfg.pages && h < 2 && o < 2
  {
    && (pl == At(h) || pl == OnLink(h, o) || pl == At(o))
    && s.nodes[h].table[p].owner == h
    && s.nodes[o].table[p].owner == (if pl == At(o) then o else h)
    && (pl == OnLink(h, o) ==> s.nodes[o].app == Waiting(p))
    && QueueCost(RequestFor(p), s.links[h][o]) == 0
    && QueueCost(RequestFor(p), s.links[o][h])
       <= (if pl == At(h) && s.nodes[o].app == Waiting(p) then 1 else 0)
  }

  /** Only the two moves allowed are possible. */
  lemma MovesOnceMove(cfg: Config, v: Variant, s: State, l: Label, p: nat, h: nat, o: nat, pl: Place)
    requires Shaped(cfg, s) && cfg.nodes == 2 && p < cfg.pages && Enabled(cfg, v, s, l)
    requires h < 2 && o < 2 && h != o
    requires OnlyAt(cfg, s, p, pl) && MovesOnce(cfg, s, p, h, o, pl)
    requires l.Deliver? && !l.msg.SendInfo? && l.msg.page == p
    ensures l.msg.SendPage? ==> pl == OnLink(h, o) && l.src == h && l.dst == o
    ensures l.msg.PageRequest? ==> pl == At(h) && l.src == o && l.dst == h && s.nodes[o].app == Waiting(p)
  {
    CostOfMember(RequestFor(p), s.links[l.src][l.dst], l.msg);
    CostOfMember(CopyOf(p), s.links[l.src][l.dst], l.msg);
  }

  lemma MovesOncePlace(cfg: Config, v: Variant, s: State, l: Label, p: nat, h: nat, o: nat, pl: Place)
    requires Shaped(cfg, s) && cfg.nodes == 2 && p < cfg.pages && Enabled(cfg, v, s, l)
    requires h < 2 && o < 2 && h != o && OnlyAt(cfg, s, p, pl) && MovesOnce(cfg, s, p, h, o, pl)
    requires !l.Misread? && (l.Deliver? ==> !l.msg.SendInfo?)
    ensures var pl' := NextPlace(l, p, pl);
            && (pl' == pl || (pl == At(h) && pl' == OnLink(h, o)) || (pl == OnLink(h, o) && pl' == At(o)))
            && (pl' == At(o) && pl != At(o) ==> l.Deliver? && l.dst == o && l.msg.SendPage? && l.msg.page == p)
            && (l.Deliver? && l.msg.SendPage? && l.msg.page == p ==> l.dst == o && pl' == At(o))
  {
    if l.Deliver? && l.msg.page == p {
      MovesOnceMove(cfg, v, s, l, p, h, o, pl);
    }
  }

  lemma MovesOnceTables(cfg: Config, v: Variant, s: State, l: Label, p: nat, h: nat, o: nat, pl: Place)
    requires Shaped(cfg, s) && cfg.nodes == 2 && p < cfg.pages && Enabled(cfg, v, s, l)
    requires !v.recordsGrant && h < 2 && o < 2 && h != o
    requires OnlyAt(cfg, s, p, pl) && MovesOnce(cfg, s, p, h, o, pl)
    requires !l.Misread? && (l.Deliver? ==> !l.msg.SendInfo?)
    ensures var s', pl' := Next(cfg, v, s, l), NextPlace(l, p, pl);
            && s'.nodes[h].table[p].owner == h
            && s'.nodes[o].table[p].owner == (if pl' == At(o) then o else h)
  {
    MovesOncePlace(cfg, v, s, l, p, h, o, pl);
  }

  lemma MovesOnceWait(cfg: Config, v: Variant, s: State, l: Label, p: nat, h: nat, o: nat, pl: Place)
    requires Shaped(cfg, s) && cfg.nodes == 2 && p < cfg.pages && Enabled(cfg, v, s, l)
    requires v.waitsForOwnership && !v.recordsGrant && h < 2 && o < 2 && h != o
    requires OnlyAt(cfg, s, p, pl) && MovesOnce(cfg, s, p, h, o, pl)
    requires !l.Misread? && (l.Deliver? ==> !l.msg.SendInfo?)
    ensures var app, pl' := Next(cfg, v, s, l).nodes[o].app, NextPlace(l, p, pl);
            && (pl' == OnLink(h, o) ==> app == Waiting(p))
            && (s.nodes[o].app == Waiting(p) && pl == At(h) && pl' == At(h) ==> app == Waiting(p))
            && (l == Fault(o, p, h) ==> pl == At(h) && app == Waiting(p))
  {
    if l.Deliver? && l.msg.page == p {
      MovesOnceMove(cfg, v, s, l, p, h, o, pl);
    }
  }

  /** The home never asks the other node. */
  lemma HomeAsksNobody(cfg: Config, v: Variant, s: State, l: Label, p: nat, h: nat, o: nat, pl: Place)
    requires Shaped(cfg, s) && cfg.nodes == 2 && p < cfg.pages && Enabled(cfg, v, s, l) && !l.Misread?
    requires h < 2 && o < 2 && h != o && OnlyAt(cfg, s, p, pl) && MovesOnce(cfg, s, p, h, o, pl)
    ensures QueueCost(RequestFor(p), Next(cfg, v, s, l).links[h][o]) == 0
  {
    LinkCost(cfg, v, s, l, RequestFor(p), h, o);
  }

  /** The other node asks once, while it waits and the page is at home. */
  lemma OtherAsksOnce(cfg: Config, v: Variant, s: State, l: Label, p: nat, h: nat, o: nat, pl: Place)
    requires Shaped(cfg, s) && cfg.nodes == 2 && p < cfg.pages && Enabled(cfg, v, s, l)
    requires v.waitsForOwnership && !v.recordsGrant && h < 2 && o < 2 && h != o
    requires OnlyAt(cfg, s, p, pl) && MovesOnce(cfg, s, p, h, o, pl)
    requires !l.Misread? && (l.Deliver? ==> !l.msg.SendInfo?)
    ensures QueueCost(RequestFor(p), Next(cfg, v, s, l).links[o][h])
            <= if NextPlace(l, p, pl) == At(h) && Next(cfg, v, s, l).nodes[o].app == Waiting(p) then 1 else 0
  {
    MovesOnceWait(cfg, v, s, l, p, h, o, pl);
    if l.Deliver? && l.msg.page == p {
      MovesOnceMove(cfg, v, s, l, p, h, o, pl);
    }
    LinkCost(cfg, v, s, l, RequestFor(p), o, h);
  }

  lemma MovesOnceStep(cfg: Config, v: Variant, s: State, l: Label, p: nat, h: nat, o: nat, pl: Place)
    requires Shaped(cfg, s) && cfg.nodes == 2 && p < cfg.pages && Enabled(cfg, v, s, l)
    requires v.waitsForOwnership && !v.recordsGrant && h < 2 && o < 2 && h != o
    requires OnlyAt(cfg, s, p, pl) && MovesOnce(cfg, s, p, h, o, pl)
    requires !l.Misread? && (l.Deliver? ==> !l.msg.SendInfo?)
    ensures MovesOnce(cfg, Next(cfg, v, s, l), p, h, o, NextPlace(l, p, pl))
  {
    MovesOncePlace(cfg, v, s, l, p, h, o, pl);
    MovesOnceTables(cfg, v, s, l, p, h, o, pl);
    MovesOnceWait(cfg, v, s, l, p, h, o, pl);
    HomeAsksNobody(cfg, v, s, l, p, h, o, pl);
    OtherAsksOnce(cfg, v, s, l, p, h, o, pl);
  }

  lemma NoInfosBetweenTwo(cfg: Config, v: Variant, run: seq<Label>, l: Label)
    requires ValidConfig(cfg) && Legal(cfg, v, run) && cfg.nodes == 2
    requires Enabled(cfg, v, After(cfg, v, run), l) && l.Deliver?
    ensures !l.msg.SendInfo?
  {
    HoldersKnowInRuns(cfg, v, run);
    assert l.msg in After(cfg, v, run).links[l.src][l.dst];
  }

  lemma MovesOnceNext(cfg: Config, v: Variant, run: seq<Label>, l: Label, p: nat, h: nat, o: nat)
    requires ValidConfig(cfg) && Legal(cfg, v, run) && cfg.nodes == 2 && p < cfg.pages
    requires v.waitsForOwnership && !v.recordsGrant && h < 2 && o < 2 && h != o
    requires Enabled(cfg, v, After(cfg, v, run), l) && InStep(run) && !l.Misread?
    requires MovesOnce(cfg, After(cfg, v, run), p, h, o, PlaceAfter(cfg, run, p))
    ensures MovesOnce(cfg, Next(cfg, v, After(cfg, v, run), l), p, h, o, NextPlace(l, p, PlaceAfter(cfg, run, p)))
  {
    SingleCopyInRuns(cfg, v, run, p);
    if l.Deliver? {
      NoInfosBetweenTwo(cfg, v, run, l);
    }
    MovesOnceStep(cfg, v, After(cfg, v, run), l, p, h, o, PlaceAfter(cfg, run, p));
  }

  lemma HomeAtFirst(cfg: Config, p: nat, h: nat)
    requires ValidConfig(cfg) && cfg.nodes == 2 && p < cfg.pages && h == p % 2
    ensures MovesOnce(cfg, Init(cfg), p, h, 1 - h, At(h))
  {
  }

  lemma RequestMeansHome(cfg: Config, s: State, p: nat, h: nat, o: nat, pl: Place, j: nat, i: nat)
    requires Shaped(cfg, s) && cfg.nodes == 2 && p < cfg.pages && h < 2 && o < 2 && h != o
    requires MovesOnce(cfg, s, p, h, o, pl) && i < 2 && j < 2 && i != j
    requires PageRequest(p) in s.links[j][i]
    ensures pl == At(i)
  {
    CostOfMember(RequestFor(p), s.links[j][i], PageRequest(p));
  }

  /** Every page has moved at most once. */
  ghost predicate AllMoveOnce(cfg: Config, s: State, run: seq<Label>)
    requires Shaped(cfg, s) && cfg.nodes == 2
  {
    forall p: nat | p < cfg.pages :: MovesOnce(cfg, s, p, p % 2, 1 - p % 2, PlaceAfter(cfg, run, p))
  }

  lemma RequestFindsPage(cfg: Config, v: Variant, run: seq<Label>, i: nat, j: nat, m: Message)
    requires ValidConfig(cfg) && Legal(cfg, v, run) && cfg.nodes == 2 && InStep(run)
    requires AllMoveOnce(cfg, After(cfg, v, run), run) && i < 2 && j < 2 && i != j
    requires m in After(cfg, v, run).links[j][i] && m.PageRequest?
    ensures m.page in After(cfg, v, run).nodes[i].mapped
  {
    var p := m.page;
    InRangeInRuns(cfg, v, run);
    assert MovesOnce(cfg, After(cfg, v, run), p, p % 2, 1 - p % 2, PlaceAfter(cfg, run, p));
    RequestMeansHome(cfg, After(cfg, v, run), p, p % 2, 1 - p % 2, PlaceAfter(cfg, run, p), j, i);
    SingleCopyInRuns(cfg, v, run, p);
  }

  lemma NobodyIsLate(cfg: Config, v: Variant, run: seq<Label>, l: Label)
    requires ValidConfig(cfg) && Legal(cfg, v, run) && cfg.nodes == 2 && InStep(run)
    requires Enabled(cfg, v, After(cfg, v, run), l)
    requires AllMoveOnce(cfg, After(cfg, v, run), run) && AllServing(After(cfg, v, run))
    ensures !l.Misread? && !l.DaemonFault?
  {
    ServingMisreadsNothing(cfg, v, run, l);
    if l.DaemonFault? {
      assert PageRequest(l.page) in After(cfg, v, run).links[l.src][l.dst];
      RequestFindsPage(cfg, v, run, l.dst, l.src, PageRequest(l.page));
      assert false;
    }
  }

  lemma ServingStays(cfg: Config, v: Variant, s: State, l: Label)
    requires Shaped(cfg, s) && Enabled(cfg, v, s, l) && AllServing(s) && !l.DaemonFault?
    ensures AllServing(Next(cfg, v, s, l))
  {
  }

  lemma PageMovesOnce(cfg: Config, v: Variant, run: seq<Label>, l: Label, p: nat)
    requires ValidConfig(cfg) && Legal(cfg, v, run) && cfg.nodes == 2 && InStep(run)
    requires v.waitsForOwnership && !v.recordsGrant && Enabled(cfg, v, After(cfg, v, run), l)
    requires AllMoveOnce(cfg, After(cfg, v, run), run) && AllServing(After(cfg, v, run))
    requires p < cfg.pages && !l.Misread? && !l.DaemonFault?
    ensures MovesOnce(cfg, Next(cfg, v, After(cfg, v, run), l), p, p % 2, 1 - p % 2,
                      NextPlace(l, p, PlaceAfter(cfg, run, p)))
  {
    MovesOnceNext(cfg, v, run, l, p, p % 2, 1 - p % 2);
  }

  lemma AllMoveOnceNext(cfg: Config, v: Variant, run: seq<Label>, l: Label)
    requires ValidConfig(cfg) && Legal(cfg, v, run) && cfg.nodes == 2 && InStep(run)
    requires v.waitsForOwnership && !v.recordsGrant && Enabled(cfg, v, After(cfg, v, run), l)
    requires AllMoveOnce(cfg, After(cfg, v, run), run) && AllServing(After(cfg, v, run))
    ensures !l.Misread? && AllServing(Next(cfg, v, After(cfg, v, run), l))
    ensures forall p: nat | p < cfg.pages ::
              MovesOnce(cfg, Next(cfg, v, After(cfg, v, run), l), p, p % 2, 1 - p % 2,
                        NextPlace(l, p, PlaceAfter(cfg, run, p)))
  {
    NobodyIsLate(cfg, v, run, l);
    ServingStays(cfg, v, After(cfg, v, run), l);
    forall p: nat | p < cfg.pages
      ensures MovesOnce(cfg, Next(cfg, v, After(cfg, v, run), l), p, p % 2, 1 - p % 2,
                        NextPlace(l, p, PlaceAfter(cfg, run, p)))
    {
      PageMovesOnce(cfg, v, run, l, p);
    }
  }

  /** So no request is ever late, no daemon faults and nothing is misread. */
  lemma {:induction false} MoveOnceAndServe(cfg: Config, v: Variant, run: seq<Label>)
    requires ValidConfig(cfg) && Legal(cfg, v, run) && cfg.nodes == 2
    requires v.waitsForOwnership && !v.recordsGrant
    ensures InStep(run) && AllServing(After(cfg, v, run)) && AllMoveOnce(cfg, After(cfg, v, run), run)
  {
    if run == [] {
      forall p: nat | p < cfg.pages { HomeAtFirst(cfg, p, p % 2); }
    } else {
      InStepLast(run);
      MoveOnceAndServe(cfg, v, run[..|run| - 1]);
      AllMoveOnceNext(cfg, v, run[..|run| - 1], run[|run| - 1]);
    }
  }

  lemma MovesOnceInRuns(cfg: Config, v: Variant, run: seq<Label>, p: nat)
    requires ValidConfig(cfg) && Legal(cfg, v, run) && cfg.nodes == 2 && p < cfg.pages
    requires v.waitsForOwnership && !v.recordsGrant
    ensures MovesOnce(cfg, After(cfg, v, run), p, p % 2, 1 - p % 2, PlaceAfter(cfg, run, p))
  {
    MoveOnceAndServe(cfg, v, run);
  }

  lemma RoutingWithoutRecords(cfg: Config, v: Variant, run: seq<Label>)
    requires ValidConfig(cfg) && Legal(cfg, v, run) && cfg.nodes == 2
    requires v.waitsForOwnership && !v.recordsGrant
    ensures RequestsFindPages(cfg, After(cfg, v, run)) && AllServing(After(cfg, v, run)) && InStep(run)
  {
    var s := After(cfg, v, run);
    MoveOnceAndServe(cfg, v, run);
    forall i: nat, j: nat | i < 2 && j < 2 && i != j && s.links[j][i] != [] && s.links[j][i][0].PageRequest?
      ensures s.links[j][i][0].page in s.nodes[i].mapped
    {
      RequestFindsPage(cfg, v, run, i, j, s.links[j][i][0]);
    }
  }

  /** Two nodes whose handlers wait: every request finds its page, every daemon serves, and every
      run is in step. */
  lemma WaitingTwoRoute(cfg: Config, v: Variant, run: seq<Label>)
    requires ValidConfig(cfg) && Legal(cfg, v, run) && cfg.nodes == 2 && v.waitsForOwnership
    ensures RequestsFindPages(cfg, After(cfg, v, run)) && AllServing(After(cfg, v, run)) && InStep(run)
  {
    if v.recordsGrant {
      TwoNodeRouting(cfg, v, run);
    } else {
      RoutingWithoutRecords(cfg, v, run);
    }
  }

  /** With two nodes the daemon is never blocked exactly when the handler waits for ownership:
      recording grants is not needed for this. */
  lemma RoutingIffWaits(cfg: Config, v: Variant)
    requires ValidConfig(cfg) && cfg.nodes == 2 && cfg.pages >= 1
    ensures v.waitsForOwnership
            <==> forall run | Legal(cfg, v, run) :: RequestsFindPages(cfg, After(cfg, v, run))
  {
    if v.waitsForOwnership {
      forall run | Legal(cfg, v, run)
        ensures RequestsFindPages(cfg, After(cfg, v, run))
      {
        WaitingTwoRoute(cfg, v, run);
      }
    } else {
      AsksTwice(cfg, v);
      var s := After(cfg, v, AskingInVain(v) + [Asking()] + [Giving()]);
      assert s.links[1][0][0] == PageRequest(0);
      assert !RequestsFindPages(cfg, s);
    }
  }

  // ---------------------------------------------------------------- routing with more nodes

  /** Nodes 1 and 2 ask node 0 for page 0; node 0 serves node 1. */
  function AskingAtOnce(): seq<Label> {
    [Asking()] + [Fault(2, 0, 0)] + [Giving()]
  }

  lemma TwoAskAtOnce(cfg: Config, v: Variant)
    requires ValidConfig(cfg) && cfg.nodes >= 3 && cfg.pages >= 1 && AsMeant(v)
    ensures Legal(cfg, v, AskingAtOnce())
    ensures var s := After(cfg, v, AskingAtOnce());
            && s.links[2][0] == [PageRequest(0)] && 0 !in s.nodes[0].mapped
            && s.nodes[0].app.Running? && s.nodes[0].daemon.Serving? && s.nodes[0].table[0].owner == 1
            && s.nodes[1].app == Waiting(0) && s.nodes[1].daemon.Serving? && s.nodes[1].table[0].owner == 0
            && s.links[0][1] == [SendPage(0, Zeros(cfg.pageSize))] && s.links[1][0] == []
  {
    AskingIsLegal(cfg, v);
    OneMore(cfg, v, [Asking()], Fault(2, 0, 0));
    OneMore(cfg, v, [Asking()] + [Fault(2, 0, 0)], Giving());
  }

  /** Even with both lines as meant, requests are sure to find their pages with one or two nodes
      only: with three, the slower of two requests finds the page gone. */
  lemma RoutingIffAtMostTwoNodes(cfg: Config, v: Variant)
    requires ValidConfig(cfg) && cfg.pages >= 1 && AsMeant(v)
    ensures cfg.nodes <= 2
            <==> forall run | Legal(cfg, v, run) :: RequestsFindPages(cfg, After(cfg, v, run))
  {
    if cfg.nodes == 2 {
      RoutingIffWaits(cfg, v);
    } else if cfg.nodes >= 3 {
      TwoAskAtOnce(cfg, v);
      var s := After(cfg, v, AskingAtOnce());
      assert s.links[2][0][0] == PageRequest(0);
      assert !RequestsFindPages(cfg, s);
    }
  }

  /** Serving node 2, the daemon of node 0 faults and asks node 1, though no thread of node 0
      wants the page. */
  function DaemonAsking(): seq<Label> {
    AskingAtOnce() + [DaemonFault(2, 0, 0, 1)]
  }

  lemma DaemonAsks(cfg: Config, v: Variant)
    requires ValidConfig(cfg) && cfg.nodes >= 3 && cfg.pages >= 1 && AsMeant(v)
    ensures Legal(cfg, v, DaemonAsking())
    ensures var s := After(cfg, v, DaemonAsking());
            && s.nodes[0].daemon == Stuck(2, 0) && s.nodes[0].app.Running?
            && PageRequest(0) in s.links[0][1] && PageHeader(0) in s.links[0][2]
            && s.links[0][1] == [SendPage(0, Zeros(cfg.pageSize))] + [PageRequest(0)]
            && s.links[1][0] == [] && s.nodes[1].daemon.Serving?
  {
    TwoAskAtOnce(cfg, v);
    OneMore(cfg, v, AskingAtOnce(), DaemonFault(2, 0, 0, 1));
    var s, s' := After(cfg, v, AskingAtOnce()), After(cfg, v, DaemonAsking());
    LinkAfter(cfg, v, s, DaemonFault(2, 0, 0, 1), 0, 1);
    LinkAfter(cfg, v, s, DaemonFault(2, 0, 0, 1), 0, 2);
    LinkAfter(cfg, v, s, DaemonFault(2, 0, 0, 1), 1, 0);
    var q := s'.links[0][2];
    assert q[|q| - 1] == PageHeader(0);
    var r := s'.links[0][1];
    assert r[|r| - 1] == PageRequest(0);
  }

  lemma {:induction false} OneNodeServes(cfg: Config, v: Variant, run: seq<Label>)
    requires ValidConfig(cfg) && cfg.nodes == 1 && Legal(cfg, v, run)
    ensures AllServing(After(cfg, v, run)) && InStep(run)
  {
    if run == [] {
    } else {
      InStepLast(run);
      OneNodeServes(cfg, v, run[..|run| - 1]);
    }
  }

  /** Even with both lines as meant, daemons are sure to keep serving with one or two nodes only. */
  lemma ServingIffAtMostTwoNodes(cfg: Config, v: Variant)
    requires ValidConfig(cfg) && cfg.pages >= 1 && AsMeant(v)
    ensures cfg.nodes <= 2
            <==> forall run | Legal(cfg, v, run) :: AllServing(After(cfg, v, run))
  {
    if cfg.nodes >= 3 {
      DaemonAsks(cfg, v);
      assert !AllServing(After(cfg, v, DaemonAsking()));
    } else {
      forall run | Legal(cfg, v, run)
        ensures AllServing(After(cfg, v, run))
      {
        if cfg.nodes == 2 {
          TwoNodeRouting(cfg, v, run);
        } else {
          OneNodeServes(cfg, v, run);
        }
      }
    }
  }

  // ---------------------------------------------------------------- threads that miss their page

  /** The thread of node i waits, its test does not hold, and nothing it asked for is under way. */
  ghost predicate Stranded(cfg: Config, v: Variant, run: seq<Label>, i: nat)
    requires ValidConfig(cfg) && Legal(cfg, v, run) && i < cfg.nodes
  {
    var node := After(cfg, v, run).nodes[i];
    node.app.Waiting? && !TestHolds(v, i, node) && (node.daemon.Serving? ==> PendingAfter(run, i).Idle?)
  }

  lemma StrandedStep(cfg: Config, v: Variant, s: State, l: Label, i: nat)
    requires Shaped(cfg, s) && Enabled(cfg, v, s, l) && i < cfg.nodes && AsMeant(v)
    requires s.nodes[i].app.Waiting? && !TestHolds(v, i, s.nodes[i])
    requires NeverSelf(cfg, s) && HeaderMeansStuck(cfg, s)
    requires s.nodes[i].daemon.Serving? ==> Owed(cfg, v, s, i, Idle)
    ensures Next(cfg, v, s, l).nodes[i].app == s.nodes[i].app && !TestHolds(v, i, Next(cfg, v, s, l).nodes[i])
    ensures s.nodes[i].daemon.Serving? ==> NextPending(l, i, Idle).Idle?
  {
    if l.Deliver? {
      assert l.msg in s.links[l.src][l.dst];
      if l.dst == i || l.src == i {
        if s.nodes[i].daemon.Serving? {
          DeliveredRequest(cfg, v, s, l, i, Idle);
        }
      }
    } else if l.Misread? && l.dst == i {
      assert PageHeader(l.page) in s.links[l.src][i];
      HeaderIsAwaited(cfg, v, s, l.src, i, l.page, Idle);
      assert false;
    }
  }

  lemma StrandedNext(cfg: Config, v: Variant, run: seq<Label>, l: Label, i: nat)
    requires ValidConfig(cfg) && Legal(cfg, v, run) && Enabled(cfg, v, After(cfg, v, run), l)
    requires i < cfg.nodes && AsMeant(v) && Stranded(cfg, v, run, i)
    ensures Legal(cfg, v, run + [l]) && Stranded(cfg, v, run + [l], i)
  {
    OneMore(cfg, v, run, l);
    assert (run + [l])[..|run|] == run;
    NeverSelfInRuns(cfg, v, run);
    HeadersInRuns(cfg, v, run);
    if After(cfg, v, run).nodes[i].daemon.Serving? {
      OwedInRuns(cfg, v, run, i);
    }
    StrandedStep(cfg, v, After(cfg, v, run), l, i);
  }

  lemma {:induction false} StrandedForever(cfg: Config, v: Variant, run: seq<Label>, more: seq<Label>, i: nat)
    requires ValidConfig(cfg) && Legal(cfg, v, run) && Legal(cfg, v, run + more)
    requires i < cfg.nodes && AsMeant(v) && Stranded(cfg, v, run, i)
    ensures Stranded(cfg, v, run + more, i)
  {
    if more == [] {
      assert run + more == run;
    } else {
      var most, l := more[..|more| - 1], more[|more| - 1];
      assert (run + more)[..|run + more| - 1] == run + most;
      assert run + more == run + most + [l];
      StrandedForever(cfg, v, run, most, i);
      StrandedNext(cfg, v, run + most, l, i);
    }
  }

  /** Node 0 wants its page back. */
  function TakingBack(cfg: Config): seq<Label> {
    [Asking()] + [Giving()] + [Arriving(cfg)] + [Fault(0, 0, 1)] + [Deliver(0, 1, PageRequest(0))]
  }

  /** Page 0 comes and goes before the spinning thread of node 1 looks at the table. */
  lemma MissedOwnership(cfg: Config, v: Variant)
    requires ValidConfig(cfg) && cfg.nodes >= 2 && cfg.pages >= 1 && AsMeant(v) && !v.wakesAtOnce
    ensures Legal(cfg, v, TakingBack(cfg)) && Stranded(cfg, v, TakingBack(cfg), 1)
  {
    var run := [Asking()] + [Giving()] + [Arriving(cfg)];
    SlowToSee(cfg, v);
    var s := After(cfg, v, run);
    assert s.nodes[0].app.Running? && 0 !in s.nodes[0].mapped && s.nodes[0].table[0].owner == 1;
    OneMore(cfg, v, run, Fault(0, 0, 1));
    var s1 := After(cfg, v, run + [Fault(0, 0, 1)]);
    assert s1.links[0][1] == [PageRequest(0)];
    OneMore(cfg, v, run + [Fault(0, 0, 1)], Deliver(0, 1, PageRequest(0)));
    var asked, full := run + [Fault(0, 0, 1)], TakingBack(cfg);
    assert full[..4] == asked && asked[..3] == run;
    assert PendingAfter(run, 1) == PendingAfter(asked, 1) == PendingAfter(full, 1) == Idle;
  }

  /** A thread that waits is sure to go on some day only if it sees its ownership at once. With
      two nodes, once it does, nobody is ever stranded. */
  lemma NobodyStrandedIff(cfg: Config, v: Variant)
    requires ValidConfig(cfg) && cfg.nodes == 2 && cfg.pages >= 1 && AsMeant(v)
    ensures v.wakesAtOnce
            <==> forall run, i: nat | Legal(cfg, v, run) && i < 2 :: !Stranded(cfg, v, run, i)
  {
    if v.wakesAtOnce {
      forall run, i: nat | Legal(cfg, v, run) && i < 2
        ensures !Stranded(cfg, v, run, i)
      {
        TwoNodeRouting(cfg, v, run);
        OwedInRuns(cfg, v, run, i);
      }
    } else {
      MissedOwnership(cfg, v);
    }
  }

  // ---------------------------------------------------------------- hints with more nodes

  /** Every node names the last grantee of p, or has news of p under way. */
  ghost predicate AllKnowOrWillHear(cfg: Config, s: State, p: nat, g: nat)
    requires Shaped(cfg, s) && p < cfg.pages
  {
    forall k: nat | k < cfg.nodes :: KnowsOrWillHear(cfg, s, p, g, k)
  }

  /** With two nodes there is only one other owner to name. */
  lemma TwoNodesHear(cfg: Config, run: seq<Label>, p: nat)
    requires ValidConfig(cfg) && cfg.nodes <= 2 && Legal(cfg, MEANT, run) && p < cfg.pages
    ensures AllKnowOrWillHear(cfg, After(cfg, MEANT, run), p, LastGrantee(cfg, run, p))
  {
    var s, pl, g := After(cfg, MEANT, run), PlaceAfter(cfg, run, p), LastGrantee(cfg, run, p);
    if cfg.nodes == 2 {
      TwoNodeRouting(cfg, MEANT, run);
    } else {
      OneNodeServes(cfg, MEANT, run);
    }
    SingleCopyInRuns(cfg, MEANT, run, p);
    CopyIsForLastGrantee(cfg, MEANT, run, p);
    NeverSelfInRuns(cfg, MEANT, run);
    if cfg.nodes == 2 {
      HoldersKnowInRuns(cfg, MEANT, run);
    }
    forall k: nat | k < cfg.nodes
      ensures KnowsOrWillHear(cfg, s, p, g, k)
    {
      assert s.nodes[k].table[p].owner < cfg.nodes;
      if pl.OnLink? && k == g {
        var m := CostWitness(CopyOf(p), s.links[pl.src][g]);
        CostOfMember(NewsOf(p), s.links[pl.src][g], m);
      }
    }
  }

  /** Nodes i and j are at rest, j has page 0 and i knows it. */
  ghost predicate ReadyToMove(cfg: Config, s: State, i: nat, j: nat) {
    && Shaped(cfg, s) && cfg.nodes >= 3 && cfg.pages >= 1 && i < 2 && j < 2 && i != j
    && s.nodes[i].app.Running? && s.nodes[j].app.Running?
    && s.nodes[i].daemon.Serving? && s.nodes[j].daemon.Serving?
    && s.links[i][j] == [] && s.links[j][i] == []
    && 0 !in s.nodes[i].mapped && 0 in s.nodes[j].mapped
    && s.nodes[i].table[0].owner == j
  }

  /** What a whole transfer from j to i changes for nodes 0, 1 and 2. */
  ghost predicate Moved(cfg: Config, s: State, s': State, i: nat, j: nat)
    requires ReadyToMove(cfg, s, i, j)
  {
    && ReadyToMove(cfg, s', j, i)
    && s'.nodes[i].table[0].owner == i
    && s'.nodes[2] == s.nodes[2]
    && s'.links[j][2] == s.links[j][2] + [SendInfo(0, i)]
    && s'.links[i][2] == s.links[i][2]
    && (forall x: nat | 2 <= x < cfg.nodes :: s'.links[x][2] == s.links[x][2])
  }

  /** The transfer half way: j has shipped the page and told node 2. */
  ghost predicate Shipped(cfg: Config, s: State, s': State, i: nat, j: nat, body: Page)
    requires ReadyToMove(cfg, s, i, j)
  {
    && Shaped(cfg, s')
    && s'.nodes[i] == s.nodes[i].(app := Waiting(0))
    && s'.nodes[j].app.Running? && s'.nodes[j].daemon.Serving?
    && 0 !in s'.nodes[j].mapped && s'.nodes[j].table[0].owner == i
    && s'.nodes[2] == s.nodes[2]
    && s'.links[j][i] == [SendPage(0, body)] && s'.links[i][j] == []
    && s'.links[j][2] == s.links[j][2] + [SendInfo(0, i)]
    && (forall x: nat | x < cfg.nodes && x != j :: s'.links[x][2] == s.links[x][2])
  }

  /** What the request and the give put on the links. */
  lemma MoveLinks(cfg: Config, s: State, s1: State, i: nat, j: nat, x: nat, y: nat)
    requires ReadyToMove(cfg, s, i, j) && x < cfg.nodes && y < cfg.nodes
    requires Enabled(cfg, MEANT, s, Fault(i, 0, j)) && s1 == Next(cfg, MEANT, s, Fault(i, 0, j))
    requires Enabled(cfg, MEANT, s1, Deliver(i, j, PageRequest(0))) && s1.nodes[j].mapped == s.nodes[j].mapped
    requires (x == i && y == j) || (x == j && y == i) || y == 2
    ensures Next(cfg, MEANT, s1, Deliver(i, j, PageRequest(0))).links[x][y]
            == if x == j && y == i then [SendPage(0, s.nodes[j].mapped[0])]
               else if x == i && y == j then []
               else if x == j then s.links[x][y] + [SendInfo(0, i)] else s.links[x][y]
  {
    LinkAfter(cfg, MEANT, s, Fault(i, 0, j), x, y);
    LinkAfter(cfg, MEANT, s1, Deliver(i, j, PageRequest(0)), x, y);
  }

  lemma MoveShips(cfg: Config, s: State, i: nat, j: nat)
    requires ReadyToMove(cfg, s, i, j)
    ensures Enabled(cfg, MEANT, s, Fault(i, 0, j))
    ensures var s1 := Next(cfg, MEANT, s, Fault(i, 0, j));
            && Enabled(cfg, MEANT, s1, Deliver(i, j, PageRequest(0)))
            && Shipped(cfg, s, Next(cfg, MEANT, s1, Deliver(i, j, PageRequest(0))), i, j, s.nodes[j].mapped[0])
  {
    var s1 := Next(cfg, MEANT, s, Fault(i, 0, j));
    MoveLinks(cfg, s, s1, i, j, i, j);
    MoveLinks(cfg, s, s1, i, j, j, i);
    forall x: nat | x < cfg.nodes { MoveLinks(cfg, s, s1, i, j, x, 2); }
  }

  lemma MoveArrives(cfg: Config, s: State, s2: State, i: nat, j: nat, body: Page)
    requires ReadyToMove(cfg, s, i, j) && Shipped(cfg, s, s2, i, j, body)
    ensures Enabled(cfg, MEANT, s2, Deliver(j, i, SendPage(0, body)))
    ensures Moved(cfg, s, Next(cfg, MEANT, s2, Deliver(j, i, SendPage(0, body))), i, j)
  {
    var l := Deliver(j, i, SendPage(0, body));
    var s3 := Next(cfg, MEANT, s2, l);
    forall x: nat, y: nat | x < cfg.nodes && y < cfg.nodes
      ensures s3.links[x][y] == Rest(cfg, MEANT, s2, l, x, y)
    {
      LinkAfter(cfg, MEANT, s2, l, x, y);
    }
  }

  lemma MoveRun(cfg: Config, run: seq<Label>, i: nat, j: nat) returns (more: seq<Label>)
    requires ValidConfig(cfg) && Legal(cfg, MEANT, run) && ReadyToMove(cfg, After(cfg, MEANT, run), i, j)
    ensures Legal(cfg, MEANT, more) && Moved(cfg, After(cfg, MEANT, run), After(cfg, MEANT, more), i, j)
    ensures LastGrantee(cfg, more, 0) == i
  {
    var s := After(cfg, MEANT, run);
    var l1, l2, l3 := Fault(i, 0, j), Deliver(i, j, PageRequest(0)), Deliver(j, i, SendPage(0, s.nodes[j].mapped[0]));
    MoveShips(cfg, s, i, j);
    OneMore(cfg, MEANT, run, l1);
    OneMore(cfg, MEANT, run + [l1], l2);
    MoveArrives(cfg, s, After(cfg, MEANT, run + [l1] + [l2]), i, j, s.nodes[j].mapped[0]);
    OneMore(cfg, MEANT, run + [l1] + [l2], l3);
    more := run + [l1] + [l2] + [l3];
    assert more[..|more| - 1] == run + [l1] + [l2];
    assert (run + [l1] + [l2])[..|run| + 1] == run + [l1];
  }

  /** Node 2 hears of the later transfer, then of the earlier one. */
  lemma NewsOvertakes(cfg: Config, s: State)
    requires Shaped(cfg, s) && cfg.nodes >= 3 && cfg.pages >= 1 && s.nodes[2].daemon.Serving?
    requires s.links[0][2] == [SendInfo(0, 1)] && s.links[1][2] == [SendInfo(0, 0)]
    requires forall x: nat | 2 <= x < cfg.nodes :: s.links[x][2] == []
    ensures Enabled(cfg, MEANT, s, Deliver(1, 2, SendInfo(0, 0)))
    ensures var s1 := Next(cfg, MEANT, s, Deliver(1, 2, SendInfo(0, 0)));
            && Enabled(cfg, MEANT, s1, Deliver(0, 2, SendInfo(0, 1)))
            && var s2 := Next(cfg, MEANT, s1, Deliver(0, 2, SendInfo(0, 1)));
               !KnowsOrWillHear(cfg, s2, 0, 0, 2)
  {
    var l1, l2 := Deliver(1, 2, SendInfo(0, 0)), Deliver(0, 2, SendInfo(0, 1));
    var s1 := Next(cfg, MEANT, s, l1);
    assert s1.links[0][2] == [SendInfo(0, 1)];
    var s2 := Next(cfg, MEANT, s1, l2);
    forall x: nat | x < cfg.nodes
      ensures s2.links[x][2] == []
    {
      LinkAfter(cfg, MEANT, s, l1, x, 2);
      LinkAfter(cfg, MEANT, s1, l2, x, 2);
    }
    assert !NewsFor(cfg, s2, 0, 2);
  }

  /** Page 0 goes from node 0 to node 1 and back; node 2 has heard of neither yet. */
  lemma ThereAndBack(cfg: Config) returns (run: seq<Label>)
    requires ValidConfig(cfg) && cfg.nodes >= 3 && cfg.pages >= 1
    ensures Legal(cfg, MEANT, run) && LastGrantee(cfg, run, 0) == 0
    ensures var s := After(cfg, MEANT, run);
            && s.nodes[2].daemon.Serving?
            && s.links[0][2] == [SendInfo(0, 1)] && s.links[1][2] == [SendInfo(0, 0)]
            && forall x: nat | 2 <= x < cfg.nodes :: s.links[x][2] == []
  {
    var there := MoveRun(cfg, [], 1, 0);
    run := MoveRun(cfg, there, 0, 1);
  }

  /** With three nodes the news of two transfers may overtake each other: page 0 goes from node 0
      to node 1 and back, and node 2 hears of the second transfer before the first. */
  lemma OvertakenNews(cfg: Config) returns (run: seq<Label>)
    requires ValidConfig(cfg) && cfg.nodes >= 3 && cfg.pages >= 1
    ensures Legal(cfg, MEANT, run) && !AllKnowOrWillHear(cfg, After(cfg, MEANT, run), 0, LastGrantee(cfg, run, 0))
  {
    var back := ThereAndBack(cfg);
    var l1, l2 := Deliver(1, 2, SendInfo(0, 0)), Deliver(0, 2, SendInfo(0, 1));
    NewsOvertakes(cfg, After(cfg, MEANT, back));
    OneMore(cfg, MEANT, back, l1);
    OneMore(cfg, MEANT, back + [l1], l2);
    run := back + [l1] + [l2];
    assert run[..|run| - 1] == back + [l1] && (back + [l1])[..|back|] == back;
    assert !KnowsOrWillHear(cfg, After(cfg, MEANT, run), 0, 0, 2);
  }

  /** With the code as meant, and without restricting transfers, the tables are sure to name the
      last grantee once all news is delivered with one or two nodes only. */
  lemma HintsConvergeIffAtMostTwoNodes(cfg: Config)
    requires ValidConfig(cfg) && cfg.pages >= 1
    ensures cfg.nodes <= 2
            <==> forall run, p: nat | Legal(cfg, MEANT, run) && p < cfg.pages ::
                   AllKnowOrWillHear(cfg, After(cfg, MEANT, run), p, LastGrantee(cfg, run, p))
  {
    if cfg.nodes <= 2 {
      forall run, p: nat | Legal(cfg, MEANT, run) && p < cfg.pages
        ensures AllKnowOrWillHear(cfg, After(cfg, MEANT, run), p, LastGrantee(cfg, run, p))
      {
        TwoNodesHear(cfg, run, p);
      }
    } else {
      var run := OvertakenNews(cfg);
    }
  }
}
