/**
 A daemon that faulted stays in its handler for ever, but it need not stay silent: where the
 handler's test lets it return, the copy faults again and another request goes out, without end.
 That is so exactly where ownership is not both recorded and waited for, except between two
 nodes that do not record it.
 */
module Repeats {
  import opened Basics
  import opened Protocol
  import opened Traffic
  import opened Requests
  import opened TwoNodes
  import opened Variants
  import opened Misreading

  // ---------------------------------------------------------------- one more fault

  /** A daemon that faulted still lacks the page it faulted on. */
  lemma {:induction false} StuckLacksPage(cfg: Config, v: Variant, run: seq<Label>, b: nat)
    requires ValidConfig(cfg) && Legal(cfg, v, run) && b < cfg.nodes && After(cfg, v, run).nodes[b].daemon.Stuck?
    ensures var node := After(cfg, v, run).nodes[b];
            node.daemon.page < cfg.pages && node.daemon.page !in node.mapped
  {
    if run == [] {
    } else {
      var before := run[..|run| - 1];
      if After(cfg, v, before).nodes[b].daemon.Stuck? {
        StuckLacksPage(cfg, v, before, b);
      }
    }
  }

  /** A daemon in its loop that is asked for a page it lacks faults: it has sent the header to the
      asking node, then sends its request to the node its table names, behind the header if that is
      the same node, and the request it serves stays where it is. */
  lemma FaultsFirst(cfg: Config, v: Variant, run: seq<Label>, a: nat, b: nat, p: nat)
    requires ValidConfig(cfg) && Legal(cfg, v, run)
    requires AtHead(cfg, After(cfg, v, run), a, b, PageRequest(p))
    requires var node := After(cfg, v, run).nodes[b]; node.daemon.Serving? && p !in node.mapped && p < cfg.pages
    ensures var s := After(cfg, v, run);
            var to := s.nodes[b].table[p].owner;
            && Legal(cfg, v, run + [DaemonFault(a, b, p, to)])
            && var s' := After(cfg, v, run + [DaemonFault(a, b, p, to)]);
               && s'.nodes == s.nodes[b := s.nodes[b].(daemon := Stuck(a, p))]
               && forall x: nat, y: nat | x < cfg.nodes && y < cfg.nodes ::
                    s'.links[x][y]
                    == s.links[x][y]
                       + (if x == b && y == a then [PageHeader(p)] else [])
                       + (if x == b && y == to then [PageRequest(p)] else [])
  {
    var s := After(cfg, v, run);
    var l := DaemonFault(a, b, p, s.nodes[b].table[p].owner);
    OneMore(cfg, v, run, l);
    forall x: nat, y: nat | x < cfg.nodes && y < cfg.nodes
      ensures Next(cfg, v, s, l).links[x][y]
              == s.links[x][y]
                 + (if x == b && y == a then [PageHeader(p)] else [])
                 + (if x == b && y == l.to then [PageRequest(p)] else [])
    {
      LinkAfter(cfg, v, s, l, x, y);
    }
  }

  /** The daemon of b is in its handler, and the handler's test lets it return. */
  predicate MayRepeat(cfg: Config, v: Variant, s: State, b: nat)
    requires Shaped(cfg, s)
  {
    && b < cfg.nodes && s.nodes[b].daemon.Stuck? && s.nodes[b].daemon.page < cfg.pages
    && WaitOver(v, b, s.nodes[b].table[s.nodes[b].daemon.page].owner)
  }

  /** The step of that daemon: its copy faults again. */
  function Again(cfg: Config, s: State, b: nat): Label
    requires Shaped(cfg, s) && b < cfg.nodes && s.nodes[b].daemon.Stuck? && s.nodes[b].daemon.page < cfg.pages
  {
    var d := s.nodes[b].daemon;
    DaemonFault(d.src, b, d.page, s.nodes[b].table[d.page].owner)
  }

  /** In every reachable state a stuck daemon can fault again exactly when its test lets it return.
      It sends one more request to the owner its table names, no header, and nothing else changes. */
  lemma FaultsAgain(cfg: Config, v: Variant, run: seq<Label>, b: nat)
    requires ValidConfig(cfg) && Legal(cfg, v, run) && b < cfg.nodes
    requires var d := After(cfg, v, run).nodes[b].daemon; d.Stuck? && d.page < cfg.pages
    ensures var s := After(cfg, v, run);
            && (Legal(cfg, v, run + [Again(cfg, s, b)]) <==> MayRepeat(cfg, v, s, b))
            && (MayRepeat(cfg, v, s, b) ==>
                  var s', p := After(cfg, v, run + [Again(cfg, s, b)]), s.nodes[b].daemon.page;
                  && s'.nodes == s.nodes
                  && forall x: nat, y: nat | x < cfg.nodes && y < cfg.nodes ::
                       s'.links[x][y]
                       == s.links[x][y]
                          + if x == b && y == s.nodes[b].table[p].owner then [PageRequest(p)] else [])
  {
    var s := After(cfg, v, run);
    var l := Again(cfg, s, b);
    HeadersInRuns(cfg, v, run);
    StuckLacksPage(cfg, v, run, b);
    assert (run + [l])[..|run|] == run;
    if Enabled(cfg, v, s, l) {
      forall x: nat, y: nat | x < cfg.nodes && y < cfg.nodes
        ensures Next(cfg, v, s, l).links[x][y]
                == s.links[x][y] + if x == b && y == l.to then [PageRequest(l.page)] else []
      {
        LinkAfter(cfg, v, s, l, x, y);
        assert [] + [PageRequest(l.page)] == [PageRequest(l.page)];
      }
    }
  }

  // ---------------------------------------------------------------- without end

  /** The same step k times. */
  function Times(l: Label, k: nat): seq<Label> {
    if k == 0 then [] else Times(l, k - 1) + [l]
  }

  function ManyRequests(p: nat, k: nat): Queue {
    if k == 0 then [] else ManyRequests(p, k - 1) + [PageRequest(p)]
  }

  /** For every k: a daemon that may fault again may do so k times, and puts k more requests on one
      link. Nobody but it changes its table, so it may then go on. */
  lemma {:induction false} FaultsForEver(cfg: Config, v: Variant, run: seq<Label>, b: nat, k: nat)
    requires ValidConfig(cfg) && Legal(cfg, v, run) && MayRepeat(cfg, v, After(cfg, v, run), b)
    ensures var s := After(cfg, v, run);
            var l, p := Again(cfg, s, b), s.nodes[b].daemon.page;
            && Legal(cfg, v, run + Times(l, k))
            && var s' := After(cfg, v, run + Times(l, k));
               && s'.nodes == s.nodes && MayRepeat(cfg, v, s', b)
               && (l.to < cfg.nodes ==> s'.links[b][l.to] == s.links[b][l.to] + ManyRequests(p, k))
  {
    var s := After(cfg, v, run);
    var l, p := Again(cfg, s, b), s.nodes[b].daemon.page;
    if k == 0 {
      assert run + [] == run;
    } else {
      var before := run + Times(l, k - 1);
      FaultsForEver(cfg, v, run, b, k - 1);
      FaultsAgain(cfg, v, before, b);
      Associative(run, Times(l, k - 1), [l]);
      if l.to < cfg.nodes {
        Associative(s.links[b][l.to], ManyRequests(p, k - 1), [PageRequest(p)]);
      }
    }
  }

  // ---------------------------------------------------------------- where it happens

  /** Some run leads to a daemon that asks again for a page it has asked for. */
  ghost predicate SomeoneRepeats(cfg: Config, v: Variant)
    requires ValidConfig(cfg)
  {
    exists run, b: nat :: Legal(cfg, v, run) && MayRepeat(cfg, v, After(cfg, v, run), b)
  }

  /** Two nodes that do not record grants: the first home of a page always names itself for it, and
      never asks the other node. */
  ghost predicate HomesNameThemselves(cfg: Config, s: State)
    requires Shaped(cfg, s) && cfg.nodes == 2
  {
    forall p: nat | p < cfg.pages ::
      && s.nodes[p % 2].table[p].owner == p % 2
      && QueueCost(RequestFor(p), s.links[p % 2][1 - p % 2]) == 0
  }

  lemma HomeStillNamesItself(cfg: Config, v: Variant, s: State, l: Label, p: nat, h: nat)
    requires Shaped(cfg, s) && cfg.nodes == 2 && Enabled(cfg, v, s, l) && !v.recordsGrant && p < cfg.pages && h < 2
    requires HoldersKnow(cfg, s) && s.nodes[h].table[p].owner == h
    ensures Next(cfg, v, s, l).nodes[h].table[p].owner == h
  {
    if l.Deliver? && l.dst == h {
      assert l.msg in s.links[l.src][h];
    }
  }

  /** A daemon of the home that faults asks for another page, or asks its own node. */
  lemma HomeFaultAsksNobody(cfg: Config, v: Variant, s: State, l: Label, p: nat, h: nat)
    requires Shaped(cfg, s) && cfg.nodes == 2 && Enabled(cfg, v, s, l) && p < cfg.pages && h < 2
    requires l.DaemonFault? && l.dst == h && s.nodes[h].table[p].owner == h
    ensures QueueCost(RequestFor(p), Emitted(cfg, v, s, l, h, 1 - h)) == 0
  {
    var request: Queue := if 1 - h == l.to then [PageRequest(l.page)] else [];
    CostOfDaemonFault(RequestFor(p), HeaderMail(s.nodes[h], l.src, l.page, 1 - h), l.page, request);
  }

  lemma HomeStillAsksNobody(cfg: Config, v: Variant, s: State, l: Label, p: nat, h: nat)
    requires Shaped(cfg, s) && cfg.nodes == 2 && Enabled(cfg, v, s, l) && p < cfg.pages && h < 2
    requires s.nodes[h].table[p].owner == h && QueueCost(RequestFor(p), s.links[h][1 - h]) == 0
    ensures QueueCost(RequestFor(p), Next(cfg, v, s, l).links[h][1 - h]) == 0
  {
    LinkCost(cfg, v, s, l, RequestFor(p), h, 1 - h);
    if l.DaemonFault? && l.dst == h {
      HomeFaultAsksNobody(cfg, v, s, l, p, h);
    }
  }

  lemma HomesStep(cfg: Config, v: Variant, s: State, l: Label)
    requires Shaped(cfg, s) && cfg.nodes == 2 && Enabled(cfg, v, s, l) && !v.recordsGrant
    requires HoldersKnow(cfg, s) && HomesNameThemselves(cfg, s)
    ensures HomesNameThemselves(cfg, Next(cfg, v, s, l))
  {
    forall p: nat | p < cfg.pages
      ensures Next(cfg, v, s, l).nodes[p % 2].table[p].owner == p % 2
      ensures QueueCost(RequestFor(p), Next(cfg, v, s, l).links[p % 2][1 - p % 2]) == 0
    {
      HomeStillNamesItself(cfg, v, s, l, p, p % 2);
      HomeStillAsksNobody(cfg, v, s, l, p, p % 2);
    }
  }

  lemma {:induction false} HomesInRuns(cfg: Config, v: Variant, run: seq<Label>)
    requires ValidConfig(cfg) && cfg.nodes == 2 && Legal(cfg, v, run) && !v.recordsGrant
    ensures HomesNameThemselves(cfg, After(cfg, v, run))
  {
    if run == [] {
    } else {
      var before, l := run[..|run| - 1], run[|run| - 1];
      HomesInRuns(cfg, v, before);
      HoldersKnowInRuns(cfg, v, before);
      HomesStep(cfg, v, After(cfg, v, before), l);
    }
  }

  lemma NobodyRepeatsAsMeant(cfg: Config, v: Variant, run: seq<Label>, b: nat)
    requires ValidConfig(cfg) && Legal(cfg, v, run) && AsMeant(v)
    ensures !MayRepeat(cfg, v, After(cfg, v, run), b)
  {
    if b < cfg.nodes && After(cfg, v, run).nodes[b].daemon.Stuck? {
      NeverSelfInRuns(cfg, v, run);
      StuckLacksPage(cfg, v, run, b);
    }
  }

  lemma NobodyRepeatsBetweenTwo(cfg: Config, v: Variant, run: seq<Label>, b: nat)
    requires ValidConfig(cfg) && cfg.nodes == 2 && Legal(cfg, v, run) && !v.recordsGrant
    ensures !MayRepeat(cfg, v, After(cfg, v, run), b)
  {
    var s := After(cfg, v, run);
    if MayRepeat(cfg, v, s, b) {
      if v.waitsForOwnership {
        WaitingTwoRoute(cfg, v, run);
      }
      HeadersInRuns(cfg, v, run);
      HomesInRuns(cfg, v, run);
      var a, p := s.nodes[b].daemon.src, s.nodes[b].daemon.page;
      assert AtHead(cfg, s, a, b, PageRequest(p));
      CostOfMember(RequestFor(p), s.links[a][b], PageRequest(p));
      assert false;
    }
  }

  // ---------------------------------------------------------------- news before the late request

  /** Nodes 1 and 2 have asked node 0, which gives page 0 to node 1. Node 2 hears of it, asks node
      1 as well, and gets the page; node 0 hears of that, and only then serves the first request of
      node 2. */
  function TwiceAsked(cfg: Config, v: Variant): seq<Label> {
    BothAsking(v) + [Giving()] + [Arriving(cfg)] + [Deliver(0, 2, SendInfo(0, 1))] + [Fault(2, 0, 1)]
    + [Deliver(2, 1, PageRequest(0))] + [Deliver(1, 0, SendInfo(0, 2))]
  }

  lemma SecondAsksOnce(cfg: Config, v: Variant)
    requires ValidConfig(cfg) && cfg.nodes >= 3 && cfg.pages >= 3 && !v.waitsForOwnership && !v.recordsGrant
    ensures var run := BothAsking(v) + [Giving()] + [Arriving(cfg)] + [Deliver(0, 2, SendInfo(0, 1))];
            && Legal(cfg, v, run)
            && var s := After(cfg, v, run);
               && HasGiven(v, s.nodes[0], 2) && s.nodes[1].daemon.Serving? && 0 in s.nodes[1].mapped
               && s.nodes[2].app.Running? && 0 !in s.nodes[2].mapped && s.nodes[2].table[0].owner == 1
               && s.links[2][0] == [PageRequest(0)]
               && s.links[1][0] == [] && s.links[1][2] == [] && s.links[2][1] == []
  {
    var run := BothAsking(v) + [Giving()];
    FirstIsServed(cfg, v);
    FirstHome(cfg);
    SmallRemainder(2, cfg.nodes);
    OneMore(cfg, v, run, Arriving(cfg));
    OneMore(cfg, v, run + [Arriving(cfg)], Deliver(0, 2, SendInfo(0, 1)));
  }

  lemma SecondIsServedElsewhere(cfg: Config, v: Variant)
    requires ValidConfig(cfg) && cfg.nodes >= 3 && cfg.pages >= 3 && !v.waitsForOwnership && !v.recordsGrant
    ensures Legal(cfg, v, TwiceAsked(cfg, v))
    ensures var s := After(cfg, v, TwiceAsked(cfg, v));
            && s.nodes[0].daemon.Serving? && 0 !in s.nodes[0].mapped && s.nodes[0].table[0].owner == 2
            && s.links[2][0] == [PageRequest(0)]
  {
    var run := BothAsking(v) + [Giving()] + [Arriving(cfg)] + [Deliver(0, 2, SendInfo(0, 1))];
    SecondAsksOnce(cfg, v);
    OneMore(cfg, v, run, Fault(2, 0, 1));
    var run1 := run + [Fault(2, 0, 1)];
    LinkAfter(cfg, v, After(cfg, v, run), Fault(2, 0, 1), 2, 1);
    LinkAfter(cfg, v, After(cfg, v, run), Fault(2, 0, 1), 2, 0);
    OneMore(cfg, v, run1, Deliver(2, 1, PageRequest(0)));
    var run2 := run1 + [Deliver(2, 1, PageRequest(0))];
    LinkAfter(cfg, v, After(cfg, v, run1), Deliver(2, 1, PageRequest(0)), 1, 0);
    LinkAfter(cfg, v, After(cfg, v, run1), Deliver(2, 1, PageRequest(0)), 2, 0);
    OneMore(cfg, v, run2, Deliver(1, 0, SendInfo(0, 2)));
    LinkAfter(cfg, v, After(cfg, v, run2), Deliver(1, 0, SendInfo(0, 2)), 2, 0);
  }

  /** A run after which some daemon may ask for ever. */
  lemma RepeatingRun(cfg: Config, v: Variant) returns (run: seq<Label>)
    requires ValidConfig(cfg) && cfg.nodes >= 2 && cfg.pages >= 3
    requires !AsMeant(v) && (cfg.nodes >= 3 || v.recordsGrant)
    ensures Legal(cfg, v, run) && MayRepeat(cfg, v, After(cfg, v, run), 0)
  {
    if v.recordsGrant {
      run := AskingInVain(v) + AskingInVain(v) + [Giving()] + [DaemonFault(1, 0, 0, 1)];
      FaultsForOne(cfg, v);
    } else if v.waitsForOwnership {
      run := BothAsking(v) + [Giving()] + [DaemonFault(2, 0, 0, 0)];
      SecondFaults(cfg, v);
    } else {
      SecondIsServedElsewhere(cfg, v);
      var l := DaemonFaultsNext(cfg, v, TwiceAsked(cfg, v), 2, 0, 0);
      run := TwiceAsked(cfg, v) + [l];
    }
  }

  /** Some daemon may ask for the same page again, and then for ever: exactly where ownership is not
      both recorded and waited for, and between two nodes only if it is recorded. */
  lemma RepeatsIff(cfg: Config, v: Variant)
    requires ValidConfig(cfg) && cfg.nodes >= 2 && cfg.pages >= 3
    ensures SomeoneRepeats(cfg, v) <==> !AsMeant(v) && (cfg.nodes >= 3 || v.recordsGrant)
  {
    if !AsMeant(v) && (cfg.nodes >= 3 || v.recordsGrant) {
      var run := RepeatingRun(cfg, v);
    } else if SomeoneRepeats(cfg, v) {
      var run, b: nat :| Legal(cfg, v, run) && MayRepeat(cfg, v, After(cfg, v, run), b);
      if AsMeant(v) {
        NobodyRepeatsAsMeant(cfg, v, run, b);
      } else {
        NobodyRepeatsBetweenTwo(cfg, v, run, b);
      }
    }
  }

  /** And where it does, so often as one likes: for every k a run that leaves k requests of the same
      daemon, one behind the other, on one link. */
  lemma RequestsWithoutEnd(cfg: Config, v: Variant, k: nat) returns (run: seq<Label>, y: nat)
    requires ValidConfig(cfg) && SomeoneRepeats(cfg, v)
    ensures Legal(cfg, v, run) && y < cfg.nodes
    ensures exists b: nat, p: nat, q: Queue ::
              b < cfg.nodes && After(cfg, v, run).links[b][y] == q + ManyRequests(p, k)
  {
    var before, b: nat :| Legal(cfg, v, before) && MayRepeat(cfg, v, After(cfg, v, before), b);
    var l := Again(cfg, After(cfg, v, before), b);
    InRangeInRuns(cfg, v, before);
    FaultsForEver(cfg, v, before, b, k);
    run, y := before + Times(l, k), l.to;
  }
}
