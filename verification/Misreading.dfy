/**
 Departure (h) of README.md in whole runs: when a reader goes on behind the lone header of a
 daemon that faulted, it installs a page nobody wrote. With giving as one step that never
 happens exactly when no daemon ever faults, with two nodes whose handlers wait for ownership;
 and only then does every read return the last value written. With three nodes two of them
 come to touch one page, and with or without misreadings what was written may be lost for good.
 */
module Misreading {
  import opened Basics
  import opened Protocol
  import opened Traffic
  import opened SingleCopy
  import opened FlatMemory
  import opened Requests
  import opened TwoNodes
  import opened Variants
  import FineInstall

  // ---------------------------------------------------------------- threads that look in time

  /** A handler that does not wait for ownership returns before its page comes. */
  function LooksEarly(v: Variant, i: nat): seq<Label> {
    if v.wakesAtOnce || v.waitsForOwnership then [] else [Spin(i)]
  }

  /** One that does returns once it is there. */
  function LooksLate(v: Variant, i: nat): seq<Label> {
    if v.wakesAtOnce || !v.waitsForOwnership then [] else [Spin(i)]
  }

  /** The thread of a node that has asked for page 0 of another. */
  function Asker(v: Variant): App {
    if v.waitsForOwnership then Waiting(0) else Running
  }

  function WithApp(s: State, i: nat, app: App): State
    requires i < |s.nodes|
  {
    s.(nodes := s.nodes[i := s.nodes[i].(app := app)])
  }

  lemma LooksIfItMust(cfg: Config, v: Variant, run: seq<Label>, i: nat, looks: seq<Label>)
    requires ValidConfig(cfg) && Legal(cfg, v, run) && i < cfg.nodes
    requires looks == [] || (looks == [Spin(i)] && Enabled(cfg, v, After(cfg, v, run), Spin(i)))
    ensures Legal(cfg, v, run + looks)
    ensures After(cfg, v, run + looks)
            == if looks == [] then After(cfg, v, run) else WithApp(After(cfg, v, run), i, Running)
  {
    if looks == [] {
      assert run + [] == run;
    } else {
      OneMore(cfg, v, run, Spin(i));
    }
  }

  // ---------------------------------------------------------------- two nodes that do not wait

  /** Node 1 asks twice; its second request finds the page gone, and the daemon of node 0 faults.
      A thread of node 0 asks for page 1 behind that. */
  function FaultingForTwo(v: Variant): seq<Label> {
    AskingInVain(v) + AskingInVain(v) + [Giving()]
    + [DaemonFault(1, 0, 0, if v.recordsGrant then 1 else 0)] + [Fault(0, 1, 1)]
  }

  /** The request that node 1 will take for the content of page 0. */
  function TakenForContent(v: Variant): nat {
    if v.recordsGrant then 0 else 1
  }

  lemma AsksAgain(cfg: Config, v: Variant)
    requires ValidConfig(cfg) && cfg.nodes >= 2 && cfg.pages >= 2 && !v.waitsForOwnership
    ensures Legal(cfg, v, AskingInVain(v) + AskingInVain(v))
    ensures var s := After(cfg, v, AskingInVain(v) + AskingInVain(v));
            && s.nodes[0] == InitialNode(cfg, 0) && s.nodes[1] == InitialNode(cfg, 1)
            && s.links[1][0] == [PageRequest(0), PageRequest(0)] && s.links[0][1] == []
  {
    ReturnsAtOnce(cfg, v);
    var run := AskingInVain(v);
    OneMore(cfg, v, run, Asking());
    if !v.wakesAtOnce {
      OneMore(cfg, v, run + [Asking()], Spin(1));
      Associative(run, [Asking()], [Spin(1)]);
    }
  }

  /** Node 0 has given page 0 to node 1; page p is still with node p. */
  predicate HasGiven(v: Variant, node: Node, p: nat) {
    && node.app.Running? && node.daemon.Serving? && p < |node.table|
    && 0 !in node.mapped && node.table[0].owner == (if v.recordsGrant then 1 else 0)
    && p !in node.mapped && node.table[p].owner == p
  }

  /** Then its daemon has faulted serving node `src`. */
  predicate HasFaulted(v: Variant, node: Node, src: nat) {
    && node.daemon == Stuck(src, 0) && 0 < |node.table|
    && 0 !in node.mapped && node.table[0].owner == (if v.recordsGrant then 1 else 0)
  }

  lemma GivingLeaves(cfg: Config, v: Variant, p: nat)
    requires ValidConfig(cfg) && 0 < p < cfg.nodes && p < cfg.pages
    ensures HasGiven(v, GiveUp(v, 0, InitialNode(cfg, 0), 1, 0), p)
  {
    SmallRemainder(p, cfg.nodes);
    SmallRemainder(0, cfg.nodes);
    assert InitialNode(cfg, 0).table[p] == Entry(Write, p);
    assert InitialNode(cfg, 0).table[0] == Entry(Write, 0);
  }

  lemma SmallRemainder(p: nat, n: nat)
    requires p < n
    ensures p % n == p
  {
  }

  /** Page 0 is with node 0 at first. */
  lemma FirstHome(cfg: Config)
    requires ValidConfig(cfg) && cfg.pages >= 1
    ensures 0 in InitialNode(cfg, 0).mapped && InitialNode(cfg, 0).mapped[0] == Zeros(cfg.pageSize)
  {
    SmallRemainder(0, cfg.nodes);
  }

  lemma GivesToOne(cfg: Config, v: Variant)
    requires ValidConfig(cfg) && cfg.nodes >= 2 && cfg.pages >= 2 && !v.waitsForOwnership
    ensures var run := AskingInVain(v) + AskingInVain(v) + [Giving()];
            && Legal(cfg, v, run)
            && var s := After(cfg, v, run);
               && HasGiven(v, s.nodes[0], 1) && s.nodes[1] == InitialNode(cfg, 1)
               && s.links[1][0] == [PageRequest(0)] && s.links[0][1] == [SendPage(0, Zeros(cfg.pageSize))]
  {
    AsksAgain(cfg, v);
    OneMore(cfg, v, AskingInVain(v) + AskingInVain(v), Giving());
    GivingLeaves(cfg, v, 1);
  }

  /** A daemon that faults for the first time sends a header and a request. */
  lemma FaultIsMailed(cfg: Config, v: Variant, s: State, l: Label, y: nat)
    requires Shaped(cfg, s) && Enabled(cfg, v, s, l) && l.DaemonFault? && s.nodes[l.dst].daemon.Serving?
    requires y < cfg.nodes
    ensures Next(cfg, v, s, l).links[l.dst][y]
            == s.links[l.dst][y]
               + ((if y == l.src then [PageHeader(l.page)] else []) + if y == l.to then [PageRequest(l.page)] else [])
  {
    LinkAfter(cfg, v, s, l, l.dst, y);
  }

  lemma DaemonFaultsNext(cfg: Config, v: Variant, run: seq<Label>, a: nat, b: nat, p: nat) returns (l: Label)
    requires ValidConfig(cfg) && Legal(cfg, v, run) && AtHead(cfg, After(cfg, v, run), a, b, PageRequest(p))
    requires p < cfg.pages && p !in After(cfg, v, run).nodes[b].mapped
    requires After(cfg, v, run).nodes[b].daemon.Serving?
    ensures l == DaemonFault(a, b, p, After(cfg, v, run).nodes[b].table[p].owner) && Legal(cfg, v, run + [l])
    ensures var s, s' := After(cfg, v, run), After(cfg, v, run + [l]);
            && s'.nodes == s.nodes[b := s.nodes[b].(daemon := Stuck(a, p))]
            && forall y: nat | y < cfg.nodes ::
                 s'.links[b][y] == s.links[b][y]
                                   + ((if y == a then [PageHeader(p)] else [])
                                      + if y == l.to then [PageRequest(p)] else [])
  {
    var s := After(cfg, v, run);
    l := DaemonFault(a, b, p, s.nodes[b].table[p].owner);
    OneMore(cfg, v, run, l);
    forall y: nat | y < cfg.nodes { FaultIsMailed(cfg, v, s, l, y); }
  }

  lemma FaultsForOne(cfg: Config, v: Variant)
    requires ValidConfig(cfg) && cfg.nodes >= 2 && cfg.pages >= 2 && !v.waitsForOwnership
    ensures var to := if v.recordsGrant then 1 else 0;
            var run := AskingInVain(v) + AskingInVain(v) + [Giving()] + [DaemonFault(1, 0, 0, to)];
            && Legal(cfg, v, run)
            && var s := After(cfg, v, run);
               && s.nodes[1] == InitialNode(cfg, 1) && HasFaulted(v, s.nodes[0], 1)
               && s.nodes[0].app.Running? && 1 !in s.nodes[0].mapped && s.nodes[0].table[1].owner == 1
               && s.links[0][1] == [SendPage(0, Zeros(cfg.pageSize))] + [PageHeader(0)]
                                   + if v.recordsGrant then [PageRequest(0)] else []
  {
    var run := AskingInVain(v) + AskingInVain(v) + [Giving()];
    GivesToOne(cfg, v);
    var l := DaemonFaultsNext(cfg, v, run, 1, 0, 0);
  }

  lemma FaultsForTwo(cfg: Config, v: Variant)
    requires ValidConfig(cfg) && cfg.nodes >= 2 && cfg.pages >= 2 && !v.waitsForOwnership
    ensures Legal(cfg, v, FaultingForTwo(v))
    ensures var s := After(cfg, v, FaultingForTwo(v));
            && s.nodes[1] == InitialNode(cfg, 1)
            && |s.links[0][1]| >= 3 && s.links[0][1][0] == SendPage(0, Zeros(cfg.pageSize))
            && s.links[0][1][1] == PageHeader(0) && s.links[0][1][2] == PageRequest(TakenForContent(v))
  {
    var run := AskingInVain(v) + AskingInVain(v) + [Giving()]
               + [DaemonFault(1, 0, 0, if v.recordsGrant then 1 else 0)];
    FaultsForOne(cfg, v);
    OneMore(cfg, v, run, Fault(0, 1, 1));
    LinkAfter(cfg, v, After(cfg, v, run), Fault(0, 1, 1), 0, 1);
  }

  /** Page 0 arrives at node 1, whose thread writes it. */
  function WrittenBefore(cfg: Config, v: Variant): seq<Label> {
    FaultingForTwo(v) + [Arriving(cfg)] + [AppWrite(1, 0, 0, 7)]
  }

  lemma WritesBefore(cfg: Config, v: Variant)
    requires ValidConfig(cfg) && cfg.nodes >= 2 && cfg.pages >= 2 && cfg.pageSize >= 1 && !v.waitsForOwnership
    ensures Legal(cfg, v, WrittenBefore(cfg, v)) && LastWritten(WrittenBefore(cfg, v), 0, 0) == 7
    ensures var s := After(cfg, v, WrittenBefore(cfg, v));
            && s.nodes[1].app.Running? && s.nodes[1].daemon.Serving?
            && |s.links[0][1]| >= 2 && s.links[0][1][0] == PageHeader(0)
            && s.links[0][1][1] == PageRequest(TakenForContent(v))
  {
    var run := FaultingForTwo(v);
    FaultsForTwo(cfg, v);
    OneMore(cfg, v, run, Arriving(cfg));
    OneMore(cfg, v, run + [Arriving(cfg)], AppWrite(1, 0, 0, 7));
    var full := WrittenBefore(cfg, v);
    assert full[|full| - 1] == AppWrite(1, 0, 0, 7);
  }

  /** Two nodes whose handlers do not wait for ownership: what node 1 wrote is overwritten with a
      number out of a request, and node 1 reads that. */
  lemma WriteIsOverwritten(cfg: Config, v: Variant, stale: Page) returns (run: seq<Label>, l: Label)
    requires ValidConfig(cfg) && cfg.nodes >= 2 && cfg.pages >= 2 && cfg.pageSize >= 1 && !v.waitsForOwnership
    requires |stale| == cfg.pageSize
    ensures Legal(cfg, v, run) && Legal(cfg, v, run + [l]) && !InStep(run)
    ensures l.AppRead? && l.page == 0 && l.off == 0 && l.val < 2 && LastWritten(run, 0, 0) == 7
  {
    var written, misread := WrittenBefore(cfg, v), Misread(0, 1, 0, TakenForContent(v), stale);
    WritesBefore(cfg, v);
    OneMore(cfg, v, written, misread);
    run, l := written + [misread], AppRead(1, 0, 0, TakenForContent(v));
    OneMore(cfg, v, run, l);
    assert run[|run| - 1] == misread && run[..|run| - 1] == written;
  }

  // ---------------------------------------------------------------- three nodes

  /** Nodes 1 and 2 ask node 0 for page 0. */
  function BothAsking(v: Variant): seq<Label> {
    [Asking()] + LooksEarly(v, 1) + [Fault(2, 0, 0)] + LooksEarly(v, 2)
  }

  lemma OneAsks(cfg: Config, v: Variant)
    requires ValidConfig(cfg) && cfg.nodes >= 3 && cfg.pages >= 3
    ensures Legal(cfg, v, [Asking()] + LooksEarly(v, 1))
    ensures var s := After(cfg, v, [Asking()] + LooksEarly(v, 1));
            && s.nodes == Init(cfg).nodes[1 := InitialNode(cfg, 1).(app := Asker(v))]
            && s.links[1][0] == [PageRequest(0)] && s.links[2][0] == [] && s.links[0][1] == [] && s.links[0][2] == []
            && s.links[1][2] == [] && s.links[2][1] == []
  {
    AskingIsLegal(cfg, v);
    LooksIfItMust(cfg, v, [Asking()], 1, LooksEarly(v, 1));
  }

  lemma BothAsk(cfg: Config, v: Variant)
    requires ValidConfig(cfg) && cfg.nodes >= 3 && cfg.pages >= 3
    ensures Legal(cfg, v, BothAsking(v))
    ensures var s := After(cfg, v, BothAsking(v));
            && s.nodes[0] == InitialNode(cfg, 0)
            && s.nodes[1] == InitialNode(cfg, 1).(app := Asker(v))
            && s.nodes[2] == InitialNode(cfg, 2).(app := Asker(v))
            && s.links[1][0] == [PageRequest(0)] && s.links[2][0] == [PageRequest(0)]
            && s.links[0][1] == [] && s.links[0][2] == [] && s.links[1][2] == [] && s.links[2][1] == []
  {
    var run := [Asking()] + LooksEarly(v, 1);
    OneAsks(cfg, v);
    OneMore(cfg, v, run, Fault(2, 0, 0));
    LooksIfItMust(cfg, v, run + [Fault(2, 0, 0)], 2, LooksEarly(v, 2));
  }

  lemma FirstIsServed(cfg: Config, v: Variant)
    requires ValidConfig(cfg) && cfg.nodes >= 3 && cfg.pages >= 3
    ensures Legal(cfg, v, BothAsking(v) + [Giving()])
    ensures var s := After(cfg, v, BothAsking(v) + [Giving()]);
            && |s.nodes[0].table| == cfg.pages && HasGiven(v, s.nodes[0], 2)
            && s.nodes[1] == InitialNode(cfg, 1).(app := Asker(v))
            && s.nodes[2] == InitialNode(cfg, 2).(app := Asker(v))
            && s.links[2][0] == [PageRequest(0)]
            && s.links[0][1] == [SendPage(0, Zeros(cfg.pageSize))] && s.links[0][2] == [SendInfo(0, 1)]
            && s.links[1][0] == [] && s.links[1][2] == [] && s.links[2][1] == []
  {
    BothAsk(cfg, v);
    OneMore(cfg, v, BothAsking(v), Giving());
    GivingLeaves(cfg, v, 2);
  }

  /** Serving node 2, the daemon of node 0 faults; a thread of node 0 asks node 2 for page 2. */
  function FaultingForThree(v: Variant): seq<Label> {
    BothAsking(v) + [Giving()] + [DaemonFault(2, 0, 0, if v.recordsGrant then 1 else 0)] + [Fault(0, 2, 2)]
  }

  lemma SecondFaults(cfg: Config, v: Variant)
    requires ValidConfig(cfg) && cfg.nodes >= 3 && cfg.pages >= 3
    ensures var run := BothAsking(v) + [Giving()] + [DaemonFault(2, 0, 0, if v.recordsGrant then 1 else 0)];
            && Legal(cfg, v, run)
            && var s := After(cfg, v, run);
               && HasFaulted(v, s.nodes[0], 2)
               && s.nodes[0].app.Running? && 2 !in s.nodes[0].mapped && s.nodes[0].table[2].owner == 2
               && s.nodes[1] == InitialNode(cfg, 1).(app := Asker(v))
               && s.nodes[2] == InitialNode(cfg, 2).(app := Asker(v))
               && s.links[0][1] != [] && s.links[0][1][0] == SendPage(0, Zeros(cfg.pageSize))
               && s.links[0][2] == [SendInfo(0, 1)] + [PageHeader(0)]
  {
    var run := BothAsking(v) + [Giving()];
    FirstIsServed(cfg, v);
    var l := DaemonFaultsNext(cfg, v, run, 2, 0, 0);
  }

  lemma FaultsForThree(cfg: Config, v: Variant)
    requires ValidConfig(cfg) && cfg.nodes >= 3 && cfg.pages >= 3
    ensures Legal(cfg, v, FaultingForThree(v))
    ensures var s := After(cfg, v, FaultingForThree(v));
            && s.nodes[1] == InitialNode(cfg, 1).(app := Asker(v))
            && s.nodes[2] == InitialNode(cfg, 2).(app := Asker(v))
            && s.links[0][1] != [] && s.links[0][1][0] == SendPage(0, Zeros(cfg.pageSize))
            && s.links[0][2] == [SendInfo(0, 1), PageHeader(0), PageRequest(2)]
  {
    var run := BothAsking(v) + [Giving()] + [DaemonFault(2, 0, 0, if v.recordsGrant then 1 else 0)];
    SecondFaults(cfg, v);
    OneMore(cfg, v, run, Fault(0, 2, 2));
    LinkAfter(cfg, v, After(cfg, v, run), Fault(0, 2, 2), 0, 1);
    LinkAfter(cfg, v, After(cfg, v, run), Fault(0, 2, 2), 0, 2);
  }

  /** Node 1 has its page, and node 2 hears of it. */
  function OneHasIt(cfg: Config, v: Variant): seq<Label> {
    FaultingForThree(v) + [Arriving(cfg)] + LooksLate(v, 1) + [Deliver(0, 2, SendInfo(0, 1))]
  }

  lemma PageReachesOne(cfg: Config, v: Variant)
    requires ValidConfig(cfg) && cfg.nodes >= 3 && cfg.pages >= 3
    ensures Legal(cfg, v, FaultingForThree(v) + [Arriving(cfg)] + LooksLate(v, 1))
    ensures var s := After(cfg, v, FaultingForThree(v) + [Arriving(cfg)] + LooksLate(v, 1));
            && s.nodes[1].app.Running? && 0 in s.nodes[1].mapped && |s.nodes[1].mapped[0]| == cfg.pageSize
            && s.nodes[2] == InitialNode(cfg, 2).(app := Asker(v))
            && s.links[0][2] == [SendInfo(0, 1), PageHeader(0), PageRequest(2)]
  {
    var run := FaultingForThree(v);
    FaultsForThree(cfg, v);
    OneMore(cfg, v, run, Arriving(cfg));
    LinkAfter(cfg, v, After(cfg, v, run), Arriving(cfg), 0, 2);
    LooksIfItMust(cfg, v, run + [Arriving(cfg)], 1, LooksLate(v, 1));
  }

  lemma TwoHears(cfg: Config, v: Variant)
    requires ValidConfig(cfg) && cfg.nodes >= 3 && cfg.pages >= 3
    ensures Legal(cfg, v, OneHasIt(cfg, v))
    ensures var s := After(cfg, v, OneHasIt(cfg, v));
            && s.nodes[1].app.Running? && 0 in s.nodes[1].mapped && |s.nodes[1].mapped[0]| == cfg.pageSize
            && s.nodes[2].app == Asker(v) && s.nodes[2].daemon.Serving?
            && s.links[0][2] == [PageHeader(0), PageRequest(2)]
  {
    var run, l := FaultingForThree(v) + [Arriving(cfg)] + LooksLate(v, 1), Deliver(0, 2, SendInfo(0, 1));
    PageReachesOne(cfg, v);
    OneMore(cfg, v, run, l);
    LinkAfter(cfg, v, After(cfg, v, run), l, 0, 2);
  }

  predicate NobodyWrites(run: seq<Label>) {
    forall k | 0 <= k < |run| :: !run[k].AppWrite?
  }

  lemma {:induction false} NothingWritten(run: seq<Label>, p: nat, off: nat)
    requires NobodyWrites(run)
    ensures LastWritten(run, p, off) == 0
  {
    if run == [] {
    } else {
      NothingWritten(run[..|run| - 1], p, off);
    }
  }

  /** Node 2 takes the request of the thread of node 0 for the content of page 0. */
  lemma TwoMisreads(cfg: Config, v: Variant, stale: Page)
    requires ValidConfig(cfg) && cfg.nodes >= 3 && cfg.pages >= 3 && cfg.pageSize >= 1 && |stale| == cfg.pageSize
    ensures var run := OneHasIt(cfg, v) + [Misread(0, 2, 0, 2, stale)] + LooksLate(v, 2);
            && Legal(cfg, v, run)
            && CanAccess(cfg, After(cfg, v, run), 1, 0, 0) && CanAccess(cfg, After(cfg, v, run), 2, 0, 0)
            && After(cfg, v, run).nodes[2].mapped[0][0] == 2
  {
    var before, misread := OneHasIt(cfg, v), Misread(0, 2, 0, 2, stale);
    TwoHears(cfg, v);
    OneMore(cfg, v, before, misread);
    LooksIfItMust(cfg, v, before + [misread], 2, LooksLate(v, 2));
  }

  /** Three nodes, whatever the variant: nodes 1 and 2 both touch page 0, and node 2 reads a
      number out of a request there, though nobody ever wrote. */
  lemma TwoTouchOnePage(cfg: Config, v: Variant, stale: Page) returns (run: seq<Label>)
    requires ValidConfig(cfg) && cfg.nodes >= 3 && cfg.pages >= 3 && cfg.pageSize >= 1 && |stale| == cfg.pageSize
    ensures Legal(cfg, v, run) && !InStep(run) && Legal(cfg, v, run + [AppRead(2, 0, 0, 2)])
    ensures CanAccess(cfg, After(cfg, v, run), 1, 0, 0) && CanAccess(cfg, After(cfg, v, run), 2, 0, 0)
    ensures NobodyWrites(run) && LastWritten(run, 0, 0) == 0
  {
    var misread := Misread(0, 2, 0, 2, stale);
    run := OneHasIt(cfg, v) + [misread] + LooksLate(v, 2);
    TwoMisreads(cfg, v, stale);
    OneMore(cfg, v, run, AppRead(2, 0, 0, 2));
    assert run[|OneHasIt(cfg, v)|] == misread;
    NothingWritten(run, 0, 0);
  }

  // ---------------------------------------------------------------- exact conditions

  /** Every run is in step exactly with two nodes whose handlers wait for ownership. */
  lemma NeverMisreadIff(cfg: Config, v: Variant)
    requires ValidConfig(cfg) && cfg.nodes >= 2 && cfg.pages >= 3 && cfg.pageSize >= 1
    ensures v.waitsForOwnership && cfg.nodes <= 2 <==> forall run | Legal(cfg, v, run) :: InStep(run)
  {
    if cfg.nodes > 2 {
      var run := TwoTouchOnePage(cfg, v, Zeros(cfg.pageSize));
    } else if v.waitsForOwnership {
      forall run | Legal(cfg, v, run)
        ensures InStep(run)
      {
        WaitingTwoRoute(cfg, v, run);
      }
    } else {
      var run, l := WriteIsOverwritten(cfg, v, Zeros(cfg.pageSize));
    }
  }

  /** And so does every read return the last value written. */
  lemma ReadsReturnLastWriteIff(cfg: Config, v: Variant)
    requires ValidConfig(cfg) && cfg.nodes >= 2 && cfg.pages >= 3 && cfg.pageSize >= 1
    ensures v.waitsForOwnership && cfg.nodes <= 2
            <==> forall run, l: Label | Legal(cfg, v, run + [l]) && l.AppRead? ::
                   l.val == LastWritten(run, l.page, l.off)
  {
    if cfg.nodes > 2 {
      var run := TwoTouchOnePage(cfg, v, Zeros(cfg.pageSize));
      var l := AppRead(2, 0, 0, 2);
      assert Legal(cfg, v, run + [l]) && l.val != LastWritten(run, l.page, l.off);
    } else if v.waitsForOwnership {
      forall run, l: Label | Legal(cfg, v, run + [l]) && l.AppRead?
        ensures l.val == LastWritten(run, l.page, l.off)
      {
        WaitingTwoRoute(cfg, v, run + [l]);
        ReadsReturnLastWrite(cfg, v, run + [l], |run|);
        assert (run + [l])[..|run|] == run;
      }
    } else {
      var run, l := WriteIsOverwritten(cfg, v, Zeros(cfg.pageSize));
      assert l.val != LastWritten(run, l.page, l.off);
    }
  }

  /** What node 2 reads then, in the steps of an install. */
  lemma WrongReadInSteps(cfg: Config, v: Variant) returns (run: seq<FineInstall.FineLabel>)
    requires ValidConfig(cfg) && cfg.nodes >= 3 && cfg.pages >= 3 && cfg.pageSize >= 1
    ensures FineInstall.FineExec(cfg, v, run + [FineInstall.Coarse(AppRead(2, 0, 0, 2))]).Some?
    ensures LastWritten(FineInstall.Erase(run), 0, 0) == 0
  {
    var atomic := TwoTouchOnePage(cfg, v, Zeros(cfg.pageSize));
    run := FineInstall.Refine(atomic);
    FineInstall.CoarseRunsAreFine(cfg, v, atomic);
    assert (atomic + [AppRead(2, 0, 0, 2)])[..|atomic|] == atomic;
    FineInstall.OneMoreFine(cfg, v, run, FineInstall.Coarse(AppRead(2, 0, 0, 2)));
  }

  /** With the steps of an install as meant, reads return the last value written exactly with two
      nodes. */
  lemma InstallReadsIff(cfg: Config, v: Variant)
    requires ValidConfig(cfg) && cfg.nodes >= 2 && cfg.pages >= 3 && cfg.pageSize >= 1 && AsMeant(v)
    ensures cfg.nodes <= 2
            <==> forall run, l: Label
                   | FineInstall.FineExec(cfg, v, run + [FineInstall.Coarse(l)]).Some? && l.AppRead? ::
                   l.val == LastWritten(FineInstall.Erase(run), l.page, l.off)
  {
    if cfg.nodes > 2 {
      var run := WrongReadInSteps(cfg, v);
      var l := AppRead(2, 0, 0, 2);
      assert l.val != LastWritten(FineInstall.Erase(run), l.page, l.off);
    } else {
      forall run, l: Label | FineInstall.FineExec(cfg, v, run + [FineInstall.Coarse(l)]).Some? && l.AppRead?
        ensures l.val == LastWritten(FineInstall.Erase(run), l.page, l.off)
      {
        assert (run + [FineInstall.Coarse(l)])[..|run|] == run;
        FineInstall.FineRunsAreSimulated(cfg, v, run);
        WaitingTwoRoute(cfg, v, FineInstall.Erase(run));
        FineInstall.FineReadsReturnLastWrite(cfg, v, run, FineInstall.Coarse(l));
      }
    }
  }

  // ---------------------------------------------------------------- content that is lost for good

  /** The page does not begin with `w`. */
  predicate Without(w: Byte, body: Page) {
    body != [] ==> body[0] != w
  }

  /** The daemon of node 0 is stuck, and no copy of page 0 that anybody will ever map begins
      with `w`. */
  ghost predicate Gone(cfg: Config, s: State, w: Byte)
    requires Shaped(cfg, s)
  {
    && cfg.nodes > 0 && s.nodes[0].daemon.Stuck?
    && (forall i: nat | i < cfg.nodes && 0 in s.nodes[i].mapped :: Without(w, s.nodes[i].mapped[0]))
    && (forall x: nat, y: nat, m: Message {:trigger m in s.links[x][y]}
          | x < cfg.nodes && 0 < y < cfg.nodes && m in s.links[x][y] ::
          m.SendPage? && m.page == 0 ==> Without(w, m.body))
  }

  predicate Puts(l: Label, w: Byte) {
    l.AppWrite? && l.page == 0 && l.off == 0 && l.val == w
  }

  predicate Gets(l: Label, w: Byte) {
    l.AppRead? && l.page == 0 && l.off == 0 && l.val == w
  }

  predicate NobodyPuts(ls: seq<Label>, w: Byte) {
    forall k | 0 <= k < |ls| :: !Puts(ls[k], w)
  }

  predicate NobodyGets(ls: seq<Label>, w: Byte) {
    forall k | 0 <= k < |ls| :: !Gets(ls[k], w)
  }

  /** What a misreading puts there is the number of a page. */
  lemma MangledIsANumber(cfg: Config, s: State, l: Label, w: Byte)
    requires Shaped(cfg, s) && InRange(cfg, s) && Enabled(cfg, MEANT, s, l) && l.Misread? && cfg.pages <= w
    ensures Without(w, Mangled(l.req, l.stale))
  {
    assert PageRequest(l.req) in s.links[l.src][l.dst];
  }

  lemma GoneAtNode(cfg: Config, v: Variant, s: State, l: Label, w: Byte, i: nat)
    requires Shaped(cfg, s) && Enabled(cfg, v, s, l) && Gone(cfg, s, w) && !Puts(l, w)
    requires l.Misread? ==> Without(w, Mangled(l.req, l.stale))
    requires i < cfg.nodes && 0 in Next(cfg, v, s, l).nodes[i].mapped
    ensures Without(w, Next(cfg, v, s, l).nodes[i].mapped[0])
  {
    if l.Deliver? && l.dst == i {
      assert l.msg in s.links[l.src][i];
    }
  }

  lemma GoneOnLink(cfg: Config, v: Variant, s: State, l: Label, w: Byte, x: nat, y: nat, m: Message)
    requires Shaped(cfg, s) && Enabled(cfg, v, s, l) && Gone(cfg, s, w)
    requires x < cfg.nodes && 0 < y < cfg.nodes && m in Next(cfg, v, s, l).links[x][y] && m.SendPage? && m.page == 0
    ensures Without(w, m.body)
  {
    NoStrayMessages(cfg, v, s, l, x, y, m);
  }

  lemma GoneStep(cfg: Config, v: Variant, s: State, l: Label, w: Byte)
    requires Shaped(cfg, s) && Enabled(cfg, v, s, l) && Gone(cfg, s, w) && !Puts(l, w)
    requires InRange(cfg, s) && cfg.pages <= w
    ensures Gone(cfg, Next(cfg, v, s, l), w) && !Gets(l, w)
  {
    var s' := Next(cfg, v, s, l);
    if l.Misread? {
      MangledIsANumber(cfg, s, l, w);
    }
    forall i: nat | i < cfg.nodes && 0 in s'.nodes[i].mapped
      ensures Without(w, s'.nodes[i].mapped[0])
    {
      GoneAtNode(cfg, v, s, l, w, i);
    }
    forall x: nat, y: nat, m: Message
      | x < cfg.nodes && 0 < y < cfg.nodes && m in s'.links[x][y] && m.SendPage? && m.page == 0
      ensures Without(w, m.body)
    {
      GoneOnLink(cfg, v, s, l, w, x, y, m);
    }
  }

  lemma {:induction false} StaysGone(cfg: Config, v: Variant, run: seq<Label>, more: seq<Label>, w: Byte)
    requires ValidConfig(cfg) && Legal(cfg, v, run) && Legal(cfg, v, run + more) && cfg.pages <= w
    requires Gone(cfg, After(cfg, v, run), w) && NobodyPuts(more, w)
    ensures Gone(cfg, After(cfg, v, run + more), w) && NobodyGets(more, w)
  {
    if more == [] {
      assert run + more == run;
    } else {
      var most, l := more[..|more| - 1], more[|more| - 1];
      assert (run + more)[..|run + more| - 1] == run + most;
      assert NobodyPuts(most, w);
      StaysGone(cfg, v, run, most, w);
      StillGone(cfg, v, run + most, l, w);
      assert more == most + [l];
    }
  }

  lemma StillGone(cfg: Config, v: Variant, run: seq<Label>, l: Label, w: Byte)
    requires ValidConfig(cfg) && Legal(cfg, v, run) && Enabled(cfg, v, After(cfg, v, run), l) && cfg.pages <= w
    requires Gone(cfg, After(cfg, v, run), w) && !Puts(l, w)
    ensures Gone(cfg, Next(cfg, v, After(cfg, v, run), l), w) && !Gets(l, w)
  {
    InRangeInRuns(cfg, v, run);
    GoneStep(cfg, v, After(cfg, v, run), l, w);
  }

  /** Node 0 writes `w`; nodes 1 and 2 ask for the page; node 1 gets it, and gives it back to the
      daemon of node 0, which has faulted serving node 2 and reads nothing any more. */
  function Losing(cfg: Config, w: Byte): seq<Label>
    requires cfg.pageSize >= 1
  {
    [AppWrite(0, 0, 0, w)] + [Asking()] + [Fault(2, 0, 0)] + [Giving()] + [DaemonFault(2, 0, 0, 1)]
    + [Deliver(0, 1, SendPage(0, Zeros(cfg.pageSize)[0 := w]))] + [Deliver(0, 1, PageRequest(0))]
  }

  lemma WritesThenAsks(cfg: Config, v: Variant, w: Byte)
    requires ValidConfig(cfg) && cfg.nodes >= 3 && cfg.pages >= 1 && cfg.pageSize >= 1 && AsMeant(v)
    ensures var run := [AppWrite(0, 0, 0, w)] + [Asking()] + [Fault(2, 0, 0)];
            && Legal(cfg, v, run)
            && var s := After(cfg, v, run);
               && s.nodes[0] == InitialNode(cfg, 0).(mapped := s.nodes[0].mapped)
               && 0 in s.nodes[0].mapped && s.nodes[0].mapped[0] == Zeros(cfg.pageSize)[0 := w]
               && s.nodes[1] == InitialNode(cfg, 1).(app := Waiting(0))
               && s.links[1][0] == [PageRequest(0)] && s.links[2][0] == [PageRequest(0)]
               && s.links[0][1] == []
  {
    var write := AppWrite(0, 0, 0, w);
    FirstHome(cfg);
    OneMore(cfg, v, [], write);
    assert [] + [write] == [write];
    OneMore(cfg, v, [write], Asking());
    OneMore(cfg, v, [write] + [Asking()], Fault(2, 0, 0));
  }

  lemma GivesWhatItWrote(cfg: Config, v: Variant, w: Byte)
    requires ValidConfig(cfg) && cfg.nodes >= 3 && cfg.pages >= 1 && cfg.pageSize >= 1 && AsMeant(v)
    ensures var run := [AppWrite(0, 0, 0, w)] + [Asking()] + [Fault(2, 0, 0)] + [Giving()];
            && Legal(cfg, v, run)
            && var s := After(cfg, v, run);
               && s.nodes[0].daemon.Serving? && 0 !in s.nodes[0].mapped && s.nodes[0].table[0].owner == 1
               && s.nodes[1].daemon.Serving? && 0 !in s.nodes[1].mapped
               && s.links[2][0] == [PageRequest(0)]
               && s.links[0][1] == [SendPage(0, Zeros(cfg.pageSize)[0 := w])]
  {
    WritesThenAsks(cfg, v, w);
    OneMore(cfg, v, [AppWrite(0, 0, 0, w)] + [Asking()] + [Fault(2, 0, 0)], Giving());
  }

  lemma LosingIsLegal(cfg: Config, v: Variant, w: Byte)
    requires ValidConfig(cfg) && cfg.nodes >= 3 && cfg.pages >= 1 && cfg.pageSize >= 1 && AsMeant(v)
    ensures Legal(cfg, v, Losing(cfg, w)) && After(cfg, v, Losing(cfg, w)).nodes[0].daemon.Stuck?
  {
    var body := Zeros(cfg.pageSize)[0 := w];
    var run := [AppWrite(0, 0, 0, w)] + [Asking()] + [Fault(2, 0, 0)] + [Giving()];
    GivesWhatItWrote(cfg, v, w);
    var l := DaemonFaultsNext(cfg, v, run, 2, 0, 0);
    var s := After(cfg, v, run + [l]);
    assert s.links[0][1] == [SendPage(0, body)] + [PageRequest(0)];
    OneMore(cfg, v, run + [l], Deliver(0, 1, SendPage(0, body)));
    OneMore(cfg, v, run + [l] + [Deliver(0, 1, SendPage(0, body))], Deliver(0, 1, PageRequest(0)));
  }

  /** Where the only copy is then: on its way to a daemon that never reads it. */
  lemma LostOnItsWay(cfg: Config, v: Variant, w: Byte)
    requires ValidConfig(cfg) && cfg.nodes >= 3 && cfg.pages >= 1 && cfg.pageSize >= 1 && AsMeant(v)
    requires Legal(cfg, v, Losing(cfg, w)) && After(cfg, v, Losing(cfg, w)).nodes[0].daemon.Stuck?
    ensures Gone(cfg, After(cfg, v, Losing(cfg, w)), w)
  {
    var run := Losing(cfg, w);
    var s := After(cfg, v, run);
    assert PlaceAfter(cfg, run, 0) == OnLink(1, 0);
    SingleCopyInRuns(cfg, v, run, 0);
    forall x: nat, y: nat, m: Message | x < cfg.nodes && 0 < y < cfg.nodes && m in s.links[x][y]
      ensures m.SendPage? && m.page == 0 ==> Without(w, m.body)
    {
      CostOfMember(CopyOf(0), s.links[x][y], m);
    }
  }

  lemma {:induction false} NotWrittenSince(run: seq<Label>, more: seq<Label>, p: nat, off: nat)
    requires NobodyWrites(more)
    ensures LastWritten(run + more, p, off) == LastWritten(run, p, off)
  {
    if more == [] {
      assert run + more == run;
    } else {
      var most := more[..|more| - 1];
      assert (run + more)[..|run + more| - 1] == run + most;
      NotWrittenSince(run, most, p, off);
    }
  }

  lemma WrittenLast(cfg: Config, w: Byte)
    requires cfg.pageSize >= 1
    ensures LastWritten(Losing(cfg, w), 0, 0) == w
  {
    var run, write := Losing(cfg, w), [AppWrite(0, 0, 0, w)];
    NotWrittenSince(write, run[1..], 0, 0);
    assert write + run[1..] == run;
    assert LastWritten(write, 0, 0) == w;
  }

  /** With three or more nodes what was written can be lost for good, misreadings or not: after
      this run nobody ever reads it again unless somebody writes it again. The value is any byte
      that is not the number of a page. */
  lemma PageLost(cfg: Config, v: Variant, w: Byte)
    requires ValidConfig(cfg) && cfg.nodes >= 3 && 1 <= cfg.pages <= w && cfg.pageSize >= 1 && AsMeant(v)
    ensures Legal(cfg, v, Losing(cfg, w)) && LastWritten(Losing(cfg, w), 0, 0) == w
    ensures forall more | Legal(cfg, v, Losing(cfg, w) + more) && NobodyPuts(more, w) :: NobodyGets(more, w)
  {
    LosingIsLegal(cfg, v, w);
    LostOnItsWay(cfg, v, w);
    WrittenLast(cfg, w);
    forall more | Legal(cfg, v, Losing(cfg, w) + more) && NobodyPuts(more, w)
      ensures NobodyGets(more, w)
    {
      StaysGone(cfg, v, Losing(cfg, w), more, w);
    }
  }

  /** The same with the steps of an install, in which a lone header is mapped before anything is
      read for it. */
  lemma PageLostInSteps(cfg: Config, v: Variant, w: Byte)
    requires ValidConfig(cfg) && cfg.nodes >= 3 && 1 <= cfg.pages <= w && cfg.pageSize >= 1 && AsMeant(v)
    ensures var run := FineInstall.Refine(Losing(cfg, w));
            && FineInstall.FineExec(cfg, v, run).Some? && FineInstall.Erase(run) == Losing(cfg, w)
            && forall more | FineInstall.FineExec(cfg, v, run + more).Some? && NobodyPuts(FineInstall.Erase(more), w) ::
                 NobodyGets(FineInstall.Erase(more), w)
  {
    var run := FineInstall.Refine(Losing(cfg, w));
    PageLost(cfg, v, w);
    FineInstall.CoarseRunsAreFine(cfg, v, Losing(cfg, w));
    forall more | FineInstall.FineExec(cfg, v, run + more).Some? && NobodyPuts(FineInstall.Erase(more), w)
      ensures NobodyGets(FineInstall.Erase(more), w)
    {
      FineInstall.FineRunsAreSimulated(cfg, v, run + more);
      FineInstall.EraseAppend(run, more);
    }
  }
}
