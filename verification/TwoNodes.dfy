/**
 Routing and progress. Deliveries terminate whatever the number of nodes; with two nodes
 they also never get stuck: every request finds its page mapped when its turn comes, because
 a page sent earlier on the same FIFO is installed first, so no daemon ever faults. This needs
 giving to be one step; FineRouting.dfy says what its steps do to it. When nothing is left to
 deliver both tables name the node that maps each page, and nobody waits, provided a thread
 sees the ownership it waited for before it is gone again.
 */
module TwoNodes {
  import opened Basics
  import opened Protocol
  import opened Traffic
  import opened SingleCopy
  import opened Requests
  import opened OwnerHints

  // ---------------------------------------------------------------- termination, any N

  lemma {:induction false} RowCostAllBut(w: Weight, row: Row, me: int)
    requires forall d | 0 <= d < |row| :: QueueCost(w, row[d]) == if d == me then 0 else 1
    ensures RowCost(w, row) == |row| - if 0 <= me < |row| then 1 else 0
  {
    if row == [] {
    } else {
      RowCostAllBut(w, row[1..], me - 1);
    }
  }

  lemma GrantMailWork(n: nat, me: nat, dest: nat, p: nat, body: Page)
    requires me < n && dest < n && me != dest
    ensures RowCost(Work(n), GrantMail(n, me, dest, p, body)) == n - 1
  {
    CostOfSingleton(Work(n), SendPage(p, body));
    CostOfSingleton(Work(n), SendInfo(p, dest));
    RowCostAllBut(Work(n), GrantMail(n, me, dest, p, body), me);
  }

  function WorkLeft(cfg: Config, s: State): nat {
    LinksCost(Work(cfg.nodes), s.links)
  }

  /** A delivery always leaves less to deliver: a request outweighs the N - 1 messages it causes. */
  lemma DeliveryShrinksWork(cfg: Config, v: Variant, s: State, l: Label)
    requires Shaped(cfg, s) && Enabled(cfg, v, s, l) && l.Deliver?
    ensures WorkLeft(cfg, Next(cfg, v, s, l)) < WorkLeft(cfg, s)
  {
    var w, n := Work(cfg.nodes), cfg.nodes;
    var popped := Pop(s.links, l.src, l.dst);
    var out := Handle(n, v, l.dst, s.nodes[l.dst], l.src, l.msg).out;
    LinksCostPop(w, s.links, l.src, l.dst);
    LinksCostPush(w, popped, l.dst, out);
    if l.msg.PageRequest? {
      GrantMailWork(n, l.dst, l.src, l.msg.page, s.nodes[l.dst].mapped[l.msg.page]);
    } else {
      RowCostOne(w, out, -1, 0);
    }
  }

  /** Nor does a misreading add any. */
  lemma MisreadShrinksWork(cfg: Config, v: Variant, s: State, l: Label)
    requires Shaped(cfg, s) && Enabled(cfg, v, s, l) && l.Misread?
    ensures WorkLeft(cfg, Next(cfg, v, s, l)) <= WorkLeft(cfg, s)
  {
    var w, a, b := Work(cfg.nodes), l.src, l.dst;
    var q := [Scrap(l.req)] + s.links[a][b][2..];
    MisreadCost(w, l.page, l.req, s.links[a][b]);
    RowCostUpdate(w, s.links[a], b, q);
    LinksCostUpdate(w, s.links, a, s.links[a][b := q]);
  }

  predicate OnlyDeliveries(ls: seq<Label>) {
    forall k | 0 <= k < |ls| :: ls[k].Deliver?
  }

  /** Neither a thread nor a daemon faults; threads may go on touching their pages. */
  predicate FaultFree(ls: seq<Label>) {
    forall k | 0 <= k < |ls| :: !ls[k].Fault? && !ls[k].DaemonFault?
  }

  function Deliveries(ls: seq<Label>): nat {
    if ls == [] then 0
    else Deliveries(ls[..|ls| - 1]) + if ls[|ls| - 1].Deliver? then 1 else 0
  }

  /** However long a run goes on without new faults, it contains no more deliveries than there
      was work left. */
  lemma {:induction false} DeliveriesTerminate(cfg: Config, v: Variant, run: seq<Label>, more: seq<Label>)
    requires ValidConfig(cfg) && Legal(cfg, v, run) && Legal(cfg, v, run + more) && FaultFree(more)
    ensures Deliveries(more) + WorkLeft(cfg, After(cfg, v, run + more)) <= WorkLeft(cfg, After(cfg, v, run))
  {
    if more == [] {
      assert run + more == run;
    } else {
      var most, l := more[..|more| - 1], more[|more| - 1];
      assert (run + more)[..|run + more| - 1] == run + most;
      DeliveriesTerminate(cfg, v, run, most);
      if l.Deliver? {
        DeliveryShrinksWork(cfg, v, After(cfg, v, run + most), l);
      } else if l.Misread? {
        MisreadShrinksWork(cfg, v, After(cfg, v, run + most), l);
      }
    }
  }

  // ---------------------------------------------------------------- routing, N = 2

  /** The pages of a node once everything on one incoming link has been handled in order. */
  function Drained(has: set<nat>, q: Queue): set<nat>
    decreases q
  {
    if q == [] then has
    else
      match q[0]
      case SendPage(p, _) => Drained(has + {p}, q[1..])
      case PageRequest(p) => Drained(has - {p}, q[1..])
      case _ => Drained(has, q[1..])
  }

  /** Every request on the link finds its page when its turn comes. */
  predicate Routable(has: set<nat>, q: Queue)
    decreases q
  {
    if q == [] then true
    else
      match q[0]
      case SendPage(p, _) => Routable(has + {p}, q[1..])
      case PageRequest(p) => p in has && Routable(has - {p}, q[1..])
      case _ => Routable(has, q[1..])
  }

  lemma {:induction false} RoutableAppend(has: set<nat>, q: Queue, m: Message)
    ensures Routable(has, q + [m])
            <==> Routable(has, q) && (m.PageRequest? ==> m.page in Drained(has, q))
    decreases q
  {
    if q == [] {
      assert (q + [m])[1..] == [];
    } else {
      assert (q + [m])[1..] == q[1..] + [m];
      match q[0]
      case SendPage(p, _) => RoutableAppend(has + {p}, q[1..], m);
      case PageRequest(p) => RoutableAppend(has - {p}, q[1..], m);
      case _ => RoutableAppend(has, q[1..], m);
    }
  }

  /** Without requests on the link nothing leaves. */
  lemma {:induction false} DrainedKeeps(has: set<nat>, q: Queue, p: nat)
    requires QueueCost(AnyRequest, q) == 0
    requires p in has || QueueCost(CopyOf(p), q) > 0
    ensures p in Drained(has, q)
    decreases q
  {
    if q == [] {
    } else {
      match q[0]
      case SendPage(r, _) => DrainedKeeps(has + {r}, q[1..], p);
      case PageRequest(r) => assert false;
      case _ => DrainedKeeps(has, q[1..], p);
    }
  }

  ghost predicate AllRoutable(cfg: Config, s: State)
    requires Shaped(cfg, s)
  {
    forall i: nat, j: nat | i < cfg.nodes && j < cfg.nodes && i != j ::
      Routable(s.nodes[i].mapped.Keys, s.links[j][i])
  }

  /** A faulting node's request will find the page: it is mapped at the other node, or this node
      has sent it there before. */
  lemma FaultIsRoutable(cfg: Config, v: Variant, s: State, l: Label, pd: Pending, pl: Place)
    requires Shaped(cfg, s) && cfg.nodes == 2 && l.Fault? && Enabled(cfg, v, s, l)
    requires NeverSelf(cfg, s) && Owed(cfg, v, s, l.node, pd) && OnlyAt(cfg, s, l.page, pl)
    requires l.to < 2 ==> !Stale(s, l.node, l.to)
    ensures l.to == 1 - l.node
    ensures l.page in Drained(s.nodes[l.to].mapped.Keys, s.links[l.node][l.to])
  {
    var i, j, p := l.to, l.node, l.page;
    assert pd.Idle?;
    if pl == OnLink(i, j) {
      var m := CostWitness(CopyOf(p), s.links[i][j]);
      assert false;
    }
    DrainedKeeps(s.nodes[i].mapped.Keys, s.links[j][i], p);
  }

  lemma RoutableStep(cfg: Config, v: Variant, s: State, l: Label, i: nat, j: nat)
    requires Shaped(cfg, s) && cfg.nodes == 2 && Enabled(cfg, v, s, l)
    requires i < 2 && j < 2 && i != j
    requires AllRoutable(cfg, s) && !l.DaemonFault? && !l.Misread?
    requires l.Fault? && l.node == j ==>
               l.to == i && l.page in Drained(s.nodes[i].mapped.Keys, s.links[j][i])
    ensures Routable(Next(cfg, v, s, l).nodes[i].mapped.Keys, Next(cfg, v, s, l).links[j][i])
  {
    var s' := Next(cfg, v, s, l);
    var has, q := s.nodes[i].mapped.Keys, s.links[j][i];
    assert Routable(has, q);
    LinkAfter(cfg, v, s, l, j, i);
    if l.Deliver? && l.src == j && l.dst == i {
      assert s'.links[j][i] == q[1..];
      match l.msg
      case SendPage(p, _) => assert s'.nodes[i].mapped.Keys == has + {p};
      case PageRequest(p) => assert s'.nodes[i].mapped.Keys == has - {p};
      case SendInfo(_, _) => assert s'.nodes[i].mapped.Keys == has;
    } else {
      assert s'.nodes[i].mapped.Keys == has;
      var sent := Emitted(cfg, v, s, l, j, i);
      if sent == [] {
        assert s'.links[j][i] == q;
      } else {
        RoutableAppend(has, q, sent[0]);
      }
    }
  }

  /** No daemon is in its own fault handler. */
  ghost predicate AllServing(s: State) {
    forall i: nat | i < |s.nodes| :: s.nodes[i].daemon.Serving?
  }

  lemma RoutableMeansMapped(cfg: Config, s: State, a: nat, b: nat, p: nat)
    requires Shaped(cfg, s) && AllRoutable(cfg, s) && AtHead(cfg, s, a, b, PageRequest(p))
    ensures p in s.nodes[b].mapped
  {
    assert Routable(s.nodes[b].mapped.Keys, s.links[a][b]);
  }

  /** While all daemons serve no link carries a header or a scrap. */
  lemma NoMarksWhileServing(cfg: Config, v: Variant, run: seq<Label>)
    requires ValidConfig(cfg) && Legal(cfg, v, run) && AllServing(After(cfg, v, run))
    ensures forall x: nat, y: nat | x < cfg.nodes && y < cfg.nodes :: Unmarked(After(cfg, v, run).links[x][y])
  {
    HeadersInRuns(cfg, v, run);
    var s := After(cfg, v, run);
    forall x: nat, y: nat | x < cfg.nodes && y < cfg.nodes
      ensures Unmarked(s.links[x][y])
    {
      ServingIsUnmarked(s.nodes[x].daemon, y, s.links[x][y]);
    }
  }

  /** So nobody misreads one. */
  lemma ServingMisreadsNothing(cfg: Config, v: Variant, run: seq<Label>, l: Label)
    requires ValidConfig(cfg) && Legal(cfg, v, run) && AllServing(After(cfg, v, run))
    requires Enabled(cfg, v, After(cfg, v, run), l)
    ensures !l.Misread?
  {
    NoMarksWhileServing(cfg, v, run);
  }

  lemma RunFaultIsRoutable(cfg: Config, v: Variant, run: seq<Label>, l: Label)
    requires ValidConfig(cfg) && Legal(cfg, v, run) && cfg.nodes == 2 && AsMeant(v)
    requires AllServing(After(cfg, v, run)) && InStep(run) && l.Fault? && Enabled(cfg, v, After(cfg, v, run), l)
    ensures l.to == 1 - l.node
    ensures l.page in Drained(After(cfg, v, run).nodes[l.to].mapped.Keys, After(cfg, v, run).links[l.node][l.to])
  {
    NeverSelfInRuns(cfg, v, run);
    OwedInRuns(cfg, v, run, l.node);
    SingleCopyInRuns(cfg, v, run, l.page);
    NoMarksWhileServing(cfg, v, run);
    FaultIsRoutable(cfg, v, After(cfg, v, run), l, PendingAfter(run, l.node), PlaceAfter(cfg, run, l.page));
  }

  lemma RoutableNext(cfg: Config, v: Variant, run: seq<Label>, l: Label)
    requires ValidConfig(cfg) && Legal(cfg, v, run) && cfg.nodes == 2 && AsMeant(v) && InStep(run)
    requires AllRoutable(cfg, After(cfg, v, run)) && AllServing(After(cfg, v, run))
    requires Enabled(cfg, v, After(cfg, v, run), l)
    ensures !l.Misread? && AllRoutable(cfg, Next(cfg, v, After(cfg, v, run), l))
    ensures AllServing(Next(cfg, v, After(cfg, v, run), l))
  {
    var s := After(cfg, v, run);
    ServingMisreadsNothing(cfg, v, run, l);
    if l.DaemonFault? {
      RoutableMeansMapped(cfg, s, l.src, l.dst, l.page);
      assert false;
    }
    if l.Fault? {
      RunFaultIsRoutable(cfg, v, run, l);
    }
    forall i: nat, j: nat | i < 2 && j < 2 && i != j
      ensures Routable(Next(cfg, v, s, l).nodes[i].mapped.Keys, Next(cfg, v, s, l).links[j][i])
    {
      RoutableStep(cfg, v, s, l, i, j);
    }
  }

  lemma {:induction false} RoutableInRuns(cfg: Config, v: Variant, run: seq<Label>)
    requires ValidConfig(cfg) && Legal(cfg, v, run) && cfg.nodes == 2 && AsMeant(v)
    ensures AllRoutable(cfg, After(cfg, v, run)) && AllServing(After(cfg, v, run)) && InStep(run)
  {
    if run == [] {
    } else {
      InStepLast(run);
      RoutableInRuns(cfg, v, run[..|run| - 1]);
      RoutableNext(cfg, v, run[..|run| - 1], run[|run| - 1]);
    }
  }

  /** A request at the head of its link is at a node that has the page mapped. */
  ghost predicate RequestsFindPages(cfg: Config, s: State)
    requires Shaped(cfg, s)
  {
    forall i: nat, j: nat | i < cfg.nodes && j < cfg.nodes && i != j ::
      s.links[j][i] != [] && s.links[j][i][0].PageRequest?
      ==> s.links[j][i][0].page in s.nodes[i].mapped
  }

  /** With two nodes every request finds its page, no daemon ever faults, and nothing is misread. */
  lemma TwoNodeRouting(cfg: Config, v: Variant, run: seq<Label>)
    requires ValidConfig(cfg) && Legal(cfg, v, run) && cfg.nodes == 2 && AsMeant(v)
    ensures RequestsFindPages(cfg, After(cfg, v, run)) && AllServing(After(cfg, v, run)) && InStep(run)
  {
    RoutableInRuns(cfg, v, run);
  }

  // ---------------------------------------------------------------- progress, N = 2

  /** With two nodes nobody is left to inform, so only the holder's own moves touch its entry. */
  ghost predicate HoldersKnow(cfg: Config, s: State)
    requires Shaped(cfg, s)
  {
    && (forall i: nat, p: nat | i < cfg.nodes && p < cfg.pages && p in s.nodes[i].mapped ::
          s.nodes[i].table[p].owner == i)
    && (forall x: nat, y: nat, m: Message {:trigger m in s.links[x][y]}
          | x < cfg.nodes && y < cfg.nodes && m in s.links[x][y] ::
          !m.SendInfo?)
  }

  lemma HoldersKnowNode(cfg: Config, v: Variant, s: State, l: Label, i: nat, p: nat)
    requires Shaped(cfg, s) && cfg.nodes == 2 && Enabled(cfg, v, s, l) && HoldersKnow(cfg, s)
    requires i < 2 && p < cfg.pages && p in Next(cfg, v, s, l).nodes[i].mapped
    ensures Next(cfg, v, s, l).nodes[i].table[p].owner == i
  {
    if l.Deliver? {
      assert l.msg in s.links[l.src][l.dst];
    }
  }

  lemma HoldersKnowStep(cfg: Config, v: Variant, s: State, l: Label)
    requires Shaped(cfg, s) && cfg.nodes == 2 && Enabled(cfg, v, s, l) && HoldersKnow(cfg, s)
    ensures HoldersKnow(cfg, Next(cfg, v, s, l))
  {
    var s' := Next(cfg, v, s, l);
    forall i: nat, p: nat | i < 2 && p < cfg.pages && p in s'.nodes[i].mapped
      ensures s'.nodes[i].table[p].owner == i
    {
      HoldersKnowNode(cfg, v, s, l, i, p);
    }
    forall x: nat, y: nat, m: Message | x < cfg.nodes && y < cfg.nodes && m in s'.links[x][y]
      ensures !m.SendInfo?
    {
      NoStrayMessages(cfg, v, s, l, x, y, m);
    }
  }

  lemma {:induction false} HoldersKnowInRuns(cfg: Config, v: Variant, run: seq<Label>)
    requires ValidConfig(cfg) && Legal(cfg, v, run) && cfg.nodes == 2
    ensures HoldersKnow(cfg, After(cfg, v, run))
  {
    if run == [] {
    } else {
      HoldersKnowInRuns(cfg, v, run[..|run| - 1]);
      HoldersKnowStep(cfg, v, After(cfg, v, run[..|run| - 1]), run[|run| - 1]);
    }
  }

  ghost predicate Quiescent(cfg: Config, s: State)
    requires Shaped(cfg, s)
  {
    forall x: nat, y: nat | x < cfg.nodes && y < cfg.nodes :: s.links[x][y] == []
  }

  /** Every message at the head of a link can be delivered. */
  lemma HeadsAreDeliverable(cfg: Config, v: Variant, run: seq<Label>, x: nat, y: nat)
    requires ValidConfig(cfg) && Legal(cfg, v, run) && cfg.nodes == 2 && AsMeant(v)
    requires x < 2 && y < 2 && After(cfg, v, run).links[x][y] != []
    ensures Legal(cfg, v, run + [Deliver(x, y, After(cfg, v, run).links[x][y][0])])
  {
    var s := After(cfg, v, run);
    NeverSelfInRuns(cfg, v, run);
    TwoNodeRouting(cfg, v, run);
    NoMarksWhileServing(cfg, v, run);
    assert Unmarked(s.links[x][y]);
    OneMore(cfg, v, run, Deliver(x, y, s.links[x][y][0]));
  }

  /** At rest both tables name the node that maps the page. */
  lemma AgreedAtRest(cfg: Config, v: Variant, run: seq<Label>, p: nat)
    requires ValidConfig(cfg) && Legal(cfg, v, run) && cfg.nodes == 2 && v.recordsGrant
    requires Quiescent(cfg, After(cfg, v, run)) && p < cfg.pages
    ensures Agreed(cfg, After(cfg, v, run), p)
  {
    var s, pl := After(cfg, v, run), PlaceAfter(cfg, run, p);
    if !InStep(run) {
      var x, y := ScrapStays(cfg, v, run);
      assert false;
    }
    NeverSelfInRuns(cfg, v, run);
    HoldersKnowInRuns(cfg, v, run);
    SingleCopyInRuns(cfg, v, run, p);
    if pl.OnLink? {
      assert false;
    }
    assert p in s.nodes[pl.node].mapped;
    assert s.nodes[pl.node].table[p].owner == pl.node;
    assert p !in s.nodes[1 - pl.node].mapped;
  }

  /** At rest both tables are right, and nobody waits, if a thread that got its page goes on at
      once. */
  lemma AtRest(cfg: Config, v: Variant, run: seq<Label>)
    requires ValidConfig(cfg) && Legal(cfg, v, run) && cfg.nodes == 2 && AsMeant(v)
    requires Quiescent(cfg, After(cfg, v, run))
    ensures v.wakesAtOnce ==> forall i: nat | i < 2 :: After(cfg, v, run).nodes[i].app.Running?
    ensures forall p: nat | p < cfg.pages :: Agreed(cfg, After(cfg, v, run), p)
  {
    var s := After(cfg, v, run);
    TwoNodeRouting(cfg, v, run);
    forall i: nat | i < 2 && v.wakesAtOnce
      ensures s.nodes[i].app.Running?
    {
      OwedInRuns(cfg, v, run, i);
      assert s.links[i][0] == s.links[i][1] == s.links[0][i] == s.links[1][i] == [];
    }
    forall p: nat | p < cfg.pages { AgreedAtRest(cfg, v, run, p); }
  }

  /** Until the system is at rest some delivery can be made, and it leaves less to deliver. */
  lemma SomeDelivery(cfg: Config, v: Variant, run: seq<Label>) returns (l: Label)
    requires ValidConfig(cfg) && Legal(cfg, v, run) && cfg.nodes == 2 && AsMeant(v)
    requires !Quiescent(cfg, After(cfg, v, run))
    ensures l.Deliver? && Legal(cfg, v, run + [l])
    ensures WorkLeft(cfg, After(cfg, v, run + [l])) < WorkLeft(cfg, After(cfg, v, run))
  {
    var s := After(cfg, v, run);
    var x: nat, y: nat :| x < cfg.nodes && y < cfg.nodes && s.links[x][y] != [];
    l := Deliver(x, y, s.links[x][y][0]);
    HeadsAreDeliverable(cfg, v, run, x, y);
    assert (run + [l])[..|run|] == run;
    DeliveryShrinksWork(cfg, v, s, l);
  }

  /** From every reachable state the pending deliveries lead to rest, where `AtRest` holds: with
      threads that go on at once, whoever waits is served. */
  lemma {:induction false} DeliveriesLeadToRest(cfg: Config, v: Variant, run: seq<Label>) returns (more: seq<Label>)
    requires ValidConfig(cfg) && Legal(cfg, v, run) && cfg.nodes == 2 && AsMeant(v)
    ensures OnlyDeliveries(more) && Legal(cfg, v, run + more)
    ensures |more| <= WorkLeft(cfg, After(cfg, v, run))
    ensures Quiescent(cfg, After(cfg, v, run + more))
    ensures v.wakesAtOnce ==> forall i: nat | i < 2 :: After(cfg, v, run + more).nodes[i].app.Running?
    decreases WorkLeft(cfg, After(cfg, v, run))
  {
    if Quiescent(cfg, After(cfg, v, run)) {
      more := [];
      assert run + more == run;
      AtRest(cfg, v, run);
    } else {
      var l := SomeDelivery(cfg, v, run);
      var rest := DeliveriesLeadToRest(cfg, v, run + [l]);
      more := [l] + rest;
      Associative(run, [l], rest);
    }
  }
}
