/**
 The written order of dsm_send_page, reduced to the atomic give of the protocol, for any number
 of nodes and under the one condition that matters: the giver's thread does not write the page
 between the copy and the unmapping. What that thread does between shipping and unmapping
 commutes with whatever the other nodes do meanwhile, so it is moved in front of the give;
 every thread keeps the order of its own steps. This needs a handler that waits for ownership:
 a thread that asks the receiver of the page for another page is then held until the give is
 over.
 */
module GiveReduction {
  import opened Basics
  import opened Protocol
  import opened Traffic
  import opened FlatMemory
  import opened Requests
  import opened FineGive
  import opened GiveSimulation

  // ---------------------------------------------------------------- moving a step to the left

  /** The step is one of the application thread of node i. */
  predicate OfThread(l: Label, i: nat) {
    !OfDaemon(l) && l.node == i
  }

  /** The run with one more step before its step d. */
  function Inserted(run: seq<Label>, d: nat, l: Label): (r: seq<Label>)
    requires d <= |run|
  {
    run[..d] + [l] + run[d..]
  }

  /** A message put in front of the last y of a queue. */
  function Squeezed(q: Queue, y: nat, m: Message): Queue
    requires y <= |q|
  {
    q[..|q| - y] + [m] + q[|q| - y..]
  }

  /** Step l of node j's thread sends a request from x to y. */
  predicate AsksOn(l: Label, j: nat, x: nat, y: nat) {
    l.Fault? && x == j && y == l.to
  }

  /** How many messages of the give go out behind that request: the news for a third node. */
  function Behindhand(l: Label, j: nat, dest: nat): nat {
    if l.Fault? && l.to != j && l.to != dest then 1 else 0
  }

  /** The step may be moved in front of a give of p by j to dest. */
  predicate Movable(cfg: Config, l: Label, j: nat, dest: nat, p: nat) {
    && OfThread(l, j)
    && (l.AppWrite? ==> l.page != p)
    && (l.Fault? ==> l.to < cfg.nodes && l.to != dest)
  }

  /** s' is s with the step l of j's thread taken before the give: only node j and the link it
      asked on differ. */
  ghost predicate Alike(cfg: Config, s: State, s': State, l: Label, j: nat, dest: nat, node: Node)
    requires Shaped(cfg, s) && Shaped(cfg, s')
  {
    && (forall i: nat | i < cfg.nodes :: s'.nodes[i] == if i == j then node else s.nodes[i])
    && (forall x: nat, y: nat | x < cfg.nodes && y < cfg.nodes :: AlikeLink(s, s', l, j, dest, x, y))
  }

  ghost predicate AlikeLink(s: State, s': State, l: Label, j: nat, dest: nat, x: nat, y: nat)
    requires x < |s.links| && y < |s.links[x]| && x < |s'.links| && y < |s'.links[x]|
  {
    var q, late := s.links[x][y], Behindhand(l, j, dest);
    if AsksOn(l, j, x, y) then
      && late <= |q| && (late > 0 ==> q[|q| - 1].SendInfo?) && Unmarked(q)
      && s'.links[x][y] == Squeezed(q, late, PageRequest(l.page))
    else s'.links[x][y] == q
  }

  /** A thread's step depends on its own node alone, and changes no other. */
  lemma ThreadStepIsLocal(cfg: Config, v: Variant, s: State, t: State, l: Label, j: nat)
    requires Shaped(cfg, s) && Shaped(cfg, t) && j < cfg.nodes && s.nodes[j] == t.nodes[j]
    requires OfThread(l, j) && Enabled(cfg, v, s, l)
    ensures Enabled(cfg, v, t, l) && Next(cfg, v, s, l).nodes[j] == Next(cfg, v, t, l).nodes[j]
    ensures forall i: nat | i < cfg.nodes && i != j :: Next(cfg, v, t, l).nodes[i] == t.nodes[i]
  {
  }

  /** A thread's step leaves its node able to give any page it does not write. */
  lemma StillGives(cfg: Config, v: Variant, s: State, l: Label, j: nat, dest: nat, p: nat)
    requires Shaped(cfg, s) && Enabled(cfg, v, s, l) && j < cfg.nodes && Movable(cfg, l, j, dest, p)
    requires Enabled(cfg, v, s, Deliver(dest, j, PageRequest(p)))
    ensures Enabled(cfg, v, Next(cfg, v, s, l), Deliver(dest, j, PageRequest(p)))
    ensures Next(cfg, v, s, l).nodes[j].mapped[p] == s.nodes[j].mapped[p]
  {
    LinkAfter(cfg, v, s, l, dest, j);
  }

  lemma GiveLinkAlike(cfg: Config, v: Variant, s: State, l: Label, j: nat, dest: nat, p: nat, x: nat, y: nat)
    requires Shaped(cfg, s) && Enabled(cfg, v, s, l) && j < cfg.nodes && Movable(cfg, l, j, dest, p)
    requires Enabled(cfg, v, s, Deliver(dest, j, PageRequest(p)))
    requires Enabled(cfg, v, Next(cfg, v, s, l), Deliver(dest, j, PageRequest(p)))
    requires Next(cfg, v, s, l).nodes[j].mapped[p] == s.nodes[j].mapped[p]
    requires x < cfg.nodes && y < cfg.nodes && Unmarked(s.links[j][y])
    ensures var give := Deliver(dest, j, PageRequest(p));
            AlikeLink(Next(cfg, v, s, give), Next(cfg, v, Next(cfg, v, s, l), give), l, j, dest, x, y)
  {
    var give, s1 := Deliver(dest, j, PageRequest(p)), Next(cfg, v, s, l);
    LinkAfter(cfg, v, s, l, x, y);
    LinkAfter(cfg, v, s, give, x, y);
    LinkAfter(cfg, v, s1, give, x, y);
  }

  /** The step and the give, in either order. */
  lemma GiveAlike(cfg: Config, v: Variant, s: State, l: Label, j: nat, dest: nat, p: nat)
    requires Shaped(cfg, s) && Enabled(cfg, v, s, l) && j < cfg.nodes && Movable(cfg, l, j, dest, p)
    requires Enabled(cfg, v, s, Deliver(dest, j, PageRequest(p))) && HeaderMeansStuck(cfg, s)
    ensures var give, s1 := Deliver(dest, j, PageRequest(p)), Next(cfg, v, s, l);
            && Enabled(cfg, v, s1, give)
            && Alike(cfg, Next(cfg, v, s, give), Next(cfg, v, s1, give), l, j, dest,
                     GiveUp(v, j, s1.nodes[j], dest, p))
  {
    var give, s1 := Deliver(dest, j, PageRequest(p)), Next(cfg, v, s, l);
    StillGives(cfg, v, s, l, j, dest, p);
    ThreadStepIsLocal(cfg, v, s, s, l, j);
    forall x: nat, y: nat | x < cfg.nodes && y < cfg.nodes
      ensures AlikeLink(Next(cfg, v, s, give), Next(cfg, v, s1, give), l, j, dest, x, y)
    {
      assert SenderIsStuck(s.nodes[j].daemon, y, s.links[j][y]);
      ServingIsUnmarked(s.nodes[j].daemon, y, s.links[j][y]);
      GiveLinkAlike(cfg, v, s, l, j, dest, p, x, y);
    }
  }

  /** The other nodes do not see the difference: as long as no news of the give is read, what they
      do before and after stays alike. */
  lemma AlikeEnables(cfg: Config, v: Variant, s: State, s': State, m: Label, l: Label, j: nat, dest: nat, node: Node)
    requires Shaped(cfg, s) && Shaped(cfg, s') && j < cfg.nodes && Alike(cfg, s, s', l, j, dest, node)
    requires Enabled(cfg, v, s, m) && Mover(m) != j
    requires l.Fault? && l.to < cfg.nodes ==> |Next(cfg, v, s, m).links[j][l.to]| >= Behindhand(l, j, dest)
    ensures Enabled(cfg, v, s', m)
  {
    if OfDaemon(m) {
      assert AlikeLink(s, s', l, j, dest, m.src, m.dst);
      LinkAfter(cfg, v, s, m, m.src, m.dst);
    }
  }

  /** The queue q, and q with the request in front of its last `late` messages of news. */
  predicate AlikeQueues(q: Queue, q': Queue, late: nat, m: Message) {
    late <= |q| && (late > 0 ==> q[|q| - 1].SendInfo?) && Unmarked(q) && q' == Squeezed(q, late, m)
  }

  lemma AlikeTails(q: Queue, q': Queue, late: nat, m: Message)
    requires AlikeQueues(q, q', late, m) && late < |q|
    ensures q' != [] && AlikeQueues(q[1..], q'[1..], late, m)
  {
  }

  /** What the step sends does not depend on node j. */
  lemma AlikeEmission(cfg: Config, v: Variant, s: State, s': State, m: Label, l: Label, j: nat, dest: nat,
        node: Node, x: nat, y: nat)
    requires Shaped(cfg, s) && Shaped(cfg, s') && j < cfg.nodes && Alike(cfg, s, s', l, j, dest, node)
    requires Enabled(cfg, v, s, m) && Enabled(cfg, v, s', m) && Mover(m) != j
    requires x < cfg.nodes && y < cfg.nodes
    ensures Emitted(cfg, v, s', m, x, y) == Emitted(cfg, v, s, m, x, y)
    ensures x == j ==> Emitted(cfg, v, s, m, x, y) == []
  {
  }

  /** What a step that adds nothing leaves of a link without marks. */
  lemma OnlyTaken(cfg: Config, v: Variant, s: State, m: Label, x: nat, y: nat)
    requires Shaped(cfg, s) && Enabled(cfg, v, s, m) && x < cfg.nodes && y < cfg.nodes
    requires Emitted(cfg, v, s, m, x, y) == [] && Unmarked(s.links[x][y])
    ensures Next(cfg, v, s, m).links[x][y]
            == if m.Deliver? && m.src == x && m.dst == y then s.links[x][y][1..] else s.links[x][y]
  {
    LinkAfter(cfg, v, s, m, x, y);
  }

  lemma UnmarkedSqueezed(q: Queue, late: nat, m: Message)
    requires late <= |q| && Unmarked(q) && !Marks(m)
    ensures Unmarked(Squeezed(q, late, m))
  {
  }

  /** On the link the step l asks on, the request stays in front of the news. */
  lemma AlikeAskedLink(cfg: Config, v: Variant, s: State, s': State, m: Label, l: Label, j: nat, dest: nat, y: nat)
    requires Shaped(cfg, s) && Shaped(cfg, s') && j < cfg.nodes && y < cfg.nodes && AsksOn(l, j, j, y)
    requires AlikeLink(s, s', l, j, dest, j, y) && Enabled(cfg, v, s, m) && Enabled(cfg, v, s', m)
    requires Emitted(cfg, v, s, m, j, y) == [] && Emitted(cfg, v, s', m, j, y) == []
    requires |Next(cfg, v, s, m).links[j][y]| >= Behindhand(l, j, dest)
    ensures AlikeLink(Next(cfg, v, s, m), Next(cfg, v, s', m), l, j, dest, j, y)
  {
    var q, q', late, request := s.links[j][y], s'.links[j][y], Behindhand(l, j, dest), PageRequest(l.page);
    assert AlikeQueues(q, q', late, request);
    UnmarkedSqueezed(q, late, request);
    OnlyTaken(cfg, v, s, m, j, y);
    OnlyTaken(cfg, v, s', m, j, y);
    if m.Deliver? && m.src == j && m.dst == y {
      AlikeTails(q, q', late, request);
    }
  }

  lemma AlikeLinkStep(cfg: Config, v: Variant, s: State, s': State, m: Label, l: Label, j: nat, dest: nat,
        node: Node, x: nat, y: nat)
    requires Shaped(cfg, s) && Shaped(cfg, s') && j < cfg.nodes && Alike(cfg, s, s', l, j, dest, node)
    requires Enabled(cfg, v, s, m) && Enabled(cfg, v, s', m) && Mover(m) != j
    requires l.Fault? && l.to < cfg.nodes ==> |Next(cfg, v, s, m).links[j][l.to]| >= Behindhand(l, j, dest)
    requires x < cfg.nodes && y < cfg.nodes
    ensures AlikeLink(Next(cfg, v, s, m), Next(cfg, v, s', m), l, j, dest, x, y)
  {
    assert AlikeLink(s, s', l, j, dest, x, y);
    AlikeEmission(cfg, v, s, s', m, l, j, dest, node, x, y);
    if AsksOn(l, j, x, y) {
      AlikeAskedLink(cfg, v, s, s', m, l, j, dest, y);
    } else {
      LinkAfter(cfg, v, s, m, x, y);
      LinkAfter(cfg, v, s', m, x, y);
    }
  }

  lemma AlikeStep(cfg: Config, v: Variant, s: State, s': State, m: Label, l: Label, j: nat, dest: nat, node: Node)
    requires Shaped(cfg, s) && Shaped(cfg, s') && j < cfg.nodes && Alike(cfg, s, s', l, j, dest, node)
    requires Enabled(cfg, v, s, m) && Mover(m) != j
    requires l.Fault? && l.to < cfg.nodes ==> |Next(cfg, v, s, m).links[j][l.to]| >= Behindhand(l, j, dest)
    ensures Enabled(cfg, v, s', m) && Alike(cfg, Next(cfg, v, s, m), Next(cfg, v, s', m), l, j, dest, node)
  {
    AlikeEnables(cfg, v, s, s', m, l, j, dest, node);
    forall x: nat, y: nat | x < cfg.nodes && y < cfg.nodes
      ensures AlikeLink(Next(cfg, v, s, m), Next(cfg, v, s', m), l, j, dest, x, y)
    {
      AlikeLinkStep(cfg, v, s, s', m, l, j, dest, node, x, y);
    }
  }

  // ---------------------------------------------------------------- moving a step within a run

  /** Step d of the run is a give of p by j to dest, and j makes no step after it. */
  ghost predicate GaveLast(cfg: Config, run: seq<Label>, d: nat, j: nat, dest: nat, p: nat) {
    && d < |run| && run[d] == Deliver(dest, j, PageRequest(p))
    && forall k | d < k < |run| :: Mover(run[k]) != j
  }

  /** So far no news of the give has been read that the request of l would be in front of. */
  ghost predicate NewsUnread(cfg: Config, s: State, l: Label, j: nat, dest: nat)
    requires Shaped(cfg, s) && j < cfg.nodes
  {
    l.Fault? && l.to < cfg.nodes ==> |s.links[j][l.to]| >= Behindhand(l, j, dest)
  }

  /** The node of j when it has made the step before the give. */
  function NodeThen(cfg: Config, v: Variant, run: seq<Label>, d: nat, l: Label, j: nat, dest: nat, p: nat): Node
    requires ValidConfig(cfg) && d <= |run| && Legal(cfg, v, run[..d])
    requires j < cfg.nodes && Enabled(cfg, v, After(cfg, v, run[..d]), l)
  {
    GiveUp(v, j, Next(cfg, v, After(cfg, v, run[..d]), l).nodes[j], dest, p)
  }

  /** While j makes no step, what is on its links only gets less. */
  lemma UnreadBefore(cfg: Config, v: Variant, s: State, m: Label, l: Label, j: nat, dest: nat)
    requires Shaped(cfg, s) && Enabled(cfg, v, s, m) && j < cfg.nodes && Mover(m) != j
    requires NewsUnread(cfg, Next(cfg, v, s, m), l, j, dest)
    ensures NewsUnread(cfg, s, l, j, dest)
  {
    if l.Fault? && l.to < cfg.nodes {
      LinkAfter(cfg, v, s, m, j, l.to);
    }
  }

  lemma InsertedBefore(run: seq<Label>, d: nat, l: Label)
    requires d < |run|
    ensures Inserted(run, d, l) == Inserted(run[..|run| - 1], d, l) + [run[|run| - 1]]
    ensures run[..|run| - 1][..d] == run[..d]
  {
  }

  /** A step of the giver's thread may be moved from the end of a run to just before the give. */
  lemma {:induction false} InsertStep(cfg: Config, v: Variant, run: seq<Label>, d: nat, l: Label,
        j: nat, dest: nat, p: nat)
    requires ValidConfig(cfg) && Legal(cfg, v, run) && j < cfg.nodes && Movable(cfg, l, j, dest, p)
    requires GaveLast(cfg, run, d, j, dest, p) && Legal(cfg, v, run[..d])
    requires Enabled(cfg, v, After(cfg, v, run[..d]), l) && NewsUnread(cfg, After(cfg, v, run), l, j, dest)
    ensures Legal(cfg, v, Inserted(run, d, l))
    ensures Alike(cfg, After(cfg, v, run), After(cfg, v, Inserted(run, d, l)), l, j, dest,
                  NodeThen(cfg, v, run, d, l, j, dest, p))
    decreases |run|
  {
    var before, m := run[..|run| - 1], run[|run| - 1];
    var s := After(cfg, v, before);
    InsertedBefore(run, d, l);
    if |run| == d + 1 {
      assert before == run[..d] && Inserted(before, d, l) == before + [l];
      OneMore(cfg, v, before, l);
      HeadersInRuns(cfg, v, before);
      GiveAlike(cfg, v, s, l, j, dest, p);
      OneMore(cfg, v, before + [l], m);
    } else {
      UnreadBefore(cfg, v, s, m, l, j, dest);
      InsertStep(cfg, v, before, d, l, j, dest, p);
      var s' := After(cfg, v, Inserted(before, d, l));
      AlikeStep(cfg, v, s, s', m, l, j, dest, NodeThen(cfg, v, run, d, l, j, dest, p));
      OneMore(cfg, v, Inserted(before, d, l), m);
    }
  }

  /** The news was unread at every moment since the give. */
  lemma {:induction false} UnreadAt(cfg: Config, v: Variant, run: seq<Label>, d: nat, k: nat, l: Label,
        j: nat, dest: nat, p: nat)
    requires ValidConfig(cfg) && Legal(cfg, v, run) && j < cfg.nodes && GaveLast(cfg, run, d, j, dest, p)
    requires d < k <= |run| && NewsUnread(cfg, After(cfg, v, run), l, j, dest)
    ensures Legal(cfg, v, run[..k]) && NewsUnread(cfg, After(cfg, v, run[..k]), l, j, dest)
    decreases |run|
  {
    if k == |run| {
      assert run[..k] == run;
    } else {
      var before := run[..|run| - 1];
      assert before[..k] == run[..k];
      UnreadBefore(cfg, v, After(cfg, v, before), run[|run| - 1], l, j, dest);
      UnreadAt(cfg, v, before, d, k, l, j, dest, p);
    }
  }

  // ---------------------------------------------------------------- every thread keeps its order

  /** The steps of one application thread in a run, in order. */
  function ThreadSteps(run: seq<Label>, i: nat): seq<Label> {
    if run == [] then []
    else (if OfThread(run[0], i) then [run[0]] else []) + ThreadSteps(run[1..], i)
  }

  lemma {:induction false} ThreadStepsAppend(a: seq<Label>, b: seq<Label>, i: nat)
    ensures ThreadSteps(a + b, i) == ThreadSteps(a, i) + ThreadSteps(b, i)
  {
    if a == [] {
      assert a + b == b;
    } else {
      var head: seq<Label> := if OfThread(a[0], i) then [a[0]] else [];
      ThreadStepsAppend(a[1..], b, i);
      assert (a + b)[0] == a[0] && (a + b)[1..] == a[1..] + b;
      Associative(head, ThreadSteps(a[1..], i), ThreadSteps(b, i));
    }
  }

  lemma {:induction false} NoThreadSteps(run: seq<Label>, i: nat)
    requires forall k | 0 <= k < |run| :: !OfThread(run[k], i)
    ensures ThreadSteps(run, i) == []
  {
    if run == [] {
    } else {
      NoThreadSteps(run[1..], i);
    }
  }

  lemma ThreadStepsOne(l: Label, i: nat)
    ensures ThreadSteps([l], i) == if OfThread(l, i) then [l] else []
  {
    assert [l][1..] == [];
  }

  /** The moved step is still the last of its thread, and the other threads do not notice. */
  lemma InsertedIsLast(cfg: Config, run: seq<Label>, d: nat, l: Label, j: nat, dest: nat, p: nat, i: nat)
    requires GaveLast(cfg, run, d, j, dest, p) && OfThread(l, j)
    ensures ThreadSteps(Inserted(run, d, l), i) == ThreadSteps(run + [l], i)
  {
    var a, b := run[..d], run[d..];
    ThreadStepsAppend(a + [l], b, i);
    ThreadStepsAppend(a, [l], i);
    ThreadStepsAppend(a, b, i);
    ThreadStepsAppend(run, [l], i);
    ThreadStepsOne(l, i);
    assert a + b == run;
    var ours, later := ThreadSteps(a, i), ThreadSteps(b, i);
    if i == j {
      forall k | 0 <= k < |b|
        ensures !OfThread(b[k], i)
      {
        assert b[k] == run[d + k];
      }
      NoThreadSteps(b, i);
      assert (ours + [l]) + [] == (ours + []) + [l];
    } else {
      assert (ours + []) + later == (ours + later) + [];
    }
  }

  // ---------------------------------------------------------------- the simulation

  /** The thread waits for something that cannot come before its daemon moves on. */
  predicate IsHeld(v: Variant, i: nat, node: Node) {
    node.app.Waiting? && !TestHolds(v, i, node)
  }

  /** While node i has shipped a page, the run has its give at step d as its last step, made when
      its node was as it really is now; or its thread is held. */
  ghost predicate Placed(cfg: Config, v: Variant, f: GiveState, run: seq<Label>, i: nat, d: nat)
    requires ValidConfig(cfg) && GiveShaped(cfg, f) && i < cfg.nodes
  {
    var g, node := f.give[i], f.base.nodes[i];
    g.Shipped? ==>
      || IsHeld(v, i, node)
      || (GaveLast(cfg, run, d, i, g.dest, g.page) && Legal(cfg, v, run[..d])
          && After(cfg, v, run[..d]).nodes[i] == node)
  }

  ghost predicate AllPlaced(cfg: Config, v: Variant, f: GiveState, run: seq<Label>, ds: seq<nat>)
    requires ValidConfig(cfg) && GiveShaped(cfg, f)
  {
    |ds| == cfg.nodes && forall i: nat | i < cfg.nodes :: Placed(cfg, v, f, run, i, ds[i])
  }

  /** The giver's thread does not write the page it gives. */
  predicate NotLate(f: GiveState, fl: GiveLabel) {
    match fl
    case Coarse(AppWrite(i, p, _, _)) =>
      i < |f.give| ==> !CopyingHere(f.give[i], p) && !ShippedHere(f.give[i], p)
    case _ => true
  }

  predicate NoLateWrites(cfg: Config, v: Variant, run: seq<GiveLabel>)
    requires ValidConfig(cfg) && GiveLegal(cfg, v, run)
  {
    run == []
    || (NoLateWrites(cfg, v, run[..|run| - 1])
        && NotLate(GiveAfter(cfg, v, run[..|run| - 1]), run[|run| - 1]))
  }

  /** The step is one of a thread whose daemon has shipped a page. */
  predicate InWindow(f: GiveState, fl: GiveLabel) {
    fl.Coarse? && Mover(fl.l) < |f.give| && f.give[Mover(fl.l)].Shipped?
  }

  /** A step that is simply added to the run. */
  lemma StillPlaced(cfg: Config, v: Variant, f: GiveState, f': GiveState, run: seq<Label>, more: seq<Label>,
        i: nat, d: nat)
    requires ValidConfig(cfg) && GiveShaped(cfg, f) && GiveShaped(cfg, f') && i < cfg.nodes
    requires Placed(cfg, v, f, run, i, d)
    requires f'.give[i] == f.give[i] && f'.base.nodes[i] == f.base.nodes[i]
    requires forall k | 0 <= k < |more| :: Mover(more[k]) != i
    ensures Placed(cfg, v, f', run + more, i, d)
  {
    if f.give[i].Shipped? && !IsHeld(v, i, f.base.nodes[i]) {
      assert (run + more)[..d] == run[..d];
    }
  }

  lemma GaveLastAfterInsert(cfg: Config, run: seq<Label>, d: nat, l: Label, i: nat, dest: nat, p: nat, di: nat)
    requires d < |run| && di != d && Mover(l) != i && GaveLast(cfg, run, di, i, dest, p)
    ensures GaveLast(cfg, Inserted(run, d, l), if di < d then di else di + 1, i, dest, p)
  {
    var r, di' := Inserted(run, d, l), if di < d then di else di + 1;
    forall k | di' < k < |r|
      ensures Mover(r[k]) != i
    {
      if k > d {
        assert r[k] == run[k - 1];
      }
    }
  }

  /** Node i was at its own give as it was before the step was moved. */
  lemma SameThen(cfg: Config, v: Variant, run: seq<Label>, d: nat, l: Label, j: nat, dest: nat, p: nat, i: nat, di: nat)
    requires ValidConfig(cfg) && Legal(cfg, v, run) && i < cfg.nodes && j < cfg.nodes && i != j
    requires Movable(cfg, l, j, dest, p) && GaveLast(cfg, run, d, j, dest, p)
    requires Legal(cfg, v, run[..d]) && Enabled(cfg, v, After(cfg, v, run[..d]), l)
    requires NewsUnread(cfg, After(cfg, v, run), l, j, dest)
    requires di != d && di <= |run| && Legal(cfg, v, run[..di])
    ensures var r, di' := Inserted(run, d, l), if di < d then di else di + 1;
            Legal(cfg, v, r[..di']) && After(cfg, v, r[..di']).nodes[i] == After(cfg, v, run[..di]).nodes[i]
  {
    var r := Inserted(run, d, l);
    if di < d {
      assert r[..di] == run[..di];
    } else {
      UnreadAt(cfg, v, run, d, di, l, j, dest, p);
      assert run[..di][..d] == run[..d];
      InsertStep(cfg, v, run[..di], d, l, j, dest, p);
      assert r[..di + 1] == Inserted(run[..di], d, l);
    }
  }

  /** A step that is moved in front of the give of another node. */
  lemma PlacedAfterInsert(cfg: Config, v: Variant, f: GiveState, f': GiveState, run: seq<Label>, d: nat, l: Label,
        j: nat, dest: nat, p: nat, i: nat, di: nat)
    requires ValidConfig(cfg) && GiveShaped(cfg, f) && GiveShaped(cfg, f') && i < cfg.nodes && j < cfg.nodes && i != j
    requires Legal(cfg, v, run) && Movable(cfg, l, j, dest, p) && GaveLast(cfg, run, d, j, dest, p)
    requires Legal(cfg, v, run[..d]) && Enabled(cfg, v, After(cfg, v, run[..d]), l)
    requires NewsUnread(cfg, After(cfg, v, run), l, j, dest)
    requires Placed(cfg, v, f, run, i, di)
    requires f'.give[i] == f.give[i] && f'.base.nodes[i] == f.base.nodes[i]
    ensures Placed(cfg, v, f', Inserted(run, d, l), i, if di < d then di else di + 1)
  {
    var g := f.give[i];
    if g.Shipped? && !IsHeld(v, i, f.base.nodes[i]) {
      GaveLastAfterInsert(cfg, run, d, l, i, g.dest, g.page, di);
      SameThen(cfg, v, run, d, l, j, dest, p, i, di);
    }
  }

  // ---------------------------------------------------------------- a step inside a give

  lemma WindowLink(cfg: Config, v: Variant, f: GiveState, l: Label, j: nat, s': State, node: Node, x: nat, y: nat)
    requires GiveShaped(cfg, f) && GiveEnabled(cfg, v, f, Coarse(l)) && j < cfg.nodes && OfThread(l, j)
    requires f.give[j].Shipped? && Shaped(cfg, s') && Alike(cfg, Seen(cfg, v, f), s', l, j, f.give[j].dest, node)
    requires l.Fault? ==> l.to != f.give[j].dest
    requires x < cfg.nodes && y < cfg.nodes
    ensures Seen(cfg, v, GiveNext(cfg, v, f, Coarse(l))).links[x][y] == s'.links[x][y]
  {
    var g, s := f.give[j], Seen(cfg, v, f);
    LinkAfter(cfg, v, f.base, l, x, y);
    assert AlikeLink(s, s', l, j, g.dest, x, y);
    if AsksOn(l, j, x, y) {
      var front, news := Before(f.give[y], x) + f.base.links[x][y], Behind(g, x, y);
      assert s.links[x][y] == front + news && |news| == Behindhand(l, j, g.dest);
      assert Squeezed(front + news, |news|, PageRequest(l.page)) == front + [PageRequest(l.page)] + news;
      Associative(Before(f.give[y], x), f.base.links[x][y], [PageRequest(l.page)]);
    } else {
      assert f.base.links[x][y] + [] == f.base.links[x][y];
    }
  }

  lemma GoodAfterThread(cfg: Config, v: Variant, f: GiveState, l: Label, j: nat)
    requires GiveShaped(cfg, f) && GiveEnabled(cfg, v, f, Coarse(l)) && j < cfg.nodes && OfThread(l, j)
    requires GoodGives(cfg, f) && f.give[j].Shipped?
    ensures GoodGives(cfg, GiveNext(cfg, v, f, Coarse(l)))
  {
    ThreadStepIsLocal(cfg, v, f.base, f.base, l, j);
    forall i: nat | i < cfg.nodes
      ensures GoodGive(cfg, GiveNext(cfg, v, f, Coarse(l)).base.nodes[i], f.give[i], i)
    {
      assert GoodGive(cfg, f.base.nodes[i], f.give[i], i);
    }
  }

  /** What is seen after the step is the run with the step moved. */
  lemma WindowStep(cfg: Config, v: Variant, f: GiveState, l: Label, j: nat, run: seq<Label>, d: nat)
    requires ValidConfig(cfg) && GiveShaped(cfg, f) && GiveEnabled(cfg, v, f, Coarse(l)) && j < cfg.nodes
    requires OfThread(l, j) && f.give[j].Shipped? && Simulates(cfg, v, f, run)
    requires Movable(cfg, l, j, f.give[j].dest, f.give[j].page)
    requires GaveLast(cfg, run, d, j, f.give[j].dest, f.give[j].page) && Legal(cfg, v, run[..d])
    requires After(cfg, v, run[..d]).nodes[j] == f.base.nodes[j]
    ensures Enabled(cfg, v, After(cfg, v, run[..d]), l)
    ensures NewsUnread(cfg, After(cfg, v, run), l, j, f.give[j].dest)
    ensures Simulates(cfg, v, GiveNext(cfg, v, f, Coarse(l)), Inserted(run, d, l))
  {
    var g, f', s0 := f.give[j], GiveNext(cfg, v, f, Coarse(l)), After(cfg, v, run[..d]);
    assert GoodGive(cfg, f.base.nodes[j], g, j);
    ThreadStepIsLocal(cfg, v, f.base, s0, l, j);
    ThreadStepIsLocal(cfg, v, f.base, f.base, l, j);
    InsertStep(cfg, v, run, d, l, j, g.dest, g.page);
    var s', node := After(cfg, v, Inserted(run, d, l)), NodeThen(cfg, v, run, d, l, j, g.dest, g.page);
    forall x: nat, y: nat | x < cfg.nodes && y < cfg.nodes
      ensures Seen(cfg, v, f').links[x][y] == s'.links[x][y]
    {
      WindowLink(cfg, v, f, l, j, s', node, x, y);
    }
    SameState(cfg, Seen(cfg, v, f'), s');
    GoodAfterThread(cfg, v, f, l, j);
  }

  /** The moved step is part of what j had done before its give. */
  lemma OwnPlacedAfterInsert(cfg: Config, v: Variant, f: GiveState, l: Label, j: nat, run: seq<Label>, d: nat)
    requires ValidConfig(cfg) && GiveShaped(cfg, f) && GiveEnabled(cfg, v, f, Coarse(l)) && j < cfg.nodes
    requires OfThread(l, j) && f.give[j].Shipped?
    requires GaveLast(cfg, run, d, j, f.give[j].dest, f.give[j].page) && Legal(cfg, v, run[..d])
    requires After(cfg, v, run[..d]).nodes[j] == f.base.nodes[j]
    ensures Placed(cfg, v, GiveNext(cfg, v, f, Coarse(l)), Inserted(run, d, l), j, d + 1)
  {
    var r, g := Inserted(run, d, l), f.give[j];
    ThreadStepIsLocal(cfg, v, f.base, After(cfg, v, run[..d]), l, j);
    OneMore(cfg, v, run[..d], l);
    assert r[..d + 1] == run[..d] + [l];
    forall k | d + 1 < k < |r|
      ensures Mover(r[k]) != j
    {
      assert r[k] == run[k - 1];
    }
  }

  /** A thread in the window that is not held either asks the receiver of the page, or its step
      may be moved. */
  lemma WindowCases(cfg: Config, v: Variant, f: GiveState, l: Label, j: nat, run: seq<Label>, d: nat)
    requires ValidConfig(cfg) && GiveShaped(cfg, f) && GiveEnabled(cfg, v, f, Coarse(l)) && j == Mover(l)
    requires InWindow(f, Coarse(l)) && NotLate(f, Coarse(l)) && Placed(cfg, v, f, run, j, d)
    ensures OfThread(l, j) && !IsHeld(v, j, f.base.nodes[j])
    ensures (l.Fault? && l.to == f.give[j].dest) || Movable(cfg, l, j, f.give[j].dest, f.give[j].page)
  {
    if l.Fault? {
      InRangeInRuns(cfg, v, run[..d]);
      assert After(cfg, v, run[..d]).nodes[j].table[l.page].owner < cfg.nodes;
    }
  }

  function Shifted(ds: seq<nat>, j: nat): (r: seq<nat>)
    requires j < |ds|
  {
    seq(|ds|, i requires 0 <= i < |ds| => if i != j && ds[i] < ds[j] then ds[i] else ds[i] + 1)
  }

  lemma OtherPlacedAfterMove(cfg: Config, v: Variant, f: GiveState, l: Label, j: nat, run: seq<Label>, d: nat,
        i: nat, di: nat)
    requires ValidConfig(cfg) && GiveShaped(cfg, f) && GiveEnabled(cfg, v, f, Coarse(l)) && j < cfg.nodes
    requires OfThread(l, j) && f.give[j].Shipped? && Simulates(cfg, v, f, run)
    requires Movable(cfg, l, j, f.give[j].dest, f.give[j].page)
    requires GaveLast(cfg, run, d, j, f.give[j].dest, f.give[j].page) && Legal(cfg, v, run[..d])
    requires After(cfg, v, run[..d]).nodes[j] == f.base.nodes[j]
    requires i < cfg.nodes && i != j && Placed(cfg, v, f, run, i, di)
    ensures Placed(cfg, v, GiveNext(cfg, v, f, Coarse(l)), Inserted(run, d, l), i, if di < d then di else di + 1)
  {
    WindowStep(cfg, v, f, l, j, run, d);
    ThreadStepIsLocal(cfg, v, f.base, f.base, l, j);
    PlacedAfterInsert(cfg, v, f, GiveNext(cfg, v, f, Coarse(l)), run, d, l, j, f.give[j].dest, f.give[j].page, i, di);
  }

  lemma MovedPlaced(cfg: Config, v: Variant, f: GiveState, l: Label, j: nat, run: seq<Label>, ds: seq<nat>, i: nat)
    requires ValidConfig(cfg) && GiveShaped(cfg, f) && GiveEnabled(cfg, v, f, Coarse(l)) && j < |ds| == cfg.nodes
    requires i < cfg.nodes
    requires OfThread(l, j) && f.give[j].Shipped? && Simulates(cfg, v, f, run)
    requires Movable(cfg, l, j, f.give[j].dest, f.give[j].page) && AllPlaced(cfg, v, f, run, ds)
    requires GaveLast(cfg, run, ds[j], j, f.give[j].dest, f.give[j].page) && Legal(cfg, v, run[..ds[j]])
    requires After(cfg, v, run[..ds[j]]).nodes[j] == f.base.nodes[j]
    ensures Placed(cfg, v, GiveNext(cfg, v, f, Coarse(l)), Inserted(run, ds[j], l), i, Shifted(ds, j)[i])
  {
    if i == j {
      OwnPlacedAfterInsert(cfg, v, f, l, j, run, ds[j]);
    } else {
      OtherPlacedAfterMove(cfg, v, f, l, j, run, ds[j], i, ds[i]);
    }
  }

  lemma MovedAllPlaced(cfg: Config, v: Variant, f: GiveState, l: Label, j: nat, run: seq<Label>, ds: seq<nat>)
    requires ValidConfig(cfg) && GiveShaped(cfg, f) && GiveEnabled(cfg, v, f, Coarse(l)) && j < |ds| == cfg.nodes
    requires OfThread(l, j) && f.give[j].Shipped? && Simulates(cfg, v, f, run)
    requires Movable(cfg, l, j, f.give[j].dest, f.give[j].page) && AllPlaced(cfg, v, f, run, ds)
    requires GaveLast(cfg, run, ds[j], j, f.give[j].dest, f.give[j].page) && Legal(cfg, v, run[..ds[j]])
    requires After(cfg, v, run[..ds[j]]).nodes[j] == f.base.nodes[j]
    ensures AllPlaced(cfg, v, GiveNext(cfg, v, f, Coarse(l)), Inserted(run, ds[j], l), Shifted(ds, j))
  {
    forall i: nat | i < cfg.nodes { MovedPlaced(cfg, v, f, l, j, run, ds, i); }
  }

  lemma MovedStepPlaced(cfg: Config, v: Variant, f: GiveState, l: Label, j: nat, run: seq<Label>, ds: seq<nat>)
    requires ValidConfig(cfg) && GiveShaped(cfg, f) && GiveEnabled(cfg, v, f, Coarse(l)) && j == Mover(l)
    requires Simulates(cfg, v, f, run) && AllPlaced(cfg, v, f, run, ds)
    requires OfThread(l, j) && f.give[j].Shipped? && !IsHeld(v, j, f.base.nodes[j])
    requires Movable(cfg, l, j, f.give[j].dest, f.give[j].page)
    ensures GaveLast(cfg, run, ds[j], j, f.give[j].dest, f.give[j].page)
    ensures Simulates(cfg, v, GiveNext(cfg, v, f, Coarse(l)), Inserted(run, ds[j], l))
    ensures AllPlaced(cfg, v, GiveNext(cfg, v, f, Coarse(l)), Inserted(run, ds[j], l), Shifted(ds, j))
  {
    assert Placed(cfg, v, f, run, j, ds[j]);
    WindowStep(cfg, v, f, l, j, run, ds[j]);
    MovedAllPlaced(cfg, v, f, l, j, run, ds);
  }

  /** Asking the receiver of the page holds the thread: that node is not its own. */
  lemma AskingReceiverHolds(cfg: Config, v: Variant, f: GiveState, l: Label, j: nat)
    requires GiveShaped(cfg, f) && GiveEnabled(cfg, v, f, Coarse(l)) && v.waitsForOwnership
    requires l.Fault? && l.node == j && GoodGives(cfg, f) && f.give[j].Shipped? && l.to == f.give[j].dest
    ensures IsHeld(v, j, GiveNext(cfg, v, f, Coarse(l)).base.nodes[j])
  {
    assert GoodGive(cfg, f.base.nodes[j], f.give[j], j);
  }

  lemma AskedStepPlaced(cfg: Config, v: Variant, f: GiveState, l: Label, j: nat, run: seq<Label>, ds: seq<nat>)
    requires ValidConfig(cfg) && GiveShaped(cfg, f) && GiveEnabled(cfg, v, f, Coarse(l)) && v.waitsForOwnership
    requires Simulates(cfg, v, f, run) && AllPlaced(cfg, v, f, run, ds)
    requires l.Fault? && l.node == j && f.give[j].Shipped? && l.to == f.give[j].dest
    ensures Simulates(cfg, v, GiveNext(cfg, v, f, Coarse(l)), run + [l])
    ensures AllPlaced(cfg, v, GiveNext(cfg, v, f, Coarse(l)), run + [l], ds)
  {
    var f' := GiveNext(cfg, v, f, Coarse(l));
    SeenAfterCoarse(cfg, v, f, l);
    OneMore(cfg, v, run, l);
    AskingReceiverHolds(cfg, v, f, l, j);
    forall i: nat | i < cfg.nodes
      ensures Placed(cfg, v, f', run + [l], i, ds[i])
    {
      if i != j {
        StillPlaced(cfg, v, f, f', run, [l], i, ds[i]);
      }
    }
  }

  // ---------------------------------------------------------------- a step outside

  /** Where the gives are once an ordinary step is added. */
  function Added(ds: seq<nat>, fl: GiveLabel, end: nat): seq<nat> {
    if fl.Ship? && fl.node < |ds| then ds[fl.node := end] else ds
  }

  lemma ShippedIsPlaced(cfg: Config, v: Variant, f: GiveState, fl: GiveLabel, run: seq<Label>)
    requires ValidConfig(cfg) && GiveShaped(cfg, f) && GiveEnabled(cfg, v, f, fl) && fl.Ship?
    requires Simulates(cfg, v, f, run)
    ensures Placed(cfg, v, GiveNext(cfg, v, f, fl), run + Erased(fl), fl.node, |run|)
  {
    assert (run + Erased(fl))[..|run|] == run;
  }

  lemma OtherStaysPlaced(cfg: Config, v: Variant, f: GiveState, fl: GiveLabel, run: seq<Label>, i: nat, d: nat)
    requires ValidConfig(cfg) && GiveShaped(cfg, f) && GiveEnabled(cfg, v, f, fl) && !InWindow(f, fl)
    requires i < cfg.nodes && Placed(cfg, v, f, run, i, d) && !(fl.Ship? && fl.node == i)
    ensures Placed(cfg, v, GiveNext(cfg, v, f, fl), run + Erased(fl), i, d)
  {
    var f' := GiveNext(cfg, v, f, fl);
    if f'.give[i].Shipped? {
      if fl.Coarse? && (fl.l.AppRead? || fl.l.AppWrite? || fl.l.Fault? || fl.l.Spin?) {
        ThreadStepIsLocal(cfg, v, f.base, f.base, fl.l, fl.l.node);
      }
      assert f'.base.nodes[i] == f.base.nodes[i];
      StillPlaced(cfg, v, f, f', run, Erased(fl), i, d);
    }
  }

  lemma OutsideStepPlaced(cfg: Config, v: Variant, f: GiveState, fl: GiveLabel, run: seq<Label>, ds: seq<nat>)
    requires ValidConfig(cfg) && GiveShaped(cfg, f) && GiveEnabled(cfg, v, f, fl) && !v.unmapsFirst
    requires Simulates(cfg, v, f, run) && AllPlaced(cfg, v, f, run, ds)
    requires !InWindow(f, fl) && NotLate(f, fl)
    ensures Simulates(cfg, v, GiveNext(cfg, v, f, fl), run + Erased(fl))
    ensures AllPlaced(cfg, v, GiveNext(cfg, v, f, fl), run + Erased(fl), Added(ds, fl, |run|))
  {
    GiveStepSimulated(cfg, v, f, fl, run);
    forall i: nat | i < cfg.nodes
      ensures Placed(cfg, v, GiveNext(cfg, v, f, fl), run + Erased(fl), i, Added(ds, fl, |run|)[i])
    {
      if fl.Ship? && fl.node == i {
        ShippedIsPlaced(cfg, v, f, fl, run);
      } else {
        OtherStaysPlaced(cfg, v, f, fl, run, i, ds[i]);
      }
    }
  }

  // ---------------------------------------------------------------- runs

  lemma PlacedStep(cfg: Config, v: Variant, f: GiveState, fl: GiveLabel, run: seq<Label>, ds: seq<nat>)
    returns (run': seq<Label>, ds': seq<nat>)
    requires ValidConfig(cfg) && GiveShaped(cfg, f) && GiveEnabled(cfg, v, f, fl) && NotLate(f, fl)
    requires !v.unmapsFirst && v.waitsForOwnership
    requires Simulates(cfg, v, f, run) && AllPlaced(cfg, v, f, run, ds)
    ensures Simulates(cfg, v, GiveNext(cfg, v, f, fl), run') && AllPlaced(cfg, v, GiveNext(cfg, v, f, fl), run', ds')
    ensures forall i: nat :: ThreadSteps(run', i) == ThreadSteps(run + WholeStep(fl), i)
  {
    if InWindow(f, fl) {
      var l := fl.l;
      var j := Mover(l);
      WindowCases(cfg, v, f, l, j, run, ds[j]);
      if l.Fault? && l.to == f.give[j].dest {
        run', ds' := run + [l], ds;
        AskedStepPlaced(cfg, v, f, l, j, run, ds);
      } else {
        run', ds' := Inserted(run, ds[j], l), Shifted(ds, j);
        MovedStepPlaced(cfg, v, f, l, j, run, ds);
        forall i: nat
          ensures ThreadSteps(run', i) == ThreadSteps(run + WholeStep(fl), i)
        {
          InsertedIsLast(cfg, run, ds[j], l, j, f.give[j].dest, f.give[j].page, i);
        }
      }
    } else {
      run', ds' := run + Erased(fl), Added(ds, fl, |run|);
      OutsideStepPlaced(cfg, v, f, fl, run, ds);
      forall i: nat
        ensures ThreadSteps(run', i) == ThreadSteps(run + WholeStep(fl), i)
      {
        ThreadStepsAppend(run, Erased(fl), i);
        ThreadStepsAppend(run, WholeStep(fl), i);
        if fl.Ship? {
          ThreadStepsOne(Erased(fl)[0], i);
        }
      }
    }
  }

  /** Every run of the written order in which no giver's thread writes the page between the copy
      and the unmapping is, for any number of nodes, a run of the atomic protocol: it is seen as
      the state the atomic run leads to, and every thread makes the same steps in the same order. */
  lemma {:induction false} GivesAreAtomic(cfg: Config, v: Variant, run: seq<GiveLabel>)
    returns (atomic: seq<Label>, ds: seq<nat>)
    requires ValidConfig(cfg) && GiveLegal(cfg, v, run) && !v.unmapsFirst && v.waitsForOwnership
    requires NoLateWrites(cfg, v, run)
    ensures Simulates(cfg, v, GiveAfter(cfg, v, run), atomic) && AllPlaced(cfg, v, GiveAfter(cfg, v, run), atomic, ds)
    ensures forall i: nat :: ThreadSteps(atomic, i) == ThreadSteps(Accesses(run), i)
  {
    if run == [] {
      atomic, ds := [], seq(cfg.nodes, _ => 0);
      SameState(cfg, Init(cfg), Seen(cfg, v, GiveAfter(cfg, v, run)));
    } else {
      var before, fl := run[..|run| - 1], run[|run| - 1];
      var earlier, ds0 := GivesAreAtomic(cfg, v, before);
      atomic, ds := PlacedStep(cfg, v, GiveAfter(cfg, v, before), fl, earlier, ds0);
      forall i: nat
        ensures ThreadSteps(atomic, i) == ThreadSteps(Accesses(run), i)
      {
        ThreadStepsAppend(earlier, WholeStep(fl), i);
        ThreadStepsAppend(Accesses(before), WholeStep(fl), i);
      }
    }
  }

  lemma SeenAtRest(cfg: Config, v: Variant, f: GiveState)
    requires GiveShaped(cfg, f) && forall i: nat | i < cfg.nodes :: f.give[i].NoGive?
    ensures Seen(cfg, v, f) == f.base
  {
    SameState(cfg, Seen(cfg, v, f), f.base);
  }

  /** When no give is under way, the atomic run leads to the very state the written order has. */
  lemma GivesEndAtomic(cfg: Config, v: Variant, run: seq<GiveLabel>) returns (atomic: seq<Label>)
    requires ValidConfig(cfg) && GiveLegal(cfg, v, run) && !v.unmapsFirst && v.waitsForOwnership
    requires NoLateWrites(cfg, v, run)
    requires forall i: nat | i < cfg.nodes :: GiveAfter(cfg, v, run).give[i].NoGive?
    ensures Legal(cfg, v, atomic) && After(cfg, v, atomic) == GiveAfter(cfg, v, run).base
    ensures forall i: nat :: ThreadSteps(atomic, i) == ThreadSteps(Accesses(run), i)
  {
    var ds;
    atomic, ds := GivesAreAtomic(cfg, v, run);
    SeenAtRest(cfg, v, GiveAfter(cfg, v, run));
  }
}
