/**
 dsm_recv_page in its real steps. The daemon maps the page, then reads its content, then copies
 it in, then publishes the new owner; the application thread runs in between, and the memory
 hardware lets it touch a page as soon as it is mapped. After a lone header the content never
 comes: the daemon waits with the page mapped, and takes the next request on the link for it.
 Still no access ever meets a page that is mapped but not published: a page, or its header,
 arrives only where the page is awaited. The proof is a simulation: an unfinished install is
 seen as the messages not yet read.
 */
module FineInstall {
  import opened Basics
  import opened Protocol
  import opened Traffic
  import opened SingleCopy
  import opened FlatMemory
  import opened Requests

  /** What the content of a page was read from. */
  datatype Origin = Sent | Request(req: nat, stale: Page)

  datatype Install =
    | NoInstall
    | HeaderOnly(from: nat, page: nat)                            // mapped, content not read
    | Mapping(from: nat, page: nat, body: Page, origin: Origin)   // mapped, content in a buffer
    | Copied(from: nat, page: nat, body: Page, origin: Origin)    // filled, owner not published

  datatype FineState = FineState(base: State, inst: seq<Install>)

  datatype FineLabel =
    | Coarse(l: Label)
    | MapPage(src: nat, dst: nat, page: nat, body: Page)
    | MapHeader(src: nat, dst: nat, page: nat)
    | Swallow(dst: nat, req: nat, stale: Page)
    | CopyBody(dst: nat)
    | Publish(src: nat, dst: nat, page: nat, body: Page, origin: Origin)

  predicate FineShaped(cfg: Config, f: FineState) {
    Shaped(cfg, f.base) && |f.inst| == cfg.nodes
  }

  /** The daemon of b is free to take `m` off its link. */
  predicate DaemonTakes(cfg: Config, f: FineState, a: nat, b: nat, m: Message)
    requires FineShaped(cfg, f)
  {
    AtHead(cfg, f.base, a, b, m) && f.base.nodes[b].daemon.Serving? && f.inst[b].NoInstall?
  }

  predicate FineEnabled(cfg: Config, v: Variant, f: FineState, fl: FineLabel)
    requires FineShaped(cfg, f)
  {
    match fl
    case Coarse(l) =>
      && Enabled(cfg, v, f.base, l)
      && (OfDaemon(l) ==> f.inst[l.dst].NoInstall?)
      && !l.Misread? && (l.Deliver? ==> !l.msg.SendPage?)
    case MapPage(a, b, p, body) => DaemonTakes(cfg, f, a, b, SendPage(p, body))
    case MapHeader(a, b, p) => DaemonTakes(cfg, f, a, b, PageHeader(p))
    case Swallow(b, q, stale) =>
      && b < cfg.nodes && f.inst[b].HeaderOnly? && |stale| == cfg.pageSize
      && AtHead(cfg, f.base, f.inst[b].from, b, PageRequest(q))
    case CopyBody(b) => b < cfg.nodes && f.inst[b].Mapping?
    case Publish(a, b, p, body, origin) => a < cfg.nodes && b < cfg.nodes && f.inst[b] == Copied(a, p, body, origin)
  }

  function SetNode(s: State, i: nat, node: Node): State
    requires i < |s.nodes|
  {
    s.(nodes := s.nodes[i := node])
  }

  function MapAt(cfg: Config, f: FineState, a: nat, b: nat, p: nat, job: Install): (f': FineState)
    requires FineShaped(cfg, f) && a < cfg.nodes && b < cfg.nodes && f.base.links[a][b] != []
    ensures FineShaped(cfg, f')
  {
    var node := f.base.nodes[b];
    var popped := f.base.(links := Pop(f.base.links, a, b));
    FineState(SetNode(popped, b, node.(mapped := node.mapped[p := Zeros(cfg.pageSize)])), f.inst[b := job])
  }

  function FineNext(cfg: Config, v: Variant, f: FineState, fl: FineLabel): (f': FineState)
    requires FineShaped(cfg, f) && FineEnabled(cfg, v, f, fl)
    ensures FineShaped(cfg, f')
  {
    match fl
    case Coarse(l) => f.(base := Next(cfg, v, f.base, l))
    case MapPage(a, b, p, body) => MapAt(cfg, f, a, b, p, Mapping(a, p, body, Sent))
    case MapHeader(a, b, p) => MapAt(cfg, f, a, b, p, HeaderOnly(a, p))
    case Swallow(b, q, stale) =>
      var job := f.inst[b];
      FineState(f.base.(links := Pop(f.base.links, job.from, b)),
                f.inst[b := Mapping(job.from, job.page, Mangled(q, stale), Request(q, stale))])
    case CopyBody(b) =>
      var node, job := f.base.nodes[b], f.inst[b];
      FineState(SetNode(f.base, b, node.(mapped := node.mapped[job.page := job.body])),
                f.inst[b := Copied(job.from, job.page, job.body, job.origin)])
    case Publish(a, b, p, _, origin) =>
      var node, q := f.base.nodes[b], f.base.links[a][b];
      var left := if origin.Sent? then q else [Scrap(origin.req)] + q;
      var read := f.base.(links := SetLink(f.base.links, a, b, left));
      FineState(SetNode(read, b, Wake(v, b, node.(table := ChangeInfo(node.table, p, Write, b)))),
                f.inst[b := NoInstall])
  }

  function FineExec(cfg: Config, v: Variant, run: seq<FineLabel>): (r: Option<FineState>)
    requires ValidConfig(cfg)
    ensures r.Some? ==> FineShaped(cfg, r.value)
  {
    if run == [] then Some(FineState(Init(cfg), seq(cfg.nodes, _ => NoInstall)))
    else
      var before := FineExec(cfg, v, run[..|run| - 1]);
      var fl := run[|run| - 1];
      if before.Some? && FineEnabled(cfg, v, before.value, fl)
      then Some(FineNext(cfg, v, before.value, fl)) else None
  }

  // ---------------------------------------------------------------- what is seen of it

  function Published(a: nat, b: nat, p: nat, body: Page, origin: Origin): Label {
    match origin
    case Sent => Deliver(a, b, SendPage(p, body))
    case Request(q, stale) => Misread(a, b, p, q, stale)
  }

  /** What a fine step is in the coarse system: nothing until the owner is published. */
  function Erased(fl: FineLabel): seq<Label> {
    match fl
    case Coarse(l) => [l]
    case Publish(a, b, p, body, origin) => [Published(a, b, p, body, origin)]
    case _ => []
  }

  function Erase(run: seq<FineLabel>): seq<Label> {
    if run == [] then [] else Erase(run[..|run| - 1]) + Erased(run[|run| - 1])
  }

  lemma {:induction false} EraseAppend(run: seq<FineLabel>, more: seq<FineLabel>)
    ensures Erase(run + more) == Erase(run) + Erase(more)
  {
    if more == [] {
      assert run + more == run;
    } else {
      var most := more[..|more| - 1];
      assert (run + more)[..|run + more| - 1] == run + most;
      EraseAppend(run, most);
    }
  }

  function SeenNode(node: Node, job: Install): Node {
    if job.NoInstall? then node else node.(mapped := node.mapped - {job.page})
  }

  /** The messages that an unfinished install has read. */
  function Job(job: Install): (q: Queue)
    requires !job.NoInstall?
    ensures q != []
  {
    match job
    case HeaderOnly(_, p) => [PageHeader(p)]
    case Mapping(_, p, body, origin) => ReadFor(p, body, origin)
    case Copied(_, p, body, origin) => ReadFor(p, body, origin)
  }

  function ReadFor(p: nat, body: Page, origin: Origin): (q: Queue)
    ensures q != []
  {
    match origin
    case Sent => [SendPage(p, body)]
    case Request(r, _) => [PageHeader(p), PageRequest(r)]
  }

  function SeenLink(q: Queue, job: Install, a: nat): Queue {
    if !job.NoInstall? && job.from == a then Job(job) + q else q
  }

  /** A page being installed is seen as still at the head of the link it came from. */
  function Seen(cfg: Config, f: FineState): (s: State)
    requires FineShaped(cfg, f)
    ensures Shaped(cfg, s)
  {
    State(seq(cfg.nodes, i requires 0 <= i < cfg.nodes => SeenNode(f.base.nodes[i], f.inst[i])),
          seq(cfg.nodes, a requires 0 <= a < cfg.nodes =>
            seq(cfg.nodes, b requires 0 <= b < cfg.nodes =>
              SeenLink(f.base.links[a][b], f.inst[b], a))))
  }

  predicate GoodInstall(cfg: Config, node: Node, job: Install, i: nat) {
    !job.NoInstall? ==>
      && job.from < cfg.nodes && job.from != i
      && node.daemon.Serving?
      && job.page in node.mapped
      && (job.Copied? ==> node.mapped[job.page] == job.body)
      && (job.Copied? || job.Mapping? ==> GoodOrigin(cfg, job.body, job.origin))
  }

  predicate GoodOrigin(cfg: Config, body: Page, origin: Origin) {
    origin.Request? ==> body == Mangled(origin.req, origin.stale) && |origin.stale| == cfg.pageSize
  }

  ghost predicate GoodInstalls(cfg: Config, f: FineState)
    requires FineShaped(cfg, f)
  {
    forall i: nat | i < cfg.nodes :: GoodInstall(cfg, f.base.nodes[i], f.inst[i], i)
  }

  // ---------------------------------------------------------------- installs happen where awaited

  /** What an install needs of the coarse state it is seen as. */
  ghost predicate Expected(cfg: Config, v: Variant, s: State, i: nat, pd: Pending)
    requires Shaped(cfg, s) && i < cfg.nodes
  {
    NeverSelf(cfg, s) && HeaderMeansStuck(cfg, s) && Owed(cfg, v, s, i, pd)
  }

  /** A page or header addressed to a node is for the page its thread waits for, and the node
      does not map that page. */
  lemma AddressedIsAwaited(cfg: Config, v: Variant, s: State, a: nat, i: nat, m: Message, pd: Pending)
    requires Shaped(cfg, s) && a < cfg.nodes && i < cfg.nodes && Expected(cfg, v, s, i, pd) && AsMeant(v)
    requires m in s.links[a][i] && (m.SendPage? || m.PageHeader?)
    ensures s.nodes[i].app == Waiting(m.page) && m.page !in s.nodes[i].mapped
    ensures !TestHolds(v, i, s.nodes[i])
  {
    if m.PageHeader? {
      HeaderIsAwaited(cfg, v, s, a, i, m.page, pd);
    }
  }

  /** A node in the middle of an install has that page under way, so its thread waits. */
  lemma InstallMeansWaiting(cfg: Config, v: Variant, f: FineState, i: nat, pd: Pending)
    requires FineShaped(cfg, f) && GoodInstalls(cfg, f) && AsMeant(v)
    requires i < cfg.nodes && !f.inst[i].NoInstall?
    requires Expected(cfg, v, Seen(cfg, f), i, pd)
    ensures f.base.nodes[i].app.Waiting? && !TestHolds(v, i, f.base.nodes[i])
  {
    var job, s := f.inst[i], Seen(cfg, f);
    var m := Job(job)[0];
    assert GoodInstall(cfg, f.base.nodes[i], job, i);
    assert m == s.links[job.from][i][0];
    AddressedIsAwaited(cfg, v, s, job.from, i, m, pd);
  }

  lemma ExpectedInRuns(cfg: Config, v: Variant, run: seq<Label>, i: nat)
    requires ValidConfig(cfg) && Legal(cfg, v, run) && i < cfg.nodes && AsMeant(v)
    requires After(cfg, v, run).nodes[i].daemon.Serving?
    ensures Expected(cfg, v, After(cfg, v, run), i, PendingAfter(run, i))
  {
    NeverSelfInRuns(cfg, v, run);
    HeadersInRuns(cfg, v, run);
    OwedInRuns(cfg, v, run, i);
  }

  // ---------------------------------------------------------------- each kind of step

  /** The step is not one of a node that is installing. */
  predicate Untroubled(f: FineState, l: Label) {
    Mover(l) < |f.inst| && f.inst[Mover(l)].NoInstall?
  }

  lemma SeenEnables(cfg: Config, v: Variant, f: FineState, l: Label)
    requires FineShaped(cfg, f) && FineEnabled(cfg, v, f, Coarse(l)) && Untroubled(f, l)
    ensures Enabled(cfg, v, Seen(cfg, f), l)
  {
  }

  lemma SameEmission(cfg: Config, v: Variant, f: FineState, l: Label, a: nat, b: nat)
    requires FineShaped(cfg, f) && FineEnabled(cfg, v, f, Coarse(l)) && Untroubled(f, l)
    requires Enabled(cfg, v, Seen(cfg, f), l) && a < cfg.nodes && b < cfg.nodes
    ensures Emitted(cfg, v, Seen(cfg, f), l, a, b) == Emitted(cfg, v, f.base, l, a, b)
    ensures Rest(cfg, v, Seen(cfg, f), l, a, b) == SeenLink(Rest(cfg, v, f.base, l, a, b), f.inst[b], a)
  {
  }

  lemma SeenLinkAfterCoarse(cfg: Config, v: Variant, f: FineState, l: Label, a: nat, b: nat)
    requires FineShaped(cfg, f) && FineEnabled(cfg, v, f, Coarse(l)) && Untroubled(f, l)
    requires Enabled(cfg, v, Seen(cfg, f), l) && a < cfg.nodes && b < cfg.nodes
    ensures Seen(cfg, FineNext(cfg, v, f, Coarse(l))).links[a][b] == Next(cfg, v, Seen(cfg, f), l).links[a][b]
  {
    LinkAfter(cfg, v, Seen(cfg, f), l, a, b);
    LinkAfter(cfg, v, f.base, l, a, b);
    SameEmission(cfg, v, f, l, a, b);
    if !f.inst[b].NoInstall? {
      Associative(Job(f.inst[b]), Rest(cfg, v, f.base, l, a, b), Emitted(cfg, v, f.base, l, a, b));
    }
  }

  lemma SeenAfterCoarse(cfg: Config, v: Variant, f: FineState, l: Label)
    requires FineShaped(cfg, f) && FineEnabled(cfg, v, f, Coarse(l)) && Untroubled(f, l) && GoodInstalls(cfg, f)
    ensures Enabled(cfg, v, Seen(cfg, f), l)
    ensures Seen(cfg, FineNext(cfg, v, f, Coarse(l))) == Next(cfg, v, Seen(cfg, f), l)
    ensures GoodInstalls(cfg, FineNext(cfg, v, f, Coarse(l)))
  {
    SeenEnables(cfg, v, f, l);
    var s, f' := Seen(cfg, f), FineNext(cfg, v, f, Coarse(l));
    forall a: nat, b: nat | a < cfg.nodes && b < cfg.nodes
      ensures Seen(cfg, f').links[a][b] == Next(cfg, v, s, l).links[a][b]
    {
      SeenLinkAfterCoarse(cfg, v, f, l, a, b);
    }
    SameState(cfg, Seen(cfg, f'), Next(cfg, v, s, l));
  }

  lemma SeenAfterMap(cfg: Config, f: FineState, a: nat, b: nat, job: Install)
    requires FineShaped(cfg, f) && GoodInstalls(cfg, f)
    requires (job.Mapping? && job.origin.Sent?) || job.HeaderOnly?
    requires DaemonTakes(cfg, f, a, b, Job(job)[0]) && job.from == a
    requires job.page !in f.base.nodes[b].mapped
    ensures Seen(cfg, MapAt(cfg, f, a, b, job.page, job)) == Seen(cfg, f)
    ensures GoodInstalls(cfg, MapAt(cfg, f, a, b, job.page, job))
  {
    var f' := MapAt(cfg, f, a, b, job.page, job);
    assert f'.base.nodes[b].mapped - {job.page} == f.base.nodes[b].mapped;
    SameState(cfg, Seen(cfg, f'), Seen(cfg, f));
  }

  lemma SeenLinkAfterSwallow(cfg: Config, v: Variant, f: FineState, fl: FineLabel, x: nat, y: nat)
    requires FineShaped(cfg, f) && FineEnabled(cfg, v, f, fl) && fl.Swallow? && x < cfg.nodes && y < cfg.nodes
    ensures Seen(cfg, FineNext(cfg, v, f, fl)).links[x][y] == Seen(cfg, f).links[x][y]
  {
    var job, q := f.inst[fl.dst], f.base.links[x][y];
    if y == fl.dst && x == job.from {
      assert q == [PageRequest(fl.req)] + q[1..];
      Associative([PageHeader(job.page)], [PageRequest(fl.req)], q[1..]);
    }
  }

  lemma SeenAfterSwallow(cfg: Config, v: Variant, f: FineState, fl: FineLabel)
    requires FineShaped(cfg, f) && FineEnabled(cfg, v, f, fl) && fl.Swallow? && GoodInstalls(cfg, f)
    ensures Seen(cfg, FineNext(cfg, v, f, fl)) == Seen(cfg, f)
    ensures GoodInstalls(cfg, FineNext(cfg, v, f, fl))
  {
    assert GoodInstall(cfg, f.base.nodes[fl.dst], f.inst[fl.dst], fl.dst);
    forall x: nat, y: nat | x < cfg.nodes && y < cfg.nodes { SeenLinkAfterSwallow(cfg, v, f, fl, x, y); }
    SameState(cfg, Seen(cfg, FineNext(cfg, v, f, fl)), Seen(cfg, f));
  }

  lemma SeenAfterCopy(cfg: Config, v: Variant, f: FineState, fl: FineLabel)
    requires FineShaped(cfg, f) && FineEnabled(cfg, v, f, fl) && fl.CopyBody? && GoodInstalls(cfg, f)
    ensures Seen(cfg, FineNext(cfg, v, f, fl)) == Seen(cfg, f)
    ensures GoodInstalls(cfg, FineNext(cfg, v, f, fl))
  {
    var s, f' := Seen(cfg, f), FineNext(cfg, v, f, fl);
    var p := f.inst[fl.dst].page;
    assert f'.base.nodes[fl.dst].mapped - {p} == f.base.nodes[fl.dst].mapped - {p};
    SameState(cfg, Seen(cfg, f'), s);
  }

  lemma PublishEnabled(cfg: Config, v: Variant, f: FineState, fl: FineLabel)
    requires FineShaped(cfg, f) && FineEnabled(cfg, v, f, fl) && fl.Publish? && GoodInstalls(cfg, f)
    ensures Enabled(cfg, v, Seen(cfg, f), Published(fl.src, fl.dst, fl.page, fl.body, fl.origin))
  {
    var a, b := fl.src, fl.dst;
    assert GoodInstall(cfg, f.base.nodes[b], f.inst[b], b);
    assert Seen(cfg, f).links[a][b] == ReadFor(fl.page, fl.body, fl.origin) + f.base.links[a][b];
  }

  lemma SeenLinkAfterPublish(cfg: Config, v: Variant, f: FineState, fl: FineLabel, l: Label, x: nat, y: nat)
    requires FineShaped(cfg, f) && FineEnabled(cfg, v, f, fl) && fl.Publish?
    requires l == Published(fl.src, fl.dst, fl.page, fl.body, fl.origin) && Enabled(cfg, v, Seen(cfg, f), l)
    requires x < cfg.nodes && y < cfg.nodes
    ensures Seen(cfg, FineNext(cfg, v, f, fl)).links[x][y] == Next(cfg, v, Seen(cfg, f), l).links[x][y]
  {
    LinkAfter(cfg, v, Seen(cfg, f), l, x, y);
    if x == fl.src && y == fl.dst {
      assert Seen(cfg, f).links[x][y] == ReadFor(fl.page, fl.body, fl.origin) + f.base.links[x][y];
    }
  }

  lemma SeenNodeAfterPublish(cfg: Config, v: Variant, f: FineState, fl: FineLabel, l: Label, i: nat)
    requires FineShaped(cfg, f) && FineEnabled(cfg, v, f, fl) && fl.Publish? && GoodInstalls(cfg, f)
    requires l == Published(fl.src, fl.dst, fl.page, fl.body, fl.origin) && Enabled(cfg, v, Seen(cfg, f), l)
    requires i < cfg.nodes
    ensures Seen(cfg, FineNext(cfg, v, f, fl)).nodes[i] == Next(cfg, v, Seen(cfg, f), l).nodes[i]
  {
    var node := f.base.nodes[fl.dst];
    assert GoodInstall(cfg, node, f.inst[fl.dst], fl.dst);
    assert (node.mapped - {fl.page})[fl.page := fl.body] == node.mapped;
  }

  lemma SeenAfterPublish(cfg: Config, v: Variant, f: FineState, fl: FineLabel)
    requires FineShaped(cfg, f) && FineEnabled(cfg, v, f, fl) && fl.Publish? && GoodInstalls(cfg, f)
    ensures var l := Published(fl.src, fl.dst, fl.page, fl.body, fl.origin);
            Enabled(cfg, v, Seen(cfg, f), l)
            && Seen(cfg, FineNext(cfg, v, f, fl)) == Next(cfg, v, Seen(cfg, f), l)
    ensures GoodInstalls(cfg, FineNext(cfg, v, f, fl))
  {
    var l := Published(fl.src, fl.dst, fl.page, fl.body, fl.origin);
    PublishEnabled(cfg, v, f, fl);
    forall i: nat | i < cfg.nodes { SeenNodeAfterPublish(cfg, v, f, fl, l, i); }
    forall x: nat, y: nat | x < cfg.nodes && y < cfg.nodes { SeenLinkAfterPublish(cfg, v, f, fl, l, x, y); }
    SameState(cfg, Seen(cfg, FineNext(cfg, v, f, fl)), Next(cfg, v, Seen(cfg, f), l));
  }

  // ---------------------------------------------------------------- runs

  /** The fine state is seen as the coarse state that `run` leads to. */
  ghost predicate Simulates(cfg: Config, v: Variant, f: FineState, run: seq<Label>)
    requires ValidConfig(cfg) && FineShaped(cfg, f)
  {
    GoodInstalls(cfg, f) && Legal(cfg, v, run) && After(cfg, v, run) == Seen(cfg, f)
  }

  lemma StepsAreUntroubled(cfg: Config, v: Variant, f: FineState, l: Label, run: seq<Label>)
    requires ValidConfig(cfg) && AsMeant(v) && FineShaped(cfg, f) && Simulates(cfg, v, f, run)
    requires FineEnabled(cfg, v, f, Coarse(l))
    ensures Untroubled(f, l)
  {
    if !OfDaemon(l) && !f.inst[l.node].NoInstall? {
      assert GoodInstall(cfg, f.base.nodes[l.node], f.inst[l.node], l.node);
      ExpectedInRuns(cfg, v, run, l.node);
      InstallMeansWaiting(cfg, v, f, l.node, PendingAfter(run, l.node));
      assert false;
    }
  }

  lemma MapSimulated(cfg: Config, v: Variant, f: FineState, a: nat, b: nat, job: Install, run: seq<Label>)
    requires ValidConfig(cfg) && AsMeant(v) && FineShaped(cfg, f) && Simulates(cfg, v, f, run)
    requires (job.Mapping? && job.origin.Sent?) || job.HeaderOnly?
    requires DaemonTakes(cfg, f, a, b, Job(job)[0]) && job.from == a
    ensures Simulates(cfg, v, MapAt(cfg, f, a, b, job.page, job), run)
  {
    assert Job(job)[0] in Seen(cfg, f).links[a][b];
    ExpectedInRuns(cfg, v, run, b);
    AddressedIsAwaited(cfg, v, Seen(cfg, f), a, b, Job(job)[0], PendingAfter(run, b));
    SeenAfterMap(cfg, f, a, b, job);
  }

  /** One fine step is one coarse step or none, in what is seen of it. */
  lemma FineStepSimulated(cfg: Config, v: Variant, f: FineState, fl: FineLabel, run: seq<Label>)
    requires ValidConfig(cfg) && AsMeant(v) && FineShaped(cfg, f) && Simulates(cfg, v, f, run)
    requires FineEnabled(cfg, v, f, fl)
    ensures Simulates(cfg, v, FineNext(cfg, v, f, fl), run + Erased(fl))
  {
    assert run + [] == run;
    match fl
    case Coarse(l) =>
      StepsAreUntroubled(cfg, v, f, l, run);
      SeenAfterCoarse(cfg, v, f, l);
      OneMore(cfg, v, run, l);
    case MapPage(a, b, p, body) =>
      MapSimulated(cfg, v, f, a, b, Mapping(a, p, body, Sent), run);
    case MapHeader(a, b, p) =>
      MapSimulated(cfg, v, f, a, b, HeaderOnly(a, p), run);
    case Swallow(_, _, _) =>
      SeenAfterSwallow(cfg, v, f, fl);
    case CopyBody(b) =>
      SeenAfterCopy(cfg, v, f, fl);
    case Publish(a, b, p, body, origin) =>
      SeenAfterPublish(cfg, v, f, fl);
      OneMore(cfg, v, run, Published(a, b, p, body, origin));
  }

  /** Every fine run is a coarse run in which installs happen when they are published. */
  lemma {:induction false} FineRunsAreSimulated(cfg: Config, v: Variant, run: seq<FineLabel>)
    requires ValidConfig(cfg) && AsMeant(v) && FineExec(cfg, v, run).Some?
    ensures Simulates(cfg, v, FineExec(cfg, v, run).value, Erase(run))
  {
    if run == [] {
      SameState(cfg, Init(cfg), Seen(cfg, FineExec(cfg, v, run).value));
    } else {
      var before := run[..|run| - 1];
      FineRunsAreSimulated(cfg, v, before);
      FineStepSimulated(cfg, v, FineExec(cfg, v, before).value, run[|run| - 1], Erase(before));
    }
  }

  /** No application access, in any fine run, while the node is installing a page: whatever the
      hardware would let it touch is filled and published, be it from a request. */
  lemma NoAccessToUnfilledPage(cfg: Config, v: Variant, run: seq<FineLabel>, i: nat, p: nat, off: nat)
    requires ValidConfig(cfg) && AsMeant(v) && FineExec(cfg, v, run).Some?
    requires CanAccess(cfg, FineExec(cfg, v, run).value.base, i, p, off)
    ensures FineExec(cfg, v, run).value.inst[i].NoInstall?
  {
    var f := FineExec(cfg, v, run).value;
    FineRunsAreSimulated(cfg, v, run);
    if !f.inst[i].NoInstall? {
      assert GoodInstall(cfg, f.base.nodes[i], f.inst[i], i);
      ExpectedInRuns(cfg, v, Erase(run), i);
      InstallMeansWaiting(cfg, v, f, i, PendingAfter(Erase(run), i));
      assert false;
    }
  }

  /** So reads of fine runs in step, too, return the last value written. */
  lemma FineReadsReturnLastWrite(cfg: Config, v: Variant, run: seq<FineLabel>, fl: FineLabel)
    requires ValidConfig(cfg) && AsMeant(v) && FineExec(cfg, v, run + [fl]).Some?
    requires fl.Coarse? && fl.l.AppRead? && InStep(Erase(run))
    ensures fl.l.val == LastWritten(Erase(run), fl.l.page, fl.l.off)
  {
    assert (run + [fl])[..|run|] == run;
    FineRunsAreSimulated(cfg, v, run + [fl]);
    var coarse := Erase(run);
    assert Erase(run + [fl]) == coarse + [fl.l];
    assert (coarse + [fl.l])[..|coarse|] == coarse;
    ReadsReturnLastWrite(cfg, v, coarse + [fl.l], |coarse|);
  }

  // ---------------------------------------------------------------- the other direction

  /** A fine run, and then a step of the coarse system in its fine steps. */
  function Refined(run: seq<FineLabel>, l: Label): seq<FineLabel> {
    match l
    case Deliver(a, b, SendPage(p, body)) =>
      run + [MapPage(a, b, p, body)] + [CopyBody(b)] + [Publish(a, b, p, body, Sent)]
    case Misread(a, b, p, q, stale) =>
      run + [MapHeader(a, b, p)] + [Swallow(b, q, stale)] + [CopyBody(b)]
      + [Publish(a, b, p, Mangled(q, stale), Request(q, stale))]
    case _ => run + [Coarse(l)]
  }

  function Refine(run: seq<Label>): seq<FineLabel> {
    if run == [] then [] else Refined(Refine(run[..|run| - 1]), run[|run| - 1])
  }

  /** No install is under way. */
  function BetweenInstalls(cfg: Config, s: State): FineState {
    FineState(s, seq(cfg.nodes, _ => NoInstall))
  }

  lemma OneMoreFine(cfg: Config, v: Variant, run: seq<FineLabel>, fl: FineLabel)
    requires ValidConfig(cfg) && FineExec(cfg, v, run).Some? && FineEnabled(cfg, v, FineExec(cfg, v, run).value, fl)
    ensures FineExec(cfg, v, run + [fl]) == Some(FineNext(cfg, v, FineExec(cfg, v, run).value, fl))
    ensures Erase(run + [fl]) == Erase(run) + Erased(fl)
  {
    assert (run + [fl])[..|run|] == run;
  }

  /** How many messages an install from that origin reads. */
  function Reads(origin: Origin): nat {
    if origin.Sent? then 1 else 2
  }

  /** The content has been read and copied in, the owner not published. */
  function Filled(cfg: Config, s: State, a: nat, b: nat, p: nat, body: Page, origin: Origin): FineState
    requires Shaped(cfg, s) && a < cfg.nodes && b < cfg.nodes && |s.links[a][b]| >= Reads(origin)
  {
    var node := s.nodes[b];
    FineState(State(s.nodes[b := node.(mapped := node.mapped[p := body])],
                    SetLink(s.links, a, b, s.links[a][b][Reads(origin)..])),
              BetweenInstalls(cfg, s).inst[b := Copied(a, p, body, origin)])
  }

  lemma PublishFilled(cfg: Config, v: Variant, run: seq<FineLabel>, s: State,
        a: nat, b: nat, p: nat, body: Page, origin: Origin)
    requires ValidConfig(cfg) && Shaped(cfg, s) && GoodOrigin(cfg, body, origin)
    requires Enabled(cfg, v, s, Published(a, b, p, body, origin)) && |s.links[a][b]| >= Reads(origin)
    requires FineExec(cfg, v, run) == Some(Filled(cfg, s, a, b, p, body, origin))
    ensures var l := Published(a, b, p, body, origin);
            && FineExec(cfg, v, run + [Publish(a, b, p, body, origin)])
               == Some(BetweenInstalls(cfg, Next(cfg, v, s, l)))
            && Erase(run + [Publish(a, b, p, body, origin)]) == Erase(run) + [l]
  {
    var l, fl, f := Published(a, b, p, body, origin), Publish(a, b, p, body, origin), FineExec(cfg, v, run).value;
    OneMoreFine(cfg, v, run, fl);
    var f' := FineNext(cfg, v, f, fl);
    forall x: nat, y: nat | x < cfg.nodes && y < cfg.nodes
      ensures f'.base.links[x][y] == Next(cfg, v, s, l).links[x][y]
    {
      LinkAfter(cfg, v, s, l, x, y);
    }
    SameState(cfg, f'.base, Next(cfg, v, s, l));
    assert f'.inst == BetweenInstalls(cfg, s).inst;
  }

  /** The page is mapped, and `k` messages have been read for it. */
  function Mapped(cfg: Config, s: State, a: nat, b: nat, p: nat, k: nat, job: Install): FineState
    requires Shaped(cfg, s) && a < cfg.nodes && b < cfg.nodes && |s.links[a][b]| >= k
  {
    var node := s.nodes[b];
    FineState(State(s.nodes[b := node.(mapped := node.mapped[p := Zeros(cfg.pageSize)])],
                    SetLink(s.links, a, b, s.links[a][b][k..])),
              BetweenInstalls(cfg, s).inst[b := job])
  }

  lemma CopyFills(cfg: Config, v: Variant, s: State, a: nat, b: nat, p: nat, body: Page, origin: Origin)
    requires Shaped(cfg, s) && a < cfg.nodes && b < cfg.nodes && |s.links[a][b]| >= Reads(origin)
    ensures var f := Mapped(cfg, s, a, b, p, Reads(origin), Mapping(a, p, body, origin));
            && FineShaped(cfg, f) && FineEnabled(cfg, v, f, CopyBody(b))
            && FineNext(cfg, v, f, CopyBody(b)) == Filled(cfg, s, a, b, p, body, origin)
  {
    var node, f := s.nodes[b], Mapped(cfg, s, a, b, p, Reads(origin), Mapping(a, p, body, origin));
    var f', filled := FineNext(cfg, v, f, CopyBody(b)), Filled(cfg, s, a, b, p, body, origin);
    assert node.mapped[p := Zeros(cfg.pageSize)][p := body] == node.mapped[p := body];
    assert f'.base.nodes == filled.base.nodes;
    assert f'.inst == filled.inst;
  }

  lemma MapAndFill(cfg: Config, v: Variant, run: seq<FineLabel>, s: State, a: nat, b: nat, p: nat, body: Page)
    requires ValidConfig(cfg) && Shaped(cfg, s) && FineExec(cfg, v, run) == Some(BetweenInstalls(cfg, s))
    requires Enabled(cfg, v, s, Deliver(a, b, SendPage(p, body)))
    ensures var run' := run + [MapPage(a, b, p, body)] + [CopyBody(b)];
            FineExec(cfg, v, run') == Some(Filled(cfg, s, a, b, p, body, Sent)) && Erase(run') == Erase(run)
  {
    OneMoreFine(cfg, v, run, MapPage(a, b, p, body));
    CopyFills(cfg, v, s, a, b, p, body, Sent);
    OneMoreFine(cfg, v, run + [MapPage(a, b, p, body)], CopyBody(b));
    assert Erase(run) + [] == Erase(run);
  }

  lemma SwallowFollows(cfg: Config, v: Variant, s: State, a: nat, b: nat, p: nat, q: nat, stale: Page)
    requires Shaped(cfg, s) && Enabled(cfg, v, s, Misread(a, b, p, q, stale))
    ensures var f := Mapped(cfg, s, a, b, p, 1, HeaderOnly(a, p));
            && FineShaped(cfg, f) && FineEnabled(cfg, v, f, Swallow(b, q, stale))
            && FineNext(cfg, v, f, Swallow(b, q, stale))
               == Mapped(cfg, s, a, b, p, 2, Mapping(a, p, Mangled(q, stale), Request(q, stale)))
  {
    var f, job := Mapped(cfg, s, a, b, p, 1, HeaderOnly(a, p)), Mapping(a, p, Mangled(q, stale), Request(q, stale));
    assert f.base.links[a][b] == s.links[a][b][1..];
    assert s.links[a][b][1..][1..] == s.links[a][b][2..];
    var f', half := FineNext(cfg, v, f, Swallow(b, q, stale)), Mapped(cfg, s, a, b, p, 2, job);
    SameState(cfg, f'.base, half.base);
    assert f'.inst == half.inst;
  }

  lemma MapAndSwallow(cfg: Config, v: Variant, run: seq<FineLabel>, s: State,
        a: nat, b: nat, p: nat, q: nat, stale: Page)
    requires ValidConfig(cfg) && Shaped(cfg, s) && FineExec(cfg, v, run) == Some(BetweenInstalls(cfg, s))
    requires Enabled(cfg, v, s, Misread(a, b, p, q, stale))
    ensures var run' := run + [MapHeader(a, b, p)] + [Swallow(b, q, stale)] + [CopyBody(b)];
            FineExec(cfg, v, run') == Some(Filled(cfg, s, a, b, p, Mangled(q, stale), Request(q, stale)))
            && Erase(run') == Erase(run)
  {
    var header := run + [MapHeader(a, b, p)];
    OneMoreFine(cfg, v, run, MapHeader(a, b, p));
    SwallowFollows(cfg, v, s, a, b, p, q, stale);
    OneMoreFine(cfg, v, header, Swallow(b, q, stale));
    CopyFills(cfg, v, s, a, b, p, Mangled(q, stale), Request(q, stale));
    OneMoreFine(cfg, v, header + [Swallow(b, q, stale)], CopyBody(b));
    assert Erase(run) + [] == Erase(run);
  }

  lemma RefineMisread(cfg: Config, v: Variant, run: seq<FineLabel>, s: State,
        a: nat, b: nat, p: nat, q: nat, stale: Page)
    requires ValidConfig(cfg) && Shaped(cfg, s) && FineExec(cfg, v, run) == Some(BetweenInstalls(cfg, s))
    requires Enabled(cfg, v, s, Misread(a, b, p, q, stale))
    ensures var l := Misread(a, b, p, q, stale);
            && FineExec(cfg, v, Refined(run, l)) == Some(BetweenInstalls(cfg, Next(cfg, v, s, l)))
            && Erase(Refined(run, l)) == Erase(run) + [l]
  {
    var filled := run + [MapHeader(a, b, p)] + [Swallow(b, q, stale)] + [CopyBody(b)];
    MapAndSwallow(cfg, v, run, s, a, b, p, q, stale);
    PublishFilled(cfg, v, filled, s, a, b, p, Mangled(q, stale), Request(q, stale));
  }

  lemma RefineDelivery(cfg: Config, v: Variant, run: seq<FineLabel>, s: State, a: nat, b: nat, p: nat, body: Page)
    requires ValidConfig(cfg) && Shaped(cfg, s) && FineExec(cfg, v, run) == Some(BetweenInstalls(cfg, s))
    requires Enabled(cfg, v, s, Deliver(a, b, SendPage(p, body)))
    ensures var l := Deliver(a, b, SendPage(p, body));
            && FineExec(cfg, v, Refined(run, l)) == Some(BetweenInstalls(cfg, Next(cfg, v, s, l)))
            && Erase(Refined(run, l)) == Erase(run) + [l]
  {
    var filled := run + [MapPage(a, b, p, body)] + [CopyBody(b)];
    MapAndFill(cfg, v, run, s, a, b, p, body);
    PublishFilled(cfg, v, filled, s, a, b, p, body, Sent);
  }

  lemma RefineStep(cfg: Config, v: Variant, run: seq<FineLabel>, s: State, l: Label)
    requires ValidConfig(cfg) && Shaped(cfg, s) && FineExec(cfg, v, run) == Some(BetweenInstalls(cfg, s))
    requires Enabled(cfg, v, s, l)
    ensures FineExec(cfg, v, Refined(run, l)) == Some(BetweenInstalls(cfg, Next(cfg, v, s, l)))
    ensures Erase(Refined(run, l)) == Erase(run) + [l]
  {
    match l
    case Deliver(a, b, SendPage(p, body)) => RefineDelivery(cfg, v, run, s, a, b, p, body);
    case Misread(a, b, p, q, stale) => RefineMisread(cfg, v, run, s, a, b, p, q, stale);
    case _ => OneMoreFine(cfg, v, run, Coarse(l));
  }

  ghost predicate Refines(cfg: Config, v: Variant, fine: seq<FineLabel>, run: seq<Label>)
    requires ValidConfig(cfg) && Legal(cfg, v, run)
  {
    FineExec(cfg, v, fine) == Some(BetweenInstalls(cfg, After(cfg, v, run))) && Erase(fine) == run
  }

  lemma RefinesNext(cfg: Config, v: Variant, fine: seq<FineLabel>, run: seq<Label>, before: seq<Label>, l: Label)
    requires ValidConfig(cfg) && Legal(cfg, v, run) && run == before + [l]
    requires Legal(cfg, v, before) && Refines(cfg, v, fine, before)
    ensures Refines(cfg, v, Refined(fine, l), run)
  {
    assert run[..|run| - 1] == before;
    RefineStep(cfg, v, fine, After(cfg, v, before), l);
  }

  /** Every run of the coarse system is what is seen of a fine one, of any variant: the fine
      system does all the coarse one does. */
  lemma {:induction false} CoarseRunsAreFine(cfg: Config, v: Variant, run: seq<Label>)
    requires ValidConfig(cfg) && Legal(cfg, v, run)
    ensures Refines(cfg, v, Refine(run), run)
  {
    if run == [] {
    } else {
      var before, l := run[..|run| - 1], run[|run| - 1];
      CoarseRunsAreFine(cfg, v, before);
      RefinesNext(cfg, v, Refine(before), run, before, l);
    }
  }

  // ---------------------------------------------------------------- an install comes to its end

  /** What a daemon that is installing a page does next; behind a lone header, nothing until a
      request comes. */
  function NextOfInstall(job: Install, q: Queue, i: nat, stale: Page): Option<FineLabel> {
    match job
    case NoInstall => None
    case HeaderOnly(_, _) => if q == [] then None else Some(Swallow(i, q[0].page, stale))
    case Mapping(_, _, _, _) => Some(CopyBody(i))
    case Copied(a, p, body, origin) => Some(Publish(a, i, p, body, origin))
  }

  /** The link it reads from. */
  function ReadFrom(f: FineState, i: nat): Queue
    requires i < |f.inst|
  {
    var job := f.inst[i];
    if !job.NoInstall? && job.from < |f.base.links| && i < |f.base.links[job.from]|
    then f.base.links[job.from][i] else []
  }

  /** The step is one of the daemon of node i. */
  predicate OfInstaller(fl: FineLabel, i: nat) {
    match fl
    case Coarse(l) => OfDaemon(l) && l.dst == i
    case MapPage(_, b, _, _) => b == i
    case MapHeader(_, b, _) => b == i
    case Swallow(b, _, _) => b == i
    case CopyBody(b) => b == i
    case Publish(_, b, _, _, _) => b == i
  }

  /** Behind a header it has read there are only requests. */
  lemma RequestBehindHeader(cfg: Config, v: Variant, run: seq<FineLabel>, i: nat)
    requires ValidConfig(cfg) && AsMeant(v) && FineExec(cfg, v, run).Some? && i < cfg.nodes
    requires var f := FineExec(cfg, v, run).value; f.inst[i].HeaderOnly? && ReadFrom(f, i) != []
    ensures ReadFrom(FineExec(cfg, v, run).value, i)[0].PageRequest?
  {
    var f, a := FineExec(cfg, v, run).value, FineExec(cfg, v, run).value.inst[i].from;
    FineRunsAreSimulated(cfg, v, run);
    HeadersInRuns(cfg, v, Erase(run));
    assert GoodInstall(cfg, f.base.nodes[i], f.inst[i], i);
    var q := After(cfg, v, Erase(run)).links[a][i];
    assert q == [PageHeader(f.inst[i].page)] + f.base.links[a][i];
    assert OnlyRequestsBehind(q) && Marks(q[0]) && q[1] == f.base.links[a][i][0];
  }

  lemma FineLegalIff(cfg: Config, v: Variant, run: seq<FineLabel>, fl: FineLabel)
    requires ValidConfig(cfg) && FineExec(cfg, v, run).Some?
    ensures FineExec(cfg, v, run + [fl]).Some? <==> FineEnabled(cfg, v, FineExec(cfg, v, run).value, fl)
  {
    assert (run + [fl])[..|run|] == run;
  }

  lemma InstallerSteps(cfg: Config, v: Variant, f: FineState, fl: FineLabel, i: nat, stale: Page)
    requires FineShaped(cfg, f) && GoodInstalls(cfg, f) && i < cfg.nodes && |stale| == cfg.pageSize
    requires OfInstaller(fl, i) && (fl.Swallow? ==> fl.stale == stale) && !f.inst[i].NoInstall?
    requires f.inst[i].HeaderOnly? && ReadFrom(f, i) != [] ==> ReadFrom(f, i)[0].PageRequest?
    ensures FineEnabled(cfg, v, f, fl) <==> NextOfInstall(f.inst[i], ReadFrom(f, i), i, stale) == Some(fl)
  {
    assert GoodInstall(cfg, f.base.nodes[i], f.inst[i], i);
  }

  /** A daemon that is installing a page goes on with it whatever the others have done since, in one
      way for each content of its buffer, and does nothing else. */
  lemma InstallerGoesOn(cfg: Config, v: Variant, run: seq<FineLabel>, fl: FineLabel, i: nat, stale: Page)
    requires ValidConfig(cfg) && AsMeant(v) && FineExec(cfg, v, run).Some? && i < cfg.nodes && |stale| == cfg.pageSize
    requires OfInstaller(fl, i) && (fl.Swallow? ==> fl.stale == stale)
    requires !FineExec(cfg, v, run).value.inst[i].NoInstall?
    ensures var f := FineExec(cfg, v, run).value;
            FineExec(cfg, v, run + [fl]).Some? <==> NextOfInstall(f.inst[i], ReadFrom(f, i), i, stale) == Some(fl)
  {
    var f := FineExec(cfg, v, run).value;
    FineRunsAreSimulated(cfg, v, run);
    if f.inst[i].HeaderOnly? && ReadFrom(f, i) != [] {
      RequestBehindHeader(cfg, v, run, i);
    }
    InstallerSteps(cfg, v, f, fl, i, stale);
    FineLegalIff(cfg, v, run, fl);
  }

  /** A thread is hindered by no install. */
  lemma ThreadsGoOn(cfg: Config, v: Variant, run: seq<FineLabel>, l: Label)
    requires ValidConfig(cfg) && FineExec(cfg, v, run).Some? && !OfDaemon(l)
    ensures FineExec(cfg, v, run + [Coarse(l)]).Some? <==> Enabled(cfg, v, FineExec(cfg, v, run).value.base, l)
  {
    assert (run + [Coarse(l)])[..|run|] == run;
  }

  /** Steps its install still needs; none while it waits for what comes behind a lone header. */
  function InstallLeft(f: FineState, i: nat): nat
    requires i < |f.inst|
  {
    match f.inst[i]
    case NoInstall => 0
    case HeaderOnly(_, _) => if ReadFrom(f, i) == [] then 0 else 3
    case Mapping(_, _, _, _) => 2
    case Copied(_, _, _, _) => 1
  }

  lemma InstallStepCounts(cfg: Config, v: Variant, run: seq<FineLabel>, i: nat, stale: Page) returns (fl: FineLabel)
    requires ValidConfig(cfg) && AsMeant(v) && FineExec(cfg, v, run).Some? && i < cfg.nodes && |stale| == cfg.pageSize
    requires InstallLeft(FineExec(cfg, v, run).value, i) > 0
    ensures OfInstaller(fl, i) && FineExec(cfg, v, run + [fl]).Some?
    ensures InstallLeft(FineExec(cfg, v, run + [fl]).value, i) == InstallLeft(FineExec(cfg, v, run).value, i) - 1
  {
    var f := FineExec(cfg, v, run).value;
    fl := NextOfInstall(f.inst[i], ReadFrom(f, i), i, stale).value;
    InstallerGoesOn(cfg, v, run, fl, i, stale);
    assert (run + [fl])[..|run|] == run;
    assert FineExec(cfg, v, run + [fl]) == Some(FineNext(cfg, v, f, fl));
  }

  /** So from every state an install can be brought to its end by its daemon alone, in just the steps
      that are left of it, unless a lone header has nothing behind it yet. */
  lemma {:induction false} InstallCanEnd(cfg: Config, v: Variant, run: seq<FineLabel>, i: nat, stale: Page)
    returns (more: seq<FineLabel>)
    requires ValidConfig(cfg) && AsMeant(v) && FineExec(cfg, v, run).Some? && i < cfg.nodes && |stale| == cfg.pageSize
    ensures FineExec(cfg, v, run + more).Some?
    ensures |more| == InstallLeft(FineExec(cfg, v, run).value, i)
    ensures forall k | 0 <= k < |more| :: OfInstaller(more[k], i)
    ensures var f := FineExec(cfg, v, run + more).value;
            f.inst[i].NoInstall? || (f.inst[i].HeaderOnly? && ReadFrom(f, i) == [])
    decreases InstallLeft(FineExec(cfg, v, run).value, i)
  {
    if InstallLeft(FineExec(cfg, v, run).value, i) == 0 {
      more := [];
      assert run + more == run;
    } else {
      var fl := InstallStepCounts(cfg, v, run, i, stale);
      var rest := InstallCanEnd(cfg, v, run + [fl], i, stale);
      more := [fl] + rest;
      Associative(run, [fl], rest);
    }
  }
}
