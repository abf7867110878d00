/**
 The page-ownership protocol of dsm.c as a labelled step system over any number of nodes.

 Every node keeps an owner table, the pages it has mapped, one application thread and one
 daemon; every ordered pair of nodes shares a FIFO link. What one node does on one event is a
 function on `Node` values (`InstallPage`, `LearnOwner`, `GivePage`, `AskForPage`,
 `FaultInDaemon`); class `DsmNode` in NodeProgram.dfy is proved against these functions, and
 `Next` below lifts them to the whole system.
 */
module Protocol {
  import opened Basics

  type Page = seq<Byte>
  type Queue = seq<Message>
  type Row = seq<Queue>     // what one node sends, by destination
  type Links = seq<Row>     // links[a][b] is the FIFO from a to b

  datatype Config = Config(nodes: nat, pages: nat, pageSize: nat)

  /** Where dsm.c differs from what the rest of the program needs of it.
      `recordsGrant`: a node that gives a page away writes the new owner in its own table.
      `waitsForOwnership`: the fault handler waits until its own node owns the page; without
      it the handler waits while its own node is named as the owner, as dsm.c is written.
      `wakesAtOnce`: the wait ends in the step that makes its test true; without it the
      handler spins in its own thread, as written, and sees only what the table holds then.
      `unmapsFirst`: a page is taken out of the giver's memory before it is copied; as written
      it goes last. Giving is one step here, so only FineGive.dfy looks at this one. */
  datatype Variant = Variant(recordsGrant: bool, waitsForOwnership: bool, wakesAtOnce: bool, unmapsFirst: bool)

  const MEANT := Variant(true, true, true, true)

  /** Ownership is recorded and waited for as the rest of the program needs it. */
  predicate AsMeant(v: Variant) {
    v.recordsGrant && v.waitsForOwnership
  }

  datatype PageState = Invalid | Write | NoChange
  datatype Entry = Entry(status: PageState, owner: nat)
  datatype App = Running | Waiting(page: nat)

  /** `Stuck`: while serving `src` the daemon itself faulted on a page it does not map. It is in
      the fault handler, which only the daemon could release, and reads nothing any more. */
  datatype Daemon = Serving | Stuck(src: nat, page: nat)

  datatype Node = Node(table: seq<Entry>, mapped: map<nat, Page>, app: App, daemon: Daemon)

  datatype Message =
    | SendPage(page: nat, body: Page)
    | SendInfo(page: nat, owner: nat)
    | PageRequest(page: nat)
    | PageHeader(page: nat)   // the type and page number of a SEND_PAGE whose body never follows
    | Scrap(page: nat)        // what a misreading leaves of a request: the link is out of step

  datatype State = State(nodes: seq<Node>, links: Links)

  /** What handling one event does to a node, and what the node sends to each destination. */
  datatype Effect = Effect(node: Node, out: Row)

  datatype Label =
    | AppRead(node: nat, page: nat, off: nat, val: Byte)
    | AppWrite(node: nat, page: nat, off: nat, val: Byte)
    | Fault(node: nat, page: nat, to: nat)
    | Spin(node: nat)                                          // the handler's test holds
    | DaemonFault(src: nat, dst: nat, page: nat, to: nat)      // dst serves src a page it lacks
    | Misread(src: nat, dst: nat, page: nat, req: nat, stale: Page)  // a request, read as a body
    | Deliver(src: nat, dst: nat, msg: Message)

  /** The node whose thread or daemon takes a step. */
  function Mover(l: Label): nat {
    if OfDaemon(l) then l.dst else l.node
  }

  predicate OfDaemon(l: Label) {
    l.DaemonFault? || l.Misread? || l.Deliver?
  }

  /** No daemon of the run has read on behind a lone header. */
  predicate InStep(run: seq<Label>) {
    forall k | 0 <= k < |run| :: !run[k].Misread?
  }

  lemma InStepLast(run: seq<Label>)
    requires run != []
    ensures InStep(run) <==> InStep(run[..|run| - 1]) && !run[|run| - 1].Misread?
  {
    forall k | 0 <= k < |run| - 1
      ensures run[..|run| - 1][k] == run[k]
    {
    }
  }

  predicate ValidConfig(cfg: Config) {
    cfg.nodes > 0
  }

  // ---------------------------------------------------------------- one node

  function ChangeInfo(table: seq<Entry>, page: int, state: PageState, owner: int): (t: seq<Entry>)
    ensures |t| == |table|
  {
    if 0 <= page < |table| then
      var status := if state == NoChange then table[page].status else state;
      table[page := Entry(status, if owner >= 0 then owner else table[page].owner)]
    else
      table
  }

  predicate WaitOver(v: Variant, me: nat, owner: nat) {
    if v.waitsForOwnership then owner == me else owner != me
  }

  /** The handler's loop test, on the table as it is now. */
  predicate TestHolds(v: Variant, me: nat, node: Node) {
    node.app.Waiting? && node.app.page < |node.table| && WaitOver(v, me, node.table[node.app.page].owner)
  }

  function Wake(v: Variant, me: nat, node: Node): Node {
    if v.wakesAtOnce && TestHolds(v, me, node) then node.(app := Running) else node
  }

  function Silence(n: nat): Row {
    seq(n, _ => [])
  }

  function InstallPage(v: Variant, me: nat, node: Node, page: nat, body: Page): Node {
    Wake(v, me, node.(table := ChangeInfo(node.table, page, Write, me), mapped := node.mapped[page := body]))
  }

  function LearnOwner(v: Variant, me: nat, node: Node, page: nat, owner: nat): Node {
    Wake(v, me, node.(table := ChangeInfo(node.table, page, Write, owner)))
  }

  /** The page goes to `dest`; everybody else hears who has it now. */
  function GrantMail(n: nat, me: nat, dest: nat, page: nat, body: Page): Row {
    seq(n, d => if d == dest then [SendPage(page, body)]
                else if d == me then [] else [SendInfo(page, dest)])
  }

  /** The giver's own part: the page is unmapped and, where the variant does so, its new owner
      recorded. */
  function GiveUp(v: Variant, me: nat, node: Node, dest: nat, page: nat): Node {
    var table := if v.recordsGrant then ChangeInfo(node.table, page, NoChange, dest) else node.table;
    Wake(v, me, node.(table := table, mapped := node.mapped - {page}))
  }

  function GivePage(n: nat, v: Variant, me: nat, node: Node, dest: nat, page: nat): Effect
    requires page in node.mapped
  {
    Effect(GiveUp(v, me, node, dest, page), GrantMail(n, me, dest, page, node.mapped[page]))
  }

  /** The daemon can finish its turn: it is in its loop, and does not fault on the page asked of
      it. A lone header keeps its reader waiting for a body. What is read behind a misreading is no
      message about a page of the region any more, which Messages.dfy proves of its bytes. */
  predicate Serves(node: Node, m: Message) {
    && node.daemon.Serving?
    && (m.PageRequest? ==> m.page in node.mapped)
    && !m.PageHeader? && !m.Scrap?
  }

  /** The page that is installed for a header when a request for `req` follows it: two bytes of the
      request, and behind them what the receiver's fresh buffer held. */
  function Mangled(req: nat, stale: Page): (body: Page)
    ensures |body| == |stale|
  {
    seq(|stale|, i requires 0 <= i < |stale| =>
      if i == 0 then req % 256 else if i == 1 then req / 256 % 256 else stale[i])
  }

  /** One turn of the daemon's switch. */
  function Handle(n: nat, v: Variant, me: nat, node: Node, src: nat, m: Message): (e: Effect)
    requires Serves(node, m)
    ensures |e.out| == n && |e.node.table| == |node.table|
  {
    match m
    case SendPage(p, body) => Effect(InstallPage(v, me, node, p, body), Silence(n))
    case SendInfo(p, owner) => Effect(LearnOwner(v, me, node, p, owner), Silence(n))
    case PageRequest(p) => GivePage(n, v, me, node, src, p)
  }

  function RequestMail(n: nat, to: nat, page: nat): Row {
    seq(n, d => if d == to then [PageRequest(page)] else [])
  }

  function AskForPage(n: nat, v: Variant, me: nat, node: Node, page: nat): Effect
    requires page < |node.table|
  {
    Effect(Wake(v, me, node.(app := Waiting(page))),
           RequestMail(n, node.table[page].owner, page))
  }

  /** The daemon faults when it copies out a page it does not map: it has sent the header by
      then, and its handler asks the recorded owner. If the handler's test lets it return, the
      copy faults again and only the request is repeated. */
  predicate Faults(v: Variant, me: nat, node: Node, src: nat, page: nat) {
    && page !in node.mapped && page < |node.table|
    && (node.daemon.Serving?
        || (node.daemon == Stuck(src, page) && WaitOver(v, me, node.table[page].owner)))
  }

  function HeaderMail(node: Node, src: nat, page: nat, d: nat): Queue {
    if node.daemon.Serving? && d == src then [PageHeader(page)] else []
  }

  function FaultInDaemon(n: nat, node: Node, src: nat, page: nat): (e: Effect)
    requires page < |node.table|
    ensures |e.out| == n && |e.node.table| == |node.table|
  {
    var to := node.table[page].owner;
    Effect(node.(daemon := Stuck(src, page)),
           seq(n, d requires d >= 0 => HeaderMail(node, src, page, d) + if d == to then [PageRequest(page)] else []))
  }

  // ---------------------------------------------------------------- the whole system

  predicate ShapedLinks(n: nat, links: Links) {
    |links| == n && forall a | 0 <= a < n :: |links[a]| == n
  }

  predicate Shaped(cfg: Config, s: State) {
    && |s.nodes| == cfg.nodes
    && (forall i | 0 <= i < cfg.nodes :: |s.nodes[i].table| == cfg.pages)
    && ShapedLinks(cfg.nodes, s.links)
  }

  function PushRow(row: Row, out: Row): Row
    requires |row| == |out|
  {
    seq(|row|, d requires 0 <= d < |row| => row[d] + out[d])
  }

  function Push(links: Links, me: nat, out: Row): Links
    requires me < |links| && |links[me]| == |out|
  {
    links[me := PushRow(links[me], out)]
  }

  function SetLink(links: Links, src: nat, dst: nat, q: Queue): Links
    requires src < |links| && dst < |links[src]|
  {
    links[src := links[src][dst := q]]
  }

  function Pop(links: Links, src: nat, dst: nat): Links
    requires src < |links| && dst < |links[src]| && links[src][dst] != []
  {
    SetLink(links, src, dst, links[src][dst][1..])
  }

  function Poke(page: Page, off: nat, val: Byte): Page
    requires off < |page|
  {
    page[off := val]
  }

  function Zeros(size: nat): Page {
    seq(size, _ => 0)
  }

  function InitialNode(cfg: Config, me: nat): Node
    requires ValidConfig(cfg)
  {
    Node(seq(cfg.pages, p => if p >= 0 then Entry(Write, p % cfg.nodes) else Entry(Write, 0)),
         map p: nat | p < cfg.pages && p % cfg.nodes == me :: Zeros(cfg.pageSize),
         Running,
         Serving)
  }

  function Init(cfg: Config): (s: State)
    requires ValidConfig(cfg)
    ensures Shaped(cfg, s)
  {
    State(seq(cfg.nodes, i requires i >= 0 => InitialNode(cfg, i)),
          seq(cfg.nodes, _ => Silence(cfg.nodes)))
  }

  /** The memory hardware lets the application thread touch exactly the mapped pages. */
  predicate CanAccess(cfg: Config, s: State, i: nat, p: nat, off: nat)
    requires Shaped(cfg, s)
  {
    && i < cfg.nodes
    && s.nodes[i].app.Running?
    && p in s.nodes[i].mapped
    && off < |s.nodes[i].mapped[p]|
  }

  predicate AtHead(cfg: Config, s: State, a: nat, b: nat, m: Message)
    requires Shaped(cfg, s)
  {
    a < cfg.nodes && b < cfg.nodes && a != b && s.links[a][b] != [] && s.links[a][b][0] == m
  }

  predicate Enabled(cfg: Config, v: Variant, s: State, l: Label)
    requires Shaped(cfg, s)
  {
    match l
    case AppRead(i, p, off, val) => CanAccess(cfg, s, i, p, off) && val == s.nodes[i].mapped[p][off]
    case AppWrite(i, p, off, val) => CanAccess(cfg, s, i, p, off)
    case Fault(i, p, to) =>
      && i < cfg.nodes && p < cfg.pages
      && s.nodes[i].app.Running?
      && p !in s.nodes[i].mapped
      && to == s.nodes[i].table[p].owner
    case Spin(i) => i < cfg.nodes && !v.wakesAtOnce && TestHolds(v, i, s.nodes[i])
    case DaemonFault(a, b, p, to) =>
      && AtHead(cfg, s, a, b, PageRequest(p))
      && Faults(v, b, s.nodes[b], a, p)
      && to == s.nodes[b].table[p].owner
    case Misread(a, b, p, q, stale) =>
      && AtHead(cfg, s, a, b, PageHeader(p))
      && |s.links[a][b]| >= 2 && s.links[a][b][1] == PageRequest(q)
      && s.nodes[b].daemon.Serving? && |stale| == cfg.pageSize
    case Deliver(a, b, m) => AtHead(cfg, s, a, b, m) && Serves(s.nodes[b], m)
  }

  function Apply(cfg: Config, s: State, me: nat, e: Effect): (s': State)
    requires Shaped(cfg, s) && me < cfg.nodes
    requires |e.out| == cfg.nodes && |e.node.table| == cfg.pages
    ensures Shaped(cfg, s')
  {
    State(s.nodes[me := e.node], Push(s.links, me, e.out))
  }

  function Next(cfg: Config, v: Variant, s: State, l: Label): (s': State)
    requires Shaped(cfg, s) && Enabled(cfg, v, s, l)
    ensures Shaped(cfg, s')
  {
    match l
    case AppRead(_, _, _, _) => s
    case AppWrite(i, p, off, val) =>
      var node := s.nodes[i];
      s.(nodes := s.nodes[i := node.(mapped := node.mapped[p := Poke(node.mapped[p], off, val)])])
    case Fault(i, p, _) => Apply(cfg, s, i, AskForPage(cfg.nodes, v, i, s.nodes[i], p))
    case Spin(i) => s.(nodes := s.nodes[i := s.nodes[i].(app := Running)])
    case DaemonFault(a, b, p, _) => Apply(cfg, s, b, FaultInDaemon(cfg.nodes, s.nodes[b], a, p))
    case Misread(a, b, p, q, stale) =>
      State(s.nodes[b := InstallPage(v, b, s.nodes[b], p, Mangled(q, stale))],
            SetLink(s.links, a, b, [Scrap(q)] + s.links[a][b][2..]))
    case Deliver(a, b, m) =>
      Apply(cfg, s.(links := Pop(s.links, a, b)), b, Handle(cfg.nodes, v, b, s.nodes[b], a, m))
  }

  /** The state a run of labels leads to; `None` when some label was not enabled in its turn. */
  function Exec(cfg: Config, v: Variant, run: seq<Label>): (r: Option<State>)
    requires ValidConfig(cfg)
    ensures r.Some? ==> Shaped(cfg, r.value)
  {
    if run == [] then Some(Init(cfg))
    else
      var before := Exec(cfg, v, run[..|run| - 1]);
      var l := run[|run| - 1];
      if before.Some? && Enabled(cfg, v, before.value, l)
      then Some(Next(cfg, v, before.value, l)) else None
  }

  predicate Legal(cfg: Config, v: Variant, run: seq<Label>)
    requires ValidConfig(cfg)
  {
    Exec(cfg, v, run).Some?
  }

  function After(cfg: Config, v: Variant, run: seq<Label>): (s: State)
    requires ValidConfig(cfg) && Legal(cfg, v, run)
    ensures Shaped(cfg, s)
  {
    Exec(cfg, v, run).value
  }

  /** A legal run may take any step that is enabled where it ends. */
  lemma OneMore(cfg: Config, v: Variant, run: seq<Label>, l: Label)
    requires ValidConfig(cfg) && Legal(cfg, v, run) && Enabled(cfg, v, After(cfg, v, run), l)
    ensures Legal(cfg, v, run + [l])
    ensures After(cfg, v, run + [l]) == Next(cfg, v, After(cfg, v, run), l)
  {
    assert (run + [l])[..|run|] == run;
  }
}
