/**
 dsm.c as a program: the tables, mappings and sockets of one node are fields that its
 procedures update in place. Every procedure is proved against the function on `Node`
 values that the protocol's step system uses. Every turn of the daemon at a socket is proved
 to be a step of that system wherever the other nodes are, and a pass in which they pause to
 be a run of it.
 */
module NodeProgram {
  import opened Basics
  import opened Protocol
  import opened Traffic
  import opened FineGive

  // ---------------------------------------------------------------- what one daemon pass means

  /** The part of the system a node's daemon works on. `starved`: it waits for what is behind a
      header, or is out of step behind a scrap. */
  datatype Local = Local(node: Node, inbox: Row, sent: Row, starved: bool)

  /** What the buffers that the daemon allocates at each socket hold before anything is read. */
  ghost predicate ShapedBuffers(cfg: Config, stale: seq<Page>) {
    |stale| == cfg.nodes && forall i | 0 <= i < cfg.nodes :: |stale[i]| == cfg.pageSize
  }

  /** The next two messages are a lone header and a request. */
  predicate HeaderThenRequest(q: Queue) {
    |q| >= 2 && q[0].PageHeader? && q[1].PageRequest?
  }

  ghost predicate ShapedLocal(cfg: Config, loc: Local) {
    |loc.node.table| == cfg.pages && |loc.inbox| == cfg.nodes && |loc.sent| == cfg.nodes
  }

  /** The daemon has a message to take at socket i, and is free to. */
  ghost predicate HasTurn(cfg: Config, me: nat, loc: Local, i: nat)
    requires ShapedLocal(cfg, loc) && i < cfg.nodes
  {
    !loc.starved && loc.node.daemon.Serving? && i != me && loc.inbox[i] != []
  }

  /** The daemon's turn at socket i: at most one message, none from itself, none once it is
      starved or stuck. The request on which it gets stuck is not done with; one that it reads for
      the content of a page leaves its scrap. */
  ghost function Turn(cfg: Config, v: Variant, me: nat, loc: Local, i: nat, stale: seq<Page>): (r: Local)
    requires ShapedLocal(cfg, loc) && ShapedBuffers(cfg, stale) && i < cfg.nodes
    ensures ShapedLocal(cfg, r)
  {
    if !HasTurn(cfg, me, loc, i) then loc
    else
      var m := loc.inbox[i][0];
      if Serves(loc.node, m) then
        var e := Handle(cfg.nodes, v, me, loc.node, i, m);
        Local(e.node, loc.inbox[i := loc.inbox[i][1..]], PushRow(loc.sent, e.out), false)
      else if m.PageRequest? && Faults(v, me, loc.node, i, m.page) then
        var e := FaultInDaemon(cfg.nodes, loc.node, i, m.page);
        loc.(node := e.node, sent := PushRow(loc.sent, e.out))
      else if HeaderThenRequest(loc.inbox[i]) then
        var q := loc.inbox[i][1].page;
        loc.(node := InstallPage(v, me, loc.node, m.page, Mangled(q, stale[i])),
             inbox := loc.inbox[i := [Scrap(q)] + loc.inbox[i][2..]])
      else
        loc.(starved := true)
  }

  /** The turns at sockets 0 to k - 1. */
  ghost function Turns(cfg: Config, v: Variant, me: nat, loc: Local, k: nat, stale: seq<Page>): (r: Local)
    requires ShapedLocal(cfg, loc) && ShapedBuffers(cfg, stale) && k <= cfg.nodes
    ensures ShapedLocal(cfg, r)
  {
    if k == 0 then loc else Turn(cfg, v, me, Turns(cfg, v, me, loc, k - 1, stale), k - 1, stale)
  }

  /** What a turn that gets through leaves of what it found at its socket. */
  function LeftBehind(q: Queue): Queue {
    if HeaderThenRequest(q) then [Scrap(q[1].page)] + q[2..] else if q != [] then q[1..] else q
  }

  /** A pass that gets through takes exactly one message from every other node that had one; where
      that is a lone header it also takes the request behind it, all but its scrap. */
  lemma {:induction false} PassTakesOneEach(cfg: Config, v: Variant, me: nat, loc: Local, k: nat, i: nat,
        stale: seq<Page>)
    requires ShapedLocal(cfg, loc) && ShapedBuffers(cfg, stale) && k <= cfg.nodes && i < cfg.nodes
    requires !Turns(cfg, v, me, loc, k, stale).starved && Turns(cfg, v, me, loc, k, stale).node.daemon.Serving?
    ensures Turns(cfg, v, me, loc, k, stale).inbox[i]
            == if i < k && i != me then LeftBehind(loc.inbox[i]) else loc.inbox[i]
  {
    if k == 0 {
    } else {
      PassTakesOneEach(cfg, v, me, loc, k - 1, i, stale);
    }
  }

  // ---------------------------------------------------------------- a pass is a run

  /** The system `s` with the daemon's part of it replaced by `loc`. */
  ghost function Embed(cfg: Config, s: State, me: nat, loc: Local): (r: State)
    requires Shaped(cfg, s) && me < cfg.nodes && ShapedLocal(cfg, loc)
    ensures Shaped(cfg, r)
  {
    State(s.nodes[me := loc.node],
          seq(cfg.nodes, a requires 0 <= a < cfg.nodes =>
            seq(cfg.nodes, b requires 0 <= b < cfg.nodes =>
              if a == me then s.links[a][b] + loc.sent[b]
              else if b == me then loc.inbox[a] else s.links[a][b])))
  }

  /** The daemon's part of a system, before the pass. */
  ghost function LocalOf(cfg: Config, s: State, me: nat): (loc: Local)
    requires Shaped(cfg, s) && me < cfg.nodes
    ensures ShapedLocal(cfg, loc)
  {
    Local(s.nodes[me], seq(cfg.nodes, a requires 0 <= a < cfg.nodes => s.links[a][me]),
          Silence(cfg.nodes), false)
  }

  ghost function TurnLabels(cfg: Config, v: Variant, me: nat, loc: Local, i: nat, stale: seq<Page>): seq<Label>
    requires ShapedLocal(cfg, loc) && ShapedBuffers(cfg, stale) && i < cfg.nodes
  {
    if !HasTurn(cfg, me, loc, i) then []
    else
      var m := loc.inbox[i][0];
      if Serves(loc.node, m) then [Deliver(i, me, m)]
      else if m.PageRequest? && Faults(v, me, loc.node, i, m.page)
      then [DaemonFault(i, me, m.page, loc.node.table[m.page].owner)]
      else if HeaderThenRequest(loc.inbox[i]) then [Misread(i, me, m.page, loc.inbox[i][1].page, stale[i])]
      else []
  }

  lemma TurnEnabled(cfg: Config, v: Variant, s: State, me: nat, t: Local, i: nat, stale: seq<Page>)
    requires Shaped(cfg, s) && me < cfg.nodes && i < cfg.nodes && ShapedLocal(cfg, t) && ShapedBuffers(cfg, stale)
    requires TurnLabels(cfg, v, me, t, i, stale) != []
    ensures Enabled(cfg, v, Embed(cfg, s, me, t), TurnLabels(cfg, v, me, t, i, stale)[0])
  {
    var e := Embed(cfg, s, me, t);
    assert e.nodes[me] == t.node;
    assert e.links[i][me] == t.inbox[i];
  }

  lemma TurnLink(cfg: Config, v: Variant, s: State, me: nat, t: Local, i: nat, stale: seq<Page>,
        l: Label, x: nat, y: nat)
    requires Shaped(cfg, s) && me < cfg.nodes && i < cfg.nodes && ShapedLocal(cfg, t) && ShapedBuffers(cfg, stale)
    requires TurnLabels(cfg, v, me, t, i, stale) == [l] && Enabled(cfg, v, Embed(cfg, s, me, t), l)
    requires x < cfg.nodes && y < cfg.nodes
    ensures Next(cfg, v, Embed(cfg, s, me, t), l).links[x][y]
            == Embed(cfg, s, me, Turn(cfg, v, me, t, i, stale)).links[x][y]
  {
    var e := Embed(cfg, s, me, t);
    LinkAfter(cfg, v, e, l, x, y);
    if x == me {
      var out := Emitted(cfg, v, e, l, x, y);
      assert Turn(cfg, v, me, t, i, stale).sent[y] == t.sent[y] + out;
      Associative(s.links[x][y], t.sent[y], out);
    }
  }

  lemma TurnIsAStep(cfg: Config, v: Variant, s: State, me: nat, t: Local, i: nat, stale: seq<Page>)
    requires Shaped(cfg, s) && me < cfg.nodes && i < cfg.nodes && ShapedLocal(cfg, t) && ShapedBuffers(cfg, stale)
    requires TurnLabels(cfg, v, me, t, i, stale) != []
    ensures var l := TurnLabels(cfg, v, me, t, i, stale)[0];
            Enabled(cfg, v, Embed(cfg, s, me, t), l)
            && Next(cfg, v, Embed(cfg, s, me, t), l) == Embed(cfg, s, me, Turn(cfg, v, me, t, i, stale))
  {
    var l := TurnLabels(cfg, v, me, t, i, stale)[0];
    var e, e' := Embed(cfg, s, me, t), Embed(cfg, s, me, Turn(cfg, v, me, t, i, stale));
    TurnEnabled(cfg, v, s, me, t, i, stale);
    forall x: nat, y: nat | x < cfg.nodes && y < cfg.nodes
      ensures Next(cfg, v, e, l).links[x][y] == e'.links[x][y]
    {
      TurnLink(cfg, v, s, me, t, i, stale, l, x, y);
    }
    SameState(cfg, Next(cfg, v, e, l), e');
  }

  lemma TurnExtendsRun(cfg: Config, v: Variant, run: seq<Label>, s: State, me: nat, t: Local, i: nat,
        stale: seq<Page>)
    requires ValidConfig(cfg) && Legal(cfg, v, run) && Shaped(cfg, s)
    requires me < cfg.nodes && i < cfg.nodes && ShapedLocal(cfg, t) && ShapedBuffers(cfg, stale)
    requires After(cfg, v, run) == Embed(cfg, s, me, t)
    ensures var turn := TurnLabels(cfg, v, me, t, i, stale);
            && Legal(cfg, v, run + turn)
            && After(cfg, v, run + turn) == Embed(cfg, s, me, Turn(cfg, v, me, t, i, stale))
  {
    var turn := TurnLabels(cfg, v, me, t, i, stale);
    if turn == [] {
      assert run + turn == run;
      SameState(cfg, Embed(cfg, s, me, t), Embed(cfg, s, me, Turn(cfg, v, me, t, i, stale)));
    } else {
      TurnIsAStep(cfg, v, s, me, t, i, stale);
      OneMore(cfg, v, run, turn[0]);
    }
  }

  /** One turn of the daemon, begun in any reachable state, is a legal step or none. */
  lemma TurnIsARun(cfg: Config, v: Variant, run: seq<Label>, me: nat, i: nat, stale: seq<Page>)
    requires ValidConfig(cfg) && Legal(cfg, v, run) && me < cfg.nodes && i < cfg.nodes && ShapedBuffers(cfg, stale)
    ensures var s := After(cfg, v, run);
            var loc := LocalOf(cfg, s, me);
            var turn := TurnLabels(cfg, v, me, loc, i, stale);
            && Legal(cfg, v, run + turn)
            && After(cfg, v, run + turn) == Embed(cfg, s, me, Turn(cfg, v, me, loc, i, stale))
  {
    var s := After(cfg, v, run);
    var loc := LocalOf(cfg, s, me);
    SameState(cfg, s, Embed(cfg, s, me, loc));
    TurnExtendsRun(cfg, v, run, s, me, loc, i, stale);
  }

  /** The run goes on with `pass`, at most k steps of node `me`, to where its daemon has `t`. */
  ghost predicate PassSoFar(cfg: Config, v: Variant, run: seq<Label>, pass: seq<Label>, s: State,
        me: nat, t: Local, k: nat)
    requires ValidConfig(cfg) && Shaped(cfg, s) && me < cfg.nodes && ShapedLocal(cfg, t)
  {
    && |pass| <= k
    && (forall j | 0 <= j < |pass| :: Mover(pass[j]) == me)
    && Legal(cfg, v, run + pass)
    && After(cfg, v, run + pass) == Embed(cfg, s, me, t)
  }

  lemma TurnExtendsPass(cfg: Config, v: Variant, run: seq<Label>, pass: seq<Label>, s: State, me: nat, t: Local, k: nat,
        stale: seq<Page>)
    requires ValidConfig(cfg) && Shaped(cfg, s) && me < cfg.nodes && k < cfg.nodes
    requires ShapedLocal(cfg, t) && ShapedBuffers(cfg, stale)
    requires PassSoFar(cfg, v, run, pass, s, me, t, k)
    ensures var turn, t' := TurnLabels(cfg, v, me, t, k, stale), Turn(cfg, v, me, t, k, stale);
            PassSoFar(cfg, v, run, pass + turn, s, me, t', k + 1)
  {
    TurnExtendsRun(cfg, v, run + pass, s, me, t, k, stale);
    Associative(run, pass, TurnLabels(cfg, v, me, t, k, stale));
  }

  lemma TurnsExtendRun(cfg: Config, v: Variant, run: seq<Label>, s: State, me: nat, loc: Local, stale: seq<Page>)
    returns (pass: seq<Label>)
    requires ValidConfig(cfg) && Legal(cfg, v, run) && me < cfg.nodes && Shaped(cfg, s)
    requires ShapedLocal(cfg, loc) && ShapedBuffers(cfg, stale)
    requires After(cfg, v, run) == Embed(cfg, s, me, loc)
    ensures PassSoFar(cfg, v, run, pass, s, me, Turns(cfg, v, me, loc, cfg.nodes, stale), cfg.nodes)
  {
    pass := [];
    assert run + pass == run;
    for k := 0 to cfg.nodes
      invariant PassSoFar(cfg, v, run, pass, s, me, Turns(cfg, v, me, loc, k, stale), k)
    {
      var t := Turns(cfg, v, me, loc, k, stale);
      TurnExtendsPass(cfg, v, run, pass, s, me, t, k, stale);
      pass := pass + TurnLabels(cfg, v, me, t, k, stale);
    }
  }

  /** What the daemon's loop does to the system while the other nodes pause is a legal run of at
      most one step for each socket. */
  lemma PassIsARun(cfg: Config, v: Variant, run: seq<Label>, me: nat, stale: seq<Page>) returns (pass: seq<Label>)
    requires ValidConfig(cfg) && Legal(cfg, v, run) && me < cfg.nodes && ShapedBuffers(cfg, stale)
    ensures |pass| <= cfg.nodes && Legal(cfg, v, run + pass)
    ensures forall k | 0 <= k < |pass| :: Mover(pass[k]) == me
    ensures var s := After(cfg, v, run);
            After(cfg, v, run + pass) == Embed(cfg, s, me, Turns(cfg, v, me, LocalOf(cfg, s, me), cfg.nodes, stale))
  {
    var s := After(cfg, v, run);
    var loc := LocalOf(cfg, s, me);
    SameState(cfg, s, Embed(cfg, s, me, loc));
    pass := TurnsExtendRun(cfg, v, run, s, me, loc, stale);
  }

  // ---------------------------------------------------------------- numbers stay in range

  /** Every number the daemon may use as an index is one. */
  ghost predicate LocalInRange(cfg: Config, loc: Local)
    requires ShapedLocal(cfg, loc)
  {
    && (forall p: nat | p < cfg.pages :: loc.node.table[p].owner < cfg.nodes)
    && (forall i: nat, m: Message {:trigger m in loc.inbox[i]} | i < cfg.nodes && m in loc.inbox[i] ::
          NumbersInRange(cfg, m))
  }

  /** In every reachable state they all are. */
  lemma ReachableInRange(cfg: Config, v: Variant, run: seq<Label>, me: nat)
    requires ValidConfig(cfg) && Legal(cfg, v, run) && me < cfg.nodes
    ensures LocalInRange(cfg, LocalOf(cfg, After(cfg, v, run), me))
  {
    InRangeInRuns(cfg, v, run);
    var s := After(cfg, v, run);
    forall i: nat, m: Message | i < cfg.nodes && m in LocalOf(cfg, s, me).inbox[i]
      ensures NumbersInRange(cfg, m)
    {
      assert m in s.links[i][me];
    }
  }

  lemma TurnInRange(cfg: Config, v: Variant, me: nat, loc: Local, i: nat, stale: seq<Page>)
    requires ShapedLocal(cfg, loc) && ShapedBuffers(cfg, stale)
    requires LocalInRange(cfg, loc) && i < cfg.nodes && me < cfg.nodes
    ensures LocalInRange(cfg, Turn(cfg, v, me, loc, i, stale))
  {
    if loc.inbox[i] != [] {
      assert loc.inbox[i][0] in loc.inbox[i];
    }
    var r := Turn(cfg, v, me, loc, i, stale);
    forall k: nat, m: Message | k < cfg.nodes && m in r.inbox[k]
      ensures NumbersInRange(cfg, m)
    {
      if k == i && HeaderThenRequest(loc.inbox[i]) && m == Scrap(loc.inbox[i][1].page) {
        assert loc.inbox[i][1] in loc.inbox[i];
      } else {
        assert m in loc.inbox[k];
      }
    }
  }

  lemma PushSilence(row: Row)
    ensures PushRow(row, Silence(|row|)) == row
  {
    forall d | 0 <= d < |row|
      ensures PushRow(row, Silence(|row|))[d] == row[d]
    {
      assert row[d] + [] == row[d];
    }
  }

  lemma PushRequest(row: Row, to: nat, page: nat)
    requires to < |row|
    ensures PushRow(row, RequestMail(|row|, to, page)) == row[to := row[to] + [PageRequest(page)]]
  {
    var out := RequestMail(|row|, to, page);
    forall d | 0 <= d < |row|
      ensures PushRow(row, out)[d] == row[to := row[to] + [PageRequest(page)]][d]
    {
      assert row[d] + [] == row[d];
    }
  }

  /** A header, then a request, is what a daemon's own fault sends. */
  lemma PushDaemonFault(row: Row, node: Node, src: nat, page: nat)
    requires page < |node.table| && src < |row|
    ensures var header := if node.daemon.Serving? then row[src := row[src] + [PageHeader(page)]] else row;
            PushRow(row, FaultInDaemon(|row|, node, src, page).out)
            == PushRow(header, RequestMail(|row|, node.table[page].owner, page))
  {
    var to := node.table[page].owner;
    var header := if node.daemon.Serving? then row[src := row[src] + [PageHeader(page)]] else row;
    forall d | 0 <= d < |row|
      ensures row[d] + FaultInDaemon(|row|, node, src, page).out[d]
              == header[d] + RequestMail(|row|, to, page)[d]
    {
      Associative(row[d], HeaderMail(node, src, page, d), RequestMail(|row|, to, page)[d]);
      assert row[d] + [] == row[d];
    }
  }

  /** What a give mails, in its two parts. */
  lemma PushGrant(row: Row, me: nat, dest: nat, page: nat, body: Page)
    requires me != dest
    ensures PushRow(PushRow(row, PageMail(|row|, dest, page, body)), InfoMail(|row|, me, dest, page))
            == PushRow(row, GrantMail(|row|, me, dest, page, body))
  {
    forall d | 0 <= d < |row|
      ensures row[d] + PageMail(|row|, dest, page, body)[d] + InfoMail(|row|, me, dest, page)[d]
              == row[d] + GrantMail(|row|, me, dest, page, body)[d]
    {
      assert row[d] + [] == row[d];
    }
  }

  // ---------------------------------------------------------------- the program

  class DsmNode {
    const cfg: Config
    const v: Variant
    const me: nat               // DSM_NODE_ID
    const table: array<Entry>   // table_page
    const socket: array<Queue>  // everything written to each other node's descriptor
    var mapped: map<nat, Page>
    var app: App
    var daemon: Daemon

    ghost predicate Valid()
      reads this
    {
      ValidConfig(cfg) && me < cfg.nodes
      && table.Length == cfg.pages && socket.Length == cfg.nodes
      && table as object != socket
    }

    ghost function View(): Node
      reads this, table
    {
      Node(table[..], mapped, app, daemon)
    }

    /** Round-robin allocation of the pages. */
    constructor (cfg: Config, v: Variant, me: nat)
      requires ValidConfig(cfg) && me < cfg.nodes
      ensures Valid() && fresh(table) && fresh(socket)
      ensures this.cfg == cfg && this.v == v && this.me == me
      ensures View() == InitialNode(cfg, me)
      ensures socket[..] == Silence(cfg.nodes)
    {
      this.cfg, this.v, this.me := cfg, v, me;
      table := new Entry[cfg.pages](_ => Entry(Invalid, 0));
      socket := new Queue[cfg.nodes](_ => []);
      mapped := map[];
      app := Running;
      daemon := Serving;
      new;
      for index := 0 to cfg.pages
        invariant Valid()
        invariant app == Running && daemon == Serving && socket[..] == Silence(cfg.nodes)
        invariant forall p | 0 <= p < index :: table[p] == Entry(Write, p % cfg.nodes)
        invariant mapped == map p: nat | p < index && p % cfg.nodes == me :: Zeros(cfg.pageSize)
      {
        if index % cfg.nodes == me {
          AllocPage(index);
        }
        ChangeTable(index, Write, index % cfg.nodes);
      }
      assert table[..] == InitialNode(cfg, me).table;
      assert mapped == InitialNode(cfg, me).mapped;
    }

    method ChangeTable(numPage: int, state: PageState, owner: int)
      requires Valid()
      modifies table
      ensures table[..] == ChangeInfo(old(table[..]), numPage, state, owner)
    {
      if 0 <= numPage < table.Length {
        if state != NoChange {
          table[numPage] := table[numPage].(status := state);
        }
        if owner >= 0 {
          table[numPage] := table[numPage].(owner := owner);
        }
      }
    }

    method AllocPage(page: nat)
      modifies this`mapped
      ensures mapped == old(mapped)[page := Zeros(cfg.pageSize)]
    {
      mapped := mapped[page := Zeros(cfg.pageSize)];
    }

    method FreePage(page: nat)
      modifies this`mapped
      ensures mapped == old(mapped) - {page}
    {
      mapped := mapped - {page};
    }

    /** One turn of the handler's loop, in the application thread. */
    method SpinOnce()
      requires Valid()
      modifies this`app
      ensures View() == if TestHolds(v, me, old(View())) then old(View()).(app := Running) else old(View())
    {
      if app.Waiting? && app.page < table.Length && WaitOver(v, me, table[app.page].owner) {
        app := Running;
      }
    }

    /** The same at the end of a step of the daemon, where the thread is taken to see at once what
        the daemon has changed. */
    method TestWait()
      requires Valid()
      modifies this`app
      ensures View() == Wake(v, me, old(View()))
    {
      if v.wakesAtOnce {
        SpinOnce();
      }
    }

    method RecvPage(page: nat, body: Page)
      requires Valid()
      modifies this`mapped, this`app, table
      ensures View() == InstallPage(v, me, old(View()), page, body)
    {
      AllocPage(page);
      mapped := mapped[page := body];
      ChangeTable(page, Write, me);
      TestWait();
    }

    method RecvInfo(page: nat, newOwner: nat)
      requires Valid()
      modifies this`app, table
      ensures View() == LearnOwner(v, me, old(View()), page, newOwner)
    {
      ChangeTable(page, Write, newOwner);
      TestWait();
    }

    method Send(dest: nat, m: Message)
      requires Valid() && dest < cfg.nodes
      modifies socket
      ensures socket[..] == old(socket[..])[dest := old(socket[dest]) + [m]]
    {
      socket[dest] := socket[dest] + [m];
    }

    /** The page goes out, and is still mapped. */
    method ShipPage(dest: nat, page: nat, body: Page)
      requires Valid() && dest < cfg.nodes
      modifies socket
      ensures socket[..] == PushRow(old(socket[..]), PageMail(cfg.nodes, dest, page, body))
    {
      Send(dest, SendPage(page, body));
      ghost var mail := PageMail(cfg.nodes, dest, page, body);
      forall d | 0 <= d < cfg.nodes
        ensures socket[d] == old(socket[d]) + mail[d]
      {
        assert old(socket[d]) + [] == old(socket[d]);
      }
      assert socket[..] == PushRow(old(socket[..]), mail);
    }

    /** Unmap the page, and tell everybody else who has it. */
    method FinishGive(dest: nat, page: nat)
      requires Valid() && dest < cfg.nodes
      modifies this`mapped, this`app, table, socket
      ensures View() == GiveUp(v, me, old(View()), dest, page)
      ensures socket[..] == PushRow(old(socket[..]), InfoMail(cfg.nodes, me, dest, page))
    {
      FreePage(page);
      if v.recordsGrant {
        ChangeTable(page, NoChange, dest);
      }
      label Informing:
      ghost var mail := InfoMail(cfg.nodes, me, dest, page);
      for index := 0 to cfg.nodes
        invariant View() == old@Informing(View())
        invariant forall d | 0 <= d < index :: socket[d] == old(socket[d]) + mail[d]
        invariant forall d | index <= d < cfg.nodes :: socket[d] == old(socket[d])
      {
        assert socket[index] + [] == socket[index];
        if index != me && index != dest {
          Send(index, SendInfo(page, dest));
        }
      }
      assert socket[..] == PushRow(old(socket[..]), mail);
      TestWait();
    }

    /** Copy the page, ship it, unmap it, and tell everybody else who has it. */
    method SendPageTo(dest: nat, page: nat)
      requires Valid() && dest < cfg.nodes && dest != me && page in mapped
      modifies this`mapped, this`app, table, socket
      ensures View() == GivePage(cfg.nodes, v, me, old(View()), dest, page).node
      ensures socket[..] == PushRow(old(socket[..]),
                                    GivePage(cfg.nodes, v, me, old(View()), dest, page).out)
    {
      var body := mapped[page];
      ShipPage(dest, page, body);
      FinishGive(dest, page);
      PushGrant(old(socket[..]), me, dest, page, body);
    }

    /** The fault handler: ask the node the table names, then wait. */
    method Handler(faultyPage: nat)
      requires Valid() && faultyPage < cfg.pages
      requires table[faultyPage].owner < cfg.nodes
      modifies this`app, socket
      ensures View() == AskForPage(cfg.nodes, v, me, old(View()), faultyPage).node
      ensures socket[..] == PushRow(old(socket[..]),
                                    AskForPage(cfg.nodes, v, me, old(View()), faultyPage).out)
    {
      var owner := table[faultyPage].owner;
      Send(owner, PageRequest(faultyPage));
      PushRequest(old(socket[..]), owner, faultyPage);
      app := Waiting(faultyPage);
      TestWait();
    }

    /** SIGSEGV in the daemon, at the copy out of a page the node does not map: its own handler
        asks the recorded owner, and waits for a table only the daemon could change. When the test
        lets it return, the copy faults again. */
    method FaultInCopy(src: nat, page: nat)
      requires Valid() && page < cfg.pages && src < cfg.nodes && table[page].owner < cfg.nodes
      modifies this`daemon, socket
      ensures View() == old(View()).(daemon := Stuck(src, page))
      ensures socket[..] == PushRow(old(socket[..]), RequestMail(cfg.nodes, table[page].owner, page))
    {
      var owner := table[page].owner;
      Send(owner, PageRequest(page));
      PushRequest(old(socket[..]), owner, page);
      daemon := Stuck(src, page);
    }

    /** Serving a page the node does not map: the header is out before the copy faults. */
    method FailToSend(dest: nat, page: nat)
      requires Valid() && dest < cfg.nodes && page < cfg.pages && daemon.Serving?
      requires table[page].owner < cfg.nodes
      modifies this`daemon, socket
      ensures View() == FaultInDaemon(cfg.nodes, old(View()), dest, page).node
      ensures socket[..] == PushRow(old(socket[..]), FaultInDaemon(cfg.nodes, old(View()), dest, page).out)
    {
      Send(dest, PageHeader(page));
      FaultInCopy(dest, page);
      PushDaemonFault(old(socket[..]), old(View()), dest, page);
    }

    /** The handler has returned to the copy, which faults again. */
    method FaultAgain()
      requires Valid() && daemon.Stuck? && daemon.src < cfg.nodes && daemon.page < cfg.pages
      requires table[daemon.page].owner < cfg.nodes && WaitOver(v, me, table[daemon.page].owner)
      modifies this`daemon, socket
      ensures var e := FaultInDaemon(cfg.nodes, old(View()), old(daemon.src), old(daemon.page));
              View() == e.node && socket[..] == PushRow(old(socket[..]), e.out)
    {
      PushDaemonFault(socket[..], View(), daemon.src, daemon.page);
      FaultInCopy(daemon.src, daemon.page);
    }

    /** The daemon's switch on one message; `false` when it is now in its own fault handler. */
    method Dispatch(src: nat, m: Message) returns (finished: bool)
      requires Valid() && src < cfg.nodes && src != me && daemon.Serving? && !m.PageHeader? && !m.Scrap?
      requires m.PageRequest? ==> m.page < cfg.pages && table[m.page].owner < cfg.nodes
      modifies this`mapped, this`app, this`daemon, table, socket
      ensures finished <==> Serves(old(View()), m)
      ensures finished ==>
                var e := Handle(cfg.nodes, v, me, old(View()), src, m);
                View() == e.node && socket[..] == PushRow(old(socket[..]), e.out)
      ensures !finished ==>
                var e := FaultInDaemon(cfg.nodes, old(View()), src, m.page);
                View() == e.node && socket[..] == PushRow(old(socket[..]), e.out)
    {
      match m
      case SendPage(page, body) =>
        RecvPage(page, body);
        PushSilence(old(socket[..]));
        finished := true;
      case SendInfo(page, owner) =>
        RecvInfo(page, owner);
        PushSilence(old(socket[..]));
        finished := true;
      case PageRequest(page) =>
        finished := page in mapped;
        if finished {
          SendPageTo(src, page);
        } else {
          FailToSend(src, page);
        }
    }

    ghost function LocalView(inbox: array<Queue>, starved: bool): Local
      reads this, table, socket, inbox
    {
      Local(View(), inbox[..], socket[..], starved)
    }

    /** Behind a lone header the daemon takes the next request for the content: its first two bytes
        come in front of what the buffer held, and the rest of it stays on the socket. */
    method ReadOn(q: Queue, stale: Page) returns (left: Queue)
      requires Valid() && daemon.Serving? && HeaderThenRequest(q)
      modifies this`mapped, this`app, table
      ensures View() == InstallPage(v, me, old(View()), q[0].page, Mangled(q[1].page, stale))
      ensures left == LeftBehind(q)
    {
      RecvPage(q[0].page, Mangled(q[1].page, stale));
      left := [Scrap(q[1].page)] + q[2..];
    }

    /** One pass of the daemon over its sockets after a poll. */
    method DaemonPass(inbox: array<Queue>, stale: seq<Page>) returns (starved: bool)
      requires Valid() && inbox.Length == cfg.nodes && inbox != socket && ShapedBuffers(cfg, stale)
      requires daemon.Serving? && LocalInRange(cfg, LocalView(inbox, false))
      modifies this`mapped, this`app, this`daemon, table, socket, inbox
      ensures LocalView(inbox, starved) == Turns(cfg, v, me, old(LocalView(inbox, false)), cfg.nodes, stale)
    {
      starved := false;
      ghost var start := LocalView(inbox, false);
      var ready := seq(cfg.nodes, i requires 0 <= i < inbox.Length reads inbox =>
                                    i != me && inbox[i] != []);
      for i := 0 to cfg.nodes
        invariant LocalView(inbox, starved) == Turns(cfg, v, me, start, i, stale)
        invariant LocalInRange(cfg, LocalView(inbox, starved))
        invariant forall k | i <= k < cfg.nodes :: inbox[k] == start.inbox[k]
      {
        TurnInRange(cfg, v, me, LocalView(inbox, starved), i, stale);
        if ready[i] && !starved && daemon.Serving? {
          var m := inbox[i][0];
          assert m in LocalView(inbox, starved).inbox[i];
          if m.PageHeader? || m.Scrap? {
            starved := !HeaderThenRequest(inbox[i]);
            if !starved {
              inbox[i] := ReadOn(inbox[i], stale[i]);
            }
          } else {
            var finished := Dispatch(i, m);
            if finished {
              inbox[i] := inbox[i][1..];
            }
          }
        }
      }
    }
  }
}
