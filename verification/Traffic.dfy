/**
 What a step does to each link, and additive measures ("costs") of the messages in flight.
 Counting copies of a page, outstanding requests and remaining deliveries are all instances.
 */
module Traffic {
  import opened Basics
  import opened Protocol

  /** What `l` appends to the link from `x` to `y`. */
  function Emitted(cfg: Config, v: Variant, s: State, l: Label, x: nat, y: nat): Queue
    requires Shaped(cfg, s) && Enabled(cfg, v, s, l)
  {
    match l
    case Fault(i, p, to) => if x == i && y == to then [PageRequest(p)] else []
    case DaemonFault(a, b, p, to) =>
      if x != b then []
      else HeaderMail(s.nodes[b], a, p, y) + if y == to then [PageRequest(p)] else []
    case Deliver(a, b, PageRequest(p)) =>
      if x != b then []
      else if y == a then [SendPage(p, s.nodes[b].mapped[p])]
      else if y == b then [] else [SendInfo(p, a)]
    case _ => []
  }

  /** What is left on the link from `x` to `y` once `l` has taken its message. */
  function Rest(cfg: Config, v: Variant, s: State, l: Label, x: nat, y: nat): Queue
    requires Shaped(cfg, s) && Enabled(cfg, v, s, l)
    requires x < cfg.nodes && y < cfg.nodes
  {
    if l.Deliver? && l.src == x && l.dst == y then s.links[x][y][1..]
    else if l.Misread? && l.src == x && l.dst == y then [Scrap(l.req)] + s.links[x][y][2..]
    else s.links[x][y]
  }

  lemma LinkAfter(cfg: Config, v: Variant, s: State, l: Label, x: nat, y: nat)
    requires Shaped(cfg, s) && Enabled(cfg, v, s, l)
    requires x < cfg.nodes && y < cfg.nodes
    ensures Next(cfg, v, s, l).links[x][y] == Rest(cfg, v, s, l, x, y) + Emitted(cfg, v, s, l, x, y)
  {
  }

  /** Nothing appears on a link but what the step puts there, and the scrap of a misreading. */
  lemma NoStrayMessages(cfg: Config, v: Variant, s: State, l: Label, x: nat, y: nat, m: Message)
    requires Shaped(cfg, s) && Enabled(cfg, v, s, l)
    requires x < cfg.nodes && y < cfg.nodes
    requires m in Next(cfg, v, s, l).links[x][y]
    ensures m in s.links[x][y] || m in Emitted(cfg, v, s, l, x, y)
            || (l.Misread? && l.src == x && l.dst == y && m == Scrap(l.req))
  {
    LinkAfter(cfg, v, s, l, x, y);
  }

  lemma SameState(cfg: Config, s: State, t: State)
    requires Shaped(cfg, s) && Shaped(cfg, t)
    requires forall i: nat | i < cfg.nodes :: s.nodes[i] == t.nodes[i]
    requires forall a: nat, b: nat | a < cfg.nodes && b < cfg.nodes :: s.links[a][b] == t.links[a][b]
    ensures s == t
  {
    assert s.nodes == t.nodes;
    forall a: nat | a < cfg.nodes
      ensures s.links[a] == t.links[a]
    {
      assert forall b | 0 <= b < cfg.nodes :: s.links[a][b] == t.links[a][b];
    }
    assert s.links == t.links;
  }

  /** Page and node numbers, in tables and messages, are those of the configuration. */
  ghost predicate InRange(cfg: Config, s: State)
    requires Shaped(cfg, s)
  {
    && (forall i: nat, p: nat | i < cfg.nodes && p < cfg.pages :: s.nodes[i].table[p].owner < cfg.nodes)
    && (forall x: nat, y: nat, m: Message {:trigger m in s.links[x][y]}
          | x < cfg.nodes && y < cfg.nodes && m in s.links[x][y] :: NumbersInRange(cfg, m))
  }

  predicate NumbersInRange(cfg: Config, m: Message) {
    m.page < cfg.pages && (m.SendInfo? ==> m.owner < cfg.nodes)
  }

  lemma InRangeStep(cfg: Config, v: Variant, s: State, l: Label)
    requires Shaped(cfg, s) && Enabled(cfg, v, s, l) && InRange(cfg, s)
    ensures InRange(cfg, Next(cfg, v, s, l))
  {
    var s' := Next(cfg, v, s, l);
    if l.Deliver? {
      assert l.msg in s.links[l.src][l.dst];
    }
    forall x: nat, y: nat, m: Message | x < cfg.nodes && y < cfg.nodes && m in s'.links[x][y]
      ensures NumbersInRange(cfg, m)
    {
      NoStrayMessages(cfg, v, s, l, x, y, m);
      if l.Misread? && m == Scrap(l.req) {
        assert PageRequest(l.req) in s.links[l.src][l.dst];
      }
    }
  }

  lemma {:induction false} InRangeInRuns(cfg: Config, v: Variant, run: seq<Label>)
    requires ValidConfig(cfg) && Legal(cfg, v, run)
    ensures InRange(cfg, After(cfg, v, run))
  {
    if run == [] {
    } else {
      InRangeInRuns(cfg, v, run[..|run| - 1]);
      InRangeStep(cfg, v, After(cfg, v, run[..|run| - 1]), run[|run| - 1]);
    }
  }

  // ---------------------------------------------------------------- costs

  datatype Weight =
    | CopyOf(page: nat)      // SEND_PAGE messages carrying one page
    | NewsOf(page: nat)      // SEND_PAGE and SEND_INFO messages about one page
    | RequestFor(page: nat)  // PAGE_REQUEST messages for one page
    | AnyPage                // SEND_PAGE messages
    | AnyRequest             // PAGE_REQUEST messages
    | Work(nodes: nat)       // a request outweighs everything its delivery sends

  function Cost(w: Weight, m: Message): nat {
    match w
    case CopyOf(p) => if m.SendPage? && m.page == p then 1 else 0
    case NewsOf(p) => if (m.SendPage? || m.SendInfo?) && m.page == p then 1 else 0
    case AnyPage => if m.SendPage? then 1 else 0
    case AnyRequest => if m.PageRequest? then 1 else 0
    case RequestFor(p) => if m == PageRequest(p) then 1 else 0
    case Work(n) => if m.PageRequest? then n else 1
  }

  function QueueCost(w: Weight, q: Queue): nat {
    if q == [] then 0 else Cost(w, q[0]) + QueueCost(w, q[1..])
  }

  lemma {:induction false} CostAppend(w: Weight, q: Queue, r: Queue)
    ensures QueueCost(w, q + r) == QueueCost(w, q) + QueueCost(w, r)
  {
    if q == [] {
      assert q + r == r;
    } else {
      CostAppend(w, q[1..], r);
      assert (q + r)[1..] == q[1..] + r;
    }
  }

  lemma {:induction false} CostOfMember(w: Weight, q: Queue, m: Message)
    requires m in q
    ensures QueueCost(w, q) >= Cost(w, m)
  {
    if q[0] == m {
    } else {
      CostOfMember(w, q[1..], m);
    }
  }

  lemma {:induction false} CostWitness(w: Weight, q: Queue) returns (m: Message)
    requires QueueCost(w, q) > 0
    ensures m in q && Cost(w, m) > 0
  {
    if Cost(w, q[0]) > 0 {
      m := q[0];
    } else {
      m := CostWitness(w, q[1..]);
    }
  }

  lemma CostOfSingleton(w: Weight, m: Message)
    ensures QueueCost(w, [m]) == Cost(w, m)
  {
    assert [m][1..] == [];
  }

  /** What a daemon's own fault sends costs no more than the request in it. */
  lemma CostOfDaemonFault(w: Weight, h: Queue, p: nat, r: Queue)
    requires h == [] || h == [PageHeader(p)]
    ensures QueueCost(w, h + r) == QueueCost(w, r) + if h == [] then 0 else Cost(w, PageHeader(p))
  {
    CostAppend(w, h, r);
    CostOfSingleton(w, PageHeader(p));
  }

  /** What a step takes off the link from `x` to `y`. A scrap costs what a header does. */
  function Taken(w: Weight, l: Label, x: nat, y: nat): nat {
    if l.Deliver? && l.src == x && l.dst == y then Cost(w, l.msg)
    else if l.Misread? && l.src == x && l.dst == y then Cost(w, PageRequest(l.req))
    else 0
  }

  lemma MisreadCost(w: Weight, p: nat, req: nat, q: Queue)
    requires |q| >= 2 && q[0] == PageHeader(p) && q[1] == PageRequest(req)
    ensures QueueCost(w, q) == QueueCost(w, [Scrap(req)] + q[2..]) + Cost(w, PageRequest(req))
  {
    assert q[1..][1..] == q[2..];
    assert ([Scrap(req)] + q[2..])[1..] == q[2..];
  }

  /** The cost of one link after a step: less what was taken, plus what was sent. */
  lemma LinkCost(cfg: Config, v: Variant, s: State, l: Label, w: Weight, x: nat, y: nat)
    requires Shaped(cfg, s) && Enabled(cfg, v, s, l)
    requires x < cfg.nodes && y < cfg.nodes
    ensures QueueCost(w, Next(cfg, v, s, l).links[x][y])
            == QueueCost(w, Rest(cfg, v, s, l, x, y)) + QueueCost(w, Emitted(cfg, v, s, l, x, y))
    ensures QueueCost(w, s.links[x][y])
            == QueueCost(w, Rest(cfg, v, s, l, x, y))
               + Taken(w, l, x, y)
    ensures forall m: Message :: QueueCost(w, [m]) == Cost(w, m)
  {
    LinkAfter(cfg, v, s, l, x, y);
    CostAppend(w, Rest(cfg, v, s, l, x, y), Emitted(cfg, v, s, l, x, y));
    if l.Misread? && l.src == x && l.dst == y {
      MisreadCost(w, l.page, l.req, s.links[x][y]);
    }
    forall m: Message
      ensures QueueCost(w, [m]) == Cost(w, m)
    {
      CostOfSingleton(w, m);
    }
  }

  // ---------------------------------------------------------------- sums over all links

  function RowCost(w: Weight, row: Row): nat {
    if row == [] then 0 else QueueCost(w, row[0]) + RowCost(w, row[1..])
  }

  function LinksCost(w: Weight, links: Links): nat {
    if links == [] then 0 else RowCost(w, links[0]) + LinksCost(w, links[1..])
  }

  lemma {:induction false} RowCostUpdate(w: Weight, row: Row, b: nat, q: Queue)
    requires b < |row|
    ensures RowCost(w, row[b := q]) + QueueCost(w, row[b]) == RowCost(w, row) + QueueCost(w, q)
  {
    if b == 0 {
      assert row[b := q][1..] == row[1..];
    } else {
      RowCostUpdate(w, row[1..], b - 1, q);
      assert row[b := q][1..] == row[1..][b - 1 := q];
    }
  }

  lemma {:induction false} LinksCostUpdate(w: Weight, links: Links, a: nat, row: Row)
    requires a < |links|
    ensures LinksCost(w, links[a := row]) + RowCost(w, links[a]) == LinksCost(w, links) + RowCost(w, row)
  {
    if a == 0 {
      assert links[a := row][1..] == links[1..];
    } else {
      LinksCostUpdate(w, links[1..], a - 1, row);
      assert links[a := row][1..] == links[1..][a - 1 := row];
    }
  }

  lemma {:induction false} RowCostPush(w: Weight, row: Row, out: Row)
    requires |row| == |out|
    ensures RowCost(w, PushRow(row, out)) == RowCost(w, row) + RowCost(w, out)
  {
    if row == [] {
    } else {
      RowCostPush(w, row[1..], out[1..]);
      assert PushRow(row, out)[1..] == PushRow(row[1..], out[1..]);
      CostAppend(w, row[0], out[0]);
    }
  }

  /** Pushing adds the cost of what is pushed; popping takes off the cost of the head. */
  lemma LinksCostPush(w: Weight, links: Links, me: nat, out: Row)
    requires me < |links| && |links[me]| == |out|
    ensures LinksCost(w, Push(links, me, out)) == LinksCost(w, links) + RowCost(w, out)
  {
    LinksCostUpdate(w, links, me, PushRow(links[me], out));
    RowCostPush(w, links[me], out);
  }

  lemma LinksCostPop(w: Weight, links: Links, a: nat, b: nat)
    requires a < |links| && b < |links[a]| && links[a][b] != []
    ensures LinksCost(w, links) == LinksCost(w, Pop(links, a, b)) + Cost(w, links[a][b][0])
  {
    RowCostUpdate(w, links[a], b, links[a][b][1..]);
    LinksCostUpdate(w, links, a, links[a][b := links[a][b][1..]]);
  }

  /** A row whose queues all cost nothing but one. */
  lemma {:induction false} RowCostOne(w: Weight, row: Row, b: int, c: nat)
    requires forall y | 0 <= y < |row| :: QueueCost(w, row[y]) == if y == b then c else 0
    ensures RowCost(w, row) == if 0 <= b < |row| then c else 0
  {
    if row == [] {
    } else {
      RowCostOne(w, row[1..], b - 1, c);
    }
  }

  lemma {:induction false} LinksCostOne(w: Weight, links: Links, a: int, c: nat)
    requires forall x | 0 <= x < |links| :: RowCost(w, links[x]) == if x == a then c else 0
    ensures LinksCost(w, links) == if 0 <= a < |links| then c else 0
  {
    if links == [] {
    } else {
      LinksCostOne(w, links[1..], a - 1, c);
    }
  }

  /** No queue costs more than its row. */
  lemma {:induction false} RowCostBound(w: Weight, row: Row, b: nat)
    requires b < |row|
    ensures QueueCost(w, row[b]) <= RowCost(w, row)
  {
    if b == 0 {
    } else {
      RowCostBound(w, row[1..], b - 1);
    }
  }
}
