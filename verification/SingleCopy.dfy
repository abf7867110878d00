/**
 Every page exists exactly once: mapped at one node or inside one SEND_PAGE on one link.
 This needs neither correct owner hints nor one request at a time, nor daemons that never
 fault, so it is proved for every `Variant`, any number of nodes and every run in step. But it
 needs two things of a run. No reader goes on behind the lone header of a daemon that faulted,
 departure (h) of README.md: Misreading.dfy says when none can. And giving is one step: the
 code takes several and unmaps the page last, departure (g), of which FineGive.dfy has the rest.
 */
module SingleCopy {
  import opened Basics
  import opened Protocol
  import opened Traffic

  datatype Place = At(node: nat) | OnLink(src: nat, dst: nat)

  /** Where a page goes when a step is taken. */
  function NextPlace(l: Label, p: nat, pl: Place): Place {
    match l
    case Deliver(a, b, SendPage(q, _)) => if q == p then At(b) else pl
    case Deliver(a, b, PageRequest(q)) => if q == p then OnLink(b, a) else pl
    case _ => pl
  }

  /** Where a page is, told by the labels of the run alone. */
  function PlaceAfter(cfg: Config, run: seq<Label>, p: nat): Place
    requires ValidConfig(cfg)
  {
    if run == [] then At(p % cfg.nodes)
    else NextPlace(run[|run| - 1], p, PlaceAfter(cfg, run[..|run| - 1], p))
  }

  predicate ValidPlace(cfg: Config, pl: Place) {
    match pl
    case At(i) => i < cfg.nodes
    case OnLink(a, b) => a < cfg.nodes && b < cfg.nodes && a != b
  }

  /** The page is at `pl` and nowhere else. */
  ghost predicate OnlyAt(cfg: Config, s: State, p: nat, pl: Place)
    requires Shaped(cfg, s)
  {
    && ValidPlace(cfg, pl)
    && (forall i: nat | i < cfg.nodes :: p in s.nodes[i].mapped <==> pl == At(i))
    && (forall x: nat, y: nat | x < cfg.nodes && y < cfg.nodes ::
          QueueCost(CopyOf(p), s.links[x][y]) == if pl == OnLink(x, y) then 1 else 0)
  }

  lemma OnlyAtHome(cfg: Config, p: nat)
    requires ValidConfig(cfg) && p < cfg.pages
    ensures OnlyAt(cfg, Init(cfg), p, At(p % cfg.nodes))
  {
  }

  /** A delivered SEND_PAGE is the one copy of its page. */
  lemma DeliveredIsTheCopy(cfg: Config, s: State, p: nat, pl: Place, a: nat, b: nat)
    requires Shaped(cfg, s) && OnlyAt(cfg, s, p, pl)
    requires a < cfg.nodes && b < cfg.nodes && s.links[a][b] != []
    requires Cost(CopyOf(p), s.links[a][b][0]) > 0
    ensures pl == OnLink(a, b)
    ensures QueueCost(CopyOf(p), s.links[a][b][1..]) == 0
  {
  }

  lemma OnlyAtLinks(cfg: Config, v: Variant, s: State, l: Label, p: nat, pl: Place, x: nat, y: nat)
    requires Shaped(cfg, s) && Enabled(cfg, v, s, l) && !l.Misread? && OnlyAt(cfg, s, p, pl)
    requires x < cfg.nodes && y < cfg.nodes
    ensures QueueCost(CopyOf(p), Next(cfg, v, s, l).links[x][y])
            == if NextPlace(l, p, pl) == OnLink(x, y) then 1 else 0
  {
    if l.Deliver? && l.msg.SendPage? && l.msg.page == p {
      DeliveredIsTheCopy(cfg, s, p, pl, l.src, l.dst);
    }
    LinkCost(cfg, v, s, l, CopyOf(p), x, y);
  }

  lemma OnlyAtNodes(cfg: Config, v: Variant, s: State, l: Label, p: nat, pl: Place, i: nat)
    requires Shaped(cfg, s) && Enabled(cfg, v, s, l) && !l.Misread? && OnlyAt(cfg, s, p, pl) && i < cfg.nodes
    ensures p in Next(cfg, v, s, l).nodes[i].mapped <==> NextPlace(l, p, pl) == At(i)
  {
    if l.Deliver? && l.msg.SendPage? && l.msg.page == p {
      DeliveredIsTheCopy(cfg, s, p, pl, l.src, l.dst);
    }
  }

  lemma OnlyAtStep(cfg: Config, v: Variant, s: State, l: Label, p: nat, pl: Place)
    requires Shaped(cfg, s) && Enabled(cfg, v, s, l) && !l.Misread? && OnlyAt(cfg, s, p, pl)
    ensures OnlyAt(cfg, Next(cfg, v, s, l), p, NextPlace(l, p, pl))
  {
    forall i: nat | i < cfg.nodes { OnlyAtNodes(cfg, v, s, l, p, pl, i); }
    forall x: nat, y: nat | x < cfg.nodes && y < cfg.nodes { OnlyAtLinks(cfg, v, s, l, p, pl, x, y); }
  }

  /** Single copy, with the place named. */
  lemma {:induction false} SingleCopyInRuns(cfg: Config, v: Variant, run: seq<Label>, p: nat)
    requires ValidConfig(cfg) && Legal(cfg, v, run) && InStep(run) && p < cfg.pages
    ensures OnlyAt(cfg, After(cfg, v, run), p, PlaceAfter(cfg, run, p))
  {
    if run == [] {
      OnlyAtHome(cfg, p);
    } else {
      var before := run[..|run| - 1];
      SingleCopyInRuns(cfg, v, before, p);
      OnlyAtStep(cfg, v, After(cfg, v, before), run[|run| - 1], p, PlaceAfter(cfg, before, p));
    }
  }

  // ---------------------------------------------------------------- as a count

  function Mappings(nodes: seq<Node>, p: nat): nat {
    if nodes == [] then 0
    else (if p in nodes[0].mapped then 1 else 0) + Mappings(nodes[1..], p)
  }

  lemma {:induction false} MappingsOne(nodes: seq<Node>, p: nat, i: int)
    requires forall k | 0 <= k < |nodes| :: p in nodes[k].mapped <==> k == i
    ensures Mappings(nodes, p) == if 0 <= i < |nodes| then 1 else 0
  {
    if nodes == [] {
    } else {
      MappingsOne(nodes[1..], p, i - 1);
    }
  }

  /** (nodes mapping the page) + (SEND_PAGE messages for it in flight) = 1, in every run in step. */
  lemma ExactlyOneCopy(cfg: Config, v: Variant, run: seq<Label>, p: nat)
    requires ValidConfig(cfg) && Legal(cfg, v, run) && InStep(run) && p < cfg.pages
    ensures var s := After(cfg, v, run);
            Mappings(s.nodes, p) + LinksCost(CopyOf(p), s.links) == 1
  {
    SingleCopyInRuns(cfg, v, run, p);
    var s, pl := After(cfg, v, run), PlaceAfter(cfg, run, p);
    MappingsOne(s.nodes, p, if pl.At? then pl.node else -1);
    var from := if pl.OnLink? then pl.src else -1;
    forall x | 0 <= x < cfg.nodes
      ensures RowCost(CopyOf(p), s.links[x]) == if x == from then 1 else 0
    {
      RowCostOne(CopyOf(p), s.links[x], if x == from then pl.dst else -1, 1);
    }
    LinksCostOne(CopyOf(p), s.links, from, 1);
  }

  /** In no run in step can two nodes touch the same page in the same state. */
  lemma NoTwoWriters(cfg: Config, v: Variant, run: seq<Label>, p: nat, i: nat, off: nat, j: nat, off': nat)
    requires ValidConfig(cfg) && Legal(cfg, v, run) && InStep(run) && p < cfg.pages
    requires CanAccess(cfg, After(cfg, v, run), i, p, off)
    requires CanAccess(cfg, After(cfg, v, run), j, p, off')
    ensures i == j && PlaceAfter(cfg, run, p) == At(i)
  {
    SingleCopyInRuns(cfg, v, run, p);
  }
}
