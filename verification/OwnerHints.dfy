/**
 What the owner tables are worth. A table entry always names some node the page was granted
 to earlier, or its first home. It need not be the holder: with three or more nodes news from
 different senders may be reordered. When every transfer of a page starts with no earlier
 news of it undelivered, and givers record their grants, the tables do converge: as soon as
 nothing about the page is in flight, all of them name the node that maps it.
 */
module OwnerHints {
  import opened Basics
  import opened Protocol
  import opened Traffic
  import opened SingleCopy

  // ---------------------------------------------------------------- hints are past grants

  predicate Grants(l: Label, p: nat) {
    l.Deliver? && l.msg == PageRequest(p)
  }

  predicate Misreads(l: Label, p: nat) {
    l.Misread? && l.page == p
  }

  /** The node that a step makes an owner of p, if any: one it is granted to, or one that took a
      request for its content. */
  function Appointed(l: Label, p: nat): set<nat> {
    if Grants(l, p) then {l.src} else if Misreads(l, p) then {l.dst} else {}
  }

  /** The first home of a page, every node it was granted to in the run, and every node that
      misread it. */
  function GrantedTo(cfg: Config, run: seq<Label>, p: nat): set<nat>
    requires ValidConfig(cfg)
  {
    if run == [] then {p % cfg.nodes}
    else GrantedTo(cfg, run[..|run| - 1], p) + Appointed(run[|run| - 1], p)
  }

  ghost predicate HintsWithin(cfg: Config, s: State, p: nat, known: set<nat>)
    requires Shaped(cfg, s)
  {
    && (p < cfg.pages ==> forall i: nat | i < cfg.nodes :: s.nodes[i].table[p].owner in known)
    && (forall x: nat, y: nat, m: Message {:trigger m in s.links[x][y]}
          | x < cfg.nodes && y < cfg.nodes && m in s.links[x][y] ::
          m.page == p ==> (m.SendInfo? ==> m.owner in known) && (m.SendPage? ==> y in known))
  }

  lemma HintsStep(cfg: Config, v: Variant, s: State, l: Label, p: nat, known: set<nat>)
    requires Shaped(cfg, s) && Enabled(cfg, v, s, l) && HintsWithin(cfg, s, p, known)
    ensures HintsWithin(cfg, Next(cfg, v, s, l), p, known + Appointed(l, p))
  {
    var s' := Next(cfg, v, s, l);
    var known' := known + Appointed(l, p);
    if l.Deliver? {
      assert l.msg in s.links[l.src][l.dst];
    }
    forall x: nat, y: nat, m: Message | x < cfg.nodes && y < cfg.nodes && m in s'.links[x][y]
      ensures m.page == p ==> (m.SendInfo? ==> m.owner in known') && (m.SendPage? ==> y in known')
    {
      NoStrayMessages(cfg, v, s, l, x, y, m);
    }
  }

  /** Every table entry and every SEND_INFO for p names the first home of p or a node p was
      granted to earlier in the run, whichever variant and however many nodes; or, where a daemon
      has read on behind a lone header for p, that daemon's node. */
  lemma {:induction false} HintsArePastGrants(cfg: Config, v: Variant, run: seq<Label>, p: nat)
    requires ValidConfig(cfg) && Legal(cfg, v, run) && p < cfg.pages
    ensures HintsWithin(cfg, After(cfg, v, run), p, GrantedTo(cfg, run, p))
  {
    if run == [] {
    } else {
      var before := run[..|run| - 1];
      HintsArePastGrants(cfg, v, before, p);
      HintsStep(cfg, v, After(cfg, v, before), run[|run| - 1], p, GrantedTo(cfg, before, p));
    }
  }

  // ---------------------------------------------------------------- convergence

  /** No SEND_PAGE or SEND_INFO about p is undelivered. */
  ghost predicate Settled(cfg: Config, s: State, p: nat)
    requires Shaped(cfg, s)
  {
    forall x: nat, y: nat | x < cfg.nodes && y < cfg.nodes :: QueueCost(NewsOf(p), s.links[x][y]) == 0
  }

  /** Every transfer of p in the run starts in a settled state. */
  ghost predicate OneTransferAtATime(cfg: Config, v: Variant, run: seq<Label>, p: nat)
    requires ValidConfig(cfg) && Legal(cfg, v, run)
  {
    run != [] ==>
      && OneTransferAtATime(cfg, v, run[..|run| - 1], p)
      && (Grants(run[|run| - 1], p) ==> Settled(cfg, After(cfg, v, run[..|run| - 1]), p))
  }

  /** The node p was granted to last. */
  function LastGrantee(cfg: Config, run: seq<Label>, p: nat): nat
    requires ValidConfig(cfg)
  {
    if run == [] then p % cfg.nodes
    else if Grants(run[|run| - 1], p) then run[|run| - 1].src
    else LastGrantee(cfg, run[..|run| - 1], p)
  }

  /** The message, if it is news of p, is that g has it. */
  predicate NewsNames(m: Message, y: nat, p: nat, g: nat) {
    m.page == p ==> (m.SendInfo? ==> m.owner == g) && (m.SendPage? ==> y == g)
  }

  /** Node k names g, or has news of p under way. */
  ghost predicate KnowsOrWillHear(cfg: Config, s: State, p: nat, g: nat, k: nat)
    requires Shaped(cfg, s) && p < cfg.pages && k < cfg.nodes
  {
    s.nodes[k].table[p].owner == g || NewsFor(cfg, s, p, k)
  }

  /** All news of p is that g has it; whoever does not know yet has that news under way. */
  ghost predicate Converging(cfg: Config, s: State, p: nat, g: nat)
    requires Shaped(cfg, s) && p < cfg.pages
  {
    && (forall x: nat, y: nat, m: Message {:trigger m in s.links[x][y]}
          | x < cfg.nodes && y < cfg.nodes && m in s.links[x][y] :: NewsNames(m, y, p, g))
    && (forall k: nat | k < cfg.nodes :: KnowsOrWillHear(cfg, s, p, g, k))
  }

  ghost predicate NewsFor(cfg: Config, s: State, p: nat, k: nat)
    requires Shaped(cfg, s) && k < cfg.nodes
  {
    exists x: nat :: x < cfg.nodes && QueueCost(NewsOf(p), s.links[x][k]) > 0
  }

  lemma NewsStays(cfg: Config, v: Variant, s: State, l: Label, p: nat, k: nat)
    requires Shaped(cfg, s) && Enabled(cfg, v, s, l) && k < cfg.nodes
    requires NewsFor(cfg, s, p, k)
    requires l.Deliver? && l.dst == k ==> Cost(NewsOf(p), l.msg) == 0
    ensures NewsFor(cfg, Next(cfg, v, s, l), p, k)
  {
    var x: nat :| x < cfg.nodes && QueueCost(NewsOf(p), s.links[x][k]) > 0;
    LinkCost(cfg, v, s, l, NewsOf(p), x, k);
  }

  /** A transfer out of a settled state: everybody but the giver gets the news. */
  lemma ConvergingAfterGrant(cfg: Config, v: Variant, s: State, l: Label, p: nat)
    requires Shaped(cfg, s) && Enabled(cfg, v, s, l) && p < cfg.pages && v.recordsGrant
    requires Grants(l, p) && Settled(cfg, s, p)
    ensures Converging(cfg, Next(cfg, v, s, l), p, l.src)
  {
    var s' := Next(cfg, v, s, l);
    forall x: nat, y: nat, m: Message | x < cfg.nodes && y < cfg.nodes && m in s'.links[x][y]
      ensures NewsNames(m, y, p, l.src)
    {
      NoStrayMessages(cfg, v, s, l, x, y, m);
      if m in s.links[x][y] {
        CostOfMember(NewsOf(p), s.links[x][y], m);
      }
    }
    forall k: nat | k < cfg.nodes
      ensures KnowsOrWillHear(cfg, s', p, l.src, k)
    {
      LinkCost(cfg, v, s, l, NewsOf(p), l.dst, k);
      if k != l.dst {
        assert QueueCost(NewsOf(p), s'.links[l.dst][k]) > 0;
      }
    }
  }

  lemma NewsAfterOther(cfg: Config, v: Variant, s: State, l: Label, p: nat, g: nat, x: nat, y: nat, m: Message)
    requires Shaped(cfg, s) && Enabled(cfg, v, s, l) && p < cfg.pages
    requires !Grants(l, p) && !Misreads(l, p) && Converging(cfg, s, p, g)
    requires x < cfg.nodes && y < cfg.nodes && m in Next(cfg, v, s, l).links[x][y]
    ensures NewsNames(m, y, p, g)
  {
    NoStrayMessages(cfg, v, s, l, x, y, m);
  }

  lemma TableAfterOther(cfg: Config, v: Variant, s: State, l: Label, p: nat, g: nat, k: nat)
    requires Shaped(cfg, s) && Enabled(cfg, v, s, l) && p < cfg.pages && k < cfg.nodes
    requires !Grants(l, p) && !Misreads(l, p) && Converging(cfg, s, p, g)
    ensures KnowsOrWillHear(cfg, Next(cfg, v, s, l), p, g, k)
  {
    assert KnowsOrWillHear(cfg, s, p, g, k);
    if l.Deliver? && l.dst == k && Cost(NewsOf(p), l.msg) > 0 {
      assert NewsNames(l.msg, k, p, g) by {
        assert l.msg in s.links[l.src][k];
      }
    } else if NewsFor(cfg, s, p, k) {
      NewsStays(cfg, v, s, l, p, k);
    }
  }

  lemma ConvergingAfterOther(cfg: Config, v: Variant, s: State, l: Label, p: nat, g: nat)
    requires Shaped(cfg, s) && Enabled(cfg, v, s, l) && p < cfg.pages
    requires !Grants(l, p) && !Misreads(l, p) && Converging(cfg, s, p, g)
    ensures Converging(cfg, Next(cfg, v, s, l), p, g)
  {
    var s' := Next(cfg, v, s, l);
    forall x: nat, y: nat, m: Message | x < cfg.nodes && y < cfg.nodes && m in s'.links[x][y]
      ensures NewsNames(m, y, p, g)
    {
      NewsAfterOther(cfg, v, s, l, p, g, x, y, m);
    }
    forall k: nat | k < cfg.nodes
      ensures KnowsOrWillHear(cfg, s', p, g, k)
    {
      TableAfterOther(cfg, v, s, l, p, g, k);
    }
  }

  /** The one copy is at the last grantee or on its way there. */
  lemma {:induction false} CopyIsForLastGrantee(cfg: Config, v: Variant, run: seq<Label>, p: nat)
    requires ValidConfig(cfg) && Legal(cfg, v, run) && InStep(run) && p < cfg.pages
    ensures var pl, g := PlaceAfter(cfg, run, p), LastGrantee(cfg, run, p);
            pl == At(g) || (pl.OnLink? && pl.dst == g)
  {
    if run == [] {
    } else {
      var before, l := run[..|run| - 1], run[|run| - 1];
      CopyIsForLastGrantee(cfg, v, before, p);
      SingleCopyInRuns(cfg, v, before, p);
      if l.Deliver? && l.msg.SendPage? && l.msg.page == p {
        DeliveredIsTheCopy(cfg, After(cfg, v, before), p, PlaceAfter(cfg, before, p), l.src, l.dst);
      }
    }
  }

  lemma {:induction false} ConvergingInRuns(cfg: Config, v: Variant, run: seq<Label>, p: nat)
    requires ValidConfig(cfg) && Legal(cfg, v, run) && p < cfg.pages && v.recordsGrant
    requires InStep(run) && OneTransferAtATime(cfg, v, run, p)
    ensures Converging(cfg, After(cfg, v, run), p, LastGrantee(cfg, run, p))
  {
    if run == [] {
    } else {
      var before, l := run[..|run| - 1], run[|run| - 1];
      ConvergingInRuns(cfg, v, before, p);
      if Grants(l, p) {
        ConvergingAfterGrant(cfg, v, After(cfg, v, before), l, p);
      } else {
        ConvergingAfterOther(cfg, v, After(cfg, v, before), l, p, LastGrantee(cfg, before, p));
      }
    }
  }

  /** All tables name one node for p, and that node maps it. */
  ghost predicate Agreed(cfg: Config, s: State, p: nat)
    requires Shaped(cfg, s) && p < cfg.pages
  {
    exists g: nat :: g < cfg.nodes && p in s.nodes[g].mapped
      && forall k: nat | k < cfg.nodes :: s.nodes[k].table[p].owner == g
  }

  lemma TablesAgreeWhenSettled(cfg: Config, v: Variant, run: seq<Label>, p: nat)
    requires ValidConfig(cfg) && Legal(cfg, v, run) && p < cfg.pages && v.recordsGrant
    requires InStep(run) && OneTransferAtATime(cfg, v, run, p) && Settled(cfg, After(cfg, v, run), p)
    ensures Agreed(cfg, After(cfg, v, run), p)
  {
    var s, pl, g := After(cfg, v, run), PlaceAfter(cfg, run, p), LastGrantee(cfg, run, p);
    ConvergingInRuns(cfg, v, run, p);
    SingleCopyInRuns(cfg, v, run, p);
    CopyIsForLastGrantee(cfg, v, run, p);
    if pl.OnLink? {
      var m := CostWitness(CopyOf(p), s.links[pl.src][pl.dst]);
      CostOfMember(NewsOf(p), s.links[pl.src][pl.dst], m);
      assert false;
    }
    assert g < cfg.nodes && p in s.nodes[g].mapped;
    forall k: nat | k < cfg.nodes
      ensures s.nodes[k].table[p].owner == g
    {
      assert KnowsOrWillHear(cfg, s, p, g, k);
    }
  }
}
