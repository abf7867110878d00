/**
 The system refines one flat memory: whatever the faults, deliveries and migrations, a read
 returns the last value written to its address in the run, or zero if there was none.
 Proved for every `Variant` and every run in step with giving as one step: it rests on the
 single copy alone. Misreading.dfy says when every run is in step, departure (h) of README.md,
 and FineGive.dfy what becomes of this with the steps of the code, departure (g).
 */
module FlatMemory {
  import opened Basics
  import opened Protocol
  import opened Traffic
  import opened SingleCopy

  /** The specification: the last write to (page, offset) in the run, by any node. */
  function LastWritten(run: seq<Label>, p: nat, off: nat): Byte {
    if run == [] then 0
    else
      match run[|run| - 1]
      case AppWrite(_, q, o, val) =>
        if q == p && o == off then val else LastWritten(run[..|run| - 1], p, off)
      case _ => LastWritten(run[..|run| - 1], p, off)
  }

  /** A page body agrees with the specification. */
  ghost predicate Current(cfg: Config, run: seq<Label>, p: nat, body: Page) {
    && |body| == cfg.pageSize
    && forall off: nat | off < cfg.pageSize :: body[off] == LastWritten(run, p, off)
  }

  /** Every copy of every page, mapped or in flight, is current. */
  ghost predicate AllCurrent(cfg: Config, run: seq<Label>, s: State)
    requires Shaped(cfg, s)
  {
    && (forall i: nat, p: nat | i < cfg.nodes && p in s.nodes[i].mapped ::
          p < cfg.pages && Current(cfg, run, p, s.nodes[i].mapped[p]))
    && (forall x: nat, y: nat, m: Message {:trigger m in s.links[x][y]}
          | x < cfg.nodes && y < cfg.nodes && m in s.links[x][y] ::
          m.page < cfg.pages && (m.SendPage? ==> Current(cfg, run, m.page, m.body)))
  }

  lemma StillCurrent(cfg: Config, run: seq<Label>, l: Label, p: nat, body: Page)
    requires Current(cfg, run, p, body)
    requires l.AppWrite? ==> l.page != p
    ensures Current(cfg, run + [l], p, body)
  {
    assert (run + [l])[..|run|] == run;
  }

  lemma WrittenIsCurrent(cfg: Config, run: seq<Label>, l: Label, body: Page)
    requires l.AppWrite? && Current(cfg, run, l.page, body) && l.off < |body|
    ensures Current(cfg, run + [l], l.page, Poke(body, l.off, l.val))
  {
    assert (run + [l])[..|run|] == run;
  }

  /** A write reaches the one copy: no other node maps the page and none of it is in flight. */
  lemma CurrentAfterWrite(cfg: Config, v: Variant, run: seq<Label>, s: State, l: Label, pl: Place)
    requires Shaped(cfg, s) && Enabled(cfg, v, s, l) && l.AppWrite?
    requires AllCurrent(cfg, run, s) && OnlyAt(cfg, s, l.page, pl)
    ensures AllCurrent(cfg, run + [l], Next(cfg, v, s, l))
  {
    var s' := Next(cfg, v, s, l);
    forall i: nat, p: nat | i < cfg.nodes && p in s'.nodes[i].mapped
      ensures p < cfg.pages && Current(cfg, run + [l], p, s'.nodes[i].mapped[p])
    {
      assert p in s.nodes[i].mapped;
      if p == l.page {
        assert pl == At(l.node) && i == l.node;
        WrittenIsCurrent(cfg, run, l, s.nodes[i].mapped[p]);
      } else {
        StillCurrent(cfg, run, l, p, s.nodes[i].mapped[p]);
      }
    }
    forall x: nat, y: nat, m: Message | x < cfg.nodes && y < cfg.nodes && m in s'.links[x][y]
      ensures m.page < cfg.pages && (m.SendPage? ==> Current(cfg, run + [l], m.page, m.body))
    {
      assert m in s.links[x][y];
      if m.SendPage? {
        if m.page == l.page {
          CostOfMember(CopyOf(l.page), s.links[x][y], m);
          assert false;
        }
        StillCurrent(cfg, run, l, m.page, m.body);
      }
    }
  }

  lemma CurrentAfterOther(cfg: Config, v: Variant, run: seq<Label>, s: State, l: Label)
    requires Shaped(cfg, s) && Enabled(cfg, v, s, l) && !l.AppWrite? && !l.Misread?
    requires AllCurrent(cfg, run, s)
    ensures AllCurrent(cfg, run + [l], Next(cfg, v, s, l))
  {
    var s' := Next(cfg, v, s, l);
    if l.Deliver? {
      assert l.msg in s.links[l.src][l.dst];
    }
    forall i: nat, p: nat | i < cfg.nodes && p in s'.nodes[i].mapped
      ensures p < cfg.pages && Current(cfg, run + [l], p, s'.nodes[i].mapped[p])
    {
      StillCurrent(cfg, run, l, p, s'.nodes[i].mapped[p]);
    }
    forall x: nat, y: nat, m: Message | x < cfg.nodes && y < cfg.nodes && m in s'.links[x][y]
      ensures m.page < cfg.pages && (m.SendPage? ==> Current(cfg, run + [l], m.page, m.body))
    {
      NoStrayMessages(cfg, v, s, l, x, y, m);
      if m.SendPage? {
        StillCurrent(cfg, run, l, m.page, m.body);
      }
    }
  }

  lemma {:induction false} CurrentInRuns(cfg: Config, v: Variant, run: seq<Label>)
    requires ValidConfig(cfg) && Legal(cfg, v, run) && InStep(run)
    ensures AllCurrent(cfg, run, After(cfg, v, run))
  {
    if run == [] {
    } else {
      var before, l := run[..|run| - 1], run[|run| - 1];
      var s := After(cfg, v, before);
      CurrentInRuns(cfg, v, before);
      assert before + [l] == run;
      if l.AppWrite? {
        SingleCopyInRuns(cfg, v, before, l.page);
        CurrentAfterWrite(cfg, v, before, s, l, PlaceAfter(cfg, before, l.page));
      } else {
        CurrentAfterOther(cfg, v, before, s, l);
      }
    }
  }

  /** Every prefix of a legal run is legal. */
  lemma {:induction false} PrefixLegal(cfg: Config, v: Variant, run: seq<Label>, k: nat)
    requires ValidConfig(cfg) && Legal(cfg, v, run) && k <= |run|
    ensures Legal(cfg, v, run[..k])
    ensures k < |run| ==> Enabled(cfg, v, After(cfg, v, run[..k]), run[k])
  {
    if k == |run| {
      assert run[..k] == run;
    } else if k < |run| - 1 {
      PrefixLegal(cfg, v, run[..|run| - 1], k);
      assert run[..|run| - 1][..k] == run[..k];
    }
  }

  /** The refinement theorem: every read of every run in step returns the last value written. */
  lemma ReadsReturnLastWrite(cfg: Config, v: Variant, run: seq<Label>, k: nat)
    requires ValidConfig(cfg) && Legal(cfg, v, run) && InStep(run)
    requires k < |run| && run[k].AppRead?
    ensures run[k].val == LastWritten(run[..k], run[k].page, run[k].off)
  {
    PrefixLegal(cfg, v, run, k);
    CurrentInRuns(cfg, v, run[..k]);
    var page := After(cfg, v, run[..k]).nodes[run[k].node].mapped[run[k].page];
    assert Current(cfg, run[..k], run[k].page, page);
  }

  /** The other direction: at any moment the node that maps a page may read the last value. */
  lemma LastWriteIsReadable(cfg: Config, v: Variant, run: seq<Label>, i: nat, p: nat, off: nat)
    requires ValidConfig(cfg) && Legal(cfg, v, run) && InStep(run)
    requires i < cfg.nodes && p < cfg.pages && off < cfg.pageSize
    requires PlaceAfter(cfg, run, p) == At(i) && After(cfg, v, run).nodes[i].app.Running?
    ensures Legal(cfg, v, run + [AppRead(i, p, off, LastWritten(run, p, off))])
  {
    CurrentInRuns(cfg, v, run);
    SingleCopyInRuns(cfg, v, run, p);
    OneMore(cfg, v, run, AppRead(i, p, off, LastWritten(run, p, off)));
  }
}
