/**
 When the daemon's loop gets through. A turn takes whatever step the protocol allows at its
 socket, and starves in a reachable state exactly at a lone header or behind a scrap. A pass over
 messages without those never starves, and leaves the daemon in its loop exactly when, taken
 socket by socket, every request finds its page; between two nodes that wait it always does.
 */
module DaemonTurns {
  import opened Basics
  import opened Protocol
  import opened Traffic
  import opened Requests
  import opened TwoNodes
  import opened Variants
  import opened NodeProgram

  // ---------------------------------------------------------------- one turn

  /** The step is one that the daemon of node `me` makes at socket i with those buffers, and not one
      of its fault handler. */
  predicate OfTurn(l: Label, me: nat, i: nat, stale: seq<Page>, node: Node) {
    && OfDaemon(l) && l.src == i && l.dst == me && i < |stale|
    && (l.Misread? ==> l.stale == stale[i])
    && node.daemon.Serving?
  }

  /** What the protocol lets the daemon do at socket i is what its turn there does. */
  lemma TurnTakesTheStep(cfg: Config, v: Variant, s: State, me: nat, t: Local, i: nat, stale: seq<Page>, l: Label)
    requires Shaped(cfg, s) && me < cfg.nodes && i < cfg.nodes && ShapedLocal(cfg, t) && ShapedBuffers(cfg, stale)
    requires !t.starved && OfTurn(l, me, i, stale, t.node) && Enabled(cfg, v, Embed(cfg, s, me, t), l)
    ensures TurnLabels(cfg, v, me, t, i, stale) == [l]
    ensures !Turn(cfg, v, me, t, i, stale).starved
    ensures Next(cfg, v, Embed(cfg, s, me, t), l) == Embed(cfg, s, me, Turn(cfg, v, me, t, i, stale))
  {
    var e := Embed(cfg, s, me, t);
    assert e.nodes[me] == t.node && e.links[i][me] == t.inbox[i];
    TurnIsAStep(cfg, v, s, me, t, i, stale);
  }

  /** The socket has a header and nothing behind it, or a scrap. */
  predicate NothingToRead(q: Queue) {
    q != [] && (q[0].Scrap? || (q[0].PageHeader? && |q| == 1))
  }

  /** In a reachable state a turn starves exactly there. */
  lemma TurnStarvesIff(cfg: Config, v: Variant, run: seq<Label>, me: nat, i: nat, stale: seq<Page>)
    requires ValidConfig(cfg) && Legal(cfg, v, run) && me < cfg.nodes && i < cfg.nodes && ShapedBuffers(cfg, stale)
    ensures var s := After(cfg, v, run);
            Turn(cfg, v, me, LocalOf(cfg, s, me), i, stale).starved
            <==> s.nodes[me].daemon.Serving? && i != me && NothingToRead(s.links[i][me])
  {
    var q := After(cfg, v, run).links[i][me];
    HeadersInRuns(cfg, v, run);
    InRangeInRuns(cfg, v, run);
    assert OnlyRequestsBehind(q);
    if q != [] {
      assert q[0] in q;
      if |q| >= 2 && q[0].PageHeader? {
        assert q[1].PageRequest?;
      }
    }
  }

  // ---------------------------------------------------------------- a pass

  /** The messages at the heads of sockets 0 to k - 1, in the order a pass takes them. */
  function Heads(inbox: Row, me: nat, k: nat): Queue
    requires k <= |inbox|
  {
    if k == 0 then []
    else Heads(inbox, me, k - 1) + if k - 1 != me && inbox[k - 1] != [] then [inbox[k - 1][0]] else []
  }

  lemma {:induction false} DrainedAppend(has: set<nat>, q: Queue, m: Message)
    ensures Drained(has, q + [m]) == Drained(Drained(has, q), [m])
    decreases q
  {
    if q == [] {
      assert q + [m] == [m];
    } else {
      assert (q + [m])[1..] == q[1..] + [m];
      match q[0]
      case SendPage(p, _) => DrainedAppend(has + {p}, q[1..], m);
      case PageRequest(p) => DrainedAppend(has - {p}, q[1..], m);
      case _ => DrainedAppend(has, q[1..], m);
    }
  }

  lemma DrainedOne(has: set<nat>, m: Message)
    ensures Drained(has, [m])
            == if m.SendPage? then has + {m.page} else if m.PageRequest? then has - {m.page} else has
  {
    assert [m][1..] == [];
  }

  /** One turn at a message that is no header and no scrap. */
  lemma TurnAtMessage(cfg: Config, v: Variant, me: nat, t: Local, i: nat, stale: seq<Page>, m: Message)
    requires ShapedLocal(cfg, t) && ShapedBuffers(cfg, stale) && LocalInRange(cfg, t)
    requires i < cfg.nodes && HasTurn(cfg, me, t, i) && m == t.inbox[i][0] && !Marks(m)
    ensures var t', has := Turn(cfg, v, me, t, i, stale), t.node.mapped.Keys;
            && !t'.starved
            && (t'.node.daemon.Serving? <==> (m.PageRequest? ==> m.page in has))
            && (t'.node.daemon.Serving? ==> t'.node.mapped.Keys == Drained(has, [m]))
  {
    assert m in t.inbox[i];
    DrainedOne(t.node.mapped.Keys, m);
    var t' := Turn(cfg, v, me, t, i, stale);
    match m
    case SendPage(p, _) => assert t'.node.mapped.Keys == t.node.mapped.Keys + {p};
    case SendInfo(_, _) => assert t'.node.mapped == t.node.mapped;
    case PageRequest(p) => assert p in t.node.mapped ==> t'.node.mapped.Keys == t.node.mapped.Keys - {p};
  }

  lemma {:induction false} TurnsInRange(cfg: Config, v: Variant, me: nat, loc: Local, k: nat, stale: seq<Page>)
    requires ShapedLocal(cfg, loc) && ShapedBuffers(cfg, stale) && LocalInRange(cfg, loc)
    requires k <= cfg.nodes && me < cfg.nodes
    ensures LocalInRange(cfg, Turns(cfg, v, me, loc, k, stale))
    ensures forall i | k <= i < cfg.nodes :: Turns(cfg, v, me, loc, k, stale).inbox[i] == loc.inbox[i]
  {
    if k == 0 {
    } else {
      TurnsInRange(cfg, v, me, loc, k - 1, stale);
      TurnInRange(cfg, v, me, Turns(cfg, v, me, loc, k - 1, stale), k - 1, stale);
    }
  }

  /** A pass over sockets without headers and scraps never starves. It leaves the daemon in its loop
      exactly when every request among the heads, in their order, finds its page, counting the pages
      that come and go before it in the pass; and then the node has the pages it should. */
  lemma {:induction false} PassServesIff(cfg: Config, v: Variant, me: nat, loc: Local, k: nat, stale: seq<Page>)
    requires ShapedLocal(cfg, loc) && ShapedBuffers(cfg, stale) && LocalInRange(cfg, loc)
    requires k <= cfg.nodes && me < cfg.nodes && !loc.starved && loc.node.daemon.Serving?
    requires Unmarked(Heads(loc.inbox, me, k))
    ensures var t, has, heads := Turns(cfg, v, me, loc, k, stale), loc.node.mapped.Keys, Heads(loc.inbox, me, k);
            && !t.starved
            && (t.node.daemon.Serving? <==> Routable(has, heads))
            && (t.node.daemon.Serving? ==> t.node.mapped.Keys == Drained(has, heads))
  {
    if k == 0 {
    } else {
      var i, before, has := k - 1, Heads(loc.inbox, me, k - 1), loc.node.mapped.Keys;
      assert Heads(loc.inbox, me, k)[..|before|] == before;
      assert forall j | 0 <= j < |before| :: before[j] == Heads(loc.inbox, me, k)[j];
      PassServesIff(cfg, v, me, loc, i, stale);
      TurnsInRange(cfg, v, me, loc, i, stale);
      if i != me && loc.inbox[i] != [] {
        var m := loc.inbox[i][0];
        assert Heads(loc.inbox, me, k)[|before|] == m;
        RoutableAppend(has, before, m);
        DrainedAppend(has, before, m);
        var t := Turns(cfg, v, me, loc, i, stale);
        if t.node.daemon.Serving? {
          TurnAtMessage(cfg, v, me, t, i, stale, m);
        }
      } else {
        assert Heads(loc.inbox, me, k) == before;
      }
    }
  }

  lemma {:induction false} HeadsBetweenTwo(inbox: Row, me: nat)
    requires |inbox| == 2 && me < 2
    ensures Heads(inbox, me, 2) == if inbox[1 - me] == [] then [] else [inbox[1 - me][0]]
  {
    assert Heads(inbox, me, 1) == if me != 0 && inbox[0] != [] then [inbox[0][0]] else [];
  }

  /** Between two nodes whose handlers wait every pass begun in a reachable state gets through, and
      takes the message that is there. */
  lemma TwoNodePassGetsThrough(cfg: Config, v: Variant, run: seq<Label>, me: nat, stale: seq<Page>)
    requires ValidConfig(cfg) && cfg.nodes == 2 && Legal(cfg, v, run) && v.waitsForOwnership && me < 2
    requires ShapedBuffers(cfg, stale)
    ensures var s := After(cfg, v, run);
            var t := Turns(cfg, v, me, LocalOf(cfg, s, me), 2, stale);
            && !t.starved && t.node.daemon.Serving?
            && t.inbox[1 - me] == if s.links[1 - me][me] == [] then [] else s.links[1 - me][me][1..]
  {
    var s := After(cfg, v, run);
    var loc := LocalOf(cfg, s, me);
    var has, heads := loc.node.mapped.Keys, Heads(loc.inbox, me, 2);
    WaitingTwoRoute(cfg, v, run);
    NoMarksWhileServing(cfg, v, run);
    ReachableInRange(cfg, v, run, me);
    HeadsBetweenTwo(loc.inbox, me);
    assert loc.inbox[1 - me] == s.links[1 - me][me] && Unmarked(s.links[1 - me][me]);
    if heads != [] {
      assert heads[1..] == [];
    }
    PassServesIff(cfg, v, me, loc, 2, stale);
    PassTakesOneEach(cfg, v, me, loc, 2, 1 - me, stale);
  }
}
