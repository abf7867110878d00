/**
 Two loops of dsm.c whose written bounds and tests differ from what they are for: the loop
 that informs the other nodes of a transfer, and the choice of sockets the daemon polls.
 For each, exactly when the written loop does the meant thing.
 */
module WrittenLoops {

  /** The info loop as written runs over pages and uses the page number as a connection index. */
  predicate WrittenTarget(n: nat, me: nat, dest: nat, index: nat)
    requires n > 0
  {
    index % n != me && index % n != dest
  }

  function WrittenTargets(pages: nat, n: nat, me: nat, dest: nat): set<nat>
    requires n > 0
  {
    set index: nat | index < pages && WrittenTarget(n, me, dest, index)
  }

  predicate MeantTarget(me: nat, dest: nat, index: nat) {
    index != me && index != dest
  }

  /** The nodes that are neither the giver nor the receiver. */
  function MeantTargets(n: nat, me: nat, dest: nat): set<nat> {
    set index: nat | index < n && MeantTarget(me, dest, index)
  }

  /** More pages than nodes: those numbered n and up all fall on the giver and the receiver. */
  predicate NothingPastTheNodes(pages: nat, n: nat, me: nat, dest: nat) {
    || n == 2
    || pages <= n
    || (pages == n + 1 && (me == 0 || dest == 0))
    || (pages == n + 2 && {me, dest} == {0, 1})
  }

  /** More nodes than pages: the nodes past the last page are the giver and the receiver. */
  predicate NobodyPastThePages(pages: nat, n: nat, me: nat, dest: nat) {
    || n <= pages
    || (n == pages + 1 && (me == pages || dest == pages))
    || (n == pages + 2 && {me, dest} == {pages, pages + 1})
  }

  lemma WrapsOnce(n: nat, d: nat)
    requires d < n
    ensures (n + d) % n == d
  {
    assert n + d == 1 * n + d;
  }

  lemma TargetsBelowNodes(pages: nat, n: nat, me: nat, dest: nat, index: nat)
    requires me < n && dest < n && me != dest && n <= index < pages
    requires NothingPastTheNodes(pages, n, me, dest)
    ensures !WrittenTarget(n, me, dest, index)
  {
    if n != 2 {
      WrapsOnce(n, index - n);
      assert 0 in {me, dest};
    }
  }

  lemma SomeTargetPastNodes(pages: nat, n: nat, me: nat, dest: nat) returns (index: nat)
    requires me < n && dest < n && me != dest
    requires !NothingPastTheNodes(pages, n, me, dest)
    ensures n <= index < pages && WrittenTarget(n, me, dest, index)
  {
    assert n >= 3;
    WrapsOnce(n, 0);
    WrapsOnce(n, 1);
    WrapsOnce(n, 2);
    if me != 0 && dest != 0 {
      index := n;
    } else if me != 1 && dest != 1 {
      index := n + 1;
    } else {
      assert {me, dest} == {0, 1};
      index := n + 2;
    }
  }

  lemma SomeNodePastPages(pages: nat, n: nat, me: nat, dest: nat) returns (index: nat)
    requires me < n && dest < n && me != dest
    requires !NobodyPastThePages(pages, n, me, dest)
    ensures pages <= index < n && MeantTarget(me, dest, index)
  {
    if me != pages && dest != pages {
      index := pages;
    } else if me != pages + 1 && dest != pages + 1 {
      index := pages + 1;
    } else {
      assert {me, dest} == {pages, pages + 1};
      index := pages + 2;
    }
  }

  lemma SameTarget(pages: nat, n: nat, me: nat, dest: nat, index: nat)
    requires me < n && dest < n && me != dest
    requires NothingPastTheNodes(pages, n, me, dest) && NobodyPastThePages(pages, n, me, dest)
    ensures index < pages && WrittenTarget(n, me, dest, index) <==> index < n && MeantTarget(me, dest, index)
  {
    if index < n {
      assert index % n == index;
      assert index >= pages ==> !MeantTarget(me, dest, index);
    } else if index < pages {
      TargetsBelowNodes(pages, n, me, dest, index);
    }
  }

  /** The written loop informs exactly the other nodes, never past the connection table, if and
      only if no page number from n on is left over and no node from `pages` on is left out. With
      100 pages it fails for all node counts from 3 to 97. */
  lemma WrittenInfoLoopIff(pages: nat, n: nat, me: nat, dest: nat)
    requires me < n && dest < n && me != dest
    ensures WrittenTargets(pages, n, me, dest) == MeantTargets(n, me, dest)
            <==> NothingPastTheNodes(pages, n, me, dest) && NobodyPastThePages(pages, n, me, dest)
    ensures 3 <= n <= 97 && pages == 100 ==> !NothingPastTheNodes(pages, n, me, dest)
  {
    if !NothingPastTheNodes(pages, n, me, dest) {
      var index := SomeTargetPastNodes(pages, n, me, dest);
      assert index in WrittenTargets(pages, n, me, dest) && index !in MeantTargets(n, me, dest);
    } else if !NobodyPastThePages(pages, n, me, dest) {
      var index := SomeNodePastPages(pages, n, me, dest);
      assert index in MeantTargets(n, me, dest) && index !in WrittenTargets(pages, n, me, dest);
    } else {
      forall index: nat
        ensures index in WrittenTargets(pages, n, me, dest) <==> index in MeantTargets(n, me, dest)
      {
        SameTarget(pages, n, me, dest, index);
      }
    }
  }

  /** The ranks in the connection table: every other node's own rank; the own slot, never
      received, keeps the zero the table was cleared to. */
  function RankInSlot(me: nat, i: nat): nat {
    if i == me then 0 else i
  }

  /** The sockets the daemon polls as written: all slots but those whose rank is its own. */
  function WrittenPolled(n: nat, me: nat): set<nat> {
    set i: nat | i < n && RankInSlot(me, i) != me
  }

  function OtherNodes(n: nat, me: nat): set<nat> {
    set i: nat | i < n && MeantTarget(me, me, i)
  }

  /** The daemon polls exactly the other nodes at rank 0 only; elsewhere it polls its own slot as
      well, whose descriptor is the zero the table was cleared to: standard input. */
  lemma WrittenPollIff(n: nat, me: nat)
    requires me < n
    ensures WrittenPolled(n, me) == OtherNodes(n, me) <==> me == 0
    ensures me != 0 ==> WrittenPolled(n, me) == OtherNodes(n, me) + {me}
  {
    if me != 0 {
      assert me in WrittenPolled(n, me) && me !in OtherNodes(n, me);
    }
  }
}
