/**
 The all-to-all connection phase of dsm_init. Every node listens, accepts one connection from
 each lower rank, in whatever order they arrive, then connects to each higher rank in turn,
 trying again while the connection is refused. All interleavings of the nodes are covered.
 */
module Mesh {
  import opened Basics

  /** One node. Slots are entries of its connection table; a slot holds the rank that is really
      at the other end. `toAccept` accepts remain, and `next` is the next rank to connect to. */
  datatype Peer = Peer(listening: bool, pending: seq<nat>, slots: map<nat, nat>,
                       toAccept: nat, next: nat)

  type State = seq<Peer>

  datatype Label =
    | Listen(rank: nat)
    | Accept(rank: nat)
    | Connect(rank: nat, to: nat)
    | Refused(rank: nat, to: nat)

  function Init(n: nat): (s: State)
    ensures |s| == n
  {
    seq(n, k requires k >= 0 => Peer(false, [], map[], k, k + 1))
  }

  predicate Enabled(s: State, l: Label) {
    && l.rank < |s|
    && var p := s[l.rank];
       match l
       case Listen(_) => !p.listening
       case Accept(_) => p.listening && p.toAccept > 0 && p.pending != []
       case Connect(_, to) => p.listening && p.toAccept == 0 && to == p.next < |s| && s[to].listening
       case Refused(_, to) => p.listening && p.toAccept == 0 && to == p.next < |s| && !s[to].listening
  }

  function Next(s: State, l: Label): (s': State)
    requires Enabled(s, l)
    ensures |s'| == |s|
  {
    var p := s[l.rank];
    match l
    case Listen(k) => s[k := p.(listening := true)]
    case Accept(k) =>
      s[k := p.(slots := p.slots[p.toAccept - 1 := p.pending[0]],
                pending := p.pending[1..], toAccept := p.toAccept - 1)]
    case Connect(k, to) =>
      var s1 := s[k := p.(slots := p.slots[to := to], next := to + 1)];
      s1[to := s1[to].(pending := s1[to].pending + [k])]
    case Refused(_, _) => s
  }

  function Exec(n: nat, run: seq<Label>): (r: Option<State>)
    ensures r.Some? ==> |r.value| == n
  {
    if run == [] then Some(Init(n))
    else
      var before := Exec(n, run[..|run| - 1]);
      var l := run[|run| - 1];
      if before.Some? && Enabled(before.value, l) then Some(Next(before.value, l)) else None
  }

  predicate Legal(n: nat, run: seq<Label>) {
    Exec(n, run).Some?
  }

  function After(n: nat, run: seq<Label>): (s: State)
    requires Legal(n, run)
    ensures |s| == n
  {
    Exec(n, run).value
  }

  // ---------------------------------------------------------------- arrivals

  /** The ranks that connect to k in the run, in order. */
  function Arrivals(run: seq<Label>, k: nat): seq<nat> {
    if run == [] then []
    else
      var earlier := Arrivals(run[..|run| - 1], k);
      var l := run[|run| - 1];
      if l.Connect? && l.to == k then earlier + [l.rank] else earlier
  }

  /** What node k knows of its arrivals: accepted ones in slots k-1, k-2, ..., the rest waiting. */
  ghost predicate Tracks(k: nat, p: Peer, arrivals: seq<nat>) {
    && p.toAccept <= k
    && |arrivals| == k - p.toAccept + |p.pending|
    && p.pending == arrivals[k - p.toAccept..]
    && (forall i: nat :: p.toAccept <= i < k ==> i in p.slots && p.slots[i] == arrivals[k - 1 - i])
  }

  /** A node works through listen, accept and connect in that order. */
  ghost predicate InOrder(n: nat, k: nat, p: Peer) {
    && p.toAccept <= k < p.next <= n
    && (!p.listening ==> p.toAccept == k && p.pending == [])
    && (p.toAccept > 0 || !p.listening ==> p.next == k + 1)
    && (forall i :: i in p.slots <==> p.toAccept <= i < k || k < i < p.next)
    && (forall i :: k < i < p.next ==> p.slots[i] == i)
  }

  predicate NoDuplicates(q: seq<nat>) {
    forall i, j | 0 <= i < j < |q| :: q[i] != q[j]
  }

  /** A rank has arrived at k exactly when it is lower and its connect loop is past k. */
  ghost predicate ArrivedIff(s: State, k: nat, arrivals: seq<nat>) {
    && NoDuplicates(arrivals)
    && forall j: nat :: j in arrivals <==> j < k && j < |s| && s[j].next > k
  }

  ghost predicate Good(n: nat, run: seq<Label>, s: State, k: nat)
    requires |s| == n && k < n
  {
    && InOrder(n, k, s[k])
    && Tracks(k, s[k], Arrivals(run, k))
    && ArrivedIff(s, k, Arrivals(run, k))
  }

  lemma InOrderStep(n: nat, s: State, l: Label, k: nat)
    requires |s| == n && k < n && Enabled(s, l)
    requires InOrder(n, k, s[k]) && InOrder(n, l.rank, s[l.rank])
    ensures InOrder(n, k, Next(s, l)[k])
  {
  }

  lemma TracksAccept(k: nat, p: Peer, arrivals: seq<nat>)
    requires Tracks(k, p, arrivals) && p.toAccept > 0 && p.pending != []
    ensures Tracks(k, p.(slots := p.slots[p.toAccept - 1 := p.pending[0]],
                         pending := p.pending[1..], toAccept := p.toAccept - 1), arrivals)
  {
    assert p.pending[0] == arrivals[k - p.toAccept];
    assert p.pending[1..] == arrivals[k - p.toAccept + 1..];
  }

  lemma TracksConnect(k: nat, p: Peer, to: nat, arrivals: seq<nat>)
    requires Tracks(k, p, arrivals) && to > k
    ensures Tracks(k, p.(slots := p.slots[to := to], next := to + 1), arrivals)
  {
  }

  lemma TracksArrival(k: nat, p: Peer, arrivals: seq<nat>, j: nat)
    requires Tracks(k, p, arrivals)
    ensures Tracks(k, p.(pending := p.pending + [j]), arrivals + [j])
  {
    assert (arrivals + [j])[k - p.toAccept..] == arrivals[k - p.toAccept..] + [j];
  }

  lemma ArrivalsAfter(run: seq<Label>, l: Label, k: nat)
    ensures Arrivals(run + [l], k) == if l.Connect? && l.to == k then Arrivals(run, k) + [l.rank] else Arrivals(run, k)
  {
    assert (run + [l])[..|run|] == run;
  }

  /** What a step makes of node k: its own step, an arrival, or nothing. */
  lemma PeerAfter(s: State, l: Label, k: nat)
    requires k < |s| && Enabled(s, l) && (l.Connect? ==> l.to > l.rank)
    ensures l.Accept? && l.rank == k ==>
              Next(s, l)[k] == s[k].(slots := s[k].slots[s[k].toAccept - 1 := s[k].pending[0]],
                                     pending := s[k].pending[1..], toAccept := s[k].toAccept - 1)
    ensures l.Connect? && l.rank == k ==>
              Next(s, l)[k] == s[k].(slots := s[k].slots[l.to := l.to], next := l.to + 1)
    ensures l.Connect? && l.to == k ==> Next(s, l)[k] == s[k].(pending := s[k].pending + [l.rank])
    ensures (l.rank != k && !(l.Connect? && l.to == k)) || l.Refused? ==> Next(s, l)[k] == s[k]
    ensures l.Listen? && l.rank == k ==> Next(s, l)[k] == s[k].(listening := true)
  {
  }

  lemma TracksStep(n: nat, run: seq<Label>, s: State, l: Label, k: nat)
    requires |s| == n && k < n && Enabled(s, l)
    requires InOrder(n, k, s[k]) && InOrder(n, l.rank, s[l.rank])
    requires Tracks(k, s[k], Arrivals(run, k))
    ensures Tracks(k, Next(s, l)[k], Arrivals(run + [l], k))
  {
    var arrivals := Arrivals(run, k);
    ArrivalsAfter(run, l, k);
    PeerAfter(s, l, k);
    if l.Accept? && l.rank == k {
      TracksAccept(k, s[k], arrivals);
    } else if l.Connect? && l.rank == k {
      TracksConnect(k, s[k], l.to, arrivals);
    } else if l.Connect? && l.to == k {
      TracksArrival(k, s[k], arrivals, l.rank);
    }
  }

  lemma ArrivedStep(n: nat, run: seq<Label>, s: State, l: Label, k: nat)
    requires |s| == n && k < n && Enabled(s, l)
    requires InOrder(n, l.rank, s[l.rank])
    requires ArrivedIff(s, k, Arrivals(run, k))
    ensures ArrivedIff(Next(s, l), k, Arrivals(run + [l], k))
  {
    assert (run + [l])[..|run|] == run;
    var earlier, arrivals := Arrivals(run, k), Arrivals(run + [l], k);
    if l.Connect? && l.to == k {
      assert arrivals == earlier + [l.rank] && l.rank !in earlier;
      forall j: nat
        ensures j in arrivals <==> j < k && j < n && Next(s, l)[j].next > k
      {
        assert j in arrivals <==> j in earlier || j == l.rank;
      }
    }
  }

  lemma {:induction false} GoodInRuns(n: nat, run: seq<Label>, k: nat)
    requires Legal(n, run) && k < n
    ensures Good(n, run, After(n, run), k)
  {
    if run == [] {
    } else {
      var before, l := run[..|run| - 1], run[|run| - 1];
      GoodInRuns(n, before, k);
      GoodInRuns(n, before, l.rank);
      assert before + [l] == run;
      InOrderStep(n, After(n, before), l, k);
      TracksStep(n, before, After(n, before), l, k);
      ArrivedStep(n, before, After(n, before), l, k);
    }
  }

  // ---------------------------------------------------------------- counting arrivals

  function Elements(q: seq<nat>): (e: set<nat>)
    ensures forall j :: j in e <==> j in q
  {
    if q == [] then {} else Elements(q[..|q| - 1]) + {q[|q| - 1]}
  }

  function Below(k: nat): (b: set<nat>)
    ensures forall j: nat :: j in b <==> j < k
    ensures |b| == k
  {
    if k == 0 then {} else Below(k - 1) + {k - 1}
  }

  lemma {:induction false} DistinctCount(q: seq<nat>)
    requires NoDuplicates(q)
    ensures |Elements(q)| == |q|
  {
    if q == [] {
    } else {
      DistinctCount(q[..|q| - 1]);
    }
  }

  lemma SubsetCount(a: set<nat>, b: set<nat>)
    requires a <= b
    ensures |a| <= |b|
  {
    assert b == a + (b - a);
  }

  lemma DistinctBelow(q: seq<nat>, k: nat)
    requires NoDuplicates(q) && forall j | j in q :: j < k
    ensures |q| <= k
  {
    DistinctCount(q);
    SubsetCount(Elements(q), Below(k));
  }

  /** Once all k lower ranks have arrived there are k arrivals. */
  lemma AllArrived(q: seq<nat>, k: nat)
    requires NoDuplicates(q) && forall j: nat :: j in q <==> j < k
    ensures |q| == k
  {
    DistinctCount(q);
    assert Elements(q) == Below(k);
  }

  /** Pending connections at rank k never exceed the backlog k given to listen. */
  lemma PendingWithinBacklog(n: nat, run: seq<Label>, k: nat)
    requires Legal(n, run) && k < n
    ensures |After(n, run)[k].pending| <= k
    ensures |After(n, run)[k].pending| + (k - After(n, run)[k].toAccept) <= k
  {
    GoodInRuns(n, run, k);
    DistinctBelow(Arrivals(run, k), k);
  }

  // ---------------------------------------------------------------- completion

  predicate Done(n: nat, k: nat, p: Peer) {
    p.listening && p.toAccept == 0 && p.next == n
  }

  predicate Complete(n: nat, s: State) {
    forall k | 0 <= k < |s| :: Done(n, k, s[k])
  }

  /** The listen, the accepts and the connects a node still has to make. */
  function ToDo(n: nat, p: Peer): int {
    (if p.listening then 0 else 1) + p.toAccept + (n - p.next)
  }

  function TotalToDo(n: nat, s: State): int {
    if s == [] then 0 else ToDo(n, s[0]) + TotalToDo(n, s[1..])
  }

  lemma {:induction false} TotalToDoUpdate(n: nat, s: State, k: nat, p: Peer)
    requires k < |s|
    ensures TotalToDo(n, s[k := p]) == TotalToDo(n, s) - ToDo(n, s[k]) + ToDo(n, p)
  {
    if k == 0 {
      assert s[k := p][1..] == s[1..];
    } else {
      TotalToDoUpdate(n, s[1..], k - 1, p);
      assert s[k := p][1..] == s[1..][k - 1 := p];
    }
  }

  /** Every step but a refused connect does one thing that was still to do. */
  lemma StepDoesOne(n: nat, s: State, l: Label)
    requires |s| == n && Enabled(s, l)
    ensures TotalToDo(n, Next(s, l)) == TotalToDo(n, s) - if l.Refused? then 0 else 1
  {
    var k, p := l.rank, s[l.rank];
    match l
    case Listen(_) => TotalToDoUpdate(n, s, k, Next(s, l)[k]);
    case Accept(_) => TotalToDoUpdate(n, s, k, Next(s, l)[k]);
    case Connect(_, to) =>
      var mine := p.(slots := p.slots[to := to], next := to + 1);
      TotalToDoUpdate(n, s, k, mine);
      TotalToDoUpdate(n, s[k := mine], to, s[k := mine][to].(pending := s[k := mine][to].pending + [k]));
    case Refused(_, _) =>
  }

  lemma {:induction false} InitialToDo(n: nat, s: State, from: nat)
    requires from + |s| == n
    requires forall k | 0 <= k < |s| :: s[k] == Peer(false, [], map[], from + k, from + k + 1)
    ensures TotalToDo(n, s) == n * |s|
  {
    if s == [] {
    } else {
      InitialToDo(n, s[1..], from + 1);
      assert n * |s| == n + n * |s[1..]|;
    }
  }

  function Moves(run: seq<Label>): nat {
    if run == [] then 0
    else Moves(run[..|run| - 1]) + if run[|run| - 1].Refused? then 0 else 1
  }

  /** However the nodes interleave, the moves made and the moves left add up to n * n. */
  lemma {:induction false} MovesAddUp(n: nat, run: seq<Label>)
    requires Legal(n, run)
    ensures Moves(run) + TotalToDo(n, After(n, run)) == n * n
  {
    if run == [] {
      InitialToDo(n, Init(n), 0);
    } else {
      MovesAddUp(n, run[..|run| - 1]);
      StepDoesOne(n, After(n, run[..|run| - 1]), run[|run| - 1]);
    }
  }

  lemma {:induction false} NothingToDo(n: nat, s: State)
    requires forall k | 0 <= k < |s| :: s[k].next <= n
    ensures TotalToDo(n, s) >= 0
    ensures TotalToDo(n, s) == 0 <==> Complete(n, s)
  {
    if s == [] {
    } else {
      NothingToDo(n, s[1..]);
      assert Complete(n, s) <==> Done(n, 0, s[0]) && Complete(n, s[1..]) by {
        assert forall k | 1 <= k < |s| :: s[k] == s[1..][k - 1];
        assert forall k | 0 <= k < |s[1..]| :: s[1..][k] == s[k + 1];
      }
    }
  }

  /** The lowest rank that is not done. */
  lemma {:induction false} LowestNotDone(n: nat, s: State, k: nat) returns (m: nat)
    requires k <= |s| && exists i :: k <= i < |s| && !Done(n, i, s[i])
    ensures k <= m < |s| && !Done(n, m, s[m]) && forall j | k <= j < m :: Done(n, j, s[j])
    decreases |s| - k
  {
    if !Done(n, k, s[k]) {
      m := k;
    } else {
      m := LowestNotDone(n, s, k + 1);
    }
  }

  /** Deadlock freedom: until the mesh is complete some node can make a move. */
  lemma SomeMoveEnabled(n: nat, run: seq<Label>) returns (l: Label)
    requires Legal(n, run) && !Complete(n, After(n, run))
    ensures Enabled(After(n, run), l) && !l.Refused?
  {
    var s := After(n, run);
    var k := LowestNotDone(n, s, 0);
    GoodInRuns(n, run, k);
    var p := s[k];
    if !p.listening {
      l := Listen(k);
    } else if p.toAccept > 0 {
      forall j: nat | j < k
        ensures j in Arrivals(run, k)
      {
        assert Done(n, j, s[j]);
      }
      AllArrived(Arrivals(run, k), k);
      l := Accept(k);
    } else if s[p.next].listening {
      l := Connect(k, p.next);
    } else {
      l := Listen(p.next);
    }
  }

  /** What rank k does next: listen, then accept while it has lower ranks to accept and one of them
      has arrived, then connect to the next higher rank, which is refused unless that listens. */
  function NextMove(s: State, k: nat): Option<Label>
    requires k < |s|
  {
    var p := s[k];
    if !p.listening then Some(Listen(k))
    else if p.toAccept > 0 then (if p.pending == [] then None else Some(Accept(k)))
    else if p.next >= |s| then None
    else if s[p.next].listening then Some(Connect(k, p.next))
    else Some(Refused(k, p.next))
  }

  lemma LegalIff(n: nat, run: seq<Label>, l: Label)
    requires Legal(n, run)
    ensures Legal(n, run + [l]) <==> Enabled(After(n, run), l)
  {
    assert (run + [l])[..|run|] == run;
  }

  lemma MovesInOrder(n: nat, s: State, l: Label)
    requires |s| == n && l.rank < n && InOrder(n, l.rank, s[l.rank])
    ensures Enabled(s, l) <==> NextMove(s, l.rank) == Some(l)
    ensures NextMove(s, l.rank) == None
            <==> s[l.rank].listening
                 && (if s[l.rank].toAccept > 0 then s[l.rank].pending == [] else Done(n, l.rank, s[l.rank]))
  {
  }

  /** In every reachable state each rank can do that, and nothing else: it halts only in an accept
      that waits for a connection, or when it is through. */
  lemma RankGoesOn(n: nat, run: seq<Label>, l: Label)
    requires Legal(n, run) && l.rank < n
    ensures Legal(n, run + [l]) <==> NextMove(After(n, run), l.rank) == Some(l)
    ensures var p := After(n, run)[l.rank];
            NextMove(After(n, run), l.rank) == None
            <==> p.listening && (if p.toAccept > 0 then p.pending == [] else Done(n, l.rank, p))
  {
    GoodInRuns(n, run, l.rank);
    LegalIff(n, run, l);
    MovesInOrder(n, After(n, run), l);
  }

  /** From every reachable state the mesh can be completed, in exactly the moves left. */
  lemma {:induction false} MeshCompletes(n: nat, run: seq<Label>) returns (more: seq<Label>)
    requires Legal(n, run)
    ensures Legal(n, run + more) && Complete(n, After(n, run + more))
    ensures |more| == TotalToDo(n, After(n, run))
    decreases TotalToDo(n, After(n, run))
  {
    var s := After(n, run);
    forall k: nat | k < n
      ensures s[k].next <= n
    {
      GoodInRuns(n, run, k);
    }
    NothingToDo(n, s);
    if Complete(n, s) {
      more := [];
      assert run + more == run;
    } else {
      var l := SomeMoveEnabled(n, run);
      assert (run + [l])[..|run|] == run;
      StepDoesOne(n, s, l);
      var rest := MeshCompletes(n, run + [l]);
      more := [l] + rest;
      assert run + more == run + [l] + rest;
    }
  }

  /** And nothing can go on for longer: a run is complete exactly after n * n moves. */
  lemma CompleteIff(n: nat, run: seq<Label>)
    requires Legal(n, run)
    ensures Moves(run) <= n * n
    ensures Complete(n, After(n, run)) <==> Moves(run) == n * n
  {
    var s := After(n, run);
    forall k: nat | k < n
      ensures s[k].next <= n
    {
      GoodInRuns(n, run, k);
    }
    NothingToDo(n, s);
    MovesAddUp(n, run);
  }

  // ---------------------------------------------------------------- what the mesh looks like

  /** At the end every node has a slot for every other rank and nothing pending; the slots of
      the higher ranks lead to exactly those ranks, the slots of the lower ranks to the lower
      ranks, each once, in the order of arrival. */
  lemma CompleteMesh(n: nat, run: seq<Label>, k: nat)
    requires Legal(n, run) && Complete(n, After(n, run)) && k < n
    ensures var p := After(n, run)[k];
            && p.pending == []
            && (forall i :: i in p.slots <==> 0 <= i < n && i != k)
            && (forall i | k < i < n :: p.slots[i] == i)
            && |Arrivals(run, k)| == k
            && (forall t: nat | t < k :: p.slots[k - 1 - t] == Arrivals(run, k)[t])
            && (forall j: nat | j < k :: j in Arrivals(run, k))
            && NoDuplicates(Arrivals(run, k))
  {
    var s := After(n, run);
    GoodInRuns(n, run, k);
    assert Done(n, k, s[k]);
    forall j: nat | j < k
      ensures j in Arrivals(run, k)
    {
      assert Done(n, j, s[j]);
    }
    AllArrived(Arrivals(run, k), k);
  }

  /** Exactly one connection per unordered pair: j's slot k leads to k, and exactly one of k's
      slots leads to j. */
  lemma OneConnectionPerPair(n: nat, run: seq<Label>, j: nat, k: nat) returns (slot: nat)
    requires Legal(n, run) && Complete(n, After(n, run)) && j < k < n
    ensures var s := After(n, run);
            && k in s[j].slots && s[j].slots[k] == k
            && slot in s[k].slots && slot < k && s[k].slots[slot] == j
            && forall i | i in s[k].slots && s[k].slots[i] == j :: i == slot
  {
    var s := After(n, run);
    CompleteMesh(n, run, j);
    CompleteMesh(n, run, k);
    assert j in Arrivals(run, k);
    var t: nat :| t < k && Arrivals(run, k)[t] == j;
    slot := k - 1 - t;
    forall i | i in s[k].slots && s[k].slots[i] == j
      ensures i == slot
    {
      if i < k {
        assert s[k].slots[k - 1 - (k - 1 - i)] == Arrivals(run, k)[k - 1 - i];
      }
    }
  }

  ghost predicate LabelledRight(k: nat, p: Peer) {
    forall i: nat :: i < k ==> i in p.slots && p.slots[i] == i
  }

  function Descending(k: nat): seq<nat> {
    seq(k, t requires 0 <= t < k => k - 1 - t)
  }

  /** The accepting end is labelled correctly exactly when the lower ranks arrived in descending
      order, which with two nodes they always do. */
  lemma LabelsCorrectIff(n: nat, run: seq<Label>, k: nat)
    requires Legal(n, run) && Complete(n, After(n, run)) && k < n
    ensures LabelledRight(k, After(n, run)[k]) <==> Arrivals(run, k) == Descending(k)
    ensures n == 2 ==> LabelledRight(k, After(n, run)[k])
  {
    CompleteMesh(n, run, k);
    var p, q := After(n, run)[k], Arrivals(run, k);
    if LabelledRight(k, p) {
      forall t: nat | t < k
        ensures q[t] == Descending(k)[t]
      {
        assert p.slots[k - 1 - t] == q[t];
      }
    }
    if q == Descending(k) {
      forall i: nat | i < k
        ensures p.slots[i] == i
      {
        assert p.slots[k - 1 - (k - 1 - i)] == q[k - 1 - i];
      }
    }
    if n == 2 && k == 1 {
      assert 0 in q;
      assert p.slots[1 - 1 - 0] == q[0];
    }
  }

  // ---------------------------------------------------------------- a mislabelled mesh

  lemma Take(n: nat, run: seq<Label>, l: Label, s: State, s': State)
    requires Legal(n, run) && After(n, run) == s && Enabled(s, l) && s' == Next(s, l)
    ensures Legal(n, run + [l]) && After(n, run + [l]) == s'
  {
    assert (run + [l])[..|run|] == run;
  }

  function Listening(): seq<Label> {
    [Listen(0), Listen(1), Listen(2)]
  }

  lemma AllListen()
    ensures Legal(3, Listening())
    ensures After(3, Listening())
            == [Peer(true, [], map[], 0, 1), Peer(true, [], map[], 1, 2), Peer(true, [], map[], 2, 3)]
  {
    var p1, p2 := Peer(false, [], map[], 1, 2), Peer(false, [], map[], 2, 3);
    var q0, q1 := Peer(true, [], map[], 0, 1), Peer(true, [], map[], 1, 2);
    var s0: State := [Peer(false, [], map[], 0, 1), p1, p2];
    assert Init(3) == s0;
    Take(3, [], Listen(0), s0, [q0, p1, p2]);
    Take(3, [Listen(0)], Listen(1), [q0, p1, p2], [q0, q1, p2]);
    Take(3, [Listen(0), Listen(1)], Listen(2), [q0, q1, p2], [q0, q1, Peer(true, [], map[], 2, 3)]);
    assert [] + [Listen(0)] == [Listen(0)];
    assert [Listen(0)] + [Listen(1)] == [Listen(0), Listen(1)];
    assert [Listen(0), Listen(1)] + [Listen(2)] == Listening();
  }

  /** With three nodes rank 0 may reach rank 2 before rank 1 does, and is then put in rank 1's
      slot, where it stays. */
  lemma MislabelledMesh()
    ensures var run := Listening() + [Connect(0, 1)] + [Connect(0, 2)] + [Accept(2)];
            Legal(3, run) && 1 in After(3, run)[2].slots && After(3, run)[2].slots[1] == 0
  {
    AllListen();
    var r3 := Listening();
    var q1, q2 := Peer(true, [], map[], 1, 2), Peer(true, [], map[], 2, 3);
    var c1, d1 := Peer(true, [], map[1 := 1], 0, 2), Peer(true, [0], map[], 1, 2);
    var none: seq<nat> := [];
    assert none + [0] == [0] && [0][1..] == none;
    Take(3, r3, Connect(0, 1), [Peer(true, [], map[], 0, 1), q1, q2], [c1, d1, q2]);
    var c2, d2 := Peer(true, [], map[1 := 1][2 := 2], 0, 3), Peer(true, [0], map[], 2, 3);
    Take(3, r3 + [Connect(0, 1)], Connect(0, 2), [c1, d1, q2], [c2, d1, d2]);
    Take(3, r3 + [Connect(0, 1)] + [Connect(0, 2)], Accept(2), [c2, d1, d2],
         [c2, d1, Peer(true, [], map[1 := 0], 1, 3)]);
  }

  // ---------------------------------------------------------------- the loops of one node

  /** dsm_init's two loops on the connection table: `arrivals` are the ranks whose connections
      accept returns, in that order; refused connects change nothing and are not shown. */
  method ConnectMesh(n: nat, me: nat, slots: array<nat>, arrivals: seq<nat>)
    requires me < n && slots.Length == n && |arrivals| == me
    modifies slots
    ensures forall t | 0 <= t < me :: slots[me - 1 - t] == arrivals[t]
    ensures forall i | me < i < n :: slots[i] == i
    ensures slots[me] == old(slots[me])
  {
    for i := me downto 0
      invariant forall t | 0 <= t < me - i :: slots[me - 1 - t] == arrivals[t]
      invariant slots[me] == old(slots[me])
    {
      slots[i] := arrivals[me - 1 - i];
    }
    for i := me + 1 to n
      invariant forall t | 0 <= t < me :: slots[me - 1 - t] == arrivals[t]
      invariant forall j | me < j < i :: slots[j] == j
      invariant slots[me] == old(slots[me])
    {
      slots[i] := i;
    }
  }
}
