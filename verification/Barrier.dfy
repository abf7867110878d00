/**
 The start barrier of dsmexec. Every forked child fills its entry of the shared table and
 then increments a shared counter, which is a read followed by a write; the launcher spins
 until the counter equals the number of children. Increments may be lost, and then the
 launcher waits for ever, but it is never released early.
 */
module Barrier {
  import opened Basics

  /** A child: forked, its entry filled, the counter read (as v), the counter written. */
  datatype Child = Started | Filled | Loaded(v: nat) | Stored

  /** `entry[i]`: dsm_array[i] holds rank and hostname. */
  datatype State = State(children: seq<Child>, entry: seq<bool>, counter: nat, released: bool)

  datatype Label = Fill(i: nat) | Load(i: nat) | Store(i: nat) | Release

  function Init(n: nat): State {
    State(seq(n, _ => Started), seq(n, _ => false), 0, false)
  }

  predicate Shaped(n: nat, s: State) {
    |s.children| == |s.entry| == n
  }

  predicate Enabled(n: nat, s: State, l: Label)
    requires Shaped(n, s)
  {
    match l
    case Fill(i) => i < n && s.children[i] == Started
    case Load(i) => i < n && s.children[i] == Filled
    case Store(i) => i < n && s.children[i].Loaded?
    case Release => !s.released && s.counter == n
  }

  function Next(n: nat, s: State, l: Label): (s': State)
    requires Shaped(n, s) && Enabled(n, s, l)
    ensures Shaped(n, s')
  {
    match l
    case Fill(i) => s.(children := s.children[i := Filled], entry := s.entry[i := true])
    case Load(i) => s.(children := s.children[i := Loaded(s.counter)])
    case Store(i) => s.(children := s.children[i := Stored], counter := s.children[i].v + 1)
    case Release => s.(released := true)
  }

  function Exec(n: nat, run: seq<Label>): (r: Option<State>)
    ensures r.Some? ==> Shaped(n, r.value)
  {
    if run == [] then Some(Init(n))
    else
      var before := Exec(n, run[..|run| - 1]);
      var l := run[|run| - 1];
      if before.Some? && Enabled(n, before.value, l) then Some(Next(n, before.value, l)) else None
  }

  /** Children that have completed their increment. */
  function Completed(children: seq<Child>): nat {
    if children == [] then 0
    else (if children[0].Stored? then 1 else 0) + Completed(children[1..])
  }

  lemma {:induction false} CompletedUpdate(children: seq<Child>, i: nat, c: Child)
    requires i < |children|
    ensures Completed(children[i := c])
            == Completed(children) - (if children[i].Stored? then 1 else 0) + (if c.Stored? then 1 else 0)
  {
    if i == 0 {
      assert children[i := c][1..] == children[1..];
    } else {
      CompletedUpdate(children[1..], i - 1, c);
      assert children[i := c][1..] == children[1..][i - 1 := c];
    }
  }

  lemma {:induction false} CompletedBound(children: seq<Child>)
    ensures Completed(children) <= |children|
    ensures Completed(children) == |children| <==> forall i | 0 <= i < |children| :: children[i].Stored?
  {
    if children == [] {
    } else {
      CompletedBound(children[1..]);
      assert forall i | 1 <= i < |children| :: children[i] == children[1..][i - 1];
      assert forall i | 0 <= i < |children| - 1 :: children[1..][i] == children[i + 1];
    }
  }

  /** Neither the counter nor any value a child is about to increment exceeds the number of
      completed children; an entry is filled before its child goes on. */
  ghost predicate Good(n: nat, s: State)
    requires Shaped(n, s)
  {
    && s.counter <= Completed(s.children)
    && (forall i | 0 <= i < n && s.children[i].Loaded? :: s.children[i].v <= Completed(s.children))
    && (forall i | 0 <= i < n && s.children[i] != Started :: s.entry[i])
    && (s.released ==> s.counter == n)
  }

  lemma GoodStep(n: nat, s: State, l: Label)
    requires Shaped(n, s) && Enabled(n, s, l) && Good(n, s)
    ensures Good(n, Next(n, s, l))
  {
    if !l.Release? {
      CompletedUpdate(s.children, l.i, Next(n, s, l).children[l.i]);
    }
    if s.released {
      CompletedBound(s.children);
    }
  }

  lemma {:induction false} NoneCompleted(n: nat)
    ensures Completed(seq(n, _ => Started)) == 0
  {
    if n == 0 {
    } else {
      NoneCompleted(n - 1);
      assert seq(n, _ => Started)[1..] == seq(n - 1, _ => Started);
    }
  }

  lemma {:induction false} GoodInRuns(n: nat, run: seq<Label>)
    requires Exec(n, run).Some?
    ensures Good(n, Exec(n, run).value)
  {
    if run == [] {
      NoneCompleted(n);
    } else {
      GoodInRuns(n, run[..|run| - 1]);
      GoodStep(n, Exec(n, run[..|run| - 1]).value, run[|run| - 1]);
    }
  }

  /** The counter never exceeds the number of children that have filled their entry and completed
      their increment, whatever increments get lost. */
  lemma NeverTooHigh(n: nat, run: seq<Label>)
    requires Exec(n, run).Some?
    ensures Exec(n, run).value.counter <= Completed(Exec(n, run).value.children) <= n
  {
    GoodInRuns(n, run);
    CompletedBound(Exec(n, run).value.children);
  }

  /** Once the launcher is released every entry is filled, and no step but its own is left: it is
      the counter's only writer from then on. */
  lemma ReleasedMeansAllFilled(n: nat, run: seq<Label>)
    requires Exec(n, run).Some? && Exec(n, run).value.released
    ensures var s := Exec(n, run).value;
            && (forall i | 0 <= i < n :: s.entry[i] && s.children[i].Stored?)
            && s.counter == n
            && forall l: Label :: !Enabled(n, s, l)
  {
    GoodInRuns(n, run);
    CompletedBound(Exec(n, run).value.children);
  }

  // ---------------------------------------------------------------- lost updates

  predicate NobodyLoaded(s: State) {
    forall i | 0 <= i < |s.children| :: !s.children[i].Loaded?
  }

  /** No child reads the counter while another has read it and not yet written. */
  ghost predicate OneAtATime(n: nat, run: seq<Label>)
    requires Exec(n, run).Some?
  {
    run != [] ==>
      && OneAtATime(n, run[..|run| - 1])
      && (run[|run| - 1].Load? ==> NobodyLoaded(Exec(n, run[..|run| - 1]).value))
  }

  /** Without overlap: the counter is exact, and so is the one value being incremented. */
  ghost predicate Exact(n: nat, s: State)
    requires Shaped(n, s)
  {
    && s.counter == Completed(s.children)
    && (forall i | 0 <= i < n && s.children[i].Loaded? :: s.children[i].v == s.counter)
    && (forall i, j | 0 <= i < n && 0 <= j < n && s.children[i].Loaded? && s.children[j].Loaded? :: i == j)
  }

  predicate Stale(s: State, i: nat) {
    i < |s.children| && s.children[i].Loaded? && s.children[i].v < Completed(s.children)
  }

  /** After an overlap: some child is about to write too low a value, or one of two will be, or
      the counter is already too low. A value that is not stale is the counter's. */
  ghost predicate Lossy(n: nat, s: State)
    requires Shaped(n, s)
  {
    && (forall i: nat | i < n && s.children[i].Loaded? && !Stale(s, i) :: s.children[i].v == s.counter)
    && ((exists i: nat :: Stale(s, i))
        || (exists i, j | 0 <= i < j < n :: s.children[i].Loaded? && s.children[j].Loaded?)
        || s.counter < Completed(s.children))
  }

  lemma ExactStep(n: nat, s: State, l: Label)
    requires Shaped(n, s) && Enabled(n, s, l) && Exact(n, s) && Good(n, s)
    requires l.Load? ==> NobodyLoaded(s)
    ensures Exact(n, Next(n, s, l))
  {
    if !l.Release? {
      CompletedUpdate(s.children, l.i, Next(n, s, l).children[l.i]);
    }
  }

  lemma LossyStart(n: nat, s: State, l: Label)
    requires Shaped(n, s) && Enabled(n, s, l) && Exact(n, s) && l.Load? && !NobodyLoaded(s)
    ensures Lossy(n, Next(n, s, l))
  {
    var s' := Next(n, s, l);
    CompletedUpdate(s.children, l.i, s'.children[l.i]);
    var j :| 0 <= j < n && s.children[j].Loaded?;
    assert s'.children[j].Loaded? && s'.children[l.i].Loaded?;
    assert if j < l.i then 0 <= j < l.i < n else 0 <= l.i < j < n;
  }

  /** A child writes: another that has read is stale now, or the counter is too low. */
  lemma LossyStore(n: nat, s: State, l: Label)
    requires Shaped(n, s) && Enabled(n, s, l) && Lossy(n, s) && Good(n, s) && l.Store?
    ensures Lossy(n, Next(n, s, l))
  {
    var s' := Next(n, s, l);
    CompletedUpdate(s.children, l.i, s'.children[l.i]);
    if i: nat :| i != l.i && i < n && s.children[i].Loaded? {
      assert Stale(s', i);
    } else {
      assert s'.counter < Completed(s'.children);
    }
  }

  lemma LossyOther(n: nat, s: State, l: Label)
    requires Shaped(n, s) && Enabled(n, s, l) && Lossy(n, s) && Good(n, s) && !l.Store?
    ensures Lossy(n, Next(n, s, l))
  {
    var s' := Next(n, s, l);
    if !l.Release? {
      CompletedUpdate(s.children, l.i, s'.children[l.i]);
    }
    if i: nat :| Stale(s, i) {
      assert Stale(s', i);
    } else if i, j :| 0 <= i < j < n && s.children[i].Loaded? && s.children[j].Loaded? {
      assert s'.children[i].Loaded? && s'.children[j].Loaded?;
    } else {
      assert s'.counter < Completed(s'.children);
    }
  }

  lemma {:induction false} ExactOrLossy(n: nat, run: seq<Label>)
    requires Exec(n, run).Some?
    ensures if OneAtATime(n, run) then Exact(n, Exec(n, run).value) else Lossy(n, Exec(n, run).value)
  {
    if run == [] {
      NoneCompleted(n);
    } else {
      var before, l := run[..|run| - 1], run[|run| - 1];
      var s := Exec(n, before).value;
      ExactOrLossy(n, before);
      GoodInRuns(n, before);
      if OneAtATime(n, run) {
        ExactStep(n, s, l);
      } else if OneAtATime(n, before) {
        LossyStart(n, s, l);
      } else {
        if l.Store? {
          LossyStore(n, s, l);
        } else {
          LossyOther(n, s, l);
        }
      }
    }
  }

  /** Once all children are through, the barrier opens exactly when no two increments overlapped;
      otherwise the launcher waits for ever. */
  lemma OpensIffOneAtATime(n: nat, run: seq<Label>)
    requires Exec(n, run).Some? && !Exec(n, run).value.released
    requires forall i | 0 <= i < n :: Exec(n, run).value.children[i].Stored?
    ensures Enabled(n, Exec(n, run).value, Release) <==> OneAtATime(n, run)
    ensures !OneAtATime(n, run) ==> forall l: Label :: !Enabled(n, Exec(n, run).value, l)
  {
    ExactOrLossy(n, run);
    CompletedBound(Exec(n, run).value.children);
  }

  lemma Extend(n: nat, run: seq<Label>, s: State, l: Label, s': State)
    requires Exec(n, run) == Some(s) && Shaped(n, s) && Enabled(n, s, l) && Next(n, s, l) == s'
    ensures Exec(n, run + [l]) == Some(s')
  {
    assert (run + [l])[..|run|] == run;
  }

  /** Steps a child still has to make. */
  function ChildLeft(c: Child): nat {
    match c
    case Started => 3
    case Filled => 2
    case Loaded(_) => 1
    case Stored => 0
  }

  function ChildrenLeft(children: seq<Child>): nat {
    if children == [] then 0 else ChildLeft(children[0]) + ChildrenLeft(children[1..])
  }

  lemma {:induction false} ChildrenLeftUpdate(children: seq<Child>, i: nat, c: Child)
    requires i < |children|
    ensures ChildrenLeft(children[i := c]) == ChildrenLeft(children) - ChildLeft(children[i]) + ChildLeft(c)
  {
    if i == 0 {
      assert children[i := c][1..] == children[1..];
    } else {
      ChildrenLeftUpdate(children[1..], i - 1, c);
      assert children[i := c][1..] == children[1..][i - 1 := c];
    }
  }

  /** The next step of child i. */
  function ChildStep(c: Child, i: nat): Label
    requires !c.Stored?
  {
    match c
    case Started => Fill(i)
    case Filled => Load(i)
    case Loaded(_) => Store(i)
  }

  lemma ChildStepCounts(n: nat, s: State, i: nat)
    requires Shaped(n, s) && i < n && !s.children[i].Stored?
    ensures var l := ChildStep(s.children[i], i);
            Enabled(n, s, l) && ChildrenLeft(Next(n, s, l).children) == ChildrenLeft(s.children) - 1
  {
    var l := ChildStep(s.children[i], i);
    ChildrenLeftUpdate(s.children, i, Next(n, s, l).children[i]);
  }

  /** A child can always go on, and some child without a new overlap. */
  lemma SomeChildGoesOn(n: nat, run: seq<Label>, i: nat) returns (l: Label)
    requires Exec(n, run).Some? && OneAtATime(n, run) && i < n && !Exec(n, run).value.children[i].Stored?
    ensures Exec(n, run + [l]).Some? && OneAtATime(n, run + [l])
    ensures Exec(n, run + [l]).value.released == Exec(n, run).value.released
    ensures ChildrenLeft(Exec(n, run + [l]).value.children) < ChildrenLeft(Exec(n, run).value.children)
  {
    var s, j := Exec(n, run).value, i;
    if !NobodyLoaded(s) {
      j :| 0 <= j < n && s.children[j].Loaded?;
    }
    l := ChildStep(s.children[j], j);
    ChildStepCounts(n, s, j);
    Extend(n, run, s, l, Next(n, s, l));
    assert (run + [l])[..|run|] == run;
  }

  lemma {:induction false} ChildrenComplete(n: nat, run: seq<Label>) returns (more: seq<Label>)
    requires Exec(n, run).Some? && OneAtATime(n, run)
    ensures Exec(n, run + more).Some? && OneAtATime(n, run + more)
    ensures forall i: nat | i < n :: Exec(n, run + more).value.children[i].Stored?
    ensures Exec(n, run + more).value.released == Exec(n, run).value.released
    decreases ChildrenLeft(Exec(n, run).value.children)
  {
    var s := Exec(n, run).value;
    if i: nat :| i < n && !s.children[i].Stored? {
      var l := SomeChildGoesOn(n, run, i);
      var rest := ChildrenComplete(n, run + [l]);
      more := [l] + rest;
      Associative(run, [l], rest);
    } else {
      more := [];
      assert run + more == run;
    }
  }

  /** An opened barrier has seen no overlap, before or after. */
  lemma {:induction false} OpenedOneAtATime(n: nat, run: seq<Label>, more: seq<Label>)
    requires Exec(n, run + more).Some? && OneAtATime(n, run + more)
    ensures Exec(n, run).Some? && OneAtATime(n, run)
  {
    if more == [] {
      assert run + more == run;
    } else {
      assert (run + more)[..|run + more| - 1] == run + more[..|more| - 1];
      OpenedOneAtATime(n, run, more[..|more| - 1]);
    }
  }

  /** From any state on, the barrier can still open exactly when no two increments have overlapped
      so far. */
  lemma CanOpenIff(n: nat, run: seq<Label>)
    requires Exec(n, run).Some?
    ensures OneAtATime(n, run)
            <==> exists more: seq<Label> :: Exec(n, run + more).Some? && Exec(n, run + more).value.released
  {
    if OneAtATime(n, run) {
      var more := ChildrenComplete(n, run);
      var s := Exec(n, run + more).value;
      if !s.released {
        OpensIffOneAtATime(n, run + more);
        Extend(n, run + more, s, Release, Next(n, s, Release));
        Associative(run, more, [Release]);
        assert Exec(n, run + (more + [Release])).value.released;
      }
    }
    forall more: seq<Label> | Exec(n, run + more).Some? && Exec(n, run + more).value.released
      ensures OneAtATime(n, run)
    {
      ExactOrLossy(n, run + more);
      ReleasedMeansAllFilled(n, run + more);
      CompletedBound(Exec(n, run + more).value.children);
      OpenedOneAtATime(n, run, more);
    }
  }

  /** A lost update: both children are through, and the counter stays at one. */
  lemma LostUpdate()
    ensures var run := [Fill(0)] + [Fill(1)] + [Load(0)] + [Load(1)] + [Store(0)] + [Store(1)];
            Exec(2, run) == Some(State([Stored, Stored], [true, true], 1, false))
  {
    var s1 := State([Filled, Started], [true, false], 0, false);
    var s2 := State([Filled, Filled], [true, true], 0, false);
    var run := [Fill(0)];
    assert Init(2) == State([Started, Started], [false, false], 0, false);
    assert [] + [Fill(0)] == run;
    Extend(2, [], Init(2), Fill(0), s1);
    Extend(2, run, s1, Fill(1), s2);
    run := run + [Fill(1)];
    Extend(2, run, s2, Load(0), s2.(children := [Loaded(0), Filled]));
    run := run + [Load(0)];
    Extend(2, run, s2.(children := [Loaded(0), Filled]), Load(1), s2.(children := [Loaded(0), Loaded(0)]));
    run := run + [Load(1)];
    Extend(2, run, s2.(children := [Loaded(0), Loaded(0)]), Store(0),
           s2.(children := [Stored, Loaded(0)], counter := 1));
    run := run + [Store(0)];
    Extend(2, run, s2.(children := [Stored, Loaded(0)], counter := 1), Store(1),
           s2.(children := [Stored, Stored], counter := 1));
  }
}
