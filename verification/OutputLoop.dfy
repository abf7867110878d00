/**
 The launcher's last phase: it polls the stdout and stderr tubes of all processes, prints
 what arrives, drops a tube that hangs up and counts a process out when both its tubes are
 gone. Tube 2p is the stdout of process p and tube 2p+1 its stderr. The processes keep
 writing and closing their ends while a pass over the tubes is under way. They may write any
 bytes, and a read may be interrupted; what is printed of a piece read from a tube is a C
 string, which need not be the piece.
 */
module OutputLoop {
  import opened Basics
  import opened Framing

  const BUFFER_LENGTH := 512

  /** `polled`: the descriptor in the poll set is not -1. `open`: the writing end still is.
      `taken` is everything read from the tube so far, `buffered` what is still in it. */
  datatype Tube = Tube(polled: bool, open: bool, buffered: Bytes, taken: Bytes)

  datatype Revents = Revents(pollin: bool, pollhup: bool)

  datatype Tubes = Tubes(tubes: seq<Tube>, live: int)

  /** What poll(2) reports; a negative descriptor has its revents zeroed. */
  function Report(tube: Tube): Revents {
    if tube.polled then Revents(tube.buffered != [], !tube.open) else Revents(false, false)
  }

  ghost predicate Reported(tubes: seq<Tube>, ev: seq<Revents>) {
    |ev| == |tubes| && forall i | 0 <= i < |tubes| :: ev[i] == Report(tubes[i])
  }

  function Partner(i: nat): nat {
    if i % 2 == 1 then i - 1 else i + 1
  }

  predicate ValidTubes(n: nat, t: Tubes) {
    |t.tubes| == 2 * n
  }

  /** How much a read takes, and how often it is interrupted before: each time the cursor steps back
      by one, and what is read in the end lies that much in front of the buffer. */
  datatype Reading = Reading(taken: nat, slipped: nat)

  /** read(2) takes at least one byte and at most a buffer. */
  predicate Readable(tube: Tube, k: nat) {
    0 < k <= |tube.buffered| && k <= BUFFER_LENGTH
  }

  /** One turn of the loop over the tubes: k bytes are read if there is input, else a hang-up is
      handled. */
  function Visit(n: nat, t: Tubes, i: nat, ev: Revents, k: nat): (t': Tubes)
    requires ValidTubes(n, t) && i < 2 * n
    requires ev.pollin ==> Readable(t.tubes[i], k)
    ensures ValidTubes(n, t')
  {
    var tube := t.tubes[i];
    if ev.pollin then
      t.(tubes := t.tubes[i := tube.(buffered := tube.buffered[k..], taken := tube.taken + tube.buffered[..k])])
    else if ev.pollhup then
      Tubes(t.tubes[i := tube.(polled := false)],
            if t.tubes[Partner(i)].polled then t.live else t.live - 1)
    else t
  }

  // ---------------------------------------------------------------- the system

  datatype Phase =
    | Polling
    | Passing(next: nat, ev: seq<Revents>)
    | Exited

  datatype State = State(t: Tubes, phase: Phase)

  datatype Label =
    | Write(i: nat, bytes: Bytes)   // a process writes to its tube
    | Close(i: nat)                 // a process closes its end
    | Poll(ev: seq<Revents>)        // poll returns
    | Handle(r: Reading)            // the next tube of the pass; `r` is the read if it has input
    | EndPass                       // the pass is over; the loop tests the counter

  function LoopTest(t: Tubes): Phase {
    if t.live != 0 then Polling else Exited
  }

  function Init(n: nat): (s: State)
    ensures ValidTubes(n, s.t)
  {
    var t := Tubes(seq(2 * n, _ => Tube(true, true, [], [])), n);
    State(t, LoopTest(t))
  }

  /** The tube whose turn it is has input. */
  predicate HasInput(n: nat, s: State)
    requires ValidTubes(n, s.t)
  {
    s.phase.Passing? && s.phase.next < 2 * n == |s.phase.ev| && s.phase.ev[s.phase.next].pollin
  }

  ghost predicate Enabled(n: nat, s: State, l: Label)
    requires ValidTubes(n, s.t)
  {
    match l
    case Write(i, bytes) => i < 2 * n && s.t.tubes[i].open
    case Close(i) => i < 2 * n && s.t.tubes[i].open
    case Poll(ev) => s.phase.Polling? && Reported(s.t.tubes, ev)
    case Handle(r) =>
      && s.phase.Passing? && s.phase.next < 2 * n == |s.phase.ev|
      && (HasInput(n, s) ==> Readable(s.t.tubes[s.phase.next], r.taken))
    case EndPass => s.phase.Passing? && s.phase.next == 2 * n
  }

  ghost function Next(n: nat, s: State, l: Label): (s': State)
    requires ValidTubes(n, s.t) && Enabled(n, s, l)
    ensures ValidTubes(n, s'.t)
  {
    match l
    case Write(i, bytes) =>
      s.(t := s.t.(tubes := s.t.tubes[i := s.t.tubes[i].(buffered := s.t.tubes[i].buffered + bytes)]))
    case Close(i) => s.(t := s.t.(tubes := s.t.tubes[i := s.t.tubes[i].(open := false)]))
    case Poll(ev) => s.(phase := Passing(0, ev))
    case Handle(r) =>
      State(Visit(n, s.t, s.phase.next, s.phase.ev[s.phase.next], r.taken),
            s.phase.(next := s.phase.next + 1))
    case EndPass => s.(phase := LoopTest(s.t))
  }

  ghost function Exec(n: nat, run: seq<Label>): (r: Option<State>)
    ensures r.Some? ==> ValidTubes(n, r.value.t)
  {
    if run == [] then Some(Init(n))
    else
      var before := Exec(n, run[..|run| - 1]);
      var l := run[|run| - 1];
      if before.Some? && Enabled(n, before.value, l) then Some(Next(n, before.value, l)) else None
  }

  lemma Extend(n: nat, run: seq<Label>, s: State, l: Label)
    requires Exec(n, run) == Some(s) && ValidTubes(n, s.t) && Enabled(n, s, l)
    ensures Exec(n, run + [l]) == Some(Next(n, s, l))
  {
    assert (run + [l])[..|run|] == run;
  }

  // ---------------------------------------------------------------- the counter

  function Alive(tubes: seq<Tube>, p: nat): bool
    requires 2 * p + 1 < |tubes|
  {
    tubes[2 * p].polled || tubes[2 * p + 1].polled
  }

  /** How many of the first m processes still have a tube polled. */
  function LiveProcesses(tubes: seq<Tube>, m: nat): nat
    requires 2 * m <= |tubes|
  {
    if m == 0 then 0
    else LiveProcesses(tubes, m - 1) + if Alive(tubes, m - 1) then 1 else 0
  }

  lemma {:induction false} LiveProcessesUpdate(tubes: seq<Tube>, i: nat, tube: Tube, m: nat)
    requires i < |tubes| && 2 * m <= |tubes|
    ensures LiveProcesses(tubes[i := tube], m)
            == LiveProcesses(tubes, m)
               + if i / 2 < m then
                   (if Alive(tubes[i := tube], i / 2) then 1 else 0) - (if Alive(tubes, i / 2) then 1 else 0)
                 else 0
  {
    if m == 0 {
    } else {
      LiveProcessesUpdate(tubes, i, tube, m - 1);
      if i / 2 != m - 1 {
        assert Alive(tubes[i := tube], m - 1) == Alive(tubes, m - 1);
      }
    }
  }

  /** No process is counted exactly when no tube is polled. */
  lemma {:induction false} NoneLiveIff(tubes: seq<Tube>, m: nat)
    requires 2 * m <= |tubes|
    ensures LiveProcesses(tubes, m) == 0 <==> forall i | 0 <= i < 2 * m :: !tubes[i].polled
  {
    if m == 0 {
    } else {
      NoneLiveIff(tubes, m - 1);
    }
  }

  // ---------------------------------------------------------------- the invariant

  /** A tube is dropped only when closed and empty. */
  predicate Sound(tube: Tube) {
    !tube.polled ==> !tube.open && tube.buffered == []
  }

  /** What a pass was told about a tube it has not reached yet still holds. */
  predicate StillTrue(tube: Tube, ev: Revents) {
    && (ev.pollin ==> tube.polled && tube.buffered != [])
    && (ev.pollhup && !ev.pollin ==> tube.polled && !tube.open && tube.buffered == [])
  }

  ghost predicate Good(n: nat, s: State)
    requires ValidTubes(n, s.t)
  {
    && s.t.live == LiveProcesses(s.t.tubes, n)
    && (forall i: nat | i < 2 * n :: Sound(s.t.tubes[i]))
    && (s.phase.Passing? ==>
          && s.phase.next <= 2 * n == |s.phase.ev|
          && forall i: nat | s.phase.next <= i < 2 * n :: StillTrue(s.t.tubes[i], s.phase.ev[i]))
    && (s.phase.Polling? <==> s.t.live != 0 && !s.phase.Passing?)
  }

  /** One turn keeps the tube sound and the counter exact, and touches no other tube. */
  lemma VisitKeeps(n: nat, t: Tubes, i: nat, ev: Revents, k: nat)
    requires ValidTubes(n, t) && i < 2 * n
    requires ev.pollin ==> Readable(t.tubes[i], k)
    requires t.live == LiveProcesses(t.tubes, n) && Sound(t.tubes[i]) && StillTrue(t.tubes[i], ev)
    ensures var t' := Visit(n, t, i, ev, k);
            && t'.live == LiveProcesses(t'.tubes, n)
            && Sound(t'.tubes[i])
            && forall j | 0 <= j < 2 * n && j != i :: t'.tubes[j] == t.tubes[j]
  {
    var t' := Visit(n, t, i, ev, k);
    LiveProcessesUpdate(t.tubes, i, t'.tubes[i], n);
    assert t'.tubes == t.tubes[i := t'.tubes[i]];
  }

  lemma GoodProcessStep(n: nat, s: State, l: Label)
    requires ValidTubes(n, s.t) && Enabled(n, s, l) && Good(n, s) && (l.Write? || l.Close?)
    ensures Good(n, Next(n, s, l))
  {
    LiveProcessesUpdate(s.t.tubes, l.i, Next(n, s, l).t.tubes[l.i], n);
    assert Next(n, s, l).t.tubes == s.t.tubes[l.i := Next(n, s, l).t.tubes[l.i]];
    assert Sound(s.t.tubes[l.i]);
  }

  lemma GoodStep(n: nat, s: State, l: Label)
    requires ValidTubes(n, s.t) && Enabled(n, s, l) && Good(n, s)
    ensures Good(n, Next(n, s, l))
  {
    match l
    case Write(_, _) => GoodProcessStep(n, s, l);
    case Close(_) => GoodProcessStep(n, s, l);
    case Poll(ev) => assert forall i: nat | i < 2 * n :: Sound(s.t.tubes[i]) && ev[i] == Report(s.t.tubes[i]);
    case Handle(r) => VisitKeeps(n, s.t, s.phase.next, s.phase.ev[s.phase.next], r.taken);
    case EndPass =>
  }

  lemma {:induction false} InitialLive(n: nat, m: nat)
    requires m <= n
    ensures LiveProcesses(Init(n).t.tubes, m) == m
  {
    if m == 0 {
    } else {
      InitialLive(n, m - 1);
    }
  }

  lemma {:induction false} GoodInRuns(n: nat, run: seq<Label>)
    requires Exec(n, run).Some?
    ensures Good(n, Exec(n, run).value)
  {
    if run == [] {
      InitialLive(n, n);
    } else {
      GoodInRuns(n, run[..|run| - 1]);
      GoodStep(n, Exec(n, run[..|run| - 1]).value, run[|run| - 1]);
    }
  }

  /** The counter is at all times the number of processes with a tube still polled, also when
      both tubes of a process hang up in one pass. */
  lemma CounterIsLiveProcesses(n: nat, run: seq<Label>)
    requires Exec(n, run).Some?
    ensures var t := Exec(n, run).value.t; t.live == LiveProcesses(t.tubes, n)
  {
    GoodInRuns(n, run);
  }

  ghost predicate CountedOut(n: nat, t: Tubes, t': Tubes)
    requires ValidTubes(n, t) && ValidTubes(n, t')
  {
    exists p: nat :: p < n && Alive(t.tubes, p) && !Alive(t'.tubes, p)
  }

  lemma VisitCounts(n: nat, t: Tubes, i: nat, ev: Revents, k: nat)
    requires ValidTubes(n, t) && i < 2 * n
    requires ev.pollin ==> Readable(t.tubes[i], k)
    requires StillTrue(t.tubes[i], ev)
    ensures var t' := Visit(n, t, i, ev, k);
            t'.live == t.live - if CountedOut(n, t, t') then 1 else 0
  {
    var t', p := Visit(n, t, i, ev, k), i / 2;
    assert forall q: nat | q < n && q != p :: Alive(t'.tubes, q) == Alive(t.tubes, q);
    if ev.pollhup && !ev.pollin {
      assert Alive(t.tubes, p) && Alive(t'.tubes, p) == t.tubes[Partner(i)].polled;
    } else {
      assert Alive(t.tubes, p) == Alive(t'.tubes, p);
    }
  }

  /** Any step of the system lowers the counter by one when it drops the last tube of a process,
      and otherwise leaves it alone: every process is subtracted exactly once. */
  lemma CountedOutOnce(n: nat, run: seq<Label>, l: Label)
    requires Exec(n, run).Some? && Exec(n, run + [l]).Some?
    ensures var t, t' := Exec(n, run).value.t, Exec(n, run + [l]).value.t;
            t'.live == t.live - if CountedOut(n, t, t') then 1 else 0
  {
    assert (run + [l])[..|run|] == run;
    var s := Exec(n, run).value;
    GoodInRuns(n, run);
    if l.Handle? {
      VisitCounts(n, s.t, s.phase.next, s.phase.ev[s.phase.next], l.r.taken);
    } else {
      assert forall q: nat | q < n :: Alive(Next(n, s, l).t.tubes, q) == Alive(s.t.tubes, q);
    }
  }

  /** The loop test: the counter is zero exactly when all 2n tubes are dropped. */
  lemma ExitsWhenAllDropped(n: nat, run: seq<Label>)
    requires Exec(n, run).Some?
    ensures var s := Exec(n, run).value;
            && (s.t.live == 0 <==> forall i: nat | i < 2 * n :: !s.t.tubes[i].polled)
            && (s.phase.Passing? && s.phase.next == 2 * n ==>
                  (Next(n, s, EndPass).phase.Exited? <==> forall i: nat | i < 2 * n :: !s.t.tubes[i].polled))
            && (s.phase.Exited? ==> forall i: nat | i < 2 * n :: !s.t.tubes[i].polled)
  {
    GoodInRuns(n, run);
    NoneLiveIff(Exec(n, run).value.t.tubes, n);
  }

  // ---------------------------------------------------------------- nothing is lost on the way in

  /** Everything written to tube i in the run, in order. */
  function Written(run: seq<Label>, i: nat): Bytes {
    if run == [] then []
    else
      var earlier := Written(run[..|run| - 1], i);
      match run[|run| - 1]
      case Write(j, bytes) => if j == i then earlier + bytes else earlier
      case _ => earlier
  }

  lemma {:induction false} WrittenIsTakenOrBuffered(n: nat, run: seq<Label>, i: nat)
    requires Exec(n, run).Some? && i < 2 * n
    ensures var tube := Exec(n, run).value.t.tubes[i]; Written(run, i) == tube.taken + tube.buffered
  {
    if run == [] {
    } else {
      var s, l := Exec(n, run[..|run| - 1]).value, run[|run| - 1];
      var tube := s.t.tubes[i];
      WrittenIsTakenOrBuffered(n, run[..|run| - 1], i);
      if l.Write? {
        Associative(tube.taken, tube.buffered, l.bytes);
      }
      if l.Handle? && HasInput(n, s) && s.phase.next == i {
        assert tube.buffered == tube.buffered[..l.r.taken] + tube.buffered[l.r.taken..];
        Associative(tube.taken, tube.buffered[..l.r.taken], tube.buffered[l.r.taken..]);
      }
    }
  }

  /** Whatever is written, and however it is read: what has been taken from a tube is a prefix of
      what was written to it, and when the loop has ended it is all of it. */
  lemma OutputTaken(n: nat, run: seq<Label>, i: nat)
    requires Exec(n, run).Some? && i < 2 * n
    ensures var s := Exec(n, run).value;
            && s.t.tubes[i].taken <= Written(run, i)
            && (s.phase.Exited? ==> s.t.tubes[i].taken == Written(run, i) && !s.t.tubes[i].open)
  {
    var s := Exec(n, run).value;
    GoodInRuns(n, run);
    WrittenIsTakenOrBuffered(n, run, i);
    ExitsWhenAllDropped(n, run);
    assert Sound(s.t.tubes[i]);
  }

  // ---------------------------------------------------------------- what is printed of it

  /** What of a piece lies in the buffer. */
  function InBuffer(piece: Bytes, slipped: nat): (r: Bytes)
    ensures |r| <= |piece| && (slipped > 0 && piece != [] ==> |r| < |piece|)
  {
    if slipped < |piece| then piece[slipped..] else []
  }

  /** What printf shows of a piece: the C string at the start of the zeroed buffer it was read
      into, which runs on into the memory behind the buffer when the piece has filled it. */
  function Shown(piece: Bytes, slipped: nat, behind: Bytes): Bytes
    requires |piece| <= BUFFER_LENGTH
  {
    var text := InBuffer(piece, slipped);
    CString(text + (seq(BUFFER_LENGTH - |text|, _ => NUL) + behind))
  }

  /** The piece is text, leaves room for a terminator, and its read was not interrupted. */
  predicate Clean(piece: Bytes, slipped: nat) {
    NUL !in piece && |piece| < BUFFER_LENGTH && (slipped == 0 || piece == [])
  }

  lemma ShownClean(piece: Bytes, slipped: nat, behind: Bytes)
    requires Clean(piece, slipped)
    ensures Shown(piece, slipped, behind) == piece
  {
    CStringOf(piece, seq(BUFFER_LENGTH - |piece|, _ => NUL) + behind);
  }

  lemma {:induction false} CStringStops(mem: Bytes, k: nat)
    requires k < |mem| && mem[k] == NUL
    ensures |CString(mem)| <= k
  {
    if mem[0] == NUL {
    } else {
      CStringStops(mem[1..], k - 1);
    }
  }

  /** With a NUL just behind the buffer too little may be shown, never too much. */
  lemma ShownAtMost(piece: Bytes, slipped: nat)
    requires |piece| <= BUFFER_LENGTH
    ensures |Shown(piece, slipped, [])| <= |piece|
    ensures NUL in piece || (slipped > 0 && piece != []) ==> |Shown(piece, slipped, [])| < |piece|
  {
    var text := InBuffer(piece, slipped);
    var zeros: Bytes := seq(BUFFER_LENGTH - |text|, _ => NUL) + [];
    var shown := CString(text + zeros);
    if |text| < BUFFER_LENGTH {
      CStringStops(text + zeros, |text|);
    }
    assert |shown| == |text| ==> shown == text;
  }

  /** With anything else there, a full piece of text is shown with what follows it. */
  lemma ShownAtLeast(piece: Bytes)
    requires |piece| <= BUFFER_LENGTH && NUL !in piece
    ensures |Shown(piece, 0, [1])| >= |piece|
    ensures |piece| == BUFFER_LENGTH ==> |Shown(piece, 0, [1])| > |piece|
  {
    assert InBuffer(piece, 0) == piece;
    if |piece| == BUFFER_LENGTH {
      assert NUL !in piece + [1];
      var none: Bytes := seq(0, _ => NUL);
      CStringOf(piece + [1], []);
      assert (piece + [1]) + [] == piece + (none + [1]);
    } else {
      ShownClean(piece, 0, [1]);
    }
  }

  /** A piece is sure to be shown whole exactly when it is clean. */
  lemma PieceShownIff(piece: Bytes, slipped: nat)
    requires |piece| <= BUFFER_LENGTH
    ensures Clean(piece, slipped) <==> forall behind: Bytes :: Shown(piece, slipped, behind) == piece
  {
    if Clean(piece, slipped) {
      forall behind: Bytes
        ensures Shown(piece, slipped, behind) == piece
      {
        ShownClean(piece, slipped, behind);
      }
    } else if NUL in piece || slipped > 0 {
      ShownAtMost(piece, slipped);
      assert Shown(piece, slipped, []) != piece;
    } else {
      ShownAtLeast(piece);
      assert Shown(piece, slipped, [1]) != piece;
    }
  }

  lemma {:induction false} CStringRunsOn(text: Bytes, tail: Bytes)
    requires NUL !in text
    ensures CString(text + tail) == text + CString(tail)
  {
    if text == [] {
      assert text + tail == tail;
    } else {
      assert (text + tail)[1..] == text[1..] + tail;
      CStringRunsOn(text[1..], tail);
    }
  }

  lemma CStringCut(mem: Bytes, k: nat, tail: Bytes)
    requires k < |mem| && mem[k] == NUL && NUL !in mem[..k]
    ensures CString(mem + tail) == mem[..k]
  {
    assert mem + tail == mem[..k] + (mem[k..] + tail);
    CStringOf(mem[..k], mem[k..] + tail);
  }

  /** A piece of text that fills the buffer of 512 bytes is shown, and behind it the C string that
      the memory behind the buffer starts with. */
  lemma FullPieceShown(piece: Bytes, behind: Bytes)
    requires |piece| == 512 && NUL !in piece
    ensures Shown(piece, 0, behind) == piece + CString(behind)
  {
    var none: Bytes := seq(0, _ => NUL);
    assert InBuffer(piece, 0) == piece && none + behind == behind;
    CStringRunsOn(piece, behind);
  }

  /** A piece whose first NUL is at k is shown up to it. */
  lemma CutPieceShown(piece: Bytes, k: nat, behind: Bytes)
    requires k < |piece| <= 512 && piece[k] == NUL && NUL !in piece[..k]
    ensures Shown(piece, 0, behind) == piece[..k]
  {
    assert InBuffer(piece, 0) == piece;
    CStringCut(piece, k, seq(BUFFER_LENGTH - |piece|, _ => NUL) + behind);
  }

  /** After interruptions a piece is shown as the piece without its first bytes, one for each of
      them: up to its first NUL or its end, and never with what lies behind the buffer. */
  lemma SlippedPieceShown(piece: Bytes, slipped: nat, behind: Bytes, k: nat)
    requires 0 < |piece| <= 512 && 0 < slipped <= k <= |piece|
    requires NUL !in piece[slipped..k] && (k < |piece| ==> piece[k] == NUL)
    ensures Shown(piece, slipped, behind) == piece[slipped..k]
  {
    var text := InBuffer(piece, slipped);
    var zeros: Bytes := seq(BUFFER_LENGTH - |text|, _ => NUL);
    assert text == piece[slipped..];
    if k == |piece| {
      CStringOf(text, zeros + behind);
    } else {
      assert text[..k - slipped] == piece[slipped..k];
      CStringCut(text, k - slipped, zeros + behind);
    }
  }

  /** With as many interruptions as it has bytes, or more, nothing is shown of it. */
  lemma LostPieceShown(piece: Bytes, slipped: nat, behind: Bytes)
    requires |piece| <= 512 && slipped >= |piece| && slipped > 0
    ensures Shown(piece, slipped, behind) == []
  {
    CStringOf([], seq(BUFFER_LENGTH, _ => NUL) + behind);
  }

  /** The step reads a piece from tube i. */
  ghost predicate Reads(n: nat, s: State, l: Label, i: nat)
    requires ValidTubes(n, s.t) && Enabled(n, s, l)
  {
    l.Handle? && HasInput(n, s) && s.phase.next == i
  }

  /** Everything printed of tube i in the run; `mem(k)` is what lies behind the buffer at the step
      numbered k. */
  ghost function Printed(n: nat, run: seq<Label>, i: nat, mem: nat -> Bytes): Bytes
    requires Exec(n, run).Some? && i < 2 * n
  {
    if run == [] then []
    else
      var s, l, k := Exec(n, run[..|run| - 1]).value, run[|run| - 1], |run| - 1;
      var earlier := Printed(n, run[..k], i, mem);
      if Reads(n, s, l, i) then earlier + Shown(s.t.tubes[i].buffered[..l.r.taken], l.r.slipped, mem(k)) else earlier
  }

  /** Every piece the run reads from tube i is clean. */
  ghost predicate AllClean(n: nat, run: seq<Label>, i: nat)
    requires Exec(n, run).Some? && i < 2 * n
  {
    if run == [] then true
    else
      var s, l, k := Exec(n, run[..|run| - 1]).value, run[|run| - 1], |run| - 1;
      && AllClean(n, run[..k], i)
      && (Reads(n, s, l, i) ==> Clean(s.t.tubes[i].buffered[..l.r.taken], l.r.slipped))
  }

  lemma {:induction false} CleanIsPrinted(n: nat, run: seq<Label>, i: nat, mem: nat -> Bytes)
    requires Exec(n, run).Some? && i < 2 * n && AllClean(n, run, i)
    ensures Printed(n, run, i, mem) == Exec(n, run).value.t.tubes[i].taken
  {
    if run == [] {
    } else {
      var s, l, k := Exec(n, run[..|run| - 1]).value, run[|run| - 1], |run| - 1;
      CleanIsPrinted(n, run[..k], i, mem);
      if Reads(n, s, l, i) {
        ShownClean(s.t.tubes[i].buffered[..l.r.taken], l.r.slipped, mem(k));
      }
    }
  }

  /** No read of the run from tube i was interrupted. */
  ghost predicate Steady(n: nat, run: seq<Label>, i: nat)
    requires Exec(n, run).Some? && i < 2 * n
  {
    if run == [] then true
    else
      var s, l := Exec(n, run[..|run| - 1]).value, run[|run| - 1];
      Steady(n, run[..|run| - 1], i) && (Reads(n, s, l, i) ==> l.r.slipped == 0)
  }

  /** With NULs behind the buffer: no more than was taken, and less if that has a NUL in it or a
      read was interrupted. */
  lemma {:induction false} PrintedAtMost(n: nat, run: seq<Label>, i: nat)
    requires Exec(n, run).Some? && i < 2 * n
    ensures var taken, printed := Exec(n, run).value.t.tubes[i].taken, Printed(n, run, i, _ => []);
            |printed| <= |taken| && (NUL in taken || !Steady(n, run, i) ==> |printed| < |taken|)
  {
    if run == [] {
    } else {
      var s, l, k := Exec(n, run[..|run| - 1]).value, run[|run| - 1], |run| - 1;
      PrintedAtMost(n, run[..k], i);
      if Reads(n, s, l, i) {
        ShownAtMost(s.t.tubes[i].buffered[..l.r.taken], l.r.slipped);
      }
    }
  }

  /** With other bytes there: no less than was taken of text, and more unless all is clean. */
  lemma {:induction false} PrintedAtLeast(n: nat, run: seq<Label>, i: nat)
    requires Exec(n, run).Some? && i < 2 * n && NUL !in Exec(n, run).value.t.tubes[i].taken && Steady(n, run, i)
    ensures var taken, printed := Exec(n, run).value.t.tubes[i].taken, Printed(n, run, i, _ => [1]);
            |printed| >= |taken| && (!AllClean(n, run, i) ==> |printed| > |taken|)
  {
    if run == [] {
    } else {
      var s, l, k := Exec(n, run[..|run| - 1]).value, run[|run| - 1], |run| - 1;
      var taken := Exec(n, run).value.t.tubes[i].taken;
      assert s.t.tubes[i].taken == taken[..|s.t.tubes[i].taken|];
      PrintedAtLeast(n, run[..k], i);
      if Reads(n, s, l, i) {
        var piece := s.t.tubes[i].buffered[..l.r.taken];
        assert taken == s.t.tubes[i].taken + piece;
        ShownAtLeast(piece);
      }
    }
  }

  /** What is taken from a tube is sure to be printed, whatever lies behind the buffer, exactly
      when every piece of it is clean. */
  lemma OutputPrintedIff(n: nat, run: seq<Label>, i: nat)
    requires Exec(n, run).Some? && i < 2 * n
    ensures AllClean(n, run, i)
            <==> forall mem: nat -> Bytes :: Printed(n, run, i, mem) == Exec(n, run).value.t.tubes[i].taken
  {
    var taken := Exec(n, run).value.t.tubes[i].taken;
    if AllClean(n, run, i) {
      forall mem: nat -> Bytes
        ensures Printed(n, run, i, mem) == taken
      {
        CleanIsPrinted(n, run, i, mem);
      }
    } else if NUL in taken || !Steady(n, run, i) {
      PrintedAtMost(n, run, i);
      assert Printed(n, run, i, _ => []) != taken;
    } else {
      PrintedAtLeast(n, run, i);
      assert Printed(n, run, i, _ => [1]) != taken;
    }
  }

  /** So text read in pieces shorter than the buffer, without interruptions, is relayed: prefixes of
      it while the loop goes on, all of it when it has ended. */
  lemma OutputRelayed(n: nat, run: seq<Label>, i: nat, mem: nat -> Bytes)
    requires Exec(n, run).Some? && i < 2 * n && AllClean(n, run, i)
    ensures var s := Exec(n, run).value;
            && Printed(n, run, i, mem) <= Written(run, i)
            && (s.phase.Exited? ==> Printed(n, run, i, mem) == Written(run, i) && !s.t.tubes[i].open)
  {
    CleanIsPrinted(n, run, i, mem);
    OutputTaken(n, run, i);
  }

  lemma {:induction false} NothingPrinted(n: nat, run: seq<Label>, i: nat, mem: nat -> Bytes)
    requires Exec(n, run).Some? && i < 2 * n && forall k | 0 <= k < |run| :: !run[k].Handle?
    ensures Printed(n, run, i, mem) == [] && AllClean(n, run, i)
  {
    if run == [] {
    } else {
      NothingPrinted(n, run[..|run| - 1], i, mem);
    }
  }

  /** A process writes bytes, up to a buffer of them, and they are read in one piece. */
  function OnePiece(n: nat, bytes: Bytes, slipped: nat): seq<Label> {
    [Write(0, bytes)] + [Poll(seq(2 * n, i => Revents(i == 0, false)))] + [Handle(Reading(|bytes|, slipped))]
  }

  /** Then what is shown of the piece is all that is printed. */
  lemma OnePiecePrints(n: nat, bytes: Bytes, slipped: nat, mem: nat -> Bytes)
    requires n > 0 && 0 < |bytes| <= BUFFER_LENGTH
    ensures var run := OnePiece(n, bytes, slipped);
            && Exec(n, run).Some? && Exec(n, run).value.t.tubes[0].taken == bytes
            && Printed(n, run, 0, mem) == Shown(bytes, slipped, mem(2))
            && (AllClean(n, run, 0) <==> Clean(bytes, slipped))
  {
    var ev, read := seq(2 * n, i => Revents(i == 0, false)), Handle(Reading(|bytes|, slipped));
    Extend(n, [], Init(n), Write(0, bytes));
    var s1 := Next(n, Init(n), Write(0, bytes));
    assert [] + [Write(0, bytes)] == [Write(0, bytes)];
    Extend(n, [Write(0, bytes)], s1, Poll(ev));
    var s2 := Next(n, s1, Poll(ev));
    var two := [Write(0, bytes)] + [Poll(ev)];
    Extend(n, two, s2, read);
    var run := two + [read];
    assert run[..2] == two;
    assert s2.t.tubes[0].buffered == [] + bytes == bytes && bytes[..|bytes|] == bytes;
    assert Reads(n, s2, read, 0);
    NothingPrinted(n, two, 0, mem);
    assert Printed(n, run, 0, mem) == [] + Shown(bytes, slipped, mem(2));
  }

  /** Any bytes up to a buffer that are not clean, or whose read is interrupted, make a run in which
      they are not sure to be printed as they are. */
  lemma GarbledRun(n: nat, bytes: Bytes, slipped: nat)
    requires n > 0 && 0 < |bytes| <= BUFFER_LENGTH && !Clean(bytes, slipped)
    ensures var run := OnePiece(n, bytes, slipped);
            && Exec(n, run).Some? && Exec(n, run).value.t.tubes[0].taken == bytes
            && exists mem: nat -> Bytes :: Printed(n, run, 0, mem) != bytes
  {
    OnePiecePrints(n, bytes, slipped, _ => []);
    OutputPrintedIff(n, OnePiece(n, bytes, slipped), 0);
  }

  /** A process that writes 512 bytes of text at once has them printed with what follows them in
      the launcher's memory. */
  lemma OverrunRun(n: nat, bytes: Bytes, mem: nat -> Bytes)
    requires n > 0 && |bytes| == 512 && NUL !in bytes
    ensures Exec(n, OnePiece(n, bytes, 0)).Some?
    ensures Printed(n, OnePiece(n, bytes, 0), 0, mem) == bytes + CString(mem(2))
  {
    OnePiecePrints(n, bytes, 0, mem);
    FullPieceShown(bytes, mem(2));
  }

  // ---------------------------------------------------------------- a pass

  predicate Chunked(n: nat, t: Tubes, ev: seq<Revents>, chunks: seq<Reading>)
    requires ValidTubes(n, t)
  {
    && |ev| == |chunks| == 2 * n
    && forall i | 0 <= i < 2 * n :: ev[i].pollin ==> Readable(t.tubes[i], chunks[i].taken)
  }

  /** The turns at tubes 0 to m - 1 of a pass; chunks[i] is the read where there is input. */
  ghost function VisitAll(n: nat, t: Tubes, ev: seq<Revents>, chunks: seq<Reading>, m: nat): (t': Tubes)
    requires ValidTubes(n, t) && Chunked(n, t, ev, chunks) && m <= 2 * n
    ensures ValidTubes(n, t')
    ensures forall i | m <= i < 2 * n :: t'.tubes[i] == t.tubes[i]
  {
    if m == 0 then t
    else Visit(n, VisitAll(n, t, ev, chunks, m - 1), m - 1, ev[m - 1], chunks[m - 1].taken)
  }

  /** The run, a poll, and the turns at tubes 0 to m - 1. */
  function WithPass(run: seq<Label>, ev: seq<Revents>, chunks: seq<Reading>, m: nat): seq<Label>
    requires m <= |chunks|
  {
    if m == 0 then run + [Poll(ev)] else WithPass(run, ev, chunks, m - 1) + [Handle(chunks[m - 1])]
  }

  lemma PassStep(n: nat, t: Tubes, ev: seq<Revents>, chunks: seq<Reading>, m: nat)
    requires ValidTubes(n, t) && Chunked(n, t, ev, chunks) && 0 < m <= 2 * n
    ensures var mid := State(VisitAll(n, t, ev, chunks, m - 1), Passing(m - 1, ev));
            Enabled(n, mid, Handle(chunks[m - 1]))
            && Next(n, mid, Handle(chunks[m - 1])) == State(VisitAll(n, t, ev, chunks, m), Passing(m, ev))
  {
    assert VisitAll(n, t, ev, chunks, m - 1).tubes[m - 1] == t.tubes[m - 1];
  }

  /** A pass in which the processes do nothing is one of the runs the properties above speak of. */
  lemma {:induction false} PassIsARun(n: nat, run: seq<Label>, s: State, ev: seq<Revents>, chunks: seq<Reading>, m: nat)
    requires Exec(n, run) == Some(s) && ValidTubes(n, s.t) && Enabled(n, s, Poll(ev))
    requires Chunked(n, s.t, ev, chunks) && m <= 2 * n
    ensures Exec(n, WithPass(run, ev, chunks, m))
            == Some(State(VisitAll(n, s.t, ev, chunks, m), Passing(m, ev)))
  {
    if m == 0 {
      Extend(n, run, s, Poll(ev));
    } else {
      var mid, l := State(VisitAll(n, s.t, ev, chunks, m - 1), Passing(m - 1, ev)), Handle(chunks[m - 1]);
      PassIsARun(n, run, s, ev, chunks, m - 1);
      PassStep(n, s.t, ev, chunks, m);
      Extend(n, WithPass(run, ev, chunks, m - 1), mid, l);
      assert WithPass(run, ev, chunks, m) == WithPass(run, ev, chunks, m - 1) + [l];
    }
  }

  /** What a turn adds to the launcher's output. */
  function TurnShows(tube: Tube, ev: Revents, r: Reading, behind: Bytes): Bytes
    requires ev.pollin ==> Readable(tube, r.taken)
  {
    if ev.pollin then Shown(tube.buffered[..r.taken], r.slipped, behind) else []
  }

  /** A turn at tube i adds to what the run has printed of it just what the turn shows. */
  lemma TurnPrints(n: nat, run: seq<Label>, s: State, l: Label, i: nat, mem: nat -> Bytes)
    requires Exec(n, run) == Some(s) && ValidTubes(n, s.t) && Enabled(n, s, l) && i < 2 * n
    ensures Exec(n, run + [l]).Some?
    ensures Printed(n, run + [l], i, mem)
            == Printed(n, run, i, mem)
               + if l.Handle? && s.phase.next == i
                 then TurnShows(s.t.tubes[i], s.phase.ev[i], l.r, mem(|run|)) else []
  {
    assert (run + [l])[..|run|] == run;
  }

  // ---------------------------------------------------------------- the loop ends

  /** Bytes still to read and tubes still to drop. */
  function Left(tubes: seq<Tube>): nat {
    if tubes == [] then 0
    else |tubes[0].buffered| + (if tubes[0].polled then 1 else 0) + Left(tubes[1..])
  }

  lemma {:induction false} LeftUpdate(tubes: seq<Tube>, i: nat, tube: Tube)
    requires i < |tubes|
    ensures Left(tubes[i := tube])
            == Left(tubes) - |tubes[i].buffered| - (if tubes[i].polled then 1 else 0)
               + |tube.buffered| + (if tube.polled then 1 else 0)
  {
    if i == 0 {
      assert tubes[i := tube][1..] == tubes[1..];
    } else {
      LeftUpdate(tubes[1..], i - 1, tube);
      assert tubes[i := tube][1..] == tubes[1..][i - 1 := tube];
    }
  }

  lemma {:induction false} SomethingLeft(tubes: seq<Tube>, i: nat)
    requires i < |tubes| && tubes[i].polled
    ensures Left(tubes) > 0
  {
    if i == 0 {
    } else {
      SomethingLeft(tubes[1..], i - 1);
    }
  }

  lemma VisitLeavesLess(n: nat, t: Tubes, i: nat, ev: Revents, k: nat)
    requires ValidTubes(n, t) && i < 2 * n && StillTrue(t.tubes[i], ev)
    requires ev.pollin ==> Readable(t.tubes[i], k)
    ensures Left(Visit(n, t, i, ev, k).tubes) <= Left(t.tubes)
    ensures ev.pollin || ev.pollhup ==> Left(Visit(n, t, i, ev, k).tubes) < Left(t.tubes)
  {
    LeftUpdate(t.tubes, i, Visit(n, t, i, ev, k).tubes[i]);
    assert Visit(n, t, i, ev, k).tubes == t.tubes[i := Visit(n, t, i, ev, k).tubes[i]];
  }

  lemma {:induction false} PassLeavesLess(n: nat, t: Tubes, ev: seq<Revents>, chunks: seq<Reading>, m: nat, i: nat)
    requires ValidTubes(n, t) && Chunked(n, t, ev, chunks) && m <= 2 * n
    requires forall j | 0 <= j < 2 * n :: StillTrue(t.tubes[j], ev[j])
    ensures Left(VisitAll(n, t, ev, chunks, m).tubes) <= Left(t.tubes)
    ensures i < m && (ev[i].pollin || ev[i].pollhup) ==> Left(VisitAll(n, t, ev, chunks, m).tubes) < Left(t.tubes)
  {
    if m == 0 {
    } else {
      PassLeavesLess(n, t, ev, chunks, m - 1, i);
      var before := VisitAll(n, t, ev, chunks, m - 1);
      assert before.tubes[m - 1] == t.tubes[m - 1];
      VisitLeavesLess(n, before, m - 1, ev[m - 1], chunks[m - 1].taken);
    }
  }

  /** The processes have all ended. */
  predicate AllClosed(t: Tubes) {
    forall i | 0 <= i < |t.tubes| :: !t.tubes[i].open
  }

  /** A tube still polled has something to report once the processes have ended. */
  lemma SomethingReported(n: nat, s: State, ev: seq<Revents>) returns (i: nat)
    requires ValidTubes(n, s.t) && Good(n, s) && AllClosed(s.t) && s.t.live != 0 && Reported(s.t.tubes, ev)
    ensures i < 2 * n && (ev[i].pollin || ev[i].pollhup)
  {
    NoneLiveIff(s.t.tubes, n);
    i :| i < 2 * n && s.t.tubes[i].polled;
    assert ev[i] == Report(s.t.tubes[i]);
  }

  /** Every pass, whatever poll reports and however much each read takes, leaves fewer bytes to
      read or tubes to drop. */
  lemma EveryPassLeavesLess(n: nat, run: seq<Label>, s: State, ev: seq<Revents>, chunks: seq<Reading>)
    requires Exec(n, run) == Some(s) && ValidTubes(n, s.t) && s.phase.Polling? && AllClosed(s.t)
    requires Reported(s.t.tubes, ev) && Chunked(n, s.t, ev, chunks)
    ensures Exec(n, WithPass(run, ev, chunks, 2 * n)).Some?
    ensures Left(Exec(n, WithPass(run, ev, chunks, 2 * n)).value.t.tubes) < Left(s.t.tubes)
  {
    GoodInRuns(n, run);
    GoodStep(n, s, Poll(ev));
    var i := SomethingReported(n, s, ev);
    assert forall j: nat | j < 2 * n :: StillTrue(Next(n, s, Poll(ev)).t.tubes[j], ev[j]);
    PassIsARun(n, run, s, ev, chunks, 2 * n);
    PassLeavesLess(n, s.t, ev, chunks, 2 * n, i);
  }

  /** The pass still has a tube to come with something reported. */
  predicate EventAhead(s: State) {
    && s.phase.Passing?
    && exists i | 0 <= i < |s.phase.ev| :: s.phase.next <= i && (s.phase.ev[i].pollin || s.phase.ev[i].pollhup)
  }

  /** How many passes can still end. */
  function PassesLeft(s: State): nat {
    match s.phase
    case Polling => Left(s.t.tubes)
    case Passing(_, _) => Left(s.t.tubes) + if EventAhead(s) then 0 else 1
    case Exited => 0
  }

  /** What is left of the round from one poll to the next. */
  function RoundLeft(n: nat, s: State): nat {
    match s.phase
    case Polling => 2 * n + 2
    case Passing(next, _) => if next <= 2 * n then 2 * n - next + 1 else 0
    case Exited => 0
  }

  lemma HandleLowers(n: nat, s: State, r: Reading)
    requires ValidTubes(n, s.t) && Enabled(n, s, Handle(r)) && Good(n, s) && AllClosed(s.t)
    ensures PassesLeft(Next(n, s, Handle(r))) <= PassesLeft(s)
  {
    var i, ev := s.phase.next, s.phase.ev;
    var s' := Next(n, s, Handle(r));
    VisitLeavesLess(n, s.t, i, ev[i], r.taken);
    if EventAhead(s) && !ev[i].pollin && !ev[i].pollhup {
      var j :| 0 <= j < |ev| && i <= j && (ev[j].pollin || ev[j].pollhup);
      assert s'.phase.next <= j;
    }
  }

  /** Once the processes have ended, every step of the loop brings it closer to its end. */
  lemma LoopStepLowers(n: nat, s: State, l: Label)
    requires ValidTubes(n, s.t) && Enabled(n, s, l) && Good(n, s) && AllClosed(s.t)
    ensures var s' := Next(n, s, l);
            && AllClosed(s'.t)
            && PassesLeft(s') + (if l.EndPass? then 1 else 0) <= PassesLeft(s)
            && (!l.EndPass? ==> RoundLeft(n, s') < RoundLeft(n, s))
  {
    match l
    case Write(i, _) => assert false;
    case Close(i) => assert false;
    case Poll(ev) =>
      var i := SomethingReported(n, s, ev);
      assert EventAhead(Next(n, s, l));
    case Handle(r) =>
      HandleLowers(n, s, r);
    case EndPass =>
      assert !EventAhead(s);
  }

  function PassesEnded(run: seq<Label>): nat {
    if run == [] then 0
    else PassesEnded(run[..|run| - 1]) + if run[|run| - 1].EndPass? then 1 else 0
  }

  /** A bound on all that can still happen: so many rounds of at most 2n + 2 steps. */
  function StepsLeft(n: nat, s: State): nat {
    PassesLeft(s) * (2 * n + 2) + RoundLeft(n, s)
  }

  lemma RoundLowers(n: nat, p: nat, p': nat, r: nat, r': nat, ended: bool)
    requires p' + (if ended then 1 else 0) <= p && r' <= 2 * n + 2
    requires if ended then r > 0 else r' < r
    ensures p' * (2 * n + 2) + r' < p * (2 * n + 2) + r
  {
    var w := 2 * n + 2;
    var d := p - p';
    assert p * w == p' * w + d * w;
    if d > 0 && ended {
      assert d * w == w + (d - 1) * w;
      assert (d - 1) * w >= 0;
    }
    assert d * w >= 0;
  }

  /** Once all processes have ended, whatever the poll reports and however much the reads take:
      no continuation is longer than `StepsLeft`, and none ends more passes than there were
      bytes to read and tubes to drop, and one. */
  lemma {:induction false} LoopIsBounded(n: nat, run: seq<Label>, more: seq<Label>)
    requires Exec(n, run).Some? && Exec(n, run + more).Some? && AllClosed(Exec(n, run).value.t)
    ensures AllClosed(Exec(n, run + more).value.t)
    ensures |more| + StepsLeft(n, Exec(n, run + more).value) <= StepsLeft(n, Exec(n, run).value)
    ensures PassesEnded(more) + PassesLeft(Exec(n, run + more).value) <= PassesLeft(Exec(n, run).value)
    ensures PassesEnded(more) <= Left(Exec(n, run).value.t.tubes) + 1
  {
    if more == [] {
      assert run + more == run;
    } else {
      var most, l := more[..|more| - 1], more[|more| - 1];
      assert (run + more)[..|run + more| - 1] == run + most;
      LoopIsBounded(n, run, most);
      var s, s' := Exec(n, run + most).value, Exec(n, run + more).value;
      GoodInRuns(n, run + most);
      LoopStepLowers(n, s, l);
      RoundLowers(n, PassesLeft(s), PassesLeft(s'), RoundLeft(n, s), RoundLeft(n, s'), l.EndPass?);
    }
  }

  /** Until the loop has exited it can always make a step; so every way of going on, carried far
      enough, is an exit. */
  lemma LoopGoesOn(n: nat, run: seq<Label>) returns (l: Label)
    requires Exec(n, run).Some? && !Exec(n, run).value.phase.Exited?
    ensures Exec(n, run + [l]).Some? && !l.Write? && !l.Close?
  {
    var s := Exec(n, run).value;
    GoodInRuns(n, run);
    match s.phase {
      case Polling =>
        l := Poll(seq(2 * n, i requires 0 <= i < 2 * n => Report(s.t.tubes[i])));
      case Passing(next, ev) =>
        if next == 2 * n {
          l := EndPass;
        } else {
          var len := |s.t.tubes[next].buffered|;
          assert StillTrue(s.t.tubes[next], ev[next]);
          l := Handle(Reading(if len <= BUFFER_LENGTH then len else BUFFER_LENGTH, 0));
        }
    }
    Extend(n, run, s, l);
  }

  /** Nothing but the loop's own order hinders a step: a process can write and close just while its
      end is open, poll reports just what there is, a read takes any number of bytes from one to what
      there is or 512 and may be interrupted however often, and a pass ends behind its last tube. */
  lemma StepsPossible(n: nat, run: seq<Label>, l: Label)
    requires Exec(n, run).Some?
    ensures var s := Exec(n, run).value;
            Exec(n, run + [l]).Some? <==>
              match l
              case Write(i, _) => i < 2 * n && s.t.tubes[i].open
              case Close(i) => i < 2 * n && s.t.tubes[i].open
              case Poll(ev) =>
                && s.phase.Polling? && |ev| == 2 * n
                && (forall i | 0 <= i < 2 * n :: ev[i].pollin <==> s.t.tubes[i].polled && s.t.tubes[i].buffered != [])
                && (forall i | 0 <= i < 2 * n :: ev[i].pollhup <==> s.t.tubes[i].polled && !s.t.tubes[i].open)
              case Handle(r) =>
                && s.phase.Passing? && s.phase.next < 2 * n <= |s.phase.ev|
                && (s.phase.ev[s.phase.next].pollin ==>
                      0 < r.taken <= |s.t.tubes[s.phase.next].buffered| && r.taken <= 512)
              case EndPass => s.phase.Passing? && s.phase.next >= 2 * n
  {
    var s := Exec(n, run).value;
    GoodInRuns(n, run);
    assert (run + [l])[..|run|] == run;
    if l.Poll? && |l.ev| == 2 * n {
      assert forall i | 0 <= i < 2 * n :: l.ev[i] == Revents(l.ev[i].pollin, l.ev[i].pollhup);
    }
  }

  /** In particular the loop can be carried to its exit. */
  lemma {:induction false} LoopEnds(n: nat, run: seq<Label>) returns (more: seq<Label>)
    requires Exec(n, run).Some? && AllClosed(Exec(n, run).value.t)
    ensures Exec(n, run + more).Some? && Exec(n, run + more).value.phase.Exited?
    decreases StepsLeft(n, Exec(n, run).value)
  {
    if Exec(n, run).value.phase.Exited? {
      more := [];
      assert run + more == run;
    } else {
      var l := LoopGoesOn(n, run);
      LoopIsBounded(n, run, [l]);
      var rest := LoopEnds(n, run + [l]);
      more := [l] + rest;
      Associative(run, [l], rest);
    }
  }

  // ---------------------------------------------------------------- the program

  class Launcher {
    const n: nat                    // num_procs
    const tubes: array<Tube>        // poll_tubes and what hangs on the descriptors
    const printed: array<Bytes>     // what it has printed of each tube
    var live: int                   // *num_procs_creat

    ghost predicate Valid()
      reads this
    {
      tubes.Length == printed.Length == 2 * n && tubes as object != printed
    }

    ghost function View(): Tubes
      reads this, tubes
    {
      Tubes(tubes[..], live)
    }

    constructor (n: nat)
      ensures Valid() && this.n == n && fresh(tubes) && fresh(printed)
      ensures View() == Init(n).t && forall i | 0 <= i < 2 * n :: printed[i] == []
    {
      this.n := n;
      tubes := new Tube[2 * n](_ => Tube(false, true, [], []));
      printed := new Bytes[2 * n](_ => []);
      live := n;
      new;
      for i := 0 to n
        invariant forall j | 0 <= j < 2 * i :: tubes[j] == Tube(true, true, [], [])
        invariant forall j | 2 * i <= j < 2 * n :: tubes[j] == Tube(false, true, [], [])
        invariant live == n && forall j | 0 <= j < 2 * n :: printed[j] == []
      {
        tubes[2 * i] := tubes[2 * i].(polled := true);
        tubes[2 * i + 1] := tubes[2 * i + 1].(polled := true);
      }
      assert tubes[..] == Init(n).t.tubes;
    }

    /** What the buffer holds after a read. Every interrupted call adds its -1 to the cursor, and
        what lies in front of the buffer is lost to it. */
    method ReadPiece(piece: Bytes, slipped: nat) returns (buffer: array<Byte>)
      requires |piece| <= BUFFER_LENGTH
      ensures fresh(buffer) && buffer.Length == BUFFER_LENGTH
      ensures var text := InBuffer(piece, slipped);
              buffer[..] == text + seq(BUFFER_LENGTH - |text|, _ => NUL)
    {
      buffer := new Byte[BUFFER_LENGTH](_ => NUL);
      var cursor := 0;
      for call := 0 to slipped
        invariant cursor == -call && fresh(buffer) && buffer[..] == seq(BUFFER_LENGTH, _ => NUL)
      {
        cursor := cursor - 1;
      }
      Store(buffer, 0, if -cursor < |piece| then piece[-cursor..] else []);
    }

    /** Input on tube i: up to a buffer of it is read, and what of it is in the buffer printed. */
    method Relay(i: nat, r: Reading, behind: Bytes)
      requires Valid() && i < 2 * n && Readable(tubes[i], r.taken)
      modifies tubes, printed
      ensures View() == Visit(n, old(View()), i, Revents(true, false), r.taken)
      ensures printed[..] == old(printed[..])[i := old(printed[i])
                                                   + Shown(old(tubes[i]).buffered[..r.taken], r.slipped, behind)]
    {
      var tube := tubes[i];
      var piece := tube.buffered[..r.taken];
      var buffer := ReadPiece(piece, r.slipped);
      ghost var text := InBuffer(piece, r.slipped);
      Associative(text, seq(BUFFER_LENGTH - |text|, _ => NUL), behind);
      var shown := CString(buffer[..] + behind);
      assert shown == Shown(piece, r.slipped, behind);
      tubes[i] := tube.(buffered := tube.buffered[r.taken..], taken := tube.taken + piece);
      printed[i] := printed[i] + shown;
    }

    /** A hang-up on tube i: it is dropped, and with the second of a pair its process is too. */
    method HangUp(i: nat)
      requires Valid() && i < 2 * n
      modifies this`live, tubes
      ensures View() == Visit(n, old(View()), i, Revents(false, true), 0)
    {
      tubes[i] := tubes[i].(polled := false);
      if i % 2 == 1 {
        if !tubes[i - 1].polled {
          live := live - 1;
        }
      } else {
        if !tubes[i + 1].polled {
          live := live - 1;
        }
      }
    }

    /** The loop's turn at tube i. */
    method Turn(i: nat, ev: Revents, r: Reading, behind: Bytes)
      requires Valid() && i < 2 * n
      requires ev.pollin ==> Readable(tubes[i], r.taken)
      modifies this`live, tubes, printed
      ensures View() == Visit(n, old(View()), i, ev, r.taken)
      ensures printed[..] == old(printed[..])[i := old(printed[i]) + TurnShows(old(tubes[i]), ev, r, behind)]
    {
      assert printed[i] + [] == printed[i];
      if ev.pollin {
        Relay(i, r, behind);
      } else if ev.pollhup {
        HangUp(i);
      }
    }

    /** One pass of the loop over all tubes after poll returned `ev`. */
    method Pass(ev: seq<Revents>, chunks: seq<Reading>, behind: seq<Bytes>)
      requires Valid() && Chunked(n, View(), ev, chunks) && |behind| == 2 * n
      modifies this`live, tubes, printed
      ensures View() == VisitAll(n, old(View()), ev, chunks, 2 * n)
      ensures forall i | 0 <= i < 2 * n ::
                printed[i] == old(printed[i]) + TurnShows(old(tubes[i]), ev[i], chunks[i], behind[i])
    {
      ghost var start := View();
      for i := 0 to 2 * n
        invariant View() == VisitAll(n, start, ev, chunks, i)
        invariant forall j | 0 <= j < i ::
                    printed[j] == old(printed[j]) + TurnShows(start.tubes[j], ev[j], chunks[j], behind[j])
        invariant forall j | i <= j < 2 * n :: printed[j] == old(printed[j])
      {
        assert tubes[i] == View().tubes[i] == start.tubes[i];
        Turn(i, ev[i], chunks[i], behind[i]);
      }
    }
  }
}
