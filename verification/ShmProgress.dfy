/** Waiting calls of the shared-memory protocol are notified. */
module ShmProgress {
  import opened ShmProtocol
  import opened ShmInvariants
  import opened ShmTheorems

  /** Actions of the poller until it has answered all requests. */
  function Work(s: State): nat {
    4 * |s.dma.requests| + match s.poller
      case PDma => 0
      case PMsi => |s.msi.ring| + 1
      case PServe(_) => 3
      case PComplete(_) => 2
      case PAnnounce => 1
  }

  /** Rounds of the wait loop up to the next notification of a completion, if it follows what is on
      the socket. */
  function Rounds(notes: seq<Note>): nat {
    if notes == [] || notes[0] == DmaDone then 1 else 1 + Rounds(notes[1..])
  }

  /** More messages never make it fewer, and a notification leaves it as it is. */
  lemma {:induction false} RoundsMore(notes: seq<Note>, x: Note)
    ensures Rounds(notes) <= Rounds(notes + [x])
    ensures x == DmaDone ==> Rounds(notes + [x]) == Rounds(notes)
  {
    if notes == [] {
      assert notes + [x] == [x];
    } else {
      assert (notes + [x])[1..] == notes[1..] + [x];
      RoundsMore(notes[1..], x);
    }
  }

  ghost predicate PollerOnly(run: seq<Action>) {
    forall i :: 0 <= i < |run| ==> ByPoller(run[i])
  }

  /** The poller's next action. */
  function NextOf(s: State): Action {
    match s.poller
    case PDma => TakeRequest
    case PMsi => if s.msi.ring == [] then NextPhase else TakeMsi
    case PServe(_) => Serve
    case PComplete(_) => Complete
    case PAnnounce => AnnounceDma
  }

  /** It keeps going as long as a call waits and no notification is on its way. */
  lemma PollerGoesOn(z: Sizes, s: State)
    requires Owed(s.dma, s.poller, s.vcs, Count(s.notes, DmaDone)) && Due(s.dma, s.poller, s.vcs, Count(s.notes, DmaDone))
    requires s.vcs.VWait? && s.dma.dropped == 0 && |s.dma.owed| <= z.dmaCpl && Count(s.notes, DmaDone) == 0
    ensures Enabled(s, NextOf(s)) && ByPoller(NextOf(s)) && Work(Do(z, s, NextOf(s))) == Work(s) - 1
    ensures Kept(s, Do(z, s, NextOf(s)))
  {
    RoundsMore(s.notes, DmaDone);
  }

  /** What the poller leaves as it is. */
  ghost predicate Kept(s: State, s': State) {
    && s'.vcs == s.vcs && s'.dma.owed == s.dma.owed && s'.dma.dropped == s.dma.dropped && s'.dma.finished == s.dma.finished
    && Rounds(s'.notes) == Rounds(s.notes) && s'.down == s.down
  }

  /** While a call waits, and the completion ring has room for what is owed, the poller alone
      sends a notification, in at most Work(s) actions: whatever polls threw away before, the
      announcement of the call's own completion is still to come. */
  lemma {:induction false} NotificationComes(z: Sizes, s: State) returns (run: seq<Action>)
    requires Inv(s) && s.vcs.VWait? && s.dma.dropped == 0 && |s.dma.owed| <= z.dmaCpl
    ensures Legal(z, s, run) && PollerOnly(run) && |run| <= Work(s)
    ensures var s' := Exec(z, s, run);
      Inv(s') && Count(s'.notes, DmaDone) > 0 && Kept(s, s')
    decreases Work(s)
  {
    run := [];
    if Count(s.notes, DmaDone) == 0 {
      assert All(s);
      PollerGoesOn(z, s);
      Step(z, s, NextOf(s));
      var rest := NotificationComes(z, Do(z, s, NextOf(s)));
      run := [NextOf(s)] + rest;
      assert run[1..] == rest;
    }
  }

  ghost predicate WaitsOnly(run: seq<Action>) {
    forall i :: 0 <= i < |run| ==> run[i].WaitRound?
  }

  lemma RoundStep(z: Sizes, s: State)
    requires s.vcs.VWait? && Count(s.notes, DmaDone) > 0 && !s.down && s.vcs.i + Rounds(s.notes) <= DMA_WAIT_ROUNDS
    ensures s.notes != [] && Enabled(s, WaitRound)
    ensures var s' := Do(z, s, WaitRound);
      && s'.dma == s.dma && |s'.notes| == |s.notes| - 1 && !s'.down
      && if s.notes[0] == DmaDone then s'.vcs == VTake(s.vcs.op, s.vcs.i)
         else s'.vcs == VWait(s.vcs.op, s.vcs.i + 1) && Count(s'.notes, DmaDone) > 0 && Rounds(s'.notes) == Rounds(s.notes) - 1
  {
    CountFirst(s.notes, DmaDone);
  }

  /** The waiting call reaches it, if the rounds left suffice. */
  lemma {:induction false} RoundsReach(z: Sizes, s: State) returns (run: seq<Action>)
    requires Inv(s) && s.vcs.VWait? && Count(s.notes, DmaDone) > 0 && !s.down && s.vcs.i + Rounds(s.notes) <= DMA_WAIT_ROUNDS
    ensures Legal(z, s, run) && WaitsOnly(run)
    ensures var s' := Exec(z, s, run); Inv(s') && s'.vcs.VTake? && s'.vcs.op == s.vcs.op && s'.dma == s.dma
    decreases |s.notes|
  {
    RoundStep(z, s);
    Step(z, s, WaitRound);
    var s1 := Do(z, s, WaitRound);
    var rest := [];
    if s.notes[0] != DmaDone { rest := RoundsReach(z, s1); }
    run := [WaitRound] + rest;
    assert run[1..] == rest;
  }

  lemma {:induction false} Joined(z: Sizes, s: State, a: seq<Action>, b: seq<Action>)
    requires Legal(z, s, a) && Legal(z, Exec(z, s, a), b)
    ensures Legal(z, s, a + b) && Exec(z, s, a + b) == Exec(z, Exec(z, s, a), b)
    decreases |a|
  {
    if a == [] {
      assert a + b == b;
    } else {
      assert (a + b)[1..] == a[1..] + b;
      Joined(z, Do(z, s, a[0]), a[1..], b);
    }
  }

  /** If the rounds left suffice to get past what is on the socket, a waiting call can return
      without giving up, and as long as tags do not repeat it returns 0, its data moved, exactly if
      no call has given up before. */
  lemma CallReturns(z: Sizes, s: State) returns (run: seq<Action>)
    requires Inv(s) && s.vcs.VWait? && s.dma.dropped == 0 && |s.dma.owed| <= z.dmaCpl
    requires !s.down && s.vcs.i + Rounds(s.notes) <= DMA_WAIT_ROUNDS
    ensures Legal(z, s, run) && GaveUp(run) == 0
    ensures var s' := Exec(z, s, run);
      && s'.vcs == VIdle && (Debt(s) == 0 ==> s'.dma.finished == s.dma.finished + [s.vcs.op] && Outcome(s'.data, s.vcs.op))
      && (TagUnique(s) && Debt(s) != 0 ==> s'.dma.finished == s.dma.finished)
  {
    OnlyOwed(s);
    var first := NotificationComes(z, s);
    var s1 := Exec(z, s, first);
    var rounds := RoundsReach(z, s1);
    var s2 := Exec(z, s1, rounds);
    LastStep(z, s2);
    Joined(z, s, first, rounds);
    var s3 := Do(z, s2, TakeDmaCpl);
    assert Legal(z, s3, []) && Legal(z, s2, [TakeDmaCpl]);
    Joined(z, s, first + rounds, [TakeDmaCpl]);
    run := first + rounds + [TakeDmaCpl];
    NoneGaveUp(run);
  }

  lemma OnlyOwed(s: State)
    requires Inv(s) && s.vcs.VWait? && s.dma.dropped == 0
    ensures s.dma.owed == [s.vcs.op] <==> Debt(s) == 0
  {
    assert All(s);
  }

  lemma LastStep(z: Sizes, s: State)
    requires Inv(s) && s.vcs.VTake?
    ensures Enabled(s, TakeDmaCpl) && s.dma.completions != []
    ensures var s' := Do(z, s, TakeDmaCpl);
      && s'.vcs == VIdle && (s.dma.owed == [s.vcs.op] ==> s'.dma.finished == s.dma.finished + [s.vcs.op] && Outcome(s'.data, s.vcs.op))
      && (TagUnique(s) && s.dma.owed != [s.vcs.op] ==> s'.dma.finished == s.dma.finished)
  {
    assert All(s);
    if s.dma.owed == [s.vcs.op] { assert s.dma.owed[0] == s.dma.completions[0]; }
    if TagUnique(s) { SuccessExactly(s); }
  }

  lemma {:induction false} NoneGaveUp(run: seq<Action>)
    requires forall i :: 0 <= i < |run| ==> !run[i].GiveUp?
    ensures GaveUp(run) == 0
  {
    if run != [] { NoneGaveUp(run[1..]); }
  }

  // ---------- and when not ----------

  /** The call for `op` is about to take a completion. */
  ghost predicate Takes(z: Sizes, s: State, run: seq<Action>, op: Op) {
    Legal(z, s, run) && Exec(z, s, run).vcs.VTake? && Exec(z, s, run).vcs.op == op
  }

  ghost predicate CanTake(z: Sizes, s: State, op: Op) {
    exists run: seq<Action> :: Takes(z, s, run, op)
  }

  /** It never will: it is over, or the rounds left do not suffice. */
  ghost predicate TooLate(s: State, op: Op) {
    && op.n < s.dma.started
    && (Waiting(s.vcs) && s.vcs.op == op ==> s.vcs.VWait? && (s.down || s.vcs.i + Rounds(s.notes) > DMA_WAIT_ROUNDS))
  }

  lemma LateVcpu(z: Sizes, s: State, a: Action, op: Op)
    requires TooLate(s, op) && Enabled(s, a) && ByVcpu(a)
    ensures TooLate(DoVcpu(z, s, a), op)
  {
    RoundsMore(s.notes, TlpReady);
    RoundsMore(s.notes, Other);
  }

  lemma LatePoller(z: Sizes, s: State, a: Action, op: Op)
    requires TooLate(s, op) && Enabled(s, a) && ByPoller(a)
    ensures TooLate(DoPoller(z, s, a), op)
  {
    RoundsMore(s.notes, DmaDone);
  }

  lemma LateVcs(z: Sizes, s: State, a: Action, op: Op)
    requires TooLate(s, op) && Enabled(s, a)
    ensures TooLate(DoVcs(z, s, a), op)
  {
  }

  lemma {:induction false} StaysLate(z: Sizes, s: State, run: seq<Action>, op: Op)
    requires TooLate(s, op) && Legal(z, s, run)
    ensures TooLate(Exec(z, s, run), op)
    decreases |run|
  {
    if run != [] {
      if ByVcpu(run[0]) { LateVcpu(z, s, run[0], op); }
      else if ByPoller(run[0]) { LatePoller(z, s, run[0], op); }
      else { LateVcs(z, s, run[0], op); }
      StaysLate(z, Do(z, s, run[0]), run[1..], op);
    }
  }

  lemma NeverTakes(z: Sizes, s: State)
    requires Inv(s) && s.vcs.VWait? && (s.down || s.vcs.i + Rounds(s.notes) > DMA_WAIT_ROUNDS)
    ensures !CanTake(z, s, s.vcs.op)
  {
    assert All(s);
    forall run: seq<Action> ensures !Takes(z, s, run, s.vcs.op) {
      if Takes(z, s, run, s.vcs.op) { StaysLate(z, s, run, s.vcs.op); }
    }
  }

  /** A waiting call can take a completion exactly when the socket is alive and the rounds left
      suffice to get past the messages in front of the next notification; otherwise it gives up,
      in every run. */
  lemma CallCanReturn(z: Sizes, s: State)
    requires Inv(s) && s.vcs.VWait? && s.dma.dropped == 0 && |s.dma.owed| <= z.dmaCpl
    ensures CanTake(z, s, s.vcs.op) <==> !s.down && s.vcs.i + Rounds(s.notes) <= 1000
  {
    if !s.down && s.vcs.i + Rounds(s.notes) <= DMA_WAIT_ROUNDS {
      var run := Reaches(z, s);
    } else {
      NeverTakes(z, s);
    }
  }

  lemma Reaches(z: Sizes, s: State) returns (run: seq<Action>)
    requires Inv(s) && s.vcs.VWait? && s.dma.dropped == 0 && |s.dma.owed| <= z.dmaCpl
    requires !s.down && s.vcs.i + Rounds(s.notes) <= DMA_WAIT_ROUNDS
    ensures Takes(z, s, run, s.vcs.op)
  {
    var first := NotificationComes(z, s);
    var rounds := RoundsReach(z, Exec(z, s, first));
    Joined(z, s, first, rounds);
    run := first + rounds;
  }
}
