/** Matching completions to requests (bridge_qemu.c): wrapping tags, completions of
    fire-and-forget writes nobody waited for, and a bounded drain. */
module Completions {
  import Modular

  const DRAIN_GUARD: nat := 256

  /** A completion, as received.  `of` is the number of the send it answers (history). */
  datatype Cpl = Cpl(tag: nat, of: nat)

  /** The tag of the n-th send when tags wrap at `span` = tag_mask + 1. */
  function TagOf(n: nat, span: nat): nat
    requires span > 0
  {
    n % span
  }

  /** What the wait returns when the completions of `due` arrive in this order: the first one
      among the next `guard` that carries `tag`. */
  function FirstMatch(due: seq<nat>, tag: nat, span: nat, guard: nat): (r: seq<nat>)
    requires span > 0
    ensures |r| <= 1
    decreases guard
  {
    if guard == 0 || due == [] then []
    else if TagOf(due[0], span) == tag then [due[0]]
    else FirstMatch(due[1..], tag, span, guard - 1)
  }

  /** How many completions the wait consumes. */
  function Reaped(due: seq<nat>, tag: nat, span: nat, guard: nat): (k: nat)
    requires span > 0
    ensures k <= |due| && k <= guard
    decreases guard
  {
    if guard == 0 || due == [] then 0
    else if TagOf(due[0], span) == tag then 1
    else 1 + Reaped(due[1..], tag, span, guard - 1)
  }

  /** What taking one more completion leaves to be found and consumed. */
  lemma OneReaped(all: seq<nat>, k: nat, tag: nat, span: nat, guard: nat)
    requires span > 0 && k < |all|
    ensures all[k..][0] == all[k] && all[k..][1..] == all[k + 1..]
    ensures FirstMatch(all[k..], tag, span, guard + 1)
      == if TagOf(all[k], span) == tag then [all[k]] else FirstMatch(all[k + 1..], tag, span, guard)
    ensures Reaped(all[k..], tag, span, guard + 1)
      == if TagOf(all[k], span) == tag then 1 else 1 + Reaped(all[k + 1..], tag, span, guard)
  {
  }

  class Bridge {
    const tagMask: nat
    var nextTag: nat
    /** Sends so far, and the sends whose completion has not been received, oldest first:
        the endpoint answers non-posted requests in order. */
    var sends: nat
    var due: seq<nat>

    ghost predicate Valid()
      reads this
    {
      && nextTag == TagOf(sends, tagMask + 1)
      && Unreaped(due, sends)
    }

    constructor (tagMask: nat)
      ensures Valid() && due == [] && sends == 0 && this.tagMask == tagMask
    {
      this.tagMask := tagMask;
      nextTag, sends, due := 0, 0, [];
    }

    /** bridge_send_tlp.  `tagMask` is one less than a power of two, so masking with it is the
        remainder. */
    method SendTlp(posted: bool) returns (tag: nat)
      requires Valid()
      modifies this
      ensures Valid() && sends == old(sends) + 1 && tag == TagOf(old(sends), tagMask + 1)
      ensures due == if posted then old(due) else old(due) + [old(sends)]
    {
      Modular.Successor(sends, tagMask + 1);
      Modular.Remainder(nextTag, 0, nextTag, tagMask + 1);
      tag := nextTag % (tagMask + 1);
      nextTag := (nextTag + 1) % (tagMask + 1);
      if !posted { due := due + [sends]; }
      sends := sends + 1;
    }

    /** bridge_wait_completion; `broke` tells that the transport failed during the wait. */
    method WaitCompletion(tag: nat) returns (rc: int, cpl: Cpl, ghost broke: bool)
      requires Valid()
      modifies this`due
      ensures Valid()
      ensures !broke ==>
        var r := FirstMatch(old(due), tag, tagMask + 1, DRAIN_GUARD);
        && due == old(due)[Reaped(old(due), tag, tagMask + 1, DRAIN_GUARD)..]
        && (rc == 0 <==> r != [])
        && (rc == 0 ==> cpl == Cpl(tag, r[0]))
      ensures broke ==> rc == -1 && exists k :: 0 <= k <= |old(due)| && due == old(due)[k..]
    {
      rc, cpl, broke := Drain(tag, DRAIN_GUARD);
    }

    /** The loop, for at most `guard` completions. */
    method Drain(tag: nat, guard: nat) returns (rc: int, cpl: Cpl, ghost broke: bool)
      requires Valid()
      modifies this`due
      ensures Valid()
      ensures !broke ==>
        var r := FirstMatch(old(due), tag, tagMask + 1, guard);
        && due == old(due)[Reaped(old(due), tag, tagMask + 1, guard)..]
        && (rc == 0 <==> r != [])
        && (rc == 0 ==> cpl == Cpl(tag, r[0]))
      ensures broke ==> rc == -1 && exists k :: 0 <= k <= |old(due)| && due == old(due)[k..]
    {
      broke, cpl := false, Cpl(0, 0);
      ghost var all, span := due, tagMask + 1;
      var drainGuard := guard;
      ghost var k := 0;
      while drainGuard > 0
        invariant 0 <= k <= |all| && due == all[k..] && 0 <= drainGuard
        invariant FirstMatch(due, tag, span, drainGuard) == FirstMatch(all, tag, span, guard)
        invariant k + Reaped(due, tag, span, drainGuard) == Reaped(all, tag, span, guard)
      {
        drainGuard := drainGuard - 1;
        var got;
        got, cpl := RecvCpl();
        if !got { return -1, cpl, true; }
        OneReaped(all, k, tag, span, drainGuard);
        k := k + 1;
        if cpl.tag == tag { return 0, cpl, false; }
      }
      return -1, cpl, false;
    }

    /** One completion, unless the transport fails. */
    method RecvCpl() returns (got: bool, cpl: Cpl)
      modifies this`due
      ensures got ==> old(due) != [] && due == old(due)[1..] && cpl == Cpl(TagOf(old(due)[0], tagMask + 1), old(due)[0])
      ensures !got ==> due == old(due)
    {
      var fails: bool := *;
      got, cpl := !fails && due != [], Cpl(0, 0);
      if got {
        cpl := Cpl(due[0] % (tagMask + 1), due[0]);
        due := due[1..];
      }
    }

    /** bridge_send_tlp_and_wait, for a request the endpoint completes.  It returns the
        completion of this very request exactly when fewer than 256 older completions are
        unread and none of them is a whole number of tag spans old. */
    method SendTlpAndWait() returns (rc: int, cpl: Cpl, ghost broke: bool)
      requires Valid()
      modifies this
      ensures Valid() && sends == old(sends) + 1
      ensures !broke ==> (rc == 0 && cpl.of == old(sends) <==> WaitSafe(old(due), old(sends), tagMask + 1))
      ensures !broke && rc == 0 && cpl.of == old(sends) ==> due == []
      ensures !broke && rc == -1 ==> |old(due)| >= 256
    {
      var tag := SendTlp(false);
      ghost var all := due;
      OwnCompletion(old(due), old(sends), tagMask + 1, DRAIN_GUARD);
      rc, cpl, broke := WaitCompletion(tag);
    }
  }

  ghost predicate Unreaped(due: seq<nat>, sends: nat) {
    && (forall i :: 0 <= i < |due| ==> due[i] < sends)
    && (forall i, j :: 0 <= i < j < |due| ==> due[i] < due[j])
  }

  /** Fewer than 256 unread completions, none carrying the tag of send `n`. */
  ghost predicate WaitSafe(due: seq<nat>, n: nat, span: nat)
    requires span > 0
  {
    |due| < 256 && forall i :: 0 <= i < |due| ==> TagOf(due[i], span) != TagOf(n, span)
  }

  /** Waiting behind `stale`: own completion first exactly when no stale one matches and the
      guard reaches past them. */
  lemma {:induction false} OwnCompletion(stale: seq<nat>, n: nat, span: nat, guard: nat)
    requires span > 0 && forall i :: 0 <= i < |stale| ==> stale[i] < n
    ensures var r := FirstMatch(stale + [n], TagOf(n, span), span, guard);
      var safe := |stale| < guard && forall i :: 0 <= i < |stale| ==> TagOf(stale[i], span) != TagOf(n, span);
      && (r == [n] <==> safe)
      && (safe ==> Reaped(stale + [n], TagOf(n, span), span, guard) == |stale| + 1)
      && (r == [] ==> |stale| >= guard)
    decreases guard
  {
    if guard > 0 && stale != [] {
      assert (stale + [n])[1..] == stale[1..] + [n];
      if TagOf(stale[0], span) != TagOf(n, span) {
        OwnCompletion(stale[1..], n, span, guard - 1);
        assert forall i :: 1 <= i < |stale| ==> stale[i] == stale[1..][i - 1];
      }
    } else if stale == [] {
      assert stale + [n] == [n];
    }
  }

  // ---------- whole runs ----------

  /** A caller's action: fire a posted write, fire a non-posted one, or send and wait. */
  datatype Call = FirePosted | FireNonPosted | SendAndWait

  /** `sends` and `due` after a call whose transport does not fail. */
  function After(sends: nat, due: seq<nat>, c: Call, span: nat): (r: (nat, seq<nat>))
    requires span > 0
  {
    match c
    case FirePosted => (sends + 1, due)
    case FireNonPosted => (sends + 1, due + [sends])
    case SendAndWait =>
      var all := due + [sends];
      (sends + 1, all[Reaped(all, TagOf(sends, span), span, DRAIN_GUARD)..])
  }

  /** Every wait of the run returns its own completion. */
  ghost predicate AllOwn(sends: nat, due: seq<nat>, run: seq<Call>, span: nat)
    requires span > 0
    decreases |run|
  {
    run != [] ==>
      && (run[0].SendAndWait? ==> FirstMatch(due + [sends], TagOf(sends, span), span, DRAIN_GUARD) == [sends])
      && var (sends', due') := After(sends, due, run[0], span); AllOwn(sends', due', run[1..], span)
  }

  /** At most `limit` calls in a row that do not wait, counting from `already`. */
  predicate Paced(run: seq<Call>, already: nat, limit: nat) {
    run != [] ==>
      if run[0].SendAndWait? then Paced(run[1..], 0, limit) else already < limit && Paced(run[1..], already + 1, limit)
  }

  /** However long the run and however often the tags wrap: if never more than 255 (and fewer
      than tag_mask + 1) fire-and-forget sends separate two waits, every wait returns the
      completion of its own request. */
  lemma {:induction false} PacedRunsMatch(sends: nat, due: seq<nat>, run: seq<Call>, already: nat, span: nat)
    requires span > 0 && Paced(run, already, if span <= DRAIN_GUARD then span - 1 else DRAIN_GUARD - 1)
    requires already <= (if span <= DRAIN_GUARD then span - 1 else DRAIN_GUARD - 1)
    requires Unreaped(due, sends) && |due| <= already && forall i :: 0 <= i < |due| ==> sends - due[i] <= already
    ensures AllOwn(sends, due, run, span)
    decreases |run|
  {
    if run != [] {
      var (sends', due') := After(sends, due, run[0], span);
      if run[0].SendAndWait? {
        forall i | 0 <= i < |due| ensures TagOf(due[i], span) != TagOf(sends, span) {
          Modular.Distinct(due[i], sends, span);
        }
        OwnCompletion(due, sends, span, DRAIN_GUARD);
        assert due' == [];
        PacedRunsMatch(sends', due', run[1..], 0, span);
      } else {
        PacedRunsMatch(sends', due', run[1..], already + 1, span);
      }
    }
  }

  // ---------- the pace is needed ----------

  function PostedThenWait(n: nat): seq<Call> {
    if n == 0 then [SendAndWait] else [FirePosted] + PostedThenWait(n - 1)
  }

  function NonPostedThenWait(n: nat): seq<Call> {
    if n == 0 then [SendAndWait] else [FireNonPosted] + NonPostedThenWait(n - 1)
  }

  /** Posted sends in between leave an unread completion where it is until its tag comes round. */
  lemma {:induction false} TagComesRound(sends: nat, n: nat, of: nat, span: nat)
    requires span > 0 && sends + n == of + span
    ensures !AllOwn(sends, [of], PostedThenWait(n), span)
    decreases n
  {
    if n > 0 {
      TagComesRound(sends + 1, n - 1, of, span);
      assert PostedThenWait(n)[1..] == PostedThenWait(n - 1);
    } else {
      Modular.SameRemainder(of, sends, span);
      Modular.Remainder(span, 1, 0, span);
      assert ([of] + [sends])[0] == of;
    }
  }

  lemma {:induction false} PostedPaced(n: nat, already: nat, limit: nat)
    requires already + n <= limit
    ensures Paced(PostedThenWait(n), already, limit)
    decreases n
  {
    if n > 0 {
      PostedPaced(n - 1, already + 1, limit);
      assert PostedThenWait(n)[1..] == PostedThenWait(n - 1);
    } else {
      assert [SendAndWait][1..] == [];
    }
  }

  /** Sends nobody waits for pile up until the guard is used up on them. */
  lemma {:induction false} GuardUsedUp(due: seq<nat>, n: nat, span: nat)
    requires span > 0 && |due| + n == DRAIN_GUARD && forall i :: 0 <= i < |due| ==> due[i] == i
    ensures !AllOwn(|due|, due, NonPostedThenWait(n), span)
    decreases n
  {
    if n > 0 {
      GuardUsedUp(due + [|due|], n - 1, span);
      assert NonPostedThenWait(n)[1..] == NonPostedThenWait(n - 1);
    } else {
      OwnCompletion(due, |due|, span, DRAIN_GUARD);
    }
  }

  lemma {:induction false} NonPostedPaced(n: nat, already: nat, limit: nat)
    requires already + n <= limit
    ensures Paced(NonPostedThenWait(n), already, limit)
    decreases n
  {
    if n > 0 {
      NonPostedPaced(n - 1, already + 1, limit);
      assert NonPostedThenWait(n)[1..] == NonPostedThenWait(n - 1);
    } else {
      assert [SendAndWait][1..] == [];
    }
  }

  /** One send more between two waits is too much, for every number of tags: a run from the start
      in which a wait does not return its own completion. */
  lemma PaceIsTight(span: nat) returns (run: seq<Call>)
    requires span > 0
    ensures Paced(run, 0, if span <= DRAIN_GUARD then span else DRAIN_GUARD) && !AllOwn(0, [], run, span)
  {
    if span <= DRAIN_GUARD {
      run := [FireNonPosted] + PostedThenWait(span - 1);
      assert run[1..] == PostedThenWait(span - 1);
      assert [] + [0] == [0];
      TagComesRound(1, span - 1, 0, span);
      PostedPaced(span - 1, 1, span);
    } else {
      run := NonPostedThenWait(DRAIN_GUARD);
      GuardUsedUp([], DRAIN_GUARD, span);
      NonPostedPaced(DRAIN_GUARD, 0, DRAIN_GUARD);
    }
  }

  /** With 5-bit tags: an unread completion 32 sends old is taken for the one waited for. */
  lemma WrongCompletion()
    ensures var run := [FireNonPosted] + PostedThenWait(31); |run| == 33 && !AllOwn(0, [], run, 32)
    ensures FirstMatch([0] + [32], TagOf(32, 32), 32, DRAIN_GUARD) == [0]
  {
    var run := [FireNonPosted] + PostedThenWait(31);
    assert run[1..] == PostedThenWait(31);
    assert [] + [0] == [0] && ([0] + [32])[0] == 0;
    TagComesRound(1, 31, 0, 32);
    ThenWaitLength(31);
  }

  lemma {:induction false} ThenWaitLength(n: nat)
    ensures |PostedThenWait(n)| == n + 1
  {
    if n > 0 { ThenWaitLength(n - 1); }
  }
}
