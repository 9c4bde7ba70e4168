/** Deferring interrupts from the poller thread to QEMU's main loop (cosim_msi_cb and
    cosim_msi_bh_cb; the PF variant stores a requester id beside each vector).  The callback
    fills a 256-entry ring whose indices never wrap and schedules a bottom half; one action is
    one access to shared memory.  QEMU clears a bottom half's flag before it runs it. */
module MsiQueue {
  import opened Subsequences
  import Modular

  const QUEUE_SIZE: nat := 256

  datatype Event = Event(rid: nat, vector: nat)

  /** Where the callback on the poller thread stands. */
  datatype Callback =
    | Idle
    | Tail(e: Event, tail: nat)        // tail loaded
    | Room(e: Event, tail: nat)        // the queue is not full
    | Half(e: Event, tail: nat)        // requester id stored
    | Stored(e: Event, tail: nat)      // vector stored
    | Published                        // tail stored, bottom half not yet scheduled

  /** Where the bottom half stands. */
  datatype Bottom =
    | Asleep
    | Test                             // about to compare head and tail
    | Read                             // the queue is not empty
    | ReadRid(rid: nat)
    | ReadBoth(e: Event)
    | Hold(e: Event)                   // head advanced, interrupt not yet delivered

  /** `accepted` and `handled` are history. */
  datatype Queue = Queue(
    rids: seq<nat>, vectors: seq<nat>, head: nat, tail: nat, scheduled: bool,
    cb: Callback, bh: Bottom,
    accepted: seq<Event>, handled: seq<Event>, dropped: nat)

  datatype Act =
    | Interrupt(e: Event) | CheckFull | StoreRid | StoreVector | StoreTail | Schedule
    | Wake | CheckEmpty | LoadRid | LoadVector | Advance | Deliver

  predicate Enabled(q: Queue, a: Act) {
    && |q.rids| == QUEUE_SIZE && |q.vectors| == QUEUE_SIZE
    && match a
       case Interrupt(_) => q.cb.Idle?
       case CheckFull => q.cb.Tail?
       case StoreRid => q.cb.Room?
       case StoreVector => q.cb.Half?
       case StoreTail => q.cb.Stored?
       case Schedule => q.cb.Published?
       case Wake => q.scheduled && q.bh.Asleep?
       case CheckEmpty => q.bh.Test?
       case LoadRid => q.bh.Read?
       case LoadVector => q.bh.ReadRid?
       case Advance => q.bh.ReadBoth?
       case Deliver => q.bh.Hold?
  }

  function Do(q: Queue, a: Act): Queue
    requires Enabled(q, a)
  {
    match a
    case Interrupt(e) => q.(cb := Tail(e, q.tail))
    case CheckFull =>
      if q.cb.tail - q.head >= QUEUE_SIZE then q.(cb := Idle, dropped := q.dropped + 1)
      else q.(cb := Room(q.cb.e, q.cb.tail))
    case StoreRid => q.(rids := q.rids[q.cb.tail % QUEUE_SIZE := q.cb.e.rid], cb := Half(q.cb.e, q.cb.tail))
    case StoreVector => q.(vectors := q.vectors[q.cb.tail % QUEUE_SIZE := q.cb.e.vector], cb := Stored(q.cb.e, q.cb.tail))
    case StoreTail => q.(tail := q.cb.tail + 1, cb := Published, accepted := q.accepted + [q.cb.e])
    case Schedule => q.(scheduled := true, cb := Idle)
    case Wake => q.(scheduled := false, bh := Test)
    case CheckEmpty => q.(bh := if q.head == q.tail then Asleep else Read)
    case LoadRid => q.(bh := ReadRid(q.rids[q.head % QUEUE_SIZE]))
    case LoadVector => q.(bh := ReadBoth(Event(q.bh.rid, q.vectors[q.head % QUEUE_SIZE])))
    case Advance => q.(head := q.head + 1, bh := Hold(q.bh.e))
    case Deliver => q.(bh := Test, handled := q.handled + [q.bh.e])
  }

  function Init(): Queue {
    Queue(seq(QUEUE_SIZE, _ => 0), seq(QUEUE_SIZE, _ => 0), 0, 0, false, Idle, Asleep, [], [], 0)
  }

  // ---------- the invariant ----------

  function InHand(b: Bottom): seq<Event> {
    if b.Hold? then [b.e] else []
  }

  predicate Shape(q: Queue) {
    && |q.rids| == QUEUE_SIZE && |q.vectors| == QUEUE_SIZE
    && q.tail == |q.accepted| && q.head <= q.tail <= q.head + QUEUE_SIZE
    && q.handled + InHand(q.bh) == q.accepted[..q.head]
  }

  predicate CallbackInv(q: Queue)
    requires Shape(q)
  {
    match q.cb
    case Tail(_, tail) => tail == q.tail
    case Room(_, tail) => tail == q.tail < q.head + QUEUE_SIZE
    case Half(e, tail) => tail == q.tail < q.head + QUEUE_SIZE && q.rids[tail % QUEUE_SIZE] == e.rid
    case Stored(e, tail) =>
      && tail == q.tail < q.head + QUEUE_SIZE
      && q.rids[tail % QUEUE_SIZE] == e.rid && q.vectors[tail % QUEUE_SIZE] == e.vector
    case _ => true
  }

  predicate BottomInv(q: Queue)
    requires Shape(q)
  {
    match q.bh
    case Read => q.head < q.tail
    case ReadRid(rid) => q.head < q.tail && rid == q.accepted[q.head].rid
    case ReadBoth(e) => q.head < q.tail && e == q.accepted[q.head]
    case _ => true
  }

  ghost predicate Slots(q: Queue)
    requires Shape(q)
  {
    forall i :: q.head <= i < q.tail ==>
      q.rids[i % QUEUE_SIZE] == q.accepted[i].rid && q.vectors[i % QUEUE_SIZE] == q.accepted[i].vector
  }

  /** No wake-up is lost. */
  predicate WakePending(q: Queue) {
    q.head < q.tail ==> q.scheduled || !q.bh.Asleep? || q.cb.Published?
  }

  ghost predicate Inv(q: Queue) {
    Shape(q) && CallbackInv(q) && BottomInv(q) && Slots(q) && WakePending(q)
  }

  /** The slot being filled is not one that is waiting to be read. */
  lemma FreeSlot(q: Queue, i: nat)
    requires q.head <= i < q.tail < q.head + QUEUE_SIZE
    ensures i % QUEUE_SIZE != q.tail % QUEUE_SIZE
  {
    Modular.Distinct(i, q.tail, QUEUE_SIZE);
  }

  lemma StoreKeeps(q: Queue, a: Act)
    requires Inv(q) && Enabled(q, a) && (a.StoreRid? || a.StoreVector?)
    ensures Inv(Do(q, a))
  {
    forall i | q.head <= i < q.tail ensures i % QUEUE_SIZE != q.tail % QUEUE_SIZE {
      FreeSlot(q, i);
    }
  }

  lemma CallbackKeeps(q: Queue, a: Act)
    requires Inv(q) && Enabled(q, a) && (a.Interrupt? || a.CheckFull? || a.Schedule?)
    ensures Inv(Do(q, a))
  {
  }

  lemma StoreTailKeeps(q: Queue)
    requires Inv(q) && Enabled(q, StoreTail)
    ensures Inv(Do(q, StoreTail))
  {
    assert (q.accepted + [q.cb.e])[..q.head] == q.accepted[..q.head];
    var q' := Do(q, StoreTail);
    forall i | q'.head <= i < q'.tail
      ensures q'.rids[i % QUEUE_SIZE] == q'.accepted[i].rid && q'.vectors[i % QUEUE_SIZE] == q'.accepted[i].vector
    {
      if i < q.tail { assert q'.accepted[i] == q.accepted[i]; } else { assert q'.accepted[i] == q.cb.e; }
    }
  }

  lemma BottomKeeps(q: Queue, a: Act)
    requires Inv(q) && Enabled(q, a) && (a.Wake? || a.CheckEmpty? || a.LoadRid? || a.LoadVector?)
    ensures Inv(Do(q, a))
  {
  }

  lemma AdvanceKeeps(q: Queue)
    requires Inv(q) && Enabled(q, Advance)
    ensures Inv(Do(q, Advance))
  {
    assert q.accepted[..q.head + 1] == q.accepted[..q.head] + [q.accepted[q.head]];
  }

  lemma DeliverKeeps(q: Queue)
    requires Inv(q) && Enabled(q, Deliver)
    ensures Inv(Do(q, Deliver))
  {
    assert (q.handled + [q.bh.e]) + [] == q.handled + [q.bh.e];
  }

  lemma Step(q: Queue, a: Act)
    requires Inv(q) && Enabled(q, a)
    ensures Inv(Do(q, a))
  {
    match a {
      case StoreRid => StoreKeeps(q, a);
      case StoreVector => StoreKeeps(q, a);
      case StoreTail => StoreTailKeeps(q);
      case Advance => AdvanceKeeps(q);
      case Deliver => DeliverKeeps(q);
      case _ => if a.Wake? || a.CheckEmpty? || a.LoadRid? || a.LoadVector? { BottomKeeps(q, a); } else { CallbackKeeps(q, a); }
    }
  }

  // ---------- runs ----------

  ghost predicate Legal(q: Queue, run: seq<Act>)
    decreases |run|
  {
    run == [] || (Enabled(q, run[0]) && Legal(Do(q, run[0]), run[1..]))
  }

  ghost function Exec(q: Queue, run: seq<Act>): Queue
    requires Legal(q, run)
    decreases |run|
  {
    if run == [] then q else Exec(Do(q, run[0]), run[1..])
  }

  lemma {:induction false} RunKeeps(q: Queue, run: seq<Act>)
    requires Inv(q) && Legal(q, run)
    ensures Inv(Exec(q, run))
    decreases |run|
  {
    if run != [] {
      Step(q, run[0]);
      RunKeeps(Do(q, run[0]), run[1..]);
    }
  }

  /** After any interleaving: between 0 and 256 interrupts are queued; those handled are the
      first ones accepted, in order and unchanged; and as long as any is queued, the bottom
      half is scheduled, running, or about to be scheduled. */
  lemma EveryInterleaving(run: seq<Act>)
    requires Legal(Init(), run)
    ensures var q := Exec(Init(), run);
      && q.head <= q.tail <= q.head + 256 && q.tail == |q.accepted|
      && q.handled + InHand(q.bh) == q.accepted[..q.head]
      && (q.head < q.tail ==> q.scheduled || !q.bh.Asleep? || q.cb.Published?)
  {
    RunKeeps(Init(), run);
  }

  /** So when both threads are at rest, every accepted interrupt has been handled. */
  lemma NothingForgotten(run: seq<Act>)
    requires Legal(Init(), run)
    requires var q := Exec(Init(), run); q.cb.Idle? && q.bh.Asleep? && !q.scheduled
    ensures Exec(Init(), run).handled == Exec(Init(), run).accepted
  {
    RunKeeps(Init(), run);
    var q := Exec(Init(), run);
    assert q.accepted[..q.head] == q.accepted;
    assert q.handled + [] == q.handled;
  }

  // ---------- what comes in ----------

  /** The interrupts handed to the callback, in order. */
  function Offered(run: seq<Act>): seq<Event> {
    if run == [] then [] else HandedOver(run[0]) + Offered(run[1..])
  }

  function HandedOver(a: Act): seq<Event> { if a.Interrupt? then [a.e] else [] }

  lemma OfferedNext(offered: seq<Event>, run: seq<Act>)
    requires run != []
    ensures offered + Offered(run) == (offered + HandedOver(run[0])) + Offered(run[1..])
  {
  }

  /** The interrupt the callback is working on. */
  function Entering(cb: Callback): seq<Event> {
    if cb.Idle? || cb.Published? then [] else [cb.e]
  }

  ghost predicate Accounted(q: Queue, offered: seq<Event>) {
    && IsSubseq(q.accepted + Entering(q.cb), offered)
    && |q.accepted| + |Entering(q.cb)| + q.dropped == |offered|
  }

  lemma AccountedStep(q: Queue, a: Act, offered: seq<Event>)
    requires Enabled(q, a) && Accounted(q, offered)
    ensures Accounted(Do(q, a), offered + HandedOver(a))
  {
    assert q.accepted + [] == q.accepted && offered + [] == offered;
    match a {
      case Interrupt(e) => AppendBoth(q.accepted, offered, e);
      case CheckFull => Prefix(q.accepted, q.accepted + [q.cb.e], offered);
      case StoreTail => assert (q.accepted + [q.cb.e]) + [] == q.accepted + [q.cb.e];
      case _ =>
    }
  }

  lemma {:induction false} RunAccounted(q: Queue, run: seq<Act>, offered: seq<Event>)
    requires Legal(q, run) && Accounted(q, offered)
    ensures Accounted(Exec(q, run), offered + Offered(run))
    decreases |run|
  {
    if run == [] {
      assert offered + Offered(run) == offered;
    } else {
      AccountedStep(q, run[0], offered);
      RunAccounted(Do(q, run[0]), run[1..], offered + HandedOver(run[0]));
      OfferedNext(offered, run);
    }
  }

  /** The interrupts accepted are those handed to the callback, in order and unchanged, less the
      refused ones; all of them exactly when none was refused. */
  lemma EveryInterruptCounts(run: seq<Act>)
    requires Legal(Init(), run)
    ensures var q := Exec(Init(), run);
      && IsSubseq(q.accepted + Entering(q.cb), Offered(run))
      && |q.accepted| + |Entering(q.cb)| + q.dropped == |Offered(run)|
      && (q.accepted + Entering(q.cb) == Offered(run) <==> q.dropped == 0)
  {
    assert [] + Offered(run) == Offered(run);
    Reflexive(Init().accepted + Entering(Init().cb));
    RunAccounted(Init(), run, []);
    var q := Exec(Init(), run);
    FullLength(q.accepted + Entering(q.cb), Offered(run));
  }

  /** An interrupt is refused exactly when 256 are queued. */
  lemma RefusedWhenFull(q: Queue)
    requires Inv(q) && Enabled(q, CheckFull)
    ensures Do(q, CheckFull).dropped == q.dropped + 1 <==> q.tail - q.head == 256
  {
  }

  // ---------- the bottom half gets there ----------

  function BottomSteps(b: Bottom, scheduled: bool): int {
    match b
    case Asleep => if scheduled then 2 else 0
    case Test => if scheduled then 3 else 1
    case Read => if scheduled then 2 else 0
    case ReadRid(_) => if scheduled then 1 else -1
    case ReadBoth(_) => if scheduled then 0 else -2
    case Hold(_) => if scheduled then 4 else 2
  }

  /** Steps the bottom half still needs to empty the queue and fall asleep. */
  function Remaining(q: Queue): int {
    5 * (q.tail - q.head) + BottomSteps(q.bh, q.scheduled)
  }

  predicate BottomAct(a: Act) {
    a.Wake? || a.CheckEmpty? || a.LoadRid? || a.LoadVector? || a.Advance? || a.Deliver?
  }

  /** Left alone by further interrupts, the bottom half delivers everything accepted, within
      Remaining(q) steps. */
  lemma {:induction false} Drains(q: Queue) returns (run: seq<Act>)
    requires Inv(q) && q.cb.Idle?
    ensures Legal(q, run) && (forall i :: 0 <= i < |run| ==> BottomAct(run[i]))
    ensures Exec(q, run).handled == q.accepted && |run| == Remaining(q)
    decreases Remaining(q)
  {
    if q.bh.Asleep? && !q.scheduled {
      run := [];
      assert q.accepted[..q.head] == q.accepted && q.handled + [] == q.handled;
    } else {
      var a := match q.bh
        case Asleep => Wake
        case Test => CheckEmpty
        case Read => LoadRid
        case ReadRid(_) => LoadVector
        case ReadBoth(_) => Advance
        case Hold(_) => Deliver;
      Step(q, a);
      var rest := Drains(Do(q, a));
      run := [a] + rest;
      assert run[1..] == rest;
    }
  }
}
