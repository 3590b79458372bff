/** Conservation, order and shutdown of the delivery pipeline (src/core/pipeline.ts), on the runs
    on which no event leaves the front of the queue while a flush is in flight. With `dropNew` and
    `block` those are all runs up to the final drain of a shutdown that finds a whole batch left. */
module PipelineCalm {
  import opened AuditTypes
  import opened Grouping
  import opened PipelineSpec
  import opened PipelineRuns

  /** The step takes nothing from under an active flush: no `dropOldest` overflow while a batch is
      in flight, and no final drain right after a completion started another flush. */
  predicate Calm(c: Settings, s: State, step: Step) {
    && !(step.EnqueueStep? && c.overflow.DropOldest? && Size(s) >= c.capacity && s.flush.InFlight?)
    && !(step.CompleteStep? && s.awaiting && Size(s) >= c.maxBatchSize)
  }

  predicate CalmRuns(c: Settings, s: State, steps: seq<Step>, s': State)
    decreases |steps|
  {
    if steps == [] then s' == s
    else Enabled(s, steps[0]) && Calm(c, s, steps[0]) && CalmRuns(c, Apply(c, s, steps[0]), steps[1..], s')
  }

  // ---------------------------------------------------------------------------
  // What has been settled

  /** The events that left the queue without being evicted. */
  function Kept(gone: seq<Gone>): seq<Event> {
    if gone == [] then []
    else
      var last := gone[|gone| - 1];
      Kept(gone[..|gone| - 1]) + (if last.evicted then [] else [last.ev])
  }

  function Evictions(gone: seq<Gone>): nat {
    if gone == [] then 0
    else Evictions(gone[..|gone| - 1]) + (if gone[|gone| - 1].evicted then 1 else 0)
  }

  lemma {:induction false} KeptMarked(gone: seq<Gone>, events: seq<Event>)
    ensures Kept(gone + Marked(events, false)) == Kept(gone) + events
    ensures Evictions(gone + Marked(events, false)) == Evictions(gone)
  {
    if events == [] {
      assert gone + Marked(events, false) == gone;
    } else {
      var init := events[..|events| - 1];
      var all := gone + Marked(events, false);
      KeptMarked(gone, init);
      assert all[..|all| - 1] == gone + Marked(init, false);
      assert all[|all| - 1] == Gone(events[|events| - 1], false);
      assert events == init + [events[|events| - 1]];
    }
  }

  lemma KeptEvicted(gone: seq<Gone>, e: Event)
    ensures Kept(gone + [Gone(e, true)]) == Kept(gone)
    ensures Evictions(gone + [Gone(e, true)]) == Evictions(gone) + 1
  {
    assert (gone + [Gone(e, true)])[..|gone|] == gone;
  }

  lemma {:induction false} KeptCount(gone: seq<Gone>)
    ensures |gone| == |Kept(gone)| + Evictions(gone)
  {
    if gone == [] {
    } else {
      KeptCount(gone[..|gone| - 1]);
    }
  }

  lemma {:induction false} KeptAll(gone: seq<Gone>)
    requires Evictions(gone) == 0
    ensures Kept(gone) == EventsGone(gone)
  {
    if gone == [] {
    } else {
      KeptAll(gone[..|gone| - 1]);
      assert EventsGone(gone) == EventsGone(gone[..|gone| - 1]) + [gone[|gone| - 1].ev];
    }
  }

  /** The events delivered to one store, in order. */
  function DeliveredTo(log: seq<Delivery>, name: string): seq<Event> {
    if log == [] then []
    else
      var last := log[|log| - 1];
      DeliveredTo(log[..|log| - 1], name) + (if last.store == name then last.events else [])
  }

  /** The items of the groups with one name, and of all groups. */
  function ItemsOf(groups: seq<Group<Event>>, name: string): seq<Event> {
    if groups == [] then []
    else
      var last := groups[|groups| - 1];
      ItemsOf(groups[..|groups| - 1], name) + (if last.name == name then last.items else [])
  }

  function CountOf(groups: seq<Group<Event>>): nat {
    if groups == [] then 0 else CountOf(groups[..|groups| - 1]) + |groups[|groups| - 1].items|
  }

  lemma HasNameOfPrefix(groups: seq<Group<Event>>, k: nat, name: string)
    requires 0 < k <= |groups|
    ensures HasName(groups[..k], name) <==> HasName(groups[..k - 1], name) || groups[k - 1].name == name
  {
    if HasName(groups[..k - 1], name) {
      var i :| 0 <= i < k - 1 && groups[..k - 1][i].name == name;
      assert groups[..k][i].name == name;
    }
    if groups[k - 1].name == name {
      assert groups[..k][k - 1].name == name;
    }
    if HasName(groups[..k], name) && groups[k - 1].name != name {
      var i :| 0 <= i < k && groups[..k][i].name == name;
      assert groups[..k - 1][i].name == name;
    }
  }

  lemma {:induction false} ItemsOfPrefix(groups: seq<Group<Event>>, k: nat, name: string)
    requires DistinctNames(groups) && k <= |groups|
    ensures HasName(groups[..k], name) ==> exists i | 0 <= i < k :: groups[i].name == name && ItemsOf(groups[..k], name) == groups[i].items
    ensures !HasName(groups[..k], name) ==> ItemsOf(groups[..k], name) == []
  {
    if k == 0 {
    } else {
      var last := groups[k - 1];
      assert groups[..k][..k - 1] == groups[..k - 1];
      ItemsOfPrefix(groups, k - 1, name);
      HasNameOfPrefix(groups, k, name);
      if last.name == name {
        assert !HasName(groups[..k - 1], name);
        assert ItemsOf(groups[..k], name) == [] + last.items == last.items;
        assert groups[k - 1].name == name;
      }
    }
  }

  /** All groups together hold, for each name, what the batch holds for it. */
  lemma ItemsOfAll(c: Settings, batch: seq<Event>, name: string)
    ensures ItemsOf(GroupAll(c.route, batch), name) == Select(c.route, batch, name)
  {
    var groups := GroupAll(c.route, batch);
    GroupAllIs(c.route, batch);
    assert groups[..|groups|] == groups;
    ItemsOfPrefix(groups, |groups|, name);
    if !HasName(groups, name) {
      NoneSelected(c.route, batch, groups, name);
    }
  }

  lemma {:induction false} CountIsFlat(groups: seq<Group<Event>>)
    ensures CountOf(groups) == |Flatten(groups)|
  {
    if groups == [] {
    } else {
      CountIsFlat(groups[..|groups| - 1]);
      FlattenLast(groups);
    }
  }

  lemma {:induction false} FlattenLast(groups: seq<Group<Event>>)
    requires groups != []
    ensures Flatten(groups) == Flatten(groups[..|groups| - 1]) + groups[|groups| - 1].items
  {
    var init, last := groups[..|groups| - 1], groups[|groups| - 1];
    if |groups| == 1 {
      assert groups[1..] == [];
    } else {
      FlattenLast(groups[1..]);
      assert groups[1..][..|groups| - 2] == init[1..];
    }
  }

  lemma CountOfAll(c: Settings, batch: seq<Event>)
    ensures CountOf(GroupAll(c.route, batch)) == |batch|
    ensures batch != [] ==> GroupAll(c.route, batch) != []
  {
    GroupAllPermutes(c.route, batch);
    CountIsFlat(GroupAll(c.route, batch));
    assert |multiset(Flatten(GroupAll(c.route, batch)))| == |multiset(batch)|;
  }

  // ---------------------------------------------------------------------------
  // The invariant of calm runs

  /** The groups whose write has ended. */
  function Done(c: Settings, f: Flush): seq<Group<Event>> {
    if !f.InFlight? then []
    else
      var groups := GroupAll(c.route, f.batch);
      if |f.todo| <= |groups| then groups[..|groups| - |f.todo|] else []
  }

  predicate FlightOk(c: Settings, f: Flush) {
    f.InFlight? ==>
      var groups := GroupAll(c.route, f.batch);
      f.taken == 0 && 0 < |f.todo| <= |groups| && f.todo == groups[|groups| - |f.todo|..]
  }

  predicate CountsOk(c: Settings, s: State) {
    && s.counts.queued == |s.accepted|
    && s.counts.written + s.counts.deadLettered == |s.settled| + CountOf(Done(c, s.flush))
    && Evictions(s.gone) == (if c.overflow.DropOldest? then s.counts.dropped else 0)
  }

  ghost predicate LogOk(c: Settings, s: State) {
    s.drained == [] ==>
      forall name :: DeliveredTo(s.log, name) == Select(c.route, s.settled, name) + ItemsOf(Done(c, s.flush), name)
  }

  ghost predicate CalmInv(c: Settings, s: State) {
    && AnyInv(s) && s.debt == 0
    && FlightOk(c, s.flush)
    && s.settled == Kept(s.gone)
    && CountsOk(c, s)
    && LogOk(c, s)
  }

  /** A flush that has just begun. */
  function Begun(c: Settings, batch: seq<Event>): Flush {
    InFlight(batch, GroupAll(c.route, batch), 0)
  }

  lemma NothingDoneYet(c: Settings, batch: seq<Event>)
    requires batch != []
    ensures FlightOk(c, Begun(c, batch)) && Done(c, Begun(c, batch)) == []
  {
    CountOfAll(c, batch);
    var groups := GroupAll(c.route, batch);
    assert groups[0..] == groups;
  }

  /** Only the flush changes, and it has no group that is done. */
  lemma FlushChanges(c: Settings, s: State, f: Flush)
    requires CalmInv(c, s) && Done(c, s.flush) == [] && Done(c, f) == [] && FlightOk(c, f)
    requires AnyInv(s.(flush := f))
    ensures CalmInv(c, s.(flush := f))
  {
  }

  lemma BeginCalm(c: Settings, s: State)
    requires CalmInv(c, s)
    ensures CalmInv(c, Begin(c, s))
  {
    BeginAny(c, s);
    if s.flush == NoFlush && Size(s) != 0 {
      var batch := Peek(c, s);
      if batch == [] {
        FlushChanges(c, s, Finished);
      } else {
        NothingDoneYet(c, batch);
        FlushChanges(c, s, Begun(c, batch));
      }
    }
  }

  lemma QueuedCalm(c: Settings, s: State, e: Event)
    requires CalmInv(c, s) && s.accepting
    ensures CalmInv(c, Queued(s, e))
  {
    QueuedAny(s, e);
  }

  lemma EvictCalm(c: Settings, s: State)
    requires CalmInv(c, s) && s.queue != [] && c.overflow.DropOldest? && !s.flush.InFlight?
    ensures CalmInv(c, Evict(s))
  {
    EvictAny(s);
    KeptEvicted(s.gone, s.queue[0]);
  }

  lemma AppendCalm(c: Settings, s: State, e: Event)
    requires CalmInv(c, s) && s.accepting
    ensures CalmInv(c, Append(c, s, e))
  {
    QueuedCalm(c, s, e);
    BeginCalm(c, Queued(s, e));
  }

  lemma OverflowCalm(c: Settings, s: State, e: Event)
    requires CalmInv(c, s) && c.overflow.DropOldest? && Size(s) >= c.capacity && !s.flush.InFlight?
    ensures CalmInv(c, Enqueue(c, s, e).state)
  {
    EvictCalm(c, s);
    if s.accepting {
      AppendCalm(c, Evict(s), e);
    }
  }

  lemma DroppedCalm(c: Settings, s: State)
    requires CalmInv(c, s) && !c.overflow.DropOldest?
    ensures CalmInv(c, Dropped(s))
  {
  }

  lemma EnqueueCalm(c: Settings, s: State, e: Event)
    requires CalmInv(c, s) && Calm(c, s, EnqueueStep(e))
    ensures CalmInv(c, Enqueue(c, s, e).state)
  {
    if Size(s) < c.capacity {
      if s.accepting {
        AppendCalm(c, s, e);
      }
    } else if c.overflow.DropOldest? {
      OverflowCalm(c, s, e);
    } else if c.overflow.Block? {
      BeginCalm(c, s);
    } else {
      DroppedCalm(c, s);
    }
  }

  lemma DoneGrows(c: Settings, f: Flush)
    requires FlightOk(c, f) && f.InFlight?
    ensures Done(c, f.(todo := f.todo[1..])) == Done(c, f) + [f.todo[0]]
    ensures |f.todo| == 1 ==> Done(c, f) + [f.todo[0]] == GroupAll(c.route, f.batch)
    ensures |f.todo| > 1 ==> FlightOk(c, f.(todo := f.todo[1..]))
  {
    var groups := GroupAll(c.route, f.batch);
    assert f.todo[0] == groups[|groups| - |f.todo|];
  }

  lemma LoggedCounts(c: Settings, s: State, written: bool, retries: nat)
    requires FlightOk(c, s.flush) && s.flush.InFlight? && CountsOk(c, s)
    ensures CountsOk(c, Logged(s, written, retries))
  {
    DoneGrows(c, s.flush);
    var done := Done(c, s.flush);
    assert (done + [s.flush.todo[0]])[..|done|] == done;
  }

  lemma LoggedLog(c: Settings, s: State, written: bool, retries: nat)
    requires FlightOk(c, s.flush) && s.flush.InFlight? && LogOk(c, s)
    ensures LogOk(c, Logged(s, written, retries))
  {
    DoneGrows(c, s.flush);
    var done, g := Done(c, s.flush), s.flush.todo[0];
    var s' := Logged(s, written, retries);
    assert (done + [g])[..|done|] == done;
    assert s'.log[..|s.log|] == s.log;
    if s.drained == [] {
      forall name ensures DeliveredTo(s'.log, name) == Select(c.route, s.settled, name) + ItemsOf(done + [g], name) {
        assert DeliveredTo(s.log, name) == Select(c.route, s.settled, name) + ItemsOf(done, name);
      }
    }
  }

  lemma BatchIsFront(s: State)
    requires AnyInv(s) && s.flush.InFlight? && s.flush.taken == 0
    ensures |s.flush.batch| <= |s.queue| && s.queue[..|s.flush.batch|] == s.flush.batch
  {
    FrontIsAccepted(s, Min(|s.queue|, |s.flush.batch|));
  }

  lemma ClearedLog(c: Settings, s: State)
    requires s.flush.InFlight? && Done(c, s.flush) == GroupAll(c.route, s.flush.batch) && LogOk(c, s)
    ensures LogOk(c, Cleared(s))
  {
    var s' := Cleared(s);
    if s.drained == [] {
      forall name ensures DeliveredTo(s'.log, name) == Select(c.route, s'.settled, name) + ItemsOf(Done(c, s'.flush), name) {
        ItemsOfAll(c, s.flush.batch, name);
        SelectConcat(c.route, s.settled, s.flush.batch, name);
      }
    }
  }

  lemma ClearedCounts(c: Settings, s: State)
    requires s.flush.InFlight? && |s.flush.batch| <= |s.queue| && s.queue[..|s.flush.batch|] == s.flush.batch
    requires Done(c, s.flush) == GroupAll(c.route, s.flush.batch) && s.settled == Kept(s.gone) && CountsOk(c, s)
    ensures CountsOk(c, Cleared(s)) && Cleared(s).settled == Kept(Cleared(s).gone)
  {
    KeptMarked(s.gone, s.flush.batch);
    CountOfAll(c, s.flush.batch);
  }

  lemma ClearedCalm(c: Settings, s: State)
    requires AnyInv(s) && s.debt == 0 && s.flush.InFlight? && s.flush.taken == 0
    requires Done(c, s.flush) == GroupAll(c.route, s.flush.batch)
    requires s.settled == Kept(s.gone) && CountsOk(c, s) && LogOk(c, s)
    ensures CalmInv(c, Cleared(s))
  {
    BatchIsFront(s);
    ClearedAny(s);
    ClearedCounts(c, s);
    ClearedLog(c, s);
  }

  lemma LoggedCalm(c: Settings, s: State, written: bool, retries: nat)
    requires CalmInv(c, s) && s.flush.InFlight? && |s.flush.todo| > 1
    ensures CalmInv(c, Logged(s, written, retries))
  {
    var s' := Logged(s, written, retries);
    LoggedAny(s, written, retries);
    DoneGrows(c, s.flush);
    LoggedCounts(c, s, written, retries);
    LoggedLog(c, s, written, retries);
    assert s'.settled == Kept(s'.gone) && s'.debt == 0;
  }

  lemma LastCalm(c: Settings, s: State, written: bool, retries: nat)
    requires CalmInv(c, s) && s.flush.InFlight? && |s.flush.todo| == 1
    ensures CalmInv(c, Cleared(Logged(s, written, retries)))
  {
    LoggedAny(s, written, retries);
    DoneGrows(c, s.flush);
    LoggedCounts(c, s, written, retries);
    LoggedLog(c, s, written, retries);
    ClearedCalm(c, Logged(s, written, retries));
  }

  lemma SettleCalm(c: Settings, s: State, written: bool, retries: nat)
    requires CalmInv(c, s) && s.flush.InFlight? && s.flush.todo != []
    ensures CalmInv(c, Settle(s, written, retries))
  {
    if |s.flush.todo| == 1 {
      LastCalm(c, s, written, retries);
    } else {
      LoggedCalm(c, s, written, retries);
    }
  }

  lemma FinalDrainCalm(c: Settings, s: State)
    requires CalmInv(c, s) && s.flush == NoFlush && !s.accepting
    ensures CalmInv(c, FinalDrain(c, s))
  {
    if Size(s) > 0 {
      var batch := Peek(c, s);
      FinalDrainAny(c, s);
      KeptMarked(s.gone, batch);
    }
  }

  lemma NoFlushCalm(c: Settings, s: State)
    requires CalmInv(c, s) && s.flush.Finished?
    ensures CalmInv(c, s.(flush := NoFlush))
  {
  }

  lemma CompleteCalm(c: Settings, s: State)
    requires CalmInv(c, s) && s.flush.Finished? && Calm(c, s, CompleteStep)
    ensures CalmInv(c, Complete(c, s))
  {
    var s1 := s.(flush := NoFlush);
    NoFlushCalm(c, s);
    if s.awaiting {
      FinalDrainCalm(c, s1);
    } else {
      BeginCalm(c, s1);
    }
  }

  lemma ShutdownCalm(c: Settings, s: State)
    requires CalmInv(c, s)
    ensures CalmInv(c, s.(accepting := false))
  {
  }

  lemma LeaveLoopCalm(c: Settings, s: State)
    requires CalmInv(c, s) && !s.accepting
    ensures CalmInv(c, LeaveLoop(c, s))
  {
    if s.flush == NoFlush {
      FinalDrainCalm(c, s);
    }
  }

  lemma StepCalm(c: Settings, s: State, step: Step)
    requires CalmInv(c, s) && Enabled(s, step) && Calm(c, s, step)
    ensures CalmInv(c, Apply(c, s, step))
  {
    match step
    case EnqueueStep(e) => EnqueueCalm(c, s, e);
    case FlushStep => BeginCalm(c, s);
    case SettleStep(written, retries) => SettleCalm(c, s, written, retries);
    case CompleteStep => CompleteCalm(c, s);
    case ShutdownStep => ShutdownCalm(c, s);
    case LeaveLoopStep => LeaveLoopCalm(c, s);
  }

  lemma StartCalm(c: Settings)
    ensures CalmInv(c, START)
  {
    assert EventsGone([]) == [];
  }

  lemma {:induction false} CalmRunKeeps(c: Settings, s: State, steps: seq<Step>, s': State)
    requires CalmInv(c, s) && CalmRuns(c, s, steps, s')
    ensures CalmInv(c, s')
    decreases |steps|
  {
    if steps == [] {
    } else {
      StepCalm(c, s, steps[0]);
      CalmRunKeeps(c, Apply(c, s, steps[0]), steps[1..], s');
    }
  }

  // ---------------------------------------------------------------------------
  // Conservation and order

  /** Conservation with `dropNew` and `block`, in every interleaving of enqueues with a running
      flush: the events accepted, in order, are those settled followed by those queued, so none is
      lost, doubled or reordered; the batch in flight is a prefix of the queue; and with no flush in
      flight the counters add up. */
  lemma AcceptedIsSettledThenQueued(c: Settings, steps: seq<Step>, s: State)
    requires CalmRuns(c, START, steps, s) && !c.overflow.DropOldest?
    ensures s.accepted == s.settled + s.queue && Size(s) == |s.queue|
    ensures s.flush.InFlight? ==> |s.flush.batch| <= |s.queue| && s.flush.batch == s.queue[..|s.flush.batch|]
    ensures !s.flush.InFlight? ==> s.counts.queued == s.counts.written + s.counts.deadLettered + Size(s)
  {
    StartCalm(c);
    CalmRunKeeps(c, START, steps, s);
    KeptAll(s.gone);
    if s.flush.InFlight? {
      BatchIsFront(s);
    }
  }

  /** The same for every policy, with the evicted events added: whatever left the queue was evicted
      or settled, in the order in which it was accepted. */
  lemma EvictedOrSettled(c: Settings, steps: seq<Step>, s: State)
    requires CalmRuns(c, START, steps, s)
    ensures s.accepted == EventsGone(s.gone) + s.queue && s.settled == Kept(s.gone)
    ensures c.overflow.DropOldest? ==> Evictions(s.gone) == s.counts.dropped
    ensures !s.flush.InFlight? ==>
              s.counts.queued == s.counts.written + s.counts.deadLettered + Evictions(s.gone) + Size(s)
  {
    StartCalm(c);
    CalmRunKeeps(c, START, steps, s);
    KeptCount(s.gone);
  }

  /** Per-store order, before the final drain: each store was delivered its events, and no others,
      in the order in which they were accepted; of the batch in flight, those of the groups that
      are done. */
  lemma StoresSeeTheirEventsInOrder(c: Settings, steps: seq<Step>, s: State, name: string)
    requires CalmRuns(c, START, steps, s) && s.drained == []
    ensures !s.flush.InFlight? ==> DeliveredTo(s.log, name) == Select(c.route, s.settled, name)
    ensures s.flush.InFlight? ==>
              || DeliveredTo(s.log, name) == Select(c.route, s.settled, name)
              || DeliveredTo(s.log, name) == Select(c.route, s.settled + s.flush.batch, name)
  {
    StartCalm(c);
    CalmRunKeeps(c, START, steps, s);
    assert DeliveredTo(s.log, name) == Select(c.route, s.settled, name) + ItemsOf(Done(c, s.flush), name);
    if s.flush.InFlight? {
      var groups := GroupAll(c.route, s.flush.batch);
      GroupAllIs(c.route, s.flush.batch);
      ItemsOfPrefix(groups, |groups| - |s.flush.todo|, name);
      SelectConcat(c.route, s.settled, s.flush.batch, name);
    }
  }

  // ---------------------------------------------------------------------------
  // When a flush removes what it wrote

  lemma {:induction false} AnyRunKeeps(c: Settings, s: State, steps: seq<Step>, s': State)
    requires AnyInv(s) && Runs(c, s, steps, s')
    ensures AnyInv(s')
    decreases |steps|
  {
    if steps == [] {
    } else {
      StepAny(c, s, steps[0]);
      AnyRunKeeps(c, Apply(c, s, steps[0]), steps[1..], s');
    }
  }

  predicate Distinct(events: seq<Event>) {
    forall i, j | 0 <= i < j < |events| :: events[i] != events[j]
  }

  lemma ShiftedDiffers(accepted: seq<Event>, p: nat, g: nat, n: nat, m: nat)
    requires Distinct(accepted) && p <= g && 0 < n && p + n <= |accepted| && g + m <= |accepted| && (p == g ==> m == n)
    ensures accepted[g..g + m] == accepted[p..p + n] <==> p == g
  {
    if p < g && m > 0 {
      assert accepted[g..g + m][0] == accepted[g] && accepted[p..p + n][0] == accepted[p];
    }
  }

  /** Whether every step since the active flush began, and the step that began it, was calm:
      none was a `dropOldest` overflow, and the flush was not begun by a completion that shutdown
      waited for. `calm` says it of the steps before. */
  predicate CalmSinceBegun(c: Settings, s: State, steps: seq<Step>, calm: bool)
    decreases |steps|
  {
    if steps == [] || !Enabled(s, steps[0]) then calm
    else CalmSinceBegun(c, Apply(c, s, steps[0]), steps[1..], (s.flush.InFlight? ==> calm) && Calm(c, s, steps[0]))
  }

  /** What a step takes from under the flush that is in flight after it. */
  lemma TakenGrowsIff(c: Settings, s: State, step: Step)
    requires AnyInv(s) && Enabled(s, step) && Apply(c, s, step).flush.InFlight?
    ensures var before := if s.flush.InFlight? then s.flush.taken else 0;
            && Apply(c, s, step).flush.taken >= before
            && (Apply(c, s, step).flush.taken > before <==> !Calm(c, s, step))
  {
  }

  lemma {:induction false} TakenIsZeroIff(c: Settings, s: State, steps: seq<Step>, s': State, calm: bool)
    requires AnyInv(s) && Runs(c, s, steps, s') && s'.flush.InFlight?
    requires s.flush.InFlight? ==> (calm <==> s.flush.taken == 0)
    ensures s'.flush.taken == 0 <==> CalmSinceBegun(c, s, steps, calm)
    decreases |steps|
  {
    if steps == [] {
    } else {
      var s1 := Apply(c, s, steps[0]);
      StepAny(c, s, steps[0]);
      if s1.flush.InFlight? {
        TakenGrowsIff(c, s, steps[0]);
      }
      TakenIsZeroIff(c, s1, steps[1..], s', (s.flush.InFlight? ==> calm) && Calm(c, s, steps[0]));
    }
  }

  /** In every run with any policy, when the last group of a flush is done, the events the flush
      takes off the queue are those it wrote if and only if no `dropOldest` overflow happened since
      it began and it was not begun by a completion that shutdown waited for. Otherwise events it
      never wrote are discarded. */
  lemma RemovesItsBatchIff(c: Settings, steps: seq<Step>, s: State, written: bool, retries: nat)
    requires Runs(c, START, steps, s) && Distinct(s.accepted)
    requires s.flush.InFlight? && |s.flush.todo| == 1
    ensures var s' := Settle(s, written, retries);
            && |s.gone| <= |s'.gone|
            && (EventsGone(s'.gone[|s.gone|..]) == s.flush.batch <==> CalmSinceBegun(c, START, steps, true))
  {
    AnyRunKeeps(c, START, steps, s);
    TakenIsZeroIff(c, START, steps, s, true);
    var n := |s.flush.batch|;
    var m := Min(n, |s.queue|);
    FrontIsAccepted(s, m);
    TakenOff(s, written, retries);
    ShiftedDiffers(s.accepted, |s.gone| - s.flush.taken, |s.gone|, n, m);
  }

  lemma TakenOff(s: State, written: bool, retries: nat)
    requires s.flush.InFlight? && |s.flush.todo| == 1
    ensures var s' := Settle(s, written, retries);
            |s.gone| <= |s'.gone| && EventsGone(s'.gone[|s.gone|..]) == s.queue[..Min(|s.flush.batch|, |s.queue|)]
  {
    var s' := Settle(s, written, retries);
    var front := s.queue[..Min(|s.flush.batch|, |s.queue|)];
    assert s'.gone == s.gone + Marked(front, false);
    assert s'.gone[|s.gone|..] == Marked(front, false);
    assert EventsGone(Marked(front, false)) == front;
  }

  /** An enqueue that is turned away leaves the queue as it was, unless it is a `dropOldest`
      overflow after shutdown began, which evicts an event and accepts none. */
  lemma RejectionKeepsQueueIff(c: Settings, s: State, e: Event)
    requires AnyInv(s) && Enqueue(c, s, e).outcome == Rejected
    ensures Enqueue(c, s, e).state.queue == s.queue <==>
            !(c.overflow.DropOldest? && Size(s) >= c.capacity && !s.accepting)
  {
    if c.overflow.DropOldest? && Size(s) >= c.capacity {
      assert |Evict(s).queue| == |s.queue| - 1;
    }
  }

  // ---------------------------------------------------------------------------
  // Shutdown

  /** Once shutdown began nothing more is accepted, in any run that follows. */
  lemma {:induction false} ClosedForGood(c: Settings, s: State, steps: seq<Step>, s': State)
    requires !s.accepting && Runs(c, s, steps, s')
    ensures !s'.accepting && s'.accepted == s.accepted
    decreases |steps|
  {
    if steps == [] {
    } else {
      ClosedByStep(c, s, steps[0]);
      ClosedForGood(c, Apply(c, s, steps[0]), steps[1..], s');
    }
  }

  lemma ClosedByStep(c: Settings, s: State, step: Step)
    requires Enabled(s, step) && !s.accepting
    ensures !Apply(c, s, step).accepting && Apply(c, s, step).accepted == s.accepted
  {
  }

  /** Nothing is queued or in flight and every accepted event was settled once, in order. */
  predicate AllSettled(s: State) {
    s.queue == [] && s.flush == NoFlush && s.settled == s.accepted
  }

  /** Shutdown that waits for the active flush settles everything if and only if less than one
      batch is left when that flush ends. With a whole batch left the completion starts another
      flush, and the final drain then dead-letters the events that flush is writing. */
  lemma ShutdownSettlesIff(c: Settings, steps: seq<Step>, s: State)
    requires CalmRuns(c, START, steps, s) && !c.overflow.DropOldest?
    requires s.flush.Finished? && s.awaiting
    ensures AllSettled(Complete(c, s)) <==> Size(s) < c.maxBatchSize
    ensures Size(s) >= c.maxBatchSize ==>
              && Complete(c, s).flush.InFlight?
              && Complete(c, s).flush.batch == s.queue[..c.maxBatchSize]
              && Complete(c, s).settled == s.settled + s.queue[..c.maxBatchSize]
  {
    AcceptedIsSettledThenQueued(c, steps, s);
    if Size(s) < c.maxBatchSize {
      assert s.queue[..|s.queue|] == s.queue;
    }
  }

  /** With no flush active less than a whole batch is queued. */
  predicate ShortWhenIdle(c: Settings, s: State) {
    s.flush == NoFlush ==> Size(s) < c.maxBatchSize
  }

  lemma BeginIfFullIsShort(c: Settings, s: State)
    ensures ShortWhenIdle(c, BeginIfFull(c, s))
  {
  }

  lemma FinalDrainShrinks(c: Settings, s: State)
    requires ShortWhenIdle(c, s)
    ensures ShortWhenIdle(c, FinalDrain(c, s))
  {
  }

  lemma EnqueueStaysShort(c: Settings, s: State, e: Event)
    requires AnyInv(s) && ShortWhenIdle(c, s)
    ensures ShortWhenIdle(c, Enqueue(c, s, e).state)
  {
    if Size(s) >= c.capacity {
      if c.overflow.DropOldest? {
        BeginIfFullIsShort(c, Queued(Evict(s), e));
      }
    } else {
      BeginIfFullIsShort(c, Queued(s, e));
    }
  }

  lemma StepStaysShort(c: Settings, s: State, step: Step)
    requires AnyInv(s) && Enabled(s, step) && ShortWhenIdle(c, s)
    ensures ShortWhenIdle(c, Apply(c, s, step))
  {
    match step
    case EnqueueStep(e) => EnqueueStaysShort(c, s, e);
    case FlushStep =>
    case SettleStep(written, retries) =>
    case CompleteStep => {
      BeginIfFullIsShort(c, s.(flush := NoFlush));
      FinalDrainShrinks(c, BeginIfFull(c, s.(flush := NoFlush)));
    }
    case ShutdownStep =>
    case LeaveLoopStep => FinalDrainShrinks(c, s);
  }

  lemma {:induction false} RunStaysShort(c: Settings, s: State, steps: seq<Step>, s': State)
    requires AnyInv(s) && ShortWhenIdle(c, s) && Runs(c, s, steps, s')
    ensures AnyInv(s') && ShortWhenIdle(c, s')
    decreases |steps|
  {
    if steps == [] {
    } else {
      StepAny(c, s, steps[0]);
      StepStaysShort(c, s, steps[0]);
      RunStaysShort(c, Apply(c, s, steps[0]), steps[1..], s');
    }
  }

  lemma {:induction false} CalmRunsAreRuns(c: Settings, s: State, steps: seq<Step>, s': State)
    requires CalmRuns(c, s, steps, s')
    ensures Runs(c, s, steps, s')
    decreases |steps|
  {
    if steps == [] {
    } else {
      CalmRunsAreRuns(c, Apply(c, s, steps[0]), steps[1..], s');
    }
  }

  /** Whenever no flush is active, in any run under any policy, less than one batch is queued, so
      one final drain empties the queue. */
  lemma IdleQueueIsShort(c: Settings, steps: seq<Step>, s: State)
    requires Runs(c, START, steps, s) && s.flush == NoFlush
    ensures Size(s) < c.maxBatchSize && FinalDrain(c, s).queue == []
  {
    RunStaysShort(c, START, steps, s);
  }

  /** Shutdown that leaves its loop with no flush active settles every accepted event. */
  lemma IdleShutdownSettles(c: Settings, steps: seq<Step>, s: State)
    requires CalmRuns(c, START, steps, s) && !c.overflow.DropOldest?
    requires Enabled(s, LeaveLoopStep) && s.flush == NoFlush
    ensures AllSettled(LeaveLoop(c, s))
  {
    AcceptedIsSettledThenQueued(c, steps, s);
    CalmRunsAreRuns(c, START, steps, s);
    IdleQueueIsShort(c, steps, s);
    assert s.queue[..|s.queue|] == s.queue;
  }
}
