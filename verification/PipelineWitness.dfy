/** Runs on which the delivery pipeline (src/core/pipeline.ts) loses or doubles an event, one for
    each condition of `PipelineCalm`. */
module PipelineWitness {
  import opened AuditTypes
  import opened Grouping
  import opened PipelineSpec

  lemma OneGroup(c: Settings, e: Event)
    ensures GroupAll(c.route, [e]) == [Group(c.route(e), [e])]
  {
    assert [e][..0] == [];
    assert GroupAll(c.route, [e]) == AddTo([], c.route(e), e);
  }

  /** With batches of one event an accepted event starts a flush of itself. */
  lemma FirstIsFlushed(c: Settings, e: Event)
    requires c.maxBatchSize == 1
    ensures Apply(c, START, EnqueueStep(e)) == Queued(START, e).(flush := InFlight([e], [Group(c.route(e), [e])], 0))
  {
    var s := Queued(START, e);
    assert s.queue == [e] && Peek(c, s) == [e];
    OneGroup(c, e);
  }

  /** A `dropOldest` overflow while a flush is in flight: the flush evicts nothing of its own but
      removes the newer event, which was accepted and is neither delivered nor counted as dropped. */
  lemma OverflowLosesAnEvent(c: Settings, a: Event, b: Event) returns (steps: seq<Step>, s: State)
    requires c.overflow.DropOldest? && c.maxBatchSize == 1 && c.capacity == 1 && a != b
    ensures Runs(c, START, steps, s)
    ensures s.accepted == [a, b] && s.queue == [] && s.log == [Delivery(c.route(a), [a], true)]
    ensures s.gone == [Gone(a, true), Gone(b, false)] && s.settled == [a]
    ensures s.counts == Counts(2, 1, 1, 0, 0)
  {
    var s1 := Apply(c, START, EnqueueStep(a));
    FirstIsFlushed(c, a);
    var s2 := Apply(c, s1, EnqueueStep(b));
    assert s2.queue == [b] && s2.flush == s1.flush.(taken := 1) && s2.gone == [Gone(a, true)];
    s := Apply(c, s2, SettleStep(true, 0));
    assert Cleared(Logged(s2, true, 0)).gone == [Gone(a, true), Gone(b, false)];
    steps := [EnqueueStep(a), EnqueueStep(b), SettleStep(true, 0)];
    assert Runs(c, s2, steps[2..], s) && steps[1..][1..] == steps[2..];
    assert Runs(c, s1, steps[1..], s);
  }

  /** A `dropOldest` overflow after shutdown began: the call is turned away, and the event that was
      queued is gone. */
  lemma RejectionEvicts(c: Settings, a: Event, b: Event) returns (steps: seq<Step>, s: State)
    requires c.overflow.DropOldest? && c.maxBatchSize == 2 && c.capacity == 1
    ensures Runs(c, START, steps, s) && s.queue == [a]
    ensures Enqueue(c, s, b).outcome == Rejected && Enqueue(c, s, b).state.queue == []
  {
    var s1 := Apply(c, START, EnqueueStep(a));
    assert s1 == Queued(START, a);
    s := Apply(c, s1, ShutdownStep);
    steps := [EnqueueStep(a), ShutdownStep];
    assert Runs(c, s, [], s) && steps[1..] == [ShutdownStep];
    assert Runs(c, s1, [ShutdownStep], s);
  }

  /** Two events were accepted, the first is being written. */
  function Writing(c: Settings, a: Event, b: Event): State {
    State([a, b], 0, InFlight([a], [Group(c.route(a), [a])], 0), true, false, Counts(2, 0, 0, 0, 0), [a, b], [], [], [], [])
  }

  lemma WritingIsReached(c: Settings, a: Event, b: Event)
    requires c.maxBatchSize == 1 && c.capacity == 2
    ensures Runs(c, START, [EnqueueStep(a), EnqueueStep(b)], Writing(c, a, b))
  {
    FirstIsFlushed(c, a);
    var s1 := Apply(c, START, EnqueueStep(a));
    assert Apply(c, s1, EnqueueStep(b)) == Queued(s1, b) == Writing(c, a, b);
    assert [EnqueueStep(a), EnqueueStep(b)][1..] == [EnqueueStep(b)];
    assert Runs(c, Writing(c, a, b), [], Writing(c, a, b));
    assert Runs(c, s1, [EnqueueStep(b)], Writing(c, a, b));
  }

  /** The write of the first event ends while shutdown waits. */
  lemma FirstIsWritten(c: Settings, a: Event, b: Event)
    ensures Settle(Writing(c, a, b).(accepting := false, awaiting := true), true, 0) ==
            State([b], 0, Finished, false, true, Counts(2, 1, 0, 0, 0), [a, b], [Gone(a, false)], [a], [],
                  [Delivery(c.route(a), [a], true)])
  {
    assert Marked([a], false) == [Gone(a, false)];
    assert [a, b][..1] == [a] && [a, b][1..] == [b];
  }

  lemma {:induction false} RunsAppend(c: Settings, s: State, steps: seq<Step>, s1: State, step: Step)
    requires Runs(c, s, steps, s1) && Enabled(s1, step)
    ensures Runs(c, s, steps + [step], Apply(c, s1, step))
    decreases |steps|
  {
    if steps == [] {
      assert Runs(c, Apply(c, s1, step), [], Apply(c, s1, step)) && (steps + [step])[1..] == [];
    } else {
      RunsAppend(c, Apply(c, s, steps[0]), steps[1..], s1, step);
      assert (steps + [step])[1..] == steps[1..] + [step];
    }
  }

  /** A whole batch is left when the flush ends that shutdown waits for: the next flush is begun,
      and its event is dead-lettered and written. Two events were accepted and three settled. */
  lemma ShutdownSettlesTwice(c: Settings, a: Event, b: Event) returns (steps: seq<Step>, s: State)
    requires !c.overflow.DropOldest? && c.maxBatchSize == 1 && c.capacity == 2
    ensures Runs(c, START, steps, s)
    ensures s.accepted == [a, b] && s.settled == [a, b, b] && s.drained == [b]
    ensures s.log == [Delivery(c.route(a), [a], true), Delivery(c.route(b), [b], true)]
    ensures s.counts == Counts(2, 2, 0, 0, 1)
  {
    var first, s1 := ShutdownWaits(c, a, b);
    SecondFlush(c, s1, b);
    RunsAppend(c, START, first, s1, CompleteStep);
    var s2 := Apply(c, s1, CompleteStep);
    SettledAgain(c, s2, b);
    RunsAppend(c, START, first + [CompleteStep], s2, SettleStep(true, 0));
    steps, s := first + [CompleteStep] + [SettleStep(true, 0)], Apply(c, s2, SettleStep(true, 0));
  }

  lemma ShutdownWaits(c: Settings, a: Event, b: Event) returns (steps: seq<Step>, s: State)
    requires c.maxBatchSize == 1 && c.capacity == 2
    ensures Runs(c, START, steps, s)
    ensures s == State([b], 0, Finished, false, true, Counts(2, 1, 0, 0, 0), [a, b], [Gone(a, false)], [a], [],
                       [Delivery(c.route(a), [a], true)])
  {
    var first, s1 := [EnqueueStep(a), EnqueueStep(b)], Writing(c, a, b);
    WritingIsReached(c, a, b);
    FirstIsWritten(c, a, b);
    var s2 := s1.(accepting := false);
    var s3 := s2.(awaiting := true);
    s := Settle(s3, true, 0);
    RunsAppend(c, START, first, s1, ShutdownStep);
    RunsAppend(c, START, first + [ShutdownStep], s2, LeaveLoopStep);
    RunsAppend(c, START, first + [ShutdownStep] + [LeaveLoopStep], s3, SettleStep(true, 0));
    steps := first + [ShutdownStep] + [LeaveLoopStep] + [SettleStep(true, 0)];
  }

  lemma SettledAgain(c: Settings, s: State, b: Event)
    requires s.flush == InFlight([b], [Group(c.route(b), [b])], 1)
    ensures var s' := Settle(s, true, 0);
            && s'.settled == s.settled + [b] && s'.drained == s.drained && s'.accepted == s.accepted
            && s'.log == s.log + [Delivery(c.route(b), [b], true)]
            && s'.counts == s.counts.(written := s.counts.written + 1)
  {
  }

  /** The completion shutdown waits for begins a flush of the one event left and dead-letters it. */
  lemma SecondFlush(c: Settings, s: State, b: Event)
    requires c.maxBatchSize == 1 && s.queue == [b] && s.debt == 0 && s.awaiting && s.flush.Finished?
    ensures var s' := Complete(c, s);
            && s'.flush == InFlight([b], [Group(c.route(b), [b])], 1)
            && s'.queue == [] && s'.debt == 0 && s'.settled == s.settled + [b] && s'.drained == s.drained + [b]
            && s'.log == s.log && s'.accepted == s.accepted
            && s'.counts == s.counts.(deadLettered := s.counts.deadLettered + 1)
  {
    var s1 := s.(flush := NoFlush);
    assert Peek(c, s1) == [b];
    OneGroup(c, b);
    assert Peek(c, BeginIfFull(c, s1)) == [b];
  }
}
