/** What the delivery pipeline (src/core/pipeline.ts) can always do next: take in an event, start a
    flush, and settle everything that is queued. */
module PipelineProgress {
  import opened AuditTypes
  import opened Grouping
  import opened PipelineSpec
  import opened PipelineRuns
  import opened PipelineCalm

  // ---------------------------------------------------------------------------
  // One step

  /** With no flush active and an event queued, a flush step puts the oldest events in flight, a batch of
      them or all where there are fewer, partitioned by their stores; they stay queued. */
  lemma FlushTakesTheFront(c: Settings, s: State)
    requires s.flush == NoFlush && s.debt == 0 && s.queue != []
    ensures var n := if |s.queue| <= c.maxBatchSize then |s.queue| else c.maxBatchSize;
            var s' := Apply(c, s, FlushStep);
            && s' == s.(flush := s'.flush)
            && s'.flush.InFlight? && s'.flush.batch == s.queue[..n] && s'.flush.taken == 0
            && s'.flush.todo != [] && IsGrouping(c.route, s.queue[..n], s'.flush.todo)
  {
    var batch := Peek(c, s);
    CountOfAll(c, batch);
    GroupAllIs(c.route, batch);
  }

  /** When a call is accepted, when it waits and when it is turned away, and what it does to the queue
      and the counters. */
  lemma EnqueueIs(c: Settings, s: State, e: Event)
    requires AnyInv(s)
    ensures var full := Size(s) >= c.capacity;
            var r := Enqueue(c, s, e);
            && (r.outcome == Accepted <==> s.accepting && (!full || c.overflow.DropOldest?))
            && (r.outcome == Waits <==> s.accepting && full && c.overflow.Block?)
            && r.state.accepted == s.accepted + (if r.outcome == Accepted then [e] else [])
            && r.state.counts.queued == s.counts.queued + (if r.outcome == Accepted then 1 else 0)
            && r.state.counts.dropped == s.counts.dropped + (if full && !c.overflow.Block? then 1 else 0)
            && (r.outcome == Accepted ==> r.state.queue == (if full then s.queue[1..] else s.queue) + [e])
  {
  }

  // ---------------------------------------------------------------------------
  // Everything queued can be settled

  /** A step of delivering what is queued. */
  predicate Delivers(step: Step) {
    step.FlushStep? || step.SettleStep? || step.CompleteStep?
  }

  predicate AllDeliver(steps: seq<Step>) {
    forall i | 0 <= i < |steps| :: Delivers(steps[i])
  }

  /** The next such step. `up` says which stores take what they are given. */
  function Work(s: State, up: string -> bool): Step
    requires s.flush.InFlight? ==> s.flush.todo != []
  {
    match s.flush
    case NoFlush => FlushStep
    case InFlight(batch, todo, taken) => SettleStep(up(todo[0].name), if up(todo[0].name) then 0 else MAX_ATTEMPTS)
    case Finished => CompleteStep
  }

  function Rank(f: Flush): nat {
    match f
    case NoFlush => 1
    case InFlight(batch, todo, taken) => 0
    case Finished => 2
  }

  function Left(f: Flush): nat {
    if f.InFlight? then |f.todo| else 0
  }

  predicate Resting(s: State) {
    s.queue == [] && s.flush == NoFlush
  }

  /** The step leaves less to do. */
  predicate Closer(s: State, s': State) {
    || |s'.queue| < |s.queue|
    || (|s'.queue| == |s.queue| && Rank(s'.flush) < Rank(s.flush))
    || (|s'.queue| == |s.queue| && Rank(s'.flush) == Rank(s.flush) && Left(s'.flush) < Left(s.flush))
  }

  lemma SettlingIsCloser(s: State, written: bool, retries: nat)
    requires AnyInv(s) && s.flush.InFlight? && s.flush.taken == 0 && s.flush.todo != []
    ensures Closer(s, Settle(s, written, retries))
  {
    BatchIsFront(s);
  }

  /** What stays as it is, and that there is less to do. */
  predicate Advances(s: State, s': State) {
    !s'.awaiting && s'.accepting == s.accepting && s'.accepted == s.accepted && Closer(s, s')
  }

  lemma CompletingIsCloser(c: Settings, s: State)
    requires s.flush.Finished? && !s.awaiting
    ensures Advances(s, Complete(c, s))
  {
  }

  lemma WorkIsEnabled(c: Settings, s: State, up: string -> bool)
    requires CalmInv(c, s) && !s.awaiting
    ensures Enabled(s, Work(s, up)) && Calm(c, s, Work(s, up))
  {
  }

  lemma WorkIsCloser(c: Settings, s: State, up: string -> bool)
    requires AnyInv(s) && FlightOk(c, s.flush) && s.debt == 0 && !s.awaiting && !Resting(s) && Enabled(s, Work(s, up))
    ensures Advances(s, Apply(c, s, Work(s, up)))
  {
    match s.flush
    case NoFlush => FlushTakesTheFront(c, s);
    case InFlight(batch, todo, taken) => SettlingIsCloser(s, up(todo[0].name), if up(todo[0].name) then 0 else MAX_ATTEMPTS);
    case Finished => CompletingIsCloser(c, s);
  }

  lemma WorkKeeps(c: Settings, s: State, up: string -> bool)
    requires CalmInv(c, s) && !s.awaiting && !Resting(s)
    ensures Enabled(s, Work(s, up)) && Calm(c, s, Work(s, up))
    ensures CalmInv(c, Apply(c, s, Work(s, up))) && Advances(s, Apply(c, s, Work(s, up)))
  {
    WorkIsEnabled(c, s, up);
    WorkIsCloser(c, s, up);
    StepCalm(c, s, Work(s, up));
  }

  /** Flushing, settling and completing, whichever stores are up, end with nothing queued. */
  lemma {:induction false} Settles(c: Settings, s: State, up: string -> bool) returns (steps: seq<Step>, s': State)
    requires CalmInv(c, s) && !s.awaiting
    ensures CalmRuns(c, s, steps, s') && AllDeliver(steps)
    ensures Resting(s') && s'.accepting == s.accepting && s'.accepted == s.accepted
    decreases |s.queue|, Rank(s.flush), Left(s.flush)
  {
    if Resting(s) {
      steps, s' := [], s;
    } else {
      var step := Work(s, up);
      WorkKeeps(c, s, up);
      var rest;
      rest, s' := Settles(c, Apply(c, s, step), up);
      steps := [step] + rest;
      assert steps[1..] == rest;
    }
  }

  lemma {:induction false} CalmRunsConcat(c: Settings, s: State, a: seq<Step>, s1: State, b: seq<Step>, s2: State)
    requires CalmRuns(c, s, a, s1) && CalmRuns(c, s1, b, s2)
    ensures CalmRuns(c, s, a + b, s2)
    decreases |a|
  {
    if a == [] {
      assert a + b == b;
    } else {
      CalmRunsConcat(c, Apply(c, s, a[0]), a[1..], s1, b, s2);
      assert (a + b)[1..] == a[1..] + b;
    }
  }

  /** Whatever was enqueued and written so far, and whichever stores are up from now on: flushes, writes
      and completions alone bring the pipeline to where nothing is queued or in flight and, with `dropNew`
      and `block`, every accepted event has been settled once, in order. A caller that waits for room is
      then accepted. */
  lemma EveryEventCanBeSettled(c: Settings, before: seq<Step>, s: State, up: string -> bool) returns (steps: seq<Step>, s': State)
    requires CalmRuns(c, START, before, s) && !s.awaiting
    ensures CalmRuns(c, START, before + steps, s') && AllDeliver(steps)
    ensures Resting(s') && s'.accepted == s.accepted
    ensures !c.overflow.DropOldest? ==> AllSettled(s')
    ensures s.accepting ==> forall e :: Enqueue(c, s', e).outcome == Accepted
  {
    StartCalm(c);
    CalmRunKeeps(c, START, before, s);
    steps, s' := Settles(c, s, up);
    CalmRunsConcat(c, START, before, s, steps, s');
    CalmRunKeeps(c, START, before + steps, s');
    if !c.overflow.DropOldest? {
      AcceptedIsSettledThenQueued(c, before + steps, s');
    }
    forall e | s.accepting ensures Enqueue(c, s', e).outcome == Accepted {
      EnqueueIs(c, s', e);
    }
  }
}
