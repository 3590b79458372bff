/** What holds in every run of the delivery pipeline (src/core/pipeline.ts). */
module PipelineRuns {
  import opened AuditTypes
  import opened PipelineSpec

  // ---------------------------------------------------------------------------
  // Every run, whatever the overflow policy

  function EventsGone(gone: seq<Gone>): (r: seq<Event>)
    ensures |r| == |gone| && forall i | 0 <= i < |r| :: r[i] == gone[i].ev
  {
    seq(|gone|, i requires 0 <= i < |gone| => gone[i].ev)
  }

  /** The batch in flight is the run of accepted events that was at the front when it began. */
  predicate Tracks(s: State) {
    s.flush.InFlight? ==>
      && s.flush.batch != [] && s.flush.taken <= |s.gone|
      && var p := |s.gone| - s.flush.taken;
         p + |s.flush.batch| <= |s.accepted| && s.flush.batch == s.accepted[p..p + |s.flush.batch|]
  }

  /** The events accepted are those that left at the front followed by those queued. */
  predicate Fifo(s: State) {
    s.accepted == EventsGone(s.gone) + s.queue
  }

  predicate AnyInv(s: State) {
    && Fifo(s) && Tracks(s)
    && (s.awaiting ==> !s.accepting)
    && (s.debt > 0 ==> s.queue == [] && !s.accepting)
    && (s.flush.InFlight? && s.accepting ==> |s.flush.batch| <= |s.queue|)
  }

  lemma FifoRemove(s: State, n: nat)
    requires Fifo(s)
    ensures Fifo(Remove(s, n))
  {
    var m := Min(n, |s.queue|);
    assert s.queue == s.queue[..m] + s.queue[m..];
    assert EventsGone(s.gone + Marked(s.queue[..m], false)) == EventsGone(s.gone) + s.queue[..m];
  }

  lemma RemoveTracks(s: State, n: nat)
    requires Tracks(s) && n <= |s.queue|
    ensures Tracks(Remove(s, n))
  {
  }

  /** Eviction, alone once shutdown began and followed by the new event before. */
  lemma EvictAny(s: State)
    requires Fifo(s) && Tracks(s) && s.queue != []
    ensures Fifo(Evict(s)) && Tracks(Evict(s))
  {
    assert s.queue == [s.queue[0]] + s.queue[1..];
    assert EventsGone(s.gone + [Gone(s.queue[0], true)]) == EventsGone(s.gone) + [s.queue[0]];
  }

  lemma FrontIsAccepted(s: State, n: nat)
    requires Fifo(s) && n <= |s.queue|
    ensures |s.gone| + n <= |s.accepted| && s.accepted[|s.gone|..|s.gone| + n] == s.queue[..n]
  {
  }

  lemma BeginAny(c: Settings, s: State)
    requires AnyInv(s)
    ensures AnyInv(Begin(c, s))
  {
    FrontIsAccepted(s, |Peek(c, s)|);
  }

  lemma SliceOfLonger(a: seq<Event>, e: Event, p: nat, n: nat)
    requires p + n <= |a|
    ensures (a + [e])[p..p + n] == a[p..p + n]
  {
  }

  lemma QueuedAny(s: State, e: Event)
    requires Fifo(s) && Tracks(s) && s.accepting && !s.awaiting && s.debt == 0
    requires s.flush.InFlight? ==> |s.flush.batch| <= |s.queue| + 1
    ensures AnyInv(Queued(s, e))
  {
    assert Queued(s, e).accepted == EventsGone(s.gone) + Queued(s, e).queue;
    if s.flush.InFlight? {
      SliceOfLonger(s.accepted, e, |s.gone| - s.flush.taken, |s.flush.batch|);
    }
  }

  lemma AppendAny(c: Settings, s: State, e: Event)
    requires Fifo(s) && Tracks(s) && s.accepting && !s.awaiting && s.debt == 0
    requires s.flush.InFlight? ==> |s.flush.batch| <= |s.queue| + 1
    ensures AnyInv(Append(c, s, e))
  {
    QueuedAny(s, e);
    BeginAny(c, Queued(s, e));
  }

  lemma FinalDrainAny(c: Settings, s: State)
    requires AnyInv(s) && !s.accepting
    ensures AnyInv(FinalDrain(c, s))
  {
    if Size(s) > 0 {
      FifoRemove(s, |Peek(c, s)|);
      RemoveTracks(s, |Peek(c, s)|);
    }
  }

  lemma ClearedAny(s: State)
    requires AnyInv(s) && s.flush.InFlight?
    ensures AnyInv(Cleared(s))
  {
    FifoRemove(s, |s.flush.batch|);
  }

  lemma LoggedAny(s: State, written: bool, retries: nat)
    requires AnyInv(s) && s.flush.InFlight? && s.flush.todo != []
    ensures AnyInv(Logged(s, written, retries))
  {
  }

  lemma EnqueueAny(c: Settings, s: State, e: Event)
    requires AnyInv(s)
    ensures AnyInv(Enqueue(c, s, e).state)
  {
    if Size(s) >= c.capacity {
      if c.overflow.DropOldest? {
        EvictAny(s);
        if s.accepting {
          AppendAny(c, Evict(s), e);
        }
      } else if c.overflow.Block? && s.accepting {
        BeginAny(c, s);
      }
    } else if s.accepting {
      AppendAny(c, s, e);
    }
  }

  lemma NoFlushAny(s: State)
    requires AnyInv(s)
    ensures AnyInv(s.(flush := NoFlush))
  {
  }

  lemma BeginIfFullAny(c: Settings, s: State)
    requires AnyInv(s)
    ensures AnyInv(BeginIfFull(c, s)) && BeginIfFull(c, s).accepting == s.accepting
  {
    BeginAny(c, s);
  }

  lemma NotAwaitingAny(s: State)
    requires AnyInv(s)
    ensures AnyInv(s.(awaiting := false))
  {
  }

  lemma CompleteAny(c: Settings, s: State)
    requires AnyInv(s) && s.flush.Finished?
    ensures AnyInv(Complete(c, s))
  {
    var next := BeginIfFull(c, s.(flush := NoFlush));
    NoFlushAny(s);
    BeginIfFullAny(c, s.(flush := NoFlush));
    if s.awaiting {
      FinalDrainAny(c, next);
      NotAwaitingAny(FinalDrain(c, next));
    }
  }

  lemma StepAny(c: Settings, s: State, step: Step)
    requires AnyInv(s) && Enabled(s, step)
    ensures AnyInv(Apply(c, s, step))
  {
    match step
    case EnqueueStep(e) => EnqueueAny(c, s, e);
    case FlushStep => BeginAny(c, s);
    case SettleStep(written, retries) => {
      LoggedAny(s, written, retries);
      ClearedAny(Logged(s, written, retries));
    }
    case CompleteStep => CompleteAny(c, s);
    case ShutdownStep =>
    case LeaveLoopStep =>
      if s.flush == NoFlush {
        FinalDrainAny(c, s);
      }
  }
}
