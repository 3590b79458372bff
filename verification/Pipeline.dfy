/** The delivery pipeline (src/core/pipeline.ts): a ring buffer, one active flush, retries, dead
    letters and shutdown. Every method is what the program runs between two points where it awaits,
    and is proved to do to the queue what the specification says. */
module Pipeline {
  import opened Wrappers
  import opened AuditTypes
  import opened Grouping
  import opened PipelineSpec

  // ---------------------------------------------------------------------------
  // Rings

  type Slots = seq<Option<Event>>

  /** Position `x` of a ring of `n` slots. */
  function Wrap(x: nat, n: nat): (r: nat)
    requires x < 2 * n
    ensures r < n
  {
    if x < n then x else x - n
  }

  lemma WrapIsMod(x: nat, n: nat)
    requires 0 < n && x < 2 * n
    ensures x % n == Wrap(x, n)
  {
    if x >= n {
      assert x / n == 1;
    }
  }

  predicate HoldsAt(slots: Slots, head: nat, ring: seq<Event>, i: nat)
    requires head < |slots| && |ring| <= |slots| && i < |ring|
  {
    slots[Wrap(head + i, |slots|)] == Some(ring[i])
  }

  /** The slots from `head` on hold the events of `ring`. */
  ghost predicate IsRing(slots: Slots, head: nat, ring: seq<Event>) {
    && head < |slots| && |ring| <= |slots|
    && forall i: nat | i < |ring| :: HoldsAt(slots, head, ring, i)
  }

  lemma RingPush(slots: Slots, head: nat, ring: seq<Event>, e: Event)
    requires IsRing(slots, head, ring) && |ring| < |slots|
    ensures IsRing(slots[Wrap(head + |ring|, |slots|) := Some(e)], head, ring + [e])
  {
    var slots', ring' := slots[Wrap(head + |ring|, |slots|) := Some(e)], ring + [e];
    forall i: nat | i < |ring'| ensures HoldsAt(slots', head, ring', i) {
      if i < |ring| {
        assert HoldsAt(slots, head, ring, i);
      }
    }
  }

  lemma RingPop(slots: Slots, head: nat, ring: seq<Event>)
    requires IsRing(slots, head, ring)
    ensures IsRing(slots[head := None], Wrap(head + 1, |slots|), Rest(ring))
  {
    var slots', head' := slots[head := None], Wrap(head + 1, |slots|);
    var ring' := Rest(ring);
    forall i: nat | i < |ring'| ensures HoldsAt(slots', head', ring', i) {
      assert HoldsAt(slots, head, ring, i + 1);
    }
  }

  /** What is left of a queue after its first event, and after `n` events, were taken. */
  function Rest(q: seq<Event>): seq<Event> {
    if q == [] then [] else q[1..]
  }

  function DropFront(q: seq<Event>, n: nat): seq<Event> {
    if n == 0 then q else Rest(DropFront(q, n - 1))
  }

  lemma {:induction false} DropFrontIs(q: seq<Event>, n: nat)
    ensures DropFront(q, n) == q[Min(n, |q|)..]
  {
    if n == 0 {
    } else {
      DropFrontIs(q, n - 1);
    }
  }

  // ---------------------------------------------------------------------------
  // Retries

  /** How many attempts of a write fail: five, or those before the first that succeeds. */
  function Failures(succeeds: nat -> bool, attempts: nat): (n: nat)
    requires attempts <= MAX_ATTEMPTS
    ensures attempts <= n <= MAX_ATTEMPTS
    ensures forall k | attempts <= k < n :: !succeeds(k)
    ensures n < MAX_ATTEMPTS ==> succeeds(n)
    decreases MAX_ATTEMPTS - attempts
  {
    if attempts == MAX_ATTEMPTS || succeeds(attempts) then attempts else Failures(succeeds, attempts + 1)
  }

  // ---------------------------------------------------------------------------
  // The pipeline

  class AuditPipeline {
    const c: Settings
    const buffer: array<Option<Event>>
    var head: nat
    var tail: nat
    var size: int
    var active: bool
    var batch: seq<Event>
    var todo: seq<Group<Event>>
    var accepting: bool
    var awaiting: bool
    var counts: Counts
    ghost var ring: seq<Event>
    ghost var state: State

    /** The buffer, its indices and its size represent the ring. */
    ghost predicate RingOk()
      reads this`head, this`tail, this`size, this`ring, buffer
    {
      && buffer.Length == c.capacity && tail < c.capacity
      && IsRing(buffer[..], head, ring)
      && |ring| == (if size >= 0 then size else 0)
      && (size >= 0 ==> tail == Wrap(head + size, c.capacity))
    }

    /** The active flush is that of the state. */
    ghost predicate FlushOk()
      reads this`active, this`batch, this`todo, this`state
    {
      match state.flush
      case NoFlush => !active
      case InFlight(b, t, taken) => active && batch == b && todo == t && t != []
      case Finished => active && todo == []
    }

    /** The fields represent the state. Where the size has fallen below zero nothing is accepted. */
    ghost predicate Represents()
      reads this, buffer
    {
      && RingOk() && FlushOk()
      && ring == state.queue && state.debt == (if size < 0 then -size else 0)
      && accepting == state.accepting && awaiting == state.awaiting && counts == state.counts
      && (size < 0 ==> !accepting)
    }

    /** Between two steps, besides: as long as events are accepted the queue is no shorter than the
        batch in flight, and only a shutdown waits for a flush. */
    ghost predicate Valid()
      reads this, buffer
    {
      Represents() && (active && todo != [] && accepting ==> |batch| <= |ring|) && (awaiting ==> !accepting)
    }

    constructor (settings: Settings)
      ensures Valid() && c == settings && state == START && fresh(buffer)
    {
      c := settings;
      buffer := new Option<Event>[settings.capacity](i => None);
      head, tail, size := 0, 0, 0;
      active, batch, todo := false, [], [];
      accepting, awaiting := true, false;
      counts := Counts(0, 0, 0, 0, 0);
      ring, state := [], START;
    }

    method PeekBuffer() returns (front: seq<Event>)
      requires Valid()
      ensures front == Peek(c, state)
    {
      var batchSize := if size <= c.maxBatchSize then size else c.maxBatchSize;
      front := [];
      var i := 0;
      while i < batchSize
        invariant 0 <= i && (0 <= batchSize ==> i <= batchSize) && (batchSize < 0 ==> i == 0)
        invariant front == ring[..i]
      {
        assert HoldsAt(buffer[..], head, ring, i);
        WrapIsMod(head + i, c.capacity);
        front := front + [buffer[(head + i) % c.capacity].value];
        i := i + 1;
      }
    }

    /** Starts a flush unless one is active or the buffer is empty, up to its first wait: the oldest
        events, at most one batch, are in flight, grouped by store, and stay in the ring. */
    method Flush()
      requires Valid()
      modifies this`active, this`batch, this`todo, this`state
      ensures Valid() && state == Begin(c, old(state))
      ensures old(active) || size == 0 ==> active == old(active) && batch == old(batch) && todo == old(todo)
      ensures !old(active) && size > 0 ==>
                && active && batch == ring[..if |ring| <= c.maxBatchSize then |ring| else c.maxBatchSize]
                && IsGrouping(c.route, batch, todo)
    {
      if active || size == 0 {
        return;
      }
      batch := PeekBuffer();
      todo := GroupBy(c.route, batch);
      GroupsOfBatch(c, batch);
      active := true;
      state := Begin(c, state);
    }

    method FlushIfFull()
      requires Valid()
      modifies this`active, this`batch, this`todo, this`state
      ensures Valid() && state == BeginIfFull(c, old(state))
    {
      if size >= c.maxBatchSize {
        Flush();
      }
    }

    /** Clears the slot at the head and moves the head on. */
    method PopFront()
      requires RingOk()
      modifies this`head, this`size, this`ring, buffer
      ensures RingOk() && size == old(size) - 1
      ensures ring == Rest(old(ring))
    {
      RingPop(buffer[..], head, ring);
      WrapIsMod(head + 1, c.capacity);
      ghost var slots := buffer[..];
      buffer[head] := None;
      assert buffer[..] == slots[head := None];
      head := (head + 1) % c.capacity;
      size := size - 1;
      ring := Rest(ring);
    }

    /** Clears as many slots as the batch had events. */
    method RemoveBuffered(count: nat)
      requires RingOk()
      modifies this`head, this`size, this`ring, buffer
      ensures RingOk() && size == old(size) - count
      ensures ring == DropFront(old(ring), count)
    {
      ghost var was := ring;
      for i := 0 to count
        invariant RingOk() && size == old(size) - i && ring == DropFront(was, i)
      {
        PopFront();
      }
    }

    /** Evicts the oldest event. */
    method DropOldest()
      requires Represents() && ring != []
      modifies this`head, this`size, this`ring, this`state, this`counts, buffer
      ensures Represents() && state == Evict(old(state))
    {
      PopFront();
      counts := counts.(dropped := counts.dropped + 1);
      state := Evict(state);
    }

    /** Makes room for a new event, or turns it away. */
    method HandleOverflow() returns (room: bool)
      requires Represents() && ring != [] && !c.overflow.Block?
      modifies this`head, this`size, this`ring, this`state, this`counts, buffer
      ensures Represents() && room == c.overflow.DropOldest?
      ensures state == if room then Evict(old(state)) else Dropped(old(state))
    {
      if c.overflow == DropNew {
        counts := counts.(dropped := counts.dropped + 1);
        state := Dropped(state);
        return false;
      }
      DropOldest();
      return true;
    }

    /** Stores the event in the slot at the tail. */
    method Push(event: Event)
      requires Represents() && accepting && size < c.capacity
      modifies this`tail, this`size, this`ring, this`state, this`counts, buffer
      ensures Represents() && state == Queued(old(state), event)
    {
      RingPush(buffer[..], head, ring, event);
      WrapIsMod(tail + 1, c.capacity);
      ghost var slots := buffer[..];
      buffer[tail] := Some(event);
      assert buffer[..] == slots[tail := Some(event)];
      tail := (tail + 1) % c.capacity;
      size := size + 1;
      ring := ring + [event];
      counts := counts.(queued := counts.queued + 1);
      state := Queued(state, event);
    }

    /** One uninterrupted run of `enqueue`; a caller told to wait runs it again when woken. */
    method EnqueueOnce(event: Event) returns (outcome: Outcome)
      requires Valid()
      modifies this, buffer
      ensures Valid() && Attempt(state, outcome) == Enqueue(c, old(state), event)
    {
      if size >= c.capacity {
        if c.overflow != Block {
          var room := HandleOverflow();
          if !room {
            return Rejected;
          }
        } else {
          if !accepting {
            return Rejected;
          }
          Flush();
          return Waits;
        }
      }
      if !accepting {
        return Rejected;
      }
      Push(event);
      FlushIfFull();
      return Accepted;
    }

    /** Writes one group, with at most five attempts: written at the first that succeeds,
        dead-lettered after the fifth that fails. */
    method WriteWithRetry(group: Group<Event>, succeeds: nat -> bool) returns (ok: bool)
      modifies this`counts
      ensures ok == (Failures(succeeds, 0) < MAX_ATTEMPTS)
      ensures counts == old(counts).(
                written := old(counts).written + (if ok then |group.items| else 0),
                deadLettered := old(counts).deadLettered + (if ok then 0 else |group.items|),
                retried := old(counts).retried + Failures(succeeds, 0))
    {
      var attempts: nat := 0;
      while attempts < MAX_ATTEMPTS
        invariant attempts < MAX_ATTEMPTS && Failures(succeeds, attempts) == Failures(succeeds, 0)
        invariant counts == old(counts).(retried := old(counts).retried + attempts)
        decreases MAX_ATTEMPTS - attempts
      {
        if succeeds(attempts) {
          counts := counts.(written := counts.written + |group.items|);
          return true;
        }
        attempts := attempts + 1;
        counts := counts.(retried := counts.retried + 1);
        if attempts >= MAX_ATTEMPTS {
          counts := counts.(deadLettered := counts.deadLettered + |group.items|);
          return false;
        }
      }
      return false;
    }

    /** The active flush writes a group that is not its last. */
    method RunGroup(succeeds: nat -> bool) returns (ok: bool)
      requires Valid() && active && |todo| > 1
      modifies this`counts, this`todo, this`state
      ensures Valid() && ok == (Failures(succeeds, 0) < MAX_ATTEMPTS)
      ensures state == Settle(old(state), ok, Failures(succeeds, 0))
    {
      ok := WriteWithRetry(todo[0], succeeds);
      todo := todo[1..];
      state := Logged(state, ok, Failures(succeeds, 0));
    }

    /** The active flush writes its last group and clears its batch. */
    method RunLastGroup(succeeds: nat -> bool) returns (ok: bool)
      requires Valid() && active && |todo| == 1
      modifies this`counts, this`todo, this`head, this`size, this`ring, this`state, buffer
      ensures Valid() && ok == (Failures(succeeds, 0) < MAX_ATTEMPTS)
      ensures state == Settle(old(state), ok, Failures(succeeds, 0))
    {
      ok := WriteWithRetry(todo[0], succeeds);
      state := Logged(state, ok, Failures(succeeds, 0));
      ClearBatch();
    }

    method ClearBatch()
      requires RingOk() && active && |todo| == 1
      requires ring == state.queue && state.debt == (if size < 0 then -size else 0)
      requires accepting == state.accepting && awaiting == state.awaiting && counts == state.counts
      requires state.flush.InFlight? && state.flush.batch == batch && (size < |batch| ==> !accepting) && (awaiting ==> !accepting)
      modifies this`todo, this`head, this`size, this`ring, this`state, buffer
      ensures Valid() && state == Cleared(old(state))
    {
      ghost var cleared := Cleared(state);
      ClearedFacts(state, size);
      RemoveBuffered(|batch|);
      todo := [];
      state := cleared;
    }

    /** What is left at the end of shutdown, but at most one batch, is dead-lettered. */
    method DrainBuffer()
      requires Valid() && !accepting
      modifies this`counts, this`head, this`size, this`ring, this`state, buffer
      ensures Valid() && state == FinalDrain(c, old(state))
    {
      if size > 0 {
        var pending := PeekBuffer();
        DropFrontIs(ring, |pending|);
        RemoveBuffered(|pending|);
        counts := counts.(deadLettered := counts.deadLettered + |pending|);
        state := FinalDrain(c, state);
      }
    }

    /** The rest of a shutdown that waits for the flush. */
    method EndIfAwaiting()
      requires Valid()
      modifies this`awaiting, this`counts, this`head, this`size, this`ring, this`state, buffer
      ensures Valid()
      ensures state == if old(awaiting) then FinalDrain(c, old(state)).(awaiting := false) else old(state)
    {
      if awaiting {
        DrainBuffer();
        awaiting := false;
        state := state.(awaiting := false);
      }
    }

    /** The completion of a flush. */
    method CompleteFlush()
      requires Valid() && active && todo == []
      modifies this, buffer
      ensures Valid() && state == Complete(c, old(state))
    {
      active := false;
      state := state.(flush := NoFlush);
      FlushIfFull();
      EndIfAwaiting();
    }

    method BeginShutdown()
      requires Valid()
      modifies this`accepting, this`state
      ensures Valid() && state == old(state).(accepting := false)
    {
      accepting := false;
      state := state.(accepting := false);
    }

    /** Shutdown after its loop: waits for the active flush, or ends. */
    method EndShutdown()
      requires Valid() && !accepting
      modifies this, buffer
      ensures Valid() && state == LeaveLoop(c, old(state))
    {
      if active {
        awaiting := true;
        state := state.(awaiting := true);
      } else {
        DrainBuffer();
      }
    }
  }

  lemma GroupsOfBatch(c: Settings, batch: seq<Event>)
    ensures GroupAll(c.route, batch) == [] <==> batch == []
  {
    GroupAllIs(c.route, batch);
    if batch != [] {
      assert batch[0] in batch;
    }
  }

  lemma ClearedFacts(s: State, size: int)
    requires s.flush.InFlight?
    requires |s.queue| == (if size >= 0 then size else 0) && s.debt == (if size < 0 then -size else 0)
    ensures var n := |s.flush.batch|;
            && Cleared(s).queue == DropFront(s.queue, n)
            && Cleared(s).debt == (if size - n < 0 then n - size else 0)
            && Cleared(s).flush == Finished && Cleared(s).counts == s.counts
            && Cleared(s).accepting == s.accepting && Cleared(s).awaiting == s.awaiting
  {
    DropFrontIs(s.queue, |s.flush.batch|);
  }
}
