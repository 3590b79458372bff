/** What the delivery pipeline does (src/core/pipeline.ts), step by step, on values: the ring is a
    queue, and a step is what the program runs between two points where it awaits. */
module PipelineSpec {
  import opened AuditTypes
  import opened Grouping

  datatype Overflow = DropNew | DropOldest | Block

  datatype Config = Config(maxBatchSize: nat, capacity: nat, overflow: Overflow, route: Event -> string)

  type Settings = c: Config | c.maxBatchSize >= 1 && c.capacity >= 1 witness Config(1, 1, DropNew, (e: Event) => "default")

  /** The active flush: its batch, the groups whose write has not ended, and how many events were
      taken from the front of the queue since it began. Once it has removed its batch it stays
      active until its completion runs. */
  datatype Flush = NoFlush | InFlight(batch: seq<Event>, todo: seq<Group<Event>>, taken: nat) | Finished

  /** An attempt at delivery that ended: the events were written to the store or dead-lettered. */
  datatype Delivery = Delivery(store: string, events: seq<Event>, written: bool)

  /** An event that left the queue at its front. */
  datatype Gone = Gone(ev: Event, evicted: bool)

  datatype Counts = Counts(queued: nat, written: nat, dropped: nat, retried: nat, deadLettered: nat)

  /** The state. `debt` is how far the size has fallen below zero; `awaiting` says that shutdown
      waits for the active flush. The last five are records the program does not keep: the events
      accepted, those that left the queue, those settled (written or dead-lettered), those among
      them that shutdown dead-lettered at its end, and the deliveries to stores. */
  datatype State = State(
    queue: seq<Event>,
    debt: nat,
    flush: Flush,
    accepting: bool,
    awaiting: bool,
    counts: Counts,
    accepted: seq<Event>,
    gone: seq<Gone>,
    settled: seq<Event>,
    drained: seq<Event>,
    log: seq<Delivery>)

  datatype Outcome = Accepted | Rejected | Waits

  const START: State := State([], 0, NoFlush, true, false, Counts(0, 0, 0, 0, 0), [], [], [], [], [])

  function Size(s: State): int {
    |s.queue| - s.debt
  }

  function Min(a: nat, b: nat): nat {
    if a <= b then a else b
  }

  /** The batch a flush or the final drain takes. */
  function Peek(c: Settings, s: State): seq<Event> {
    s.queue[..Min(|s.queue|, c.maxBatchSize)]
  }

  /** Starts a flush unless one is active or the queue is empty. */
  function Begin(c: Settings, s: State): State {
    if s.flush != NoFlush || Size(s) == 0 then s
    else
      var batch := Peek(c, s);
      s.(flush := if batch == [] then Finished else InFlight(batch, GroupAll(c.route, batch), 0))
  }

  function BeginIfFull(c: Settings, s: State): State {
    if Size(s) >= c.maxBatchSize then Begin(c, s) else s
  }

  function Marked(events: seq<Event>, evicted: bool): (r: seq<Gone>)
    ensures |r| == |events| && forall i | 0 <= i < |r| :: r[i] == Gone(events[i], evicted)
  {
    seq(|events|, i requires 0 <= i < |events| => Gone(events[i], evicted))
  }

  function Taken(f: Flush, n: nat): Flush {
    if f.InFlight? then f.(taken := f.taken + n) else f
  }

  /** Takes `n` events from the front; where there are fewer the size falls below zero. */
  function Remove(s: State, n: nat): State {
    var m := Min(n, |s.queue|);
    s.(queue := s.queue[m..], debt := s.debt + (n - m), gone := s.gone + Marked(s.queue[..m], false), flush := Taken(s.flush, n))
  }

  function Evict(s: State): State
    requires s.queue != []
  {
    s.(queue := s.queue[1..], gone := s.gone + [Gone(s.queue[0], true)], flush := Taken(s.flush, 1),
       counts := s.counts.(dropped := s.counts.dropped + 1))
  }

  function Dropped(s: State): State {
    s.(counts := s.counts.(dropped := s.counts.dropped + 1))
  }

  function Queued(s: State, e: Event): State {
    s.(queue := s.queue + [e], accepted := s.accepted + [e], counts := s.counts.(queued := s.counts.queued + 1))
  }

  function Append(c: Settings, s: State, e: Event): State {
    BeginIfFull(c, Queued(s, e))
  }

  datatype Attempt = Attempt(state: State, outcome: Outcome)

  /** One uninterrupted run of `enqueue`; a caller told to wait runs it again when woken. */
  function Enqueue(c: Settings, s: State, e: Event): Attempt {
    if Size(s) >= c.capacity then
      match c.overflow
      case DropNew => Attempt(Dropped(s), Rejected)
      case DropOldest =>
        if s.accepting then Attempt(Append(c, Evict(s), e), Accepted) else Attempt(Evict(s), Rejected)
      case Block => if s.accepting then Attempt(Begin(c, s), Waits) else Attempt(s, Rejected)
    else if s.accepting then Attempt(Append(c, s, e), Accepted)
    else Attempt(s, Rejected)
  }

  const MAX_ATTEMPTS: nat := 5

  /** What the end of the first group's write records, after `retries` failures. */
  function Logged(s: State, written: bool, retries: nat): State
    requires s.flush.InFlight? && s.flush.todo != []
  {
    var g := s.flush.todo[0];
    var n := |g.items|;
    s.(counts := s.counts.(
         written := s.counts.written + (if written then n else 0),
         deadLettered := s.counts.deadLettered + (if written then 0 else n),
         retried := s.counts.retried + retries),
       log := s.log + [Delivery(g.name, g.items, written)],
       flush := s.flush.(todo := s.flush.todo[1..]))
  }

  /** After the last group as many events as the batch has leave the queue; the batch is settled. */
  function Cleared(s: State): State
    requires s.flush.InFlight?
  {
    Remove(s, |s.flush.batch|).(flush := Finished, settled := s.settled + s.flush.batch)
  }

  /** The write of the first group ended. */
  function Settle(s: State, written: bool, retries: nat): State
    requires s.flush.InFlight? && s.flush.todo != []
  {
    if |s.flush.todo| == 1 then Cleared(Logged(s, written, retries)) else Logged(s, written, retries)
  }

  /** The last act of shutdown: what is left, but at most one batch, is dead-lettered. */
  function FinalDrain(c: Settings, s: State): State {
    if Size(s) <= 0 then s
    else
      var batch := Peek(c, s);
      Remove(s, |batch|).(settled := s.settled + batch,
                          drained := s.drained + batch,
                          counts := s.counts.(deadLettered := s.counts.deadLettered + |batch|))
  }

  /** The completion of a flush, which starts the next one where a whole batch is queued; and where
      shutdown waits for the flush, the rest of shutdown right after it. */
  function Complete(c: Settings, s: State): State {
    var next := BeginIfFull(c, s.(flush := NoFlush));
    if s.awaiting then FinalDrain(c, next).(awaiting := false) else next
  }

  /** Shutdown leaves its loop: the queue is empty or the deadline has passed. */
  function LeaveLoop(c: Settings, s: State): State {
    if s.flush == NoFlush then FinalDrain(c, s) else s.(awaiting := true)
  }

  datatype Step =
    | EnqueueStep(e: Event)
    | FlushStep
    | SettleStep(written: bool, retries: nat)
    | CompleteStep
    | ShutdownStep
    | LeaveLoopStep

  predicate Enabled(s: State, step: Step) {
    match step
    case EnqueueStep(e) => true
    case FlushStep => true
    case SettleStep(written, retries) =>
      s.flush.InFlight? && s.flush.todo != [] && (if written then retries < MAX_ATTEMPTS else retries == MAX_ATTEMPTS)
    case CompleteStep => s.flush.Finished?
    case ShutdownStep => s.accepting
    case LeaveLoopStep => !s.accepting && !s.awaiting
  }

  function Apply(c: Settings, s: State, step: Step): State
    requires Enabled(s, step)
  {
    match step
    case EnqueueStep(e) => Enqueue(c, s, e).state
    case FlushStep => Begin(c, s)
    case SettleStep(written, retries) => Settle(s, written, retries)
    case CompleteStep => Complete(c, s)
    case ShutdownStep => s.(accepting := false)
    case LeaveLoopStep => LeaveLoop(c, s)
  }

  /** The state after the steps; None where one is not possible. */
  predicate Runs(c: Settings, s: State, steps: seq<Step>, s': State)
    decreases |steps|
  {
    if steps == [] then s' == s
    else Enabled(s, steps[0]) && Runs(c, Apply(c, s, steps[0]), steps[1..], s')
  }
}
