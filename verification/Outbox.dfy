/** The outbox relay (src/core/outbox_drainer.ts) as a transition system over an outbox table and
    the SQL store: any number of drains claim rows, write their events, and acknowledge or fail
    them, one statement per step, while others submit, requeue and write. A drain may stop at any
    point, and its claims go stale with the one clock. */
module Outbox {
  import opened Wrappers
  import opened AuditTypes
  import opened AuditStore

  datatype Status = Pending | Processing | Processed | Failed

  /** An outbox row. The last two fields are records the program does not keep: how often the row
      was claimed, and how often a failed delivery of it was recorded, since it was submitted or
      requeued. */
  datatype OutboxRow = OutboxRow(
    payload: string,
    status: Status,
    attempts: int,
    availableAt: int,
    claimedAt: Option<int>,
    claims: nat,
    failures: nat)

  /** What a drain remembers of a row it selected. */
  datatype Snapshot = Snapshot(id: string, payload: string, attempts: int)

  /** Where a drain stands. The first of `rows` is the row it is working on. */
  datatype Drain =
    | Resting
    | Draining(rows: seq<Snapshot>)
    | Clocked(rows: seq<Snapshot>, claimedAt: int)
    | Delivering(rows: seq<Snapshot>, claimedAt: int, attempts: int, events: seq<Event>, started: bool)
    | Acking(rows: seq<Snapshot>, claimedAt: int, attempts: int, events: seq<Event>)
    | Failing(rows: seq<Snapshot>, claimedAt: int, attempts: int, terminal: bool)

  /** `parse` reads a payload; None where it throws. */
  datatype Relay = Relay(
    store: Cfg,
    parse: string -> Option<seq<Event>>,
    staleClaimMs: int,
    maxAttempts: int,
    retryDelayMs: int)

  datatype System = System(store: Store, box: map<string, OutboxRow>, drains: map<string, Drain>, clock: int)

  datatype Move =
    | Submit(id: string, payload: string)
    | Requeue(id: string)
    | Tick(now: int)
    | StoreMove(step: Step)
    | Select(now: int, rows: seq<Snapshot>)
    | ReadClock
    | Claim
    | Begin(existing: map<string, Row>)
    | Done
    | Threw
    | Ack
    | AckThrew(applied: bool)
    | Fail
    | Stop

  function Of(s: System, d: string): Drain {
    if d in s.drains then s.drains[d] else Resting
  }

  function Set(s: System, d: string, x: Drain): System {
    s.(drains := s.drains[d := x])
  }

  /** The conditions of the claim: available and pending, or claimed and stale. */
  predicate Claimable(r: Relay, row: OutboxRow, now: int) {
    || (row.status.Pending? && row.availableAt <= now)
    || (row.status.Processing? && row.claimedAt.Some? && row.claimedAt.value < now - r.staleClaimMs)
  }

  function ClaimRow(row: OutboxRow, now: int, attempts: int): OutboxRow {
    row.(status := Processing, attempts := attempts, claimedAt := Some(now), claims := row.claims + 1)
  }

  /** The conditional updates of the acknowledgement, the failure and the requeue. */
  function AckRow(row: OutboxRow): OutboxRow {
    if row.status.Processing? then row.(status := Processed) else row
  }

  function FailRow(r: Relay, row: OutboxRow, attempts: int, terminal: bool, now: int): OutboxRow {
    if !row.status.Processing? then row
    else if terminal || attempts >= r.maxAttempts then row.(status := Failed, failures := row.failures + 1)
    else row.(status := Pending, availableAt := now + r.retryDelayMs, claimedAt := None, failures := row.failures + 1)
  }

  function RequeueRow(row: OutboxRow, now: int): OutboxRow {
    if row.status.Failed? then row.(status := Pending, attempts := 0, availableAt := now, claimedAt := None, claims := 0, failures := 0)
    else row
  }

  /** An update by primary key; nothing happens where there is no such row. */
  function Update(box: map<string, OutboxRow>, id: string, row: OutboxRow): map<string, OutboxRow> {
    if id in box then box[id := row] else box
  }

  predicate DistinctSnapshots(rows: seq<Snapshot>) {
    forall i, j | 0 <= i < j < |rows| :: rows[i].id != rows[j].id
  }

  /** Rows of the table that could be claimed at `now`. */
  predicate IsSelection(r: Relay, box: map<string, OutboxRow>, now: int, rows: seq<Snapshot>) {
    && DistinctSnapshots(rows)
    && (forall i | 0 <= i < |rows| ::
          && rows[i].id in box && Claimable(r, box[rows[i].id], now)
          && rows[i].payload == box[rows[i].id].payload && rows[i].attempts == box[rows[i].id].attempts)
  }

  /** What a drain does after claiming a row: it reads the payload, and fails the row for good
      where that throws. */
  function AfterClaim(r: Relay, rows: seq<Snapshot>, claimedAt: int): Drain
    requires rows != []
  {
    match r.parse(rows[0].payload)
    case None => Failing(rows, claimedAt, rows[0].attempts + 1, true)
    case Some(events) => Delivering(rows, claimedAt, rows[0].attempts + 1, events, false)
  }

  ghost predicate Next(r: Relay, s: System, d: string, move: Move, s': System) {
    var x := Of(s, d);
    match move
    case Submit(id, payload) =>
      id !in s.box && s' == s.(box := s.box[id := OutboxRow(payload, Pending, 0, s.clock, None, 0, 0)])
    case Requeue(id) =>
      id in s.box && s' == s.(box := Update(s.box, id, RequeueRow(s.box[id], s.clock)))
    case Tick(now) =>
      now >= s.clock && s' == s.(clock := now)
    case StoreMove(step) =>
      && !step.StartPrune?
      && (x.Delivering? ==> x.started && !step.StartWrite? && !step.Reset?)
      && AuditStore.Next(r.store, s.store, d, step, s'.store)
      && s' == s.(store := s'.store)
    case Select(now, rows) =>
      x.Resting? && now <= s.clock && IsSelection(r, s.box, now, rows) && s' == Set(s, d, Draining(rows))
    case ReadClock =>
      x.Draining? && x.rows != [] && s' == Set(s, d, Clocked(x.rows, s.clock))
    case Claim =>
      && x.Clocked? && x.rows != []
      && var snap := x.rows[0];
         s' == if snap.id in s.box && Claimable(r, s.box[snap.id], x.claimedAt)
               then Set(s, d, AfterClaim(r, x.rows, x.claimedAt)).(
                      box := s.box[snap.id := ClaimRow(s.box[snap.id], x.claimedAt, snap.attempts + 1)])
               else Set(s, d, Draining(x.rows[1..]))
    case Begin(existing) =>
      && x.Delivering? && !x.started
      && AuditStore.Next(r.store, s.store, d, StartWrite(x.events, existing), s'.store)
      && s' == Set(s, d, x.(started := true)).(store := s'.store)
    case Done =>
      && x.Delivering? && x.started && At(s.store, d).Returned?
      && s' == Set(s, d, Acking(x.rows, x.claimedAt, x.attempts, x.events)).(store := Put(s.store, d, Idle))
    case Threw =>
      && x.Delivering? && At(s.store, d).Idle?
      && s' == Set(s, d, Failing(x.rows, x.claimedAt, x.attempts, false))
    case Ack =>
      && x.Acking? && x.rows != [] && x.rows[0].id in s.box
      && s' == Set(s, d, Draining(x.rows[1..])).(box := Update(s.box, x.rows[0].id, AckRow(s.box[x.rows[0].id])))
    case AckThrew(applied) =>
      && x.Acking? && x.rows != [] && x.rows[0].id in s.box
      && s' == Set(s, d, Failing(x.rows, x.claimedAt, x.attempts, false)).(
                 box := if applied then Update(s.box, x.rows[0].id, AckRow(s.box[x.rows[0].id])) else s.box)
    case Fail =>
      && x.Failing? && x.rows != [] && x.rows[0].id in s.box
      && s' == Set(s, d, Draining(x.rows[1..])).(
                 box := Update(s.box, x.rows[0].id, FailRow(r, s.box[x.rows[0].id], x.attempts, x.terminal, s.clock)))
    case Stop =>
      s' == Set(s, d, Resting)
  }

  const INITIAL: System := System(EMPTY, map[], map[], 0)

  ghost predicate CanMove(r: Relay, s: System, s': System) {
    exists d, move :: Next(r, s, d, move, s')
  }

  ghost predicate IsRelayRun(r: Relay, run: seq<System>) {
    && run != [] && run[0] == INITIAL
    && forall i | 0 <= i < |run| - 1 :: CanMove(r, run[i], run[i + 1])
  }
}
