/** What the attempts column of the outbox counts (src/core/outbox_drainer.ts). */
module Attempts {
  import opened Wrappers
  import opened AuditStore
  import opened Outbox

  /** The largest number of failed deliveries between requeues. */
  function Bound(r: Relay): int {
    if r.maxAttempts > 1 then r.maxAttempts else 1
  }

  /** The column counts the claims, and failures are bounded: one less than the bound while the
      row may still be delivered, and fewer than the claims while it is being delivered. */
  predicate RowCounts(r: Relay, row: OutboxRow) {
    && row.attempts == row.claims
    && row.failures <= Bound(r)
    && (row.status.Pending? || row.status.Processing? ==> row.failures <= Bound(r) - 1)
    && row.failures <= row.claims
    && (row.status.Processing? ==> row.failures < row.claims)
  }

  predicate Open(row: OutboxRow) {
    row.status.Pending? || row.status.Processing?
  }

  /** The rows still to do are open and have the attempts that were selected. */
  predicate Fresh(box: map<string, OutboxRow>, rows: seq<Snapshot>) {
    && DistinctSnapshots(rows)
    && (forall i | 0 <= i < |rows| ::
          rows[i].id in box && Open(box[rows[i].id]) && rows[i].attempts == box[rows[i].id].attempts)
  }

  /** The row being worked on, and those after it. */
  predicate Working(box: map<string, OutboxRow>, rows: seq<Snapshot>, attempts: int) {
    && rows != [] && DistinctSnapshots(rows) && Fresh(box, rows[1..])
    && rows[0].id in box
    && var row := box[rows[0].id];
       (row.status.Processing? || row.status.Processed?) && row.attempts == attempts
  }

  predicate DrainCounts(box: map<string, OutboxRow>, x: Drain) {
    match x
    case Resting => true
    case Draining(rows) => Fresh(box, rows)
    case Clocked(rows, claimedAt) => Fresh(box, rows)
    case Delivering(rows, claimedAt, attempts, events, started) => Working(box, rows, attempts)
    case Acking(rows, claimedAt, attempts, events) => Working(box, rows, attempts)
    case Failing(rows, claimedAt, attempts, terminal) => Working(box, rows, attempts)
  }

  ghost predicate CountInv(r: Relay, s: System) {
    && (forall id | id in s.box :: RowCounts(r, s.box[id]))
    && (forall d :: DrainCounts(s.box, Of(s, d)))
  }

  /** At most one drain is running. */
  ghost predicate OneDrain(s: System) {
    forall d, e | !Of(s, d).Resting? && !Of(s, e).Resting? :: d == e
  }

  lemma FreshRest(box: map<string, OutboxRow>, rows: seq<Snapshot>)
    requires Fresh(box, rows) && rows != []
    ensures Fresh(box, rows[1..]) && forall i | 0 <= i < |rows[1..]| :: rows[1..][i].id != rows[0].id
  {
  }

  lemma FreshElsewhere(box: map<string, OutboxRow>, rows: seq<Snapshot>, id: string, row: OutboxRow)
    requires Fresh(box, rows) && forall i | 0 <= i < |rows| :: rows[i].id != id
    ensures Fresh(box[id := row], rows)
  {
  }

  /** A row nobody works on may change if it is closed or new. */
  lemma DrainUnaffected(box: map<string, OutboxRow>, id: string, row: OutboxRow, x: Drain)
    requires DrainCounts(box, x) && (id in box ==> box[id].status.Failed?)
    ensures DrainCounts(box[id := row], x)
  {
  }

  lemma RowMove(r: Relay, s: System, id: string, row: OutboxRow)
    requires CountInv(r, s) && RowCounts(r, row) && (id in s.box ==> s.box[id].status.Failed?)
    ensures CountInv(r, s.(box := s.box[id := row]))
  {
    var s' := s.(box := s.box[id := row]);
    forall d ensures DrainCounts(s'.box, Of(s', d)) {
      assert Of(s', d) == Of(s, d);
      DrainUnaffected(s.box, id, row, Of(s, d));
    }
  }

  /** A move of the only running drain. */
  lemma OnlyMove(r: Relay, s: System, d: string, x: Drain, box': map<string, OutboxRow>)
    requires CountInv(r, s) && OneDrain(s) && !Of(s, d).Resting?
    requires forall id | id in box' :: RowCounts(r, box'[id])
    requires DrainCounts(box', x)
    ensures CountInv(r, Set(s, d, x).(box := box'))
  {
    var s' := Set(s, d, x).(box := box');
    forall e ensures DrainCounts(s'.box, Of(s', e)) {
      if e != d {
        assert Of(s, e).Resting?;
      }
    }
  }

  lemma SelectedIsFresh(r: Relay, box: map<string, OutboxRow>, now: int, rows: seq<Snapshot>)
    requires IsSelection(r, box, now, rows)
    ensures Fresh(box, rows)
  {
  }

  lemma SelectCounts(r: Relay, s: System, d: string, now: int, rows: seq<Snapshot>)
    requires CountInv(r, s) && IsSelection(r, s.box, now, rows)
    ensures CountInv(r, Set(s, d, Draining(rows)))
  {
    var s' := Set(s, d, Draining(rows));
    SelectedIsFresh(r, s.box, now, rows);
    forall e ensures DrainCounts(s'.box, Of(s', e)) {
      assert DrainCounts(s.box, Of(s, e));
    }
  }

  lemma ClaimCounts(r: Relay, s: System, d: string)
    requires CountInv(r, s) && OneDrain(s) && Of(s, d).Clocked? && Of(s, d).rows != []
    requires var snap := Of(s, d).rows[0]; snap.id in s.box && Claimable(r, s.box[snap.id], Of(s, d).claimedAt)
    ensures var x := Of(s, d);
            var snap := x.rows[0];
            CountInv(r, Set(s, d, AfterClaim(r, x.rows, x.claimedAt)).(
              box := s.box[snap.id := ClaimRow(s.box[snap.id], x.claimedAt, snap.attempts + 1)]))
  {
    var x := Of(s, d);
    var snap := x.rows[0];
    var row := ClaimRow(s.box[snap.id], x.claimedAt, snap.attempts + 1);
    assert DrainCounts(s.box, x) && RowCounts(r, s.box[snap.id]);
    FreshRest(s.box, x.rows);
    FreshElsewhere(s.box, x.rows[1..], snap.id, row);
    OnlyMove(r, s, d, AfterClaim(r, x.rows, x.claimedAt), s.box[snap.id := row]);
  }

  lemma WorkedRest(box: map<string, OutboxRow>, rows: seq<Snapshot>, attempts: int, row: OutboxRow)
    requires Working(box, rows, attempts)
    ensures Fresh(box[rows[0].id := row], rows[1..])
  {
  }

  lemma AckCounts(r: Relay, s: System, d: string, x: Drain)
    requires CountInv(r, s) && OneDrain(s) && Of(s, d).Acking? && Of(s, d).rows != [] && Of(s, d).rows[0].id in s.box
    requires x == Draining(Of(s, d).rows[1..]) || (x.Failing? && x.rows == Of(s, d).rows && x.attempts == Of(s, d).attempts)
    ensures CountInv(r, Set(s, d, x).(box := Update(s.box, Of(s, d).rows[0].id, AckRow(s.box[Of(s, d).rows[0].id]))))
  {
    var id := Of(s, d).rows[0].id;
    assert DrainCounts(s.box, Of(s, d)) && RowCounts(r, s.box[id]);
    WorkedRest(s.box, Of(s, d).rows, Of(s, d).attempts, AckRow(s.box[id]));
    OnlyMove(r, s, d, x, s.box[id := AckRow(s.box[id])]);
  }

  lemma FailedRowCounts(r: Relay, row: OutboxRow, attempts: int, terminal: bool, now: int)
    requires RowCounts(r, row) && row.attempts == attempts
    ensures RowCounts(r, FailRow(r, row, attempts, terminal, now))
  {
  }

  lemma FailCounts(r: Relay, s: System, d: string)
    requires CountInv(r, s) && OneDrain(s) && Of(s, d).Failing? && Of(s, d).rows != [] && Of(s, d).rows[0].id in s.box
    ensures var x := Of(s, d);
            CountInv(r, Set(s, d, Draining(x.rows[1..])).(
              box := Update(s.box, x.rows[0].id, FailRow(r, s.box[x.rows[0].id], x.attempts, x.terminal, s.clock))))
  {
    var x := Of(s, d);
    var id := x.rows[0].id;
    var row := FailRow(r, s.box[id], x.attempts, x.terminal, s.clock);
    assert DrainCounts(s.box, x) && RowCounts(r, s.box[id]);
    FailedRowCounts(r, s.box[id], x.attempts, x.terminal, s.clock);
    WorkedRest(s.box, x.rows, x.attempts, row);
    OnlyMove(r, s, d, Draining(x.rows[1..]), s.box[id := row]);
  }

  /** The drains and rows matter, the store and the clock do not. */
  lemma StoreIrrelevant(r: Relay, s: System, store: Store, clock: int)
    requires CountInv(r, s)
    ensures CountInv(r, s.(store := store, clock := clock))
  {
    var s' := s.(store := store, clock := clock);
    assert forall d :: Of(s', d) == Of(s, d);
  }

  lemma PhaseCounts(r: Relay, s: System, d: string, x: Drain)
    requires CountInv(r, s) && DrainCounts(s.box, x)
    ensures CountInv(r, Set(s, d, x))
  {
    var s' := Set(s, d, x);
    forall e ensures DrainCounts(s'.box, Of(s', e)) {
      assert DrainCounts(s.box, Of(s, e));
    }
  }

  lemma DrainMoveCounts(r: Relay, s: System, d: string, move: Move, s': System)
    requires CountInv(r, s) && OneDrain(s) && Outbox.Next(r, s, d, move, s')
    requires move.ReadClock? || move.Begin? || move.Done? || move.Threw? || move.Stop?
    ensures CountInv(r, s')
  {
    assert DrainCounts(s.box, Of(s, d));
    PhaseCounts(r, s, d, Of(s', d));
    StoreIrrelevant(r, Set(s, d, Of(s', d)), s'.store, s'.clock);
  }

  lemma RowMoveCounts(r: Relay, s: System, d: string, move: Move, s': System)
    requires CountInv(r, s) && OneDrain(s) && Outbox.Next(r, s, d, move, s')
    requires move.Claim? || move.Ack? || move.AckThrew? || move.Fail?
    ensures CountInv(r, s')
  {
    var x := Of(s, d);
    assert DrainCounts(s.box, x);
    match move
    case Claim =>
      if x.rows[0].id in s.box && Claimable(r, s.box[x.rows[0].id], x.claimedAt) {
        ClaimCounts(r, s, d);
      } else {
        FreshRest(s.box, x.rows);
        PhaseCounts(r, s, d, Draining(x.rows[1..]));
      }
    case Ack => AckCounts(r, s, d, Draining(x.rows[1..]));
    case AckThrew(applied) =>
      AckCounts(r, s, d, Failing(x.rows, x.claimedAt, x.attempts, false));
      PhaseCounts(r, s, d, Failing(x.rows, x.claimedAt, x.attempts, false));
    case Fail => FailCounts(r, s, d);
  }

  lemma MoveCounts(r: Relay, s: System, d: string, move: Move, s': System)
    requires CountInv(r, s) && OneDrain(s) && Outbox.Next(r, s, d, move, s')
    ensures CountInv(r, s')
  {
    if move.ReadClock? || move.Begin? || move.Done? || move.Threw? || move.Stop? {
      DrainMoveCounts(r, s, d, move, s');
    } else if move.Claim? || move.Ack? || move.AckThrew? || move.Fail? {
      RowMoveCounts(r, s, d, move, s');
    } else {
      match move
      case Submit(id, payload) => RowMove(r, s, id, OutboxRow(payload, Pending, 0, s.clock, None, 0, 0));
      case Requeue(id) =>
        if s.box[id].status.Failed? {
          RowMove(r, s, id, RequeueRow(s.box[id], s.clock));
        } else {
          assert s.box[id := s.box[id]] == s.box;
        }
      case Tick(now) => StoreIrrelevant(r, s, s.store, now);
      case StoreMove(step) => StoreIrrelevant(r, s, s'.store, s.clock);
      case Select(now, rows) => SelectCounts(r, s, d, now, rows);
      case _ =>
    }
  }

  lemma {:induction false} OneDrainRun(r: Relay, run: seq<System>, i: nat)
    requires IsRelayRun(r, run) && i < |run| && forall j | 0 <= j < i :: OneDrain(run[j])
    ensures CountInv(r, run[i])
  {
    if i == 0 {
    } else {
      OneDrainRun(r, run, i - 1);
      assert CanMove(r, run[i - 1], run[i - 1 + 1]);
      var d, move :| Outbox.Next(r, run[i - 1], d, move, run[i]);
      MoveCounts(r, run[i - 1], d, move, run[i]);
    }
  }

  /** With one drain running at a time, through stops and stale claims: the attempts column is the
      number of claims since the row was submitted or requeued, and no more than
      max(1, maxAttempts) failed deliveries of it are recorded in that time. */
  lemma AttemptsAreClaims(r: Relay, run: seq<System>, i: nat, id: string)
    requires IsRelayRun(r, run) && i < |run| && forall j | 0 <= j < i :: OneDrain(run[j])
    requires id in run[i].box
    ensures run[i].box[id].attempts == run[i].box[id].claims
    ensures run[i].box[id].failures <= if r.maxAttempts > 1 then r.maxAttempts else 1
  {
    OneDrainRun(r, run, i);
    assert RowCounts(r, run[i].box[id]);
  }

  /** The column counts the claims of every row. */
  ghost predicate Counted(s: System) {
    forall id | id in s.box :: s.box[id].attempts == s.box[id].claims
  }

  /** Drain `d` claims the row it selected first among those left. */
  ghost predicate Claims(r: Relay, s: System, d: string, s': System) {
    && Outbox.Next(r, s, d, Claim, s')
    && Of(s, d).rows[0].id in s.box && Claimable(r, s.box[Of(s, d).rows[0].id], Of(s, d).claimedAt)
  }

  /** A claim made in this step is made with the attempts the row has. */
  ghost predicate CurrentClaim(r: Relay, s: System, s': System) {
    forall d | Claims(r, s, d, s') :: Of(s, d).rows[0].attempts == s.box[Of(s, d).rows[0].id].attempts
  }

  /** The column is overwritten with one more than the number a drain remembers, so a claim is
      counted if and only if the row's attempts are those selected. */
  lemma ClaimCountsIff(r: Relay, s: System, d: string, s': System)
    requires Counted(s) && Claims(r, s, d, s')
    ensures Counted(s') <==> Of(s, d).rows[0].attempts == s.box[Of(s, d).rows[0].id].attempts
  {
    var id := Of(s, d).rows[0].id;
    assert s.box[id].attempts == s.box[id].claims;
    var row := ClaimRow(s.box[id], Of(s, d).claimedAt, Of(s, d).rows[0].attempts + 1);
    assert s'.box == s.box[id := row];
    assert id in s'.box && s'.box[id] == row;
    forall k | k in s'.box && k != id ensures s'.box[k].attempts == s'.box[k].claims {
      assert s'.box[k] == s.box[k];
    }
  }

  lemma CountedAfter(r: Relay, s: System, d: string, move: Move, s': System)
    requires Counted(s) && Outbox.Next(r, s, d, move, s') && !Claims(r, s, d, s')
    ensures Counted(s')
  {
    forall id | id in s'.box ensures s'.box[id].attempts == s'.box[id].claims {
      assert id in s.box ==> s.box[id].attempts == s.box[id].claims;
    }
  }

  lemma CountedStep(r: Relay, s: System, s': System)
    requires Counted(s) && CanMove(r, s, s')
    ensures Counted(s') <==> CurrentClaim(r, s, s')
  {
    var d, move :| Outbox.Next(r, s, d, move, s');
    if e :| Claims(r, s, e, s') {
      forall f | Claims(r, s, f, s')
        ensures Counted(s') <==> Of(s, f).rows[0].attempts == s.box[Of(s, f).rows[0].id].attempts
      {
        ClaimCountsIff(r, s, f, s');
      }
    } else {
      CountedAfter(r, s, d, move, s');
    }
  }

  lemma {:induction false} CountedRun(r: Relay, run: seq<System>, i: nat)
    requires IsRelayRun(r, run) && i < |run|
    requires forall j | 0 <= j < i :: CurrentClaim(r, run[j], run[j + 1])
    ensures Counted(run[i])
  {
    if i == 0 {
    } else {
      CountedRun(r, run, i - 1);
      assert CanMove(r, run[i - 1], run[i - 1 + 1]) && CurrentClaim(r, run[i - 1], run[i - 1 + 1]);
      CountedStep(r, run[i - 1], run[i]);
    }
  }

  /** With any number of drains, over every run: the attempts of every row are the claims since it
      was submitted or requeued, in every state, if and only if every claim is made with the
      attempts its row has at that moment. */
  lemma AttemptsCountIff(r: Relay, run: seq<System>)
    requires IsRelayRun(r, run)
    ensures (forall i | 0 <= i < |run| :: Counted(run[i]))
       <==> (forall i | 0 <= i < |run| - 1 :: CurrentClaim(r, run[i], run[i + 1]))
  {
    if forall i | 0 <= i < |run| :: Counted(run[i]) {
      forall i | 0 <= i < |run| - 1 ensures CurrentClaim(r, run[i], run[i + 1]) {
        assert CanMove(r, run[i], run[i + 1]) && Counted(run[i]) && Counted(run[i + 1]);
        CountedStep(r, run[i], run[i + 1]);
      }
    }
    if forall i | 0 <= i < |run| - 1 :: CurrentClaim(r, run[i], run[i + 1]) {
      forall i | 0 <= i < |run| ensures Counted(run[i]) {
        CountedRun(r, run, i);
      }
    }
  }
}
