/** How many failed deliveries of an outbox row are recorded, with any number of drains
    (src/core/outbox_drainer.ts). */
module FailureBound {
  import opened Wrappers
  import opened Outbox
  import C = Claims
  import A = Attempts

  /** A drain that holds a row still processing remembers the row's attempts. */
  predicate HolderCounts(box: map<string, OutboxRow>, x: Drain) {
    C.Holds(x) && x.rows != [] && x.rows[0].id in box && box[x.rows[0].id].status.Processing? ==>
      x.attempts == box[x.rows[0].id].attempts
  }

  ghost predicate RowsCount(r: Relay, box: map<string, OutboxRow>) {
    forall id | id in box :: A.RowCounts(r, box[id])
  }

  ghost predicate BoundInv(r: Relay, s: System) {
    C.ClaimInv(s) && RowsCount(r, s.box) && forall d :: HolderCounts(s.box, Of(s, d))
  }

  /** A row that is Failed or new changes: nobody holds it. */
  lemma RowChanges(r: Relay, s: System, id: string, row: OutboxRow)
    requires BoundInv(r, s) && A.RowCounts(r, row) && !row.status.Processing?
    ensures RowsCount(r, s.box[id := row]) && forall d :: HolderCounts(s.box[id := row], Of(s, d))
  {
    forall d ensures HolderCounts(s.box[id := row], Of(s, d)) {
      assert HolderCounts(s.box, Of(s, d));
    }
  }

  /** Only one drain changes, and it holds nothing new. */
  lemma DrainChanges(s: System, d: string, x: Drain)
    requires forall e :: HolderCounts(s.box, Of(s, e))
    requires HolderCounts(s.box, x)
    ensures forall e :: HolderCounts(s.box, Of(Set(s, d, x), e))
  {
    forall e ensures HolderCounts(s.box, Of(Set(s, d, x), e)) {
      assert HolderCounts(s.box, Of(s, e));
    }
  }

  /** The row a drain holds changes under it: no other drain holds it. */
  lemma HeldRowChanges(s: System, d: string, x: Drain, id: string, row: OutboxRow)
    requires forall e :: HolderCounts(s.box, Of(s, e))
    requires forall e | e != d && C.Holds(Of(s, e)) && Of(s, e).rows != [] :: Of(s, e).rows[0].id != id
    requires HolderCounts(s.box[id := row], x)
    ensures forall e :: HolderCounts(s.box[id := row], Of(Set(s, d, x), e))
  {
    forall e ensures HolderCounts(s.box[id := row], Of(Set(s, d, x), e)) {
      assert HolderCounts(s.box, Of(s, e));
    }
  }

  lemma OthersElsewhere(s: System, d: string)
    requires C.ClaimInv(s) && C.Holds(Of(s, d))
    ensures Of(s, d).rows != []
    ensures forall e | e != d && C.Holds(Of(s, e)) && Of(s, e).rows != [] :: Of(s, e).rows[0].id != Of(s, d).rows[0].id
  {
    assert C.HoldOk(s.box, s.clock, Of(s, d));
    forall e | e != d && C.Holds(Of(s, e)) && Of(s, e).rows != [] ensures Of(s, e).rows[0].id != Of(s, d).rows[0].id {
      C.HeldAlone(s, d, e);
    }
  }

  lemma ClaimBound(r: Relay, s: System, d: string, s': System)
    requires BoundInv(r, s) && A.Claims(r, s, d, s') && C.ClaimInv(s')
    requires Of(s, d).rows[0].attempts == s.box[Of(s, d).rows[0].id].attempts
    ensures RowsCount(r, s'.box) && forall e :: HolderCounts(s'.box, Of(s', e))
  {
    var x := Of(s, d);
    var id := x.rows[0].id;
    var row := ClaimRow(s.box[id], x.claimedAt, x.rows[0].attempts + 1);
    var x' := AfterClaim(r, x.rows, x.claimedAt);
    assert A.RowCounts(r, s.box[id]);
    assert s' == Set(s, d, x').(box := s.box[id := row]);
    OthersElsewhere(s', d);
    forall e | e != d && C.Holds(Of(s, e)) && Of(s, e).rows != [] ensures Of(s, e).rows[0].id != id {
      assert Of(s', e) == Of(s, e);
    }
    HeldRowChanges(s, d, x', id, row);
    SameDrains(s', Set(s, d, x'));
  }

  lemma SameDrains(s: System, t: System)
    requires s.drains == t.drains
    ensures forall e :: Of(s, e) == Of(t, e)
  {
  }

  lemma FailBound(r: Relay, s: System, d: string, s': System)
    requires BoundInv(r, s) && Outbox.Next(r, s, d, Fail, s')
    ensures RowsCount(r, s'.box) && forall e :: HolderCounts(s'.box, Of(s', e))
  {
    var x := Of(s, d);
    var id := x.rows[0].id;
    var row := FailRow(r, s.box[id], x.attempts, x.terminal, s.clock);
    assert A.RowCounts(r, s.box[id]) && HolderCounts(s.box, x);
    if s.box[id].status.Processing? {
      A.FailedRowCounts(r, s.box[id], x.attempts, x.terminal, s.clock);
    }
    OthersElsewhere(s, d);
    HeldRowChanges(s, d, Draining(x.rows[1..]), id, row);
    SameDrains(s', Set(s, d, Draining(x.rows[1..])));
  }

  lemma AckBound(r: Relay, s: System, d: string, move: Move, s': System)
    requires BoundInv(r, s) && Outbox.Next(r, s, d, move, s') && (move.Ack? || move.AckThrew?)
    ensures RowsCount(r, s'.box) && forall e :: HolderCounts(s'.box, Of(s', e))
  {
    var x, x' := Of(s, d), Of(s', d);
    var id := x.rows[0].id;
    assert A.RowCounts(r, s.box[id]) && HolderCounts(s.box, x) && C.HoldOk(s.box, s.clock, x);
    OthersElsewhere(s, d);
    if s'.box == s.box {
      DrainChanges(s, d, x');
    } else {
      HeldRowChanges(s, d, x', id, AckRow(s.box[id]));
    }
    SameDrains(s', Set(s, d, x'));
  }

  lemma PhaseBound(r: Relay, s: System, d: string, move: Move, s': System)
    requires BoundInv(r, s) && Outbox.Next(r, s, d, move, s')
    requires move.Select? || move.ReadClock? || move.Begin? || move.Done? || move.Threw? || move.Stop?
    ensures RowsCount(r, s'.box) && forall e :: HolderCounts(s'.box, Of(s', e))
  {
    assert HolderCounts(s.box, Of(s, d));
    DrainChanges(s, d, Of(s', d));
    SameDrains(s', Set(s, d, Of(s', d)));
  }

  lemma MoveBound(r: Relay, s: System, d: string, move: Move, s': System)
    requires BoundInv(r, s) && Outbox.Next(r, s, d, move, s') && C.ClaimInv(s') && A.CurrentClaim(r, s, s')
    ensures BoundInv(r, s')
  {
    match move
    case Submit(id, payload) =>
      RowChanges(r, s, id, OutboxRow(payload, Pending, 0, s.clock, None, 0, 0));
      SameDrains(s', s);
    case Requeue(id) =>
      RequeueBound(r, s, id);
      SameDrains(s', s);
    case Tick(now) => SameDrains(s', s);
    case StoreMove(step) => SameDrains(s', s);
    case Claim =>
      if A.Claims(r, s, d, s') {
        ClaimBound(r, s, d, s');
      } else {
        DrainChanges(s, d, Of(s', d));
        SameDrains(s', Set(s, d, Of(s', d)));
      }
    case Fail => FailBound(r, s, d, s');
    case Ack => AckBound(r, s, d, move, s');
    case AckThrew(applied) => AckBound(r, s, d, move, s');
    case _ => PhaseBound(r, s, d, move, s');
  }

  lemma RequeueBound(r: Relay, s: System, id: string)
    requires BoundInv(r, s) && id in s.box
    ensures var box := Update(s.box, id, RequeueRow(s.box[id], s.clock));
            RowsCount(r, box) && forall d :: HolderCounts(box, Of(s, d))
  {
    assert A.RowCounts(r, s.box[id]);
    if s.box[id].status.Failed? {
      RowChanges(r, s, id, RequeueRow(s.box[id], s.clock));
    } else {
      assert s.box[id := s.box[id]] == s.box;
    }
  }

  /** The step steals no row from an overdue holder and claims with the row's own attempts. */
  ghost predicate Orderly(r: Relay, s: System, s': System) {
    !C.StealsARow(r, s, s') && A.CurrentClaim(r, s, s')
  }

  lemma {:induction false} OrderlyRun(r: Relay, run: seq<System>, i: nat)
    requires IsRelayRun(r, run) && i < |run| && forall j | 0 <= j < i :: Orderly(r, run[j], run[j + 1])
    ensures BoundInv(r, run[i])
  {
    if i == 0 {
    } else {
      OrderlyRun(r, run, i - 1);
      assert CanMove(r, run[i - 1], run[i - 1 + 1]) && Orderly(r, run[i - 1], run[i - 1 + 1]);
      C.ExclusionKept(r, run[i - 1], run[i]);
      var d, move :| Outbox.Next(r, run[i - 1], d, move, run[i]);
      MoveBound(r, run[i - 1], d, move, run[i]);
    }
  }

  /** With any number of drains: as long as no drain claims a row that an overdue drain still holds,
      and every claim is made with the attempts its row has, no more than max(1, maxAttempts) failed
      deliveries of a row are recorded between requeues. */
  lemma FailuresAreBounded(r: Relay, run: seq<System>, i: nat, id: string)
    requires IsRelayRun(r, run) && i < |run| && forall j | 0 <= j < i :: Orderly(r, run[j], run[j + 1])
    requires id in run[i].box
    ensures run[i].box[id].attempts == run[i].box[id].claims
    ensures run[i].box[id].failures <= if r.maxAttempts > 1 then r.maxAttempts else 1
  {
    OrderlyRun(r, run, i);
    assert A.RowCounts(r, run[i].box[id]);
  }
}
