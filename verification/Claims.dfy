/** Claims on outbox rows: when no two drains work on one row (src/core/outbox_drainer.ts). */
module Claims {
  import opened Wrappers
  import opened AuditStore
  import opened Outbox

  // ---------------------------------------------------------------------------
  // Claim exclusion

  /** The drain is between its claim and its acknowledgement or failure. */
  predicate Holds(x: Drain) {
    x.Delivering? || x.Acking? || x.Failing?
  }

  /** A holder's row is processing under its claim, or processed already. */
  predicate HoldOk(box: map<string, OutboxRow>, clock: int, x: Drain) {
    && (x.Clocked? ==> x.claimedAt <= clock)
    && (Holds(x) ==>
          && x.rows != [] && x.rows[0].id in box && x.claimedAt <= clock
          && var row := box[x.rows[0].id];
             row.status.Processed? || (row.status.Processing? && row.claimedAt == Some(x.claimedAt)))
  }

  predicate Apart(x: Drain, y: Drain) {
    Holds(x) && Holds(y) && x.rows != [] && y.rows != [] ==> x.rows[0].id != y.rows[0].id
  }

  /** No two drains hold one row. */
  ghost predicate Exclusive(s: System) {
    forall d, e | d != e :: Apart(Of(s, d), Of(s, e))
  }

  ghost predicate ClaimInv(s: System) {
    (forall d :: HoldOk(s.box, s.clock, Of(s, d))) && Exclusive(s)
  }

  /** Drain `e` still holds the row `d` is about to claim, has not settled it, and claimed it longer
      ago than a claim lasts, on the clock that `d` read. */
  predicate Overdue(r: Relay, s: System, d: string, e: string) {
    var x, y := Of(s, d), Of(s, e);
    && x.Clocked? && x.rows != [] && Holds(y) && y.rows != [] && y.rows[0].id == x.rows[0].id
    && x.rows[0].id in s.box && s.box[x.rows[0].id].status.Processing?
    && y.claimedAt < x.claimedAt - r.staleClaimMs
  }

  /** In a state with exclusion, of a drain that claims and another that holds the same row, both
      hold it afterwards if and only if the holder is overdue. */
  lemma OverlapIff(r: Relay, s: System, d: string, e: string, s': System)
    requires ClaimInv(s) && d != e && Outbox.Next(r, s, d, Claim, s')
    requires Holds(Of(s, e)) && Of(s, e).rows != [] && Of(s, e).rows[0].id == Of(s, d).rows[0].id
    ensures !Apart(Of(s', d), Of(s', e)) <==> Overdue(r, s, d, e)
  {
    assert HoldOk(s.box, s.clock, Of(s, e)) && Of(s', e) == Of(s, e);
  }

  /** The step is a claim of a row that an overdue drain still holds. */
  ghost predicate StealsARow(r: Relay, s: System, s': System) {
    exists d, e :: d != e && Overdue(r, s, d, e) && Outbox.Next(r, s, d, Claim, s')
  }

  /** No holder has held its row for longer than a claim lasts. */
  ghost predicate Timely(r: Relay, s: System) {
    forall d | Holds(Of(s, d)) :: s.clock <= Of(s, d).claimedAt + r.staleClaimMs
  }

  /** A row that can be claimed is held by nobody but an overdue drain. */
  lemma ClaimableIsFree(r: Relay, s: System, d: string, e: string)
    requires ClaimInv(s) && !Overdue(r, s, d, e)
    requires Of(s, d).Clocked? && Of(s, d).rows != [] && Of(s, d).rows[0].id in s.box
    requires Claimable(r, s.box[Of(s, d).rows[0].id], Of(s, d).claimedAt)
    requires Holds(Of(s, e))
    ensures Of(s, e).rows != [] && Of(s, e).rows[0].id != Of(s, d).rows[0].id
  {
    assert HoldOk(s.box, s.clock, Of(s, d)) && HoldOk(s.box, s.clock, Of(s, e));
  }

  /** A move of one drain that changes at most the row `id`, which no other drain holds. */
  lemma ClaimStep(s: System, d: string, x: Drain, box': map<string, OutboxRow>, id: string)
    requires ClaimInv(s) && HoldOk(box', s.clock, x)
    requires forall k | k in s.box && k != id :: k in box' && box'[k] == s.box[k]
    requires forall e | e != d && Holds(Of(s, e)) :: Of(s, e).rows != [] && Of(s, e).rows[0].id != id
    requires Holds(x) ==> x.rows != [] && x.rows[0].id == id
    ensures ClaimInv(Set(s, d, x).(box := box'))
  {
    var s' := Set(s, d, x).(box := box');
    forall e ensures HoldOk(s'.box, s'.clock, Of(s', e)) {
      assert HoldOk(s.box, s.clock, Of(s, e));
    }
    forall e, f | e != f ensures Apart(Of(s', e), Of(s', f)) {
      assert Apart(Of(s, e), Of(s, f));
    }
  }

  /** A move that leaves the drains alone and changes no row somebody holds. */
  lemma BoxStep(s: System, box': map<string, OutboxRow>, clock': int)
    requires ClaimInv(s) && clock' >= s.clock
    requires forall k | k in s.box && (s.box[k].status.Processing? || s.box[k].status.Processed?) :: k in box' && box'[k] == s.box[k]
    ensures ClaimInv(s.(box := box', clock := clock'))
  {
    var s' := s.(box := box', clock := clock');
    forall e ensures HoldOk(s'.box, s'.clock, Of(s', e)) && Of(s', e) == Of(s, e) {
      assert HoldOk(s.box, s.clock, Of(s, e));
    }
  }

  /** The row a drain works on is held by no other. */
  lemma HeldAlone(s: System, d: string, e: string)
    requires ClaimInv(s) && d != e && Holds(Of(s, d)) && Holds(Of(s, e))
    ensures Of(s, d).rows != [] && Of(s, e).rows != [] && Of(s, e).rows[0].id != Of(s, d).rows[0].id
  {
    assert HoldOk(s.box, s.clock, Of(s, d)) && HoldOk(s.box, s.clock, Of(s, e));
    assert Apart(Of(s, d), Of(s, e));
  }

  lemma HolderMoves(r: Relay, s: System, d: string, move: Move, s': System)
    requires ClaimInv(s) && Outbox.Next(r, s, d, move, s')
    requires move.Begin? || move.Done? || move.Threw? || move.Ack? || move.AckThrew? || move.Fail?
    ensures ClaimInv(s')
  {
    var x := Of(s, d);
    assert HoldOk(s.box, s.clock, x);
    forall e | e != d && Holds(Of(s, e)) ensures Of(s, e).rows != [] && Of(s, e).rows[0].id != x.rows[0].id {
      HeldAlone(s, d, e);
    }
    ClaimStep(s, d, Of(s', d), s'.box, x.rows[0].id);
    StoreIrrelevant(Set(s, d, Of(s', d)).(box := s'.box), s'.store);
  }

  lemma StoreIrrelevant(s: System, store: Store)
    requires ClaimInv(s)
    ensures ClaimInv(s.(store := store))
  {
    var s' := s.(store := store);
    assert forall d :: Of(s', d) == Of(s, d);
  }

  lemma FreeMoves(r: Relay, s: System, d: string, move: Move, s': System)
    requires ClaimInv(s) && Outbox.Next(r, s, d, move, s')
    requires move.Select? || move.ReadClock? || move.Stop?
    ensures ClaimInv(s')
  {
    forall e, f | e != f ensures Apart(Of(s', e), Of(s', f)) {
      assert Apart(Of(s, e), Of(s, f));
    }
    forall e ensures HoldOk(s'.box, s'.clock, Of(s', e)) {
      assert HoldOk(s.box, s.clock, Of(s, e));
    }
  }

  lemma ClaimMove(r: Relay, s: System, d: string, s': System)
    requires ClaimInv(s) && !StealsARow(r, s, s') && Outbox.Next(r, s, d, Claim, s')
    ensures ClaimInv(s')
  {
    var x := Of(s, d);
    var id := x.rows[0].id;
    assert HoldOk(s.box, s.clock, x);
    if id in s.box && Claimable(r, s.box[id], x.claimedAt) {
      forall e | e != d && Holds(Of(s, e)) ensures Of(s, e).rows != [] && Of(s, e).rows[0].id != id {
        assert !Overdue(r, s, d, e);
        ClaimableIsFree(r, s, d, e);
      }
      ClaimStep(s, d, AfterClaim(r, x.rows, x.claimedAt), s'.box, id);
    } else {
      forall e, f | e != f ensures Apart(Of(s', e), Of(s', f)) {
        assert Apart(Of(s, e), Of(s, f));
      }
      forall e ensures HoldOk(s'.box, s'.clock, Of(s', e)) {
        assert HoldOk(s.box, s.clock, Of(s, e));
      }
    }
  }

  lemma ClaimsKept(r: Relay, s: System, d: string, move: Move, s': System)
    requires ClaimInv(s) && !StealsARow(r, s, s') && Outbox.Next(r, s, d, move, s')
    ensures ClaimInv(s')
  {
    if move.Begin? || move.Done? || move.Threw? || move.Ack? || move.AckThrew? || move.Fail? {
      HolderMoves(r, s, d, move, s');
    } else if move.Select? || move.ReadClock? || move.Stop? {
      FreeMoves(r, s, d, move, s');
    } else if move.Claim? {
      ClaimMove(r, s, d, s');
    } else if move.StoreMove? {
      StoreIrrelevant(s, s'.store);
    } else {
      BoxStep(s, s'.box, s'.clock);
    }
  }

  lemma ExclusionKept(r: Relay, s: System, s': System)
    requires ClaimInv(s) && CanMove(r, s, s') && !StealsARow(r, s, s')
    ensures ClaimInv(s')
  {
    var d, move :| Outbox.Next(r, s, d, move, s');
    ClaimsKept(r, s, d, move, s');
  }

  lemma StealingOverlaps(r: Relay, s: System, s': System)
    requires ClaimInv(s) && StealsARow(r, s, s')
    ensures !Exclusive(s')
  {
    var d, e :| d != e && Overdue(r, s, d, e) && Outbox.Next(r, s, d, Claim, s');
    OverlapIff(r, s, d, e, s');
  }

  lemma {:induction false} UnstolenRun(r: Relay, run: seq<System>, i: nat)
    requires IsRelayRun(r, run) && i < |run|
    requires forall j | 0 <= j < i :: !StealsARow(r, run[j], run[j + 1])
    ensures ClaimInv(run[i])
  {
    if i == 0 {
    } else {
      UnstolenRun(r, run, i - 1);
      assert CanMove(r, run[i - 1], run[i - 1 + 1]) && !StealsARow(r, run[i - 1], run[i - 1 + 1]);
      ExclusionKept(r, run[i - 1], run[i]);
    }
  }

  lemma {:induction false} ExclusiveRun(r: Relay, run: seq<System>, i: nat)
    requires IsRelayRun(r, run) && i < |run| && forall j | 0 <= j <= i :: Exclusive(run[j])
    ensures ClaimInv(run[i])
    ensures forall j | 0 <= j < i :: !StealsARow(r, run[j], run[j + 1])
  {
    if i == 0 {
    } else {
      ExclusiveRun(r, run, i - 1);
      assert CanMove(r, run[i - 1], run[i - 1 + 1]);
      if StealsARow(r, run[i - 1], run[i]) {
        StealingOverlaps(r, run[i - 1], run[i]);
      }
      ExclusionKept(r, run[i - 1], run[i]);
    }
  }

  /** Claim exclusion, over every run: no two drains ever hold one row if and only if no drain ever
      claims a row that an overdue drain still holds. Old selections alone do no harm. */
  lemma ExclusionIff(r: Relay, run: seq<System>)
    requires IsRelayRun(r, run)
    ensures (forall i | 0 <= i < |run| :: Exclusive(run[i]))
       <==> (forall i | 0 <= i < |run| - 1 :: !StealsARow(r, run[i], run[i + 1]))
  {
    if forall i | 0 <= i < |run| :: Exclusive(run[i]) {
      ExclusiveRun(r, run, |run| - 1);
    }
    if forall i | 0 <= i < |run| - 1 :: !StealsARow(r, run[i], run[i + 1]) {
      forall i | 0 <= i < |run| ensures Exclusive(run[i]) {
        UnstolenRun(r, run, i);
      }
    }
  }

  lemma TimelyStep(r: Relay, s: System, s': System)
    requires ClaimInv(s) && Timely(r, s)
    ensures !StealsARow(r, s, s')
  {
    forall d, e ensures !Overdue(r, s, d, e) {
      assert HoldOk(s.box, s.clock, Of(s, d)) && HoldOk(s.box, s.clock, Of(s, e));
    }
  }

  lemma {:induction false} TimelyRun(r: Relay, run: seq<System>, i: nat)
    requires IsRelayRun(r, run) && i < |run| && forall j | 0 <= j < i :: Timely(r, run[j])
    ensures ClaimInv(run[i])
  {
    if i == 0 {
    } else {
      TimelyRun(r, run, i - 1);
      assert CanMove(r, run[i - 1], run[i - 1 + 1]);
      TimelyStep(r, run[i - 1], run[i]);
      ExclusionKept(r, run[i - 1], run[i]);
    }
  }

  /** In particular: if every holder has acknowledged or failed its row within the time a claim
      lasts, then no two drains ever work on one row. */
  lemma NoTwoHolders(r: Relay, run: seq<System>, i: nat, d: string, e: string)
    requires IsRelayRun(r, run) && i < |run| && forall j | 0 <= j < i :: Timely(r, run[j])
    requires d != e && Holds(Of(run[i], d)) && Holds(Of(run[i], e))
    ensures Of(run[i], d).rows != [] && Of(run[i], e).rows != []
    ensures Of(run[i], d).rows[0].id != Of(run[i], e).rows[0].id
  {
    TimelyRun(r, run, i);
    HeldAlone(run[i], d, e);
  }
}
