/** Runs of the relay that show what several drains can do to one row
    (src/core/outbox_drainer.ts). */
module OutboxWitness {
  import opened Wrappers
  import opened AuditStore
  import opened Outbox
  import opened Claims

  function Final(run: seq<System>): System
    requires run != []
  {
    run[|run| - 1]
  }

  lemma Extend(r: Relay, run: seq<System>, d: string, move: Move, s': System)
    requires IsRelayRun(r, run) && Outbox.Next(r, Final(run), d, move, s')
    ensures IsRelayRun(r, run + [s']) && Final(run + [s']) == s'
  {
    var all := run + [s'];
    forall i | 0 <= i < |all| - 1 ensures CanMove(r, all[i], all[i + 1]) {
      if i < |run| - 1 {
        assert CanMove(r, run[i], run[i + 1]);
      }
    }
  }

  /** The one row of these runs. */
  function OneRow(payload: string, status: Status, attempts: int, claimedAt: Option<int>, claims: nat, failures: nat): map<string, OutboxRow> {
    map["row" := OutboxRow(payload, status, attempts, 0, claimedAt, claims, failures)]
  }

  function Seen(payload: string): seq<Snapshot> {
    [Snapshot("row", payload, 0)]
  }

  /** A drain that selected the pending row claims it with what it remembers. */
  lemma ClaimsIt(r: Relay, payload: string, before: seq<System>, row: OutboxRow, drains: map<string, Drain>, d: string)
      returns (run: seq<System>)
    requires r.parse(payload).Some? && IsRelayRun(r, before)
    requires Final(before) == System(EMPTY, map["row" := row], drains, 0) && d in drains && drains[d] == Draining(Seen(payload))
    requires row.status.Pending? && row.availableAt == 0
    ensures IsRelayRun(r, run)
    ensures Final(run) == System(EMPTY, map["row" := ClaimRow(row, 0, 1)], drains[d := AfterClaim(r, Seen(payload), 0)], 0)
  {
    var rows := Seen(payload);
    var s1 := System(EMPTY, map["row" := row], drains[d := Clocked(rows, 0)], 0);
    Extend(r, before, d, ReadClock, s1);
    run := before + [s1];
    var s2 := System(EMPTY, map["row" := ClaimRow(row, 0, 1)], drains[d := AfterClaim(r, rows, 0)], 0);
    assert s1.drains[d := AfterClaim(r, rows, 0)] == s2.drains;
    Extend(r, run, d, Claim, s2);
    run := run + [s2];
  }

  /** Both drains select the pending row, and the first claims it. */
  lemma FirstClaims(r: Relay, payload: string) returns (run: seq<System>)
    requires r.parse(payload).Some?
    ensures IsRelayRun(r, run)
    ensures Final(run) == System(EMPTY, OneRow(payload, Processing, 1, Some(0), 1, 0),
              map["a" := AfterClaim(r, Seen(payload), 0), "b" := Draining(Seen(payload))], 0)
  {
    var rows := Seen(payload);
    var box := OneRow(payload, Pending, 0, None, 0, 0);
    run := [INITIAL];
    var s1 := System(EMPTY, box, map[], 0);
    Extend(r, run, "a", Submit("row", payload), s1);
    run := run + [s1];
    var s2 := System(EMPTY, box, map["a" := Draining(rows)], 0);
    Extend(r, run, "a", Select(0, rows), s2);
    run := run + [s2];
    var s3 := System(EMPTY, box, map["a" := Draining(rows), "b" := Draining(rows)], 0);
    Extend(r, run, "b", Select(0, rows), s3);
    run := run + [s3];
    run := ClaimsIt(r, payload, run, box["row"], s3.drains, "a");
    assert s3.drains["a" := AfterClaim(r, rows, 0)] == map["a" := AfterClaim(r, rows, 0), "b" := Draining(rows)];
  }

  /** The second drain then reads the clock and claims the row with what it remembers. */
  lemma SecondClaims(r: Relay, payload: string, before: seq<System>, row: OutboxRow, x: Drain, clock: int) returns (run: seq<System>)
    requires r.parse(payload).Some? && IsRelayRun(r, before)
    requires Final(before) == System(EMPTY, map["row" := row], map["a" := x, "b" := Draining(Seen(payload))], clock)
    requires Claimable(r, row, clock)
    ensures IsRelayRun(r, run)
    ensures Final(run) == System(EMPTY, map["row" := ClaimRow(row, clock, 1)],
              map["a" := x, "b" := AfterClaim(r, Seen(payload), clock)], clock)
  {
    var rows := Seen(payload);
    var s1 := System(EMPTY, map["row" := row], map["a" := x, "b" := Clocked(rows, clock)], clock);
    Extend(r, before, "b", ReadClock, s1);
    run := before + [s1];
    var s2 := System(EMPTY, map["row" := ClaimRow(row, clock, 1)], map["a" := x, "b" := AfterClaim(r, rows, clock)], clock);
    Extend(r, run, "b", Claim, s2);
    run := run + [s2];
  }

  /** Without the one-drain condition the attempts column misses claims: the first drain claims and
      fails the row, the second claims it with attempts it selected before, and the column says one
      where the row was claimed twice. */
  lemma LostIncrement(r: Relay, payload: string) returns (run: seq<System>)
    requires r.parse(payload).Some? && r.maxAttempts > 1 && r.retryDelayMs == 0
    ensures IsRelayRun(r, run) && "row" in Final(run).box
    ensures Final(run).box["row"].attempts == 1 && Final(run).box["row"].claims == 2
  {
    var rows := Seen(payload);
    run := FirstClaims(r, payload);
    var row := OneRow(payload, Processing, 1, Some(0), 1, 0)["row"];
    var x := Failing(rows, 0, 1, false);
    var s1 := System(EMPTY, map["row" := row], map["a" := x, "b" := Draining(rows)], 0);
    Extend(r, run, "a", Threw, s1);
    run := run + [s1];
    var s2 := System(EMPTY, map["row" := FailRow(r, row, 1, false, 0)], map["a" := Draining([]), "b" := Draining(rows)], 0);
    assert rows[1..] == [];
    Extend(r, run, "a", Fail, s2);
    run := run + [s2];
    run := SecondClaims(r, payload, run, FailRow(r, row, 1, false, 0), Draining([]), 0);
  }

  /** Without timely holders claim exclusion fails: once the first claim is stale, the second drain
      takes the row while the first still holds it. */
  lemma StaleClaimOverlaps(r: Relay, payload: string) returns (run: seq<System>)
    requires r.parse(payload).Some? && r.staleClaimMs >= 0
    ensures IsRelayRun(r, run)
    ensures Holds(Of(Final(run), "a")) && Holds(Of(Final(run), "b"))
    ensures Of(Final(run), "a").rows == Of(Final(run), "b").rows == Seen(payload)
  {
    var rows := Seen(payload);
    run := FirstClaims(r, payload);
    var row := OneRow(payload, Processing, 1, Some(0), 1, 0)["row"];
    var now := r.staleClaimMs + 1;
    var s1 := System(EMPTY, map["row" := row], map["a" := AfterClaim(r, rows, 0), "b" := Draining(rows)], now);
    Extend(r, run, "b", Tick(now), s1);
    run := run + [s1];
    run := SecondClaims(r, payload, run, row, AfterClaim(r, rows, 0), now);
  }

  /** It fails to deliver the row and leaves it pending with one more failure. */
  lemma FailsIt(r: Relay, payload: string, before: seq<System>, row: OutboxRow, drains: map<string, Drain>, d: string)
      returns (run: seq<System>)
    requires r.parse(payload).Some? && r.maxAttempts > 1 && r.retryDelayMs == 0 && IsRelayRun(r, before)
    requires Final(before) == System(EMPTY, map["row" := ClaimRow(row, 0, 1)], drains[d := AfterClaim(r, Seen(payload), 0)], 0)
    ensures IsRelayRun(r, run)
    ensures Final(run) == System(EMPTY, map["row" := Failed1(row)], drains[d := Draining([])], 0)
  {
    var x := Failing(Seen(payload), 0, 1, false);
    var s1 := System(EMPTY, map["row" := ClaimRow(row, 0, 1)], drains[d := x], 0);
    assert Final(before).drains[d := x] == s1.drains;
    Extend(r, before, d, Threw, s1);
    run := before + [s1];
    var s2 := System(EMPTY, map["row" := Failed1(row)], drains[d := Draining([])], 0);
    assert s1.drains[d := Draining([])] == s2.drains && Seen(payload)[1..] == [];
    Extend(r, run, d, Fail, s2);
    run := run + [s2];
  }

  lemma ClaimsAndFails(r: Relay, payload: string, before: seq<System>, row: OutboxRow, drains: map<string, Drain>, d: string)
      returns (run: seq<System>)
    requires r.parse(payload).Some? && r.maxAttempts > 1 && r.retryDelayMs == 0 && IsRelayRun(r, before)
    requires Final(before) == System(EMPTY, map["row" := row], drains, 0) && d in drains && drains[d] == Draining(Seen(payload))
    requires row.status.Pending? && row.availableAt == 0
    ensures IsRelayRun(r, run)
    ensures Final(run) == System(EMPTY, map["row" := Failed1(row)], drains[d := Draining([])], 0)
  {
    run := ClaimsIt(r, payload, before, row, drains, d);
    run := FailsIt(r, payload, run, row, drains, d);
  }

  /** The row after that. */
  function Failed1(row: OutboxRow): OutboxRow {
    row.(status := Pending, attempts := 1, availableAt := 0, claimedAt := None, claims := row.claims + 1, failures := row.failures + 1)
  }

  /** Three drains select the pending row. */
  lemma ThreeSelect(r: Relay, payload: string) returns (run: seq<System>)
    ensures IsRelayRun(r, run)
    ensures Final(run) == System(EMPTY, OneRow(payload, Pending, 0, None, 0, 0),
              map["a" := Draining(Seen(payload)), "b" := Draining(Seen(payload)), "c" := Draining(Seen(payload))], 0)
  {
    var rows, box := Seen(payload), OneRow(payload, Pending, 0, None, 0, 0);
    run := [INITIAL];
    var s1 := System(EMPTY, box, map[], 0);
    Extend(r, run, "a", Submit("row", payload), s1);
    run := run + [s1];
    var s2 := System(EMPTY, box, map["a" := Draining(rows)], 0);
    Extend(r, run, "a", Select(0, rows), s2);
    run := run + [s2];
    var s3 := System(EMPTY, box, map["a" := Draining(rows), "b" := Draining(rows)], 0);
    Extend(r, run, "b", Select(0, rows), s3);
    run := run + [s3];
    var s4 := System(EMPTY, box, map["a" := Draining(rows), "b" := Draining(rows), "c" := Draining(rows)], 0);
    Extend(r, run, "c", Select(0, rows), s4);
    run := run + [s4];
  }

  /** With attempts selected before, the bound on failures does not hold: of a row that may be tried
      twice, three failed deliveries are recorded, and it is still pending. */
  lemma FailuresExceed(r: Relay, payload: string) returns (run: seq<System>)
    requires r.parse(payload).Some? && r.maxAttempts == 2 && r.retryDelayMs == 0
    ensures IsRelayRun(r, run) && "row" in Final(run).box
    ensures Final(run).box["row"].failures == 3 && Final(run).box["row"].status.Pending?
  {
    run := ThreeSelect(r, payload);
    var row, drains := OneRow(payload, Pending, 0, None, 0, 0)["row"], Final(run).drains;
    run := ClaimsAndFails(r, payload, run, row, drains, "a");
    var drains' := drains["a" := Draining([])];
    run := ClaimsAndFails(r, payload, run, Failed1(row), drains', "b");
    run := ClaimsAndFails(r, payload, run, Failed1(Failed1(row)), drains'["b" := Draining([])], "c");
  }
}
