/** Which rows of a stream a prune removes (src/stores/lucid_store.ts). */
module Retention {
  import opened Wrappers
  import opened KeyOrder
  import opened AuditTypes

  /** A resolved policy: for each event name the ISO time before which its rows have expired,
      and an optional restriction to one event name. */
  datatype Policy = Policy(cutoff: string -> string, eventFilter: Option<string>)

  predicate Expired(policy: Policy, row: Row) {
    LexBefore(row.ev.createdAt, policy.cutoff(row.ev.event))
  }

  /** A row that a prune of event `name` may remove. */
  predicate Eligible(policy: Policy, name: string, row: Row) {
    && row.ev.event == name
    && (policy.eventFilter.Some? ==> row.ev.event == policy.eventFilter.value)
    && Expired(policy, row)
  }

  function TakeEligible(policy: Policy, name: string, rows: seq<Row>): seq<Row> {
    if rows == [] || !Eligible(policy, name, rows[0]) then []
    else [rows[0]] + TakeEligible(policy, name, rows[1..])
  }

  /** The rows to prune of a stream whose live rows, in order, are `rows`. */
  function Candidates(policy: Policy, rows: seq<Row>): seq<Row> {
    if |rows| < 2 || (policy.eventFilter.Some? && rows[0].ev.event != policy.eventFilter.value) then []
    else TakeEligible(policy, rows[0].ev.event, rows[..|rows| - 1])
  }

  lemma {:induction false} TakenAt(policy: Policy, name: string, rows: seq<Row>, i: nat)
    requires i < |TakeEligible(policy, name, rows)|
    ensures i < |rows| && TakeEligible(policy, name, rows)[i] == rows[i] && Eligible(policy, name, rows[i])
  {
    if i == 0 {
    } else {
      TakenAt(policy, name, rows[1..], i - 1);
    }
  }

  lemma {:induction false} TakingStops(policy: Policy, name: string, rows: seq<Row>)
    ensures var n := |TakeEligible(policy, name, rows)|;
            n <= |rows| && (n < |rows| ==> !Eligible(policy, name, rows[n]))
  {
    if rows != [] && Eligible(policy, name, rows[0]) {
      TakingStops(policy, name, rows[1..]);
    }
  }

  /** The rows taken are a prefix of eligible rows that ends at the first that is not. */
  lemma {:induction false} TakeStops(policy: Policy, name: string, rows: seq<Row>)
    ensures var n := |TakeEligible(policy, name, rows)|;
            && n <= |rows| && TakeEligible(policy, name, rows) == rows[..n]
            && (forall i | 0 <= i < n :: Eligible(policy, name, rows[i]))
            && (n < |rows| ==> !Eligible(policy, name, rows[n]))
  {
    TakingStops(policy, name, rows);
    forall i | 0 <= i < |TakeEligible(policy, name, rows)|
      ensures TakeEligible(policy, name, rows)[i] == rows[i] && Eligible(policy, name, rows[i])
    {
      TakenAt(policy, name, rows, i);
    }
  }

  lemma {:induction false} TakeEligibleIs(policy: Policy, name: string, rows: seq<Row>, k: nat)
    ensures k <= |rows| && TakeEligible(policy, name, rows) == rows[..k] <==>
            && k <= |rows|
            && (forall i | 0 <= i < k :: Eligible(policy, name, rows[i]))
            && (k < |rows| ==> !Eligible(policy, name, rows[k]))
    ensures TakeEligible(policy, name, rows) <= rows
  {
    TakeStops(policy, name, rows);
  }

  /** What is pruned of a stream, which may be nothing: the longest run of rows from its first, short of
      its last, that all have the first row's event name, pass the policy's filter and have expired
      under their own policy. */
  lemma CandidatesAre(policy: Policy, rows: seq<Row>)
    ensures var c := Candidates(policy, rows);
            && c <= rows
            && (rows != [] ==> |c| < |rows|)
            && (forall i | 0 <= i < |c| :: Expired(policy, c[i]) && c[i].ev.event == rows[0].ev.event)
            && (c != [] && policy.eventFilter.Some? ==> rows[0].ev.event == policy.eventFilter.value)
            && (|c| + 1 < |rows| ==> !Eligible(policy, rows[0].ev.event, rows[|c|]))
  {
    if |rows| >= 2 {
      var init := rows[..|rows| - 1];
      TakeEligibleIs(policy, rows[0].ev.event, init, |TakeEligible(policy, rows[0].ev.event, init)|);
    }
  }

  /** The loop that collects the candidates, with its early exits: it takes rows from the first on as
      long as they have its event name, pass the filter and were created before their cutoff, and stops
      before the first that does not, or before the last row. */
  method SelectCandidates(policy: Policy, rows: seq<Row>) returns (candidates: seq<Row>)
    ensures candidates == Candidates(policy, rows)
    ensures candidates <= rows && (rows != [] ==> |candidates| < |rows|)
    ensures forall i | 0 <= i < |candidates| ::
              && rows[i].ev.event == rows[0].ev.event
              && (policy.eventFilter.None? || policy.eventFilter == Some(rows[i].ev.event))
              && LexBefore(rows[i].ev.createdAt, policy.cutoff(rows[i].ev.event))
    ensures |candidates| + 1 < |rows| ==>
              var next := rows[|candidates|];
              || next.ev.event != rows[0].ev.event
              || (policy.eventFilter.Some? && policy.eventFilter != Some(next.ev.event))
              || !LexBefore(next.ev.createdAt, policy.cutoff(next.ev.event))
  {
    if |rows| < 2 {
      return [];
    }
    var first := rows[0];
    if policy.eventFilter.Some? && first.ev.event != policy.eventFilter.value {
      return [];
    }
    candidates := [];
    ghost var init := rows[..|rows| - 1];
    for i := 0 to |rows| - 1
      invariant candidates == rows[..i]
      invariant forall j | 0 <= j < i :: Eligible(policy, first.ev.event, init[j])
    {
      var row := rows[i];
      if row.ev.event != first.ev.event || (policy.eventFilter.Some? && row.ev.event != policy.eventFilter.value) {
        TakeEligibleIs(policy, first.ev.event, init, i);
        assert init[..i] == rows[..i];
        return;
      }
      if !LexBefore(row.ev.createdAt, policy.cutoff(row.ev.event)) {
        TakeEligibleIs(policy, first.ev.event, init, i);
        assert init[..i] == rows[..i];
        return;
      }
      candidates := candidates + [row];
    }
    TakeEligibleIs(policy, first.ev.event, init, |init|);
    assert init[..|init|] == init;
  }
}
