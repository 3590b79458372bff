/** The HTTP store (src/stores/http_store.ts): heads and a bounded window of rows per stream, kept
    in memory, and verification of the window. A post succeeds or fails as a whole. */
module HttpStore {
  import opened Wrappers
  import opened AuditTypes
  import opened HashChain
  import opened ChainVerify
  import opened Grouping
  import opened StreamHeads
  import opened KeyOrder
  import opened Retention

  // ---------------------------------------------------------------------------
  // The window

  /** The newest `cap` rows, or all where `cap` is zero. */
  function Window(cap: nat, rows: seq<Row>): seq<Row> {
    if cap == 0 || |rows| <= cap then rows else rows[|rows| - cap..]
  }

  /** The rows are the newest ones, all of them where there are no more than the cap or it is zero. */
  ghost predicate IsNewest(cap: nat, log: seq<Row>, rows: seq<Row>) {
    && |log| <= |rows| && log == rows[|rows| - |log|..]
    && |log| == if cap > 0 && |rows| > cap then cap else |rows|
  }

  lemma WindowIsNewest(cap: nat, rows: seq<Row>)
    ensures IsNewest(cap, Window(cap, rows), rows)
  {
  }

  /** Pushing a row onto a window and cutting it back is the window of one more row. */
  lemma WindowPush(cap: nat, rows: seq<Row>, r: Row)
    ensures Window(cap, rows + [r]) == Window(cap, Window(cap, rows) + [r])
  {
    if cap != 0 && |rows| > cap {
      assert (rows + [r])[|rows| + 1 - cap..] == (rows[|rows| - cap..] + [r])[1..];
    }
  }

  lemma WindowIsSuffix(cap: nat, rows: seq<Row>)
    ensures exists a: nat :: a <= |rows| && Window(cap, rows) == rows[a..]
    ensures |Window(cap, rows)| == if cap > 0 && |rows| > cap then cap else |rows|
  {
    var a := if cap == 0 || |rows| <= cap then 0 else |rows| - cap;
    assert Window(cap, rows) == rows[a..];
  }

  // ---------------------------------------------------------------------------
  // Verifying a window

  predicate InRange(r: Row, fromSeq: Option<int>, toSeq: Option<int>) {
    (fromSeq.Some? ==> r.seqNo >= fromSeq.value) && (toSeq.Some? ==> r.seqNo <= toSeq.value)
  }

  /** The rows in the range, and the last row before the first of them. */
  datatype Selection = Selection(filtered: seq<Row>, previous: Option<Row>)

  function SelectNext(before: Selection, row: Row, fromSeq: Option<int>, toSeq: Option<int>): Selection {
    if InRange(row, fromSeq, toSeq) then before.(filtered := before.filtered + [row])
    else if before.filtered == [] then before.(previous := Some(row))
    else before
  }

  function SelectRange(rows: seq<Row>, fromSeq: Option<int>, toSeq: Option<int>): Selection {
    if rows == [] then Selection([], None)
    else SelectNext(SelectRange(rows[..|rows| - 1], fromSeq, toSeq), rows[|rows| - 1], fromSeq, toSeq)
  }

  lemma {:induction false} SelectedAre(rows: seq<Row>, fromSeq: Option<int>, toSeq: Option<int>, r: Row)
    ensures r in SelectRange(rows, fromSeq, toSeq).filtered <==> r in rows && InRange(r, fromSeq, toSeq)
  {
    if rows == [] {
    } else {
      SelectedAre(rows[..|rows| - 1], fromSeq, toSeq, r);
      assert rows == rows[..|rows| - 1] + [rows[|rows| - 1]];
    }
  }

  lemma {:induction false} SelectedAscend(rows: seq<Row>, fromSeq: Option<int>, toSeq: Option<int>)
    requires Ascending(rows)
    ensures Ascending(SelectRange(rows, fromSeq, toSeq).filtered)
  {
    if rows == [] {
    } else {
      var init, last := rows[..|rows| - 1], rows[|rows| - 1];
      var before := SelectRange(init, fromSeq, toSeq).filtered;
      SelectedAscend(init, fromSeq, toSeq);
      forall i | 0 <= i < |before| ensures before[i].seqNo < last.seqNo {
        SelectedAre(init, fromSeq, toSeq, before[i]);
        var k :| 0 <= k < |init| && init[k] == before[i];
        assert rows[k] == init[k];
      }
    }
  }

  /** The rows selected are exactly those with numbers in the range, in order. */
  lemma {:induction false} SelectsTheRange(rows: seq<Row>, fromSeq: Option<int>, toSeq: Option<int>)
    requires Ascending(rows)
    ensures forall r :: r in SelectRange(rows, fromSeq, toSeq).filtered <==>
              r in rows && (fromSeq.None? || fromSeq.value <= r.seqNo) && (toSeq.None? || r.seqNo <= toSeq.value)
    ensures Ascending(SelectRange(rows, fromSeq, toSeq).filtered)
  {
    SelectedAscend(rows, fromSeq, toSeq);
    forall r
      ensures r in SelectRange(rows, fromSeq, toSeq).filtered <==>
              r in rows && (fromSeq.None? || fromSeq.value <= r.seqNo) && (toSeq.None? || r.seqNo <= toSeq.value)
    {
      SelectedAre(rows, fromSeq, toSeq, r);
    }
  }

  /** Where the pass starts: after the row before the range, or where the first row of the range
      says it is chained to. */
  function StartOf(sel: Selection): Scan
    requires sel.filtered != []
  {
    match sel.previous
    case Some(r) => StartScan(r.seqNo, r.hash)
    case None => StartScan(if sel.filtered[0].seqNo > 0 then sel.filtered[0].seqNo - 1 else 0, sel.filtered[0].prevHash)
  }

  function VerifyRows(hash: HashFn, stream: string, rows: seq<Row>, fromSeq: Option<int>, toSeq: Option<int>): ScanRun {
    var sel := SelectRange(rows, fromSeq, toSeq);
    if sel.filtered == [] then ScanRun([Report(stream, true, None, None, None, 0)], StartScan(0, GENESIS), true)
    else ScanAll(hash, sel.filtered, StartOf(sel), true)
  }

  /** The loop that selects the rows of the range. */
  method FilterRange(rows: seq<Row>, fromSeq: Option<int>, toSeq: Option<int>) returns (sel: Selection)
    ensures sel == SelectRange(rows, fromSeq, toSeq)
  {
    var filtered: seq<Row> := [];
    var previous: Option<Row> := None;
    for i := 0 to |rows|
      invariant Selection(filtered, previous) == SelectRange(rows[..i], fromSeq, toSeq)
    {
      var row := rows[i];
      assert rows[..i + 1][..i] == rows[..i];
      if InRange(row, fromSeq, toSeq) {
        filtered := filtered + [row];
      } else if |filtered| == 0 {
        previous := Some(row);
      }
    }
    assert rows[..|rows|] == rows;
    return Selection(filtered, previous);
  }

  // A window of a chain: the rows of `full` from `a` on.

  /** The selection is a run of consecutive rows, with the row before it unless it starts the window. */
  predicate IsRun(full: seq<Row>, a: nat, sel: Selection, i: nat, j: nat) {
    && a <= i <= j <= |full| && sel.filtered == full[i..j]
    && (sel.previous == if i == a then None else Some(full[i - 1]))
  }

  lemma SelectOneMore(full: seq<Row>, a: nat, n: nat, fromSeq: Option<int>, toSeq: Option<int>)
    requires a < n <= |full|
    ensures SelectRange(full[a..n], fromSeq, toSeq) == SelectNext(SelectRange(full[a..n - 1], fromSeq, toSeq), full[n - 1], fromSeq, toSeq)
  {
    assert full[a..n][..n - 1 - a] == full[a..n - 1];
  }

  lemma RunGrows(full: seq<Row>, a: nat, sel: Selection, i: nat, j: nat)
    requires IsRun(full, a, sel, i, j) && j < |full|
    ensures IsRun(full, a, sel.(filtered := sel.filtered + [full[j]]), i, j + 1)
    ensures i == j ==> IsRun(full, a, sel.(previous := Some(full[j])), j + 1, j + 1)
  {
    assert full[i..j] + [full[j]] == full[i..j + 1];
  }

  lemma {:induction false} SelectsARun(full: seq<Row>, a: nat, n: nat, fromSeq: Option<int>, toSeq: Option<int>) returns (i: nat, j: nat)
    requires a <= n <= |full| && Numbered(full)
    ensures j <= n && IsRun(full, a, SelectRange(full[a..n], fromSeq, toSeq), i, j)
    ensures i == j ==> i == n
    ensures i < j ==> InRange(full[j - 1], fromSeq, toSeq) && (j < n ==> !InRange(full[j], fromSeq, toSeq))
  {
    if n == a {
      i, j := a, a;
    } else {
      i, j := SelectsARun(full, a, n - 1, fromSeq, toSeq);
      SelectOneMore(full, a, n, fromSeq, toSeq);
      RunGrows(full, a, SelectRange(full[a..n - 1], fromSeq, toSeq), i, j);
      if InRange(full[n - 1], fromSeq, toSeq) {
        if i < j && j < n - 1 {
          Between(full, j, n, fromSeq, toSeq);
        }
        j := n;
      } else if i == j {
        i, j := n, n;
      }
    }
  }

  /** A range has no holes. */
  lemma Between(full: seq<Row>, j: nat, n: nat, fromSeq: Option<int>, toSeq: Option<int>)
    requires Numbered(full) && 0 < j < n <= |full|
    requires InRange(full[j - 1], fromSeq, toSeq) && InRange(full[n - 1], fromSeq, toSeq)
    ensures InRange(full[j], fromSeq, toSeq)
  {
    assert NumberedAt(full, j - 1) && NumberedAt(full, j) && NumberedAt(full, n - 1);
  }

  lemma {:induction false} RunStart(full: seq<Row>, a: nat, sel: Selection, i: nat, j: nat)
    requires IsRun(full, a, sel, i, j) && i < j && StoresPrev(full, GENESIS) && Numbered(full)
    ensures StartOf(sel) == StartScan(i, PrevOf(full, i, GENESIS))
  {
    assert Stores(full, i, GENESIS) && NumberedAt(full, i) && (i > 0 ==> NumberedAt(full, i - 1));
  }

  /** The rows of the window with numbers in the range. */
  function CountInRange(rows: seq<Row>, fromSeq: Option<int>, toSeq: Option<int>): nat {
    |SelectRange(rows, fromSeq, toSeq).filtered|
  }

  /** Verification of a window of a chain, over any range, finds every row of the range valid. */
  lemma {:induction false} WindowVerifies(hash: HashFn, stream: string, full: seq<Row>, a: nat, fromSeq: Option<int>, toSeq: Option<int>)
    requires IsChain(hash, full, 0, GENESIS) && a <= |full|
    ensures var pass := VerifyRows(hash, stream, full[a..], fromSeq, toSeq);
            var n := CountInRange(full[a..], fromSeq, toSeq);
            Accepts(pass) && |pass.reports| == if n == 0 then 1 else n
  {
    ChainIsNumbered(hash, full);
    assert full[a..|full|] == full[a..];
    var i, j := SelectsARun(full, a, |full|, fromSeq, toSeq);
    var sel := SelectRange(full[a..], fromSeq, toSeq);
    if i < j {
      RunStart(full, a, sel, i, j);
      SliceContinues(hash, full, i, j);
      AcceptsIff(hash, full[i..j], StartOf(sel), true);
    }
  }

  // ---------------------------------------------------------------------------
  // Pruning a window

  /** The prune would remove the row, unless it is the newest. */
  predicate Removable(policy: Policy, r: Row) {
    (policy.eventFilter.Some? ==> r.ev.event == policy.eventFilter.value) && Expired(policy, r)
  }

  /** The rows of the window that stay. */
  function Retained(policy: Policy, rows: seq<Row>, headSeq: nat): seq<Row> {
    if rows == [] then []
    else
      var row := rows[|rows| - 1];
      Retained(policy, rows[..|rows| - 1], headSeq)
      + (if Removable(policy, row) && row.seqNo != headSeq then [] else [row])
  }

  /** Whether row `k` of the window goes. */
  predicate Goes(policy: Policy, rows: seq<Row>, k: nat)
    requires k < |rows|
  {
    Removable(policy, rows[k]) && k != |rows| - 1
  }

  lemma {:induction false} RetainedHas(policy: Policy, rows: seq<Row>, headSeq: nat, r: Row)
    ensures r in Retained(policy, rows, headSeq) <==> r in rows && !(Removable(policy, r) && r.seqNo != headSeq)
  {
    if rows == [] {
    } else {
      RetainedHas(policy, rows[..|rows| - 1], headSeq, r);
      assert rows == rows[..|rows| - 1] + [rows[|rows| - 1]];
    }
  }

  lemma {:induction false} RetainedAscends(policy: Policy, rows: seq<Row>, headSeq: nat)
    requires Ascending(rows)
    ensures Ascending(Retained(policy, rows, headSeq))
  {
    if rows == [] {
    } else {
      var init, last := rows[..|rows| - 1], rows[|rows| - 1];
      var before := Retained(policy, init, headSeq);
      RetainedAscends(policy, init, headSeq);
      forall i | 0 <= i < |before| ensures before[i].seqNo < last.seqNo {
        RetainedHas(policy, init, headSeq, before[i]);
        var k :| 0 <= k < |init| && init[k] == before[i];
        assert rows[k] == init[k];
      }
    }
  }

  lemma {:induction false} StaysIff(policy: Policy, rows: seq<Row>, k: nat)
    requires Ascending(rows) && k < |rows|
    ensures rows[k] in Retained(policy, rows, rows[|rows| - 1].seqNo) <==> !Goes(policy, rows, k)
  {
    RetainedHas(policy, rows, rows[|rows| - 1].seqNo, rows[k]);
  }

  /** A row of a window stays if and only if it is the newest, or has another name than the one the prune
      is for, or was not created before its cutoff; the rows that stay keep their order. */
  lemma {:induction false} PruneKeepsIff(policy: Policy, rows: seq<Row>, k: nat)
    requires Ascending(rows) && k < |rows|
    ensures rows[k] in Retained(policy, rows, rows[|rows| - 1].seqNo) <==>
            || k == |rows| - 1
            || (policy.eventFilter.Some? && policy.eventFilter != Some(rows[k].ev.event))
            || !LexBefore(rows[k].ev.createdAt, policy.cutoff(rows[k].ev.event))
    ensures Ascending(Retained(policy, rows, rows[|rows| - 1].seqNo))
    ensures forall r | r in Retained(policy, rows, rows[|rows| - 1].seqNo) :: r in rows
  {
    StaysIff(policy, rows, k);
    RetainedAscends(policy, rows, rows[|rows| - 1].seqNo);
    forall r | r in Retained(policy, rows, rows[|rows| - 1].seqNo) ensures r in rows {
      RetainedHas(policy, rows, rows[|rows| - 1].seqNo, r);
    }
  }

  /** The loop over the rows of one stream. */
  method PruneRows(policy: Policy, rows: seq<Row>) returns (retained: seq<Row>, totalPruned: nat)
    requires rows != []
    ensures retained == Retained(policy, rows, rows[|rows| - 1].seqNo)
    ensures totalPruned == |rows| - |retained|
  {
    var headSeq := rows[|rows| - 1].seqNo;
    retained, totalPruned := [], 0;
    for i := 0 to |rows|
      invariant retained == Retained(policy, rows[..i], headSeq)
      invariant totalPruned == i - |retained|
    {
      var row := rows[i];
      assert rows[..i + 1][..i] == rows[..i];
      var matchesFilter := policy.eventFilter.None? || row.ev.event == policy.eventFilter.value;
      if !matchesFilter || row.seqNo == headSeq || !Expired(policy, row) {
        retained := retained + [row];
        continue;
      }
      totalPruned := totalPruned + 1;
    }
    assert rows[..|rows|] == rows;
  }

  /** No row goes that has an older row of the window staying. */
  predicate OldestFirst(policy: Policy, rows: seq<Row>) {
    forall i: nat, j: nat | i < j < |rows| && Goes(policy, rows, j) :: Goes(policy, rows, i)
  }

  /** How many of the oldest rows go. */
  lemma {:induction false} LeadingGone(policy: Policy, rows: seq<Row>, n: nat) returns (m: nat)
    requires rows != [] && n < |rows| && forall i: nat | i < n :: Goes(policy, rows, i)
    ensures m < |rows| && !Goes(policy, rows, m) && forall i: nat | i < m :: Goes(policy, rows, i)
    decreases |rows| - n
  {
    if Goes(policy, rows, n) {
      m := LeadingGone(policy, rows, n + 1);
    } else {
      m := n;
    }
  }

  /** Where the oldest go first, what stays is a suffix of the window. */
  lemma {:induction false} RetainedIsSuffix(policy: Policy, rows: seq<Row>) returns (m: nat)
    requires rows != [] && Ascending(rows) && OldestFirst(policy, rows)
    ensures m < |rows| && Retained(policy, rows, rows[|rows| - 1].seqNo) == rows[m..]
  {
    m := LeadingGone(policy, rows, 0);
    var retained := Retained(policy, rows, rows[|rows| - 1].seqNo);
    forall r ensures r in retained <==> r in rows[m..] {
      if r in retained {
        RetainedHas(policy, rows, rows[|rows| - 1].seqNo, r);
        var k :| 0 <= k < |rows| && rows[k] == r;
        StaysIff(policy, rows, k);
        assert rows[m..][k - m] == r;
      }
      if r in rows[m..] {
        var k :| 0 <= k < |rows| - m && rows[m..][k] == r;
        StaysIff(policy, rows, m + k);
      }
    }
    RetainedAscends(policy, rows, rows[|rows| - 1].seqNo);
    SortedRowsEqual(retained, rows[m..]);
  }

  /** A row between two that stay, in a chain without gaps, stays. */
  lemma {:induction false} NoGap(hash: HashFn, retained: seq<Row>, n0: nat, h0: Hash, first: Row, last: Row, n: nat) returns (r: Row)
    requires Continues(hash, retained, n0, h0)
    requires first in retained && last in retained && first.seqNo <= n <= last.seqNo
    ensures r in retained && r.seqNo == n
  {
    var i :| 0 <= i < |retained| && retained[i] == first;
    var j :| 0 <= j < |retained| && retained[j] == last;
    assert Follows(hash, retained, i, n0, h0) && Follows(hash, retained, j, n0, h0);
    assert Follows(hash, retained, n - n0 - 1, n0, h0);
    r := retained[n - n0 - 1];
  }

  lemma {:induction false} SelectAll(rows: seq<Row>)
    ensures SelectRange(rows, None, None) == Selection(rows, None)
  {
    if rows != [] {
      SelectAll(rows[..|rows| - 1]);
      assert rows == rows[..|rows| - 1] + [rows[|rows| - 1]];
    }
  }

  lemma SameNumberSameRow(rows: seq<Row>, r: Row, j: nat)
    requires Ascending(rows) && j < |rows| && r in rows && r.seqNo == rows[j].seqNo
    ensures r == rows[j]
  {
    var i :| 0 <= i < |rows| && rows[i] == r;
  }

  lemma LastIsNewest(rows: seq<Row>, k: nat)
    requires Ascending(rows) && k < |rows|
    ensures rows[k].seqNo <= rows[|rows| - 1].seqNo
  {
  }

  /** If what stays has no gap, a row older than one that goes does not stay. */
  lemma {:induction false} OlderGoes(hash: HashFn, policy: Policy, rows: seq<Row>, n0: nat, h0: Hash, i: nat, j: nat)
    requires rows != [] && Ascending(rows)
    requires Continues(hash, Retained(policy, rows, rows[|rows| - 1].seqNo), n0, h0)
    requires i < j < |rows| && Goes(policy, rows, j)
    ensures Goes(policy, rows, i)
  {
    var retained := Retained(policy, rows, rows[|rows| - 1].seqNo);
    StaysIff(policy, rows, i);
    StaysIff(policy, rows, j);
    StaysIff(policy, rows, |rows| - 1);
    LastIsNewest(rows, j);
    if !Goes(policy, rows, i) {
      var r := NoGap(hash, retained, n0, h0, rows[i], rows[|rows| - 1], rows[j].seqNo);
      RetainedHas(policy, rows, rows[|rows| - 1].seqNo, r);
      SameNumberSameRow(rows, r, j);
    }
  }

  lemma {:induction false} AcceptedGoesOldestFirst(hash: HashFn, stream: string, policy: Policy, rows: seq<Row>)
    requires rows != [] && Ascending(rows)
    requires Accepts(VerifyRows(hash, stream, Retained(policy, rows, rows[|rows| - 1].seqNo), None, None))
    ensures OldestFirst(policy, rows)
  {
    var retained := Retained(policy, rows, rows[|rows| - 1].seqNo);
    SelectAll(retained);
    StaysIff(policy, rows, |rows| - 1);
    var start := StartOf(Selection(retained, None));
    AcceptsIff(hash, retained, start, true);
    forall i: nat, j: nat | i < j < |rows| && Goes(policy, rows, j) ensures Goes(policy, rows, i) {
      OlderGoes(hash, policy, rows, start.prevSeq, start.prevHash, i, j);
    }
  }

  lemma WindowAscends(full: seq<Row>, a: nat)
    requires Numbered(full) && a < |full|
    ensures Ascending(full[a..]) && full[a..][|full| - a - 1].seqNo == |full|
  {
    forall i, j | 0 <= i < j < |full| - a ensures full[a..][i].seqNo < full[a..][j].seqNo {
      assert NumberedAt(full, a + i) && NumberedAt(full, a + j);
    }
    assert NumberedAt(full, |full| - 1);
  }

  lemma SuffixOfSuffix(full: seq<Row>, a: nat, m: nat)
    requires a + m <= |full|
    ensures full[a..][m..] == full[a + m..]
  {
  }

  lemma {:induction false} OldestFirstVerifies(hash: HashFn, stream: string, policy: Policy, full: seq<Row>, a: nat, rows: seq<Row>)
    requires IsChain(hash, full, 0, GENESIS) && a < |full| && rows == full[a..]
    requires Ascending(rows) && rows[|rows| - 1].seqNo == |full| && OldestFirst(policy, rows)
    ensures Accepts(VerifyRows(hash, stream, Retained(policy, rows, |full|), None, None))
  {
    var m := RetainedIsWindow(policy, full, a, rows);
    WindowVerifies(hash, stream, full, m, None, None);
  }

  lemma {:induction false} RetainedIsWindow(policy: Policy, full: seq<Row>, a: nat, rows: seq<Row>) returns (m: nat)
    requires a < |full| && rows == full[a..]
    requires Ascending(rows) && rows[|rows| - 1].seqNo == |full| && OldestFirst(policy, rows)
    ensures m <= |full| && Retained(policy, rows, |full|) == full[m..]
  {
    var k := RetainedIsSuffix(policy, rows);
    SuffixOfSuffix(full, a, k);
    m := a + k;
  }

  /** After a prune the window of a stream still verifies if and only if no row went that has an
      older one staying. A prune by event name, or with different ages per event, can remove rows
      from the middle, and the rows left no longer verify. */
  lemma {:induction false} PruneVerifiesIff(hash: HashFn, stream: string, policy: Policy, full: seq<Row>, a: nat)
    requires IsChain(hash, full, 0, GENESIS) && a < |full|
    ensures Accepts(VerifyRows(hash, stream, Retained(policy, full[a..], |full|), None, None)) <==> OldestFirst(policy, full[a..])
  {
    var rows := full[a..];
    ChainIsNumbered(hash, full);
    WindowAscends(full, a);
    if OldestFirst(policy, rows) {
      OldestFirstVerifies(hash, stream, policy, full, a, rows);
    }
    if Accepts(VerifyRows(hash, stream, Retained(policy, rows, |full|), None, None)) {
      AcceptedGoesOldestFirst(hash, stream, policy, rows);
    }
  }

  /** Pruning one event name leaves a gap: of three rows written, the second alone has that name and
      has expired, and the two that stay do not verify. */
  lemma {:induction false} PruneLeavesAGap(hash: HashFn, stream: string, policy: Policy, batch: seq<Event>, rows: seq<Row>)
    requires |batch| == 3 && ChainFrom(hash, batch, 0, GENESIS) == Some(rows)
    requires policy.eventFilter == Some(batch[1].event) && batch[0].event != batch[1].event
    requires Expired(policy, Row(batch[1], 2, "", ""))
    ensures |rows| == 3 && Retained(policy, rows, 3) == [rows[0], rows[2]]
    ensures !Accepts(VerifyRows(hash, stream, [rows[0], rows[2]], None, None))
  {
    ChainFromIs(hash, batch, 0, GENESIS, rows);
    ChainIsNumbered(hash, rows);
    assert |EventsOf(rows)| == 3 && EventsOf(rows)[0] == batch[0] && EventsOf(rows)[1] == batch[1];
    assert NumberedAt(rows, 0) && NumberedAt(rows, 1) && NumberedAt(rows, 2);
    assert Goes(policy, rows, 1) && !Goes(policy, rows, 0);
    assert rows[0..] == rows;
    PruneVerifiesIff(hash, stream, policy, rows, 0);
    RetainedPair(policy, rows);
  }

  lemma {:induction false} RetainedPair(policy: Policy, rows: seq<Row>)
    requires |rows| == 3 && rows[0].seqNo == 1 && rows[1].seqNo == 2 && rows[2].seqNo == 3
    requires !Removable(policy, rows[0]) && Removable(policy, rows[1])
    ensures Retained(policy, rows, 3) == [rows[0], rows[2]]
  {
    assert rows[..2][..1] == [rows[0]] && [rows[0]][..0] == [];
    assert Retained(policy, [rows[0]], 3) == [rows[0]];
    assert Retained(policy, rows[..2], 3) == [rows[0]];
  }

  // ---------------------------------------------------------------------------
  // The store

  class HttpStore {
    const hash: HashFn
    const cap: nat
    var heads: Heads
    var logs: map<string, seq<Row>>
    ghost var trail: Trail

    function Log(stream: string): seq<Row>
      reads this
    {
      if stream in logs then logs[stream] else []
    }

    /** Every stream's trail is a chain whose last row is the head, and the log is its window. */
    ghost predicate Valid()
      reads this
    {
      && HeadsOk(hash, heads, trail)
      && (forall stream :: Log(stream) == Window(cap, trail(stream)))
    }

    /** What is retained of each stream: its newest rows, up to the cap. */
    lemma LogsAreNewest()
      requires Valid()
      ensures forall stream :: IsNewest(cap, Log(stream), trail(stream))
    {
      forall stream ensures IsNewest(cap, Log(stream), trail(stream)) {
        WindowIsNewest(cap, trail(stream));
      }
    }

    constructor (hash: HashFn, maxRetainedPerStream: nat)
      ensures Valid() && this.hash == hash && cap == maxRetainedPerStream
      ensures forall stream :: trail(stream) == []
    {
      this.hash := hash;
      cap := maxRetainedPerStream;
      heads, logs := map[], map[];
      trail := s => [];
    }

    method Retain(row: Row)
      modifies this`logs
      ensures forall stream :: Log(stream) == if stream == row.ev.stream then Window(cap, old(Log(stream)) + [row]) else old(Log(stream))
    {
      var existing := Log(row.ev.stream) + [row];
      if cap > 0 && |existing| > cap {
        existing := existing[|existing| - cap..];
      }
      logs := logs[row.ev.stream := existing];
    }

    /** The loop that pushes the rows of a write onto the logs. */
    method RetainAll(rows: seq<Row>)
      requires forall stream :: Log(stream) == Window(cap, trail(stream))
      modifies this`logs
      ensures forall stream :: Log(stream) == Window(cap, trail(stream) + RowsOf(rows, stream))
    {
      NoRows(trail);
      for i := 0 to |rows|
        invariant forall stream :: Log(stream) == Window(cap, trail(stream) + RowsOf(rows[..i], stream))
      {
        ghost var before := map stream | stream in logs :: logs[stream];
        assert before == logs;
        Retain(rows[i]);
        assert rows[..i + 1] == rows[..i] + [rows[i]];
        forall stream ensures Log(stream) == Window(cap, trail(stream) + RowsOf(rows[..i + 1], stream)) {
          OneMoreRow(cap, trail(stream), rows[..i], rows[i], stream);
        }
      }
      assert rows[..|rows|] == rows;
    }

    /** A write that is not disturbed by another one. `accepted` says whether the collector took the
        post. It fails if it did not or if hashing throws, and then nothing changes. */
    method Write(batch: seq<Event>, accepted: bool) returns (r: Option<seq<Row>>)
      requires Valid()
      modifies this
      ensures Valid()
      ensures r.Some? <==> (batch == [] || accepted) && CanChain(hash, old(heads), batch)
      ensures r.None? ==> heads == old(heads) && logs == old(logs) && trail == old(trail)
      ensures r.Some? ==> WritesBatch(old(trail), trail, batch, r.value)
    {
      if |batch| == 0 {
        NoRows(trail);
        return Some([]);
      }
      var grouped := GroupBy(StreamOf, batch);
      GroupsAreOfStreams(batch);
      var allChained, newHeads := ChainBatches(hash, heads, grouped);
      ChainsIff(hash, heads, batch);
      if allChained.None? || !accepted {
        return None;
      }
      WriteKeepsHeads(hash, heads, trail, batch);
      BatchWritten(hash, heads, trail, batch);
      RetainAll(allChained.value);
      heads := heads + newHeads;
      trail := Written(trail, allChained.value);
      return Some(allChained.value);
    }

    /** Verification of what is retained of a stream finds every row of any range valid. */
    method Verify(stream: string, fromSeq: Option<int>, toSeq: Option<int>) returns (reports: seq<Report>)
      requires Valid()
      ensures Accepts(VerifyRows(hash, stream, Log(stream), fromSeq, toSeq))
      ensures reports == VerifyRows(hash, stream, Log(stream), fromSeq, toSeq).reports
    {
      var rows := Log(stream);
      assert StreamOk(hash, heads, trail(stream), stream);
      WindowIsSuffix(cap, trail(stream));
      ghost var a: nat :| a <= |trail(stream)| && rows == trail(stream)[a..];
      WindowVerifies(hash, stream, trail(stream), a, fromSeq, toSeq);
      var sel := FilterRange(rows, fromSeq, toSeq);
      if |sel.filtered| == 0 {
        return [Report(stream, true, None, None, None, 0)];
      }
      reports := VerifySelected(hash, sel);
    }
  }

  lemma NoRows(trail: Trail)
    ensures forall stream :: trail(stream) + RowsOf([], stream) == trail(stream)
    ensures WritesBatch(trail, trail, [], [])
  {
    forall stream ensures EventsOf(RowsOf([], stream)) == Select(StreamOf, [], stream) {
      assert EventsOf([]) == [];
    }
  }

  lemma OneMoreRow(cap: nat, before: seq<Row>, rows: seq<Row>, row: Row, stream: string)
    ensures Window(cap, before + RowsOf(rows + [row], stream)) ==
            if stream == row.ev.stream then Window(cap, Window(cap, before + RowsOf(rows, stream)) + [row])
            else Window(cap, before + RowsOf(rows, stream))
  {
    RowsOfConcat(rows, [row], stream);
    RowsOfOne([row], row.ev.stream, stream);
    if stream == row.ev.stream {
      assert before + (RowsOf(rows, stream) + [row]) == (before + RowsOf(rows, stream)) + [row];
      WindowPush(cap, before + RowsOf(rows, stream), row);
    } else {
      assert RowsOf(rows, stream) + [] == RowsOf(rows, stream);
    }
  }

  /** The loop over the selected rows. */
  method VerifySelected(hash: HashFn, sel: Selection) returns (reports: seq<Report>)
    requires sel.filtered != []
    ensures reports == ScanAll(hash, sel.filtered, StartOf(sel), true).reports
  {
    var rows := sel.filtered;
    var state := StartOf(sel);
    ghost var st := state;
    reports := [];
    for i := 0 to |rows|
      invariant ScanAll(hash, rows[..i], st, true) == ScanRun(reports, state, true)
    {
      ScanOneMore(hash, rows, i, st, true);
      var report, next, threw := CheckOwnRow(hash, rows[i], state);
      if threw {
        ScanStopped(hash, rows, i + 1, st, true);
        return;
      }
      reports, state := reports + [report], next;
    }
    assert rows[..|rows|] == rows;
  }
}
