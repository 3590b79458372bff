/** Verifying chained rows: the pass every store's verification makes over one stream, and
    `verifyChain` over interleaved streams (src/core/hash_chain.ts). */
module ChainVerify {
  import opened Wrappers
  import opened AuditTypes
  import opened HashChain

  datatype Report = Report(
    stream: string,
    valid: bool,
    firstInvalidSeq: Option<nat>,
    expectedHash: Option<Hash>,
    actualHash: Option<Hash>,
    checkedCount: nat)

  /** Where a pass over one stream stands: the last valid row, how many rows were checked, and
      the number reported for the first invalid one. */
  datatype Scan = Scan(prevSeq: nat, prevHash: Hash, checked: nat, firstInvalid: Option<nat>)

  /** What a pass reported; not completed if hashing threw. */
  datatype ScanRun = ScanRun(reports: seq<Report>, state: Scan, completed: bool)

  /** A pass that starts after row `n0` with hash `h0`. */
  function StartScan(n0: nat, h0: Hash): Scan {
    Scan(n0, h0, 0, None)
  }

  /** Checks one row. `own` selects the number reported for a first invalid row: its own, as the
      stores do, or the expected one, as `verifyChain` does. */
  function ScanRow(hash: HashFn, row: Row, st: Scan, own: bool): Option<(Report, Scan)> {
    var expectedSeq := st.prevSeq + 1;
    match hash(row.ev, expectedSeq, st.prevHash)
    case None => None
    case Some(expected) =>
      if row.seqNo == expectedSeq && row.hash == expected then
        Some((Report(row.ev.stream, true, None, None, None, st.checked + 1),
              Scan(row.seqNo, row.hash, st.checked + 1, st.firstInvalid)))
      else
        var first := if st.firstInvalid.Some? then st.firstInvalid.value else if own then row.seqNo else expectedSeq;
        Some((Report(row.ev.stream, false, Some(first), Some(expected), Some(row.hash), st.checked + 1),
              Scan(st.prevSeq, st.prevHash, st.checked + 1, Some(first))))
  }

  /** One pass over the rows of one stream. */
  function ScanAll(hash: HashFn, rows: seq<Row>, st: Scan, own: bool): (r: ScanRun)
    ensures |r.reports| <= |rows|
    ensures r.completed ==> |r.reports| == |rows|
  {
    if rows == [] then ScanRun([], st, true)
    else
      match ScanRow(hash, rows[0], st, own)
      case None => ScanRun([], st, false)
      case Some(step) =>
        var rest := ScanAll(hash, rows[1..], step.1, own);
        ScanRun([step.0] + rest.reports, rest.state, rest.completed)
  }

  predicate AllValid(reports: seq<Report>) {
    forall i | 0 <= i < |reports| :: reports[i].valid
  }

  /** The pass finished and found every row valid. */
  predicate Accepts(r: ScanRun) {
    r.completed && AllValid(r.reports)
  }

  lemma AllValidCons(first: Report, rest: seq<Report>)
    ensures AllValid([first] + rest) <==> first.valid && AllValid(rest)
  {
    if AllValid([first] + rest) {
      forall i | 0 <= i < |rest| ensures rest[i].valid {
        assert rest[i] == ([first] + rest)[i + 1];
      }
      assert ([first] + rest)[0] == first;
    }
  }

  /** Two passes in a row are one pass. */
  lemma {:induction false} ScanConcat(hash: HashFn, a: seq<Row>, b: seq<Row>, st: Scan, own: bool)
    ensures ScanAll(hash, a + b, st, own) ==
            var first := ScanAll(hash, a, st, own);
            if !first.completed then first
            else
              var second := ScanAll(hash, b, first.state, own);
              ScanRun(first.reports + second.reports, second.state, second.completed)
  {
    if a == [] {
      assert a + b == b;
      var second := ScanAll(hash, b, st, own);
      assert [] + second.reports == second.reports;
    } else {
      assert (a + b)[1..] == a[1..] + b;
      match ScanRow(hash, a[0], st, own)
      case None =>
      case Some(step) =>
        ScanConcat(hash, a[1..], b, step.1, own);
        var first := ScanAll(hash, a[1..], step.1, own);
        var second := ScanAll(hash, b, first.state, own);
        assert [step.0] + (first.reports + second.reports) == ([step.0] + first.reports) + second.reports;
    }
  }

  lemma ScanOneMore(hash: HashFn, rows: seq<Row>, k: nat, st: Scan, own: bool)
    requires k < |rows| && ScanAll(hash, rows[..k], st, own).completed
    ensures var before := ScanAll(hash, rows[..k], st, own);
            ScanAll(hash, rows[..k + 1], st, own) ==
            match ScanRow(hash, rows[k], before.state, own)
            case None => ScanRun(before.reports, before.state, false)
            case Some(step) => ScanRun(before.reports + [step.0], step.1, true)
  {
    var before := ScanAll(hash, rows[..k], st, own);
    assert rows[..k + 1] == rows[..k] + [rows[k]];
    ScanConcat(hash, rows[..k], [rows[k]], st, own);
    assert [rows[k]][1..] == [];
    match ScanRow(hash, rows[k], before.state, own)
    case None => assert before.reports + [] == before.reports;
    case Some(step) => assert [step.0] + [] == [step.0];
  }

  lemma ScanStopped(hash: HashFn, rows: seq<Row>, k: nat, st: Scan, own: bool)
    requires k <= |rows| && !ScanAll(hash, rows[..k], st, own).completed
    ensures ScanAll(hash, rows, st, own) == ScanAll(hash, rows[..k], st, own)
  {
    assert rows == rows[..k] + rows[k..];
    ScanConcat(hash, rows[..k], rows[k..], st, own);
  }

  /** The body of the stores' verification loops: one row against the running state. */
  method CheckOwnRow(hash: HashFn, row: Row, before: Scan) returns (report: Report, state: Scan, threw: bool)
    ensures ScanRow(hash, row, before, true) == if threw then None else Some((report, state))
  {
    state := before.(checked := before.checked + 1);
    report := Report(row.ev.stream, true, None, None, None, state.checked);
    var expectedSeq := state.prevSeq + 1;
    var expectedHash := hash(row.ev, expectedSeq, state.prevHash);
    if expectedHash.None? {
      return report, state, true;
    }
    threw := false;
    if row.seqNo == expectedSeq && row.hash == expectedHash.value {
      state := state.(prevSeq := row.seqNo, prevHash := row.hash);
    } else {
      if state.firstInvalid.None? {
        state := state.(firstInvalid := Some(row.seqNo));
      }
      report := Report(row.ev.stream, false, state.firstInvalid, expectedHash, Some(row.hash), state.checked);
    }
  }

  /** A pass accepts exactly the rows that continue the stream without a gap, each with the hash
      of its event over its predecessor's hash. */
  lemma {:induction false} AcceptsIff(hash: HashFn, rows: seq<Row>, st: Scan, own: bool)
    ensures Accepts(ScanAll(hash, rows, st, own)) <==> Continues(hash, rows, st.prevSeq, st.prevHash)
  {
    if rows == [] {
    } else {
      var row, rest := rows[0], rows[1..];
      assert rows == [row] + rest;
      ContinuesCons(hash, row, rest, st.prevSeq, st.prevHash);
      match ScanRow(hash, row, st, own)
      case None =>
      case Some(step) =>
        AcceptsIff(hash, rest, step.1, own);
        AllValidCons(step.0, ScanAll(hash, rest, step.1, own).reports);
    }
  }

  /** The stored predecessor hash is never compared: rows that differ only there get the same
      verdicts. */
  lemma {:induction false} StoredPrevHashUnchecked(hash: HashFn, rows: seq<Row>, other: seq<Row>, st: Scan, own: bool)
    requires |rows| == |other|
    requires forall i | 0 <= i < |rows| :: other[i] == rows[i].(prevHash := other[i].prevHash)
    ensures ScanAll(hash, other, st, own) == ScanAll(hash, rows, st, own)
  {
    if rows == [] {
    } else {
      assert ScanRow(hash, rows[0], st, own) == ScanRow(hash, other[0], st, own);
      match ScanRow(hash, rows[0], st, own)
      case None =>
      case Some(step) => StoredPrevHashUnchecked(hash, rows[1..], other[1..], step.1, own);
    }
  }

  // ---------------------------------------------------------------------------
  // The shape of the verdicts

  predicate Ascending(rows: seq<Row>) {
    forall i, j | 0 <= i < j < |rows| :: rows[i].seqNo < rows[j].seqNo
  }

  /** Row `i` of a stream has number `i + 1`. */
  predicate NumberedAt(rows: seq<Row>, i: nat)
    requires i < |rows|
  {
    rows[i].seqNo == i + 1
  }

  ghost predicate Numbered(rows: seq<Row>) {
    forall i: nat | i < |rows| :: NumberedAt(rows, i)
  }

  lemma ChainIsNumbered(hash: HashFn, rows: seq<Row>)
    requires Continues(hash, rows, 0, GENESIS)
    ensures Numbered(rows)
  {
    forall i: nat | i < |rows| ensures NumberedAt(rows, i) {
      assert Follows(hash, rows, i, 0, GENESIS);
    }
  }

  /** A stretch of a chain continues from the row before it. */
  lemma SliceContinues(hash: HashFn, rows: seq<Row>, i: nat, j: nat)
    requires Continues(hash, rows, 0, GENESIS) && i <= j <= |rows|
    ensures Continues(hash, rows[i..j], i, PrevOf(rows, i, GENESIS))
  {
    forall k: nat | k < j - i ensures Follows(hash, rows[i..j], k, i, PrevOf(rows, i, GENESIS)) {
      assert Follows(hash, rows, i + k, 0, GENESIS);
    }
  }

  /** Rows in ascending order are determined by which rows they are. */
  lemma {:induction false} SortedRowsEqual(xs: seq<Row>, ys: seq<Row>)
    requires Ascending(xs) && Ascending(ys)
    requires forall r :: r in xs <==> r in ys
    ensures xs == ys
  {
    assert xs != [] ==> xs[0] in ys;
    assert ys != [] ==> ys[0] in xs;
    if xs == [] {
    } else {
      var i :| 0 <= i < |ys| && ys[i] == xs[0];
      var j :| 0 <= j < |xs| && xs[j] == ys[0];
      assert xs[0] == ys[0];
      forall r ensures r in xs[1..] <==> r in ys[1..] {
        if r in xs[1..] {
          var k :| 0 < k < |xs| && xs[k] == r;
          assert r in ys && r != ys[0];
        }
        if r in ys[1..] {
          var k :| 0 < k < |ys| && ys[k] == r;
          assert r in xs && r != xs[0];
        }
      }
      SortedRowsEqual(xs[1..], ys[1..]);
    }
  }

  /** Only invalid verdicts, which all report `first`. */
  predicate AllInvalid(reports: seq<Report>, first: nat) {
    forall i | 0 <= i < |reports| :: !reports[i].valid && reports[i].firstInvalidSeq == Some(first)
  }

  /** `k` valid verdicts, then only invalid ones that report the number after `n0 + k`. */
  predicate BreaksAfter(reports: seq<Report>, k: nat, n0: nat) {
    k <= |reports| && AllValid(reports[..k]) && AllInvalid(reports[k..], n0 + k + 1)
  }

  lemma BreaksCons(first: Report, rest: seq<Report>, k: nat, n0: nat)
    requires first.valid && BreaksAfter(rest, k, n0 + 1)
    ensures BreaksAfter([first] + rest, k + 1, n0)
  {
    var reports := [first] + rest;
    AllValidCons(first, rest[..k]);
    assert reports[..k + 1] == [first] + rest[..k] && reports[k + 1..] == rest[k..];
  }

  /** Once a row is invalid, no later row of an ascending stream is valid. */
  lemma {:induction false} StaysInvalid(hash: HashFn, rows: seq<Row>, st: Scan)
    requires st.firstInvalid.Some?
    requires forall i | 0 <= i < |rows| :: rows[i].seqNo > st.prevSeq + 1
    ensures AllInvalid(ScanAll(hash, rows, st, false).reports, st.firstInvalid.value)
  {
    if rows == [] {
    } else {
      match ScanRow(hash, rows[0], st, false)
      case None =>
      case Some(step) => StaysInvalid(hash, rows[1..], step.1);
    }
  }

  /** Over rows strictly ascending in number, the verdicts of `verifyChain` are a run of valid
      ones followed only by invalid ones, which all report one number: that of the first row
      expected but not found. */
  lemma {:induction false} VerdictShape(hash: HashFn, rows: seq<Row>, st: Scan)
    requires st.firstInvalid.None?
    requires Ascending(rows)
    requires rows != [] ==> rows[0].seqNo > st.prevSeq
    ensures exists k: nat :: BreaksAfter(ScanAll(hash, rows, st, false).reports, k, st.prevSeq)
  {
    var reports := ScanAll(hash, rows, st, false).reports;
    if rows == [] {
      assert BreaksAfter(reports, 0, st.prevSeq);
    } else {
      match ScanRow(hash, rows[0], st, false)
      case None =>
        assert BreaksAfter(reports, 0, st.prevSeq);
      case Some(step) =>
        var rest := ScanAll(hash, rows[1..], step.1, false).reports;
        if step.0.valid {
          VerdictShape(hash, rows[1..], step.1);
          var k: nat :| BreaksAfter(rest, k, step.1.prevSeq);
          BreaksCons(step.0, rest, k, st.prevSeq);
          assert BreaksAfter(reports, k + 1, st.prevSeq);
        } else {
          StaysInvalid(hash, rows[1..], step.1);
          assert reports[0..] == reports;
          assert BreaksAfter(reports, 0, st.prevSeq);
        }
    }
  }

  // ---------------------------------------------------------------------------
  // What a report says

  /** The last of the rows that was reported valid, or where the pass began. */
  function LastValid(rows: seq<Row>, reports: seq<Report>, start: Head): Head
    requires |rows| == |reports|
  {
    if rows == [] then start
    else
      var k := |rows| - 1;
      if reports[k].valid then Head(rows[k].seqNo, rows[k].hash) else LastValid(rows[..k], reports[..k], start)
  }

  /** The reports of the invalid rows all name this number. */
  predicate AllName(reports: seq<Report>, first: Option<nat>) {
    forall i | 0 <= i < |reports| && !reports[i].valid :: reports[i].firstInvalidSeq == first
  }

  /** What the report of a row says after the reports of the rows before it: whether the row has the number
      after the last valid one and the hash of its event over that one's hash; and if not, the hash it
      should have, the one it has, and the number of the first invalid row, its own or the expected. */
  predicate ReportsRow(hash: HashFn, before: seq<Row>, reports: seq<Report>, row: Row, r: Report, start: Head, own: bool)
    requires |before| == |reports|
  {
    var at := LastValid(before, reports, start);
    var expected := hash(row.ev, at.seqNo + 1, at.hash);
    && expected.Some? && r.stream == row.ev.stream && r.checkedCount == |before| + 1
    && (r.valid <==> row.seqNo == at.seqNo + 1 && Some(row.hash) == expected)
    && (r.valid ==> r == Report(r.stream, true, None, None, None, r.checkedCount))
    && (!r.valid ==>
          && r.expectedHash == expected && r.actualHash == Some(row.hash) && AllName(reports, r.firstInvalidSeq)
          && (AllValid(reports) ==> r.firstInvalidSeq == Some(if own then row.seqNo else at.seqNo + 1)))
  }

  predicate ReportsRowAt(hash: HashFn, rows: seq<Row>, reports: seq<Report>, i: nat, start: Head, own: bool)
    requires |rows| == |reports| && i < |rows|
  {
    ReportsRow(hash, rows[..i], reports[..i], rows[i], reports[i], start, own)
  }

  /** The state a pass is in after these reports. */
  predicate StandsAt(rows: seq<Row>, pass: ScanRun, start: Head)
    requires |pass.reports| == |rows|
  {
    && Head(pass.state.prevSeq, pass.state.prevHash) == LastValid(rows, pass.reports, start)
    && pass.state.checked == |rows| && AllName(pass.reports, pass.state.firstInvalid)
    && (AllValid(pass.reports) <==> pass.state.firstInvalid.None?)
  }

  lemma AllValidMore(reports: seq<Report>, r: Report)
    ensures AllValid(reports + [r]) <==> AllValid(reports) && r.valid
  {
    assert (reports + [r])[|reports|] == r;
    assert forall i | 0 <= i < |reports| :: (reports + [r])[i] == reports[i];
  }

  lemma RowIsReported(hash: HashFn, rows: seq<Row>, pass: ScanRun, row: Row, start: Head, own: bool)
    requires |pass.reports| == |rows| && StandsAt(rows, pass, start) && ScanRow(hash, row, pass.state, own).Some?
    ensures var step := ScanRow(hash, row, pass.state, own).value;
            && ReportsRow(hash, rows, pass.reports, row, step.0, start, own)
            && StandsAt(rows + [row], ScanRun(pass.reports + [step.0], step.1, true), start)
  {
    var step := ScanRow(hash, row, pass.state, own).value;
    assert (rows + [row])[..|rows|] == rows && (pass.reports + [step.0])[..|rows|] == pass.reports;
    AllValidMore(pass.reports, step.0);
  }

  lemma {:induction false} PassReports(hash: HashFn, rows: seq<Row>, start: Head, own: bool)
    requires ScanAll(hash, rows, StartScan(start.seqNo, start.hash), own).completed
    ensures var pass := ScanAll(hash, rows, StartScan(start.seqNo, start.hash), own);
            StandsAt(rows, pass, start) && forall i: nat | i < |rows| :: ReportsRowAt(hash, rows, pass.reports, i, start, own)
  {
    var st := StartScan(start.seqNo, start.hash);
    var pass := ScanAll(hash, rows, st, own);
    if rows == [] {
    } else {
      var k := |rows| - 1;
      var init := ScanAll(hash, rows[..k], st, own);
      if !init.completed {
        ScanStopped(hash, rows, k, st, own);
      }
      PassReports(hash, rows[..k], start, own);
      ScanOneMore(hash, rows, k, st, own);
      assert rows[..k + 1] == rows && rows == rows[..k] + [rows[k]];
      RowIsReported(hash, rows[..k], init, rows[k], start, own);
      MoreReported(hash, rows, pass.reports, k, start, own);
    }
  }

  lemma MoreReported(hash: HashFn, rows: seq<Row>, reports: seq<Report>, k: nat, start: Head, own: bool)
    requires |rows| == |reports| == k + 1 && ReportsRowAt(hash, rows, reports, k, start, own)
    requires forall i: nat | i < k :: ReportsRowAt(hash, rows[..k], reports[..k], i, start, own)
    ensures forall i: nat | i <= k :: ReportsRowAt(hash, rows, reports, i, start, own)
  {
    forall i: nat | i < k ensures ReportsRowAt(hash, rows, reports, i, start, own) {
      assert ReportsRowAt(hash, rows[..k], reports[..k], i, start, own);
      assert rows[..k][..i] == rows[..i] && reports[..k][..i] == reports[..i];
    }
  }

  /** Every report of a pass that finishes says of its row what the rows before it, as they were reported,
      imply. */
  lemma ReportsAre(hash: HashFn, rows: seq<Row>, start: Head, own: bool, i: nat)
    requires ScanAll(hash, rows, StartScan(start.seqNo, start.hash), own).completed && i < |rows|
    ensures ReportsRowAt(hash, rows, ScanAll(hash, rows, StartScan(start.seqNo, start.hash), own).reports, i, start, own)
  {
    PassReports(hash, rows, start, own);
  }

  // ---------------------------------------------------------------------------
  // verifyChain

  datatype Verdicts = Verdicts(reports: seq<Report>, completed: bool)

  function StateOf(states: map<string, Scan>, stream: string): Scan {
    if stream in states then states[stream] else StartScan(0, GENESIS)
  }

  /** The reports of `verifyChain` over rows of any streams, from the given stream states. */
  function VerifyAll(hash: HashFn, rows: seq<Row>, states: map<string, Scan>): Verdicts {
    if rows == [] then Verdicts([], true)
    else
      var stream := rows[0].ev.stream;
      match ScanRow(hash, rows[0], StateOf(states, stream), false)
      case None => Verdicts([], false)
      case Some(step) =>
        var rest := VerifyAll(hash, rows[1..], states[stream := step.1]);
        Verdicts([step.0] + rest.reports, rest.completed)
  }

  function RowsOf(rows: seq<Row>, stream: string): seq<Row> {
    if rows == [] then []
    else (if rows[0].ev.stream == stream then [rows[0]] else []) + RowsOf(rows[1..], stream)
  }

  function ReportsOf(reports: seq<Report>, stream: string): seq<Report> {
    if reports == [] then []
    else (if reports[0].stream == stream then [reports[0]] else []) + ReportsOf(reports[1..], stream)
  }

  /** Interleaving does not matter: each stream gets the verdicts its own rows get alone. */
  lemma {:induction false} StreamsAreIndependent(hash: HashFn, rows: seq<Row>, states: map<string, Scan>, stream: string)
    requires VerifyAll(hash, rows, states).completed
    ensures ScanAll(hash, RowsOf(rows, stream), StateOf(states, stream), false).completed
    ensures ReportsOf(VerifyAll(hash, rows, states).reports, stream)
         == ScanAll(hash, RowsOf(rows, stream), StateOf(states, stream), false).reports
  {
    if rows == [] {
    } else {
      var s := rows[0].ev.stream;
      var step := ScanRow(hash, rows[0], StateOf(states, s), false).value;
      var states' := states[s := step.1];
      var rest := VerifyAll(hash, rows[1..], states');
      StreamsAreIndependent(hash, rows[1..], states', stream);
      assert ([step.0] + rest.reports)[1..] == rest.reports;
      var more := RowsOf(rows[1..], stream);
      if s == stream {
        assert RowsOf(rows, stream) == [rows[0]] + more;
        assert ([rows[0]] + more)[1..] == more;
      } else {
        assert RowsOf(rows, stream) == [] + more == more;
        assert ReportsOf([step.0] + rest.reports, stream) == [] + ReportsOf(rest.reports, stream);
      }
    }
  }

  /** One more row. */
  lemma {:induction false} VerifyAppend(hash: HashFn, rows: seq<Row>, row: Row, states: map<string, Scan>)
    requires VerifyAll(hash, rows, states).completed
    ensures VerifyAll(hash, rows + [row], states) ==
            var before := VerifyAll(hash, rows, states);
            match ScanRow(hash, row, StateOf(StatesAfter(hash, rows, states), row.ev.stream), false)
            case None => Verdicts(before.reports, false)
            case Some(step) => Verdicts(before.reports + [step.0], true)
    ensures StatesAfter(hash, rows + [row], states) ==
            var after := StatesAfter(hash, rows, states);
            match ScanRow(hash, row, StateOf(after, row.ev.stream), false)
            case None => after
            case Some(step) => after[row.ev.stream := step.1]
  {
    if rows == [] {
      assert rows + [row] == [row] && [row][1..] == [];
      match ScanRow(hash, row, StateOf(states, row.ev.stream), false)
      case None =>
      case Some(step) => assert [step.0] + [] == [] + [step.0];
    } else {
      assert (rows + [row])[1..] == rows[1..] + [row];
      var s := rows[0].ev.stream;
      var step := ScanRow(hash, rows[0], StateOf(states, s), false).value;
      var states' := states[s := step.1];
      VerifyAppend(hash, rows[1..], row, states');
      var rest := VerifyAll(hash, rows[1..], states');
      match ScanRow(hash, row, StateOf(StatesAfter(hash, rows, states), row.ev.stream), false)
      case None =>
      case Some(last) => assert [step.0] + (rest.reports + [last.0]) == ([step.0] + rest.reports) + [last.0];
    }
  }

  /** The stream states after a pass. */
  function StatesAfter(hash: HashFn, rows: seq<Row>, states: map<string, Scan>): map<string, Scan> {
    if rows == [] then states
    else
      var stream := rows[0].ev.stream;
      match ScanRow(hash, rows[0], StateOf(states, stream), false)
      case None => states
      case Some(step) => StatesAfter(hash, rows[1..], states[stream := step.1])
  }

  lemma VerifyPrefix(hash: HashFn, rows: seq<Row>, i: nat, states: map<string, Scan>)
    requires i <= |rows| && !VerifyAll(hash, rows[..i], states).completed
    ensures VerifyAll(hash, rows, states) == VerifyAll(hash, rows[..i], states)
  {
    if i != 0 && rows != [] {
      assert rows[..i][1..] == rows[1..][..i - 1];
      match ScanRow(hash, rows[0], StateOf(states, rows[0].ev.stream), false)
      case None =>
      case Some(step) => VerifyPrefix(hash, rows[1..], i - 1, states[rows[0].ev.stream := step.1]);
    }
  }

  /** The body of the loop of `verifyChain`: one row against its stream's state. */
  method CheckRow(hash: HashFn, row: Row, before: Scan) returns (report: Report, state: Scan, threw: bool)
    ensures ScanRow(hash, row, before, false) == if threw then None else Some((report, state))
  {
    state := before.(checked := before.checked + 1);
    report := Report(row.ev.stream, true, None, None, None, state.checked);
    var expectedSeq := state.prevSeq + 1;
    var expectedHash := hash(row.ev, expectedSeq, state.prevHash);
    if expectedHash.None? {
      return report, state, true;
    }
    threw := false;
    if row.seqNo == expectedSeq && row.hash == expectedHash.value {
      state := state.(prevSeq := row.seqNo, prevHash := row.hash);
    } else {
      if state.firstInvalid.None? {
        state := state.(firstInvalid := Some(expectedSeq));
      }
      report := Report(row.ev.stream, false, state.firstInvalid, expectedHash, Some(row.hash), state.checked);
    }
  }

  /** `verifyChain` as the loop it is, with its map of stream states. */
  method VerifyChain(hash: HashFn, rows: seq<Row>) returns (r: Verdicts)
    ensures r == VerifyAll(hash, rows, map[])
  {
    var streams: map<string, Scan> := map[];
    var reports: seq<Report> := [];
    for i := 0 to |rows|
      invariant VerifyAll(hash, rows[..i], map[]) == Verdicts(reports, true)
      invariant streams == StatesAfter(hash, rows[..i], map[])
    {
      var row := rows[i];
      var before := if row.ev.stream in streams then streams[row.ev.stream] else StartScan(0, GENESIS);
      var report, state, threw := CheckRow(hash, row, before);
      assert rows[..i + 1] == rows[..i] + [row];
      VerifyAppend(hash, rows[..i], row, map[]);
      if threw {
        VerifyPrefix(hash, rows, i + 1, map[]);
        return Verdicts(reports, false);
      }
      streams := streams[row.ev.stream := state];
      reports := reports + [report];
    }
    assert rows[..|rows|] == rows;
    return Verdicts(reports, true);
  }

  lemma ChainedContinues(hash: HashFn, rows: seq<Row>, batch: seq<Event>, more: seq<Row>)
    requires IsChain(hash, rows, 0, GENESIS)
    requires ChainFrom(hash, batch, |rows|, PrevOf(rows, |rows|, GENESIS)) == Some(more)
    ensures IsChain(hash, rows + more, 0, GENESIS)
  {
    ChainFromIs(hash, batch, |rows|, PrevOf(rows, |rows|, GENESIS), more);
    ChainConcat(hash, rows, more, 0, GENESIS);
  }

  /** What `chainBatch` returns always verifies, after the rows of any chain it continues. */
  lemma ChainedVerifies(hash: HashFn, rows: seq<Row>, batch: seq<Event>, more: seq<Row>, own: bool)
    requires IsChain(hash, rows, 0, GENESIS)
    requires ChainFrom(hash, batch, |rows|, PrevOf(rows, |rows|, GENESIS)) == Some(more)
    ensures Accepts(ScanAll(hash, rows + more, StartScan(0, GENESIS), own))
  {
    ChainedContinues(hash, rows, batch, more);
    AcceptsIff(hash, rows + more, StartScan(0, GENESIS), own);
  }
}
