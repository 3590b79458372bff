/** `LucidStore.verify` (src/stores/lucid_store.ts): where the pass over a stream starts, and the
    loop that reads the stream page by page. */
module PagedVerify {
  import opened Wrappers
  import opened AuditTypes
  import opened HashChain
  import opened ChainVerify
  import opened AuditStore
  import opened StoreInvariant
  import opened StoreTables
  import opened StorePrune

  // ---------------------------------------------------------------------------
  // Queries on rows in ascending order

  function HeadsOf(rows: seq<Row>): (heads: seq<Head>)
    ensures |heads| == |rows| && forall i | 0 <= i < |rows| :: heads[i] == Head(rows[i].seqNo, rows[i].hash)
  {
    seq(|rows|, i requires 0 <= i < |rows| => Head(rows[i].seqNo, rows[i].hash))
  }

  /** Where seq is below `n`, by seq descending, limit one. */
  function LastBelow(heads: seq<Head>, n: int): Option<Head> {
    if heads == [] then None
    else if heads[|heads| - 1].seqNo < n then Some(heads[|heads| - 1])
    else LastBelow(heads[..|heads| - 1], n)
  }

  predicate AtMost(toSeq: Option<int>, n: int) {
    toSeq.Some? ==> n <= toSeq.value
  }

  /** Where seq is above `after` and at most `toSeq`, by seq ascending. */
  function Above(rows: seq<Row>, after: int, toSeq: Option<int>): seq<Row> {
    if rows == [] then []
    else if rows[0].seqNo > after && AtMost(toSeq, rows[0].seqNo) then [rows[0]] + Above(rows[1..], after, toSeq)
    else Above(rows[1..], after, toSeq)
  }

  function Limit(rows: seq<Row>, n: nat): seq<Row> {
    if |rows| <= n then rows else rows[..n]
  }

  /** The row the pass starts after: the last row below the range; where there is none, the last
      checkpoint below the first live row; where there is none, the start of the stream. */
  function StartOf(rows: seq<Row>, checkpoints: seq<Head>, fromSeq: int): Head {
    match LastBelow(HeadsOf(rows), fromSeq)
    case Some(h) => h
    case None =>
      if rows == [] then Head(0, GENESIS)
      else
        match LastBelow(checkpoints, rows[0].seqNo)
        case Some(c) => c
        case None => Head(0, GENESIS)
  }

  function FromSeq(fromSeq: Option<int>): int {
    if fromSeq.Some? then fromSeq.value else 1
  }

  /** The specification: one pass over the rows with numbers in the range. */
  function OnePass(hash: HashFn, rows: seq<Row>, checkpoints: seq<Head>, fromSeq: Option<int>, toSeq: Option<int>): ScanRun {
    var start := StartOf(rows, checkpoints, FromSeq(fromSeq));
    ScanAll(hash, Above(rows, FromSeq(fromSeq) - 1, toSeq), StartScan(start.seqNo, start.hash), true)
  }

  // ---------------------------------------------------------------------------
  // What the queries return

  lemma {:induction false} AboveHas(rows: seq<Row>, after: int, toSeq: Option<int>, r: Row)
    ensures r in Above(rows, after, toSeq) <==> r in rows && r.seqNo > after && AtMost(toSeq, r.seqNo)
  {
    if rows == [] {
    } else {
      AboveHas(rows[1..], after, toSeq, r);
      assert rows == [rows[0]] + rows[1..];
    }
  }

  lemma AscendingCons(first: Row, rest: seq<Row>)
    requires Ascending(rest) && forall r | r in rest :: first.seqNo < r.seqNo
    ensures Ascending([first] + rest)
  {
    forall i, j | 0 <= i < j < |rest| + 1 ensures ([first] + rest)[i].seqNo < ([first] + rest)[j].seqNo {
      assert rest[j - 1] in rest;
    }
  }

  lemma {:induction false} AboveAscends(rows: seq<Row>, after: int, toSeq: Option<int>)
    requires Ascending(rows)
    ensures Ascending(Above(rows, after, toSeq))
  {
    if rows == [] {
    } else {
      var rest := Above(rows[1..], after, toSeq);
      AboveAscends(rows[1..], after, toSeq);
      forall r | r in rest ensures rows[0].seqNo < r.seqNo {
        AboveHas(rows[1..], after, toSeq, r);
      }
      AscendingCons(rows[0], rest);
    }
  }

  lemma AboveIs(rows: seq<Row>, after: int, toSeq: Option<int>)
    requires Ascending(rows)
    ensures forall r :: r in Above(rows, after, toSeq) <==> r in rows && r.seqNo > after && AtMost(toSeq, r.seqNo)
    ensures Ascending(Above(rows, after, toSeq))
  {
    AboveAscends(rows, after, toSeq);
    forall r ensures r in Above(rows, after, toSeq) <==> r in rows && r.seqNo > after && AtMost(toSeq, r.seqNo) {
      AboveHas(rows, after, toSeq, r);
    }
  }

  /** What is left to read after the first `k` rows were read. */
  lemma AboveRest(rows: seq<Row>, after: int, toSeq: Option<int>, k: nat)
    requires Ascending(rows) && 1 <= k <= |Above(rows, after, toSeq)|
    ensures var all := Above(rows, after, toSeq);
            Above(rows, all[k - 1].seqNo, toSeq) == all[k..]
  {
    var all := Above(rows, after, toSeq);
    var rest := Above(rows, all[k - 1].seqNo, toSeq);
    AboveIs(rows, after, toSeq);
    AboveIs(rows, all[k - 1].seqNo, toSeq);
    forall r ensures r in rest <==> r in all[k..] {
      if r in rest {
        assert r in all;
        var i :| 0 <= i < |all| && all[i] == r;
        assert i >= k;
        assert all[k..][i - k] == r;
      }
      if r in all[k..] {
        var i :| 0 <= i < |all[k..]| && all[k..][i] == r;
        assert all[k + i] == r && all[k - 1].seqNo < r.seqNo;
      }
    }
    SortedRowsEqual(rest, all[k..]);
  }

  predicate AscendingHeads(heads: seq<Head>) {
    forall i, j | 0 <= i < j < |heads| :: heads[i].seqNo < heads[j].seqNo
  }

  lemma {:induction false} LastBelowIs(heads: seq<Head>, n: int)
    requires AscendingHeads(heads)
    ensures match LastBelow(heads, n)
            case None => forall i | 0 <= i < |heads| :: heads[i].seqNo >= n
            case Some(b) => b.seqNo < n && b in heads && forall i | 0 <= i < |heads| :: heads[i].seqNo >= n || heads[i].seqNo <= b.seqNo
  {
    if heads == [] {
    } else {
      LastBelowIs(heads[..|heads| - 1], n);
    }
  }

  /** What a pass reads of a stream, whose numbers start at 1: exactly the rows from `fromSeq` up to `toSeq`,
      where they are given, in order. */
  lemma ReadsFromTo(rows: seq<Row>, fromSeq: Option<int>, toSeq: Option<int>)
    requires Ascending(rows) && forall i | 0 <= i < |rows| :: rows[i].seqNo >= 1
    ensures Ascending(Above(rows, FromSeq(fromSeq) - 1, toSeq))
    ensures forall r :: r in Above(rows, FromSeq(fromSeq) - 1, toSeq) <==>
              r in rows && (fromSeq.None? || fromSeq.value <= r.seqNo) && (toSeq.None? || r.seqNo <= toSeq.value)
  {
    AboveIs(rows, FromSeq(fromSeq) - 1, toSeq);
  }

  /** Whatever row the pass starts after, the rows after it up to `toSeq` are those with numbers in
      the range. */
  lemma ReadsTheRange(rows: seq<Row>, checkpoints: seq<Head>, fromSeq: int, toSeq: Option<int>)
    requires Ascending(rows) && AscendingHeads(checkpoints)
    requires forall i | 0 <= i < |rows| :: rows[i].seqNo >= 1
    ensures Above(rows, StartOf(rows, checkpoints, fromSeq).seqNo, toSeq) == Above(rows, fromSeq - 1, toSeq)
  {
    var start := StartOf(rows, checkpoints, fromSeq);
    var a, b := Above(rows, start.seqNo, toSeq), Above(rows, fromSeq - 1, toSeq);
    AboveIs(rows, start.seqNo, toSeq);
    AboveIs(rows, fromSeq - 1, toSeq);
    forall r | r in rows ensures r.seqNo > start.seqNo <==> r.seqNo > fromSeq - 1 {
      StartsBelow(rows, checkpoints, fromSeq, r);
    }
    SortedRowsEqual(a, b);
  }

  lemma StartsBelow(rows: seq<Row>, checkpoints: seq<Head>, fromSeq: int, r: Row)
    requires Ascending(rows) && AscendingHeads(checkpoints) && r in rows
    requires forall i | 0 <= i < |rows| :: rows[i].seqNo >= 1
    ensures r.seqNo > StartOf(rows, checkpoints, fromSeq).seqNo <==> r.seqNo > fromSeq - 1
  {
    var heads := HeadsOf(rows);
    LastBelowIs(heads, fromSeq);
    var i :| 0 <= i < |rows| && rows[i] == r;
    assert heads[i] in heads && heads[i].seqNo == r.seqNo;
    if LastBelow(heads, fromSeq).None? {
      LastBelowIs(checkpoints, rows[0].seqNo);
    }
  }

  // ---------------------------------------------------------------------------
  // The loop

  /** One page. `k` rows were read before it. */
  method ReadPage(hash: HashFn, page: seq<Row>, ghost all: seq<Row>, ghost k: nat, ghost st: Scan, reports: seq<Report>, state: Scan)
    returns (reports': seq<Report>, state': Scan, threw: bool)
    requires k + |page| <= |all| && page == all[k..k + |page|]
    requires ScanAll(hash, all[..k], st, true) == ScanRun(reports, state, true)
    ensures threw ==> ScanAll(hash, all, st, true).reports == reports' && !ScanAll(hash, all, st, true).completed
    ensures !threw ==> ScanAll(hash, all[..k + |page|], st, true) == ScanRun(reports', state', true)
  {
    reports', state', threw := reports, state, false;
    for i := 0 to |page|
      invariant !threw && ScanAll(hash, all[..k + i], st, true) == ScanRun(reports', state', true)
    {
      assert page[i] == all[k + i];
      ScanOneMore(hash, all, k + i, st, true);
      var report, next, stop := CheckOwnRow(hash, page[i], state');
      if stop {
        ScanStopped(hash, all, k + i + 1, st, true);
        return reports', state', true;
      }
      reports', state' := reports' + [report], next;
    }
  }

  method FindStart(rows: seq<Row>, checkpoints: seq<Head>, fromSeq: int) returns (start: Head)
    ensures start == StartOf(rows, checkpoints, fromSeq)
  {
    start := Head(0, GENESIS);
    var preceding := LastBelow(HeadsOf(rows), fromSeq);
    if preceding.Some? {
      start := preceding.value;
    } else if rows != [] {
      var checkpoint := LastBelow(checkpoints, rows[0].seqNo);
      if checkpoint.Some? {
        start := checkpoint.value;
      }
    }
  }

  lemma PageOf(rows: seq<Row>, after: int, toSeq: Option<int>, all: seq<Row>, k: nat, pageSize: nat)
    requires k <= |all| && Above(rows, after, toSeq) == all[k..]
    ensures var page := Limit(Above(rows, after, toSeq), pageSize);
            && k + |page| <= |all| && page == all[k..k + |page|]
            && (|page| < pageSize ==> k + |page| == |all|)
  {
  }

  /** The loop over the pages, after the row `start`. */
  method ReadPages(hash: HashFn, rows: seq<Row>, start: Head, toSeq: Option<int>, pageSize: nat)
    returns (reports: seq<Report>, completed: bool)
    requires Ascending(rows) && pageSize > 0
    ensures var pass := ScanAll(hash, Above(rows, start.seqNo, toSeq), StartScan(start.seqNo, start.hash), true);
            reports == pass.reports && completed == pass.completed
  {
    ghost var st := StartScan(start.seqNo, start.hash);
    ghost var all := Above(rows, start.seqNo, toSeq);
    ghost var k: nat := 0;
    var state := StartScan(start.seqNo, start.hash);
    var lastSeq := start.seqNo;
    reports := [];
    while true
      invariant k <= |all| && Above(rows, lastSeq, toSeq) == all[k..]
      invariant ScanAll(hash, all[..k], st, true) == ScanRun(reports, state, true)
      decreases |all| - k
    {
      PageOf(rows, lastSeq, toSeq, all, k, pageSize);
      var page := Limit(Above(rows, lastSeq, toSeq), pageSize);
      if |page| == 0 {
        assert all[..k] == all;
        return reports, true;
      }
      var threw;
      reports, state, threw := ReadPage(hash, page, all, k, st, reports, state);
      if threw {
        return reports, false;
      }
      lastSeq := page[|page| - 1].seqNo;
      k := k + |page|;
      if |page| < pageSize {
        assert all[..k] == all;
        return reports, true;
      }
      AboveRest(rows, start.seqNo, toSeq, k);
    }
  }

  /** Paged verification is one pass over the rows with numbers in the range, for every page size. */
  method Verify(hash: HashFn, rows: seq<Row>, checkpoints: seq<Head>, fromSeq: Option<int>, toSeq: Option<int>, pageSize: nat)
    returns (reports: seq<Report>, completed: bool)
    requires Ascending(rows) && AscendingHeads(checkpoints) && pageSize > 0
    requires forall i | 0 <= i < |rows| :: rows[i].seqNo >= 1
    ensures reports == OnePass(hash, rows, checkpoints, fromSeq, toSeq).reports
    ensures completed == OnePass(hash, rows, checkpoints, fromSeq, toSeq).completed
  {
    var start := FindStart(rows, checkpoints, FromSeq(fromSeq));
    ReadsTheRange(rows, checkpoints, FromSeq(fromSeq), toSeq);
    reports, completed := ReadPages(hash, rows, start, toSeq, pageSize);
  }

  // ---------------------------------------------------------------------------
  // Verifying what the store holds

  /** The checkpoints of the stream, by seq ascending. */
  ghost predicate IsCheckpointsBySeq(t: Tables, stream: string, checkpoints: seq<Head>) {
    && AscendingHeads(checkpoints)
    && (forall c | c in t.checkpoints && c.stream == stream :: Head(c.seqNo, c.hash) in checkpoints)
    && (forall h | h in checkpoints :: Checkpoint(stream, h.seqNo, h.hash) in t.checkpoints)
  }

  /** Heads of rows of the history up to row `b`. */
  ghost predicate PointInto(heads: seq<Head>, h: seq<Row>, b: nat)
    requires b <= |h|
  {
    forall i | 0 <= i < |heads| :: 1 <= heads[i].seqNo <= b && heads[i].hash == h[heads[i].seqNo - 1].hash
  }

  lemma LastPointer(heads: seq<Head>, h: seq<Row>, b: nat)
    requires AscendingHeads(heads) && b <= |h| && PointInto(heads, h, b)
    requires b > 0 ==> Head(b, h[b - 1].hash) in heads
    ensures LastBelow(heads, b + 1) == if b == 0 then None else Some(Head(b, h[b - 1].hash))
  {
    LastBelowIs(heads, b + 1);
    if b > 0 {
      var i :| 0 <= i < |heads| && heads[i] == Head(b, h[b - 1].hash);
      var c := LastBelow(heads, b + 1).value;
      var j :| 0 <= j < |heads| && heads[j] == c;
    }
  }

  lemma CheckpointsPoint(t: Tables, stream: string, checkpoints: seq<Head>)
    requires OnlyCheckpoints(t) && IsCheckpointsBySeq(t, stream, checkpoints)
    requires Base(t, stream) <= |History(t, stream)|
    ensures PointInto(checkpoints, History(t, stream), Base(t, stream))
  {
    forall i | 0 <= i < |checkpoints|
      ensures 1 <= checkpoints[i].seqNo <= Base(t, stream)
           && checkpoints[i].hash == History(t, stream)[checkpoints[i].seqNo - 1].hash
    {
      assert checkpoints[i] in checkpoints;
      assert IsCheckpoint(t, Checkpoint(stream, checkpoints[i].seqNo, checkpoints[i].hash));
    }
  }

  lemma LastPrunedIsCheckpoint(t: Tables, stream: string, checkpoints: seq<Head>)
    requires HaveCheckpoints(t) && IsCheckpointsBySeq(t, stream, checkpoints)
    requires Placed(stream, History(t, stream), 0) && 0 < Base(t, stream) <= |History(t, stream)|
    ensures Head(Base(t, stream), History(t, stream)[Base(t, stream) - 1].hash) in checkpoints
  {
    assert HasCheckpoint(t, stream);
    var c := CheckpointOf(History(t, stream)[Base(t, stream) - 1]);
    assert c in t.checkpoints && c.stream == stream;
  }

  /** The place of a history, pruned up to row `b`, that verification starts after. */
  predicate StartsAt(h: seq<Row>, b: nat, start: Head) {
    b <= start.seqNo <= |h| && start.hash == PrevOf(h, start.seqNo, GENESIS)
  }

  lemma PlacedIsNumbered(stream: string, h: seq<Row>)
    requires Placed(stream, h, 0)
    ensures Numbered(h)
  {
    forall i: nat | i < |h| ensures NumberedAt(h, i) {
    }
  }

  lemma PrecedingIsRow(h: seq<Row>, b: nat, start: Head)
    requires Numbered(h) && b <= |h| && start in HeadsOf(h[b..])
    ensures StartsAt(h, b, start)
  {
    var rows := h[b..];
    var i :| 0 <= i < |rows| && HeadsOf(rows)[i] == start;
    assert NumberedAt(h, b + i);
  }

  lemma LastBelowIn(heads: seq<Head>, n: int)
    ensures LastBelow(heads, n).Some? ==> LastBelow(heads, n).value in heads
  {
  }

  lemma StartIsRow(h: seq<Row>, b: nat, checkpoints: seq<Head>, fromSeq: int)
    requires Numbered(h) && b <= |h| && (h != [] ==> b < |h|)
    requires AscendingHeads(checkpoints) && PointInto(checkpoints, h, b)
    requires b > 0 ==> Head(b, h[b - 1].hash) in checkpoints
    ensures StartsAt(h, b, StartOf(h[b..], checkpoints, fromSeq))
  {
    LastBelowIn(HeadsOf(h[b..]), fromSeq);
    if LastBelow(HeadsOf(h[b..]), fromSeq).Some? {
      PrecedingIsRow(h, b, LastBelow(HeadsOf(h[b..]), fromSeq).value);
    } else if h != [] {
      assert NumberedAt(h, b) && h[b..][0] == h[b];
      LastPointer(checkpoints, h, b);
    }
  }

  function UpTo(h: seq<Row>, n: nat, toSeq: Option<int>): nat
    requires n <= |h|
  {
    if toSeq.None? || toSeq.value >= |h| then |h| else if toSeq.value <= n then n else toSeq.value
  }

  lemma MemberOfSlice(h: seq<Row>, a: nat, e: nat, r: Row)
    requires Numbered(h) && a <= e <= |h|
    ensures r in h[a..e] <==> a < r.seqNo <= e && h[r.seqNo - 1] == r
  {
    if r in h[a..e] {
      var i :| 0 <= i < |h[a..e]| && h[a..e][i] == r;
      assert h[a + i] == r && NumberedAt(h, a + i);
    }
    if a < r.seqNo <= e && h[r.seqNo - 1] == r {
      assert h[a..e][r.seqNo - 1 - a] == r;
    }
  }

  lemma NumberedAscends(h: seq<Row>, a: nat, e: nat)
    requires Numbered(h) && a <= e <= |h|
    ensures Ascending(h[a..e]) && forall i | 0 <= i < |h[a..e]| :: h[a..e][i].seqNo >= 1
  {
    forall i, j | 0 <= i < j < e - a ensures h[a..e][i].seqNo < h[a..e][j].seqNo {
      assert NumberedAt(h, a + i) && NumberedAt(h, a + j);
    }
    forall i | 0 <= i < e - a ensures h[a..e][i].seqNo >= 1 {
      assert NumberedAt(h, a + i);
    }
  }

  lemma LiveAscend(h: seq<Row>, b: nat)
    requires Numbered(h) && b <= |h|
    ensures Ascending(h[b..]) && forall i | 0 <= i < |h[b..]| :: h[b..][i].seqNo >= 1
  {
    NumberedAscends(h, b, |h|);
    assert h[b..] == h[b..|h|];
  }

  lemma AboveMember(h: seq<Row>, b: nat, n: nat, toSeq: Option<int>, r: Row)
    requires Numbered(h) && b <= n <= |h|
    ensures r in Above(h[b..], n, toSeq) <==> r in h[n..UpTo(h, n, toSeq)]
  {
    AboveHas(h[b..], n, toSeq, r);
    assert h[b..] == h[b..|h|];
    MemberOfSlice(h, b, |h|, r);
    MemberOfSlice(h, n, UpTo(h, n, toSeq), r);
  }

  /** The rows read are those of the history after the start. */
  lemma AboveIsSlice(h: seq<Row>, b: nat, n: nat, toSeq: Option<int>)
    requires Numbered(h) && b <= n <= |h|
    ensures Above(h[b..], n, toSeq) == h[n..UpTo(h, n, toSeq)]
  {
    LiveAscend(h, b);
    NumberedAscends(h, n, UpTo(h, n, toSeq));
    AboveAscends(h[b..], n, toSeq);
    forall r ensures r in Above(h[b..], n, toSeq) <==> r in h[n..UpTo(h, n, toSeq)] {
      AboveMember(h, b, n, toSeq, r);
    }
    SortedRowsEqual(Above(h[b..], n, toSeq), h[n..UpTo(h, n, toSeq)]);
  }

  lemma AcceptsFrom(hash: HashFn, h: seq<Row>, b: nat, start: Head, toSeq: Option<int>)
    requires Numbered(h) && Continues(hash, h, 0, GENESIS) && StartsAt(h, b, start)
    ensures Accepts(ScanAll(hash, Above(h[b..], start.seqNo, toSeq), StartScan(start.seqNo, start.hash), true))
  {
    var e := UpTo(h, start.seqNo, toSeq);
    AboveIsSlice(h, b, start.seqNo, toSeq);
    SliceContinues(hash, h, start.seqNo, e);
    AcceptsIff(hash, h[start.seqNo..e], StartScan(start.seqNo, start.hash), true);
  }

  lemma HistoryIsRead(h: seq<Row>, b: nat, checkpoints: seq<Head>, fromSeq: int, toSeq: Option<int>)
    requires Numbered(h) && b <= |h| && AscendingHeads(checkpoints)
    ensures Above(h[b..], StartOf(h[b..], checkpoints, fromSeq).seqNo, toSeq) == Above(h[b..], fromSeq - 1, toSeq)
  {
    LiveAscend(h, b);
    ReadsTheRange(h[b..], checkpoints, fromSeq, toSeq);
  }

  lemma HistoryVerifies(hash: HashFn, h: seq<Row>, b: nat, checkpoints: seq<Head>, fromSeq: Option<int>, toSeq: Option<int>)
    requires Numbered(h) && b <= |h| && (h != [] ==> b < |h|)
    requires Continues(hash, h, 0, GENESIS)
    requires AscendingHeads(checkpoints) && PointInto(checkpoints, h, b)
    requires b > 0 ==> Head(b, h[b - 1].hash) in checkpoints
    ensures Accepts(OnePass(hash, h[b..], checkpoints, fromSeq, toSeq))
  {
    StartIsRow(h, b, checkpoints, FromSeq(fromSeq));
    HistoryIsRead(h, b, checkpoints, FromSeq(fromSeq), toSeq);
    AcceptsFrom(hash, h, b, StartOf(h[b..], checkpoints, FromSeq(fromSeq)), toSeq);
  }

  lemma LiveRowsFacts(cfg: Cfg, t: Tables, stream: string, rows: seq<Row>, checkpoints: seq<Head>)
    requires HistoryOk(cfg, t) && LiveOk(t) && BaseOk(t) && CheckpointsOk(t)
    requires IsOrderBySeq(t, stream, rows) && IsCheckpointsBySeq(t, stream, checkpoints)
    ensures var h, b := History(t, stream), Base(t, stream);
            && b <= |h| && (h != [] ==> b < |h|) && rows == h[b..]
            && Numbered(h) && PointInto(checkpoints, h, b)
            && (b > 0 ==> Head(b, h[b - 1].hash) in checkpoints)
  {
    HistoryIsPlaced(cfg, t, stream);
    PlacedIsNumbered(stream, History(t, stream));
    LiveRowsAre(cfg, t, stream, rows);
    BaseInHistory(t, stream);
    CheckpointsPoint(t, stream, checkpoints);
    if Base(t, stream) > 0 {
      LastPrunedIsCheckpoint(t, stream, checkpoints);
    }
  }

  lemma StreamContinues(cfg: Cfg, t: Tables, stream: string)
    requires HistoryOk(cfg, t)
    ensures Continues(cfg.hash, History(t, stream), 0, GENESIS)
  {
    if stream in t.history {
      assert StreamOk(cfg, stream, t.history[stream]);
    }
  }

  lemma TablesVerify(
      cfg: Cfg, t: Tables, stream: string, rows: seq<Row>, checkpoints: seq<Head>, fromSeq: Option<int>, toSeq: Option<int>)
    requires TablesOk(cfg, t)
    requires IsOrderBySeq(t, stream, rows) && IsCheckpointsBySeq(t, stream, checkpoints)
    ensures Accepts(OnePass(cfg.hash, rows, checkpoints, fromSeq, toSeq))
  {
    StreamContinues(cfg, t, stream);
    LiveRowsFacts(cfg, t, stream, rows, checkpoints);
    HistoryVerifies(cfg.hash, History(t, stream), Base(t, stream), checkpoints, fromSeq, toSeq);
  }

  /** In every state of every run, after any writes and prunes, verifying a stream over any range
      checks exactly the live rows with numbers in the range and reports every one of them valid. */
  lemma LiveRowsVerify(
      cfg: Cfg, run: seq<Store>, i: nat, stream: string, rows: seq<Row>, checkpoints: seq<Head>,
      fromSeq: Option<int>, toSeq: Option<int>)
    requires IsTightRun(cfg, run) && i < |run|
    requires IsOrderBySeq(run[i].t, stream, rows) && IsCheckpointsBySeq(run[i].t, stream, checkpoints)
    ensures var pass := OnePass(cfg.hash, rows, checkpoints, fromSeq, toSeq);
            Accepts(pass) && |pass.reports| == |Above(rows, FromSeq(fromSeq) - 1, toSeq)|
  {
    RunKeeps(cfg, run, i);
    TablesVerify(cfg, run[i].t, stream, rows, checkpoints, fromSeq, toSeq);
  }

  /** On any stored rows, tampered with or not, verification accepts if and only if the rows of the
      range continue, without a gap and with the right hashes, from where it starts. */
  lemma VerifyAcceptsIff(hash: HashFn, rows: seq<Row>, checkpoints: seq<Head>, fromSeq: Option<int>, toSeq: Option<int>)
    ensures var start := StartOf(rows, checkpoints, FromSeq(fromSeq));
            Accepts(OnePass(hash, rows, checkpoints, fromSeq, toSeq)) <==>
            Continues(hash, Above(rows, FromSeq(fromSeq) - 1, toSeq), start.seqNo, start.hash)
  {
    var start := StartOf(rows, checkpoints, FromSeq(fromSeq));
    AcceptsIff(hash, Above(rows, FromSeq(fromSeq) - 1, toSeq), StartScan(start.seqNo, start.hash), true);
  }
}
