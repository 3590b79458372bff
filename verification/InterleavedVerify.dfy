/** `LucidStore.verify` (src/stores/lucid_store.ts) while others write and prune: each of its queries
    reads the state the store has at that moment. */
module InterleavedVerify {
  import opened Wrappers
  import opened AuditTypes
  import opened HashChain
  import opened ChainVerify
  import opened AuditStore
  import opened StoreInvariant
  import opened StoreTables
  import opened StorePrune
  import opened StoreTheorems
  import opened PagedVerify
  import StoreRuns
  import W = StoreWitness

  // ---------------------------------------------------------------------------
  // The loop

  /** What a page query returns: `view` are the live rows at that moment, `after` is the last number
      read. */
  predicate IsPage(view: seq<Row>, after: int, toSeq: Option<int>, pageSize: nat, page: seq<Row>) {
    page == Limit(Above(view, after, toSeq), pageSize)
  }

  /** The last number read before the `k`-th page. */
  function Cursor(start: int, pages: seq<seq<Row>>, k: nat): int
    requires k <= |pages|
  {
    if k == 0 then start
    else
      var page := pages[k - 1];
      if page == [] then Cursor(start, pages, k - 1) else page[|page| - 1].seqNo
  }

  ghost predicate ArePages(views: seq<seq<Row>>, start: int, toSeq: Option<int>, pageSize: nat, pages: seq<seq<Row>>) {
    |pages| <= |views| && forall k: nat | k < |pages| :: PageAt(views, start, toSeq, pageSize, pages, k)
  }

  predicate PageAt(views: seq<seq<Row>>, start: int, toSeq: Option<int>, pageSize: nat, pages: seq<seq<Row>>, k: nat)
    requires k < |pages| <= |views|
  {
    IsPage(views[k], Cursor(start, pages, k), toSeq, pageSize, pages[k])
  }

  /** All rows read, in order. */
  function AllRead(pages: seq<seq<Row>>): seq<Row> {
    if pages == [] then [] else AllRead(pages[..|pages| - 1]) + pages[|pages| - 1]
  }

  lemma {:induction false} CursorPrefix(start: int, pages: seq<seq<Row>>, page: seq<Row>, k: nat)
    requires k <= |pages|
    ensures Cursor(start, pages + [page], k) == Cursor(start, pages, k)
  {
    if k == 0 {
    } else {
      CursorPrefix(start, pages, page, k - 1);
    }
  }

  lemma {:induction false} OneMorePage(
      views: seq<seq<Row>>, start: int, toSeq: Option<int>, pageSize: nat, pages: seq<seq<Row>>, page: seq<Row>)
    requires ArePages(views, start, toSeq, pageSize, pages) && |pages| < |views|
    requires IsPage(views[|pages|], Cursor(start, pages, |pages|), toSeq, pageSize, page)
    ensures ArePages(views, start, toSeq, pageSize, pages + [page])
    ensures AllRead(pages + [page]) == AllRead(pages) + page
    ensures page != [] ==> Cursor(start, pages + [page], |pages| + 1) == page[|page| - 1].seqNo
  {
    var more := pages + [page];
    assert more[..|pages|] == pages;
    forall k: nat | k < |more| ensures PageAt(views, start, toSeq, pageSize, more, k) {
      assert k < |pages| ==> PageAt(views, start, toSeq, pageSize, pages, k);
      CursorPrefix(start, pages, page, k);
    }
  }

  lemma {:induction false} SlicePlus(read: seq<Row>, page: seq<Row>)
    ensures (read + page)[|read|..|read| + |page|] == page
    ensures (read + page)[..|read|] == read && (read + page)[..|read| + |page|] == read + page
  {
  }

  /** One page after the rows read before. */
  method NextPage(hash: HashFn, page: seq<Row>, ghost read: seq<Row>, ghost st: Scan, reports: seq<Report>, state: Scan)
    returns (reports': seq<Report>, state': Scan, threw: bool)
    requires ScanAll(hash, read, st, true) == ScanRun(reports, state, true)
    ensures threw ==> ScanAll(hash, read + page, st, true).reports == reports' && !ScanAll(hash, read + page, st, true).completed
    ensures !threw ==> ScanAll(hash, read + page, st, true) == ScanRun(reports', state', true)
  {
    SlicePlus(read, page);
    reports', state', threw := ReadPage(hash, page, read + page, |read|, st, reports, state);
  }

  /** The loop over the pages, for as many queries as `views` has. It returns the pages it read too. */
  method ReadPages(hash: HashFn, views: seq<seq<Row>>, start: Head, toSeq: Option<int>, pageSize: nat)
    returns (reports: seq<Report>, completed: bool, ghost pages: seq<seq<Row>>)
    requires pageSize > 0
    ensures ArePages(views, start.seqNo, toSeq, pageSize, pages)
    ensures var pass := ScanAll(hash, AllRead(pages), StartScan(start.seqNo, start.hash), true);
            reports == pass.reports && completed == pass.completed
    ensures completed && |pages| < |views| ==> pages != [] && |pages[|pages| - 1]| < pageSize
  {
    ghost var st := StartScan(start.seqNo, start.hash);
    var state := StartScan(start.seqNo, start.hash);
    var lastSeq: int := start.seqNo;
    reports, pages := [], [];
    for k := 0 to |views|
      invariant |pages| == k && ArePages(views, start.seqNo, toSeq, pageSize, pages)
      invariant lastSeq == Cursor(start.seqNo, pages, k)
      invariant ScanAll(hash, AllRead(pages), st, true) == ScanRun(reports, state, true)
    {
      var page := Limit(Above(views[k], lastSeq, toSeq), pageSize);
      OneMorePage(views, start.seqNo, toSeq, pageSize, pages, page);
      var threw;
      reports, state, threw := NextPage(hash, page, AllRead(pages), st, reports, state);
      pages := pages + [page];
      if threw {
        return reports, false, pages;
      }
      if |page| < pageSize {
        return reports, true, pages;
      }
      lastSeq := page[|page| - 1].seqNo;
    }
    return reports, true, pages;
  }

  // ---------------------------------------------------------------------------
  // When the pages join

  /** The live rows of a stream at one moment: those of its history above `base`, up to `end`. */
  datatype Window = Window(base: nat, end: nat)

  predicate IsWindow(h: seq<Row>, w: Window, rows: seq<Row>) {
    w.base <= w.end <= |h| && rows == h[w.base..w.end]
  }

  /** What each page query saw. Between two of them the stream only grows, and the first sees all rows
      up to number `n`. */
  ghost predicate AreWindows(h: seq<Row>, ws: seq<Window>, views: seq<seq<Row>>, n: nat) {
    && |ws| == |views|
    && (forall k: nat | k < |ws| :: WindowOk(h, ws, views, n, k))
    && (forall j, k | 0 <= j < k < |ws| :: ws[j].end <= ws[k].end)
  }

  predicate WindowOk(h: seq<Row>, ws: seq<Window>, views: seq<seq<Row>>, n: nat, k: nat)
    requires k < |ws| == |views|
  {
    IsWindow(h, ws[k], views[k]) && n <= ws[k].end
  }

  /** The `k`-th page has rows, and a prune had passed the last row read before it. */
  predicate Overtaken(ws: seq<Window>, start: int, pages: seq<seq<Row>>, k: nat)
    requires k < |pages| <= |ws|
  {
    pages[k] != [] && ws[k].base > Cursor(start, pages, k)
  }

  lemma {:induction false} NumberedPrefix(h: seq<Row>, n: nat)
    requires Numbered(h) && n <= |h|
    ensures Numbered(h[..n])
  {
    forall i: nat | i < n ensures NumberedAt(h[..n], i) {
      assert NumberedAt(h, i);
    }
  }

  lemma {:induction false} LimitOfSlice(h: seq<Row>, m: nat, a: nat, e: nat, n: nat)
    requires a <= e <= m <= |h|
    ensures var page := Limit(h[..m][a..e], n); a + |page| <= e && page == h[a..a + |page|]
  {
    assert h[..m][a..e] == h[a..e];
    assert n <= e - a ==> h[a..e][..n] == h[a..a + n];
  }

  /** A page of a window that was not pruned past the cursor continues it. */
  lemma {:induction false} PageIsNext(h: seq<Row>, w: Window, rows: seq<Row>, after: nat, toSeq: Option<int>, pageSize: nat)
    requires Numbered(h) && IsWindow(h, w, rows) && w.base <= after <= w.end
    ensures var page := Limit(Above(rows, after, toSeq), pageSize);
            after + |page| <= w.end && page == h[after..after + |page|]
  {
    var g := h[..w.end];
    NumberedPrefix(h, w.end);
    assert g[w.base..] == rows;
    AboveIsSlice(g, w.base, after, toSeq);
    LimitOfSlice(h, w.end, after, UpTo(g, after, toSeq), pageSize);
  }

  /** A page of a window that was pruned past the cursor starts after a gap. */
  lemma {:induction false} PageAfterGap(h: seq<Row>, w: Window, rows: seq<Row>, after: nat, toSeq: Option<int>, pageSize: nat)
    requires Numbered(h) && IsWindow(h, w, rows) && after < w.base
    ensures var page := Limit(Above(rows, after, toSeq), pageSize);
            page != [] ==> page[0].seqNo > after + 1
  {
    var above := Above(rows, after, toSeq);
    if above != [] {
      AboveHas(rows, after, toSeq, above[0]);
      var i :| 0 <= i < |rows| && rows[i] == above[0];
      assert NumberedAt(h, w.base + i);
    }
  }

  lemma {:induction false} NumberOf(h: seq<Row>, after: nat, page: seq<Row>)
    requires Numbered(h) && page != [] && after + |page| <= |h| && page == h[after..after + |page|]
    ensures page[|page| - 1].seqNo == after + |page|
  {
    assert NumberedAt(h, after + |page| - 1);
  }

  predicate NoneOvertaken(ws: seq<Window>, start: int, pages: seq<seq<Row>>)
    requires |pages| <= |ws|
  {
    forall k: nat | k < |pages| :: !Overtaken(ws, start, pages, k)
  }

  /** A pass over the rows from the start reports every one of them valid. */
  predicate AllValidFrom(hash: HashFn, start: Head, rows: seq<Row>) {
    Accepts(ScanAll(hash, rows, StartScan(start.seqNo, start.hash), true))
  }

  /** What a page is: the rows after the cursor, or rows after a gap where a prune passed it. */
  lemma {:induction false} PageIs(h: seq<Row>, w: Window, rows: seq<Row>, after: nat, toSeq: Option<int>, pageSize: nat, page: seq<Row>)
    requires Numbered(h) && IsWindow(h, w, rows) && after <= w.end
    requires IsPage(rows, after, toSeq, pageSize, page)
    ensures w.base > after && page != [] ==> page[0].seqNo > after + 1
    ensures w.base <= after ==> after + |page| <= w.end && page == h[after..after + |page|]
    ensures w.base <= after && page != [] ==> page[|page| - 1].seqNo == after + |page|
  {
    if w.base > after {
      PageAfterGap(h, w, rows, after, toSeq, pageSize);
    } else {
      PageIsNext(h, w, rows, after, toSeq, pageSize);
      if page != [] {
        NumberOf(h, after, page);
      }
    }
  }

  /** The first `k` pages are the rows after the start, without a gap. */
  predicate Joined(h: seq<Row>, start: nat, pages: seq<seq<Row>>, k: nat)
    requires k <= |pages|
  {
    var n := |AllRead(pages[..k])|;
    && start + n <= |h|
    && AllRead(pages[..k]) == h[start..start + n]
    && Cursor(start, pages, k) == start + n
  }

  lemma {:induction false} JoinOne(h: seq<Row>, start: nat, n: nat, read: seq<Row>, page: seq<Row>)
    requires start + n + |page| <= |h| && read == h[start..start + n] && page == h[start + n..start + n + |page|]
    ensures read + page == h[start..start + n + |page|]
  {
  }

  lemma {:induction false} AllReadNext(pages: seq<seq<Row>>, k: nat)
    requires k < |pages|
    ensures AllRead(pages[..k + 1]) == AllRead(pages[..k]) + pages[k]
  {
    assert pages[..k + 1][..k] == pages[..k];
  }

  lemma {:induction false} JoinedUpTo(
      h: seq<Row>, ws: seq<Window>, views: seq<seq<Row>>, start: nat, toSeq: Option<int>, pageSize: nat, pages: seq<seq<Row>>, k: nat)
    requires Numbered(h) && AreWindows(h, ws, views, start) && start <= |h|
    requires ArePages(views, start, toSeq, pageSize, pages) && k <= |pages|
    requires forall j | 0 <= j < k :: !Overtaken(ws, start, pages, j)
    ensures Joined(h, start, pages, k)
    ensures k < |ws| ==> Cursor(start, pages, k) <= ws[k].end
  {
    if k == 0 {
      assert pages[..0] == [];
      assert ws != [] ==> WindowOk(h, ws, views, start, 0);
    } else {
      JoinedUpTo(h, ws, views, start, toSeq, pageSize, pages, k - 1);
      NextJoined(h, ws, views, start, toSeq, pageSize, pages, k - 1);
    }
  }

  lemma {:induction false} NextJoined(
      h: seq<Row>, ws: seq<Window>, views: seq<seq<Row>>, start: nat, toSeq: Option<int>, pageSize: nat, pages: seq<seq<Row>>, k: nat)
    requires Numbered(h) && AreWindows(h, ws, views, start) && ArePages(views, start, toSeq, pageSize, pages) && k < |pages|
    requires Joined(h, start, pages, k) && Cursor(start, pages, k) <= ws[k].end && !Overtaken(ws, start, pages, k)
    ensures Joined(h, start, pages, k + 1)
    ensures k + 1 < |ws| ==> Cursor(start, pages, k + 1) <= ws[k + 1].end
  {
    var n, page := |AllRead(pages[..k])|, pages[k];
    assert WindowOk(h, ws, views, start, k) && PageAt(views, start, toSeq, pageSize, pages, k);
    AllReadNext(pages, k);
    if page != [] {
      PageIs(h, ws[k], views[k], start + n, toSeq, pageSize, page);
      JoinOne(h, start, n, AllRead(pages[..k]), page);
    }
  }

  /** A page that was overtaken leaves a gap. */
  lemma {:induction false} GapAt(
      hash: HashFn, h: seq<Row>, ws: seq<Window>, views: seq<seq<Row>>, start: nat, toSeq: Option<int>, pageSize: nat,
      pages: seq<seq<Row>>, k: nat)
    requires Numbered(h) && AreWindows(h, ws, views, start) && ArePages(views, start, toSeq, pageSize, pages) && k < |pages|
    requires Joined(h, start, pages, k) && Cursor(start, pages, k) <= ws[k].end && Overtaken(ws, start, pages, k)
    ensures !Continues(hash, AllRead(pages), start, PrevOf(h, start, GENESIS))
  {
    var n, page := |AllRead(pages[..k])|, pages[k];
    assert WindowOk(h, ws, views, start, k) && PageAt(views, start, toSeq, pageSize, pages, k);
    PageIs(h, ws[k], views[k], start + n, toSeq, pageSize, page);
    ReadAt(pages, k);
    assert !Follows(hash, AllRead(pages), n, start, PrevOf(h, start, GENESIS));
  }

  lemma {:induction false} ReadAt(pages: seq<seq<Row>>, k: nat)
    requires k < |pages| && pages[k] != []
    ensures var n := |AllRead(pages[..k])|; n < |AllRead(pages)| && AllRead(pages)[n] == pages[k][0]
  {
    var init := pages[..|pages| - 1];
    if k < |pages| - 1 {
      ReadAt(init, k);
      assert init[..k] == pages[..k];
    }
  }

  lemma {:induction false} FirstOvertaken(ws: seq<Window>, start: int, pages: seq<seq<Row>>, k: nat) returns (j: nat)
    requires k < |pages| <= |ws| && Overtaken(ws, start, pages, k)
    ensures j <= k && Overtaken(ws, start, pages, j) && forall i | 0 <= i < j :: !Overtaken(ws, start, pages, i)
  {
    if i :| 0 <= i < k && Overtaken(ws, start, pages, i) {
      j := FirstOvertaken(ws, start, pages, i);
    } else {
      j := k;
    }
  }

  /** The rows read continue from the start if and only if no page was overtaken by a prune. */
  lemma {:induction false} PagesContinueIff(
      hash: HashFn, h: seq<Row>, ws: seq<Window>, views: seq<seq<Row>>, start: nat, toSeq: Option<int>, pageSize: nat,
      pages: seq<seq<Row>>)
    requires Numbered(h) && Continues(hash, h, 0, GENESIS)
    requires AreWindows(h, ws, views, start) && start <= |h| && ArePages(views, start, toSeq, pageSize, pages)
    ensures Continues(hash, AllRead(pages), start, PrevOf(h, start, GENESIS)) <==>
            NoneOvertaken(ws, start, pages)
  {
    if k: nat :| k < |pages| && Overtaken(ws, start, pages, k) {
      var j := FirstOvertaken(ws, start, pages, k);
      JoinedUpTo(h, ws, views, start, toSeq, pageSize, pages, j);
      GapAt(hash, h, ws, views, start, toSeq, pageSize, pages, j);
    } else {
      JoinedUpTo(h, ws, views, start, toSeq, pageSize, pages, |pages|);
      assert pages[..|pages|] == pages;
      SliceContinues(hash, h, start, start + |AllRead(pages)|);
    }
  }

  // ---------------------------------------------------------------------------
  // In a run of the store

  /** The row the pass starts after, found by up to three queries: the last row below the range, the
      first live row, and the last checkpoint below it. */
  function StartFound(preceding: seq<Row>, live: seq<Row>, checkpoints: seq<Head>, fromSeq: int): Head {
    match LastBelow(HeadsOf(preceding), fromSeq)
    case Some(h) => h
    case None =>
      if live == [] then Head(0, GENESIS)
      else
        match LastBelow(checkpoints, live[0].seqNo)
        case Some(c) => c
        case None => Head(0, GENESIS)
  }

  /** The place after a row of the history, or its beginning. */
  predicate IsPlaceOf(h: seq<Row>, n: nat, start: Head) {
    start.seqNo <= n <= |h| && start.hash == PrevOf(h, start.seqNo, GENESIS)
  }

  lemma {:induction false} CheckpointsGrow(cfg: Cfg, run: seq<Store>, i: nat, j: nat)
    requires IsTightRun(cfg, run) && i <= j < |run|
    ensures run[i].t.checkpoints <= run[j].t.checkpoints
  {
    if i == j {
    } else {
      CheckpointsGrow(cfg, run, i, j - 1);
      assert CanStepTightly(cfg, run[j - 1], run[j - 1 + 1]);
      var w, step :| Next(cfg, run[j - 1], w, step, run[j]) && TightStep(run[j - 1], w, step);
      CheckpointStep(cfg, run[j - 1], w, step, run[j]);
    }
  }

  lemma {:induction false} CheckpointStep(cfg: Cfg, s: Store, w: string, step: Step, s': Store)
    requires Next(cfg, s, w, step, s')
    ensures s.t.checkpoints <= s'.t.checkpoints
  {
  }

  /** What a query for the live rows sees, as a window of any later history. */
  lemma {:induction false} SeenIsWindow(cfg: Cfg, run: seq<Store>, i: nat, j: nat, stream: string, rows: seq<Row>)
    requires IsTightRun(cfg, run) && i <= j < |run| && IsOrderBySeq(run[i].t, stream, rows)
    ensures IsWindow(History(run[j].t, stream), WindowAt(run[i].t, stream), rows)
    ensures History(run[i].t, stream) == History(run[j].t, stream)[..|History(run[i].t, stream)|]
  {
    RunTables(cfg, run, i);
    LiveRowsAre(cfg, run[i].t, stream, rows);
    HistoryOnlyGrows(cfg, run, i, j, stream);
    var g, h := History(run[i].t, stream), History(run[j].t, stream);
    assert g == h[..|g|];
    assert g[Base(run[i].t, stream)..] == h[Base(run[i].t, stream)..|g|];
  }

  function WindowAt(t: Tables, stream: string): Window {
    Window(Base(t, stream), |History(t, stream)|)
  }

  lemma {:induction false} RunHistory(cfg: Cfg, run: seq<Store>, j: nat, stream: string)
    requires IsTightRun(cfg, run) && j < |run|
    ensures Numbered(History(run[j].t, stream)) && Continues(cfg.hash, History(run[j].t, stream), 0, GENESIS)
  {
    RunTables(cfg, run, j);
    HistoryIsPlaced(cfg, run[j].t, stream);
    PlacedIsNumbered(stream, History(run[j].t, stream));
    StreamContinues(cfg, run[j].t, stream);
  }

  lemma {:induction false} PrecedingPlace(h: seq<Row>, w: Window, rows: seq<Row>, start: Head)
    requires Numbered(h) && IsWindow(h, w, rows) && start in HeadsOf(rows)
    ensures IsPlaceOf(h, w.end, start)
  {
    var i :| 0 <= i < |rows| && HeadsOf(rows)[i] == start;
    RowPlace(h, w.base + i);
    assert rows[i] == h[w.base + i];
  }

  lemma {:induction false} RowPlace(h: seq<Row>, i: nat)
    requires Numbered(h) && i < |h|
    ensures h[i].seqNo == i + 1 && PrevOf(h, i + 1, GENESIS) == h[i].hash
  {
    assert NumberedAt(h, i);
  }

  /** The last checkpoint below the first live row is that of the row before it. */
  lemma {:induction false} CheckpointPlace(h: seq<Row>, b: nat, checkpoints: seq<Head>)
    requires b <= |h| && AscendingHeads(checkpoints) && PointInto(checkpoints, h, |h|)
    requires b > 0 ==> Head(b, h[b - 1].hash) in checkpoints
    ensures LastBelow(checkpoints, b + 1) == if b == 0 then None else Some(Head(b, h[b - 1].hash))
  {
    LastBelowIs(checkpoints, b + 1);
    LastBelowIn(checkpoints, b + 1);
    if b > 0 {
      var i :| 0 <= i < |checkpoints| && checkpoints[i] == Head(b, h[b - 1].hash);
      var c := LastBelow(checkpoints, b + 1).value;
      var j :| 0 <= j < |checkpoints| && checkpoints[j] == c;
      assert c.seqNo == b;
    } else {
      NoneBelow(checkpoints, 1);
    }
  }

  lemma {:induction false} NoneBelow(heads: seq<Head>, n: int)
    requires forall i | 0 <= i < |heads| :: heads[i].seqNo >= n
    ensures LastBelow(heads, n).None?
  {
    if heads == [] {
    } else {
      NoneBelow(heads[..|heads| - 1], n);
    }
  }

  /** The checkpoints read after the first live row point into the history, and the one before that
      row is among them. */
  lemma {:induction false} CheckpointsSeen(cfg: Cfg, run: seq<Store>, i: nat, j: nat, k: nat, stream: string, checkpoints: seq<Head>)
    requires IsTightRun(cfg, run) && i <= j <= k < |run| && IsCheckpointsBySeq(run[j].t, stream, checkpoints)
    ensures var h, b := History(run[k].t, stream), Base(run[i].t, stream);
            && b <= |h| && PointInto(checkpoints, h, |h|)
            && (b > 0 ==> Head(b, h[b - 1].hash) in checkpoints)
  {
    RunTables(cfg, run, i);
    RunTables(cfg, run, j);
    BaseInHistory(run[i].t, stream);
    BaseInHistory(run[j].t, stream);
    HistoryOnlyGrows(cfg, run, i, j, stream);
    HistoryOnlyGrows(cfg, run, j, k, stream);
    CheckpointsPoint(run[j].t, stream, checkpoints);
    PointFurther(checkpoints, History(run[j].t, stream), Base(run[j].t, stream), History(run[k].t, stream));
    if Base(run[i].t, stream) > 0 {
      CheckpointsGrow(cfg, run, i, j);
      HistoryIsPlaced(cfg, run[i].t, stream);
      EarlierCheckpoint(run[i].t, run[j].t, stream, checkpoints);
    }
  }

  lemma {:induction false} PointFurther(checkpoints: seq<Head>, g: seq<Row>, b: nat, h: seq<Row>)
    requires b <= |g| && g <= h && PointInto(checkpoints, g, b)
    ensures PointInto(checkpoints, h, |h|)
  {
  }

  lemma {:induction false} EarlierCheckpoint(t: Tables, t': Tables, stream: string, checkpoints: seq<Head>)
    requires HaveCheckpoints(t) && t.checkpoints <= t'.checkpoints && IsCheckpointsBySeq(t', stream, checkpoints)
    requires Placed(stream, History(t, stream), 0) && 0 < Base(t, stream) <= |History(t, stream)|
    ensures Head(Base(t, stream), History(t, stream)[Base(t, stream) - 1].hash) in checkpoints
  {
    assert HasCheckpoint(t, stream);
    var c := CheckpointOf(History(t, stream)[Base(t, stream) - 1]);
    assert c in t'.checkpoints && c.stream == stream;
  }

  /** The three queries at three moments find a place of the history. */
  lemma {:induction false} StartIsPlace(
      cfg: Cfg, run: seq<Store>, i: nat, j: nat, k: nat, last: nat, stream: string,
      preceding: seq<Row>, live: seq<Row>, checkpoints: seq<Head>, fromSeq: int)
    requires IsTightRun(cfg, run) && i <= j <= k <= last < |run|
    requires IsOrderBySeq(run[i].t, stream, preceding) && IsOrderBySeq(run[j].t, stream, live)
    requires IsCheckpointsBySeq(run[k].t, stream, checkpoints)
    ensures IsPlaceOf(History(run[last].t, stream), |History(run[k].t, stream)|, StartFound(preceding, live, checkpoints, fromSeq))
  {
    RunHistory(cfg, run, last, stream);
    Grown(cfg, run, i, k, stream);
    Grown(cfg, run, j, k, stream);
    Grown(cfg, run, k, last, stream);
    SeenIsWindow(cfg, run, i, last, stream, preceding);
    SeenIsWindow(cfg, run, j, last, stream, live);
    CheckpointsSeen(cfg, run, j, k, last, stream, checkpoints);
    PlaceFound(History(run[last].t, stream), WindowAt(run[i].t, stream), preceding, WindowAt(run[j].t, stream), live,
               checkpoints, |History(run[k].t, stream)|, fromSeq);
  }

  lemma {:induction false} Grown(cfg: Cfg, run: seq<Store>, i: nat, j: nat, stream: string)
    requires IsTightRun(cfg, run) && i <= j < |run|
    ensures |History(run[i].t, stream)| <= |History(run[j].t, stream)|
  {
    HistoryOnlyGrows(cfg, run, i, j, stream);
  }

  lemma {:induction false} PlaceFound(
      h: seq<Row>, w: Window, preceding: seq<Row>, w': Window, live: seq<Row>, checkpoints: seq<Head>, n: nat, fromSeq: int)
    requires Numbered(h) && IsWindow(h, w, preceding) && IsWindow(h, w', live) && w.end <= n <= |h| && w'.end <= n
    requires AscendingHeads(checkpoints) && PointInto(checkpoints, h, |h|)
    requires w'.base > 0 ==> Head(w'.base, h[w'.base - 1].hash) in checkpoints
    ensures IsPlaceOf(h, n, StartFound(preceding, live, checkpoints, fromSeq))
  {
    LastBelowIn(HeadsOf(preceding), fromSeq);
    if LastBelow(HeadsOf(preceding), fromSeq).Some? {
      PrecedingPlace(h, w, preceding, LastBelow(HeadsOf(preceding), fromSeq).value);
    } else if live != [] {
      CheckpointPlace(h, w'.base, checkpoints);
      assert NumberedAt(h, w'.base) && live[0] == h[w'.base];
    }
  }

  /** One verification of a stream: the moments of the three queries for the start and of the page
      queries, what they saw, and the pages read. */
  datatype Reading = Reading(
    first: nat, second: nat, third: nat, times: seq<nat>,
    preceding: seq<Row>, live: seq<Row>, checkpoints: seq<Head>, views: seq<seq<Row>>, pages: seq<seq<Row>>)

  /** The three queries for the start saw what the run held at their moments. */
  ghost predicate FindsStart(run: seq<Store>, stream: string, q: Reading) {
    && q.first <= q.second <= q.third < |run|
    && IsOrderBySeq(run[q.first].t, stream, q.preceding) && IsOrderBySeq(run[q.second].t, stream, q.live)
    && IsCheckpointsBySeq(run[q.third].t, stream, q.checkpoints)
  }

  /** So did the page queries after them. */
  ghost predicate FindsPages(run: seq<Store>, stream: string, q: Reading) {
    q.third < |run| && SeenAt(run, q.times, q.third, stream, q.views)
  }

  /** The live rows of the stream at successive moments, the first no earlier than `from`. */
  ghost predicate SeenAt(run: seq<Store>, times: seq<nat>, from: nat, stream: string, views: seq<seq<Row>>) {
    && |times| == |views|
    && (forall k | 0 <= k < |times| :: from <= times[k] < |run|)
    && (forall k: nat | k < |times| :: ViewAt(run, times, stream, views, k))
    && (forall j, k | 0 <= j < k < |times| :: times[j] <= times[k])
  }

  ghost predicate ViewAt(run: seq<Store>, times: seq<nat>, stream: string, views: seq<seq<Row>>, k: nat)
    requires k < |times| == |views| && times[k] < |run|
  {
    IsOrderBySeq(run[times[k]].t, stream, views[k])
  }

  function WindowsAt(run: seq<Store>, times: seq<nat>, stream: string): (ws: seq<Window>)
    requires forall k | 0 <= k < |times| :: times[k] < |run|
    ensures |ws| == |times| && forall k | 0 <= k < |ws| :: ws[k] == WindowAt(run[times[k]].t, stream)
  {
    seq(|times|, k requires 0 <= k < |times| => WindowAt(run[times[k]].t, stream))
  }

  /** The history at the end of the run. */
  function WholeHistory(run: seq<Store>, stream: string): seq<Row>
    requires run != []
  {
    History(run[|run| - 1].t, stream)
  }

  lemma {:induction false} SeenAreWindows(cfg: Cfg, run: seq<Store>, times: seq<nat>, from: nat, stream: string, views: seq<seq<Row>>)
    requires IsTightRun(cfg, run) && SeenAt(run, times, from, stream, views) && from < |run|
    ensures AreWindows(WholeHistory(run, stream), WindowsAt(run, times, stream), views, |History(run[from].t, stream)|)
  {
    var ws := WindowsAt(run, times, stream);
    forall k: nat | k < |ws|
      ensures WindowOk(WholeHistory(run, stream), ws, views, |History(run[from].t, stream)|, k)
    {
      assert ViewAt(run, times, stream, views, k);
      SeenIsWindow(cfg, run, times[k], |run| - 1, stream, views[k]);
      Grown(cfg, run, from, times[k], stream);
    }
    forall j, k | 0 <= j < k < |ws| ensures ws[j].end <= ws[k].end {
      Grown(cfg, run, times[j], times[k], stream);
    }
  }

  lemma {:induction false} WindowsVerifyIff(
      hash: HashFn, h: seq<Row>, ws: seq<Window>, views: seq<seq<Row>>, n: nat, start: Head, toSeq: Option<int>, pageSize: nat,
      pages: seq<seq<Row>>)
    requires Numbered(h) && Continues(hash, h, 0, GENESIS)
    requires IsPlaceOf(h, n, start) && AreWindows(h, ws, views, n) && ArePages(views, start.seqNo, toSeq, pageSize, pages)
    ensures AllValidFrom(hash, start, AllRead(pages)) <==>
            NoneOvertaken(ws, start.seqNo, pages)
  {
    WindowsFrom(h, ws, views, n, start.seqNo);
    PagesContinueIff(hash, h, ws, views, start.seqNo, toSeq, pageSize, pages);
    AcceptsIff(hash, AllRead(pages), StartScan(start.seqNo, start.hash), true);
  }

  lemma {:induction false} WindowsFrom(h: seq<Row>, ws: seq<Window>, views: seq<seq<Row>>, n: nat, start: nat)
    requires AreWindows(h, ws, views, n) && start <= n
    ensures AreWindows(h, ws, views, start)
  {
    forall k: nat | k < |ws| ensures WindowOk(h, ws, views, start, k) {
      assert WindowOk(h, ws, views, n, k);
    }
  }

  lemma {:induction false} StartOfReading(cfg: Cfg, run: seq<Store>, stream: string, q: Reading, fromSeq: int, start: Head)
    requires IsTightRun(cfg, run) && FindsStart(run, stream, q)
    requires start == StartFound(q.preceding, q.live, q.checkpoints, fromSeq)
    ensures IsPlaceOf(WholeHistory(run, stream), |History(run[q.third].t, stream)|, start)
  {
    StartIsPlace(cfg, run, q.first, q.second, q.third, |run| - 1, stream, q.preceding, q.live, q.checkpoints, fromSeq);
  }

  lemma {:induction false} WindowsOfReading(cfg: Cfg, run: seq<Store>, stream: string, q: Reading, ws: seq<Window>)
    requires IsTightRun(cfg, run) && FindsPages(run, stream, q) && ws == WindowsAt(run, q.times, stream)
    ensures AreWindows(WholeHistory(run, stream), ws, q.views, |History(run[q.third].t, stream)|)
  {
    SeenAreWindows(cfg, run, q.times, q.third, stream, q.views);
  }

  /** Verifying while others write and prune, each query at its own moment of any run: everything read
      is reported valid if and only if no page was overtaken by a prune, that is, whenever a page had
      rows, no row beyond the last one read before, or beyond the start, had been pruned by then. */
  lemma {:induction false} InterleavedVerifiesIff(
      cfg: Cfg, run: seq<Store>, stream: string, q: Reading, fromSeq: int, toSeq: Option<int>, pageSize: nat,
      start: Head, ws: seq<Window>)
    requires IsTightRun(cfg, run) && FindsStart(run, stream, q) && FindsPages(run, stream, q)
    requires start == StartFound(q.preceding, q.live, q.checkpoints, fromSeq) && ws == WindowsAt(run, q.times, stream)
    requires ArePages(q.views, start.seqNo, toSeq, pageSize, q.pages)
    ensures AllValidFrom(cfg.hash, start, AllRead(q.pages)) <==>
            NoneOvertaken(ws, start.seqNo, q.pages)
  {
    RunHistory(cfg, run, |run| - 1, stream);
    StartOfReading(cfg, run, stream, q, fromSeq, start);
    WindowsOfReading(cfg, run, stream, q, ws);
    WindowsVerifyIff(
      cfg.hash, WholeHistory(run, stream), ws, q.views, |History(run[q.third].t, stream)|, start, toSeq, pageSize, q.pages);
  }

  lemma {:induction false} PrunedMeanwhile(cfg: Cfg) returns (run: seq<Store>, i: nat, rows: seq<Row>)
    requires cfg.heldToCommit && forall e, n, p :: cfg.hash(e, n, p).Some?
    ensures IsRun(cfg, run) && i < |run| && W.Samples(rows)
    ensures run[i].t == W.Filled(rows) && run[|run| - 1].t == W.Left(rows)
  {
    run, rows := W.WriteThree(cfg);
    i := |run| - 1;
    W.OneExpired(rows);
    W.Ordered(rows);
    assert forall v | v != "q" :: !StoreRuns.Holding(At(run[i], v));
    run := W.PruneOne(cfg, true, run, "q", W.TWO, "s", rows);
    W.AfterPruning(rows);
  }

  /** A prune between finding the start and reading the first page: of three rows written and
      verified from the first, two are pruned, and the one read, untouched, is not accepted. */
  lemma {:induction false} PruneOvertakes(cfg: Cfg) returns (run: seq<Store>, i: nat, rows: seq<Row>)
    requires cfg.heldToCommit && forall e, n, p :: cfg.hash(e, n, p).Some?
    ensures IsRun(cfg, run) && i < |run| && |rows| == 3
    ensures IsOrderBySeq(run[i].t, "s", rows) && run[i].t.checkpoints == {}
    ensures StartFound(rows, rows, [], 1) == Head(0, GENESIS)
    ensures IsOrderBySeq(run[|run| - 1].t, "s", [rows[2]])
    ensures IsPage([rows[2]], 0, None, 500, [rows[2]])
    ensures !Accepts(ScanAll(cfg.hash, AllRead([[rows[2]]]), StartScan(0, GENESIS), true))
  {
    run, i, rows := PrunedMeanwhile(cfg);
    W.Ordered(rows);
    NothingBelow(rows);
    ThirdAlone(cfg.hash, rows);
  }

  lemma {:induction false} NothingBelow(rows: seq<Row>)
    requires W.Samples(rows)
    ensures StartFound(rows, rows, [], 1) == Head(0, GENESIS)
  {
    forall i | 0 <= i < 3 ensures HeadsOf(rows)[i].seqNo >= 1 {
    }
    NoneBelow(HeadsOf(rows), 1);
    NoneBelow([], rows[0].seqNo);
  }

  lemma {:induction false} ThirdAlone(hash: HashFn, rows: seq<Row>)
    requires W.Samples(rows)
    ensures IsPage([rows[2]], 0, None, 500, [rows[2]])
    ensures !Accepts(ScanAll(hash, AllRead([[rows[2]]]), StartScan(0, GENESIS), true))
  {
    var page := [rows[2]];
    assert page[1..] == [];
    assert Above(page, 0, None) == page + Above([], 0, None);
    assert [page][..0] == [] && AllRead([page]) == AllRead([]) + page == page;
    AcceptsIff(hash, page, StartScan(0, GENESIS), true);
    assert !Follows(hash, page, 0, 0, GENESIS);
  }
}
