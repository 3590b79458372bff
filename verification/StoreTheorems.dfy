/** What holds in every state of every run of the store in which prunes remove only rows they
    selected: any number of concurrent writers and pruners, in either lock mode, with streams that
    share a lock, with crashes at any step, and whatever is delivered how often. */
module StoreTheorems {
  import opened Wrappers
  import opened AuditTypes
  import opened HashChain
  import opened WritePlan
  import opened Retention
  import opened AuditStore
  import opened StoreInvariant
  import opened StoreTables
  import opened StoreSessions
  import opened StoreProof
  import opened StorePrune

  // ---------------------------------------------------------------------------
  // Chains

  lemma RunTables(cfg: Cfg, run: seq<Store>, i: nat)
    requires IsTightRun(cfg, run) && i < |run|
    ensures HistoryOk(cfg, run[i].t) && LiveOk(run[i].t) && BaseOk(run[i].t)
    ensures ArchiveOk(run[i].t) && CheckpointsOk(run[i].t)
  {
    RunKeeps(cfg, run, i);
  }

  /** Every row ever committed of a stream, in order, is a gapless chain from number 1. */
  lemma EveryStreamIsAChain(cfg: Cfg, run: seq<Store>, i: nat, stream: string)
    requires IsTightRun(cfg, run) && i < |run|
    ensures var h := History(run[i].t, stream);
            IsChain(cfg.hash, h, 0, GENESIS) && forall j | 0 <= j < |h| :: h[j].ev.stream == stream
  {
    RunKeeps(cfg, run, i);
    if stream in run[i].t.history {
      assert StreamOk(cfg, stream, run[i].t.history[stream]);
    }
  }

  /** No id is live twice, in one stream or in two. */
  lemma EveryIdIsUnique(cfg: Cfg, run: seq<Store>, i: nat, r: Row, r': Row)
    requires IsTightRun(cfg, run) && i < |run|
    requires r in run[i].t.live && r' in run[i].t.live && r.ev.id == r'.ev.id
    ensures r == r'
  {
    RunKeeps(cfg, run, i);
  }

  /** The live rows of a stream are a suffix of its history, empty only if the history is, and so
      a chain after the last pruned row. */
  lemma LiveRowsAreASuffix(cfg: Cfg, run: seq<Store>, i: nat, stream: string, rows: seq<Row>)
    requires IsTightRun(cfg, run) && i < |run| && IsOrderBySeq(run[i].t, stream, rows)
    ensures var h, b := History(run[i].t, stream), Base(run[i].t, stream);
            && b <= |h| && rows == h[b..]
            && (h != [] ==> rows != [])
            && IsChain(cfg.hash, rows, b, PrevOf(h, b, GENESIS))
  {
    var t := run[i].t;
    RunKeeps(cfg, run, i);
    LiveRowsAre(cfg, t, stream, rows);
    BaseInHistory(t, stream);
    EveryStreamIsAChain(cfg, run, i, stream);
    ChainSuffix(cfg.hash, History(t, stream), Base(t, stream));
  }

  lemma ChainSuffix(hash: HashFn, h: seq<Row>, b: nat)
    requires b <= |h| && IsChain(hash, h, 0, GENESIS)
    ensures IsChain(hash, h[b..], b, PrevOf(h, b, GENESIS))
  {
    assert h == h[..b] + h[b..];
    ChainConcat(hash, h[..b], h[b..], 0, GENESIS);
  }

  lemma StepExtends(cfg: Cfg, s: Store, w: string, step: Step, s': Store)
    requires Next(cfg, s, w, step, s')
    ensures Extends(s.t, s'.t)
  {
    if step.Commit? {
      ExtendsByWrite(s.t, At(s, w).todo[0].name, At(s, w).tx.rows);
    }
  }

  /** No number is given out twice: the rows ever committed to a stream, in any later state, have
      the numbers 1, 2, 3 and so on in the order of their commits. */
  lemma NumbersAreGivenOnce(cfg: Cfg, run: seq<Store>, i: nat, j: nat, stream: string, k: nat)
    requires IsTightRun(cfg, run) && i <= j < |run| && k < |History(run[j].t, stream)|
    ensures History(run[i].t, stream) <= History(run[j].t, stream)
    ensures History(run[j].t, stream)[k].seqNo == k + 1
  {
    HistoryOnlyGrows(cfg, run, i, j, stream);
    RunTables(cfg, run, j);
    HistoryIsPlaced(cfg, run[j].t, stream);
  }

  lemma {:induction false} HistoryOnlyGrows(cfg: Cfg, run: seq<Store>, i: nat, j: nat, stream: string)
    requires IsTightRun(cfg, run) && i <= j < |run|
    ensures History(run[i].t, stream) <= History(run[j].t, stream)
  {
    if i == j {
    } else {
      HistoryOnlyGrows(cfg, run, i, j - 1, stream);
      assert CanStepTightly(cfg, run[j - 1], run[j - 1 + 1]);
      var w, step :| Next(cfg, run[j - 1], w, step, run[j]) && TightStep(run[j - 1], w, step);
      StepExtends(cfg, run[j - 1], w, step, run[j]);
      assert History(run[j - 1].t, stream) <= History(run[j].t, stream);
    }
  }

  /** A write that returned gave back, for every position of its batch, a committed row with that
      event's id that is that event; and the row is still there at any later point of the run. */
  lemma WriteReturnsStoredRows(cfg: Cfg, run: seq<Store>, i: nat, j: nat, w: string, k: nat)
    requires IsTightRun(cfg, run) && i <= j < |run| && At(run[i], w).Returned? && k < |At(run[i], w).batch|
    ensures var ss := At(run[i], w);
            && |ss.rows| == |ss.batch|
            && ss.rows[k].ev.id == ss.batch[k].id
            && SameAs(cfg.fp, ss.rows[k].ev, ss.batch[k])
            && IsRow(run[j].t, ss.rows[k])
  {
    RunKeeps(cfg, run, i);
    Known(cfg, run[i], w);
    var r := At(run[i], w).rows[k];
    assert IsRow(run[i].t, r);
    HistoryOnlyGrows(cfg, run, i, j, r.ev.stream);
  }

  /** A writer whose head is no longer the last row cannot insert: its rows clash with a live row,
      so the statement fails and the whole transaction rolls back. This is what keeps the chain
      gapless where the lock is released before the commit. */
  lemma StaleHeadAlwaysClashes(cfg: Cfg, run: seq<Store>, i: nat, w: string)
    requires IsTightRun(cfg, run) && i < |run| && At(run[i], w).Writing? && At(run[i], w).tx.HeadRead?
    ensures var ss := At(run[i], w);
            && ss.todo != [] && ss.tx.rows != []
            && (ss.tx.rows[0].seqNo != |History(run[i].t, ss.todo[0].name)| + 1 ==> InTable(run[i].t.live, ss.tx.rows))
  {
    RunKeeps(cfg, run, i);
    Known(cfg, run[i], w);
    var ss := At(run[i], w);
    if !InTable(run[i].t.live, ss.tx.rows) {
      StaleHeadCollides(cfg, run[i].t, ss.todo[0], ss.tx.rows);
    }
  }

  // ---------------------------------------------------------------------------
  // Runs without pruning

  /** A run in which no session prunes, with no assumption about ids. */
  ghost predicate IsPlainRun(cfg: Cfg, run: seq<Store>) {
    && run != [] && run[0] == EMPTY
    && forall i | 0 <= i < |run| - 1 :: CanStepPlainly(cfg, run[i], run[i + 1])
  }

  ghost predicate CanStepPlainly(cfg: Cfg, s: Store, s': Store) {
    exists w, step :: Next(cfg, s, w, step, s') && !step.StartPrune?
  }

  /** Nothing was pruned and nobody is pruning. */
  ghost predicate Plain(s: Store) {
    s.t.pruned == map[] && s.t.archive == {} && forall w :: !At(s, w).Pruning?
  }

  lemma PlainStep(cfg: Cfg, s: Store, w: string, step: Step, s': Store)
    requires Plain(s) && Next(cfg, s, w, step, s') && !step.StartPrune?
    ensures Plain(s')
  {
    assert !At(s, w).Pruning?;
    forall v ensures !At(s', v).Pruning? {
      assert !At(s, v).Pruning?;
    }
  }

  /** Without pruning, deduplication sees every row ever committed. */
  lemma PlainFresh(cfg: Cfg, s: Store, w: string, step: Step)
    requires Inv(cfg, s) && Plain(s)
    ensures FreshStep(s, w, step)
    ensures forall r :: IsRow(s.t, r) <==> r in s.t.live
  {
    forall r ensures IsRow(s.t, r) <==> r in s.t.live {
    }
  }

  lemma PlainStepKeeps(cfg: Cfg, s: Store, w: string, step: Step, s': Store)
    requires Inv(cfg, s) && Plain(s) && Next(cfg, s, w, step, s') && !step.StartPrune?
    ensures Inv(cfg, s') && Plain(s') && Extends(s.t, s'.t)
  {
    assert !At(s, w).Pruning?;
    StepKeeps(cfg, s, w, step, s');
    PlainStep(cfg, s, w, step, s');
    StepExtends(cfg, s, w, step, s');
  }

  lemma {:induction false} PlainStates(cfg: Cfg, run: seq<Store>, i: nat)
    requires IsPlainRun(cfg, run) && i < |run|
    ensures Inv(cfg, run[i]) && Plain(run[i])
  {
    if i == 0 {
      EmptyOk(cfg);
    } else {
      PlainStates(cfg, run, i - 1);
      assert CanStepPlainly(cfg, run[i - 1], run[i - 1 + 1]);
      var w, step :| Next(cfg, run[i - 1], w, step, run[i]) && !step.StartPrune?;
      PlainStepKeeps(cfg, run[i - 1], w, step, run[i]);
    }
  }

  /** Without pruning every run is one with fresh ids, and one in which prunes remove only what they
      selected, whatever is delivered however often; and all rows ever committed are live. */
  lemma PlainRunIsRun(cfg: Cfg, run: seq<Store>)
    requires IsPlainRun(cfg, run)
    ensures IsRun(cfg, run) && IsTightRun(cfg, run)
    ensures forall i, r | 0 <= i < |run| :: IsRow(run[i].t, r) <==> r in run[i].t.live
  {
    forall i | 0 <= i < |run| - 1 ensures CanStep(cfg, run[i], run[i + 1]) && CanStepTightly(cfg, run[i], run[i + 1]) {
      PlainStates(cfg, run, i);
      assert CanStepPlainly(cfg, run[i], run[i + 1]);
      var w, step :| Next(cfg, run[i], w, step, run[i + 1]) && !step.StartPrune?;
      PlainFresh(cfg, run[i], w, step);
      assert !At(run[i], w).Pruning?;
      assert TightStep(run[i], w, step);
    }
    forall i, r | 0 <= i < |run| ensures IsRow(run[i].t, r) <==> r in run[i].t.live {
      PlainStates(cfg, run, i);
      PlainFresh(cfg, run[i], "", Reset);
    }
  }

  // ---------------------------------------------------------------------------
  // resolveSequenceHash

  /** A row of one of the three tables a hash is looked up in. */
  datatype Place = Place(stream: string, seqNo: nat, hash: Hash)

  function LivePlaces(t: Tables): set<Place> {
    set r | r in t.live :: Place(r.ev.stream, r.seqNo, r.hash)
  }

  function ArchivePlaces(t: Tables): set<Place> {
    set m | m in t.archive :: Place(m.stream, m.seqNo, m.hash)
  }

  function CheckpointPlaces(t: Tables): set<Place> {
    set c | c in t.checkpoints :: Place(c.stream, c.seqNo, c.hash)
  }

  function PlacesOf(t: Tables): seq<set<Place>> {
    [LivePlaces(t), ArchivePlaces(t), CheckpointPlaces(t)]
  }

  predicate Absent(table: set<Place>, stream: string, n: nat) {
    forall p | p in table :: !(p.stream == stream && p.seqNo == n)
  }

  /** The hash of some row at that place in the first table that has one. */
  ghost predicate Resolves(tables: seq<set<Place>>, stream: string, n: nat, r: Option<Hash>) {
    match r
    case None => forall i | 0 <= i < |tables| :: Absent(tables[i], stream, n)
    case Some(h) =>
      exists i | 0 <= i < |tables| ::
        Place(stream, n, h) in tables[i] && forall j | 0 <= j < i :: Absent(tables[j], stream, n)
  }

  /** The loop over the three tables, each queried with a limit of one row. */
  method ResolveSequenceHash(tables: seq<set<Place>>, stream: string, n: nat) returns (r: Option<Hash>)
    ensures Resolves(tables, stream, n, r)
  {
    for i := 0 to |tables|
      invariant forall j | 0 <= j < i :: Absent(tables[j], stream, n)
    {
      if p :| p in tables[i] && p.stream == stream && p.seqNo == n {
        assert p == Place(stream, n, p.hash);
        return Some(p.hash);
      }
    }
    return None;
  }

  /** The place is that of a committed row. */
  predicate IsPlace(t: Tables, p: Place) {
    1 <= p.seqNo <= |History(t, p.stream)| && p.hash == History(t, p.stream)[p.seqNo - 1].hash
  }

  lemma LivePlace(t: Tables, p: Place)
    requires LiveOk(t) && p in LivePlaces(t)
    ensures IsPlace(t, p)
  {
    var r :| r in t.live && p == Place(r.ev.stream, r.seqNo, r.hash);
    assert IsRow(t, r);
  }

  lemma ArchivePlace(t: Tables, p: Place)
    requires OnlyMarkers(t) && p in ArchivePlaces(t)
    ensures IsPlace(t, p)
  {
    var m :| m in t.archive && p == Place(m.stream, m.seqNo, m.hash);
    assert IsMarker(t, m);
  }

  lemma CheckpointPlace(t: Tables, p: Place)
    requires OnlyCheckpoints(t) && p in CheckpointPlaces(t)
    ensures IsPlace(t, p)
  {
    var c :| c in t.checkpoints && p == Place(c.stream, c.seqNo, c.hash);
    assert IsCheckpoint(t, c);
  }

  lemma LiveHasPlace(t: Tables, r: Row)
    requires r in t.live
    ensures !Absent(LivePlaces(t), r.ev.stream, r.seqNo)
  {
    assert Place(r.ev.stream, r.seqNo, r.hash) in LivePlaces(t);
  }

  lemma MarkerHasPlace(t: Tables, m: Marker)
    requires m in t.archive
    ensures !Absent(ArchivePlaces(t), m.stream, m.seqNo)
  {
    assert Place(m.stream, m.seqNo, m.hash) in ArchivePlaces(t);
  }

  lemma RowHasPlace(t: Tables, r: Row)
    requires LiveOk(t) && HaveMarkers(t) && IsRow(t, r)
    ensures !Absent(LivePlaces(t), r.ev.stream, r.seqNo) || !Absent(ArchivePlaces(t), r.ev.stream, r.seqNo)
  {
    if r in t.live {
      LiveHasPlace(t, r);
    } else {
      MarkerHasPlace(t, MarkerOf(r));
    }
  }

  lemma PlacedRow(t: Tables, stream: string, n: nat)
    requires Placed(stream, History(t, stream), 0) && 1 <= n <= |History(t, stream)|
    ensures var r := History(t, stream)[n - 1]; IsRow(t, r) && r.ev.stream == stream && r.seqNo == n
  {
  }

  lemma ResolvesToRow(t: Tables, stream: string, n: nat, h: Hash)
    requires LiveOk(t) && OnlyMarkers(t) && OnlyCheckpoints(t)
    requires Resolves(PlacesOf(t), stream, n, Some(h))
    ensures IsPlace(t, Place(stream, n, h))
  {
    var p := Place(stream, n, h);
    var j :| 0 <= j < 3 && p in PlacesOf(t)[j];
    if j == 0 {
      LivePlace(t, p);
    } else if j == 1 {
      ArchivePlace(t, p);
    } else {
      CheckpointPlace(t, p);
    }
  }

  lemma ResolvesToNone(t: Tables, stream: string, n: nat)
    requires Resolves(PlacesOf(t), stream, n, None)
    ensures Absent(LivePlaces(t), stream, n) && Absent(ArchivePlaces(t), stream, n)
  {
    assert Absent(PlacesOf(t)[0], stream, n) && Absent(PlacesOf(t)[1], stream, n);
  }

  /** For every number ever given out in a stream the hash of that row is found, pruned or not and
      also between archiving and deleting; for every other number nothing is found. */
  lemma EveryNumberResolves(cfg: Cfg, run: seq<Store>, i: nat, stream: string, n: nat, r: Option<Hash>)
    requires IsTightRun(cfg, run) && i < |run| && Resolves(PlacesOf(run[i].t), stream, n, r)
    ensures var h := History(run[i].t, stream);
            r == if 1 <= n <= |h| then Some(h[n - 1].hash) else None
  {
    RunTables(cfg, run, i);
    NumberResolves(cfg, run[i].t, stream, n, r);
  }

  lemma NumberResolves(cfg: Cfg, t: Tables, stream: string, n: nat, r: Option<Hash>)
    requires HistoryOk(cfg, t) && LiveOk(t) && ArchiveOk(t) && CheckpointsOk(t) && Resolves(PlacesOf(t), stream, n, r)
    ensures var h := History(t, stream);
            r == if 1 <= n <= |h| then Some(h[n - 1].hash) else None
  {
    if r.Some? {
      ResolvesToRow(t, stream, n, r.value);
    } else if 1 <= n <= |History(t, stream)| {
      HistoryIsPlaced(cfg, t, stream);
      PlacedRow(t, stream, n);
      RowHasPlace(t, History(t, stream)[n - 1]);
      ResolvesToNone(t, stream, n);
    }
  }

  // ---------------------------------------------------------------------------
  // What a prune removes

  /** What the tables look like after session `w` commits its prune. */
  function PrunedTables(s: Store, w: string): Tables
    requires HasDeleted(At(s, w)) && At(s, w).candidates != []
  {
    AfterPrune(s.t, At(s, w).stream, At(s, w).candidates, At(s, w).phase.doomed)
  }

  /** Candidate `k` is the row of its stream with its number, and may be pruned. */
  predicate CandidateOk(t: Tables, ss: Session, k: nat)
    requires ss.Pruning? && k < |ss.candidates|
  {
    var r := ss.candidates[k];
    && IsRow(t, r)
    && r.ev.stream == ss.stream
    && r.seqNo == ss.candidates[0].seqNo + k
    && r.ev.event == ss.candidates[0].ev.event
    && Expired(ss.policy, r)
    && MarkerOf(r) in t.archive
  }

  /** What is known of a prune that has deleted its rows and not yet committed. */
  ghost predicate PruneOk(t: Tables, ss: Session) {
    && HasDeleted(ss) && ss.candidates != []
    && 1 <= ss.candidates[0].seqNo <= Base(t, ss.stream) + 1
    && Last(ss.candidates).seqNo < |History(t, ss.stream)|
    && (ss.policy.eventFilter.Some? ==> ss.candidates[0].ev.event == ss.policy.eventFilter.value)
    && (forall k: nat | k < |ss.candidates| :: CandidateOk(t, ss, k))
    && ss.phase.doomed == set r | r in t.live && r.ev.stream == ss.stream && r.seqNo <= Last(ss.candidates).seqNo
  }

  lemma CandidatesFacts(t: Tables, ss: Session, k: nat)
    requires HasDeleted(ss) && k < |ss.candidates|
    requires CandidatesOk(t, ss.policy, ss.stream, ss.candidates) && AllArchived(t, ss.candidates)
    requires Placed(ss.stream, ss.candidates, ss.candidates[0].seqNo - 1) && IsRow(t, ss.candidates[k])
    ensures CandidateOk(t, ss, k)
  {
  }

  lemma DeletedFacts(t: Tables, ss: Session)
    requires HasDeleted(ss) && Tight(ss) && CandidatesOk(t, ss.policy, ss.stream, ss.candidates)
    requires PhaseOk(t, ss.stream, ss.candidates, ss.phase) && Placed(ss.stream, History(t, ss.stream), 0)
    ensures PruneOk(t, ss)
  {
    CandidatesPlaced(t, ss.policy, ss.stream, ss.candidates);
    forall k: nat | k < |ss.candidates| ensures CandidateOk(t, ss, k) {
      CandidatesFacts(t, ss, k);
    }
  }

  lemma PruneFacts(cfg: Cfg, run: seq<Store>, i: nat, w: string)
    requires IsTightRun(cfg, run) && i < |run| && HasDeleted(At(run[i], w)) && Tight(At(run[i], w))
    ensures HistoryOk(cfg, run[i].t) && LiveOk(run[i].t) && BaseOk(run[i].t)
    ensures PruneOk(run[i].t, At(run[i], w))
  {
    RunKeeps(cfg, run, i);
    Known(cfg, run[i], w);
    HistoryIsPlaced(cfg, run[i].t, At(run[i], w).stream);
    DeletedFacts(run[i].t, At(run[i], w));
  }

  /** A row removed is one of the candidates. */
  lemma GoneIsCandidate(t: Tables, ss: Session, r: Row)
    requires PruneOk(t, ss) && r in ss.phase.doomed && IsRow(t, r) && Base(t, ss.stream) < r.seqNo
    ensures var k := r.seqNo - ss.candidates[0].seqNo; 0 <= k < |ss.candidates| && ss.candidates[k] == r
  {
    assert CandidateOk(t, ss, |ss.candidates| - 1);
    assert CandidateOk(t, ss, r.seqNo - ss.candidates[0].seqNo);
  }

  lemma LiveIsRow(t: Tables, r: Row)
    requires LiveOk(t) && r in t.live
    ensures IsRow(t, r) && Base(t, r.ev.stream) < r.seqNo
  {
  }

  /** A prune may remove a row: its event name, its age and its archive marker. */
  ghost predicate MayRemove(t: Tables, ss: Session, r: Row)
    requires ss.Pruning? && ss.candidates != []
  {
    && r.ev.stream == ss.stream
    && r.ev.event == ss.candidates[0].ev.event
    && (ss.policy.eventFilter.Some? ==> r.ev.event == ss.policy.eventFilter.value)
    && Expired(ss.policy, r)
    && MarkerOf(r) in t.archive
  }

  lemma CandidateMayGo(t: Tables, ss: Session, k: nat)
    requires PruneOk(t, ss) && k < |ss.candidates|
    ensures MayRemove(t, ss, ss.candidates[k])
  {
    assert CandidateOk(t, ss, k);
  }

  lemma GoneMayGo(t: Tables, ss: Session, r: Row)
    requires LiveOk(t) && PruneOk(t, ss) && r in ss.phase.doomed
    ensures MayRemove(t, ss, r)
  {
    LiveIsRow(t, r);
    GoneIsCandidate(t, ss, r);
    CandidateMayGo(t, ss, r.seqNo - ss.candidates[0].seqNo);
  }

  /** Every row a prune removes that takes only candidates is of one stream and one event name that passes the
      policy's filter, has expired under its own policy and has its archive marker. */
  lemma RemovedRowsExpired(cfg: Cfg, run: seq<Store>, i: nat, w: string, r: Row)
    requires IsTightRun(cfg, run) && i < |run| && HasDeleted(At(run[i], w)) && Tight(At(run[i], w))
    requires At(run[i], w).candidates != []
    requires r in run[i].t.live && r !in PrunedTables(run[i], w).live
    ensures MayRemove(run[i].t, At(run[i], w), r)
  {
    PruneFacts(cfg, run, i, w);
    GoneMayGo(run[i].t, At(run[i], w), r);
  }

  lemma LastStays(cfg: Cfg, t: Tables, stream: string, doomed: set<Row>, to: nat)
    requires HistoryOk(cfg, t) && LiveOk(t) && BaseOk(t) && to < |History(t, stream)|
    requires doomed == set r | r in t.live && r.ev.stream == stream && r.seqNo <= to
    ensures Last(History(t, stream)) in t.live && Last(History(t, stream)) !in doomed
  {
    BaseInHistory(t, stream);
    RowAfterIsLive(cfg, t, stream, |History(t, stream)| - 1);
  }

  /** What a prune that takes only candidates removes is a prefix of the live rows of its stream, and never the
      stream's last row. */
  lemma RemovedRowsAreAPrefix(cfg: Cfg, run: seq<Store>, i: nat, w: string, q: Row)
    requires IsTightRun(cfg, run) && i < |run| && HasDeleted(At(run[i], w)) && Tight(At(run[i], w))
    requires At(run[i], w).candidates != []
    requires q in run[i].t.live
    ensures var ss := At(run[i], w);
            && (q in PrunedTables(run[i], w).live <==> q.ev.stream != ss.stream || q.seqNo > Last(ss.candidates).seqNo)
            && History(run[i].t, ss.stream) != []
            && Last(History(run[i].t, ss.stream)) in PrunedTables(run[i], w).live
  {
    PruneFacts(cfg, run, i, w);
    var ss := At(run[i], w);
    LastStays(cfg, run[i].t, ss.stream, ss.phase.doomed, Last(ss.candidates).seqNo);
  }

  /** A row has one marker, however often pruning it failed and was tried again. */
  lemma OneMarkerEach(cfg: Cfg, run: seq<Store>, i: nat, m: Marker, m': Marker)
    requires IsTightRun(cfg, run) && i < |run| && m in run[i].t.archive && m' in run[i].t.archive
    requires m.id == m'.id || (m.stream == m'.stream && m.seqNo == m'.seqNo)
    ensures m == m'
  {
    RunTables(cfg, run, i);
    assert IsMarker(run[i].t, m) && IsMarker(run[i].t, m');
  }

  /** No committed row is lost without a trace: in every reachable state it is live, or the archive has a
      marker with its id, its place, its hash and its predecessor's hash. */
  lemma LiveOrArchived(cfg: Cfg, run: seq<Store>, i: nat, r: Row)
    requires IsTightRun(cfg, run) && i < |run| && IsRow(run[i].t, r)
    ensures r in run[i].t.live || Marker(r.ev.id, r.ev.stream, r.seqNo, r.hash, r.prevHash) in run[i].t.archive
  {
    RunTables(cfg, run, i);
  }

  /** The total a prune reports is the sum of its counts per event. */
  lemma TotalIsSum(cfg: Cfg, run: seq<Store>, i: nat, w: string)
    requires IsTightRun(cfg, run) && i < |run| && At(run[i], w).Pruning?
    ensures SumOf(At(run[i], w).perEvent) == At(run[i], w).total
  {
    RunKeeps(cfg, run, i);
    Known(cfg, run[i], w);
  }

  lemma WithLast(init: seq<Row>, last: Row, rows: seq<Row>)
    requires rows == init + [last]
    ensures (set r | r in rows) == (set r | r in init) + {last}
  {
  }

  lemma {:induction false} CountRows(stream: string, rows: seq<Row>, a: nat)
    requires Placed(stream, rows, a)
    ensures |set r | r in rows| == |rows|
  {
    if rows == [] {
    } else {
      var init := rows[..|rows| - 1];
      CountRows(stream, init, a);
      WithLast(init, Last(rows), rows);
      assert Last(rows) !in init by {
        assert Last(rows).seqNo == a + |rows|;
        assert forall i | 0 <= i < |init| :: init[i].seqNo == a + i + 1;
      }
    }
  }

  lemma DoomedInCandidates(t: Tables, ss: Session, r: Row)
    requires LiveOk(t) && PruneOk(t, ss) && r in ss.phase.doomed
    ensures r in ss.candidates
  {
    LiveIsRow(t, r);
    GoneIsCandidate(t, ss, r);
  }

  lemma CandidateIsDoomed(t: Tables, ss: Session, k: nat)
    requires LiveOk(t) && PruneOk(t, ss) && k < |ss.candidates| && ss.candidates[0] in t.live
    ensures ss.candidates[k] in ss.phase.doomed
  {
    LiveIsRow(t, ss.candidates[0]);
    assert CandidateOk(t, ss, 0) && CandidateOk(t, ss, k) && CandidateOk(t, ss, |ss.candidates| - 1);
  }

  lemma CandidatesDistinct(t: Tables, ss: Session)
    requires PruneOk(t, ss)
    ensures Placed(ss.stream, ss.candidates, ss.candidates[0].seqNo - 1)
  {
    forall k: nat | k < |ss.candidates|
      ensures ss.candidates[k].seqNo == ss.candidates[0].seqNo + k && ss.candidates[k].ev.stream == ss.stream
    {
      assert CandidateOk(t, ss, k);
    }
  }

  lemma DoomedCount(t: Tables, ss: Session)
    requires LiveOk(t) && PruneOk(t, ss)
    ensures |ss.phase.doomed| <= |ss.candidates|
    ensures |ss.phase.doomed| == |ss.candidates| <==> ss.candidates[0] in t.live
  {
    var c, doomed := ss.candidates, ss.phase.doomed;
    var all := set r | r in c;
    CandidatesDistinct(t, ss);
    CountRows(ss.stream, c, c[0].seqNo - 1);
    forall r | r in doomed ensures r in all {
      DoomedInCandidates(t, ss, r);
    }
    SubsetCount(doomed, all);
    if c[0] in t.live {
      forall k | 0 <= k < |c| ensures c[k] in doomed {
        CandidateIsDoomed(t, ss, k);
      }
      assert all <= doomed;
    } else {
      assert c[0] in all;
    }
  }

  /** What the prune adds to its total is the number of its candidates. That is the number of rows
      it removed if and only if its first candidate was still live: another prune of the stream
      may have committed between its selection and its delete. */
  lemma CountIsExactIff(cfg: Cfg, run: seq<Store>, i: nat, w: string)
    requires IsTightRun(cfg, run) && i < |run| && HasDeleted(At(run[i], w)) && Tight(At(run[i], w))
    requires At(run[i], w).candidates != []
    ensures var ss := At(run[i], w);
            && |ss.phase.doomed| <= |ss.candidates|
            && (|ss.phase.doomed| == |ss.candidates| <==> ss.candidates[0] in run[i].t.live)
  {
    PruneFacts(cfg, run, i, w);
    DoomedCount(run[i].t, At(run[i], w));
  }

  lemma SubsetCount(a: set<Row>, b: set<Row>)
    requires a <= b
    ensures |a| <= |b| && (|a| == |b| <==> a == b)
  {
    assert b == a + (b - a);
    assert |b| == |a| + |b - a|;
    if |a| == |b| {
      assert b - a == {};
    }
  }
}
