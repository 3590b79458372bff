/** How committing a write or a prune, and archiving, change the tables. */
module StoreTables {
  import opened AuditTypes
  import opened HashChain
  import opened WritePlan
  import opened Retention
  import opened AuditStore
  import opened StoreInvariant

  /** Rows of the stream numbered on from `n`. */
  predicate Placed(stream: string, rows: seq<Row>, n: nat) {
    forall i | 0 <= i < |rows| :: rows[i].seqNo == n + 1 + i && rows[i].ev.stream == stream
  }

  lemma ChainIsPlaced(hash: HashFn, stream: string, rows: seq<Row>, n0: nat, h0: Hash)
    requires IsChain(hash, rows, n0, h0)
    requires forall i | 0 <= i < |rows| :: rows[i].ev.stream == stream
    ensures Placed(stream, rows, n0)
  {
    forall i | 0 <= i < |rows| ensures rows[i].seqNo == n0 + 1 + i {
      assert Follows(hash, rows, i, n0, h0);
    }
  }

  lemma HistoryIsPlaced(cfg: Cfg, t: Tables, stream: string)
    requires HistoryOk(cfg, t)
    ensures Placed(stream, History(t, stream), 0)
  {
    if stream in t.history {
      assert StreamOk(cfg, stream, t.history[stream]);
      ChainIsPlaced(cfg.hash, stream, t.history[stream], 0, GENESIS);
    }
  }

  // ---------------------------------------------------------------------------
  // Committing a write

  lemma InAppended(h: seq<Row>, rows: seq<Row>, stream: string, r: Row)
    requires Placed(stream, rows, |h|)
    ensures r in rows <==> |h| < r.seqNo <= |h + rows| && (h + rows)[r.seqNo - 1] == r
    ensures r in rows ==> r.ev.stream == stream
  {
    if r in rows {
      var i :| 0 <= i < |rows| && rows[i] == r;
      assert (h + rows)[|h| + i] == r;
    }
    if |h| < r.seqNo <= |h + rows| {
      assert (h + rows)[r.seqNo - 1] == rows[r.seqNo - 1 - |h|];
    }
  }

  /** The committed rows after a write are those before it and those written. */
  lemma RowsAfterWrite(t: Tables, stream: string, rows: seq<Row>, r: Row)
    requires Placed(stream, rows, |History(t, stream)|)
    ensures IsRow(AfterWrite(t, stream, rows), r) <==> IsRow(t, r) || r in rows
    ensures r in rows ==> r.ev.stream == stream && r.seqNo > |History(t, stream)|
    ensures !(IsRow(t, r) && r in rows)
  {
    var h := History(t, stream);
    assert History(AfterWrite(t, stream, rows), stream) == h + rows;
    InAppended(h, rows, stream, r);
  }

  /** The rows chain on from the stream's last row. */
  ghost predicate ChainsOn(cfg: Cfg, t: Tables, stream: string, rows: seq<Row>) {
    && rows != []
    && IsChain(cfg.hash, rows, |History(t, stream)|, PrevOf(History(t, stream), |History(t, stream)|, GENESIS))
    && (forall i | 0 <= i < |rows| :: rows[i].ev.stream == stream)
  }

  lemma HistoryAfterWrite(cfg: Cfg, t: Tables, stream: string, rows: seq<Row>)
    requires HistoryOk(cfg, t) && ChainsOn(cfg, t, stream, rows)
    ensures HistoryOk(cfg, AfterWrite(t, stream, rows))
  {
    var h := History(t, stream);
    assert stream in t.history ==> StreamOk(cfg, stream, t.history[stream]);
    ChainConcat(cfg.hash, h, rows, 0, GENESIS);
    assert StreamOk(cfg, stream, h + rows);
  }

  lemma DistinctRows(rows: seq<Row>, r: Row, r': Row)
    requires DistinctIds(EventsOf(rows)) && r in rows && r' in rows && r.ev.id == r'.ev.id
    ensures r == r'
  {
    var i :| 0 <= i < |rows| && rows[i] == r;
    var j :| 0 <= j < |rows| && rows[j] == r';
    assert EventsOf(rows)[i] == r.ev && EventsOf(rows)[j] == r'.ev;
  }

  lemma LiveIdsAfterWrite(t: Tables, stream: string, rows: seq<Row>)
    requires LiveIdsOk(t) && NotLive(t, rows) && DistinctIds(EventsOf(rows))
    ensures LiveIdsOk(AfterWrite(t, stream, rows))
  {
    var t' := AfterWrite(t, stream, rows);
    forall r, r' | r in t'.live && r' in t'.live && r.ev.id == r'.ev.id ensures r == r' {
      if r in rows && r' in rows {
        DistinctRows(rows, r, r');
      }
    }
  }

  lemma LiveAfterWrite(t: Tables, stream: string, rows: seq<Row>)
    requires LiveOk(t) && BaseOk(t) && Placed(stream, rows, |History(t, stream)|)
    ensures LiveOk(AfterWrite(t, stream, rows))
  {
    var t' := AfterWrite(t, stream, rows);
    forall r ensures r in t'.live <==> IsRow(t', r) && r.seqNo > Base(t', r.ev.stream) {
      RowsAfterWrite(t, stream, rows, r);
    }
  }

  /** Markers stay markers while the histories only grow. */
  lemma MarkersKept(t: Tables, t': Tables)
    requires OnlyMarkers(t) && t'.archive == t.archive
    requires forall s :: History(t, s) <= History(t', s)
    ensures OnlyMarkers(t')
  {
    forall m | m in t'.archive ensures IsMarker(t', m) {
      assert IsMarker(t, m);
      assert History(t, m.stream) <= History(t', m.stream);
    }
  }

  lemma ArchiveAfterWrite(t: Tables, stream: string, rows: seq<Row>)
    requires BaseOk(t) && HaveMarkers(t) && Placed(stream, rows, |History(t, stream)|)
    ensures HaveMarkers(AfterWrite(t, stream, rows))
  {
    var t' := AfterWrite(t, stream, rows);
    forall r | IsRow(t', r) && r.seqNo <= Base(t', r.ev.stream) ensures MarkerOf(r) in t'.archive {
      RowsAfterWrite(t, stream, rows, r);
    }
  }

  lemma BaseAfterWrite(t: Tables, stream: string, rows: seq<Row>)
    requires BaseOk(t)
    ensures BaseOk(AfterWrite(t, stream, rows))
  {
  }

  lemma CheckpointsAfterWrite(t: Tables, stream: string, rows: seq<Row>)
    requires CheckpointsOk(t)
    ensures CheckpointsOk(AfterWrite(t, stream, rows))
  {
    var t' := AfterWrite(t, stream, rows);
    CheckpointsKept(t, t');
  }

  /** Checkpoints survive while the histories only grow and nothing more is pruned. */
  lemma CheckpointsKept(t: Tables, t': Tables)
    requires CheckpointsOk(t)
    requires t'.checkpoints == t.checkpoints && t'.pruned == t.pruned
    requires forall s :: History(t, s) <= History(t', s)
    ensures CheckpointsOk(t')
  {
    forall c | c in t'.checkpoints ensures IsCheckpoint(t', c) {
      CheckpointKept(t, t', c);
    }
    forall s | s in t'.pruned ensures HasCheckpoint(t', s) {
      HasCheckpointKept(t, t', s);
    }
  }

  lemma CheckpointKept(t: Tables, t': Tables, c: Checkpoint)
    requires IsCheckpoint(t, c) && Base(t, c.stream) <= Base(t', c.stream)
    requires History(t, c.stream) <= History(t', c.stream)
    ensures IsCheckpoint(t', c)
  {
  }

  lemma HasCheckpointKept(t: Tables, t': Tables, s: string)
    requires HasCheckpoint(t, s) && Base(t', s) == Base(t, s)
    requires t.checkpoints <= t'.checkpoints && History(t, s) <= History(t', s)
    ensures HasCheckpoint(t', s)
  {
  }

  /** Committing a write keeps the tables as they should be. */
  lemma TablesAfterWrite(cfg: Cfg, t: Tables, stream: string, rows: seq<Row>)
    requires TablesOk(cfg, t) && ChainsOn(cfg, t, stream, rows)
    requires NotLive(t, rows) && DistinctIds(EventsOf(rows))
    ensures TablesOk(cfg, AfterWrite(t, stream, rows))
  {
    ChainIsPlaced(cfg.hash, stream, rows, |History(t, stream)|, PrevOf(History(t, stream), |History(t, stream)|, GENESIS));
    HistoryAfterWrite(cfg, t, stream, rows);
    LiveIdsAfterWrite(t, stream, rows);
    LiveAfterWrite(t, stream, rows);
    ArchiveAfterWrite(t, stream, rows);
    MarkersKept(t, AfterWrite(t, stream, rows));
    BaseAfterWrite(t, stream, rows);
    CheckpointsAfterWrite(t, stream, rows);
  }

  // ---------------------------------------------------------------------------
  // Archiving

  function Markers(rows: seq<Row>): set<Marker> {
    set r | r in rows :: MarkerOf(r)
  }

  function WithMarkers(t: Tables, rows: seq<Row>): Tables {
    t.(archive := t.archive + Markers(rows))
  }

  lemma OnlyMarkersAfterArchive(t: Tables, rows: seq<Row>)
    requires OnlyMarkers(t)
    requires forall i | 0 <= i < |rows| :: IsRow(t, rows[i])
    ensures OnlyMarkers(WithMarkers(t, rows))
  {
    var t' := WithMarkers(t, rows);
    forall m | m in t'.archive ensures IsMarker(t', m) {
      if m !in t.archive {
        var r :| r in rows && m == MarkerOf(r);
        assert IsRow(t, r);
      }
      MarkerKept(t, t', m);
    }
  }

  lemma MarkerKept(t: Tables, t': Tables, m: Marker)
    requires t'.history == t.history
    ensures IsMarker(t, m) == IsMarker(t', m)
  {
  }

  lemma HaveMarkersAfterArchive(t: Tables, rows: seq<Row>)
    requires HaveMarkers(t)
    ensures HaveMarkers(WithMarkers(t, rows))
  {
    var t' := WithMarkers(t, rows);
    forall r | IsRow(t', r) && r.seqNo <= Base(t', r.ev.stream) ensures MarkerOf(r) in t'.archive {
      assert IsRow(t, r);
    }
  }

  lemma CheckpointsAfterArchive(t: Tables, rows: seq<Row>)
    requires CheckpointsOk(t)
    ensures CheckpointsOk(WithMarkers(t, rows))
  {
    CheckpointsKept(t, WithMarkers(t, rows));
  }

  lemma LiveAfterArchive(t: Tables, rows: seq<Row>)
    requires LiveOk(t) && BaseOk(t)
    ensures var t' := WithMarkers(t, rows); LiveOk(t') && BaseOk(t')
  {
    var t' := WithMarkers(t, rows);
    assert forall r :: IsRow(t', r) == IsRow(t, r);
  }

  predicate OnePerId(rows: seq<Row>) {
    forall i, j | 0 <= i < |rows| && 0 <= j < |rows| && rows[i].ev.id == rows[j].ev.id :: rows[i] == rows[j]
  }

  lemma NewMarker(archive: set<Marker>, rows: seq<Row>, m: Marker)
    requires m in Markers(rows) && !ArchiveClash(archive, rows) && OnePerId(rows)
    ensures forall m' | m' in archive :: m'.id != m.id
    ensures forall m' | m' in Markers(rows) && m'.id == m.id :: m' == m
  {
    var i :| 0 <= i < |rows| && m == MarkerOf(rows[i]);
    forall m' | m' in Markers(rows) && m'.id == m.id ensures m' == m {
      var j :| 0 <= j < |rows| && m' == MarkerOf(rows[j]);
    }
  }

  lemma MarkerIdsAfterArchive(t: Tables, rows: seq<Row>)
    requires MarkerIdsOk(t) && !ArchiveClash(t.archive, rows) && OnePerId(rows)
    ensures MarkerIdsOk(WithMarkers(t, rows))
  {
    var t' := WithMarkers(t, rows);
    forall m, m' | m in t'.archive && m' in t'.archive && m.id == m'.id ensures m == m' {
      if m in Markers(rows) {
        NewMarker(t.archive, rows, m);
      }
      if m' in Markers(rows) {
        NewMarker(t.archive, rows, m');
      }
    }
  }

  lemma TablesAfterArchive(cfg: Cfg, t: Tables, rows: seq<Row>)
    requires TablesOk(cfg, t)
    requires forall i | 0 <= i < |rows| :: IsRow(t, rows[i])
    requires !ArchiveClash(t.archive, rows) && OnePerId(rows)
    ensures TablesOk(cfg, WithMarkers(t, rows))
  {
    MarkerIdsAfterArchive(t, rows);
    LiveAfterArchive(t, rows);
    OnlyMarkersAfterArchive(t, rows);
    HaveMarkersAfterArchive(t, rows);
    CheckpointsAfterArchive(t, rows);
    HistoryKept(cfg, t, WithMarkers(t, rows));
  }

  lemma HistoryKept(cfg: Cfg, t: Tables, t': Tables)
    requires HistoryOk(cfg, t) && t'.history == t.history
    ensures HistoryOk(cfg, t')
  {
  }

  // ---------------------------------------------------------------------------
  // Committing a prune

  /** Where candidates stand in their stream. */
  lemma CandidatesPlaced(t: Tables, policy: Policy, stream: string, c: seq<Row>)
    requires CandidatesOk(t, policy, stream, c) && Placed(stream, History(t, stream), 0)
    ensures Placed(stream, c, c[0].seqNo - 1)
    ensures Last(c).seqNo == c[0].seqNo - 1 + |c| < |History(t, stream)|
    ensures Last(c) == History(t, stream)[Last(c).seqNo - 1]
    ensures forall i | 0 <= i < |c| :: IsRow(t, c[i])
  {
    PlacedSlice(t, stream, c, c[0].seqNo - 1);
  }

  lemma PlacedSlice(t: Tables, stream: string, c: seq<Row>, a: nat)
    requires Placed(stream, History(t, stream), 0)
    requires a + |c| <= |History(t, stream)| && c == History(t, stream)[a..a + |c|]
    ensures Placed(stream, c, a)
    ensures forall i | 0 <= i < |c| :: IsRow(t, c[i]) && c[i] == History(t, stream)[a + i]
  {
  }

  /** The last row a prune removes. */
  ghost predicate PruneTo(t: Tables, stream: string, c: seq<Row>) {
    && c != [] && Last(c).ev.stream == stream
    && 1 <= Last(c).seqNo < |History(t, stream)|
    && Last(c) == History(t, stream)[Last(c).seqNo - 1]
  }

  lemma LiveAfterPrune(t: Tables, stream: string, c: seq<Row>, doomed: set<Row>)
    requires LiveOk(t) && BaseOk(t) && PruneTo(t, stream, c) && DoomsUpTo(t, stream, Last(c).seqNo, doomed)
    requires forall r | r in doomed :: r.ev.stream == stream && r.seqNo <= Last(c).seqNo
    ensures var t' := AfterPrune(t, stream, c, doomed); LiveOk(t') && BaseOk(t')
  {
    var t' := AfterPrune(t, stream, c, doomed);
    assert forall r :: IsRow(t', r) == IsRow(t, r);
    forall r ensures r in t'.live <==> IsRow(t', r) && r.seqNo > Base(t', r.ev.stream) {
      assert r in t.live <==> IsRow(t, r) && r.seqNo > Base(t, r.ev.stream);
    }
  }

  lemma ArchiveAfterPrune(t: Tables, stream: string, c: seq<Row>, doomed: set<Row>)
    requires HaveMarkers(t) && PruneTo(t, stream, c) && AllArchived(t, c)
    requires 1 <= c[0].seqNo <= Base(t, stream) + 1
    requires c[0].seqNo - 1 + |c| <= |History(t, stream)|
    requires Last(c).seqNo == c[0].seqNo - 1 + |c|
    requires c == History(t, stream)[c[0].seqNo - 1..c[0].seqNo - 1 + |c|]
    ensures HaveMarkers(AfterPrune(t, stream, c, doomed))
  {
    var t' := AfterPrune(t, stream, c, doomed);
    forall r | IsRow(t', r) && r.seqNo <= Base(t', r.ev.stream) ensures MarkerOf(r) in t'.archive {
      assert IsRow(t, r);
      if r.seqNo > Base(t, r.ev.stream) {
        AtSlice(History(t, stream), c[0].seqNo - 1, c, r.seqNo - 1);
      }
    }
  }

  lemma CandidatesArchived(t: Tables, policy: Policy, stream: string, c: seq<Row>, doomed: set<Row>)
    requires HaveMarkers(t) && CandidatesOk(t, policy, stream, c) && AllArchived(t, c) && PruneTo(t, stream, c)
    requires Last(c).seqNo == c[0].seqNo - 1 + |c|
    ensures HaveMarkers(AfterPrune(t, stream, c, doomed))
  {
    ArchiveAfterPrune(t, stream, c, doomed);
  }

  lemma AtSlice(h: seq<Row>, a: nat, c: seq<Row>, k: nat)
    requires a + |c| <= |h| && c == h[a..a + |c|] && a <= k < a + |c|
    ensures c[k - a] == h[k]
  {
  }

  lemma OnlyCheckpointsAfterPrune(t: Tables, stream: string, c: seq<Row>, doomed: set<Row>)
    requires OnlyCheckpoints(t) && PruneTo(t, stream, c)
    ensures OnlyCheckpoints(AfterPrune(t, stream, c, doomed))
  {
    var t' := AfterPrune(t, stream, c, doomed);
    forall p | p in t'.checkpoints ensures IsCheckpoint(t', p) {
      if p in t.checkpoints {
        CheckpointKept(t, t', p);
      } else {
        assert p == CheckpointOf(Last(c));
      }
    }
  }

  lemma HaveCheckpointsAfterPrune(t: Tables, stream: string, c: seq<Row>, doomed: set<Row>)
    requires HaveCheckpoints(t) && PruneTo(t, stream, c)
    ensures HaveCheckpoints(AfterPrune(t, stream, c, doomed))
  {
    var t' := AfterPrune(t, stream, c, doomed);
    forall s | s in t'.pruned ensures HasCheckpoint(t', s) {
      if s != stream {
        assert HasCheckpoint(t, s);
        HasCheckpointKept(t, t', s);
      } else if Last(c).seqNo <= Base(t, stream) {
        assert HasCheckpoint(t, s);
        HasCheckpointKept(t, t', s);
      }
    }
  }

  lemma CandidatesBelow(stream: string, c: seq<Row>, a: nat, doomed: set<Row>)
    requires Placed(stream, c, a) && c != [] && forall r | r in doomed :: r in c
    ensures forall r | r in doomed :: r.ev.stream == stream && r.seqNo <= Last(c).seqNo
  {
  }

  lemma RestAfterPrune(cfg: Cfg, t: Tables, stream: string, c: seq<Row>, doomed: set<Row>)
    requires HistoryOk(cfg, t) && LiveIdsOk(t) && OnlyMarkers(t) && MarkerIdsOk(t) && CheckpointsOk(t) && PruneTo(t, stream, c)
    ensures var t' := AfterPrune(t, stream, c, doomed);
            HistoryOk(cfg, t') && LiveIdsOk(t') && OnlyMarkers(t') && MarkerIdsOk(t') && CheckpointsOk(t')
  {
    MarkersKept(t, AfterPrune(t, stream, c, doomed));
    OnlyCheckpointsAfterPrune(t, stream, c, doomed);
    HaveCheckpointsAfterPrune(t, stream, c, doomed);
    HistoryKept(cfg, t, AfterPrune(t, stream, c, doomed));
  }

  /** Committing a prune that removes only its candidates keeps the tables as they should be. */
  lemma TablesAfterPrune(cfg: Cfg, t: Tables, policy: Policy, stream: string, c: seq<Row>, doomed: set<Row>)
    requires TablesOk(cfg, t)
    requires CandidatesOk(t, policy, stream, c) && PhaseOk(t, stream, c, Deleted(doomed))
    requires forall r | r in doomed :: r in c
    ensures TablesOk(cfg, AfterPrune(t, stream, c, doomed))
  {
    HistoryIsPlaced(cfg, t, stream);
    CandidatesPlaced(t, policy, stream, c);
    CandidatesBelow(stream, c, c[0].seqNo - 1, doomed);
    LiveAfterPrune(t, stream, c, doomed);
    CandidatesArchived(t, policy, stream, c, doomed);
    RestAfterPrune(cfg, t, stream, c, doomed);
  }
}
