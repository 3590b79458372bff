/** Every pruning step of the store keeps its invariant; with it, every step does. */
module StorePrune {
  import opened AuditTypes
  import opened HashChain
  import ChainVerify
  import opened WritePlan
  import opened Retention
  import opened AuditStore
  import opened StoreInvariant
  import opened StoreTables
  import opened StoreSessions
  import opened StoreProof

  // ---------------------------------------------------------------------------
  // The live rows of a stream

  lemma LiveRowInHistory(cfg: Cfg, t: Tables, stream: string, r: Row)
    requires HistoryOk(cfg, t) && LiveOk(t)
    requires r in t.live && r.ev.stream == stream
    ensures Base(t, stream) < r.seqNo <= |History(t, stream)| && History(t, stream)[r.seqNo - 1] == r
  {
    assert IsRow(t, r);
  }

  lemma BaseInHistory(t: Tables, stream: string)
    requires BaseOk(t)
    ensures Base(t, stream) <= |History(t, stream)|
    ensures History(t, stream) != [] ==> Base(t, stream) < |History(t, stream)|
  {
  }

  /** The live rows of a stream, in order, are its history above the pruned rows. */
  lemma LiveRowsAre(cfg: Cfg, t: Tables, stream: string, rows: seq<Row>)
    requires HistoryOk(cfg, t) && LiveOk(t) && BaseOk(t) && IsOrderBySeq(t, stream, rows)
    ensures Base(t, stream) <= |History(t, stream)| && rows == History(t, stream)[Base(t, stream)..]
  {
    var h, b := History(t, stream), Base(t, stream);
    HistoryIsPlaced(cfg, t, stream);
    BaseInHistory(t, stream);
    forall r ensures r in rows <==> r in h[b..] {
      LiveMembership(cfg, t, stream, r);
    }
    PlacedAscending(stream, h, b);
    ChainVerify.SortedRowsEqual(rows, h[b..]);
  }

  lemma InDrop(h: seq<Row>, b: nat, k: nat)
    requires b <= k < |h|
    ensures h[k] in h[b..]
  {
    assert h[b..][k - b] == h[k];
  }

  lemma LiveMembership(cfg: Cfg, t: Tables, stream: string, r: Row)
    requires HistoryOk(cfg, t) && LiveOk(t) && Base(t, stream) <= |History(t, stream)|
    ensures r in t.live && r.ev.stream == stream <==> r in History(t, stream)[Base(t, stream)..]
  {
    if r in t.live && r.ev.stream == stream {
      LiveRowInHistory(cfg, t, stream, r);
      InDrop(History(t, stream), Base(t, stream), r.seqNo - 1);
    }
    if r in History(t, stream)[Base(t, stream)..] {
      DroppedIsLive(cfg, t, stream, r);
    }
  }

  lemma DroppedIsLive(cfg: Cfg, t: Tables, stream: string, r: Row)
    requires HistoryOk(cfg, t) && LiveOk(t) && Base(t, stream) <= |History(t, stream)|
    requires r in History(t, stream)[Base(t, stream)..]
    ensures r in t.live && r.ev.stream == stream
  {
    var rest := History(t, stream)[Base(t, stream)..];
    var i :| 0 <= i < |rest| && rest[i] == r;
    RowAfterIsLive(cfg, t, stream, Base(t, stream) + i);
  }

  lemma PlacedAscending(stream: string, h: seq<Row>, b: nat)
    requires Placed(stream, h, 0) && b <= |h|
    ensures forall i, j | 0 <= i < j < |h[b..]| :: h[b..][i].seqNo < h[b..][j].seqNo
  {
  }

  lemma SelectedExpired(policy: Policy, rows: seq<Row>)
    requires Candidates(policy, rows) != []
    ensures var c := Candidates(policy, rows);
            && c <= rows && |c| < |rows|
            && (forall i | 0 <= i < |c| :: Expired(policy, c[i]) && c[i].ev.event == c[0].ev.event)
            && (policy.eventFilter.Some? ==> c[0].ev.event == policy.eventFilter.value)
  {
    CandidatesAre(policy, rows);
  }

  lemma SelectedOk(cfg: Cfg, t: Tables, policy: Policy, stream: string, rows: seq<Row>)
    requires HistoryOk(cfg, t) && LiveOk(t) && LiveIdsOk(t) && BaseOk(t) && IsOrderBySeq(t, stream, rows)
    requires Candidates(policy, rows) != []
    ensures CandidatesOk(t, policy, stream, Candidates(policy, rows))
  {
    var c := Candidates(policy, rows);
    SelectedExpired(policy, rows);
    SelectedPlace(cfg, t, stream, rows, c);
    SelectedIds(t, stream, rows, c);
  }

  lemma SelectedPlace(cfg: Cfg, t: Tables, stream: string, rows: seq<Row>, c: seq<Row>)
    requires HistoryOk(cfg, t) && LiveOk(t) && BaseOk(t) && IsOrderBySeq(t, stream, rows)
    requires c != [] && c <= rows && |c| < |rows|
    ensures var h, b := History(t, stream), Base(t, stream);
            b + |c| < |h| && c == h[b..b + |c|] && c[0].seqNo == b + 1
  {
    LiveRowsAre(cfg, t, stream, rows);
    HistoryIsPlaced(cfg, t, stream);
    PrefixOfSlice(History(t, stream), Base(t, stream), c);
  }

  lemma SelectedIds(t: Tables, stream: string, rows: seq<Row>, c: seq<Row>)
    requires LiveIdsOk(t) && IsOrderBySeq(t, stream, rows) && c <= rows
    ensures DistinctIds(EventsOf(c))
  {
    forall i, j | 0 <= i < j < |c| ensures EventsOf(c)[i].id != EventsOf(c)[j].id {
      assert rows[i] in rows && rows[j] in rows && rows[i].seqNo < rows[j].seqNo;
    }
  }

  lemma PrefixOfSlice(h: seq<Row>, b: nat, c: seq<Row>)
    requires b <= |h| && c <= h[b..]
    ensures b + |c| <= |h| && c == h[b..b + |c|] && (c != [] ==> c[0] == h[b])
  {
  }

  lemma SelectKeeps(cfg: Cfg, s: Store, w: string, stream: string, rows: seq<Row>)
    requires Inv(cfg, s)
    requires At(s, w).Pruning? && At(s, w).phase.Between?
    requires IsOrderBySeq(s.t, stream, rows)
    requires Candidates(At(s, w).policy, rows) != []
    ensures Inv(cfg, Put(s, w, At(s, w).(stream := stream, candidates := Candidates(At(s, w).policy, rows), phase := Selected)))
  {
    var ss := At(s, w);
    Known(cfg, s, w);
    SelectedOk(cfg, s.t, ss.policy, stream, rows);
    QuietStep(cfg, s, w, ss.(stream := stream, candidates := Candidates(ss.policy, rows), phase := Selected), s.locks);
  }

  // ---------------------------------------------------------------------------
  // Archiving

  predicate HasMarker(archive: set<Marker>, r: Row) {
    exists m | m in archive :: m.id == r.ev.id
  }

  lemma {:induction false} MissingIs(archive: set<Marker>, c: seq<Row>)
    ensures forall r | r in Missing(archive, c) :: r in c
    ensures forall i | 0 <= i < |c| :: c[i] in Missing(archive, c) || HasMarker(archive, c[i])
  {
    if c == [] {
    } else {
      MissingIs(archive, c[1..]);
    }
  }

  lemma NoConflict(archive: set<Marker>, c: seq<Row>, i: nat)
    requires i < |c| && HasMarker(archive, c[i]) && !ArchiveConflict(archive, c)
    ensures MarkerOf(c[i]) in archive
  {
    var m :| m in archive && m.id == c[i].ev.id;
    assert m == MarkerOf(c[i]);
  }

  /** What is not missing has its own marker. */
  lemma MissingOrArchived(archive: set<Marker>, c: seq<Row>)
    requires !ArchiveConflict(archive, c)
    ensures forall i | 0 <= i < |Missing(archive, c)| :: Missing(archive, c)[i] in c
    ensures forall i | 0 <= i < |c| :: c[i] in Missing(archive, c) || MarkerOf(c[i]) in archive
  {
    MissingIs(archive, c);
    forall i | 0 <= i < |c| ensures c[i] in Missing(archive, c) || MarkerOf(c[i]) in archive {
      if HasMarker(archive, c[i]) {
        NoConflict(archive, c, i);
      }
    }
  }

  lemma PrunerFacts(cfg: Cfg, t: Tables, ss: Session)
    requires ss.Pruning? && !ss.phase.Between? && SessionOk(cfg, t, ss)
    ensures CandidatesOk(t, ss.policy, ss.stream, ss.candidates)
    ensures PhaseOk(t, ss.stream, ss.candidates, ss.phase)
    ensures Total(ss.perEvent, ss.total)
  {
  }

  /** A phase whose own condition holds fits a session that has its candidates. */
  lemma PhaseFits(cfg: Cfg, t: Tables, ss: Session, phase: Phase)
    requires ss.Pruning? && CandidatesOk(t, ss.policy, ss.stream, ss.candidates) && Total(ss.perEvent, ss.total)
    requires PhaseOk(t, ss.stream, ss.candidates, phase)
    ensures SessionOk(cfg, t, ss.(phase := phase))
  {
  }

  lemma CheckedOk(cfg: Cfg, t: Tables, ss: Session)
    requires ss.Pruning? && ss.phase.Selected? && SessionOk(cfg, t, ss)
    requires !ArchiveConflict(t.archive, ss.candidates)
    ensures SessionOk(cfg, t, Checked(t, ss))
  {
    MissingOrArchived(t.archive, ss.candidates);
    PrunerFacts(cfg, t, ss);
    PhaseFits(cfg, t, ss, Checked(t, ss).phase);
  }

  /** The pruner after it looked its candidates up in the archive. */
  function Checked(t: Tables, ss: Session): Session
    requires ss.Pruning?
  {
    var missing := Missing(t.archive, ss.candidates);
    ss.(phase := if missing == [] then Archived else ToArchive(missing))
  }

  lemma CheckArchiveKeeps(cfg: Cfg, s: Store, w: string)
    requires Inv(cfg, s)
    requires At(s, w).Pruning? && At(s, w).phase.Selected?
    requires !ArchiveConflict(s.t.archive, At(s, w).candidates)
    ensures Inv(cfg, Put(s, w, Checked(s.t, At(s, w))))
  {
    Known(cfg, s, w);
    CheckedOk(cfg, s.t, At(s, w));
    QuietStep(cfg, s, w, Checked(s.t, At(s, w)), s.locks);
  }

  lemma CandidateRows(cfg: Cfg, s: Store, w: string)
    requires Inv(cfg, s) && At(s, w).Pruning? && !At(s, w).phase.Between?
    ensures var ss := At(s, w);
            && CandidatesOk(s.t, ss.policy, ss.stream, ss.candidates)
            && PruneTo(s.t, ss.stream, ss.candidates)
            && DistinctIds(EventsOf(ss.candidates))
            && Placed(ss.stream, ss.candidates, ss.candidates[0].seqNo - 1)
            && (forall i | 0 <= i < |ss.candidates| :: IsRow(s.t, ss.candidates[i]))
  {
    var ss := At(s, w);
    Known(cfg, s, w);
    HistoryIsPlaced(cfg, s.t, ss.stream);
    CandidatesPlaced(s.t, ss.policy, ss.stream, ss.candidates);
  }

  lemma SessionsAfterArchive(cfg: Cfg, s: Store, rows: seq<Row>)
    requires forall v :: SessionOk(cfg, s.t, At(s, v))
    ensures forall v :: SessionOk(cfg, WithMarkers(s.t, rows), At(s, v))
  {
    forall v ensures SessionOk(cfg, WithMarkers(s.t, rows), At(s, v)) {
      SessionAfterArchive(cfg, s.t, rows, At(s, v));
    }
  }

  lemma NewTables(cfg: Cfg, s: Store, t': Tables)
    requires Inv(cfg, s) && TablesOk(cfg, t')
    requires forall v :: SessionOk(cfg, t', At(s, v))
    ensures Inv(cfg, s.(t := t'))
  {
    var s' := s.(t := t');
    assert forall v :: At(s', v) == At(s, v);
  }

  lemma MarkersThere(t: Tables, rows: seq<Row>)
    ensures forall i | 0 <= i < |rows| :: MarkerOf(rows[i]) in WithMarkers(t, rows).archive
  {
  }

  lemma AllNowArchived(archive: set<Marker>, c: seq<Row>, missing: seq<Row>)
    requires forall i | 0 <= i < |c| :: c[i] in missing || MarkerOf(c[i]) in archive
    requires forall i | 0 <= i < |missing| :: MarkerOf(missing[i]) in archive
    ensures forall i | 0 <= i < |c| :: MarkerOf(c[i]) in archive
  {
    forall i | 0 <= i < |c| ensures MarkerOf(c[i]) in archive {
      if c[i] in missing {
        var j :| 0 <= j < |missing| && missing[j] == c[i];
        assert MarkerOf(missing[j]) in archive;
      }
    }
  }

  lemma MissingIds(c: seq<Row>, missing: seq<Row>)
    requires DistinctIds(EventsOf(c)) && forall i | 0 <= i < |missing| :: missing[i] in c
    ensures OnePerId(missing)
  {
    forall i, j | 0 <= i < |missing| && 0 <= j < |missing| && missing[i].ev.id == missing[j].ev.id
      ensures missing[i] == missing[j]
    {
      DistinctRows(c, missing[i], missing[j]);
    }
  }

  lemma ArchiveKeeps(cfg: Cfg, s: Store, w: string)
    requires Inv(cfg, s)
    requires At(s, w).Pruning? && At(s, w).phase.ToArchive? && !ArchiveClash(s.t.archive, At(s, w).phase.missing)
    ensures var ss := At(s, w);
            Inv(cfg, Put(s, w, ss.(phase := Archived)).(t := WithMarkers(s.t, ss.phase.missing)))
  {
    var ss := At(s, w);
    var missing := ss.phase.missing;
    var s1 := s.(t := WithMarkers(s.t, missing));
    Known(cfg, s, w);
    CandidateRows(cfg, s, w);
    forall i | 0 <= i < |missing| ensures IsRow(s.t, missing[i]) {
      assert missing[i] in ss.candidates;
    }
    MissingIds(ss.candidates, missing);
    TablesAfterArchive(cfg, s.t, missing);
    SessionsAfterArchive(cfg, s, missing);
    NewTables(cfg, s, s1.t);
    assert At(s1, w) == ss;
    Known(cfg, s1, w);
    MarkersThere(s.t, missing);
    AllNowArchived(s1.t.archive, ss.candidates, missing);
    QuietStep(cfg, s1, w, ss.(phase := Archived), s.locks);
  }

  // ---------------------------------------------------------------------------
  // Deleting

  lemma IsCandidate(t: Tables, stream: string, a: nat, c: seq<Row>, r: Row)
    requires IsRow(t, r) && r.ev.stream == stream
    requires a + |c| <= |History(t, stream)| && c == History(t, stream)[a..a + |c|]
    requires a < r.seqNo <= a + |c|
    ensures HasId(c, r.ev.id)
  {
    assert c[r.seqNo - 1 - a] == r;
  }

  lemma BelowDoomed(t: Tables, policy: Policy, stream: string, c: seq<Row>, r: Row)
    requires IsRow(t, r) && r.ev.stream == stream && Base(t, stream) < r.seqNo
    requires CandidatesOk(t, policy, stream, c)
    requires r.seqNo <= c[0].seqNo - 1 + |c|
    ensures HasId(c, r.ev.id)
  {
    IsCandidate(t, stream, c[0].seqNo - 1, c, r);
  }

  lemma LiveBelowHasId(t: Tables, policy: Policy, stream: string, c: seq<Row>, r: Row)
    requires LiveOk(t) && CandidatesOk(t, policy, stream, c) && Placed(stream, c, c[0].seqNo - 1)
    requires r in t.live && r.ev.stream == stream && r.seqNo <= Last(c).seqNo
    ensures HasId(c, r.ev.id)
  {
    assert IsRow(t, r) && Base(t, stream) < r.seqNo;
    BelowDoomed(t, policy, stream, c, r);
  }

  lemma DoomedUpTo(t: Tables, policy: Policy, stream: string, c: seq<Row>)
    requires LiveOk(t) && CandidatesOk(t, policy, stream, c) && Placed(stream, c, c[0].seqNo - 1)
    ensures DoomsUpTo(t, stream, Last(c).seqNo, set r | r in t.live && HasId(c, r.ev.id))
  {
    var n := Last(c).seqNo;
    forall r | r in t.live && r.ev.stream == stream && r.seqNo <= n ensures HasId(c, r.ev.id) {
      LiveBelowHasId(t, policy, stream, c, r);
    }
  }

  lemma DeletePairs(cfg: Cfg, s: Store, w: string, v: string, doomed: set<Row>)
    requires v != w && LockOk(cfg, s.locks, w, At(s, w)) && LockOk(cfg, s.locks, v, At(s, v))
    requires At(s, w).Pruning? && At(s, w).phase.LockedForDelete?
    requires HasDeleted(At(s, v)) ==> At(s, v).phase.doomed !! doomed
    ensures var ss' := At(s, w).(phase := Deleted(doomed)); PairOk(ss', At(s, v)) && PairOk(At(s, v), ss')
  {
  }

  lemma DeleteKeeps(cfg: Cfg, s: Store, w: string)
    requires Inv(cfg, s)
    requires At(s, w).Pruning? && At(s, w).phase.LockedForDelete?
    requires var doomed := set r | r in s.t.live && HasId(At(s, w).candidates, r.ev.id);
             forall v | v != w && HasDeleted(At(s, v)) :: At(s, v).phase.doomed !! doomed
    ensures var ss := At(s, w);
            Inv(cfg, Put(s, w, ss.(phase := Deleted(set r | r in s.t.live && HasId(ss.candidates, r.ev.id)))))
  {
    var ss := At(s, w);
    var c := ss.candidates;
    var doomed := set r | r in s.t.live && HasId(c, r.ev.id);
    Known(cfg, s, w);
    CandidateRows(cfg, s, w);
    DoomedUpTo(s.t, ss.policy, ss.stream, c);
    var ss' := ss.(phase := Deleted(doomed));
    forall v | v != w ensures PairOk(ss', At(s, v)) && PairOk(At(s, v), ss') {
      Known(cfg, s, v);
      DeletePairs(cfg, s, w, v, doomed);
    }
    LocalStep(cfg, s, w, ss', s.locks);
  }

  // ---------------------------------------------------------------------------
  // Counting

  lemma {:induction false} SumWithout(m: map<string, nat>, k: string)
    requires k in m
    ensures SumOf(m) == m[k] + SumOf(m - {k})
    decreases |m|
  {
    var p := Pick(m);
    assert |m - {p}| < |m| by {
      assert (m - {p}).Keys == m.Keys - {p};
    }
    if p != k {
      SumWithout(m - {p}, k);
      assert m - {p} - {k} == m - {k} - {p};
      assert |m - {k}| < |m| by {
        assert (m - {k}).Keys == m.Keys - {k};
      }
      SumWithout(m - {k}, p);
    }
  }

  lemma CountedSum(m: map<string, nat>, event: string, count: nat)
    ensures SumOf(Counted(m, event, count)) == SumOf(m) + count
  {
    var m' := Counted(m, event, count);
    SumWithout(m', event);
    assert m' - {event} == m - {event};
    if event in m {
      SumWithout(m, event);
    } else {
      assert m - {event} == m;
    }
  }

  lemma SessionsAfterPrune(cfg: Cfg, s: Store, w: string)
    requires forall v :: SessionOk(cfg, s.t, At(s, v))
    requires forall v | v != w :: PairOk(At(s, v), At(s, w))
    requires HasDeleted(At(s, w)) && PruneTo(s.t, At(s, w).stream, At(s, w).candidates)
    ensures var ss := At(s, w);
            forall v | v != w :: SessionOk(cfg, AfterPrune(s.t, ss.stream, ss.candidates, ss.phase.doomed), At(s, v))
  {
    var ss := At(s, w);
    forall v | v != w
      ensures SessionOk(cfg, AfterPrune(s.t, ss.stream, ss.candidates, ss.phase.doomed), At(s, v))
    {
      assert SessionOk(cfg, s.t, At(s, v)) && PairOk(At(s, v), ss);
      SessionAfterPrune(cfg, s.t, ss.stream, ss.candidates, ss.phase.doomed, At(s, v));
    }
  }

  /** The pruner after its commit. */
  function Pruned(ss: Session): Session
    requires ss.Pruning? && ss.candidates != []
  {
    ss.(phase := Between, total := ss.total + |ss.candidates|,
        perEvent := Counted(ss.perEvent, ss.candidates[0].ev.event, |ss.candidates|))
  }

  lemma PrunedOk(cfg: Cfg, t: Tables, t': Tables, ss: Session)
    requires SessionOk(cfg, t, ss) && ss.Pruning? && ss.candidates != []
    ensures SessionOk(cfg, t', Pruned(ss))
  {
    CountedSum(ss.perEvent, ss.candidates[0].ev.event, |ss.candidates|);
  }

  lemma CommitPruneKeeps(cfg: Cfg, s: Store, w: string)
    requires Inv(cfg, s) && HasDeleted(At(s, w)) && At(s, w).candidates != [] && Tight(At(s, w))
    ensures var ss := At(s, w);
            Inv(cfg, Store(
              AfterPrune(s.t, ss.stream, ss.candidates, ss.phase.doomed), Unlock(s.locks, w), s.sessions[w := Pruned(ss)]))
  {
    var ss := At(s, w);
    var t' := AfterPrune(s.t, ss.stream, ss.candidates, ss.phase.doomed);
    Known(cfg, s, w);
    CandidateRows(cfg, s, w);
    TablesAfterPrune(cfg, s.t, ss.policy, ss.stream, ss.candidates, ss.phase.doomed);
    SessionsAfterPrune(cfg, s, w);
    PrunedOk(cfg, s.t, t', ss);
    TablesStep(cfg, s, w, t', Pruned(ss));
  }

  // ---------------------------------------------------------------------------
  // Every step

  lemma WriteStepKeeps(cfg: Cfg, s: Store, w: string, step: Step, s': Store)
    requires Inv(cfg, s) && Next(cfg, s, w, step, s')
    requires step.StartWrite? || step.TakeLock? || step.ReadHead? || step.Insert? || step.Commit? || step.Finish?
    ensures Inv(cfg, s')
  {
    var ss := At(s, w);
    Known(cfg, s, w);
    AbortedKeeps(cfg, s, w);
    match step
    case StartWrite(batch, existing) =>
      if batch == [] {
        QuietStep(cfg, s, w, Returned([], []), s.locks);
      } else if PlanAll(cfg.fp, existing, batch).Some? {
        StartWriteKeeps(cfg, s, w, batch, existing);
      }
    case TakeLock =>
      QuietStep(cfg, s, w, ss.(tx := Locked), s.locks[cfg.lockKey(ss.todo[0].name) := w]);
    case ReadHead(head) =>
      match ChainFrom(cfg.hash, ss.todo[0].items, HeadSeq(head), HeadHash(head)) {
        case None =>
        case Some(rows) => ReadHeadKeeps(cfg, s, w, head, rows);
      }
    case Insert =>
      if !InTable(s.t.live, ss.tx.rows) {
        InsertKeeps(cfg, s, w);
      }
    case Commit =>
      CommitKeeps(cfg, s, w);
    case Finish =>
      FinishKeeps(cfg, s, w);
  }

  lemma ArchiveStepKeeps(cfg: Cfg, s: Store, w: string, step: Step, s': Store)
    requires Inv(cfg, s) && Next(cfg, s, w, step, s')
    requires step.SelectRows? || step.CheckArchive? || step.Archive?
    ensures Inv(cfg, s')
  {
    var ss := At(s, w);
    AbortedKeeps(cfg, s, w);
    match step
    case SelectRows(stream, rows) =>
      if Candidates(ss.policy, rows) != [] {
        SelectKeeps(cfg, s, w, stream, rows);
      }
    case CheckArchive =>
      if !ArchiveConflict(s.t.archive, ss.candidates) {
        CheckArchiveKeeps(cfg, s, w);
      }
    case Archive =>
      if !ArchiveClash(s.t.archive, ss.phase.missing) {
        ArchiveKeeps(cfg, s, w);
      }
  }

  lemma FreeLockTaken(locks: map<string, string>, locks': map<string, string>, key: string, w: string)
    requires key !in locks && locks' == locks[key := w]
    ensures forall v | v != w :: KeepsLocks(locks, locks', v)
  {
  }

  lemma LockedIsOk(cfg: Cfg, t: Tables, ss: Session)
    requires ss.Pruning? && ss.phase.Archived? && SessionOk(cfg, t, ss)
    ensures SessionOk(cfg, t, ss.(phase := LockedForDelete))
  {
    PrunerFacts(cfg, t, ss);
    PhaseFits(cfg, t, ss, LockedForDelete);
  }

  lemma PruneLockKeeps(cfg: Cfg, s: Store, w: string, locks': map<string, string>)
    requires Inv(cfg, s) && At(s, w).Pruning? && At(s, w).phase.Archived?
    requires cfg.lockKey(At(s, w).stream) !in s.locks && locks' == s.locks[cfg.lockKey(At(s, w).stream) := w]
    ensures Inv(cfg, Store(s.t, locks', s.sessions[w := At(s, w).(phase := LockedForDelete)]))
  {
    Known(cfg, s, w);
    LockedIsOk(cfg, s.t, At(s, w));
    FreeLockTaken(s.locks, locks', cfg.lockKey(At(s, w).stream), w);
    QuietStep(cfg, s, w, At(s, w).(phase := LockedForDelete), locks');
  }

  lemma DeleteStepKeeps(cfg: Cfg, s: Store, w: string, step: Step, s': Store)
    requires Inv(cfg, s) && Next(cfg, s, w, step, s') && TightStep(s, w, step)
    requires step.TakePruneLock? || step.Delete? || step.CommitPrune?
    ensures Inv(cfg, s')
  {
    match step
    case TakePruneLock =>
      PruneLockKeeps(cfg, s, w, s.locks[cfg.lockKey(At(s, w).stream) := w]);
    case Delete =>
      AbortedKeeps(cfg, s, w);
      if !(exists c | c in s.t.checkpoints :: c.stream == At(s, w).stream && c.seqNo == Last(At(s, w).candidates).seqNo) {
        DeleteKeeps(cfg, s, w);
      }
    case CommitPrune =>
      CommitPruneKeeps(cfg, s, w);
  }

  lemma OtherStepKeeps(cfg: Cfg, s: Store, w: string, step: Step, s': Store)
    requires Inv(cfg, s) && Next(cfg, s, w, step, s')
    requires step.Release? || step.Reset? || step.Abort? || step.StartPrune? || step.EndPrune?
    ensures Inv(cfg, s')
  {
    match step
    case Release => LocalRelease(cfg, s, w);
    case Reset => QuietStep(cfg, s, w, Idle, s.locks);
    case Abort => AbortedKeeps(cfg, s, w);
    case StartPrune(policy) => QuietStep(cfg, s, w, Pruning(policy, "", [], Between, 0, map[]), s.locks);
    case EndPrune => QuietStep(cfg, s, w, Idle, s.locks);
  }

  /** Every step keeps the invariant, whichever session takes it, unless it commits a prune that
      removes a row it did not select. */
  lemma StepKeeps(cfg: Cfg, s: Store, w: string, step: Step, s': Store)
    requires Inv(cfg, s) && Next(cfg, s, w, step, s') && TightStep(s, w, step)
    ensures Inv(cfg, s')
  {
    if step.Release? || step.Reset? || step.Abort? || step.StartPrune? || step.EndPrune? {
      OtherStepKeeps(cfg, s, w, step, s');
    } else if step.StartWrite? || step.TakeLock? || step.ReadHead? || step.Insert? || step.Commit? || step.Finish? {
      WriteStepKeeps(cfg, s, w, step, s');
    } else if step.SelectRows? || step.CheckArchive? || step.Archive? {
      ArchiveStepKeeps(cfg, s, w, step, s');
    } else {
      DeleteStepKeeps(cfg, s, w, step, s');
    }
  }

  lemma LocalRelease(cfg: Cfg, s: Store, w: string)
    requires Inv(cfg, s) && (HasInserted(At(s, w)) || HasDeleted(At(s, w)))
    ensures Inv(cfg, s.(locks := Unlock(s.locks, w)))
  {
    var s' := s.(locks := Unlock(s.locks, w));
    assert forall v :: At(s', v) == At(s, v);
    forall v ensures LockOk(cfg, s'.locks, v, At(s', v)) {
      assert LockOk(cfg, s.locks, v, At(s, v));
    }
    forall v, x | v != x ensures PairOk(At(s', v), At(s', x)) {
      assert PairOk(At(s, v), At(s, x));
    }
  }

  lemma EmptyOk(cfg: Cfg)
    ensures Inv(cfg, EMPTY)
  {
  }

  /** Every state of every run in which prunes remove only what they selected satisfies the
      invariant. */
  lemma {:induction false} RunKeeps(cfg: Cfg, run: seq<Store>, i: nat)
    requires IsTightRun(cfg, run) && i < |run|
    ensures Inv(cfg, run[i])
  {
    if i == 0 {
      EmptyOk(cfg);
    } else {
      RunKeeps(cfg, run, i - 1);
      assert CanStepTightly(cfg, run[i - 1], run[i - 1 + 1]);
      var w, step :| Next(cfg, run[i - 1], w, step, run[i]) && TightStep(run[i - 1], w, step);
      StepKeeps(cfg, run[i - 1], w, step, run[i]);
    }
  }
}
