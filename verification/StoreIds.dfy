/** Ids that are never used twice: what holds of the store in runs in which no pruned event is
    delivered again. */
module StoreIds {
  import opened AuditTypes
  import opened HashChain
  import opened WritePlan
  import opened Retention
  import opened AuditStore
  import opened StoreInvariant
  import opened StoreTables
  import opened StoreSessions
  import opened StoreProof
  import opened StorePrune

  /** Ids that are not live are new if and only if they are not in the archive. */
  lemma NewIdsIff(t: Tables, rows: seq<Row>)
    requires LiveOk(t) && ArchiveOk(t) && NotLive(t, rows)
    ensures NewIds(t, rows) <==> Unarchived(t, rows)
  {
    if Unarchived(t, rows) {
      forall i, r | 0 <= i < |rows| && IsRow(t, r) ensures r.ev.id != rows[i].ev.id {
        if r !in t.live {
          assert MarkerOf(r) in t.archive;
        }
      }
    }
    if NewIds(t, rows) {
      forall i, m | 0 <= i < |rows| && m in t.archive ensures m.id != rows[i].ev.id {
        assert IsMarker(t, m);
        assert IsRow(t, History(t, m.stream)[m.seqNo - 1]);
      }
    }
  }

  lemma IdsAfterWrite(t: Tables, stream: string, rows: seq<Row>)
    requires IdsOk(t) && Placed(stream, rows, |History(t, stream)|)
    requires NewIds(t, rows) && DistinctIds(EventsOf(rows))
    ensures IdsOk(AfterWrite(t, stream, rows))
  {
    var t' := AfterWrite(t, stream, rows);
    forall r, r' | IsRow(t', r) && IsRow(t', r') && r.ev.id == r'.ev.id ensures r == r' {
      RowsAfterWrite(t, stream, rows, r);
      RowsAfterWrite(t, stream, rows, r');
      OneRowPerId(t, rows, r, r');
    }
  }

  lemma NewIdDiffers(t: Tables, rows: seq<Row>, r: Row, known: Row)
    requires NewIds(t, rows) && r in rows && IsRow(t, known)
    ensures r.ev.id != known.ev.id
  {
    var i :| 0 <= i < |rows| && rows[i] == r;
  }

  lemma OneRowPerId(t: Tables, rows: seq<Row>, r: Row, r': Row)
    requires IdsOk(t) && NewIds(t, rows) && DistinctIds(EventsOf(rows))
    requires (IsRow(t, r) || r in rows) && (IsRow(t, r') || r' in rows) && r.ev.id == r'.ev.id
    ensures r == r'
  {
    if r in rows && r' in rows {
      DistinctRows(rows, r, r');
    } else if r in rows {
      NewIdDiffers(t, rows, r, r');
    } else if r' in rows {
      NewIdDiffers(t, rows, r', r);
    }
  }

  lemma IdsSameHistory(t: Tables, t': Tables)
    requires IdsOk(t) && t'.history == t.history
    ensures IdsOk(t')
  {
    assert forall r :: IsRow(t', r) == IsRow(t, r);
  }

  /** Where ids are unique, a delete by the candidates' ids takes candidates only. */
  lemma DeleteIsTight(t: Tables, c: seq<Row>, r: Row)
    requires IdsOk(t) && LiveOk(t) && r in t.live && HasId(c, r.ev.id)
    requires forall i | 0 <= i < |c| :: IsRow(t, c[i])
    ensures r in c
  {
    var i :| 0 <= i < |c| && c[i].ev.id == r.ev.id;
    assert IsRow(t, r) && IsRow(t, c[i]);
  }

  lemma CommitKeepsIds(cfg: Cfg, s: Store, w: string, s': Store)
    requires FullInv(cfg, s) && Next(cfg, s, w, Commit, s') && FreshStep(s, w, Commit)
    ensures IdInv(s')
  {
    var ss := At(s, w);
    Known(cfg, s, w);
    InsertedChainsOn(cfg, s.t, ss);
    NewIdsIff(s.t, ss.tx.rows);
    IdsAfterWrite(s.t, ss.todo[0].name, ss.tx.rows);
    OthersTight(cfg, s, w, Commit, s');
  }

  /** A session's delete changes with its own steps only. */
  lemma OthersTight(cfg: Cfg, s: Store, w: string, step: Step, s': Store)
    requires (forall v :: Tight(At(s, v))) && Next(cfg, s, w, step, s') && !step.Delete?
    ensures forall v :: Tight(At(s', v))
  {
    forall v ensures Tight(At(s', v)) {
      assert Tight(At(s, v));
    }
  }

  lemma DeleteKeepsIds(cfg: Cfg, s: Store, w: string, s': Store)
    requires FullInv(cfg, s) && Next(cfg, s, w, Delete, s')
    ensures IdInv(s')
  {
    var c := At(s, w).candidates;
    CandidateRows(cfg, s, w);
    forall r | r in s.t.live && HasId(c, r.ev.id) ensures r in c {
      DeleteIsTight(s.t, c, r);
    }
    DeletesOnly(cfg, s, w, s');
    IdsSameHistory(s.t, s'.t);
  }

  lemma DeletesOnly(cfg: Cfg, s: Store, w: string, s': Store)
    requires (forall v :: Tight(At(s, v))) && Next(cfg, s, w, Delete, s')
    requires forall r | r in s.t.live && HasId(At(s, w).candidates, r.ev.id) :: r in At(s, w).candidates
    ensures s'.t == s.t && forall v :: Tight(At(s', v))
  {
    forall v ensures Tight(At(s', v)) {
      assert Tight(At(s, v));
    }
  }

  /** Every step of which no committed id is archived keeps ids unique and removes, when it commits a
      prune, only rows that were selected. */
  lemma FreshStepKeeps(cfg: Cfg, s: Store, w: string, step: Step, s': Store)
    requires FullInv(cfg, s) && Next(cfg, s, w, step, s') && FreshStep(s, w, step)
    ensures TightStep(s, w, step) && FullInv(cfg, s')
  {
    StepKeeps(cfg, s, w, step, s');
    if step.Commit? {
      CommitKeepsIds(cfg, s, w, s');
    } else if step.Delete? {
      DeleteKeepsIds(cfg, s, w, s');
    } else {
      OthersTight(cfg, s, w, step, s');
      SameHistory(cfg, s, w, step, s');
      IdsSameHistory(s.t, s'.t);
    }
  }

  lemma SameHistory(cfg: Cfg, s: Store, w: string, step: Step, s': Store)
    requires Next(cfg, s, w, step, s') && !step.Commit?
    ensures s'.t.history == s.t.history
  {
  }

  /** Every state of every run in which no pruned event is delivered again has unique ids. */
  lemma {:induction false} FreshRunKeeps(cfg: Cfg, run: seq<Store>, i: nat)
    requires IsRun(cfg, run) && i < |run|
    ensures FullInv(cfg, run[i])
  {
    if i == 0 {
      EmptyOk(cfg);
    } else {
      FreshRunKeeps(cfg, run, i - 1);
      assert CanStep(cfg, run[i - 1], run[i - 1 + 1]);
      var w, step :| Next(cfg, run[i - 1], w, step, run[i]) && FreshStep(run[i - 1], w, step);
      FreshStepKeeps(cfg, run[i - 1], w, step, run[i]);
    }
  }

  /** So every such run is one in which prunes remove only what they selected. */
  lemma FreshRunIsTight(cfg: Cfg, run: seq<Store>)
    requires IsRun(cfg, run)
    ensures IsTightRun(cfg, run)
  {
    forall i | 0 <= i < |run| - 1 ensures CanStepTightly(cfg, run[i], run[i + 1]) {
      FreshRunKeeps(cfg, run, i);
      assert CanStep(cfg, run[i], run[i + 1]);
      var w, step :| Next(cfg, run[i], w, step, run[i + 1]) && FreshStep(run[i], w, step);
      FreshStepKeeps(cfg, run[i], w, step, run[i + 1]);
    }
  }

  // ---------------------------------------------------------------------------
  // When ids are new

  /** An insert that succeeds, in any run, has ids that were never committed if and only if the
      archive has no marker with one of them. */
  lemma InsertIsNewIff(cfg: Cfg, run: seq<Store>, i: nat, w: string)
    requires IsTightRun(cfg, run) && i < |run| && At(run[i], w).Writing? && At(run[i], w).tx.HeadRead?
    requires !InTable(run[i].t.live, At(run[i], w).tx.rows)
    ensures NewIds(run[i].t, At(run[i], w).tx.rows) <==> Unarchived(run[i].t, At(run[i], w).tx.rows)
  {
    RunKeeps(cfg, run, i);
    InsertedIsNotLive(run[i].t, At(run[i], w).tx.rows);
    NewIdsIff(run[i].t, At(run[i], w).tx.rows);
  }

  /** Session `w` commits what it inserted. */
  ghost predicate Commits(cfg: Cfg, s: Store, w: string, s': Store) {
    HasInserted(At(s, w)) && Next(cfg, s, w, Commit, s')
  }

  /** What is committed in this step has no id of an archived row. */
  ghost predicate FreshCommit(cfg: Cfg, s: Store, s': Store) {
    forall w | Commits(cfg, s, w, s') :: Unarchived(s.t, At(s, w).tx.rows)
  }

  lemma FreshCommitIsFresh(cfg: Cfg, s: Store, s': Store)
    requires CanStepAtAll(cfg, s, s') && FreshCommit(cfg, s, s')
    ensures CanStep(cfg, s, s')
  {
    var w, step :| Next(cfg, s, w, step, s');
    if step.Commit? && HasInserted(At(s, w)) {
      assert Commits(cfg, s, w, s');
    }
    assert FreshStep(s, w, step);
  }

  lemma KnownIdTwice(t: Tables, stream: string, rows: seq<Row>, k: nat, r: Row)
    requires Placed(stream, rows, |History(t, stream)|) && k < |rows|
    requires IsRow(t, r) && r.ev.id == rows[k].ev.id
    ensures !IdsOk(AfterWrite(t, stream, rows))
  {
    var t' := AfterWrite(t, stream, rows);
    ExtendsByWrite(t, stream, rows);
    RowKept(t, t', r);
    RowsAfterWrite(t, stream, rows, rows[k]);
    assert IsRow(t', rows[k]) && r != rows[k];
  }

  /** Committing an archived id stores that id a second time. */
  lemma ArchivedIdTwice(cfg: Cfg, t: Tables, ss: Session)
    requires LiveOk(t) && ArchiveOk(t) && SessionOk(cfg, t, ss) && HasInserted(ss)
    requires !Unarchived(t, ss.tx.rows)
    ensures !IdsOk(AfterWrite(t, ss.todo[0].name, ss.tx.rows))
  {
    var rows := ss.tx.rows;
    InsertedChainsOn(cfg, t, ss);
    NewIdsIff(t, rows);
    var k, r :| 0 <= k < |rows| && IsRow(t, r) && r.ev.id == rows[k].ev.id;
    KnownIdTwice(t, ss.todo[0].name, rows, k, r);
  }

  lemma CommitIs(cfg: Cfg, s: Store, w: string, s': Store)
    requires Commits(cfg, s, w, s')
    ensures At(s, w).todo != [] && s'.t == AfterWrite(s.t, At(s, w).todo[0].name, At(s, w).tx.rows)
  {
  }

  lemma UniqueIdsMakeFresh(cfg: Cfg, s: Store, s': Store)
    requires Inv(cfg, s) && IdsOk(s'.t)
    ensures FreshCommit(cfg, s, s')
  {
    forall w | Commits(cfg, s, w, s') ensures Unarchived(s.t, At(s, w).tx.rows) {
      CommitIs(cfg, s, w, s');
      Known(cfg, s, w);
      if !Unarchived(s.t, At(s, w).tx.rows) {
        ArchivedIdTwice(cfg, s.t, At(s, w));
      }
    }
  }

  lemma {:induction false} UniqueIdsMakeRuns(cfg: Cfg, run: seq<Store>, i: nat)
    requires IsAnyRun(cfg, run) && i < |run|
    requires forall j | 0 <= j < |run| :: IdsOk(run[j].t)
    ensures FullInv(cfg, run[i])
    ensures i < |run| - 1 ==> FreshCommit(cfg, run[i], run[i + 1])
  {
    if i == 0 {
      EmptyOk(cfg);
    } else {
      UniqueIdsMakeRuns(cfg, run, i - 1);
      assert CanStepAtAll(cfg, run[i - 1], run[i - 1 + 1]);
      FreshCommitIsFresh(cfg, run[i - 1], run[i]);
      var w, step :| Next(cfg, run[i - 1], w, step, run[i]) && FreshStep(run[i - 1], w, step);
      FreshStepKeeps(cfg, run[i - 1], w, step, run[i]);
    }
    if i < |run| - 1 {
      assert IdsOk(run[i + 1].t);
      UniqueIdsMakeFresh(cfg, run[i], run[i + 1]);
    }
  }

  /** In a run with no assumption about ids, no id is ever committed twice if and only if no commit
      has an id that is in the archive at that moment. */
  lemma IdsAreUniqueIff(cfg: Cfg, run: seq<Store>)
    requires IsAnyRun(cfg, run)
    ensures (forall j | 0 <= j < |run| :: IdsOk(run[j].t))
       <==> (forall i | 0 <= i < |run| - 1 :: FreshCommit(cfg, run[i], run[i + 1]))
  {
    if forall j | 0 <= j < |run| :: IdsOk(run[j].t) {
      forall i | 0 <= i < |run| - 1 ensures FreshCommit(cfg, run[i], run[i + 1]) {
        UniqueIdsMakeRuns(cfg, run, i);
      }
    }
    if forall i | 0 <= i < |run| - 1 :: FreshCommit(cfg, run[i], run[i + 1]) {
      forall i | 0 <= i < |run| - 1 ensures CanStep(cfg, run[i], run[i + 1]) {
        assert CanStepAtAll(cfg, run[i], run[i + 1]);
        FreshCommitIsFresh(cfg, run[i], run[i + 1]);
      }
      forall j | 0 <= j < |run| ensures IdsOk(run[j].t) {
        FreshRunKeeps(cfg, run, j);
      }
    }
  }

  // ---------------------------------------------------------------------------
  // When the live rows stay a suffix

  /** Session `w` commits what it deleted. */
  ghost predicate CommitsPrune(cfg: Cfg, s: Store, w: string, s': Store) {
    HasDeleted(At(s, w)) && Next(cfg, s, w, CommitPrune, s')
  }

  /** A prune committed in this step removes only rows it selected. */
  ghost predicate TightPrune(cfg: Cfg, s: Store, s': Store) {
    forall w | CommitsPrune(cfg, s, w, s') :: Tight(At(s, w))
  }

  lemma TightPruneIsTight(cfg: Cfg, s: Store, s': Store)
    requires CanStepAtAll(cfg, s, s') && TightPrune(cfg, s, s')
    ensures CanStepTightly(cfg, s, s')
  {
    var w, step :| Next(cfg, s, w, step, s');
    if step.CommitPrune? {
      assert CommitsPrune(cfg, s, w, s');
    }
    assert TightStep(s, w, step);
  }

  lemma BelowIsCandidate(t: Tables, policy: Policy, stream: string, c: seq<Row>, r: Row)
    requires CandidatesOk(t, policy, stream, c) && Placed(stream, c, c[0].seqNo - 1)
    requires IsRow(t, r) && r.ev.stream == stream && Base(t, stream) < r.seqNo <= Last(c).seqNo
    ensures r in c
  {
    assert c[r.seqNo - c[0].seqNo] == r;
  }

  lemma DoomedIsLost(t: Tables, stream: string, c: seq<Row>, doomed: set<Row>, r: Row)
    requires c != [] && IsRow(t, r) && r.seqNo > Base(t, r.ev.stream) && r in doomed
    requires r.ev.stream == stream ==> r.seqNo > Last(c).seqNo
    ensures !LiveOk(AfterPrune(t, stream, c, doomed))
  {
    var t' := AfterPrune(t, stream, c, doomed);
    assert IsRow(t', r) && r.seqNo > Base(t', r.ev.stream) && r !in t'.live;
  }

  /** A doomed row that was not selected is above everything pruned, and is lost. */
  lemma LooseIsLost(t: Tables, policy: Policy, stream: string, c: seq<Row>, doomed: set<Row>, r: Row)
    requires LiveOk(t) && CandidatesOk(t, policy, stream, c) && Placed(stream, c, c[0].seqNo - 1)
    requires r in doomed && r in t.live && r !in c
    ensures !LiveOk(AfterPrune(t, stream, c, doomed))
  {
    assert IsRow(t, r) && r.seqNo > Base(t, r.ev.stream);
    if r.ev.stream == stream && r.seqNo <= Last(c).seqNo {
      BelowIsCandidate(t, policy, stream, c, r);
    } else {
      DoomedIsLost(t, stream, c, doomed, r);
    }
  }

  lemma DoomedAreLive(cfg: Cfg, t: Tables, ss: Session)
    requires SessionOk(cfg, t, ss) && HasDeleted(ss)
    ensures forall r | r in ss.phase.doomed :: r in t.live
  {
  }

  lemma PruneIs(cfg: Cfg, s: Store, w: string, s': Store)
    requires CommitsPrune(cfg, s, w, s')
    ensures var ss := At(s, w); ss.candidates != [] && s'.t == AfterPrune(s.t, ss.stream, ss.candidates, ss.phase.doomed)
  {
  }

  lemma LiveMakesTight(cfg: Cfg, s: Store, s': Store)
    requires Inv(cfg, s) && LiveOk(s'.t)
    ensures TightPrune(cfg, s, s')
  {
    forall w | CommitsPrune(cfg, s, w, s') ensures Tight(At(s, w)) {
      var ss := At(s, w);
      PruneIs(cfg, s, w, s');
      Known(cfg, s, w);
      CandidateRows(cfg, s, w);
      DoomedAreLive(cfg, s.t, ss);
      forall r | r in ss.phase.doomed ensures r in ss.candidates {
        if r !in ss.candidates {
          LooseIsLost(s.t, ss.policy, ss.stream, ss.candidates, ss.phase.doomed, r);
        }
      }
    }
  }

  lemma {:induction false} LiveRunIsTight(cfg: Cfg, run: seq<Store>, i: nat)
    requires IsAnyRun(cfg, run) && i < |run| && forall j | 0 <= j < |run| :: LiveOk(run[j].t)
    ensures Inv(cfg, run[i])
    ensures i < |run| - 1 ==> TightPrune(cfg, run[i], run[i + 1])
  {
    if i == 0 {
      EmptyOk(cfg);
    } else {
      LiveRunIsTight(cfg, run, i - 1);
      assert CanStepAtAll(cfg, run[i - 1], run[i - 1 + 1]);
      TightPruneIsTight(cfg, run[i - 1], run[i]);
      var w, step :| Next(cfg, run[i - 1], w, step, run[i]) && TightStep(run[i - 1], w, step);
      StepKeeps(cfg, run[i - 1], w, step, run[i]);
    }
    if i < |run| - 1 {
      assert LiveOk(run[i + 1].t);
      LiveMakesTight(cfg, run[i], run[i + 1]);
    }
  }

  /** In a run with no assumption at all, the live rows of every stream are, in every state, exactly
      its rows above the pruned ones, if and only if no prune that commits has deleted a row it did
      not select. Then the run is one of those of which every stream is a chain, every number is
      given out once and resolves, and everything live verifies. */
  lemma LiveRowsAreASuffixIff(cfg: Cfg, run: seq<Store>)
    requires IsAnyRun(cfg, run)
    ensures (forall j | 0 <= j < |run| :: LiveOk(run[j].t))
       <==> (forall i | 0 <= i < |run| - 1 :: TightPrune(cfg, run[i], run[i + 1]))
    ensures (forall j | 0 <= j < |run| :: LiveOk(run[j].t)) ==> IsTightRun(cfg, run)
  {
    if forall j | 0 <= j < |run| :: LiveOk(run[j].t) {
      forall i | 0 <= i < |run| - 1 ensures TightPrune(cfg, run[i], run[i + 1]) {
        LiveRunIsTight(cfg, run, i);
      }
    }
    if forall i | 0 <= i < |run| - 1 :: TightPrune(cfg, run[i], run[i + 1]) {
      forall i | 0 <= i < |run| - 1 ensures CanStepTightly(cfg, run[i], run[i + 1]) {
        assert CanStepAtAll(cfg, run[i], run[i + 1]);
        TightPruneIsTight(cfg, run[i], run[i + 1]);
      }
      forall j | 0 <= j < |run| ensures LiveOk(run[j].t) {
        RunKeeps(cfg, run, j);
      }
    }
  }

  /** No live row other than these has the id of one of them. */
  ghost predicate OnlyTheirs(t: Tables, c: seq<Row>) {
    forall r | r in t.live && HasId(c, r.ev.id) :: r in c
  }

  /** The session deletes its candidates' rows in this step. */
  ghost predicate DeletesNow(s: Store, s': Store, w: string) {
    && At(s, w).Pruning? && At(s, w).phase.LockedForDelete?
    && HasDeleted(At(s', w)) && At(s', w).candidates == At(s, w).candidates
    && At(s', w).phase.doomed == set r | r in s.t.live && HasId(At(s, w).candidates, r.ev.id)
  }

  lemma TightIff(s: Store, s': Store, w: string)
    requires DeletesNow(s, s', w)
    ensures Tight(At(s', w)) <==> OnlyTheirs(s.t, At(s, w).candidates)
  {
    var doomed, c := At(s', w).phase.doomed, At(s, w).candidates;
    assert forall r :: r in doomed <==> r in s.t.live && HasId(c, r.ev.id);
  }

  lemma DeletedStep(cfg: Cfg, s: Store, s': Store, w: string)
    requires CanStepAtAll(cfg, s, s') && HasDeleted(At(s', w))
    ensures DeletesNow(s, s', w) || At(s', w) == At(s, w)
  {
    var v, step :| Next(cfg, s, v, step, s');
    DeletedBy(cfg, s, v, step, s', w);
  }

  /** Session `w` locked its stream for the delete in state `s`, and has deleted by state `s'`. */
  ghost predicate DeletedFrom(s: Store, s': Store, w: string) {
    && At(s, w).Pruning? && At(s, w).phase.LockedForDelete?
    && HasDeleted(At(s', w)) && At(s', w).candidates == At(s, w).candidates
    && (Tight(At(s', w)) <==> OnlyTheirs(s.t, At(s, w).candidates))
  }

  /** What one step does for a session that has deleted after it. */
  ghost predicate DeletesOrStays(s: Store, s': Store, w: string) {
    HasDeleted(At(s', w)) ==> DeletesNow(s, s', w) || At(s', w) == At(s, w)
  }

  lemma {:induction false} DeletedBefore(run: seq<Store>, i: nat, w: string) returns (j: nat)
    requires i < |run| && !HasDeleted(At(run[0], w)) && HasDeleted(At(run[i], w))
    requires forall k | 0 < k < |run| :: DeletesOrStays(run[k - 1], run[k], w)
    ensures j < i && DeletedFrom(run[j], run[i], w)
    decreases i
  {
    assert DeletesOrStays(run[i - 1], run[i], w);
    if DeletesNow(run[i - 1], run[i], w) {
      j := i - 1;
      TightIff(run[j], run[i], w);
    } else {
      j := DeletedBefore(run, i - 1, w);
    }
  }

  /** The table fact behind it, at the moment of the delete: a prune has deleted only rows it selected
      if and only if no other live row had the id of one of them then. */
  lemma TightAtDelete(cfg: Cfg, run: seq<Store>, i: nat, w: string) returns (j: nat)
    requires IsAnyRun(cfg, run) && i < |run| && HasDeleted(At(run[i], w))
    ensures j < i && DeletedFrom(run[j], run[i], w)
  {
    forall k | 0 < k < |run| ensures DeletesOrStays(run[k - 1], run[k], w) {
      assert CanStepAtAll(cfg, run[k - 1], run[k - 1 + 1]);
      if HasDeleted(At(run[k], w)) {
        DeletedStep(cfg, run[k - 1], run[k], w);
      }
    }
    j := DeletedBefore(run, i, w);
  }

  lemma DeletedBy(cfg: Cfg, s: Store, v: string, step: Step, s': Store, w: string)
    requires Next(cfg, s, v, step, s') && HasDeleted(At(s', w))
    ensures DeletesNow(s, s', w) || At(s', w) == At(s, w)
  {
  }
}
