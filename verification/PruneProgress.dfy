/** A prune goes through (src/stores/lucid_store.ts): while nobody else has an uncommitted effect, a session
    can archive and delete exactly the rows it selects, unless the archive has another row with the id of
    one of them. */
module PruneProgress {
  import opened AuditTypes
  import opened Retention
  import opened AuditStore
  import opened StoreInvariant
  import opened StoreTables
  import opened StorePrune
  import opened StoreRuns
  import P = StoreProgress
  import I = StoreIds

  // ---------------------------------------------------------------------------
  // What the tables allow

  /** The tables after a prune of these rows. */
  function AfterPruning(t: Tables, stream: string, c: seq<Row>): Tables
    requires c != []
  {
    t.(live := t.live - (set r | r in c),
       archive := t.archive + Markers(c),
       checkpoints := t.checkpoints + {CheckpointOf(Last(c))},
       pruned := t.pruned[stream := Last(c).seqNo])
  }

  /** Rows that are live, consecutive after the last pruned row, and have no number a checkpoint has. */
  ghost predicate Prunable(t: Tables, stream: string, c: seq<Row>) {
    && c != [] && (forall r | r in c :: r in t.live && IsRow(t, r))
    && Last(c).seqNo > Base(t, stream)
    && (forall k | k in t.checkpoints :: !(k.stream == stream && k.seqNo == Last(c).seqNo))
  }

  lemma CandidatesArePrunable(cfg: Cfg, t: Tables, policy: Policy, stream: string, rows: seq<Row>)
    requires TablesOk(cfg, t) && IsOrderBySeq(t, stream, rows) && Candidates(policy, rows) != []
    ensures Prunable(t, stream, Candidates(policy, rows))
  {
    var c := Candidates(policy, rows);
    CandidatesAre(policy, rows);
    forall r | r in c ensures r in rows && r in t.live && IsRow(t, r) && r.seqNo > Base(t, stream) {
      var i :| 0 <= i < |c| && c[i] == r;
      assert rows[i] == r;
    }
    assert Last(c) in c;
    forall k | k in t.checkpoints && k.stream == stream ensures k.seqNo <= Base(t, stream) {
      assert IsCheckpoint(t, k);
    }
  }

  lemma OwnMarkerOnly(t: Tables, m: Marker, r: Row)
    requires OnlyMarkers(t) && m in t.archive && IsRow(t, r) && m.stream == r.ev.stream && m.seqNo == r.seqNo
    ensures m == MarkerOf(r)
  {
    assert IsMarker(t, m);
  }

  lemma {:induction false} MissingHaveNone(archive: set<Marker>, c: seq<Row>)
    ensures forall r | r in Missing(archive, c) :: r in c && !HasMarker(archive, r)
  {
    if c == [] {
    } else {
      MissingHaveNone(archive, c[1..]);
    }
  }

  lemma NothingClashes(t: Tables, c: seq<Row>)
    requires OnlyMarkers(t) && forall r | r in c :: IsRow(t, r)
    ensures !ArchiveClash(t.archive, Missing(t.archive, c))
  {
    var missing := Missing(t.archive, c);
    MissingHaveNone(t.archive, c);
    forall i: int, m: Marker | 0 <= i < |missing| && m in t.archive
      ensures m.id != missing[i].ev.id && !(m.stream == missing[i].ev.stream && m.seqNo == missing[i].seqNo)
    {
      assert missing[i] in missing && !HasMarker(t.archive, missing[i]);
      if m.stream == missing[i].ev.stream && m.seqNo == missing[i].seqNo {
        OwnMarkerOnly(t, m, missing[i]);
      }
    }
  }

  lemma ArchivedAre(archive: set<Marker>, c: seq<Row>)
    requires !ArchiveConflict(archive, c)
    ensures archive + Markers(Missing(archive, c)) == archive + Markers(c)
  {
    MissingOrArchived(archive, c);
    MissingHaveNone(archive, c);
    forall m: Marker | m in Markers(c) ensures m in archive + Markers(Missing(archive, c)) {
      var r :| r in c && m == MarkerOf(r);
      var i :| 0 <= i < |c| && c[i] == r;
      assert c[i] in Missing(archive, c) || MarkerOf(c[i]) in archive;
    }
  }

  lemma DoomedAre(t: Tables, c: seq<Row>)
    requires LiveIdsOk(t) && forall r | r in c :: r in t.live
    ensures (set r | r in t.live && HasId(c, r.ev.id)) == set r | r in c
  {
    forall r | r in t.live && HasId(c, r.ev.id) ensures r in c {
      var i :| 0 <= i < |c| && c[i].ev.id == r.ev.id;
      assert c[i] in c;
    }
    forall r | r in c ensures HasId(c, r.ev.id) {
      var i :| 0 <= i < |c| && c[i] == r;
    }
  }

  // ---------------------------------------------------------------------------
  // The steps

  /** Session `w` takes a step of its prune that removes nothing it did not select. */
  ghost predicate CanPrune(cfg: Cfg, w: string, s: Store, s': Store) {
    exists step: Step :: !step.Commit? && Next(cfg, s, w, step, s') && TightStep(s, w, step)
  }

  ghost predicate Prunes(cfg: Cfg, w: string, path: seq<Store>) {
    path != [] && forall i | 0 <= i < |path| - 1 :: CanPrune(cfg, w, path[i], path[i + 1])
  }

  lemma PrunesMore(cfg: Cfg, w: string, path: seq<Store>, s': Store)
    requires Prunes(cfg, w, path) && CanPrune(cfg, w, Final(path), s')
    ensures Prunes(cfg, w, path + [s']) && Final(path + [s']) == s' && (path + [s'])[0] == path[0]
  {
    var all := path + [s'];
    forall i | 0 <= i < |all| - 1 ensures CanPrune(cfg, w, all[i], all[i + 1]) {
      if i < |path| - 1 {
        assert CanPrune(cfg, w, path[i], path[i + 1]);
      }
    }
  }

  lemma IsStep(cfg: Cfg, w: string, s: Store, step: Step, s': Store)
    requires !step.Commit? && !step.CommitPrune? && Next(cfg, s, w, step, s')
    ensures CanPrune(cfg, w, s, s')
  {
    assert TightStep(s, w, step);
  }

  /** The session while it prunes `c`. */
  function Pruner(policy: Policy, stream: string, c: seq<Row>, phase: Phase): Session {
    Pruning(policy, stream, c, phase, 0, map[])
  }

  lemma Selects(cfg: Cfg, s: Store, w: string, policy: Policy, stream: string, rows: seq<Row>) returns (path: seq<Store>)
    requires Rests(s, w) && IsOrderBySeq(s.t, stream, rows) && Candidates(policy, rows) != []
    ensures Prunes(cfg, w, path) && path[0] == s && Final(path).t == s.t && Final(path).locks == map[]
    ensures At(Final(path), w) == Pruner(policy, stream, Candidates(policy, rows), Selected) && OthersCalm(Final(path), w)
  {
    var ss1 := Pruner(policy, "", [], Between);
    var s1 := Put(s, w, ss1);
    AfterStep(s, w, ss1, s1);
    IsStep(cfg, w, s, StartPrune(policy), s1);
    PrunesMore(cfg, w, [s], s1);
    var ss2 := Pruner(policy, stream, Candidates(policy, rows), Selected);
    var s2 := Put(s1, w, ss2);
    AfterStep(s1, w, ss2, s2);
    IsStep(cfg, w, s1, SelectRows(stream, rows), s2);
    PrunesMore(cfg, w, [s] + [s1], s2);
    path := [s] + [s1] + [s2];
  }

  lemma Archives(cfg: Cfg, s: Store, w: string, policy: Policy, stream: string, c: seq<Row>) returns (path: seq<Store>)
    requires At(s, w) == Pruner(policy, stream, c, Selected) && OthersCalm(s, w) && s.locks == map[]
    requires !ArchiveConflict(s.t.archive, c) && !ArchiveClash(s.t.archive, Missing(s.t.archive, c))
    ensures Prunes(cfg, w, path) && path[0] == s && Final(path).locks == map[]
    ensures Final(path).t == s.t.(archive := s.t.archive + Markers(c))
    ensures At(Final(path), w) == Pruner(policy, stream, c, Archived) && OthersCalm(Final(path), w)
  {
    var missing := Missing(s.t.archive, c);
    ArchivedAre(s.t.archive, c);
    var ss1 := Pruner(policy, stream, c, if missing == [] then Archived else ToArchive(missing));
    var s1 := Put(s, w, ss1);
    AfterStep(s, w, ss1, s1);
    IsStep(cfg, w, s, CheckArchive, s1);
    PrunesMore(cfg, w, [s], s1);
    path := [s] + [s1];
    if missing == [] {
      assert Markers(missing) == {};
      assert s.t.archive + Markers(c) == s.t.archive;
    } else {
      var s2 := Put(s1, w, Pruner(policy, stream, c, Archived)).(t := s.t.(archive := s.t.archive + Markers(missing)));
      AfterStep(s1, w, Pruner(policy, stream, c, Archived), s2);
      IsStep(cfg, w, s1, Archive, s2);
      PrunesMore(cfg, w, path, s2);
      path := path + [s2];
    }
  }

  lemma Deletes(cfg: Cfg, s: Store, w: string, policy: Policy, stream: string, c: seq<Row>) returns (path: seq<Store>)
    requires At(s, w) == Pruner(policy, stream, c, Archived) && OthersCalm(s, w) && s.locks == map[]
    requires LiveIdsOk(s.t) && Prunable(s.t, stream, c)
    ensures Prunes(cfg, w, path) && path[0] == s && Final(path).t == s.t && Final(path).locks == map[cfg.lockKey(stream) := w]
    ensures At(Final(path), w) == Pruner(policy, stream, c, Deleted(set r | r in c)) && OthersCalm(Final(path), w)
  {
    var s1 := Put(s, w, Pruner(policy, stream, c, LockedForDelete)).(locks := s.locks[cfg.lockKey(stream) := w]);
    AfterStep(s, w, Pruner(policy, stream, c, LockedForDelete), s1);
    IsStep(cfg, w, s, TakePruneLock, s1);
    PrunesMore(cfg, w, [s], s1);
    DoomedAre(s.t, c);
    var ss2 := Pruner(policy, stream, c, Deleted(set r | r in c));
    var s2 := Put(s1, w, ss2);
    assert forall v | v != w :: !Holding(At(s1, v));
    AfterStep(s1, w, ss2, s2);
    IsStep(cfg, w, s1, Delete, s2);
    PrunesMore(cfg, w, [s] + [s1], s2);
    path := [s] + [s1] + [s2];
  }

  /** What the session reports of a prune of these rows. */
  function Reports(policy: Policy, stream: string, c: seq<Row>): Session
    requires c != []
  {
    Pruning(policy, stream, c, Between, |c|, map[c[0].ev.event := |c|])
  }

  lemma Commits(cfg: Cfg, s: Store, w: string, policy: Policy, stream: string, c: seq<Row>, key: string) returns (path: seq<Store>)
    requires At(s, w) == Pruner(policy, stream, c, Deleted(set r | r in c)) && OthersCalm(s, w) && c != []
    requires s.locks == map[key := w]
    ensures Prunes(cfg, w, path) && path[0] == s && Final(path).locks == map[]
    ensures Final(path).t == AfterPrune(s.t, stream, c, set r | r in c)
    ensures At(Final(path), w) == Reports(policy, stream, c)
  {
    P.UnlockOwn(key, w);
    path := [s];
    if !cfg.heldToCommit {
      var s1 := s.(locks := Unlock(s.locks, w));
      P.SameSessions(s, s1, w);
      IsStep(cfg, w, s, Release, s1);
      PrunesMore(cfg, w, [s], s1);
      path := [s] + [s1];
    }
    var s2 := CommitsNow(cfg, Final(path), w, policy, stream, c);
    PrunesMore(cfg, w, path, s2);
    path := path + [s2];
  }

  lemma CommitsNow(cfg: Cfg, s: Store, w: string, policy: Policy, stream: string, c: seq<Row>) returns (s': Store)
    requires At(s, w) == Pruner(policy, stream, c, Deleted(set r | r in c)) && c != []
    requires Unlock(s.locks, w) == map[] && (!cfg.heldToCommit ==> s.locks == map[])
    ensures CanPrune(cfg, w, s, s') && s'.locks == map[] && s'.t == AfterPrune(s.t, stream, c, set r | r in c)
    ensures At(s', w) == Reports(policy, stream, c)
  {
    assert Counted(map[], c[0].ev.event, |c|) == map[c[0].ev.event := |c|];
    s' := Store(AfterPrune(s.t, stream, c, set r | r in c), Unlock(s.locks, w), s.sessions[w := Reports(policy, stream, c)]);
    assert Next(cfg, s, w, CommitPrune, s') && TightStep(s, w, CommitPrune);
  }

  // ---------------------------------------------------------------------------
  // A whole prune

  lemma PrunesOn(cfg: Cfg, w: string, a: seq<Store>, b: seq<Store>)
    requires Prunes(cfg, w, a) && Prunes(cfg, w, b) && Final(a) == b[0]
    ensures Prunes(cfg, w, a + b[1..]) && Final(a + b[1..]) == Final(b) && (a + b[1..])[0] == a[0]
  {
    var all := a + b[1..];
    forall i | 0 <= i < |all| - 1 ensures CanPrune(cfg, w, all[i], all[i + 1]) {
      if i < |a| - 1 {
        assert CanPrune(cfg, w, a[i], a[i + 1]);
      } else {
        assert CanPrune(cfg, w, b[i - |a| + 1], b[i - |a| + 2]);
      }
    }
  }

  lemma PrunedTables(t: Tables, stream: string, c: seq<Row>)
    requires Prunable(t, stream, c)
    ensures AfterPrune(t.(archive := t.archive + Markers(c)), stream, c, set r | r in c) == AfterPruning(t, stream, c)
  {
  }

  lemma PruneGoesThrough(cfg: Cfg, s: Store, w: string, policy: Policy, stream: string, rows: seq<Row>) returns (path: seq<Store>)
    requires TablesOk(cfg, s.t) && Rests(s, w) && IsOrderBySeq(s.t, stream, rows)
    requires Candidates(policy, rows) != [] && !ArchiveConflict(s.t.archive, Candidates(policy, rows))
    ensures Prunes(cfg, w, path) && path[0] == s && Final(path).locks == map[]
    ensures Final(path).t == AfterPruning(s.t, stream, Candidates(policy, rows))
    ensures At(Final(path), w) == Reports(policy, stream, Candidates(policy, rows))
  {
    var c := Candidates(policy, rows);
    CandidatesArePrunable(cfg, s.t, policy, stream, rows);
    NothingClashes(s.t, c);
    PrunedTables(s.t, stream, c);
    path := Selects(cfg, s, w, policy, stream, rows);
    var archiving := Archives(cfg, Final(path), w, policy, stream, c);
    PrunesOn(cfg, w, path, archiving);
    path := path + archiving[1..];
    path := DeletesAndCommits(cfg, path, s.t, w, policy, stream, c);
  }

  lemma DeletesAndCommits(cfg: Cfg, before: seq<Store>, t: Tables, w: string, policy: Policy, stream: string, c: seq<Row>)
      returns (path: seq<Store>)
    requires Prunes(cfg, w, before) && Final(before).t == t.(archive := t.archive + Markers(c)) && LiveIdsOk(t) && Prunable(t, stream, c)
    requires At(Final(before), w) == Pruner(policy, stream, c, Archived) && OthersCalm(Final(before), w) && Final(before).locks == map[]
    ensures Prunes(cfg, w, path) && path[0] == before[0] && Final(path).locks == map[]
    ensures Final(path).t == AfterPrune(t.(archive := t.archive + Markers(c)), stream, c, set r | r in c)
    ensures At(Final(path), w) == Reports(policy, stream, c)
  {
    StillPrunable(t, stream, c);
    var deleting := Deletes(cfg, Final(before), w, policy, stream, c);
    PrunesOn(cfg, w, before, deleting);
    path := before + deleting[1..];
    var committing := Commits(cfg, Final(path), w, policy, stream, c, cfg.lockKey(stream));
    PrunesOn(cfg, w, path, committing);
    path := path + committing[1..];
  }

  lemma StillPrunable(t: Tables, stream: string, c: seq<Row>)
    requires Prunable(t, stream, c)
    ensures Prunable(t.(archive := t.archive + Markers(c)), stream, c)
  {
    var t' := t.(archive := t.archive + Markers(c));
    forall r | r in c ensures r in t'.live && IsRow(t', r) {
      assert IsRow(t, r);
    }
  }

  lemma RunPrunes(cfg: Cfg, run: seq<Store>, w: string, path: seq<Store>)
    requires IsTightRun(cfg, run) && Prunes(cfg, w, path) && Final(run) == path[0]
    ensures IsTightRun(cfg, run + path[1..]) && Final(run + path[1..]) == Final(path)
  {
    var all := run + path[1..];
    forall i | 0 <= i < |all| - 1 ensures CanStepTightly(cfg, all[i], all[i + 1]) {
      if i < |run| - 1 {
        assert CanStepTightly(cfg, run[i], run[i + 1]);
      } else {
        var k := i - |run| + 1;
        assert all[i] == path[k] && all[i + 1] == path[k + 1];
        assert CanPrune(cfg, w, path[k], path[k + 1]);
        PruneIsTight(cfg, w, path[k], path[k + 1]);
      }
    }
  }

  lemma PruneIsTight(cfg: Cfg, w: string, s: Store, s': Store)
    requires CanPrune(cfg, w, s, s')
    ensures CanStepTightly(cfg, s, s')
  {
    var step: Step :| !step.Commit? && Next(cfg, s, w, step, s') && TightStep(s, w, step);
  }

  lemma TablesInRun(cfg: Cfg, run: seq<Store>)
    requires IsTightRun(cfg, run)
    ensures TablesOk(cfg, Final(run).t)
  {
    RunKeeps(cfg, run, |run| - 1);
  }

  /** From every reachable state, whoever stopped where, the rows that a policy selects of a stream can be
      pruned, unless the archive has another row with the id of one of them: exactly they leave the
      table, each is in the archive, the last is the stream's checkpoint, and the session reports as many. */
  lemma PrunesStayPossible(cfg: Cfg, run: seq<Store>, w: string, policy: Policy, stream: string, rows: seq<Row>)
      returns (run': seq<Store>)
    requires IsTightRun(cfg, run) && IsOrderBySeq(Final(run).t, stream, rows)
    requires Candidates(policy, rows) != [] && !ArchiveConflict(Final(run).t.archive, Candidates(policy, rows))
    ensures IsTightRun(cfg, run') && run <= run'
    ensures Final(run').t == AfterPruning(Final(run).t, stream, Candidates(policy, rows))
    ensures At(Final(run'), w) == Reports(policy, stream, Candidates(policy, rows))
  {
    var names := P.NamesOf(Final(run));
    var quiet := P.EverybodyStops(cfg, run, names);
    P.QuietRests(Final(quiet), w);
    TablesInRun(cfg, quiet);
    var path := PruneGoesThrough(cfg, Final(quiet), w, policy, stream, rows);
    RunPrunes(cfg, quiet, w, path);
    run' := quiet + path[1..];
  }

  /** Where no pruned event was delivered again, there is no such conflict. */
  lemma FreshRunsHaveNoConflict(cfg: Cfg, run: seq<Store>, policy: Policy, stream: string, rows: seq<Row>)
    requires IsRun(cfg, run) && IsOrderBySeq(Final(run).t, stream, rows)
    ensures IsTightRun(cfg, run) && !ArchiveConflict(Final(run).t.archive, Candidates(policy, rows))
  {
    I.FreshRunIsTight(cfg, run);
    I.FreshRunKeeps(cfg, run, |run| - 1);
    UniqueIdsHaveNoConflict(Final(run).t, policy, stream, rows);
  }

  lemma UniqueIdsHaveNoConflict(t: Tables, policy: Policy, stream: string, rows: seq<Row>)
    requires LiveOk(t) && OnlyMarkers(t) && IdsOk(t) && IsOrderBySeq(t, stream, rows)
    ensures !ArchiveConflict(t.archive, Candidates(policy, rows))
  {
    var c := Candidates(policy, rows);
    CandidatesAre(policy, rows);
    forall i: int, m: Marker | 0 <= i < |c| && m in t.archive && m.id == c[i].ev.id ensures m == MarkerOf(c[i]) {
      assert c[i] == rows[i] && IsRow(t, c[i]) && IsMarker(t, m);
      assert IsRow(t, History(t, m.stream)[m.seqNo - 1]);
    }
  }
}
