/** The retry loop around a write (src/core/pipeline.ts) over the SQL store: one caller writes its
    batch again after every failure, at most five times, while any number of other sessions write. A
    failed attempt may have committed some streams of the batch. */
module RetryDriver {
  import opened AuditTypes
  import opened WritePlan
  import opened AuditStore
  import opened StoreInvariant
  import opened StoreSessions
  import opened StoreProof
  import opened StorePrune
  import opened StoreTheorems
  import PipelineSpec
  import P = StoreProgress
  import R = StoreRuns
  import E = ExactlyOnce

  /** Where the caller stands: between attempts, in one, or done, with true or with false. */
  datatype Phase = Ready | Busy | Succeeded(rows: seq<Row>) | GaveUp

  /** `attempts` counts the writes begun. */
  datatype State = State(store: Store, phase: Phase, attempts: nat)

  datatype Move =
    | Begin(existing: map<string, Row>)
    | StoreMove(w: string, step: Step)
    | GotRows
    | Threw

  /** The moves of caller `me` with its batch, and of everybody else. An attempt that throws, by an
      error or a conflict, leaves its session idle. */
  ghost predicate Next(cfg: Cfg, me: string, batch: seq<Event>, s: State, move: Move, s': State) {
    match move
    case Begin(existing) =>
      && s.phase.Ready?
      && AuditStore.Next(cfg, s.store, me, StartWrite(batch, existing), s'.store)
      && s' == State(s'.store, Busy, s.attempts + 1)
    case StoreMove(w, step) =>
      && !step.StartPrune? && (w == me ==> s.phase.Busy? && !step.StartWrite? && !step.Reset?)
      && AuditStore.Next(cfg, s.store, w, step, s'.store)
      && s' == s.(store := s'.store)
    case GotRows =>
      && s.phase.Busy? && At(s.store, me).Returned?
      && s' == State(Put(s.store, me, Idle), Succeeded(At(s.store, me).rows), s.attempts)
    case Threw =>
      && s.phase.Busy? && At(s.store, me).Idle?
      && s' == s.(phase := if s.attempts < PipelineSpec.MAX_ATTEMPTS then Ready else GaveUp)
  }

  const INITIAL: State := State(EMPTY, Ready, 0)

  ghost predicate CanMove(cfg: Cfg, me: string, batch: seq<Event>, s: State, s': State) {
    exists move :: Next(cfg, me, batch, s, move, s')
  }

  ghost predicate IsRetryRun(cfg: Cfg, me: string, batch: seq<Event>, run: seq<State>) {
    && run != [] && run[0] == INITIAL
    && forall i | 0 <= i < |run| - 1 :: CanMove(cfg, me, batch, run[i], run[i + 1])
  }

  // ---------------------------------------------------------------------------
  // The invariant

  predicate AttemptsOk(s: State) {
    match s.phase
    case Ready => s.attempts < PipelineSpec.MAX_ATTEMPTS
    case Busy => 1 <= s.attempts <= PipelineSpec.MAX_ATTEMPTS
    case Succeeded(rows) => 1 <= s.attempts <= PipelineSpec.MAX_ATTEMPTS
    case GaveUp => s.attempts == PipelineSpec.MAX_ATTEMPTS
  }

  /** The caller's session writes the caller's batch. */
  predicate Writes(batch: seq<Event>, phase: Phase, ss: Session) {
    if phase.Busy? then ss.Idle? || ((ss.Writing? || ss.Returned?) && ss.batch == batch) else ss.Idle?
  }

  ghost predicate RetryInv(cfg: Cfg, me: string, batch: seq<Event>, s: State) {
    && Inv(cfg, s.store) && Plain(s.store)
    && AttemptsOk(s)
    && Writes(batch, s.phase, At(s.store, me))
    && (s.phase.Succeeded? ==> Matches(cfg.fp, s.store.t, batch, s.phase.rows))
  }

  lemma BeginKeeps(cfg: Cfg, me: string, batch: seq<Event>, s: State, existing: map<string, Row>, s': State)
    requires RetryInv(cfg, me, batch, s) && Next(cfg, me, batch, s, Begin(existing), s')
    ensures RetryInv(cfg, me, batch, s')
  {
    PlainStepKeeps(cfg, s.store, me, StartWrite(batch, existing), s'.store);
    E.StartedFor(cfg, s.store, me, batch, existing, s'.store);
  }

  lemma StoreMoveKeeps(cfg: Cfg, me: string, batch: seq<Event>, s: State, w: string, step: Step, s': State)
    requires RetryInv(cfg, me, batch, s) && Next(cfg, me, batch, s, StoreMove(w, step), s')
    ensures RetryInv(cfg, me, batch, s')
  {
    PlainStepKeeps(cfg, s.store, w, step, s'.store);
    if w == me {
      E.BatchKept(cfg, s.store, me, step, s'.store);
    } else {
      E.OthersUnchanged(cfg, s.store, w, step, s'.store, me);
    }
    if s.phase.Succeeded? {
      MatchesKept(cfg.fp, s.store.t, s'.store.t, batch, s.phase.rows);
    }
  }

  lemma GotRowsKeeps(cfg: Cfg, me: string, batch: seq<Event>, s: State, s': State)
    requires RetryInv(cfg, me, batch, s) && Next(cfg, me, batch, s, GotRows, s')
    ensures RetryInv(cfg, me, batch, s')
  {
    Known(cfg, s.store, me);
    PlainStepKeeps(cfg, s.store, me, Reset, s'.store);
  }

  lemma MoveKeeps(cfg: Cfg, me: string, batch: seq<Event>, s: State, move: Move, s': State)
    requires RetryInv(cfg, me, batch, s) && Next(cfg, me, batch, s, move, s')
    ensures RetryInv(cfg, me, batch, s')
  {
    match move
    case Begin(existing) => BeginKeeps(cfg, me, batch, s, existing, s');
    case StoreMove(w, step) => StoreMoveKeeps(cfg, me, batch, s, w, step, s');
    case GotRows => GotRowsKeeps(cfg, me, batch, s, s');
    case Threw =>
  }

  lemma {:induction false} RetryRunKeeps(cfg: Cfg, me: string, batch: seq<Event>, run: seq<State>, i: nat)
    requires IsRetryRun(cfg, me, batch, run) && i < |run|
    ensures RetryInv(cfg, me, batch, run[i])
  {
    if i == 0 {
      EmptyOk(cfg);
    } else {
      RetryRunKeeps(cfg, me, batch, run, i - 1);
      assert CanMove(cfg, me, batch, run[i - 1], run[i - 1 + 1]);
      var move :| Next(cfg, me, batch, run[i - 1], move, run[i]);
      MoveKeeps(cfg, me, batch, run[i - 1], move, run[i]);
    }
  }

  // ---------------------------------------------------------------------------
  // What the result means

  lemma OneLiveRow(cfg: Cfg, t: Tables, batch: seq<Event>, rows: seq<Row>, k: nat, r: Row)
    requires IdsOk(t) && LiveOk(t) && t.pruned == map[] && Matches(cfg.fp, t, batch, rows) && k < |batch|
    ensures r in t.live && r.ev.id == batch[k].id <==> r == rows[k]
    ensures SameAs(cfg.fp, rows[k].ev, batch[k])
  {
    assert IsRow(t, rows[k]) && rows[k] in t.live;
    if r in t.live {
      assert IsRow(t, r);
    }
  }

  /** The caller writes at most five times and gives up after the fifth failure, no sooner. If it
      gets true then, whatever its failed attempts committed and whatever others wrote, each event of
      its batch is in the store exactly once, as that event, at its position among the rows
      returned; and it stays so. */
  lemma TrueMeansStoredOnce(cfg: Cfg, me: string, batch: seq<Event>, run: seq<State>, i: nat, k: nat, r: Row)
    requires IsRetryRun(cfg, me, batch, run) && i < |run| && k < |batch|
    ensures run[i].attempts <= 5 && (run[i].phase.GaveUp? ==> run[i].attempts == 5)
    ensures run[i].phase.Succeeded? ==>
              && |run[i].phase.rows| == |batch|
              && SameAs(cfg.fp, run[i].phase.rows[k].ev, batch[k])
              && (r in run[i].store.t.live && r.ev.id == batch[k].id <==> r == run[i].phase.rows[k])
  {
    RetryRunKeeps(cfg, me, batch, run, i);
    if run[i].phase.Succeeded? {
      OneLiveRow(cfg, run[i].store.t, batch, run[i].phase.rows, k, r);
    }
  }

  /** In every state, and so also when the caller got false, each event is in the store at most
      once. */
  lemma FalseMeansAtMostOnce(cfg: Cfg, me: string, batch: seq<Event>, run: seq<State>, i: nat, r: Row, r': Row)
    requires IsRetryRun(cfg, me, batch, run) && i < |run|
    requires r in run[i].store.t.live && r' in run[i].store.t.live && r.ev.id == r'.ev.id
    ensures r == r'
  {
    RetryRunKeeps(cfg, me, batch, run, i);
    assert IsRow(run[i].store.t, r) && IsRow(run[i].store.t, r');
  }

  // ---------------------------------------------------------------------------
  // The caller can succeed

  function Final(run: seq<State>): State
    requires run != []
  {
    run[|run| - 1]
  }

  lemma RunMore(cfg: Cfg, me: string, batch: seq<Event>, run: seq<State>, move: Move, s': State)
    requires IsRetryRun(cfg, me, batch, run) && Next(cfg, me, batch, Final(run), move, s')
    ensures IsRetryRun(cfg, me, batch, run + [s']) && Final(run + [s']) == s'
  {
    var all := run + [s'];
    assert CanMove(cfg, me, batch, Final(run), s');
    forall i | 0 <= i < |all| - 1 ensures CanMove(cfg, me, batch, all[i], all[i + 1]) {
      if i < |run| - 1 {
        assert CanMove(cfg, me, batch, run[i], run[i + 1]);
      }
    }
  }

  lemma MoveKeepsOwners(cfg: Cfg, me: string, batch: seq<Event>, s: State, move: Move, s': State)
    requires P.OwnersWork(s.store) && Next(cfg, me, batch, s, move, s')
    ensures P.OwnersWork(s'.store)
  {
    match move
    case Begin(existing) => P.OwnersStillWork(cfg, s.store, me, StartWrite(batch, existing), s'.store);
    case StoreMove(w, step) => P.OwnersStillWork(cfg, s.store, w, step, s'.store);
    case GotRows => P.OwnersStillWork(cfg, s.store, me, Reset, s'.store);
    case Threw =>
  }

  lemma {:induction false} OwnersInRun(cfg: Cfg, me: string, batch: seq<Event>, run: seq<State>, i: nat)
    requires IsRetryRun(cfg, me, batch, run) && i < |run|
    ensures P.OwnersWork(run[i].store)
  {
    if i == 0 {
    } else {
      OwnersInRun(cfg, me, batch, run, i - 1);
      assert CanMove(cfg, me, batch, run[i - 1], run[i - 1 + 1]);
      var move :| Next(cfg, me, batch, run[i - 1], move, run[i]);
      MoveKeepsOwners(cfg, me, batch, run[i - 1], move, run[i]);
    }
  }

  /** The other sessions stop. */
  lemma {:induction false} OthersStop(cfg: Cfg, me: string, batch: seq<Event>, run: seq<State>, names: set<string>)
      returns (run': seq<State>)
    requires IsRetryRun(cfg, me, batch, run) && me !in names && P.QuietBut(Final(run).store, names + {me})
    ensures IsRetryRun(cfg, me, batch, run') && run <= run' && P.QuietBut(Final(run').store, {me})
    ensures Final(run').phase == Final(run).phase && Final(run').attempts == Final(run).attempts
    ensures Final(run').store.t == Final(run).store.t && At(Final(run').store, me) == At(Final(run).store, me)
    decreases |names|
  {
    if names == {} {
      assert names + {me} == {me};
      run' := run;
    } else {
      var w :| w in names;
      var s' := Final(run).(store := Aborted(Final(run).store, w));
      RunMore(cfg, me, batch, run, StoreMove(w, Abort), s');
      P.AbortedIsQuiet(Final(run).store, names + {me}, w);
      assert names + {me} - {w} == names - {w} + {me};
      run' := OthersStop(cfg, me, batch, run + [s'], names - {w});
    }
  }

  lemma IdleOwnsNothing(s: Store, me: string)
    requires P.QuietBut(s, {me}) && P.OwnersWork(s) && At(s, me).Idle?
    ensures P.QuietBut(s, {})
  {
    forall v ensures At(s, v).Idle? {
    }
    if key :| key in s.locks {
      OwnerWorks(s, key);
    }
  }

  lemma OwnerWorks(s: Store, key: string)
    requires P.OwnersWork(s) && key in s.locks
    ensures P.MayOwn(At(s, s.locks[key]))
  {
  }

  function Along(s: State, path: seq<Store>): (run: seq<State>)
    ensures |run| == |path| && forall k | 0 <= k < |path| :: run[k] == s.(store := path[k])
  {
    seq(|path|, k requires 0 <= k < |path| => s.(store := path[k]))
  }

  lemma WorkIsMove(cfg: Cfg, me: string, batch: seq<Event>, s: State, s': State)
    requires s.phase.Busy? && P.CanWork(cfg, me, s.store, s'.store) && s' == s.(store := s'.store)
    ensures CanMove(cfg, me, batch, s, s')
  {
    var step :| P.OfWrite(step) && AuditStore.Next(cfg, s.store, me, step, s'.store);
    assert Next(cfg, me, batch, s, StoreMove(me, step), s');
  }

  lemma SessionWorks(cfg: Cfg, me: string, batch: seq<Event>, run: seq<State>, path: seq<Store>) returns (run': seq<State>)
    requires IsRetryRun(cfg, me, batch, run) && P.Works(cfg, me, path) && Final(run).store == path[0] && Final(run).phase.Busy?
    ensures IsRetryRun(cfg, me, batch, run') && run <= run' && Final(run') == Final(run).(store := R.Final(path))
  {
    var s := Final(run);
    var more := Along(s, path);
    run' := run + more[1..];
    forall i | 0 <= i < |run'| - 1 ensures CanMove(cfg, me, batch, run'[i], run'[i + 1]) {
      if i < |run| - 1 {
        assert CanMove(cfg, me, batch, run[i], run[i + 1]);
      } else {
        var k := i - |run| + 1;
        assert run'[i] == more[k] && run'[i + 1] == more[k + 1];
        assert P.CanWork(cfg, me, path[k], path[k + 1]);
        WorkIsMove(cfg, me, batch, more[k], more[k + 1]);
      }
    }
  }

  /** Whenever the caller is about to write, in every run: if no event of its batch is in conflict with the
      store and all can be hashed, the attempt can succeed, whatever failed attempts left behind. */
  lemma NextAttemptCanSucceed(cfg: Cfg, me: string, batch: seq<Event>, run: seq<State>) returns (run': seq<State>)
    requires IsRetryRun(cfg, me, batch, run) && Final(run).phase.Ready?
    requires P.Fits(cfg.fp, Final(run).store.t, batch) && P.AllHash(cfg.hash, batch)
    ensures IsRetryRun(cfg, me, batch, run') && run <= run'
    ensures Final(run').phase.Succeeded? && Final(run').attempts == Final(run).attempts + 1
  {
    var quiet := AloneAgain(cfg, me, batch, run);
    var store := Final(quiet).store;
    var existing := P.FindExisting(store.t, batch);
    P.FittingIsPlannable(cfg.fp, store.t, batch, existing);
    var path := P.WriteGoesThrough(cfg, store, me, batch, existing);
    var s1 := State(path[0], Busy, Final(quiet).attempts + 1);
    RunMore(cfg, me, batch, quiet, Begin(existing), s1);
    var working := SessionWorks(cfg, me, batch, quiet + [s1], path);
    var s2 := State(Put(R.Final(path), me, Idle), Succeeded(At(R.Final(path), me).rows), s1.attempts);
    RunMore(cfg, me, batch, working, GotRows, s2);
    run' := working + [s2];
  }

  lemma AloneAgain(cfg: Cfg, me: string, batch: seq<Event>, run: seq<State>) returns (run': seq<State>)
    requires IsRetryRun(cfg, me, batch, run) && Final(run).phase.Ready?
    ensures IsRetryRun(cfg, me, batch, run') && run <= run'
    ensures Final(run').phase.Ready? && Final(run').attempts == Final(run).attempts && Final(run').store.t == Final(run).store.t
    ensures Inv(cfg, Final(run').store) && R.Rests(Final(run').store, me)
  {
    var names := P.NamesOf(Final(run).store);
    assert names - {me} + {me} == names + {me};
    run' := OthersStop(cfg, me, batch, run, names - {me});
    RetryRunKeeps(cfg, me, batch, run', |run'| - 1);
    OwnersInRun(cfg, me, batch, run', |run'| - 1);
    IdleOwnsNothing(Final(run').store, me);
    P.QuietRests(Final(run').store, me);
  }
}
