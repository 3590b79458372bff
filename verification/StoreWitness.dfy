/** Runs of the store (src/stores/lucid_store.ts) on which a prune reports more rows than it removed,
    an event is stored twice, and a number is given out twice. The last two need an event to be
    delivered again after it was pruned: deduplication looks at live rows only. */
module StoreWitness {
  import opened Wrappers
  import opened KeyOrder
  import opened Json
  import opened AuditTypes
  import opened HashChain
  import opened Grouping
  import opened WritePlan
  import opened Retention
  import opened AuditStore
  import opened StoreRuns

  /** A run, with fresh commits or with no assumption about ids. */
  ghost predicate Run(cfg: Cfg, strict: bool, run: seq<Store>) {
    if strict then IsRun(cfg, run) else IsAnyRun(cfg, run)
  }

  lemma ForgetFresh(cfg: Cfg, run: seq<Store>)
    requires Run(cfg, true, run)
    ensures Run(cfg, false, run)
  {
    forall i | 0 <= i < |run| - 1 ensures CanStepAtAll(cfg, run[i], run[i + 1]) {
      assert CanStep(cfg, run[i], run[i + 1]);
    }
  }

  lemma Extend(cfg: Cfg, strict: bool, run: seq<Store>, w: string, step: Step, s': Store)
    requires Run(cfg, strict, run) && Next(cfg, Final(run), w, step, s')
    requires strict ==> FreshStep(Final(run), w, step)
    ensures Run(cfg, strict, run + [s']) && Final(run + [s']) == s'
  {
    var all := run + [s'];
    if strict {
      forall i | 0 <= i < |all| - 1 ensures CanStep(cfg, all[i], all[i + 1]) {
        assert i < |run| - 1 ==> CanStep(cfg, run[i], run[i + 1]);
      }
    } else {
      forall i | 0 <= i < |all| - 1 ensures CanStepAtAll(cfg, all[i], all[i + 1]) {
        assert i < |run| - 1 ==> CanStepAtAll(cfg, run[i], run[i + 1]);
      }
    }
  }

  /** The session takes a step that changes only itself. */
  lemma Advance(cfg: Cfg, strict: bool, before: seq<Store>, w: string, step: Step, ss: Session) returns (run: seq<Store>)
    requires Run(cfg, strict, before) && OthersCalm(Final(before), w) && !step.Commit?
    requires Next(cfg, Final(before), w, step, Put(Final(before), w, ss))
    ensures before <= run
    ensures Run(cfg, strict, run) && Final(run) == Put(Final(before), w, ss)
    ensures OthersCalm(Final(run), w) && SameOthers(Final(before), Final(run), w) && At(Final(run), w) == ss
  {
    Extend(cfg, strict, before, w, step, Put(Final(before), w, ss));
    AfterStep(Final(before), w, ss, Put(Final(before), w, ss));
    run := before + [Put(Final(before), w, ss)];
  }

  /** The session throws, holding no lock. */
  lemma EndsIdle(cfg: Cfg, strict: bool, before: seq<Store>, w: string) returns (run: seq<Store>)
    requires Run(cfg, strict, before) && Final(before).locks == map[] && OthersCalm(Final(before), w)
    ensures before <= run
    ensures Run(cfg, strict, run) && Rests(Final(run), w) && SameOthers(Final(before), Final(run), w)
    ensures Final(run).t == Final(before).t
  {
    var s := Final(before);
    assert Unlock(s.locks, w) == map[];
    Extend(cfg, strict, before, w, Abort, Aborted(s, w));
    AfterStep(s, w, Idle, Aborted(s, w));
    run := before + [Aborted(s, w)];
  }

  // ---------------------------------------------------------------------------
  // Writing one event

  function Todo(e: Event): seq<Group<Event>> {
    [Group(e.stream, [e])]
  }

  /** What the session is while it writes `e`. */
  function Writer(e: Event, tx: Tx): Session {
    Writing([e], Todo(e), map[], tx)
  }

  lemma PlanOfOne(fp: Fp, e: Event)
    ensures PlanAll(fp, map[], [e]).Some?
    ensures PlanAll(fp, map[], [e]).value.additions == [e] && PlanAll(fp, map[], [e]).value.results == map[]
    ensures GroupAll(StreamOf, [e]) == Todo(e)
  {
    assert [e][..0] == [];
    assert [] + [e] == [e];
    assert PlanAll(fp, map[], [e][..0]) == Some(Plan(map[], [], map[]));
    assert GroupAll(StreamOf, [e][..0]) == [];
  }

  ghost predicate IdNotLive(t: Tables, e: Event) {
    forall r | r in t.live :: r.ev.id != e.id
  }

  lemma StartOne(cfg: Cfg, s: Store, w: string, e: Event)
    requires At(s, w).Idle? && IdNotLive(s.t, e)
    ensures Next(cfg, s, w, StartWrite([e], map[]), Put(s, w, Writer(e, NoTx)))
  {
    PlanOfOne(cfg.fp, e);
    assert IsExisting(s.t, [e], map[]);
  }

  lemma LockOne(cfg: Cfg, s: Store, w: string, e: Event)
    requires At(s, w) == Writer(e, NoTx) && s.locks == map[]
    ensures Next(cfg, s, w, TakeLock, Put(s, w, Writer(e, Locked)).(locks := map[cfg.lockKey(e.stream) := w]))
  {
    assert s.locks[cfg.lockKey(e.stream) := w] == map[cfg.lockKey(e.stream) := w];
  }

  lemma ReadOne(cfg: Cfg, s: Store, w: string, e: Event, head: Option<Head>, h: Hash)
    requires At(s, w) == Writer(e, Locked) && IsHead(s.t, e.stream, head)
    requires cfg.hash(e, HeadSeq(head) + 1, HeadHash(head)) == Some(h)
    ensures Next(cfg, s, w, ReadHead(head), Put(s, w, Writer(e, HeadRead([Row(e, HeadSeq(head) + 1, HeadHash(head), h)]))))
  {
    ChainOne(cfg.hash, e, HeadSeq(head), HeadHash(head));
  }

  lemma InsertOne(cfg: Cfg, s: Store, w: string, e: Event, row: Row)
    requires At(s, w) == Writer(e, HeadRead([row])) && OthersCalm(s, w)
    requires forall r | r in s.t.live :: !Clash(row, r)
    ensures Next(cfg, s, w, Insert, Put(s, w, Writer(e, Inserted([row]))))
  {
    assert !InTable(s.t.live, [row]);
    assert forall v | v != w :: !Holding(At(s, v));
  }

  lemma CommitOne(cfg: Cfg, strict: bool, before: seq<Store>, w: string, e: Event, row: Row) returns (run: seq<Store>)
    requires Run(cfg, strict, before) && cfg.heldToCommit && OthersCalm(Final(before), w)
    requires At(Final(before), w) == Writer(e, Inserted([row]))
    requires Final(before).locks == map[cfg.lockKey(e.stream) := w]
    requires strict ==> Unarchived(Final(before).t, [row])
    ensures Run(cfg, strict, run) && Rests(Final(run), w) && SameOthers(Final(before), Final(run), w)
    ensures Final(run).t == AfterWrite(Final(before).t, e.stream, [row])
  {
    var s, ss := Final(before), At(Final(before), w);
    assert Unlock(s.locks, w) == map[];
    var ss' := ss.(todo := ss.todo[1..], results := ss.results + ById(ss.tx.rows), tx := NoTx);
    var s1 := Store(AfterWrite(s.t, e.stream, [row]), map[], s.sessions[w := ss']);
    Extend(cfg, strict, before, w, Commit, s1);
    AfterStep(s, w, ss', s1);
    run := EndsIdle(cfg, strict, before + [s1], w);
    SameTwice(s, s1, Final(run), w);
  }

  lemma NewRowClashesNot(t: Tables, e: Event, head: Option<Head>, h: Hash)
    requires IsHead(t, e.stream, head) && IdNotLive(t, e)
    ensures forall r | r in t.live :: !Clash(Row(e, HeadSeq(head) + 1, HeadHash(head), h), r)
  {
  }

  lemma LockStep(cfg: Cfg, strict: bool, before: seq<Store>, w: string, e: Event) returns (run: seq<Store>)
    requires Run(cfg, strict, before) && Rests(Final(before), w) && IdNotLive(Final(before).t, e)
    ensures Run(cfg, strict, run) && OthersCalm(Final(run), w) && SameOthers(Final(before), Final(run), w)
    ensures Final(run).t == Final(before).t && Final(run).locks == map[cfg.lockKey(e.stream) := w]
    ensures At(Final(run), w) == Writer(e, Locked)
  {
    StartOne(cfg, Final(before), w, e);
    run := Advance(cfg, strict, before, w, StartWrite([e], map[]), Writer(e, NoTx));
    var s := Final(run);
    var s' := Put(s, w, Writer(e, Locked)).(locks := map[cfg.lockKey(e.stream) := w]);
    LockOne(cfg, s, w, e);
    Extend(cfg, strict, run, w, TakeLock, s');
    AfterStep(s, w, Writer(e, Locked), s');
    SameTwice(Final(before), s, s', w);
    run := run + [s'];
  }

  lemma InsertStep(cfg: Cfg, strict: bool, before: seq<Store>, w: string, e: Event, head: Option<Head>, row: Row)
      returns (run: seq<Store>)
    requires Run(cfg, strict, before) && OthersCalm(Final(before), w) && At(Final(before), w) == Writer(e, Locked)
    requires IsHead(Final(before).t, e.stream, head) && IdNotLive(Final(before).t, e)
    requires row == Row(e, HeadSeq(head) + 1, HeadHash(head), row.hash)
    requires cfg.hash(e, HeadSeq(head) + 1, HeadHash(head)) == Some(row.hash)
    ensures Run(cfg, strict, run) && OthersCalm(Final(run), w) && SameOthers(Final(before), Final(run), w)
    ensures Final(run).t == Final(before).t && Final(run).locks == Final(before).locks
    ensures At(Final(run), w) == Writer(e, Inserted([row]))
  {
    NewRowClashesNot(Final(before).t, e, head, row.hash);
    ReadOne(cfg, Final(before), w, e, head, row.hash);
    run := Advance(cfg, strict, before, w, ReadHead(head), Writer(e, HeadRead([row])));
    ghost var s := Final(run);
    InsertOne(cfg, s, w, e, row);
    run := Advance(cfg, strict, run, w, Insert, Writer(e, Inserted([row])));
    SameTwice(Final(before), s, Final(run), w);
  }

  /** A single event whose id is not live, written while nobody has an uncommitted effect, is
      inserted after the head. */
  lemma WriteOne(cfg: Cfg, strict: bool, before: seq<Store>, w: string, e: Event, head: Option<Head>, row: Row)
      returns (run: seq<Store>)
    requires Run(cfg, strict, before) && Rests(Final(before), w) && cfg.heldToCommit
    requires IsHead(Final(before).t, e.stream, head) && IdNotLive(Final(before).t, e)
    requires row == Row(e, HeadSeq(head) + 1, HeadHash(head), row.hash)
    requires cfg.hash(e, HeadSeq(head) + 1, HeadHash(head)) == Some(row.hash)
    requires strict ==> Unarchived(Final(before).t, [row])
    ensures Run(cfg, strict, run) && Rests(Final(run), w) && SameOthers(Final(before), Final(run), w)
    ensures Final(run).t == AfterWrite(Final(before).t, e.stream, [row])
  {
    run := LockStep(cfg, strict, before, w, e);
    ghost var s1 := Final(run);
    run := InsertStep(cfg, strict, run, w, e, head, row);
    ghost var s2 := Final(run);
    SameTwice(Final(before), s1, s2, w);
    run := CommitOne(cfg, strict, run, w, e, row);
    SameTwice(Final(before), s2, Final(run), w);
  }

  // ---------------------------------------------------------------------------
  // Pruning

  /** What the session is while it prunes `c` from `stream`. */
  function Pruner(policy: Policy, stream: string, c: seq<Row>, phase: Phase): Session {
    Pruning(policy, stream, c, phase, 0, map[])
  }

  lemma SelectStep(cfg: Cfg, strict: bool, before: seq<Store>, w: string, policy: Policy, stream: string, rows: seq<Row>)
      returns (run: seq<Store>)
    requires Run(cfg, strict, before) && Rests(Final(before), w)
    requires IsOrderBySeq(Final(before).t, stream, rows) && Candidates(policy, rows) != []
    ensures before <= run
    ensures Run(cfg, strict, run) && OthersCalm(Final(run), w) && SameOthers(Final(before), Final(run), w)
    ensures Final(run).t == Final(before).t && Final(run).locks == map[]
    ensures At(Final(run), w) == Pruner(policy, stream, Candidates(policy, rows), Selected)
  {
    run := Advance(cfg, strict, before, w, StartPrune(policy), Pruner(policy, "", [], Between));
    ghost var s := Final(run);
    run := Advance(cfg, strict, run, w, SelectRows(stream, rows), Pruner(policy, stream, Candidates(policy, rows), Selected));
    SameTwice(Final(before), s, Final(run), w);
  }

  lemma NothingArchived(c: seq<Row>)
    ensures Missing({}, c) == c && !ArchiveConflict({}, c) && !ArchiveClash({}, c)
  {
    if c != [] {
      NothingArchived(c[1..]);
    }
  }

  lemma ArchiveStep(cfg: Cfg, strict: bool, before: seq<Store>, w: string, policy: Policy, stream: string, c: seq<Row>)
      returns (run: seq<Store>)
    requires Run(cfg, strict, before) && OthersCalm(Final(before), w) && c != []
    requires At(Final(before), w) == Pruner(policy, stream, c, Selected) && Final(before).t.archive == {}
    ensures before <= run
    ensures Run(cfg, strict, run) && OthersCalm(Final(run), w) && SameOthers(Final(before), Final(run), w)
    ensures Final(run).t == Final(before).t.(archive := set r | r in c :: MarkerOf(r)) && Final(run).locks == Final(before).locks
    ensures At(Final(run), w) == Pruner(policy, stream, c, Archived)
  {
    NothingArchived(c);
    run := Advance(cfg, strict, before, w, CheckArchive, Pruner(policy, stream, c, ToArchive(c)));
    var s := Final(run);
    var markers := set r | r in c :: MarkerOf(r);
    var s' := Put(s, w, Pruner(policy, stream, c, Archived)).(t := s.t.(archive := s.t.archive + markers));
    Extend(cfg, strict, run, w, Archive, s');
    AfterStep(s, w, Pruner(policy, stream, c, Archived), s');
    SameTwice(Final(before), s, s', w);
    run := run + [s'];
    assert s.t.archive + markers == markers;
  }

  function DoomedBy(t: Tables, c: seq<Row>): set<Row> {
    set r | r in t.live && HasId(c, r.ev.id)
  }

  /** No checkpoint stands where a prune of `c` would put one. */
  ghost predicate NoCheckpointAt(t: Tables, stream: string, n: nat) {
    forall c | c in t.checkpoints :: !(c.stream == stream && c.seqNo == n)
  }

  lemma DeleteStep(cfg: Cfg, strict: bool, before: seq<Store>, w: string, policy: Policy, stream: string, c: seq<Row>)
      returns (run: seq<Store>)
    requires Run(cfg, strict, before) && OthersCalm(Final(before), w) && c != []
    requires At(Final(before), w) == Pruner(policy, stream, c, Archived)
    requires Final(before).locks == map[] && NoCheckpointAt(Final(before).t, stream, Last(c).seqNo)
    ensures before <= run
    ensures Run(cfg, strict, run) && OthersCalm(Final(run), w) && SameOthers(Final(before), Final(run), w)
    ensures Final(run).t == Final(before).t && Final(run).locks == map[cfg.lockKey(stream) := w]
    ensures At(Final(run), w) == Pruner(policy, stream, c, Deleted(DoomedBy(Final(before).t, c)))
  {
    var s := Final(before);
    var s' := Put(s, w, Pruner(policy, stream, c, LockedForDelete)).(locks := s.locks[cfg.lockKey(stream) := w]);
    Extend(cfg, strict, before, w, TakePruneLock, s');
    AfterStep(s, w, Pruner(policy, stream, c, LockedForDelete), s');
    DeleteOne(cfg, s', w, policy, stream, c);
    run := Advance(cfg, strict, before + [s'], w, Delete, Pruner(policy, stream, c, Deleted(DoomedBy(s.t, c))));
    SameTwice(s, s', Final(run), w);
    assert s.locks[cfg.lockKey(stream) := w] == map[cfg.lockKey(stream) := w];
  }

  lemma DeleteOne(cfg: Cfg, s: Store, w: string, policy: Policy, stream: string, c: seq<Row>)
    requires At(s, w) == Pruner(policy, stream, c, LockedForDelete) && c != [] && OthersCalm(s, w)
    requires NoCheckpointAt(s.t, stream, Last(c).seqNo)
    ensures Next(cfg, s, w, Delete, Put(s, w, Pruner(policy, stream, c, Deleted(DoomedBy(s.t, c)))))
  {
    assert forall v | v != w :: !Holding(At(s, v));
  }

  lemma CommitPruneStep(cfg: Cfg, strict: bool, before: seq<Store>, w: string, policy: Policy, stream: string, c: seq<Row>, doomed: set<Row>)
    returns (run: seq<Store>)
    requires Run(cfg, strict, before) && OthersCalm(Final(before), w) && c != [] && cfg.heldToCommit
    requires At(Final(before), w) == Pruner(policy, stream, c, Deleted(doomed))
    requires Final(before).locks == map[cfg.lockKey(stream) := w]
    ensures before <= run
    ensures Run(cfg, strict, run) && Rests(Final(run), w) && SameOthers(Final(before), Final(run), w)
    ensures Final(run).t == AfterPrune(Final(before).t, stream, c, doomed)
  {
    var s, ss := Final(before), At(Final(before), w);
    assert Unlock(s.locks, w) == map[];
    var ss' := ss.(phase := Between, total := ss.total + |c|, perEvent := Counted(ss.perEvent, c[0].ev.event, |c|));
    var s1 := Store(AfterPrune(s.t, stream, c, doomed), map[], s.sessions[w := ss']);
    Extend(cfg, strict, before, w, CommitPrune, s1);
    AfterStep(s, w, ss', s1);
    run := EndsIdle(cfg, strict, before + [s1], w);
    SameTwice(s, s1, Final(run), w);
  }

  /** The first prune of a store, while nobody has an uncommitted effect, removes its candidates. */
  lemma PruneOne(cfg: Cfg, strict: bool, before: seq<Store>, w: string, policy: Policy, stream: string, rows: seq<Row>)
      returns (run: seq<Store>)
    requires Run(cfg, strict, before) && Rests(Final(before), w) && cfg.heldToCommit
    requires IsOrderBySeq(Final(before).t, stream, rows) && Candidates(policy, rows) != []
    requires Final(before).t.archive == {} && Final(before).t.checkpoints == {}
    ensures before <= run
    ensures Run(cfg, strict, run) && Rests(Final(run), w) && SameOthers(Final(before), Final(run), w)
    ensures var t := Final(before).t;
            var c := Candidates(policy, rows);
            Final(run).t == AfterPrune(t.(archive := set r | r in c :: MarkerOf(r)), stream, c, DoomedBy(t, c))
  {
    var c := Candidates(policy, rows);
    run := SelectStep(cfg, strict, before, w, policy, stream, rows);
    ghost var s1 := Final(run);
    run := ArchiveStep(cfg, strict, run, w, policy, stream, c);
    ghost var s2 := Final(run);
    SameTwice(Final(before), s1, s2, w);
    var doomed := DoomedBy(s2.t, c);
    run := DeleteStep(cfg, strict, run, w, policy, stream, c);
    ghost var s3 := Final(run);
    SameTwice(Final(before), s2, s3, w);
    run := CommitPruneStep(cfg, strict, run, w, policy, stream, c, doomed);
    SameTwice(Final(before), s3, Final(run), w);
  }

  // ---------------------------------------------------------------------------
  // Three events and two policies

  function Sample(id: string, createdAt: string): Event {
    Event(id, "login", "s", None, None, Null, Null, Null, Actor("user", None, None), None, None, None, None, None, None,
          None, [], "1", createdAt)
  }

  const FIRST: Event := Sample("a", "0")
  const SECOND: Event := Sample("b", "1")
  const THIRD: Event := Sample("c", "2")
  const FOURTH: Event := Sample("d", "3")

  /** Expires the first event, and the first two. */
  const ONE: Policy := Policy((name: string) => "1", None)
  const TWO: Policy := Policy((name: string) => "2", None)

  predicate Samples(rows: seq<Row>) {
    && |rows| == 3
    && rows[0].ev == FIRST && rows[1].ev == SECOND && rows[2].ev == THIRD
    && rows[0].seqNo == 1 && rows[1].seqNo == 2 && rows[2].seqNo == 3
  }

  lemma OneExpired(rows: seq<Row>)
    requires Samples(rows)
    ensures Candidates(ONE, rows) == [rows[0]] && Candidates(TWO, rows) == [rows[0], rows[1]]
  {
    CandidatesAre(ONE, rows);
    CandidatesAre(TWO, rows);
    assert LexBefore("0", "1") && !LexBefore("1", "1") && LexBefore("0", "2") && LexBefore("1", "2");
    assert Eligible(ONE, "login", rows[0]) && !Eligible(ONE, "login", rows[1]);
    assert Eligible(TWO, "login", rows[0]) && Eligible(TWO, "login", rows[1]);
    assert rows[..1] == [rows[0]] && rows[..2] == [rows[0], rows[1]];
  }

  /** The tables with these rows and nothing pruned. */
  function Filled(rows: seq<Row>): Tables {
    Tables(set r | r in rows, {}, {}, if rows == [] then map[] else map["s" := rows], map[])
  }

  lemma FilledNext(rows: seq<Row>, row: Row)
    ensures AfterWrite(Filled(rows), "s", [row]) == Filled(rows + [row])
  {
    var t := AfterWrite(Filled(rows), "s", [row]);
    assert (set r | r in [row]) == {row};
    assert t.live == Filled(rows + [row]).live;
    assert History(Filled(rows), "s") == rows;
    assert Filled(rows).history["s" := rows + [row]] == map["s" := rows + [row]];
  }

  /** The rows of the sample stream are numbered from 1. */
  ghost predicate SampleRows(rows: seq<Row>) {
    forall i | 0 <= i < |rows| :: rows[i].ev.stream == "s" && rows[i].seqNo == i + 1
  }

  lemma FilledHead(rows: seq<Row>)
    requires SampleRows(rows)
    ensures IsHead(Filled(rows), "s", if rows == [] then None else Some(Head(|rows|, Last(rows).hash)))
  {
    if rows != [] {
      assert Last(rows) in Filled(rows).live;
    }
  }

  /** Another event of the sample stream is written. */
  lemma WriteSample(cfg: Cfg, before: seq<Store>, rows: seq<Row>, e: Event) returns (run: seq<Store>, row: Row)
    requires cfg.heldToCommit && forall e, n, p :: cfg.hash(e, n, p).Some?
    requires IsRun(cfg, before) && Rests(Final(before), "w") && (forall v :: At(Final(before), v).Idle?)
    requires Final(before).t == Filled(rows) && SampleRows(rows) && e.stream == "s"
    requires forall r | r in rows :: r.ev.id != e.id
    ensures IsRun(cfg, run) && Rests(Final(run), "w") && forall v :: At(Final(run), v).Idle?
    ensures row.ev == e && SampleRows(rows + [row]) && Final(run).t == Filled(rows + [row])
  {
    var head := if rows == [] then None else Some(Head(|rows|, Last(rows).hash));
    row := Row(e, HeadSeq(head) + 1, HeadHash(head), cfg.hash(e, HeadSeq(head) + 1, HeadHash(head)).value);
    FilledHead(rows);
    run := WriteOne(cfg, true, before, "w", e, head, row);
    FilledNext(rows, row);
    AllIdle(Final(before), Final(run), "w");
  }

  lemma AllIdle(s: Store, s': Store, w: string)
    requires SameOthers(s, s', w) && At(s', w).Idle? && forall v :: At(s, v).Idle?
    ensures forall v :: At(s', v).Idle?
  {
    forall v ensures At(s', v).Idle? {
      assert v != w ==> At(s', v) == At(s, v);
    }
  }

  lemma EmptyRests(cfg: Cfg)
    ensures IsRun(cfg, [EMPTY]) && Rests(EMPTY, "w") && (forall v :: At(EMPTY, v).Idle?) && EMPTY.t == Filled([])
  {
  }

  /** The three events are written, and everybody is idle. */
  lemma WriteThree(cfg: Cfg) returns (run: seq<Store>, rows: seq<Row>)
    requires cfg.heldToCommit && forall e, n, p :: cfg.hash(e, n, p).Some?
    ensures IsRun(cfg, run) && Final(run).locks == map[] && forall v :: At(Final(run), v).Idle?
    ensures Samples(rows) && Final(run).t == Filled(rows)
  {
    EmptyRests(cfg);
    var r1, r2, r3;
    run, r1 := WriteSample(cfg, [EMPTY], [], FIRST);
    assert [] + [r1] == [r1];
    run, r2 := WriteSample(cfg, run, [r1], SECOND);
    assert [r1] + [r2] == [r1, r2];
    run, r3 := WriteSample(cfg, run, [r1, r2], THIRD);
    assert [r1, r2] + [r3] == [r1, r2, r3];
    rows := [r1, r2, r3];
    assert rows[0].seqNo == 1 && rows[1].seqNo == 2 && rows[2].seqNo == 3;
  }

  lemma Ordered(rows: seq<Row>)
    requires Samples(rows)
    ensures IsOrderBySeq(Filled(rows), "s", rows)
  {
  }

  /** What the prune of two rows leaves: the third. */
  lemma AfterPruning(rows: seq<Row>)
    requires Samples(rows)
    ensures var t, c := Filled(rows), [rows[0], rows[1]];
            AfterPrune(t.(archive := set r | r in c :: MarkerOf(r)), "s", c, DoomedBy(t, c)) ==
            Tables({rows[2]}, {MarkerOf(rows[0]), MarkerOf(rows[1])}, {CheckpointOf(rows[1])}, map["s" := rows], map["s" := 2])
  {
    var t, c := Filled(rows), [rows[0], rows[1]];
    assert rows == [rows[0], rows[1], rows[2]];
    assert c[0].ev.id == "a" && c[1].ev.id == "b";
    assert HasId(c, "a") && HasId(c, "b") && !HasId(c, "c");
    assert t.live == {rows[0], rows[1], rows[2]};
    assert DoomedBy(t, c) == {rows[0], rows[1]};
    assert t.live - {rows[0], rows[1]} == {rows[2]};
    assert (set r | r in c :: MarkerOf(r)) == {MarkerOf(rows[0]), MarkerOf(rows[1])};
  }

  /** The tables after that. */
  function Left(rows: seq<Row>): Tables
    requires |rows| == 3
  {
    Tables({rows[2]}, {MarkerOf(rows[0]), MarkerOf(rows[1])}, {CheckpointOf(rows[1])}, map["s" := rows], map["s" := 2])
  }

  // ---------------------------------------------------------------------------
  // Two prunes at once

  lemma AlreadyArchived(rows: seq<Row>)
    requires Samples(rows)
    ensures Missing(Left(rows).archive, [rows[0]]) == [] && !ArchiveConflict(Left(rows).archive, [rows[0]])
  {
    assert MarkerOf(rows[0]) in Left(rows).archive && MarkerOf(rows[0]).id == rows[0].ev.id;
    assert [rows[0]][1..] == [];
    assert Missing(Left(rows).archive, []) == [];
  }

  /** One session selects the first row; before it goes on, another, with another policy, prunes
      the first two. The first session then finds its row archived. */
  lemma SecondPruneFirst(cfg: Cfg) returns (run: seq<Store>, rows: seq<Row>)
    requires cfg.heldToCommit && forall e, n, p :: cfg.hash(e, n, p).Some?
    ensures IsRun(cfg, run) && Samples(rows) && Final(run).t == Left(rows) && Final(run).locks == map[]
    ensures At(Final(run), "p") == Pruner(ONE, "s", [rows[0]], Archived)
    ensures forall v | v != "p" :: At(Final(run), v).Idle?
  {
    run, rows := WriteThree(cfg);
    OneExpired(rows);
    Ordered(rows);
    ghost var s0 := Final(run);
    run := SelectStep(cfg, true, run, "p", ONE, "s", rows);
    ghost var s1 := Final(run);
    OthersIdle(s0, s1, "p");
    run := PruneOne(cfg, true, run, "q", TWO, "s", rows);
    ghost var s2 := Final(run);
    AfterPruning(rows);
    AlreadyArchived(rows);
    OthersIdleToo(s1, s2, "p", "q");
    run := Advance(cfg, true, run, "p", CheckArchive, Pruner(ONE, "s", [rows[0]], Archived));
    OthersIdle(s2, Final(run), "p");
  }

  lemma OthersIdle(s: Store, s': Store, w: string)
    requires SameOthers(s, s', w) && forall v | v != w :: At(s, v).Idle?
    ensures forall v | v != w :: At(s', v).Idle?
    ensures forall v | v != w && s'.locks == map[] && !Holding(At(s', w)) :: Rests(s', v)
  {
    forall v | v != w ensures At(s', v).Idle? {
      assert At(s, v).Idle?;
    }
    forall v | v != w && s'.locks == map[] && !Holding(At(s', w)) ensures Rests(s', v) {
      assert forall x | x != v :: !Holding(At(s', x));
    }
  }

  lemma OthersIdleToo(s: Store, s': Store, w: string, v: string)
    requires w != v && SameOthers(s, s', v) && At(s', v).Idle? && forall x | x != w :: At(s, x).Idle?
    ensures At(s', w) == At(s, w) && forall x | x != w :: At(s', x).Idle?
    ensures OthersCalm(s', w)
  {
    forall x | x != w ensures At(s', x).Idle? {
      assert x != v ==> At(s', x) == At(s, x);
    }
  }

  lemma LeftDoomed(rows: seq<Row>)
    requires Samples(rows)
    ensures DoomedBy(Left(rows), [rows[0]]) == {} && NoCheckpointAt(Left(rows), "s", 1)
  {
    assert !HasId([rows[0]], "c");
  }

  /** Two prunes with different policies overlap, and the first reports one row and removes none. */
  lemma PrunesMiscount(cfg: Cfg) returns (run: seq<Store>)
    requires cfg.heldToCommit && forall e, n, p :: cfg.hash(e, n, p).Some?
    ensures IsRun(cfg, run) && HasDeleted(At(Final(run), "p"))
    ensures At(Final(run), "p").phase.doomed == {} && |At(Final(run), "p").candidates| == 1
  {
    var rows;
    run, rows := SecondPruneFirst(cfg);
    LeftDoomed(rows);
    assert OthersCalm(Final(run), "p");
    run := DeleteStep(cfg, true, run, "p", ONE, "s", [rows[0]]);
  }

  // ---------------------------------------------------------------------------
  // Delivered again after a prune

  lemma LeftHead(rows: seq<Row>)
    requires Samples(rows)
    ensures IsHead(Left(rows), "s", Some(Head(3, rows[2].hash))) && IdNotLive(Left(rows), FIRST)
    ensures History(Left(rows), "s") == rows
  {
    assert rows[2] in Left(rows).live;
  }

  /** The first event is written again, as the fourth row. */
  lemma Redeliver(cfg: Cfg) returns (run: seq<Store>, rows: seq<Row>, r4: Row)
    requires cfg.heldToCommit && forall e, n, p :: cfg.hash(e, n, p).Some?
    ensures IsAnyRun(cfg, run) && Samples(rows) && r4.ev == FIRST && r4.seqNo == 4
    ensures Final(run).t == AfterWrite(Left(rows), "s", [r4]) && Final(run).locks == map[]
    ensures At(Final(run), "p") == Pruner(ONE, "s", [rows[0]], Archived)
    ensures forall v | v != "p" :: At(Final(run), v).Idle?
  {
    run, rows := SecondPruneFirst(cfg);
    ghost var s := Final(run);
    r4 := Row(FIRST, 4, rows[2].hash, cfg.hash(FIRST, 4, rows[2].hash).value);
    LeftHead(rows);
    ForgetFresh(cfg, run);
    OthersIdle(s, s, "p");
    run := WriteOne(cfg, false, run, "w", FIRST, Some(Head(3, rows[2].hash)), r4);
    OthersIdleToo(s, Final(run), "p", "w");
  }

  /** Delivered again after it was pruned, an event is stored twice. */
  lemma RedeliveryAfterPrune(cfg: Cfg) returns (run: seq<Store>)
    requires cfg.heldToCommit && forall e, n, p :: cfg.hash(e, n, p).Some?
    ensures IsAnyRun(cfg, run)
    ensures var h := History(Final(run).t, "s"); |h| == 4 && h[0].ev == FIRST && h[3].ev == FIRST
  {
    var rows, r4;
    run, rows, r4 := Redeliver(cfg);
  }

  /** What the slower prune then does: it deletes by id, and takes the stream's last row. */
  lemma LastRowGoes(rows: seq<Row>, r4: Row)
    requires Samples(rows) && r4.ev == FIRST && r4.seqNo == 4
    ensures var t := AfterWrite(Left(rows), "s", [r4]);
            && NoCheckpointAt(t, "s", 1) && DoomedBy(t, [rows[0]]) == {r4}
            && var t' := AfterPrune(t, "s", [rows[0]], {r4});
               && t'.live == {rows[2]} && History(t', "s") == rows + [r4]
               && IsHead(t', "s", Some(Head(3, rows[2].hash))) && IdNotLive(t', FOURTH)
  {
    var t := AfterWrite(Left(rows), "s", [r4]);
    assert (set r | r in [r4]) == {r4};
    assert t.live == {rows[2], r4};
    assert [rows[0]][0].ev.id == "a";
    assert HasId([rows[0]], "a") && !HasId([rows[0]], "c");
    assert DoomedBy(t, [rows[0]]) == {r4};
    assert t.live - {r4} == {rows[2]};
    assert rows[2] in AfterPrune(t, "s", [rows[0]], {r4}).live;
  }

  /** Delivered again while a slower prune is under way, an event takes the stream's last row with
      it: the live rows are no suffix of what was committed, and the next write gives out the number
      of the lost row a second time. */
  lemma NumberGivenTwice(cfg: Cfg) returns (run: seq<Store>)
    requires cfg.heldToCommit && forall e, n, p :: cfg.hash(e, n, p).Some?
    ensures IsAnyRun(cfg, run)
    ensures var h := History(Final(run).t, "s");
            && |h| == 5 && h[3].seqNo == 4 && h[4].seqNo == 4
            && h[3] !in Final(run).t.live && h[2] in Final(run).t.live
  {
    var rows, r4;
    run, rows, r4 := Redeliver(cfg);
    LastRowGoes(rows, r4);
    assert OthersCalm(Final(run), "p");
    ghost var s := Final(run);
    run := DeleteStep(cfg, false, run, "p", ONE, "s", [rows[0]]);
    ghost var s1 := Final(run);
    run := CommitPruneStep(cfg, false, run, "p", ONE, "s", [rows[0]], {r4});
    SameTwice(s, s1, Final(run), "p");
    OthersIdle(s, Final(run), "p");
    var r5 := Row(FOURTH, 4, rows[2].hash, cfg.hash(FOURTH, 4, rows[2].hash).value);
    ghost var t := Final(run).t;
    run := WriteOne(cfg, false, run, "w", FOURTH, Some(Head(3, rows[2].hash)), r5);
    assert History(Final(run).t, "s") == rows + [r4] + [r5];
    assert r4 !in t.live && r4 != r5;
  }
}
