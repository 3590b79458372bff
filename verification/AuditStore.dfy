/** The SQL store as a transition system (src/stores/lucid_store.ts): any number of sessions run
    `write` and `prune` concurrently on shared tables, one SQL statement or transaction boundary
    per step, and any of them may fail or crash at any point.

    Effects of a transaction become visible when it commits. A unique index makes an insert fail
    on a committed key and wait while another transaction has inserted the key and not yet
    finished; a delete waits for a row another transaction is deleting. */
module AuditStore {
  import opened Wrappers
  import opened AuditTypes
  import opened HashChain
  import opened Grouping
  import opened WritePlan
  import opened Retention

  /** The hash and fingerprint functions; the name of the lock of a stream, where two streams may
      share a name; and whether the lock is held until the transaction ends (a PostgreSQL
      transaction lock, SQLite's single writer) or released just before it (MySQL). */
  datatype Cfg = Cfg(hash: HashFn, fp: Fp, lockKey: string -> string, heldToCommit: bool)

  datatype Marker = Marker(id: string, stream: string, seqNo: nat, hash: Hash, prevHash: Hash)

  datatype Checkpoint = Checkpoint(stream: string, seqNo: nat, hash: Hash)

  /** The tables, and two records the program does not keep: every row ever committed of each
      stream, in commit order, and how many of them were pruned. */
  datatype Tables = Tables(
    live: set<Row>,
    archive: set<Marker>,
    checkpoints: set<Checkpoint>,
    history: map<string, seq<Row>>,
    pruned: map<string, nat>)

  /** The transaction of a write to one stream. */
  datatype Tx = NoTx | Locked | HeadRead(rows: seq<Row>) | Inserted(rows: seq<Row>)

  /** Where a prune of one stream stands. */
  datatype Phase =
    | Between
    | Selected
    | ToArchive(missing: seq<Row>)
    | Archived
    | LockedForDelete
    | Deleted(doomed: set<Row>)

  datatype Session =
    | Idle
    | Writing(batch: seq<Event>, todo: seq<Group<Event>>, results: map<string, Row>, tx: Tx)
    | Returned(batch: seq<Event>, rows: seq<Row>)
    | Pruning(policy: Policy, stream: string, candidates: seq<Row>, phase: Phase, total: nat, perEvent: map<string, nat>)

  datatype Store = Store(t: Tables, locks: map<string, string>, sessions: map<string, Session>)

  datatype Step =
    | StartWrite(batch: seq<Event>, existing: map<string, Row>)
    | TakeLock
    | ReadHead(head: Option<Head>)
    | Insert
    | Release
    | Commit
    | Finish
    | Reset
    | Abort
    | StartPrune(policy: Policy)
    | SelectRows(stream: string, rows: seq<Row>)
    | CheckArchive
    | Archive
    | TakePruneLock
    | Delete
    | CommitPrune
    | EndPrune

  // ---------------------------------------------------------------------------
  // Reading the tables

  function History(t: Tables, stream: string): seq<Row> {
    if stream in t.history then t.history[stream] else []
  }

  function Base(t: Tables, stream: string): nat {
    if stream in t.pruned then t.pruned[stream] else 0
  }

  function At(s: Store, w: string): Session {
    if w in s.sessions then s.sessions[w] else Idle
  }

  function MarkerOf(r: Row): Marker {
    Marker(r.ev.id, r.ev.stream, r.seqNo, r.hash, r.prevHash)
  }

  function CheckpointOf(r: Row): Checkpoint {
    Checkpoint(r.ev.stream, r.seqNo, r.hash)
  }

  /** The newest live row of the stream: order by seq descending, limit one. */
  ghost predicate IsHead(t: Tables, stream: string, head: Option<Head>) {
    match head
    case None => forall r | r in t.live :: r.ev.stream != stream
    case Some(h) =>
      && (exists r | r in t.live :: r.ev.stream == stream && r.seqNo == h.seqNo && r.hash == h.hash)
      && (forall r | r in t.live && r.ev.stream == stream :: r.seqNo <= h.seqNo)
  }

  /** The live rows of the stream: order by seq ascending. */
  ghost predicate IsOrderBySeq(t: Tables, stream: string, rows: seq<Row>) {
    && (forall i, j | 0 <= i < j < |rows| :: rows[i].seqNo < rows[j].seqNo)
    && (forall r :: r in rows <==> r in t.live && r.ev.stream == stream)
  }

  /** The live rows with an id of the batch, by id. */
  ghost predicate IsExisting(t: Tables, batch: seq<Event>, existing: map<string, Row>) {
    && (forall id | id in existing :: existing[id] in t.live && existing[id].ev.id == id)
    && (forall r, i | r in t.live && 0 <= i < |batch| && batch[i].id == r.ev.id :: r.ev.id in existing)
  }

  /** Two rows cannot both be in the table: one primary key, or one place in one stream. */
  predicate Clash(a: Row, b: Row) {
    a.ev.id == b.ev.id || (a.ev.stream == b.ev.stream && a.seqNo == b.seqNo)
  }

  predicate NoClash(xs: seq<Row>, ys: seq<Row>) {
    forall i, j | 0 <= i < |xs| && 0 <= j < |ys| :: !Clash(xs[i], ys[j])
  }

  predicate InTable(live: set<Row>, xs: seq<Row>) {
    exists i, r | 0 <= i < |xs| && r in live :: Clash(xs[i], r)
  }

  predicate HasInserted(ss: Session) {
    ss.Writing? && ss.tx.Inserted?
  }

  predicate HasDeleted(ss: Session) {
    ss.Pruning? && ss.phase.Deleted?
  }

  predicate HasId(rows: seq<Row>, id: string) {
    exists i | 0 <= i < |rows| :: rows[i].ev.id == id
  }

  // ---------------------------------------------------------------------------
  // Changing the state

  function Put(s: Store, w: string, ss: Session): Store {
    s.(sessions := s.sessions[w := ss])
  }

  function Unlock(locks: map<string, string>, w: string): map<string, string> {
    map k | k in locks && locks[k] != w :: locks[k]
  }

  /** The session throws or crashes: its transaction rolls back and its locks are released. */
  function Aborted(s: Store, w: string): Store {
    Put(s, w, Idle).(locks := Unlock(s.locks, w))
  }

  function ById(rows: seq<Row>): map<string, Row> {
    if rows == [] then map[] else ById(rows[..|rows| - 1])[rows[|rows| - 1].ev.id := rows[|rows| - 1]]
  }

  function AfterWrite(t: Tables, stream: string, rows: seq<Row>): Tables {
    t.(live := t.live + (set r | r in rows), history := t.history[stream := History(t, stream) + rows])
  }

  /** The candidates whose id is not in the archive. */
  function Missing(archive: set<Marker>, candidates: seq<Row>): seq<Row> {
    if candidates == [] then []
    else
      var rest := Missing(archive, candidates[1..]);
      if exists m | m in archive :: m.id == candidates[0].ev.id then rest else [candidates[0]] + rest
  }

  /** An archived marker has the id of a candidate but is not that candidate's marker. */
  predicate ArchiveConflict(archive: set<Marker>, candidates: seq<Row>) {
    exists i, m | 0 <= i < |candidates| && m in archive :: m.id == candidates[i].ev.id && m != MarkerOf(candidates[i])
  }

  /** Inserting the markers would violate the archive's primary key or its unique place. */
  predicate ArchiveClash(archive: set<Marker>, rows: seq<Row>) {
    exists i, m | 0 <= i < |rows| && m in archive ::
      m.id == rows[i].ev.id || (m.stream == rows[i].ev.stream && m.seqNo == rows[i].seqNo)
  }

  function Last(rows: seq<Row>): Row
    requires rows != []
  {
    rows[|rows| - 1]
  }

  function AfterPrune(t: Tables, stream: string, candidates: seq<Row>, doomed: set<Row>): Tables
    requires candidates != []
  {
    var to := Last(candidates);
    t.(live := t.live - doomed,
       checkpoints := t.checkpoints + {CheckpointOf(to)},
       pruned := t.pruned[stream := if to.seqNo > Base(t, stream) then to.seqNo else Base(t, stream)])
  }

  function Counted(perEvent: map<string, nat>, event: string, count: nat): map<string, nat> {
    perEvent[event := (if event in perEvent then perEvent[event] else 0) + count]
  }

  // ---------------------------------------------------------------------------
  // The steps

  ghost predicate Next(cfg: Cfg, s: Store, w: string, step: Step, s': Store) {
    var ss := At(s, w);
    match step
    case StartWrite(batch, existing) =>
      && ss.Idle?
      && if batch == [] then s' == Put(s, w, Returned([], []))
         else
           && IsExisting(s.t, batch, existing)
           && (match PlanAll(cfg.fp, existing, batch)
               case None => s' == s
               case Some(p) => s' == Put(s, w, Writing(batch, GroupAll(StreamOf, p.additions), p.results, NoTx)))
    case TakeLock =>
      && ss.Writing? && ss.todo != [] && ss.tx.NoTx?
      && cfg.lockKey(ss.todo[0].name) !in s.locks
      && s' == Put(s, w, ss.(tx := Locked)).(locks := s.locks[cfg.lockKey(ss.todo[0].name) := w])
    case ReadHead(head) =>
      && ss.Writing? && ss.todo != [] && ss.tx.Locked?
      && IsHead(s.t, ss.todo[0].name, head)
      && (match ChainFrom(cfg.hash, ss.todo[0].items, HeadSeq(head), HeadHash(head))
          case None => s' == Aborted(s, w)
          case Some(rows) => s' == Put(s, w, ss.(tx := HeadRead(rows))))
    case Insert =>
      && ss.Writing? && ss.tx.HeadRead?
      && (forall v | v != w && HasInserted(At(s, v)) :: NoClash(At(s, v).tx.rows, ss.tx.rows))
      && s' == if InTable(s.t.live, ss.tx.rows) then Aborted(s, w) else Put(s, w, ss.(tx := Inserted(ss.tx.rows)))
    case Release =>
      && !cfg.heldToCommit && (HasInserted(ss) || HasDeleted(ss))
      && s' == s.(locks := Unlock(s.locks, w))
    case Commit =>
      && HasInserted(ss) && ss.todo != []
      && (!cfg.heldToCommit ==> Unlock(s.locks, w) == s.locks)
      && s' == Store(
           AfterWrite(s.t, ss.todo[0].name, ss.tx.rows),
           Unlock(s.locks, w),
           s.sessions[w := ss.(todo := ss.todo[1..], results := ss.results + ById(ss.tx.rows), tx := NoTx)])
    case Finish =>
      && ss.Writing? && ss.todo == [] && ss.tx.NoTx?
      && s' == if forall i | 0 <= i < |ss.batch| :: ss.batch[i].id in ss.results
               then Put(s, w, Returned(ss.batch,
                      seq(|ss.batch|, i requires 0 <= i < |ss.batch| && ss.batch[i].id in ss.results => ss.results[ss.batch[i].id])))
               else Aborted(s, w)
    case Reset =>
      ss.Returned? && s' == Put(s, w, Idle)
    case Abort =>
      s' == Aborted(s, w)
    case StartPrune(policy) =>
      ss.Idle? && s' == Put(s, w, Pruning(policy, "", [], Between, 0, map[]))
    case SelectRows(stream, rows) =>
      && ss.Pruning? && ss.phase.Between?
      && IsOrderBySeq(s.t, stream, rows)
      && var c := Candidates(ss.policy, rows);
         s' == if c == [] then s else Put(s, w, ss.(stream := stream, candidates := c, phase := Selected))
    case CheckArchive =>
      && ss.Pruning? && ss.phase.Selected?
      && var missing := Missing(s.t.archive, ss.candidates);
         s' == if ArchiveConflict(s.t.archive, ss.candidates) then Aborted(s, w)
               else Put(s, w, ss.(phase := if missing == [] then Archived else ToArchive(missing)))
    case Archive =>
      && ss.Pruning? && ss.phase.ToArchive?
      && s' == if ArchiveClash(s.t.archive, ss.phase.missing) then Aborted(s, w)
               else Put(s, w, ss.(phase := Archived)).(
                      t := s.t.(archive := s.t.archive + (set r | r in ss.phase.missing :: MarkerOf(r))))
    case TakePruneLock =>
      && ss.Pruning? && ss.phase.Archived?
      && cfg.lockKey(ss.stream) !in s.locks
      && s' == Put(s, w, ss.(phase := LockedForDelete)).(locks := s.locks[cfg.lockKey(ss.stream) := w])
    case Delete =>
      && ss.Pruning? && ss.phase.LockedForDelete? && ss.candidates != []
      && var doomed := set r | r in s.t.live && HasId(ss.candidates, r.ev.id);
      && (forall v | v != w && HasDeleted(At(s, v)) :: At(s, v).phase.doomed !! doomed)
      && s' == if exists c | c in s.t.checkpoints :: c.stream == ss.stream && c.seqNo == Last(ss.candidates).seqNo
               then Aborted(s, w)
               else Put(s, w, ss.(phase := Deleted(doomed)))
    case CommitPrune =>
      && HasDeleted(ss) && ss.candidates != []
      && (!cfg.heldToCommit ==> Unlock(s.locks, w) == s.locks)
      && s' == Store(
           AfterPrune(s.t, ss.stream, ss.candidates, ss.phase.doomed),
           Unlock(s.locks, w),
           s.sessions[w := ss.(phase := Between, total := ss.total + |ss.candidates|,
                               perEvent := Counted(ss.perEvent, ss.candidates[0].ev.event, |ss.candidates|))])
    case EndPrune =>
      ss.Pruning? && ss.phase.Between? && s' == Put(s, w, Idle)
  }

  /** `r` is the row of its stream with its number, among all rows ever committed. */
  predicate IsRow(t: Tables, r: Row) {
    1 <= r.seqNo <= |History(t, r.ev.stream)| && History(t, r.ev.stream)[r.seqNo - 1] == r
  }

  /** No archived marker has the id of one of the rows. */
  ghost predicate Unarchived(t: Tables, rows: seq<Row>) {
    forall i, m | 0 <= i < |rows| && m in t.archive :: m.id != rows[i].ev.id
  }

  /** What is committed has no id of an archived row. Deduplication sees live rows only, so this is
      an assumption about callers: a pruned event is not delivered again. */
  ghost predicate FreshStep(s: Store, w: string, step: Step) {
    step.Commit? && HasInserted(At(s, w)) ==> Unarchived(s.t, At(s, w).tx.rows)
  }

  /** A prune that has deleted and not yet committed: what it deleted, by id, are rows it selected. */
  predicate Tight(ss: Session) {
    HasDeleted(ss) ==> forall r | r in ss.phase.doomed :: r in ss.candidates
  }

  /** A prune that commits in this step removes only rows it selected. */
  ghost predicate TightStep(s: Store, w: string, step: Step) {
    step.CommitPrune? ==> Tight(At(s, w))
  }

  const EMPTY: Store := Store(Tables({}, {}, {}, map[], map[]), map[], map[])

  /** A run from the empty store in which no pruned event is delivered again. */
  ghost predicate IsRun(cfg: Cfg, run: seq<Store>) {
    && run != [] && run[0] == EMPTY
    && forall i | 0 <= i < |run| - 1 :: CanStep(cfg, run[i], run[i + 1])
  }

  ghost predicate CanStep(cfg: Cfg, s: Store, s': Store) {
    exists w, step :: Next(cfg, s, w, step, s') && FreshStep(s, w, step)
  }

  /** A run from the empty store in which every prune removes only rows it selected, whatever is
      delivered again. */
  ghost predicate IsTightRun(cfg: Cfg, run: seq<Store>) {
    && run != [] && run[0] == EMPTY
    && forall i | 0 <= i < |run| - 1 :: CanStepTightly(cfg, run[i], run[i + 1])
  }

  ghost predicate CanStepTightly(cfg: Cfg, s: Store, s': Store) {
    exists w, step :: Next(cfg, s, w, step, s') && TightStep(s, w, step)
  }

  /** A run with no assumption at all. */
  ghost predicate IsAnyRun(cfg: Cfg, run: seq<Store>) {
    && run != [] && run[0] == EMPTY
    && forall i | 0 <= i < |run| - 1 :: CanStepAtAll(cfg, run[i], run[i + 1])
  }

  ghost predicate CanStepAtAll(cfg: Cfg, s: Store, s': Store) {
    exists w, step :: Next(cfg, s, w, step, s')
  }
}
