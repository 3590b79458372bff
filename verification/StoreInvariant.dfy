/** What holds of the tables and of every session in the reachable states of the store. */
module StoreInvariant {
  import opened AuditTypes
  import opened HashChain
  import opened Grouping
  import opened WritePlan
  import opened Retention
  import opened AuditStore

  // ---------------------------------------------------------------------------
  // The tables

  /** Every stream ever written is a gapless chain from its first row. */
  ghost predicate HistoryOk(cfg: Cfg, t: Tables) {
    forall stream | stream in t.history :: StreamOk(cfg, stream, t.history[stream])
  }

  ghost predicate StreamOk(cfg: Cfg, stream: string, rows: seq<Row>) {
    && rows != []
    && IsChain(cfg.hash, rows, 0, GENESIS)
    && (forall i | 0 <= i < |rows| :: rows[i].ev.stream == stream)
  }

  /** The live rows are the rows of the histories above the pruned ones. */
  ghost predicate LiveOk(t: Tables) {
    forall r :: r in t.live <==> IsRow(t, r) && r.seqNo > Base(t, r.ev.stream)
  }

  /** No two live rows share an id. */
  ghost predicate LiveIdsOk(t: Tables) {
    forall r, r' | r in t.live && r' in t.live && r.ev.id == r'.ev.id :: r == r'
  }

  /** Pruning leaves the last row of every stream. */
  ghost predicate BaseOk(t: Tables) {
    forall stream | stream in t.pruned :: t.pruned[stream] < |History(t, stream)|
  }

  ghost predicate IsMarker(t: Tables, m: Marker) {
    1 <= m.seqNo <= |History(t, m.stream)| && m == MarkerOf(History(t, m.stream)[m.seqNo - 1])
  }

  /** Markers are those of committed rows, one for an id, and every pruned row has one. */
  ghost predicate ArchiveOk(t: Tables) {
    OnlyMarkers(t) && HaveMarkers(t) && MarkerIdsOk(t)
  }

  ghost predicate MarkerIdsOk(t: Tables) {
    forall m, m' | m in t.archive && m' in t.archive && m.id == m'.id :: m == m'
  }

  ghost predicate OnlyMarkers(t: Tables) {
    forall m | m in t.archive :: IsMarker(t, m)
  }

  ghost predicate HaveMarkers(t: Tables) {
    forall r | IsRow(t, r) && r.seqNo <= Base(t, r.ev.stream) :: MarkerOf(r) in t.archive
  }

  ghost predicate IsCheckpoint(t: Tables, c: Checkpoint) {
    && 1 <= c.seqNo <= Base(t, c.stream) && c.seqNo <= |History(t, c.stream)|
    && c == CheckpointOf(History(t, c.stream)[c.seqNo - 1])
  }

  ghost predicate HasCheckpoint(t: Tables, stream: string) {
    0 < Base(t, stream) ==>
      && Base(t, stream) <= |History(t, stream)|
      && CheckpointOf(History(t, stream)[Base(t, stream) - 1]) in t.checkpoints
  }

  /** Checkpoints are pruned rows, and the last pruned row of every stream is one. */
  ghost predicate CheckpointsOk(t: Tables) {
    OnlyCheckpoints(t) && HaveCheckpoints(t)
  }

  ghost predicate OnlyCheckpoints(t: Tables) {
    forall c | c in t.checkpoints :: IsCheckpoint(t, c)
  }

  ghost predicate HaveCheckpoints(t: Tables) {
    forall stream | stream in t.pruned :: HasCheckpoint(t, stream)
  }

  ghost predicate TablesOk(cfg: Cfg, t: Tables) {
    HistoryOk(cfg, t) && LiveOk(t) && LiveIdsOk(t) && BaseOk(t) && ArchiveOk(t) && CheckpointsOk(t)
  }

  // ---------------------------------------------------------------------------
  // A session by itself

  /** The rows chain the events of the group after the row the head read found. A head may be
      stale, but the row after it has not been pruned. */
  ghost predicate ChainedOnto(cfg: Cfg, t: Tables, g: Group<Event>, rows: seq<Row>) {
    && rows != [] && EventsOf(rows) == g.items && rows[0].seqNo >= 1
    && var k: nat := rows[0].seqNo - 1;
       && Base(t, g.name) <= k <= |History(t, g.name)|
       && IsChain(cfg.hash, rows, k, PrevOf(History(t, g.name), k, GENESIS))
  }

  /** No live row has an id of these rows. */
  ghost predicate NotLive(t: Tables, rows: seq<Row>) {
    forall i, r | 0 <= i < |rows| && r in t.live :: r.ev.id != rows[i].ev.id
  }

  ghost predicate TxOk(cfg: Cfg, t: Tables, todo: seq<Group<Event>>, tx: Tx) {
    match tx
    case NoTx => true
    case Locked => todo != []
    case HeadRead(rows) => todo != [] && ChainedOnto(cfg, t, todo[0], rows)
    case Inserted(rows) =>
      && todo != [] && ChainedOnto(cfg, t, todo[0], rows)
      && rows[0].seqNo == |History(t, todo[0].name)| + 1
      && NotLive(t, rows)
  }

  ghost predicate GroupsOk(todo: seq<Group<Event>>) {
    forall i | 0 <= i < |todo| ::
      && todo[i].items != [] && DistinctIds(todo[i].items)
      && forall j | 0 <= j < |todo[i].items| :: todo[i].items[j].stream == todo[i].name
  }

  predicate HasItem(g: Group<Event>, id: string) {
    exists j | 0 <= j < |g.items| :: g.items[j].id == id
  }

  /** No id still to be inserted is stored already or in two groups. */
  ghost predicate OwnIds(todo: seq<Group<Event>>, results: map<string, Row>) {
    && (forall i, id | 0 <= i < |todo| && HasItem(todo[i], id) :: id !in results)
    && (forall i, j, id | 0 <= i < j < |todo| && HasItem(todo[i], id) :: !HasItem(todo[j], id))
  }

  ghost predicate AmongGroups(fp: Fp, todo: seq<Group<Event>>, e: Event) {
    exists i | 0 <= i < |todo| :: Among(fp, todo[i].items, e)
  }

  ghost predicate ResultsOk(t: Tables, results: map<string, Row>) {
    forall id | id in results :: IsRow(t, results[id]) && results[id].ev.id == id
  }

  /** Every event of the batch is stored already or still to be inserted. */
  ghost predicate BatchOk(fp: Fp, batch: seq<Event>, todo: seq<Group<Event>>, results: map<string, Row>) {
    forall i | 0 <= i < |batch| :: Stored(fp, results, batch[i]) || AmongGroups(fp, todo, batch[i])
  }

  /** The rows returned for a batch are committed rows that match it position by position. */
  ghost predicate Matches(fp: Fp, t: Tables, batch: seq<Event>, rows: seq<Row>) {
    && |rows| == |batch|
    && forall i | 0 <= i < |batch| :: IsRow(t, rows[i]) && rows[i].ev.id == batch[i].id && SameAs(fp, rows[i].ev, batch[i])
  }

  /** The candidates are consecutive rows that start no later than the first row not pruned, end
      before the stream's last row, have different ids and one event name, and have expired. */
  ghost predicate CandidatesOk(t: Tables, policy: Policy, stream: string, c: seq<Row>) {
    && c != [] && c[0].seqNo >= 1
    && var a: nat := c[0].seqNo - 1;
       && a <= Base(t, stream)
       && a + |c| < |History(t, stream)|
       && c == History(t, stream)[a..a + |c|]
       && DistinctIds(EventsOf(c))
       && (forall i | 0 <= i < |c| :: Expired(policy, c[i]) && c[i].ev.event == c[0].ev.event)
       && (policy.eventFilter.Some? ==> c[0].ev.event == policy.eventFilter.value)
  }

  ghost predicate AllArchived(t: Tables, c: seq<Row>) {
    forall i | 0 <= i < |c| :: MarkerOf(c[i]) in t.archive
  }

  ghost predicate PhaseOk(t: Tables, stream: string, c: seq<Row>, phase: Phase) {
    match phase
    case Between => true
    case Selected => true
    case ToArchive(missing) =>
      && (forall i | 0 <= i < |missing| :: missing[i] in c)
      && (forall i | 0 <= i < |c| :: c[i] in missing || MarkerOf(c[i]) in t.archive)
    case Archived => AllArchived(t, c)
    case LockedForDelete => AllArchived(t, c)
    case Deleted(doomed) =>
      && AllArchived(t, c)
      && c != []
      && DoomsUpTo(t, stream, Last(c).seqNo, doomed)
  }

  /** Live rows are doomed, among them every one of the stream up to number `n`. */
  ghost predicate DoomsUpTo(t: Tables, stream: string, n: nat, doomed: set<Row>) {
    && (forall r | r in doomed :: r in t.live)
    && (forall r | r in t.live && r.ev.stream == stream && r.seqNo <= n :: r in doomed)
  }

  ghost predicate SessionOk(cfg: Cfg, t: Tables, ss: Session) {
    match ss
    case Idle => true
    case Writing(batch, todo, results, tx) =>
      && GroupsOk(todo) && OwnIds(todo, results)
      && ResultsOk(t, results) && BatchOk(cfg.fp, batch, todo, results)
      && TxOk(cfg, t, todo, tx)
    case Returned(batch, rows) => Matches(cfg.fp, t, batch, rows)
    case Pruning(policy, stream, c, phase, total, perEvent) =>
      && (!phase.Between? ==> CandidatesOk(t, policy, stream, c))
      && PhaseOk(t, stream, c, phase)
      && Total(perEvent, total)
  }

  /** `total` is the sum of the counts. */
  ghost predicate Total(perEvent: map<string, nat>, total: nat) {
    SumOf(perEvent) == total
  }

  ghost function SumOf(m: map<string, nat>): nat
    decreases |m|
  {
    if m == map[] then 0
    else
      var k := Pick(m);
      m[k] + SumOf(m - {k})
  }

  ghost function Pick(m: map<string, nat>): string
    requires m != map[]
    ensures Pick(m) in m
  {
    assert m.Keys == {} ==> m == map[];
    var k :| k in m.Keys;
    k
  }

  // ---------------------------------------------------------------------------
  // Sessions together

  /** From taking the lock until the insert, or until the delete, a session holds it. */
  ghost predicate LockOk(cfg: Cfg, locks: map<string, string>, w: string, ss: Session) {
    && (ss.Writing? && (ss.tx.Locked? || ss.tx.HeadRead?) && ss.todo != [] ==>
          var key := cfg.lockKey(ss.todo[0].name); key in locks && locks[key] == w)
    && (ss.Pruning? && ss.phase.LockedForDelete? ==>
          var key := cfg.lockKey(ss.stream); key in locks && locks[key] == w)
  }

  predicate HasReadHead(ss: Session) {
    ss.Writing? && ss.todo != [] && ss.tx.HeadRead? && ss.tx.rows != []
  }

  /** Of two other sessions: uncommitted inserts do not clash, uncommitted deletes do not overlap,
      and no uncommitted delete reaches past a head that was read. */
  ghost predicate PairOk(a: Session, b: Session) {
    && (HasInserted(a) && HasInserted(b) ==> NoClash(a.tx.rows, b.tx.rows))
    && (HasDeleted(a) && HasDeleted(b) ==> a.phase.doomed !! b.phase.doomed)
    && (HasReadHead(a) && HasDeleted(b) && b.candidates != [] && b.stream == a.todo[0].name ==>
          Last(b.candidates).seqNo < a.tx.rows[0].seqNo)
  }

  ghost predicate Inv(cfg: Cfg, s: Store) {
    && TablesOk(cfg, s.t)
    && (forall w :: SessionOk(cfg, s.t, At(s, w)))
    && (forall w :: LockOk(cfg, s.locks, w, At(s, w)))
    && (forall v, w | v != w :: PairOk(At(s, v), At(s, w)))
  }

  // ---------------------------------------------------------------------------
  // Ids

  /** No two rows ever committed share an id. */
  ghost predicate IdsOk(t: Tables) {
    forall r, r' | IsRow(t, r) && IsRow(t, r') && r.ev.id == r'.ev.id :: r == r'
  }

  /** No committed row has an id of these rows. */
  ghost predicate NewIds(t: Tables, rows: seq<Row>) {
    forall i, r | 0 <= i < |rows| && IsRow(t, r) :: r.ev.id != rows[i].ev.id
  }

  /** What is deleted and not yet committed are rows that were selected. */
  ghost predicate IdInv(s: Store) {
    IdsOk(s.t) && forall w :: Tight(At(s, w))
  }

  /** All that holds in runs in which no pruned event is delivered again. */
  ghost predicate FullInv(cfg: Cfg, s: Store) {
    Inv(cfg, s) && IdInv(s)
  }
}
