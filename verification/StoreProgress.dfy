/** What a session of the store (src/stores/lucid_store.ts) can always do: while nobody else has an
    uncommitted effect, a write goes through and returns its rows, and a write of what is stored
    already returns the stored rows and inserts nothing. */
module StoreProgress {
  import opened Wrappers
  import opened AuditTypes
  import opened HashChain
  import opened Grouping
  import opened WritePlan
  import opened AuditStore
  import opened StoreInvariant
  import opened StoreTables
  import opened StoreProof
  import opened StorePrune
  import opened StoreRuns

  // ---------------------------------------------------------------------------
  // A session at work

  /** A step of a write after its start. */
  predicate OfWrite(step: Step) {
    step.TakeLock? || step.ReadHead? || step.Insert? || step.Release? || step.Commit? || step.Finish?
  }

  ghost predicate CanWork(cfg: Cfg, w: string, s: Store, s': Store) {
    exists step :: OfWrite(step) && Next(cfg, s, w, step, s')
  }

  /** Session `w` takes steps of its write, and nobody else moves. */
  ghost predicate Works(cfg: Cfg, w: string, path: seq<Store>) {
    path != [] && forall i | 0 <= i < |path| - 1 :: CanWork(cfg, w, path[i], path[i + 1])
  }

  lemma WorksMore(cfg: Cfg, w: string, path: seq<Store>, s': Store)
    requires Works(cfg, w, path) && CanWork(cfg, w, Final(path), s')
    ensures Works(cfg, w, path + [s']) && Final(path + [s']) == s'
  {
    var all := path + [s'];
    forall i | 0 <= i < |all| - 1 ensures CanWork(cfg, w, all[i], all[i + 1]) {
      if i < |path| - 1 {
        assert CanWork(cfg, w, path[i], path[i + 1]);
      }
    }
  }

  lemma WorksOn(cfg: Cfg, w: string, a: seq<Store>, b: seq<Store>)
    requires Works(cfg, w, a) && Works(cfg, w, b) && Final(a) == b[0]
    ensures Works(cfg, w, a + b[1..]) && Final(a + b[1..]) == Final(b) && (a + b[1..])[0] == a[0]
  {
    var all := a + b[1..];
    forall i | 0 <= i < |all| - 1 ensures CanWork(cfg, w, all[i], all[i + 1]) {
      if i < |a| - 1 {
        assert CanWork(cfg, w, a[i], a[i + 1]);
      } else {
        assert CanWork(cfg, w, b[i - |a| + 1], b[i - |a| + 2]);
      }
    }
  }

  // ---------------------------------------------------------------------------
  // One group

  /** The event is hashed wherever it is put. */
  ghost predicate Hashes(hash: HashFn, e: Event) {
    forall n, p :: hash(e, n, p).Some?
  }

  ghost predicate AllHash(hash: HashFn, events: seq<Event>) {
    forall e | e in events :: Hashes(hash, e)
  }

  lemma {:induction false} ChainsAll(hash: HashFn, events: seq<Event>, n: nat, h: Hash)
    requires AllHash(hash, events)
    ensures ChainFrom(hash, events, n, h).Some?
  {
    if events == [] {
    } else {
      assert Hashes(hash, events[0]);
      ChainsAll(hash, events[1..], n + 1, hash(events[0], n + 1, h).value);
    }
  }

  /** The head a stream has. */
  lemma FindHead(cfg: Cfg, t: Tables, stream: string) returns (head: Option<Head>)
    requires HistoryOk(cfg, t) && LiveOk(t) && BaseOk(t)
    ensures IsHead(t, stream, head)
  {
    var h := History(t, stream);
    HistoryIsPlaced(cfg, t, stream);
    if h == [] {
      head := None;
    } else {
      BaseInHistory(t, stream);
      RowAfterIsLive(cfg, t, stream, |h| - 1);
      head := Some(Head(|h|, Last(h).hash));
    }
  }

  /** No live row has an id that is still to be inserted. */
  ghost predicate IdsFree(t: Tables, todo: seq<Group<Event>>) {
    forall i, r | 0 <= i < |todo| && r in t.live :: !HasItem(todo[i], r.ev.id)
  }

  /** The session is about to take the lock of its next group, and nobody is in its way. */
  ghost predicate AtGroup(cfg: Cfg, s: Store, w: string) {
    && Inv(cfg, s) && s.locks == map[] && OthersCalm(s, w)
    && At(s, w).Writing? && At(s, w).tx.NoTx? && IdsFree(s.t, At(s, w).todo)
  }

  lemma ItemOfRow(g: Group<Event>, rows: seq<Row>, i: nat)
    requires EventsOf(rows) == g.items && i < |rows|
    ensures HasItem(g, rows[i].ev.id) && rows[i].ev in g.items
  {
    assert g.items[i] == rows[i].ev;
  }

  lemma NotAboveHead(t: Tables, stream: string, head: Option<Head>, r: Row)
    requires IsHead(t, stream, head) && r in t.live && r.ev.stream == stream
    ensures r.seqNo <= HeadSeq(head)
  {
  }

  lemma RowFits(t: Tables, g: Group<Event>, head: Option<Head>, row: Row, r: Row)
    requires IsHead(t, g.name, head) && r in t.live && !HasItem(g, r.ev.id)
    requires HasItem(g, row.ev.id) && row.ev.stream == g.name && row.seqNo > HeadSeq(head)
    ensures !Clash(row, r)
  {
    if r.ev.stream == g.name {
      NotAboveHead(t, g.name, head, r);
    }
  }

  lemma NewRowsFit(t: Tables, g: Group<Event>, head: Option<Head>, rows: seq<Row>)
    requires IsHead(t, g.name, head) && EventsOf(rows) == g.items
    requires forall i | 0 <= i < |rows| :: rows[i].seqNo > HeadSeq(head) && rows[i].ev.stream == g.name
    requires forall r | r in t.live :: !HasItem(g, r.ev.id)
    ensures !InTable(t.live, rows)
  {
    forall i, r | 0 <= i < |rows| && r in t.live ensures !Clash(rows[i], r) {
      ItemOfRow(g, rows, i);
      RowFits(t, g, head, rows[i], r);
    }
  }

  lemma NewRowsPlaced(hash: HashFn, g: Group<Event>, head: Option<Head>, rows: seq<Row>)
    requires ChainFrom(hash, g.items, HeadSeq(head), HeadHash(head)) == Some(rows)
    requires forall j | 0 <= j < |g.items| :: g.items[j].stream == g.name
    ensures EventsOf(rows) == g.items
    ensures forall i | 0 <= i < |rows| :: rows[i].seqNo > HeadSeq(head) && rows[i].ev.stream == g.name
  {
    ChainFromIs(hash, g.items, HeadSeq(head), HeadHash(head), rows);
    forall i | 0 <= i < |rows| ensures rows[i].seqNo > HeadSeq(head) && rows[i].ev.stream == g.name {
      assert Follows(hash, rows, i, HeadSeq(head), HeadHash(head));
      assert g.items[i] == rows[i].ev;
    }
  }

  lemma LocksGroup(cfg: Cfg, s: Store, w: string) returns (s': Store)
    requires AtGroup(cfg, s, w) && At(s, w).todo != []
    ensures CanWork(cfg, w, s, s') && Inv(cfg, s') && s'.t == s.t
    ensures At(s', w) == At(s, w).(tx := Locked) && OthersCalm(s', w) && SameOthers(s, s', w)
    ensures s'.locks == map[cfg.lockKey(At(s, w).todo[0].name) := w]
  {
    var ss := At(s, w);
    s' := Put(s, w, ss.(tx := Locked)).(locks := s.locks[cfg.lockKey(ss.todo[0].name) := w]);
    AfterStep(s, w, ss.(tx := Locked), s');
    assert Next(cfg, s, w, TakeLock, s');
    StepKeeps(cfg, s, w, TakeLock, s');
  }

  /** The rows the group is chained to. */
  lemma FindRows(cfg: Cfg, t: Tables, g: Group<Event>) returns (head: Option<Head>, rows: seq<Row>)
    requires HistoryOk(cfg, t) && LiveOk(t) && BaseOk(t) && AllHash(cfg.hash, g.items)
    ensures IsHead(t, g.name, head) && ChainFrom(cfg.hash, g.items, HeadSeq(head), HeadHash(head)) == Some(rows)
  {
    head := FindHead(cfg, t, g.name);
    ChainsAll(cfg.hash, g.items, HeadSeq(head), HeadHash(head));
    rows := ChainFrom(cfg.hash, g.items, HeadSeq(head), HeadHash(head)).value;
  }

  lemma ReadsHead(cfg: Cfg, s: Store, w: string, head: Option<Head>, rows: seq<Row>)
    requires At(s, w).Writing? && At(s, w).tx.Locked? && At(s, w).todo != [] && IsHead(s.t, At(s, w).todo[0].name, head)
    requires ChainFrom(cfg.hash, At(s, w).todo[0].items, HeadSeq(head), HeadHash(head)) == Some(rows)
    ensures CanWork(cfg, w, s, Put(s, w, At(s, w).(tx := HeadRead(rows))))
  {
    assert OfWrite(ReadHead(head)) && Next(cfg, s, w, ReadHead(head), Put(s, w, At(s, w).(tx := HeadRead(rows))));
  }

  lemma ReadsGroup(cfg: Cfg, s: Store, w: string, head: Option<Head>, rows: seq<Row>) returns (s': Store)
    requires Inv(cfg, s) && OthersCalm(s, w) && At(s, w).Writing? && At(s, w).tx.Locked? && At(s, w).todo != []
    requires IsHead(s.t, At(s, w).todo[0].name, head)
    requires ChainFrom(cfg.hash, At(s, w).todo[0].items, HeadSeq(head), HeadHash(head)) == Some(rows)
    ensures CanWork(cfg, w, s, s') && Inv(cfg, s') && s'.t == s.t && s'.locks == s.locks
    ensures At(s', w) == At(s, w).(tx := HeadRead(rows)) && OthersCalm(s', w) && SameOthers(s, s', w)
  {
    var ss := At(s, w);
    s' := Put(s, w, ss.(tx := HeadRead(rows)));
    AfterStep(s, w, ss.(tx := HeadRead(rows)), s');
    ReadsHead(cfg, s, w, head, rows);
    ReadHeadKeeps(cfg, s, w, head, rows);
  }

  lemma InsertsGroup(cfg: Cfg, s: Store, w: string) returns (s': Store)
    requires Inv(cfg, s) && OthersCalm(s, w) && At(s, w).Writing? && At(s, w).tx.HeadRead?
    requires !InTable(s.t.live, At(s, w).tx.rows)
    ensures CanWork(cfg, w, s, s') && Inv(cfg, s') && s'.t == s.t && s'.locks == s.locks
    ensures At(s', w) == At(s, w).(tx := Inserted(At(s, w).tx.rows)) && OthersCalm(s', w) && SameOthers(s, s', w)
  {
    var ss := At(s, w);
    s' := Put(s, w, ss.(tx := Inserted(ss.tx.rows)));
    assert forall v | v != w :: !Holding(At(s, v));
    AfterStep(s, w, ss.(tx := Inserted(ss.tx.rows)), s');
    assert Next(cfg, s, w, Insert, s');
    StepKeeps(cfg, s, w, Insert, s');
  }

  lemma SameSessions(s: Store, s': Store, w: string)
    requires OthersCalm(s, w) && s'.sessions == s.sessions
    ensures At(s', w) == At(s, w) && OthersCalm(s', w) && SameOthers(s, s', w)
  {
    forall v ensures At(s', v) == At(s, v) {
    }
    forall v | v != w ensures !Holding(At(s', v)) {
      assert !Holding(At(s, v));
    }
  }

  lemma Releases(cfg: Cfg, s: Store, w: string, key: string) returns (s': Store)
    requires Inv(cfg, s) && OthersCalm(s, w) && HasInserted(At(s, w)) && s.locks == map[key := w] && !cfg.heldToCommit
    ensures CanWork(cfg, w, s, s') && Inv(cfg, s') && s'.t == s.t && s'.locks == map[]
    ensures At(s', w) == At(s, w) && OthersCalm(s', w) && SameOthers(s, s', w)
  {
    s' := s.(locks := Unlock(s.locks, w));
    UnlockOwn(key, w);
    SameSessions(s, s', w);
    LocalRelease(cfg, s, w);
    assert Next(cfg, s, w, Release, s');
  }

  lemma UnlockOwn(key: string, w: string)
    ensures Unlock(map[key := w], w) == map[] && Unlock(map[], w) == map[]
  {
  }

  /** Where the lock ends before the commit, it is released. */
  lemma ReleasesGroup(cfg: Cfg, s: Store, w: string, key: string) returns (path: seq<Store>)
    requires Inv(cfg, s) && OthersCalm(s, w) && HasInserted(At(s, w)) && s.locks == map[key := w]
    ensures Works(cfg, w, path) && path[0] == s && Inv(cfg, Final(path)) && Final(path).t == s.t
    ensures At(Final(path), w) == At(s, w) && OthersCalm(Final(path), w) && SameOthers(s, Final(path), w)
    ensures Unlock(Final(path).locks, w) == map[] && (!cfg.heldToCommit ==> Final(path).locks == map[])
  {
    UnlockOwn(key, w);
    path := [s];
    if !cfg.heldToCommit {
      var s' := Releases(cfg, s, w, key);
      WorksMore(cfg, w, [s], s');
      path := [s] + [s'];
    }
  }

  function Committed(ss: Session): Session
    requires HasInserted(ss) && ss.todo != []
  {
    ss.(todo := ss.todo[1..], results := ss.results + ById(ss.tx.rows), tx := NoTx)
  }

  lemma CommitsGroup(cfg: Cfg, s: Store, w: string) returns (s': Store)
    requires Inv(cfg, s) && OthersCalm(s, w) && HasInserted(At(s, w)) && At(s, w).todo != []
    requires Unlock(s.locks, w) == map[] && (!cfg.heldToCommit ==> s.locks == map[])
    ensures CanWork(cfg, w, s, s') && Inv(cfg, s') && s'.locks == map[]
    ensures s'.t == AfterWrite(s.t, At(s, w).todo[0].name, At(s, w).tx.rows)
    ensures At(s', w) == Committed(At(s, w)) && OthersCalm(s', w) && SameOthers(s, s', w)
  {
    var ss := At(s, w);
    s' := Store(AfterWrite(s.t, ss.todo[0].name, ss.tx.rows), Unlock(s.locks, w), s.sessions[w := Committed(ss)]);
    AfterStep(s, w, Committed(ss), s');
    assert Next(cfg, s, w, Commit, s');
    StepKeeps(cfg, s, w, Commit, s');
  }

  lemma StillFree(t: Tables, todo: seq<Group<Event>>, results: map<string, Row>, rows: seq<Row>)
    requires todo != [] && IdsFree(t, todo) && OwnIds(todo, results) && EventsOf(rows) == todo[0].items
    ensures IdsFree(AfterWrite(t, todo[0].name, rows), todo[1..])
  {
    var t' := AfterWrite(t, todo[0].name, rows);
    forall i, r | 0 <= i < |todo[1..]| && r in t'.live ensures !HasItem(todo[1..][i], r.ev.id) {
      assert todo[1..][i] == todo[i + 1];
      if r in rows {
        var j :| 0 <= j < |rows| && rows[j] == r;
        ItemOfRow(todo[0], rows, j);
      }
    }
  }

  /** The next group is locked, chained after its stream's head, inserted and committed. */
  lemma WritesGroup(cfg: Cfg, s: Store, w: string) returns (path: seq<Store>, rows: seq<Row>)
    requires AtGroup(cfg, s, w) && At(s, w).todo != [] && AllHash(cfg.hash, At(s, w).todo[0].items)
    ensures Works(cfg, w, path) && path[0] == s && AtGroup(cfg, Final(path), w) && SameOthers(s, Final(path), w)
    ensures EventsOf(rows) == At(s, w).todo[0].items && Final(path).t == AfterWrite(s.t, At(s, w).todo[0].name, rows)
    ensures At(Final(path), w) == At(s, w).(todo := At(s, w).todo[1..], results := At(s, w).results + ById(rows))
  {
    var ss := At(s, w);
    Known(cfg, s, w);
    var s1 := LocksGroup(cfg, s, w);
    WorksMore(cfg, w, [s], s1);
    var head;
    head, rows := FindRows(cfg, s.t, ss.todo[0]);
    var s2 := ReadsGroup(cfg, s1, w, head, rows);
    WorksMore(cfg, w, [s] + [s1], s2);
    NewRowsPlaced(cfg.hash, ss.todo[0], head, rows);
    NewRowsFit(s.t, ss.todo[0], head, rows);
    var s3 := InsertsGroup(cfg, s2, w);
    WorksMore(cfg, w, [s] + [s1] + [s2], s3);
    path := [s] + [s1] + [s2] + [s3];
    SameTwice(s, s1, s2, w);
    SameTwice(s, s2, s3, w);
    path := EndsGroup(cfg, s, path, w, rows);
    StillFree(s.t, ss.todo, ss.results, rows);
  }

  lemma EndsGroup(cfg: Cfg, s: Store, before: seq<Store>, w: string, rows: seq<Row>) returns (path: seq<Store>)
    requires Works(cfg, w, before) && before[0] == s && SameOthers(s, Final(before), w) && Final(before).t == s.t
    requires Inv(cfg, Final(before)) && OthersCalm(Final(before), w)
    requires At(s, w).Writing? && At(s, w).todo != [] && At(s, w).tx.NoTx?
    requires At(Final(before), w) == At(s, w).(tx := Inserted(rows))
    requires Final(before).locks == map[cfg.lockKey(At(s, w).todo[0].name) := w]
    ensures Works(cfg, w, path) && path[0] == s && SameOthers(s, Final(path), w)
    ensures Inv(cfg, Final(path)) && OthersCalm(Final(path), w) && Final(path).locks == map[]
    ensures Final(path).t == AfterWrite(s.t, At(s, w).todo[0].name, rows)
    ensures At(Final(path), w) == At(s, w).(todo := At(s, w).todo[1..], results := At(s, w).results + ById(rows))
  {
    var s3 := Final(before);
    var release := ReleasesGroup(cfg, s3, w, cfg.lockKey(At(s, w).todo[0].name));
    WorksOn(cfg, w, before, release);
    path := before + release[1..];
    var s4 := Final(path);
    SameTwice(s, s3, s4, w);
    var s5 := CommitsGroup(cfg, s4, w);
    WorksMore(cfg, w, path, s5);
    SameTwice(s, s4, s5, w);
    path := path + [s5];
  }

  // ---------------------------------------------------------------------------
  // All groups

  /** The events of the groups of one stream. */
  function ItemsIn(todo: seq<Group<Event>>, stream: string): seq<Event> {
    if todo == [] then []
    else (if todo[0].name == stream then todo[0].items else []) + ItemsIn(todo[1..], stream)
  }

  /** What was committed to the stream in between: rows with these events. */
  predicate WroteTo(t: Tables, t': Tables, stream: string, events: seq<Event>) {
    && History(t, stream) <= History(t', stream)
    && EventsOf(History(t', stream)[|History(t, stream)|..]) == events
  }

  /** Nothing else happened to the tables than writes. */
  predicate OnlyWrites(t: Tables, t': Tables) {
    t'.archive == t.archive && t'.checkpoints == t.checkpoints && t'.pruned == t.pruned && t.live <= t'.live
  }

  ghost predicate Wrote(t: Tables, t': Tables, todo: seq<Group<Event>>) {
    OnlyWrites(t, t') && forall stream :: WroteTo(t, t', stream, ItemsIn(todo, stream))
  }

  lemma WroteNothing(t: Tables)
    ensures Wrote(t, t, [])
  {
  }

  lemma EventsOfAfter(h: seq<Row>, rows: seq<Row>, h': seq<Row>)
    requires h + rows <= h'
    ensures EventsOf(h'[|h|..]) == EventsOf(rows) + EventsOf(h'[|h + rows|..])
  {
  }

  lemma WroteGroup(t: Tables, t1: Tables, t': Tables, todo: seq<Group<Event>>, rows: seq<Row>)
    requires todo != [] && EventsOf(rows) == todo[0].items && t1 == AfterWrite(t, todo[0].name, rows)
    requires Wrote(t1, t', todo[1..])
    ensures Wrote(t, t', todo)
  {
    forall stream ensures WroteTo(t, t', stream, ItemsIn(todo, stream)) {
      assert WroteTo(t1, t', stream, ItemsIn(todo[1..], stream));
      EventsOfAfter(History(t, stream), if stream == todo[0].name then rows else [], History(t', stream));
    }
  }

  lemma {:induction false} WritesGroups(cfg: Cfg, s: Store, w: string) returns (path: seq<Store>)
    requires AtGroup(cfg, s, w) && forall i | 0 <= i < |At(s, w).todo| :: AllHash(cfg.hash, At(s, w).todo[i].items)
    ensures Works(cfg, w, path) && path[0] == s && AtGroup(cfg, Final(path), w) && SameOthers(s, Final(path), w)
    ensures Wrote(s.t, Final(path).t, At(s, w).todo)
    ensures At(Final(path), w).todo == [] && At(Final(path), w).batch == At(s, w).batch
    decreases |At(s, w).todo|
  {
    if At(s, w).todo == [] {
      path := [s];
      WroteNothing(s.t);
    } else {
      var first, rows := WritesGroup(cfg, s, w);
      var s1 := Final(first);
      var rest := WritesGroups(cfg, s1, w);
      WorksOn(cfg, w, first, rest);
      SameTwice(s, s1, Final(rest), w);
      WroteGroup(s.t, s1.t, Final(rest).t, At(s, w).todo, rows);
      path := first + rest[1..];
    }
  }

  lemma Finishes(cfg: Cfg, s: Store, w: string) returns (s': Store)
    requires AtGroup(cfg, s, w) && At(s, w).todo == []
    ensures CanWork(cfg, w, s, s') && s'.t == s.t && s'.locks == map[]
    ensures At(s', w).Returned? && At(s', w).batch == At(s, w).batch && SameOthers(s, s', w)
  {
    var ss := At(s, w);
    Known(cfg, s, w);
    forall i | 0 <= i < |ss.batch| ensures ss.batch[i].id in ss.results {
      assert !AmongGroups(cfg.fp, ss.todo, ss.batch[i]);
    }
    var rows := seq(|ss.batch|, i requires 0 <= i < |ss.batch| && ss.batch[i].id in ss.results => ss.results[ss.batch[i].id]);
    s' := Put(s, w, Returned(ss.batch, rows));
    AfterStep(s, w, Returned(ss.batch, rows), s');
    assert Next(cfg, s, w, Finish, s');
  }

  // ---------------------------------------------------------------------------
  // A whole write

  /** The rows with the ids of the batch. */
  lemma FindExisting(t: Tables, batch: seq<Event>) returns (existing: map<string, Row>)
    requires LiveIdsOk(t)
    ensures IsExisting(t, batch, existing)
  {
    existing := map r | r in t.live && HasEventId(batch, r.ev.id) :: r.ev.id := r;
    forall r, i | r in t.live && 0 <= i < |batch| && batch[i].id == r.ev.id ensures r.ev.id in existing {
      assert HasEventId(batch, r.ev.id);
    }
  }

  /** No event of the batch is in conflict with a live row or with another event of the batch. */
  ghost predicate Fits(fp: Fp, t: Tables, batch: seq<Event>) {
    && OneEventPerId(fp, batch)
    && forall r, i | r in t.live && 0 <= i < |batch| && batch[i].id == r.ev.id :: SameFingerprint(fp, r.ev, batch[i])
  }

  lemma FittingIsPlannable(fp: Fp, t: Tables, batch: seq<Event>, existing: map<string, Row>)
    requires LiveIdsOk(t) && IsExisting(t, batch, existing)
    ensures Fits(fp, t, batch) <==> Plannable(fp, existing, batch)
  {
    if Plannable(fp, existing, batch) {
      forall r, i | r in t.live && 0 <= i < |batch| && batch[i].id == r.ev.id ensures SameFingerprint(fp, r.ev, batch[i]) {
        assert Agrees(fp, existing, batch[i]);
        assert existing[r.ev.id] == r;
      }
    }
  }

  /** What a write of the batch inserts into each stream: its events that are not stored, in order. */
  ghost predicate Inserts(cfg: Cfg, t: Tables, t': Tables, existing: map<string, Row>, batch: seq<Event>)
    requires PlanAll(cfg.fp, existing, batch).Some?
  {
    && OnlyWrites(t, t')
    && forall stream :: WroteTo(t, t', stream, Select(StreamOf, PlanAll(cfg.fp, existing, batch).value.additions, stream))
  }

  lemma ItemsInRest(todo: seq<Group<Event>>, stream: string)
    requires todo != [] && DistinctNames(todo) && todo[0].name == stream
    ensures !HasName(todo[1..], stream) && DistinctNames(todo[1..])
  {
  }

  lemma {:induction false} NoItemsIn(todo: seq<Group<Event>>, stream: string)
    requires !HasName(todo, stream)
    ensures ItemsIn(todo, stream) == []
  {
    if todo == [] {
    } else {
      HasNameCons(todo, stream);
      NoItemsIn(todo[1..], stream);
    }
  }

  lemma {:induction false} ItemsInOne(todo: seq<Group<Event>>, i: nat)
    requires DistinctNames(todo) && i < |todo|
    ensures ItemsIn(todo, todo[i].name) == todo[i].items
  {
    if i == 0 {
      ItemsInRest(todo, todo[0].name);
      NoItemsIn(todo[1..], todo[0].name);
      assert todo[0].items + [] == todo[0].items;
    } else {
      ItemsInOne(todo[1..], i - 1);
      assert [] + ItemsIn(todo[1..], todo[i].name) == ItemsIn(todo[1..], todo[i].name);
    }
  }

  lemma ItemsInGroups(events: seq<Event>, stream: string)
    ensures ItemsIn(GroupAll(StreamOf, events), stream) == Select(StreamOf, events, stream)
  {
    var todo := GroupAll(StreamOf, events);
    GroupAllIs(StreamOf, events);
    if HasName(todo, stream) {
      var i :| 0 <= i < |todo| && todo[i].name == stream;
      ItemsInOne(todo, i);
    } else {
      NoItemsIn(todo, stream);
      NoneSelected(StreamOf, events, todo, stream);
    }
  }

  lemma WroteGroups(cfg: Cfg, t: Tables, t': Tables, existing: map<string, Row>, batch: seq<Event>)
    requires PlanAll(cfg.fp, existing, batch).Some?
    requires Wrote(t, t', GroupAll(StreamOf, PlanAll(cfg.fp, existing, batch).value.additions))
    ensures Inserts(cfg, t, t', existing, batch)
  {
    var additions := PlanAll(cfg.fp, existing, batch).value.additions;
    forall stream ensures WroteTo(t, t', stream, Select(StreamOf, additions, stream)) {
      ItemsInGroups(additions, stream);
      assert WroteTo(t, t', stream, ItemsIn(GroupAll(StreamOf, additions), stream));
    }
  }

  lemma GroupsHash(cfg: Cfg, batch: seq<Event>, additions: seq<Event>)
    requires AllHash(cfg.hash, batch) && forall e | e in additions :: e in batch
    ensures var todo := GroupAll(StreamOf, additions); forall i | 0 <= i < |todo| :: AllHash(cfg.hash, todo[i].items)
  {
    var todo := GroupAll(StreamOf, additions);
    GroupAllIs(StreamOf, additions);
    forall i | 0 <= i < |todo| ensures AllHash(cfg.hash, todo[i].items) {
      SelectedFrom(StreamOf, additions, todo[i].name);
    }
  }

  lemma AdditionsAreFree(t: Tables, batch: seq<Event>, existing: map<string, Row>, additions: seq<Event>)
    requires IsExisting(t, batch, existing) && forall e | e in additions :: e in batch && e.id !in existing
    ensures IdsFree(t, GroupAll(StreamOf, additions))
  {
    var todo := GroupAll(StreamOf, additions);
    GroupAllIs(StreamOf, additions);
    forall i, r | 0 <= i < |todo| && r in t.live ensures !HasItem(todo[i], r.ev.id) {
      SelectedFrom(StreamOf, additions, todo[i].name);
      forall j | 0 <= j < |todo[i].items| ensures todo[i].items[j].id != r.ev.id {
        assert todo[i].items[j] in additions;
        var k :| 0 <= k < |batch| && batch[k] == todo[i].items[j];
      }
    }
  }

  lemma Starts(cfg: Cfg, s: Store, w: string, batch: seq<Event>, existing: map<string, Row>) returns (s': Store)
    requires Inv(cfg, s) && Rests(s, w) && IsExisting(s.t, batch, existing) && batch != []
    requires PlanAll(cfg.fp, existing, batch).Some?
    ensures Next(cfg, s, w, StartWrite(batch, existing), s') && AtGroup(cfg, s', w) && s'.t == s.t && SameOthers(s, s', w)
    ensures At(s', w).batch == batch && At(s', w).todo == GroupAll(StreamOf, PlanAll(cfg.fp, existing, batch).value.additions)
  {
    var p := PlanAll(cfg.fp, existing, batch).value;
    PlanAllOk(cfg.fp, existing, batch);
    AdditionsAreFree(s.t, batch, existing, p.additions);
    var ss := Writing(batch, GroupAll(StreamOf, p.additions), p.results, NoTx);
    s' := Put(s, w, ss);
    AfterStep(s, w, ss, s');
    StartWriteKeeps(cfg, s, w, batch, existing);
  }

  lemma GoesOn(cfg: Cfg, s: Store, w: string) returns (path: seq<Store>)
    requires AtGroup(cfg, s, w) && forall i | 0 <= i < |At(s, w).todo| :: AllHash(cfg.hash, At(s, w).todo[i].items)
    ensures Works(cfg, w, path) && path[0] == s && SameOthers(s, Final(path), w) && Final(path).locks == map[]
    ensures At(Final(path), w).Returned? && At(Final(path), w).batch == At(s, w).batch
    ensures Wrote(s.t, Final(path).t, At(s, w).todo)
  {
    var groups := WritesGroups(cfg, s, w);
    var s' := Finishes(cfg, Final(groups), w);
    WorksMore(cfg, w, groups, s');
    SameTwice(s, Final(groups), s', w);
    path := groups + [s'];
  }

  /** A write goes through. While no lock is held and nobody else has an uncommitted effect, a session that
      starts a write of a batch in which no event is in conflict, and all can be hashed, can take it to
      its end by its own steps: it returns, each stream has got its new events in order, and nothing else
      has changed. */
  lemma WriteGoesThrough(cfg: Cfg, s: Store, w: string, batch: seq<Event>, existing: map<string, Row>) returns (path: seq<Store>)
    requires Inv(cfg, s) && Rests(s, w) && IsExisting(s.t, batch, existing)
    requires Plannable(cfg.fp, existing, batch) && AllHash(cfg.hash, batch)
    ensures Works(cfg, w, path) && Next(cfg, s, w, StartWrite(batch, existing), path[0])
    ensures At(Final(path), w).Returned? && At(Final(path), w).batch == batch
    ensures PlanAll(cfg.fp, existing, batch).Some? && Inserts(cfg, s.t, Final(path).t, existing, batch)
    ensures Final(path).locks == map[] && SameOthers(s, Final(path), w)
  {
    PlansIff(cfg.fp, existing, batch);
    PlanAllOk(cfg.fp, existing, batch);
    var additions := PlanAll(cfg.fp, existing, batch).value.additions;
    if batch == [] {
      path := [Put(s, w, Returned([], []))];
      AfterStep(s, w, Returned([], []), path[0]);
      WroteNothing(s.t);
    } else {
      GroupsHash(cfg, batch, additions);
      var s1 := Starts(cfg, s, w, batch, existing);
      path := GoesOn(cfg, s1, w);
      SameTwice(s, s1, Final(path), w);
    }
    WroteGroups(cfg, s.t, Final(path).t, existing, batch);
  }

  // ---------------------------------------------------------------------------
  // A replay

  /** A live row is this event, by its fingerprint. */
  ghost predicate IsLive(fp: Fp, t: Tables, e: Event) {
    exists r :: r in t.live && r.ev.id == e.id && SameFingerprint(fp, r.ev, e)
  }

  /** Every event of the batch is live, as that event. */
  ghost predicate StoredAlready(fp: Fp, t: Tables, batch: seq<Event>) {
    OneEventPerId(fp, batch) && forall i | 0 <= i < |batch| :: IsLive(fp, t, batch[i])
  }

  /** The rows are the live ones with the ids of the batch, position by position. */
  predicate LiveRowsOf(t: Tables, batch: seq<Event>, rows: seq<Row>) {
    |rows| == |batch| && forall i | 0 <= i < |batch| :: rows[i] in t.live && rows[i].ev.id == batch[i].id
  }

  lemma LiveIsExisting(fp: Fp, t: Tables, batch: seq<Event>, existing: map<string, Row>)
    requires LiveIdsOk(t) && IsExisting(t, batch, existing) && StoredAlready(fp, t, batch)
    ensures forall i | 0 <= i < |batch| :: batch[i].id in existing && SameFingerprint(fp, existing[batch[i].id].ev, batch[i])
  {
    forall i | 0 <= i < |batch| ensures batch[i].id in existing && SameFingerprint(fp, existing[batch[i].id].ev, batch[i]) {
      assert IsLive(fp, t, batch[i]);
      var r :| r in t.live && r.ev.id == batch[i].id && SameFingerprint(fp, r.ev, batch[i]);
      assert r.ev.id in existing && existing[r.ev.id] == r;
    }
  }

  /** The rows for the positions of the batch. */
  function RowsFor(batch: seq<Event>, results: map<string, Row>): (rows: seq<Row>)
    requires forall i | 0 <= i < |batch| :: batch[i].id in results
    ensures |rows| == |batch| && forall i | 0 <= i < |batch| :: rows[i] == results[batch[i].id]
  {
    seq(|batch|, i requires 0 <= i < |batch| && batch[i].id in results => results[batch[i].id])
  }

  lemma FinishesWith(cfg: Cfg, s: Store, w: string, batch: seq<Event>, results: map<string, Row>)
    requires At(s, w) == Writing(batch, [], results, NoTx) && forall i | 0 <= i < |batch| :: batch[i].id in results
    ensures Next(cfg, s, w, Finish, Put(s, w, Returned(batch, RowsFor(batch, results))))
  {
    assert RowsFor(batch, results) ==
           seq(|batch|, i requires 0 <= i < |batch| && batch[i].id in results => results[batch[i].id]);
  }

  lemma ReplayPlan(cfg: Cfg, t: Tables, batch: seq<Event>, existing: map<string, Row>) returns (p: Plan)
    requires LiveIdsOk(t) && IsExisting(t, batch, existing) && StoredAlready(cfg.fp, t, batch)
    ensures PlanAll(cfg.fp, existing, batch) == Some(p) && p.additions == []
    ensures forall i | 0 <= i < |batch| :: batch[i].id in p.results
    ensures LiveRowsOf(t, batch, RowsFor(batch, p.results))
  {
    LiveIsExisting(cfg.fp, t, batch, existing);
    ReplayPlansNothing(cfg.fp, existing, batch);
    p := PlanAll(cfg.fp, existing, batch).value;
  }

  lemma StartsReplay(cfg: Cfg, s: Store, w: string, batch: seq<Event>, existing: map<string, Row>, p: Plan)
    requires At(s, w).Idle? && batch != [] && IsExisting(s.t, batch, existing)
    requires PlanAll(cfg.fp, existing, batch) == Some(p) && p.additions == []
    ensures Next(cfg, s, w, StartWrite(batch, existing), Put(s, w, Writing(batch, [], p.results, NoTx)))
  {
    assert GroupAll(StreamOf, p.additions) == [];
  }

  /** A replay: a write of a batch whose events are all live, as those events, returns the live rows in
      two steps, whatever the other sessions hold, and changes no table. */
  lemma ReplayReturnsTheStoredRows(cfg: Cfg, s: Store, w: string, batch: seq<Event>, existing: map<string, Row>)
      returns (s1: Store, s2: Store)
    requires At(s, w).Idle? && batch != []
    requires LiveIdsOk(s.t) && IsExisting(s.t, batch, existing) && StoredAlready(cfg.fp, s.t, batch)
    ensures Next(cfg, s, w, StartWrite(batch, existing), s1) && Next(cfg, s1, w, Finish, s2)
    ensures At(s2, w).Returned? && At(s2, w).batch == batch && LiveRowsOf(s.t, batch, At(s2, w).rows)
    ensures s2.t == s.t && s2.locks == s.locks
  {
    var p := ReplayPlan(cfg, s.t, batch, existing);
    s1 := Put(s, w, Writing(batch, [], p.results, NoTx));
    StartsReplay(cfg, s, w, batch, existing, p);
    FinishesWith(cfg, s1, w, batch, p.results);
    s2 := Put(s1, w, Returned(batch, RowsFor(batch, p.results)));
  }

  // ---------------------------------------------------------------------------
  // In every reachable state

  lemma RunMore(cfg: Cfg, run: seq<Store>, w: string, step: Step, s': Store)
    requires IsTightRun(cfg, run) && Next(cfg, Final(run), w, step, s') && !step.CommitPrune?
    ensures IsTightRun(cfg, run + [s']) && Final(run + [s']) == s'
  {
    var all := run + [s'];
    assert TightStep(Final(run), w, step);
    assert CanStepTightly(cfg, Final(run), s');
    forall i | 0 <= i < |all| - 1 ensures CanStepTightly(cfg, all[i], all[i + 1]) {
      if i < |run| - 1 {
        assert CanStepTightly(cfg, run[i], run[i + 1]);
      }
    }
  }

  lemma WorkIsTight(cfg: Cfg, w: string, s: Store, s': Store)
    requires CanWork(cfg, w, s, s')
    ensures CanStepTightly(cfg, s, s')
  {
    var step :| OfWrite(step) && Next(cfg, s, w, step, s');
    assert TightStep(s, w, step);
  }

  lemma RunWorks(cfg: Cfg, run: seq<Store>, w: string, path: seq<Store>)
    requires IsTightRun(cfg, run) && Works(cfg, w, path) && Final(run) == path[0]
    ensures IsTightRun(cfg, run + path[1..]) && Final(run + path[1..]) == Final(path)
  {
    var all := run + path[1..];
    forall i | 0 <= i < |all| - 1 ensures CanStepTightly(cfg, all[i], all[i + 1]) {
      if i < |run| - 1 {
        assert CanStepTightly(cfg, run[i], run[i + 1]);
      } else {
        var k := i - |run| + 1;
        assert all[i] == path[k] && all[i + 1] == path[k + 1];
        assert CanWork(cfg, w, path[k], path[k + 1]);
        WorkIsTight(cfg, w, path[k], path[k + 1]);
      }
    }
  }

  /** Everybody is idle and no lock is held, but for these sessions and their locks. */
  ghost predicate QuietBut(s: Store, names: set<string>) {
    (forall v | v !in names :: At(s, v).Idle?) && (forall key | key in s.locks :: s.locks[key] in names)
  }

  lemma NamesOf(s: Store) returns (names: set<string>)
    ensures QuietBut(s, names)
  {
    names := s.sessions.Keys + s.locks.Values;
  }

  lemma AbortedIsQuiet(s: Store, names: set<string>, w: string)
    requires QuietBut(s, names)
    ensures QuietBut(Aborted(s, w), names - {w})
  {
    var s' := Aborted(s, w);
    forall v | v !in names - {w} ensures At(s', v).Idle? {
      if v != w {
        assert At(s, v).Idle?;
      }
    }
  }

  /** Sessions can stop: from every reachable state one is reached, with the same tables, in which
      everybody is idle and no lock is held. */
  lemma {:induction false} EverybodyStops(cfg: Cfg, run: seq<Store>, names: set<string>) returns (run': seq<Store>)
    requires IsTightRun(cfg, run) && QuietBut(Final(run), names)
    ensures IsTightRun(cfg, run') && run <= run' && Final(run').t == Final(run).t && QuietBut(Final(run'), {})
    decreases |names|
  {
    if names == {} {
      run' := run;
    } else {
      var w :| w in names;
      RunMore(cfg, run, w, Abort, Aborted(Final(run), w));
      AbortedIsQuiet(Final(run), names, w);
      run' := EverybodyStops(cfg, run + [Aborted(Final(run), w)], names - {w});
    }
  }

  /** A session that owns a lock. */
  predicate MayOwn(ss: Session) {
    (ss.Writing? && !ss.tx.NoTx?) || (ss.Pruning? && (ss.phase.LockedForDelete? || ss.phase.Deleted?))
  }

  ghost predicate OwnersWork(s: Store) {
    forall key | key in s.locks :: MayOwn(At(s, s.locks[key]))
  }

  /** The session of a lock that is held after a step may own it. */
  ghost predicate OwnsAfter(s: Store, w: string, s': Store, key: string)
    requires key in s'.locks
  {
    (s'.locks[key] == w && MayOwn(At(s', w))) || (s'.locks[key] != w && key in s.locks && s.locks[key] == s'.locks[key])
  }

  lemma WriterOwns(cfg: Cfg, s: Store, w: string, step: Step, s': Store, key: string)
    requires OwnersWork(s) && Next(cfg, s, w, step, s') && key in s'.locks && (OfWrite(step) || step.StartWrite? || step.Reset?)
    ensures OwnsAfter(s, w, s', key)
  {
  }

  lemma PrunerOwns(cfg: Cfg, s: Store, w: string, step: Step, s': Store, key: string)
    requires OwnersWork(s) && Next(cfg, s, w, step, s') && key in s'.locks && !OfWrite(step) && !step.StartWrite? && !step.Reset?
    ensures OwnsAfter(s, w, s', key)
  {
  }

  lemma OthersAsBefore(cfg: Cfg, s: Store, w: string, step: Step, s': Store)
    requires Next(cfg, s, w, step, s')
    ensures SameOthers(s, s', w)
  {
  }

  /** Locks are owned by sessions in a transaction. */
  lemma OwnersStillWork(cfg: Cfg, s: Store, w: string, step: Step, s': Store)
    requires OwnersWork(s) && Next(cfg, s, w, step, s')
    ensures OwnersWork(s')
  {
    OthersAsBefore(cfg, s, w, step, s');
    forall key | key in s'.locks ensures MayOwn(At(s', s'.locks[key])) {
      if OfWrite(step) || step.StartWrite? || step.Reset? {
        WriterOwns(cfg, s, w, step, s', key);
      } else {
        PrunerOwns(cfg, s, w, step, s', key);
      }
    }
  }

  lemma QuietRests(s: Store, w: string)
    requires QuietBut(s, {})
    ensures Rests(s, w)
  {
    assert forall v :: At(s, v).Idle?;
    assert s.locks.Keys == {};
  }

  /** The store never gets stuck. From every reachable state, whoever crashed where, a batch in which no
      event is in conflict and all can be hashed can be written: the write returns, each stream has got
      its new events in order, and no other table row is touched. */
  lemma WritesStayPossible(cfg: Cfg, run: seq<Store>, w: string, batch: seq<Event>)
      returns (run': seq<Store>, existing: map<string, Row>)
    requires IsTightRun(cfg, run) && Fits(cfg.fp, Final(run).t, batch) && AllHash(cfg.hash, batch)
    ensures IsTightRun(cfg, run') && run <= run'
    ensures At(Final(run'), w).Returned? && At(Final(run'), w).batch == batch
    ensures IsExisting(Final(run).t, batch, existing) && PlanAll(cfg.fp, existing, batch).Some?
    ensures Inserts(cfg, Final(run).t, Final(run').t, existing, batch)
  {
    var names := NamesOf(Final(run));
    var quiet := EverybodyStops(cfg, run, names);
    QuietRests(Final(quiet), w);
    RunKeeps(cfg, quiet, |quiet| - 1);
    existing := FindExisting(Final(quiet).t, batch);
    FittingIsPlannable(cfg.fp, Final(quiet).t, batch, existing);
    var path := WriteGoesThrough(cfg, Final(quiet), w, batch, existing);
    RunMore(cfg, quiet, w, StartWrite(batch, existing), path[0]);
    RunWorks(cfg, quiet + [path[0]], w, path);
    run' := quiet + [path[0]] + path[1..];
  }

  lemma LiveIdsInRun(cfg: Cfg, run: seq<Store>)
    requires IsTightRun(cfg, run)
    ensures LiveIdsOk(Final(run).t)
  {
    RunKeeps(cfg, run, |run| - 1);
  }

  /** In every reachable state an idle session that writes again what is stored gets the stored rows, and
      the tables stay as they are. */
  lemma ReplayInsertsNothing(cfg: Cfg, run: seq<Store>, w: string, batch: seq<Event>) returns (run': seq<Store>)
    requires IsTightRun(cfg, run) && At(Final(run), w).Idle? && batch != [] && StoredAlready(cfg.fp, Final(run).t, batch)
    ensures IsTightRun(cfg, run') && run <= run' && Final(run').t == Final(run).t
    ensures At(Final(run'), w).Returned? && At(Final(run'), w).batch == batch
    ensures LiveRowsOf(Final(run).t, batch, At(Final(run'), w).rows)
  {
    LiveIdsInRun(cfg, run);
    var existing := FindExisting(Final(run).t, batch);
    var s1, s2 := ReplayReturnsTheStoredRows(cfg, Final(run), w, batch, existing);
    RunMore(cfg, run, w, StartWrite(batch, existing), s1);
    RunMore(cfg, run + [s1], w, Finish, s2);
    run' := run + [s1] + [s2];
  }

  lemma ReturnedMatch(cfg: Cfg, run: seq<Store>, w: string)
    requires IsTightRun(cfg, run) && At(Final(run), w).Returned?
    ensures var ss := At(Final(run), w);
            |ss.rows| == |ss.batch| && forall i | 0 <= i < |ss.batch| ::
              ss.rows[i].ev.id == ss.batch[i].id && SameAs(cfg.fp, ss.rows[i].ev, ss.batch[i])
  {
    RunKeeps(cfg, run, |run| - 1);
    Known(cfg, Final(run), w);
  }

  lemma ReturnedAreStored(fp: Fp, t: Tables, batch: seq<Event>, rows: seq<Row>)
    requires OneEventPerId(fp, batch) && |rows| == |batch| && forall e | e in batch :: fp(e).Some?
    requires forall i | 0 <= i < |batch| :: rows[i].ev.id == batch[i].id && SameAs(fp, rows[i].ev, batch[i])
    requires forall r | r in rows :: r in t.live
    ensures StoredAlready(fp, t, batch) && LiveRowsOf(t, batch, rows)
  {
    forall i | 0 <= i < |batch| ensures rows[i] in t.live && IsLive(fp, t, batch[i]) {
      assert rows[i] in rows && batch[i] in batch;
      assert SameFingerprint(fp, rows[i].ev, batch[i]);
    }
  }

  /** A write whose answer is lost can be sent again: as long as the rows it returned are live, a session
      that writes the same batch again gets the same rows, and nothing is inserted. */
  lemma WriteThenReplay(cfg: Cfg, run: seq<Store>, w: string) returns (run': seq<Store>)
    requires IsTightRun(cfg, run) && At(Final(run), w).Returned? && At(Final(run), w).batch != []
    requires forall r | r in At(Final(run), w).rows :: r in Final(run).t.live
    requires OneEventPerId(cfg.fp, At(Final(run), w).batch)
    requires forall e | e in At(Final(run), w).batch :: cfg.fp(e).Some?
    ensures IsTightRun(cfg, run') && run < run' && Final(run').t == Final(run).t
    ensures At(Final(run'), w) == At(Final(run), w)
  {
    var ss := At(Final(run), w);
    ReturnedMatch(cfg, run, w);
    ReturnedAreStored(cfg.fp, Final(run).t, ss.batch, ss.rows);
    var s1 := Put(Final(run), w, Idle);
    RunMore(cfg, run, w, Reset, s1);
    run' := ReplayInsertsNothing(cfg, run + [s1], w, ss.batch);
    OneRowEach(cfg, run', s1.t, ss.batch, ss.rows, At(Final(run'), w).rows);
  }

  lemma OneRowEach(cfg: Cfg, run: seq<Store>, t: Tables, batch: seq<Event>, rows: seq<Row>, rows': seq<Row>)
    requires IsTightRun(cfg, run) && Final(run).t == t && LiveRowsOf(t, batch, rows) && LiveRowsOf(t, batch, rows')
    ensures rows == rows'
  {
    LiveIdsInRun(cfg, run);
    forall i | 0 <= i < |batch| ensures rows[i] == rows'[i] {
      assert rows[i].ev.id == rows'[i].ev.id;
    }
  }
}
