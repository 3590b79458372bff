/** Every writing step of the store keeps its invariant. */
module StoreProof {
  import opened Wrappers
  import opened AuditTypes
  import opened HashChain
  import opened Grouping
  import opened WritePlan
  import opened AuditStore
  import opened StoreInvariant
  import opened StoreTables
  import opened StoreSessions

  // ---------------------------------------------------------------------------
  // Steps that change one session and the locks only

  /** The locks of `v` are still held. */
  ghost predicate KeepsLocks(locks: map<string, string>, locks': map<string, string>, v: string) {
    forall k | k in locks && locks[k] == v :: k in locks' && locks'[k] == v
  }

  /** A session with no uncommitted effect and no head read. */
  predicate Quiet(ss: Session) {
    !HasInserted(ss) && !HasDeleted(ss) && !HasReadHead(ss)
  }

  lemma LocalStep(cfg: Cfg, s: Store, w: string, ss': Session, locks': map<string, string>)
    requires Inv(cfg, s)
    requires SessionOk(cfg, s.t, ss') && LockOk(cfg, locks', w, ss')
    requires forall v | v != w :: KeepsLocks(s.locks, locks', v)
    requires forall v | v != w :: PairOk(ss', At(s, v)) && PairOk(At(s, v), ss')
    ensures Inv(cfg, Store(s.t, locks', s.sessions[w := ss']))
  {
    var s' := Store(s.t, locks', s.sessions[w := ss']);
    assert At(s', w) == ss' && forall v | v != w :: At(s', v) == At(s, v);
    forall v ensures LockOk(cfg, locks', v, At(s', v)) {
      if v != w {
        assert KeepsLocks(s.locks, locks', v) && LockOk(cfg, s.locks, v, At(s, v));
      }
    }
    forall v, x | v != x ensures PairOk(At(s', v), At(s', x)) {
      assert PairOk(At(s, v), At(s, x));
    }
  }

  lemma QuietStep(cfg: Cfg, s: Store, w: string, ss': Session, locks': map<string, string>)
    requires Inv(cfg, s) && Quiet(ss')
    requires SessionOk(cfg, s.t, ss') && LockOk(cfg, locks', w, ss')
    requires forall v | v != w :: KeepsLocks(s.locks, locks', v)
    ensures Inv(cfg, Store(s.t, locks', s.sessions[w := ss']))
  {
    LocalStep(cfg, s, w, ss', locks');
  }

  lemma AbortedKeeps(cfg: Cfg, s: Store, w: string)
    requires Inv(cfg, s)
    ensures Inv(cfg, Aborted(s, w))
  {
    QuietStep(cfg, s, w, Idle, Unlock(s.locks, w));
  }

  /** The session's facts, for use in the steps. */
  lemma Known(cfg: Cfg, s: Store, w: string)
    requires Inv(cfg, s)
    ensures SessionOk(cfg, s.t, At(s, w)) && LockOk(cfg, s.locks, w, At(s, w))
  {
  }

  // ---------------------------------------------------------------------------
  // Writing

  lemma {:induction false} SelectedAt(es: seq<Event>, name: string, i: nat)
    requires i < |Select(StreamOf, es, name)|
    ensures Select(StreamOf, es, name)[i] in es && Select(StreamOf, es, name)[i].stream == name
  {
    if i < |Select(StreamOf, es[..|es| - 1], name)| {
      SelectedAt(es[..|es| - 1], name, i);
    }
  }

  lemma DistinctAppend(xs: seq<Event>, x: Event)
    requires DistinctIds(xs) && forall i | 0 <= i < |xs| :: xs[i].id != x.id
    ensures DistinctIds(xs + [x])
  {
  }

  lemma LastIsNew(es: seq<Event>, e: Event)
    requires es != [] && DistinctIds(es) && e in es[..|es| - 1]
    ensures e.id != es[|es| - 1].id
  {
  }

  lemma {:induction false} SelectedDistinct(es: seq<Event>, name: string)
    requires DistinctIds(es)
    ensures DistinctIds(Select(StreamOf, es, name))
    ensures forall i | 0 <= i < |Select(StreamOf, es, name)| :: Select(StreamOf, es, name)[i] in es
    ensures forall i | 0 <= i < |Select(StreamOf, es, name)| :: Select(StreamOf, es, name)[i].stream == name
  {
    if es == [] {
    } else {
      var init := es[..|es| - 1];
      var sel := Select(StreamOf, init, name);
      SelectedDistinct(init, name);
      forall i | 0 <= i < |sel| ensures sel[i].id != es[|es| - 1].id {
        LastIsNew(es, sel[i]);
      }
      DistinctAppend(sel, es[|es| - 1]);
    }
    forall i | 0 <= i < |Select(StreamOf, es, name)|
      ensures Select(StreamOf, es, name)[i] in es && Select(StreamOf, es, name)[i].stream == name
    {
      SelectedAt(es, name, i);
    }
  }

  lemma GroupedOk(es: seq<Event>)
    requires DistinctIds(es)
    ensures GroupsOk(GroupAll(StreamOf, es))
  {
    var todo := GroupAll(StreamOf, es);
    GroupAllIs(StreamOf, es);
    forall i | 0 <= i < |todo|
      ensures todo[i].items != [] && DistinctIds(todo[i].items)
      ensures forall j | 0 <= j < |todo[i].items| :: todo[i].items[j].stream == todo[i].name
    {
      SelectedDistinct(es, todo[i].name);
    }
  }

  lemma SelectedIsAmong(fp: Fp, es: seq<Event>, x: Event, e: Event)
    requires x in es && x.id == e.id && SameAs(fp, x, e)
    ensures Among(fp, Select(StreamOf, es, x.stream), e)
  {
    var items := Select(StreamOf, es, x.stream);
    SelectedFrom(StreamOf, es, x.stream);
    assert x in items;
    var j :| 0 <= j < |items| && items[j] == x;
  }

  lemma AmongGrouped(fp: Fp, es: seq<Event>, e: Event)
    requires Among(fp, es, e)
    ensures AmongGroups(fp, GroupAll(StreamOf, es), e)
  {
    var todo := GroupAll(StreamOf, es);
    GroupAllIs(StreamOf, es);
    var k :| 0 <= k < |es| && es[k].id == e.id && SameAs(fp, es[k], e);
    SelectedIsAmong(fp, es, es[k], e);
    assert HasName(todo, StreamOf(es[k]));
    var i :| 0 <= i < |todo| && todo[i].name == es[k].stream;
    assert Among(fp, todo[i].items, e);
  }

  ghost predicate InStream(es: seq<Event>, name: string, id: string) {
    exists k | 0 <= k < |es| :: es[k].id == id && es[k].stream == name
  }

  lemma ItemInStream(es: seq<Event>, g: Group<Event>, id: string)
    requires DistinctIds(es) && g.items == Select(StreamOf, es, g.name) && HasItem(g, id)
    ensures InStream(es, g.name, id)
  {
    var j :| 0 <= j < |g.items| && g.items[j].id == id;
    SelectedDistinct(es, g.name);
    assert g.items[j] in es;
  }

  lemma OneGroupPerId(es: seq<Event>, g: Group<Event>, h: Group<Event>, id: string)
    requires DistinctIds(es) && g.name != h.name
    requires g.items == Select(StreamOf, es, g.name) && h.items == Select(StreamOf, es, h.name)
    ensures !(HasItem(g, id) && HasItem(h, id))
  {
    if HasItem(g, id) && HasItem(h, id) {
      ItemInStream(es, g, id);
      ItemInStream(es, h, id);
    }
  }

  lemma PlannedApart(es: seq<Event>, results: map<string, Row>)
    requires DistinctIds(es) && forall i | 0 <= i < |es| :: es[i].id !in results
    ensures OwnIds(GroupAll(StreamOf, es), results)
  {
    var todo := GroupAll(StreamOf, es);
    GroupAllIs(StreamOf, es);
    forall i, id | 0 <= i < |todo| && HasItem(todo[i], id) ensures InStream(es, todo[i].name, id) && id !in results {
      ItemInStream(es, todo[i], id);
    }
    forall i, j, id | 0 <= i < j < |todo| && HasItem(todo[i], id) ensures !HasItem(todo[j], id) {
      OneGroupPerId(es, todo[i], todo[j], id);
    }
  }

  lemma StartWriteKeeps(cfg: Cfg, s: Store, w: string, batch: seq<Event>, existing: map<string, Row>)
    requires Inv(cfg, s) && IsExisting(s.t, batch, existing)
    requires PlanAll(cfg.fp, existing, batch).Some?
    ensures var p := PlanAll(cfg.fp, existing, batch).value;
            Inv(cfg, Put(s, w, Writing(batch, GroupAll(StreamOf, p.additions), p.results, NoTx)))
  {
    var p := PlanAll(cfg.fp, existing, batch).value;
    PlanAllOk(cfg.fp, existing, batch);
    GroupedOk(p.additions);
    PlannedApart(p.additions, p.results);
    var todo := GroupAll(StreamOf, p.additions);
    forall id | id in p.results ensures IsRow(s.t, p.results[id]) && p.results[id].ev.id == id {
      assert existing[id] in s.t.live;
    }
    forall i | 0 <= i < |batch| ensures Stored(cfg.fp, p.results, batch[i]) || AmongGroups(cfg.fp, todo, batch[i]) {
      assert Planned(cfg.fp, p, batch[i]);
      if Among(cfg.fp, p.additions, batch[i]) {
        AmongGrouped(cfg.fp, p.additions, batch[i]);
      }
    }
    QuietStep(cfg, s, w, Writing(batch, todo, p.results, NoTx), s.locks);
  }

  lemma RowAfterIsLive(cfg: Cfg, t: Tables, stream: string, k: nat)
    requires HistoryOk(cfg, t) && LiveOk(t)
    requires Base(t, stream) <= k < |History(t, stream)|
    ensures var r := History(t, stream)[k]; r in t.live && r.ev.stream == stream && r.seqNo == k + 1
  {
    HistoryIsPlaced(cfg, t, stream);
    assert IsRow(t, History(t, stream)[k]);
  }

  /** The head of a stream is its last row ever committed. */
  lemma HeadIsLast(cfg: Cfg, t: Tables, stream: string, head: Option<Head>)
    requires HistoryOk(cfg, t) && LiveOk(t) && BaseOk(t) && IsHead(t, stream, head)
    ensures HeadSeq(head) == |History(t, stream)|
    ensures HeadHash(head) == PrevOf(History(t, stream), |History(t, stream)|, GENESIS)
  {
    var h := History(t, stream);
    if h != [] {
      RowAfterIsLive(cfg, t, stream, |h| - 1);
    }
    if head.Some? {
      var r :| r in t.live && r.ev.stream == stream && r.seqNo == head.value.seqNo && r.hash == head.value.hash;
      assert IsRow(t, r);
    }
  }

  lemma DeletedBelow(cfg: Cfg, s: Store, v: string)
    requires Inv(cfg, s) && HasDeleted(At(s, v))
    ensures At(s, v).candidates != [] && Last(At(s, v).candidates).seqNo < |History(s.t, At(s, v).stream)|
  {
    Known(cfg, s, v);
    HistoryIsPlaced(cfg, s.t, At(s, v).stream);
    CandidatesPlaced(s.t, At(s, v).policy, At(s, v).stream, At(s, v).candidates);
  }

  lemma ReadHeadKeeps(cfg: Cfg, s: Store, w: string, head: Option<Head>, rows: seq<Row>)
    requires Inv(cfg, s)
    requires At(s, w).Writing? && At(s, w).todo != [] && At(s, w).tx.Locked?
    requires IsHead(s.t, At(s, w).todo[0].name, head)
    requires ChainFrom(cfg.hash, At(s, w).todo[0].items, HeadSeq(head), HeadHash(head)) == Some(rows)
    ensures Inv(cfg, Put(s, w, At(s, w).(tx := HeadRead(rows))))
  {
    var ss := At(s, w);
    var g := ss.todo[0];
    Known(cfg, s, w);
    HeadIsLast(cfg, s.t, g.name, head);
    ChainFromIs(cfg.hash, g.items, HeadSeq(head), HeadHash(head), rows);
    assert |rows| == |g.items|;
    assert Follows(cfg.hash, rows, 0, HeadSeq(head), HeadHash(head));
    assert g.name in s.t.pruned ==> s.t.pruned[g.name] < |History(s.t, g.name)|;
    assert ChainedOnto(cfg, s.t, g, rows);
    var ss' := ss.(tx := HeadRead(rows));
    forall v | v != w ensures PairOk(ss', At(s, v)) && PairOk(At(s, v), ss') {
      if HasDeleted(At(s, v)) {
        DeletedBelow(cfg, s, v);
      }
    }
    LocalStep(cfg, s, w, ss', s.locks);
  }

  /** A head that is not the last row collides with the row after it, which is live. */
  lemma StaleHeadCollides(cfg: Cfg, t: Tables, g: Group<Event>, rows: seq<Row>)
    requires HistoryOk(cfg, t) && LiveOk(t) && ChainedOnto(cfg, t, g, rows)
    requires forall j | 0 <= j < |g.items| :: g.items[j].stream == g.name
    requires !InTable(t.live, rows)
    ensures rows[0].seqNo == |History(t, g.name)| + 1
  {
    var k: nat := rows[0].seqNo - 1;
    if k < |History(t, g.name)| {
      assert EventsOf(rows)[0] == rows[0].ev;
      RowAfterIsLive(cfg, t, g.name, k);
      assert Clash(rows[0], History(t, g.name)[k]);
    }
  }

  lemma InsertedIsNotLive(t: Tables, rows: seq<Row>)
    requires !InTable(t.live, rows)
    ensures NotLive(t, rows)
  {
    forall i, r | 0 <= i < |rows| && r in t.live ensures r.ev.id != rows[i].ev.id {
      assert !Clash(rows[i], r);
    }
  }

  lemma NoClashSymmetric(xs: seq<Row>, ys: seq<Row>)
    requires NoClash(xs, ys)
    ensures NoClash(ys, xs)
  {
    forall i, j | 0 <= i < |ys| && 0 <= j < |xs| ensures !Clash(ys[i], xs[j]) {
      assert !Clash(xs[j], ys[i]);
    }
  }

  lemma InsertKeeps(cfg: Cfg, s: Store, w: string)
    requires Inv(cfg, s)
    requires At(s, w).Writing? && At(s, w).tx.HeadRead?
    requires forall v | v != w && HasInserted(At(s, v)) :: NoClash(At(s, v).tx.rows, At(s, w).tx.rows)
    requires !InTable(s.t.live, At(s, w).tx.rows)
    ensures Inv(cfg, Put(s, w, At(s, w).(tx := Inserted(At(s, w).tx.rows))))
  {
    var ss := At(s, w);
    Known(cfg, s, w);
    StaleHeadCollides(cfg, s.t, ss.todo[0], ss.tx.rows);
    InsertedIsNotLive(s.t, ss.tx.rows);
    var ss' := ss.(tx := Inserted(ss.tx.rows));
    forall v | v != w ensures PairOk(ss', At(s, v)) && PairOk(At(s, v), ss') {
      if HasInserted(At(s, v)) {
        NoClashSymmetric(At(s, v).tx.rows, ss.tx.rows);
      }
    }
    LocalStep(cfg, s, w, ss', s.locks);
  }

  lemma {:induction false} ByIdAt(rows: seq<Row>, i: nat)
    requires DistinctIds(EventsOf(rows)) && i < |rows|
    ensures rows[i].ev.id in ById(rows) && ById(rows)[rows[i].ev.id] == rows[i]
  {
    if i < |rows| - 1 {
      DistinctInit(rows);
      ByIdAt(rows[..|rows| - 1], i);
    }
  }

  lemma {:induction false} ByIdFrom(rows: seq<Row>, id: string)
    requires id in ById(rows)
    ensures ById(rows)[id] in rows && ById(rows)[id].ev.id == id
  {
    if id != Last(rows).ev.id {
      ByIdFrom(rows[..|rows| - 1], id);
    }
  }

  lemma {:induction false} ByIdIs(rows: seq<Row>)
    requires DistinctIds(EventsOf(rows))
    ensures forall i | 0 <= i < |rows| :: rows[i].ev.id in ById(rows) && ById(rows)[rows[i].ev.id] == rows[i]
    ensures forall id | id in ById(rows) :: ById(rows)[id] in rows && ById(rows)[id].ev.id == id
  {
    forall i | 0 <= i < |rows| ensures rows[i].ev.id in ById(rows) && ById(rows)[rows[i].ev.id] == rows[i] {
      ByIdAt(rows, i);
    }
    forall id | id in ById(rows) ensures ById(rows)[id] in rows && ById(rows)[id].ev.id == id {
      ByIdFrom(rows, id);
    }
  }

  lemma DistinctInit(rows: seq<Row>)
    requires rows != [] && DistinctIds(EventsOf(rows))
    ensures DistinctIds(EventsOf(rows[..|rows| - 1]))
    ensures forall i | 0 <= i < |rows| - 1 :: rows[i].ev.id != Last(rows).ev.id
  {
    var init := rows[..|rows| - 1];
    assert EventsOf(init) == EventsOf(rows)[..|rows| - 1];
    forall i | 0 <= i < |rows| - 1 ensures rows[i].ev.id != Last(rows).ev.id {
      assert EventsOf(rows)[i].id != EventsOf(rows)[|rows| - 1].id;
    }
  }

  /** The writer after its commit. */
  function Committed(ss: Session): Session
    requires HasInserted(ss) && ss.todo != []
  {
    ss.(todo := ss.todo[1..], results := ss.results + ById(ss.tx.rows), tx := NoTx)
  }

  lemma InsertedChainsOn(cfg: Cfg, t: Tables, ss: Session)
    requires SessionOk(cfg, t, ss) && HasInserted(ss)
    ensures ChainsOn(cfg, t, ss.todo[0].name, ss.tx.rows)
    ensures NotLive(t, ss.tx.rows) && DistinctIds(EventsOf(ss.tx.rows))
    ensures Placed(ss.todo[0].name, ss.tx.rows, |History(t, ss.todo[0].name)|)
  {
    var g, rows := ss.todo[0], ss.tx.rows;
    forall i | 0 <= i < |rows| ensures rows[i].ev.stream == g.name {
      assert EventsOf(rows)[i] == rows[i].ev;
    }
    ChainIsPlaced(cfg.hash, g.name, rows, |History(t, g.name)|, PrevOf(History(t, g.name), |History(t, g.name)|, GENESIS));
  }

  lemma CommittedResults(cfg: Cfg, t: Tables, ss: Session)
    requires SessionOk(cfg, t, ss) && HasInserted(ss)
    ensures ResultsOk(AfterWrite(t, ss.todo[0].name, ss.tx.rows), ss.results + ById(ss.tx.rows))
  {
    var rows := ss.tx.rows;
    InsertedChainsOn(cfg, t, ss);
    ByIdIs(rows);
    var t' := AfterWrite(t, ss.todo[0].name, rows);
    ExtendsByWrite(t, ss.todo[0].name, rows);
    ResultsKept(t, t', ss.results);
    var all := ss.results + ById(rows);
    forall id | id in all ensures IsRow(t', all[id]) && all[id].ev.id == id {
      if id in ById(rows) {
        RowsAfterWrite(t, ss.todo[0].name, rows, ById(rows)[id]);
      }
    }
  }

  /** An event of the group just inserted is stored now. */
  lemma InsertedIsStored(fp: Fp, items: seq<Event>, rows: seq<Row>, results: map<string, Row>, e: Event)
    requires EventsOf(rows) == items && DistinctIds(items) && Among(fp, items, e)
    ensures Stored(fp, results + ById(rows), e)
  {
    ByIdIs(rows);
    var j :| 0 <= j < |items| && items[j].id == e.id && SameAs(fp, items[j], e);
    assert items[j] == rows[j].ev && ById(rows)[rows[j].ev.id] == rows[j];
  }

  /** The rows inserted for a group have the ids of its events. */
  lemma InsertedHasItem(g: Group<Event>, rows: seq<Row>, id: string)
    requires EventsOf(rows) == g.items && id in ById(rows)
    ensures HasItem(g, id)
  {
    ByIdFrom(rows, id);
    var j :| 0 <= j < |rows| && rows[j] == ById(rows)[id];
    assert g.items[j] == rows[j].ev;
  }

  /** What was stored stays stored: the inserted ids are not among the results. */
  lemma StoredStays(fp: Fp, g: Group<Event>, rows: seq<Row>, results: map<string, Row>, e: Event)
    requires EventsOf(rows) == g.items && Stored(fp, results, e) && forall id | HasItem(g, id) :: id !in results
    ensures Stored(fp, results + ById(rows), e)
  {
    if e.id in ById(rows) {
      InsertedHasItem(g, rows, e.id);
    }
  }

  /** The groups left have ids of their own still. */
  lemma OwnIdsLeft(todo: seq<Group<Event>>, rows: seq<Row>, results: map<string, Row>)
    requires todo != [] && EventsOf(rows) == todo[0].items && OwnIds(todo, results)
    ensures OwnIds(todo[1..], results + ById(rows))
  {
    forall i, id | 0 <= i < |todo[1..]| && HasItem(todo[1..][i], id) ensures id !in results + ById(rows) {
      assert HasItem(todo[i + 1], id);
      if id in ById(rows) {
        InsertedHasItem(todo[0], rows, id);
      }
    }
    forall i, j, id | 0 <= i < j < |todo[1..]| && HasItem(todo[1..][i], id) ensures !HasItem(todo[1..][j], id) {
      assert HasItem(todo[i + 1], id) && !HasItem(todo[j + 1], id);
    }
  }

  lemma CommittedBatch(cfg: Cfg, t: Tables, ss: Session, e: Event)
    requires SessionOk(cfg, t, ss) && HasInserted(ss)
    requires Stored(cfg.fp, ss.results, e) || AmongGroups(cfg.fp, ss.todo, e)
    ensures Stored(cfg.fp, ss.results + ById(ss.tx.rows), e) || AmongGroups(cfg.fp, ss.todo[1..], e)
  {
    var fp, todo := cfg.fp, ss.todo;
    if Stored(fp, ss.results, e) {
      StoredStays(fp, todo[0], ss.tx.rows, ss.results, e);
    } else {
      var i :| 0 <= i < |todo| && Among(fp, todo[i].items, e);
      if i > 0 {
        assert Among(fp, todo[1..][i - 1].items, e);
      } else {
        InsertedIsStored(fp, todo[0].items, ss.tx.rows, ss.results, e);
      }
    }
  }

  lemma CommittedOk(cfg: Cfg, t: Tables, ss: Session)
    requires SessionOk(cfg, t, ss) && HasInserted(ss)
    ensures SessionOk(cfg, AfterWrite(t, ss.todo[0].name, ss.tx.rows), Committed(ss))
  {
    CommittedResults(cfg, t, ss);
    OwnIdsLeft(ss.todo, ss.tx.rows, ss.results);
    forall i | 0 <= i < |ss.batch|
      ensures Stored(cfg.fp, ss.results + ById(ss.tx.rows), ss.batch[i]) || AmongGroups(cfg.fp, ss.todo[1..], ss.batch[i])
    {
      CommittedBatch(cfg, t, ss, ss.batch[i]);
    }
  }

  /** Two uncommitted inserts are in two streams. */
  lemma InsertedApart(cfg: Cfg, t: Tables, a: Session, b: Session)
    requires SessionOk(cfg, t, a) && HasInserted(a) && SessionOk(cfg, t, b) && HasInserted(b)
    requires NoClash(a.tx.rows, b.tx.rows)
    ensures a.todo[0].name != b.todo[0].name
  {
    InsertedChainsOn(cfg, t, a);
    InsertedChainsOn(cfg, t, b);
    assert !Clash(a.tx.rows[0], b.tx.rows[0]);
  }

  lemma CommitKeeps(cfg: Cfg, s: Store, w: string)
    requires Inv(cfg, s) && HasInserted(At(s, w)) && At(s, w).todo != []
    ensures Inv(cfg, Store(AfterWrite(s.t, At(s, w).todo[0].name, At(s, w).tx.rows),
                           Unlock(s.locks, w), s.sessions[w := Committed(At(s, w))]))
  {
    var ss := At(s, w);
    var stream, rows := ss.todo[0].name, ss.tx.rows;
    Known(cfg, s, w);
    InsertedChainsOn(cfg, s.t, ss);
    TablesAfterWrite(cfg, s.t, stream, rows);
    CommittedOk(cfg, s.t, ss);
    forall v | v != w ensures SessionOk(cfg, AfterWrite(s.t, stream, rows), At(s, v)) {
      Known(cfg, s, v);
      assert PairOk(At(s, v), ss);
      if HasInserted(At(s, v)) {
        InsertedApart(cfg, s.t, At(s, v), ss);
      }
      SessionAfterWrite(cfg, s.t, stream, rows, At(s, v));
    }
    TablesStep(cfg, s, w, AfterWrite(s.t, stream, rows), Committed(ss));
  }

  /** A step that changes the tables and leaves its own session quiet and without locks. */
  lemma TablesStep(cfg: Cfg, s: Store, w: string, t': Tables, ss': Session)
    requires Inv(cfg, s) && TablesOk(cfg, t')
    requires Quiet(ss') && SessionOk(cfg, t', ss') && LockOk(cfg, Unlock(s.locks, w), w, ss')
    requires forall v | v != w :: SessionOk(cfg, t', At(s, v))
    ensures Inv(cfg, Store(t', Unlock(s.locks, w), s.sessions[w := ss']))
  {
    var s' := Store(t', Unlock(s.locks, w), s.sessions[w := ss']);
    assert At(s', w) == ss' && forall v | v != w :: At(s', v) == At(s, v);
    forall v ensures LockOk(cfg, s'.locks, v, At(s', v)) {
      if v != w {
        assert LockOk(cfg, s.locks, v, At(s, v));
      }
    }
    forall v, x | v != x ensures PairOk(At(s', v), At(s', x)) {
      assert PairOk(At(s, v), At(s, x));
    }
  }

  /** When nothing is left to insert every event of the batch has its row. */
  lemma FinishKeeps(cfg: Cfg, s: Store, w: string)
    requires Inv(cfg, s) && At(s, w).Writing? && At(s, w).todo == []
    ensures forall i | 0 <= i < |At(s, w).batch| :: At(s, w).batch[i].id in At(s, w).results
    ensures var ss := At(s, w);
            Inv(cfg, Put(s, w, Returned(ss.batch,
              seq(|ss.batch|, i requires 0 <= i < |ss.batch| && ss.batch[i].id in ss.results => ss.results[ss.batch[i].id]))))
  {
    var ss := At(s, w);
    Known(cfg, s, w);
    forall i | 0 <= i < |ss.batch| ensures Stored(cfg.fp, ss.results, ss.batch[i]) {
      assert !AmongGroups(cfg.fp, ss.todo, ss.batch[i]);
    }
    var rows := seq(|ss.batch|, i requires 0 <= i < |ss.batch| && ss.batch[i].id in ss.results => ss.results[ss.batch[i].id]);
    assert Matches(cfg.fp, s.t, ss.batch, rows);
    QuietStep(cfg, s, w, Returned(ss.batch, rows), s.locks);
  }
}
