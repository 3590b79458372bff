/** Every processed outbox row has each of its events in the store exactly once, in every run. */
module ExactlyOnce {
  import opened Wrappers
  import opened AuditTypes
  import opened WritePlan
  import opened AuditStore
  import opened StoreInvariant
  import opened StoreSessions
  import opened StoreProof
  import opened StorePrune
  import opened StoreTheorems
  import opened Outbox

  // ---------------------------------------------------------------------------
  // The invariant

  /** A committed row is this event. */
  ghost predicate HasEvent(fp: Fp, t: Tables, e: Event) {
    exists row :: IsRow(t, row) && row.ev.id == e.id && SameAs(fp, row.ev, e)
  }

  ghost predicate HasEvents(fp: Fp, t: Tables, events: seq<Event>) {
    forall i | 0 <= i < |events| :: HasEvent(fp, t, events[i])
  }

  /** The payload can be read and all its events are in the store. */
  ghost predicate Delivered(r: Relay, t: Tables, payload: string) {
    r.parse(payload).Some? && HasEvents(r.store.fp, t, r.parse(payload).value)
  }

  ghost predicate BoxOk(r: Relay, t: Tables, box: map<string, OutboxRow>) {
    forall id | id in box && box[id].status.Processed? :: Delivered(r, t, box[id].payload)
  }

  /** The session of the store that runs a drain's write runs it for the drain's events. */
  predicate WritesFor(x: Drain, ss: Session) {
    x.Delivering? && x.started ==> ss.Idle? || ((ss.Writing? || ss.Returned?) && ss.batch == x.events)
  }

  /** The rows a drain remembers have the payloads of the table's rows. */
  predicate Remembers(box: map<string, OutboxRow>, rows: seq<Snapshot>) {
    forall i | 0 <= i < |rows| :: rows[i].id in box && rows[i].payload == box[rows[i].id].payload
  }

  ghost predicate DrainOk(r: Relay, t: Tables, box: map<string, OutboxRow>, x: Drain) {
    match x
    case Resting => true
    case Draining(rows) => Remembers(box, rows)
    case Clocked(rows, claimedAt) => Remembers(box, rows)
    case Delivering(rows, claimedAt, attempts, events, started) =>
      Remembers(box, rows) && rows != [] && r.parse(rows[0].payload) == Some(events)
    case Acking(rows, claimedAt, attempts, events) =>
      && Remembers(box, rows) && rows != [] && r.parse(rows[0].payload) == Some(events)
      && HasEvents(r.store.fp, t, events)
    case Failing(rows, claimedAt, attempts, terminal) => Remembers(box, rows)
  }

  ghost predicate StoreOk(r: Relay, store: Store) {
    Inv(r.store, store) && Plain(store)
  }

  ghost predicate RelayInv(r: Relay, s: System) {
    && StoreOk(r, s.store)
    && BoxOk(r, s.store.t, s.box)
    && (forall d :: DrainOk(r, s.store.t, s.box, Of(s, d)))
    && (forall d :: WritesFor(Of(s, d), At(s.store, d)))
  }

  // ---------------------------------------------------------------------------
  // What a step of the store keeps

  lemma StoreStep(r: Relay, store: Store, w: string, step: Step, store': Store)
    requires StoreOk(r, store) && AuditStore.Next(r.store, store, w, step, store') && !step.StartPrune?
    ensures StoreOk(r, store') && Extends(store.t, store'.t)
  {
    PlainStepKeeps(r.store, store, w, step, store');
  }

  lemma OthersUnchanged(cfg: Cfg, store: Store, w: string, step: Step, store': Store, v: string)
    requires AuditStore.Next(cfg, store, w, step, store') && v != w
    ensures At(store', v) == At(store, v)
  {
  }

  /** A session keeps its batch until it is idle again. */
  lemma BatchKept(cfg: Cfg, store: Store, w: string, step: Step, store': Store)
    requires AuditStore.Next(cfg, store, w, step, store')
    requires !step.StartWrite? && !step.StartPrune? && !At(store, w).Pruning?
    ensures var ss' := At(store', w);
            ss'.Idle? || ((ss'.Writing? || ss'.Returned?) && !At(store, w).Idle? && ss'.batch == At(store, w).batch)
  {
  }

  lemma StartedFor(cfg: Cfg, store: Store, w: string, batch: seq<Event>, existing: map<string, Row>, store': Store)
    requires AuditStore.Next(cfg, store, w, StartWrite(batch, existing), store')
    ensures var ss' := At(store', w); ss'.Idle? || ((ss'.Writing? || ss'.Returned?) && ss'.batch == batch)
  {
  }

  lemma HasEventKept(fp: Fp, t: Tables, t': Tables, e: Event)
    requires Extends(t, t') && HasEvent(fp, t, e)
    ensures HasEvent(fp, t', e)
  {
    var row :| IsRow(t, row) && row.ev.id == e.id && SameAs(fp, row.ev, e);
    RowKept(t, t', row);
  }

  lemma HasEventsKept(fp: Fp, t: Tables, t': Tables, events: seq<Event>)
    requires Extends(t, t') && HasEvents(fp, t, events)
    ensures HasEvents(fp, t', events)
  {
    forall i | 0 <= i < |events| ensures HasEvent(fp, t', events[i]) {
      HasEventKept(fp, t, t', events[i]);
    }
  }

  lemma BoxKept(r: Relay, t: Tables, t': Tables, box: map<string, OutboxRow>)
    requires Extends(t, t') && BoxOk(r, t, box)
    ensures BoxOk(r, t', box)
  {
    forall id | id in box && box[id].status.Processed? ensures Delivered(r, t', box[id].payload) {
      HasEventsKept(r.store.fp, t, t', r.parse(box[id].payload).value);
    }
  }

  lemma DrainKept(r: Relay, t: Tables, t': Tables, box: map<string, OutboxRow>, x: Drain)
    requires Extends(t, t') && DrainOk(r, t, box, x)
    ensures DrainOk(r, t', box, x)
  {
    if x.Acking? {
      HasEventsKept(r.store.fp, t, t', x.events);
    }
  }

  // ---------------------------------------------------------------------------
  // What a change of the table keeps

  /** Rows are added and updated, never removed, and no payload changes. */
  ghost predicate Grows(box: map<string, OutboxRow>, box': map<string, OutboxRow>) {
    forall id | id in box :: id in box' && box'[id].payload == box[id].payload
  }

  lemma DrainSeesGrowth(r: Relay, t: Tables, box: map<string, OutboxRow>, box': map<string, OutboxRow>, x: Drain)
    requires Grows(box, box') && DrainOk(r, t, box, x)
    ensures DrainOk(r, t, box', x)
  {
  }

  lemma BoxMove(r: Relay, s: System, box': map<string, OutboxRow>)
    requires RelayInv(r, s) && Grows(s.box, box') && BoxOk(r, s.store.t, box')
    ensures RelayInv(r, s.(box := box'))
  {
    var s' := s.(box := box');
    forall d ensures DrainOk(r, s'.store.t, s'.box, Of(s', d)) && WritesFor(Of(s', d), At(s'.store, d)) {
      assert Of(s', d) == Of(s, d);
      DrainSeesGrowth(r, s.store.t, s.box, box', Of(s, d));
    }
  }

  lemma DrainMove(r: Relay, s: System, d: string, x: Drain)
    requires RelayInv(r, s) && DrainOk(r, s.store.t, s.box, x) && WritesFor(x, At(s.store, d))
    ensures RelayInv(r, Set(s, d, x))
  {
    var s' := Set(s, d, x);
    forall e ensures DrainOk(r, s'.store.t, s'.box, Of(s', e)) && WritesFor(Of(s', e), At(s'.store, e)) {
      assert e != d ==> Of(s', e) == Of(s, e);
    }
  }

  lemma StoreMoveKeeps(r: Relay, s: System, d: string, step: Step, store': Store)
    requires RelayInv(r, s) && AuditStore.Next(r.store, s.store, d, step, store') && !step.StartPrune?
    requires WritesFor(Of(s, d), At(store', d))
    ensures RelayInv(r, s.(store := store'))
  {
    var s' := s.(store := store');
    StoreStep(r, s.store, d, step, store');
    BoxKept(r, s.store.t, store'.t, s.box);
    forall e ensures DrainOk(r, s'.store.t, s'.box, Of(s', e)) && WritesFor(Of(s', e), At(s'.store, e)) {
      assert Of(s', e) == Of(s, e);
      DrainKept(r, s.store.t, store'.t, s.box, Of(s, e));
      if e != d {
        OthersUnchanged(r.store, s.store, d, step, store', e);
      }
    }
  }

  // ---------------------------------------------------------------------------
  // The moves

  /** An update that leaves the payload and does not make the row processed, unless its events are
      in the store. */
  lemma UpdateKeeps(r: Relay, s: System, id: string, row: OutboxRow)
    requires RelayInv(r, s) && id in s.box && row.payload == s.box[id].payload
    requires row.status.Processed? ==> s.box[id].status.Processed? || Delivered(r, s.store.t, row.payload)
    ensures RelayInv(r, s.(box := s.box[id := row]))
  {
    BoxMove(r, s, s.box[id := row]);
  }

  lemma SubmitKeeps(r: Relay, s: System, id: string, payload: string)
    requires RelayInv(r, s) && id !in s.box
    ensures RelayInv(r, s.(box := s.box[id := OutboxRow(payload, Pending, 0, s.clock, None, 0, 0)]))
  {
    BoxMove(r, s, s.box[id := OutboxRow(payload, Pending, 0, s.clock, None, 0, 0)]);
  }

  lemma TickKeeps(r: Relay, s: System, now: int)
    requires RelayInv(r, s)
    ensures RelayInv(r, s.(clock := now))
  {
    var s' := s.(clock := now);
    assert forall d :: Of(s', d) == Of(s, d);
  }

  lemma ClaimKeeps(r: Relay, s: System, d: string)
    requires RelayInv(r, s) && Of(s, d).Clocked? && Of(s, d).rows != []
    requires var snap := Of(s, d).rows[0]; snap.id in s.box
    ensures var x := Of(s, d);
            var snap := x.rows[0];
            RelayInv(r, Set(s, d, AfterClaim(r, x.rows, x.claimedAt)).(
              box := s.box[snap.id := ClaimRow(s.box[snap.id], x.claimedAt, snap.attempts + 1)]))
  {
    var x := Of(s, d);
    var snap := x.rows[0];
    assert DrainOk(r, s.store.t, s.box, x);
    DrainMove(r, s, d, AfterClaim(r, x.rows, x.claimedAt));
    UpdateKeeps(r, Set(s, d, AfterClaim(r, x.rows, x.claimedAt)), snap.id,
      ClaimRow(s.box[snap.id], x.claimedAt, snap.attempts + 1));
  }

  lemma BeginKeeps(r: Relay, s: System, d: string, existing: map<string, Row>, store': Store)
    requires RelayInv(r, s) && Of(s, d).Delivering? && !Of(s, d).started
    requires AuditStore.Next(r.store, s.store, d, StartWrite(Of(s, d).events, existing), store')
    ensures RelayInv(r, Set(s, d, Of(s, d).(started := true)).(store := store'))
  {
    var x := Of(s, d);
    StartedFor(r.store, s.store, d, x.events, existing, store');
    StoreMoveKeeps(r, s, d, StartWrite(x.events, existing), store');
    var s1 := s.(store := store');
    assert Of(s1, d) == x && DrainOk(r, s1.store.t, s1.box, x);
    DrainMove(r, s1, d, x.(started := true));
  }

  /** What a write returned is in the store. */
  lemma ReturnedHasEvents(cfg: Cfg, t: Tables, batch: seq<Event>, rows: seq<Row>)
    requires Matches(cfg.fp, t, batch, rows)
    ensures HasEvents(cfg.fp, t, batch)
  {
    forall i | 0 <= i < |batch| ensures HasEvent(cfg.fp, t, batch[i]) {
      assert IsRow(t, rows[i]);
    }
  }

  lemma DoneKeeps(r: Relay, s: System, d: string)
    requires RelayInv(r, s) && Of(s, d).Delivering? && Of(s, d).started && At(s.store, d).Returned?
    ensures var x := Of(s, d);
            RelayInv(r, Set(s, d, Acking(x.rows, x.claimedAt, x.attempts, x.events)).(store := Put(s.store, d, Idle)))
  {
    var x := Of(s, d);
    var ss := At(s.store, d);
    Known(r.store, s.store, d);
    assert WritesFor(x, ss);
    ReturnedHasEvents(r.store, s.store.t, ss.batch, ss.rows);
    assert DrainOk(r, s.store.t, s.box, x);
    StoreMoveKeeps(r, s, d, Reset, Put(s.store, d, Idle));
    var s1 := s.(store := Put(s.store, d, Idle));
    assert s1.store.t == s.store.t;
    DrainMove(r, s1, d, Acking(x.rows, x.claimedAt, x.attempts, x.events));
  }

  lemma AckingDelivered(r: Relay, s: System, d: string)
    requires RelayInv(r, s) && Of(s, d).Acking?
    ensures Of(s, d).rows != [] && Of(s, d).rows[0].id in s.box
    ensures Delivered(r, s.store.t, s.box[Of(s, d).rows[0].id].payload)
    ensures Remembers(s.box, Of(s, d).rows)
  {
    assert DrainOk(r, s.store.t, s.box, Of(s, d));
  }

  /** A drain goes on without its first row, or fails it; the row is updated or not. */
  lemma FinishRow(r: Relay, s: System, d: string, x: Drain, id: string, row: OutboxRow)
    requires RelayInv(r, s) && id in s.box && row.payload == s.box[id].payload
    requires row.status.Processed? ==> s.box[id].status.Processed? || Delivered(r, s.store.t, row.payload)
    requires (x.Draining? || x.Failing?) && Remembers(s.box, x.rows)
    ensures RelayInv(r, Set(s, d, x).(box := s.box[id := row]))
  {
    DrainMove(r, s, d, x);
    UpdateKeeps(r, Set(s, d, x), id, row);
  }

  lemma RestRemembered(box: map<string, OutboxRow>, rows: seq<Snapshot>)
    requires Remembers(box, rows) && rows != []
    ensures Remembers(box, rows[1..])
  {
  }

  lemma AckKeeps(r: Relay, s: System, d: string, x: Drain)
    requires RelayInv(r, s) && Of(s, d).Acking? && Of(s, d).rows != [] && Of(s, d).rows[0].id in s.box
    requires x == Draining(Of(s, d).rows[1..]) || (x.Failing? && x.rows == Of(s, d).rows)
    ensures RelayInv(r, Set(s, d, x).(box := Update(s.box, Of(s, d).rows[0].id, AckRow(s.box[Of(s, d).rows[0].id]))))
  {
    var id := Of(s, d).rows[0].id;
    AckingDelivered(r, s, d);
    RestRemembered(s.box, Of(s, d).rows);
    FinishRow(r, s, d, x, id, AckRow(s.box[id]));
  }

  lemma FailKeeps(r: Relay, s: System, d: string)
    requires RelayInv(r, s) && Of(s, d).Failing? && Of(s, d).rows != [] && Of(s, d).rows[0].id in s.box
    ensures var x := Of(s, d);
            RelayInv(r, Set(s, d, Draining(x.rows[1..])).(
              box := Update(s.box, x.rows[0].id, FailRow(r, s.box[x.rows[0].id], x.attempts, x.terminal, s.clock))))
  {
    var x := Of(s, d);
    assert DrainOk(r, s.store.t, s.box, x);
    RestRemembered(s.box, x.rows);
    FinishRow(r, s, d, Draining(x.rows[1..]), x.rows[0].id,
      FailRow(r, s.box[x.rows[0].id], x.attempts, x.terminal, s.clock));
  }

  lemma LocalMoveKeeps(r: Relay, s: System, d: string, move: Move, s': System)
    requires RelayInv(r, s) && Outbox.Next(r, s, d, move, s')
    requires move.Select? || move.ReadClock? || move.Claim? || move.Threw? || move.Stop?
    ensures RelayInv(r, s')
  {
    var x := Of(s, d);
    assert DrainOk(r, s.store.t, s.box, x);
    match move
    case Select(now, rows) => DrainMove(r, s, d, Draining(rows));
    case ReadClock => DrainMove(r, s, d, Clocked(x.rows, s.clock));
    case Claim =>
      if x.rows[0].id in s.box && Claimable(r, s.box[x.rows[0].id], x.claimedAt) {
        ClaimKeeps(r, s, d);
      } else {
        RestRemembered(s.box, x.rows);
        DrainMove(r, s, d, Draining(x.rows[1..]));
      }
    case Threw => DrainMove(r, s, d, Failing(x.rows, x.claimedAt, x.attempts, false));
    case Stop => DrainMove(r, s, d, Resting);
  }

  lemma SharedMoveKeeps(r: Relay, s: System, d: string, move: Move, s': System)
    requires RelayInv(r, s) && Outbox.Next(r, s, d, move, s')
    requires move.Submit? || move.Requeue? || move.Tick? || move.StoreMove? || move.Begin? || move.Done?
    ensures RelayInv(r, s')
  {
    match move
    case Submit(id, payload) => SubmitKeeps(r, s, id, payload);
    case Requeue(id) => UpdateKeeps(r, s, id, RequeueRow(s.box[id], s.clock));
    case Tick(now) => TickKeeps(r, s, now);
    case StoreMove(step) =>
      assert WritesFor(Of(s, d), At(s.store, d)) && !At(s.store, d).Pruning?;
      if Of(s, d).Delivering? {
        BatchKept(r.store, s.store, d, step, s'.store);
      }
      StoreMoveKeeps(r, s, d, step, s'.store);
    case Begin(existing) => BeginKeeps(r, s, d, existing, s'.store);
    case Done => DoneKeeps(r, s, d);
  }

  lemma MoveKeeps(r: Relay, s: System, d: string, move: Move, s': System)
    requires RelayInv(r, s) && Outbox.Next(r, s, d, move, s')
    ensures RelayInv(r, s')
  {
    if move.Select? || move.ReadClock? || move.Claim? || move.Threw? || move.Stop? {
      LocalMoveKeeps(r, s, d, move, s');
    } else if move.Ack? {
      AckKeeps(r, s, d, Draining(Of(s, d).rows[1..]));
    } else if move.AckThrew? {
      var x := Of(s, d);
      AckingDelivered(r, s, d);
      AckKeeps(r, s, d, Failing(x.rows, x.claimedAt, x.attempts, false));
      DrainMove(r, s, d, Failing(x.rows, x.claimedAt, x.attempts, false));
    } else if move.Fail? {
      FailKeeps(r, s, d);
    } else {
      SharedMoveKeeps(r, s, d, move, s');
    }
  }

  lemma InitialOk(r: Relay)
    ensures RelayInv(r, INITIAL)
  {
    EmptyOk(r.store);
  }

  lemma {:induction false} RelayRunKeeps(r: Relay, run: seq<System>, i: nat)
    requires IsRelayRun(r, run) && i < |run|
    ensures RelayInv(r, run[i])
  {
    if i == 0 {
      InitialOk(r);
    } else {
      RelayRunKeeps(r, run, i - 1);
      assert CanMove(r, run[i - 1], run[i - 1 + 1]);
      var d, move :| Outbox.Next(r, run[i - 1], d, move, run[i]);
      MoveKeeps(r, run[i - 1], d, move, run[i]);
    }
  }

  // ---------------------------------------------------------------------------
  // Exactly once

  /** A live row is this event, and no other live row has its id. */
  ghost predicate StoredOnce(fp: Fp, t: Tables, e: Event) {
    exists row | row in t.live ::
      row.ev.id == e.id && SameAs(fp, row.ev, e) && forall other | other in t.live && other.ev.id == e.id :: other == row
  }

  lemma HasEventOnce(cfg: Cfg, store: Store, e: Event)
    requires Inv(cfg, store) && Plain(store) && HasEvent(cfg.fp, store.t, e)
    ensures StoredOnce(cfg.fp, store.t, e)
  {
    PlainFresh(cfg, store, "", Reset);
    var row :| IsRow(store.t, row) && row.ev.id == e.id && SameAs(cfg.fp, row.ev, e);
    assert row in store.t.live;
    forall other | other in store.t.live && other.ev.id == e.id ensures other == row {
      assert IsRow(store.t, other);
    }
  }

  /** Exactly-once delivery. In every run, with any number of drains and other writers, stopped
      drains, stale claims taken again, lost acknowledgements and requeues: each event of a
      processed outbox row is in the store exactly once, as that event. */
  lemma ProcessedIsStoredOnce(r: Relay, run: seq<System>, i: nat, id: string, k: nat)
    requires IsRelayRun(r, run) && i < |run|
    requires id in run[i].box && run[i].box[id].status.Processed?
    ensures r.parse(run[i].box[id].payload).Some?
    ensures k < |r.parse(run[i].box[id].payload).value| ==>
              StoredOnce(r.store.fp, run[i].store.t, r.parse(run[i].box[id].payload).value[k])
  {
    RelayRunKeeps(r, run, i);
    assert Delivered(r, run[i].store.t, run[i].box[id].payload);
    if k < |r.parse(run[i].box[id].payload).value| {
      HasEventOnce(r.store, run[i].store, r.parse(run[i].box[id].payload).value[k]);
    }
  }

  /** Whatever an outbox row's status, no event is in the store twice. */
  lemma NothingIsStoredTwice(r: Relay, run: seq<System>, i: nat, a: Row, b: Row)
    requires IsRelayRun(r, run) && i < |run|
    requires a in run[i].store.t.live && b in run[i].store.t.live && a.ev.id == b.ev.id
    ensures a == b
  {
    RelayRunKeeps(r, run, i);
    assert IsRow(run[i].store.t, a) && IsRow(run[i].store.t, b);
  }

  // ---------------------------------------------------------------------------
  // Rows are never lost

  /** What one move may do to a row: the payload stays, and a processed row stays as it is. It
      becomes processed only from processing, when its events are in the store. */
  ghost predicate RowEvolves(r: Relay, t: Tables, row: OutboxRow, row': OutboxRow) {
    && row'.payload == row.payload
    && (row.status.Processed? ==> row' == row)
    && (row'.status.Processed? && !row.status.Processed? ==> row.status.Processing? && Delivered(r, t, row.payload))
  }

  lemma MoveEvolves(r: Relay, s: System, d: string, move: Move, s': System, id: string)
    requires RelayInv(r, s) && Outbox.Next(r, s, d, move, s') && id in s.box
    ensures id in s'.box && RowEvolves(r, s.store.t, s.box[id], s'.box[id])
  {
    if move.Ack? || move.AckThrew? {
      AckingDelivered(r, s, d);
    }
  }

  lemma RunEvolves(r: Relay, run: seq<System>, i: nat, id: string)
    requires IsRelayRun(r, run) && i + 1 < |run| && id in run[i].box
    ensures id in run[i + 1].box && RowEvolves(r, run[i].store.t, run[i].box[id], run[i + 1].box[id])
  {
    RelayRunKeeps(r, run, i);
    assert CanMove(r, run[i], run[i + 1]);
    var d, move :| Outbox.Next(r, run[i], d, move, run[i + 1]);
    MoveEvolves(r, run[i], d, move, run[i + 1], id);
  }

  /** `row'` is `row` some moves later. */
  predicate Persists(row: OutboxRow, row': OutboxRow) {
    row'.payload == row.payload && (row.status.Processed? ==> row' == row)
  }

  /** No outbox row is ever lost or altered: once committed it is there in every later state with
      its payload, and processed is final. */
  lemma {:induction false} RowsAreNeverLost(r: Relay, run: seq<System>, i: nat, j: nat, id: string)
    requires IsRelayRun(r, run) && i <= j < |run| && id in run[i].box
    ensures id in run[j].box && Persists(run[i].box[id], run[j].box[id])
  {
    if i < j {
      RowsAreNeverLost(r, run, i, j - 1, id);
      RunEvolves(r, run, j - 1, id);
    }
  }
}
