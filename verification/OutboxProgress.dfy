/** What becomes of an outbox row (src/core/outbox_drainer.ts): when it can next be claimed, and that
    every row whose events fit the store can still be delivered. */
module OutboxProgress {
  import opened Wrappers
  import opened AuditTypes
  import opened WritePlan
  import opened AuditStore
  import opened StoreSessions
  import opened StoreTheorems
  import opened Outbox
  import opened ExactlyOnce
  import P = StoreProgress
  import R = StoreRuns

  // ---------------------------------------------------------------------------
  // When a row can next be claimed

  /** A move changes no other row than this one. */
  predicate OnlyRow(s: System, s': System, id: string) {
    id in s'.box && s'.box.Keys == s.box.Keys + {id} && forall k | k in s.box && k != id :: s'.box[k] == s.box[k]
  }

  /** A submitted row can be claimed from now on. */
  lemma Submitted(r: Relay, s: System, d: string, id: string, payload: string, s': System)
    requires Outbox.Next(r, s, d, Submit(id, payload), s')
    ensures OnlyRow(s, s', id) && s'.box[id].payload == payload && s'.box[id].attempts == 0
    ensures forall now :: Claimable(r, s'.box[id], now) <==> now >= s.clock
  {
  }

  /** A claim takes a row that can be claimed, which can then be claimed again only once the claim is
      stale; the drain goes on with its events, or fails it for good where it cannot be read. */
  lemma Claimed(r: Relay, s: System, d: string, s': System)
    requires Outbox.Next(r, s, d, Claim, s') && Of(s, d).rows[0].id in s.box
    requires Claimable(r, s.box[Of(s, d).rows[0].id], Of(s, d).claimedAt)
    ensures var x, x', id := Of(s, d), Of(s', d), Of(s, d).rows[0].id;
            && OnlyRow(s, s', id) && s'.box[id].payload == s.box[id].payload && s'.box[id].attempts == x.rows[0].attempts + 1
            && (forall now :: Claimable(r, s'.box[id], now) <==> x.claimedAt < now - r.staleClaimMs)
            && (x'.Delivering? <==> r.parse(x.rows[0].payload).Some?)
            && (x'.Delivering? ==> r.parse(x.rows[0].payload) == Some(x'.events))
            && (!x'.Delivering? ==> x'.Failing? && x'.terminal)
  {
  }

  /** An acknowledged row is processed, and is never claimed again. A row that is no longer processing
      stays as it is. */
  lemma Acknowledged(r: Relay, s: System, d: string, s': System)
    requires Outbox.Next(r, s, d, Ack, s')
    ensures var id := Of(s, d).rows[0].id;
            && OnlyRow(s, s', id) && s'.box[id].payload == s.box[id].payload
            && (s.box[id].status.Processing? ==> s'.box[id].status.Processed? && forall now :: !Claimable(r, s'.box[id], now))
            && (!s.box[id].status.Processing? ==> s'.box == s.box)
            && Of(s', d) == Draining(Of(s, d).rows[1..])
  {
  }

  /** A failed delivery of a row still processing ends it if it was the last attempt or the payload could
      not be read; otherwise the row can be claimed again after the retry delay. A row that is no longer
      processing stays as it is. */
  lemma FailureRecorded(r: Relay, s: System, d: string, s': System)
    requires Outbox.Next(r, s, d, Fail, s')
    ensures var x, id := Of(s, d), Of(s, d).rows[0].id;
            var last := x.terminal || x.attempts >= r.maxAttempts;
            && OnlyRow(s, s', id) && s'.box[id].payload == s.box[id].payload && s'.box[id].attempts == s.box[id].attempts
            && (s.box[id].status.Processing? ==>
                  && (s'.box[id].status.Failed? <==> last)
                  && (last ==> forall now :: !Claimable(r, s'.box[id], now))
                  && (!last ==> forall now :: Claimable(r, s'.box[id], now) <==> now >= s.clock + r.retryDelayMs))
            && (!s.box[id].status.Processing? ==> s'.box == s.box)
            && Of(s', d) == Draining(x.rows[1..])
  {
  }

  /** A failed row that is requeued can be claimed from now on, with its attempts counted anew. Any other
      row stays as it is. */
  lemma Requeued(r: Relay, s: System, d: string, id: string, s': System)
    requires Outbox.Next(r, s, d, Requeue(id), s')
    ensures OnlyRow(s, s', id) && s'.box[id].payload == s.box[id].payload
    ensures s.box[id].status.Failed? ==>
              s'.box[id].attempts == 0 && forall now :: Claimable(r, s'.box[id], now) <==> now >= s.clock
    ensures !s.box[id].status.Failed? ==> s'.box == s.box
  {
  }

  /** A row that cannot be read is failed after one claim, however often it might be tried. */
  lemma UnreadableIsFailed(r: Relay, s: System, d: string, s1: System, s2: System)
    requires Outbox.Next(r, s, d, Claim, s1) && Outbox.Next(r, s1, d, Fail, s2)
    requires Of(s, d).rows[0].id in s.box && Claimable(r, s.box[Of(s, d).rows[0].id], Of(s, d).claimedAt)
    requires r.parse(Of(s, d).rows[0].payload).None?
    ensures s2.box[Of(s, d).rows[0].id].status.Failed?
  {
    Claimed(r, s, d, s1);
    FailureRecorded(r, s1, d, s2);
  }

  // ---------------------------------------------------------------------------
  // Runs

  function Final(run: seq<System>): System
    requires run != []
  {
    run[|run| - 1]
  }

  lemma RunMore(r: Relay, run: seq<System>, d: string, move: Move, s': System)
    requires IsRelayRun(r, run) && Outbox.Next(r, Final(run), d, move, s')
    ensures IsRelayRun(r, run + [s']) && Final(run + [s']) == s' && run <= run + [s']
  {
    var all := run + [s'];
    assert CanMove(r, Final(run), s');
    forall i | 0 <= i < |all| - 1 ensures CanMove(r, all[i], all[i + 1]) {
      if i < |run| - 1 {
        assert CanMove(r, run[i], run[i + 1]);
      }
    }
  }

  /** A row that is processing has the time of its claim. */
  predicate ClaimsTimed(box: map<string, OutboxRow>) {
    forall id | id in box && box[id].status.Processing? :: box[id].claimedAt.Some?
  }

  lemma {:induction false} ClaimsAreTimed(r: Relay, run: seq<System>, i: nat)
    requires IsRelayRun(r, run) && i < |run|
    ensures ClaimsTimed(run[i].box)
  {
    if i == 0 {
    } else {
      ClaimsAreTimed(r, run, i - 1);
      assert CanMove(r, run[i - 1], run[i - 1 + 1]);
    }
  }

  // ---------------------------------------------------------------------------
  // Everybody can stop

  /** Everybody rests and no lock is held, but for these drains and their locks. */
  ghost predicate QuietBut(s: System, names: set<string>) {
    (forall d | d !in names :: Of(s, d).Resting?) && P.QuietBut(s.store, names)
  }

  lemma NamesOf(s: System) returns (names: set<string>)
    ensures QuietBut(s, names)
  {
    var others := P.NamesOf(s.store);
    names := s.drains.Keys + others;
  }

  lemma StoppedIsQuiet(s: System, names: set<string>, d: string)
    requires QuietBut(s, names)
    ensures QuietBut(Set(s, d, Resting).(store := Aborted(s.store, d)), names - {d})
  {
    var s' := Set(s, d, Resting).(store := Aborted(s.store, d));
    P.AbortedIsQuiet(s.store, names, d);
    forall e | e !in names - {d} ensures Of(s', e).Resting? {
      if e != d {
        assert Of(s, e).Resting?;
      }
    }
  }

  /** A drain stops and its session rolls back. */
  lemma DrainStops(r: Relay, run: seq<System>, d: string) returns (run': seq<System>)
    requires IsRelayRun(r, run)
    ensures IsRelayRun(r, run') && run <= run'
    ensures Final(run') == Set(Final(run), d, Resting).(store := Aborted(Final(run).store, d))
  {
    var s := Final(run);
    var s1 := Set(s, d, Resting);
    RunMore(r, run, d, Stop, s1);
    var s2 := s1.(store := Aborted(s.store, d));
    RunMore(r, run + [s1], d, StoreMove(Abort), s2);
    run' := run + [s1] + [s2];
  }

  /** What everybody stopping leaves as it is. */
  predicate SameRows(s: System, s': System) {
    s'.box == s.box && s'.store.t == s.store.t && s'.clock == s.clock
  }

  lemma {:induction false} EverybodyStops(r: Relay, run: seq<System>, names: set<string>) returns (run': seq<System>)
    requires IsRelayRun(r, run) && QuietBut(Final(run), names)
    ensures IsRelayRun(r, run') && run <= run' && SameRows(Final(run), Final(run')) && QuietBut(Final(run'), {})
    decreases |names|
  {
    if names == {} {
      run' := run;
    } else {
      var d :| d in names;
      var next := DrainStops(r, run, d);
      StoppedIsQuiet(Final(run), names, d);
      run' := EverybodyStops(r, next, names - {d});
    }
  }

  // ---------------------------------------------------------------------------
  // A delivery

  /** The time at which an open row can be claimed. */
  function ClaimTime(r: Relay, clock: int, row: OutboxRow): (now: int)
    requires row.status.Processing? ==> row.claimedAt.Some?
    ensures now >= clock && (row.status.Pending? || row.status.Processing? ==> Claimable(r, row, now))
  {
    var ready := if row.status.Processing? then row.claimedAt.value + r.staleClaimMs + 1 else row.availableAt;
    if ready > clock then ready else clock
  }

  function Snap(id: string, row: OutboxRow): Snapshot {
    Snapshot(id, row.payload, row.attempts)
  }

  /** The state after the drain claimed the row at `now`. */
  function Claiming(s: System, d: string, id: string, now: int, events: seq<Event>): System
    requires id in s.box
  {
    var row := s.box[id];
    Set(s, d, Delivering([Snap(id, row)], now, row.attempts + 1, events, false)).(
      clock := now, box := s.box[id := ClaimRow(row, now, row.attempts + 1)])
  }

  lemma DrainSelects(r: Relay, run: seq<System>, d: string, id: string, now: int) returns (run': seq<System>)
    requires IsRelayRun(r, run) && Of(Final(run), d).Resting? && id in Final(run).box && now >= Final(run).clock
    requires Claimable(r, Final(run).box[id], now)
    ensures IsRelayRun(r, run') && run <= run'
    ensures Final(run') == Set(Final(run), d, Clocked([Snap(id, Final(run).box[id])], now)).(clock := now)
  {
    var s := Final(run);
    var rows := [Snap(id, s.box[id])];
    var s1 := s.(clock := now);
    RunMore(r, run, d, Tick(now), s1);
    var s2 := Set(s1, d, Draining(rows));
    assert Of(s1, d) == Of(s, d);
    RunMore(r, run + [s1], d, Select(now, rows), s2);
    var s3 := Set(s2, d, Clocked(rows, now));
    RunMore(r, run + [s1] + [s2], d, ReadClock, s3);
    run' := run + [s1] + [s2] + [s3];
    assert s3.drains == s.drains[d := Clocked(rows, now)];
  }

  lemma DrainClaims(r: Relay, run: seq<System>, d: string, id: string, now: int, events: seq<Event>) returns (run': seq<System>)
    requires IsRelayRun(r, run) && Of(Final(run), d).Resting? && id in Final(run).box && now >= Final(run).clock
    requires Claimable(r, Final(run).box[id], now) && r.parse(Final(run).box[id].payload) == Some(events)
    ensures IsRelayRun(r, run') && run <= run'
    ensures Final(run') == Claiming(Final(run), d, id, now, events)
  {
    var s := Final(run);
    var selected := DrainSelects(r, run, d, id, now);
    var s3 := Final(selected);
    var s4 := Claiming(s, d, id, now, events);
    assert s4.drains == s3.drains[d := Of(s4, d)];
    RunMore(r, selected, d, Claim, s4);
    run' := selected + [s4];
  }

  lemma WorkIsMove(r: Relay, d: string, s: System, s': System)
    requires Of(s, d).Delivering? && Of(s, d).started && P.CanWork(r.store, d, s.store, s'.store) && s' == s.(store := s'.store)
    ensures CanMove(r, s, s')
  {
    var step :| P.OfWrite(step) && AuditStore.Next(r.store, s.store, d, step, s'.store);
    assert Outbox.Next(r, s, d, StoreMove(step), s');
  }

  /** The states in which the store takes this path and nothing else changes. */
  function Along(s: System, path: seq<Store>): (run: seq<System>)
    ensures |run| == |path| && forall k | 0 <= k < |path| :: run[k] == s.(store := path[k])
  {
    seq(|path|, k requires 0 <= k < |path| => s.(store := path[k]))
  }

  /** The drain's session works: the system takes its steps. */
  lemma SessionWorks(r: Relay, run: seq<System>, d: string, path: seq<Store>) returns (run': seq<System>)
    requires IsRelayRun(r, run) && P.Works(r.store, d, path) && Final(run).store == path[0]
    requires Of(Final(run), d).Delivering? && Of(Final(run), d).started
    ensures IsRelayRun(r, run') && run <= run' && Final(run') == Final(run).(store := R.Final(path))
  {
    var s := Final(run);
    var more := Along(s, path);
    run' := run + more[1..];
    forall i | 0 <= i < |run'| - 1 ensures CanMove(r, run'[i], run'[i + 1]) {
      if i < |run| - 1 {
        assert CanMove(r, run[i], run[i + 1]);
      } else {
        var k := i - |run| + 1;
        assert run'[i] == more[k] && run'[i + 1] == more[k + 1];
        assert P.CanWork(r.store, d, path[k], path[k + 1]);
        assert Of(more[k], d) == Of(s, d);
        WorkIsMove(r, d, more[k], more[k + 1]);
      }
    }
  }

  /** From the claim to the acknowledgement. */
  lemma DrainDelivers(r: Relay, run: seq<System>, d: string, id: string, existing: map<string, Row>, path: seq<Store>)
      returns (run': seq<System>)
    requires IsRelayRun(r, run) && Of(Final(run), d).Delivering? && !Of(Final(run), d).started
    requires Of(Final(run), d).rows != [] && Of(Final(run), d).rows[0].id == id
    requires id in Final(run).box && Final(run).box[id].status.Processing?
    requires P.Works(r.store, d, path) && At(R.Final(path), d).Returned?
    requires AuditStore.Next(r.store, Final(run).store, d, StartWrite(Of(Final(run), d).events, existing), path[0])
    ensures IsRelayRun(r, run') && run <= run'
    ensures id in Final(run').box && Final(run').box[id].status.Processed? && Final(run').box[id].payload == Final(run).box[id].payload
  {
    var s, x := Final(run), Of(Final(run), d);
    var s1 := Set(s, d, x.(started := true)).(store := path[0]);
    RunMore(r, run, d, Begin(existing), s1);
    var working := SessionWorks(r, run + [s1], d, path);
    var s2 := Final(working);
    assert Of(s2, d) == x.(started := true);
    var s3 := Set(s2, d, Acking(x.rows, x.claimedAt, x.attempts, x.events)).(store := Put(s2.store, d, Idle));
    RunMore(r, working, d, Done, s3);
    var s4 := Set(s3, d, Draining(x.rows[1..])).(box := Update(s3.box, id, AckRow(s3.box[id])));
    RunMore(r, working + [s3], d, Ack, s4);
    run' := working + [s3] + [s4];
    Acknowledged(r, s3, d, s4);
  }

  // ---------------------------------------------------------------------------
  // Every row that fits can be delivered

  /** The row can still come to be processed. */
  ghost predicate CanBeProcessed(r: Relay, run: seq<System>, id: string)
    requires run != []
  {
    exists run' :: IsRelayRun(r, run') && run <= run' && id in Final(run').box && Final(run').box[id].status.Processed?
  }

  /** A failed row is requeued. */
  lemma Reopen(r: Relay, run: seq<System>, d: string, id: string) returns (run': seq<System>)
    requires IsRelayRun(r, run) && id in Final(run).box && !Final(run).box[id].status.Processed?
    ensures IsRelayRun(r, run') && run <= run' && id in Final(run').box
    ensures Final(run').box[id].status.Pending? || Final(run').box[id].status.Processing?
    ensures Final(run').box[id].payload == Final(run).box[id].payload
    ensures Final(run').store == Final(run).store && Final(run').drains == Final(run).drains
  {
    var s := Final(run);
    run' := run;
    if s.box[id].status.Failed? {
      var s' := s.(box := Update(s.box, id, RequeueRow(s.box[id], s.clock)));
      RunMore(r, run, d, Requeue(id), s');
      run' := run + [s'];
    }
  }

  lemma DeliversFrom(r: Relay, run: seq<System>, d: string, id: string, events: seq<Event>) returns (run': seq<System>)
    requires IsRelayRun(r, run) && QuietBut(Final(run), {}) && id in Final(run).box
    requires Final(run).box[id].status.Pending? || Final(run).box[id].status.Processing?
    requires r.parse(Final(run).box[id].payload) == Some(events)
    requires P.Fits(r.store.fp, Final(run).store.t, events) && P.AllHash(r.store.hash, events)
    ensures IsRelayRun(r, run') && run <= run'
    ensures id in Final(run').box && Final(run').box[id].status.Processed? && Final(run').box[id].payload == Final(run).box[id].payload
  {
    var s := Final(run);
    ClaimsAreTimed(r, run, |run| - 1);
    var claimed := DrainClaims(r, run, d, id, ClaimTime(r, s.clock, s.box[id]), events);
    RelayRunKeeps(r, run, |run| - 1);
    P.QuietRests(s.store, d);
    var existing := P.FindExisting(s.store.t, events);
    P.FittingIsPlannable(r.store.fp, s.store.t, events, existing);
    var path := P.WriteGoesThrough(r.store, s.store, d, events, existing);
    run' := DrainDelivers(r, claimed, d, id, existing, path);
  }

  /** From every reachable state, whoever stopped where and whatever became of the row before: a row whose
      payload can be read, whose events are in no conflict with the store and can be hashed, can be
      brought to processed, and then each of its events is in the store exactly once. */
  lemma EveryRowCanBeDelivered(r: Relay, run: seq<System>, d: string, id: string, events: seq<Event>) returns (run': seq<System>)
    requires IsRelayRun(r, run) && id in Final(run).box && r.parse(Final(run).box[id].payload) == Some(events)
    requires P.Fits(r.store.fp, Final(run).store.t, events) && P.AllHash(r.store.hash, events)
    ensures IsRelayRun(r, run') && run <= run' && id in Final(run').box && Final(run').box[id].status.Processed?
    ensures forall k | 0 <= k < |events| :: StoredOnce(r.store.fp, Final(run').store.t, events[k])
  {
    if Final(run).box[id].status.Processed? {
      run' := run;
    } else {
      var names := NamesOf(Final(run));
      var quiet := EverybodyStops(r, run, names);
      var open := Reopen(r, quiet, d, id);
      StillQuiet(Final(quiet), Final(open));
      run' := DeliversFrom(r, open, d, id, events);
    }
    RowsAreNeverLost(r, run', |run| - 1, |run'| - 1, id);
    forall k | 0 <= k < |events| ensures StoredOnce(r.store.fp, Final(run').store.t, events[k]) {
      ProcessedIsStoredOnce(r, run', |run'| - 1, id, k);
    }
  }

  lemma StillQuiet(s: System, s': System)
    requires QuietBut(s, {}) && s'.store == s.store && s'.drains == s.drains
    ensures QuietBut(s', {})
  {
    forall d ensures Of(s', d).Resting? {
      assert Of(s, d).Resting?;
    }
  }

  // ---------------------------------------------------------------------------
  // No other row can

  lemma MoveExtends(r: Relay, s: System, d: string, move: Move, s': System)
    requires StoreOk(r, s.store) && Outbox.Next(r, s, d, move, s')
    ensures Extends(s.store.t, s'.store.t)
  {
    match move
    case StoreMove(step) => StoreStep(r, s.store, d, step, s'.store);
    case Begin(existing) => StoreStep(r, s.store, d, StartWrite(Of(s, d).events, existing), s'.store);
    case _ =>
  }

  lemma StoreInRun(r: Relay, run: seq<System>, i: nat)
    requires IsRelayRun(r, run) && i < |run|
    ensures StoreOk(r, run[i].store)
  {
    RelayRunKeeps(r, run, i);
  }

  lemma NextExtends(r: Relay, run: seq<System>, i: nat)
    requires IsRelayRun(r, run) && i + 1 < |run|
    ensures Extends(run[i].store.t, run[i + 1].store.t)
  {
    StoreInRun(r, run, i);
    assert CanMove(r, run[i], run[i + 1]);
    var d, move :| Outbox.Next(r, run[i], d, move, run[i + 1]);
    MoveExtends(r, run[i], d, move, run[i + 1]);
  }

  lemma ExtendsItself(t: Tables)
    ensures Extends(t, t)
  {
  }

  lemma ExtendsTwice(t: Tables, t': Tables, t'': Tables)
    requires Extends(t, t') && Extends(t', t'')
    ensures Extends(t, t'')
  {
    forall stream ensures History(t, stream) <= History(t'', stream) {
      assert History(t, stream) <= History(t', stream) <= History(t'', stream);
    }
  }

  ghost predicate GrowsAt(run: seq<System>, i: nat)
    requires i + 1 < |run|
  {
    Extends(run[i].store.t, run[i + 1].store.t)
  }

  lemma {:induction false} Grown(run: seq<System>, i: nat, j: nat)
    requires i <= j < |run| && forall k: nat | i <= k < j :: GrowsAt(run, k)
    ensures Extends(run[i].store.t, run[j].store.t)
  {
    if i == j {
      ExtendsItself(run[i].store.t);
    } else {
      Grown(run, i, j - 1);
      assert GrowsAt(run, j - 1);
      ExtendsTwice(run[i].store.t, run[j - 1].store.t, run[j].store.t);
    }
  }

  lemma RowsStay(r: Relay, run: seq<System>, i: nat, j: nat, row: Row)
    requires IsRelayRun(r, run) && i <= j < |run| && row in run[i].store.t.live
    ensures row in run[j].store.t.live
  {
    forall k: nat | i <= k < j ensures GrowsAt(run, k) {
      NextExtends(r, run, k);
    }
    Grown(run, i, j);
    StoreInRun(r, run, i);
    StoreInRun(r, run, j);
    LiveStays(r, run[i].store, run[j].store, row);
  }

  lemma LiveStays(r: Relay, s: Store, s': Store, row: Row)
    requires StoreOk(r, s) && StoreOk(r, s') && Extends(s.t, s'.t) && row in s.t.live
    ensures row in s'.t.live
  {
    PlainFresh(r.store, s, "", Reset);
    PlainFresh(r.store, s', "", Reset);
    RowKept(s.t, s'.t, row);
  }

  lemma SameAsIsSameFingerprint(fp: Fp, a: Event, e: Event)
    requires SameAs(fp, a, e) && fp(e).Some?
    ensures SameFingerprint(fp, a, e)
  {
  }

  /** The one live row of an event that is stored once. */
  lemma TheRow(fp: Fp, t: Tables, e: Event, row: Row)
    requires StoredOnce(fp, t, e) && fp(e).Some? && row in t.live && row.ev.id == e.id
    ensures SameFingerprint(fp, row.ev, e)
  {
    var one :|
      && one in t.live && one.ev.id == e.id && SameAs(fp, one.ev, e)
      && forall other | other in t.live && other.ev.id == e.id :: other == one;
    SameAsIsSameFingerprint(fp, one.ev, e);
    assert row == one;
  }

  lemma StoredFit(fp: Fp, t: Tables, t': Tables, events: seq<Event>)
    requires forall row | row in t.live :: row in t'.live
    requires forall k | 0 <= k < |events| :: StoredOnce(fp, t', events[k]) && fp(events[k]).Some?
    ensures P.Fits(fp, t, events)
  {
    forall i, j | 0 <= i < j < |events| && events[i].id == events[j].id ensures SameFingerprint(fp, events[i], events[j]) {
      var row :| row in t'.live && row.ev.id == events[i].id;
      TheRow(fp, t', events[i], row);
      TheRow(fp, t', events[j], row);
    }
    forall row, i | row in t.live && 0 <= i < |events| && events[i].id == row.ev.id ensures SameFingerprint(fp, row.ev, events[i]) {
      TheRow(fp, t', events[i], row);
    }
  }

  lemma ProcessedFits(r: Relay, run: seq<System>, id: string, run': seq<System>, events: seq<Event>)
    requires IsRelayRun(r, run) && id in Final(run).box && r.parse(Final(run).box[id].payload) == Some(events)
    requires forall e | e in events :: r.store.fp(e).Some?
    requires IsRelayRun(r, run') && run <= run' && id in Final(run').box && Final(run').box[id].status.Processed?
    ensures P.Fits(r.store.fp, Final(run).store.t, events)
  {
    var i, j := |run| - 1, |run'| - 1;
    RowsAreNeverLost(r, run', i, j, id);
    forall row | row in run'[i].store.t.live ensures row in run'[j].store.t.live {
      RowsStay(r, run', i, j, row);
    }
    forall k | 0 <= k < |events| ensures StoredOnce(r.store.fp, run'[j].store.t, events[k]) && r.store.fp(events[k]).Some? {
      ProcessedIsStoredOnce(r, run', j, id, k);
      assert events[k] in events;
    }
    StoredFit(r.store.fp, run'[i].store.t, run'[j].store.t, events);
  }

  /** In every reachable state, for every row whose payload can be read and whose events can be
      canonicalised: the row can still come to be processed if and only if none of its events is in
      conflict with a live row or with another of its events. */
  lemma DeliverableIff(r: Relay, run: seq<System>, id: string, events: seq<Event>)
    requires IsRelayRun(r, run) && id in Final(run).box && r.parse(Final(run).box[id].payload) == Some(events)
    requires P.AllHash(r.store.hash, events) && forall e | e in events :: r.store.fp(e).Some?
    ensures CanBeProcessed(r, run, id) <==> P.Fits(r.store.fp, Final(run).store.t, events)
  {
    if CanBeProcessed(r, run, id) {
      var run' :| IsRelayRun(r, run') && run <= run' && id in Final(run').box && Final(run').box[id].status.Processed?;
      ProcessedFits(r, run, id, run', events);
    }
    if P.Fits(r.store.fp, Final(run).store.t, events) {
      var run' := EveryRowCanBeDelivered(r, run, "drain", id, events);
    }
  }
}
