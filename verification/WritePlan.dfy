/** The first half of `LucidStore.write`: what of a batch is already stored, what repeats inside
    the batch, and what has to be inserted (src/stores/lucid_store.ts). */
module WritePlan {
  import opened Wrappers
  import opened AuditTypes

  /** The fingerprint of an event; None where canonicalising throws. */
  type Fp = Event -> Option<string>

  predicate SameFingerprint(fp: Fp, a: Event, b: Event) {
    fp(a).Some? && fp(a) == fp(b)
  }

  /** Events the store treats as one: the same event, or two with one fingerprint. */
  predicate SameAs(fp: Fp, a: Event, b: Event) {
    a == b || SameFingerprint(fp, a, b)
  }

  /** The maps and lists the loop fills. `additions` lists the events to insert. */
  datatype Plan = Plan(incoming: map<string, Event>, additions: seq<Event>, results: map<string, Row>)

  /** One round of the loop; None where it throws a conflict. */
  function PlanEvent(fp: Fp, existing: map<string, Row>, p: Plan, e: Event): Option<Plan> {
    var duplicate := e.id in p.incoming;
    if duplicate && !SameFingerprint(fp, p.incoming[e.id], e) then None
    else
      var p' := p.(incoming := p.incoming[e.id := e]);
      if e.id in existing then
        if !SameFingerprint(fp, existing[e.id].ev, e) then None
        else Some(p'.(results := p'.results[e.id := existing[e.id]]))
      else if duplicate then Some(p')
      else Some(p'.(additions := p'.additions + [e]))
  }

  /** The plan for a batch, given the stored rows with its ids. */
  function PlanAll(fp: Fp, existing: map<string, Row>, batch: seq<Event>): Option<Plan> {
    if batch == [] then Some(Plan(map[], [], map[]))
    else
      match PlanAll(fp, existing, batch[..|batch| - 1])
      case None => None
      case Some(p) => PlanEvent(fp, existing, p, batch[|batch| - 1])
  }

  predicate DistinctIds(es: seq<Event>) {
    forall i, j | 0 <= i < j < |es| :: es[i].id != es[j].id
  }

  /** The results hold a stored row that is this event. */
  predicate Stored(fp: Fp, results: map<string, Row>, e: Event) {
    e.id in results && results[e.id].ev.id == e.id && SameAs(fp, results[e.id].ev, e)
  }

  /** One of the events is this event. */
  ghost predicate Among(fp: Fp, es: seq<Event>, e: Event) {
    exists i | 0 <= i < |es| :: es[i].id == e.id && SameAs(fp, es[i], e)
  }

  /** An event of the batch is accounted for by a stored row or by an event to insert. */
  ghost predicate Planned(fp: Fp, p: Plan, e: Event) {
    Stored(fp, p.results, e) || Among(fp, p.additions, e)
  }

  /** The events to insert are events of the batch that are not stored, no two with one id; the
      results are stored rows. */
  predicate PlanShape(existing: map<string, Row>, batch: seq<Event>, p: Plan) {
    && DistinctIds(p.additions)
    && (forall i | 0 <= i < |p.additions| ::
          p.additions[i] in batch && p.additions[i].id !in existing && p.additions[i].id in p.incoming)
    && (forall id | id in p.results :: id in existing && p.results[id] == existing[id])
  }

  /** What a plan promises: its shape, and that every event of the batch is accounted for. */
  ghost predicate PlanOk(fp: Fp, existing: map<string, Row>, batch: seq<Event>, p: Plan) {
    && PlanShape(existing, batch, p)
    && (forall i | 0 <= i < |batch| :: Planned(fp, p, batch[i]))
  }

  /** Every id met so far maps to an event that is accounted for. */
  ghost predicate Tracks(fp: Fp, p: Plan) {
    forall id | id in p.incoming :: p.incoming[id].id == id && Planned(fp, p, p.incoming[id])
  }

  lemma AmongStays(fp: Fp, es: seq<Event>, x: Event, e: Event)
    ensures Among(fp, es, e) ==> Among(fp, es + [x], e)
    ensures Among(fp, es + [e], e)
  {
    if Among(fp, es, e) {
      var i :| 0 <= i < |es| && es[i].id == e.id && SameAs(fp, es[i], e);
      assert (es + [x])[i] == es[i];
    }
    assert (es + [e])[|es|] == e;
  }

  lemma PlannedStays(fp: Fp, existing: map<string, Row>, p: Plan, q: Plan, e: Event, x: Event)
    requires PlanEvent(fp, existing, p, e) == Some(q)
    requires Planned(fp, p, x)
    requires forall id | id in p.results :: id in existing && p.results[id] == existing[id]
    ensures Planned(fp, q, x)
  {
    AmongStays(fp, p.additions, e, x);
  }

  lemma PlannedNow(fp: Fp, existing: map<string, Row>, p: Plan, q: Plan, e: Event)
    requires PlanEvent(fp, existing, p, e) == Some(q)
    requires Tracks(fp, p)
    requires forall id | id in existing :: existing[id].ev.id == id
    requires forall id | id in p.results :: id in existing && p.results[id] == existing[id]
    ensures Planned(fp, q, e)
  {
    if e.id in existing {
      assert Stored(fp, q.results, e);
    } else if e.id in p.incoming {
      RepeatIsAmong(fp, p, p.incoming[e.id], e);
    } else {
      AmongStays(fp, p.additions, e, e);
    }
  }

  lemma SameAsRepeat(fp: Fp, a: Event, d: Event, e: Event)
    requires SameAs(fp, a, d) && SameFingerprint(fp, d, e)
    ensures SameAs(fp, a, e)
  {
  }

  lemma RepeatIsAmong(fp: Fp, p: Plan, d: Event, e: Event)
    requires Planned(fp, p, d) && d.id == e.id && SameFingerprint(fp, d, e) && e.id !in p.results
    ensures Among(fp, p.additions, e)
  {
    var i :| 0 <= i < |p.additions| && p.additions[i].id == d.id && SameAs(fp, p.additions[i], d);
    SameAsRepeat(fp, p.additions[i], d, e);
  }

  lemma PlanShapeStays(fp: Fp, existing: map<string, Row>, batch: seq<Event>, p: Plan, q: Plan, e: Event)
    requires PlanEvent(fp, existing, p, e) == Some(q)
    requires PlanShape(existing, batch, p)
    ensures PlanShape(existing, batch + [e], q)
  {
  }

  lemma {:induction false} PlanAllOk(fp: Fp, existing: map<string, Row>, batch: seq<Event>)
    requires PlanAll(fp, existing, batch).Some?
    requires forall id | id in existing :: existing[id].ev.id == id
    ensures PlanOk(fp, existing, batch, PlanAll(fp, existing, batch).value)
    ensures Tracks(fp, PlanAll(fp, existing, batch).value)
  {
    if batch == [] {
    } else {
      var init, e := batch[..|batch| - 1], batch[|batch| - 1];
      PlanAllOk(fp, existing, init);
      var p, q := PlanAll(fp, existing, init).value, PlanAll(fp, existing, batch).value;
      assert batch == init + [e];
      PlanShapeStays(fp, existing, init, p, q, e);
      PlannedNow(fp, existing, p, q, e);
      AllPlannedStay(fp, existing, init, p, q, e);
      TracksMore(fp, existing, p, q, e);
    }
  }

  lemma AllPlannedStay(fp: Fp, existing: map<string, Row>, batch: seq<Event>, p: Plan, q: Plan, e: Event)
    requires PlanEvent(fp, existing, p, e) == Some(q) && PlanShape(existing, batch, p)
    requires Planned(fp, q, e) && forall i | 0 <= i < |batch| :: Planned(fp, p, batch[i])
    ensures forall i | 0 <= i < |batch + [e]| :: Planned(fp, q, (batch + [e])[i])
  {
    forall i | 0 <= i < |batch + [e]| ensures Planned(fp, q, (batch + [e])[i]) {
      if i < |batch| {
        PlannedStays(fp, existing, p, q, e, batch[i]);
      }
    }
  }

  lemma TracksMore(fp: Fp, existing: map<string, Row>, p: Plan, q: Plan, e: Event)
    requires PlanEvent(fp, existing, p, e) == Some(q) && Tracks(fp, p) && Planned(fp, q, e)
    requires forall id | id in p.results :: id in existing && p.results[id] == existing[id]
    ensures Tracks(fp, q)
  {
    forall id | id in q.incoming ensures q.incoming[id].id == id && Planned(fp, q, q.incoming[id]) {
      if id != e.id {
        PlannedStays(fp, existing, p, q, e, p.incoming[id]);
      }
    }
  }

  // ---------------------------------------------------------------------------
  // When there is a plan

  /** The event is not stored, or is the stored event. */
  predicate Agrees(fp: Fp, existing: map<string, Row>, e: Event) {
    e.id in existing ==> SameFingerprint(fp, existing[e.id].ev, e)
  }

  /** Events of the batch with one id are one event. */
  predicate OneEventPerId(fp: Fp, batch: seq<Event>) {
    forall i, j | 0 <= i < j < |batch| && batch[i].id == batch[j].id :: SameFingerprint(fp, batch[i], batch[j])
  }

  /** No event of the batch is in conflict, with a stored row or with another one. */
  predicate Plannable(fp: Fp, existing: map<string, Row>, batch: seq<Event>) {
    OneEventPerId(fp, batch) && forall i | 0 <= i < |batch| :: Agrees(fp, existing, batch[i])
  }

  predicate HasEventId(batch: seq<Event>, id: string) {
    exists i | 0 <= i < |batch| :: batch[i].id == id
  }

  /** The ids met so far are those of the batch, each with an event of the batch. */
  ghost predicate KnowsEvents(batch: seq<Event>, p: Plan) {
    && (forall id :: id in p.incoming <==> HasEventId(batch, id))
    && (forall id | id in p.incoming :: p.incoming[id].id == id && p.incoming[id] in batch)
  }

  /** The results are for the ids of the batch that are stored. */
  ghost predicate KnowsResults(existing: map<string, Row>, batch: seq<Event>, p: Plan) {
    forall id :: id in p.results <==> id in existing && HasEventId(batch, id)
  }

  lemma HasIdMore(batch: seq<Event>, e: Event)
    ensures forall id :: HasEventId(batch + [e], id) <==> HasEventId(batch, id) || id == e.id
  {
    forall id ensures HasEventId(batch + [e], id) <==> HasEventId(batch, id) || id == e.id {
      if HasEventId(batch, id) {
        var i :| 0 <= i < |batch| && batch[i].id == id;
        assert (batch + [e])[i].id == id;
      }
      assert (batch + [e])[|batch|] == e;
    }
  }

  lemma KnowsMoreEvents(fp: Fp, existing: map<string, Row>, batch: seq<Event>, p: Plan, q: Plan, e: Event)
    requires KnowsEvents(batch, p) && PlanEvent(fp, existing, p, e) == Some(q)
    ensures KnowsEvents(batch + [e], q)
  {
    HasIdMore(batch, e);
    assert q.incoming == p.incoming[e.id := e];
  }

  lemma KnowsMoreResults(fp: Fp, existing: map<string, Row>, batch: seq<Event>, p: Plan, q: Plan, e: Event)
    requires KnowsResults(existing, batch, p) && PlanEvent(fp, existing, p, e) == Some(q)
    ensures KnowsResults(existing, batch + [e], q)
  {
    HasIdMore(batch, e);
  }

  lemma OneMoreOfId(fp: Fp, batch: seq<Event>, e: Event, k: nat)
    requires OneEventPerId(fp, batch) && k < |batch| && batch[k].id == e.id
    ensures OneEventPerId(fp, batch + [e]) <==> SameFingerprint(fp, batch[k], e)
  {
    var all := batch + [e];
    if OneEventPerId(fp, all) {
      assert all[k].id == all[|batch|].id;
    }
    if SameFingerprint(fp, batch[k], e) {
      forall i | 0 <= i < |batch| && batch[i].id == e.id ensures SameFingerprint(fp, batch[i], e) {
        assert i < k ==> SameFingerprint(fp, batch[i], batch[k]);
        assert k < i ==> SameFingerprint(fp, batch[k], batch[i]);
      }
    }
  }

  lemma OneMoreId(fp: Fp, batch: seq<Event>, e: Event)
    requires OneEventPerId(fp, batch) && !HasEventId(batch, e.id)
    ensures OneEventPerId(fp, batch + [e])
  {
  }

  lemma PlannableMore(fp: Fp, existing: map<string, Row>, batch: seq<Event>, p: Plan, e: Event)
    requires KnowsEvents(batch, p) && Plannable(fp, existing, batch)
    ensures Plannable(fp, existing, batch + [e]) <==> PlanEvent(fp, existing, p, e).Some?
  {
    var all := batch + [e];
    if HasEventId(batch, e.id) {
      var k :| 0 <= k < |batch| && batch[k] == p.incoming[e.id];
      OneMoreOfId(fp, batch, e, k);
    } else {
      OneMoreId(fp, batch, e);
    }
    AllAgree(fp, existing, batch, e);
  }

  lemma AllAgree(fp: Fp, existing: map<string, Row>, batch: seq<Event>, e: Event)
    requires forall i | 0 <= i < |batch| :: Agrees(fp, existing, batch[i])
    ensures (forall i | 0 <= i < |batch + [e]| :: Agrees(fp, existing, (batch + [e])[i])) <==> Agrees(fp, existing, e)
  {
    assert (batch + [e])[|batch|] == e;
  }

  lemma PlannablePrefix(fp: Fp, existing: map<string, Row>, batch: seq<Event>, e: Event)
    requires Plannable(fp, existing, batch + [e])
    ensures Plannable(fp, existing, batch)
  {
    assert forall i | 0 <= i < |batch| :: (batch + [e])[i] == batch[i];
  }

  /** Planning succeeds if and only if every event that is stored has its row's fingerprint and events of
      the batch with one id have one fingerprint. The results are then the stored rows of the batch. */
  lemma {:induction false} PlansIff(fp: Fp, existing: map<string, Row>, batch: seq<Event>)
    ensures PlanAll(fp, existing, batch).Some? <==> Plannable(fp, existing, batch)
    ensures PlanAll(fp, existing, batch).Some? ==>
              KnowsEvents(batch, PlanAll(fp, existing, batch).value) && KnowsResults(existing, batch, PlanAll(fp, existing, batch).value)
  {
    if batch == [] {
    } else {
      var init, e := batch[..|batch| - 1], batch[|batch| - 1];
      assert batch == init + [e];
      PlansIff(fp, existing, init);
      if Plannable(fp, existing, batch) {
        PlannablePrefix(fp, existing, init, e);
      }
      if PlanAll(fp, existing, init).Some? {
        var p := PlanAll(fp, existing, init).value;
        PlannableMore(fp, existing, init, p, e);
        if PlanEvent(fp, existing, p, e).Some? {
          KnowsMoreEvents(fp, existing, init, p, PlanEvent(fp, existing, p, e).value, e);
          KnowsMoreResults(fp, existing, init, p, PlanEvent(fp, existing, p, e).value, e);
        }
      }
    }
  }

  /** Every event of the batch is stored. */
  predicate AllStored(existing: map<string, Row>, batch: seq<Event>) {
    forall i | 0 <= i < |batch| :: batch[i].id in existing
  }

  /** A plan inserts nothing if and only if every event is stored already. */
  lemma NothingToInsertIff(fp: Fp, existing: map<string, Row>, batch: seq<Event>)
    requires PlanAll(fp, existing, batch).Some? && forall id | id in existing :: existing[id].ev.id == id
    ensures PlanAll(fp, existing, batch).value.additions == [] <==> AllStored(existing, batch)
  {
    var p := PlanAll(fp, existing, batch).value;
    PlanAllOk(fp, existing, batch);
    if p.additions != [] {
      assert p.additions[0].id !in existing;
      var i :| 0 <= i < |batch| && batch[i] == p.additions[0];
    }
    if p.additions == [] {
      forall i | 0 <= i < |batch| ensures batch[i].id in existing {
        assert Planned(fp, p, batch[i]);
      }
    }
  }

  /** A batch delivered again, every event of it stored as that event, is planned without an insertion,
      and the result for each event is its stored row. */
  lemma ReplayPlansNothing(fp: Fp, existing: map<string, Row>, batch: seq<Event>)
    requires AllStored(existing, batch) && OneEventPerId(fp, batch)
    requires forall i | 0 <= i < |batch| :: SameFingerprint(fp, existing[batch[i].id].ev, batch[i])
    requires forall id | id in existing :: existing[id].ev.id == id
    ensures var r := PlanAll(fp, existing, batch);
            && r.Some? && r.value.additions == []
            && forall i | 0 <= i < |batch| :: batch[i].id in r.value.results && r.value.results[batch[i].id] == existing[batch[i].id]
  {
    PlansIff(fp, existing, batch);
    NothingToInsertIff(fp, existing, batch);
    PlanAllOk(fp, existing, batch);
    forall i | 0 <= i < |batch| ensures HasEventId(batch, batch[i].id) {
    }
  }

  lemma PlanIs(fp: Fp, existing: map<string, Row>, batch: seq<Event>)
    requires forall id | id in existing :: existing[id].ev.id == id
    ensures var r := PlanAll(fp, existing, batch);
            && (r.Some? <==> Plannable(fp, existing, batch))
            && (r.Some? ==> PlanOk(fp, existing, batch, r.value) && (r.value.additions == [] <==> AllStored(existing, batch)))
  {
    PlansIff(fp, existing, batch);
    if PlanAll(fp, existing, batch).Some? {
      PlanAllOk(fp, existing, batch);
      NothingToInsertIff(fp, existing, batch);
    }
  }

  /** Once planning throws on a prefix it throws on the batch. */
  lemma {:induction false} PlanPrefix(fp: Fp, existing: map<string, Row>, batch: seq<Event>, i: nat)
    requires i <= |batch| && PlanAll(fp, existing, batch[..i]).None?
    ensures PlanAll(fp, existing, batch).None?
    decreases |batch|
  {
    if i == |batch| {
      assert batch[..i] == batch;
    } else {
      assert batch[..|batch| - 1][..i] == batch[..i];
      PlanPrefix(fp, existing, batch[..|batch| - 1], i);
    }
  }

  /** The loop over the batch: it throws exactly where an event is in conflict with its stored row or
      with another event of the batch. */
  method PlanWrite(fp: Fp, existing: map<string, Row>, batch: seq<Event>) returns (r: Option<Plan>)
    requires forall id | id in existing :: existing[id].ev.id == id
    ensures r == PlanAll(fp, existing, batch)
    ensures r.Some? <==> Plannable(fp, existing, batch)
    ensures r.Some? ==> PlanOk(fp, existing, batch, r.value)
    ensures r.Some? ==> (r.value.additions == [] <==> AllStored(existing, batch))
  {
    var incoming: map<string, Event> := map[];
    var additions: seq<Event> := [];
    var results: map<string, Row> := map[];
    for i := 0 to |batch|
      invariant PlanAll(fp, existing, batch[..i]) == Some(Plan(incoming, additions, results))
    {
      var e := batch[i];
      assert batch[..i + 1][..i] == batch[..i];
      var duplicate := e.id in incoming;
      if duplicate && !SameFingerprint(fp, incoming[e.id], e) {
        PlanPrefix(fp, existing, batch, i + 1);
        PlanIs(fp, existing, batch);
        return None;
      }
      incoming := incoming[e.id := e];
      if e.id in existing {
        var stored := existing[e.id];
        if !SameFingerprint(fp, stored.ev, e) {
          PlanPrefix(fp, existing, batch, i + 1);
          PlanIs(fp, existing, batch);
          return None;
        }
        results := results[e.id := stored];
        continue;
      }
      if duplicate {
        continue;
      }
      additions := additions + [e];
    }
    assert batch[..|batch|] == batch;
    PlanIs(fp, existing, batch);
    return Some(Plan(incoming, additions, results));
  }
}
