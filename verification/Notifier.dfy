/** Announcing deliveries (src/core/successful_delivery_notifier.ts): a process announces each event
    once, however often its delivery is reported. */
module Notifier {
  import opened AuditTypes

  function Ids(rows: seq<Row>): set<string> {
    if rows == [] then {} else Ids(rows[..|rows| - 1]) + {rows[|rows| - 1].ev.id}
  }

  /** The reported rows whose id was neither announced before nor reported earlier in the call. */
  function Fresh(seen: set<string>, rows: seq<Row>): seq<Row> {
    if rows == [] then []
    else
      var init, last := rows[..|rows| - 1], rows[|rows| - 1];
      Fresh(seen, init) + (if last.ev.id in seen || last.ev.id in Ids(init) then [] else [last])
  }

  /** What a process announces in a series of reports. */
  function Announced(seen: set<string>, reports: seq<seq<Row>>): seq<Row>
    decreases |reports|
  {
    if reports == [] then []
    else Fresh(seen, reports[0]) + Announced(seen + Ids(reports[0]), reports[1..])
  }

  function AllIds(reports: seq<seq<Row>>): set<string> {
    if reports == [] then {} else Ids(reports[0]) + AllIds(reports[1..])
  }

  predicate OncePerId(rows: seq<Row>) {
    forall i, j | 0 <= i < j < |rows| :: rows[i].ev.id != rows[j].ev.id
  }

  lemma {:induction false} InIds(rows: seq<Row>, id: string)
    ensures id in Ids(rows) <==> exists i | 0 <= i < |rows| :: rows[i].ev.id == id
  {
    if rows == [] {
    } else {
      var init := rows[..|rows| - 1];
      InIds(init, id);
      if id in Ids(init) {
        var i :| 0 <= i < |init| && init[i].ev.id == id;
        assert rows[i].ev.id == id;
      }
      if exists i | 0 <= i < |rows| :: rows[i].ev.id == id {
        var i :| 0 <= i < |rows| && rows[i].ev.id == id;
        assert i < |init| ==> init[i].ev.id == id;
      }
    }
  }

  lemma {:induction false} IdsConcat(a: seq<Row>, b: seq<Row>)
    ensures Ids(a + b) == Ids(a) + Ids(b)
  {
    if b == [] {
      assert a + b == a;
    } else {
      assert (a + b)[..|a + b| - 1] == a + b[..|b| - 1];
      IdsConcat(a, b[..|b| - 1]);
    }
  }

  lemma OnceApart(a: seq<Row>, b: seq<Row>)
    requires OncePerId(a) && OncePerId(b) && Ids(a) !! Ids(b)
    ensures OncePerId(a + b)
  {
    forall i, j | 0 <= i < j < |a + b| ensures (a + b)[i].ev.id != (a + b)[j].ev.id {
      if i < |a| <= j {
        InIds(a, a[i].ev.id);
        InIds(b, b[j - |a|].ev.id);
      }
    }
  }

  lemma IdsOne(r: Row)
    ensures Ids([r]) == {r.ev.id}
  {
    assert [r][..0] == [];
  }

  lemma {:induction false} AppendNew(rows: seq<Row>, r: Row)
    requires OncePerId(rows) && r.ev.id !in Ids(rows)
    ensures OncePerId(rows + [r]) && Ids(rows + [r]) == Ids(rows) + {r.ev.id}
  {
    IdsOne(r);
    OnceApart(rows, [r]);
    IdsConcat(rows, [r]);
  }

  lemma SetStep(ids: set<string>, seen: set<string>, id: string)
    ensures id in seen || id in ids ==> ids + {id} - seen == ids - seen
    ensures id !in seen && id !in ids ==> ids + {id} - seen == (ids - seen) + {id}
  {
  }

  lemma {:induction false} FreshIs(seen: set<string>, rows: seq<Row>)
    ensures OncePerId(Fresh(seen, rows)) && Ids(Fresh(seen, rows)) == Ids(rows) - seen
  {
    if rows == [] {
    } else {
      var init, last := rows[..|rows| - 1], rows[|rows| - 1];
      FreshIs(seen, init);
      SetStep(Ids(init), seen, last.ev.id);
      if last.ev.id in seen || last.ev.id in Ids(init) {
        assert Fresh(seen, init) + [] == Fresh(seen, init);
      } else {
        AppendNew(Fresh(seen, init), last);
      }
    }
  }

  /** Over the life of a process each event is announced at most once, and every event reported is
      announced, unless it was before. */
  lemma {:induction false} EachOnce(seen: set<string>, reports: seq<seq<Row>>)
    ensures OncePerId(Announced(seen, reports))
    ensures Ids(Announced(seen, reports)) == AllIds(reports) - seen
    decreases |reports|
  {
    if reports == [] {
    } else {
      var now, later := Fresh(seen, reports[0]), Announced(seen + Ids(reports[0]), reports[1..]);
      FreshIs(seen, reports[0]);
      EachOnce(seen + Ids(reports[0]), reports[1..]);
      IdsConcat(now, later);
      OnceApart(now, later);
    }
  }

  /** The notifier of a process. `log` records what was announced. */
  class DeliveryNotifier {
    var deliveredIds: set<string>
    ghost var log: seq<Row>

    ghost predicate Valid()
      reads this
    {
      OncePerId(log) && deliveredIds == Ids(log)
    }

    constructor ()
      ensures Valid() && log == []
    {
      deliveredIds, log := {}, [];
    }

    /** Announces the rows not announced before, and returns them; nothing is announced where there
        are none. */
    method Notify(events: seq<Row>) returns (delivered: seq<Row>)
      requires Valid()
      modifies this
      ensures Valid() && delivered == Fresh(old(deliveredIds), events)
      ensures log == old(log) + delivered && deliveredIds == old(deliveredIds) + Ids(events)
    {
      delivered := [];
      ghost var seen := deliveredIds;
      for i := 0 to |events|
        invariant delivered == Fresh(seen, events[..i])
        invariant deliveredIds == seen + Ids(events[..i])
        invariant log == old(log)
      {
        assert events[..i + 1][..i] == events[..i];
        if events[i].ev.id !in deliveredIds {
          deliveredIds := deliveredIds + {events[i].ev.id};
          delivered := delivered + [events[i]];
        }
      }
      assert events[..|events|] == events;
      FreshIs(seen, events);
      IdsConcat(log, delivered);
      OnceApart(log, delivered);
      log := log + delivered;
    }
  }
}
