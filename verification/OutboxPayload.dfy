/** Reading the payload of an outbox row (src/core/outbox_drainer.ts), and that a submitted event
    (src/services/audit.ts) is what is read back and delivered. */
module OutboxPayload {
  import opened Wrappers
  import opened Json
  import opened JsonText
  import opened AuditTypes
  import opened Outbox
  import opened ExactlyOnce

  /** The reader of JSON texts; None where it throws. */
  type Parser = string -> Option<Json>

  predicate IsRecord(v: Json) {
    v.Obj?
  }

  /** The value of a member; undefined where there is none. */
  function Lookup(ms: seq<Member>, key: string): Json {
    if ms == [] then Undefined else if ms[0].key == key then ms[0].value else Lookup(ms[1..], key)
  }

  function Field(v: Json, key: string): Json {
    if v.Obj? then Lookup(v.members, key) else Undefined
  }

  predicate IsNullableString(v: Json) {
    v.Str? || v.Null?
  }

  predicate IsNullableRecord(v: Json) {
    v.Null? || IsRecord(v)
  }

  const REQUIRED_STRINGS: seq<string> := ["id", "event", "stream", "createdAt"]

  const NULLABLE_STRINGS: seq<string> :=
    ["auditableType", "auditableId", "tenantId", "requestId", "correlationId", "ipAddress", "userAgent", "url", "httpMethod"]

  const NULLABLE_RECORDS: seq<string> := ["oldValues", "newValues", "metadata"]

  predicate IsActor(v: Json) {
    && IsRecord(v) && Field(v, "type").Str? && IsNullableString(Field(v, "id"))
    && (Field(v, "label").Undefined? || IsNullableString(Field(v, "label")))
  }

  predicate IsTags(v: Json) {
    v.Arr? && forall i | 0 <= i < |v.items| :: v.items[i].Str?
  }

  predicate IsAuditEvent(v: Json) {
    && IsRecord(v) && IsActor(Field(v, "actor"))
    && (forall i | 0 <= i < |REQUIRED_STRINGS| :: Field(v, REQUIRED_STRINGS[i]).Str?)
    && (forall i | 0 <= i < |NULLABLE_STRINGS| :: IsNullableString(Field(v, NULLABLE_STRINGS[i])))
    && (forall i | 0 <= i < |NULLABLE_RECORDS| :: IsNullableRecord(Field(v, NULLABLE_RECORDS[i])))
    && IsTags(Field(v, "tags")) && Field(v, "schemaVersion") == Str("1")
  }

  function ParsePayload(parse: Parser, payload: Json): Option<Json> {
    if payload.Str? then parse(payload.s) else Some(payload)
  }

  /** The candidates for events in a parsed payload. */
  function Candidates(v: Json): seq<Json> {
    if v.Arr? then v.items
    else if IsRecord(v) && Field(v, "events").Arr? then Field(v, "events").items
    else if IsRecord(v) && IsAuditEvent(Field(v, "event")) then [Field(v, "event")]
    else [v]
  }

  /** The shapes in which a value holds events: as an array; in a record, as the array `events` or
      else as the one member `event`; or as a record that is itself the one event. */
  predicate HoldsEvents(v: Json, events: seq<Json>) {
    || v == Arr(events)
    || (IsRecord(v) && Field(v, "events") == Arr(events))
    || (IsRecord(v) && !Field(v, "events").Arr? && events == [Field(v, "event")])
    || (IsRecord(v) && !Field(v, "events").Arr? && events == [v])
  }

  /** At least one event, and nothing but events. */
  predicate OnlyEvents(events: seq<Json>) {
    events != [] && forall i | 0 <= i < |events| :: IsAuditEvent(events[i])
  }

  /** The events of a payload; None where reading it throws. */
  function NormalizePayload(parse: Parser, payload: Json): (r: Option<seq<Json>>)
    ensures r.Some? ==>
              OnlyEvents(r.value) && ParsePayload(parse, payload).Some? && HoldsEvents(ParsePayload(parse, payload).value, r.value)
  {
    match ParsePayload(parse, payload)
    case None => None
    case Some(v) =>
      var events := Candidates(v);
      if events == [] || exists i | 0 <= i < |events| :: !IsAuditEvent(events[i]) then None
      else
        assert IsAuditEvent(events[0]);
        Some(events)
  }

  /** A payload may hold its events in an object with an `events` member or in an array, and a single
      one in an object with an `event` member or by itself: the same events are read. */
  lemma ShapesAgree(parse: Parser, events: seq<Json>, e: Json)
    requires events != [] && forall i | 0 <= i < |events| :: IsAuditEvent(events[i])
    requires IsAuditEvent(e) && !Field(e, "events").Arr?
    ensures NormalizePayload(parse, Arr(events)) == Some(events)
    ensures NormalizePayload(parse, Obj([Member("events", Arr(events))])) == Some(events)
    ensures NormalizePayload(parse, Obj([Member("event", e)])) == Some([e])
    ensures NormalizePayload(parse, e) == Some([e])
  {
    var wrapped := Obj([Member("events", Arr(events))]);
    assert Field(wrapped, "events") == Arr(events);
    SingleEvent(e);
    assert Field(e, "id").Str? by {
      assert Field(e, REQUIRED_STRINGS[0]).Str?;
    }
    NameIsNoEvent(e);
  }

  /** A payload is read as these events if and only if it parses to a value that holds them in one of
      the shapes, at least one and all of them audit events. */
  lemma NormalizesIff(parse: Parser, payload: Json, events: seq<Json>)
    ensures NormalizePayload(parse, payload) == Some(events) <==>
            && OnlyEvents(events)
            && ParsePayload(parse, payload).Some?
            && HoldsEvents(ParsePayload(parse, payload).value, events)
  {
    if OnlyEvents(events) && ParsePayload(parse, payload).Some? && HoldsEvents(ParsePayload(parse, payload).value, events) {
      var v := ParsePayload(parse, payload).value;
      assert IsAuditEvent(events[0]);
      if events == [v] && IsRecord(v) {
        NameIsNoEvent(v);
      }
      assert Candidates(v) == events;
    }
  }

  lemma SingleEvent(e: Json)
    requires IsAuditEvent(e)
    ensures Candidates(Obj([Member("event", e)])) == [e]
  {
    var ms := [Member("event", e)];
    assert ms[1..] == [];
    assert Lookup(ms, "events") == Undefined;
    assert Lookup(ms, "event") == e;
  }

  /** The `event` member of an event is its name, so it is not mistaken for a wrapped event. */
  lemma NameIsNoEvent(e: Json)
    requires IsAuditEvent(e)
    ensures !IsAuditEvent(Field(e, "event"))
  {
    assert Field(e, REQUIRED_STRINGS[1]).Str?;
  }

  // ---------------------------------------------------------------------------
  // Submitted events

  /** What is stored for a submitted event: the text of an object with the event in it. */
  function Submission(e: Json): string {
    Stringify(Obj([Member("event", e)]))
  }

  /** A parser that reads what `Stringify` prints. */
  function ParseText(t: string): Option<Json> {
    match ReadValue(t)
    case None => None
    case Some(p) => if p.1 == [] then Some(p.0) else None
  }

  /** A submitted event is read back, whole and alone. */
  lemma SubmissionReadsBack(e: Json)
    requires IsAuditEvent(e) && Printable(e)
    ensures NormalizePayload(ParseText, Str(Submission(e))) == Some([e])
  {
    var v := Obj([Member("event", e)]);
    ReadBack(v, []);
    assert Stringify(v) + [] == Stringify(v);
    SingleEvent(e);
  }

  /** The parser of a relay whose rows hold texts: `decode` takes an event out of a JSON value that
      is one. */
  function PayloadReader(decode: Json -> Event): string -> Option<seq<Event>> {
    (payload: string) => DecodeAll(decode, NormalizePayload(ParseText, Str(payload)))
  }

  function DecodeAll(decode: Json -> Event, events: Option<seq<Json>>): Option<seq<Event>> {
    match events
    case None => None
    case Some(es) => Some(seq(|es|, i requires 0 <= i < |es| => decode(es[i])))
  }

  lemma DecodeOne(decode: Json -> Event, e: Json)
    ensures DecodeAll(decode, Some([e])) == Some([decode(e)])
  {
    var es := [e];
    assert seq(|es|, i requires 0 <= i < |es| => decode(es[i])) == [decode(e)];
  }

  /** Once its row is processed, a submitted event is in the store exactly once, in every run. */
  lemma SubmittedIsStoredOnce(r: Relay, decode: Json -> Event, run: seq<System>, i: nat, id: string, e: Json)
    requires r.parse == PayloadReader(decode) && IsAuditEvent(e) && Printable(e)
    requires IsRelayRun(r, run) && i < |run|
    requires id in run[i].box && run[i].box[id].status.Processed? && run[i].box[id].payload == Submission(e)
    ensures StoredOnce(r.store.fp, run[i].store.t, decode(e))
  {
    SubmissionReadsBack(e);
    DecodeOne(decode, e);
    assert r.parse(Submission(e)) == DecodeAll(decode, Some([e]));
    ProcessedIsStoredOnce(r, run, i, id, 0);
  }
}
