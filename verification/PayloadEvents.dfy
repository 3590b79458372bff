/** Audit events as the JSON objects that are stored in an outbox row and read back from it
    (src/core/outbox_drainer.ts). */
module PayloadEvents {
  import opened Wrappers
  import opened Json
  import opened JsonText
  import opened AuditTypes
  import opened EntryHash
  import opened OutboxPayload
  import opened Outbox
  import opened ExactlyOnce

  function AsGiven(time: string): string {
    time
  }

  /** The object of an event: every field under its name. */
  function EventJson(e: Event): Json {
    FingerprintRecord(AsGiven, e)
  }

  lemma {:induction false} LookupAt(ms: seq<Member>, i: nat)
    requires UniqueKeys(ms) && i < |ms|
    ensures Lookup(ms, ms[i].key) == ms[i].value
  {
    if i == 0 {
    } else {
      assert ms[0].key != ms[i].key;
      LookupAt(ms[1..], i - 1);
    }
  }

  /** The object has these values under these keys. */
  predicate Shows(v: Json, keys: seq<string>, values: seq<Json>)
    requires |keys| == |values|
  {
    forall i | 0 <= i < |keys| :: Field(v, keys[i]) == values[i]
  }

  lemma RecordShows(keys: seq<string>, values: seq<Json>)
    requires Distinct(keys) && |keys| == |values|
    ensures Shows(Obj(Record(keys, values)), keys, values)
  {
    var ms := Record(keys, values);
    forall i | 0 <= i < |keys| ensures Field(Obj(ms), keys[i]) == values[i] {
      LookupAt(ms, i);
    }
  }

  lemma ShowsBoth(v: Json, a: seq<string>, b: seq<string>, xs: seq<Json>, ys: seq<Json>)
    requires |a| == |xs| && |b| == |ys|
    ensures Shows(v, a + b, xs + ys) <==> Shows(v, a, xs) && Shows(v, b, ys)
  {
    if Shows(v, a + b, xs + ys) {
      forall i | 0 <= i < |a| ensures Field(v, a[i]) == xs[i] {
        assert (a + b)[i] == a[i] && (xs + ys)[i] == xs[i];
      }
      forall i | 0 <= i < |b| ensures Field(v, b[i]) == ys[i] {
        assert (a + b)[|a| + i] == b[i] && (xs + ys)[|xs| + i] == ys[i];
      }
    }
  }

  /** The four parts of an event's object. */
  lemma EventShows(e: Event)
    ensures Shows(EventJson(e), NAME_KEYS, NameValues(e)) && Shows(EventJson(e), SUBJECT_KEYS, SubjectValues(e))
    ensures Shows(EventJson(e), REQUEST_KEYS, RequestValues(e)) && Shows(EventJson(e), TRANSPORT_KEYS, TransportValues(AsGiven, e))
  {
    var v := EventJson(e);
    var a, b, c, d := NameValues(e), SubjectValues(e), RequestValues(e), TransportValues(AsGiven, e);
    FingerprintKeysDistinct();
    RecordShows(FINGERPRINT_KEYS, FingerprintValues(AsGiven, e));
    ShowsBoth(v, NAME_KEYS + SUBJECT_KEYS + REQUEST_KEYS, TRANSPORT_KEYS, a + b + c, d);
    ShowsBoth(v, NAME_KEYS + SUBJECT_KEYS, REQUEST_KEYS, a + b, c);
    ShowsBoth(v, NAME_KEYS, SUBJECT_KEYS, a, b);
  }

  // ---------------------------------------------------------------------------
  // Reading an event

  function TextOf(v: Json): string {
    if v.Str? then v.s else ""
  }

  function MaybeText(v: Json): Option<string> {
    if v.Str? then Some(v.s) else None
  }

  function PayloadOf(v: Json): Payload {
    if v.Obj? && WellFormed(v) then v else Null
  }

  function ActorOf(v: Json): Actor {
    Actor(TextOf(Field(v, "type")), MaybeText(Field(v, "id")), MaybeText(Field(v, "label")))
  }

  function TagsOf(v: Json): seq<string> {
    if v.Arr? then seq(|v.items|, i requires 0 <= i < |v.items| => TextOf(v.items[i])) else []
  }

  /** The event an object holds. */
  function EventOf(v: Json): Event {
    Event(
      TextOf(Field(v, "id")), TextOf(Field(v, "event")), TextOf(Field(v, "stream")),
      MaybeText(Field(v, "auditableType")), MaybeText(Field(v, "auditableId")),
      PayloadOf(Field(v, "oldValues")), PayloadOf(Field(v, "newValues")), PayloadOf(Field(v, "metadata")),
      ActorOf(Field(v, "actor")), MaybeText(Field(v, "tenantId")), MaybeText(Field(v, "requestId")),
      MaybeText(Field(v, "correlationId")), MaybeText(Field(v, "ipAddress")), MaybeText(Field(v, "userAgent")),
      MaybeText(Field(v, "url")), MaybeText(Field(v, "httpMethod")), TagsOf(Field(v, "tags")),
      TextOf(Field(v, "schemaVersion")), TextOf(Field(v, "createdAt")))
  }

  // ---------------------------------------------------------------------------
  // What an object holds

  predicate HoldsNames(v: Json, e: Event) {
    Field(v, "id") == Str(e.id) && Field(v, "event") == Str(e.event) && Field(v, "stream") == Str(e.stream)
  }

  predicate HoldsSubject(v: Json, e: Event) {
    && Field(v, "auditableType") == Nullable(e.auditableType) && Field(v, "auditableId") == Nullable(e.auditableId)
    && Field(v, "oldValues") == e.oldValues && Field(v, "newValues") == e.newValues && Field(v, "metadata") == e.metadata
  }

  predicate HoldsActor(v: Json, a: Actor) {
    && v.Obj? && Field(v, "type") == Str(a.kind) && Field(v, "id") == Nullable(a.id)
    && (Field(v, "label") == Nullable(a.title) || (Field(v, "label").Undefined? && a.title.None?))
  }

  predicate HoldsRequest(v: Json, e: Event) {
    && HoldsActor(Field(v, "actor"), e.actor)
    && Field(v, "tenantId") == Nullable(e.tenantId) && Field(v, "requestId") == Nullable(e.requestId)
    && Field(v, "correlationId") == Nullable(e.correlationId) && Field(v, "ipAddress") == Nullable(e.ipAddress)
  }

  predicate HoldsTransport(v: Json, e: Event) {
    && Field(v, "userAgent") == Nullable(e.userAgent) && Field(v, "url") == Nullable(e.url)
    && Field(v, "httpMethod") == Nullable(e.httpMethod) && Field(v, "tags") == TagsJson(e.tags)
    && Field(v, "schemaVersion") == Str(e.schemaVersion) && Field(v, "createdAt") == Str(e.createdAt)
  }

  /** The object has the fields of the event under their names; a label that is null may be missing. */
  predicate HoldsEvent(v: Json, e: Event) {
    v.Obj? && HoldsNames(v, e) && HoldsSubject(v, e) && HoldsRequest(v, e) && HoldsTransport(v, e)
  }

  lemma NamesShown(v: Json, e: Event)
    requires Shows(v, NAME_KEYS, NameValues(e))
    ensures HoldsNames(v, e)
  {
    var ks := NAME_KEYS;
    assert Field(v, ks[0]) == NameValues(e)[0] && Field(v, ks[1]) == NameValues(e)[1] && Field(v, ks[2]) == NameValues(e)[2];
  }

  lemma SubjectShown(v: Json, e: Event)
    requires Shows(v, SUBJECT_KEYS, SubjectValues(e))
    ensures HoldsSubject(v, e)
  {
    var ks, vs := SUBJECT_KEYS, SubjectValues(e);
    assert Field(v, ks[0]) == vs[0] && Field(v, ks[1]) == vs[1] && Field(v, ks[2]) == vs[2];
    assert Field(v, ks[3]) == vs[3] && Field(v, ks[4]) == vs[4];
  }

  lemma ActorShown(a: Actor)
    ensures HoldsActor(LabelledActor(a), a)
  {
    var ks, vs := LABELLED_ACTOR_KEYS, LabelledActorFields(a);
    FingerprintKeysDistinct();
    RecordShows(ks, vs);
    var v := LabelledActor(a);
    assert Field(v, ks[0]) == vs[0] && Field(v, ks[1]) == vs[1] && Field(v, ks[2]) == vs[2];
  }

  lemma RequestShown(v: Json, e: Event)
    requires Shows(v, REQUEST_KEYS, RequestValues(e))
    ensures HoldsRequest(v, e)
  {
    var ks, vs := REQUEST_KEYS, RequestValues(e);
    ActorShown(e.actor);
    assert Field(v, ks[0]) == vs[0] && Field(v, ks[1]) == vs[1] && Field(v, ks[2]) == vs[2];
    assert Field(v, ks[3]) == vs[3] && Field(v, ks[4]) == vs[4];
  }

  lemma TransportShown(v: Json, e: Event)
    requires Shows(v, TRANSPORT_KEYS, TransportValues(AsGiven, e))
    ensures HoldsTransport(v, e)
  {
    var ks, vs := TRANSPORT_KEYS, TransportValues(AsGiven, e);
    assert Field(v, ks[0]) == vs[0] && Field(v, ks[1]) == vs[1] && Field(v, ks[2]) == vs[2];
    assert Field(v, ks[3]) == vs[3] && Field(v, ks[4]) == vs[4] && Field(v, ks[5]) == vs[5];
  }

  /** The object of an event holds it. */
  lemma EventJsonHolds(e: Event)
    ensures HoldsEvent(EventJson(e), e)
  {
    var v := EventJson(e);
    EventShows(e);
    NamesShown(v, e);
    SubjectShown(v, e);
    RequestShown(v, e);
    TransportShown(v, e);
  }

  lemma NullableReads(o: Option<string>)
    ensures MaybeText(Nullable(o)) == o
  {
  }

  lemma TagsRead(tags: seq<string>)
    ensures TagsOf(TagsJson(tags)) == tags
  {
  }

  lemma ActorReads(v: Json, a: Actor)
    requires HoldsActor(v, a)
    ensures ActorOf(v) == a
  {
  }

  /** What an object holds is what is read from it, so it holds one event at most. */
  lemma HeldIsRead(v: Json, e: Event)
    requires HoldsEvent(v, e)
    ensures EventOf(v) == e
  {
    ActorReads(Field(v, "actor"), e.actor);
    TagsRead(e.tags);
    SubjectReads(v, e);
    RequestReads(v, e);
    TransportReads(v, e);
  }

  lemma SubjectReads(v: Json, e: Event)
    requires HoldsSubject(v, e)
    ensures EventOf(v).auditableType == e.auditableType && EventOf(v).auditableId == e.auditableId
    ensures EventOf(v).oldValues == e.oldValues && EventOf(v).newValues == e.newValues && EventOf(v).metadata == e.metadata
  {
  }

  lemma RequestReads(v: Json, e: Event)
    requires HoldsRequest(v, e)
    ensures EventOf(v).tenantId == e.tenantId && EventOf(v).requestId == e.requestId
    ensures EventOf(v).correlationId == e.correlationId && EventOf(v).ipAddress == e.ipAddress
  {
  }

  lemma TransportReads(v: Json, e: Event)
    requires HoldsTransport(v, e)
    ensures EventOf(v).userAgent == e.userAgent && EventOf(v).url == e.url && EventOf(v).httpMethod == e.httpMethod
    ensures EventOf(v).schemaVersion == e.schemaVersion && EventOf(v).createdAt == e.createdAt
  {
  }

  // ---------------------------------------------------------------------------
  // What is accepted

  lemma {:induction false} LookupWellFormed(ms: seq<Member>, key: string)
    requires forall i | 0 <= i < |ms| :: WellFormed(ms[i].value)
    ensures WellFormed(Lookup(ms, key))
  {
    if ms == [] || ms[0].key == key {
    } else {
      LookupWellFormed(ms[1..], key);
    }
  }

  lemma HeldIsAccepted(v: Json, e: Event)
    requires HoldsEvent(v, e) && e.schemaVersion == "1"
    ensures IsAuditEvent(v)
  {
    HeldStrings(v, e);
    HeldNullables(v, e);
    HeldRecords(v, e);
    assert IsTags(TagsJson(e.tags));
  }

  lemma HeldStrings(v: Json, e: Event)
    requires HoldsEvent(v, e)
    ensures forall i | 0 <= i < |REQUIRED_STRINGS| :: Field(v, REQUIRED_STRINGS[i]).Str?
  {
    assert REQUIRED_STRINGS == ["id", "event", "stream", "createdAt"];
  }

  predicate AllNullable(v: Json, keys: seq<string>) {
    forall i | 0 <= i < |keys| :: IsNullableString(Field(v, keys[i]))
  }

  lemma HeldRequestNullables(v: Json, e: Event)
    requires HoldsSubject(v, e) && HoldsRequest(v, e)
    ensures AllNullable(v, ["auditableType", "auditableId", "tenantId", "requestId", "correlationId", "ipAddress"])
  {
  }

  lemma HeldTransportNullables(v: Json, e: Event)
    requires HoldsTransport(v, e)
    ensures AllNullable(v, ["userAgent", "url", "httpMethod"])
  {
  }

  lemma HeldNullables(v: Json, e: Event)
    requires HoldsEvent(v, e)
    ensures AllNullable(v, NULLABLE_STRINGS)
  {
    HeldRequestNullables(v, e);
    HeldTransportNullables(v, e);
    assert NULLABLE_STRINGS ==
           ["auditableType", "auditableId", "tenantId", "requestId", "correlationId", "ipAddress"] + ["userAgent", "url", "httpMethod"];
  }

  lemma HeldRecords(v: Json, e: Event)
    requires HoldsSubject(v, e)
    ensures forall i | 0 <= i < |NULLABLE_RECORDS| :: IsNullableRecord(Field(v, NULLABLE_RECORDS[i]))
  {
  }

  lemma StringsAreHeld(v: Json)
    requires IsAuditEvent(v)
    ensures Field(v, "id").Str? && Field(v, "event").Str? && Field(v, "stream").Str? && Field(v, "createdAt").Str?
  {
    var ks := REQUIRED_STRINGS;
    assert Field(v, ks[0]).Str? && Field(v, ks[1]).Str? && Field(v, ks[2]).Str? && Field(v, ks[3]).Str?;
  }

  lemma NullablesAreHeld(v: Json)
    requires IsAuditEvent(v)
    ensures IsNullableString(Field(v, "auditableType")) && IsNullableString(Field(v, "auditableId"))
    ensures IsNullableString(Field(v, "tenantId")) && IsNullableString(Field(v, "requestId"))
    ensures IsNullableString(Field(v, "correlationId")) && IsNullableString(Field(v, "ipAddress"))
    ensures IsNullableString(Field(v, "userAgent")) && IsNullableString(Field(v, "url")) && IsNullableString(Field(v, "httpMethod"))
  {
    var ks := NULLABLE_STRINGS;
    assert IsNullableString(Field(v, ks[0])) && IsNullableString(Field(v, ks[1])) && IsNullableString(Field(v, ks[2]));
    assert IsNullableString(Field(v, ks[3])) && IsNullableString(Field(v, ks[4])) && IsNullableString(Field(v, ks[5]));
    assert IsNullableString(Field(v, ks[6])) && IsNullableString(Field(v, ks[7])) && IsNullableString(Field(v, ks[8]));
  }

  lemma RecordsAreHeld(v: Json)
    requires IsAuditEvent(v) && WellFormed(v)
    ensures Field(v, "oldValues") == PayloadOf(Field(v, "oldValues"))
    ensures Field(v, "newValues") == PayloadOf(Field(v, "newValues"))
    ensures Field(v, "metadata") == PayloadOf(Field(v, "metadata"))
  {
    var ks := NULLABLE_RECORDS;
    assert IsNullableRecord(Field(v, ks[0])) && IsNullableRecord(Field(v, ks[1])) && IsNullableRecord(Field(v, ks[2]));
    LookupWellFormed(v.members, "oldValues");
    LookupWellFormed(v.members, "newValues");
    LookupWellFormed(v.members, "metadata");
  }

  lemma TagsAreHeld(v: Json)
    requires IsTags(v)
    ensures TagsJson(TagsOf(v)) == v
  {
    assert TagsJson(TagsOf(v)).items == v.items;
  }

  lemma ActorIsHeld(v: Json)
    requires IsActor(v)
    ensures HoldsActor(v, ActorOf(v))
  {
  }

  lemma AcceptedIsHeld(v: Json)
    requires IsAuditEvent(v) && WellFormed(v)
    ensures HoldsEvent(v, EventOf(v)) && EventOf(v).schemaVersion == "1"
  {
    StringsAreHeld(v);
    NullablesAreHeld(v);
    RecordsAreHeld(v);
    TagsAreHeld(Field(v, "tags"));
    ActorIsHeld(Field(v, "actor"));
    assert HoldsSubject(v, EventOf(v)) && HoldsRequest(v, EventOf(v)) && HoldsTransport(v, EventOf(v));
  }

  /** A value is accepted as an audit event if and only if it is the object of one of version 1: it holds,
      under their names, every field of some event. That event is the one read from it. */
  lemma AcceptedIff(v: Json)
    requires WellFormed(v)
    ensures IsAuditEvent(v) <==> HoldsEvent(v, EventOf(v)) && EventOf(v).schemaVersion == "1"
    ensures forall e | HoldsEvent(v, e) :: EventOf(v) == e
  {
    if IsAuditEvent(v) {
      AcceptedIsHeld(v);
    }
    if HoldsEvent(v, EventOf(v)) && EventOf(v).schemaVersion == "1" {
      HeldIsAccepted(v, EventOf(v));
    }
    forall e | HoldsEvent(v, e) ensures EventOf(v) == e {
      HeldIsRead(v, e);
    }
  }

  // ---------------------------------------------------------------------------
  // Submitted events

  /** A submitted event comes back as itself: what is stored for it is read as one event, with every field
      as it was. */
  lemma EventComesBack(e: Event)
    requires e.schemaVersion == "1" && Printable(EventJson(e))
    ensures PayloadReader(EventOf)(Submission(EventJson(e))) == Some([e])
  {
    EventJsonHolds(e);
    HeldIsAccepted(EventJson(e), e);
    HeldIsRead(EventJson(e), e);
    SubmissionReadsBack(EventJson(e));
    DecodeOne(EventOf, EventJson(e));
  }

  /** Once its row is processed, a submitted event is in the store exactly once, as that event, in every
      run. */
  lemma EventIsStoredOnce(r: Relay, run: seq<System>, i: nat, id: string, e: Event)
    requires r.parse == PayloadReader(EventOf) && e.schemaVersion == "1" && Printable(EventJson(e))
    requires IsRelayRun(r, run) && i < |run|
    requires id in run[i].box && run[i].box[id].status.Processed? && run[i].box[id].payload == Submission(EventJson(e))
    ensures StoredOnce(r.store.fp, run[i].store.t, e)
  {
    EventComesBack(e);
    ProcessedIsStoredOnce(r, run, i, id, 0);
  }
}
