/** The fields of an entry that are hashed, its hash, and the fingerprint that compares events
    (src/core/hash_chain.ts, src/stores/lucid_store.ts). SHA-256 is any function on texts. */
module EntryHash {
  import opened Wrappers
  import opened Json
  import opened JsonText
  import opened KeyOrder
  import opened AuditTypes

  /** The digest of a text. */
  type Sha = string -> Hash

  function Nullable(s: Option<string>): Json {
    if s.Some? then Str(s.value) else Null
  }

  // ---------------------------------------------------------------------------
  // Records with a fixed layout

  /** A record of the given keys and values. */
  function Record(keys: seq<string>, values: seq<Json>): (ms: seq<Member>)
    requires |keys| == |values|
    ensures |ms| == |keys| && forall i | 0 <= i < |ms| :: ms[i] == Member(keys[i], values[i])
  {
    seq(|keys|, i requires 0 <= i < |keys| => Member(keys[i], values[i]))
  }

  predicate Distinct(keys: seq<string>) {
    forall i, j | 0 <= i < j < |keys| :: keys[i] != keys[j]
  }

  predicate AllDefined(values: seq<Json>) {
    forall i | 0 <= i < |values| :: !values[i].Undefined?
  }

  lemma DefinedConcat(a: seq<Json>, b: seq<Json>)
    requires AllDefined(a) && AllDefined(b)
    ensures AllDefined(a + b)
  {
  }

  /** The same values, one by one. */
  predicate AllSame(xs: seq<Json>, ys: seq<Json>) {
    |xs| == |ys| && forall i | 0 <= i < |xs| :: Same(xs[i], ys[i])
  }

  /** Records of one layout are the same exactly when they are the same field by field. */
  lemma SameRecords(keys: seq<string>, xs: seq<Json>, ys: seq<Json>)
    requires Distinct(keys) && |xs| == |ys| == |keys|
    requires AllDefined(xs) && AllDefined(ys)
    ensures Same(Obj(Record(keys, xs)), Obj(Record(keys, ys))) <==> AllSame(xs, ys)
  {
    var ms, ns := Record(keys, xs), Record(keys, ys);
    if Same(Obj(ms), Obj(ns)) {
      forall i | 0 <= i < |keys| ensures Same(xs[i], ys[i]) {
        assert HasMatch(ms[i], ns);
        var j :| 0 <= j < |ns| && ns[j].key == ms[i].key && !ns[j].value.Undefined? && Same(ms[i].value, ns[j].value);
        assert i == j;
      }
    }
    if AllSame(xs, ys) {
      forall i | 0 <= i < |ms| ensures HasMatch(ms[i], ns) && IsMatched(ms, ns[i]) {
        assert Same(ms[i].value, ns[i].value);
      }
    }
  }

  // ---------------------------------------------------------------------------
  // hashEntry

  const HASHED_KEYS: seq<string> :=
    ["id", "seq", "stream", "event", "auditableType", "auditableId", "oldValues", "newValues",
     "metadata", "actor", "tenantId", "schemaVersion", "createdAt", "prevHash"]

  const ACTOR_KEYS: seq<string> := ["type", "id"]

  function ActorFields(a: Actor): seq<Json> {
    [Str(a.kind), Nullable(a.id)]
  }

  function IdentityValues(e: Event, seqNo: int): (vs: seq<Json>)
    ensures |vs| == 4 && AllDefined(vs)
  {
    [Str(e.id), Num(seqNo), Str(e.stream), Str(e.event)]
  }

  function SubjectValues(e: Event): (vs: seq<Json>)
    ensures |vs| == 5 && AllDefined(vs)
  {
    [Nullable(e.auditableType), Nullable(e.auditableId), e.oldValues, e.newValues, e.metadata]
  }

  function ContextValues(e: Event, prevHash: Hash): (vs: seq<Json>)
    ensures |vs| == 5 && AllDefined(vs)
  {
    [Obj(Record(ACTOR_KEYS, ActorFields(e.actor))), Nullable(e.tenantId),
     Str(e.schemaVersion), Str(e.createdAt), Str(prevHash)]
  }

  /** The values of the hashed fields, in the order of their keys. */
  function HashedValues(e: Event, seqNo: int, prevHash: Hash): (vs: seq<Json>)
    ensures |vs| == 14 && AllDefined(vs)
  {
    DefinedConcat(IdentityValues(e, seqNo), SubjectValues(e));
    DefinedConcat(IdentityValues(e, seqNo) + SubjectValues(e), ContextValues(e, prevHash));
    IdentityValues(e, seqNo) + SubjectValues(e) + ContextValues(e, prevHash)
  }

  /** `pickHashedFields`. */
  function PickHashedFields(e: Event, seqNo: int, prevHash: Hash): Json {
    Obj(Record(HASHED_KEYS, HashedValues(e, seqNo, prevHash)))
  }

  /** `hashEntry`, or None where canonicalising throws. */
  function HashEntry(sha: Sha, e: Event, seqNo: int, prevHash: Hash): Option<Hash> {
    match CanonicalJson(PickHashedFields(e, seqNo, prevHash))
    case Failure(_) => None
    case Success(text) => Some(sha(text))
  }

  function EntryHashFn(sha: Sha): HashFn {
    (e: Event, seqNo: int, prevHash: Hash) => HashEntry(sha, e, seqNo, prevHash)
  }

  /** Two entries agree on every hashed field. */
  predicate SameHashed(e: Event, n: int, p: Hash, e': Event, n': int, p': Hash) {
    && e.id == e'.id
    && n == n'
    && e.stream == e'.stream
    && e.event == e'.event
    && e.auditableType == e'.auditableType
    && e.auditableId == e'.auditableId
    && Same(e.oldValues, e'.oldValues)
    && Same(e.newValues, e'.newValues)
    && Same(e.metadata, e'.metadata)
    && e.actor.kind == e'.actor.kind
    && e.actor.id == e'.actor.id
    && e.tenantId == e'.tenantId
    && e.schemaVersion == e'.schemaVersion
    && e.createdAt == e'.createdAt
    && p == p'
  }

  lemma HashedKeysDistinct()
    ensures Distinct(HASHED_KEYS) && Distinct(ACTOR_KEYS)
  {
  }

  lemma SameStrings(s: string, s': string)
    ensures Same(Str(s), Str(s')) <==> s == s'
  {
  }

  lemma SameNullables(o: Option<string>, o': Option<string>)
    ensures Same(Nullable(o), Nullable(o')) <==> o == o'
  {
  }

  lemma SameActors(a: Actor, b: Actor)
    ensures Same(Obj(Record(ACTOR_KEYS, ActorFields(a))), Obj(Record(ACTOR_KEYS, ActorFields(b))))
       <==> a.kind == b.kind && a.id == b.id
  {
    HashedKeysDistinct();
    SameRecords(ACTOR_KEYS, ActorFields(a), ActorFields(b));
    SameStrings(a.kind, b.kind);
    SameNullables(a.id, b.id);
    var xs, ys := ActorFields(a), ActorFields(b);
    assert AllSame(xs, ys) <==> Same(xs[0], ys[0]) && Same(xs[1], ys[1]);
  }

  lemma AllSameConcat(a: seq<Json>, b: seq<Json>, a': seq<Json>, b': seq<Json>)
    requires |a| == |a'| && |b| == |b'|
    ensures AllSame(a + b, a' + b') <==> AllSame(a, a') && AllSame(b, b')
  {
    if AllSame(a + b, a' + b') {
      forall i | 0 <= i < |a| ensures Same(a[i], a'[i]) {
        assert (a + b)[i] == a[i] && (a' + b')[i] == a'[i];
      }
      forall i | 0 <= i < |b| ensures Same(b[i], b'[i]) {
        assert (a + b)[|a| + i] == b[i] && (a' + b')[|a| + i] == b'[i];
      }
    }
  }

  lemma SameIdentity(e: Event, n: int, e': Event, n': int)
    ensures AllSame(IdentityValues(e, n), IdentityValues(e', n')) <==>
            e.id == e'.id && n == n' && e.stream == e'.stream && e.event == e'.event
  {
    var xs, ys := IdentityValues(e, n), IdentityValues(e', n');
    assert AllSame(xs, ys) <==> Same(xs[0], ys[0]) && Same(xs[1], ys[1]) && Same(xs[2], ys[2]) && Same(xs[3], ys[3]);
  }

  lemma SameSubject(e: Event, e': Event)
    ensures AllSame(SubjectValues(e), SubjectValues(e')) <==>
            && e.auditableType == e'.auditableType && e.auditableId == e'.auditableId
            && Same(e.oldValues, e'.oldValues) && Same(e.newValues, e'.newValues) && Same(e.metadata, e'.metadata)
  {
    var xs, ys := SubjectValues(e), SubjectValues(e');
    SameNullables(e.auditableType, e'.auditableType);
    SameNullables(e.auditableId, e'.auditableId);
    assert AllSame(xs, ys) <==>
           Same(xs[0], ys[0]) && Same(xs[1], ys[1]) && Same(xs[2], ys[2]) && Same(xs[3], ys[3]) && Same(xs[4], ys[4]);
  }

  lemma SameContext(e: Event, p: Hash, e': Event, p': Hash)
    ensures AllSame(ContextValues(e, p), ContextValues(e', p')) <==>
            && e.actor.kind == e'.actor.kind && e.actor.id == e'.actor.id
            && e.tenantId == e'.tenantId && e.schemaVersion == e'.schemaVersion
            && e.createdAt == e'.createdAt && p == p'
  {
    var xs, ys := ContextValues(e, p), ContextValues(e', p');
    SameActors(e.actor, e'.actor);
    SameNullables(e.tenantId, e'.tenantId);
    assert AllSame(xs, ys) <==>
           Same(xs[0], ys[0]) && Same(xs[1], ys[1]) && Same(xs[2], ys[2]) && Same(xs[3], ys[3]) && Same(xs[4], ys[4]);
  }

  /** The picked fields are the same exactly when the entries agree on every hashed field. */
  lemma SamePicked(e: Event, n: int, p: Hash, e': Event, n': int, p': Hash)
    ensures Same(PickHashedFields(e, n, p), PickHashedFields(e', n', p')) <==> SameHashed(e, n, p, e', n', p')
  {
    HashedKeysDistinct();
    SameRecords(HASHED_KEYS, HashedValues(e, n, p), HashedValues(e', n', p'));
    AllSameConcat(IdentityValues(e, n) + SubjectValues(e), ContextValues(e, p),
                  IdentityValues(e', n') + SubjectValues(e'), ContextValues(e', p'));
    AllSameConcat(IdentityValues(e, n), SubjectValues(e), IdentityValues(e', n'), SubjectValues(e'));
    SameIdentity(e, n, e', n');
    SameSubject(e, e');
    SameContext(e, p, e', p');
  }

  lemma RecordWellFormed(keys: seq<string>, values: seq<Json>)
    requires Distinct(keys) && |keys| == |values|
    requires forall i | 0 <= i < |values| :: WellFormed(values[i])
    ensures WellFormed(Obj(Record(keys, values)))
  {
  }

  lemma PickedWellFormed(e: Event, n: int, p: Hash)
    ensures WellFormed(PickHashedFields(e, n, p))
  {
    HashedKeysDistinct();
    RecordWellFormed(ACTOR_KEYS, ActorFields(e.actor));
    RecordWellFormed(HASHED_KEYS, HashedValues(e, n, p));
  }

  /** The text that is hashed determines every hashed field, and is determined by them. */
  lemma HashedTextDetermines(e: Event, n: int, p: Hash, e': Event, n': int, p': Hash)
    requires CanonicalJson(PickHashedFields(e, n, p)).Success?
    requires CanonicalJson(PickHashedFields(e', n', p')).Success?
    ensures CanonicalJson(PickHashedFields(e, n, p)) == CanonicalJson(PickHashedFields(e', n', p'))
       <==> SameHashed(e, n, p, e', n', p')
  {
    SamePicked(e, n, p, e', n', p');
    PickedWellFormed(e, n, p);
    PickedWellFormed(e', n', p');
    CanonicalDefined(PickHashedFields(e, n, p));
    CanonicalDefined(PickHashedFields(e', n', p'));
    CanonicalInjective(PickHashedFields(e, n, p), PickHashedFields(e', n', p'));
  }

  // ---------------------------------------------------------------------------
  // When an entry can be hashed

  predicate AllRepresentable(values: seq<Json>) {
    forall i | 0 <= i < |values| :: Representable(values[i])
  }

  lemma RecordRepresentable(keys: seq<string>, values: seq<Json>)
    requires |keys| == |values| && AllDefined(values)
    ensures Representable(Obj(Record(keys, values))) <==> AllRepresentable(values)
  {
    var ms := Record(keys, values);
    if Representable(Obj(ms)) {
      forall i | 0 <= i < |values| ensures Representable(values[i]) {
        assert ms[i].value == values[i];
      }
    }
  }

  lemma RepresentableConcat(a: seq<Json>, b: seq<Json>)
    ensures AllRepresentable(a + b) <==> AllRepresentable(a) && AllRepresentable(b)
  {
    if AllRepresentable(a + b) {
      forall i | 0 <= i < |a| ensures Representable(a[i]) {
        assert (a + b)[i] == a[i];
      }
      forall i | 0 <= i < |b| ensures Representable(b[i]) {
        assert (a + b)[|a| + i] == b[i];
      }
    }
  }

  /** The payloads of an event have nothing in them that JSON cannot represent. */
  predicate CleanPayloads(e: Event) {
    Representable(e.oldValues) && Representable(e.newValues) && Representable(e.metadata)
  }

  lemma SubjectRepresentable(e: Event)
    ensures AllRepresentable(SubjectValues(e)) <==> CleanPayloads(e)
  {
    var vs := SubjectValues(e);
    assert AllRepresentable(vs) <==>
           Representable(vs[0]) && Representable(vs[1]) && Representable(vs[2]) && Representable(vs[3]) && Representable(vs[4]);
  }

  lemma OthersRepresentable(e: Event, n: int, p: Hash)
    ensures AllRepresentable(IdentityValues(e, n)) && AllRepresentable(ContextValues(e, p))
  {
    RecordRepresentable(ACTOR_KEYS, ActorFields(e.actor));
  }

  /** An entry can be hashed, whatever its number and its predecessor, if and only if its event's payloads
      have nothing in them that JSON cannot represent. */
  lemma HashesIff(sha: Sha, e: Event, n: int, p: Hash)
    ensures HashEntry(sha, e, n, p).Some? <==> CleanPayloads(e)
  {
    CanonicalDefined(PickHashedFields(e, n, p));
    RecordRepresentable(HASHED_KEYS, HashedValues(e, n, p));
    RepresentableConcat(IdentityValues(e, n) + SubjectValues(e), ContextValues(e, p));
    RepresentableConcat(IdentityValues(e, n), SubjectValues(e));
    OthersRepresentable(e, n, p);
    SubjectRepresentable(e);
  }

  // ---------------------------------------------------------------------------
  // What the hashed text says

  /** The members have one with this key, and its value is the normal form of this value. */
  predicate Has(ms: seq<Member>, key: string, v: Json) {
    Serialize(v).Success? && Member(key, Serialize(v).value) in ms
  }

  /** Members with these keys and no others, none twice. */
  predicate HasOnly(ms: seq<Member>, keys: seq<string>) {
    UniqueKeys(ms) && forall m | m in ms :: m.key in keys
  }

  lemma RecordSerializes(keys: seq<string>, values: seq<Json>)
    requires Distinct(keys) && |keys| == |values| && AllDefined(values)
    requires SerializeMembers(Record(keys, values)).Success?
    ensures var out := SerializeMembers(Record(keys, values)).value;
            HasOnly(out, keys) && forall i | 0 <= i < |keys| :: Has(out, keys[i], values[i])
  {
    var ms := Record(keys, values);
    var out := SerializeMembers(ms).value;
    SerializeMembersAre(ms);
    forall m | m in out ensures m.key in keys {
      assert FromMember(ms, m);
    }
    forall i | 0 <= i < |keys| ensures Has(out, keys[i], values[i]) {
      assert ms[i] == Member(keys[i], values[i]) && !ms[i].value.Undefined?;
      assert FromMember(ms, Member(keys[i], Serialize(values[i]).value));
    }
  }

  lemma SortedHas(ms: seq<Member>, keys: seq<string>)
    requires HasOnly(ms, keys)
    ensures HasOnly(SortMembers(ms), keys)
    ensures forall m :: m in SortMembers(ms) <==> m in ms
  {
    PermutedMembership(ms);
    SortSorts(ms);
    forall i, j | 0 <= i < j < |SortMembers(ms)| ensures SortMembers(ms)[i].key != SortMembers(ms)[j].key {
      BeforeTotal(SortMembers(ms)[i].key, SortMembers(ms)[j].key);
    }
  }

  /** The text of a record parses to an object that has, for each key, the normal form of its value, and
      nothing else. */
  lemma RecordText(keys: seq<string>, values: seq<Json>) returns (ms: seq<Member>)
    requires Distinct(keys) && |keys| == |values| && AllDefined(values)
    requires CanonicalJson(Obj(Record(keys, values))).Success?
    ensures ReadValue(CanonicalJson(Obj(Record(keys, values))).value) == Some((Obj(ms), []))
    ensures HasOnly(ms, keys) && forall i | 0 <= i < |keys| :: Has(ms, keys[i], values[i])
  {
    var v := Obj(Record(keys, values));
    CanonicalDefined(v);
    CanonicalParses(v);
    var out := SerializeMembers(v.members).value;
    RecordSerializes(keys, values);
    SortedHas(out, keys);
    ms := SortMembers(out);
  }

  /** The members have these values under these keys. */
  predicate HasAll(ms: seq<Member>, keys: seq<string>, values: seq<Json>)
    requires |keys| == |values|
  {
    forall i | 0 <= i < |keys| :: Has(ms, keys[i], values[i])
  }

  lemma HasBoth(ms: seq<Member>, a: seq<string>, b: seq<string>, xs: seq<Json>, ys: seq<Json>)
    requires |a| == |xs| && |b| == |ys| && HasAll(ms, a + b, xs + ys)
    ensures HasAll(ms, a, xs) && HasAll(ms, b, ys)
  {
    forall i | 0 <= i < |a| ensures Has(ms, a[i], xs[i]) {
      assert (a + b)[i] == a[i] && (xs + ys)[i] == xs[i];
    }
    forall i | 0 <= i < |b| ensures Has(ms, b[i], ys[i]) {
      assert (a + b)[|a| + i] == b[i] && (xs + ys)[|xs| + i] == ys[i];
    }
  }

  predicate HasSubject(ms: seq<Member>, e: Event) {
    && Has(ms, "auditableType", Nullable(e.auditableType))
    && Has(ms, "auditableId", Nullable(e.auditableId))
    && Has(ms, "oldValues", e.oldValues)
    && Has(ms, "newValues", e.newValues)
    && Has(ms, "metadata", e.metadata)
  }

  lemma SubjectByName(ms: seq<Member>, e: Event)
    requires HasAll(ms, SUBJECT_KEYS, SubjectValues(e))
    ensures HasSubject(ms, e)
  {
    var ks, vs := SUBJECT_KEYS, SubjectValues(e);
    assert Has(ms, ks[0], vs[0]) && Has(ms, ks[1], vs[1]) && Has(ms, ks[2], vs[2]) && Has(ms, ks[3], vs[3]) && Has(ms, ks[4], vs[4]);
  }

  predicate HasIdentity(ms: seq<Member>, e: Event, n: int) {
    Has(ms, "id", Str(e.id)) && Has(ms, "seq", Num(n)) && Has(ms, "stream", Str(e.stream)) && Has(ms, "event", Str(e.event))
  }

  lemma IdentityByName(ms: seq<Member>, e: Event, n: int)
    requires HasAll(ms, ["id", "seq", "stream", "event"], IdentityValues(e, n))
    ensures HasIdentity(ms, e, n)
  {
    var ks, vs := ["id", "seq", "stream", "event"], IdentityValues(e, n);
    assert Has(ms, ks[0], vs[0]) && Has(ms, ks[1], vs[1]) && Has(ms, ks[2], vs[2]) && Has(ms, ks[3], vs[3]);
  }

  predicate HasContext(ms: seq<Member>, e: Event, p: Hash) {
    && Has(ms, "actor", Obj([Member("type", Str(e.actor.kind)), Member("id", Nullable(e.actor.id))]))
    && Has(ms, "tenantId", Nullable(e.tenantId))
    && Has(ms, "schemaVersion", Str(e.schemaVersion))
    && Has(ms, "createdAt", Str(e.createdAt))
    && Has(ms, "prevHash", Str(p))
  }

  lemma ActorRecord(a: Actor)
    ensures Obj(Record(ACTOR_KEYS, ActorFields(a))) == Obj([Member("type", Str(a.kind)), Member("id", Nullable(a.id))])
  {
    assert Record(ACTOR_KEYS, ActorFields(a)) == [Member("type", Str(a.kind)), Member("id", Nullable(a.id))];
  }

  lemma ContextByName(ms: seq<Member>, e: Event, p: Hash)
    requires HasAll(ms, ["actor", "tenantId", "schemaVersion", "createdAt", "prevHash"], ContextValues(e, p))
    ensures HasContext(ms, e, p)
  {
    var ks, vs := ["actor", "tenantId", "schemaVersion", "createdAt", "prevHash"], ContextValues(e, p);
    ActorRecord(e.actor);
    assert Has(ms, ks[0], vs[0]) && Has(ms, ks[1], vs[1]) && Has(ms, ks[2], vs[2]) && Has(ms, ks[3], vs[3]) && Has(ms, ks[4], vs[4]);
  }

  /** The members are the fields of the entry that are hashed, under their names, and no others. */
  predicate AreHashedFields(ms: seq<Member>, e: Event, n: int, p: Hash) {
    HasOnly(ms, HASHED_KEYS) && HasIdentity(ms, e, n) && HasSubject(ms, e) && HasContext(ms, e, p)
  }

  lemma FieldsByName(ms: seq<Member>, e: Event, n: int, p: Hash)
    requires HasOnly(ms, HASHED_KEYS) && HasAll(ms, HASHED_KEYS, HashedValues(e, n, p))
    ensures AreHashedFields(ms, e, n, p)
  {
    var a, b, c := ["id", "seq", "stream", "event"], SUBJECT_KEYS, ["actor", "tenantId", "schemaVersion", "createdAt", "prevHash"];
    assert HASHED_KEYS == a + b + c;
    HasBoth(ms, a + b, c, IdentityValues(e, n) + SubjectValues(e), ContextValues(e, p));
    HasBoth(ms, a, b, IdentityValues(e, n), SubjectValues(e));
    IdentityByName(ms, e, n);
    SubjectByName(ms, e);
    ContextByName(ms, e, p);
  }

  /** The hash of an entry is the digest of a text, and that text parses, with nothing left over, to an
      object that has exactly the fields of the entry that are hashed, each under its own name. */
  lemma HashedTextHolds(sha: Sha, e: Event, n: int, p: Hash) returns (text: string, ms: seq<Member>)
    requires HashEntry(sha, e, n, p).Some?
    ensures HashEntry(sha, e, n, p) == Some(sha(text))
    ensures ReadValue(text) == Some((Obj(ms), [])) && AreHashedFields(ms, e, n, p)
  {
    text := CanonicalJson(PickHashedFields(e, n, p)).value;
    HashedKeysDistinct();
    ms := RecordText(HASHED_KEYS, HashedValues(e, n, p));
    FieldsByName(ms, e, n, p);
  }

  // ---------------------------------------------------------------------------
  // auditEventFingerprint

  const NAME_KEYS: seq<string> := ["id", "event", "stream"]
  const SUBJECT_KEYS: seq<string> := ["auditableType", "auditableId", "oldValues", "newValues", "metadata"]
  const REQUEST_KEYS: seq<string> := ["actor", "tenantId", "requestId", "correlationId", "ipAddress"]
  const TRANSPORT_KEYS: seq<string> := ["userAgent", "url", "httpMethod", "tags", "schemaVersion", "createdAt"]
  const FINGERPRINT_KEYS: seq<string> := NAME_KEYS + SUBJECT_KEYS + REQUEST_KEYS + TRANSPORT_KEYS

  const LABELLED_ACTOR_KEYS: seq<string> := ["type", "id", "label"]

  function LabelledActorFields(a: Actor): seq<Json> {
    [Str(a.kind), Nullable(a.id), Nullable(a.title)]
  }

  function LabelledActor(a: Actor): Json {
    Obj(Record(LABELLED_ACTOR_KEYS, LabelledActorFields(a)))
  }

  function TagsJson(tags: seq<string>): (r: Json)
    ensures r.Arr? && |r.items| == |tags| && forall i | 0 <= i < |tags| :: r.items[i] == Str(tags[i])
  {
    Arr(seq(|tags|, i requires 0 <= i < |tags| => Str(tags[i])))
  }

  function NameValues(e: Event): (vs: seq<Json>)
    ensures |vs| == 3 && AllDefined(vs)
  {
    [Str(e.id), Str(e.event), Str(e.stream)]
  }

  function RequestValues(e: Event): (vs: seq<Json>)
    ensures |vs| == 5 && AllDefined(vs)
  {
    [LabelledActor(e.actor), Nullable(e.tenantId), Nullable(e.requestId),
     Nullable(e.correlationId), Nullable(e.ipAddress)]
  }

  /** `iso` normalises a timestamp to ISO form and keeps what is not a date. */
  function TransportValues(iso: string -> string, e: Event): (vs: seq<Json>)
    ensures |vs| == 6 && AllDefined(vs)
  {
    [Nullable(e.userAgent), Nullable(e.url), Nullable(e.httpMethod), TagsJson(e.tags),
     Str(e.schemaVersion), Str(iso(e.createdAt))]
  }

  function FingerprintValues(iso: string -> string, e: Event): (vs: seq<Json>)
    ensures |vs| == 19 && AllDefined(vs)
  {
    DefinedConcat(NameValues(e), SubjectValues(e));
    DefinedConcat(NameValues(e) + SubjectValues(e), RequestValues(e));
    DefinedConcat(NameValues(e) + SubjectValues(e) + RequestValues(e), TransportValues(iso, e));
    NameValues(e) + SubjectValues(e) + RequestValues(e) + TransportValues(iso, e)
  }

  function FingerprintRecord(iso: string -> string, e: Event): Json {
    Obj(Record(FINGERPRINT_KEYS, FingerprintValues(iso, e)))
  }

  /** `auditEventFingerprint`, or None where canonicalising throws. */
  function Fingerprint(iso: string -> string, e: Event): Option<string> {
    match CanonicalJson(FingerprintRecord(iso, e))
    case Failure(_) => None
    case Success(text) => Some(text)
  }

  /** Two events are the same event: every field agrees, payloads as JSON and creation times
      after normalising. */
  predicate SameEvent(iso: string -> string, e: Event, e': Event) {
    && e.id == e'.id && e.event == e'.event && e.stream == e'.stream
    && e.auditableType == e'.auditableType && e.auditableId == e'.auditableId
    && Same(e.oldValues, e'.oldValues) && Same(e.newValues, e'.newValues) && Same(e.metadata, e'.metadata)
    && e.actor == e'.actor && e.tenantId == e'.tenantId && e.requestId == e'.requestId
    && e.correlationId == e'.correlationId && e.ipAddress == e'.ipAddress && e.userAgent == e'.userAgent
    && e.url == e'.url && e.httpMethod == e'.httpMethod && e.tags == e'.tags
    && e.schemaVersion == e'.schemaVersion && iso(e.createdAt) == iso(e'.createdAt)
  }

  predicate Apart(a: seq<string>, b: seq<string>) {
    forall i, j | 0 <= i < |a| && 0 <= j < |b| :: a[i] != b[j]
  }

  lemma DistinctConcat(a: seq<string>, b: seq<string>)
    requires Distinct(a) && Distinct(b) && Apart(a, b)
    ensures Distinct(a + b)
  {
  }

  lemma ApartConcat(a: seq<string>, b: seq<string>, c: seq<string>)
    requires Apart(a, c) && Apart(b, c)
    ensures Apart(a + b, c)
  {
  }

  lemma KeyGroupsApart()
    ensures Apart(NAME_KEYS, SUBJECT_KEYS) && Apart(NAME_KEYS, REQUEST_KEYS) && Apart(NAME_KEYS, TRANSPORT_KEYS)
    ensures Apart(SUBJECT_KEYS, REQUEST_KEYS)
  {
  }

  lemma LaterKeyGroupsApart()
    ensures Apart(SUBJECT_KEYS, TRANSPORT_KEYS)
    ensures Apart(REQUEST_KEYS, TRANSPORT_KEYS)
  {
  }

  lemma KeyGroupsDistinct()
    ensures Distinct(NAME_KEYS) && Distinct(SUBJECT_KEYS) && Distinct(REQUEST_KEYS) && Distinct(TRANSPORT_KEYS)
    ensures Distinct(LABELLED_ACTOR_KEYS)
  {
  }

  lemma FingerprintKeysDistinct()
    ensures Distinct(FINGERPRINT_KEYS) && Distinct(LABELLED_ACTOR_KEYS)
  {
    KeyGroupsDistinct();
    KeyGroupsApart();
    LaterKeyGroupsApart();
    DistinctConcat(NAME_KEYS, SUBJECT_KEYS);
    ApartConcat(NAME_KEYS, SUBJECT_KEYS, REQUEST_KEYS);
    DistinctConcat(NAME_KEYS + SUBJECT_KEYS, REQUEST_KEYS);
    ApartConcat(NAME_KEYS, SUBJECT_KEYS, TRANSPORT_KEYS);
    ApartConcat(NAME_KEYS + SUBJECT_KEYS, REQUEST_KEYS, TRANSPORT_KEYS);
    DistinctConcat(NAME_KEYS + SUBJECT_KEYS + REQUEST_KEYS, TRANSPORT_KEYS);
  }

  lemma SameLabelledActors(a: Actor, b: Actor)
    ensures Same(LabelledActor(a), LabelledActor(b)) <==> a == b
  {
    FingerprintKeysDistinct();
    var xs, ys := LabelledActorFields(a), LabelledActorFields(b);
    SameRecords(LABELLED_ACTOR_KEYS, xs, ys);
    SameStrings(a.kind, b.kind);
    SameNullables(a.id, b.id);
    SameNullables(a.title, b.title);
    assert AllSame(xs, ys) <==> Same(xs[0], ys[0]) && Same(xs[1], ys[1]) && Same(xs[2], ys[2]);
  }

  lemma SameTags(a: seq<string>, b: seq<string>)
    ensures Same(TagsJson(a), TagsJson(b)) <==> a == b
  {
    if Same(TagsJson(a), TagsJson(b)) {
      forall i | 0 <= i < |a| ensures a[i] == b[i] {
        assert Same(TagsJson(a).items[i], TagsJson(b).items[i]);
        SameStrings(a[i], b[i]);
      }
    }
    if a == b {
      forall i | 0 <= i < |a| ensures Same(TagsJson(a).items[i], TagsJson(b).items[i]) {
        SameStrings(a[i], b[i]);
      }
    }
  }

  lemma SameNames(e: Event, e': Event)
    ensures AllSame(NameValues(e), NameValues(e')) <==> e.id == e'.id && e.event == e'.event && e.stream == e'.stream
  {
    var xs, ys := NameValues(e), NameValues(e');
    assert AllSame(xs, ys) <==> Same(xs[0], ys[0]) && Same(xs[1], ys[1]) && Same(xs[2], ys[2]);
  }

  lemma SameRequests(e: Event, e': Event)
    ensures AllSame(RequestValues(e), RequestValues(e')) <==>
            && e.actor == e'.actor && e.tenantId == e'.tenantId && e.requestId == e'.requestId
            && e.correlationId == e'.correlationId && e.ipAddress == e'.ipAddress
  {
    var xs, ys := RequestValues(e), RequestValues(e');
    SameLabelledActors(e.actor, e'.actor);
    SameNullables(e.tenantId, e'.tenantId);
    SameNullables(e.requestId, e'.requestId);
    SameNullables(e.correlationId, e'.correlationId);
    SameNullables(e.ipAddress, e'.ipAddress);
    assert AllSame(xs, ys) <==>
           Same(xs[0], ys[0]) && Same(xs[1], ys[1]) && Same(xs[2], ys[2]) && Same(xs[3], ys[3]) && Same(xs[4], ys[4]);
  }

  lemma SameTransports(iso: string -> string, e: Event, e': Event)
    ensures AllSame(TransportValues(iso, e), TransportValues(iso, e')) <==>
            && e.userAgent == e'.userAgent && e.url == e'.url && e.httpMethod == e'.httpMethod && e.tags == e'.tags
            && e.schemaVersion == e'.schemaVersion && iso(e.createdAt) == iso(e'.createdAt)
  {
    var xs, ys := TransportValues(iso, e), TransportValues(iso, e');
    SameNullables(e.userAgent, e'.userAgent);
    SameNullables(e.url, e'.url);
    SameNullables(e.httpMethod, e'.httpMethod);
    SameTags(e.tags, e'.tags);
    SameStrings(e.schemaVersion, e'.schemaVersion);
    SameStrings(iso(e.createdAt), iso(e'.createdAt));
    assert AllSame(xs, ys) <==>
           && Same(xs[0], ys[0]) && Same(xs[1], ys[1]) && Same(xs[2], ys[2])
           && Same(xs[3], ys[3]) && Same(xs[4], ys[4]) && Same(xs[5], ys[5]);
  }

  lemma SameFingerprintValues(iso: string -> string, e: Event, e': Event)
    ensures AllSame(FingerprintValues(iso, e), FingerprintValues(iso, e')) <==> SameEvent(iso, e, e')
  {
    var a, b, c, d := NameValues(e), SubjectValues(e), RequestValues(e), TransportValues(iso, e);
    var a', b', c', d' := NameValues(e'), SubjectValues(e'), RequestValues(e'), TransportValues(iso, e');
    AllSameConcat(a + b + c, d, a' + b' + c', d');
    AllSameConcat(a + b, c, a' + b', c');
    AllSameConcat(a, b, a', b');
    SameNames(e, e');
    SameSubject(e, e');
    SameRequests(e, e');
    SameTransports(iso, e, e');
  }

  lemma FingerprintRecords(iso: string -> string, e: Event, e': Event)
    ensures Same(FingerprintRecord(iso, e), FingerprintRecord(iso, e')) <==>
            AllSame(FingerprintValues(iso, e), FingerprintValues(iso, e'))
  {
    FingerprintKeysDistinct();
    SameRecords(FINGERPRINT_KEYS, FingerprintValues(iso, e), FingerprintValues(iso, e'));
  }

  lemma FingerprintWellFormed(iso: string -> string, e: Event)
    ensures WellFormed(FingerprintRecord(iso, e))
  {
    FingerprintKeysDistinct();
    RecordWellFormed(LABELLED_ACTOR_KEYS, LabelledActorFields(e.actor));
    RecordWellFormed(FINGERPRINT_KEYS, FingerprintValues(iso, e));
  }

  lemma FingerprintPartsRepresentable(iso: string -> string, e: Event)
    ensures AllRepresentable(NameValues(e)) && AllRepresentable(RequestValues(e)) && AllRepresentable(TransportValues(iso, e))
  {
    RecordRepresentable(LABELLED_ACTOR_KEYS, LabelledActorFields(e.actor));
  }

  /** An event has a fingerprint if and only if it can be hashed. */
  lemma FingerprintIff(iso: string -> string, e: Event)
    ensures Fingerprint(iso, e).Some? <==> CleanPayloads(e)
  {
    var a, b, c, d := NameValues(e), SubjectValues(e), RequestValues(e), TransportValues(iso, e);
    CanonicalDefined(FingerprintRecord(iso, e));
    RecordRepresentable(FINGERPRINT_KEYS, FingerprintValues(iso, e));
    RepresentableConcat(a + b + c, d);
    RepresentableConcat(a + b, c);
    RepresentableConcat(a, b);
    FingerprintPartsRepresentable(iso, e);
    SubjectRepresentable(e);
  }

  predicate HasNames(ms: seq<Member>, e: Event) {
    Has(ms, "id", Str(e.id)) && Has(ms, "event", Str(e.event)) && Has(ms, "stream", Str(e.stream))
  }

  lemma NamesByName(ms: seq<Member>, e: Event)
    requires HasAll(ms, NAME_KEYS, NameValues(e))
    ensures HasNames(ms, e)
  {
    var ks, vs := NAME_KEYS, NameValues(e);
    assert Has(ms, ks[0], vs[0]) && Has(ms, ks[1], vs[1]) && Has(ms, ks[2], vs[2]);
  }

  predicate HasRequest(ms: seq<Member>, e: Event) {
    && Has(ms, "actor",
           Obj([Member("type", Str(e.actor.kind)), Member("id", Nullable(e.actor.id)), Member("label", Nullable(e.actor.title))]))
    && Has(ms, "tenantId", Nullable(e.tenantId))
    && Has(ms, "requestId", Nullable(e.requestId))
    && Has(ms, "correlationId", Nullable(e.correlationId))
    && Has(ms, "ipAddress", Nullable(e.ipAddress))
  }

  lemma LabelledActorRecord(a: Actor)
    ensures LabelledActor(a) == Obj([Member("type", Str(a.kind)), Member("id", Nullable(a.id)), Member("label", Nullable(a.title))])
  {
    assert Record(LABELLED_ACTOR_KEYS, LabelledActorFields(a)) ==
           [Member("type", Str(a.kind)), Member("id", Nullable(a.id)), Member("label", Nullable(a.title))];
  }

  lemma RequestByName(ms: seq<Member>, e: Event)
    requires HasAll(ms, REQUEST_KEYS, RequestValues(e))
    ensures HasRequest(ms, e)
  {
    var ks, vs := REQUEST_KEYS, RequestValues(e);
    LabelledActorRecord(e.actor);
    assert Has(ms, ks[0], vs[0]) && Has(ms, ks[1], vs[1]) && Has(ms, ks[2], vs[2]) && Has(ms, ks[3], vs[3]) && Has(ms, ks[4], vs[4]);
  }

  predicate HasTransport(ms: seq<Member>, iso: string -> string, e: Event) {
    && Has(ms, "userAgent", Nullable(e.userAgent))
    && Has(ms, "url", Nullable(e.url))
    && Has(ms, "httpMethod", Nullable(e.httpMethod))
    && Has(ms, "tags", TagsJson(e.tags))
    && Has(ms, "schemaVersion", Str(e.schemaVersion))
    && Has(ms, "createdAt", Str(iso(e.createdAt)))
  }

  lemma TransportByName(ms: seq<Member>, iso: string -> string, e: Event)
    requires HasAll(ms, TRANSPORT_KEYS, TransportValues(iso, e))
    ensures HasTransport(ms, iso, e)
  {
    var ks, vs := TRANSPORT_KEYS, TransportValues(iso, e);
    assert Has(ms, ks[0], vs[0]) && Has(ms, ks[1], vs[1]) && Has(ms, ks[2], vs[2]);
    assert Has(ms, ks[3], vs[3]) && Has(ms, ks[4], vs[4]) && Has(ms, ks[5], vs[5]);
  }

  /** The members are the fields of the event, under their names, and no others. */
  predicate AreEventFields(ms: seq<Member>, iso: string -> string, e: Event) {
    && HasOnly(ms, FINGERPRINT_KEYS)
    && HasNames(ms, e) && HasSubject(ms, e) && HasRequest(ms, e) && HasTransport(ms, iso, e)
  }

  lemma EventFieldsByName(ms: seq<Member>, iso: string -> string, e: Event)
    requires HasOnly(ms, FINGERPRINT_KEYS) && HasAll(ms, FINGERPRINT_KEYS, FingerprintValues(iso, e))
    ensures AreEventFields(ms, iso, e)
  {
    var a, b, c, d := NameValues(e), SubjectValues(e), RequestValues(e), TransportValues(iso, e);
    HasBoth(ms, NAME_KEYS + SUBJECT_KEYS + REQUEST_KEYS, TRANSPORT_KEYS, a + b + c, d);
    HasBoth(ms, NAME_KEYS + SUBJECT_KEYS, REQUEST_KEYS, a + b, c);
    HasBoth(ms, NAME_KEYS, SUBJECT_KEYS, a, b);
    NamesByName(ms, e);
    SubjectByName(ms, e);
    RequestByName(ms, e);
    TransportByName(ms, iso, e);
  }

  /** A fingerprint parses, with nothing left over, to an object that has exactly the fields of the event,
      each under its own name, the actor's missing label as null and the time normalised. */
  lemma FingerprintHolds(iso: string -> string, e: Event) returns (ms: seq<Member>)
    requires Fingerprint(iso, e).Some?
    ensures ReadValue(Fingerprint(iso, e).value) == Some((Obj(ms), [])) && AreEventFields(ms, iso, e)
  {
    FingerprintKeysDistinct();
    ms := RecordText(FINGERPRINT_KEYS, FingerprintValues(iso, e));
    EventFieldsByName(ms, iso, e);
  }

  /** Two events have one fingerprint exactly when they are the same event. */
  lemma FingerprintDetermines(iso: string -> string, e: Event, e': Event)
    requires Fingerprint(iso, e).Some? && Fingerprint(iso, e').Some?
    ensures Fingerprint(iso, e) == Fingerprint(iso, e') <==> SameEvent(iso, e, e')
  {
    var x, y := FingerprintRecord(iso, e), FingerprintRecord(iso, e');
    FingerprintWellFormed(iso, e);
    FingerprintWellFormed(iso, e');
    CanonicalDefined(x);
    CanonicalDefined(y);
    CanonicalInjective(x, y);
    FingerprintRecords(iso, e, e');
    SameFingerprintValues(iso, e, e');
  }
}
