/** The values `canonicalJson` accepts or rejects, and the order-normalising pass `serialize`
    (src/core/canonical_json.ts). */
module Json {
  import opened Wrappers
  import opened KeyOrder

  /** A finite host value. Numbers are integers. `Foreign` stands for functions, symbols and
      bigints; `Instance` for dates and other objects that are not plain, with their own
      enumerable members. */
  datatype Json =
    | Undefined
    | Null
    | Bool(b: bool)
    | Num(n: int)
    | Str(s: string)
    | Arr(items: seq<Json>)
    | Obj(members: seq<Member>)
    | Instance(own: seq<Member>)
    | Foreign

  datatype Member = Member(key: string, value: Json)

  datatype CanonicalError = NotCanonical

  /** No object has the same key twice. The host guarantees it. */
  predicate UniqueKeys(ms: seq<Member>) {
    forall i, j | 0 <= i < j < |ms| :: ms[i].key != ms[j].key
  }

  predicate WellFormed(v: Json) {
    match v
    case Arr(items) => forall i | 0 <= i < |items| :: WellFormed(items[i])
    case Obj(ms) => UniqueKeys(ms) && forall i | 0 <= i < |ms| :: WellFormed(ms[i].value)
    case Instance(ms) => UniqueKeys(ms) && forall i | 0 <= i < |ms| :: WellFormed(ms[i].value)
    case _ => true
  }

  /** A value that canonicalises: no undefined except as an object member, nothing foreign. */
  predicate Representable(v: Json) {
    match v
    case Undefined => false
    case Foreign => false
    case Instance(_) => false
    case Arr(items) => forall i | 0 <= i < |items| :: Representable(items[i])
    case Obj(ms) => forall i | 0 <= i < |ms| :: ms[i].value.Undefined? || Representable(ms[i].value)
    case _ => true
  }

  /** Equal after dropping undefined object members and ignoring the order of members. */
  predicate Same(a: Json, b: Json)
    decreases a
  {
    match (a, b)
    case (Arr(xs), Arr(ys)) =>
      |xs| == |ys| && forall i | 0 <= i < |xs| :: Same(xs[i], ys[i])
    case (Obj(ms), Obj(ns)) =>
      && (forall i | 0 <= i < |ms| && !ms[i].value.Undefined? :: HasMatch(ms[i], ns))
      && (forall j | 0 <= j < |ns| && !ns[j].value.Undefined? :: IsMatched(ms, ns[j]))
    case _ => a == b
  }

  /** `ns` has a defined member with the key of `m` and the same value. */
  predicate HasMatch(m: Member, ns: seq<Member>)
    decreases m
  {
    exists j | 0 <= j < |ns| :: ns[j].key == m.key && !ns[j].value.Undefined? && Same(m.value, ns[j].value)
  }

  /** `ms` has a defined member with the key of `n` and the same value. */
  predicate IsMatched(ms: seq<Member>, n: Member)
    decreases ms
  {
    exists i | 0 <= i < |ms| :: ms[i].key == n.key && !ms[i].value.Undefined? && Same(ms[i].value, n.value)
  }

  // ---------------------------------------------------------------------------
  // Sorting members by key

  predicate Sorted(ms: seq<Member>) {
    forall i, j | 0 <= i < j < |ms| :: Before(ms[i].key, ms[j].key)
  }

  function Insert(m: Member, ms: seq<Member>): seq<Member> {
    if ms == [] || Before(m.key, ms[0].key) then [m] + ms
    else [ms[0]] + Insert(m, ms[1..])
  }

  /** The members in enumeration order. */
  function SortMembers(ms: seq<Member>): seq<Member> {
    if ms == [] then [] else Insert(ms[0], SortMembers(ms[1..]))
  }

  lemma {:induction false} InsertElements(m: Member, ms: seq<Member>)
    ensures multiset(Insert(m, ms)) == multiset{m} + multiset(ms)
  {
    if ms == [] || Before(m.key, ms[0].key) {
    } else {
      InsertElements(m, ms[1..]);
      assert ms == [ms[0]] + ms[1..];
    }
  }

  /** Sorting only permutes. */
  lemma {:induction false} SortPermutes(ms: seq<Member>)
    ensures multiset(SortMembers(ms)) == multiset(ms)
  {
    if ms == [] {
    } else {
      SortPermutes(ms[1..]);
      InsertElements(ms[0], SortMembers(ms[1..]));
      assert ms == [ms[0]] + ms[1..];
    }
  }

  lemma {:induction false} InsertSorted(m: Member, ms: seq<Member>)
    requires Sorted(ms)
    requires forall i | 0 <= i < |ms| :: ms[i].key != m.key
    ensures Sorted(Insert(m, ms))
  {
    if ms == [] {
    } else if Before(m.key, ms[0].key) {
      forall i | 0 < i < |ms| ensures Before(m.key, ms[i].key) {
        BeforeTransitive(m.key, ms[0].key, ms[i].key);
      }
    } else {
      BeforeTotal(m.key, ms[0].key);
      InsertSorted(m, ms[1..]);
      InsertElements(m, ms[1..]);
      var rest := Insert(m, ms[1..]);
      forall i | 0 <= i < |rest| ensures Before(ms[0].key, rest[i].key) {
        assert rest[i] in multiset(rest);
        assert rest[i] == m || rest[i] in ms[1..];
      }
    }
  }

  /** Sorting members with distinct keys leaves them strictly in enumeration order. */
  lemma {:induction false} SortSorts(ms: seq<Member>)
    requires UniqueKeys(ms)
    ensures Sorted(SortMembers(ms))
  {
    if ms == [] {
    } else {
      SortSorts(ms[1..]);
      SortPermutes(ms[1..]);
      var rest := SortMembers(ms[1..]);
      forall i | 0 <= i < |rest| ensures rest[i].key != ms[0].key {
        assert rest[i] in multiset(rest);
        assert rest[i] in ms[1..];
      }
      InsertSorted(ms[0], rest);
    }
  }

  /** A set of members has one sorted arrangement. */
  lemma {:induction false} SortedUnique(ms: seq<Member>, ns: seq<Member>)
    requires Sorted(ms) && Sorted(ns)
    requires forall m :: m in ms <==> m in ns
    ensures ms == ns
  {
    assert ms != [] ==> ms[0] in ns;
    assert ns != [] ==> ns[0] in ms;
    if ms == [] {
    } else {
      if ms[0] != ns[0] {
        assert ms[0] in ns && ns[0] in ms;
        var i :| 0 < i < |ns| && ns[i] == ms[0];
        var j :| 0 < j < |ms| && ms[j] == ns[0];
        BeforeTotal(ms[0].key, ns[0].key);
        assert false;
      }
      forall m ensures m in ms[1..] <==> m in ns[1..] {
        BeforeTotal(ms[0].key, ms[0].key);
        if m in ms[1..] {
          var i :| 0 < i < |ms| && ms[i] == m;
          assert m != ns[0] && m in ns;
        }
        if m in ns[1..] {
          var i :| 0 < i < |ns| && ns[i] == m;
          assert m != ms[0] && m in ms;
        }
      }
      SortedUnique(ms[1..], ns[1..]);
      assert ms == [ms[0]] + ms[1..] && ns == [ns[0]] + ns[1..];
    }
  }

  // ---------------------------------------------------------------------------
  // serialize

  /** The normal form `serialize` builds: undefined members dropped, members in enumeration
      order, recursively. Fails where `serialize` throws. */
  function Serialize(v: Json): Result<Json, CanonicalError> {
    match v
    case Undefined => Failure(NotCanonical)
    case Foreign => Failure(NotCanonical)
    case Instance(_) => Failure(NotCanonical)
    case Arr(items) =>
      var out :- SerializeItems(items);
      Success(Arr(out))
    case Obj(ms) =>
      var out :- SerializeMembers(ms);
      Success(Obj(SortMembers(out)))
    case _ => Success(v)
  }

  function SerializeItems(items: seq<Json>): Result<seq<Json>, CanonicalError> {
    if items == [] then Success([])
    else
      var first :- Serialize(items[0]);
      var rest :- SerializeItems(items[1..]);
      Success([first] + rest)
  }

  function SerializeMembers(ms: seq<Member>): Result<seq<Member>, CanonicalError> {
    if ms == [] then Success([])
    else if ms[0].value.Undefined? then SerializeMembers(ms[1..])
    else
      var first :- Serialize(ms[0].value);
      var rest :- SerializeMembers(ms[1..]);
      Success([Member(ms[0].key, first)] + rest)
  }

  /** Items are serialised one by one, and all of them must be. */
  lemma {:induction false} SerializeItemsAt(items: seq<Json>)
    ensures SerializeItems(items).Success? <==> forall i | 0 <= i < |items| :: Serialize(items[i]).Success?
    ensures SerializeItems(items).Success? ==>
              && |SerializeItems(items).value| == |items|
              && forall i | 0 <= i < |items| :: Serialize(items[i]) == Success(SerializeItems(items).value[i])
  {
    if items == [] {
    } else {
      SerializeItemsAt(items[1..]);
      assert forall i | 0 < i < |items| :: items[i] == items[1..][i - 1];
      if SerializeItems(items[1..]).Failure? {
        var i :| 0 <= i < |items[1..]| && Serialize(items[1..][i]).Failure?;
        assert Serialize(items[i + 1]).Failure?;
      }
    }
  }

  /** `m` is a serialised member of `ms`. */
  ghost predicate FromMember(ms: seq<Member>, m: Member) {
    exists i | 0 <= i < |ms| :: ms[i].key == m.key && !ms[i].value.Undefined? && Serialize(ms[i].value) == Success(m.value)
  }

  /** The serialised members are exactly those of the defined members. */
  lemma {:induction false} SerializeMembersAre(ms: seq<Member>)
    ensures SerializeMembers(ms).Success? <==>
            forall i | 0 <= i < |ms| && !ms[i].value.Undefined? :: Serialize(ms[i].value).Success?
    ensures SerializeMembers(ms).Success? ==> forall m :: m in SerializeMembers(ms).value <==> FromMember(ms, m)
    ensures SerializeMembers(ms).Success? && UniqueKeys(ms) ==> UniqueKeys(SerializeMembers(ms).value)
  {
    if ms == [] {
    } else {
      var tail := ms[1..];
      SerializeMembersAre(tail);
      assert forall i | 0 < i < |ms| :: ms[i] == tail[i - 1];
      if SerializeMembers(tail).Failure? {
        var i :| 0 <= i < |tail| && !tail[i].value.Undefined? && Serialize(tail[i].value).Failure?;
        assert Serialize(ms[i + 1].value).Failure?;
      } else if SerializeMembers(ms).Success? {
        var out := SerializeMembers(ms).value;
        var rest := SerializeMembers(tail).value;
        forall m ensures FromMember(ms, m) <==> m in out {
          if FromMember(tail, m) {
            var i :| 0 <= i < |tail| && tail[i].key == m.key && !tail[i].value.Undefined? && Serialize(tail[i].value) == Success(m.value);
            assert ms[i + 1].key == m.key;
          }
        }
        if UniqueKeys(ms) && !ms[0].value.Undefined? {
          forall j | 0 <= j < |rest| ensures rest[j].key != ms[0].key {
            assert rest[j] in rest;
            assert FromMember(tail, rest[j]);
          }
        }
      }
    }
  }

  lemma PermutedMembership(ms: seq<Member>)
    ensures forall m :: m in SortMembers(ms) <==> m in ms
  {
    SortPermutes(ms);
    forall m ensures m in SortMembers(ms) <==> m in ms {
      assert m in SortMembers(ms) <==> m in multiset(SortMembers(ms));
    }
  }

  /** A value serialises exactly when it is representable. */
  lemma {:induction false} SerializeSucceeds(v: Json)
    ensures Serialize(v).Success? <==> Representable(v)
  {
    match v
    case Arr(items) =>
      SerializeItemsAt(items);
      forall i | 0 <= i < |items| ensures Serialize(items[i]).Success? <==> Representable(items[i]) {
        SerializeSucceeds(items[i]);
      }
    case Obj(ms) =>
      SerializeMembersAre(ms);
      forall i | 0 <= i < |ms| ensures Serialize(ms[i].value).Success? <==> Representable(ms[i].value) {
        SerializeSucceeds(ms[i].value);
      }
    case _ =>
  }

  // ---------------------------------------------------------------------------
  // The printed order of keys

  predicate InLexicographicOrder(ms: seq<Member>) {
    forall i, j | 0 <= i < j < |ms| :: LexBefore(ms[i].key, ms[j].key)
  }

  /** The object has a defined member with the key. */
  predicate HasKey(ms: seq<Member>, k: string) {
    exists i | 0 <= i < |ms| :: ms[i].key == k && !ms[i].value.Undefined?
  }

  lemma NormalKeys(ms: seq<Member>)
    requires UniqueKeys(ms) && SerializeMembers(ms).Success?
    ensures var out := SortMembers(SerializeMembers(ms).value);
            Sorted(out) && forall k :: HasKey(ms, k) <==> exists i | 0 <= i < |out| :: out[i].key == k
  {
    var members := SerializeMembers(ms).value;
    var out := SortMembers(members);
    SerializeMembersAre(ms);
    SortSorts(members);
    PermutedMembership(members);
    forall k ensures HasKey(ms, k) <==> exists i | 0 <= i < |out| :: out[i].key == k {
      if HasKey(ms, k) {
        var i :| 0 <= i < |ms| && ms[i].key == k && !ms[i].value.Undefined?;
        var m := Member(k, Serialize(ms[i].value).value);
        assert FromMember(ms, m);
        assert m in out;
      }
      if i :| 0 <= i < |out| && out[i].key == k {
        assert out[i] in out;
        assert FromMember(ms, out[i]);
      }
    }
  }

  /** The members of a normalised object are in lexicographic key order, as documented, if and only
      if no array-index key among them is lexicographically greater than a longer array index or
      than another key. */
  lemma LexicographicIff(ms: seq<Member>)
    requires WellFormed(Obj(ms)) && Serialize(Obj(ms)).Success?
    ensures InLexicographicOrder(Serialize(Obj(ms)).value.members) <==>
            forall a, b | HasKey(ms, a) && HasKey(ms, b) :: !Misplaced(a, b)
  {
    var out := Serialize(Obj(ms)).value.members;
    NormalKeys(ms);
    if InLexicographicOrder(out) {
      forall a, b | HasKey(ms, a) && HasKey(ms, b) ensures !Misplaced(a, b) {
        var i :| 0 <= i < |out| && out[i].key == a;
        var j :| 0 <= j < |out| && out[j].key == b;
        MisplacedIff(a, b);
        LexTotal(a, b);
        BeforeTotal(a, b);
      }
    }
    if forall a, b | HasKey(ms, a) && HasKey(ms, b) :: !Misplaced(a, b) {
      forall i, j | 0 <= i < j < |out| ensures LexBefore(out[i].key, out[j].key) {
        var a, b := out[i].key, out[j].key;
        assert HasKey(ms, a) && HasKey(ms, b) && Before(a, b);
        MisplacedIff(a, b);
        LexTotal(a, b);
        BeforeTotal(a, b);
      }
    }
  }

  /** An object without array-index keys is printed in lexicographic order. */
  lemma WithoutIndexKeysLexicographic(ms: seq<Member>)
    requires WellFormed(Obj(ms)) && Serialize(Obj(ms)).Success?
    requires forall k | HasKey(ms, k) :: !IsIndexKey(k)
    ensures InLexicographicOrder(Serialize(Obj(ms)).value.members)
  {
    LexicographicIff(ms);
  }

  /** The member `serialize` makes of a defined member that serialises. */
  function SerializedMember(m: Member): Member
    requires Serialize(m.value).Success?
  {
    Member(m.key, Serialize(m.value).value)
  }

  /** Two values have the same normal form exactly when they are the same value up to undefined
      members and member order. */
  lemma {:induction false} SameNormalForm(a: Json, b: Json)
    requires WellFormed(a) && WellFormed(b)
    requires Serialize(a).Success? && Serialize(b).Success?
    ensures Serialize(a).value == Serialize(b).value <==> Same(a, b)
    decreases a, 1
  {
    match (a, b)
    case (Arr(xs), Arr(ys)) =>
      SerializeItemsAt(xs);
      SerializeItemsAt(ys);
      forall i | 0 <= i < |xs| && i < |ys|
        ensures Serialize(xs[i]).value == Serialize(ys[i]).value <==> Same(xs[i], ys[i])
      {
        SameNormalForm(xs[i], ys[i]);
      }
      var out, out' := SerializeItems(xs).value, SerializeItems(ys).value;
      if Same(a, b) {
        assert forall i | 0 <= i < |xs| :: Same(xs[i], ys[i]) && out[i] == out'[i];
        assert out == out';
      }
      if out == out' {
        assert forall i | 0 <= i < |xs| :: out[i] == out'[i] && Same(xs[i], ys[i]);
      }
    case (Obj(ms), Obj(ns)) =>
      SerializeMembersAre(ms);
      SerializeMembersAre(ns);
      forall i | 0 <= i < |ms| && !ms[i].value.Undefined?
        ensures HasMatch(ms[i], ns) <==> FromMember(ns, SerializedMember(ms[i]))
      {
        MatchIsMember(ms[i], ns);
      }
      forall j | 0 <= j < |ns| && !ns[j].value.Undefined?
        ensures IsMatched(ms, ns[j]) <==> FromMember(ms, SerializedMember(ns[j]))
      {
        MemberIsMatch(ms, ns[j]);
      }
      SameMembers(ms, ns);
      SameObjects(SerializeMembers(ms).value, SerializeMembers(ns).value);
    case _ =>
  }

  lemma {:induction false} MatchIsMember(m: Member, ns: seq<Member>)
    requires WellFormed(m.value) && Serialize(m.value).Success?
    requires forall j | 0 <= j < |ns| && !ns[j].value.Undefined? :: Serialize(ns[j].value).Success?
    requires forall j | 0 <= j < |ns| :: WellFormed(ns[j].value)
    ensures HasMatch(m, ns) <==> FromMember(ns, SerializedMember(m))
    decreases m, 0
  {
    forall j | 0 <= j < |ns| && !ns[j].value.Undefined?
      ensures Serialize(m.value).value == Serialize(ns[j].value).value <==> Same(m.value, ns[j].value)
    {
      SameNormalForm(m.value, ns[j].value);
    }
  }

  lemma {:induction false} MemberIsMatch(ms: seq<Member>, n: Member)
    requires WellFormed(n.value) && Serialize(n.value).Success?
    requires forall i | 0 <= i < |ms| && !ms[i].value.Undefined? :: Serialize(ms[i].value).Success?
    requires forall i | 0 <= i < |ms| :: WellFormed(ms[i].value)
    ensures IsMatched(ms, n) <==> FromMember(ms, SerializedMember(n))
    decreases ms, 0
  {
    forall i | 0 <= i < |ms| && !ms[i].value.Undefined?
      ensures Serialize(ms[i].value).value == Serialize(n.value).value <==> Same(ms[i].value, n.value)
    {
      SameNormalForm(ms[i].value, n.value);
    }
  }

  /** Every defined member of one object is serialised in the other, and conversely, exactly
      when both have the same serialised members. */
  lemma SameMembers(ms: seq<Member>, ns: seq<Member>)
    requires SerializeMembers(ms).Success? && SerializeMembers(ns).Success?
    requires forall i | 0 <= i < |ms| && !ms[i].value.Undefined? :: Serialize(ms[i].value).Success?
    requires forall j | 0 <= j < |ns| && !ns[j].value.Undefined? :: Serialize(ns[j].value).Success?
    ensures (&& (forall i | 0 <= i < |ms| && !ms[i].value.Undefined? :: FromMember(ns, SerializedMember(ms[i])))
             && (forall j | 0 <= j < |ns| && !ns[j].value.Undefined? :: FromMember(ms, SerializedMember(ns[j]))))
       <==> (forall m :: m in SerializeMembers(ms).value <==> m in SerializeMembers(ns).value)
  {
    var out, out' := SerializeMembers(ms).value, SerializeMembers(ns).value;
    SerializeMembersAre(ms);
    SerializeMembersAre(ns);
    if forall m :: m in out <==> m in out' {
      forall i | 0 <= i < |ms| && !ms[i].value.Undefined? ensures FromMember(ns, SerializedMember(ms[i])) {
        assert FromMember(ms, SerializedMember(ms[i]));
        assert SerializedMember(ms[i]) in out;
      }
      forall j | 0 <= j < |ns| && !ns[j].value.Undefined? ensures FromMember(ms, SerializedMember(ns[j])) {
        assert FromMember(ns, SerializedMember(ns[j]));
        assert SerializedMember(ns[j]) in out';
      }
    }
  }

  /** Objects with distinct keys are equal after sorting exactly when they have the same members. */
  lemma SameObjects(out: seq<Member>, out': seq<Member>)
    requires UniqueKeys(out) && UniqueKeys(out')
    ensures SortMembers(out) == SortMembers(out') <==> forall m :: m in out <==> m in out'
  {
    PermutedMembership(out);
    PermutedMembership(out');
    SortSorts(out);
    SortSorts(out');
    if forall m :: m in out <==> m in out' {
      SortedUnique(SortMembers(out), SortMembers(out'));
    }
    if SortMembers(out) == SortMembers(out') {
      assert forall m :: m in out <==> m in SortMembers(out);
    }
  }
}
