/** `serialize` as the loop it is (src/core/canonical_json.ts), against the normal form of
    module Json. */
module Serializer {
  import opened Wrappers
  import opened KeyOrder
  import opened Json

  lemma {:induction false} ItemsAppend(items: seq<Json>, v: Json)
    ensures SerializeItems(items + [v]) ==
            match SerializeItems(items)
            case Failure(e) => Failure(e)
            case Success(out) =>
              match Serialize(v)
              case Failure(e) => Failure(e)
              case Success(w) => Success(out + [w])
  {
    if items == [] {
      assert items + [v] == [v] && [v][1..] == [];
      assert SerializeItems([v][1..]) == Success([]);
      if Serialize(v).Success? {
        var w := Serialize(v).value;
        assert [w] + [] == [w] == [] + [w];
      }
    } else {
      assert (items + [v])[1..] == items[1..] + [v];
      ItemsAppend(items[1..], v);
      if SerializeItems(items).Success? && Serialize(v).Success? {
        assert SerializeItems(items).value + [Serialize(v).value]
            == [Serialize(items[0]).value] + (SerializeItems(items[1..]).value + [Serialize(v).value]);
      }
    }
  }

  lemma {:induction false} MembersAppend(ms: seq<Member>, m: Member)
    ensures SerializeMembers(ms + [m]) ==
            match SerializeMembers(ms)
            case Failure(e) => Failure(e)
            case Success(out) =>
              if m.value.Undefined? then Success(out)
              else
                match Serialize(m.value)
                case Failure(e) => Failure(e)
                case Success(w) => Success(out + [Member(m.key, w)])
  {
    if ms == [] {
      assert ms + [m] == [m] && [m][1..] == [];
      assert SerializeMembers([m][1..]) == Success([]);
      if Serialize(m.value).Success? {
        var w := SerializedMember(m);
        assert [w] + [] == [w] == [] + [w];
      }
    } else {
      assert (ms + [m])[1..] == ms[1..] + [m];
      MembersAppend(ms[1..], m);
      if !ms[0].value.Undefined? && SerializeMembers(ms).Success? && Serialize(m.value).Success? {
        var last := [Member(m.key, Serialize(m.value).value)];
        assert SerializeMembers(ms).value + last
            == [SerializedMember(ms[0])] + (SerializeMembers(ms[1..]).value + last);
      }
    }
  }

  lemma {:induction false} SerializedStaySorted(ms: seq<Member>)
    requires Sorted(ms) && SerializeMembers(ms).Success?
    ensures Sorted(SerializeMembers(ms).value)
  {
    if ms == [] {
    } else {
      SerializedStaySorted(ms[1..]);
      SerializeMembersAre(ms[1..]);
      var rest := SerializeMembers(ms[1..]).value;
      forall j | 0 <= j < |rest| ensures Before(ms[0].key, rest[j].key) {
        assert rest[j] in rest && FromMember(ms[1..], rest[j]);
      }
    }
  }

  /** Serialising the members in enumeration order gives the sorted serialised members. */
  lemma SortCommutes(ms: seq<Member>)
    requires UniqueKeys(ms)
    ensures SerializeMembers(SortMembers(ms)).Success? <==> SerializeMembers(ms).Success?
    ensures SerializeMembers(ms).Success? ==>
              SerializeMembers(SortMembers(ms)).value == SortMembers(SerializeMembers(ms).value)
  {
    var sorted := SortMembers(ms);
    PermutedMembership(ms);
    SerializeMembersAre(ms);
    SerializeMembersAre(sorted);
    forall i | 0 <= i < |ms| ensures ms[i] in sorted {
      assert ms[i] in ms;
    }
    forall i | 0 <= i < |sorted| ensures sorted[i] in ms {
      assert sorted[i] in sorted;
    }
    if SerializeMembers(ms).Success? {
      var out, out' := SerializeMembers(ms).value, SerializeMembers(sorted).value;
      SortSorts(ms);
      SerializedStaySorted(sorted);
      SortSorts(out);
      PermutedMembership(out);
      forall m ensures m in out' <==> m in SortMembers(out) {
        SameSources(ms, sorted, m);
      }
      SortedUnique(out', SortMembers(out));
    }
  }

  lemma SameSources(ms: seq<Member>, ns: seq<Member>, m: Member)
    requires forall x :: x in ms <==> x in ns
    ensures FromMember(ms, m) <==> FromMember(ns, m)
  {
    if FromMember(ms, m) {
      var i :| 0 <= i < |ms| && ms[i].key == m.key && !ms[i].value.Undefined? && Serialize(ms[i].value) == Success(m.value);
      assert ms[i] in ns;
    }
    if FromMember(ns, m) {
      var i :| 0 <= i < |ns| && ns[i].key == m.key && !ns[i].value.Undefined? && Serialize(ns[i].value) == Success(m.value);
      assert ns[i] in ms;
    }
  }

  /** The recursive pass with its two loops: over the items of an array, and over the sorted
      keys of an object, skipping undefined members and filling a fresh object. */
  method SerializeValue(v: Json) returns (r: Result<Json, CanonicalError>)
    requires WellFormed(v)
    ensures r == Serialize(v)
    decreases v
  {
    match v
    case Undefined => return Failure(NotCanonical);
    case Foreign => return Failure(NotCanonical);
    case Instance(_) => return Failure(NotCanonical);
    case Arr(items) =>
      var out: seq<Json> := [];
      for i := 0 to |items|
        invariant SerializeItems(items[..i]) == Success(out)
      {
        var item := SerializeValue(items[i]);
        ItemsAppend(items[..i], items[i]);
        assert items[..i + 1] == items[..i] + [items[i]];
        if item.Failure? {
          SerializeItemsAt(items);
          assert Serialize(items[i]).Failure? && SerializeItems(items).Failure?;
          assert SerializeItems(items).error.NotCanonical?;
          return Failure(NotCanonical);
        }
        out := out + [item.value];
      }
      assert items[..|items|] == items;
      return Success(Arr(out));
    case Obj(ms) =>
      var keys := SortMembers(ms);
      var sorted: seq<Member> := [];
      PermutedMembership(ms);
      SortCommutes(ms);
      for i := 0 to |keys|
        invariant SerializeMembers(keys[..i]) == Success(sorted)
      {
        assert keys[..i + 1] == keys[..i] + [keys[i]];
        MembersAppend(keys[..i], keys[i]);
        if keys[i].value.Undefined? {
          continue;
        }
        assert keys[i] in keys && keys[i] in ms;
        var property := SerializeValue(keys[i].value);
        if property.Failure? {
          SerializeMembersAre(keys);
          assert Serialize(keys[i].value).Failure? && SerializeMembers(ms).Failure?;
          assert SerializeMembers(ms).error.NotCanonical?;
          return Failure(NotCanonical);
        }
        sorted := sorted + [Member(keys[i].key, property.value)];
      }
      assert keys[..|keys|] == keys;
      return Success(Obj(sorted));
    case _ => return Success(v);
  }
}
