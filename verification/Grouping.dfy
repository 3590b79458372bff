/** Grouping a batch by a name and keeping the order inside each group: events by stream in the
    stores (src/stores/lucid_store.ts, src/stores/http_store.ts), events by store in the pipeline
    (src/core/pipeline.ts). A map that keeps insertion order is a sequence of groups. */
module Grouping {

  datatype Group<E> = Group(name: string, items: seq<E>)

  /** Appends `x` to the group with its name, or opens that group. */
  function AddTo<E>(groups: seq<Group<E>>, name: string, x: E): seq<Group<E>> {
    if groups == [] then [Group(name, [x])]
    else if groups[0].name == name then [Group(name, groups[0].items + [x])] + groups[1..]
    else [groups[0]] + AddTo(groups[1..], name, x)
  }

  /** The groups of `xs`, in the order in which their names first occur. */
  function GroupAll<E>(key: E -> string, xs: seq<E>): seq<Group<E>> {
    if xs == [] then []
    else
      var last := xs[|xs| - 1];
      AddTo(GroupAll(key, xs[..|xs| - 1]), key(last), last)
  }

  /** The elements with the given name, in order. */
  function Select<E>(key: E -> string, xs: seq<E>, name: string): seq<E> {
    if xs == [] then []
    else Select(key, xs[..|xs| - 1], name) + (if key(xs[|xs| - 1]) == name then [xs[|xs| - 1]] else [])
  }

  function Flatten<E>(groups: seq<Group<E>>): seq<E> {
    if groups == [] then [] else groups[0].items + Flatten(groups[1..])
  }

  predicate DistinctNames<E>(groups: seq<Group<E>>) {
    forall i, j | 0 <= i < j < |groups| :: groups[i].name != groups[j].name
  }

  predicate HasName<E>(groups: seq<Group<E>>, name: string) {
    exists i | 0 <= i < |groups| :: groups[i].name == name
  }

  /** The groups partition `xs` by name: each holds exactly the elements with its name, in order,
      and every element is in one. */
  ghost predicate IsGrouping<E(!new)>(key: E -> string, xs: seq<E>, groups: seq<Group<E>>) {
    && DistinctNames(groups)
    && (forall i | 0 <= i < |groups| :: groups[i].items != [] && groups[i].items == Select(key, xs, groups[i].name))
    && (forall x | x in xs :: HasName(groups, key(x)))
  }

  lemma HasNameCons<E>(groups: seq<Group<E>>, name: string)
    requires groups != []
    ensures HasName(groups, name) <==> groups[0].name == name || HasName(groups[1..], name)
  {
    if HasName(groups, name) && groups[0].name != name {
      var i :| 0 <= i < |groups| && groups[i].name == name;
      assert groups[1..][i - 1].name == name;
    }
    if HasName(groups[1..], name) {
      var i :| 0 <= i < |groups[1..]| && groups[1..][i].name == name;
      assert groups[i + 1].name == name;
    }
  }

  /** What adding one element does to the groups. */
  lemma {:induction false} AddToGroups<E>(groups: seq<Group<E>>, name: string, x: E)
    requires DistinctNames(groups)
    ensures var r := AddTo(groups, name, x);
            && DistinctNames(r) && |groups| <= |r| <= |groups| + 1
            && (forall i | 0 <= i < |groups| ::
                  r[i] == if groups[i].name == name then Group(name, groups[i].items + [x]) else groups[i])
            && (|r| > |groups| <==> !HasName(groups, name))
            && (|r| > |groups| ==> r[|groups|] == Group(name, [x]))
  {
    if groups == [] {
    } else {
      var rest := groups[1..];
      var r := AddTo(groups, name, x);
      AddToGroups(rest, name, x);
      HasNameCons(groups, name);
      if groups[0].name == name {
        assert forall i | 0 < i < |groups| :: groups[i].name != name;
      } else {
        var more := AddTo(rest, name, x);
        assert forall i | 0 < i < |r| :: r[i] == more[i - 1];
        assert forall i | 0 < i < |groups| :: groups[i] == rest[i - 1];
        forall i | 0 < i < |r| ensures r[i].name != r[0].name {
          if i < |groups| {
            assert groups[i].name != groups[0].name;
          }
        }
      }
    }
  }

  /** Grouping partitions. */
  lemma {:induction false} GroupAllIs<E(!new)>(key: E -> string, xs: seq<E>)
    ensures IsGrouping(key, xs, GroupAll(key, xs))
  {
    if xs == [] {
    } else {
      var init, last := xs[..|xs| - 1], xs[|xs| - 1];
      var groups, r := GroupAll(key, init), GroupAll(key, xs);
      GroupAllIs(key, init);
      AddToGroups(groups, key(last), last);
      forall i | 0 <= i < |r| ensures r[i].items != [] && r[i].items == Select(key, xs, r[i].name) {
        if i == |groups| {
          NoneSelected(key, init, groups, key(last));
        }
      }
      forall x | x in xs ensures HasName(r, key(x)) {
        if x in init {
          var i :| 0 <= i < |groups| && groups[i].name == key(x);
          assert r[i].name == key(x);
        } else {
          assert x == last;
          if HasName(groups, key(last)) {
            var i :| 0 <= i < |groups| && groups[i].name == key(last);
            assert r[i].name == key(last);
          } else {
            assert r[|groups|].name == key(last);
          }
        }
      }
    }
  }

  lemma {:induction false} NoneSelected<E>(key: E -> string, xs: seq<E>, groups: seq<Group<E>>, name: string)
    requires !HasName(groups, name) && forall x | x in xs :: HasName(groups, key(x))
    ensures Select(key, xs, name) == []
  {
    if xs == [] {
    } else {
      NoneSelected(key, xs[..|xs| - 1], groups, name);
      assert xs[|xs| - 1] in xs;
    }
  }

  /** Selecting from a concatenation. */
  lemma {:induction false} SelectConcat<E>(key: E -> string, xs: seq<E>, ys: seq<E>, name: string)
    ensures Select(key, xs + ys, name) == Select(key, xs, name) + Select(key, ys, name)
  {
    if ys == [] {
      assert xs + ys == xs;
    } else {
      assert (xs + ys)[..|xs + ys| - 1] == xs + ys[..|ys| - 1];
      SelectConcat(key, xs, ys[..|ys| - 1], name);
    }
  }

  /** What is selected has the name and comes from `xs`. */
  lemma {:induction false} SelectedFrom<E>(key: E -> string, xs: seq<E>, name: string)
    ensures forall x :: x in Select(key, xs, name) <==> x in xs && key(x) == name
  {
    if xs == [] {
    } else {
      SelectedFrom(key, xs[..|xs| - 1], name);
      assert xs == xs[..|xs| - 1] + [xs[|xs| - 1]];
    }
  }

  lemma {:induction false} AddToPermutes<E>(groups: seq<Group<E>>, name: string, x: E)
    ensures multiset(Flatten(AddTo(groups, name, x))) == multiset(Flatten(groups)) + multiset{x}
  {
    if groups == [] {
      assert Flatten([Group(name, [x])][1..]) == [];
      assert Flatten([Group(name, [x])]) == [x];
    } else if groups[0].name == name {
      var r := AddTo(groups, name, x);
      assert r[1..] == groups[1..];
      assert Flatten(r) == groups[0].items + [x] + Flatten(groups[1..]);
    } else {
      var r := AddTo(groups, name, x);
      assert r[1..] == AddTo(groups[1..], name, x);
      AddToPermutes(groups[1..], name, x);
    }
  }

  /** Grouping neither loses, adds nor repeats an element. */
  lemma {:induction false} GroupAllPermutes<E>(key: E -> string, xs: seq<E>)
    ensures multiset(Flatten(GroupAll(key, xs))) == multiset(xs)
  {
    if xs == [] {
    } else {
      GroupAllPermutes(key, xs[..|xs| - 1]);
      AddToPermutes(GroupAll(key, xs[..|xs| - 1]), key(xs[|xs| - 1]), xs[|xs| - 1]);
      assert xs == xs[..|xs| - 1] + [xs[|xs| - 1]];
    }
  }

  /** The loop that fills the map of groups. */
  method GroupBy<E(!new)>(key: E -> string, xs: seq<E>) returns (groups: seq<Group<E>>)
    ensures groups == GroupAll(key, xs) && IsGrouping(key, xs, groups)
  {
    groups := [];
    for i := 0 to |xs|
      invariant groups == GroupAll(key, xs[..i])
    {
      groups := AddTo(groups, key(xs[i]), xs[i]);
      assert xs[..i + 1][..i] == xs[..i];
    }
    assert xs[..|xs|] == xs;
    GroupAllIs(key, xs);
  }
}
