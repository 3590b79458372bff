/** Chaining a batch of several streams after the heads a store keeps in memory, as the HTTP and the
    stream store do (src/stores/http_store.ts, src/stores/stream_store.ts). */
module StreamHeads {
  import opened Wrappers
  import opened AuditTypes
  import opened HashChain
  import opened ChainVerify
  import opened Grouping

  type Heads = map<string, Head>

  /** Every row a store ever wrote, by stream. */
  type Trail = string -> seq<Row>

  function HeadOf(heads: Heads, stream: string): Option<Head> {
    if stream in heads then Some(heads[stream]) else None
  }

  function LastHead(rows: seq<Row>): Option<Head> {
    if rows == [] then None else Some(Head(rows[|rows| - 1].seqNo, rows[|rows| - 1].hash))
  }

  predicate OfStream(rows: seq<Row>, stream: string) {
    forall i | 0 <= i < |rows| :: rows[i].ev.stream == stream
  }

  /** The trail of the stream is a chain from its first row, and the head is that of its last row. */
  ghost predicate StreamOk(hash: HashFn, heads: Heads, rows: seq<Row>, stream: string) {
    IsChain(hash, rows, 0, GENESIS) && OfStream(rows, stream) && HeadOf(heads, stream) == LastHead(rows)
  }

  ghost predicate HeadsOk(hash: HashFn, heads: Heads, trail: Trail) {
    forall stream :: StreamOk(hash, heads, trail(stream), stream)
  }

  // ---------------------------------------------------------------------------
  // The rows of one stream

  lemma {:induction false} RowsOfConcat(a: seq<Row>, b: seq<Row>, stream: string)
    ensures RowsOf(a + b, stream) == RowsOf(a, stream) + RowsOf(b, stream)
  {
    if a == [] {
      assert a + b == b;
    } else {
      assert (a + b)[1..] == a[1..] + b;
      RowsOfConcat(a[1..], b, stream);
      Regroup(if a[0].ev.stream == stream then [a[0]] else [], RowsOf(a[1..], stream), RowsOf(b, stream));
    }
  }

  lemma Regroup(x: seq<Row>, y: seq<Row>, z: seq<Row>)
    ensures x + (y + z) == (x + y) + z
  {
  }

  lemma {:induction false} RowsOfOne(rows: seq<Row>, name: string, stream: string)
    requires OfStream(rows, name)
    ensures RowsOf(rows, stream) == if stream == name then rows else []
  {
    if rows == [] {
    } else {
      RowsOfOne(rows[1..], name, stream);
      assert rows == [rows[0]] + rows[1..];
    }
  }

  // ---------------------------------------------------------------------------
  // Chaining the groups

  /** The rows for one group. */
  function ChainGroup(hash: HashFn, heads: Heads, g: Group<Event>): Option<seq<Row>> {
    var head := HeadOf(heads, g.name);
    ChainFrom(hash, g.items, HeadSeq(head), HeadHash(head))
  }

  /** The rows of all groups, one group after another; None where hashing throws. */
  function ChainGroups(hash: HashFn, heads: Heads, groups: seq<Group<Event>>): Option<seq<Row>> {
    if groups == [] then Some([])
    else
      match ChainGroups(hash, heads, groups[..|groups| - 1])
      case None => None
      case Some(rows) =>
        match ChainGroup(hash, heads, groups[|groups| - 1])
        case None => None
        case Some(more) => Some(rows + more)
  }

  function NewHeads(hash: HashFn, heads: Heads, groups: seq<Group<Event>>): Heads {
    if groups == [] then map[]
    else
      var last := groups[|groups| - 1];
      var before := NewHeads(hash, heads, groups[..|groups| - 1]);
      match ChainGroup(hash, heads, last)
      case None => before
      case Some(rows) => if rows == [] then before else before[last.name := LastHead(rows).value]
  }

  /** The group holds events of its own stream. */
  predicate GroupOk(g: Group<Event>) {
    g.items != [] && forall j | 0 <= j < |g.items| :: g.items[j].stream == g.name
  }

  predicate GroupsOfStreams(groups: seq<Group<Event>>) {
    DistinctNames(groups) && forall i | 0 <= i < |groups| :: GroupOk(groups[i])
  }

  lemma GroupsAreOfStreams(batch: seq<Event>)
    ensures GroupsOfStreams(GroupAll(StreamOf, batch))
  {
    var groups := GroupAll(StreamOf, batch);
    GroupAllIs(StreamOf, batch);
    forall i | 0 <= i < |groups| ensures GroupOk(groups[i]) {
      SelectedFrom(StreamOf, batch, groups[i].name);
      forall j | 0 <= j < |groups[i].items| ensures groups[i].items[j].stream == groups[i].name {
        assert groups[i].items[j] in groups[i].items;
      }
    }
  }

  lemma GroupRowsAre(hash: HashFn, heads: Heads, g: Group<Event>)
    requires ChainGroup(hash, heads, g).Some?
    requires GroupOk(g)
    ensures var rows := ChainGroup(hash, heads, g).value;
            rows != [] && OfStream(rows, g.name) && EventsOf(rows) == g.items
            && IsChain(hash, rows, HeadSeq(HeadOf(heads, g.name)), HeadHash(HeadOf(heads, g.name)))
  {
    var rows := ChainGroup(hash, heads, g).value;
    ChainFromIs(hash, g.items, HeadSeq(HeadOf(heads, g.name)), HeadHash(HeadOf(heads, g.name)), rows);
    forall i | 0 <= i < |rows| ensures rows[i].ev.stream == g.name {
      assert EventsOf(rows)[i] == rows[i].ev;
    }
  }

  lemma FewerGroups(groups: seq<Group<Event>>)
    requires GroupsOfStreams(groups) && groups != []
    ensures GroupsOfStreams(groups[..|groups| - 1]) && GroupOk(groups[|groups| - 1])
    ensures !HasName(groups[..|groups| - 1], groups[|groups| - 1].name)
  {
  }

  /** What the rows of one stream are: those of its group, or none. */
  predicate StreamChained(hash: HashFn, heads: Heads, groups: seq<Group<Event>>, rows: seq<Row>, stream: string) {
    && (forall i | 0 <= i < |groups| && groups[i].name == stream :: ChainGroup(hash, heads, groups[i]) == Some(rows))
    && (!HasName(groups, stream) ==> rows == [])
  }

  /** What the last group adds. */
  lemma LastGroupAdds(hash: HashFn, heads: Heads, groups: seq<Group<Event>>, stream: string)
    requires groups != [] && GroupOk(groups[|groups| - 1]) && ChainGroups(hash, heads, groups).Some?
    ensures ChainGroup(hash, heads, groups[|groups| - 1]).Some?
    ensures RowsOf(ChainGroups(hash, heads, groups).value, stream) ==
            RowsOf(ChainGroups(hash, heads, groups[..|groups| - 1]).value, stream)
            + (if stream == groups[|groups| - 1].name then ChainGroup(hash, heads, groups[|groups| - 1]).value else [])
  {
    var last := groups[|groups| - 1];
    var rows, more := ChainGroups(hash, heads, groups[..|groups| - 1]).value, ChainGroup(hash, heads, last).value;
    RowsOfConcat(rows, more, stream);
    GroupRowsAre(hash, heads, last);
    RowsOfOne(more, last.name, stream);
  }

  lemma StreamChainedMore(hash: HashFn, heads: Heads, groups: seq<Group<Event>>, rows: seq<Row>, more: seq<Row>, stream: string)
    requires groups != [] && DistinctNames(groups) && StreamChained(hash, heads, groups[..|groups| - 1], rows, stream)
    requires ChainGroup(hash, heads, groups[|groups| - 1]) == Some(more)
    ensures StreamChained(hash, heads, groups, rows + (if stream == groups[|groups| - 1].name then more else []), stream)
  {
    var init, last := groups[..|groups| - 1], groups[|groups| - 1];
    HasNameLast(groups, stream);
    if stream == last.name {
      assert !HasName(init, stream);
      assert rows + more == more;
    } else {
      assert rows + [] == rows;
      forall i | 0 <= i < |groups| && groups[i].name == stream ensures ChainGroup(hash, heads, groups[i]) == Some(rows) {
        assert init[i] == groups[i];
      }
    }
  }

  lemma {:induction false} ChainedByStream(hash: HashFn, heads: Heads, groups: seq<Group<Event>>, stream: string)
    requires GroupsOfStreams(groups) && ChainGroups(hash, heads, groups).Some?
    ensures StreamChained(hash, heads, groups, RowsOf(ChainGroups(hash, heads, groups).value, stream), stream)
  {
    if groups == [] {
    } else {
      var init := groups[..|groups| - 1];
      FewerGroups(groups);
      ChainedByStream(hash, heads, init, stream);
      LastGroupAdds(hash, heads, groups, stream);
      StreamChainedMore(hash, heads, groups, RowsOf(ChainGroups(hash, heads, init).value, stream),
        ChainGroup(hash, heads, groups[|groups| - 1]).value, stream);
    }
  }

  lemma HasNameLast(groups: seq<Group<Event>>, name: string)
    requires groups != []
    ensures HasName(groups, name) <==> HasName(groups[..|groups| - 1], name) || groups[|groups| - 1].name == name
  {
    if HasName(groups[..|groups| - 1], name) {
      var i :| 0 <= i < |groups| - 1 && groups[..|groups| - 1][i].name == name;
      assert groups[i].name == name;
    }
    if HasName(groups, name) && groups[|groups| - 1].name != name {
      var i :| 0 <= i < |groups| && groups[i].name == name;
      assert groups[..|groups| - 1][i].name == name;
    }
  }

  /** The new heads are those of the new rows. */
  lemma {:induction false} NewHeadsAre(hash: HashFn, heads: Heads, groups: seq<Group<Event>>, stream: string)
    requires GroupsOfStreams(groups) && ChainGroups(hash, heads, groups).Some?
    ensures HeadOf(NewHeads(hash, heads, groups), stream) == LastHead(RowsOf(ChainGroups(hash, heads, groups).value, stream))
  {
    if groups == [] {
    } else {
      var init, last := groups[..|groups| - 1], groups[|groups| - 1];
      FewerGroups(groups);
      NewHeadsAre(hash, heads, init, stream);
      LastGroupAdds(hash, heads, groups, stream);
      GroupRowsAre(hash, heads, last);
      LastHeadConcat(RowsOf(ChainGroups(hash, heads, init).value, stream),
        if stream == last.name then ChainGroup(hash, heads, last).value else []);
    }
  }

  // ---------------------------------------------------------------------------
  // What a write keeps

  /** The trail after the rows were written. */
  ghost function Written(trail: Trail, rows: seq<Row>): Trail {
    s => trail(s) + RowsOf(rows, s)
  }

  lemma LastHeadConcat(a: seq<Row>, b: seq<Row>)
    ensures LastHead(a + b) == if b == [] then LastHead(a) else LastHead(b)
  {
    if b == [] {
      assert a + b == a;
    }
  }

  lemma HeadIsPlace(hash: HashFn, rows: seq<Row>)
    requires IsChain(hash, rows, 0, GENESIS)
    ensures HeadSeq(LastHead(rows)) == |rows| && HeadHash(LastHead(rows)) == PrevOf(rows, |rows|, GENESIS)
  {
    if rows != [] {
      assert Follows(hash, rows, |rows| - 1, 0, GENESIS);
    }
  }

  lemma RowsContinue(hash: HashFn, heads: Heads, rows: seq<Row>, groups: seq<Group<Event>>, mine: seq<Row>, stream: string)
    requires StreamOk(hash, heads, rows, stream) && GroupsOfStreams(groups)
    requires StreamChained(hash, heads, groups, mine, stream)
    ensures IsChain(hash, rows + mine, 0, GENESIS) && OfStream(rows + mine, stream)
  {
    HeadIsPlace(hash, rows);
    if HasName(groups, stream) {
      var i :| 0 <= i < |groups| && groups[i].name == stream;
      GroupRowsAre(hash, heads, groups[i]);
    }
    ChainConcat(hash, rows, mine, 0, GENESIS);
  }

  lemma OneStreamWritten(hash: HashFn, heads: Heads, rows: seq<Row>, groups: seq<Group<Event>>, stream: string)
    requires StreamOk(hash, heads, rows, stream) && GroupsOfStreams(groups) && ChainGroups(hash, heads, groups).Some?
    ensures var mine := RowsOf(ChainGroups(hash, heads, groups).value, stream);
            StreamOk(hash, heads + NewHeads(hash, heads, groups), rows + mine, stream)
  {
    var mine := RowsOf(ChainGroups(hash, heads, groups).value, stream);
    ChainedByStream(hash, heads, groups, stream);
    NewHeadsAre(hash, heads, groups, stream);
    LastHeadConcat(rows, mine);
    RowsContinue(hash, heads, rows, groups, mine, stream);
  }

  /** After a write every stream is still a chain with its head. */
  lemma WriteKeepsHeads(hash: HashFn, heads: Heads, trail: Trail, batch: seq<Event>)
    requires HeadsOk(hash, heads, trail)
    requires ChainGroups(hash, heads, GroupAll(StreamOf, batch)).Some?
    ensures var groups := GroupAll(StreamOf, batch);
            HeadsOk(hash, heads + NewHeads(hash, heads, groups), Written(trail, ChainGroups(hash, heads, groups).value))
  {
    var groups := GroupAll(StreamOf, batch);
    GroupsAreOfStreams(batch);
    forall stream
      ensures StreamOk(hash, heads + NewHeads(hash, heads, groups), Written(trail, ChainGroups(hash, heads, groups).value)(stream), stream)
    {
      assert StreamOk(hash, heads, trail(stream), stream);
      OneStreamWritten(hash, heads, trail(stream), groups, stream);
    }
  }

  /** Each stream is written its own events of the batch, in order. */
  lemma WritesItsEvents(hash: HashFn, heads: Heads, batch: seq<Event>, stream: string)
    requires ChainGroups(hash, heads, GroupAll(StreamOf, batch)).Some?
    ensures EventsOf(RowsOf(ChainGroups(hash, heads, GroupAll(StreamOf, batch)).value, stream)) == Select(StreamOf, batch, stream)
  {
    var groups := GroupAll(StreamOf, batch);
    GroupsAreOfStreams(batch);
    GroupAllIs(StreamOf, batch);
    ChainedByStream(hash, heads, groups, stream);
    if HasName(groups, stream) {
      var i :| 0 <= i < |groups| && groups[i].name == stream;
      GroupRowsAre(hash, heads, groups[i]);
    } else {
      NoneSelected(StreamOf, batch, groups, stream);
    }
  }

  /** Each stream's events of the batch can be chained after its head. */
  ghost predicate CanChain(hash: HashFn, heads: Heads, batch: seq<Event>) {
    forall stream :: StreamChains(hash, heads, batch, stream)
  }

  predicate StreamChains(hash: HashFn, heads: Heads, batch: seq<Event>, stream: string) {
    ChainFrom(hash, Select(StreamOf, batch, stream), HeadSeq(HeadOf(heads, stream)), HeadHash(HeadOf(heads, stream))).Some?
  }

  lemma {:induction false} GroupsChainIff(hash: HashFn, heads: Heads, groups: seq<Group<Event>>)
    ensures ChainGroups(hash, heads, groups).Some? <==> forall i | 0 <= i < |groups| :: ChainGroup(hash, heads, groups[i]).Some?
  {
    if groups == [] {
    } else {
      var init := groups[..|groups| - 1];
      GroupsChainIff(hash, heads, init);
      assert forall i | 0 <= i < |init| :: init[i] == groups[i];
    }
  }

  /** Chaining the groups of a batch throws exactly where the events of some stream cannot be hashed. */
  lemma ChainsIff(hash: HashFn, heads: Heads, batch: seq<Event>)
    ensures ChainGroups(hash, heads, GroupAll(StreamOf, batch)).Some? <==> CanChain(hash, heads, batch)
    ensures batch == [] ==> CanChain(hash, heads, batch)
  {
    var groups := GroupAll(StreamOf, batch);
    GroupAllIs(StreamOf, batch);
    GroupsChainIff(hash, heads, groups);
    if CanChain(hash, heads, batch) {
      forall i | 0 <= i < |groups| ensures ChainGroup(hash, heads, groups[i]).Some? {
        assert StreamChains(hash, heads, batch, groups[i].name);
      }
    }
    if ChainGroups(hash, heads, groups).Some? {
      forall stream ensures StreamChains(hash, heads, batch, stream) {
        if HasName(groups, stream) {
          var i :| 0 <= i < |groups| && groups[i].name == stream;
          assert ChainGroup(hash, heads, groups[i]).Some?;
        } else {
          NoneSelected(StreamOf, batch, groups, stream);
        }
      }
    }
  }

  /** The rows of a write: each stream gets the rows of its own events of the batch, in order. */
  ghost predicate WritesBatch(before: Trail, after: Trail, batch: seq<Event>, rows: seq<Row>) {
    forall stream ::
      && after(stream) == before(stream) + RowsOf(rows, stream)
      && EventsOf(RowsOf(rows, stream)) == Select(StreamOf, batch, stream)
  }

  lemma BatchWritten(hash: HashFn, heads: Heads, trail: Trail, batch: seq<Event>)
    requires ChainGroups(hash, heads, GroupAll(StreamOf, batch)).Some?
    ensures var rows := ChainGroups(hash, heads, GroupAll(StreamOf, batch)).value;
            WritesBatch(trail, Written(trail, rows), batch, rows)
  {
    var rows := ChainGroups(hash, heads, GroupAll(StreamOf, batch)).value;
    forall stream ensures EventsOf(RowsOf(rows, stream)) == Select(StreamOf, batch, stream) {
      WritesItsEvents(hash, heads, batch, stream);
    }
  }

  lemma OneMoreGroup(hash: HashFn, heads: Heads, groups: seq<Group<Event>>, g: Group<Event>)
    requires ChainGroups(hash, heads, groups).Some?
    ensures ChainGroups(hash, heads, groups + [g]) ==
            match ChainGroup(hash, heads, g)
            case None => None
            case Some(rows) => Some(ChainGroups(hash, heads, groups).value + rows)
  {
    assert (groups + [g])[..|groups|] == groups;
  }

  lemma OneMoreHead(hash: HashFn, heads: Heads, groups: seq<Group<Event>>, g: Group<Event>)
    requires ChainGroup(hash, heads, g).Some? && ChainGroup(hash, heads, g).value != []
    ensures NewHeads(hash, heads, groups + [g]) ==
            NewHeads(hash, heads, groups)[g.name := LastHead(ChainGroup(hash, heads, g).value).value]
  {
    assert (groups + [g])[..|groups|] == groups;
  }

  /** The loop over the groups that both stores run before they write. */
  method ChainBatches(hash: HashFn, heads: Heads, groups: seq<Group<Event>>) returns (r: Option<seq<Row>>, newHeads: Heads)
    requires GroupsOfStreams(groups)
    ensures r == ChainGroups(hash, heads, groups)
    ensures r.Some? ==> newHeads == NewHeads(hash, heads, groups)
  {
    var all: seq<Row> := [];
    newHeads := map[];
    for i := 0 to |groups|
      invariant ChainGroups(hash, heads, groups[..i]) == Some(all)
      invariant newHeads == NewHeads(hash, heads, groups[..i])
    {
      var g := groups[i];
      assert groups[..i + 1] == groups[..i] + [g];
      OneMoreGroup(hash, heads, groups[..i], g);
      var chained := ChainBatch(hash, g.items, HeadOf(heads, g.name));
      if chained.None? {
        ThrowsOnPrefix(hash, heads, groups, i + 1);
        return None, newHeads;
      }
      GroupRowsAre(hash, heads, g);
      OneMoreHead(hash, heads, groups[..i], g);
      var last := chained.value[|chained.value| - 1];
      newHeads := newHeads[g.name := Head(last.seqNo, last.hash)];
      all := all + chained.value;
    }
    assert groups[..|groups|] == groups;
    return Some(all), newHeads;
  }

  lemma {:induction false} ThrowsOnPrefix(hash: HashFn, heads: Heads, groups: seq<Group<Event>>, i: nat)
    requires i <= |groups| && ChainGroups(hash, heads, groups[..i]).None?
    ensures ChainGroups(hash, heads, groups).None?
    decreases |groups|
  {
    if i == |groups| {
      assert groups[..i] == groups;
    } else {
      assert groups[..|groups| - 1][..i] == groups[..i];
      ThrowsOnPrefix(hash, heads, groups[..|groups| - 1], i);
    }
  }
}
