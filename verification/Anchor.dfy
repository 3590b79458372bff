/** Anchoring chain heads (src/core/anchor.ts) and checking a trail against its anchors
    (commands/audit_verify.ts). */
module Anchor {
  import opened Wrappers
  import opened AuditTypes

  /** A flushed row: its stream, number and hash. */
  datatype Flushed = Flushed(stream: string, seqNo: nat, hash: Hash)

  datatype ChainHead = ChainHead(stream: string, seqNo: nat, hash: Hash, anchoredAt: string)

  datatype Every = Rows(n: nat) | Daily

  type Interval = e: Every | e.Rows? ==> e.n > 0 witness Daily

  datatype AnchorState = AnchorState(lastSeq: nat, lastDate: string)

  type States = map<string, AnchorState>

  // ---------------------------------------------------------------------------
  // The heads of a flush

  function Improve(heads: seq<Flushed>, e: Flushed): seq<Flushed> {
    if heads == [] then [e]
    else if heads[0].stream == e.stream then (if e.seqNo > heads[0].seqNo then [e] + heads[1..] else heads)
    else [heads[0]] + Improve(heads[1..], e)
  }

  /** For each stream of the flush its row with the largest number, in the order in which the
      streams first occur. */
  function LastPerStream(events: seq<Flushed>): seq<Flushed> {
    if events == [] then [] else Improve(LastPerStream(events[..|events| - 1]), events[|events| - 1])
  }

  predicate DistinctStreams(heads: seq<Flushed>) {
    forall i, j | 0 <= i < j < |heads| :: heads[i].stream != heads[j].stream
  }

  /** The event is in the stream of one of the heads, and not above it. */
  predicate Below(heads: seq<Flushed>, e: Flushed) {
    exists i | 0 <= i < |heads| :: heads[i].stream == e.stream && e.seqNo <= heads[i].seqNo
  }

  lemma {:induction false} ImproveIs(heads: seq<Flushed>, e: Flushed)
    requires DistinctStreams(heads)
    ensures var r := Improve(heads, e);
            && DistinctStreams(r)
            && (forall h | h in r :: h in heads || h == e)
            && Below(r, e)
            && (forall x | Below(heads, x) :: Below(r, x))
  {
    if heads != [] {
      var r := Improve(heads, e);
      if heads[0].stream == e.stream {
        ImproveFirst(heads, e);
      } else {
        ImproveIs(heads[1..], e);
        ImproveRest(heads, e);
      }
    } else {
      assert Improve(heads, e)[0] == e;
    }
  }

  lemma ImproveFirst(heads: seq<Flushed>, e: Flushed)
    requires DistinctStreams(heads) && heads != [] && heads[0].stream == e.stream
    ensures var r := Improve(heads, e);
            && DistinctStreams(r)
            && (forall h | h in r :: h in heads || h == e)
            && Below(r, e)
            && (forall x | Below(heads, x) :: Below(r, x))
  {
    var r := Improve(heads, e);
    assert r[0].stream == e.stream && e.seqNo <= r[0].seqNo;
    forall x | Below(heads, x) ensures Below(r, x) {
      var i :| 0 <= i < |heads| && heads[i].stream == x.stream && x.seqNo <= heads[i].seqNo;
      assert r[i].stream == x.stream && x.seqNo <= r[i].seqNo;
    }
  }

  lemma BelowCons(first: Flushed, rest: seq<Flushed>, x: Flushed)
    ensures Below([first] + rest, x) <==> (first.stream == x.stream && x.seqNo <= first.seqNo) || Below(rest, x)
  {
    var heads := [first] + rest;
    if Below(rest, x) {
      var i :| 0 <= i < |rest| && rest[i].stream == x.stream && x.seqNo <= rest[i].seqNo;
      assert heads[i + 1] == rest[i];
    }
    if first.stream == x.stream && x.seqNo <= first.seqNo {
      assert heads[0] == first;
    }
    if Below(heads, x) {
      var i :| 0 <= i < |heads| && heads[i].stream == x.stream && x.seqNo <= heads[i].seqNo;
      assert i > 0 ==> rest[i - 1] == heads[i];
    }
  }

  lemma ImproveRest(heads: seq<Flushed>, e: Flushed)
    requires DistinctStreams(heads) && heads != [] && heads[0].stream != e.stream
    requires var more := Improve(heads[1..], e);
             && DistinctStreams(more) && Below(more, e)
             && (forall h | h in more :: h in heads[1..] || h == e)
             && (forall x | Below(heads[1..], x) :: Below(more, x))
    ensures var r := Improve(heads, e);
            && DistinctStreams(r)
            && (forall h | h in r :: h in heads || h == e)
            && Below(r, e)
            && (forall x | Below(heads, x) :: Below(r, x))
  {
    var more := Improve(heads[1..], e);
    var r := Improve(heads, e);
    assert r == [heads[0]] + more && heads == [heads[0]] + heads[1..];
    forall i | 0 <= i < |more| ensures more[i].stream != heads[0].stream {
      assert more[i] in more;
    }
    BelowCons(heads[0], more, e);
    forall x | Below(heads, x) ensures Below(r, x) {
      BelowCons(heads[0], heads[1..], x);
      BelowCons(heads[0], more, x);
    }
  }

  /** One head per stream, each a row of the flush, and no row of the flush above its head. */
  lemma {:induction false} LastPerStreamIs(events: seq<Flushed>)
    ensures DistinctStreams(LastPerStream(events))
    ensures forall h | h in LastPerStream(events) :: h in events
    ensures forall e | e in events :: Below(LastPerStream(events), e)
  {
    if events == [] {
    } else {
      var init, last := events[..|events| - 1], events[|events| - 1];
      LastPerStreamIs(init);
      ImproveIs(LastPerStream(init), last);
      assert events == init + [last];
    }
  }

  // ---------------------------------------------------------------------------
  // When to anchor

  function Bucket(seqNo: nat, n: nat): nat
    requires n > 0
  {
    seqNo / n
  }

  lemma BucketsOrder(a: nat, b: nat, n: nat)
    requires n > 0
    ensures Bucket(a, n) > Bucket(b, n) ==> a > b
    ensures Bucket(a, n) <= Bucket(b, n) ==> a < b + n
    ensures a <= b ==> Bucket(a, n) <= Bucket(b, n)
  {
    assert a == n * (a / n) + a % n && b == n * (b / n) + b % n;
    if a / n > b / n {
      Multiples(b / n + 1, a / n, n);
    } else {
      Multiples(a / n, b / n, n);
    }
  }

  lemma Multiples(x: nat, y: nat, n: nat)
    requires x <= y
    ensures n * x <= n * y
  {
    assert n * y == n * x + n * (y - x);
  }

  /** `today` is the date part of the current time. */
  predicate ShouldAnchor(every: Interval, states: States, head: Flushed, today: string) {
    match every
    case Daily => head.stream !in states || Day(states[head.stream].lastDate) != today
    case Rows(n) => head.stream !in states || Bucket(head.seqNo, n) > Bucket(states[head.stream].lastSeq, n)
  }

  /** The first ten characters of an ISO time. */
  function Day(time: string): string {
    if |time| <= 10 then time else time[..10]
  }

  /** Two ISO times are of one day if and only if their first ten characters agree. */
  lemma SameDayIff(a: string, b: string)
    requires |a| >= 10 && |b| >= 10
    ensures Day(a) == Day(b) <==> forall i | 0 <= i < 10 :: a[i] == b[i]
  {
    assert |Day(a)| == |Day(b)| == 10;
    if Day(a) == Day(b) {
      forall i | 0 <= i < 10 ensures a[i] == b[i] {
        assert Day(a)[i] == a[i] && Day(b)[i] == b[i];
      }
    }
  }

  // ---------------------------------------------------------------------------
  // What is due

  function Multiple(n: nat, k: nat): nat {
    n * k
  }

  /** A head is due, said of the anchors published before: its stream has none, or, with daily anchors, its
      last one is of another day, or, with an interval in rows, a multiple of the interval lies above its
      last one and not above the head. */
  predicate IsDue(every: Interval, published: seq<ChainHead>, head: Flushed, today: string) {
    match LastAnchor(published, head.stream)
    case None => true
    case Some(a) =>
      match every
      case Daily => Day(a.anchoredAt) != today
      case Rows(n) => CrossesMultiple(n, a.seqNo, head.seqNo)
  }

  predicate CrossesMultiple(n: nat, last: nat, seqNo: nat) {
    exists k | 0 <= k <= seqNo :: last < Multiple(n, k) <= seqNo
  }

  lemma BucketBounds(x: nat, n: nat)
    requires n > 0
    ensures Multiple(n, Bucket(x, n)) <= x < Multiple(n, Bucket(x, n) + 1)
    ensures Bucket(x, n) <= x
  {
    assert x == n * (x / n) + x % n;
    Multiples(1, n, x / n);
  }

  lemma MultiplesOrder(n: nat, j: nat, k: nat)
    requires j <= k
    ensures Multiple(n, j) <= Multiple(n, k)
  {
    Multiples(j, k, n);
  }

  lemma LaterBucketIff(n: nat, last: nat, seqNo: nat)
    requires n > 0
    ensures Bucket(seqNo, n) > Bucket(last, n) <==> CrossesMultiple(n, last, seqNo)
  {
    BucketBounds(last, n);
    BucketBounds(seqNo, n);
    if Bucket(seqNo, n) > Bucket(last, n) {
      MultiplesOrder(n, Bucket(last, n) + 1, Bucket(seqNo, n));
      assert last < Multiple(n, Bucket(seqNo, n)) <= seqNo;
    }
    if CrossesMultiple(n, last, seqNo) {
      CrossedMeansLater(n, last, seqNo);
    }
  }

  lemma CrossedMeansLater(n: nat, last: nat, seqNo: nat)
    requires n > 0 && CrossesMultiple(n, last, seqNo)
    ensures Bucket(seqNo, n) > Bucket(last, n)
  {
    BucketBounds(last, n);
    BucketBounds(seqNo, n);
    var k :| 0 <= k <= seqNo && last < Multiple(n, k) <= seqNo;
    if k <= Bucket(last, n) {
      MultiplesOrder(n, k, Bucket(last, n));
    }
    if Bucket(seqNo, n) < k {
      MultiplesOrder(n, Bucket(seqNo, n) + 1, k);
    }
  }

  /** The service decides by its state what is due by the anchors it published. */
  lemma DueIff(every: Interval, published: seq<ChainHead>, states: States, head: Flushed, today: string)
    requires LastAnchor(published, head.stream).Some? ==> head.stream in states
    requires head.stream in states ==> IsLastAnchor(published, head.stream, states[head.stream])
    ensures ShouldAnchor(every, states, head, today) <==> IsDue(every, published, head, today)
  {
    if every.Rows? && head.stream in states {
      LaterBucketIff(every.n, states[head.stream].lastSeq, head.seqNo);
    }
  }

  function AnchorOf(head: Flushed, time: string): ChainHead {
    ChainHead(head.stream, head.seqNo, head.hash, time)
  }

  /** The anchors of the first `i` heads that are due. */
  function DueAnchors(every: Interval, published: seq<ChainHead>, heads: seq<Flushed>, now: nat -> string, i: nat): seq<ChainHead>
    requires i <= |heads|
  {
    if i == 0 then []
    else
      DueAnchors(every, published, heads, now, i - 1)
      + (if IsDue(every, published, heads[i - 1], Day(now(i - 1))) then [AnchorOf(heads[i - 1], now(i - 1))] else [])
  }

  /** They are exactly those of the heads that are due. */
  lemma {:induction false} DueAnchorsAre(
      every: Interval, published: seq<ChainHead>, heads: seq<Flushed>, now: nat -> string, i: nat, a: ChainHead)
    requires i <= |heads|
    ensures a in DueAnchors(every, published, heads, now, i) <==>
            exists k: nat | k < i :: IsDue(every, published, heads[k], Day(now(k))) && a == AnchorOf(heads[k], now(k))
  {
    if i == 0 {
    } else {
      DueAnchorsAre(every, published, heads, now, i - 1, a);
    }
  }

  lemma {:induction false} LastAnchorApart(published: seq<ChainHead>, more: seq<ChainHead>, stream: string)
    requires forall k | 0 <= k < |more| :: more[k].stream != stream
    ensures LastAnchor(published + more, stream) == LastAnchor(published, stream)
  {
    if more == [] {
      assert published + more == published;
    } else {
      assert (published + more)[..|published + more| - 1] == published + more[..|more| - 1];
      LastAnchorApart(published, more[..|more| - 1], stream);
    }
  }

  /** The anchors of one flush do not make a later head of it due or not. */
  lemma StillDue(every: Interval, published: seq<ChainHead>, heads: seq<Flushed>, now: nat -> string, i: nat, today: string)
    requires i < |heads| && DistinctStreams(heads)
    ensures IsDue(every, published + DueAnchors(every, published, heads, now, i), heads[i], today) <==>
            IsDue(every, published, heads[i], today)
  {
    var more := DueAnchors(every, published, heads, now, i);
    forall k | 0 <= k < |more| ensures more[k].stream != heads[i].stream {
      DueAnchorsAre(every, published, heads, now, i, more[k]);
      assert more[k] in more;
    }
    LastAnchorApart(published, more, heads[i].stream);
  }

  // ---------------------------------------------------------------------------
  // The service

  /** `published` records the anchors published, `flushed` the rows flushed, and `top` the largest
      number flushed of each stream. */
  class AnchorService {
    const every: Interval
    var state: States
    ghost var published: seq<ChainHead>
    ghost var flushed: seq<Flushed>
    ghost var top: map<string, nat>

    /** Every anchor published is a row that was flushed, with its hash. The state of a stream is that
        of its last anchor. With an interval in rows the anchors of a stream have ascending numbers. */
    ghost predicate Valid()
      reads this
    {
      && (forall i | 0 <= i < |published| :: published[i].stream in state)
      && (every.Rows? ==> forall i | 0 <= i < |published| :: published[i].seqNo <= state[published[i].stream].lastSeq)
      && (every.Rows? ==> IncreasingPerStream(published))
      && (forall stream | stream in state :: IsLastAnchor(published, stream, state[stream]))
      && AnchorsAreRows(published, flushed)
      && BelowTop(flushed, top)
    }

    constructor (every: Interval)
      ensures Valid() && this.every == every && published == [] && flushed == [] && top == map[]
    {
      this.every := every;
      state, published, flushed, top := map[], [], [], map[];
    }

    /** Publishes an anchor and remembers it. */
    method Publish(head: Flushed, anchoredAt: string)
      requires Valid() && head in flushed && (every.Rows? ==> ShouldAnchor(every, state, head, Day(anchoredAt)))
      modifies this`state, this`published
      ensures Valid() && published == old(published) + [ChainHead(head.stream, head.seqNo, head.hash, anchoredAt)]
      ensures state == old(state)[head.stream := AnchorState(head.seqNo, anchoredAt)]
    {
      var chainHead := ChainHead(head.stream, head.seqNo, head.hash, anchoredAt);
      if every.Rows? && head.stream in state {
        BucketsOrder(head.seqNo, state[head.stream].lastSeq, every.n);
      }
      LastOfMore(published, chainHead);
      published := published + [chainHead];
      state := state[head.stream := AnchorState(head.seqNo, anchoredAt)];
    }

    /** No row flushed is in a later bucket than the last anchor of its stream. */
    ghost predicate Covered(stream: string)
      requires every.Rows?
      reads this
    {
      IsCovered(top, state, stream, every.n)
    }

    lemma KnowsDue(head: Flushed, today: string)
      requires Valid()
      ensures ShouldAnchor(every, state, head, today) <==> IsDue(every, published, head, today)
    {
      if LastAnchor(published, head.stream).Some? {
        LastAnchorIsOne(published, head.stream);
      }
      DueIff(every, published, state, head, today);
    }

    /** One head: published and remembered if and only if it is due, unless the publication fails. */
    method AnchorHead(head: Flushed, time: string, publishes: bool) returns (threw: bool)
      requires Valid() && head in flushed
      modifies this`state, this`published
      ensures Valid()
      ensures threw <==> old(IsDue(every, published, head, Day(time))) && !publishes
      ensures threw ==> published == old(published) && state == old(state)
      ensures !threw ==>
                published == old(published) + (if old(IsDue(every, published, head, Day(time))) then [AnchorOf(head, time)] else [])
      ensures !threw ==> state == HeadDone(every, old(state), head, time)
    {
      KnowsDue(head, Day(time));
      if ShouldAnchor(every, state, head, Day(time)) {
        if !publishes {
          return true;
        }
        Publish(head, time);
      }
      return false;
    }

    /** The heads of a flush in turn: each is published if and only if it is due; a publication that fails
        ends it. */
    method AnchorHeads(heads: seq<Flushed>, now: nat -> string, publishes: nat -> bool) returns (threw: bool)
      requires Valid() && DistinctStreams(heads) && forall h | h in heads :: h in flushed
      modifies this`state, this`published
      ensures Valid()
      ensures !threw ==> DoneUpTo(every, old(state), state, heads, |heads|)
      ensures !threw ==> published == old(published) + DueAnchors(every, old(published), heads, now, |heads|)
      ensures threw ==> StoppedAt(every, old(published), published, heads, now, publishes)
    {
      ghost var before, was := state, published;
      NothingDone(every, before, heads);
      assert was + [] == was;
      for i := 0 to |heads|
        invariant Valid() && DoneUpTo(every, before, state, heads, i)
        invariant published == was + DueAnchors(every, was, heads, now, i)
      {
        OneMoreDone(every, before, state, heads, i, now(i));
        StillDue(every, was, heads, now, i, Day(now(i)));
        assert heads[i] in heads;
        threw := AnchorHead(heads[i], now(i), publishes(i));
        if threw {
          StoppedThere(every, was, published, heads, now, publishes, i);
          return;
        }
      }
      return false;
    }

    /** One flush. `now` gives the time of each publication, `publishes` whether it succeeds; one that
        fails ends the call. Unless that happens, the newest row of each stream of the flush is published
        if and only if it is due, every stream stays covered, and a stream of this flush is covered if the
        flush has its newest row. */
    method OnFlush(events: seq<Flushed>, now: nat -> string, publishes: nat -> bool) returns (threw: bool)
      requires Valid()
      modifies this
      ensures Valid()
      ensures !threw ==>
                published == old(published) + DueAnchors(every, old(published), LastPerStream(events), now, |LastPerStream(events)|)
      ensures threw ==> StoppedAt(every, old(published), published, LastPerStream(events), now, publishes)
      ensures flushed == old(flushed) + events && top == TopAfter(old(top), LastPerStream(events))
      ensures every.Rows? && !threw ==> forall stream | old(Covered(stream)) :: Covered(stream)
      ensures every.Rows? && !threw ==>
                forall h | h in LastPerStream(events) && TopOf(old(top), h.stream) <= h.seqNo :: Covered(h.stream)
    {
      var heads := LastPerStream(events);
      LastPerStreamIs(events);
      FlushedBelowTop(flushed, top, events);
      flushed, top := flushed + events, TopAfter(top, heads);
      threw := AnchorHeads(heads, now, publishes);
      if every.Rows? && !threw {
        assert heads[..|heads|] == heads;
        AllCovered(every.n, old(top), old(state), state, heads);
      }
    }
  }

  /** The publication of head `k` is the first that fails. */
  predicate StopsAt(
    every: Interval, before: seq<ChainHead>, after: seq<ChainHead>, heads: seq<Flushed>, now: nat -> string, publishes: nat -> bool, k: nat)
    requires k < |heads|
  {
    && IsDue(every, before, heads[k], Day(now(k))) && !publishes(k)
    && after == before + DueAnchors(every, before, heads, now, k)
  }

  predicate StoppedAt(
    every: Interval, before: seq<ChainHead>, after: seq<ChainHead>, heads: seq<Flushed>, now: nat -> string, publishes: nat -> bool)
  {
    exists k | 0 <= k < |heads| :: StopsAt(every, before, after, heads, now, publishes, k)
  }

  lemma StoppedThere(
    every: Interval, before: seq<ChainHead>, after: seq<ChainHead>, heads: seq<Flushed>, now: nat -> string, publishes: nat -> bool, k: nat)
    requires k < |heads| && StopsAt(every, before, after, heads, now, publishes, k)
    ensures StoppedAt(every, before, after, heads, now, publishes)
  {
  }

  /** The states after a head was dealt with. */
  function HeadDone(every: Interval, states: States, head: Flushed, time: string): States {
    if ShouldAnchor(every, states, head, Day(time)) then states[head.stream := AnchorState(head.seqNo, time)] else states
  }

  /** The first `i` heads were dealt with, and no other stream changed. */
  ghost predicate DoneUpTo(every: Interval, before: States, states: States, heads: seq<Flushed>, i: nat)
    requires i <= |heads|
  {
    && (forall stream | !InHeads(heads[..i], stream) :: SameState(before, states, stream))
    && (every.Rows? ==> forall k | 0 <= k < i :: Anchored(every.n, before, states, heads[k]))
  }

  lemma NothingDone(every: Interval, states: States, heads: seq<Flushed>)
    ensures DoneUpTo(every, states, states, heads, 0)
  {
  }

  lemma OneMoreDone(every: Interval, before: States, states: States, heads: seq<Flushed>, i: nat, time: string)
    requires i < |heads| && DistinctStreams(heads) && DoneUpTo(every, before, states, heads, i)
    ensures DoneUpTo(every, before, HeadDone(every, states, heads[i], time), heads, i + 1)
  {
    var after := HeadDone(every, states, heads[i], time);
    NotBefore(heads, i);
    assert SameState(before, states, heads[i].stream);
    forall stream | !InHeads(heads[..i + 1], stream) ensures SameState(before, after, stream) {
      assert SameState(before, states, stream);
    }
    if every.Rows? {
      forall k | 0 <= k < i + 1 ensures Anchored(every.n, before, after, heads[k]) {
        assert k < i ==> Anchored(every.n, before, states, heads[k]);
      }
    }
  }

  // ---------------------------------------------------------------------------
  // Coverage

  predicate IsCovered(top: map<string, nat>, states: States, stream: string, n: nat)
    requires n > 0
  {
    stream in top ==> stream in states && Bucket(top[stream], n) <= Bucket(states[stream].lastSeq, n)
  }

  function TopOf(top: map<string, nat>, stream: string): nat {
    if stream in top then top[stream] else 0
  }

  /** The largest numbers flushed, after a flush with these heads. */
  function TopAfter(top: map<string, nat>, heads: seq<Flushed>): map<string, nat> {
    if heads == [] then top
    else
      var h := heads[|heads| - 1];
      var before := TopAfter(top, heads[..|heads| - 1]);
      before[h.stream := if h.seqNo > TopOf(before, h.stream) then h.seqNo else TopOf(before, h.stream)]
  }

  predicate InHeads(heads: seq<Flushed>, stream: string) {
    exists i | 0 <= i < |heads| :: heads[i].stream == stream
  }

  predicate SameState(before: States, after: States, stream: string) {
    (stream in before <==> stream in after) && (stream in before ==> after[stream] == before[stream])
  }

  /** What the flush did for one head: anchored it, or left an anchor in its bucket or a later one. */
  predicate Anchored(n: nat, before: States, after: States, h: Flushed)
    requires n > 0
  {
    && h.stream in after
    && (SameState(before, after, h.stream)
        || (after[h.stream].lastSeq == h.seqNo && (h.stream in before ==> Bucket(before[h.stream].lastSeq, n) < Bucket(h.seqNo, n))))
    && Bucket(h.seqNo, n) <= Bucket(after[h.stream].lastSeq, n)
  }

  lemma NotBefore(heads: seq<Flushed>, i: nat)
    requires DistinctStreams(heads) && i < |heads|
    ensures !InHeads(heads[..i], heads[i].stream)
    ensures forall stream :: InHeads(heads[..i + 1], stream) <==> InHeads(heads[..i], stream) || stream == heads[i].stream
  {
    forall stream ensures InHeads(heads[..i + 1], stream) <==> InHeads(heads[..i], stream) || stream == heads[i].stream {
      if InHeads(heads[..i], stream) {
        var k :| 0 <= k < i && heads[..i][k].stream == stream;
        assert heads[..i + 1][k].stream == stream;
      }
      if stream == heads[i].stream {
        assert heads[..i + 1][i].stream == stream;
      }
      if InHeads(heads[..i + 1], stream) && stream != heads[i].stream {
        var k :| 0 <= k < i + 1 && heads[..i + 1][k].stream == stream;
        assert heads[..i][k].stream == stream;
      }
    }
  }

  lemma {:induction false} TopOfHeads(top: map<string, nat>, heads: seq<Flushed>, stream: string)
    requires DistinctStreams(heads)
    ensures !InHeads(heads, stream) ==> TopOf(TopAfter(top, heads), stream) == TopOf(top, stream)
    ensures !InHeads(heads, stream) ==> (stream in TopAfter(top, heads) <==> stream in top)
    ensures forall i | 0 <= i < |heads| && heads[i].stream == stream ::
              TopOf(TopAfter(top, heads), stream) == if heads[i].seqNo > TopOf(top, stream) then heads[i].seqNo else TopOf(top, stream)
  {
    if heads == [] {
    } else {
      var init, last := heads[..|heads| - 1], heads[|heads| - 1];
      TopOfHeads(top, init, stream);
      NotBefore(heads, |heads| - 1);
      assert heads[..|heads|] == heads;
      forall i | 0 <= i < |heads| && heads[i].stream == stream
        ensures TopOf(TopAfter(top, heads), stream) == if heads[i].seqNo > TopOf(top, stream) then heads[i].seqNo else TopOf(top, stream)
      {
        if i < |init| {
          assert init[i] == heads[i];
        }
      }
    }
  }

  lemma HeadCovered(n: nat, top: nat, known: bool, before: States, after: States, h: Flushed)
    requires n > 0 && Anchored(n, before, after, h)
    requires top <= h.seqNo || (known && h.stream in before && Bucket(top, n) <= Bucket(before[h.stream].lastSeq, n))
    ensures Bucket(if h.seqNo > top then h.seqNo else top, n) <= Bucket(after[h.stream].lastSeq, n)
  {
    BucketsOrder(top, h.seqNo, n);
  }

  lemma AllCovered(n: nat, top: map<string, nat>, before: States, after: States, heads: seq<Flushed>)
    requires n > 0 && DistinctStreams(heads)
    requires forall stream | !InHeads(heads, stream) :: SameState(before, after, stream)
    requires forall k | 0 <= k < |heads| :: Anchored(n, before, after, heads[k])
    ensures forall stream | IsCovered(top, before, stream, n) :: IsCovered(TopAfter(top, heads), after, stream, n)
    ensures forall h | h in heads && TopOf(top, h.stream) <= h.seqNo :: IsCovered(TopAfter(top, heads), after, h.stream, n)
  {
    forall stream | IsCovered(top, before, stream, n) ensures IsCovered(TopAfter(top, heads), after, stream, n) {
      TopOfHeads(top, heads, stream);
      if InHeads(heads, stream) {
        var k :| 0 <= k < |heads| && heads[k].stream == stream;
        HeadCovered(n, TopOf(top, stream), stream in top, before, after, heads[k]);
      } else {
        assert SameState(before, after, stream);
      }
    }
    forall h | h in heads && TopOf(top, h.stream) <= h.seqNo ensures IsCovered(TopAfter(top, heads), after, h.stream, n) {
      TopOfHeads(top, heads, h.stream);
      var k :| 0 <= k < |heads| && heads[k] == h;
      HeadCovered(n, TopOf(top, h.stream), false, before, after, h);
    }
  }

  /** The anchor bound: a covered stream has fewer than `n` rows above its last anchor. */
  lemma CoveredBound(n: nat, top: map<string, nat>, states: States, stream: string)
    requires n > 0 && stream in top && IsCovered(top, states, stream, n)
    ensures stream in states && top[stream] < states[stream].lastSeq + n
  {
    BucketsOrder(top[stream], states[stream].lastSeq, n);
  }

  lemma LastOfMore(heads: seq<ChainHead>, h: ChainHead)
    ensures forall stream :: LastAnchor(heads + [h], stream) == if stream == h.stream then Some(h) else LastAnchor(heads, stream)
  {
    assert (heads + [h])[..|heads|] == heads;
  }

  predicate IncreasingPerStream(heads: seq<ChainHead>) {
    forall i, j | 0 <= i < j < |heads| && heads[i].stream == heads[j].stream :: heads[i].seqNo < heads[j].seqNo
  }

  function LastAnchor(heads: seq<ChainHead>, stream: string): Option<ChainHead> {
    if heads == [] then None
    else if heads[|heads| - 1].stream == stream then Some(heads[|heads| - 1])
    else LastAnchor(heads[..|heads| - 1], stream)
  }

  predicate IsLastAnchor(heads: seq<ChainHead>, stream: string, st: AnchorState) {
    match LastAnchor(heads, stream)
    case None => false
    case Some(a) => a.seqNo == st.lastSeq && a.anchoredAt == st.lastDate
  }

  lemma {:induction false} LastAnchorIsOne(heads: seq<ChainHead>, stream: string)
    requires LastAnchor(heads, stream).Some?
    ensures LastAnchor(heads, stream).value in heads && LastAnchor(heads, stream).value.stream == stream
  {
    if heads[|heads| - 1].stream != stream {
      LastAnchorIsOne(heads[..|heads| - 1], stream);
    }
  }

  // ---------------------------------------------------------------------------
  // The rows flushed

  function RowOf(a: ChainHead): Flushed {
    Flushed(a.stream, a.seqNo, a.hash)
  }

  predicate AnchorsAreRows(published: seq<ChainHead>, flushed: seq<Flushed>) {
    forall a | a in published :: RowOf(a) in flushed
  }

  predicate BelowTop(flushed: seq<Flushed>, top: map<string, nat>) {
    forall f | f in flushed :: f.stream in top && f.seqNo <= top[f.stream]
  }

  lemma BelowInitOrLast(heads: seq<Flushed>, e: Flushed)
    requires heads != [] && Below(heads, e)
    ensures Below(heads[..|heads| - 1], e) || (heads[|heads| - 1].stream == e.stream && e.seqNo <= heads[|heads| - 1].seqNo)
  {
    var i :| 0 <= i < |heads| && heads[i].stream == e.stream && e.seqNo <= heads[i].seqNo;
    if i < |heads| - 1 {
      assert heads[..|heads| - 1][i] == heads[i];
    }
  }

  lemma {:induction false} TopGrows(top: map<string, nat>, heads: seq<Flushed>, e: Flushed)
    requires (e.stream in top && e.seqNo <= top[e.stream]) || Below(heads, e)
    ensures e.stream in TopAfter(top, heads) && e.seqNo <= TopAfter(top, heads)[e.stream]
  {
    if heads == [] {
    } else {
      var init, last := heads[..|heads| - 1], heads[|heads| - 1];
      if (e.stream in top && e.seqNo <= top[e.stream]) || Below(init, e) {
        TopGrows(top, init, e);
      } else {
        BelowInitOrLast(heads, e);
      }
    }
  }

  lemma FlushedBelowTop(flushed: seq<Flushed>, top: map<string, nat>, events: seq<Flushed>)
    requires BelowTop(flushed, top)
    ensures BelowTop(flushed + events, TopAfter(top, LastPerStream(events)))
  {
    LastPerStreamIs(events);
    forall f | f in flushed + events
      ensures f.stream in TopAfter(top, LastPerStream(events)) && f.seqNo <= TopAfter(top, LastPerStream(events))[f.stream]
    {
      TopGrows(top, LastPerStream(events), f);
    }
  }
}
