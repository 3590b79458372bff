/** Chaining a batch onto a stream and verifying chains (src/core/hash_chain.ts), for any
    function that hashes an entry. */
module HashChain {
  import opened Wrappers
  import opened AuditTypes

  function Zeros(n: nat): string {
    if n == 0 then [] else ['0'] + Zeros(n - 1)
  }

  /** The hash the first row of a stream is chained to. */
  const GENESIS: Hash := Zeros(64)

  lemma {:induction false} ZerosAre(n: nat)
    ensures |Zeros(n)| == n && forall i | 0 <= i < n :: Zeros(n)[i] == '0'
  {
    if n == 0 {
    } else {
      ZerosAre(n - 1);
    }
  }

  /** The genesis hash has the length of a digest in hexadecimal and is all zeros. */
  lemma GenesisIs()
    ensures |GENESIS| == 64 && forall i | 0 <= i < 64 :: GENESIS[i] == '0'
  {
    ZerosAre(64);
  }

  // ---------------------------------------------------------------------------
  // What a chain is

  /** The hash row `i` is chained to. */
  function PrevOf(rows: seq<Row>, i: nat, h0: Hash): Hash
    requires i <= |rows|
  {
    if i == 0 then h0 else rows[i - 1].hash
  }

  /** Row `i` has the next sequence number and the hash of its event there. */
  predicate Follows(hash: HashFn, rows: seq<Row>, i: nat, n0: nat, h0: Hash)
    requires i < |rows|
  {
    && rows[i].seqNo == n0 + 1 + i
    && hash(rows[i].ev, rows[i].seqNo, PrevOf(rows, i, h0)) == Some(rows[i].hash)
  }

  /** The rows continue a stream whose last row is number `n0` with hash `h0`. */
  ghost predicate Continues(hash: HashFn, rows: seq<Row>, n0: nat, h0: Hash) {
    forall i: nat | i < |rows| :: Follows(hash, rows, i, n0, h0)
  }

  /** Row `i` stores the hash of its predecessor. */
  predicate Stores(rows: seq<Row>, i: nat, h0: Hash)
    requires i < |rows|
  {
    rows[i].prevHash == PrevOf(rows, i, h0)
  }

  /** Every row stores the hash of its predecessor. */
  ghost predicate StoresPrev(rows: seq<Row>, h0: Hash) {
    forall i: nat | i < |rows| :: Stores(rows, i, h0)
  }

  /** A gapless chain after (`n0`, `h0`). */
  ghost predicate IsChain(hash: HashFn, rows: seq<Row>, n0: nat, h0: Hash) {
    Continues(hash, rows, n0, h0) && StoresPrev(rows, h0)
  }

  lemma InLeft(hash: HashFn, a: seq<Row>, b: seq<Row>, i: nat, n0: nat, h0: Hash)
    requires i < |a|
    ensures Follows(hash, a + b, i, n0, h0) == Follows(hash, a, i, n0, h0)
    ensures Stores(a + b, i, h0) == Stores(a, i, h0)
  {
  }

  lemma InRight(hash: HashFn, a: seq<Row>, b: seq<Row>, i: nat, n0: nat, h0: Hash, n1: nat, h1: Hash)
    requires |a| <= i < |a| + |b|
    requires n1 == n0 + |a| && h1 == PrevOf(a, |a|, h0)
    ensures Follows(hash, a + b, i, n0, h0) == Follows(hash, b, i - |a|, n1, h1)
    ensures Stores(a + b, i, h0) == Stores(b, i - |a|, h1)
  {
    assert PrevOf(a + b, i, h0) == PrevOf(b, i - |a|, h1);
  }

  /** A chain splits into a chain and a chain after it. */
  lemma ContinuesConcat(hash: HashFn, a: seq<Row>, b: seq<Row>, n0: nat, h0: Hash, n1: nat, h1: Hash)
    requires n1 == n0 + |a| && h1 == PrevOf(a, |a|, h0)
    ensures Continues(hash, a + b, n0, h0) <==> Continues(hash, a, n0, h0) && Continues(hash, b, n1, h1)
  {
    if Continues(hash, a + b, n0, h0) {
      forall i: nat | i < |a| ensures Follows(hash, a, i, n0, h0) {
        InLeft(hash, a, b, i, n0, h0);
      }
      forall i: nat | i < |b| ensures Follows(hash, b, i, n1, h1) {
        InRight(hash, a, b, |a| + i, n0, h0, n1, h1);
      }
    }
    if Continues(hash, a, n0, h0) && Continues(hash, b, n1, h1) {
      forall i: nat | i < |a + b| ensures Follows(hash, a + b, i, n0, h0) {
        if i < |a| {
          InLeft(hash, a, b, i, n0, h0);
        } else {
          InRight(hash, a, b, i, n0, h0, n1, h1);
        }
      }
    }
  }

  lemma StoresPrevConcat(hash: HashFn, a: seq<Row>, b: seq<Row>, n0: nat, h0: Hash, n1: nat, h1: Hash)
    requires n1 == n0 + |a| && h1 == PrevOf(a, |a|, h0)
    ensures StoresPrev(a + b, h0) <==> StoresPrev(a, h0) && StoresPrev(b, h1)
  {
    if StoresPrev(a + b, h0) {
      forall i: nat | i < |a| ensures Stores(a, i, h0) {
        InLeft(hash, a, b, i, n0, h0);
      }
      forall i: nat | i < |b| ensures Stores(b, i, h1) {
        InRight(hash, a, b, |a| + i, n0, h0, n1, h1);
      }
    }
    if StoresPrev(a, h0) && StoresPrev(b, h1) {
      forall i: nat | i < |a + b| ensures Stores(a + b, i, h0) {
        if i < |a| {
          InLeft(hash, a, b, i, n0, h0);
        } else {
          InRight(hash, a, b, i, n0, h0, n1, h1);
        }
      }
    }
  }

  lemma ChainConcat(hash: HashFn, a: seq<Row>, b: seq<Row>, n0: nat, h0: Hash)
    ensures IsChain(hash, a + b, n0, h0) <==>
            IsChain(hash, a, n0, h0) && IsChain(hash, b, n0 + |a|, PrevOf(a, |a|, h0))
  {
    ContinuesConcat(hash, a, b, n0, h0, n0 + |a|, PrevOf(a, |a|, h0));
    StoresPrevConcat(hash, a, b, n0, h0, n0 + |a|, PrevOf(a, |a|, h0));
  }

  // ---------------------------------------------------------------------------
  // chainBatch

  function HeadSeq(head: Option<Head>): nat {
    if head.Some? then head.value.seqNo else 0
  }

  function HeadHash(head: Option<Head>): Hash {
    if head.Some? then head.value.hash else GENESIS
  }

  /** The rows that chain the batch after (`n0`, `h0`), or None where hashing throws. */
  function ChainFrom(hash: HashFn, batch: seq<Event>, n0: nat, h0: Hash): Option<seq<Row>> {
    if batch == [] then Some([])
    else
      match hash(batch[0], n0 + 1, h0)
      case None => None
      case Some(h) =>
        match ChainFrom(hash, batch[1..], n0 + 1, h)
        case None => None
        case Some(rest) => Some([Row(batch[0], n0 + 1, h0, h)] + rest)
  }

  /** The events of the rows, in order. */
  function EventsOf(rows: seq<Row>): (es: seq<Event>)
    ensures |es| == |rows| && forall i | 0 <= i < |rows| :: es[i] == rows[i].ev
  {
    seq(|rows|, i requires 0 <= i < |rows| => rows[i].ev)
  }

  /** Putting one row before the rows that follow it. */
  lemma ContinuesCons(hash: HashFn, row: Row, rest: seq<Row>, n0: nat, h0: Hash)
    ensures Continues(hash, [row] + rest, n0, h0) <==>
            && row.seqNo == n0 + 1
            && hash(row.ev, n0 + 1, h0) == Some(row.hash)
            && Continues(hash, rest, n0 + 1, row.hash)
  {
    var first := [row];
    ContinuesConcat(hash, first, rest, n0, h0, n0 + 1, row.hash);
    assert Continues(hash, first, n0, h0) <==> Follows(hash, first, 0, n0, h0);
  }

  lemma ChainCons(hash: HashFn, row: Row, rest: seq<Row>, n0: nat, h0: Hash)
    ensures IsChain(hash, [row] + rest, n0, h0) <==>
            && row.seqNo == n0 + 1
            && row.prevHash == h0
            && hash(row.ev, n0 + 1, h0) == Some(row.hash)
            && IsChain(hash, rest, n0 + 1, row.hash)
  {
    var first := [row];
    ContinuesCons(hash, row, rest, n0, h0);
    StoresPrevConcat(hash, first, rest, n0, h0, n0 + 1, row.hash);
    assert StoresPrev(first, h0) <==> Stores(first, 0, h0);
  }

  /** The rows made from a batch are a chain over exactly its events, and the only one. */
  lemma {:induction false} ChainFromIs(hash: HashFn, batch: seq<Event>, n0: nat, h0: Hash, rows: seq<Row>)
    ensures ChainFrom(hash, batch, n0, h0) == Some(rows) <==> EventsOf(rows) == batch && IsChain(hash, rows, n0, h0)
  {
    if batch != [] && rows != [] {
      var row, rest := rows[0], rows[1..];
      assert rows == [row] + rest;
      ChainCons(hash, row, rest, n0, h0);
      ChainFromIs(hash, batch[1..], n0 + 1, row.hash, rest);
      EventsCons(row, rest, batch);
    }
  }

  lemma EventsCons(row: Row, rest: seq<Row>, batch: seq<Event>)
    requires batch != []
    ensures EventsOf([row] + rest) == batch <==> row.ev == batch[0] && EventsOf(rest) == batch[1..]
  {
    assert EventsOf([row] + rest) == [row.ev] + EventsOf(rest);
    assert batch == [batch[0]] + batch[1..];
  }

  /** Chaining `a + b` is chaining `a` and then `b` after its new head. */
  lemma {:induction false} ChainFromConcat(hash: HashFn, a: seq<Event>, b: seq<Event>, n0: nat, h0: Hash)
    ensures ChainFrom(hash, a + b, n0, h0) == ThenChain(hash, ChainFrom(hash, a, n0, h0), b, n0, h0)
  {
    if a == [] {
      assert a + b == b;
      if ChainFrom(hash, b, n0, h0).Some? {
        assert [] + ChainFrom(hash, b, n0, h0).value == ChainFrom(hash, b, n0, h0).value;
      }
    } else {
      assert (a + b)[1..] == a[1..] + b;
      if hash(a[0], n0 + 1, h0).Some? {
        var h := hash(a[0], n0 + 1, h0).value;
        ChainFromConcat(hash, a[1..], b, n0 + 1, h);
        if ChainFrom(hash, a[1..], n0 + 1, h).Some? {
          ThenCons(hash, Row(a[0], n0 + 1, h0, h), ChainFrom(hash, a[1..], n0 + 1, h).value, b, n0, h0);
        }
      }
    }
  }

  /** Chaining more events after the rows already chained, if they were. */
  function ThenChain(hash: HashFn, first: Option<seq<Row>>, b: seq<Event>, n0: nat, h0: Hash): Option<seq<Row>> {
    if first.None? then None
    else
      var rows := first.value;
      match ChainFrom(hash, b, n0 + |rows|, PrevOf(rows, |rows|, h0))
      case None => None
      case Some(more) => Some(rows + more)
  }

  lemma ThenCons(hash: HashFn, row: Row, rest: seq<Row>, b: seq<Event>, n0: nat, h0: Hash)
    ensures ThenChain(hash, Some([row] + rest), b, n0, h0) ==
            match ThenChain(hash, Some(rest), b, n0 + 1, row.hash)
            case None => None
            case Some(rows) => Some([row] + rows)
  {
    var rows := [row] + rest;
    assert PrevOf(rows, |rows|, h0) == PrevOf(rest, |rest|, row.hash);
    match ChainFrom(hash, b, n0 + |rows|, PrevOf(rows, |rows|, h0))
    case None =>
    case Some(more) => assert rows + more == [row] + (rest + more);
  }

  /** Chaining one more event. */
  lemma ChainFromAppend(hash: HashFn, a: seq<Event>, e: Event, n0: nat, h0: Hash)
    requires ChainFrom(hash, a, n0, h0).Some?
    ensures var rows := ChainFrom(hash, a, n0, h0).value;
            var h := hash(e, n0 + |rows| + 1, PrevOf(rows, |rows|, h0));
            && (h.None? ==> ChainFrom(hash, a + [e], n0, h0).None?)
            && (h.Some? ==>
                  ChainFrom(hash, a + [e], n0, h0) ==
                  Some(rows + [Row(e, n0 + |rows| + 1, PrevOf(rows, |rows|, h0), h.value)]))
  {
    ChainFromConcat(hash, a, [e], n0, h0);
    var rows := ChainFrom(hash, a, n0, h0).value;
    ChainOne(hash, e, n0 + |rows|, PrevOf(rows, |rows|, h0));
  }

  lemma ChainOne(hash: HashFn, e: Event, n: nat, h: Hash)
    ensures ChainFrom(hash, [e], n, h) ==
            match hash(e, n + 1, h)
            case None => None
            case Some(next) => Some([Row(e, n + 1, h, next)])
  {
    assert [e][1..] == [];
    match hash(e, n + 1, h)
    case None =>
    case Some(next) => assert [Row(e, n + 1, h, next)] + [] == [Row(e, n + 1, h, next)];
  }

  /** Where hashing throws on a prefix it throws on the batch. */
  lemma ChainFromPrefix(hash: HashFn, batch: seq<Event>, i: nat, n0: nat, h0: Hash)
    requires i <= |batch|
    ensures ChainFrom(hash, batch[..i], n0, h0).None? ==> ChainFrom(hash, batch, n0, h0).None?
  {
    assert batch == batch[..i] + batch[i..];
    ChainFromConcat(hash, batch[..i], batch[i..], n0, h0);
  }

  /** `chainBatch` as the loop it is. */
  method ChainBatch(hash: HashFn, batch: seq<Event>, head: Option<Head>) returns (r: Option<seq<Row>>)
    ensures r == ChainFrom(hash, batch, HeadSeq(head), HeadHash(head))
    ensures r.Some? ==> EventsOf(r.value) == batch && IsChain(hash, r.value, HeadSeq(head), HeadHash(head))
  {
    ghost var n0, h0 := HeadSeq(head), HeadHash(head);
    var seqNo := if head.Some? then head.value.seqNo + 1 else 1;
    var prevHash := if head.Some? then head.value.hash else GENESIS;
    var chained: seq<Row> := [];
    for i := 0 to |batch|
      invariant |chained| == i && seqNo == n0 + 1 + i && prevHash == PrevOf(chained, i, h0)
      invariant ChainFrom(hash, batch[..i], n0, h0) == Some(chained)
    {
      var h := hash(batch[i], seqNo, prevHash);
      assert batch[..i + 1] == batch[..i] + [batch[i]];
      ChainFromAppend(hash, batch[..i], batch[i], n0, h0);
      if h.None? {
        ChainFromPrefix(hash, batch, i + 1, n0, h0);
        return None;
      }
      chained := chained + [Row(batch[i], seqNo, prevHash, h.value)];
      seqNo := seqNo + 1;
      prevHash := h.value;
    }
    assert batch[..|batch|] == batch;
    ChainFromIs(hash, batch, n0, h0, chained);
    return Some(chained);
  }
}
