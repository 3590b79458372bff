/** Checking a trail against its anchors (commands/audit_verify.ts), and what that proves. */
module AnchorEvidence {
  import opened Wrappers
  import opened AuditTypes
  import opened HashChain
  import opened ChainVerify
  import opened EntryHash
  import opened TamperEvidence
  import opened Anchor

  /** The store's lookup of the hash at a number. */
  type Resolver = nat -> Option<Hash>

  predicate Holds(a: ChainHead, resolve: Resolver) {
    resolve(a.seqNo) == Some(a.hash)
  }

  /** The anchors of the stream, by number. */
  function Insert(anchors: seq<ChainHead>, a: ChainHead): seq<ChainHead> {
    if anchors == [] || anchors[|anchors| - 1].seqNo <= a.seqNo then anchors + [a]
    else Insert(anchors[..|anchors| - 1], a) + [anchors[|anchors| - 1]]
  }

  function AnchorsOf(file: seq<ChainHead>, stream: string): seq<ChainHead> {
    if file == [] then []
    else
      var a := file[|file| - 1];
      var before := AnchorsOf(file[..|file| - 1], stream);
      if a.stream == stream then Insert(before, a) else before
  }

  lemma {:induction false} InsertHas(anchors: seq<ChainHead>, a: ChainHead, x: ChainHead)
    ensures x in Insert(anchors, a) <==> x in anchors || x == a
  {
    if anchors != [] && anchors[|anchors| - 1].seqNo > a.seqNo {
      InsertHas(anchors[..|anchors| - 1], a, x);
      assert anchors == anchors[..|anchors| - 1] + [anchors[|anchors| - 1]];
    }
  }

  lemma {:induction false} AnchorsOfHas(file: seq<ChainHead>, stream: string, x: ChainHead)
    ensures x in AnchorsOf(file, stream) <==> x in file && x.stream == stream
  {
    if file == [] {
    } else {
      var init, a := file[..|file| - 1], file[|file| - 1];
      AnchorsOfHas(init, stream, x);
      assert file == init + [a];
      if a.stream == stream {
        InsertHas(AnchorsOf(init, stream), a, x);
      }
    }
  }

  /** What passing the check means: there is no anchors file or no anchor of the stream in it, or the
      store can look up hashes and every anchor of the stream has the hash found at its number. */
  predicate Passes(file: Option<seq<ChainHead>>, stream: string, resolver: Option<Resolver>) {
    || file.None?
    || (forall a | a in file.value :: a.stream != stream)
    || (resolver.Some? && forall a | a in file.value && a.stream == stream :: Holds(a, resolver.value))
  }

  /** The check of one stream. */
  method VerifyAnchor(file: Option<seq<ChainHead>>, stream: string, resolver: Option<Resolver>) returns (ok: bool)
    ensures ok <==> Passes(file, stream, resolver)
  {
    if file.None? {
      return true;
    }
    var anchors := AnchorsOf(file.value, stream);
    forall a ensures a in anchors <==> a in file.value && a.stream == stream {
      AnchorsOfHas(file.value, stream, a);
    }
    if |anchors| == 0 {
      assert forall a | a in file.value && a.stream == stream :: a in anchors;
      return true;
    }
    assert anchors[0] in anchors;
    if resolver.None? {
      return false;
    }
    for i := 0 to |anchors|
      invariant forall k | 0 <= k < i :: Holds(anchors[k], resolver.value)
    {
      var hash := resolver.value(anchors[i].seqNo);
      if hash.None? || hash.value != anchors[i].hash {
        assert anchors[i] in anchors && !Holds(anchors[i], resolver.value);
        return false;
      }
    }
    return true;
  }

  // ---------------------------------------------------------------------------
  // What an anchored trail that passes has lost

  /** The hash of the row with the number, in a trail that starts with number 1. */
  function ResolveIn(rows: seq<Row>): Resolver {
    n => if 1 <= n <= |rows| && rows[n - 1].seqNo == n then Some(rows[n - 1].hash) else None
  }

  lemma PrefixContinues(hash: HashFn, rows: seq<Row>, n: nat)
    requires Continues(hash, rows, 0, GENESIS) && n <= |rows|
    ensures Continues(hash, rows[..n], 0, GENESIS)
  {
    SliceContinues(hash, rows, 0, n);
    assert rows[0..n] == rows[..n];
  }

  lemma {:induction false} AnchoredPrefix(sha: Sha, full: seq<Row>, rows: seq<Row>, n: nat, own: bool)
    requires Continues(EntryHashFn(sha), full, 0, GENESIS) && Continues(EntryHashFn(sha), rows, 0, GENESIS)
    requires 1 <= n <= |full| && n <= |rows| && rows[n - 1].hash == full[n - 1].hash
    ensures OneTrail(SameHashed, GENESIS, rows[..n], full[..n]) || Collision(sha, GENESIS, rows[..n], full[..n])
  {
    var hash := EntryHashFn(sha);
    PrefixContinues(hash, full, n);
    PrefixContinues(hash, rows, n);
    AcceptsIff(hash, full[..n], StartScan(0, GENESIS), own);
    AcceptsIff(hash, rows[..n], StartScan(0, GENESIS), own);
    VerifiedTrailsAgree(sha, 0, GENESIS, rows[..n], full[..n], own);
  }

  lemma {:induction false} VerifiedPrefix(sha: Sha, full: seq<Row>, rows: seq<Row>, n: nat, own: bool)
    requires Continues(EntryHashFn(sha), full, 0, GENESIS)
    requires Accepts(ScanAll(EntryHashFn(sha), rows, StartScan(0, GENESIS), own))
    requires 1 <= n <= |full| && n <= |rows| && rows[n - 1].hash == full[n - 1].hash
    ensures OneTrail(SameHashed, GENESIS, rows[..n], full[..n]) || Collision(sha, GENESIS, rows[..n], full[..n])
  {
    AcceptsIff(EntryHashFn(sha), rows, StartScan(0, GENESIS), own);
    AnchoredPrefix(sha, full, rows, n, own);
  }

  /** The rows flushed of the stream are rows of `full`, the last among them. Older rows may have been
      flushed by earlier processes or by others. */
  ghost predicate FlushedUpTo(flushed: seq<Flushed>, stream: string, full: seq<Row>) {
    && (forall f | f in flushed && f.stream == stream :: 1 <= f.seqNo <= |full| && f.hash == full[f.seqNo - 1].hash)
    && (full != [] ==> IsFlushed(flushed, stream, full[|full| - 1]))
  }

  predicate IsFlushed(flushed: seq<Flushed>, stream: string, r: Row) {
    Flushed(stream, r.seqNo, r.hash) in flushed
  }

  /** What the service guarantees about the last anchor of a covered stream: it is published, it is
      the hash of its row, and fewer rows than the interval are above it. */
  lemma LastAnchorOf(service: AnchorService, stream: string, full: seq<Row>) returns (anchor: ChainHead)
    requires service.Valid() && service.every.Rows? && service.Covered(stream)
    requires FlushedUpTo(service.flushed, stream, full)
    requires full != [] && full[|full| - 1].seqNo == |full|
    ensures anchor in service.published && anchor.stream == stream
    ensures 1 <= anchor.seqNo <= |full| < anchor.seqNo + service.every.n && anchor.hash == full[anchor.seqNo - 1].hash
  {
    assert IsFlushed(service.flushed, stream, full[|full| - 1]);
    CoveredBound(service.every.n, service.top, service.state, stream);
    assert IsLastAnchor(service.published, stream, service.state[stream]);
    anchor := LastAnchor(service.published, stream).value;
    LastAnchorIsOne(service.published, stream);
    assert RowOf(anchor) in service.flushed;
  }

  /** An anchor of the stream that passes is a row of the trail. */
  lemma PassedIsThere(file: seq<ChainHead>, stream: string, rows: seq<Row>, anchor: ChainHead)
    requires Passes(Some(file), stream, Some(ResolveIn(rows))) && anchor in file && anchor.stream == stream
    ensures 1 <= anchor.seqNo <= |rows| && rows[anchor.seqNo - 1].hash == anchor.hash
  {
    assert Holds(anchor, ResolveIn(rows));
  }

  lemma AnchorIsThere(service: AnchorService, file: seq<ChainHead>, stream: string, full: seq<Row>, rows: seq<Row>)
      returns (k: nat)
    requires service.Valid() && service.every.Rows? && service.Covered(stream)
    requires forall a | a in service.published :: a in file
    requires full != [] && full[|full| - 1].seqNo == |full| && FlushedUpTo(service.flushed, stream, full)
    requires Passes(Some(file), stream, Some(ResolveIn(rows)))
    ensures 1 <= k <= |full| < k + service.every.n && k <= |rows| && rows[k - 1].hash == full[k - 1].hash
  {
    var anchor := LastAnchorOf(service, stream, full);
    PassedIsThere(file, stream, rows, anchor);
    k := anchor.seqNo;
  }

  lemma {:induction false} LastNumber(hash: HashFn, full: seq<Row>)
    requires full != [] && Continues(hash, full, 0, GENESIS)
    ensures full[|full| - 1].seqNo == |full|
  {
    assert Follows(hash, full, |full| - 1, 0, GENESIS);
  }

  /** The anchor bound, for a stream with the true rows `full` of which the newest was flushed to a
      service with an interval in rows that keeps the stream covered, and a file that has every anchor
      this service published. Rows and anchors of earlier processes are welcome. A trail that passes
      verification and the check of its anchors has lost fewer rows than the interval, and only newest
      ones: up to the last anchor it is the true trail in every hashed field, or a row of each is a
      collision of SHA-256. */
  lemma {:induction false} AnchoredTrail(
      sha: Sha, service: AnchorService, file: seq<ChainHead>, stream: string, full: seq<Row>, rows: seq<Row>, own: bool)
      returns (k: nat)
    requires service.Valid() && service.every.Rows? && service.Covered(stream)
    requires forall a | a in service.published :: a in file
    requires full != [] && Continues(EntryHashFn(sha), full, 0, GENESIS) && FlushedUpTo(service.flushed, stream, full)
    requires Accepts(ScanAll(EntryHashFn(sha), rows, StartScan(0, GENESIS), own))
    requires Passes(Some(file), stream, Some(ResolveIn(rows)))
    ensures k <= |full| < k + service.every.n && k <= |rows|
    ensures OneTrail(SameHashed, GENESIS, rows[..k], full[..k]) || Collision(sha, GENESIS, rows[..k], full[..k])
  {
    LastNumber(EntryHashFn(sha), full);
    k := AnchorIsThere(service, file, stream, full, rows);
    VerifiedPrefix(sha, full, rows, k, own);
  }
}
