/** What a verified chain is evidence of. No property of SHA-256 is assumed: where two trails could
    differ unnoticed, the lemmas name a row of each whose hashed texts differ and have one digest. */
module TamperEvidence {
  import opened Wrappers
  import opened Json
  import opened JsonText
  import opened AuditTypes
  import opened HashChain
  import opened ChainVerify
  import opened EntryHash

  /** A relation between entries: event, number and predecessor's hash of each. */
  type Agreement = (Event, int, Hash, Event, int, Hash) -> bool

  /** Related entries have one number and one predecessor. */
  ghost predicate Linking(agree: Agreement) {
    forall e, n, p, e', n', p' | agree(e, n, p, e', n', p') :: n == n' && p == p'
  }

  // Both trails start after one place of a stream, the row with number `n0` and hash `h0`: the
  // beginning, or the last pruned row.

  /** Row `i` of one trail and row `j` of the other are related. */
  predicate AgreeAt(agree: Agreement, h0: Hash, a: seq<Row>, b: seq<Row>, i: nat, j: nat)
    requires i < |a| && j < |b|
  {
    agree(a[i].ev, a[i].seqNo, PrevOf(a, i, h0), b[j].ev, b[j].seqNo, PrevOf(b, j, h0))
  }

  /** Row `i` of one trail and row `j` of the other have one hash and are not related. */
  predicate Confused(hash: HashFn, agree: Agreement, h0: Hash, a: seq<Row>, b: seq<Row>, i: nat, j: nat) {
    && i < |a| && j < |b|
    && hash(a[i].ev, a[i].seqNo, PrevOf(a, i, h0)).Some?
    && hash(a[i].ev, a[i].seqNo, PrevOf(a, i, h0)) == hash(b[j].ev, b[j].seqNo, PrevOf(b, j, h0))
    && !AgreeAt(agree, h0, a, b, i, j)
  }

  /** The two sequences are one trail: equally long, and related row by row. */
  ghost predicate OneTrail(agree: Agreement, h0: Hash, a: seq<Row>, b: seq<Row>) {
    |a| == |b| && forall i: nat | i < |a| :: AgreeAt(agree, h0, a, b, i, i)
  }

  ghost predicate SomeConfused(hash: HashFn, agree: Agreement, h0: Hash, a: seq<Row>, b: seq<Row>) {
    exists i: nat, j: nat :: Confused(hash, agree, h0, a, b, i, j)
  }

  /** Two chains after one place that end in the same hash are one trail, or a row of one has
      the hash of an unrelated row of the other. */
  lemma {:induction false} ChainsAgree(hash: HashFn, agree: Agreement, n0: nat, h0: Hash, a: seq<Row>, b: seq<Row>)
    requires Linking(agree)
    requires Continues(hash, a, n0, h0) && Continues(hash, b, n0, h0)
    requires a != [] && b != [] && a[|a| - 1].hash == b[|b| - 1].hash
    ensures OneTrail(agree, h0, a, b) || SomeConfused(hash, agree, h0, a, b)
  {
    var i, j := |a| - 1, |b| - 1;
    assert Follows(hash, a, i, n0, h0) && Follows(hash, b, j, n0, h0);
    if !AgreeAt(agree, h0, a, b, i, j) {
      assert Confused(hash, agree, h0, a, b, i, j);
    } else if i > 0 {
      var a', b' := a[..i], b[..i];
      assert a == a' + [a[i]] && b == b' + [b[i]];
      ContinuesConcat(hash, a', [a[i]], n0, h0, n0 + i, PrevOf(a', i, h0));
      ContinuesConcat(hash, b', [b[i]], n0, h0, n0 + i, PrevOf(b', i, h0));
      ChainsAgree(hash, agree, n0, h0, a', b');
      OneMoreRow(hash, agree, h0, a, b);
    }
  }

  lemma OneMoreRow(hash: HashFn, agree: Agreement, h0: Hash, a: seq<Row>, b: seq<Row>)
    requires |a| == |b| > 1 && AgreeAt(agree, h0, a, b, |a| - 1, |a| - 1)
    requires OneTrail(agree, h0, a[..|a| - 1], b[..|a| - 1]) || SomeConfused(hash, agree, h0, a[..|a| - 1], b[..|a| - 1])
    ensures OneTrail(agree, h0, a, b) || SomeConfused(hash, agree, h0, a, b)
  {
    var a', b' := a[..|a| - 1], b[..|a| - 1];
    if i: nat, j: nat :| Confused(hash, agree, h0, a', b', i, j) {
      assert Confused(hash, agree, h0, a, b, i, j);
    } else {
      forall k: nat | k < |a| ensures AgreeAt(agree, h0, a, b, k, k) {
        if k < |a| - 1 {
          assert AgreeAt(agree, h0, a', b', k, k);
        }
      }
    }
  }

  /** The text under the hash of row `i`. */
  function HashedText(h0: Hash, rows: seq<Row>, i: nat): Result<string, CanonicalError>
    requires i < |rows|
  {
    CanonicalJson(PickHashedFields(rows[i].ev, rows[i].seqNo, PrevOf(rows, i, h0)))
  }

  /** The hashed texts of row `i` of one trail and row `j` of the other differ and have one digest. */
  predicate Collide(sha: Sha, h0: Hash, a: seq<Row>, b: seq<Row>, i: nat, j: nat) {
    && i < |a| && j < |b|
    && HashedText(h0, a, i).Success? && HashedText(h0, b, j).Success?
    && HashedText(h0, a, i).value != HashedText(h0, b, j).value
    && sha(HashedText(h0, a, i).value) == sha(HashedText(h0, b, j).value)
  }

  /** A row of one trail and a row of the other are a collision of SHA-256. */
  ghost predicate Collision(sha: Sha, h0: Hash, a: seq<Row>, b: seq<Row>) {
    exists i: nat, j: nat :: Collide(sha, h0, a, b, i, j)
  }

  lemma ConfusedCollide(sha: Sha, h0: Hash, a: seq<Row>, b: seq<Row>, i: nat, j: nat)
    requires Confused(EntryHashFn(sha), SameHashed, h0, a, b, i, j)
    ensures Collide(sha, h0, a, b, i, j)
  {
    HashedTextDetermines(a[i].ev, a[i].seqNo, PrevOf(a, i, h0), b[j].ev, b[j].seqNo, PrevOf(b, j, h0));
  }

  lemma AcceptedTrailsAgree(hash: HashFn, agree: Agreement, n0: nat, h0: Hash, a: seq<Row>, b: seq<Row>, own: bool)
    requires Linking(agree)
    requires Accepts(ScanAll(hash, a, StartScan(n0, h0), own))
    requires Accepts(ScanAll(hash, b, StartScan(n0, h0), own))
    requires a != [] && b != [] && a[|a| - 1].hash == b[|b| - 1].hash
    ensures OneTrail(agree, h0, a, b) || SomeConfused(hash, agree, h0, a, b)
  {
    AcceptsIff(hash, a, StartScan(n0, h0), own);
    AcceptsIff(hash, b, StartScan(n0, h0), own);
    ChainsAgree(hash, agree, n0, h0, a, b);
  }

  lemma SomeConfusedCollide(sha: Sha, h0: Hash, a: seq<Row>, b: seq<Row>)
    requires SomeConfused(EntryHashFn(sha), SameHashed, h0, a, b)
    ensures Collision(sha, h0, a, b)
  {
    var i: nat, j: nat :| Confused(EntryHashFn(sha), SameHashed, h0, a, b, i, j);
    ConfusedCollide(sha, h0, a, b, i, j);
  }

  lemma SameHashedLinks()
    ensures Linking(SameHashed)
  {
  }

  lemma EntryTrailsAgree(sha: Sha, n0: nat, h0: Hash, a: seq<Row>, b: seq<Row>, own: bool)
    requires Accepts(ScanAll(EntryHashFn(sha), a, StartScan(n0, h0), own))
    requires Accepts(ScanAll(EntryHashFn(sha), b, StartScan(n0, h0), own))
    requires a != [] && b != [] && a[|a| - 1].hash == b[|b| - 1].hash
    ensures OneTrail(SameHashed, h0, a, b) || SomeConfused(EntryHashFn(sha), SameHashed, h0, a, b)
  {
    SameHashedLinks();
    AcceptedTrailsAgree(EntryHashFn(sha), SameHashed, n0, h0, a, b, own);
  }

  /** Tamper evidence. Two row sequences of one stream that verification accepts throughout from one
      start and that end in one hash are the same trail, equally long and equal in every hashed field of every row;
      or one row of each is a collision of SHA-256. */
  lemma {:induction false} VerifiedTrailsAgree(sha: Sha, n0: nat, h0: Hash, a: seq<Row>, b: seq<Row>, own: bool)
    requires Accepts(ScanAll(EntryHashFn(sha), a, StartScan(n0, h0), own))
    requires Accepts(ScanAll(EntryHashFn(sha), b, StartScan(n0, h0), own))
    requires a != [] && b != [] && a[|a| - 1].hash == b[|b| - 1].hash
    ensures OneTrail(SameHashed, h0, a, b) || Collision(sha, h0, a, b)
  {
    EntryTrailsAgree(sha, n0, h0, a, b, own);
    if SomeConfused(EntryHashFn(sha), SameHashed, h0, a, b) {
      SomeConfusedCollide(sha, h0, a, b);
    }
  }

  /** Putting another row in the place of one row of a verified trail is noticed, whether or not its
      hash was computed anew, as long as the trail still ends in the same hash: if verification
      accepts every row, then the row has the fields it had, up to JSON equality, or two rows are a
      collision of SHA-256. */
  lemma {:induction false} ModificationDetected(sha: Sha, n0: nat, h0: Hash, rows: seq<Row>, k: nat, forged: Row, own: bool)
    requires k < |rows| && (k < |rows| - 1 || forged.hash == rows[k].hash)
    requires Accepts(ScanAll(EntryHashFn(sha), rows, StartScan(n0, h0), own))
    requires Accepts(ScanAll(EntryHashFn(sha), rows[k := forged], StartScan(n0, h0), own))
    ensures AgreeAt(SameHashed, h0, rows[k := forged], rows, k, k) || Collision(sha, h0, rows[k := forged], rows)
  {
    var forgery := rows[k := forged];
    assert forgery[|forgery| - 1].hash == rows[|rows| - 1].hash;
    VerifiedTrailsAgree(sha, n0, h0, forgery, rows, own);
  }
}
