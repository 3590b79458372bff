/** Verifying rows as they are read back from the database (src/stores/lucid_store.ts): the hash was
    computed over the creation time as it was given, and a row read back has it normalised. */
module ReadBack {
  import opened JsonText
  import opened AuditTypes
  import opened HashChain
  import opened ChainVerify
  import opened EntryHash

  /** `iso` normalises a timestamp to ISO form and keeps what is not a date. */
  function ReadEvent(iso: string -> string, e: Event): Event {
    e.(createdAt := iso(e.createdAt))
  }

  function ReadRow(iso: string -> string, r: Row): Row {
    r.(ev := ReadEvent(iso, r.ev))
  }

  function ReadRows(iso: string -> string, rows: seq<Row>): (r: seq<Row>)
    ensures |r| == |rows| && forall i | 0 <= i < |rows| :: r[i] == ReadRow(iso, rows[i])
  {
    seq(|rows|, i requires 0 <= i < |rows| => ReadRow(iso, rows[i]))
  }

  /** The entry's hashed text and that of the entry read back differ and have one digest. */
  predicate ReadCollides(sha: Sha, iso: string -> string, e: Event, n: int, p: Hash) {
    var x, y := CanonicalJson(PickHashedFields(e, n, p)), CanonicalJson(PickHashedFields(ReadEvent(iso, e), n, p));
    x.Success? && y.Success? && x.value != y.value && sha(x.value) == sha(y.value)
  }

  /** An entry has the same hash after it was read back if and only if its creation time was in
      normal form, or SHA-256 collides on it. */
  lemma SameHashIff(sha: Sha, iso: string -> string, e: Event, n: int, p: Hash)
    requires HashEntry(sha, e, n, p).Some?
    ensures HashEntry(sha, ReadEvent(iso, e), n, p) == HashEntry(sha, e, n, p) <==>
            iso(e.createdAt) == e.createdAt || ReadCollides(sha, iso, e, n, p)
  {
    var e' := ReadEvent(iso, e);
    if iso(e.createdAt) == e.createdAt {
      assert e' == e;
    } else if CanonicalJson(PickHashedFields(e', n, p)).Success? {
      HashedTextDetermines(e, n, p, e', n, p);
      assert !SameHashed(e, n, p, e', n, p);
    }
  }

  lemma ReadFollows(hash: HashFn, iso: string -> string, rows: seq<Row>, i: nat, n0: nat, h0: Hash)
    requires i < |rows| && Follows(hash, rows, i, n0, h0)
    ensures Follows(hash, ReadRows(iso, rows), i, n0, h0) <==>
            hash(ReadEvent(iso, rows[i].ev), rows[i].seqNo, PrevOf(rows, i, h0)) == hash(rows[i].ev, rows[i].seqNo, PrevOf(rows, i, h0))
  {
    var read := ReadRows(iso, rows);
    assert read[i] == ReadRow(iso, rows[i]);
    assert i > 0 ==> read[i - 1] == ReadRow(iso, rows[i - 1]);
    assert PrevOf(read, i, h0) == PrevOf(rows, i, h0);
  }

  /** Row `i` is read back as it was hashed, or SHA-256 collides on it. */
  predicate KeptAt(sha: Sha, iso: string -> string, rows: seq<Row>, h0: Hash, i: nat)
    requires i < |rows|
  {
    || iso(rows[i].ev.createdAt) == rows[i].ev.createdAt
    || ReadCollides(sha, iso, rows[i].ev, rows[i].seqNo, PrevOf(rows, i, h0))
  }

  lemma ReadAt(sha: Sha, iso: string -> string, rows: seq<Row>, n0: nat, h0: Hash, i: nat)
    requires i < |rows| && Follows(EntryHashFn(sha), rows, i, n0, h0)
    ensures Follows(EntryHashFn(sha), ReadRows(iso, rows), i, n0, h0) <==> KeptAt(sha, iso, rows, h0, i)
  {
    ReadFollows(EntryHashFn(sha), iso, rows, i, n0, h0);
    SameHashIff(sha, iso, rows[i].ev, rows[i].seqNo, PrevOf(rows, i, h0));
  }

  /** A chain as it was written is accepted when it is read back if and only if every creation time
      was in normal form, or SHA-256 collides on a row for which it was not. An event that came
      through the outbox with another form of its time is reported invalid, untouched. */
  lemma {:induction false} ReadBackVerifiesIff(sha: Sha, iso: string -> string, rows: seq<Row>, n0: nat, h0: Hash, own: bool)
    requires Continues(EntryHashFn(sha), rows, n0, h0)
    ensures Accepts(ScanAll(EntryHashFn(sha), ReadRows(iso, rows), StartScan(n0, h0), own)) <==>
            forall i: nat | i < |rows| :: KeptAt(sha, iso, rows, h0, i)
  {
    var read := ReadRows(iso, rows);
    AcceptsIff(EntryHashFn(sha), read, StartScan(n0, h0), own);
    forall i: nat | i < |rows| ensures Follows(EntryHashFn(sha), read, i, n0, h0) <==> KeptAt(sha, iso, rows, h0, i) {
      assert Follows(EntryHashFn(sha), rows, i, n0, h0);
      ReadAt(sha, iso, rows, n0, h0, i);
    }
  }
}
