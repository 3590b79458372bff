/** The stream store writing to a file (src/stores/stream_store.ts): serialised writes, heads per
    stream, and verification of a range of the rows read back. A batch is written as a whole. */
module StreamStore {
  import opened Wrappers
  import opened AuditTypes
  import opened HashChain
  import opened ChainVerify
  import opened Grouping
  import opened StreamHeads
  import H = HttpStore

  // ---------------------------------------------------------------------------
  // Reading a range back

  function InsertBySeq(rows: seq<Row>, r: Row): seq<Row> {
    if rows == [] || rows[|rows| - 1].seqNo <= r.seqNo then rows + [r]
    else InsertBySeq(rows[..|rows| - 1], r) + [rows[|rows| - 1]]
  }

  /** A stable sort by number. */
  function SortBySeq(rows: seq<Row>): seq<Row> {
    if rows == [] then [] else InsertBySeq(SortBySeq(rows[..|rows| - 1]), rows[|rows| - 1])
  }

  lemma {:induction false} SortedAlready(rows: seq<Row>)
    requires Ascending(rows)
    ensures SortBySeq(rows) == rows
  {
    if rows == [] {
    } else {
      SortedAlready(rows[..|rows| - 1]);
      assert rows == rows[..|rows| - 1] + [rows[|rows| - 1]];
    }
  }

  /** The rows of the stream in the file with numbers in the range, by number. */
  function ReadRange(file: seq<Row>, stream: string, fromSeq: Option<int>, toSeq: Option<int>): seq<Row> {
    SortBySeq(H.SelectRange(RowsOf(file, stream), fromSeq, toSeq).filtered)
  }

  predicate Accepted(v: Verdicts) {
    v.completed && AllValid(v.reports)
  }

  /** `verifyChain` over rows of one stream is one pass over them. */
  lemma {:induction false} OneStreamOnePass(hash: HashFn, rows: seq<Row>, states: map<string, Scan>, stream: string)
    requires OfStream(rows, stream)
    ensures var pass := ScanAll(hash, rows, StateOf(states, stream), false);
            VerifyAll(hash, rows, states) == Verdicts(pass.reports, pass.completed)
  {
    if rows == [] {
    } else {
      match ScanRow(hash, rows[0], StateOf(states, stream), false)
      case None =>
      case Some(step) => OneStreamOnePass(hash, rows[1..], states[stream := step.1], stream);
    }
  }

  lemma SliceOfStream(full: seq<Row>, i: nat, j: nat, stream: string)
    requires OfStream(full, stream) && Numbered(full) && i <= j <= |full|
    ensures OfStream(full[i..j], stream) && Ascending(full[i..j])
  {
    forall x, y | 0 <= x < y < j - i ensures full[i..j][x].seqNo < full[i..j][y].seqNo {
      assert NumberedAt(full, i + x) && NumberedAt(full, i + y);
    }
  }

  lemma FirstOfSlice(hash: HashFn, full: seq<Row>, i: nat, j: nat)
    requires Continues(hash, full, 0, GENESIS) && i < j <= |full|
    ensures Continues(hash, full[i..j], 0, GENESIS) <==> i == 0
  {
    SliceContinues(hash, full, i, j);
    assert Follows(hash, full, i, 0, GENESIS);
    if Continues(hash, full[i..j], 0, GENESIS) {
      assert Follows(hash, full[i..j], 0, 0, GENESIS);
    }
  }

  lemma {:induction false} SelectedInRange(rows: seq<Row>, fromSeq: Option<int>, toSeq: Option<int>)
    ensures var sel := H.SelectRange(rows, fromSeq, toSeq);
            && (forall i | 0 <= i < |sel.filtered| :: H.InRange(sel.filtered[i], fromSeq, toSeq))
            && (sel.previous.Some? ==> !H.InRange(sel.previous.value, fromSeq, toSeq))
  {
    if rows == [] {
    } else {
      SelectedInRange(rows[..|rows| - 1], fromSeq, toSeq);
    }
  }

  /** A range with rows in it starts with the first row if and only if it has no bound above 1. */
  lemma {:induction false} RangeStart(full: seq<Row>, i: nat, j: nat, fromSeq: Option<int>, toSeq: Option<int>)
    requires Numbered(full) && i < j <= |full|
    requires H.InRange(full[i], fromSeq, toSeq) && H.InRange(full[j - 1], fromSeq, toSeq)
    requires i > 0 ==> !H.InRange(full[i - 1], fromSeq, toSeq)
    ensures i == 0 <==> fromSeq.None? || fromSeq.value <= 1
  {
    assert NumberedAt(full, i) && NumberedAt(full, j - 1);
    if i > 0 {
      assert NumberedAt(full, i - 1);
    }
  }

  /** The rows in the range are a slice of the stream. */
  lemma {:induction false} RangeIsSlice(full: seq<Row>, fromSeq: Option<int>, toSeq: Option<int>) returns (i: nat, j: nat)
    requires Numbered(full) && H.SelectRange(full, fromSeq, toSeq).filtered != []
    ensures i < j <= |full| && H.SelectRange(full, fromSeq, toSeq).filtered == full[i..j]
    ensures H.InRange(full[i], fromSeq, toSeq) && H.InRange(full[j - 1], fromSeq, toSeq)
    ensures i > 0 ==> !H.InRange(full[i - 1], fromSeq, toSeq)
  {
    assert full[0..|full|] == full;
    i, j := H.SelectsARun(full, 0, |full|, fromSeq, toSeq);
    var sel := H.SelectRange(full, fromSeq, toSeq);
    SelectedInRange(full, fromSeq, toSeq);
    assert sel.filtered[0] == full[i] && sel.filtered[j - i - 1] == full[j - 1];
  }

  /** Verifying a range of a chain that has rows in it reports all of them valid if and only if the
      range has no lower bound above 1: the pass always starts from the genesis hash. */
  lemma {:induction false} RangeVerifiesIff(hash: HashFn, full: seq<Row>, stream: string, fromSeq: Option<int>, toSeq: Option<int>)
    requires IsChain(hash, full, 0, GENESIS) && OfStream(full, stream)
    requires H.SelectRange(full, fromSeq, toSeq).filtered != []
    ensures Accepted(VerifyAll(hash, SortBySeq(H.SelectRange(full, fromSeq, toSeq).filtered), map[])) <==>
            fromSeq.None? || fromSeq.value <= 1
  {
    ChainIsNumbered(hash, full);
    var i, j := RangeIsSlice(full, fromSeq, toSeq);
    RangeStart(full, i, j, fromSeq, toSeq);
    SliceVerifiesIff(hash, full, stream, i, j);
  }

  lemma {:induction false} TwoRows(hash: HashFn, batch: seq<Event>, file: seq<Row>, stream: string)
    requires |batch| == 2 && batch[0].stream == stream && batch[1].stream == stream
    requires ChainFrom(hash, batch, 0, GENESIS) == Some(file)
    ensures |file| == 2 && IsChain(hash, file, 0, GENESIS) && OfStream(file, stream)
    ensures file[0].seqNo == 1 && file[1].seqNo == 2
  {
    ChainFromIs(hash, batch, 0, GENESIS, file);
    assert EventsOf(file) == batch;
    assert |file| == 2;
    assert EventsOf(file)[0] == file[0].ev && EventsOf(file)[1] == file[1].ev;
    ChainIsNumbered(hash, file);
    assert NumberedAt(file, 0) && NumberedAt(file, 1);
  }

  /** Two events are written and the range from 2 is verified: the one row read back, untouched, is
      not accepted. */
  lemma {:induction false} RangeFromTwoFails(hash: HashFn, batch: seq<Event>, file: seq<Row>, stream: string)
    requires |batch| == 2 && batch[0].stream == stream && batch[1].stream == stream
    requires ChainFrom(hash, batch, 0, GENESIS) == Some(file)
    ensures |file| == 2 && ReadRange(file, stream, Some(2), None) == [file[1]]
    ensures !Accepted(VerifyAll(hash, [file[1]], map[]))
  {
    TwoRows(hash, batch, file, stream);
    ReadsSecond(file, stream);
    assert file[1..2] == [file[1]];
    SortedAlready([file[1]]);
    SliceVerifiesIff(hash, file, stream, 1, 2);
  }

  lemma {:induction false} ReadsSecond(file: seq<Row>, stream: string)
    requires |file| == 2 && file[0].ev.stream == stream && file[1].ev.stream == stream
    requires file[0].seqNo == 1 && file[1].seqNo == 2
    ensures ReadRange(file, stream, Some(2), None) == [file[1]]
  {
    assert file[1..] == [file[1]] && [file[1]][1..] == [];
    assert RowsOf([file[1]], stream) == [file[1]];
    assert RowsOf(file, stream) == [file[0]] + [file[1]] == file;
    assert file[..1] == [file[0]] && [file[0]][..0] == [];
    assert H.SelectRange([file[0]], Some(2), None).filtered == [];
    assert H.SelectRange(file, Some(2), None).filtered == [file[1]];
    SortedAlready([file[1]]);
  }

  lemma {:induction false} SliceVerifiesIff(hash: HashFn, full: seq<Row>, stream: string, i: nat, j: nat)
    requires IsChain(hash, full, 0, GENESIS) && OfStream(full, stream) && i < j <= |full|
    ensures Accepted(VerifyAll(hash, SortBySeq(full[i..j]), map[])) <==> i == 0
  {
    ChainIsNumbered(hash, full);
    SliceOfStream(full, i, j, stream);
    SortedAlready(full[i..j]);
    OneStreamOnePass(hash, full[i..j], map[], stream);
    AcceptsIff(hash, full[i..j], StartScan(0, GENESIS), false);
    FirstOfSlice(hash, full, i, j);
  }

  // ---------------------------------------------------------------------------
  // The store

  class StreamStore {
    const hash: HashFn
    var heads: Heads
    var file: seq<Row>
    ghost var trail: Trail

    /** Every stream's rows in the file are a chain, and its head is the last of them. */
    ghost predicate Valid()
      reads this
    {
      HeadsOk(hash, heads, trail) && forall stream :: RowsOf(file, stream) == trail(stream)
    }

    constructor (hash: HashFn)
      ensures Valid() && this.hash == hash && file == []
    {
      this.hash := hash;
      heads, file := map[], [];
      trail := s => [];
    }

    /** One write; the store runs them one after another. `succeeds` says whether the rows could be
        written. It fails if they could not or if hashing throws, and then nothing changes. */
    method WriteBatch(batch: seq<Event>, succeeds: bool) returns (r: Option<seq<Row>>)
      requires Valid()
      modifies this
      ensures Valid()
      ensures r.Some? <==> (batch == [] || succeeds) && CanChain(hash, old(heads), batch)
      ensures r.None? ==> heads == old(heads) && file == old(file) && trail == old(trail)
      ensures r.Some? ==> file == old(file) + r.value && WritesBatch(old(trail), trail, batch, r.value)
    {
      if |batch| == 0 {
        H.NoRows(trail);
        assert file + [] == file;
        return Some([]);
      }
      var grouped := GroupBy(StreamOf, batch);
      GroupsAreOfStreams(batch);
      var allChained, nextHeads := ChainBatches(hash, heads, grouped);
      ChainsIff(hash, heads, batch);
      if allChained.None? || !succeeds {
        return None;
      }
      WriteKeepsHeads(hash, heads, trail, batch);
      BatchWritten(hash, heads, trail, batch);
      forall stream ensures RowsOf(file + allChained.value, stream) == RowsOf(file, stream) + RowsOf(allChained.value, stream) {
        RowsOfConcat(file, allChained.value, stream);
      }
      file := file + allChained.value;
      heads := heads + nextHeads;
      trail := Written(trail, allChained.value);
      return Some(allChained.value);
    }

    /** Verification of a range: where it has rows, all are reported valid if and only if it has no
        lower bound above 1; where it has none, one valid report says so. */
    method Verify(stream: string, fromSeq: Option<int>, toSeq: Option<int>) returns (v: Verdicts)
      requires Valid()
      ensures var rows := ReadRange(file, stream, fromSeq, toSeq);
              v == if rows == [] then Verdicts([Report(stream, true, None, None, None, 0)], true) else VerifyAll(hash, rows, map[])
      ensures Accepted(v) <==>
              H.CountInRange(trail(stream), fromSeq, toSeq) == 0 || fromSeq.None? || fromSeq.value <= 1
    {
      var rows := ReadRange(file, stream, fromSeq, toSeq);
      assert StreamOk(hash, heads, trail(stream), stream);
      SortKeepsCount(H.SelectRange(trail(stream), fromSeq, toSeq).filtered);
      v := VerifyChain(hash, rows);
      if |rows| == 0 {
        v := Verdicts([Report(stream, true, None, None, None, 0)], true);
      } else {
        RangeVerifiesIff(hash, trail(stream), stream, fromSeq, toSeq);
      }
    }
  }

  lemma {:induction false} InsertCount(rows: seq<Row>, r: Row)
    ensures |InsertBySeq(rows, r)| == |rows| + 1
  {
    if rows == [] {
    } else {
      InsertCount(rows[..|rows| - 1], r);
    }
  }

  lemma {:induction false} SortKeepsCount(rows: seq<Row>)
    ensures |SortBySeq(rows)| == |rows|
  {
    if rows == [] {
    } else {
      SortKeepsCount(rows[..|rows| - 1]);
      InsertCount(SortBySeq(rows[..|rows| - 1]), rows[|rows| - 1]);
    }
  }
}
