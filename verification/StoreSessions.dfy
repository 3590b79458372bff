/** What stays true of a session while another one commits. */
module StoreSessions {
  import opened AuditTypes
  import opened HashChain
  import opened Grouping
  import opened WritePlan
  import opened Retention
  import opened AuditStore
  import opened StoreInvariant
  import opened StoreTables

  /** The histories only grow. */
  ghost predicate Extends(t: Tables, t': Tables) {
    forall s :: History(t, s) <= History(t', s)
  }

  lemma RowKept(t: Tables, t': Tables, r: Row)
    requires Extends(t, t') && IsRow(t, r)
    ensures IsRow(t', r)
  {
    assert History(t, r.ev.stream) <= History(t', r.ev.stream);
  }

  lemma ResultsKept(t: Tables, t': Tables, results: map<string, Row>)
    requires Extends(t, t') && ResultsOk(t, results)
    ensures ResultsOk(t', results)
  {
    forall id | id in results ensures IsRow(t', results[id]) && results[id].ev.id == id {
      RowKept(t, t', results[id]);
    }
  }

  lemma MatchesKept(fp: Fp, t: Tables, t': Tables, batch: seq<Event>, rows: seq<Row>)
    requires Extends(t, t') && Matches(fp, t, batch, rows)
    ensures Matches(fp, t', batch, rows)
  {
    forall i | 0 <= i < |batch|
      ensures IsRow(t', rows[i]) && rows[i].ev.id == batch[i].id && SameAs(fp, rows[i].ev, batch[i])
    {
      RowKept(t, t', rows[i]);
    }
  }

  lemma ChainedOntoKept(cfg: Cfg, t: Tables, t': Tables, g: Group<Event>, rows: seq<Row>)
    requires ChainedOnto(cfg, t, g, rows) && History(t, g.name) <= History(t', g.name)
    requires Base(t', g.name) <= rows[0].seqNo - 1
    ensures ChainedOnto(cfg, t', g, rows)
  {
    var k: nat := rows[0].seqNo - 1;
    assert PrevOf(History(t, g.name), k, GENESIS) == PrevOf(History(t', g.name), k, GENESIS);
  }

  lemma CandidatesKept(t: Tables, t': Tables, policy: Policy, stream: string, c: seq<Row>)
    requires CandidatesOk(t, policy, stream, c)
    requires History(t, stream) <= History(t', stream) && Base(t, stream) <= Base(t', stream)
    ensures CandidatesOk(t', policy, stream, c)
  {
    var a: nat := c[0].seqNo - 1;
    assert History(t', stream)[a..a + |c|] == History(t, stream)[a..a + |c|];
  }

  // ---------------------------------------------------------------------------
  // Another session commits a write

  lemma ExtendsByWrite(t: Tables, stream: string, rows: seq<Row>)
    ensures Extends(t, AfterWrite(t, stream, rows))
  {
  }

  lemma NotLiveAfterWrite(t: Tables, stream: string, rows: seq<Row>, mine: seq<Row>)
    requires NotLive(t, mine) && NoClash(mine, rows)
    ensures NotLive(AfterWrite(t, stream, rows), mine)
  {
    var t' := AfterWrite(t, stream, rows);
    forall i, r | 0 <= i < |mine| && r in t'.live ensures r.ev.id != mine[i].ev.id {
      if r in rows {
        var j :| 0 <= j < |rows| && rows[j] == r;
        assert !Clash(mine[i], rows[j]);
      }
    }
  }

  lemma TxAfterWrite(cfg: Cfg, t: Tables, stream: string, rows: seq<Row>, todo: seq<Group<Event>>, tx: Tx)
    requires TxOk(cfg, t, todo, tx)
    requires Placed(stream, rows, |History(t, stream)|)
    requires tx.Inserted? ==> NoClash(tx.rows, rows) && todo[0].name != stream
    ensures TxOk(cfg, AfterWrite(t, stream, rows), todo, tx)
  {
    var t' := AfterWrite(t, stream, rows);
    match tx
    case HeadRead(mine) => ChainedOntoKept(cfg, t, t', todo[0], mine);
    case Inserted(mine) =>
      ChainedOntoKept(cfg, t, t', todo[0], mine);
      NotLiveAfterWrite(t, stream, rows, mine);
    case _ =>
  }

  lemma PhaseAfterWrite(t: Tables, stream: string, rows: seq<Row>, policy: Policy, mine: string, c: seq<Row>, phase: Phase)
    requires PhaseOk(t, mine, c, phase) && (!phase.Between? ==> CandidatesOk(t, policy, mine, c))
    requires Placed(stream, rows, |History(t, stream)|)
    requires Placed(mine, History(t, mine), 0)
    ensures PhaseOk(AfterWrite(t, stream, rows), mine, c, phase)
  {
    if phase.Deleted? {
      CandidatesPlaced(t, policy, mine, c);
      var t' := AfterWrite(t, stream, rows);
      forall r | r in t'.live && r.ev.stream == mine && r.seqNo <= Last(c).seqNo ensures r in phase.doomed {
        RowsAfterWrite(t, stream, rows, r);
      }
    }
  }

  lemma SessionAfterWrite(cfg: Cfg, t: Tables, stream: string, rows: seq<Row>, ss: Session)
    requires HistoryOk(cfg, t) && SessionOk(cfg, t, ss)
    requires Placed(stream, rows, |History(t, stream)|)
    requires HasInserted(ss) ==> NoClash(ss.tx.rows, rows) && ss.todo[0].name != stream
    ensures SessionOk(cfg, AfterWrite(t, stream, rows), ss)
  {
    var t' := AfterWrite(t, stream, rows);
    ExtendsByWrite(t, stream, rows);
    match ss
    case Idle =>
    case Writing(batch, todo, results, tx) =>
      ResultsKept(t, t', results);
      TxAfterWrite(cfg, t, stream, rows, todo, tx);
    case Returned(batch, mine) => MatchesKept(cfg.fp, t, t', batch, mine);
    case Pruning(policy, mine, c, phase, total, perEvent) =>
      HistoryIsPlaced(cfg, t, mine);
      if !phase.Between? {
        CandidatesKept(t, t', policy, mine, c);
      }
      PhaseAfterWrite(t, stream, rows, policy, mine, c, phase);
  }

  // ---------------------------------------------------------------------------
  // Another session archives

  lemma SessionAfterArchive(cfg: Cfg, t: Tables, rows: seq<Row>, ss: Session)
    requires SessionOk(cfg, t, ss)
    ensures SessionOk(cfg, WithMarkers(t, rows), ss)
  {
    var t' := WithMarkers(t, rows);
    assert Extends(t, t');
    match ss
    case Idle =>
    case Writing(batch, todo, results, tx) =>
      ResultsKept(t, t', results);
      TxSameHistory(cfg, t, t', todo, tx);
    case Returned(batch, mine) => MatchesKept(cfg.fp, t, t', batch, mine);
    case Pruning(policy, mine, c, phase, total, perEvent) =>
      if !phase.Between? {
        CandidatesKept(t, t', policy, mine, c);
      }
      assert AllArchived(t, c) ==> AllArchived(t', c);
  }

  lemma TxSameHistory(cfg: Cfg, t: Tables, t': Tables, todo: seq<Group<Event>>, tx: Tx)
    requires TxOk(cfg, t, todo, tx)
    requires t'.history == t.history && t'.live <= t.live
    requires (tx.HeadRead? || tx.Inserted?) ==> Base(t', todo[0].name) <= tx.rows[0].seqNo - 1
    ensures TxOk(cfg, t', todo, tx)
  {
    match tx
    case HeadRead(mine) => ChainedOntoKept(cfg, t, t', todo[0], mine);
    case Inserted(mine) => ChainedOntoKept(cfg, t, t', todo[0], mine);
    case _ =>
  }

  // ---------------------------------------------------------------------------
  // Another session commits a prune

  lemma PhaseAfterPrune(t: Tables, stream: string, c: seq<Row>, doomed: set<Row>, mine: string, m: seq<Row>, phase: Phase)
    requires c != [] && PhaseOk(t, mine, m, phase)
    requires phase.Deleted? ==> phase.doomed !! doomed
    ensures PhaseOk(AfterPrune(t, stream, c, doomed), mine, m, phase)
  {
    if phase.Deleted? {
      assert forall r | r in phase.doomed :: r in AfterPrune(t, stream, c, doomed).live;
    }
  }

  lemma PrunerAfterPrune(cfg: Cfg, t: Tables, stream: string, c: seq<Row>, doomed: set<Row>, ss: Session)
    requires SessionOk(cfg, t, ss) && ss.Pruning? && c != []
    requires HasDeleted(ss) ==> ss.phase.doomed !! doomed
    ensures SessionOk(cfg, AfterPrune(t, stream, c, doomed), ss)
  {
    if !ss.phase.Between? {
      CandidatesKept(t, AfterPrune(t, stream, c, doomed), ss.policy, ss.stream, ss.candidates);
    }
    PhaseAfterPrune(t, stream, c, doomed, ss.stream, ss.candidates, ss.phase);
  }

  lemma SessionAfterPrune(cfg: Cfg, t: Tables, stream: string, c: seq<Row>, doomed: set<Row>, ss: Session)
    requires SessionOk(cfg, t, ss) && PruneTo(t, stream, c)
    requires HasDeleted(ss) ==> ss.phase.doomed !! doomed
    requires HasReadHead(ss) && ss.todo[0].name == stream ==> Last(c).seqNo < ss.tx.rows[0].seqNo
    ensures SessionOk(cfg, AfterPrune(t, stream, c, doomed), ss)
  {
    var t' := AfterPrune(t, stream, c, doomed);
    assert Extends(t, t');
    match ss
    case Idle =>
    case Writing(batch, todo, results, tx) =>
      ResultsKept(t, t', results);
      TxSameHistory(cfg, t, t', todo, tx);
    case Returned(batch, mine) => MatchesKept(cfg.fp, t, t', batch, mine);
    case Pruning(policy, mine, m, phase, total, perEvent) => PrunerAfterPrune(cfg, t, stream, c, doomed, ss);
  }
}
