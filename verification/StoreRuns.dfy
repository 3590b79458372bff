/** States of the store in which one session can go on undisturbed. */
module StoreRuns {
  import opened AuditStore

  function Final(run: seq<Store>): Store
    requires run != []
  {
    run[|run| - 1]
  }

  predicate Holding(ss: Session) {
    HasInserted(ss) || HasDeleted(ss)
  }

  /** No other session has an uncommitted effect. */
  ghost predicate OthersCalm(s: Store, w: string) {
    forall v | v != w :: !Holding(At(s, v))
  }

  /** The session is idle, no lock is held, and nobody has an uncommitted effect. */
  ghost predicate Rests(s: Store, w: string) {
    s.locks == map[] && At(s, w).Idle? && OthersCalm(s, w)
  }

  ghost predicate SameOthers(s: Store, s': Store, w: string) {
    forall v | v != w :: At(s', v) == At(s, v)
  }

  lemma AfterStep(s: Store, w: string, ss: Session, s': Store)
    requires OthersCalm(s, w) && s'.sessions == s.sessions[w := ss]
    ensures OthersCalm(s', w) && At(s', w) == ss && SameOthers(s, s', w)
  {
    forall v | v != w ensures At(s', v) == At(s, v) && !Holding(At(s', v)) {
      assert !Holding(At(s, v));
    }
  }

  lemma SameTwice(s: Store, s': Store, s'': Store, w: string)
    requires SameOthers(s, s', w) && SameOthers(s', s'', w)
    ensures SameOthers(s, s'', w)
  {
    forall v | v != w ensures At(s'', v) == At(s, v) {
      assert At(s', v) == At(s, v);
    }
  }
}
