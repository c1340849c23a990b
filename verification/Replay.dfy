/**
 * The two properties of single transactions that replays rest on: exactly when
 * the fence ledger survives one, and that a committed one cannot commit again
 * until somebody touches what it compared.
 */
module Replay {
  import opened Wrappers
  import opened Records
  import opened Store
  import opened Registry
  import opened Preservation
  import opened Effects

  predicate FencedToken(db: Db, h: Uuid, u: Uuid, token: Uuid) {
    HasFence(db, h, u) && FenceAt(db, h, u).token == Some(token)
  }

  /** The mutation writes a claim under a token that the ledger already disposed of. */
  predicate ReclaimsFenced(db: Db, m: Mutation) {
    match m
    case AddClaim(a, h, t) => FencedToken(db, h, a.gen.instance, t)
    case ReplaceClaim(a, c, t) => FencedToken(db, c.host, a.gen.instance, t)
    case RestoreAll(a, claims, _) =>
      exists h | h in claims :: FencedToken(db, h, a.gen.instance, claims[h].token)
    case _ => false
  }

  /** After a commit, a clash sits only where the mutation wrote a fenced token. */
  lemma ClashAfter(cfg: Config, db: Db, m: Mutation, h: Uuid, u: Uuid)
    requires WellFormed(cfg, db) && Admissible(cfg, m) && Commits(db, Body(cfg, m))
    ensures FenceClash(Apply(db, Body(cfg, m)), h, u) <==>
      u == SubjectOf(m) && (m.AddClaim? || m.ReplaceClaim? || m.RestoreAll?)
      && Written(m, h).Some? && FencedToken(db, h, u, Written(m, h).value.token)
  {
    ClaimEffect(cfg, db, m, h, u);
    FenceEffect(cfg, db, m, h, u);
    assert !FenceClash(db, h, u);
    if Consumed(m).Some? {
      ConsumedHolds(cfg, db, m);
    }
  }

  /** A commit keeps the registry well formed exactly when it claims no fenced token. */
  lemma FenceLedgerExact(cfg: Config, db: Db, m: Mutation, g: Guard)
    requires WellFormed(cfg, db) && Admissible(cfg, m) && Commits(db, Compile(cfg, m, g))
    ensures WellFormed(cfg, Apply(db, Compile(cfg, m, g))) <==> !ReclaimsFenced(db, m)
  {
    MutationKeepsConsistent(cfg, db, m, g);
    CompileCommits(cfg, db, m, g);
    var db' := Apply(db, Body(cfg, m));
    forall h, u
      ensures FenceClash(db', h, u) ==> u == SubjectOf(m) && WritesFenced(db, m, h)
      ensures WritesFenced(db, m, h) ==> FenceClash(db', h, SubjectOf(m))
    {
      ClashAfter(cfg, db, m, h, u);
      ClashAfter(cfg, db, m, h, SubjectOf(m));
    }
    ReclaimsFencedAt(db, m);
    if ReclaimsFenced(db, m) {
      var h :| WritesFenced(db, m, h);
      assert FenceClash(db', h, SubjectOf(m));
    }
  }

  predicate WritesFenced(db: Db, m: Mutation, h: Uuid) {
    && (m.AddClaim? || m.ReplaceClaim? || m.RestoreAll?)
    && Written(m, h).Some? && FencedToken(db, h, SubjectOf(m), Written(m, h).value.token)
  }

  lemma ReclaimsFencedAt(db: Db, m: Mutation)
    ensures ReclaimsFenced(db, m) <==> exists h :: WritesFenced(db, m, h)
  {
    match m
    case AddClaim(_, h, _) => assert ReclaimsFenced(db, m) <==> WritesFenced(db, m, h);
    case ReplaceClaim(_, c, _) => assert ReclaimsFenced(db, m) <==> WritesFenced(db, m, c.host);
    case RestoreAll(a, claims, _) =>
      forall h | h in claims && FencedToken(db, h, a.gen.instance, claims[h].token)
        ensures WritesFenced(db, m, h) {}
    case _ =>
  }

  /** Each mutation changes a key that it compared, so it cannot follow itself. */
  lemma CommitDisarms(cfg: Config, db: Db, m: Mutation, g: Guard)
    requires Admissible(cfg, m) && Commits(db, Compile(cfg, m, g))
    ensures !Commits(Apply(db, Compile(cfg, m, g)), Compile(cfg, m, g))
  {
    CompileCommits(cfg, db, m, g);
    var db' := Apply(db, Body(cfg, m));
    CompileCommits(cfg, db', m, g);
    var t := Body(cfg, m);
    PairEffect(cfg, db, m, SubjectOf(m));
    IntentEffect(cfg, db, m, SubjectOf(m));
    if Commits(db', t) {
      CurrentHolds(cfg, db, m);
      CurrentHolds(cfg, db', m);
      if NeedsNoBarrier(m) {
        BarrierHolds(cfg, db', m);
      }
      if Consumed(m).Some? {
        ConsumedHolds(cfg, db', m);
        ClaimEffect(cfg, db, m, Consumed(m).value.host, SubjectOf(m));
      }
      assert false;
    }
  }

  /**
   * A replay is a no-op as long as every key it compares still reads as the
   * first commit left it, whatever other clients did elsewhere in between.
   */
  lemma ReplayIsNoop(cfg: Config, db: Db, later: Db, m: Mutation, g: Guard)
    requires Admissible(cfg, m) && Commits(db, Compile(cfg, m, g))
    requires AgreeOn(Apply(db, Compile(cfg, m, g)), later, ComparedKeys(Compile(cfg, m, g)))
    ensures Submit(later, Compile(cfg, m, g)) == later
  {
    CommitDisarms(cfg, db, m, g);
    AgreeCommits(Apply(db, Compile(cfg, m, g)), later, Compile(cfg, m, g));
  }
}
