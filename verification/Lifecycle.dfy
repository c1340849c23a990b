/**
 * How a claim may leave the registry, over whole runs: a range is only given
 * away again after every claim on it ended in one of three ways.
 */
module Lifecycle {
  import opened Wrappers
  import opened Records
  import opened Store
  import opened Registry
  import opened Effects
  import opened Fleet
  import opened Runs

  /** The claim of one materialization attempt, by host, instance and token. */
  predicate HasToken(db: Db, h: Uuid, u: Uuid, token: Uuid) {
    HasClaim(db, h, u) && ClaimAt(db, h, u).token == token
  }

  /** One legal step of a claim that keeps its token. */
  ghost predicate ClaimEdge(c: Claim, d: Claim) {
    || d == c
    || (c.state.Unmaterialized? && d == c.(state := Possible))
    || (c.state.Possible? && d == c.(state := Committed))
    || (exists p: Proof :: ProvenBy(c, d, p))
  }

  predicate ProvenBy(c: Claim, d: Claim, p: Proof) {
    && d == c.(state := Cleaned, proof := Some(p))
    && ValidProof(p) && ProofBinds(p, c) && c.state == RequiredState(p)
  }

  predicate CleanlyProven(c: Claim) {
    c.state.Cleaned? && c.proof.Some? && ValidProof(c.proof.value) && ProofBinds(c.proof.value, c)
  }

  /** The mutation removes claim `c` and has the authority to do so. */
  predicate LeavesBy(m: Mutation, db': Db, c: Claim) {
    match m
    case Retire(_, d) => d == c && CleanlyProven(c)
    case ReplaceClaim(_, d, _) => d == c && CleanlyProven(c)
    case Abandon(_, d) => d == c && c.state.Unmaterialized?
    case FenceRetire(_, d, fence) =>
      && d == c && HasFence(db', c.host, c.gen.instance)
      && FenceAt(db', c.host, c.gen.instance) == fence
      && fence.token == Some(c.token) && fence.allocation == c.gen.allocation
    case _ => false
  }

  lemma MutationMovesClaim(cfg: Config, db: Db, m: Mutation, h: Uuid, u: Uuid)
    requires Consistent(cfg, db) && Admissible(cfg, m) && Commits(db, Body(cfg, m))
    requires HasClaim(db, h, u)
    ensures var c, db' := ClaimAt(db, h, u), Apply(db, Body(cfg, m));
      if HasToken(db', h, u, c.token) then ClaimEdge(c, ClaimAt(db', h, u)) else LeavesBy(m, db', c)
  {
    var c := ClaimAt(db, h, u);
    assert RecordOk(cfg, HostKey(h, u), db[HostKey(h, u)].raw);
    ClaimEffect(cfg, db, m, h, u);
    FenceEffect(cfg, db, m, h, u);
    if u == SubjectOf(m) {
      CurrentHolds(cfg, db, m);
      if Consumed(m).Some? {
        ConsumedHolds(cfg, db, m);
      }
      if m.RecordProof? && h == m.claim.host {
        assert ProvenBy(c, Written(m, h).value, m.proof);
      }
      if m.AddClaim? {
        assert h in m.current.hosts;
      }
    }
  }

  /** One step of a run moves a claim along its state machine or lets it go for cause. */
  lemma StepMovesClaim(cfg: Config, f: Fleet, a: Action, h: Uuid, u: Uuid)
    requires Inv(cfg, f) && Permitted(cfg, f, a) && HasClaim(f.db, h, u)
    ensures var c, db' := ClaimAt(f.db, h, u), Step(cfg, f, a).db;
      if HasToken(db', h, u, c.token) then ClaimEdge(c, ClaimAt(db', h, u))
      else MutationCommits(cfg, f, a) && LeavesBy(a.m, db', c)
  {
    if MutationCommits(cfg, f, a) {
      CompileCommits(cfg, f.db, a.m, a.g);
      MutationMovesClaim(cfg, f.db, a.m, h, u);
    } else {
      QuietStep(cfg, f, a, HostKey(h, u));
    }
  }

  /** A step that commits no mutation leaves every registry key alone. */
  lemma QuietStep(cfg: Config, f: Fleet, a: Action, k: Key)
    requires Inv(cfg, f) && Permitted(cfg, f, a) && !MutationCommits(cfg, f, a) && !ControlKey(k)
    ensures k in Step(cfg, f, a).db <==> k in f.db
    ensures k in f.db ==> Step(cfg, f, a).db[k] == f.db[k]
  {
  }

  /**
   * Follow a claim from revision `j` to a revision `i` that no longer has its
   * token: somewhere between it left, and it left for cause.
   */
  lemma {:induction false} ClaimLeftForCause(
      cfg: Config, r: Run, j: nat, i: nat, h: Uuid, u: Uuid) returns (k: nat)
    requires ValidRun(cfg, r) && j < i < |r.states|
    requires HasClaim(r.states[j].db, h, u)
    requires !HasToken(r.states[i].db, h, u, ClaimAt(r.states[j].db, h, u).token)
    ensures j <= k < i
    ensures HasToken(r.states[k].db, h, u, ClaimAt(r.states[j].db, h, u).token)
    ensures !HasToken(r.states[k + 1].db, h, u, ClaimAt(r.states[j].db, h, u).token)
    ensures ClaimAt(r.states[k].db, h, u).gen == ClaimAt(r.states[j].db, h, u).gen
    ensures CommitsAt(cfg, r, k)
    ensures LeavesBy(r.actions[k].m, r.states[k + 1].db, ClaimAt(r.states[k].db, h, u))
    decreases i - j
  {
    var c := ClaimAt(r.states[j].db, h, u);
    RunKeepsInv(cfg, r, j);
    assert Stepped(cfg, r, j);
    StepMovesClaim(cfg, r.states[j], r.actions[j], h, u);
    if HasToken(r.states[j + 1].db, h, u, c.token) {
      k := ClaimLeftForCause(cfg, r, j + 1, i, h, u);
    } else {
      k := j;
    }
  }

  /** When a release commits, its instance holds no claim at all. */
  lemma ReleaseSeesNoClaim(cfg: Config, f: Fleet, a: Action, h: Uuid)
    requires Inv(cfg, f) && MutationCommits(cfg, f, a) && a.m.Release?
    ensures !HasClaim(f.db, h, SubjectOf(a.m))
  {
    CompileCommits(cfg, f.db, a.m, a.g);
    CurrentHolds(cfg, f.db, a.m);
  }

  /**
   * When a release commits at revision `i`, every claim that any earlier
   * revision held for the instance has left between the two: cleaned under a
   * valid proof bound to exactly its allocation, host, token, owner and range,
   * or while still unmaterialized, or in the transaction that wrote its token
   * to the fence ledger.
   */
  lemma ReleasedRangeIsClean(cfg: Config, r: Run, j: nat, i: nat, h: Uuid) returns (k: nat)
    requires ValidRun(cfg, r) && j <= i && CommitsAt(cfg, r, i) && r.actions[i].m.Release?
    requires HasClaim(r.states[j].db, h, SubjectOf(r.actions[i].m))
    ensures var u, c := SubjectOf(r.actions[i].m), ClaimAt(r.states[j].db, h, SubjectOf(r.actions[i].m));
      && j <= k < i
      && HasToken(r.states[k].db, h, u, c.token)
      && ClaimAt(r.states[k].db, h, u).gen == c.gen
      && !HasToken(r.states[k + 1].db, h, u, c.token)
      && CommitsAt(cfg, r, k)
      && LeavesBy(r.actions[k].m, r.states[k + 1].db, ClaimAt(r.states[k].db, h, u))
  {
    RunKeepsInv(cfg, r, i);
    ReleaseSeesNoClaim(cfg, r.states[i], r.actions[i], h);
    k := ClaimLeftForCause(cfg, r, j, i, h, SubjectOf(r.actions[i].m));
  }

  // ---- a generation lives until its release -----------------------------------------

  ghost predicate ReleasesAt(cfg: Config, r: Run, i: nat, u: Uuid)
    requires ValidRun(cfg, r)
  {
    CommitsAt(cfg, r, i) && r.actions[i].m.Release? && SubjectOf(r.actions[i].m) == u
  }

  lemma StepKeepsGeneration(cfg: Config, f: Fleet, a: Action, u: Uuid)
    requires Inv(cfg, f) && Permitted(cfg, f, a) && HasAssignment(f.db, u)
    requires !(MutationCommits(cfg, f, a) && a.m.Release? && SubjectOf(a.m) == u)
    ensures HasAssignment(Step(cfg, f, a).db, u)
    ensures AssignmentAt(Step(cfg, f, a).db, u).gen == AssignmentAt(f.db, u).gen
  {
    if MutationCommits(cfg, f, a) {
      CompileCommits(cfg, f.db, a.m, a.g);
      CurrentHolds(cfg, f.db, a.m);
      PairEffect(cfg, f.db, a.m, u);
    } else {
      QuietStep(cfg, f, a, InstanceKey(u));
    }
  }

  /**
   * Without a release in between, any two revisions that both know an instance
   * know the same generation of it: concurrent allocations of one UUID agree.
   */
  lemma {:induction false} GenerationPersists(cfg: Config, r: Run, j: nat, i: nat, u: Uuid)
    requires ValidRun(cfg, r) && j <= i < |r.states| && HasAssignment(r.states[j].db, u)
    requires forall k: nat | j <= k < i :: !ReleasesAt(cfg, r, k, u)
    ensures HasAssignment(r.states[i].db, u)
    ensures AssignmentAt(r.states[i].db, u).gen == AssignmentAt(r.states[j].db, u).gen
  {
    if j < i {
      GenerationPersists(cfg, r, j, i - 1, u);
      RunKeepsInv(cfg, r, i - 1);
      assert !ReleasesAt(cfg, r, i - 1, u);
      assert Stepped(cfg, r, i - 1);
      StepKeepsGeneration(cfg, r.states[i - 1], r.actions[i - 1], u);
    }
  }
}
