/**
 * The release barrier: behind it claims only drain, and after boundedly many
 * claim transitions the release itself is enabled.
 */
module Barrier {
  import opened Wrappers
  import opened Records
  import opened Store
  import opened Registry
  import opened Effects
  import opened Fleet
  import opened Runs
  import opened Lifecycle

  function HostsOf(db: Db, u: Uuid): set<Uuid> {
    if HasAssignment(db, u) then AssignmentAt(db, u).hosts else {}
  }

  /** possible ranks 3, unmaterialized and committed rank 2, cleaned ranks 1. */
  function Rank(c: Claim): nat {
    match c.state
    case Possible => 3
    case Unmaterialized => 2
    case Committed => 2
    case Cleaned => 1
  }

  /** Hosts whose claim ranks at least `n`. */
  function AtLeast(db: Db, u: Uuid, n: nat): set<Uuid> {
    set h | h in HostsOf(db, u) && HasClaim(db, h, u) && Rank(ClaimAt(db, h, u)) >= n
  }

  /** The sum of the ranks over the claims of one instance, counted level by level. */
  function Pending(db: Db, u: Uuid): nat {
    |AtLeast(db, u, 1)| + |AtLeast(db, u, 2)| + |AtLeast(db, u, 3)|
  }

  /** The mutation is a claim transition of this instance. */
  predicate ClaimTransition(m: Mutation, u: Uuid) {
    SubjectOf(m) == u && (m.AddClaim? || Consumed(m).Some?)
  }

  /** Behind the barrier no claim is added and none becomes possible. */
  lemma BarrierStopsGrowth(cfg: Config, db: Db, m: Mutation, u: Uuid)
    requires Admissible(cfg, m) && Commits(db, Body(cfg, m)) && ReleaseKey(u) in db && SubjectOf(m) == u
    ensures !NeedsNoBarrier(m)
    ensures forall h | Written(m, h).Some? ::
              Consumed(m).Some? && h == Consumed(m).value.host
              && Rank(Written(m, h).value) < Rank(Consumed(m).value)
  {
    if NeedsNoBarrier(m) {
      BarrierHolds(cfg, db, m);
    }
  }

  lemma LevelsBelowHosts(db: Db, u: Uuid, n: nat)
    ensures |AtLeast(db, u, n)| <= |HostsOf(db, u)|
  {
    SubsetSize(AtLeast(db, u, n), HostsOf(db, u));
  }

  lemma PendingBound(db: Db, u: Uuid)
    ensures Pending(db, u) <= 3 * |HostsOf(db, u)|
  {
    LevelsBelowHosts(db, u, 1);
    LevelsBelowHosts(db, u, 2);
    LevelsBelowHosts(db, u, 3);
  }

  lemma EveryHostRanks(cfg: Config, db: Db, u: Uuid)
    requires Consistent(cfg, db)
    ensures AtLeast(db, u, 1) == HostsOf(db, u)
  {
    forall h | h in HostsOf(db, u) ensures h in AtLeast(db, u, 1) {
      assert HasClaim(db, h, u);
    }
  }

  /** Levels shrink when every claim that remains ranks no higher than before. */
  lemma LevelShrinks(db: Db, db': Db, u: Uuid, n: nat)
    requires forall h | h in AtLeast(db', u, n) :: h in AtLeast(db, u, n)
    ensures |AtLeast(db', u, n)| <= |AtLeast(db, u, n)|
    ensures AtLeast(db', u, n) != AtLeast(db, u, n) ==> |AtLeast(db', u, n)| < |AtLeast(db, u, n)|
  {
    SubsetSize(AtLeast(db', u, n), AtLeast(db, u, n));
  }

  lemma MutationDrains(cfg: Config, db: Db, m: Mutation, u: Uuid)
    requires Consistent(cfg, db) && Admissible(cfg, m) && Commits(db, Body(cfg, m))
    requires HasIntent(db, u) && !(m.Release? && SubjectOf(m) == u)
    ensures var db' := Apply(db, Body(cfg, m));
      Pending(db', u) <= Pending(db, u) && (ClaimTransition(m, u) ==> Pending(db', u) < Pending(db, u))
  {
    var db' := Apply(db, Body(cfg, m));
    if SubjectOf(m) == u {
      BarrierStopsGrowth(cfg, db, m, u);
      CurrentHolds(cfg, db, m);
    }
    PairEffect(cfg, db, m, u);
    forall n: nat, h | h in AtLeast(db', u, n)
      ensures h in AtLeast(db, u, n)
    {
      ClaimEffect(cfg, db, m, h, u);
      if SubjectOf(m) == u && Consumed(m).Some? {
        ConsumedHolds(cfg, db, m);
      }
    }
    LevelShrinks(db, db', u, 1);
    LevelShrinks(db, db', u, 2);
    LevelShrinks(db, db', u, 3);
    if ClaimTransition(m, u) {
      TransitionDropsLevel(cfg, db, m, u);
    }
  }

  lemma TransitionDropsLevel(cfg: Config, db: Db, m: Mutation, u: Uuid)
    requires Consistent(cfg, db) && Admissible(cfg, m) && Commits(db, Body(cfg, m))
    requires HasIntent(db, u) && ClaimTransition(m, u)
    ensures var db' := Apply(db, Body(cfg, m));
      exists n | n in {1, 2, 3} :: AtLeast(db', u, n) != AtLeast(db, u, n)
  {
    BarrierStopsGrowth(cfg, db, m, u);
    CurrentHolds(cfg, db, m);
    ConsumedHolds(cfg, db, m);
    var h := Consumed(m).value.host;
    var n := Rank(Consumed(m).value);
    ClaimEffect(cfg, db, m, h, u);
    assert h in AtLeast(db, u, n);
    assert h !in AtLeast(Apply(db, Body(cfg, m)), u, n);
  }

  // ---- over runs --------------------------------------------------------------------

  /** How many numbers in `i..j` satisfy `p`. */
  ghost function Count(p: nat -> bool, i: nat, j: nat): nat
    requires i <= j
    decreases j
  {
    if i == j then 0 else Count(p, i, j - 1) + (if p(j - 1) then 1 else 0)
  }

  lemma {:induction false} Telescope(v: nat -> nat, p: nat -> bool, i: nat, j: nat)
    requires i <= j
    requires forall k: nat | i <= k < j :: v(k + 1) + (if p(k) then 1 else 0) <= v(k)
    ensures Count(p, i, j) + v(j) <= v(i)
    decreases j
  {
    if i < j {
      Telescope(v, p, i, j - 1);
      assert v(j - 1 + 1) + (if p(j - 1) then 1 else 0) <= v(j - 1);
    }
  }

  ghost predicate TransitionAt(cfg: Config, r: Run, k: nat, u: Uuid)
    requires ValidRun(cfg, r)
  {
    CommitsAt(cfg, r, k) && ClaimTransition(r.actions[k].m, u)
  }

  /** Committed claim transitions of `u` between revisions `i` and `j`. */
  ghost function Transitions(cfg: Config, r: Run, i: nat, j: nat, u: Uuid): nat
    requires ValidRun(cfg, r) && i <= j
  {
    Count((k: nat) => ValidRun(cfg, r) && TransitionAt(cfg, r, k, u), i, j)
  }

  /** The intent written at `i` still stands at every revision up to `j`. */
  ghost predicate Barred(r: Run, i: nat, j: nat, u: Uuid)
    requires i <= j < |r.states|
  {
    forall k | i <= k <= j :: HasIntent(r.states[k].db, u)
  }

  lemma ClaimsDrain(cfg: Config, r: Run, i: nat, j: nat, u: Uuid)
    requires ValidRun(cfg, r) && i <= j < |r.states| && Barred(r, i, j, u)
    ensures Transitions(cfg, r, i, j, u) + Pending(r.states[j].db, u) <= Pending(r.states[i].db, u)
  {
    var v: nat -> nat := (k: nat) => if k < |r.states| then Pending(r.states[k].db, u) else 0;
    var p: nat -> bool := (k: nat) => ValidRun(cfg, r) && TransitionAt(cfg, r, k, u);
    forall k: nat | i <= k < j ensures v(k + 1) + (if p(k) then 1 else 0) <= v(k) {
      assert HasIntent(r.states[k].db, u) && HasIntent(r.states[k + 1].db, u);
      RunStepDrains(cfg, r, k, u);
    }
    Telescope(v, p, i, j);
    SamePredicate(cfg, r, u, p, i, j);
  }

  lemma {:induction false} SamePredicate(cfg: Config, r: Run, u: Uuid, p: nat -> bool, i: nat, j: nat)
    requires ValidRun(cfg, r) && i <= j && forall k: nat :: p(k) <==> TransitionAt(cfg, r, k, u)
    ensures Count(p, i, j) == Transitions(cfg, r, i, j, u)
    decreases j
  {
    if i < j {
      SamePredicate(cfg, r, u, p, i, j - 1);
    }
  }

  lemma RunStepDrains(cfg: Config, r: Run, k: nat, u: Uuid)
    requires ValidRun(cfg, r) && k < |r.actions|
    requires HasIntent(r.states[k].db, u) && HasIntent(r.states[k + 1].db, u)
    ensures Pending(r.states[k + 1].db, u)
            + (if TransitionAt(cfg, r, k, u) then 1 else 0)
            <= Pending(r.states[k].db, u)
  {
    RunKeepsInv(cfg, r, k);
    assert Stepped(cfg, r, k);
    StepDrains(cfg, r.states[k], r.actions[k], r.states[k + 1], u);
  }

  lemma StepDrains(cfg: Config, f: Fleet, a: Action, f': Fleet, u: Uuid)
    requires Inv(cfg, f) && Permitted(cfg, f, a) && f' == Step(cfg, f, a)
    requires HasIntent(f.db, u) && HasIntent(f'.db, u)
    ensures Pending(f'.db, u) <= Pending(f.db, u)
    ensures MutationCommits(cfg, f, a) && ClaimTransition(a.m, u) ==> Pending(f'.db, u) < Pending(f.db, u)
  {
    if MutationCommits(cfg, f, a) {
      CompileCommits(cfg, f.db, a.m, a.g);
      IntentEffect(cfg, f.db, a.m, u);
      MutationDrains(cfg, f.db, a.m, u);
    } else {
      QuietStep(cfg, f, a, InstanceKey(u));
      forall h ensures HasClaim(f'.db, h, u) <==> HasClaim(f.db, h, u)
        ensures HasClaim(f.db, h, u) ==> ClaimAt(f'.db, h, u) == ClaimAt(f.db, h, u)
      {
        QuietStep(cfg, f, a, HostKey(h, u));
      }
      assert AtLeast(f'.db, u, 1) == AtLeast(f.db, u, 1);
      assert AtLeast(f'.db, u, 2) == AtLeast(f.db, u, 2);
      assert AtLeast(f'.db, u, 3) == AtLeast(f.db, u, 3);
    }
  }

  /** At most three transitions per host that the allocation had when the barrier went up. */
  lemma BoundedDrain(cfg: Config, r: Run, i: nat, j: nat, u: Uuid)
    requires ValidRun(cfg, r) && i <= j < |r.states| && Barred(r, i, j, u)
    ensures Transitions(cfg, r, i, j, u) <= 3 * |HostsOf(r.states[i].db, u)|
  {
    ClaimsDrain(cfg, r, i, j, u);
    PendingBound(r.states[i].db, u);
  }

  /** With nothing pending, the release of the stored generation commits under a current guard. */
  lemma DrainedReleaseCommits(cfg: Config, f: Fleet, u: Uuid, g: Guard)
    requires Inv(cfg, f) && HasIntent(f.db, u) && Pending(f.db, u) == 0
    requires FailureKey !in f.db && CoordinatorKey in f.db
    requires HealthyGuard(g) && f.db[CoordinatorKey] == Entry(g.health, g.lease)
    ensures HasAssignment(f.db, u) && AssignmentAt(f.db, u).hosts == {}
    ensures var m := Release(AssignmentAt(f.db, u), IntentAt(f.db, u));
      Admissible(cfg, m) && Commits(f.db, Compile(cfg, m, g))
      && !HasAssignment(Apply(f.db, Compile(cfg, m, g)), u)
  {
    var a, i := AssignmentAt(f.db, u), IntentAt(f.db, u);
    EveryHostRanks(cfg, f.db, u);
    assert RecordOk(cfg, ReleaseKey(u), f.db[ReleaseKey(u)].raw);
    assert RecordOk(cfg, InstanceKey(u), f.db[InstanceKey(u)].raw);
    assert Admissible(cfg, Release(a, i));
    CompileCommits(cfg, f.db, Release(a, i), g);
  }

  /** While work is pending, some claim transition is still possible: the barrier never deadlocks. */
  lemma PendingClaimCanMove(cfg: Config, db: Db, u: Uuid, fence: Fence) returns (m: Mutation)
    requires Consistent(cfg, db) && HasAssignment(db, u) && Pending(db, u) > 0 && ValidFence(fence)
    ensures Admissible(cfg, m) && ClaimTransition(m, u) && Commits(db, Body(cfg, m))
  {
    SubsetSize(AtLeast(db, u, 2), AtLeast(db, u, 1));
    SubsetSize(AtLeast(db, u, 3), AtLeast(db, u, 1));
    var h: Uuid :| h in AtLeast(db, u, 1);
    var a, c := AssignmentAt(db, u), ClaimAt(db, h, u);
    assert RecordOk(cfg, HostKey(h, u), db[HostKey(h, u)].raw);
    assert RecordOk(cfg, InstanceKey(u), db[InstanceKey(u)].raw);
    if c.state.Cleaned? {
      m := Retire(a, c);
    } else {
      m := FenceRetire(a, c, fence.(instance := u, host := h, allocation := a.gen.allocation, token := Some(c.token)));
    }
  }
}
