/** Every committed mutation sits behind a live lease whose holder audited the whole registry. */
module Guarded {
  import opened Wrappers
  import opened Records
  import opened Store
  import opened Registry
  import opened Fleet
  import opened Runs

  /**
   * The election at `a` took the lease, the elected process accepted a full
   * audit at `b`, and the lease has been live ever since.
   */
  ghost predicate AuditedSince(cfg: Config, r: Run, a: nat, b: nat, i: nat, lease: LeaseId)
    requires ValidRun(cfg, r)
  {
    && a < b < i < |r.states|
    && r.actions[a].Acquire? && r.actions[a].lease == lease && Elected(cfg, r.states[a], r.actions[a])
    && r.actions[b].PassAudit? && r.actions[b].round == r.actions[a].round
    && WellFormed(cfg, r.states[b].db)
    && forall k | a <= k <= i :: lease in r.states[k].live
  }

  lemma {:induction false} AcquiredEarlier(cfg: Config, r: Run, i: nat, round: Uuid) returns (a: nat)
    requires ValidRun(cfg, r) && i < |r.states| && round in r.states[i].acquired
    ensures a < i && r.actions[a].Acquire? && r.actions[a].round == round
    ensures Elected(cfg, r.states[a], r.actions[a])
    ensures r.actions[a].lease == r.states[i].acquired[round]
  {
    var p := i - 1;
    assert Stepped(cfg, r, p);
    if round in r.states[p].acquired && r.states[p].acquired[round] == r.states[i].acquired[round] {
      a := AcquiredEarlier(cfg, r, p, round);
    } else {
      a := p;
    }
  }

  lemma {:induction false} PassedEarlier(cfg: Config, r: Run, i: nat, round: Uuid) returns (b: nat)
    requires ValidRun(cfg, r) && i < |r.states| && round in r.states[i].passed
    ensures b < i && r.actions[b] == PassAudit(round)
    ensures WellFormed(cfg, r.states[b].db) && round in r.states[b].acquired
  {
    assert Stepped(cfg, r, i - 1);
    if round in r.states[i - 1].passed {
      b := PassedEarlier(cfg, r, i - 1, round);
    } else {
      b := i - 1;
    }
  }

  /** Rounds and their leases are never reassigned. */
  lemma {:induction false} AcquiredStays(cfg: Config, r: Run, b: nat, i: nat, round: Uuid)
    requires ValidRun(cfg, r) && b <= i < |r.states| && round in r.states[b].acquired
    ensures round in r.states[i].acquired && r.states[i].acquired[round] == r.states[b].acquired[round]
  {
    if b < i {
      AcquiredStays(cfg, r, b, i - 1, round);
      assert Stepped(cfg, r, i - 1);
      RunKeepsInv(cfg, r, i - 1);
      AcquiredKept(cfg, r.states[i - 1], r.actions[i - 1], round);
    }
  }

  lemma AcquiredKept(cfg: Config, f: Fleet, a: Action, round: Uuid)
    requires f.acquired.Keys <= f.rounds && Permitted(cfg, f, a) && round in f.acquired
    ensures round in Step(cfg, f, a).acquired && Step(cfg, f, a).acquired[round] == f.acquired[round]
  {
  }

  /** A granted lease that is live now was live all along. */
  lemma {:induction false} LiveBetween(cfg: Config, r: Run, a: nat, k: nat, i: nat, lease: LeaseId)
    requires ValidRun(cfg, r) && a <= k <= i < |r.states|
    requires lease in r.states[a].live && lease in r.states[i].live
    ensures lease in r.states[k].live
  {
    if k < i {
      GrantedStays(cfg, r, a, i - 1, lease);
      assert Stepped(cfg, r, i - 1);
      LiveBetween(cfg, r, a, k, i - 1, lease);
    }
  }

  lemma {:induction false} GrantedStays(cfg: Config, r: Run, a: nat, i: nat, lease: LeaseId)
    requires ValidRun(cfg, r) && a <= i < |r.states| && lease in r.states[a].live
    ensures lease in r.states[i].granted
  {
    if a == i {
      RunKeepsInv(cfg, r, i);
    } else {
      assert Stepped(cfg, r, i - 1);
      GrantedStays(cfg, r, a, i - 1, lease);
    }
  }

  lemma GuardHolds(cfg: Config, f: Fleet, a: Action)
    ensures MutationCommits(cfg, f, a) ==>
      FailureKey !in f.db && CoordinatorKey in f.db && f.db[CoordinatorKey] == Entry(a.g.health, a.g.lease)
  {
    if MutationCommits(cfg, f, a) {
      CompileCommits(cfg, f.db, a.m, a.g);
      assert Holds(f.db, ValueIs(CoordinatorKey, a.g.health));
      assert Holds(f.db, LeaseIs(CoordinatorKey, a.g.lease));
      assert Holds(f.db, Absent(FailureKey));
    }
  }

  /** No mutation commits except under a lease whose holder passed a full audit after winning it. */
  lemma MutationsAreAudited(cfg: Config, r: Run, i: nat)
    requires ValidRun(cfg, r) && CommitsAt(cfg, r, i)
    ensures FailureKey !in r.states[i].db
    ensures CoordinatorKey in r.states[i].db
    ensures r.states[i].db[CoordinatorKey].raw.CoordinatorRecord?
    ensures r.states[i].db[CoordinatorKey].raw.state.Healthy?
    ensures exists a: nat, b: nat :: AuditedSince(cfg, r, a, b, i, r.states[i].db[CoordinatorKey].lease)
  {
    RunKeepsInv(cfg, r, i);
    assert Stepped(cfg, r, i);
    GuardHolds(cfg, r.states[i], r.actions[i]);
    var lease := r.states[i].db[CoordinatorKey].lease;
    assert Audited(r.states[i], lease);
    var round :| round in r.states[i].passed && round in r.states[i].acquired
                 && r.states[i].acquired[round] == lease;
    var b := PassedEarlier(cfg, r, i, round);
    AcquiredStays(cfg, r, b, i, round);
    var a := AcquiredEarlier(cfg, r, b, round);
    forall k | a <= k <= i ensures lease in r.states[k].live {
      LiveBetween(cfg, r, a, k, i, lease);
    }
    assert AuditedSince(cfg, r, a, b, i, lease);
  }

  lemma {:induction false} FailureIsSticky(cfg: Config, r: Run, j: nat, i: nat)
    requires ValidRun(cfg, r) && j <= i < |r.states| && FailureKey in r.states[j].db
    ensures FailureKey in r.states[i].db && r.states[i].db[FailureKey] == r.states[j].db[FailureKey]
  {
    if j < i {
      FailureIsSticky(cfg, r, j, i - 1);
      RunKeepsInv(cfg, r, i - 1);
      assert Stepped(cfg, r, i - 1);
      StepKeepsFailure(cfg, r.states[i - 1], r.actions[i - 1]);
    }
  }

  lemma StepKeepsFailure(cfg: Config, f: Fleet, a: Action)
    requires Inv(cfg, f) && Permitted(cfg, f, a) && FailureKey in f.db
    ensures FailureKey in Step(cfg, f, a).db && Step(cfg, f, a).db[FailureKey] == f.db[FailureKey]
  {
    if a.Mutate? {
      GuardHolds(cfg, f, a);
    } else if a.PublishFailure? {
      assert !Holds(f.db, Absent(FailureKey));
      assert Absent(FailureKey) in PublishTxn(cfg, a.reporter, a.reason).compares;
    }
  }

  /** Once a failure is published, no mutation ever commits again. */
  lemma NothingCommitsAfterFailure(cfg: Config, r: Run, j: nat, i: nat)
    requires ValidRun(cfg, r) && j <= i < |r.states| && FailureKey in r.states[j].db
    ensures !CommitsAt(cfg, r, i)
  {
    FailureIsSticky(cfg, r, j, i);
    if i < |r.actions| {
      GuardHolds(cfg, r.states[i], r.actions[i]);
    }
  }

  // ---- which refresh prolongs a pending record ---------------------------------------

  /** The coordinator record under this lease, at one revision. */
  ghost predicate Holding(f: Fleet, owner: Uuid, lease: LeaseId) {
    && CoordinatorKey in f.db && f.db[CoordinatorKey].lease == lease
    && f.db[CoordinatorKey].raw.CoordinatorRecord? && f.db[CoordinatorKey].raw.owner == owner
  }

  /** The record is pending, and its round is not one that an election recorded, so no audit frees it. */
  ghost predicate Demoted(f: Fleet)
    requires CoordinatorKey in f.db && f.db[CoordinatorKey].raw.CoordinatorRecord?
  {
    f.db[CoordinatorKey].raw.state.Pending? && f.db[CoordinatorKey].raw.round !in f.acquired
  }

  /** The owner's own demotion under this lease takes effect as the `k`-th action. */
  ghost predicate DemotedAt(cfg: Config, r: Run, k: nat, owner: Uuid, lease: LeaseId)
    requires ValidRun(cfg, r)
  {
    && k < |r.actions| && r.actions[k].Demote? && r.actions[k].owner == owner && r.actions[k].lease == lease
    && DemotionTakesEffect(cfg, r.states[k], r.actions[k])
  }

  ghost predicate DemotedBetween(cfg: Config, r: Run, i: nat, j: nat, owner: Uuid, lease: LeaseId)
    requires ValidRun(cfg, r)
  {
    exists k: nat :: i <= k < j && DemotedAt(cfg, r, k, owner, lease)
  }

  /** While the lease lives, its record changes hands with nobody and turns pending only by demotion. */
  lemma HolderStep(cfg: Config, f: Fleet, a: Action, owner: Uuid, lease: LeaseId)
    requires Inv(cfg, f) && Permitted(cfg, f, a) && Holding(f, owner, lease) && a != Expire(lease)
    requires f.db[CoordinatorKey].raw.state.Pending? ==> Demoted(f)
    ensures var f' := Step(cfg, f, a);
      && Holding(f', owner, lease)
      && (f'.db[CoordinatorKey].raw.state.Pending? ==> Demoted(f'))
      && (f'.db[CoordinatorKey].raw.state.Pending? <==>
            || f.db[CoordinatorKey].raw.state.Pending?
            || (a.Demote? && a.owner == owner && a.lease == lease && DemotionTakesEffect(cfg, f, a)))
  {
    match a
    case Mutate(m, g) => PutsStayPlain(cfg, m, g);
    case Acquire(o, round, l, stale) =>
      var t := ReplaceCoordinator(cfg, stale, 0, CoordinatorRecord(o, Pending, round), l);
      var c := if stale.None? then Absent(CoordinatorKey) else LeaseIs(CoordinatorKey, 0);
      assert c in t.compares && !Holds(f.db, c);
    case Promote(o, round, l, seen) =>
      ReplacedWasSeen(cfg, f.db, seen, l, CoordinatorRecord(o, Healthy, round));
    case Demote(o, round, l, seen) =>
      ReplacedWasSeen(cfg, f.db, seen, l, CoordinatorRecord(o, Pending, round));
    case _ =>
  }

  lemma ReplacedWasSeen(cfg: Config, db: Db, seen: Raw, lease: LeaseId, desired: Raw)
    ensures Commits(db, ReplaceCoordinator(cfg, Some(seen), lease, desired, lease)) ==>
      CoordinatorKey in db && db[CoordinatorKey] == Entry(seen, lease)
  {
    var t := ReplaceCoordinator(cfg, Some(seen), lease, desired, lease);
    if Commits(db, t) {
      assert Holds(db, ValueIs(CoordinatorKey, seen)) && Holds(db, LeaseIs(CoordinatorKey, lease));
    }
  }

  /** A granted lease is never granted again, and only an expiry ends it. */
  lemma LeaseStep(cfg: Config, f: Fleet, a: Action, lease: LeaseId)
    requires Permitted(cfg, f, a) && lease in f.granted
    ensures lease in Step(cfg, f, a).granted
    ensures lease in Step(cfg, f, a).live <==> lease in f.live && a != Expire(lease)
  {
  }

  /** From a healthy record on: while its lease lives, it is pending exactly when its owner demoted it. */
  lemma {:induction false} PendingOnlyByDemotion(
      cfg: Config, r: Run, i: nat, j: nat, owner: Uuid, lease: LeaseId)
    requires ValidRun(cfg, r) && i <= j < |r.states|
    requires Holding(r.states[i], owner, lease) && r.states[i].db[CoordinatorKey].raw.state.Healthy?
    ensures lease in r.states[j].granted
    ensures lease in r.states[j].live ==>
      && Holding(r.states[j], owner, lease)
      && (r.states[j].db[CoordinatorKey].raw.state.Pending? ==> Demoted(r.states[j]))
      && (r.states[j].db[CoordinatorKey].raw.state.Pending? <==> DemotedBetween(cfg, r, i, j, owner, lease))
  {
    RunKeepsInv(cfg, r, j);
    if i < j {
      var k := j - 1;
      PendingOnlyByDemotion(cfg, r, i, k, owner, lease);
      RunKeepsInv(cfg, r, k);
      assert Stepped(cfg, r, k);
      LeaseStep(cfg, r.states[k], r.actions[k], lease);
      if lease in r.states[j].live {
        HolderStep(cfg, r.states[k], r.actions[k], owner, lease);
        DemotedBetweenStep(cfg, r, i, k, owner, lease);
      }
    }
  }

  lemma DemotedBetweenStep(cfg: Config, r: Run, i: nat, k: nat, owner: Uuid, lease: LeaseId)
    requires ValidRun(cfg, r) && i <= k
    ensures DemotedBetween(cfg, r, i, k + 1, owner, lease) <==>
            DemotedBetween(cfg, r, i, k, owner, lease) || DemotedAt(cfg, r, k, owner, lease)
  {
  }

  /** The `j`-th action is a refresh that keeps a pending record alive. */
  ghost predicate ProlongsPending(r: Run, j: nat)
    requires j < |r.actions| && j < |r.states|
  {
    && r.actions[j].Refresh? && r.actions[j].lease in r.states[j].live
    && CoordinatorKey in r.states[j].db && r.states[j].db[CoordinatorKey].lease == r.actions[j].lease
    && r.states[j].db[CoordinatorKey].raw.CoordinatorRecord?
    && r.states[j].db[CoordinatorKey].raw.state.Pending?
  }

  /**
   * An auditor refreshes its lease after reading its own healthy record, at
   * revision `i`. The refresh that arrives as action `j` prolongs a pending
   * record if and only if the lease is still live and a demotion by the same
   * owner took effect in between; and then nothing promotes the record again.
   */
  lemma RefreshProlongsPendingExactly(cfg: Config, r: Run, i: nat, j: nat)
    requires ValidRun(cfg, r) && i <= j < |r.actions| && r.actions[j].Refresh?
    requires Stepped(cfg, r, j) && ShownAt(r, i, r.actions[j].seen, r.actions[j].lease)
    ensures ProlongsPending(r, j) <==>
      && r.actions[j].lease in r.states[j].live
      && DemotedBetween(cfg, r, i, j, r.actions[j].seen.owner, r.actions[j].lease)
    ensures ProlongsPending(r, j) ==> r.states[j].db[CoordinatorKey].raw.round !in r.states[j].passed
  {
    PendingOnlyByDemotion(cfg, r, i, j, r.actions[j].seen.owner, r.actions[j].lease);
    RunKeepsInv(cfg, r, j);
  }

  /** A demoted round is never audited, so nothing turns it healthy again. */
  lemma DemotedRoundIsDead(cfg: Config, r: Run, j: nat, i: nat)
    requires ValidRun(cfg, r) && j < i < |r.states| && r.actions[j].Demote?
    ensures r.actions[j].round !in r.states[i].passed
    ensures i < |r.actions| && r.actions[i].Promote? && r.actions[i].seen.CoordinatorRecord?
            ==> r.actions[i].seen.round != r.actions[j].round || r.actions[i].seen.state.Healthy?
  {
    RoundNeverAcquired(cfg, r, j, i);
    RunKeepsInv(cfg, r, i);
    if i < |r.actions| {
      assert Stepped(cfg, r, i);
    }
  }

  /** Only an election acquires a round, and only an unused one. */
  lemma UsedRoundStep(cfg: Config, f: Fleet, a: Action, round: Uuid)
    requires Permitted(cfg, f, a) && round in f.rounds && round !in f.acquired
    ensures round in Step(cfg, f, a).rounds && round !in Step(cfg, f, a).acquired
  {
  }

  lemma DemoteStep(cfg: Config, f: Fleet, a: Action)
    requires Inv(cfg, f) && Permitted(cfg, f, a) && a.Demote?
    ensures a.round in Step(cfg, f, a).rounds && a.round !in Step(cfg, f, a).acquired
  {
  }

  lemma RoundStaysSpent(cfg: Config, r: Run, k: nat, round: Uuid)
    requires ValidRun(cfg, r) && k < |r.actions|
    requires round in r.states[k].rounds && round !in r.states[k].acquired
    ensures round in r.states[k + 1].rounds && round !in r.states[k + 1].acquired
  {
    assert Stepped(cfg, r, k);
    UsedRoundStep(cfg, r.states[k], r.actions[k], round);
  }

  lemma RoundSpent(cfg: Config, r: Run, j: nat)
    requires ValidRun(cfg, r) && j < |r.actions| && r.actions[j].Demote?
    ensures r.actions[j].round in r.states[j + 1].rounds && r.actions[j].round !in r.states[j + 1].acquired
  {
    assert Stepped(cfg, r, j);
    RunKeepsInv(cfg, r, j);
    DemoteStep(cfg, r.states[j], r.actions[j]);
  }

  lemma {:induction false} RoundNeverAcquired(cfg: Config, r: Run, j: nat, i: nat)
    requires ValidRun(cfg, r) && j < i < |r.states| && r.actions[j].Demote?
    ensures r.actions[j].round in r.states[i].rounds && r.actions[j].round !in r.states[i].acquired
  {
    if j + 1 == i {
      RoundSpent(cfg, r, j);
    } else {
      RoundNeverAcquired(cfg, r, j, i - 1);
      RoundStaysSpent(cfg, r, i - 1, r.actions[j].round);
    }
  }
}
