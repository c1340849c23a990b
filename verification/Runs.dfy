/** Whole runs of the fleet, and well-formedness over them. */
module Runs {
  import opened Wrappers
  import opened Records
  import opened Store
  import opened Registry
  import opened Preservation
  import opened Replay
  import opened Fleet

  datatype Run = Run(states: seq<Fleet>, actions: seq<Action>)

  ghost predicate ValidRun(cfg: Config, r: Run) {
    && |r.states| == |r.actions| + 1
    && r.states[0] == Boot(cfg)
    && forall i: nat | i < |r.actions| :: Stepped(cfg, r, i)
  }

  /** The `i`-th action was permitted and led to the next state. */
  ghost predicate Stepped(cfg: Config, r: Run, i: nat)
    requires i < |r.actions| && |r.states| == |r.actions| + 1
  {
    Permitted(cfg, r.states[i], r.actions[i])
    && r.states[i + 1] == Step(cfg, r.states[i], r.actions[i])
  }

  /** A run goes on with any permitted action. */
  function Extended(r: Run, a: Action, f: Fleet): Run {
    Run(r.states + [f], r.actions + [a])
  }

  lemma RunExtends(cfg: Config, r: Run, a: Action)
    requires ValidRun(cfg, r) && Permitted(cfg, r.states[|r.actions|], a)
    ensures ValidRun(cfg, Extended(r, a, Step(cfg, r.states[|r.actions|], a)))
  {
    var r' := Extended(r, a, Step(cfg, r.states[|r.actions|], a));
    forall i: nat | i < |r'.actions| ensures Stepped(cfg, r', i) {
      if i < |r.actions| {
        assert Stepped(cfg, r, i);
      }
    }
  }

  /** The `i`-th action of the run is a mutation that etcd committed. */
  ghost predicate CommitsAt(cfg: Config, r: Run, i: nat)
    requires ValidRun(cfg, r)
  {
    i < |r.actions| && MutationCommits(cfg, r.states[i], r.actions[i])
  }

  /** The coordinator record and its lease at one revision. */
  ghost predicate ShownAt(r: Run, i: nat, raw: Raw, lease: LeaseId) {
    i < |r.states| && CoordinatorKey in r.states[i].db && r.states[i].db[CoordinatorKey] == Entry(raw, lease)
  }

  /** Every revision of every run is consistent, however stale or repeated the writes were. */
  lemma {:induction false} RunKeepsInv(cfg: Config, r: Run, i: nat)
    requires ValidRun(cfg, r) && i < |r.states|
    ensures Inv(cfg, r.states[i])
  {
    if i == 0 {
      BootInv(cfg);
    } else {
      RunKeepsInv(cfg, r, i - 1);
      assert Stepped(cfg, r, i - 1);
      StepKeepsInv(cfg, r.states[i - 1], r.actions[i - 1]);
    }
  }

  lemma BootInv(cfg: Config)
    ensures Inv(cfg, Boot(cfg)) && WellFormed(cfg, Boot(cfg).db)
  {}

  /** The run never commits a claim under a token that the fence ledger holds. */
  ghost predicate NeverReclaims(cfg: Config, r: Run)
    requires ValidRun(cfg, r)
  {
    forall i: nat | CommitsAt(cfg, r, i) :: !ReclaimsFenced(r.states[i].db, r.actions[i].m)
  }

  lemma WellFormedStep(cfg: Config, f: Fleet, a: Action)
    requires Inv(cfg, f) && WellFormed(cfg, f.db) && Permitted(cfg, f, a)
    ensures WellFormed(cfg, Step(cfg, f, a).db) <==>
            (MutationCommits(cfg, f, a) ==> !ReclaimsFenced(f.db, a.m))
  {
    StepKeepsInv(cfg, f, a);
    match a
    case Mutate(m, g) =>
      if Commits(f.db, Compile(cfg, m, g)) {
        FenceLedgerExact(cfg, f.db, m, g);
      }
    case Grant(_) =>
    case Expire(_) => ExpireKeepsInv(cfg, f, a);
    case Acquire(_, _, _, _) => CoordinatorKeepsInv(cfg, f, a);
    case PassAudit(_) =>
    case Promote(_, _, _, _) => CoordinatorKeepsInv(cfg, f, a);
    case Demote(_, _, _, _) => CoordinatorKeepsInv(cfg, f, a);
    case Refresh(_, _) =>
    case PublishFailure(_, _) => PublishKeepsInv(cfg, f, a);
  }

  lemma {:induction false} WellFormedUpTo(cfg: Config, r: Run, i: nat)
    requires ValidRun(cfg, r) && i < |r.states| && NeverReclaims(cfg, r)
    ensures WellFormed(cfg, r.states[i].db)
  {
    if i == 0 {
      BootInv(cfg);
    } else {
      WellFormedUpTo(cfg, r, i - 1);
      RunKeepsInv(cfg, r, i - 1);
      assert Stepped(cfg, r, i - 1);
      WellFormedStep(cfg, r.states[i - 1], r.actions[i - 1]);
      assert CommitsAt(cfg, r, i - 1) <==> MutationCommits(cfg, r.states[i - 1], r.actions[i - 1]);
    }
  }

  /** A run is well formed at every revision exactly when it never reclaims a fenced token. */
  lemma RunWellFormedExactly(cfg: Config, r: Run)
    requires ValidRun(cfg, r)
    ensures (forall i | 0 <= i < |r.states| :: WellFormed(cfg, r.states[i].db)) <==> NeverReclaims(cfg, r)
  {
    if NeverReclaims(cfg, r) {
      forall i | 0 <= i < |r.states| ensures WellFormed(cfg, r.states[i].db) {
        WellFormedUpTo(cfg, r, i);
      }
    }
    if forall i | 0 <= i < |r.states| :: WellFormed(cfg, r.states[i].db) {
      forall i: nat | CommitsAt(cfg, r, i) ensures !ReclaimsFenced(r.states[i].db, r.actions[i].m) {
        RunKeepsInv(cfg, r, i);
        assert Stepped(cfg, r, i);
        WellFormedStep(cfg, r.states[i], r.actions[i]);
        assert WellFormed(cfg, r.states[i + 1].db);
      }
    }
  }
}
