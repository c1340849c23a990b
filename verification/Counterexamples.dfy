/** Runs in which a promise fails outside its condition, or an alarm is raised without cause. */
module Counterexamples {
  import opened Wrappers
  import opened Records
  import opened Store
  import opened Registry
  import opened Preservation
  import opened Effects
  import opened Replay
  import opened Fleet
  import opened Runs
  import opened Guarded
  import opened Etcd
  import opened Reader
  import opened Aftermath
  import opened Decisions

  // ---- a replayed claim after its fencing ------------------------------------------------

  predicate GuardHolds(cfg: Config, db: Db, g: Guard) {
    Commits(db, Txn(GuardCompares(cfg, g), map[], {}))
  }

  /** A mutation leaves the health guard standing. */
  lemma GuardStands(cfg: Config, db: Db, m: Mutation, g: Guard)
    requires Admissible(cfg, m) && GuardHolds(cfg, db, g) && Configured(cfg, db)
    ensures GuardHolds(cfg, Apply(db, Body(cfg, m)), g)
  {
    PutsStayPlain(cfg, m, g);
    ConfigUntouched(cfg, m);
    var t := Body(cfg, m);
    forall c | c in GuardCompares(cfg, g) ensures Holds(Apply(db, t), c) {
      assert Holds(db, c);
      assert t.puts == Compile(cfg, m, g).puts && t.deletes == Compile(cfg, m, g).deletes;
    }
  }

  lemma ConfigUntouched(cfg: Config, m: Mutation)
    requires Admissible(cfg, m)
    ensures ConfigKey !in Body(cfg, m).puts && ConfigKey !in Body(cfg, m).deletes
  {
    if m.RestoreAll? {
      RestoredView(m.current, m.claims, m.barrier, Body(cfg, m));
      assert !Touches(ConfigKey, m.current.gen.instance, m.current.gen.slot);
    }
  }

  function Fencing(a: Assignment, h: Uuid, t: Uuid, fence: Fence): Mutation {
    FenceRetire(
      a.(hosts := a.hosts + {h}), NewClaim(a.gen, h, t),
      fence.(instance := a.gen.instance, host := h, allocation := a.gen.allocation, token := Some(t)))
  }

  lemma HostKeyNeedsHost(cfg: Config, db: Db, h: Uuid, u: Uuid)
    requires Consistent(cfg, db)
    ensures HostKey(h, u) in db ==> HasAssignment(db, u) && h in AssignmentAt(db, u).hosts
  {
    if HostKey(h, u) in db {
      assert RecordOk(cfg, HostKey(h, u), db[HostKey(h, u)].raw);
      assert HasClaim(db, h, u);
    }
  }

  /** A host may claim this allocation, under a token that nobody has fenced. */
  ghost predicate Claimable(cfg: Config, db: Db, g: Guard, a: Assignment, h: Uuid, t: Uuid) {
    && WellFormed(cfg, db) && GuardHolds(cfg, db, g) && Configured(cfg, db)
    && HasAssignment(db, a.gen.instance) && AssignmentAt(db, a.gen.instance) == a && h !in a.hosts
    && ReleaseKey(a.gen.instance) !in db && !FencedToken(db, h, a.gen.instance, t)
  }

  /** The host holds exactly the claim that was just made. */
  ghost predicate Claimed(cfg: Config, db: Db, g: Guard, a: Assignment, h: Uuid, t: Uuid) {
    && WellFormed(cfg, db) && GuardHolds(cfg, db, g) && Configured(cfg, db)
    && HasAssignment(db, a.gen.instance) && AssignmentAt(db, a.gen.instance) == a.(hosts := a.hosts + {h})
    && HasClaim(db, h, a.gen.instance) && ClaimAt(db, h, a.gen.instance) == NewClaim(a.gen, h, t)
    && ReleaseKey(a.gen.instance) !in db
  }

  lemma ClaimCommits(cfg: Config, db: Db, g: Guard, a: Assignment, h: Uuid, t: Uuid)
    requires Consistent(cfg, db) && GuardHolds(cfg, db, g)
    requires HasAssignment(db, a.gen.instance) && AssignmentAt(db, a.gen.instance) == a && h !in a.hosts
    requires ReleaseKey(a.gen.instance) !in db
    ensures Admissible(cfg, AddClaim(a, h, t))
    ensures Commits(db, Body(cfg, AddClaim(a, h, t))) && Commits(db, Compile(cfg, AddClaim(a, h, t), g))
  {
    var u := a.gen.instance;
    assert RecordOk(cfg, InstanceKey(u), db[InstanceKey(u)].raw);
    HostKeyNeedsHost(cfg, db, h, u);
    CompileCommits(cfg, db, AddClaim(a, h, t), g);
  }

  lemma FencingCommits(cfg: Config, db: Db, g: Guard, a: Assignment, h: Uuid, t: Uuid, fence: Fence)
    requires Consistent(cfg, db) && GuardHolds(cfg, db, g) && ValidFence(fence)
    requires HasAssignment(db, a.gen.instance) && AssignmentAt(db, a.gen.instance) == a.(hosts := a.hosts + {h})
    requires HasClaim(db, h, a.gen.instance) && ClaimAt(db, h, a.gen.instance) == NewClaim(a.gen, h, t)
    ensures Admissible(cfg, Fencing(a, h, t, fence))
    ensures Commits(db, Body(cfg, Fencing(a, h, t, fence))) && Commits(db, Compile(cfg, Fencing(a, h, t, fence), g))
  {
    var u := a.gen.instance;
    assert RecordOk(cfg, InstanceKey(u), db[InstanceKey(u)].raw);
    assert RecordOk(cfg, HostKey(h, u), db[HostKey(h, u)].raw);
    CompileCommits(cfg, db, Fencing(a, h, t, fence), g);
  }

  lemma AfterClaim(cfg: Config, db: Db, g: Guard, a: Assignment, h: Uuid, t: Uuid)
    requires Claimable(cfg, db, g, a, h, t)
    ensures Admissible(cfg, AddClaim(a, h, t)) && Commits(db, Compile(cfg, AddClaim(a, h, t), g))
    ensures Claimed(cfg, Submit(db, Compile(cfg, AddClaim(a, h, t), g)), g, a, h, t)
  {
    var u := a.gen.instance;
    var m := AddClaim(a, h, t);
    ClaimCommits(cfg, db, g, a, h, t);
    CompileCommits(cfg, db, m, g);
    FenceLedgerExact(cfg, db, m, g);
    AfterBody(cfg, db, m, g);
    PairEffect(cfg, db, m, u);
    ClaimEffect(cfg, db, m, h, u);
    IntentEffect(cfg, db, m, u);
  }

  /** Fencing the host puts back everything that the claim compared. */
  lemma AfterFencing(cfg: Config, db: Db, g: Guard, a: Assignment, h: Uuid, t: Uuid, fence: Fence)
    requires Claimed(cfg, db, g, a, h, t) && ValidFence(fence) && h !in a.hosts
    ensures Admissible(cfg, Fencing(a, h, t, fence)) && Commits(db, Compile(cfg, Fencing(a, h, t, fence), g))
    ensures var db' := Submit(db, Compile(cfg, Fencing(a, h, t, fence), g));
      && WellFormed(cfg, db') && GuardHolds(cfg, db', g)
      && HasAssignment(db', a.gen.instance) && AssignmentAt(db', a.gen.instance) == a
      && ReleaseKey(a.gen.instance) !in db' && FencedToken(db', h, a.gen.instance, t)
  {
    var u := a.gen.instance;
    var f := Fencing(a, h, t, fence);
    FencingCommits(cfg, db, g, a, h, t, fence);
    CompileCommits(cfg, db, f, g);
    FenceLedgerExact(cfg, db, f, g);
    AfterBody(cfg, db, f, g);
    PairEffect(cfg, db, f, u);
    IntentEffect(cfg, db, f, u);
    FenceEffect(cfg, db, f, h, u);
    assert a.hosts + {h} - {h} == a.hosts;
  }

  /**
   * Wherever a host can claim, this breaks the ledger: the claim commits, the
   * host is fenced, and the very same claim transaction arrives once more. It
   * commits again, because the fencing restored everything that it compares.
   */
  lemma ReplayedClaimBreaksLedger(
      cfg: Config, db: Db, g: Guard, a: Assignment, h: Uuid, t: Uuid, fence: Fence)
    requires Claimable(cfg, db, g, a, h, t) && ValidFence(fence)
    ensures Admissible(cfg, AddClaim(a, h, t)) && Admissible(cfg, Fencing(a, h, t, fence))
    ensures var claim, fencing := Compile(cfg, AddClaim(a, h, t), g), Compile(cfg, Fencing(a, h, t, fence), g);
      var claimed := Submit(db, claim);
      var fenced := Submit(claimed, fencing);
      && WellFormed(cfg, claimed) && WellFormed(cfg, fenced)
      && Commits(db, claim) && Commits(claimed, fencing) && Commits(fenced, claim)
      && !WellFormed(cfg, Submit(fenced, claim))
  {
    var m := AddClaim(a, h, t);
    AfterClaim(cfg, db, g, a, h, t);
    var claimed := Submit(db, Compile(cfg, m, g));
    AfterFencing(cfg, claimed, g, a, h, t, fence);
    var fenced := Submit(claimed, Compile(cfg, Fencing(a, h, t, fence), g));
    ClaimCommits(cfg, fenced, g, a, h, t);
    FenceLedgerExact(cfg, fenced, m, g);
  }

  lemma AfterBody(cfg: Config, db: Db, m: Mutation, g: Guard)
    requires Consistent(cfg, db) && Admissible(cfg, m) && GuardHolds(cfg, db, g) && Configured(cfg, db)
    requires Commits(db, Compile(cfg, m, g))
    ensures Consistent(cfg, Apply(db, Body(cfg, m)))
    ensures GuardHolds(cfg, Apply(db, Body(cfg, m)), g) && Configured(cfg, Apply(db, Body(cfg, m)))
  {
    MutationKeepsConsistent(cfg, db, m, g);
    CompileCommits(cfg, db, m, g);
    GuardStands(cfg, db, m, g);
    ConfigUntouched(cfg, m);
  }

  // ---- a run that gets there ---------------------------------------------------------------

  const OWNER: Uuid := 7

  function Health(round: Uuid): Raw { CoordinatorRecord(OWNER, Healthy, round) }

  function PendingRecord(round: Uuid): Raw { CoordinatorRecord(OWNER, Pending, round) }

  /** A fleet with one live lease, its coordinator record, and nothing else. */
  function Elected1(cfg: Config, raw: Raw, rounds: set<Uuid>, passed: set<Uuid>): Fleet {
    Fleet(map[ConfigKey := Plain(ConfigRecord(cfg)), CoordinatorKey := Entry(raw, 1)],
          {1}, {1}, rounds, map[1 := 1], passed)
  }

  /** One process wins the election, passes its audit and publishes health. */
  function HealthyActions(): seq<Action> {
    [Grant(1), Acquire(OWNER, 1, 1, None), PassAudit(1), Promote(OWNER, 2, 1, PendingRecord(1))]
  }

  lemma HealthyRun(cfg: Config) returns (r: Run)
    ensures ValidRun(cfg, r) && r.actions == HealthyActions()
    ensures r.states[4] == Elected1(cfg, Health(2), {1, 2}, {1})
  {
    r := ElectedRun(cfg);
    ElectedWellFormed(cfg, PendingRecord(1), {1}, {});
    r := Extend(cfg, r, PassAudit(1), Elected1(cfg, PendingRecord(1), {1}, {1}));
    r := Extend(cfg, r, Promote(OWNER, 2, 1, PendingRecord(1)), Elected1(cfg, Health(2), {1, 2}, {1}));
  }

  lemma ElectedRun(cfg: Config) returns (r: Run)
    ensures ValidRun(cfg, r) && r.actions == HealthyActions()[..2]
    ensures r.states[2] == Elected1(cfg, PendingRecord(1), {1}, {})
  {
    r := Run([Boot(cfg)], []);
    r := Extend(cfg, r, Grant(1), Boot(cfg).(live := {1}, granted := {1}));
    r := Extend(cfg, r, Acquire(OWNER, 1, 1, None), Elected1(cfg, PendingRecord(1), {1}, {}));
  }

  lemma ElectedWellFormed(cfg: Config, raw: Raw, rounds: set<Uuid>, passed: set<Uuid>)
    requires raw.CoordinatorRecord?
    ensures WellFormed(cfg, Elected1(cfg, raw, rounds, passed).db)
  {
  }

  /** Append one action whose result is known. */
  lemma Extend(cfg: Config, r: Run, a: Action, f: Fleet) returns (r': Run)
    requires ValidRun(cfg, r) && Permitted(cfg, r.states[|r.actions|], a)
    requires Step(cfg, r.states[|r.actions|], a) == f
    ensures r' == Extended(r, a, f) && ValidRun(cfg, r')
  {
    RunExtends(cfg, r, a);
    r' := Extended(r, a, f);
  }

  /**
   * A demotion by another thread of the auditor's own process turns the record
   * pending under the same live lease: the refresh that was decided on the
   * healthy record of revision 4 arrives at revision 5 and prolongs a pending one.
   */
  lemma SiblingDemotionProlongsPending(cfg: Config) returns (r: Run)
    ensures ValidRun(cfg, r) && |r.states| == 7
    ensures ShownAt(r, 4, Health(2), 1) && r.actions[4] == Demote(OWNER, 3, 1, Health(2))
    ensures r.actions[5] == Refresh(1, Health(2)) && ProlongsPending(r, 5)
  {
    r := HealthyRun(cfg);
    r := Extend(cfg, r, Demote(OWNER, 3, 1, Health(2)), Elected1(cfg, PendingRecord(3), {1, 2, 3}, {1}));
    r := Extend(cfg, r, Refresh(1, Health(2)), r.states[5]);
  }

  function HealthyGuardOf(): Guard { Guard(Health(2), 1) }

  /** The sequence of the ledger's end: allocate, claim, fence, and the same claim delivered again. */
  lemma ReplayCanBreakLedger(cfg: Config, u: Uuid, h: Uuid, t: Uuid, id: Uuid, fence: Fence) returns (r: Run)
    requires ValidConfig(cfg) && ValidFence(fence)
    ensures ValidRun(cfg, r) && |r.actions| == 8 && r.actions[7] == r.actions[5]
    ensures CommitsAt(cfg, r, 5) && CommitsAt(cfg, r, 6) && CommitsAt(cfg, r, 7)
    ensures r.actions[5].m.AddClaim? && r.actions[6].m.FenceRetire?
    ensures !WellFormed(cfg, r.states[8].db)
  {
    r := HealthyRun(cfg);
    var g := HealthyGuardOf();
    var f := r.states[4];
    var alloc := Allocate(u, 0, id);
    AllocatedClaimable(cfg, f, u, h, t, id);
    r := ExtendMutation(cfg, r, alloc, g);
    var a := AssignmentAt(r.states[5].db, u);
    r := ReplayAround(cfg, r, g, a, h, t, fence);
  }

  /** Three more mutations at the end of any run that has got so far. */
  lemma ReplayAround(cfg: Config, r: Run, g: Guard, a: Assignment, h: Uuid, t: Uuid, fence: Fence) returns (r': Run)
    requires ValidRun(cfg, r) && HealthyGuard(g) && ValidFence(fence)
    requires Claimable(cfg, r.states[|r.actions|].db, g, a, h, t)
    ensures ValidRun(cfg, r') && |r'.actions| == |r.actions| + 3
    ensures var n := |r.actions|;
      && r'.actions[n] == Mutate(AddClaim(a, h, t), g) && r'.actions[n + 2] == r'.actions[n]
      && r'.actions[n + 1] == Mutate(Fencing(a, h, t, fence), g)
      && CommitsAt(cfg, r', n) && CommitsAt(cfg, r', n + 1) && CommitsAt(cfg, r', n + 2)
      && !WellFormed(cfg, r'.states[n + 3].db)
  {
    var f := r.states[|r.actions|];
    ReplayedClaimBreaksLedger(cfg, f.db, g, a, h, t, fence);
    var m, x := AddClaim(a, h, t), Fencing(a, h, t, fence);
    var r1 := ExtendMutation(cfg, r, m, g);
    var r2 := ExtendMutation(cfg, r1, x, g);
    r' := ExtendMutation(cfg, r2, m, g);
  }

  lemma ExtendMutation(cfg: Config, r: Run, m: Mutation, g: Guard) returns (r': Run)
    requires ValidRun(cfg, r) && Admissible(cfg, m) && HealthyGuard(g)
    ensures ValidRun(cfg, r') && |r'.actions| == |r.actions| + 1
    ensures r.states <= r'.states && r.actions <= r'.actions && r'.actions[|r.actions|] == Mutate(m, g)
    ensures r'.states[|r'.actions|].db == Submit(r.states[|r.actions|].db, Compile(cfg, m, g))
    ensures Commits(r.states[|r.actions|].db, Compile(cfg, m, g)) ==> CommitsAt(cfg, r', |r.actions|)
  {
    var f := r.states[|r.actions|];
    r' := Extend(cfg, r, Mutate(m, g), f.(db := Submit(f.db, Compile(cfg, m, g))));
  }

  lemma AllocatedClaimable(cfg: Config, f: Fleet, u: Uuid, h: Uuid, t: Uuid, id: Uuid)
    requires ValidConfig(cfg) && f == Elected1(cfg, Health(2), {1, 2}, {1})
    ensures Admissible(cfg, Allocate(u, 0, id))
    ensures var db := Submit(f.db, Compile(cfg, Allocate(u, 0, id), HealthyGuardOf()));
      HasAssignment(db, u) && AssignmentAt(db, u).gen.instance == u && AssignmentAt(db, u).hosts == {}
      && Claimable(cfg, db, HealthyGuardOf(), AssignmentAt(db, u), h, t)
  {
    var g, alloc := HealthyGuardOf(), Allocate(u, 0, id);
    ElectedWellFormed(cfg, Health(2), {1, 2}, {1});
    assert GuardHolds(cfg, f.db, g);
    CompileCommits(cfg, f.db, alloc, g);
    FenceLedgerExact(cfg, f.db, alloc, g);
    AfterBody(cfg, f.db, alloc, g);
    PairEffect(cfg, f.db, alloc, u);
    IntentEffect(cfg, f.db, alloc, u);
    FenceEffect(cfg, f.db, alloc, h, u);
  }

  // ---- an integrity error in a registry that is in order -------------------------------------

  /** Giving a fresh claim back leaves the instance without claims. */
  lemma AfterAbandoning(cfg: Config, db: Db, g: Guard, a: Assignment, h: Uuid, t: Uuid) returns (v: View)
    requires Claimed(cfg, db, g, a, h, t) && a.hosts == {}
    ensures var m := Abandon(a.(hosts := a.hosts + {h}), NewClaim(a.gen, h, t));
      && Admissible(cfg, m) && Commits(db, Compile(cfg, m, g))
      && ViewAt(Submit(db, Compile(cfg, m, g)), a.gen.instance, v)
    ensures v == View(a, None, map[])
  {
    var u := a.gen.instance;
    var m := Abandon(a.(hosts := a.hosts + {h}), NewClaim(a.gen, h, t));
    assert RecordOk(cfg, InstanceKey(u), db[InstanceKey(u)].raw);
    assert RecordOk(cfg, HostKey(h, u), db[HostKey(h, u)].raw);
    CompileCommits(cfg, db, m, g);
    PairEffect(cfg, db, m, u);
    IntentEffect(cfg, db, m, u);
    assert a.hosts + {h} - {h} == a.hosts;
    v := View(a, None, map[]);
  }

  lemma NeverReclaimsOn(cfg: Config, r: Run, r': Run)
    requires ValidRun(cfg, r) && ValidRun(cfg, r') && |r'.actions| == |r.actions| + 1
    requires r.states <= r'.states && r.actions <= r'.actions && NeverReclaims(cfg, r)
    requires r'.actions[|r.actions|].Mutate?
    requires !ReclaimsFenced(r.states[|r.actions|].db, r'.actions[|r.actions|].m)
    ensures NeverReclaims(cfg, r')
  {
    forall i: nat | CommitsAt(cfg, r', i) ensures !ReclaimsFenced(r'.states[i].db, r'.actions[i].m) {
      if i < |r.actions| {
        assert CommitsAt(cfg, r, i);
      }
    }
  }

  lemma HealthyNeverReclaims(cfg: Config, r: Run)
    requires ValidRun(cfg, r) && r.actions == HealthyActions()
    ensures NeverReclaims(cfg, r)
  {
  }

  /** A claim and its abandonment at the end of any run that has got so far. */
  lemma AbandonAround(cfg: Config, r: Run, g: Guard, a: Assignment, h: Uuid, t: Uuid) returns (r': Run, v: View)
    requires ValidRun(cfg, r) && HealthyGuard(g) && NeverReclaims(cfg, r) && a.hosts == {}
    requires Claimable(cfg, r.states[|r.actions|].db, g, a, h, t)
    ensures ValidRun(cfg, r') && |r'.actions| == |r.actions| + 2 && NeverReclaims(cfg, r')
    ensures var n := |r.actions|;
      && CommitsAt(cfg, r', n) && r'.actions[n] == Mutate(AddClaim(a, h, t), g)
      && CommitsAt(cfg, r', n + 1) && r'.actions[n + 1].m.Abandon?
      && v == View(a, None, map[]) && ViewAt(r'.states[n + 2].db, a.gen.instance, v)
  {
    AfterClaim(cfg, r.states[|r.actions|].db, g, a, h, t);
    var r1 := ExtendMutation(cfg, r, AddClaim(a, h, t), g);
    NeverReclaimsOn(cfg, r, r1);
    v := AfterAbandoning(cfg, r1.states[|r1.actions|].db, g, a, h, t);
    r' := ExtendMutation(cfg, r1, Abandon(a.(hosts := a.hosts + {h}), NewClaim(a.gen, h, t)), g);
    NeverReclaimsOn(cfg, r1, r');
  }

  /**
   * A claim commits, its host gives it back, and only then the claiming process
   * reads to verify: it reports an integrity error, although every revision of
   * the run is well formed.
   */
  lemma IntegrityErrorInOrder(cfg: Config, u: Uuid, h: Uuid, t: Uuid, id: Uuid) returns (r: Run, v: View)
    requires ValidConfig(cfg)
    ensures ValidRun(cfg, r) && |r.actions| == 7
    ensures CommitsAt(cfg, r, 5) && r.actions[5].m.AddClaim? && CommitsAt(cfg, r, 6) && r.actions[6].m.Abandon?
    ensures ViewAt(r.states[7].db, u, v) && ClaimVerdict(r.actions[5].m, Reread(true, v)) == Err(Integrity)
    ensures forall i | 0 <= i < |r.states| :: WellFormed(cfg, r.states[i].db)
  {
    var healthy := HealthyRun(cfg);
    HealthyNeverReclaims(cfg, healthy);
    var g := HealthyGuardOf();
    AllocatedClaimable(cfg, healthy.states[4], u, h, t, id);
    var placed := ExtendMutation(cfg, healthy, Allocate(u, 0, id), g);
    NeverReclaimsOn(cfg, healthy, placed);
    r, v := AbandonAround(cfg, placed, g, AssignmentAt(placed.states[5].db, u), h, t);
    RunWellFormedExactly(cfg, r);
  }
}
