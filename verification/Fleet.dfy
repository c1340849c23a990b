/**
 * The fleet as a state machine: one store, its leases, and every write that any
 * compute process may send at any time.
 *
 * A client's snapshot may be arbitrarily old, a request may be lost or
 * delivered again, and clients interleave freely: an action of this machine is
 * any write that some client could have built, so all of those are runs of it.
 * What a process must have learnt before it writes survives as growing sets:
 * `acquired` (pending rounds written by an election, with their lease) and
 * `passed` (rounds whose elected process then finished a full audit).
 */
module Fleet {
  import opened Wrappers
  import opened Records
  import opened Store
  import opened Registry
  import opened Preservation

  datatype Fleet = Fleet(
    db: Db,
    live: set<LeaseId>,
    granted: set<LeaseId>,
    rounds: set<Uuid>,
    acquired: map<Uuid, LeaseId>,
    passed: set<Uuid>)

  datatype Action =
    | Mutate(m: Mutation, g: Guard)
    | Grant(lease: LeaseId)
    | Expire(lease: LeaseId)
    | Acquire(owner: Uuid, round: Uuid, lease: LeaseId, stale: Option<Raw>)
    | PassAudit(round: Uuid)
    | Promote(owner: Uuid, round: Uuid, lease: LeaseId, seen: Raw)
    | Demote(owner: Uuid, round: Uuid, lease: LeaseId, seen: Raw)
    | Refresh(lease: LeaseId, seen: Raw)
    | PublishFailure(reporter: Uuid, reason: string)

  function Boot(cfg: Config): Fleet {
    Fleet(map[ConfigKey := Plain(ConfigRecord(cfg))], {}, {}, {}, map[], {})
  }

  predicate HealthyGuard(g: Guard) {
    g.health.CoordinatorRecord? && g.health.state.Healthy? && g.lease > 0
  }

  /** What the sender of an action has established before it sends it. */
  ghost predicate Permitted(cfg: Config, f: Fleet, a: Action) {
    match a
    case Mutate(m, g) => Admissible(cfg, m) && HealthyGuard(g)
    case Grant(lease) => lease > 0 && lease !in f.granted
    case Expire(lease) => lease in f.live
    case Acquire(_, round, lease, stale) =>
      && lease in f.granted && round !in f.rounds
      && (stale.Some? ==> stale.value.CoordinatorRecord?)
    case PassAudit(round) => round in f.acquired && WellFormed(cfg, f.db)
    case Promote(owner, round, lease, seen) =>
      && round !in f.rounds && lease > 0
      && seen.CoordinatorRecord? && seen.owner == owner
      && (seen.state.Healthy? || seen.round in f.passed)
    case Demote(owner, round, lease, seen) =>
      && round !in f.rounds && lease > 0
      && seen.CoordinatorRecord? && seen.owner == owner && seen.state.Healthy?
    case Refresh(_, seen) => seen.CoordinatorRecord? && seen.state.Healthy?
    case PublishFailure(_, _) => true
  }

  function ControlCompares(cfg: Config): set<Compare> {
    {ValueIs(ConfigKey, ConfigRecord(cfg)), Absent(FailureKey)}
  }

  /** `_replace_audit_coordinator`: swap exactly the record and lease last read. */
  function ReplaceCoordinator(
      cfg: Config, seen: Option<Raw>, seenLease: LeaseId, desired: Raw, lease: LeaseId): Txn
  {
    Txn(ControlCompares(cfg)
        + (if seen.None? then {Absent(CoordinatorKey)}
           else {ValueIs(CoordinatorKey, seen.value), LeaseIs(CoordinatorKey, seenLease)}),
        map[CoordinatorKey := Entry(desired, lease)], {})
  }

  function PublishTxn(cfg: Config, reporter: Uuid, reason: string): Txn {
    Txn(ControlCompares(cfg), map[FailureKey := Plain(FailureRecord(reporter, reason))], {})
  }

  /** etcd refuses a put under a lease that is not live. */
  function SubmitLeased(f: Fleet, t: Txn, lease: LeaseId): Db {
    if lease in f.live then Submit(f.db, t) else f.db
  }

  predicate Elected(cfg: Config, f: Fleet, a: Action)
    requires a.Acquire?
  {
    a.lease in f.live
    && Commits(f.db, ReplaceCoordinator(cfg, a.stale, 0, CoordinatorRecord(a.owner, Pending, a.round), a.lease))
  }

  function DropLease(db: Db, lease: LeaseId): Db {
    map k | k in db && db[k].lease != lease :: db[k]
  }

  /** The owner's demotion takes effect: its record turns pending under the same live lease. */
  predicate DemotionTakesEffect(cfg: Config, f: Fleet, a: Action)
    requires a.Demote?
  {
    a.lease in f.live
    && Commits(f.db, ReplaceCoordinator(
                 cfg, Some(a.seen), a.lease, CoordinatorRecord(a.owner, Pending, a.round), a.lease))
  }

  /** A refresh keeps its lease alive; the model has no clock, so nothing else changes. */
  ghost function Step(cfg: Config, f: Fleet, a: Action): Fleet
    requires Permitted(cfg, f, a)
  {
    match a
    case Mutate(m, g) => f.(db := Submit(f.db, Compile(cfg, m, g)))
    case Grant(lease) => f.(live := f.live + {lease}, granted := f.granted + {lease})
    case Expire(lease) => f.(live := f.live - {lease}, db := DropLease(f.db, lease))
    case Acquire(owner, round, lease, stale) =>
      f.(db := SubmitLeased(
           f, ReplaceCoordinator(cfg, stale, 0, CoordinatorRecord(owner, Pending, round), lease), lease),
         rounds := f.rounds + {round},
         acquired := if Elected(cfg, f, a) then f.acquired[round := lease] else f.acquired)
    case PassAudit(round) => f.(passed := f.passed + {round})
    case Promote(owner, round, lease, seen) =>
      f.(db := SubmitLeased(
           f, ReplaceCoordinator(cfg, Some(seen), lease, CoordinatorRecord(owner, Healthy, round), lease), lease),
         rounds := f.rounds + {round})
    case Demote(owner, round, lease, seen) =>
      f.(db := SubmitLeased(
           f, ReplaceCoordinator(cfg, Some(seen), lease, CoordinatorRecord(owner, Pending, round), lease), lease),
         rounds := f.rounds + {round})
    case Refresh(_, _) => f
    case PublishFailure(reporter, reason) =>
      f.(db := Submit(f.db, PublishTxn(cfg, reporter, reason)))
  }

  /** The action is a mutation that commits here. */
  ghost predicate MutationCommits(cfg: Config, f: Fleet, a: Action) {
    a.Mutate? && Admissible(cfg, a.m) && Commits(f.db, Compile(cfg, a.m, a.g))
  }

  // ---- invariants ---------------------------------------------------------------

  /** A lease under which an elected process finished a full audit. */
  predicate Audited(f: Fleet, lease: LeaseId) {
    exists round | round in f.passed :: round in f.acquired && f.acquired[round] == lease
  }

  ghost predicate ControlInv(f: Fleet) {
    && (forall k | k in f.db && f.db[k].lease != 0 :: k == CoordinatorKey)
    && f.live <= f.granted && 0 !in f.granted
    && f.acquired.Keys <= f.rounds && f.passed <= f.acquired.Keys
    && (CoordinatorKey in f.db ==>
          var e := f.db[CoordinatorKey];
          && e.raw.CoordinatorRecord? && e.lease in f.live && e.raw.round in f.rounds
          && (e.raw.state.Healthy? ==> Audited(f, e.lease) && e.raw.round !in f.acquired)
          && (e.raw.round in f.acquired ==> f.acquired[e.raw.round] == e.lease))
  }

  ghost predicate Inv(cfg: Config, f: Fleet) {
    Consistent(cfg, f.db) && ControlInv(f)
  }

  predicate ControlKey(k: Key) {
    k.CoordinatorKey? || k.FailureKey?
  }

  /** The registry's relationships do not read the control keys. */
  lemma ControlWriteKeeps(cfg: Config, db: Db, db': Db)
    requires Consistent(cfg, db)
    requires forall k | !ControlKey(k) :: (k in db <==> k in db') && (k in db ==> db[k] == db'[k])
    requires forall k | k in db' && ControlKey(k) :: RecordOk(cfg, k, db'[k].raw)
    ensures Consistent(cfg, db')
    ensures FencesDisjoint(db) ==> FencesDisjoint(db')
  {
    forall u ensures HasAssignment(db', u) <==> HasAssignment(db, u)
      ensures HasAssignment(db, u) ==> AssignmentAt(db, u) == AssignmentAt(db', u)
      ensures HasIntent(db', u) <==> HasIntent(db, u)
      ensures HasIntent(db, u) ==> IntentAt(db, u) == IntentAt(db', u)
    {
      assert !ControlKey(InstanceKey(u)) && !ControlKey(ReleaseKey(u));
    }
    forall h, u ensures HasClaim(db', h, u) <==> HasClaim(db, h, u)
      ensures HasClaim(db, h, u) ==> ClaimAt(db, h, u) == ClaimAt(db', h, u)
      ensures HasFence(db', h, u) <==> HasFence(db, h, u)
      ensures HasFence(db, h, u) ==> FenceAt(db, h, u) == FenceAt(db', h, u)
    {
      assert !ControlKey(HostKey(h, u)) && !ControlKey(FenceKey(h, u));
    }
    forall n: nat ensures SlotKey(n) in db' <==> SlotKey(n) in db
      ensures SlotKey(n) in db ==> db[SlotKey(n)] == db'[SlotKey(n)]
    {
      assert !ControlKey(SlotKey(n));
    }
    if FencesDisjoint(db) {
      forall h, u ensures !FenceClash(db', h, u) {
        assert !FenceClash(db, h, u);
      }
    }
  }

  lemma MutateKeepsInv(cfg: Config, f: Fleet, a: Action)
    requires Inv(cfg, f) && Permitted(cfg, f, a) && a.Mutate?
    ensures Inv(cfg, Step(cfg, f, a))
  {
    if Commits(f.db, Compile(cfg, a.m, a.g)) {
      MutationKeepsConsistent(cfg, f.db, a.m, a.g);
      PutsStayPlain(cfg, a.m, a.g);
    }
  }

  /** A mutation writes no control key and attaches no lease. */
  lemma PutsStayPlain(cfg: Config, m: Mutation, g: Guard)
    requires Admissible(cfg, m)
    ensures forall k | k in Compile(cfg, m, g).puts :: Compile(cfg, m, g).puts[k].lease == 0 && !ControlKey(k)
    ensures forall k | k in Compile(cfg, m, g).deletes :: !ControlKey(k)
  {
    var t := Compile(cfg, m, g);
    forall k | k in t.puts ensures t.puts[k].lease == 0 && !ControlKey(k) {
      BodyPlain(cfg, m, k);
    }
    forall k | k in t.deletes ensures !ControlKey(k) {
      BodyPlain(cfg, m, k);
    }
  }

  lemma BodyPlain(cfg: Config, m: Mutation, k: Key)
    requires Admissible(cfg, m)
    ensures PlainAt(cfg, m, k)
  {
    if m.RestoreAll? {
      RestoredView(m.current, m.claims, m.barrier, Body(cfg, m));
    } else if m.FenceRetire? || m.Abandon? || m.Retire? || m.Allocate? || m.AddClaim? {
      PairPlain(cfg, m, k);
    } else {
      SinglePlain(cfg, m, k);
    }
  }

  predicate PlainAt(cfg: Config, m: Mutation, k: Key)
    requires Admissible(cfg, m)
  {
    && (k in Body(cfg, m).puts ==> Body(cfg, m).puts[k].lease == 0 && !ControlKey(k))
    && (k in Body(cfg, m).deletes ==> !ControlKey(k))
  }

  lemma PairPlain(cfg: Config, m: Mutation, k: Key)
    requires Admissible(cfg, m) && (m.FenceRetire? || m.Abandon? || m.Retire? || m.Allocate? || m.AddClaim?)
    ensures PlainAt(cfg, m, k)
  {
  }

  lemma SinglePlain(cfg: Config, m: Mutation, k: Key)
    requires Admissible(cfg, m) && !m.RestoreAll?
    requires !(m.FenceRetire? || m.Abandon? || m.Retire? || m.Allocate? || m.AddClaim?)
    ensures PlainAt(cfg, m, k)
  {
  }

  lemma ExpireKeepsInv(cfg: Config, f: Fleet, a: Action)
    requires Inv(cfg, f) && Permitted(cfg, f, a) && a.Expire?
    ensures Inv(cfg, Step(cfg, f, a))
    ensures FencesDisjoint(f.db) ==> FencesDisjoint(Step(cfg, f, a).db)
  {
    var f' := Step(cfg, f, a);
    forall k | !ControlKey(k) ensures k in f.db <==> k in f'.db {}
    ControlWriteKeeps(cfg, f.db, f'.db);
  }

  /** One control record replaced under a live lease. */
  lemma CoordinatorWriteKeepsInv(cfg: Config, f: Fleet, f': Fleet, raw: Raw, lease: LeaseId)
    requires Inv(cfg, f) && raw.CoordinatorRecord? && lease in f.live
    requires f'.db == f.db[CoordinatorKey := Entry(raw, lease)]
    requires f'.live == f.live && f'.granted == f.granted && f'.passed == f.passed
    requires f'.rounds == f.rounds + {raw.round} && raw.round !in f.rounds
    requires f'.acquired == f.acquired || f'.acquired == f.acquired[raw.round := lease]
    requires raw.state.Healthy? ==> f'.acquired == f.acquired && Audited(f, lease)
    ensures Inv(cfg, f')
    ensures FencesDisjoint(f.db) ==> FencesDisjoint(f'.db)
  {
    ControlWriteKeeps(cfg, f.db, f'.db);
    AuditedGrows(f, f');
  }

  lemma SameStoreKeepsInv(cfg: Config, f: Fleet, f': Fleet)
    requires Inv(cfg, f) && f'.db == f.db && f'.live == f.live && f'.granted == f.granted
    requires f.passed == f'.passed && f.acquired == f'.acquired && f.rounds <= f'.rounds
    ensures Inv(cfg, f')
  {
    AuditedGrows(f, f');
  }

  /** The election, its promotion and its demotion write one control record. */
  lemma CoordinatorKeepsInv(cfg: Config, f: Fleet, a: Action)
    requires Inv(cfg, f) && Permitted(cfg, f, a) && (a.Acquire? || a.Promote? || a.Demote?)
    ensures Inv(cfg, Step(cfg, f, a))
    ensures FencesDisjoint(f.db) ==> FencesDisjoint(Step(cfg, f, a).db)
  {
    var f' := Step(cfg, f, a);
    var raw := CoordinatorRecord(a.owner, if a.Promote? then Healthy else Pending, a.round);
    var t := if a.Acquire? then ReplaceCoordinator(cfg, a.stale, 0, raw, a.lease)
             else ReplaceCoordinator(cfg, Some(a.seen), a.lease, raw, a.lease);
    if a.lease in f.live && Commits(f.db, t) {
      if a.Promote? {
        PromoteAudited(cfg, f, a);
      }
      CoordinatorWriteKeepsInv(cfg, f, f', raw, a.lease);
    } else {
      SameStoreKeepsInv(cfg, f, f');
    }
  }

  lemma AuditedGrows(f: Fleet, f': Fleet)
    requires f.passed <= f'.passed && f.passed <= f.acquired.Keys
    requires forall r | r in f.acquired :: r in f'.acquired && f'.acquired[r] == f.acquired[r]
    ensures forall lease | Audited(f, lease) :: Audited(f', lease)
  {
    forall lease | Audited(f, lease) ensures Audited(f', lease) {
      var round :| round in f.passed && round in f.acquired && f.acquired[round] == lease;
      assert round in f'.passed && round in f'.acquired && f'.acquired[round] == lease;
    }
  }

  lemma PromoteAudited(cfg: Config, f: Fleet, a: Action)
    requires Inv(cfg, f) && Permitted(cfg, f, a) && a.Promote?
    requires Commits(f.db, ReplaceCoordinator(
               cfg, Some(a.seen), a.lease, CoordinatorRecord(a.owner, Healthy, a.round), a.lease))
    ensures Audited(f, a.lease)
  {
    assert Holds(f.db, ValueIs(CoordinatorKey, a.seen));
    assert Holds(f.db, LeaseIs(CoordinatorKey, a.lease));
    if a.seen.state.Pending? {
      assert a.seen.round in f.passed && f.acquired[a.seen.round] == a.lease;
    }
  }

  lemma StepKeepsInv(cfg: Config, f: Fleet, a: Action)
    requires Inv(cfg, f) && Permitted(cfg, f, a)
    ensures Inv(cfg, Step(cfg, f, a))
  {
    match a
    case Mutate(_, _) => MutateKeepsInv(cfg, f, a);
    case Grant(_) => GrantKeepsInv(cfg, f, a);
    case Expire(_) => ExpireKeepsInv(cfg, f, a);
    case Acquire(_, _, _, _) => CoordinatorKeepsInv(cfg, f, a);
    case PassAudit(_) => AuditedGrows(f, Step(cfg, f, a));
    case Promote(_, _, _, _) => CoordinatorKeepsInv(cfg, f, a);
    case Demote(_, _, _, _) => CoordinatorKeepsInv(cfg, f, a);
    case Refresh(_, _) =>
    case PublishFailure(_, _) => PublishKeepsInv(cfg, f, a);
  }

  lemma GrantKeepsInv(cfg: Config, f: Fleet, a: Action)
    requires Inv(cfg, f) && Permitted(cfg, f, a) && a.Grant?
    ensures Inv(cfg, Step(cfg, f, a))
  {
    AuditedGrows(f, Step(cfg, f, a));
  }

  lemma PublishKeepsInv(cfg: Config, f: Fleet, a: Action)
    requires Inv(cfg, f) && Permitted(cfg, f, a) && a.PublishFailure?
    ensures Inv(cfg, Step(cfg, f, a))
    ensures FencesDisjoint(f.db) ==> FencesDisjoint(Step(cfg, f, a).db)
  {
    var f' := Step(cfg, f, a);
    if f'.db != f.db {
      assert f'.db == f.db[FailureKey := Plain(FailureRecord(a.reporter, a.reason))];
      ControlWriteKeeps(cfg, f.db, f'.db);
      AuditedGrows(f, f');
    }
  }
}
