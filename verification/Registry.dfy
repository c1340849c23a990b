/**
 * The well-formed registry, the mutations that clients send, and what one
 * committed mutation does to a well-formed registry.
 */
module Registry {
  import opened Wrappers
  import opened Records
  import opened Store

  // ---- well-formedness -------------------------------------------------------

  /** A record sits under a key of its own family and passes that family's parser. */
  predicate RecordOk(cfg: Config, k: Key, raw: Raw) {
    match k
    case ConfigKey => raw == ConfigRecord(cfg)
    case InstanceKey(u) =>
      raw.AssignmentRecord? && GenerationOk(cfg, raw.assignment.gen) && raw.assignment.gen.instance == u
    case SlotKey(n) =>
      raw.AssignmentRecord? && GenerationOk(cfg, raw.assignment.gen) && raw.assignment.gen.slot == n
    case ReleaseKey(u) =>
      raw.IntentRecord? && IntentOk(cfg, raw.intent) && raw.intent.gen.instance == u
    case HostKey(h, u) =>
      raw.ClaimRecord? && ClaimOk(cfg, raw.claim) && raw.claim.host == h && raw.claim.gen.instance == u
    case FenceKey(h, u) =>
      raw.FenceRecord? && ValidFence(raw.fence) && raw.fence.host == h && raw.fence.instance == u
    case StrayKey(_) => false
    case CoordinatorKey => raw.CoordinatorRecord?
    case FailureKey => raw.FailureRecord?
  }

  ghost predicate RecordsOk(cfg: Config, db: Db) {
    && ConfigKey in db
    && forall k | k in db :: RecordOk(cfg, k, db[k].raw)
  }

  /** The immutable configuration record is there and is the configured one. */
  predicate Configured(cfg: Config, db: Db) {
    ConfigKey in db && db[ConfigKey].raw == ConfigRecord(cfg)
  }

  /** Instance and slot records are equal pairs: a bijection of equal records. */
  ghost predicate SlotsMirror(db: Db) {
    && (forall u | HasAssignment(db, u) ::
          AssignmentAt(db, u).gen.slot >= 0
          && SlotKey(AssignmentAt(db, u).gen.slot) in db
          && db[SlotKey(AssignmentAt(db, u).gen.slot)].raw == db[InstanceKey(u)].raw)
    && (forall n | SlotKey(n) in db ::
          db[SlotKey(n)].raw.AssignmentRecord?
          && InstanceKey(db[SlotKey(n)].raw.assignment.gen.instance) in db
          && db[InstanceKey(db[SlotKey(n)].raw.assignment.gen.instance)].raw == db[SlotKey(n)].raw)
  }

  ghost predicate IntentsMatch(db: Db) {
    forall u | HasIntent(db, u) ::
      HasAssignment(db, u) && AssignmentAt(db, u).gen == IntentAt(db, u).gen
  }

  /** A claim exists exactly for the hosts that the allocation names. */
  ghost predicate ClaimsMatch(db: Db) {
    && (forall h, u | HasAssignment(db, u) && h in AssignmentAt(db, u).hosts ::
          HasClaim(db, h, u) && ClaimAt(db, h, u).gen == AssignmentAt(db, u).gen)
    && (forall h, u | HasClaim(db, h, u) ::
          HasAssignment(db, u) && h in AssignmentAt(db, u).hosts
          && ClaimAt(db, h, u).gen == AssignmentAt(db, u).gen)
  }

  ghost predicate Consistent(cfg: Config, db: Db) {
    RecordsOk(cfg, db) && SlotsMirror(db) && IntentsMatch(db) && ClaimsMatch(db)
  }

  predicate FenceClash(db: Db, h: Uuid, u: Uuid) {
    && HasFence(db, h, u) && HasClaim(db, h, u)
    && FenceAt(db, h, u).token == Some(ClaimAt(db, h, u).token)
  }

  /** No ledger entry coexists with the live claim whose token it disposed of. */
  ghost predicate FencesDisjoint(db: Db) {
    forall h, u :: !FenceClash(db, h, u)
  }

  ghost predicate WellFormed(cfg: Config, db: Db) {
    Consistent(cfg, db) && FencesDisjoint(db)
  }

  // ---- mutations ---------------------------------------------------------------

  /** One guarded write of a client, built from what that client last read. */
  datatype Mutation =
    | Allocate(instance: Uuid, slot: nat, allocation: Uuid)
    | AddClaim(current: Assignment, host: Uuid, token: Uuid)
    | ReplaceClaim(current: Assignment, claim: Claim, token: Uuid)
    | MarkPossible(current: Assignment, claim: Claim)
    | MarkCommitted(current: Assignment, claim: Claim)
    | RecordProof(current: Assignment, claim: Claim, proof: Proof)
    | FenceRetire(current: Assignment, claim: Claim, fence: Fence)
    | Abandon(current: Assignment, claim: Claim)
    | Retire(current: Assignment, claim: Claim)
    | RequestRelease(current: Assignment, name: string)
    | Release(current: Assignment, intent: Intent)
    | RestoreAll(current: Assignment, claims: map<Uuid, Claim>, barrier: Option<Intent>)
    | RestoreIntent(current: Assignment, claims: map<Uuid, Claim>, intent: Intent)

  /** The coordinator record and lease that a client verified before it wrote. */
  datatype Guard = Guard(health: Raw, lease: LeaseId)

  function NewGeneration(cfg: Config, u: Uuid, slot: nat, allocation: Uuid): Generation {
    Generation(u, SlotBase(cfg, slot), cfg.size, slot, allocation, Sha256Config(cfg))
  }

  function NewClaim(gen: Generation, host: Uuid, token: Uuid): Claim {
    Claim(host, token, gen, Unmaterialized, None)
  }

  function SubjectOf(m: Mutation): Uuid {
    if m.Allocate? then m.instance else m.current.gen.instance
  }

  /** A claim as `_read_assignment_state` returns it beside its assignment. */
  predicate ViewOk(cfg: Config, a: Assignment, c: Claim) {
    && GenerationOk(cfg, a.gen) && ClaimOk(cfg, c)
    && c.gen == a.gen && c.host in a.hosts
  }

  predicate RestoreOk(cfg: Config, a: Assignment, claims: map<Uuid, Claim>) {
    && GenerationOk(cfg, a.gen)
    && a.hosts == claims.Keys
    && forall h | h in claims :: ClaimOk(cfg, claims[h]) && claims[h].host == h && claims[h].gen == a.gen
  }

  /** What a client has checked, on its own possibly stale view, before it submits. */
  predicate Admissible(cfg: Config, m: Mutation) {
    match m
    case Allocate(_, slot, _) => slot < cfg.count
    case AddClaim(a, h, _) => GenerationOk(cfg, a.gen) && h !in a.hosts
    case ReplaceClaim(a, c, t) => ViewOk(cfg, a, c) && c.state.Cleaned? && t != c.token
    case MarkPossible(a, c) => ViewOk(cfg, a, c) && c.state.Unmaterialized?
    case MarkCommitted(a, c) => ViewOk(cfg, a, c) && c.state.Possible?
    case RecordProof(a, c, p) =>
      ViewOk(cfg, a, c) && ValidProof(p) && ProofBinds(p, c) && c.state == RequiredState(p)
    case FenceRetire(a, c, f) =>
      && ViewOk(cfg, a, c) && !c.state.Cleaned? && ValidFence(f)
      && f.instance == a.gen.instance && f.host == c.host
      && f.allocation == a.gen.allocation && f.token == Some(c.token)
    case Abandon(a, c) => ViewOk(cfg, a, c) && c.state.Unmaterialized?
    case Retire(a, c) => ViewOk(cfg, a, c) && c.state.Cleaned?
    case RequestRelease(a, name) => GenerationOk(cfg, a.gen) && InstanceNameOk(name)
    case Release(a, i) => IntentOk(cfg, i) && i.gen == a.gen && a.hosts == {}
    case RestoreAll(a, claims, i) =>
      RestoreOk(cfg, a, claims) && (i.Some? ==> IntentOk(cfg, i.value) && i.value.gen == a.gen)
    case RestoreIntent(a, claims, i) =>
      RestoreOk(cfg, a, claims) && IntentOk(cfg, i) && i.gen == a.gen
  }

  function Plain(raw: Raw): Entry {
    Entry(raw, 0)
  }

  function GuardCompares(cfg: Config, g: Guard): set<Compare> {
    {ValueIs(ConfigKey, ConfigRecord(cfg)), Absent(FailureKey),
     ValueIs(CoordinatorKey, g.health), LeaseIs(CoordinatorKey, g.lease)}
  }

  /** The instance and the slot record are both still exactly `a`. */
  function PairIs(a: Assignment): set<Compare>
    requires a.gen.slot >= 0
  {
    {ValueIs(InstanceKey(a.gen.instance), AssignmentRecord(a)),
     ValueIs(SlotKey(a.gen.slot), AssignmentRecord(a))}
  }

  function PairPut(a: Assignment): map<Key, Entry>
    requires a.gen.slot >= 0
  {
    map[InstanceKey(a.gen.instance) := Plain(AssignmentRecord(a)),
        SlotKey(a.gen.slot) := Plain(AssignmentRecord(a))]
  }

  function ClaimIs(c: Claim): set<Compare> {
    {ValueIs(HostKey(c.host, c.gen.instance), ClaimRecord(c))}
  }

  function ClaimPut(c: Claim): map<Key, Entry> {
    map[HostKey(c.host, c.gen.instance) := Plain(ClaimRecord(c))]
  }

  function ClaimPuts(u: Uuid, claims: map<Uuid, Claim>): map<Key, Entry> {
    map k: Key | k in (set h | h in claims :: HostKey(h, u)) :: Plain(ClaimRecord(claims[k.host]))
  }

  function RestoreFront(a: Assignment, claims: map<Uuid, Claim>): map<Key, Entry>
    requires a.gen.slot >= 0
  {
    PairPut(a) + ClaimPuts(a.gen.instance, claims)
  }

  function RestorePuts(a: Assignment, claims: map<Uuid, Claim>, i: Option<Intent>): map<Key, Entry>
    requires a.gen.slot >= 0
  {
    var front := RestoreFront(a, claims);
    if i.Some? then front[ReleaseKey(a.gen.instance) := Plain(IntentRecord(i.value))] else front
  }

  function Without(a: Assignment, h: Uuid): Assignment {
    a.(hosts := a.hosts - {h})
  }

  /** The transaction after the guard: what it compares, puts and deletes. */
  function Body(cfg: Config, m: Mutation): Txn
    requires Admissible(cfg, m)
  {
    match m
    case Allocate(u, slot, id) =>
      var a := Assignment(NewGeneration(cfg, u, slot, id), {});
      Txn({Absent(InstanceKey(u)), Absent(SlotKey(slot)), Absent(ReleaseKey(u))}, PairPut(a), {})
    case AddClaim(a, h, t) =>
      var u := a.gen.instance;
      Txn(PairIs(a) + {Absent(HostKey(h, u)), Absent(ReleaseKey(u))},
          PairPut(a.(hosts := a.hosts + {h})) + ClaimPut(NewClaim(a.gen, h, t)), {})
    case ReplaceClaim(a, c, t) =>
      Txn(PairIs(a) + ClaimIs(c) + {Absent(ReleaseKey(a.gen.instance))},
          ClaimPut(NewClaim(a.gen, c.host, t)), {})
    case MarkPossible(a, c) =>
      Txn(PairIs(a) + ClaimIs(c) + {Absent(ReleaseKey(a.gen.instance))},
          ClaimPut(c.(state := Possible)), {})
    case MarkCommitted(a, c) =>
      Txn(PairIs(a) + ClaimIs(c), ClaimPut(c.(state := Committed)), {})
    case RecordProof(a, c, p) =>
      Txn(PairIs(a) + ClaimIs(c), ClaimPut(c.(state := Cleaned, proof := Some(p))), {})
    case FenceRetire(a, c, f) =>
      Txn(PairIs(a) + ClaimIs(c),
          PairPut(Without(a, c.host)) + map[FenceKey(c.host, a.gen.instance) := Plain(FenceRecord(f))],
          {HostKey(c.host, a.gen.instance)})
    case Abandon(a, c) =>
      Txn(PairIs(a) + ClaimIs(c), PairPut(Without(a, c.host)), {HostKey(c.host, a.gen.instance)})
    case Retire(a, c) =>
      Txn(PairIs(a) + ClaimIs(c), PairPut(Without(a, c.host)), {HostKey(c.host, a.gen.instance)})
    case RequestRelease(a, name) =>
      Txn(PairIs(a) + {Absent(ReleaseKey(a.gen.instance))},
          map[ReleaseKey(a.gen.instance) := Plain(IntentRecord(Intent(a.gen, name)))], {})
    case Release(a, i) =>
      var u := a.gen.instance;
      Txn(PairIs(a) + {ValueIs(ReleaseKey(u), IntentRecord(i))}, map[],
          {InstanceKey(u), SlotKey(a.gen.slot), ReleaseKey(u)})
    case RestoreAll(a, claims, i) =>
      var u := a.gen.instance;
      Txn({Absent(InstanceKey(u)), Absent(SlotKey(a.gen.slot)), Absent(ReleaseKey(u))}
          + (set h | h in claims :: Absent(HostKey(h, u))),
          RestorePuts(a, claims, i), {})
    case RestoreIntent(a, claims, i) =>
      var u := a.gen.instance;
      Txn(PairIs(a) + {Absent(ReleaseKey(u))}
          + (set h | h in claims :: ValueIs(HostKey(h, u), ClaimRecord(claims[h]))),
          map[ReleaseKey(u) := Plain(IntentRecord(i))], {})
  }

  function Compile(cfg: Config, m: Mutation, g: Guard): Txn
    requires Admissible(cfg, m)
  {
    var body := Body(cfg, m);
    body.(compares := GuardCompares(cfg, g) + body.compares)
  }

  lemma CompileCommits(cfg: Config, db: Db, m: Mutation, g: Guard)
    requires Admissible(cfg, m)
    ensures Commits(db, Compile(cfg, m, g)) <==>
            Commits(db, Txn(GuardCompares(cfg, g), map[], {})) && Commits(db, Body(cfg, m))
    ensures Apply(db, Compile(cfg, m, g)) == Apply(db, Body(cfg, m))
  {
    var t := Compile(cfg, m, g);
    var gc := GuardCompares(cfg, g);
    assert t.compares == gc + Body(cfg, m).compares;
    forall c | c in gc ensures c in t.compares {}
    forall c | c in Body(cfg, m).compares ensures c in t.compares {}
  }
}
