/**
 * The shared etcd store: keys with a record and a lease, and the guarded
 * transaction that is its only write.
 */
module Store {
  import opened Wrappers
  import opened Records

  /** `StrayKey` is any other key below the allocator namespace. */
  datatype Key =
    | ConfigKey
    | InstanceKey(instance: Uuid)
    | SlotKey(slot: nat)
    | ReleaseKey(instance: Uuid)
    | HostKey(host: Uuid, instance: Uuid)
    | FenceKey(host: Uuid, instance: Uuid)
    | StrayKey(name: string)
    | CoordinatorKey
    | FailureKey

  datatype Entry = Entry(raw: Raw, lease: LeaseId)

  type Db = map<Key, Entry>

  datatype Compare =
    | Absent(key: Key)
    | ValueIs(key: Key, raw: Raw)
    | LeaseIs(key: Key, lease: LeaseId)

  /** etcd refuses to write one key twice in a transaction, so writes are a map. */
  datatype Txn = Txn(compares: set<Compare>, puts: map<Key, Entry>, deletes: set<Key>)

  predicate Holds(db: Db, c: Compare) {
    match c
    case Absent(k) => k !in db
    case ValueIs(k, raw) => k in db && db[k].raw == raw
    case LeaseIs(k, lease) => (if k in db then db[k].lease else 0) == lease
  }

  predicate Commits(db: Db, t: Txn) {
    forall c | c in t.compares :: Holds(db, c)
  }

  function Apply(db: Db, t: Txn): Db {
    (db - t.deletes) + t.puts
  }

  function Submit(db: Db, t: Txn): Db {
    if Commits(db, t) then Apply(db, t) else db
  }

  function ComparedKeys(t: Txn): set<Key> {
    set c | c in t.compares :: c.key
  }

  /** Two stores agree on a set of keys. */
  ghost predicate AgreeOn(a: Db, b: Db, keys: set<Key>) {
    forall k | k in keys :: (k in a <==> k in b) && (k in a ==> a[k] == b[k])
  }

  lemma AgreeCommits(a: Db, b: Db, t: Txn)
    requires AgreeOn(a, b, ComparedKeys(t))
    ensures Commits(a, t) <==> Commits(b, t)
  {
    forall c | c in t.compares
      ensures Holds(a, c) <==> Holds(b, c)
    {
      assert c.key in ComparedKeys(t);
    }
  }

  // ---- typed views of the families ------------------------------------------

  predicate HasAssignment(db: Db, u: Uuid) {
    InstanceKey(u) in db && db[InstanceKey(u)].raw.AssignmentRecord?
  }

  function AssignmentAt(db: Db, u: Uuid): Assignment
    requires HasAssignment(db, u)
  {
    db[InstanceKey(u)].raw.assignment
  }

  predicate HasIntent(db: Db, u: Uuid) {
    ReleaseKey(u) in db && db[ReleaseKey(u)].raw.IntentRecord?
  }

  function IntentAt(db: Db, u: Uuid): Intent
    requires HasIntent(db, u)
  {
    db[ReleaseKey(u)].raw.intent
  }

  predicate HasClaim(db: Db, h: Uuid, u: Uuid) {
    HostKey(h, u) in db && db[HostKey(h, u)].raw.ClaimRecord?
  }

  function ClaimAt(db: Db, h: Uuid, u: Uuid): Claim
    requires HasClaim(db, h, u)
  {
    db[HostKey(h, u)].raw.claim
  }

  predicate HasFence(db: Db, h: Uuid, u: Uuid) {
    FenceKey(h, u) in db && db[FenceKey(h, u)].raw.FenceRecord?
  }

  function FenceAt(db: Db, h: Uuid, u: Uuid): Fence
    requires HasFence(db, h, u)
  {
    db[FenceKey(h, u)].raw.fence
  }
}
