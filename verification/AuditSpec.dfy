/**
 * The audit's verdict on one snapshot as a finite check, record by record, and
 * its equivalence with well-formedness.
 */
module AuditSpec {
  import opened Wrappers
  import opened Records
  import opened Store
  import opened Registry

  /** Everything the audit demands of the record under one key. */
  predicate KeyAccepted(cfg: Config, db: Db, k: Key)
    requires k in db
  {
    RecordOk(cfg, k, db[k].raw) && RelationsOk(db, k)
  }

  predicate RelationsOk(db: Db, k: Key)
    requires k in db
  {
    match k
    case InstanceKey(u) => HasAssignment(db, u) && InstanceRelations(db, u)
    case SlotKey(n) =>
      && db[k].raw.AssignmentRecord?
      && InstanceKey(db[k].raw.assignment.gen.instance) in db
      && db[InstanceKey(db[k].raw.assignment.gen.instance)].raw == db[k].raw
    case ReleaseKey(u) =>
      HasIntent(db, u) && HasAssignment(db, u) && AssignmentAt(db, u).gen == IntentAt(db, u).gen
    case HostKey(h, u) =>
      && HasClaim(db, h, u) && HasAssignment(db, u) && h in AssignmentAt(db, u).hosts
      && ClaimAt(db, h, u).gen == AssignmentAt(db, u).gen
    case FenceKey(h, u) => !FenceClash(db, h, u)
    case _ => true
  }

  predicate InstanceRelations(db: Db, u: Uuid)
    requires HasAssignment(db, u)
  {
    var a := AssignmentAt(db, u);
    && a.gen.slot >= 0 && SlotKey(a.gen.slot) in db && db[SlotKey(a.gen.slot)].raw == db[InstanceKey(u)].raw
    && forall h | h in a.hosts :: HasClaim(db, h, u) && ClaimAt(db, h, u).gen == a.gen
  }

  predicate Accepts(cfg: Config, db: Db) {
    ConfigKey in db && forall k | k in db :: KeyAccepted(cfg, db, k)
  }

  lemma AcceptsWellFormed(cfg: Config, db: Db)
    requires Accepts(cfg, db)
    ensures WellFormed(cfg, db)
  {
    forall u | HasAssignment(db, u) ensures InstanceRelations(db, u) {
      assert KeyAccepted(cfg, db, InstanceKey(u));
    }
    forall n | SlotKey(n) in db ensures RelationsOk(db, SlotKey(n)) {
      assert KeyAccepted(cfg, db, SlotKey(n));
    }
    forall u | HasIntent(db, u) ensures RelationsOk(db, ReleaseKey(u)) {
      assert KeyAccepted(cfg, db, ReleaseKey(u));
    }
    forall h, u | HasClaim(db, h, u) ensures RelationsOk(db, HostKey(h, u)) {
      assert KeyAccepted(cfg, db, HostKey(h, u));
    }
    forall h, u ensures !FenceClash(db, h, u) {
      if HasFence(db, h, u) {
        assert KeyAccepted(cfg, db, FenceKey(h, u));
      }
    }
    assert RecordsOk(cfg, db) by {
      forall k | k in db ensures RecordOk(cfg, k, db[k].raw) {
        assert KeyAccepted(cfg, db, k);
      }
    }
  }

  lemma WellFormedAccepted(cfg: Config, db: Db)
    requires WellFormed(cfg, db)
    ensures Accepts(cfg, db)
  {
    forall k | k in db ensures KeyAccepted(cfg, db, k) {
      assert RecordOk(cfg, k, db[k].raw);
      match k
      case InstanceKey(u) => assert HasAssignment(db, u);
      case SlotKey(n) =>
      case ReleaseKey(u) => assert HasIntent(db, u);
      case HostKey(h, u) => assert HasClaim(db, h, u);
      case FenceKey(h, u) => assert !FenceClash(db, h, u);
      case _ =>
    }
  }

  /** The finite check accepts exactly the well-formed registries. */
  lemma AcceptsExactly(cfg: Config, db: Db)
    ensures Accepts(cfg, db) <==> WellFormed(cfg, db)
  {
    if Accepts(cfg, db) {
      AcceptsWellFormed(cfg, db);
    }
    if WellFormed(cfg, db) {
      WellFormedAccepted(cfg, db);
    }
  }
}
