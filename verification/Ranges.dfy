/** What the registry is for: no two live allocations share a UID or GID. */
module Ranges {
  import opened Records
  import opened Store
  import opened Registry
  import opened Fleet
  import opened Runs

  predicate Disjoint(a: Generation, b: Generation) {
    a.base + a.size <= b.base || b.base + b.size <= a.base
  }

  lemma LaterSlot(a: int, b: int, size: nat)
    requires a < b
    ensures a * size + size <= b * size
  {
    assert (b - a - 1) * size >= 0;
  }

  lemma SlotRange(cfg: Config, g: Generation)
    requires ValidConfig(cfg) && GenerationOk(cfg, g)
    ensures cfg.base <= g.base && g.base + g.size <= cfg.base + cfg.count * cfg.size <= 0x1_0000_0000
  {
    LaterSlot(g.slot, cfg.count, cfg.size);
    assert g.slot * cfg.size >= 0;
  }

  lemma SlotsApart(cfg: Config, a: Generation, b: Generation)
    requires ValidConfig(cfg) && GenerationOk(cfg, a) && GenerationOk(cfg, b) && a.slot != b.slot
    ensures Disjoint(a, b)
  {
    if a.slot < b.slot {
      LaterSlot(a.slot, b.slot, cfg.size);
    } else {
      LaterSlot(b.slot, a.slot, cfg.size);
    }
  }

  /** Two instances of one consistent registry own disjoint ranges inside the namespace. */
  lemma AllocationsDisjoint(cfg: Config, db: Db, u: Uuid, v: Uuid)
    requires ValidConfig(cfg) && Consistent(cfg, db)
    requires HasAssignment(db, u) && HasAssignment(db, v) && u != v
    ensures Disjoint(AssignmentAt(db, u).gen, AssignmentAt(db, v).gen)
    ensures cfg.base <= AssignmentAt(db, u).gen.base
    ensures AssignmentAt(db, u).gen.base + AssignmentAt(db, u).gen.size <= cfg.base + cfg.count * cfg.size
    ensures cfg.base + cfg.count * cfg.size <= 0x1_0000_0000
  {
    var a, b := AssignmentAt(db, u).gen, AssignmentAt(db, v).gen;
    assert RecordOk(cfg, InstanceKey(u), db[InstanceKey(u)].raw);
    assert RecordOk(cfg, InstanceKey(v), db[InstanceKey(v)].raw);
    SlotRange(cfg, a);
    if a.slot != b.slot {
      SlotsApart(cfg, a, b);
    }
  }

  /** At every revision of every run, claims of different instances never overlap, on any hosts. */
  lemma ClaimsNeverOverlap(cfg: Config, r: Run, i: nat, h: Uuid, u: Uuid, k: Uuid, v: Uuid)
    requires ValidConfig(cfg) && ValidRun(cfg, r) && i < |r.states| && u != v
    requires HasClaim(r.states[i].db, h, u) && HasClaim(r.states[i].db, k, v)
    ensures Disjoint(ClaimAt(r.states[i].db, h, u).gen, ClaimAt(r.states[i].db, k, v).gen)
  {
    RunKeepsInv(cfg, r, i);
    AllocationsDisjoint(cfg, r.states[i].db, u, v);
  }
}
