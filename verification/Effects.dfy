/** What one committed mutation changes, key family by key family. */
module Effects {
  import opened Wrappers
  import opened Records
  import opened Store
  import opened Registry
  import opened Preservation

  /** The claim that a mutation writes for host `h` of its own instance. */
  function Written(m: Mutation, h: Uuid): Option<Claim> {
    match m
    case AddClaim(a, host, t) => if h == host then Some(NewClaim(a.gen, h, t)) else None
    case ReplaceClaim(a, c, t) => if h == c.host then Some(NewClaim(a.gen, h, t)) else None
    case MarkPossible(_, c) => if h == c.host then Some(c.(state := Possible)) else None
    case MarkCommitted(_, c) => if h == c.host then Some(c.(state := Committed)) else None
    case RecordProof(_, c, p) =>
      if h == c.host then Some(c.(state := Cleaned, proof := Some(p))) else None
    case RestoreAll(_, claims, _) => if h in claims then Some(claims[h]) else None
    case _ => None
  }

  /** A mutation of an existing claim starts from this record. */
  function Consumed(m: Mutation): Option<Claim> {
    match m
    case ReplaceClaim(_, c, _) => Some(c)
    case MarkPossible(_, c) => Some(c)
    case MarkCommitted(_, c) => Some(c)
    case RecordProof(_, c, _) => Some(c)
    case FenceRetire(_, c, _) => Some(c)
    case Abandon(_, c) => Some(c)
    case Retire(_, c) => Some(c)
    case _ => None
  }

  predicate Dropped(m: Mutation, h: Uuid) {
    (m.FenceRetire? || m.Abandon? || m.Retire?) && h == m.claim.host
  }

  lemma ClaimEffect(cfg: Config, db: Db, m: Mutation, h: Uuid, u: Uuid)
    requires Admissible(cfg, m) && Commits(db, Body(cfg, m))
    ensures var db' := Apply(db, Body(cfg, m));
      if u == SubjectOf(m) && Written(m, h).Some? then
        HasClaim(db', h, u) && ClaimAt(db', h, u) == Written(m, h).value
      else if u == SubjectOf(m) && Dropped(m, h) then HostKey(h, u) !in db'
      else (HostKey(h, u) in db' <==> HostKey(h, u) in db)
           && (HostKey(h, u) in db ==> db'[HostKey(h, u)] == db[HostKey(h, u)])
  {
    ClaimPart(cfg, m, h, u);
    var t := Body(cfg, m);
    var k := HostKey(h, u);
    assert k in Apply(db, t) <==> k in t.puts || (k in db && k !in t.deletes);
  }

  lemma ClaimPart(cfg: Config, m: Mutation, h: Uuid, u: Uuid)
    requires Admissible(cfg, m)
    ensures HostKey(h, u) in Body(cfg, m).puts <==> u == SubjectOf(m) && Written(m, h).Some?
    ensures u == SubjectOf(m) && Written(m, h).Some? ==>
      Body(cfg, m).puts[HostKey(h, u)] == Plain(ClaimRecord(Written(m, h).value))
    ensures HostKey(h, u) in Body(cfg, m).deletes <==> u == SubjectOf(m) && Dropped(m, h)
  {
    if m.RestoreAll? {
      RestoredView(m.current, m.claims, m.barrier, Body(cfg, m));
      if HostKey(h, u) in Body(cfg, m).puts {
        assert Touches(HostKey(h, u), m.current.gen.instance, m.current.gen.slot);
      }
    }
  }

  /** The claim a mutation starts from is the stored one. */
  lemma ConsumedHolds(cfg: Config, db: Db, m: Mutation)
    requires Admissible(cfg, m) && Commits(db, Body(cfg, m)) && Consumed(m).Some?
    ensures HasClaim(db, Consumed(m).value.host, SubjectOf(m))
    ensures ClaimAt(db, Consumed(m).value.host, SubjectOf(m)) == Consumed(m).value
  {
    ClaimHolds(db, Consumed(m).value, Body(cfg, m));
  }

  lemma FenceEffect(cfg: Config, db: Db, m: Mutation, h: Uuid, u: Uuid)
    requires Admissible(cfg, m) && Commits(db, Body(cfg, m))
    ensures var db' := Apply(db, Body(cfg, m));
      if m.FenceRetire? && h == m.claim.host && u == SubjectOf(m) then
        HasFence(db', h, u) && FenceAt(db', h, u) == m.fence
      else (FenceKey(h, u) in db' <==> FenceKey(h, u) in db)
           && (FenceKey(h, u) in db ==> db'[FenceKey(h, u)] == db[FenceKey(h, u)])
  {
    if m.RestoreAll? {
      RestoredView(m.current, m.claims, m.barrier, Body(cfg, m));
    }
  }

  /** The intent that a mutation writes for its own instance. */
  function BarrierWritten(m: Mutation): Option<Intent> {
    match m
    case RequestRelease(a, name) => Some(Intent(a.gen, name))
    case RestoreIntent(_, _, i) => Some(i)
    case RestoreAll(_, _, barrier) => barrier
    case _ => None
  }

  lemma IntentEffect(cfg: Config, db: Db, m: Mutation, u: Uuid)
    requires Admissible(cfg, m) && Commits(db, Body(cfg, m))
    ensures var db' := Apply(db, Body(cfg, m));
      if u == SubjectOf(m) && BarrierWritten(m).Some? then
        HasIntent(db', u) && IntentAt(db', u) == BarrierWritten(m).value
      else if u == SubjectOf(m) && m.Release? then ReleaseKey(u) !in db'
      else (ReleaseKey(u) in db' <==> ReleaseKey(u) in db)
           && (ReleaseKey(u) in db ==> db'[ReleaseKey(u)] == db[ReleaseKey(u)])
  {
    IntentPart(cfg, m, u);
    var t := Body(cfg, m);
    var k := ReleaseKey(u);
    assert k in Apply(db, t) <==> k in t.puts || (k in db && k !in t.deletes);
  }

  lemma IntentPart(cfg: Config, m: Mutation, u: Uuid)
    requires Admissible(cfg, m)
    ensures ReleaseKey(u) in Body(cfg, m).puts <==> u == SubjectOf(m) && BarrierWritten(m).Some?
    ensures u == SubjectOf(m) && BarrierWritten(m).Some? ==>
      Body(cfg, m).puts[ReleaseKey(u)] == Plain(IntentRecord(BarrierWritten(m).value))
    ensures ReleaseKey(u) in Body(cfg, m).deletes <==> u == SubjectOf(m) && m.Release?
  {
    if m.RestoreAll? {
      RestoredView(m.current, m.claims, m.barrier, Body(cfg, m));
      if ReleaseKey(u) in Body(cfg, m).puts {
        assert Touches(ReleaseKey(u), m.current.gen.instance, m.current.gen.slot);
      }
    }
  }

  /** The pair that a mutation writes; `None` for one that leaves the pair alone or removes it. */
  function PairAfter(cfg: Config, m: Mutation): Option<Assignment> {
    match m
    case Allocate(u, slot, id) => Some(Assignment(NewGeneration(cfg, u, slot, id), {}))
    case AddClaim(a, h, _) => Some(a.(hosts := a.hosts + {h}))
    case FenceRetire(a, c, _) => Some(Without(a, c.host))
    case Abandon(a, c) => Some(Without(a, c.host))
    case Retire(a, c) => Some(Without(a, c.host))
    case RestoreAll(a, _, _) => Some(a)
    case _ => None
  }

  lemma PairEffect(cfg: Config, db: Db, m: Mutation, u: Uuid)
    requires Admissible(cfg, m) && Commits(db, Body(cfg, m))
    ensures var db' := Apply(db, Body(cfg, m));
      if u == SubjectOf(m) && PairAfter(cfg, m).Some? then
        HasAssignment(db', u) && AssignmentAt(db', u) == PairAfter(cfg, m).value
      else if u == SubjectOf(m) && m.Release? then InstanceKey(u) !in db'
      else (InstanceKey(u) in db' <==> InstanceKey(u) in db)
           && (InstanceKey(u) in db ==> db'[InstanceKey(u)] == db[InstanceKey(u)])
  {
    PairPart(cfg, m, u);
    var t := Body(cfg, m);
    var k := InstanceKey(u);
    assert k in Apply(db, t) <==> k in t.puts || (k in db && k !in t.deletes);
  }

  lemma PairPart(cfg: Config, m: Mutation, u: Uuid)
    requires Admissible(cfg, m)
    ensures InstanceKey(u) in Body(cfg, m).puts <==> u == SubjectOf(m) && PairAfter(cfg, m).Some?
    ensures u == SubjectOf(m) && PairAfter(cfg, m).Some? ==>
      Body(cfg, m).puts[InstanceKey(u)] == Plain(AssignmentRecord(PairAfter(cfg, m).value))
    ensures InstanceKey(u) in Body(cfg, m).deletes <==> u == SubjectOf(m) && m.Release?
  {
    if m.RestoreAll? {
      RestoredView(m.current, m.claims, m.barrier, Body(cfg, m));
      if InstanceKey(u) in Body(cfg, m).puts {
        assert Touches(InstanceKey(u), m.current.gen.instance, m.current.gen.slot);
      }
    }
  }

  /** Every mutation but the two that create a pair starts from the stored pair. */
  lemma CurrentHolds(cfg: Config, db: Db, m: Mutation)
    requires Admissible(cfg, m) && Commits(db, Body(cfg, m))
    ensures !m.Allocate? && !m.RestoreAll? ==>
      HasAssignment(db, SubjectOf(m)) && AssignmentAt(db, SubjectOf(m)) == m.current
    ensures m.Allocate? || m.RestoreAll? ==> InstanceKey(SubjectOf(m)) !in db && ReleaseKey(SubjectOf(m)) !in db
    ensures m.RestoreAll? ==> forall h | h in m.claims :: HostKey(h, SubjectOf(m)) !in db
  {
    var t := Body(cfg, m);
    if m.Allocate? || m.RestoreAll? {
      AbsentHolds(db, InstanceKey(SubjectOf(m)), t);
      AbsentHolds(db, ReleaseKey(SubjectOf(m)), t);
      if m.RestoreAll? {
        forall h | h in m.claims ensures HostKey(h, SubjectOf(m)) !in db {
          AbsentHolds(db, HostKey(h, SubjectOf(m)), t);
        }
      }
    } else {
      PairHolds(db, m.current, t);
    }
  }

  /** The mutations that a release barrier stops. */
  predicate NeedsNoBarrier(m: Mutation) {
    m.Allocate? || m.AddClaim? || m.ReplaceClaim? || m.MarkPossible? || m.RequestRelease?
    || m.RestoreAll? || m.RestoreIntent?
  }

  lemma BarrierHolds(cfg: Config, db: Db, m: Mutation)
    requires Admissible(cfg, m) && Commits(db, Body(cfg, m)) && NeedsNoBarrier(m)
    ensures ReleaseKey(SubjectOf(m)) !in db
  {
    AbsentHolds(db, ReleaseKey(SubjectOf(m)), Body(cfg, m));
  }
}
