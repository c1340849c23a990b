/**
 * `_audit_snapshot`: parse every record of one snapshot into per-family
 * dictionaries, then check the relationships between the families.
 */
module Audit {
  import opened Wrappers
  import opened Records
  import opened Store
  import opened Registry
  import opened Sorting
  import opened AuditSpec

  /** The dictionaries that the parsing pass fills. */
  datatype Families = Families(
    instances: map<Uuid, Assignment>,
    slots: map<nat, Assignment>,
    intents: map<Uuid, Intent>,
    claims: map<(Uuid, Uuid), Claim>,
    fences: map<(Uuid, Uuid), Option<Uuid>>)

  /** The dictionaries hold exactly the records under `keys`. */
  ghost predicate Parsed(cfg: Config, db: Db, keys: set<Key>, f: Families) {
    && (forall k | k in keys :: k in db && RecordOk(cfg, k, db[k].raw))
    && InstancesParsed(db, keys, f) && SlotsParsed(db, keys, f) && IntentsParsed(db, keys, f)
    && ClaimsParsed(db, keys, f) && FencesParsed(db, keys, f)
  }

  ghost predicate InstancesParsed(db: Db, keys: set<Key>, f: Families)
    requires keys <= db.Keys
  {
    forall u: Uuid ::
      (u in f.instances <==> InstanceKey(u) in keys)
      && (u in f.instances ==> db[InstanceKey(u)].raw == AssignmentRecord(f.instances[u]))
  }

  ghost predicate SlotsParsed(db: Db, keys: set<Key>, f: Families)
    requires keys <= db.Keys
  {
    forall n: nat ::
      (n in f.slots <==> SlotKey(n) in keys)
      && (n in f.slots ==> db[SlotKey(n)].raw == AssignmentRecord(f.slots[n]))
  }

  ghost predicate IntentsParsed(db: Db, keys: set<Key>, f: Families)
    requires keys <= db.Keys
  {
    forall u: Uuid ::
      (u in f.intents <==> ReleaseKey(u) in keys)
      && (u in f.intents ==> db[ReleaseKey(u)].raw == IntentRecord(f.intents[u]))
  }

  ghost predicate ClaimsParsed(db: Db, keys: set<Key>, f: Families)
    requires keys <= db.Keys
  {
    forall h: Uuid, u: Uuid ::
      ((h, u) in f.claims <==> HostKey(h, u) in keys)
      && ((h, u) in f.claims ==> db[HostKey(h, u)].raw == ClaimRecord(f.claims[(h, u)]))
  }

  ghost predicate FencesParsed(db: Db, keys: set<Key>, f: Families)
    requires keys <= db.Keys
  {
    forall h: Uuid, u: Uuid ::
      ((h, u) in f.fences <==> FenceKey(h, u) in keys)
      && ((h, u) in f.fences ==>
            db[FenceKey(h, u)].raw.FenceRecord? && db[FenceKey(h, u)].raw.fence.token == f.fences[(h, u)])
  }

  /** The allocator namespace holds no control record. */
  predicate NamespaceOnly(db: Db) {
    forall k | k in db :: !k.CoordinatorKey? && !k.FailureKey?
  }

  /** File one record that its family's parser accepted. */
  function Filed(f: Families, k: Key, raw: Raw): Families {
    match k
    case InstanceKey(u) => if raw.AssignmentRecord? then f.(instances := f.instances[u := raw.assignment]) else f
    case SlotKey(n) => if raw.AssignmentRecord? then f.(slots := f.slots[n := raw.assignment]) else f
    case ReleaseKey(u) => if raw.IntentRecord? then f.(intents := f.intents[u := raw.intent]) else f
    case HostKey(h, u) => if raw.ClaimRecord? then f.(claims := f.claims[(h, u) := raw.claim]) else f
    case FenceKey(h, u) => if raw.FenceRecord? then f.(fences := f.fences[(h, u) := raw.fence.token]) else f
    case _ => f
  }

  lemma FiledParsed(cfg: Config, db: Db, keys: set<Key>, f: Families, k: Key)
    requires Parsed(cfg, db, keys, f) && k in db && RecordOk(cfg, k, db[k].raw)
    ensures Parsed(cfg, db, keys + {k}, Filed(f, k, db[k].raw))
  {
    FiledInstances(db, keys, f, k);
    FiledSlots(db, keys, f, k);
    FiledIntents(db, keys, f, k);
    FiledClaims(db, keys, f, k);
    FiledFences(db, keys, f, k);
  }

  lemma FiledInstances(db: Db, keys: set<Key>, f: Families, k: Key)
    requires keys <= db.Keys && InstancesParsed(db, keys, f) && k in db
    requires k.InstanceKey? ==> db[k].raw.AssignmentRecord?
    ensures InstancesParsed(db, keys + {k}, Filed(f, k, db[k].raw))
  {}

  lemma FiledSlots(db: Db, keys: set<Key>, f: Families, k: Key)
    requires keys <= db.Keys && SlotsParsed(db, keys, f) && k in db
    requires k.SlotKey? ==> db[k].raw.AssignmentRecord?
    ensures SlotsParsed(db, keys + {k}, Filed(f, k, db[k].raw))
  {}

  lemma FiledIntents(db: Db, keys: set<Key>, f: Families, k: Key)
    requires keys <= db.Keys && IntentsParsed(db, keys, f) && k in db
    requires k.ReleaseKey? ==> db[k].raw.IntentRecord?
    ensures IntentsParsed(db, keys + {k}, Filed(f, k, db[k].raw))
  {}

  lemma FiledClaims(db: Db, keys: set<Key>, f: Families, k: Key)
    requires keys <= db.Keys && ClaimsParsed(db, keys, f) && k in db
    requires k.HostKey? ==> db[k].raw.ClaimRecord?
    ensures ClaimsParsed(db, keys + {k}, Filed(f, k, db[k].raw))
  {}

  lemma FiledFences(db: Db, keys: set<Key>, f: Families, k: Key)
    requires keys <= db.Keys && FencesParsed(db, keys, f) && k in db
    requires k.FenceKey? ==> db[k].raw.FenceRecord?
    ensures FencesParsed(db, keys + {k}, Filed(f, k, db[k].raw))
  {}

  method ParseRecordFamilies(cfg: Config, records: Db) returns (r: Result<Families>)
    requires NamespaceOnly(records)
    ensures r.Ok? <==> forall k | k in records && k != ConfigKey :: RecordOk(cfg, k, records[k].raw)
    ensures r.Ok? ==> Parsed(cfg, records, records.Keys - {ConfigKey}, r.value)
    ensures r.Err? ==> r.error == Integrity
  {
    var f := Families(map[], map[], map[], map[], map[]);
    var todo := records.Keys - {ConfigKey};
    ghost var seen: set<Key> := {};
    while todo != {}
      invariant todo + seen == records.Keys - {ConfigKey} && todo !! seen
      invariant Parsed(cfg, records, seen, f)
      decreases |todo|
    {
      var k :| k in todo;
      var raw := records[k].raw;
      if !RecordOk(cfg, k, raw) {
        return Err(Integrity);
      }
      FiledParsed(cfg, records, seen, f, k);
      f := Filed(f, k, raw);
      todo := todo - {k};
      seen := seen + {k};
    }
    assert seen == records.Keys - {ConfigKey};
    r := Ok(f);
  }

  /** A ledger entry whose token is still claimed; entries without a token do not take part. */
  predicate Clash(f: Families, p: (Uuid, Uuid)) {
    p in f.fences && f.fences[p].Some? && p in f.claims && f.claims[p].token == f.fences[p].value
  }

  method ValidateFences(f: Families) returns (ok: bool)
    ensures ok <==> forall p | p in f.fences :: !Clash(f, p)
  {
    var todo := f.fences.Keys;
    while todo != {}
      invariant todo <= f.fences.Keys
      invariant forall p | p in f.fences.Keys - todo :: !Clash(f, p)
      decreases |todo|
    {
      var p :| p in todo;
      if Clash(f, p) {
        return false;
      }
      todo := todo - {p};
    }
    ok := true;
  }

  /** Every parsed assignment names its own key. */
  ghost predicate KeysNamed(f: Families) {
    && (forall u | u in f.instances :: f.instances[u].gen.instance == u && f.instances[u].gen.slot >= 0)
    && (forall n | n in f.slots :: f.slots[n].gen.slot == n)
  }

  predicate HasMirror(f: Families, u: Uuid)
    requires u in f.instances
  {
    var n := f.instances[u].gen.slot;
    n >= 0 && n in f.slots && f.slots[n] == f.instances[u]
  }

  predicate HasOwner(f: Families, n: nat)
    requires n in f.slots
  {
    var u := f.slots[n].gen.instance;
    u in f.instances && f.instances[u] == f.slots[n]
  }

  /**
   * Both directions of the pairing. The two auxiliary dictionaries only detect
   * early what the equality of the pairs would detect as well.
   */
  method ValidateSlots(f: Families) returns (ok: bool)
    requires KeysNamed(f)
    ensures ok <==> (forall u | u in f.instances :: HasMirror(f, u)) && (forall n | n in f.slots :: HasOwner(f, n))
  {
    var claimedSlots: map<int, Uuid> := map[];
    var todo := f.instances.Keys;
    while todo != {}
      invariant todo <= f.instances.Keys
      invariant forall u | u in f.instances.Keys - todo :: HasMirror(f, u)
      invariant forall n | n in claimedSlots ::
                  claimedSlots[n] in f.instances.Keys - todo && f.instances[claimedSlots[n]].gen.slot == n
      decreases |todo|
    {
      var u :| u in todo;
      var n := f.instances[u].gen.slot;
      if n in claimedSlots && claimedSlots[n] != u {
        assert HasMirror(f, claimedSlots[n]) && !HasMirror(f, u);
        return false;
      }
      claimedSlots := claimedSlots[n := u];
      if !HasMirror(f, u) {
        return false;
      }
      todo := todo - {u};
    }
    var claimedInstances: map<Uuid, nat> := map[];
    var rest := f.slots.Keys;
    while rest != {}
      invariant rest <= f.slots.Keys
      invariant forall n | n in f.slots.Keys - rest :: HasOwner(f, n)
      invariant forall u | u in claimedInstances ::
                  claimedInstances[u] in f.slots.Keys - rest && f.slots[claimedInstances[u]].gen.instance == u
      decreases |rest|
    {
      var n :| n in rest;
      var u := f.slots[n].gen.instance;
      if u in claimedInstances && claimedInstances[u] != n {
        assert HasOwner(f, claimedInstances[u]) && !HasOwner(f, n);
        return false;
      }
      claimedInstances := claimedInstances[u := n];
      if !HasOwner(f, n) {
        return false;
      }
      rest := rest - {n};
    }
    ok := true;
  }

  predicate IntentPaired(f: Families, u: Uuid)
    requires u in f.intents
  {
    u in f.instances && f.instances[u].gen == f.intents[u].gen
  }

  method ValidateReleases(f: Families) returns (ok: bool)
    ensures ok <==> forall u | u in f.intents :: IntentPaired(f, u)
  {
    var todo := f.intents.Keys;
    while todo != {}
      invariant todo <= f.intents.Keys
      invariant forall u | u in f.intents.Keys - todo :: IntentPaired(f, u)
      decreases |todo|
    {
      var u :| u in todo;
      if !IntentPaired(f, u) {
        return false;
      }
      todo := todo - {u};
    }
    ok := true;
  }

  predicate ClaimIndexed(f: Families, u: Uuid, h: Uuid)
    requires u in f.instances
  {
    (h, u) in f.claims && f.claims[(h, u)].gen == f.instances[u].gen
  }

  predicate ClaimOwned(f: Families, p: (Uuid, Uuid))
    requires p in f.claims
  {
    && p.1 in f.instances && p.0 in f.instances[p.1].hosts
    && f.claims[p].gen == f.instances[p.1].gen
  }

  method ValidateHosts(f: Families) returns (ok: bool)
    ensures ok <==>
      (forall u, h | u in f.instances && h in f.instances[u].hosts :: ClaimIndexed(f, u, h))
      && (forall p | p in f.claims :: ClaimOwned(f, p))
  {
    var todo := f.instances.Keys;
    while todo != {}
      invariant todo <= f.instances.Keys
      invariant forall u, h | u in f.instances.Keys - todo && h in f.instances[u].hosts :: ClaimIndexed(f, u, h)
      decreases |todo|
    {
      var u :| u in todo;
      var hosts := f.instances[u].hosts;
      while hosts != {}
        invariant hosts <= f.instances[u].hosts
        invariant forall h | h in f.instances[u].hosts - hosts :: ClaimIndexed(f, u, h)
        decreases |hosts|
      {
        var h :| h in hosts;
        if !ClaimIndexed(f, u, h) {
          return false;
        }
        hosts := hosts - {h};
      }
      todo := todo - {u};
    }
    var rest := f.claims.Keys;
    while rest != {}
      invariant rest <= f.claims.Keys
      invariant forall p | p in f.claims.Keys - rest :: ClaimOwned(f, p)
      decreases |rest|
    {
      var p :| p in rest;
      if !ClaimOwned(f, p) {
        return false;
      }
      rest := rest - {p};
    }
    ok := true;
  }

  /** The four relationship passes, on dictionaries that were parsed from `db`. */
  ghost predicate FamiliesRelated(f: Families) {
    && (forall p | p in f.fences :: !Clash(f, p))
    && (forall u | u in f.instances :: HasMirror(f, u))
    && (forall n | n in f.slots :: HasOwner(f, n))
    && (forall u | u in f.intents :: IntentPaired(f, u))
    && (forall u, h | u in f.instances && h in f.instances[u].hosts :: ClaimIndexed(f, u, h))
    && (forall p | p in f.claims :: ClaimOwned(f, p))
  }

  lemma RelatedIsWellFormed(cfg: Config, db: Db, f: Families)
    requires ConfigKey in db && db[ConfigKey].raw == ConfigRecord(cfg)
    requires Parsed(cfg, db, db.Keys - {ConfigKey}, f)
    ensures FamiliesRelated(f) <==> WellFormed(cfg, db)
  {
    ParsedViews(cfg, db, f);
    if FamiliesRelated(f) {
      RelatedConsistent(cfg, db, f);
      forall h: Uuid, u: Uuid ensures !FenceClash(db, h, u) {
        assert (h, u) in f.fences ==> !Clash(f, (h, u));
      }
    }
    if WellFormed(cfg, db) {
      WellFormedRelated(cfg, db, f);
    }
  }

  lemma ParsedViews(cfg: Config, db: Db, f: Families)
    requires Parsed(cfg, db, db.Keys - {ConfigKey}, f)
    ensures forall u :: HasAssignment(db, u) <==> u in f.instances
    ensures forall u | u in f.instances :: AssignmentAt(db, u) == f.instances[u]
    ensures forall u :: HasIntent(db, u) <==> u in f.intents
    ensures forall u | u in f.intents :: IntentAt(db, u) == f.intents[u]
    ensures forall h: Uuid, u: Uuid :: HasClaim(db, h, u) <==> (h, u) in f.claims
    ensures forall h: Uuid, u: Uuid | (h, u) in f.claims :: ClaimAt(db, h, u) == f.claims[(h, u)]
    ensures forall h: Uuid, u: Uuid :: HasFence(db, h, u) <==> (h, u) in f.fences
    ensures forall h: Uuid, u: Uuid | (h, u) in f.fences :: FenceAt(db, h, u).token == f.fences[(h, u)]
  {}

  lemma RelatedConsistent(cfg: Config, db: Db, f: Families)
    requires ConfigKey in db && db[ConfigKey].raw == ConfigRecord(cfg)
    requires Parsed(cfg, db, db.Keys - {ConfigKey}, f) && FamiliesRelated(f)
    ensures Consistent(cfg, db)
  {
    ParsedViews(cfg, db, f);
    forall k | k in db ensures RecordOk(cfg, k, db[k].raw) {
      assert k != ConfigKey ==> k in db.Keys - {ConfigKey};
    }
    assert SlotsMirror(db) by {
      forall u | HasAssignment(db, u)
        ensures AssignmentAt(db, u).gen.slot >= 0 && SlotKey(AssignmentAt(db, u).gen.slot) in db
        ensures db[SlotKey(AssignmentAt(db, u).gen.slot)].raw == db[InstanceKey(u)].raw
      {
        assert HasMirror(f, u);
      }
      forall n | SlotKey(n) in db
        ensures db[SlotKey(n)].raw.AssignmentRecord?
        ensures InstanceKey(db[SlotKey(n)].raw.assignment.gen.instance) in db
        ensures db[InstanceKey(db[SlotKey(n)].raw.assignment.gen.instance)].raw == db[SlotKey(n)].raw
      {
        assert n in f.slots && HasOwner(f, n);
      }
    }
    assert ClaimsMatch(db) by {
      forall h, u | HasAssignment(db, u) && h in AssignmentAt(db, u).hosts
        ensures HasClaim(db, h, u) && ClaimAt(db, h, u).gen == AssignmentAt(db, u).gen
      {
        assert ClaimIndexed(f, u, h);
      }
      forall h, u | HasClaim(db, h, u)
        ensures HasAssignment(db, u) && h in AssignmentAt(db, u).hosts
        ensures ClaimAt(db, h, u).gen == AssignmentAt(db, u).gen
      {
        assert ClaimOwned(f, (h, u));
      }
    }
    assert IntentsMatch(db) by {
      forall u | HasIntent(db, u)
        ensures HasAssignment(db, u) && AssignmentAt(db, u).gen == IntentAt(db, u).gen
      {
        assert IntentPaired(f, u);
      }
    }
  }

  lemma WellFormedRelated(cfg: Config, db: Db, f: Families)
    requires Parsed(cfg, db, db.Keys - {ConfigKey}, f) && WellFormed(cfg, db)
    ensures FamiliesRelated(f)
  {
    ParsedViews(cfg, db, f);
    forall p | p in f.fences ensures !Clash(f, p) {
      assert !FenceClash(db, p.0, p.1);
    }
    forall u | u in f.instances ensures HasMirror(f, u) {
      assert HasAssignment(db, u);
    }
    forall n | n in f.slots ensures HasOwner(f, n) {
      assert SlotKey(n) in db;
    }
    forall u | u in f.intents ensures IntentPaired(f, u) {
      assert HasIntent(db, u);
    }
    forall u, h | u in f.instances && h in f.instances[u].hosts ensures ClaimIndexed(f, u, h) {
      assert HasClaim(db, h, u);
    }
    forall p | p in f.claims ensures ClaimOwned(f, p) {
      assert HasClaim(db, p.0, p.1);
    }
  }

  // ---- the whole audit ---------------------------------------------------------------

  /** What an accepted audit returns. */
  datatype Snapshot = Snapshot(assignments: seq<Assignment>, intents: seq<Intent>, claims: seq<Claim>)

  predicate ClaimBefore(c: Claim, d: Claim) {
    c.gen.slot < d.gen.slot
    || (c.gen.slot == d.gen.slot && c.gen.instance < d.gen.instance)
    || (c.gen.slot == d.gen.slot && c.gen.instance == d.gen.instance && c.host < d.host)
  }

  /** The lists are exactly the stored records, each once, in their canonical order. */
  ghost predicate Lists(db: Db, s: Snapshot) {
    && (forall a :: a in s.assignments <==> HasAssignment(db, a.gen.instance) && AssignmentAt(db, a.gen.instance) == a)
    && (forall i, j | 0 <= i < j < |s.assignments| :: s.assignments[i].gen.slot < s.assignments[j].gen.slot)
    && (forall x :: x in s.intents <==> HasIntent(db, x.gen.instance) && IntentAt(db, x.gen.instance) == x)
    && (forall i, j | 0 <= i < j < |s.intents| :: s.intents[i].gen.slot < s.intents[j].gen.slot)
    && (forall c :: c in s.claims <==> HasClaim(db, c.host, c.gen.instance) && ClaimAt(db, c.host, c.gen.instance) == c)
    && (forall i, j | 0 <= i < j < |s.claims| :: ClaimBefore(s.claims[i], s.claims[j]))
  }

  method ListAssignments(cfg: Config, db: Db, f: Families) returns (s: seq<Assignment>)
    requires WellFormed(cfg, db) && Parsed(cfg, db, db.Keys - {ConfigKey}, f)
    ensures forall a :: a in s <==> HasAssignment(db, a.gen.instance) && AssignmentAt(db, a.gen.instance) == a
    ensures forall i, j | 0 <= i < j < |s| :: s[i].gen.slot < s[j].gen.slot
  {
    ParsedViews(cfg, db, f);
    InstancesNamed(cfg, db, f);
    var values := ValuesOf(f.instances);
    s := Sort(values, (a: Assignment, b: Assignment) => a.gen.slot <= b.gen.slot);
    DistinctReordered(values, s);
    AssignmentsListed(cfg, db, f, s);
  }

  /** The parsed assignments in slot order are the stored ones, no two of one slot. */
  lemma AssignmentsListed(cfg: Config, db: Db, f: Families, s: seq<Assignment>)
    requires Consistent(cfg, db) && Distinct(s)
    requires forall u: Uuid ::
      (u in f.instances <==> HasAssignment(db, u)) && (u in f.instances ==> f.instances[u] == AssignmentAt(db, u))
    requires forall u | u in f.instances :: f.instances[u].gen.instance == u
    requires forall a :: a in s <==> exists u | u in f.instances :: f.instances[u] == a
    requires forall i, j | 0 <= i < j < |s| :: s[i].gen.slot <= s[j].gen.slot
    ensures forall a :: a in s <==> HasAssignment(db, a.gen.instance) && AssignmentAt(db, a.gen.instance) == a
    ensures forall i, j | 0 <= i < j < |s| :: s[i].gen.slot < s[j].gen.slot
  {
    forall a ensures a in s <==> HasAssignment(db, a.gen.instance) && AssignmentAt(db, a.gen.instance) == a {
      if a in s {
        var u :| u in f.instances && f.instances[u] == a;
      }
    }
    forall i, j | 0 <= i < j < |s| ensures s[i].gen.slot < s[j].gen.slot {
      assert s[i] in s && s[j] in s && s[i] != s[j];
      SameSlotSameRecord(cfg, db, s[i].gen.instance, s[j].gen.instance);
    }
  }

  lemma InstancesNamed(cfg: Config, db: Db, f: Families)
    requires Parsed(cfg, db, db.Keys - {ConfigKey}, f)
    ensures KeysNamed(f)
    ensures forall u | u in f.intents :: f.intents[u].gen.instance == u
    ensures forall p | p in f.claims :: f.claims[p].host == p.0 && f.claims[p].gen.instance == p.1
  {
    forall u | u in f.instances
      ensures f.instances[u].gen.instance == u && f.instances[u].gen.slot >= 0
    {
      assert RecordOk(cfg, InstanceKey(u), db[InstanceKey(u)].raw);
    }
    forall n | n in f.slots ensures f.slots[n].gen.slot == n {
      assert RecordOk(cfg, SlotKey(n), db[SlotKey(n)].raw);
    }
    forall u | u in f.intents ensures f.intents[u].gen.instance == u {
      assert RecordOk(cfg, ReleaseKey(u), db[ReleaseKey(u)].raw);
    }
    forall p | p in f.claims ensures f.claims[p].host == p.0 && f.claims[p].gen.instance == p.1 {
      assert RecordOk(cfg, HostKey(p.0, p.1), db[HostKey(p.0, p.1)].raw);
    }
  }

  lemma SameSlotSameRecord(cfg: Config, db: Db, u: Uuid, v: Uuid)
    requires Consistent(cfg, db) && HasAssignment(db, u) && HasAssignment(db, v)
    ensures AssignmentAt(db, u).gen.slot == AssignmentAt(db, v).gen.slot ==>
              AssignmentAt(db, u) == AssignmentAt(db, v)
  {}

  method ListIntents(cfg: Config, db: Db, f: Families) returns (s: seq<Intent>)
    requires WellFormed(cfg, db) && Parsed(cfg, db, db.Keys - {ConfigKey}, f)
    ensures forall x :: x in s <==> HasIntent(db, x.gen.instance) && IntentAt(db, x.gen.instance) == x
    ensures forall i, j | 0 <= i < j < |s| :: s[i].gen.slot < s[j].gen.slot
  {
    ParsedViews(cfg, db, f);
    InstancesNamed(cfg, db, f);
    var values := ValuesOf(f.intents);
    s := Sort(values, (a: Intent, b: Intent) => a.gen.slot <= b.gen.slot);
    DistinctReordered(values, s);
    IntentsListed(cfg, db, f, s);
  }

  /** The parsed intents in slot order are the stored intents, no two of one slot. */
  lemma IntentsListed(cfg: Config, db: Db, f: Families, s: seq<Intent>)
    requires Consistent(cfg, db) && Distinct(s)
    requires forall u: Uuid ::
      (u in f.intents <==> HasIntent(db, u)) && (u in f.intents ==> f.intents[u] == IntentAt(db, u))
    requires forall u | u in f.intents :: f.intents[u].gen.instance == u
    requires forall x :: x in s <==> exists u | u in f.intents :: f.intents[u] == x
    requires forall i, j | 0 <= i < j < |s| :: s[i].gen.slot <= s[j].gen.slot
    ensures forall x :: x in s <==> HasIntent(db, x.gen.instance) && IntentAt(db, x.gen.instance) == x
    ensures forall i, j | 0 <= i < j < |s| :: s[i].gen.slot < s[j].gen.slot
  {
    forall x ensures x in s <==> HasIntent(db, x.gen.instance) && IntentAt(db, x.gen.instance) == x {
      if x in s {
        var u :| u in f.intents && f.intents[u] == x;
      }
    }
    forall i, j | 0 <= i < j < |s| ensures s[i].gen.slot < s[j].gen.slot {
      assert s[i] in s && s[j] in s && s[i] != s[j];
      IntentsOfOneSlot(cfg, db, s[i], s[j]);
    }
  }

  lemma IntentsOfOneSlot(cfg: Config, db: Db, x: Intent, y: Intent)
    requires Consistent(cfg, db)
    requires HasIntent(db, x.gen.instance) && IntentAt(db, x.gen.instance) == x
    requires HasIntent(db, y.gen.instance) && IntentAt(db, y.gen.instance) == y
    ensures x.gen.slot == y.gen.slot ==> x == y
  {
    SameSlotSameRecord(cfg, db, x.gen.instance, y.gen.instance);
  }

  method ListClaims(cfg: Config, db: Db, f: Families) returns (s: seq<Claim>)
    requires Parsed(cfg, db, db.Keys - {ConfigKey}, f)
    ensures forall c :: c in s <==> HasClaim(db, c.host, c.gen.instance) && ClaimAt(db, c.host, c.gen.instance) == c
    ensures forall i, j | 0 <= i < j < |s| :: ClaimBefore(s[i], s[j])
  {
    ParsedViews(cfg, db, f);
    InstancesNamed(cfg, db, f);
    var values := ValuesOf(f.claims);
    s := Sort(values, (c: Claim, d: Claim) => !ClaimBefore(d, c));
    DistinctReordered(values, s);
    forall c ensures c in s <==> HasClaim(db, c.host, c.gen.instance) && ClaimAt(db, c.host, c.gen.instance) == c {
      if c in s {
        var p :| p in f.claims && f.claims[p] == c;
      }
      if HasClaim(db, c.host, c.gen.instance) && ClaimAt(db, c.host, c.gen.instance) == c {
        assert (c.host, c.gen.instance) in f.claims;
      }
    }
    forall i, j | 0 <= i < j < |s| ensures ClaimBefore(s[i], s[j]) {
      assert s[i] in s && s[j] in s && s[i] != s[j];
    }
  }

  /** Accepts exactly the well-formed snapshots, and then lists exactly their records. */
  method AuditSnapshot(cfg: Config, records: Db) returns (r: Result<Snapshot>)
    requires NamespaceOnly(records)
    ensures r.Ok? <==> WellFormed(cfg, records)
    ensures r.Ok? ==> Lists(records, r.value)
    ensures r.Err? ==> r.error == Integrity
  {
    if ConfigKey !in records || records[ConfigKey].raw != ConfigRecord(cfg) {
      WellFormedIsConfigured(cfg, records);
      return Err(Integrity);
    }
    var parsed := ParseRecordFamilies(cfg, records);
    if parsed.Err? {
      return Err(Integrity);
    }
    var f := parsed.value;
    InstancesNamed(cfg, records, f);
    RelatedIsWellFormed(cfg, records, f);
    var fences := ValidateFences(f);
    if !fences {
      return Err(Integrity);
    }
    var slots := ValidateSlots(f);
    if !slots {
      return Err(Integrity);
    }
    var releases := ValidateReleases(f);
    if !releases {
      return Err(Integrity);
    }
    var hosts := ValidateHosts(f);
    if !hosts {
      return Err(Integrity);
    }
    var assignments := ListAssignments(cfg, records, f);
    var intents := ListIntents(cfg, records, f);
    var claims := ListClaims(cfg, records, f);
    r := Ok(Snapshot(assignments, intents, claims));
  }

  lemma WellFormedIsConfigured(cfg: Config, db: Db)
    ensures WellFormed(cfg, db) ==> ConfigKey in db && db[ConfigKey].raw == ConfigRecord(cfg)
  {
    if WellFormed(cfg, db) {
      assert RecordOk(cfg, ConfigKey, db[ConfigKey].raw);
    }
  }

  /** The allocator namespace of a store: everything but the two control records. */
  function Namespace(db: Db): Db {
    map k | k in db && !k.CoordinatorKey? && !k.FailureKey? :: db[k]
  }
}
