/** `_probe_snapshot`: the count relations that every well-formed registry satisfies. */
module Probe {
  import opened Wrappers
  import opened Records
  import opened Store
  import opened Registry
  import opened Keys

  function InstanceKeys(db: Db): set<Key> { set k | k in db && k.InstanceKey? }
  function SlotKeys(db: Db): set<Key> { set k | k in db && k.SlotKey? }
  function ReleaseKeys(db: Db): set<Key> { set k | k in db && k.ReleaseKey? }
  function HostKeys(db: Db): set<Key> { set k | k in db && k.HostKey? }

  datatype Counts = Counts(instances: nat, slots: nat, releases: nat, hosts: nat)

  /** Families of these sizes can belong together. */
  predicate CountsAgree(c: Counts) {
    c.instances == c.slots && c.releases <= c.instances && (c.instances == 0 ==> c.hosts == 0)
  }

  ghost function FamilyCounts(cfg: Config, db: Db): Counts {
    Counts(|TextsOf(cfg, db, Instances)|, |TextsOf(cfg, db, Slots)|,
           |TextsOf(cfg, db, Releases)|, |TextsOf(cfg, db, Hosts)|)
  }

  /**
   * Four counted prefix ranges at one revision. What is counted are the keys of
   * the families; the probe fails exactly when the configuration changed or the
   * counts cannot belong together.
   */
  method ProbeSnapshot(cfg: Config, db: Db) returns (r: Result<Counts>)
    ensures r.Ok? ==> r.value == FamilyCounts(cfg, db)
    ensures r.Ok? <==> Configured(cfg, db) && CountsAgree(FamilyCounts(cfg, db))
    ensures r.Err? ==> r.error == Integrity
  {
    if ConfigKey !in db || db[ConfigKey].raw != ConfigRecord(cfg) {
      return Err(Integrity);
    }
    var instances := CountFamily(cfg, db, Instances);
    var slots := CountFamily(cfg, db, Slots);
    var releases := CountFamily(cfg, db, Releases);
    var hosts := CountFamily(cfg, db, Hosts);
    if instances != slots || releases > instances || (instances == 0 && hosts != 0) {
      return Err(Integrity);
    }
    r := Ok(Counts(instances, slots, releases, hosts));
  }

  /** A consistent registry has no stray keys, so a count is the number of the family's records. */
  lemma FamiliesOf(cfg: Config, db: Db)
    requires Consistent(cfg, db)
    ensures KeysOf(db, Instances) == InstanceKeys(db) && KeysOf(db, Slots) == SlotKeys(db)
    ensures KeysOf(db, Releases) == ReleaseKeys(db) && KeysOf(db, Hosts) == HostKeys(db)
    ensures FamilyCounts(cfg, db) ==
            Counts(|InstanceKeys(db)|, |SlotKeys(db)|, |ReleaseKeys(db)|, |HostKeys(db)|)
  {
    forall k | k in db ensures !k.StrayKey? {
      assert RecordOk(cfg, k, db[k].raw);
    }
    TextsAreKeys(cfg, KeysOf(db, Instances));
    TextsAreKeys(cfg, KeysOf(db, Slots));
    TextsAreKeys(cfg, KeysOf(db, Releases));
    TextsAreKeys(cfg, KeysOf(db, Hosts));
  }

  lemma {:induction false} InjectionSize(a: set<Key>, b: set<Key>, f: map<Key, Key>)
    requires a <= f.Keys
    requires forall k | k in a :: f[k] in b
    requires forall k, l | k in a && l in a && k != l :: f[k] != f[l]
    ensures |a| <= |b|
  {
    if a != {} {
      var k :| k in a;
      InjectionSize(a - {k}, b - {f[k]}, f);
    }
  }

  /** The pairing is a bijection between the two families. */
  lemma PairsBalance(cfg: Config, db: Db)
    requires Consistent(cfg, db)
    ensures |InstanceKeys(db)| == |SlotKeys(db)|
  {
    SlotsSuffice(cfg, db);
    var toInstance := map k | k in SlotKeys(db) :: OwnerOf(cfg, db, k);
    InjectionSize(SlotKeys(db), InstanceKeys(db), toInstance);
  }

  lemma SlotsSuffice(cfg: Config, db: Db)
    requires Consistent(cfg, db)
    ensures |InstanceKeys(db)| <= |SlotKeys(db)|
  {
    var toSlot := map k | k in InstanceKeys(db) :: SlotOf(cfg, db, k);
    InjectionSize(InstanceKeys(db), SlotKeys(db), toSlot);
  }

  ghost function SlotOf(cfg: Config, db: Db, k: Key): (s: Key)
    requires Consistent(cfg, db) && k in InstanceKeys(db)
    ensures s in SlotKeys(db) && db[s].raw == db[k].raw
  {
    assert RecordOk(cfg, k, db[k].raw);
    assert HasAssignment(db, k.instance);
    SlotKey(AssignmentAt(db, k.instance).gen.slot)
  }

  ghost function OwnerOf(cfg: Config, db: Db, k: Key): (s: Key)
    requires Consistent(cfg, db) && k in SlotKeys(db)
    ensures s in InstanceKeys(db) && db[s].raw == db[k].raw
  {
    assert RecordOk(cfg, k, db[k].raw);
    InstanceKey(db[k].raw.assignment.gen.instance)
  }

  lemma IntentsFewer(cfg: Config, db: Db)
    requires Consistent(cfg, db)
    ensures |ReleaseKeys(db)| <= |InstanceKeys(db)|
  {
    var f := map k | k in ReleaseKeys(db) :: InstanceKey(k.instance);
    forall k | k in ReleaseKeys(db) ensures f[k] in InstanceKeys(db) {
      assert RecordOk(cfg, k, db[k].raw);
      assert HasIntent(db, k.instance);
    }
    InjectionSize(ReleaseKeys(db), InstanceKeys(db), f);
  }

  lemma NoOrphanClaims(cfg: Config, db: Db)
    requires Consistent(cfg, db) && HostKeys(db) != {}
    ensures InstanceKeys(db) != {}
  {
    var k :| k in HostKeys(db);
    assert RecordOk(cfg, k, db[k].raw);
    assert HasClaim(db, k.host, k.instance);
    assert InstanceKey(k.instance) in InstanceKeys(db);
  }

  /** The probe never raises a false alarm: it accepts every consistent registry. */
  lemma ConsistentPassesProbe(cfg: Config, db: Db)
    requires Consistent(cfg, db)
    ensures Configured(cfg, db) && CountsAgree(FamilyCounts(cfg, db))
  {
    assert RecordOk(cfg, ConfigKey, db[ConfigKey].raw);
    FamiliesOf(cfg, db);
    PairsBalance(cfg, db);
    IntentsFewer(cfg, db);
    if |InstanceKeys(db)| == 0 && HostKeys(db) != {} {
      NoOrphanClaims(cfg, db);
    }
  }
}
