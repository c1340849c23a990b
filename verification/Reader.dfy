/** What a client can conclude from its reads, given that every revision is consistent. */
module Reader {
  import opened Wrappers
  import opened Records
  import opened Store
  import opened Registry
  import opened Fleet
  import opened Runs
  import opened Etcd

  /** `_read_assignment_state`: one generation with its intent and its complete claim set. */
  datatype View =
    | NoAllocation
    | View(assignment: Assignment, intent: Option<Intent>, claims: map<Uuid, Claim>)

  /** The view is the whole truth about `u` in this one store. */
  ghost predicate ViewAt(db: Db, u: Uuid, v: View) {
    if v.NoAllocation? then InstanceKey(u) !in db && ReleaseKey(u) !in db
    else
      && HasAssignment(db, u) && AssignmentAt(db, u) == v.assignment
      && (ReleaseKey(u) in db <==> v.intent.Some?)
      && (v.intent.Some? ==> HasIntent(db, u) && IntentAt(db, u) == v.intent.value)
      && v.claims.Keys == v.assignment.hosts
      && (forall h | h in v.claims :: HasClaim(db, h, u) && ClaimAt(db, h, u) == v.claims[h])
  }

  /** The view held at one revision, not before revision `from`. */
  ghost predicate Saw(r: Run, from: nat, u: Uuid, v: View) {
    exists i: nat :: from <= i < |r.states| && ViewAt(r.states[i].db, u, v)
  }

  predicate InstanceIs(db: Db, u: Uuid, a: Assignment) {
    InstanceKey(u) in db && db[InstanceKey(u)].raw == AssignmentRecord(a)
  }

  /** The instance record read `a` at one revision since `from`. */
  ghost predicate InstanceWas(r: Run, from: nat, u: Uuid, a: Assignment) {
    exists i: nat :: from <= i < |r.states| && InstanceIs(r.states[i].db, u, a)
  }

  /** The instance record was not `a` at one revision since `from`. */
  ghost predicate InstanceWasNot(r: Run, from: nat, u: Uuid, a: Assignment) {
    exists i: nat :: from <= i < |r.states| && !InstanceIs(r.states[i].db, u, a)
  }

  /** Somebody rewrote the instance record between these two revisions. */
  ghost predicate Flip(r: Run, i: nat, j: nat, u: Uuid) {
    i < j < |r.states| && exists a :: InstanceIs(r.states[i].db, u, a) && !InstanceIs(r.states[j].db, u, a)
  }

  /** These pairs of revisions since `from` lie one after the other, and in each the record was rewritten. */
  ghost predicate FlipList(r: Run, from: nat, u: Uuid, w: seq<(nat, nat)>) {
    && (forall k: nat | k < |w| :: from <= w[k].0 && Flip(r, w[k].0, w[k].1, u))
    && (forall j: nat, k: nat | j < k < |w| :: w[j].1 <= w[k].0)
  }

  /** Since revision `from` the instance record was rewritten `n` times. */
  ghost predicate Flips(r: Run, from: nat, u: Uuid, n: nat) {
    exists w: seq<(nat, nat)> :: |w| == n && FlipList(r, from, u, w)
  }

  lemma FlipsStay(r: Run, r': Run, from: nat, from': nat, u: Uuid, n: nat)
    requires r.states <= r'.states && from' <= from && Flips(r, from, u, n)
    ensures Flips(r', from', u, n)
  {
    var w: seq<(nat, nat)> :| |w| == n && FlipList(r, from, u, w);
    forall k: nat | k < |w| ensures Flip(r', w[k].0, w[k].1, u) {
      assert r'.states[w[k].0] == r.states[w[k].0] && r'.states[w[k].1] == r.states[w[k].1];
    }
    assert FlipList(r', from', u, w);
  }

  /** The record was seen, and later it was something else. */
  lemma FlipBetween(r: Run, r': Run, from: nat, u: Uuid, a: Assignment)
    requires |r.states| > 0 && r.states <= r'.states
    requires InstanceWas(r, from, u, a) && InstanceWasNot(r', |r.states| - 1, u, a)
    ensures Flips(r', from, u, 1)
  {
    var i: nat :| from <= i < |r.states| && InstanceIs(r.states[i].db, u, a);
    var j: nat :| |r.states| - 1 <= j < |r'.states| && !InstanceIs(r'.states[j].db, u, a);
    assert r'.states[i] == r.states[i];
    assert Flip(r', i, j, u);
    assert FlipList(r', from, u, [(i, j)]);
  }

  /** Rewritten after the first `n` times, it was rewritten once more. */
  lemma FlipsThen(r: Run, r': Run, from: nat, u: Uuid, n: nat)
    requires from < |r.states| && r.states <= r'.states
    requires Flips(r, from, u, n) && Flips(r', |r.states| - 1, u, 1)
    ensures Flips(r', from, u, n + 1)
  {
    var w: seq<(nat, nat)> :| |w| == n && FlipList(r, from, u, w);
    var more: seq<(nat, nat)> :| |more| == 1 && FlipList(r', |r.states| - 1, u, more);
    var all := w + more;
    forall k: nat | k < |all| ensures from <= all[k].0 && Flip(r', all[k].0, all[k].1, u) {
      if k < n {
        assert Flip(r, w[k].0, w[k].1, u);
        assert r'.states[w[k].0] == r.states[w[k].0] && r'.states[w[k].1] == r.states[w[k].1];
      }
    }
    assert FlipList(r', from, u, all);
  }

  /** This health record stood under this lease, with no failure published, at one revision since `from`. */
  ghost predicate HealthSeen(r: Run, from: nat, raw: Raw, lease: LeaseId) {
    exists i: nat :: from <= i && ShownAt(r, i, raw, lease) && FailureKey !in r.states[i].db
  }

  lemma HealthSeenStays(r: Run, r': Run, from: nat, from': nat, raw: Raw, lease: LeaseId)
    requires r.states <= r'.states && from' <= from && HealthSeen(r, from, raw, lease)
    ensures HealthSeen(r', from', raw, lease)
  {
    var i: nat :| from <= i && ShownAt(r, i, raw, lease) && FailureKey !in r.states[i].db;
    assert r'.states[i] == r.states[i];
    assert ShownAt(r', i, raw, lease);
  }

  /** A fleet audit failure was published at some revision. */
  ghost predicate Published(r: Run) {
    exists i: nat :: i < |r.states| && FailureKey in r.states[i].db
  }

  /** The parsers of `_read_assignment_state` accept a view taken from one consistent store. */
  predicate ViewParses(cfg: Config, u: Uuid, v: View) {
    v.View? ==>
      && GenerationOk(cfg, v.assignment.gen) && v.assignment.gen.instance == u
      && (v.intent.Some? ==> IntentOk(cfg, v.intent.value) && v.intent.value.gen == v.assignment.gen)
      && v.claims.Keys == v.assignment.hosts
      && forall h | h in v.claims ::
           ClaimOk(cfg, v.claims[h]) && v.claims[h].host == h && v.claims[h].gen == v.assignment.gen
  }

  lemma ViewsParse(cfg: Config, db: Db, u: Uuid, v: View)
    requires Consistent(cfg, db) && ViewAt(db, u, v)
    ensures ViewParses(cfg, u, v)
  {
    if v.View? {
      assert RecordOk(cfg, InstanceKey(u), db[InstanceKey(u)].raw);
      if v.intent.Some? {
        assert RecordOk(cfg, ReleaseKey(u), db[ReleaseKey(u)].raw);
      }
      forall h | h in v.claims
        ensures ClaimOk(cfg, v.claims[h]) && v.claims[h].host == h && v.claims[h].gen == v.assignment.gen
      {
        assert RecordOk(cfg, HostKey(h, u), db[HostKey(h, u)].raw);
      }
    }
  }

  // ---- the two reads ------------------------------------------------------------

  function FirstKeys(u: Uuid): set<Key> {
    {InstanceKey(u), ReleaseKey(u)}
  }

  function CompanionKeys(u: Uuid, a: Assignment): set<Key>
    requires a.gen.slot >= 0
  {
    {InstanceKey(u), SlotKey(a.gen.slot), ReleaseKey(u)} + (set h | h in a.hosts :: HostKey(h, u))
  }

  /** The first read: no allocation, or an assignment whose slot and hosts name the second read. */
  lemma FirstRead(cfg: Config, db: Db, u: Uuid, vals: Db)
    requires Consistent(cfg, db) && Reads(db, FirstKeys(u), vals)
    ensures InstanceKey(u) !in vals ==> ReleaseKey(u) !in vals && ViewAt(db, u, NoAllocation)
    ensures InstanceKey(u) in vals ==>
      var raw := vals[InstanceKey(u)].raw;
      raw.AssignmentRecord? && GenerationOk(cfg, raw.assignment.gen) && raw.assignment.gen.instance == u
  {
    assert InstanceKey(u) in FirstKeys(u) && ReleaseKey(u) in FirstKeys(u);
    if InstanceKey(u) in vals {
      assert RecordOk(cfg, InstanceKey(u), db[InstanceKey(u)].raw);
    } else if ReleaseKey(u) in vals {
      assert RecordOk(cfg, ReleaseKey(u), db[ReleaseKey(u)].raw);
      assert HasIntent(db, u);
    }
  }

  /** The checks of the second read, as `_read_assignment_state` makes them. */
  predicate CompanionsOk(cfg: Config, u: Uuid, a: Assignment, vals: Db)
    requires a.gen.slot >= 0
  {
    && SlotKey(a.gen.slot) in vals && vals[SlotKey(a.gen.slot)].raw == AssignmentRecord(a)
    && (forall h | h in a.hosts ::
          HostKey(h, u) in vals && vals[HostKey(h, u)].raw.ClaimRecord?
          && ClaimOk(cfg, vals[HostKey(h, u)].raw.claim)
          && vals[HostKey(h, u)].raw.claim.host == h && vals[HostKey(h, u)].raw.claim.gen == a.gen)
    && (ReleaseKey(u) in vals ==>
          vals[ReleaseKey(u)].raw.IntentRecord? && IntentOk(cfg, vals[ReleaseKey(u)].raw.intent)
          && vals[ReleaseKey(u)].raw.intent.gen == a.gen)
  }

  function ViewOf(cfg: Config, u: Uuid, a: Assignment, vals: Db): View
    requires a.gen.slot >= 0 && CompanionsOk(cfg, u, a, vals)
  {
    View(a,
         if ReleaseKey(u) in vals then Some(vals[ReleaseKey(u)].raw.intent) else None,
         map h | h in a.hosts :: vals[HostKey(h, u)].raw.claim)
  }

  /** The second read, when it finds the same instance record, is one consistent view. */
  lemma SecondRead(cfg: Config, db: Db, u: Uuid, a: Assignment, vals: Db)
    requires Consistent(cfg, db) && a.gen.slot >= 0 && Reads(db, CompanionKeys(u, a), vals)
    requires InstanceKey(u) in vals && vals[InstanceKey(u)].raw == AssignmentRecord(a)
    ensures CompanionsOk(cfg, u, a, vals)
    ensures ViewAt(db, u, ViewOf(cfg, u, a, vals))
  {
    var keys := CompanionKeys(u, a);
    assert InstanceKey(u) in keys && SlotKey(a.gen.slot) in keys && ReleaseKey(u) in keys;
    assert HasAssignment(db, u) && AssignmentAt(db, u) == a;
    assert RecordOk(cfg, InstanceKey(u), db[InstanceKey(u)].raw);
    forall h | h in a.hosts
      ensures HostKey(h, u) in vals && HasClaim(db, h, u) && vals[HostKey(h, u)] == db[HostKey(h, u)]
      ensures ClaimOk(cfg, ClaimAt(db, h, u)) && ClaimAt(db, h, u).host == h && ClaimAt(db, h, u).gen == a.gen
    {
      assert HostKey(h, u) in keys;
      assert HasClaim(db, h, u);
      assert RecordOk(cfg, HostKey(h, u), db[HostKey(h, u)].raw);
    }
    if ReleaseKey(u) in vals {
      assert RecordOk(cfg, ReleaseKey(u), db[ReleaseKey(u)].raw);
      assert HasIntent(db, u);
    }
  }
}
