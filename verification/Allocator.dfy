/**
 * `IDMapAllocator`: one process's view of the registry. Every operation reads,
 * decides, submits one guarded transaction and reads again to settle a lost
 * answer, in a bounded retry loop.
 */
module Allocator {
  import opened Wrappers
  import opened Records
  import opened Store
  import opened Registry
  import opened Fleet
  import opened Runs
  import opened AuditSpec
  import opened Audit
  import opened Probe
  import opened Traffic
  import opened Etcd
  import opened Reader
  import opened Aftermath
  import opened SlotSearch
  import opened Decisions

  class Allocator {
    const etcd: Etcd
    const token: Uuid
    /** Where the probe order of an instance starts: an arbitrary function of the UUID. */
    const digest: Uuid -> nat
    var latched: bool
    var healthRaw: Option<Raw>
    var healthLease: LeaseId
    var auditLease: Option<LeaseId>

    ghost predicate Valid()
      reads this, etcd
    {
      && etcd.Valid() && ValidConfig(etcd.cfg)
      && (healthRaw.Some? ==> HealthyGuard(Guard(healthRaw.value, healthLease)))
      && (auditLease.Some? ==> auditLease.value in etcd.fleet.granted && auditLease.value > 0)
      && (latched ==> etcd.log.notes.alarmed)
    }

    constructor (etcd: Etcd, token: Uuid, digest: Uuid -> nat)
      requires etcd.Valid() && ValidConfig(etcd.cfg)
      ensures Valid() && this.etcd == etcd && this.token == token && this.digest == digest
    {
      this.etcd := etcd;
      this.token := token;
      this.digest := digest;
      latched, healthRaw, healthLease, auditLease := false, None, 0, None;
    }

    // ---- reads ----------------------------------------------------------------------

    /** `_read_audit_control`: coordinator and failure record at one revision. */
    method ReadAuditControl() returns (r: Result<Db>)
      requires Valid()
      modifies etcd
      ensures Valid() && Ran(old(etcd.log), etcd.log, Silence)
      ensures r.Ok? ==>
        exists i: nat :: |old(etcd.log.run.states)| - 1 <= i
                         && ReadAt(etcd.log.run, i, {CoordinatorKey, FailureKey}, r.value)
      ensures r.Ok? && FailureKey in r.value ==> Published(etcd.log.run)
      ensures r.Ok? && CoordinatorKey in r.value ==> r.value[CoordinatorKey].raw.CoordinatorRecord?
      ensures r.Ok? ==> etcd.log.notes == Learn(old(etcd.log.notes), {CoordinatorKey, FailureKey}, r.value)
      ensures r.Err? ==> r.error == Backend && LostMessage(old(etcd.log), etcd.log)
    {
      var reply := etcd.Range({CoordinatorKey, FailureKey});
      if reply.Lost? {
        return Err(Backend);
      }
      ghost var i: nat :| |old(etcd.log.run.states)| - 1 <= i
                          && ReadAt(etcd.log.run, i, {CoordinatorKey, FailureKey}, reply.value);
      RunKeepsInv(etcd.cfg, etcd.log.run, i);
      r := Ok(reply.value);
    }

    /** `_refresh_fleet_read_guard`: adopt the current healthy record; true when it is a new one. */
    method RefreshFleetReadGuard(expected: Raw) returns (r: Result<bool>)
      requires Valid()
      modifies this, etcd
      ensures Valid() && Ran(old(etcd.log), etcd.log, Silence)
      ensures auditLease == old(auditLease)
      ensures r.Ok? ==>
        && healthRaw.Some? && HealthSeen(etcd.log.run, |old(etcd.log.run.states)| - 1, healthRaw.value, healthLease)
        && (r.value <==> healthRaw.value != expected)
      ensures r.Err? ==> healthRaw == old(healthRaw)
      ensures r.Err? ==>
        || (r.error == Backend && NoHealth(old(etcd.log), etcd.log))
        || (r.error == Integrity && latched && Published(etcd.log.run))
    {
      var control := ReadAuditControl();
      if control.Err? {
        return Err(control.error);
      }
      var vals := control.value;
      ghost var i: nat :| |old(etcd.log.run.states)| - 1 <= i
                          && ReadAt(etcd.log.run, i, {CoordinatorKey, FailureKey}, vals);
      if FailureKey in vals {
        latched := true;
        return Err(Integrity);
      }
      if CoordinatorKey !in vals || vals[CoordinatorKey].lease == 0 {
        return Err(Backend);
      }
      var raw := vals[CoordinatorKey].raw;
      if !raw.state.Healthy? {
        return Err(Backend);
      }
      healthRaw, healthLease := Some(raw), vals[CoordinatorKey].lease;
      assert ShownAt(etcd.log.run, i, raw, healthLease) && FailureKey !in etcd.log.run.states[i].db;
      r := Ok(raw != expected);
    }

    /** `_read_exact`: a bounded key set at one revision, behind the verified fleet health. */
    method ReadExact(keys: set<Key>) returns (r: Result<Db>)
      requires Valid()
      modifies this, etcd
      ensures Valid() && Ran(old(etcd.log), etcd.log, Silence)
      ensures auditLease == old(auditLease)
      ensures r.Ok? ==> healthRaw.Some?
      ensures r.Ok? ==>
        exists i: nat :: |old(etcd.log.run.states)| - 1 <= i && ReadAt(etcd.log.run, i, keys, r.value)
                         && GuardStood(etcd.cfg, etcd.log.run.states[i].db, Guard(healthRaw.value, healthLease))
      ensures old(healthRaw).Some? ==> healthRaw.Some?
      ensures r.Err? ==>
        || (r.error == Backend && Unreadable(old(healthRaw), old(etcd.log), etcd.log))
        || (r.error == Integrity && latched && Published(etcd.log.run))
    {
      ghost var start := etcd.log;
      var first := ReadGuarded(keys, false);
      if first.Err? {
        return Err(first.error);
      }
      if first.value.Some? {
        return Ok(first.value.value);
      }
      ghost var mid := etcd.log;
      var second := ReadGuarded(keys, true);
      RanThen(start, mid, etcd.log, Silence, Silence, Silence);
      r := if second.Ok? then Ok(second.value.value) else Err(second.error);
    }

    /** One guarded read; `None` when it was refused and a newer health record could be adopted. */
    method ReadGuarded(keys: set<Key>, last: bool) returns (r: Result<Option<Db>>)
      requires Valid()
      modifies this, etcd
      ensures Valid() && Ran(old(etcd.log), etcd.log, Silence)
      ensures auditLease == old(auditLease) && (old(healthRaw).Some? ==> healthRaw.Some?)
      ensures r.Ok? ==> healthRaw.Some? && (last ==> r.value.Some?)
      ensures r.Ok? && r.value.Some? ==>
        exists i: nat :: |old(etcd.log.run.states)| - 1 <= i && ReadAt(etcd.log.run, i, keys, r.value.value)
                         && GuardStood(etcd.cfg, etcd.log.run.states[i].db, Guard(healthRaw.value, healthLease))
      ensures r.Ok? && r.value.None? ==> old(etcd.log.notes.stale) < etcd.log.notes.stale
      ensures r.Err? ==>
        || (r.error == Backend && last && old(etcd.log.notes.stale) < etcd.log.notes.stale)
        || (r.error == Backend && Unreadable(old(healthRaw), old(etcd.log), etcd.log))
        || (r.error == Integrity && latched && Published(etcd.log.run))
    {
      if healthRaw.None? {
        return Err(Backend);
      }
      ghost var start := etcd.log;
      var expected := healthRaw.value;
      var reply := etcd.GuardedRange(Guard(expected, healthLease), keys);
      if reply.Lost? {
        return Err(Backend);
      }
      if reply.value.Some? {
        return Ok(Some(reply.value.value));
      }
      if last {
        return Err(Backend);
      }
      ghost var mid := etcd.log;
      var renewed := RefreshFleetReadGuard(expected);
      RanThen(start, mid, etcd.log, Silence, Silence, Silence);
      if renewed.Err? {
        return Err(renewed.error);
      }
      HealthSeenStays(
        etcd.log.run, etcd.log.run, |mid.run.states| - 1, |start.run.actions|, healthRaw.value, healthLease);
      r := if renewed.value then Ok(None) else Err(Backend);
    }

    /** The first read of `_read_assignment_state`: which slot and hosts to read next. */
    method ReadInstance(u: Uuid) returns (r: Result<Option<Assignment>>)
      requires Valid()
      modifies this, etcd
      ensures Valid() && Ran(old(etcd.log), etcd.log, Silence)
      ensures auditLease == old(auditLease)
      ensures r.Ok? ==> healthRaw.Some?
      ensures r.Ok? && r.value.None? ==> Saw(etcd.log.run, |old(etcd.log.run.states)| - 1, u, NoAllocation)
      ensures r.Ok? && r.value.Some? ==>
        && GenerationOk(etcd.cfg, r.value.value.gen) && r.value.value.gen.instance == u
        && InstanceWas(etcd.log.run, |old(etcd.log.run.states)| - 1, u, r.value.value)
      ensures old(healthRaw).Some? ==> healthRaw.Some?
      ensures r.Err? ==>
        || (r.error == Backend && Unreadable(old(healthRaw), old(etcd.log), etcd.log))
        || (r.error == Integrity && latched && Published(etcd.log.run))
    {
      var keys := FirstKeys(u);
      var first := ReadExact(keys);
      if first.Err? {
        return Err(first.error);
      }
      ghost var i: nat :| |old(etcd.log.run.states)| - 1 <= i && ReadAt(etcd.log.run, i, keys, first.value);
      RunKeepsInv(etcd.cfg, etcd.log.run, i);
      FirstRead(etcd.cfg, etcd.log.run.states[i].db, u, first.value);
      if InstanceKey(u) !in first.value {
        if ReleaseKey(u) in first.value {
          return Err(Integrity);
        }
        return Ok(None);
      }
      var raw := first.value[InstanceKey(u)].raw;
      if !raw.AssignmentRecord? || !GenerationOk(etcd.cfg, raw.assignment.gen)
         || raw.assignment.gen.instance != u {
        return Err(Integrity);
      }
      assert InstanceIs(etcd.log.run.states[i].db, u, raw.assignment);
      r := Ok(Some(raw.assignment));
    }

    /** The second read; `None` when the instance record changed since the first. */
    method ReadCompanions(u: Uuid, a: Assignment) returns (r: Result<Option<View>>)
      requires Valid() && a.gen.slot >= 0
      modifies this, etcd
      ensures Valid() && Ran(old(etcd.log), etcd.log, Silence)
      ensures auditLease == old(auditLease)
      ensures r.Ok? ==> healthRaw.Some?
      ensures r.Ok? && r.value.Some? ==>
        Saw(etcd.log.run, |old(etcd.log.run.states)| - 1, u, r.value.value) && ViewParses(etcd.cfg, u, r.value.value)
      ensures r.Ok? && r.value.None? ==> InstanceWasNot(etcd.log.run, |old(etcd.log.run.states)| - 1, u, a)
      ensures old(healthRaw).Some? ==> healthRaw.Some?
      ensures r.Err? ==>
        || (r.error == Backend && Unreadable(old(healthRaw), old(etcd.log), etcd.log))
        || (r.error == Integrity && latched && Published(etcd.log.run))
    {
      var keys := CompanionKeys(u, a);
      var current := ReadExact(keys);
      if current.Err? {
        return Err(current.error);
      }
      ghost var j: nat :| |old(etcd.log.run.states)| - 1 <= j && ReadAt(etcd.log.run, j, keys, current.value);
      RunKeepsInv(etcd.cfg, etcd.log.run, j);
      if InstanceKey(u) !in current.value || current.value[InstanceKey(u)].raw != AssignmentRecord(a) {
        assert InstanceKey(u) in keys;
        assert !InstanceIs(etcd.log.run.states[j].db, u, a);
        return Ok(None);
      }
      SecondRead(etcd.cfg, etcd.log.run.states[j].db, u, a, current.value);
      if !CompanionsOk(etcd.cfg, u, a, current.value) {
        return Err(Integrity);
      }
      var v := ViewOf(etcd.cfg, u, a, current.value);
      ViewsParse(etcd.cfg, etcd.log.run.states[j].db, u, v);
      r := Ok(Some(v));
    }

    /**
     * `_read_assignment_state`: although it takes two reads, the view it returns
     * was true as a whole at a single revision during the call, and it finds no
     * integrity error of its own in any run.
     */
    method ReadAssignmentState(u: Uuid) returns (r: Result<View>)
      requires Valid()
      modifies this, etcd
      ensures Valid() && Ran(old(etcd.log), etcd.log, Silence)
      ensures auditLease == old(auditLease)
      ensures r.Ok? ==> healthRaw.Some?
      ensures r.Ok? ==> Saw(etcd.log.run, |old(etcd.log.run.states)| - 1, u, r.value)
      ensures r.Ok? ==> ViewParses(etcd.cfg, u, r.value)
      ensures old(healthRaw).Some? ==> healthRaw.Some?
      ensures r.Err? ==>
        || (r.error == Backend && (old(healthRaw).None? || Troubled(old(etcd.log), etcd.log)))
        || (r.error == Conflict && Flips(etcd.log.run, |old(etcd.log.run.states)| - 1, u, 16))
        || (r.error == Integrity && latched && Published(etcd.log.run))
    {
      ghost var from: nat := |etcd.log.run.states| - 1;
      assert FlipList(etcd.log.run, from, u, []);
      var attempt := 0;
      while attempt < 16
        invariant Valid() && Ran(old(etcd.log), etcd.log, Silence)
        invariant auditLease == old(auditLease) && (old(healthRaw).Some? ==> healthRaw.Some?)
        invariant 0 <= attempt <= 16 && Flips(etcd.log.run, from, u, attempt)
      {
        ghost var before := etcd.log;
        var read := ReadOnce(u, from);
        RanThen(old(etcd.log), before, etcd.log, Silence, Silence, Silence);
        if read.Err? {
          return Err(read.error);
        }
        if read.value.Some? {
          return Ok(read.value.value);
        }
        FlipsThen(before.run, etcd.log.run, from, u, attempt);
        attempt := attempt + 1;
      }
      r := Err(Conflict);
    }

    /** The two reads once; `None` when the instance record changed in between. */
    method ReadOnce(u: Uuid, ghost from: nat) returns (r: Result<Option<View>>)
      requires Valid() && from < |etcd.log.run.states|
      modifies this, etcd
      ensures Valid() && Ran(old(etcd.log), etcd.log, Silence)
      ensures auditLease == old(auditLease)
      ensures r.Ok? ==> healthRaw.Some?
      ensures r.Ok? && r.value.Some? ==>
        Saw(etcd.log.run, from, u, r.value.value) && ViewParses(etcd.cfg, u, r.value.value)
      ensures r.Ok? && r.value.None? ==>
        Flips(etcd.log.run, |old(etcd.log.run.states)| - 1, u, 1)
      ensures old(healthRaw).Some? ==> healthRaw.Some?
      ensures r.Err? ==>
        || (r.error == Backend && (old(healthRaw).None? || Troubled(old(etcd.log), etcd.log)))
        || (r.error == Integrity && latched && Published(etcd.log.run))
    {
      ghost var before := etcd.log.run;
      var first := ReadInstance(u);
      if first.Err? {
        return Err(first.error);
      }
      if first.value.None? {
        return Ok(Some(NoAllocation));
      }
      ghost var between := etcd.log.run;
      r := ReadCompanions(u, first.value.value);
      if r.Ok? && r.value.None? {
        FlipBetween(between, etcd.log.run, |before.states| - 1, u, first.value.value);
      }
    }

    // ---- the fleet audit ----------------------------------------------------------------

    /** `_publish_integrity_failure`: latch locally and publish the first failure. */
    method PublishIntegrityFailure()
      requires Valid() && etcd.log.notes.alarmed
      modifies this, etcd
      ensures Valid() && latched && Ran(old(etcd.log), etcd.log, Audits(token))
      ensures Published(etcd.log.run) || LostMessage(old(etcd.log), etcd.log)
      ensures healthRaw == old(healthRaw) && healthLease == old(healthLease) && auditLease == old(auditLease)
    {
      latched := true;
      var a := PublishFailure(token, "integrity failure");
      var published := etcd.SendControl(a);
      if published.Answer? {
        ghost var i: nat :| |old(etcd.log.run.actions)| <= i && SentControl(etcd.cfg, etcd.log, i, a, published.value);
        FailureStands(etcd.cfg, etcd.log.run, i);
      }
    }

    /** `_audit_with_latch` over one scan of the namespace. */
    method AuditWithLatch(round: Option<Uuid>) returns (r: Result<Snapshot>)
      requires Valid()
      modifies this, etcd
      ensures Valid() && Ran(old(etcd.log), etcd.log, Audits(token))
      ensures healthRaw == old(healthRaw) && healthLease == old(healthLease) && auditLease == old(auditLease)
      ensures r.Ok? ==>
        SnapshotSince(etcd.cfg, etcd.log.run, |old(etcd.log.run.states)| - 1, r.value)
      ensures r.Ok? && round.Some? && round.value in old(etcd.fleet).acquired ==> round.value in etcd.fleet.passed
      ensures r.Err? ==> ScanFailed(etcd.cfg, old(etcd.log), etcd.log, r.error) && (r.error == Integrity ==> latched)
    {
      ghost var start := etcd.log;
      var sends := if round.Some? then Only(PassAudit(round.value)) else Silence;
      var reply := etcd.ScanNamespace(round);
      ghost var mid := etcd.log;
      RanWithin(start, mid, sends, Audits(token));
      if reply.Lost? {
        return Err(Backend);
      }
      ghost var i: nat :| |start.run.states| - 1 <= i < |mid.run.states|
                          && reply.value == Namespace(mid.run.states[i].db);
      ScanJudged(etcd.cfg, mid.run, i, reply.value);
      r := AuditSnapshot(etcd.cfg, reply.value);
      if r.Err? {
        PublishIntegrityFailure();
        RanThen(start, mid, etcd.log, Audits(token), Audits(token), Audits(token));
        assert etcd.log.run.states[i] == mid.run.states[i];
      }
    }

    /** What `_begin_coordinated_audit` returns to an owner: the record to replace and whether it is new. */
    method BeginCoordinatedAudit() returns (r: Result<Option<(Raw, bool)>>)
      requires Valid()
      modifies this, etcd
      ensures Valid() && Ran(old(etcd.log), etcd.log, Audits(token))
      ensures r.Ok? && r.value.Some? ==> auditLease.Some? && MayAudit(r.value.value.0, r.value.value.1)
      ensures r.Err? && r.error == Integrity ==> latched
      ensures Began(etcd.cfg, old(etcd.log), etcd.log, token, old(auditLease), auditLease, r)
    {
      ghost var start := etcd.log;
      var control := ReadAuditControl();
      ghost var mid := etcd.log;
      RanWithin(start, mid, Silence, Audits(token));
      if control.Err? {
        return Err(control.error);
      }
      var vals := control.value;
      ghost var i: nat :| |start.run.states| - 1 <= i
                          && ReadAt(etcd.log.run, i, {CoordinatorKey, FailureKey}, vals);
      if FailureKey in vals {
        latched := true;
        return Err(Integrity);
      }
      r := BeginBehind(vals, i, start);
      RanThen(start, mid, etcd.log, Audits(token), Audits(token), Audits(token));
    }

    /** The record that an owner may replace: its own, healthy and held, or pending and just won. */
    ghost predicate MayAudit(seen: Raw, isNew: bool)
      reads this, etcd
    {
      && seen.CoordinatorRecord? && seen.owner == token && (isNew <==> seen.state.Pending?)
      && (isNew ==> seen.round in etcd.fleet.acquired) && (isNew <==> healthRaw.None?)
    }

    /** Elect, give way or go on, by the record just read. */
    method BeginBehind(vals: Db, ghost i: nat, ghost start: Log) returns (r: Result<Option<(Raw, bool)>>)
      requires Valid() && |start.run.actions| <= i && NotesGrow(start.notes, etcd.log.notes)
      requires ReadAt(etcd.log.run, i, {CoordinatorKey, FailureKey}, vals)
      requires |start.run.actions| <= |etcd.log.run.actions|
      requires CoordinatorKey in vals ==> vals[CoordinatorKey].raw.CoordinatorRecord?
      requires !ShowsHealth(vals) ==> start.notes.unhealthy < etcd.log.notes.unhealthy
      modifies this, etcd
      ensures Valid() && Ran(old(etcd.log), etcd.log, Audits(token))
      ensures r.Ok? && r.value.Some? ==> auditLease.Some? && MayAudit(r.value.value.0, r.value.value.1)
      ensures r.Err? && r.error == Integrity ==> latched
      ensures Began(etcd.cfg, start, etcd.log, token, old(auditLease), auditLease, r)
    {
      if CoordinatorKey !in vals || vals[CoordinatorKey].lease == 0 {
        r := Elect(if CoordinatorKey in vals then Some(vals[CoordinatorKey].raw) else None, |start.run.actions|);
        return;
      }
      var raw, lease := vals[CoordinatorKey].raw, vals[CoordinatorKey].lease;
      assert ShownAt(etcd.log.run, i, raw, lease) && ShownSince(etcd.log.run, |start.run.actions|, raw, lease);
      if raw.owner != token {
        return Ok(None);
      }
      var beat := Heartbeat(raw, lease, i, |start.run.actions|);
      r := if beat.Ok? then Ok(Some((raw, false))) else Err(beat.error);
    }

    /** An owner keeps going only on its own healthy record under its own lease, which it refreshes. */
    method Heartbeat(raw: Raw, lease: LeaseId, ghost i: nat, ghost from: nat) returns (r: Result<()>)
      requires Valid() && ShownAt(etcd.log.run, i, raw, lease) && raw.CoordinatorRecord? && raw.owner == token
      requires from <= i && from <= |etcd.log.run.actions|
      modifies this, etcd
      ensures Valid() && Ran(old(etcd.log), etcd.log, Audits(token))
      ensures r.Ok? ==>
        && old(auditLease) == auditLease == Some(lease) && raw.state.Healthy? && healthRaw == Some(raw)
        && RefreshedSince(etcd.log, from, lease, raw)
      ensures r.Err? ==>
        && r.error == Backend
        && (LostMessage(old(etcd.log), etcd.log) || OwnUnusable(etcd.log.run, from, token, old(auditLease)))
    {
      assert ShownSince(etcd.log.run, from, raw, lease);
      if auditLease.None? {
        return Err(Backend);
      }
      if lease != auditLease.value {
        healthRaw, healthLease := None, 0;
        return Err(Backend);
      }
      if !raw.state.Healthy? {
        return Err(Backend);
      }
      healthRaw, healthLease := Some(raw), lease;
      var refreshed := etcd.RefreshLease(lease, raw, i);
      RanWithin(old(etcd.log), etcd.log, Only(Refresh(lease, raw)), Audits(token));
      r := if refreshed then Ok(()) else Err(Backend);
    }

    /** The compare-and-swap of an election; `None` when it lost. */
    method SendElection(lease: LeaseId, stale: Option<Raw>, ghost from: nat) returns (r: Result<Option<Raw>>)
      requires Valid() && lease in etcd.fleet.granted && (stale.Some? ==> stale.value.CoordinatorRecord?)
      requires from <= |etcd.log.run.actions|
      modifies etcd
      ensures Valid() && Ran(old(etcd.log), etcd.log, Elections(token))
      ensures r.Ok? && r.value.Some? ==>
        var seen := r.value.value;
        && seen.CoordinatorRecord? && seen.owner == token && seen.state.Pending?
        && seen.round in etcd.fleet.acquired
        && WonElection(etcd.cfg, etcd.log, from, token, lease)
      ensures r == Ok(None) ==> LostElection(etcd.cfg, etcd.log, from, token)
      ensures r.Err? ==> r.error == Backend && LostMessage(old(etcd.log), etcd.log)
    {
      var round: Uuid := *;
      var a := Acquire(token, round, lease, stale);
      var won := etcd.SendControl(a);
      if won.Lost? {
        return Err(Backend);
      }
      ghost var i: nat :| |old(etcd.log.run.actions)| <= i && SentControl(etcd.cfg, etcd.log, i, a, won.value);
      assert ControlSent(etcd.cfg, etcd.log, from, a, won.value);
      if !won.value {
        return Ok(None);
      }
      ElectionRecorded(etcd.cfg, etcd.log.run, i);
      r := Ok(Some(CoordinatorRecord(token, Pending, round)));
    }

    /** The election: a fresh lease, and a pending record in place of an absent or unleased one. */
    method Elect(stale: Option<Raw>, ghost from: nat) returns (r: Result<Option<(Raw, bool)>>)
      requires Valid() && (stale.Some? ==> stale.value.CoordinatorRecord?) && from <= |etcd.log.run.actions|
      modifies this, etcd
      ensures Valid() && Ran(old(etcd.log), etcd.log, Audits(token))
      ensures r.Ok? && r.value.Some? ==>
        && auditLease.Some? && r.value.value.1 && MayAudit(r.value.value.0, true)
        && WonElection(etcd.cfg, etcd.log, from, token, auditLease.value)
      ensures r == Ok(None) ==> LostElection(etcd.cfg, etcd.log, from, token)
      ensures r.Err? ==> r.error == Backend && LostMessage(old(etcd.log), etcd.log)
    {
      ghost var start := etcd.log;
      var lease := etcd.GrantLease();
      ghost var granted := etcd.log;
      RanWithin(start, granted, Grants, Audits(token));
      if lease.Lost? {
        return Err(Backend);
      }
      r := ElectUnder(lease.value, stale, from);
      RanThen(start, granted, etcd.log, Audits(token), Audits(token), Audits(token));
    }

    /** The winner keeps its lease and forgets the health it knew; anybody else gives the lease back. */
    method ElectUnder(lease: LeaseId, stale: Option<Raw>, ghost from: nat) returns (r: Result<Option<(Raw, bool)>>)
      requires Valid() && lease > 0 && lease in etcd.fleet.granted && from <= |etcd.log.run.actions|
      requires stale.Some? ==> stale.value.CoordinatorRecord?
      modifies this, etcd
      ensures Valid() && Ran(old(etcd.log), etcd.log, Audits(token))
      ensures r.Ok? && r.value.Some? ==>
        && auditLease.Some? && r.value.value.1 && MayAudit(r.value.value.0, true)
        && WonElection(etcd.cfg, etcd.log, from, token, auditLease.value)
      ensures r == Ok(None) ==> LostElection(etcd.cfg, etcd.log, from, token)
      ensures r.Err? ==> r.error == Backend && LostMessage(old(etcd.log), etcd.log)
    {
      ghost var start := etcd.log;
      var won := SendElection(lease, stale, from);
      ghost var sent := etcd.log;
      RanWithin(start, sent, Elections(token), Audits(token));
      if won.Ok? && won.value.Some? {
        auditLease, healthRaw, healthLease := Some(lease), None, 0;
        return Ok(Some((won.value.value, true)));
      }
      etcd.RevokeLease(lease);
      RanThen(start, sent, etcd.log, Audits(token), Only(Expire(lease)), Audits(token));
      LostElectionStays(etcd.cfg, sent, etcd.log, from, token);
      r := if won.Err? then Err(Backend) else Ok(None);
    }

    /** The audit itself: counts first on a routine heartbeat, the full scan when asked or on a mismatch. */
    method ScanOrProbe(full: bool, seen: Raw, isNew: bool) returns (r: Result<Option<Snapshot>>)
      requires Valid() && seen.CoordinatorRecord?
      modifies this, etcd
      ensures Valid() && Ran(old(etcd.log), etcd.log, Audits(token))
      ensures healthRaw == old(healthRaw) && healthLease == old(healthLease) && auditLease == old(auditLease)
      ensures r.Ok? && (full || isNew) ==> r.value.Some?
      ensures r.Ok? ==> Examined(etcd.cfg, etcd.log.run, |old(etcd.log.run.actions)|, r.value)
      ensures r.Ok? && isNew && seen.round in old(etcd.fleet).acquired ==> seen.round in etcd.fleet.passed
      ensures r.Err? ==> ScanFailed(etcd.cfg, old(etcd.log), etcd.log, r.error) && (r.error == Integrity ==> latched)
    {
      if full || isNew {
        var audited := AuditWithLatch(if isNew then Some(seen.round) else None);
        return if audited.Ok? then Ok(Some(audited.value)) else Err(audited.error);
      }
      r := ProbeFirst();
    }

    /** A routine heartbeat: only counts that do not agree are worth the full scan. */
    method ProbeFirst() returns (r: Result<Option<Snapshot>>)
      requires Valid()
      modifies this, etcd
      ensures Valid() && Ran(old(etcd.log), etcd.log, Audits(token))
      ensures healthRaw == old(healthRaw) && healthLease == old(healthLease) && auditLease == old(auditLease)
      ensures r.Ok? ==> Examined(etcd.cfg, etcd.log.run, |old(etcd.log.run.actions)|, r.value)
      ensures r.Err? ==> ScanFailed(etcd.cfg, old(etcd.log), etcd.log, r.error) && (r.error == Integrity ==> latched)
    {
      ghost var start := etcd.log;
      var reply := etcd.ScanNamespace(None);
      ghost var mid := etcd.log;
      RanWithin(start, mid, Silence, Audits(token));
      if reply.Lost? {
        return Err(Backend);
      }
      var counts := ProbeSnapshot(etcd.cfg, reply.value);
      if counts.Ok? {
        assert Counted(etcd.cfg, reply.value);
        return Ok(None);
      }
      var audited := AuditWithLatch(None);
      RanThen(start, mid, etcd.log, Audits(token), Audits(token), Audits(token));
      VerdictsStay(etcd.cfg, etcd.log.run, etcd.log.run, |mid.run.actions|, |start.run.actions|);
      r := if audited.Ok? then Ok(Some(audited.value)) else Err(audited.error);
    }

    /** After a failed scan an owner gives up its healthy generation. */
    method StepDown(seen: Raw)
      requires Valid() && auditLease.Some? && seen.CoordinatorRecord? && seen.owner == token
      modifies this, etcd
      ensures Valid() && Ran(old(etcd.log), etcd.log, Audits(token))
      ensures latched == old(latched) && auditLease == old(auditLease) && healthRaw.None?
      ensures seen.state.Healthy? ==>
        || LostMessage(old(etcd.log), etcd.log)
        || SteppedDown(etcd.cfg, etcd.log, |old(etcd.log.run.actions)|, token, auditLease.value, seen)
    {
      if seen.state.Healthy? {
        var round: Uuid := *;
        var a := Demote(token, round, auditLease.value, seen);
        var demoted := etcd.SendControl(a);
        assert demoted.Answer? ==> ControlSent(etcd.cfg, etcd.log, |old(etcd.log.run.actions)|, a, demoted.value);
      }
      healthRaw, healthLease := None, 0;
    }

    /**
     * `run_coordinated_audit`: `Ok(None)` when another process is the auditor.
     * An owner ends behind a healthy record that it published itself, and only
     * a finished full audit lets a freshly elected owner publish one.
     */
    method RunCoordinatedAudit(full: bool) returns (r: Result<Option<Option<Snapshot>>>)
      requires Valid()
      modifies this, etcd
      ensures Valid() && Ran(old(etcd.log), etcd.log, Audits(token))
      ensures old(latched) ==> r == Err(Integrity) && etcd.log == old(etcd.log)
      ensures r.Ok? && r.value.Some? ==>
        && auditLease == Some(healthLease) && (full ==> r.value.value.Some?)
        && OwnerEnded(etcd.cfg, old(etcd.log), etcd.log, token, old(auditLease), healthRaw, healthLease,
                      Ok(r.value.value))
      ensures r == Ok(None) ==> Outvoted(etcd.cfg, old(etcd.log), etcd.log, token)
      ensures r.Err? ==>
        || (r.error == Integrity && latched)
        || (r.error == Backend
            && AuditFailed(etcd.cfg, old(etcd.log), etcd.log, token, old(auditLease)))
    {
      ghost var start := etcd.log;
      if latched {
        return Err(Integrity);
      }
      var begun := BeginCoordinatedAudit();
      ghost var mid := etcd.log;
      if begun.Err? {
        if begun.error == Integrity {
          PublishIntegrityFailure();
          RanThen(start, mid, etcd.log, Audits(token), Audits(token), Audits(token));
        }
        return Err(begun.error);
      }
      if begun.value.None? {
        return Ok(None);
      }
      var (seen, isNew) := begun.value.value;
      var owned := AuditAsOwner(full, seen, isNew);
      RanThen(start, mid, etcd.log, Audits(token), Audits(token), Audits(token));
      OwnerEnds(etcd.cfg, start, mid, etcd.log, token, old(auditLease), auditLease.value, seen,
                healthRaw, healthLease, owned);
      r := if owned.Ok? then Ok(Some(owned.value)) else Err(owned.error);
    }

    /** The owner's part: scan, then step down on any failure or publish a new healthy generation. */
    method AuditAsOwner(full: bool, seen: Raw, isNew: bool) returns (r: Result<Option<Snapshot>>)
      requires Valid() && auditLease.Some? && MayAudit(seen, isNew)
      modifies this, etcd
      ensures Valid() && Ran(old(etcd.log), etcd.log, Audits(token))
      ensures auditLease == old(auditLease)
      ensures r.Ok? ==>
        && healthRaw.Some? && healthLease == auditLease.value
        && PublishedHealth(etcd.cfg, etcd.log, |old(etcd.log.run.actions)|, token, healthRaw.value, healthLease)
      ensures r.Ok? && full ==> r.value.Some?
      ensures r.Ok? ==> Examined(etcd.cfg, etcd.log.run, |old(etcd.log.run.actions)|, r.value)
      ensures r.Err? ==>
        && OwnerFailed(etcd.cfg, old(etcd.log), etcd.log, token, auditLease.value, seen, healthRaw.Some?, r.error)
        && (r.error == Integrity ==> latched) && (healthRaw.Some? ==> healthRaw == old(healthRaw))
    {
      ghost var start := etcd.log;
      r := ScanOrProbe(full, seen, isNew);
      ghost var scanned := etcd.log;
      if r.Err? {
        StepDown(seen);
        RanThen(start, scanned, etcd.log, Audits(token), Audits(token), Audits(token));
        ScanThenStepDown(etcd.cfg, start, scanned, etcd.log, token, auditLease.value, seen, r.error);
        return;
      }
      var promoted := Promoted(seen);
      RanThen(start, scanned, etcd.log, Audits(token), Audits(token), Audits(token));
      ScanThenPromotion(
        etcd.cfg, start, scanned, etcd.log, token, auditLease.value, seen, healthRaw.Some?, r.value, promoted.Err?);
      if promoted.Err? {
        return Err(promoted.error);
      }
      PublishedFrom(
        etcd.cfg, etcd.log, |scanned.run.actions|, |start.run.actions|, token, healthRaw.value, healthLease);
    }

    /** Publish a fresh healthy generation over exactly the record that began this audit. */
    method Promoted(seen: Raw) returns (r: Result<()>)
      requires Valid() && auditLease.Some? && seen.CoordinatorRecord? && seen.owner == token
      requires seen.state.Healthy? || seen.round in etcd.fleet.passed
      modifies this, etcd
      ensures Valid() && Ran(old(etcd.log), etcd.log, Audits(token))
      ensures latched == old(latched) && auditLease == old(auditLease)
      ensures r.Ok? ==>
        && healthRaw.Some? && healthLease == auditLease.value
        && PublishedHealth(etcd.cfg, etcd.log, |old(etcd.log.run.actions)|, token, healthRaw.value, healthLease)
      ensures r.Err? ==>
        && r.error == Backend && healthRaw == old(healthRaw)
        && (LostMessage(old(etcd.log), etcd.log)
            || LostPromotion(etcd.cfg, etcd.log, |old(etcd.log.run.actions)|, token))
    {
      var round: Uuid := *;
      var a := Promote(token, round, auditLease.value, seen);
      var promoted := etcd.SendControl(a);
      if promoted.Lost? || !promoted.value {
        return Err(Backend);
      }
      healthRaw, healthLease := Some(CoordinatorRecord(token, Healthy, round)), auditLease.value;
      ghost var i: nat :| |old(etcd.log.run.actions)| <= i && SentControl(etcd.cfg, etcd.log, i, a, true);
      assert PublishedBy(etcd.cfg, etcd.log, i, a, token, healthRaw.value, healthLease);
      r := Ok(());
    }

    /** Read the control records once; true when a leased healthy record was adopted, false when none is leased. */
    method ReadHealth() returns (r: Result<bool>)
      requires Valid()
      modifies this, etcd
      ensures Valid() && Ran(old(etcd.log), etcd.log, Silence)
      ensures auditLease == old(auditLease)
      ensures r == Ok(true) ==>
        healthRaw.Some? && HealthSeen(etcd.log.run, |old(etcd.log.run.states)| - 1, healthRaw.value, healthLease)
      ensures r == Ok(false) ==>
        && old(etcd.log.notes.unhealthy) < etcd.log.notes.unhealthy
        && Unleased(etcd.log.run, |old(etcd.log.run.states)| - 1)
      ensures r.Err? ==>
        || (r.error == Integrity && latched && Published(etcd.log.run))
        || (r.error == Backend
            && (LostMessage(old(etcd.log), etcd.log)
                || (old(etcd.log.notes.unhealthy) < etcd.log.notes.unhealthy
                    && PendingSeen(etcd.log.run, |old(etcd.log.run.states)| - 1))))
    {
      var control := ReadAuditControl();
      if control.Err? {
        return Err(control.error);
      }
      var vals := control.value;
      ghost var i: nat :| |old(etcd.log.run.states)| - 1 <= i
                          && ReadAt(etcd.log.run, i, {CoordinatorKey, FailureKey}, vals);
      if FailureKey in vals {
        latched := true;
        return Err(Integrity);
      }
      if CoordinatorKey !in vals || vals[CoordinatorKey].lease == 0 {
        return Ok(false);
      }
      var raw, lease := vals[CoordinatorKey].raw, vals[CoordinatorKey].lease;
      assert ShownAt(etcd.log.run, i, raw, lease) && FailureKey !in etcd.log.run.states[i].db;
      assert ShownSince(etcd.log.run, |old(etcd.log.run.states)| - 1, raw, lease);
      if !raw.state.Healthy? {
        return Err(Backend);
      }
      healthRaw, healthLease := Some(raw), lease;
      r := Ok(true);
    }

    /** `_ensure_fleet_healthy`: adopt a healthy record, or win the election and audit. */
    method EnsureFleetHealthy() returns (r: Result<()>)
      requires Valid()
      modifies this, etcd
      ensures Valid() && Ran(old(etcd.log), etcd.log, Audits(token))
      ensures r.Ok? ==>
        healthRaw.Some? && HealthSeen(etcd.log.run, |old(etcd.log.run.states)| - 1, healthRaw.value, healthLease)
      ensures r.Err? ==>
        || (r.error == Integrity && latched)
        || (r.error == Backend && Troubled(old(etcd.log), etcd.log)
            && (AuditFailed(etcd.cfg, old(etcd.log), etcd.log, token, old(auditLease))
                || PendingSeen(etcd.log.run, |old(etcd.log.run.states)| - 1)
                || Unled(etcd.cfg, old(etcd.log), etcd.log, token, 2)))
    {
      ghost var start := etcd.log;
      var adopted := ReadHealth();
      ghost var mid := etcd.log;
      RanWithin(start, mid, Silence, Audits(token));
      if adopted.Err? {
        return Err(adopted.error);
      }
      if adopted.value {
        return Ok(());
      }
      r := ElectOrAdopt();
      RanThen(start, mid, etcd.log, Silence, Audits(token), Audits(token));
      AuditCausesStay(etcd.cfg, start, mid, etcd.log, etcd.log, token, old(auditLease));
      if r.Ok? {
        HealthSeenStays(
          etcd.log.run, etcd.log.run, |mid.run.states| - 1, |start.run.states| - 1, healthRaw.value, healthLease);
      }
    }

    /** Nobody holds the lease: audit the fleet oneself, or adopt what the process that won it published. */
    method ElectOrAdopt() returns (r: Result<()>)
      requires Valid()
      modifies this, etcd
      ensures Valid() && Ran(old(etcd.log), etcd.log, Audits(token))
      ensures r.Ok? ==>
        healthRaw.Some? && HealthSeen(etcd.log.run, |old(etcd.log.run.states)| - 1, healthRaw.value, healthLease)
      ensures r.Err? ==>
        || (r.error == Integrity && latched)
        || (r.error == Backend
            && (AuditFailed(etcd.cfg, old(etcd.log), etcd.log, token, old(auditLease))
                || Unled(etcd.cfg, old(etcd.log), etcd.log, token, 1)))
    {
      ghost var start := etcd.log;
      var audited := RunCoordinatedAudit(true);
      ghost var mid := etcd.log;
      if audited.Err? {
        return Err(audited.error);
      }
      if audited.value.Some? {
        PublishedIsSeen(etcd.cfg, mid, |start.run.actions|, token, healthRaw.value, healthLease);
        return Ok(());
      }
      var adopted := ReadHealth();
      RanThen(start, mid, etcd.log, Audits(token), Silence, Audits(token));
      AuditCausesStay(etcd.cfg, start, start, mid, etcd.log, token, old(auditLease));
      if adopted.Err? {
        return Err(adopted.error);
      }
      if !adopted.value {
        return Err(Backend);
      }
      HealthSeenStays(
        etcd.log.run, etcd.log.run, |mid.run.states| - 1, |start.run.states| - 1, healthRaw.value, healthLease);
      r := Ok(());
    }

    /** `_ensure_initialized`: latch, immutable configuration, fleet health, in that order. */
    method EnsureInitialized() returns (r: Result<()>)
      requires Valid()
      modifies this, etcd
      ensures Valid() && Ran(old(etcd.log), etcd.log, Audits(token))
      ensures r.Ok? ==>
        healthRaw.Some? && HealthSeen(etcd.log.run, |old(etcd.log.run.states)| - 1, healthRaw.value, healthLease)
      ensures r.Err? ==> (r.error == Backend && Troubled(old(etcd.log), etcd.log)) || (r.error == Integrity && latched)
      ensures old(latched) ==> r.Err? && etcd.log == old(etcd.log)
    {
      ghost var start := etcd.log;
      if latched {
        return Err(Integrity);
      }
      var revalidate: bool := *;
      if revalidate {
        var checked := ValidateConfiguration();
        if checked.Err? {
          AlwaysConfigured(etcd.cfg, etcd.log.run);
          return Err(checked.error);
        }
      }
      ghost var mid := etcd.log;
      r := EnsureFleetHealthy();
      RanThen(start, mid, etcd.log, Audits(token), Audits(token), Audits(token));
      if r.Ok? {
        HealthSeenStays(
          etcd.log.run, etcd.log.run, |mid.run.states| - 1, |start.run.states| - 1, healthRaw.value, healthLease);
      }
    }

    /** `initialize`: the configuration record is there and is the configured one. */
    method ValidateConfiguration() returns (r: Result<()>)
      requires Valid()
      modifies this, etcd
      ensures Valid() && Ran(old(etcd.log), etcd.log, Audits(token))
      ensures healthRaw == old(healthRaw) && auditLease == old(auditLease)
      ensures r.Err? ==>
        || (r.error == Backend && LostMessage(old(etcd.log), etcd.log))
        || exists i: nat :: i < |etcd.log.run.states| && !Configured(etcd.cfg, etcd.log.run.states[i].db)
    {
      var reply := etcd.Range({ConfigKey});
      if reply.Lost? {
        return Err(Backend);
      }
      ghost var i: nat :| |old(etcd.log.run.states)| - 1 <= i && ReadAt(etcd.log.run, i, {ConfigKey}, reply.value);
      ghost var read := etcd.log.run.states;
      if ConfigKey !in reply.value || !reply.value[ConfigKey].raw.ConfigRecord? {
        PublishIntegrityFailure();
        assert etcd.log.run.states[i] == read[i];
        return Err(Integrity);
      }
      if reply.value[ConfigKey].raw.config != etcd.cfg {
        return Err(Configuration);
      }
      r := Ok(());
    }

    // ---- one guarded transaction ----------------------------------------------------------

    /** One request with its bounded transient retries; `None` when etcd gave no usable answer. */
    method SendWithRetries(m: Mutation, g: Guard) returns (r: Result<Option<bool>>)
      requires Valid() && Admissible(etcd.cfg, m) && HealthyGuard(g)
      modifies etcd
      ensures Valid() && Ran(old(etcd.log), etcd.log, Mutations(Exactly(m)))
      ensures SameTrouble(old(etcd.log), etcd.log)
      ensures r.Ok? && r.value == Some(true) ==> CommittedAs(etcd.cfg, etcd.log, |old(etcd.log.run.actions)|, m)
      ensures r.Ok? && r.value == Some(false) ==> RefusedUnder(etcd.cfg, etcd.log, |old(etcd.log.run.actions)|, m, g)
      ensures r.Err? ==> r.error == Backend
      ensures r.Err? || r.value.None? ==> LeftOpen(old(etcd.log), etcd.log, m)
    {
      ghost var start := etcd.log;
      var attempt := 0;
      while true
        invariant Valid() && 0 <= attempt <= 3
        invariant Ran(start, etcd.log, Mutations(Exactly(m))) && SameTrouble(start, etcd.log)
        decreases 3 - attempt
      {
        ghost var before := etcd.log;
        var reply := etcd.Send(m, g);
        RanThen(start, before, etcd.log, Mutations(Exactly(m)), Only(Mutate(m, g)), Mutations(Exactly(m)));
        if reply.Answer? {
          return Ok(Some(reply.value));
        }
        assert OpenAt(etcd.log, |before.notes.unanswered|, m);
        var garbled: bool := *;
        if garbled {
          return Ok(None);
        }
        var transient: bool := *;
        if !transient || attempt == 3 {
          return Err(Backend);
        }
        attempt := attempt + 1;
      }
    }

    /** `_transaction`: a garbled answer is replayed once, after a fresh authentication. */
    method Transact(m: Mutation) returns (r: Result<bool>)
      requires Valid() && Admissible(etcd.cfg, m)
      modifies etcd
      ensures Valid() && Ran(old(etcd.log), etcd.log, Mutations(Exactly(m)))
      ensures SameTrouble(old(etcd.log), etcd.log)
      ensures r.Ok? && r.value ==> CommittedAs(etcd.cfg, etcd.log, |old(etcd.log.run.actions)|, m)
      ensures r.Ok? ==> healthRaw.Some?
      ensures r.Ok? && !r.value ==>
        RefusedUnder(etcd.cfg, etcd.log, |old(etcd.log.run.actions)|, m, Guard(healthRaw.value, healthLease))
      ensures r.Err? ==> r.error == Backend && (healthRaw.None? || LeftOpen(old(etcd.log), etcd.log, m))
    {
      if healthRaw.None? {
        return Err(Backend);
      }
      ghost var start := etcd.log;
      var g := Guard(healthRaw.value, healthLease);
      var first := SendWithRetries(m, g);
      if first.Err? {
        return Err(Backend);
      }
      if first.value.Some? {
        return Ok(first.value.value);
      }
      ghost var mid := etcd.log;
      var authenticated: bool := *;
      if !authenticated {
        return Err(Backend);
      }
      var second := SendWithRetries(m, g);
      RanThen(start, mid, etcd.log, Mutations(Exactly(m)), Mutations(Exactly(m)), Mutations(Exactly(m)));
      if second.Err? || second.value.None? {
        LeftOpenFrom(start, mid, etcd.log, m);
        return Err(Backend);
      }
      r := Ok(second.value.value);
    }

    /** Read one instance directly, or as `get_host_claim` does after the usual checks. */
    method ReadBack(u: Uuid, viaGet: bool) returns (r: Result<View>)
      requires Valid() && (viaGet || healthRaw.Some?)
      modifies this, etcd
      ensures Valid() && Ran(old(etcd.log), etcd.log, Audits(token))
      ensures r.Ok? ==>
        Saw(etcd.log.run, |old(etcd.log.run.states)| - 1, u, r.value) && ViewParses(etcd.cfg, u, r.value)
      ensures r.Err? ==> Excused(etcd.cfg, old(etcd.log), etcd.log, latched, u, r.error)
    {
      if viaGet {
        r := GetState(u);
      } else {
        r := ReadAssignmentState(u);
        RanWithin(old(etcd.log), etcd.log, Silence, Audits(token));
      }
    }

    /** The usual checks, and then the state of one instance. */
    method GetState(u: Uuid) returns (r: Result<View>)
      requires Valid()
      modifies this, etcd
      ensures Valid() && Ran(old(etcd.log), etcd.log, Audits(token))
      ensures r.Ok? ==> healthRaw.Some?
      ensures r.Ok? ==>
        Saw(etcd.log.run, |old(etcd.log.run.states)| - 1, u, r.value) && ViewParses(etcd.cfg, u, r.value)
      ensures r.Err? ==> Excused(etcd.cfg, old(etcd.log), etcd.log, latched, u, r.error)
    {
      var ready := EnsureInitialized();
      if ready.Err? {
        return Err(ready.error);
      }
      ghost var mid := etcd.log;
      r := ReadAssignmentState(u);
      RanThen(old(etcd.log), mid, etcd.log, Audits(token), Silence, Audits(token));
      if r.Err? {
        ExcusedFrom(etcd.cfg, old(etcd.log), mid, etcd.log, latched, u, r.error);
      }
    }

    /**
     * One transaction and, unless it was refused, the read that settles it.
     * Everything sent had ended at `mid`, so an error of the settling read has
     * its cause after `mid`.
     */
    method Settle(m: Mutation, u: Uuid, viaGet: bool) returns (r: Result<Settled>, ghost mid: Log)
      requires Valid() && Admissible(etcd.cfg, m) && SubjectOf(m) == u && healthRaw.Some?
      modifies this, etcd
      ensures Valid()
      ensures Ran(old(etcd.log), mid, Mutations(Exactly(m))) && Ran(mid, etcd.log, Audits(token))
      ensures |mid.run.states| == |mid.run.actions| + 1 && SameTrouble(old(etcd.log), mid)
      ensures r.Ok? && r.value.Reread? ==>
        && Saw(etcd.log.run, |mid.run.actions|, u, r.value.view) && ViewParses(etcd.cfg, u, r.value.view)
      ensures r.Ok? && r.value.Reread? ==>
        if r.value.certain then CommittedThenSaw(etcd.cfg, etcd.log, |old(etcd.log.run.actions)|, m, r.value.view)
        else LeftOpen(old(etcd.log), mid, m)
      ensures r.Ok? && r.value.Refused? ==>
        && RefusedSince(etcd.cfg, etcd.log, |old(etcd.log.run.actions)|)
        && mid == etcd.log && healthRaw == old(healthRaw)
      ensures r.Err? ==> Excused(etcd.cfg, mid, etcd.log, latched, u, r.error)
    {
      ghost var start := etcd.log;
      var sent := Transact(m);
      mid := etcd.log;
      RanWithin(mid, mid, Silence, Audits(token));
      if sent.Ok? && !sent.value {
        return Ok(Refused), mid;
      }
      var view := ReadBack(u, viaGet);
      if view.Err? {
        return Err(view.error), mid;
      }
      if sent.Ok? {
        CommitThenView(etcd.cfg, mid, etcd.log, |start.run.actions|, m, u, view.value);
      }
      r := Ok(Reread(sent.Ok?, view.value));
    }

    // ---- operations on claims ---------------------------------------------------------------

    /** `get_host_claim`: the claim of one host, as it stood at one revision. */
    method GetHostClaim(u: Uuid, h: Uuid) returns (r: Result<Option<Claim>>)
      requires Valid()
      modifies this, etcd
      ensures Valid() && Ran(old(etcd.log), etcd.log, Audits(token))
      ensures r.Ok? ==>
        exists v :: Saw(etcd.log.run, |old(etcd.log.run.states)| - 1, u, v) && r.value == ClaimIn(v, h)
      ensures r.Err? ==> Excused(etcd.cfg, old(etcd.log), etcd.log, latched, u, r.error)
    {
      var view := GetState(u);
      r := if view.Ok? then Ok(ClaimIn(view.value, h)) else Err(view.error);
    }

    /**
     * `claim`: returns once this host holds the token. A cleaned claim of the
     * same host is replaced in place, never retired and added again.
     */
    method ClaimHost(u: Uuid, h: Uuid, t: Uuid, expected: Option<Generation>) returns (r: Result<Assignment>)
      requires Valid()
      modifies this, etcd
      ensures Valid()
      ensures Ran(old(etcd.log), etcd.log, AuditsAnd(token, Claims(u, h, t, expected)))
      ensures r.Ok? ==> HeldBy(etcd.log.run, |old(etcd.log.run.states)| - 1, u, h, t, expected, r.value)
      ensures r.Err? ==>
        || ClaimDeclined(etcd.log.run, |old(etcd.log.run.states)| - 1, u, h, t, expected, r.error)
        || Excused(etcd.cfg, old(etcd.log), etcd.log, latched, u, r.error)
    {
      ghost var sends := AuditsAnd(token, Claims(u, h, t, expected));
      var ready := EnsureInitialized();
      if ready.Err? {
        return Err(ready.error);
      }
      ghost var start := old(etcd.log);
      RanWithin(start, etcd.log, Audits(token), sends);
      ghost var from: nat := |start.run.states| - 1;
      for attempt := 0 to 64
        invariant Valid() && healthRaw.Some?
        invariant Ran(start, etcd.log, sends)
        invariant |Refusals(etcd.cfg, etcd.log, |start.run.actions|)| >= attempt
      {
        ghost var before := etcd.log;
        var done := ClaimOnce(u, h, t, expected, from);
        RanThen(start, before, etcd.log, sends, sends, sends);
        RefusalsGrow(etcd.cfg, before, etcd.log, |start.run.actions|);
        if done.Some? {
          if done.value.Err? {
            ExcusedFrom(etcd.cfg, start, before, etcd.log, latched, u, done.value.error);
          }
          return done.value;
        }
      }
      r := Err(Conflict);
    }

    /** One round of `claim`; `None` when another client's commit came first. */
    method ClaimOnce(u: Uuid, h: Uuid, t: Uuid, expected: Option<Generation>, ghost from: nat)
      returns (done: Option<Result<Assignment>>)
      requires Valid() && healthRaw.Some? && from < |etcd.log.run.states|
      modifies this, etcd
      ensures Valid()
      ensures Ran(old(etcd.log), etcd.log, AuditsAnd(token, Claims(u, h, t, expected)))
      ensures done.Some? && done.value.Ok? ==>
        HeldBy(etcd.log.run, from, u, h, t, expected, done.value.value)
      ensures done.Some? && done.value.Err? ==>
        || ClaimDeclined(etcd.log.run, from, u, h, t, expected, done.value.error)
        || Excused(etcd.cfg, old(etcd.log), etcd.log, latched, u, done.value.error)
      ensures done.None? ==> healthRaw.Some? && RefusedSince(etcd.cfg, etcd.log, |old(etcd.log.run.actions)|)
    {
      ghost var sends := AuditsAnd(token, Claims(u, h, t, expected));
      ghost var start := etcd.log;
      var read := ReadAssignmentState(u);
      ghost var mid := etcd.log;
      RanWithin(start, mid, Silence, sends);
      if read.Err? {
        return Some(Err(read.error));
      }
      SawEarlier(etcd.log.run, |start.run.states| - 1, from, u, read.value);
      var v := read.value;
      ClaimFinished(etcd.cfg, etcd.log.run, from, u, v, h, t, expected);
      done := ActOnClaim(DecideClaim(v, h, t, expected), u, h, t, expected, from);
      RanThen(start, mid, etcd.log, Silence, sends, sends);
      RefusalsFrom(etcd.cfg, etcd.log, |mid.run.actions|, |start.run.actions|);
      if done.Some? && done.value.Err? {
        ExcusedFrom(etcd.cfg, start, mid, etcd.log, latched, u, done.value.error);
      }
    }

    /** Carry out what was decided on a state just seen. */
    method ActOnClaim(d: Decision<Assignment>, u: Uuid, h: Uuid, t: Uuid, expected: Option<Generation>, ghost from: nat)
      returns (done: Option<Result<Assignment>>)
      requires Valid() && healthRaw.Some? && from < |etcd.log.run.states|
      requires ClaimSound(etcd.cfg, etcd.log.run, from, u, h, t, expected, d)
      modifies this, etcd
      ensures Valid()
      ensures Ran(old(etcd.log), etcd.log, AuditsAnd(token, Claims(u, h, t, expected)))
      ensures done.Some? && done.value.Ok? ==>
        HeldBy(etcd.log.run, from, u, h, t, expected, done.value.value)
      ensures done.Some? && done.value.Err? ==>
        || ClaimDeclined(etcd.log.run, from, u, h, t, expected, done.value.error)
        || Excused(etcd.cfg, old(etcd.log), etcd.log, latched, u, done.value.error)
      ensures done.None? ==> healthRaw.Some? && RefusedSince(etcd.cfg, etcd.log, |old(etcd.log.run.actions)|)
    {
      ghost var sends := AuditsAnd(token, Claims(u, h, t, expected));
      match d {
        case Finish(result) => done := Some(result);
        case Attempt(m) =>
          ghost var start := etcd.log;
          done := TryClaim(m, u, h, t, from);
          RanWithin(start, etcd.log, AuditsAnd(token, Exactly(m)), sends);
      }
    }

    method TryClaim(m: Mutation, u: Uuid, h: Uuid, t: Uuid, ghost from: nat)
      returns (done: Option<Result<Assignment>>)
      requires Valid() && healthRaw.Some? && from < |etcd.log.run.states|
      requires Admissible(etcd.cfg, m) && SubjectOf(m) == u && (m.AddClaim? || m.ReplaceClaim?) && Targets(m, u, h, t)
      modifies this, etcd
      ensures Valid() && Ran(old(etcd.log), etcd.log, AuditsAnd(token, Exactly(m)))
      ensures done.Some? && done.value.Ok? ==>
        HeldBy(etcd.log.run, from, u, h, t, Some(m.current.gen), done.value.value)
      ensures done.Some? && done.value.Err? ==>
        Excused(etcd.cfg, old(etcd.log), etcd.log, latched, u, done.value.error)
      ensures done.None? ==> healthRaw.Some? && RefusedSince(etcd.cfg, etcd.log, |old(etcd.log.run.actions)|)
    {
      var settled, mid := Settle(m, u, false);
      RanThen(
        old(etcd.log), mid, etcd.log, Mutations(Exactly(m)), Audits(token), AuditsAnd(token, Exactly(m)));
      if settled.Err? {
        ExcusedFrom(etcd.cfg, old(etcd.log), mid, etcd.log, latched, u, settled.error);
        return Some(Err(settled.error));
      }
      if settled.value.Refused? {
        return None;
      }
      SettledView(etcd.cfg, old(etcd.log), mid, etcd.log, m, u, settled.value);
      SawEarlier(etcd.log.run, |old(etcd.log.run.states)| - 1, from, u, settled.value.view);
      if Stands(m, settled.value.view) {
        ClaimShown(etcd.log.run, from, m, u, h, t, settled.value.view);
      }
      done := Some(ClaimVerdict(m, settled.value));
    }

    /**
     * `mark_materialization_possible`, `mark_materialization_committed` and
     * `_record_claim_proof`: returns once exactly this claim is in the wanted state.
     */
    method ChangeClaim(u: Uuid, h: Uuid, t: Uuid, change: Change, expected: Option<Generation>)
      returns (r: Result<Claim>)
      requires Valid() && ChangeOk(change)
      modifies this, etcd
      ensures Valid()
      ensures Ran(old(etcd.log), etcd.log, AuditsAnd(token, Changes(u, h, t, change, expected)))
      ensures r.Ok? ==> ChangeSeen(etcd.log.run, |old(etcd.log.run.states)| - 1, u, h, t, change, r.value)
      ensures r.Err? ==>
        || ChangeDeclined(etcd.log.run, |old(etcd.log.run.states)| - 1, u, h, t, change, expected, r.error)
        || Excused(etcd.cfg, old(etcd.log), etcd.log, latched, u, r.error)
    {
      ghost var sends := AuditsAnd(token, Changes(u, h, t, change, expected));
      var ready := EnsureInitialized();
      if ready.Err? {
        return Err(ready.error);
      }
      ghost var start := old(etcd.log);
      RanWithin(start, etcd.log, Audits(token), sends);
      ghost var from: nat := |start.run.states| - 1;
      for attempt := 0 to 64
        invariant Valid() && healthRaw.Some?
        invariant Ran(start, etcd.log, sends)
        invariant |Refusals(etcd.cfg, etcd.log, |start.run.actions|)| >= attempt
      {
        ghost var before := etcd.log;
        var done := ChangeOnce(u, h, t, change, expected, from);
        RanThen(start, before, etcd.log, sends, sends, sends);
        RefusalsGrow(etcd.cfg, before, etcd.log, |start.run.actions|);
        if done.Some? {
          if done.value.Err? {
            ExcusedFrom(etcd.cfg, start, before, etcd.log, latched, u, done.value.error);
          }
          return done.value;
        }
      }
      r := Err(Conflict);
    }

    method ChangeOnce(u: Uuid, h: Uuid, t: Uuid, change: Change, expected: Option<Generation>, ghost from: nat)
      returns (done: Option<Result<Claim>>)
      requires Valid() && healthRaw.Some? && from < |etcd.log.run.states| && ChangeOk(change)
      modifies this, etcd
      ensures Valid()
      ensures Ran(old(etcd.log), etcd.log, AuditsAnd(token, Changes(u, h, t, change, expected)))
      ensures done.Some? && done.value.Ok? ==> ChangeSeen(etcd.log.run, from, u, h, t, change, done.value.value)
      ensures done.Some? && done.value.Err? ==>
        || ChangeDeclined(etcd.log.run, from, u, h, t, change, expected, done.value.error)
        || Excused(etcd.cfg, old(etcd.log), etcd.log, latched, u, done.value.error)
      ensures done.None? ==> healthRaw.Some? && RefusedSince(etcd.cfg, etcd.log, |old(etcd.log.run.actions)|)
    {
      ghost var sends := AuditsAnd(token, Changes(u, h, t, change, expected));
      ghost var start := etcd.log;
      var read := ReadAssignmentState(u);
      ghost var mid := etcd.log;
      RanWithin(start, mid, Silence, sends);
      if read.Err? {
        return Some(Err(read.error));
      }
      SawEarlier(etcd.log.run, |start.run.states| - 1, from, u, read.value);
      var v := read.value;
      ChangeFinished(etcd.cfg, etcd.log.run, from, u, v, h, t, change, expected);
      done := ActOnChange(DecideChange(v, h, t, change, expected), u, h, t, change, expected, from);
      RanThen(start, mid, etcd.log, Silence, sends, sends);
      RefusalsFrom(etcd.cfg, etcd.log, |mid.run.actions|, |start.run.actions|);
      if done.Some? && done.value.Err? {
        ExcusedFrom(etcd.cfg, start, mid, etcd.log, latched, u, done.value.error);
      }
    }

    /** Carry out what was decided on a state just seen. */
    method ActOnChange(
        d: Decision<Claim>, u: Uuid, h: Uuid, t: Uuid, change: Change, expected: Option<Generation>, ghost from: nat)
      returns (done: Option<Result<Claim>>)
      requires Valid() && healthRaw.Some? && from < |etcd.log.run.states|
      requires ChangeSound(etcd.cfg, etcd.log.run, from, u, h, t, change, expected, d) && ChangeOk(change)
      modifies this, etcd
      ensures Valid()
      ensures Ran(old(etcd.log), etcd.log, AuditsAnd(token, Changes(u, h, t, change, expected)))
      ensures done.Some? && done.value.Ok? ==> ChangeSeen(etcd.log.run, from, u, h, t, change, done.value.value)
      ensures done.Some? && done.value.Err? ==>
        || ChangeDeclined(etcd.log.run, from, u, h, t, change, expected, done.value.error)
        || Excused(etcd.cfg, old(etcd.log), etcd.log, latched, u, done.value.error)
      ensures done.None? ==> healthRaw.Some? && RefusedSince(etcd.cfg, etcd.log, |old(etcd.log.run.actions)|)
    {
      ghost var sends := AuditsAnd(token, Changes(u, h, t, change, expected));
      match d {
        case Finish(result) => done := Some(result);
        case Attempt(m) =>
          ghost var start := etcd.log;
          done := TryChange(m, u, h, t, change, from);
          RanWithin(start, etcd.log, AuditsAnd(token, Exactly(m)), sends);
      }
    }

    method TryChange(m: Mutation, u: Uuid, h: Uuid, t: Uuid, change: Change, ghost from: nat)
      returns (done: Option<Result<Claim>>)
      requires Valid() && healthRaw.Some? && from < |etcd.log.run.states|
      requires Admissible(etcd.cfg, m) && SubjectOf(m) == u && IsChange(m, u, h, t, change)
      modifies this, etcd
      ensures Valid() && Ran(old(etcd.log), etcd.log, AuditsAnd(token, Exactly(m)))
      ensures done.Some? && done.value.Ok? ==> ChangeSeen(etcd.log.run, from, u, h, t, change, done.value.value)
      ensures done.Some? && done.value.Err? ==>
        Excused(etcd.cfg, old(etcd.log), etcd.log, latched, u, done.value.error)
      ensures done.None? ==> healthRaw.Some? && RefusedSince(etcd.cfg, etcd.log, |old(etcd.log.run.actions)|)
    {
      var settled, mid := Settle(m, u, true);
      RanThen(
        old(etcd.log), mid, etcd.log, Mutations(Exactly(m)), Audits(token), AuditsAnd(token, Exactly(m)));
      if settled.Err? {
        ExcusedFrom(etcd.cfg, old(etcd.log), mid, etcd.log, latched, u, settled.error);
        return Some(Err(settled.error));
      }
      if settled.value.Refused? {
        return None;
      }
      SettledView(etcd.cfg, old(etcd.log), mid, etcd.log, m, u, settled.value);
      SawEarlier(etcd.log.run, |old(etcd.log.run.states)| - 1, from, u, settled.value.view);
      ChangeShown(etcd.log.run, from, m, u, h, t, change, settled.value);
      done := Some(ChangeVerdict(m, h, t, change, settled.value));
    }

    /** `record_materialization_proof` and `record_rootfs_release_proof`: validate, then record. */
    method RecordClaimProof(u: Uuid, h: Uuid, t: Uuid, proof: Proof, expected: Option<Generation>)
      returns (r: Result<Claim>)
      requires Valid()
      modifies this, etcd
      ensures Valid()
      ensures Ran(old(etcd.log), etcd.log, AuditsAnd(token, Changes(u, h, t, ToCleaned(proof), expected)))
      ensures !ValidProof(proof) ==> r == Err(Configuration) && etcd.log == old(etcd.log)
      ensures r.Ok? ==>
        && ValidProof(proof) && r.value.state.Cleaned? && r.value.proof == Some(proof) && r.value.token == t
        && ChangeSeen(etcd.log.run, |old(etcd.log.run.states)| - 1, u, h, t, ToCleaned(proof), r.value)
      ensures ValidProof(proof) && r.Err? ==>
        || ChangeDeclined(etcd.log.run, |old(etcd.log.run.states)| - 1, u, h, t, ToCleaned(proof), expected, r.error)
        || Excused(etcd.cfg, old(etcd.log), etcd.log, latched, u, r.error)
    {
      if !ValidProof(proof) {
        return Err(Configuration);
      }
      r := ChangeClaim(u, h, t, ToCleaned(proof), expected);
    }

    /**
     * `abandon_unregistered_claim`, `retire_claim` and `fence_retire_claim`:
     * returns once the host holds no claim on the instance.
     */
    method RemoveClaim(u: Uuid, h: Uuid, removal: Removal, expected: Option<Generation>)
      returns (r: Result<Option<Assignment>>)
      requires Valid() && RemovalOk(u, h, removal)
      modifies this, etcd
      ensures Valid()
      ensures Ran(old(etcd.log), etcd.log, AuditsAnd(token, Removals(u, h, removal, expected)))
      ensures r.Ok? ==> FreeOf(etcd.log.run, |old(etcd.log.run.states)| - 1, u, h, r.value)
      ensures r.Err? ==>
        || RemovalDeclined(etcd.log.run, |old(etcd.log.run.states)| - 1, u, h, removal, expected, r.error)
        || Excused(etcd.cfg, old(etcd.log), etcd.log, latched, u, r.error)
    {
      ghost var sends := AuditsAnd(token, Removals(u, h, removal, expected));
      var ready := EnsureInitialized();
      if ready.Err? {
        return Err(ready.error);
      }
      ghost var start := old(etcd.log);
      RanWithin(start, etcd.log, Audits(token), sends);
      ghost var from: nat := |start.run.states| - 1;
      for attempt := 0 to 64
        invariant Valid() && healthRaw.Some?
        invariant Ran(start, etcd.log, sends)
        invariant |Refusals(etcd.cfg, etcd.log, |start.run.actions|)| >= attempt
      {
        ghost var before := etcd.log;
        var done := RemoveOnce(u, h, removal, expected, from);
        RanThen(start, before, etcd.log, sends, sends, sends);
        RefusalsGrow(etcd.cfg, before, etcd.log, |start.run.actions|);
        if done.Some? {
          if done.value.Err? {
            ExcusedFrom(etcd.cfg, start, before, etcd.log, latched, u, done.value.error);
          }
          return done.value;
        }
      }
      r := Err(Conflict);
    }

    method RemoveOnce(u: Uuid, h: Uuid, removal: Removal, expected: Option<Generation>, ghost from: nat)
      returns (done: Option<Result<Option<Assignment>>>)
      requires Valid() && healthRaw.Some? && from < |etcd.log.run.states| && RemovalOk(u, h, removal)
      modifies this, etcd
      ensures Valid()
      ensures Ran(old(etcd.log), etcd.log, AuditsAnd(token, Removals(u, h, removal, expected)))
      ensures done.Some? && done.value.Ok? ==>
        FreeOf(etcd.log.run, from, u, h, done.value.value)
      ensures done.Some? && done.value.Err? ==>
        || RemovalDeclined(etcd.log.run, from, u, h, removal, expected, done.value.error)
        || Excused(etcd.cfg, old(etcd.log), etcd.log, latched, u, done.value.error)
      ensures done.None? ==> healthRaw.Some? && RefusedSince(etcd.cfg, etcd.log, |old(etcd.log.run.actions)|)
    {
      ghost var sends := AuditsAnd(token, Removals(u, h, removal, expected));
      ghost var start := etcd.log;
      var read := ReadAssignmentState(u);
      ghost var mid := etcd.log;
      RanWithin(start, mid, Silence, sends);
      if read.Err? {
        return Some(Err(read.error));
      }
      SawEarlier(etcd.log.run, |start.run.states| - 1, from, u, read.value);
      var v := read.value;
      RemovalFinished(etcd.cfg, etcd.log.run, from, u, v, h, removal, expected);
      done := ActOnRemoval(DecideRemoval(v, h, removal, expected), u, h, removal, expected, from);
      RanThen(start, mid, etcd.log, Silence, sends, sends);
      RefusalsFrom(etcd.cfg, etcd.log, |mid.run.actions|, |start.run.actions|);
      if done.Some? && done.value.Err? {
        ExcusedFrom(etcd.cfg, start, mid, etcd.log, latched, u, done.value.error);
      }
    }

    /** Carry out what was decided on a state just seen. */
    method ActOnRemoval(
        d: Decision<Option<Assignment>>, u: Uuid, h: Uuid, removal: Removal, expected: Option<Generation>,
        ghost from: nat)
      returns (done: Option<Result<Option<Assignment>>>)
      requires Valid() && healthRaw.Some? && from < |etcd.log.run.states|
      requires RemovalSound(etcd.cfg, etcd.log.run, from, u, h, removal, expected, d) && RemovalOk(u, h, removal)
      modifies this, etcd
      ensures Valid()
      ensures Ran(old(etcd.log), etcd.log, AuditsAnd(token, Removals(u, h, removal, expected)))
      ensures done.Some? && done.value.Ok? ==>
        FreeOf(etcd.log.run, from, u, h, done.value.value)
      ensures done.Some? && done.value.Err? ==>
        || RemovalDeclined(etcd.log.run, from, u, h, removal, expected, done.value.error)
        || Excused(etcd.cfg, old(etcd.log), etcd.log, latched, u, done.value.error)
      ensures done.None? ==> healthRaw.Some? && RefusedSince(etcd.cfg, etcd.log, |old(etcd.log.run.actions)|)
    {
      ghost var sends := AuditsAnd(token, Removals(u, h, removal, expected));
      match d {
        case Finish(result) => done := Some(result);
        case Attempt(m) =>
          ghost var start := etcd.log;
          done := TryRemoval(m, u, h, from);
          RanWithin(start, etcd.log, AuditsAnd(token, Exactly(m)), sends);
      }
    }

    method TryRemoval(m: Mutation, u: Uuid, h: Uuid, ghost from: nat)
      returns (done: Option<Result<Option<Assignment>>>)
      requires Valid() && healthRaw.Some? && from < |etcd.log.run.states|
      requires Admissible(etcd.cfg, m) && SubjectOf(m) == u
      requires (m.FenceRetire? || m.Abandon? || m.Retire?) && m.claim.host == h
      modifies this, etcd
      ensures Valid() && Ran(old(etcd.log), etcd.log, AuditsAnd(token, Exactly(m)))
      ensures done.Some? && done.value.Ok? ==>
        FreeOf(etcd.log.run, from, u, h, done.value.value)
      ensures done.Some? && done.value.Err? ==>
        Excused(etcd.cfg, old(etcd.log), etcd.log, latched, u, done.value.error)
      ensures done.None? ==> healthRaw.Some? && RefusedSince(etcd.cfg, etcd.log, |old(etcd.log.run.actions)|)
    {
      var settled, mid := Settle(m, u, false);
      RanThen(
        old(etcd.log), mid, etcd.log, Mutations(Exactly(m)), Audits(token), AuditsAnd(token, Exactly(m)));
      if settled.Err? {
        ExcusedFrom(etcd.cfg, old(etcd.log), mid, etcd.log, latched, u, settled.error);
        return Some(Err(settled.error));
      }
      if settled.value.Refused? {
        return None;
      }
      SettledView(etcd.cfg, old(etcd.log), mid, etcd.log, m, u, settled.value);
      SawEarlier(etcd.log.run, |old(etcd.log.run.states)| - 1, from, u, settled.value.view);
      if Stands(m, settled.value.view) {
        RemovalShown(etcd.log.run, from, m, u, h, settled.value.view);
      }
      done := Some(Verdict(m, settled.value, Standing(settled.value.view)));
    }

    /** `fence_retire_claim`: validates the operator's fence record, then retires under it. */
    method FenceRetireClaim(u: Uuid, h: Uuid, fence: Fence, expected: Option<Generation>)
      returns (r: Result<Option<Assignment>>)
      requires Valid()
      modifies this, etcd
      ensures Valid()
      ensures Ran(old(etcd.log), etcd.log, AuditsAnd(token, Removals(u, h, Fencing(fence), expected)))
      ensures !ValidFence(fence) ==> r == Err(Integrity) && etcd.log == old(etcd.log)
      ensures !RemovalOk(u, h, Fencing(fence)) ==> r.Err? && Ran(old(etcd.log), etcd.log, Audits(token))
      ensures r.Ok? ==> FreeOf(etcd.log.run, |old(etcd.log.run.states)| - 1, u, h, r.value)
      ensures RemovalOk(u, h, Fencing(fence)) && r.Err? ==>
        || RemovalDeclined(etcd.log.run, |old(etcd.log.run.states)| - 1, u, h, Fencing(fence), expected, r.error)
        || Excused(etcd.cfg, old(etcd.log), etcd.log, latched, u, r.error)
    {
      if !ValidFence(fence) {
        return Err(Integrity);
      }
      if fence.host != h || fence.instance != u {
        var ready := EnsureInitialized();
        RanWithin(
          old(etcd.log), etcd.log, Audits(token), AuditsAnd(token, Removals(u, h, Fencing(fence), expected)));
        return Err(if ready.Err? then ready.error else Integrity);
      }
      r := RemoveClaim(u, h, Fencing(fence), expected);
    }

    // ---- the release barrier and the release ---------------------------------------------------

    /** `request_release`: returns the immutable intent once it stands. */
    method RequestRelease(u: Uuid, name: string, expected: Option<Generation>) returns (r: Result<Intent>)
      requires Valid()
      modifies this, etcd
      ensures Valid()
      ensures Ran(old(etcd.log), etcd.log, AuditsAnd(token, Barriers(u, name, expected)))
      ensures r.Ok? ==>
        r.value.name == name && BarrierSeen(etcd.log.run, |old(etcd.log.run.states)| - 1, u, expected, r.value)
      ensures r.Err? ==>
        || BarrierDeclined(etcd.log.run, |old(etcd.log.run.states)| - 1, u, name, expected, r.error)
        || Excused(etcd.cfg, old(etcd.log), etcd.log, latched, u, r.error)
        || (r.error == Configuration && !InstanceNameOk(name))
    {
      ghost var sends := AuditsAnd(token, Barriers(u, name, expected));
      var ready := EnsureInitialized();
      if ready.Err? {
        return Err(ready.error);
      }
      if !InstanceNameOk(name) {
        return Err(Configuration);
      }
      ghost var start := old(etcd.log);
      RanWithin(start, etcd.log, Audits(token), sends);
      ghost var from: nat := |start.run.states| - 1;
      for attempt := 0 to 64
        invariant Valid() && healthRaw.Some?
        invariant Ran(start, etcd.log, sends)
        invariant |Refusals(etcd.cfg, etcd.log, |start.run.actions|)| >= attempt
      {
        ghost var before := etcd.log;
        var done := RequestOnce(u, name, expected, from);
        RanThen(start, before, etcd.log, sends, sends, sends);
        RefusalsGrow(etcd.cfg, before, etcd.log, |start.run.actions|);
        if done.Some? {
          if done.value.Err? {
            ExcusedFrom(etcd.cfg, start, before, etcd.log, latched, u, done.value.error);
          }
          return done.value;
        }
      }
      r := Err(Conflict);
    }

    method RequestOnce(u: Uuid, name: string, expected: Option<Generation>, ghost from: nat)
      returns (done: Option<Result<Intent>>)
      requires Valid() && healthRaw.Some? && from < |etcd.log.run.states| && InstanceNameOk(name)
      modifies this, etcd
      ensures Valid()
      ensures Ran(old(etcd.log), etcd.log, AuditsAnd(token, Barriers(u, name, expected)))
      ensures done.Some? && done.value.Ok? ==>
        && done.value.value.name == name
        && BarrierSeen(etcd.log.run, from, u, expected, done.value.value)
      ensures done.Some? && done.value.Err? ==>
        || BarrierDeclined(etcd.log.run, from, u, name, expected, done.value.error)
        || Excused(etcd.cfg, old(etcd.log), etcd.log, latched, u, done.value.error)
      ensures done.None? ==> healthRaw.Some? && RefusedSince(etcd.cfg, etcd.log, |old(etcd.log.run.actions)|)
    {
      ghost var sends := AuditsAnd(token, Barriers(u, name, expected));
      ghost var start := etcd.log;
      var read := ReadAssignmentState(u);
      ghost var mid := etcd.log;
      RanWithin(start, mid, Silence, sends);
      if read.Err? {
        return Some(Err(read.error));
      }
      SawEarlier(etcd.log.run, |start.run.states| - 1, from, u, read.value);
      var v := read.value;
      BarrierFinished(etcd.cfg, etcd.log.run, from, u, v, name, expected);
      done := ActOnBarrier(DecideBarrier(v, name, expected), u, name, expected, from);
      RanThen(start, mid, etcd.log, Silence, sends, sends);
      RefusalsFrom(etcd.cfg, etcd.log, |mid.run.actions|, |start.run.actions|);
      if done.Some? && done.value.Err? {
        ExcusedFrom(etcd.cfg, start, mid, etcd.log, latched, u, done.value.error);
      }
    }

    /** Carry out what was decided on a state just seen. */
    method ActOnBarrier(d: Decision<Intent>, u: Uuid, name: string, expected: Option<Generation>, ghost from: nat)
      returns (done: Option<Result<Intent>>)
      requires Valid() && healthRaw.Some? && from < |etcd.log.run.states|
      requires BarrierSound(etcd.cfg, etcd.log.run, from, u, name, expected, d) && InstanceNameOk(name)
      modifies this, etcd
      ensures Valid()
      ensures Ran(old(etcd.log), etcd.log, AuditsAnd(token, Barriers(u, name, expected)))
      ensures done.Some? && done.value.Ok? ==>
        && done.value.value.name == name
        && BarrierSeen(etcd.log.run, from, u, expected, done.value.value)
      ensures done.Some? && done.value.Err? ==>
        || BarrierDeclined(etcd.log.run, from, u, name, expected, done.value.error)
        || Excused(etcd.cfg, old(etcd.log), etcd.log, latched, u, done.value.error)
      ensures done.None? ==> healthRaw.Some? && RefusedSince(etcd.cfg, etcd.log, |old(etcd.log.run.actions)|)
    {
      ghost var sends := AuditsAnd(token, Barriers(u, name, expected));
      match d {
        case Finish(result) => done := Some(result);
        case Attempt(m) =>
          ghost var start := etcd.log;
          done := TryBarrier(m, u, Intent(m.current.gen, name));
          RanWithin(start, etcd.log, AuditsAnd(token, Exactly(m)), sends);
      }
    }

    method TryBarrier(m: Mutation, u: Uuid, desired: Intent) returns (done: Option<Result<Intent>>)
      requires Valid() && healthRaw.Some? && Admissible(etcd.cfg, m) && SubjectOf(m) == u
      requires m.RequestRelease? && desired == Intent(m.current.gen, m.name)
      modifies this, etcd
      ensures Valid() && Ran(old(etcd.log), etcd.log, AuditsAnd(token, Exactly(m)))
      ensures done.Some? && done.value.Ok? ==>
        && done.value.value == desired
        && BarrierSeen(etcd.log.run, |old(etcd.log.run.states)| - 1, u, Some(desired.gen), desired)
      ensures done.Some? && done.value.Err? ==>
        Excused(etcd.cfg, old(etcd.log), etcd.log, latched, u, done.value.error)
      ensures done.None? ==> healthRaw.Some? && RefusedSince(etcd.cfg, etcd.log, |old(etcd.log.run.actions)|)
    {
      var settled, mid := Settle(m, u, false);
      RanThen(
        old(etcd.log), mid, etcd.log, Mutations(Exactly(m)), Audits(token), AuditsAnd(token, Exactly(m)));
      if settled.Err? {
        ExcusedFrom(etcd.cfg, old(etcd.log), mid, etcd.log, latched, u, settled.error);
        return Some(Err(settled.error));
      }
      if settled.value.Refused? {
        return None;
      }
      SettledView(etcd.cfg, old(etcd.log), mid, etcd.log, m, u, settled.value);
      done := Some(Verdict(m, settled.value, desired));
    }

    /**
     * `release`: one attempt. True means that at some revision of the call the
     * instance was unallocated; false that it still had an allocation.
     */
    method ReleaseAllocation(intent: Intent) returns (r: Result<bool>)
      requires Valid()
      modifies this, etcd
      ensures Valid()
      ensures Ran(old(etcd.log), etcd.log, AuditsAnd(token, Releases(intent)))
      ensures r == Ok(true) ==> Saw(etcd.log.run, |old(etcd.log.run.states)| - 1, intent.gen.instance, NoAllocation)
      ensures r == Ok(false) ==>
        || Outrun(etcd.cfg, etcd.log, |old(etcd.log.run.actions)|, intent.gen.instance)
        || exists v ::
             Saw(etcd.log.run, |old(etcd.log.run.states)| - 1, intent.gen.instance, v) && BlocksRelease(v, intent)
      ensures r.Err? ==> Excused(etcd.cfg, old(etcd.log), etcd.log, latched, intent.gen.instance, r.error)
    {
      ghost var sends := AuditsAnd(token, Releases(intent));
      ghost var start := etcd.log;
      var u := intent.gen.instance;
      var ready := EnsureInitialized();
      ghost var mid := etcd.log;
      RanWithin(start, mid, Audits(token), sends);
      if ready.Err? {
        return Err(ready.error);
      }
      r := ReleaseOnce(intent);
      RanThen(start, mid, etcd.log, Audits(token), sends, sends);
      OutrunFrom(etcd.cfg, etcd.log, |mid.run.actions|, |start.run.actions|, u);
      ExcusedFrom(etcd.cfg, start, mid, etcd.log, latched, u, if r.Err? then r.error else Conflict);
    }

    method ReleaseOnce(intent: Intent) returns (r: Result<bool>)
      requires Valid() && healthRaw.Some?
      modifies this, etcd
      ensures Valid()
      ensures Ran(old(etcd.log), etcd.log, AuditsAnd(token, Releases(intent)))
      ensures r == Ok(true) ==> Saw(etcd.log.run, |old(etcd.log.run.states)| - 1, intent.gen.instance, NoAllocation)
      ensures r == Ok(false) ==>
        || Outrun(etcd.cfg, etcd.log, |old(etcd.log.run.actions)|, intent.gen.instance)
        || exists v ::
             Saw(etcd.log.run, |old(etcd.log.run.states)| - 1, intent.gen.instance, v) && BlocksRelease(v, intent)
      ensures r.Err? ==> Excused(etcd.cfg, old(etcd.log), etcd.log, latched, intent.gen.instance, r.error)
    {
      ghost var sends := AuditsAnd(token, Releases(intent));
      var u := intent.gen.instance;
      ghost var start := etcd.log;
      var read := ReadAssignmentState(u);
      ghost var mid := etcd.log;
      RanWithin(start, mid, Silence, sends);
      if read.Err? {
        return Err(read.error);
      }
      var v := read.value;
      if v.NoAllocation? {
        return Ok(true);
      }
      if v.intent != Some(intent) || v.assignment.hosts != {} {
        assert BlocksRelease(v, intent);
        return Ok(false);
      }
      var m := Release(v.assignment, intent);
      r := TryRelease(m, u);
      RanThen(start, mid, etcd.log, Silence, AuditsAnd(token, Exactly(m)), sends);
      OutrunFrom(etcd.cfg, etcd.log, |mid.run.actions|, |start.run.actions|, u);
      ExcusedFrom(etcd.cfg, start, mid, etcd.log, latched, u, if r.Err? then r.error else Conflict);
    }

    method TryRelease(m: Mutation, u: Uuid) returns (r: Result<bool>)
      requires Valid() && healthRaw.Some? && Admissible(etcd.cfg, m) && SubjectOf(m) == u && m.Release?
      modifies this, etcd
      ensures Valid() && Ran(old(etcd.log), etcd.log, AuditsAnd(token, Exactly(m)))
      ensures r == Ok(true) ==> Saw(etcd.log.run, |old(etcd.log.run.states)| - 1, u, NoAllocation)
      ensures r == Ok(false) ==> Outrun(etcd.cfg, etcd.log, |old(etcd.log.run.actions)|, u)
      ensures r.Err? ==> Excused(etcd.cfg, old(etcd.log), etcd.log, latched, u, r.error)
    {
      ghost var start := etcd.log;
      var settled, mid := Settle(m, u, false);
      RanThen(start, mid, etcd.log, Mutations(Exactly(m)), Audits(token), AuditsAnd(token, Exactly(m)));
      if settled.Err? {
        ExcusedFrom(etcd.cfg, start, mid, etcd.log, latched, u, settled.error);
        return Err(settled.error);
      }
      if settled.value.Refused? {
        r := AfterRefusedRelease(u, start);
        RanThen(start, mid, etcd.log, AuditsAnd(token, Exactly(m)), Silence, AuditsAnd(token, Exactly(m)));
        return;
      }
      SettledView(etcd.cfg, old(etcd.log), mid, etcd.log, m, u, settled.value);
      r := Verdict(m, settled.value, true);
    }

    /** Another client may have released it first. */
    method AfterRefusedRelease(u: Uuid, ghost start: Log) returns (r: Result<bool>)
      requires Valid() && healthRaw.Some? && |start.run.actions| <= |etcd.log.run.actions|
      requires NotesGrow(start.notes, etcd.log.notes) && RefusedSince(etcd.cfg, etcd.log, |start.run.actions|)
      modifies this, etcd
      ensures Valid() && Ran(old(etcd.log), etcd.log, Silence)
      ensures r == Ok(true) ==> Saw(etcd.log.run, |start.run.actions|, u, NoAllocation)
      ensures r == Ok(false) ==> Outrun(etcd.cfg, etcd.log, |start.run.actions|, u)
      ensures r.Err? ==> Excused(etcd.cfg, start, etcd.log, latched, u, r.error)
    {
      ghost var mid := etcd.log;
      var again := ReadAssignmentState(u);
      if again.Err? {
        ExcusedFrom(etcd.cfg, start, mid, etcd.log, latched, u, again.error);
        return Err(again.error);
      }
      if again.value.View? {
        StillThere(etcd.cfg, mid, etcd.log, |start.run.actions|, u);
      }
      r := Ok(again.value.NoAllocation?);
    }

    // ---- allocation -------------------------------------------------------------------------

    /** `_get_allocatable_assignment`: the current assignment, unless a release barrier stands. */
    method GetAllocatable(u: Uuid) returns (r: Result<View>)
      requires Valid() && healthRaw.Some?
      modifies this, etcd
      ensures Valid() && healthRaw.Some? && Ran(old(etcd.log), etcd.log, Silence)
      ensures r.Ok? ==>
        && Saw(etcd.log.run, |old(etcd.log.run.states)| - 1, u, r.value) && ViewParses(etcd.cfg, u, r.value)
        && (r.value.View? ==> r.value.intent.None?)
      ensures r.Err? ==> SearchExcused(etcd.cfg, old(etcd.log), etcd.log, latched, u, None, r.error)
    {
      r := ReadAssignmentState(u);
      if r.Ok? && r.value.View? && r.value.intent.Some? {
        assert Barred(etcd.log.run, |old(etcd.log.run.states)| - 1, u);
        return Err(Conflict);
      }
    }

    /** `_try_allocate`: one slot, with one more try when only the health generation had moved. */
    method TryAllocate(u: Uuid, slot: nat, id: Uuid) returns (r: Result<Option<Assignment>>)
      requires Valid() && healthRaw.Some? && slot < etcd.cfg.count
      modifies this, etcd
      ensures Valid() && healthRaw.Some?
      ensures Ran(old(etcd.log), etcd.log, Mutations(Exactly(Mutation.Allocate(u, slot, id))))
      ensures r.Ok? && r.value.Some? ==>
        && r.value.value.gen.slot == slot && r.value.value.gen.allocation == id
        && AllocationSeen(etcd.log.run, |old(etcd.log.run.states)| - 1, u, r.value.value)
      ensures r == Ok(None) ==>
        TurnedAway(etcd.cfg, etcd.log, |old(etcd.log.run.actions)|, |etcd.log.run.actions|,
                   Mutation.Allocate(u, slot, id))
      ensures r.Err? ==> SearchExcused(etcd.cfg, old(etcd.log), etcd.log, latched, u, None, r.error)
    {
      ghost var start := etcd.log;
      ghost var sends := Mutations(Exactly(Mutation.Allocate(u, slot, id)));
      var first := AttemptSlot(u, slot, id, false);
      if first.Some? {
        return first.value;
      }
      ghost var mid := etcd.log;
      var second := AttemptSlot(u, slot, id, true);
      RanThen(start, mid, etcd.log, sends, sends, sends);
      r := second.value;
      if r.Err? {
        SearchExcusedFrom(etcd.cfg, start, mid, etcd.log, latched, u, None, None, r.error);
      } else if r.value.Some? {
        AllocationSeenEarlier(etcd.log.run, |mid.run.states| - 1, |start.run.states| - 1, u, r.value.value);
      } else {
        RefusedTwice(etcd.cfg, start, mid, etcd.log, Mutation.Allocate(u, slot, id));
      }
    }

    /** One transaction for one slot; `None` asks for another under the health record just adopted. */
    method AttemptSlot(u: Uuid, slot: nat, id: Uuid, last: bool) returns (done: Option<Result<Option<Assignment>>>)
      requires Valid() && healthRaw.Some? && slot < etcd.cfg.count
      modifies this, etcd
      ensures Valid() && healthRaw.Some? && (last ==> done.Some?)
      ensures Ran(old(etcd.log), etcd.log, Mutations(Exactly(Mutation.Allocate(u, slot, id))))
      ensures done.Some? && done.value.Ok? && done.value.value.Some? ==>
        var a := done.value.value.value;
        && a.gen.slot == slot && a.gen.allocation == id
        && AllocationSeen(etcd.log.run, |old(etcd.log.run.states)| - 1, u, a)
      ensures done.None? || done == Some(Ok(None)) ==>
        exists g :: RefusedUnder(etcd.cfg, etcd.log, |old(etcd.log.run.actions)|, Mutation.Allocate(u, slot, id), g)
      ensures done == Some(Ok(None)) && !last ==>
        TurnedAway(etcd.cfg, etcd.log, |old(etcd.log.run.actions)|, |etcd.log.run.actions|,
                   Mutation.Allocate(u, slot, id))
      ensures done.Some? && done.value.Err? ==>
        SearchExcused(etcd.cfg, old(etcd.log), etcd.log, latched, u, None, done.value.error)
    {
      ghost var start := etcd.log;
      var m := Mutation.Allocate(u, slot, id);
      var health := healthRaw.value;
      var sent := Transact(m);
      ghost var mid := etcd.log;
      if sent.Err? || sent.value {
        var confirmed := ConfirmAllocation(u, slot, id, sent.Ok?, start);
        RanThen(start, mid, etcd.log, Mutations(Exactly(m)), Silence, Mutations(Exactly(m)));
        return Some(confirmed);
      }
      if last {
        return Some(Ok(None));
      }
      done := RenewHealth(m, Guard(health, healthLease), start);
      RanThen(start, mid, etcd.log, Mutations(Exactly(m)), Silence, Mutations(Exactly(m)));
    }

    /** After a refused allocation: only a newer health record is worth another try. */
    method RenewHealth(m: Mutation, g: Guard, ghost start: Log)
      returns (done: Option<Result<Option<Assignment>>>)
      requires Valid() && healthRaw.Some? && |start.run.actions| <= |etcd.log.run.actions| && m.Allocate?
      requires NotesGrow(start.notes, etcd.log.notes)
      requires RefusedUnder(etcd.cfg, etcd.log, |start.run.actions|, m, g)
      modifies this, etcd
      ensures Valid() && healthRaw.Some? && Ran(old(etcd.log), etcd.log, Silence)
      ensures RefusedUnder(etcd.cfg, etcd.log, |start.run.actions|, m, g)
      ensures done.Some? ==> done.value.Err? || done.value.value.None?
      ensures done == Some(Ok(None)) ==>
        TurnedAway(etcd.cfg, etcd.log, |start.run.actions|, |etcd.log.run.actions|, m)
      ensures done.Some? && done.value.Err? ==>
        SearchExcused(etcd.cfg, start, etcd.log, latched, m.instance, None, done.value.error)
    {
      ghost var mid := etcd.log;
      var renewed := RefreshFleetReadGuard(g.health);
      RefusedUnderStays(etcd.cfg, mid, etcd.log, |start.run.actions|, |start.run.actions|, m, g);
      if renewed == Ok(false) {
        RefusedAndKept(etcd.cfg, mid, etcd.log, |start.run.actions|, m, g, healthLease);
      }
      done := if renewed.Err? then Some(Err(renewed.error))
              else if renewed.value then None
              else Some(Ok(None));
    }

    /** The read that settles an allocation whose answer was a success or was lost. */
    method ConfirmAllocation(u: Uuid, slot: nat, id: Uuid, certain: bool, ghost start: Log)
      returns (r: Result<Option<Assignment>>)
      requires Valid() && healthRaw.Some? && |start.run.actions| <= |etcd.log.run.actions|
      requires NotesGrow(start.notes, etcd.log.notes)
      requires if certain then CommittedAs(etcd.cfg, etcd.log, |start.run.actions|, Mutation.Allocate(u, slot, id))
               else LeftOpen(start, etcd.log, Mutation.Allocate(u, slot, id))
      modifies this, etcd
      ensures Valid() && healthRaw.Some? && Ran(old(etcd.log), etcd.log, Silence)
      ensures r.Ok? ==>
        && r.value.Some? && r.value.value.gen.slot == slot && r.value.value.gen.allocation == id
        && AllocationSeen(etcd.log.run, |start.run.actions|, u, r.value.value)
      ensures r.Err? ==> SearchExcused(etcd.cfg, start, etcd.log, latched, u, None, r.error)
    {
      ghost var mid := etcd.log;
      var m := Mutation.Allocate(u, slot, id);
      var read := GetAllocatable(u);
      if read.Err? {
        SearchExcusedFrom(etcd.cfg, start, mid, etcd.log, latched, u, None, None, read.error);
        return Err(read.error);
      }
      var v := read.value;
      if certain {
        CommitThenView(etcd.cfg, mid, etcd.log, |start.run.actions|, m, u, v);
      }
      SettledView(etcd.cfg, start, mid, etcd.log, m, u, Reread(certain, v));
      if Stands(m, v) {
        SawEarlier(etcd.log.run, |mid.run.states| - 1, |start.run.actions|, u, v);
        return Ok(Some(v.assignment));
      }
      r := Err(if certain then Integrity else Backend);
    }

    /** Is the slot free right now? A free slot is worth a transaction. */
    method SlotIsFree(u: Uuid, slot: nat) returns (r: Result<bool>)
      requires Valid() && healthRaw.Some?
      modifies this, etcd
      ensures Valid() && healthRaw.Some? && Ran(old(etcd.log), etcd.log, Silence)
      ensures r == Ok(false) ==> SlotSeen(etcd.log.run, |old(etcd.log.run.states)| - 1, slot)
      ensures r == Ok(true) ==> SlotFree(etcd.log.run, |old(etcd.log.run.states)| - 1, slot)
      ensures r.Err? ==> SearchExcused(etcd.cfg, old(etcd.log), etcd.log, latched, u, None, r.error)
    {
      var read := ReadExact({SlotKey(slot)});
      if read.Err? {
        return Err(read.error);
      }
      ghost var i: nat :| |old(etcd.log.run.states)| - 1 <= i && ReadAt(etcd.log.run, i, {SlotKey(slot)}, read.value);
      if SlotKey(slot) !in read.value {
        return Ok(true);
      }
      RunKeepsInv(etcd.cfg, etcd.log.run, i);
      var raw := read.value[SlotKey(slot)].raw;
      assert RecordOk(etcd.cfg, SlotKey(slot), raw);
      if !raw.AssignmentRecord? || !GenerationOk(etcd.cfg, raw.assignment.gen) || raw.assignment.gen.slot != slot {
        return Err(Integrity);
      }
      r := Ok(false);
    }

    /** Probe one slot; `None` when the search must go on. */
    method ProbeOnce(u: Uuid, slot: nat, preferred: Option<nat>, id: Uuid)
      returns (done: Option<Result<Assignment>>, ghost c: nat)
      requires Valid() && healthRaw.Some? && slot < etcd.cfg.count && (preferred.Some? ==> preferred.value == slot)
      modifies this, etcd
      ensures Valid() && healthRaw.Some?
      ensures Ran(old(etcd.log), etcd.log, Mutations(Exactly(Mutation.Allocate(u, slot, id))))
      ensures done.Some? && done.value.Ok? ==>
        && AllocationSeen(etcd.log.run, |old(etcd.log.run.states)| - 1, u, done.value.value)
        && (preferred.Some? ==> done.value.value.gen.slot == slot)
      ensures done.Some? && done.value.Err? ==>
        || SearchExcused(etcd.cfg, old(etcd.log), etcd.log, latched, u, preferred, done.value.error)
        || TakenSince(old(etcd.log), etcd.log, slot, preferred, done.value.error)
      ensures done.None? ==>
        && preferred.None? && SlotSeen(etcd.log.run, |old(etcd.log.run.states)| - 1, slot)
        && (SentFor(etcd.log, |old(etcd.log.run.actions)|, None)
            || Checkpoint(etcd.log, |old(etcd.log.run.states)| - 1, c, u))
    {
      c := 0;
      ghost var start := etcd.log;
      ghost var sends := Mutations(Exactly(Mutation.Allocate(u, slot, id)));
      var free := SlotIsFree(u, slot);
      ghost var mid := etcd.log;
      RanWithin(start, mid, Silence, sends);
      if free.Err? {
        SearchExcusedFrom(etcd.cfg, start, start, mid, latched, u, None, preferred, free.error);
        return Some(Err(free.error)), 0;
      }
      if !free.value {
        NothingSent(start, mid, Silence);
        done := if preferred.Some? then Some(Err(Conflict)) else None;
        return;
      }
      done, c := FillSlot(u, slot, preferred, id);
      RanThen(start, mid, etcd.log, sends, sends, sends);
      ProbedLater(etcd.cfg, start, mid, etcd.log, latched, u, slot, preferred, done, c);
    }

    /** Try a slot that was just seen free. */
    method FillSlot(u: Uuid, slot: nat, preferred: Option<nat>, id: Uuid)
      returns (done: Option<Result<Assignment>>, ghost c: nat)
      requires Valid() && healthRaw.Some? && slot < etcd.cfg.count && (preferred.Some? ==> preferred.value == slot)
      modifies this, etcd
      ensures Valid() && healthRaw.Some?
      ensures Ran(old(etcd.log), etcd.log, Mutations(Exactly(Mutation.Allocate(u, slot, id))))
      ensures Probed(etcd.cfg, old(etcd.log), etcd.log, latched, u, slot, preferred, done, c)
    {
      ghost var start := etcd.log;
      ghost var sends := Mutations(Exactly(Mutation.Allocate(u, slot, id)));
      var tried := TryAllocate(u, slot, id);
      ghost var mid := etcd.log;
      c := 0;
      if tried.Err? {
        SearchExcusedFrom(etcd.cfg, start, start, mid, latched, u, None, preferred, tried.error);
        return Some(Err(tried.error)), 0;
      }
      if tried.value.Some? {
        done := VerifyAllocation(u, tried.value.value, preferred, start);
      } else {
        done, c := AfterRefusal(u, slot, id, preferred, start);
      }
      RanThen(start, mid, etcd.log, sends, Silence, sends);
    }

    /** The last read of a successful allocation. */
    method VerifyAllocation(u: Uuid, a: Assignment, preferred: Option<nat>, ghost start: Log)
      returns (done: Option<Result<Assignment>>)
      requires Valid() && healthRaw.Some? && a.gen.slot >= 0 && (preferred.Some? ==> a.gen.slot == preferred.value)
      requires |start.run.actions| <= |etcd.log.run.actions| && NotesGrow(start.notes, etcd.log.notes)
      requires AllocationSeen(etcd.log.run, |start.run.actions|, u, a)
      modifies this, etcd
      ensures Valid() && healthRaw.Some? && Ran(old(etcd.log), etcd.log, Silence)
      ensures done.Some? && Probed(etcd.cfg, start, etcd.log, latched, u, a.gen.slot, preferred, done, 0)
    {
      ghost var mid := etcd.log;
      var read := GetAllocatable(u);
      if read.Err? {
        SearchExcusedFrom(etcd.cfg, start, mid, etcd.log, latched, u, None, preferred, read.error);
        return Some(Err(read.error));
      }
      var v := read.value;
      SawEarlier(etcd.log.run, |mid.run.states| - 1, |start.run.actions|, u, v);
      if v.NoAllocation? || v.assignment.gen != a.gen {
        AllocationDisplaced(mid.run, etcd.log.run, |start.run.actions|, u, a, v);
        return Some(Err(Integrity));
      }
      done := Some(Ok(v.assignment));
    }

    /** A refused transaction: somebody else won the UUID, or the slot, or etcd is not telling. */
    method AfterRefusal(u: Uuid, slot: nat, ghost id: Uuid, preferred: Option<nat>, ghost start: Log)
      returns (done: Option<Result<Assignment>>, ghost c: nat)
      requires Valid() && healthRaw.Some? && (preferred.Some? ==> preferred.value == slot)
      requires |start.run.actions| <= |etcd.log.run.actions| && NotesGrow(start.notes, etcd.log.notes)
      requires TurnedAway(
                 etcd.cfg, etcd.log, |start.run.actions|, |etcd.log.run.actions|, Mutation.Allocate(u, slot, id))
      modifies this, etcd
      ensures Valid() && healthRaw.Some? && Ran(old(etcd.log), etcd.log, Silence)
      ensures Probed(etcd.cfg, start, etcd.log, latched, u, slot, preferred, done, c)
    {
      ghost var mid := etcd.log;
      c := 0;
      var read := GetAllocatable(u);
      if read.Err? {
        SearchExcusedFrom(etcd.cfg, start, mid, etcd.log, latched, u, None, preferred, read.error);
        return Some(Err(read.error)), 0;
      }
      ghost var seen := etcd.log;
      SawEarlier(seen.run, |mid.run.states| - 1, |start.run.actions|, u, read.value);
      if read.value.View? {
        done := if preferred.Some? && read.value.assignment.gen.slot != slot then Some(Err(Conflict))
                else Some(Ok(read.value.assignment));
        return;
      }
      c :| |mid.run.states| - 1 <= c < |seen.run.states| && ViewAt(seen.run.states[c].db, u, NoAllocation);
      var free := SlotIsFree(u, slot);
      RanThen(mid, seen, etcd.log, Silence, Silence, Silence);
      done := SlotVerdict(preferred, free);
      RefusalSettled(etcd.cfg, start, mid, seen, etcd.log, latched, u, slot, preferred, id, free, c);
    }

    /** The search loop of `allocate`. */
    method SearchSlots(
        u: Uuid, id: Uuid, start: nat, preferred: Option<nat>, ghost from: Log, ghost c0: nat)
      returns (r: Result<Assignment>)
      requires Valid() && healthRaw.Some? && start < etcd.cfg.count
      requires preferred.Some? ==> preferred.value < etcd.cfg.count
      requires |from.run.actions| <= |etcd.log.run.actions| && NotesGrow(from.notes, etcd.log.notes)
      requires Checkpoint(etcd.log, |from.run.actions|, c0, u)
      modifies this, etcd
      ensures Valid()
      ensures Ran(old(etcd.log), etcd.log, Mutations(SlotsFor(u, id)))
      ensures Searched(etcd.cfg, from, etcd.log, latched, u, start, preferred, r)
    {
      ghost var begin := etcd.log;
      ghost var sends := Mutations(SlotsFor(u, id));
      var limit := if preferred.Some? then 1 else etcd.cfg.count;
      var offset := 0;
      ghost var c := c0;
      while offset < limit
        invariant Valid() && healthRaw.Some? && 0 <= offset <= limit
        invariant Ran(begin, etcd.log, sends)
        invariant preferred.Some? ==> offset == 0
        invariant SearchedTo(etcd.cfg, from, etcd.log, u, start, offset, c)
      {
        var slot := if preferred.Some? then preferred.value else ProbeSlot(etcd.cfg, start, offset);
        ghost var before := etcd.log;
        var done: Option<Result<Assignment>>;
        ghost var c1: nat;
        done, c1 := ProbeOnce(u, slot, preferred, id);
        RanThen(begin, before, etcd.log, sends, Mutations(Exactly(Mutation.Allocate(u, slot, id))), sends);
        if done.Some? {
          ProbeEnds(etcd.cfg, from, before, etcd.log, latched, u, start, offset, c, slot, preferred, done.value, id);
          return done.value;
        }
        c := ProbeGoesOn(etcd.cfg, from, before, etcd.log, u, start, offset, c, slot, c1, id);
        offset := offset + 1;
      }
      r := Err(Exhausted);
    }

    /** `allocate`: what a caller gets is spelled out in `AllocateOutcome` and `AllocateExcused`. */
    method AllocateRange(u: Uuid, base: Option<int>, size: Option<int>) returns (r: Result<Assignment>)
      requires Valid()
      modifies this, etcd
      ensures Valid()
      ensures Ran(old(etcd.log), etcd.log, AuditsAnd(token, Allocations(u)))
      ensures AllocateOutcome(
                etcd.cfg, etcd.log, |old(etcd.log.run.actions)|, u, base, digest(u) % etcd.cfg.count, r)
      ensures r.Err? && r.error != Exhausted ==>
        AllocateExcused(etcd.cfg, old(etcd.log), etcd.log, latched, u, base, size, r.error)
    {
      ghost var start := etcd.log;
      var current := BeginAllocate(u);
      ghost var mid := etcd.log;
      RanWithin(start, mid, Audits(token), AuditsAnd(token, Allocations(u)));
      if current.Err? {
        return Err(current.error);
      }
      PreferenceExact(etcd.cfg, base, size);
      var preferred := PreferredChoice(etcd.cfg, base, size);
      if preferred.Err? {
        return Err(preferred.error);
      }
      if current.value.View? {
        NothingSent(start, mid, Audits(token));
        r := if preferred.value.Some? && current.value.assignment.gen.slot != preferred.value.value
             then Err(Conflict) else Ok(current.value.assignment);
        assert preferred.value.Some? && current.value.assignment.gen.slot != preferred.value.value ==>
          Unavailable(mid, |start.run.actions|, u, preferred.value);
        AlreadyThere(
          etcd.cfg, mid, |start.run.actions|, u, current.value, base, size, digest(u) % etcd.cfg.count);
        return;
      }
      r := AllocateAbsent(u, base, size, preferred.value, start);
      RanThen(
        start, mid, etcd.log, AuditsAnd(token, Allocations(u)), Mutations(Allocations(u)),
        AuditsAnd(token, Allocations(u)));
    }

    /** The search for an instance that was just seen unallocated. */
    method AllocateAbsent(
        u: Uuid, base: Option<int>, size: Option<int>, preferred: Option<nat>, ghost start: Log)
      returns (r: Result<Assignment>)
      requires Valid() && healthRaw.Some? && PreferredChoice(etcd.cfg, base, size) == Ok(preferred)
      requires Ran(start, etcd.log, Audits(token)) && |start.run.states| == |start.run.actions| + 1
      requires Saw(etcd.log.run, |start.run.states| - 1, u, NoAllocation)
      modifies this, etcd
      ensures Valid() && Ran(old(etcd.log), etcd.log, Mutations(Allocations(u)))
      ensures AllocateOutcome(
                etcd.cfg, etcd.log, |start.run.actions|, u, base, digest(u) % etcd.cfg.count, r)
      ensures r.Err? && r.error != Exhausted ==>
        AllocateExcused(etcd.cfg, start, etcd.log, latched, u, base, size, r.error)
    {
      ghost var mid := etcd.log;
      var id: Uuid := *;
      ghost var c: nat :|
        |start.run.actions| <= c < |mid.run.states| && ViewAt(mid.run.states[c].db, u, NoAllocation);
      NothingSent(start, mid, Audits(token));
      SentForLater(mid, |start.run.actions|, c);
      PreferenceExact(etcd.cfg, base, size);
      r := SearchSlots(u, id, digest(u) % etcd.cfg.count, preferred, start, c);
      SearchAllowed(mid, etcd.log, u, id);
      SearchConcludes(
        etcd.cfg, mid, etcd.log, |start.run.actions|, u, id, base, size, digest(u) % etcd.cfg.count, r);
      RanWithin(mid, etcd.log, Mutations(SlotsFor(u, id)), Mutations(Allocations(u)));
    }

    /** The checks and the first read of `allocate`. */
    method BeginAllocate(u: Uuid) returns (r: Result<View>)
      requires Valid()
      modifies this, etcd
      ensures Valid() && Ran(old(etcd.log), etcd.log, Audits(token))
      ensures r.Ok? ==>
        && healthRaw.Some?
        && Saw(etcd.log.run, |old(etcd.log.run.states)| - 1, u, r.value) && ViewParses(etcd.cfg, u, r.value)
        && (r.value.View? ==> r.value.intent.None?)
      ensures r.Err? ==> SearchExcused(etcd.cfg, old(etcd.log), etcd.log, latched, u, None, r.error)
    {
      ghost var start := etcd.log;
      var ready := EnsureInitialized();
      if ready.Err? {
        return Err(ready.error);
      }
      ghost var mid := etcd.log;
      r := GetAllocatable(u);
      RanThen(start, mid, etcd.log, Audits(token), Silence, Audits(token));
      if r.Err? {
        SearchExcusedFrom(etcd.cfg, start, mid, etcd.log, latched, u, None, None, r.error);
      } else {
        SawEarlier(etcd.log.run, |mid.run.states| - 1, |start.run.states| - 1, u, r.value);
      }
    }
  }
}
