/**
 * The shared store as one client sees it: between any two of its requests
 * every other client may act, and each request may be lost before or after
 * etcd executes it.
 *
 * The store records its whole history as a run of the fleet machine, together
 * with which actions this client sent, so that a client method can state what
 * was true at which revision.
 */
module Etcd {
  import opened Wrappers
  import opened Records
  import opened Store
  import opened Registry
  import opened AuditSpec
  import opened Audit
  import opened Fleet
  import opened Runs
  import opened Traffic

  /** `Permitted` as a check that can be executed. */
  predicate MaySend(cfg: Config, f: Fleet, a: Action) {
    match a
    case Mutate(m, g) => Admissible(cfg, m) && HealthyGuard(g)
    case Grant(lease) => lease > 0 && lease !in f.granted
    case Expire(lease) => lease in f.live
    case Acquire(_, round, lease, stale) =>
      && lease in f.granted && round !in f.rounds
      && (stale.Some? ==> stale.value.CoordinatorRecord?)
    case PassAudit(round) => round in f.acquired && Accepts(cfg, f.db)
    case Promote(owner, round, lease, seen) =>
      && round !in f.rounds && lease > 0
      && seen.CoordinatorRecord? && seen.owner == owner
      && (seen.state.Healthy? || seen.round in f.passed)
    case Demote(owner, round, lease, seen) =>
      && round !in f.rounds && lease > 0
      && seen.CoordinatorRecord? && seen.owner == owner && seen.state.Healthy?
    case Refresh(_, seen) => seen.CoordinatorRecord? && seen.state.Healthy?
    case PublishFailure(_, _) => true
  }

  lemma MaySendExactly(cfg: Config, f: Fleet, a: Action)
    ensures MaySend(cfg, f, a) <==> Permitted(cfg, f, a)
  {
    AcceptsExactly(cfg, f.db);
  }

  /** A mutation whose answer was lost, and how many actions the run had by then. */
  datatype Unanswered = Unanswered(m: Mutation, at: nat)

  /**
   * What this client met on the way: how many requests other than mutations, or
   * their answers, were lost; how many answers showed no healthy auditor; how
   * many reads were refused because the health record in use had moved on; the
   * mutations without an answer; and whether an answer showed a failure record
   * or a registry that is not in order.
   */
  datatype Notes = Notes(lost: nat, unhealthy: nat, stale: nat, unanswered: seq<Unanswered>, alarmed: bool)

  /** The run so far, which of its actions this client sent, and what it met. */
  datatype Log = Log(run: Run, own: seq<bool>, notes: Notes)

  ghost predicate NotesGrow(n: Notes, n': Notes) {
    && n.lost <= n'.lost && n.unhealthy <= n'.unhealthy && n.stale <= n'.stale
    && n.unanswered <= n'.unanswered && (n.alarmed ==> n'.alarmed)
  }

  ghost predicate LostMessage(l: Log, l': Log) {
    l.notes.lost < l'.notes.lost
  }

  ghost predicate Troubled(l: Log, l': Log) {
    LostMessage(l, l') || l.notes.unhealthy < l'.notes.unhealthy || l.notes.stale < l'.notes.stale
  }

  /** A read of the coordinator record that found a leased healthy one. */
  predicate ShowsHealth(vals: Db) {
    && CoordinatorKey in vals && vals[CoordinatorKey].lease != 0
    && vals[CoordinatorKey].raw.CoordinatorRecord? && vals[CoordinatorKey].raw.state.Healthy?
  }

  /** What a read of these keys with these values teaches. */
  ghost function Learn(n: Notes, keys: set<Key>, vals: Db): Notes {
    n.(unhealthy := n.unhealthy + (if CoordinatorKey in keys && !ShowsHealth(vals) then 1 else 0),
       alarmed := n.alarmed || FailureKey in vals
                  || (ConfigKey in keys && (ConfigKey !in vals || !vals[ConfigKey].raw.ConfigRecord?)))
  }

  function LastState(l: Log): Fleet
    requires |l.run.states| > 0
  {
    l.run.states[|l.run.states| - 1]
  }

  /** What processes know about leases and finished audits never shrinks. */
  ghost predicate Learnt(f: Fleet, f': Fleet) {
    f.granted <= f'.granted && f.passed <= f'.passed && f.acquired.Keys <= f'.acquired.Keys
  }

  /** Everything that this client sent from action `n` on is within the bound. */
  ghost predicate SentWithin(l: Log, n: nat, t: Traffic)
    requires |l.own| == |l.run.actions|
  {
    forall k | n <= k < |l.run.actions| && l.own[k] :: Allows(t, l.run.actions[k])
  }

  /**
   * The history only grew from `l` to `l'`, and everything that this client
   * sent in between satisfies `ok`.
   */
  ghost predicate Ran(l: Log, l': Log, t: Traffic) {
    && 0 < |l.run.states| && |l.run.states| == |l.run.actions| + 1 && |l'.own| == |l'.run.actions|
    && l.run.states <= l'.run.states && l.run.actions <= l'.run.actions && l.own <= l'.own
    && Learnt(LastState(l), LastState(l')) && NotesGrow(l.notes, l'.notes)
    && SentWithin(l', |l.run.actions|, t)
  }

  /** Two stretches of history, each within its bound, are one within a wider bound. */
  lemma RanThen(l: Log, mid: Log, l': Log, s: Traffic, s': Traffic, t: Traffic)
    requires Ran(l, mid, s) && Ran(mid, l', s') && Narrower(s, t) && Narrower(s', t)
    ensures Ran(l, l', t)
  {
    forall k | |l.run.actions| <= k < |l'.run.actions| && l'.own[k] ensures Allows(t, l'.run.actions[k]) {
      if k < |mid.run.actions| {
        assert l'.own[k] == mid.own[k] && l'.run.actions[k] == mid.run.actions[k];
        NarrowerAllows(s, t, l'.run.actions[k]);
      } else {
        NarrowerAllows(s', t, l'.run.actions[k]);
      }
    }
  }

  lemma RanWithin(l: Log, l': Log, s: Traffic, t: Traffic)
    requires Ran(l, l', s) && Narrower(s, t)
    ensures Ran(l, l', t)
  {
    forall k | |l.run.actions| <= k < |l'.run.actions| && l'.own[k] ensures Allows(t, l'.run.actions[k]) {
      NarrowerAllows(s, t, l'.run.actions[k]);
    }
  }

  /** This client's refresh of this lease reached etcd. */
  ghost predicate RefreshedSince(l: Log, from: nat, lease: LeaseId, seen: Raw)
    requires |l.own| == |l.run.actions|
  {
    exists k: nat :: from <= k < |l.run.actions| && l.own[k] && l.run.actions[k] == Refresh(lease, seen)
  }

  predicate ControlAction(a: Action) {
    a.Acquire? || a.Promote? || a.Demote? || a.PublishFailure?
  }

  /** The coordinator or failure write takes effect in this state. */
  predicate ControlTakesEffect(cfg: Config, f: Fleet, a: Action)
    requires ControlAction(a)
  {
    match a
    case PublishFailure(reporter, reason) => Commits(f.db, PublishTxn(cfg, reporter, reason))
    case Acquire(owner, round, lease, stale) => Elected(cfg, f, a)
    case Promote(owner, round, lease, seen) =>
      lease in f.live
      && Commits(f.db, ReplaceCoordinator(cfg, Some(seen), lease, CoordinatorRecord(owner, Healthy, round), lease))
    case Demote(owner, round, lease, seen) =>
      lease in f.live
      && Commits(f.db, ReplaceCoordinator(cfg, Some(seen), lease, CoordinatorRecord(owner, Pending, round), lease))
  }

  /** A control write of this client took effect as the `i`-th action. */
  ghost predicate WroteControl(cfg: Config, l: Log, i: nat, a: Action)
    requires ValidRun(cfg, l.run) && |l.own| == |l.run.actions| && ControlAction(a)
  {
    i < |l.run.actions| && l.own[i] && l.run.actions[i] == a && ControlTakesEffect(cfg, l.run.states[i], a)
  }

  /** A control write of this client was executed as the `i`-th action, with this outcome. */
  ghost predicate SentControl(cfg: Config, l: Log, i: nat, a: Action, ok: bool)
    requires ValidRun(cfg, l.run) && |l.own| == |l.run.actions| && ControlAction(a)
  {
    && i < |l.run.actions| && l.own[i] && l.run.actions[i] == a
    && (ok <==> ControlTakesEffect(cfg, l.run.states[i], a))
  }

  lemma SentControlStays(cfg: Config, l: Log, l': Log, i: nat, a: Action, ok: bool)
    requires ValidRun(cfg, l.run) && |l.own| == |l.run.actions| && ControlAction(a)
    requires ValidRun(cfg, l'.run) && |l'.own| == |l'.run.actions|
    requires l.run.states <= l'.run.states && l.run.actions <= l'.run.actions && l.own <= l'.own
    requires SentControl(cfg, l, i, a, ok)
    ensures SentControl(cfg, l', i, a, ok)
  {
    assert l'.run.states[i] == l.run.states[i];
    assert l'.run.actions[i] == l.run.actions[i] && l'.own[i] == l.own[i];
  }

  /** A failure publication that is executed leaves a failure record, its own or an earlier one. */
  lemma FailureStands(cfg: Config, r: Run, i: nat)
    requires ValidRun(cfg, r) && i < |r.actions| && r.actions[i].PublishFailure?
    ensures FailureKey in r.states[i + 1].db
  {
    RunKeepsInv(cfg, r, i);
    assert Stepped(cfg, r, i);
    var db := r.states[i].db;
    assert RecordOk(cfg, ConfigKey, db[ConfigKey].raw);
    var t := PublishTxn(cfg, r.actions[i].reporter, r.actions[i].reason);
    if FailureKey in db {
      assert Absent(FailureKey) in t.compares && !Holds(db, Absent(FailureKey));
    }
  }

  /** This client's mutation was executed as the `i`-th action, with this outcome. */
  ghost predicate DeliveredAt(cfg: Config, l: Log, i: nat, m: Mutation, g: Guard, committed: bool)
    requires ValidRun(cfg, l.run) && |l.own| == |l.run.actions|
  {
    && i < |l.run.actions| && l.own[i] && l.run.actions[i] == Mutate(m, g)
    && (committed <==> CommitsAt(cfg, l.run, i))
  }

  lemma DeliveredStays(cfg: Config, l: Log, l': Log, i: nat, m: Mutation, g: Guard, committed: bool)
    requires ValidRun(cfg, l.run) && |l.own| == |l.run.actions|
    requires ValidRun(cfg, l'.run) && |l'.own| == |l'.run.actions|
    requires l.run.states <= l'.run.states && l.run.actions <= l'.run.actions && l.own <= l'.own
    requires DeliveredAt(cfg, l, i, m, g, committed)
    ensures DeliveredAt(cfg, l', i, m, g, committed)
  {
    assert l'.run.states[i] == l.run.states[i];
    assert l'.run.actions[i] == l.run.actions[i] && l'.own[i] == l.own[i];
  }

  /** The values of `keys` in one store; absent keys are left out. */
  ghost predicate Reads(db: Db, keys: set<Key>, vals: Db) {
    && vals.Keys <= keys
    && forall k | k in keys :: (k in vals <==> k in db) && (k in vals ==> vals[k] == db[k])
  }

  /** The verified health record and its lease are what the store has, and no failure is published. */
  predicate GuardStood(cfg: Config, db: Db, g: Guard) {
    Commits(db, Txn(GuardCompares(cfg, g), map[], {}))
  }

  /** Some revision from `from` on had exactly these values. */
  ghost predicate ReadAt(r: Run, i: nat, keys: set<Key>, vals: Db) {
    i < |r.states| && Reads(r.states[i].db, keys, vals)
  }

  /** The outcome of one request: no answer, or the answer of a single revision. */
  datatype Reply<T> = Lost | Answer(value: T)

  class Etcd {
    const cfg: Config
    var fleet: Fleet
    ghost var log: Log

    ghost predicate Valid()
      reads this
    {
      && ValidRun(cfg, log.run) && |log.own| == |log.run.actions|
      && fleet == LastState(log)
    }

    constructor (cfg: Config)
      ensures Valid() && this.cfg == cfg && log == Log(Run([Boot(cfg)], []), [], Notes(0, 0, 0, [], false))
    {
      this.cfg := cfg;
      fleet := Boot(cfg);
      log := Log(Run([Boot(cfg)], []), [], Notes(0, 0, 0, [], false));
    }

    /** Execute one action at the current revision. */
    method Execute(a: Action, ghost mine: bool)
      requires Valid() && Permitted(cfg, fleet, a)
      modifies this
      ensures Valid()
      ensures log == Log(Run(old(log.run.states) + [Step(cfg, old(fleet), a)], old(log.run.actions) + [a]),
                         old(log.own) + [mine], old(log.notes))
      ensures Ran(old(log), log, if mine then Only(a) else Silence)
    {
      ghost var before := fleet;
      match a {
        case Mutate(m, g) => fleet := fleet.(db := Submit(fleet.db, Compile(cfg, m, g)));
        case Grant(lease) =>
          fleet := fleet.(live := fleet.live + {lease}, granted := fleet.granted + {lease});
        case Expire(lease) => fleet := fleet.(live := fleet.live - {lease}, db := DropLease(fleet.db, lease));
        case Acquire(owner, round, lease, stale) =>
          var t := ReplaceCoordinator(cfg, stale, 0, CoordinatorRecord(owner, Pending, round), lease);
          var elected := lease in fleet.live && Commits(fleet.db, t);
          fleet := fleet.(
            db := SubmitLeased(fleet, t, lease), rounds := fleet.rounds + {round},
            acquired := if elected then fleet.acquired[round := lease] else fleet.acquired);
        case PassAudit(round) => fleet := fleet.(passed := fleet.passed + {round});
        case Promote(owner, round, lease, seen) =>
          var t := ReplaceCoordinator(cfg, Some(seen), lease, CoordinatorRecord(owner, Healthy, round), lease);
          fleet := fleet.(db := SubmitLeased(fleet, t, lease), rounds := fleet.rounds + {round});
        case Demote(owner, round, lease, seen) =>
          var t := ReplaceCoordinator(cfg, Some(seen), lease, CoordinatorRecord(owner, Pending, round), lease);
          fleet := fleet.(db := SubmitLeased(fleet, t, lease), rounds := fleet.rounds + {round});
        case Refresh(_, _) =>
        case PublishFailure(reporter, reason) =>
          fleet := fleet.(db := Submit(fleet.db, PublishTxn(cfg, reporter, reason)));
      }
      assert fleet == Step(cfg, before, a);
      RunExtends(cfg, log.run, a);
      log := Log(Run(log.run.states + [fleet], log.run.actions + [a]), log.own + [mine], log.notes);
    }

    /** What the client learns from an answer, or from its absence. */
    ghost method Note(n: Notes)
      requires Valid() && NotesGrow(log.notes, n)
      modifies this`log
      ensures Valid() && log == old(log).(notes := n)
    {
      log := log.(notes := n);
    }

    ghost method NoteLost()
      requires Valid()
      modifies this`log
      ensures Valid() && log == old(log).(notes := old(log).notes.(lost := old(log).notes.lost + 1))
    {
      Note(log.notes.(lost := log.notes.lost + 1));
    }

    /** Every other client does whatever it may, any number of times. */
    method Interfere()
      requires Valid()
      modifies this
      ensures Valid() && Ran(old(log), log, Silence) && log.notes == old(log.notes)
    {
      var steps: nat := *;
      while steps > 0
        invariant Valid() && Ran(old(log), log, Silence) && log.notes == old(log.notes)
      {
        var a: Action := *;
        MaySendExactly(cfg, fleet, a);
        if MaySend(cfg, fleet, a) {
          Execute(a, false);
        }
        steps := steps - 1;
      }
    }

    /** One linearizable read of some keys. */
    method Range(keys: set<Key>) returns (reply: Reply<Db>)
      requires Valid()
      modifies this
      ensures Valid() && Ran(old(log), log, Silence)
      ensures reply.Answer? ==>
        exists i: nat :: |old(log.run.states)| - 1 <= i && ReadAt(log.run, i, keys, reply.value)
      ensures reply.Lost? ==> log.notes == old(log.notes).(lost := old(log.notes).lost + 1)
      ensures reply.Answer? ==> log.notes == Learn(old(log.notes), keys, reply.value)
    {
      Interfere();
      var lost: bool := *;
      if lost {
        NoteLost();
        return Lost;
      }
      var vals := map k | k in keys && k in fleet.db :: fleet.db[k];
      Note(Learn(log.notes, keys, vals));
      reply := Answer(vals);
      assert ReadAt(log.run, |log.run.states| - 1, keys, vals);
    }

    /** A read that etcd answers only while the guard still holds. */
    method GuardedRange(g: Guard, keys: set<Key>) returns (reply: Reply<Option<Db>>)
      requires Valid()
      modifies this
      ensures Valid() && Ran(old(log), log, Silence)
      ensures reply.Answer? && reply.value.Some? ==>
        exists i: nat :: |old(log.run.states)| - 1 <= i && ReadAt(log.run, i, keys, reply.value.value)
                         && GuardStood(cfg, log.run.states[i].db, g)
      ensures reply.Lost? ==> log.notes == old(log.notes).(lost := old(log.notes).lost + 1)
      ensures reply.Answer? ==>
        log.notes == old(log.notes).(stale := old(log.notes).stale + (if reply.value.None? then 1 else 0))
    {
      Interfere();
      var lost: bool := *;
      if lost {
        NoteLost();
        return Lost;
      }
      if !Commits(fleet.db, Txn(GuardCompares(cfg, g), map[], {})) {
        Note(log.notes.(stale := log.notes.stale + 1));
        return Answer(None);
      }
      var vals := map k | k in keys && k in fleet.db :: fleet.db[k];
      reply := Answer(Some(vals));
      assert ReadAt(log.run, |log.run.states| - 1, keys, vals);
    }

    /** A mutation that arrives is executed once. */
    method Deliver(m: Mutation, g: Guard) returns (committed: bool)
      requires Valid() && Admissible(cfg, m) && HealthyGuard(g)
      modifies this
      ensures Valid() && Ran(old(log), log, Only(Mutate(m, g))) && log.notes == old(log.notes)
      ensures DeliveredAt(cfg, log, |old(log.run.actions)|, m, g, committed)
    {
      committed := Commits(fleet.db, Compile(cfg, m, g));
      Execute(Mutate(m, g), true);
    }

    /**
     * One delivery attempt of a mutation. It may not arrive; if it arrives,
     * the answer may still be lost, and others may act before the client sees it.
     */
    method Send(m: Mutation, g: Guard) returns (reply: Reply<bool>)
      requires Valid() && Admissible(cfg, m) && HealthyGuard(g)
      modifies this
      ensures Valid() && Ran(old(log), log, Only(Mutate(m, g)))
      ensures reply.Answer? ==>
        exists i: nat :: |old(log.run.actions)| <= i && DeliveredAt(cfg, log, i, m, g, reply.value)
      ensures reply.Answer? ==> log.notes == old(log.notes)
      ensures reply.Lost? ==>
        log.notes == old(log.notes).(
          unanswered := old(log.notes).unanswered + [Unanswered(m, |log.run.actions|)])
    {
      Interfere();
      var arrives: bool := *;
      if !arrives {
        Note(log.notes.(unanswered := log.notes.unanswered + [Unanswered(m, |log.run.actions|)]));
        return Lost;
      }
      ghost var i := |log.run.actions|;
      var committed := Deliver(m, g);
      ghost var before := log;
      Interfere();
      DeliveredStays(cfg, before, log, i, m, g, committed);
      var lost: bool := *;
      if lost {
        Note(log.notes.(unanswered := log.notes.unanswered + [Unanswered(m, |log.run.actions|)]));
        return Lost;
      }
      reply := Answer(committed);
    }

    // ---- leases, the coordinator and the failure record -----------------------------

    /** Ask for a fresh lease. */
    method GrantLease() returns (reply: Reply<LeaseId>)
      requires Valid()
      modifies this
      ensures Valid() && Ran(old(log), log, Grants)
      ensures LostMessage(old(log), log) <==> reply.Lost?
      ensures reply.Answer? ==> reply.value > 0 && reply.value in fleet.granted
    {
      Interfere();
      var lease: LeaseId := *;
      MaySendExactly(cfg, fleet, Grant(lease));
      if !MaySend(cfg, fleet, Grant(lease)) {
        NoteLost();
        return Lost;
      }
      Execute(Grant(lease), true);
      reply := Answer(lease);
    }

    /** Best effort; a lease that already lapsed needs nothing. */
    method RevokeLease(lease: LeaseId)
      requires Valid()
      modifies this
      ensures Valid() && Ran(old(log), log, Only(Expire(lease)))
    {
      Interfere();
      var arrives: bool := *;
      if arrives && lease in fleet.live {
        Execute(Expire(lease), true);
      }
    }

    /**
     * Keep a lease alive. The sender has read, at revision `i`, its own healthy
     * record under this lease.
     */
    method RefreshLease(lease: LeaseId, seen: Raw, ghost i: nat) returns (ok: bool)
      requires Valid() && ShownAt(log.run, i, seen, lease) && seen.CoordinatorRecord? && seen.state.Healthy?
      modifies this
      ensures Valid() && Ran(old(log), log, Only(Refresh(lease, seen)))
      ensures ok ==> RefreshedSince(log, |old(log.run.actions)|, lease, seen)
      ensures LostMessage(old(log), log) <==> !ok
    {
      Interfere();
      var arrives: bool := *;
      if arrives {
        ghost var k := |log.run.actions|;
        Execute(Refresh(lease, seen), true);
        assert log.own[k] && log.run.actions[k] == Refresh(lease, seen);
      }
      var answered: bool := *;
      ok := arrives && answered;
      if !ok {
        NoteLost();
      }
    }

    /**
     * One coordinator or failure write. What the sender must know beforehand is
     * its obligation here; only the freshness of the generated round is assumed,
     * by letting a request with a used round go nowhere.
     */
    method SendControl(a: Action) returns (reply: Reply<bool>)
      requires Valid() && ControlAction(a)
      requires a.Acquire? ==>
        a.lease in fleet.granted && (a.stale.Some? ==> a.stale.value.CoordinatorRecord?)
      requires a.Promote? ==>
        a.lease > 0 && a.seen.CoordinatorRecord? && a.seen.owner == a.owner
        && (a.seen.state.Healthy? || a.seen.round in fleet.passed)
      requires a.Demote? ==>
        a.lease > 0 && a.seen.CoordinatorRecord? && a.seen.owner == a.owner && a.seen.state.Healthy?
      modifies this
      ensures Valid() && Ran(old(log), log, Only(a))
      ensures reply.Answer? ==>
        exists i: nat :: |old(log.run.actions)| <= i && SentControl(cfg, log, i, a, reply.value)
      ensures LostMessage(old(log), log) <==> reply.Lost?
    {
      Interfere();
      var arrives: bool := *;
      var unused := a.PublishFailure? || a.round !in fleet.rounds;
      if !arrives || !unused {
        NoteLost();
        return Lost;
      }
      ghost var i := |log.run.actions|;
      var ok := DeliverControl(a);
      ghost var before := log;
      Interfere();
      SentControlStays(cfg, before, log, i, a, ok);
      var lost: bool := *;
      if lost {
        NoteLost();
        return Lost;
      }
      reply := Answer(ok);
    }

    method DeliverControl(a: Action) returns (ok: bool)
      requires Valid() && ControlAction(a) && Permitted(cfg, fleet, a)
      modifies this
      ensures Valid() && Ran(old(log), log, Only(a)) && log.notes == old(log.notes)
      ensures SentControl(cfg, log, |old(log.run.actions)|, a, ok)
    {
      ok := ControlTakesEffect(cfg, fleet, a);
      Execute(a, true);
    }

    /** The audit of an elected round passes at the present revision if the registry is in order. */
    method PassIfInOrder(round: Uuid)
      requires Valid()
      modifies this
      ensures Valid() && Ran(old(log), log, Only(PassAudit(round))) && log.notes == old(log.notes)
      ensures round in old(fleet).acquired && Accepts(cfg, old(fleet).db) ==> round in fleet.passed
    {
      MaySendExactly(cfg, fleet, PassAudit(round));
      if MaySend(cfg, fleet, PassAudit(round)) {
        Execute(PassAudit(round), true);
      }
    }

    /**
     * Read the whole namespace at one revision. When the reader is the elected
     * auditor of `round` and the snapshot is well formed, that revision is where
     * its full audit passes.
     */
    method ScanNamespace(round: Option<Uuid>) returns (reply: Reply<Db>)
      requires Valid()
      modifies this
      ensures Valid() && Ran(old(log), log, if round.Some? then Only(PassAudit(round.value)) else Silence)
      ensures reply.Answer? ==>
        exists i: nat ::
          |old(log.run.states)| - 1 <= i < |log.run.states| && reply.value == Namespace(log.run.states[i].db)
      ensures (reply.Answer? && round.Some? && round.value in old(fleet).acquired && Accepts(cfg, reply.value))
              ==> round.value in fleet.passed
      ensures LostMessage(old(log), log) <==> reply.Lost?
      ensures reply.Answer? && !Accepts(cfg, reply.value) ==> log.notes.alarmed
    {
      Interfere();
      var lost: bool := *;
      if lost {
        NoteLost();
        return Lost;
      }
      var records := Namespace(fleet.db);
      ghost var i: nat := |log.run.states| - 1;
      NamespaceVerdict(cfg, log.run, i);
      if round.Some? {
        PassIfInOrder(round.value);
      }
      if !Accepts(cfg, records) {
        Note(log.notes.(alarmed := true));
      }
      reply := Answer(records);
      assert reply.value == Namespace(log.run.states[i].db);
    }
  }

  /** In a run the control records are always in order, so the namespace decides the audit. */
  lemma NamespaceVerdict(cfg: Config, r: Run, i: nat)
    requires ValidRun(cfg, r) && i < |r.states|
    ensures Accepts(cfg, Namespace(r.states[i].db)) <==> Accepts(cfg, r.states[i].db)
  {
    RunKeepsInv(cfg, r, i);
    var db := r.states[i].db;
    ControlRecordsApart(cfg, db);
  }

  lemma ControlRecordsApart(cfg: Config, db: Db)
    requires CoordinatorKey in db ==> db[CoordinatorKey].raw.CoordinatorRecord?
    requires FailureKey in db ==> db[FailureKey].raw.FailureRecord?
    ensures Accepts(cfg, Namespace(db)) <==> Accepts(cfg, db)
  {
    var ns := Namespace(db);
    forall k | k in ns ensures KeyAccepted(cfg, ns, k) <==> KeyAccepted(cfg, db, k) {
      NamespaceRelations(db, k);
    }
    forall k | k in db && k !in ns ensures KeyAccepted(cfg, db, k) {}
  }

  lemma NamespaceRelations(db: Db, k: Key)
    requires k in Namespace(db)
    ensures RelationsOk(Namespace(db), k) <==> RelationsOk(db, k)
  {}
}
