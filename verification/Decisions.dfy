/**
 * The decisions of the allocator's operations: what each operation makes of
 * the state it read, what it may send, and what its result promises.
 */
module Decisions {
  import opened Wrappers
  import opened Records
  import opened Store
  import opened Registry
  import opened Effects
  import opened Fleet
  import opened Runs
  import opened AuditSpec
  import opened Audit
  import opened Probe
  import opened Traffic
  import opened Etcd
  import opened Reader
  import opened Aftermath
  import opened SlotSearch

  /** One of this client's own mutations was turned away as the `k`-th action. */
  ghost predicate RefusedAt(cfg: Config, l: Log, k: nat)
    requires ValidRun(cfg, l.run) && |l.own| == |l.run.actions|
  {
    k < |l.run.actions| && l.own[k] && l.run.actions[k].Mutate? && !CommitsAt(cfg, l.run, k)
  }

  /** This mutation was turned away under this guard. */
  ghost predicate RefusedUnder(cfg: Config, l: Log, from: nat, m: Mutation, g: Guard)
    requires ValidRun(cfg, l.run) && |l.own| == |l.run.actions|
  {
    exists k: nat :: from <= k && RefusedAt(cfg, l, k) && l.run.actions[k] == Mutate(m, g)
  }

  ghost predicate RefusedSince(cfg: Config, l: Log, from: nat)
    requires ValidRun(cfg, l.run) && |l.own| == |l.run.actions|
  {
    exists k: nat :: from <= k && RefusedAt(cfg, l, k)
  }

  /** The actions since `from` in which one of this client's mutations was turned away. */
  ghost function Refusals(cfg: Config, l: Log, from: nat): set<nat>
    requires ValidRun(cfg, l.run) && |l.own| == |l.run.actions|
  {
    set k: nat | from <= k < |l.run.actions| && RefusedAt(cfg, l, k)
  }

  lemma RefusedStaysAt(cfg: Config, l: Log, l': Log, k: nat)
    requires ValidRun(cfg, l.run) && |l.own| == |l.run.actions|
    requires ValidRun(cfg, l'.run) && |l'.own| == |l'.run.actions|
    requires l.run.states <= l'.run.states && l.run.actions <= l'.run.actions && l.own <= l'.own
    requires k < |l.run.actions|
    ensures RefusedAt(cfg, l, k) <==> RefusedAt(cfg, l', k)
  {
    assert l'.run.actions[k] == l.run.actions[k] && l'.run.states[k] == l.run.states[k] && l'.own[k] == l.own[k];
    assert CommitsAt(cfg, l.run, k) <==> CommitsAt(cfg, l'.run, k);
  }

  /** Whatever is turned away later counts on top. */
  lemma RefusalsGrow(cfg: Config, l: Log, l': Log, from: nat)
    requires ValidRun(cfg, l.run) && |l.own| == |l.run.actions|
    requires ValidRun(cfg, l'.run) && |l'.own| == |l'.run.actions|
    requires l.run.states <= l'.run.states && l.run.actions <= l'.run.actions && l.own <= l'.own
    requires from <= |l.run.actions|
    ensures |Refusals(cfg, l, from)| <= |Refusals(cfg, l', from)|
    ensures RefusedSince(cfg, l', |l.run.actions|) ==> |Refusals(cfg, l, from)| < |Refusals(cfg, l', from)|
  {
    var before, now := Refusals(cfg, l, from), Refusals(cfg, l', from);
    forall k | k in before ensures k in now {
      RefusedStaysAt(cfg, l, l', k);
    }
    SubsetSize(before, now);
    if RefusedSince(cfg, l', |l.run.actions|) {
      var k: nat :| |l.run.actions| <= k && RefusedAt(cfg, l', k);
      SubsetSize(before, now - {k});
    }
  }

  lemma RefusalsFrom(cfg: Config, l: Log, from: nat, from': nat)
    requires ValidRun(cfg, l.run) && |l.own| == |l.run.actions| && from' <= from
    ensures |Refusals(cfg, l, from)| <= |Refusals(cfg, l, from')|
    ensures RefusedSince(cfg, l, from) ==> RefusedSince(cfg, l, from') && |Refusals(cfg, l, from')| > 0
  {
    SubsetSize(Refusals(cfg, l, from), Refusals(cfg, l, from'));
    if RefusedSince(cfg, l, from) {
      var k: nat :| from <= k && RefusedAt(cfg, l, k);
      assert k in Refusals(cfg, l, from');
    }
  }

  /** A lost request, or an answer without a healthy auditor. */
  ghost predicate NoHealth(l: Log, l': Log) {
    LostMessage(l, l') || l.notes.unhealthy < l'.notes.unhealthy
  }

  ghost predicate HealthAgain(r: Run, from: nat, health: Raw) {
    exists lease :: HealthSeen(r, from, health, lease)
  }

  /** Reads were refused twice, or once although the health record used was seen again afterwards. */
  ghost predicate Stuck(health: Raw, l: Log, l': Log) {
    || l.notes.stale + 2 <= l'.notes.stale
    || (l.notes.stale < l'.notes.stale && HealthAgain(l'.run, |l.run.actions|, health))
  }

  /** Why a read behind a health record may fail: there is none, or it cannot be had, or it does not help. */
  ghost predicate Unreadable(health: Option<Raw>, l: Log, l': Log) {
    health.None? || NoHealth(l, l') || Stuck(health.value, l, l')
  }

  /** A mutation of the instance got no answer, and a state seen afterwards does not confirm it. */
  ghost predicate Unconfirmed(l: Log, l': Log, u: Uuid) {
    exists j: nat, v :: |l.notes.unanswered| <= j && UnconfirmedAt(l', j, u, v)
  }

  ghost predicate UnconfirmedAt(l: Log, j: nat, u: Uuid, v: View) {
    && j < |l.notes.unanswered| && SubjectOf(l.notes.unanswered[j].m) == u
    && Saw(l.run, l.notes.unanswered[j].at, u, v) && !Confirms(l.notes.unanswered[j].m, v)
  }

  /** Between `l` and `mid` this mutation was sent without getting an answer. */
  ghost predicate LeftOpen(l: Log, mid: Log, m: Mutation) {
    exists j: nat :: |l.notes.unanswered| <= j && OpenAt(mid, j, m)
  }

  lemma LeftOpenFrom(l: Log, mid: Log, l': Log, m: Mutation)
    requires |l.notes.unanswered| <= |mid.notes.unanswered| && LeftOpen(mid, l', m)
    ensures LeftOpen(l, l', m)
  {
  }

  /** Apart from mutations without an answer, nothing went wrong. */
  ghost predicate SameTrouble(l: Log, l': Log) {
    l'.notes == l.notes.(unanswered := l'.notes.unanswered)
  }

  ghost predicate OpenAt(l: Log, j: nat, m: Mutation) {
    && j < |l.notes.unanswered|
    && l.notes.unanswered[j].m == m && l.notes.unanswered[j].at <= |l.run.actions|
  }

  /** This client's mutation committed since action `from`. */
  ghost predicate CommittedAs(cfg: Config, l: Log, from: nat, m: Mutation)
    requires ValidRun(cfg, l.run) && |l.own| == |l.run.actions|
  {
    exists k: nat :: from <= k && CommitsAt(cfg, l.run, k) && l.own[k] && l.run.actions[k].m == m
  }

  /**
   * Why a call from `l` to `l'` may fail although the state it saw allowed the
   * operation: the process latched, or its own transaction committed and a
   * later revision no longer shows it; the record was rewritten under all
   * sixteen reads, or sixty-four transactions lost their compares; there was
   * trouble on the way, or a transaction without an answer is not confirmed by
   * a state seen afterwards.
   */
  ghost predicate Excused(cfg: Config, l: Log, l': Log, latched: bool, u: Uuid, e: Error)
    requires ValidRun(cfg, l'.run) && |l'.own| == |l'.run.actions|
  {
    match e
    case Integrity => latched || MovedOn(cfg, l', |l.run.actions|, u)
    case Conflict =>
      || Flips(l'.run, |l.run.actions|, u, 16)
      || |Refusals(cfg, l', |l.run.actions|)| >= 64
    case Backend => Troubled(l, l') || Unconfirmed(l, l', u)
    case _ => false
  }

  /** What excuses the last part of a call excuses the call. */
  lemma ExcusedFrom(cfg: Config, l: Log, mid: Log, l': Log, latched: bool, u: Uuid, e: Error)
    requires ValidRun(cfg, l'.run) && |l'.own| == |l'.run.actions|
    requires |l.run.actions| <= |mid.run.actions| && NotesGrow(l.notes, mid.notes)
    ensures Excused(cfg, mid, l', latched, u, e) ==> Excused(cfg, l, l', latched, u, e)
  {
    var from, from' := |mid.run.actions|, |l.run.actions|;
    if Excused(cfg, mid, l', latched, u, e) {
      MovedOnFrom(cfg, l', from, from', u);
      RefusalsFrom(cfg, l', from, from');
      if e.Conflict? && Flips(l'.run, from, u, 16) {
        FlipsStay(l'.run, l'.run, from, from', u, 16);
      }
      if e.Backend? && Unconfirmed(mid, l', u) {
        UnconfirmedFrom(l, mid, l', u);
      }
    }
  }

  lemma UnconfirmedFrom(l: Log, mid: Log, l': Log, u: Uuid)
    requires |l.notes.unanswered| <= |mid.notes.unanswered| && Unconfirmed(mid, l', u)
    ensures Unconfirmed(l, l', u)
  {
    var j: nat, v :| |mid.notes.unanswered| <= j && UnconfirmedAt(l', j, u, v);
    assert UnconfirmedAt(l', j, u, v);
  }

  /** A state read after a transaction without an answer may leave it unconfirmed. */
  lemma NotConfirmed(l: Log, mid: Log, l': Log, m: Mutation, u: Uuid, v: View)
    requires LeftOpen(l, mid, m) && SubjectOf(m) == u && mid.notes.unanswered <= l'.notes.unanswered
    requires Saw(l'.run, |mid.run.actions|, u, v)
    ensures !Confirms(m, v) ==> Unconfirmed(l, l', u)
  {
    var j: nat :| |l.notes.unanswered| <= j && OpenAt(mid, j, m);
    assert l'.notes.unanswered[j] == mid.notes.unanswered[j];
    SawEarlier(l'.run, |mid.run.actions|, l'.notes.unanswered[j].at, u, v);
    if !Confirms(m, v) {
      assert UnconfirmedAt(l', j, u, v);
    }
  }

  /** The view that `release` leaves alone: another intent, none, or hosts that still claim. */
  predicate BlocksRelease(v: View, intent: Intent) {
    v.View? && (v.intent != Some(intent) || v.assignment.hosts != {})
  }

  function Standing(v: View): Option<Assignment> {
    if v.View? then Some(v.assignment) else None
  }

  function ClaimVerdict(m: Mutation, s: Settled): Result<Assignment>
    requires (m.AddClaim? || m.ReplaceClaim?) && s.Reread?
  {
    if Stands(m, s.view) then Ok(s.view.assignment)
    else if s.certain then Err(Integrity) else Err(Backend)
  }

  /** At one revision since `from` the host held token `t` on exactly this assignment. */
  ghost predicate HeldBy(
      r: Run, from: nat, u: Uuid, h: Uuid, t: Uuid, expected: Option<Generation>, a: Assignment)
  {
    && Meets(a, expected)
    && exists v :: Saw(r, from, u, v) && v.View? && v.assignment == a && h in v.claims && v.claims[h].token == t
  }

  /** A transaction was turned away and the instance was still allocated afterwards. */
  ghost predicate Outrun(cfg: Config, l: Log, from: nat, u: Uuid)
    requires ValidRun(cfg, l.run) && |l.own| == |l.run.actions|
  {
    exists k: nat, c: nat :: from <= k < c && RefusedAt(cfg, l, k) && AllocatedSince(l.run, c, u)
  }

  ghost predicate AllocatedSince(r: Run, from: nat, u: Uuid) {
    exists v :: Saw(r, from, u, v) && v.View?
  }

  lemma OutrunFrom(cfg: Config, l: Log, from: nat, from': nat, u: Uuid)
    requires ValidRun(cfg, l.run) && |l.own| == |l.run.actions| && from' <= from
    ensures Outrun(cfg, l, from, u) ==> Outrun(cfg, l, from', u)
  {
  }

  lemma StillThere(cfg: Config, l: Log, l': Log, from: nat, u: Uuid)
    requires ValidRun(cfg, l.run) && |l.own| == |l.run.actions|
    requires ValidRun(cfg, l'.run) && |l'.own| == |l'.run.actions|
    requires l.run.states <= l'.run.states && l.run.actions <= l'.run.actions && l.own <= l'.own
    requires RefusedSince(cfg, l, from) && AllocatedSince(l'.run, |l.run.actions|, u)
    ensures Outrun(cfg, l', from, u)
  {
    var k: nat :| from <= k && RefusedAt(cfg, l, k);
    RefusedStaysAt(cfg, l, l', k);
  }

  /** How a transaction ended: refused by its compares, or settled by a second read. */
  datatype Settled = Refused | Reread(certain: bool, view: View)

  /** What an operation makes of the state it reads after its transaction. */
  function Verdict<T>(m: Mutation, s: Settled, result: T): Result<T>
    requires s.Reread?
  {
    if Stands(m, s.view) then Ok(result)
    else if s.certain then Err(Integrity) else Err(Backend)
  }

  /** The snapshot lists one well-formed revision since `from`. */
  ghost predicate SnapshotSince(cfg: Config, r: Run, from: nat, s: Snapshot) {
    exists i: nat :: from <= i < |r.states| && WellFormed(cfg, r.states[i].db) && Lists(Namespace(r.states[i].db), s)
  }

  /** What a scan of the namespace at revision `i` says about that revision. */
  lemma ScanJudged(cfg: Config, r: Run, i: nat, records: Db)
    requires ValidRun(cfg, r) && i < |r.states| && records == Namespace(r.states[i].db)
    ensures WellFormed(cfg, records) <==> Accepts(cfg, records)
    ensures WellFormed(cfg, records) <==> WellFormed(cfg, r.states[i].db)
  {
    NamespaceVerdict(cfg, r, i);
    AcceptsExactly(cfg, records);
    AcceptsExactly(cfg, r.states[i].db);
  }

  lemma AlwaysConfigured(cfg: Config, r: Run)
    requires ValidRun(cfg, r)
    ensures forall i: nat | i < |r.states| :: Configured(cfg, r.states[i].db)
  {
    forall i: nat | i < |r.states| ensures Configured(cfg, r.states[i].db) {
      RunKeepsInv(cfg, r, i);
      assert RecordOk(cfg, ConfigKey, r.states[i].db[ConfigKey].raw);
    }
  }

  /** The write `a` of this client made `health` the coordinator record under `lease`. */
  ghost predicate PublishedBy(
      cfg: Config, l: Log, i: nat, a: Action, token: Uuid, health: Raw, lease: LeaseId)
    requires ValidRun(cfg, l.run) && |l.own| == |l.run.actions|
  {
    && a.Promote? && a.owner == token && a.lease == lease
    && health == CoordinatorRecord(token, Healthy, a.round)
    && WroteControl(cfg, l, i, a)
  }

  /** What this client published as health was what the store had right after. */
  lemma PublishedIsSeen(cfg: Config, l: Log, from: nat, token: Uuid, health: Raw, lease: LeaseId)
    requires ValidRun(cfg, l.run) && |l.own| == |l.run.actions|
    requires PublishedHealth(cfg, l, from, token, health, lease)
    ensures HealthSeen(l.run, from, health, lease)
  {
    var i: nat, a :| from <= i && PublishedBy(cfg, l, i, a, token, health, lease);
    assert Stepped(cfg, l.run, i);
    var t := ReplaceCoordinator(cfg, Some(a.seen), lease, health, lease);
    assert Absent(FailureKey) in t.compares && Holds(l.run.states[i].db, Absent(FailureKey));
    assert ShownAt(l.run, i + 1, health, lease);
  }

  ghost predicate PublishedHealth(
      cfg: Config, l: Log, from: nat, token: Uuid, health: Raw, lease: LeaseId)
    requires ValidRun(cfg, l.run) && |l.own| == |l.run.actions|
  {
    exists i: nat, a :: from <= i && PublishedBy(cfg, l, i, a, token, health, lease)
  }

  // ---- why a fleet audit ends without a healthy record -----------------------------------------

  /** This client's control write was executed since action `from`, with this outcome. */
  ghost predicate ControlSent(cfg: Config, l: Log, from: nat, a: Action, ok: bool)
    requires ValidRun(cfg, l.run) && |l.own| == |l.run.actions| && ControlAction(a)
  {
    exists i: nat :: from <= i && SentControl(cfg, l, i, a, ok)
  }

  lemma ControlSentStays(cfg: Config, l: Log, l': Log, from: nat, from': nat)
    requires ValidRun(cfg, l.run) && |l.own| == |l.run.actions|
    requires ValidRun(cfg, l'.run) && |l'.own| == |l'.run.actions|
    requires l.run.states <= l'.run.states && l.run.actions <= l'.run.actions && l.own <= l'.own && from' <= from
    ensures forall a: Action, ok: bool | ControlAction(a) && ControlSent(cfg, l, from, a, ok) ::
              ControlSent(cfg, l', from', a, ok)
  {
    forall a: Action, ok: bool | ControlAction(a) && ControlSent(cfg, l, from, a, ok)
      ensures ControlSent(cfg, l', from', a, ok)
    {
      var i: nat :| from <= i && SentControl(cfg, l, i, a, ok);
      SentControlStays(cfg, l, l', i, a, ok);
    }
  }

  ghost predicate WonElection(cfg: Config, l: Log, from: nat, token: Uuid, lease: LeaseId)
    requires ValidRun(cfg, l.run) && |l.own| == |l.run.actions|
  {
    exists a: Action :: a.Acquire? && a.owner == token && a.lease == lease && ControlSent(cfg, l, from, a, true)
  }

  ghost predicate LostElection(cfg: Config, l: Log, from: nat, token: Uuid)
    requires ValidRun(cfg, l.run) && |l.own| == |l.run.actions|
  {
    exists a: Action :: a.Acquire? && a.owner == token && ControlSent(cfg, l, from, a, false)
  }

  lemma LostElectionStays(cfg: Config, l: Log, l': Log, from: nat, token: Uuid)
    requires ValidRun(cfg, l.run) && |l.own| == |l.run.actions|
    requires ValidRun(cfg, l'.run) && |l'.own| == |l'.run.actions|
    requires l.run.states <= l'.run.states && l.run.actions <= l'.run.actions && l.own <= l'.own
    ensures LostElection(cfg, l, from, token) ==> LostElection(cfg, l', from, token)
  {
    ControlSentStays(cfg, l, l', from, from);
  }

  ghost predicate LostPromotion(cfg: Config, l: Log, from: nat, token: Uuid)
    requires ValidRun(cfg, l.run) && |l.own| == |l.run.actions|
  {
    exists a: Action :: a.Promote? && a.owner == token && ControlSent(cfg, l, from, a, false)
  }

  /** The owner's demotion of this record was executed. */
  ghost predicate SteppedDown(cfg: Config, l: Log, from: nat, token: Uuid, lease: LeaseId, seen: Raw)
    requires ValidRun(cfg, l.run) && |l.own| == |l.run.actions|
  {
    exists a: Action, ok: bool ::
      a.Demote? && a.owner == token && a.lease == lease && a.seen == seen && ControlSent(cfg, l, from, a, ok)
  }

  /** A healthy owner that fails its audit demotes its record, unless a message is lost once more. */
  ghost predicate GaveUp(cfg: Config, l: Log, l': Log, token: Uuid, lease: LeaseId, seen: Raw, e: Error)
    requires ValidRun(cfg, l'.run) && |l'.own| == |l'.run.actions| && seen.CoordinatorRecord?
  {
    seen.state.Healthy? ==>
      || SteppedDown(cfg, l', |l.run.actions|, token, lease, seen)
      || l.notes.lost + 2 <= l'.notes.lost
      || (e.Integrity? && Published(l'.run) && LostMessage(l, l'))
  }

  /** The owner's lease was refreshed behind its healthy record, or just won. */
  ghost predicate Authorized(cfg: Config, l: Log, from: nat, token: Uuid, lease: LeaseId)
    requires ValidRun(cfg, l.run) && |l.own| == |l.run.actions|
  {
    WonElection(cfg, l, from, token, lease) || exists seen :: RefreshedSince(l, from, lease, seen)
  }

  lemma RefreshedStays(l: Log, l': Log, from: nat, from': nat)
    requires |l.own| == |l.run.actions| && |l'.own| == |l'.run.actions|
    requires l.run.actions <= l'.run.actions && l.own <= l'.own && from' <= from
    ensures forall lease, seen | RefreshedSince(l, from, lease, seen) :: RefreshedSince(l', from', lease, seen)
  {
    forall lease, seen | RefreshedSince(l, from, lease, seen) ensures RefreshedSince(l', from', lease, seen) {
      var k: nat :| from <= k < |l.run.actions| && l.own[k] && l.run.actions[k] == Refresh(lease, seen);
      assert l'.own[k] == l.own[k] && l'.run.actions[k] == l.run.actions[k];
    }
  }

  /** The coordinator record and its lease at one revision since `from`. */
  ghost predicate ShownSince(r: Run, from: nat, raw: Raw, lease: LeaseId) {
    exists i: nat :: from <= i && ShownAt(r, i, raw, lease)
  }

  lemma ShownStays(r: Run, r': Run, from: nat, from': nat)
    requires r.states <= r'.states && from' <= from
    ensures forall raw, lease | ShownSince(r, from, raw, lease) :: ShownSince(r', from', raw, lease)
  {
    forall raw, lease | ShownSince(r, from, raw, lease) ensures ShownSince(r', from', raw, lease) {
      var i: nat :| from <= i && ShownAt(r, i, raw, lease);
      assert r'.states[i] == r.states[i];
      assert ShownAt(r', i, raw, lease);
    }
  }

  /** Another process held the lease, or took it first. */
  ghost predicate OtherAuditor(cfg: Config, l: Log, from: nat, token: Uuid)
    requires ValidRun(cfg, l.run) && |l.own| == |l.run.actions|
  {
    || LostElection(cfg, l, from, token)
    || exists raw: Raw, lease: LeaseId ::
         lease != 0 && raw.CoordinatorRecord? && raw.owner != token && ShownSince(l.run, from, raw, lease)
  }

  ghost predicate OtherHealthy(r: Run, from: nat, token: Uuid) {
    exists raw: Raw, lease: LeaseId ::
      raw.CoordinatorRecord? && raw.owner != token && raw.state.Healthy? && ShownSince(r, from, raw, lease)
  }

  /** The record was the process's own, but pending or not under the lease that the process holds. */
  ghost predicate OwnUnusable(r: Run, from: nat, token: Uuid, held: Option<LeaseId>) {
    exists raw: Raw, lease: LeaseId ::
      && raw.CoordinatorRecord? && raw.owner == token && (held != Some(lease) || raw.state.Pending?)
      && ShownSince(r, from, raw, lease)
  }

  /** Nobody held the lease at one revision since `from`. */
  ghost predicate Unleased(r: Run, from: nat) {
    exists i: nat :: from <= i < |r.states| && Holds(r.states[i].db, LeaseIs(CoordinatorKey, 0))
  }

  ghost predicate PendingSeen(r: Run, from: nat) {
    exists raw: Raw, lease: LeaseId :: raw.CoordinatorRecord? && raw.state.Pending? && ShownSince(r, from, raw, lease)
  }

  /** Why an audit may end in a backend error: a lost message, an own record of no use, or a lost promotion. */
  ghost predicate AuditFailed(cfg: Config, l: Log, l': Log, token: Uuid, held: Option<LeaseId>)
    requires ValidRun(cfg, l'.run) && |l'.own| == |l'.run.actions|
  {
    || LostMessage(l, l')
    || OwnUnusable(l'.run, |l.run.actions|, token, held)
    || LostPromotion(cfg, l', |l.run.actions|, token)
  }

  /** Another process audits, behind a healthy record or behind an answer that showed none. */
  ghost predicate Outvoted(cfg: Config, l: Log, l': Log, token: Uuid)
    requires ValidRun(cfg, l'.run) && |l'.own| == |l'.run.actions|
  {
    && OtherAuditor(cfg, l', |l.run.actions|, token)
    && (l.notes.unhealthy < l'.notes.unhealthy || OtherHealthy(l'.run, |l.run.actions|, token))
  }

  /** How an audit begins: with a lease refreshed or won, or not because of another auditor or a failure. */
  ghost predicate Began(
      cfg: Config, l: Log, l': Log, token: Uuid, held: Option<LeaseId>, lease: Option<LeaseId>,
      r: Result<Option<(Raw, bool)>>)
    requires ValidRun(cfg, l'.run) && |l'.own| == |l'.run.actions|
  {
    match r
    case Err(e) =>
      e.Integrity?
      || (e.Backend? && (LostMessage(l, l') || OwnUnusable(l'.run, |l.run.actions|, token, held)))
    case Ok(owner) =>
      if owner.None? then Outvoted(cfg, l, l', token)
      else lease.Some? && Authorized(cfg, l', |l.run.actions|, token, lease.value)
  }

  /** Another process audits, and one more answer than the `n` that such a call starts with showed no health. */
  ghost predicate Unled(cfg: Config, l: Log, l': Log, token: Uuid, n: nat)
    requires ValidRun(cfg, l'.run) && |l'.own| == |l'.run.actions|
  {
    && OtherAuditor(cfg, l', |l.run.actions|, token)
    && (l.notes.unhealthy + n < l'.notes.unhealthy
        || (OtherHealthy(l'.run, |l.run.actions|, token) && l.notes.unhealthy + n <= l'.notes.unhealthy))
  }

  /** What holds of the end of an audit that began later holds of one that began earlier. */
  lemma AuditCausesStay(cfg: Config, l: Log, mid: Log, mid': Log, l': Log, token: Uuid, held: Option<LeaseId>)
    requires ValidRun(cfg, mid'.run) && |mid'.own| == |mid'.run.actions|
    requires ValidRun(cfg, l'.run) && |l'.own| == |l'.run.actions|
    requires mid'.run.states <= l'.run.states && mid'.run.actions <= l'.run.actions && mid'.own <= l'.own
    requires |l.run.actions| <= |mid.run.actions|
    requires NotesGrow(l.notes, mid.notes) && NotesGrow(mid'.notes, l'.notes)
    ensures AuditFailed(cfg, mid, mid', token, held) ==> AuditFailed(cfg, l, l', token, held)
    ensures OtherAuditor(cfg, mid', |mid.run.actions|, token) ==> OtherAuditor(cfg, l', |l.run.actions|, token)
    ensures OtherHealthy(mid'.run, |mid.run.actions|, token) ==> OtherHealthy(l'.run, |l.run.actions|, token)
    ensures PendingSeen(mid'.run, |mid.run.actions|) ==> PendingSeen(l'.run, |l.run.actions|)
    ensures forall lease ::
      Authorized(cfg, mid', |mid.run.actions|, token, lease) ==> Authorized(cfg, l', |l.run.actions|, token, lease)
  {
    ControlSentStays(cfg, mid', l', |mid.run.actions|, |l.run.actions|);
    ShownStays(mid'.run, l'.run, |mid.run.actions|, |l.run.actions|);
    RefreshedStays(mid', l', |mid.run.actions|, |l.run.actions|);
  }

  /** A revision since `from` was not well formed. */
  ghost predicate IllFormedSince(cfg: Config, r: Run, from: nat) {
    exists i: nat :: from <= i < |r.states| && !WellFormed(cfg, r.states[i].db)
  }

  ghost predicate Counted(cfg: Config, db: Db) {
    Configured(cfg, db) && CountsAgree(FamilyCounts(cfg, db))
  }

  /** The counts of one revision since `from` agreed. */
  ghost predicate CountedSince(cfg: Config, r: Run, from: nat) {
    exists i: nat :: from <= i < |r.states| && Counted(cfg, Namespace(r.states[i].db))
  }

  /** A revision since `from` is what a full audit listed, or passed the probe. */
  ghost predicate Examined(cfg: Config, r: Run, from: nat, scan: Option<Snapshot>) {
    if scan.Some? then SnapshotSince(cfg, r, from, scan.value) else CountedSince(cfg, r, from)
  }

  ghost predicate Cleared(cfg: Config, r: Run, from: nat) {
    exists scan :: Examined(cfg, r, from, scan)
  }

  lemma VerdictsStay(cfg: Config, r: Run, r': Run, from: nat, from': nat)
    requires r.states <= r'.states && from' <= from
    ensures IllFormedSince(cfg, r, from) ==> IllFormedSince(cfg, r', from')
    ensures CountedSince(cfg, r, from) ==> CountedSince(cfg, r', from')
    ensures forall s | SnapshotSince(cfg, r, from, s) :: SnapshotSince(cfg, r', from', s)
    ensures Published(r) ==> Published(r')
  {
    forall i | 0 <= i < |r.states| ensures r'.states[i] == r.states[i] {}
  }

  /** Why the scan of an audit may fail: its answer was lost, or the revision was not well formed. */
  ghost predicate ScanFailed(cfg: Config, l: Log, l': Log, e: Error) {
    || (e.Backend? && LostMessage(l, l'))
    || (e.Integrity? && IllFormedSince(cfg, l'.run, |l.run.actions|)
        && (Published(l'.run) || LostMessage(l, l')))
  }

  /** How an owner's audit may fail: in the scan, with its record given up, or in the promotion after it. */
  ghost predicate OwnerFailed(
      cfg: Config, l: Log, l': Log, token: Uuid, lease: LeaseId, seen: Raw, keeps: bool, e: Error)
    requires ValidRun(cfg, l'.run) && |l'.own| == |l'.run.actions| && seen.CoordinatorRecord?
  {
    || (!keeps && GaveUp(cfg, l, l', token, lease, seen, e) && ScanFailed(cfg, l, l', e))
    || ((keeps || seen.state.Pending?) && e.Backend? && Cleared(cfg, l'.run, |l.run.actions|)
        && (LostMessage(l, l') || LostPromotion(cfg, l', |l.run.actions|, token)))
  }

  lemma ScanThenStepDown(
      cfg: Config, l: Log, mid: Log, l': Log, token: Uuid, lease: LeaseId, seen: Raw, e: Error)
    requires ValidRun(cfg, l'.run) && |l'.own| == |l'.run.actions| && seen.CoordinatorRecord?
    requires mid.run.states <= l'.run.states && |l.run.actions| <= |mid.run.actions|
    requires NotesGrow(l.notes, mid.notes) && NotesGrow(mid.notes, l'.notes)
    requires ScanFailed(cfg, l, mid, e)
    requires seen.state.Healthy? ==>
      LostMessage(mid, l') || SteppedDown(cfg, l', |mid.run.actions|, token, lease, seen)
    ensures OwnerFailed(cfg, l, l', token, lease, seen, false, e)
  {
    VerdictsStay(cfg, mid.run, l'.run, |l.run.actions|, |l.run.actions|);
    ControlSentStays(cfg, l', l', |mid.run.actions|, |l.run.actions|);
  }

  /** A scan that passed stays what it was, however the promotion after it ends. */
  lemma ScanThenPromotion(
      cfg: Config, l: Log, mid: Log, l': Log, token: Uuid, lease: LeaseId, seen: Raw,
      keeps: bool, scan: Option<Snapshot>, lost: bool)
    requires ValidRun(cfg, l'.run) && |l'.own| == |l'.run.actions| && seen.CoordinatorRecord?
    requires mid.run.states <= l'.run.states && |l.run.actions| <= |mid.run.actions|
    requires NotesGrow(l.notes, mid.notes) && NotesGrow(mid.notes, l'.notes)
    requires Examined(cfg, mid.run, |l.run.actions|, scan)
    requires keeps || seen.state.Pending?
    requires lost ==> LostMessage(mid, l') || LostPromotion(cfg, l', |mid.run.actions|, token)
    ensures Examined(cfg, l'.run, |l.run.actions|, scan)
    ensures lost ==> OwnerFailed(cfg, l, l', token, lease, seen, keeps, Backend)
  {
    ExaminedStays(cfg, mid.run, l'.run, |l.run.actions|, scan);
    if lost && !LostMessage(mid, l') {
      ControlSentStays(cfg, l', l', |mid.run.actions|, |l.run.actions|);
      assert LostPromotion(cfg, l', |l.run.actions|, token);
    }
  }

  lemma ExaminedStays(cfg: Config, r: Run, r': Run, from: nat, scan: Option<Snapshot>)
    requires r.states <= r'.states && Examined(cfg, r, from, scan)
    ensures Examined(cfg, r', from, scan)
  {
    VerdictsStay(cfg, r, r', from, from);
  }

  lemma PublishedFrom(
      cfg: Config, l: Log, from: nat, from': nat, token: Uuid, health: Raw, lease: LeaseId)
    requires ValidRun(cfg, l.run) && |l.own| == |l.run.actions| && from' <= from
    requires PublishedHealth(cfg, l, from, token, health, lease)
    ensures PublishedHealth(cfg, l, from', token, health, lease)
  {
  }

  /** How a coordinated audit of an owner ends, from how its two parts did. */
  ghost predicate OwnerEnded(
      cfg: Config, l: Log, l': Log, token: Uuid, held: Option<LeaseId>, health: Option<Raw>, lease: LeaseId,
      r: Result<Option<Snapshot>>)
    requires ValidRun(cfg, l'.run) && |l'.own| == |l'.run.actions|
  {
    if r.Ok? then
      && health.Some? && PublishedHealth(cfg, l', |l.run.actions|, token, health.value, lease)
      && Authorized(cfg, l', |l.run.actions|, token, lease) && Examined(cfg, l'.run, |l.run.actions|, r.value)
    else r.error.Integrity? || (r.error.Backend? && AuditFailed(cfg, l, l', token, held))
  }

  lemma OwnerEnds(
      cfg: Config, l: Log, mid: Log, l': Log, token: Uuid, held: Option<LeaseId>, lease: LeaseId, seen: Raw,
      health: Option<Raw>, lease': LeaseId, r: Result<Option<Snapshot>>)
    requires ValidRun(cfg, mid.run) && |mid.own| == |mid.run.actions| && seen.CoordinatorRecord?
    requires ValidRun(cfg, l'.run) && |l'.own| == |l'.run.actions| && |l.run.actions| <= |mid.run.actions|
    requires mid.run.states <= l'.run.states && mid.run.actions <= l'.run.actions && mid.own <= l'.own
    requires NotesGrow(l.notes, mid.notes) && Authorized(cfg, mid, |l.run.actions|, token, lease)
    requires r.Ok? ==>
      && health.Some? && lease' == lease && Examined(cfg, l'.run, |mid.run.actions|, r.value)
      && PublishedHealth(cfg, l', |mid.run.actions|, token, health.value, lease)
    requires r.Err? ==> OwnerFailed(cfg, mid, l', token, lease, seen, health.Some?, r.error)
    ensures OwnerEnded(cfg, l, l', token, held, health, lease', r)
  {
    var from, from' := |mid.run.actions|, |l.run.actions|;
    VerdictsStay(cfg, l'.run, l'.run, from, from');
    ControlSentStays(cfg, mid, l', from', from');
    ControlSentStays(cfg, l', l', from, from');
    RefreshedStays(mid, l', from', from');
    if r.Ok? {
      PublishedFrom(cfg, l', from, from', token, health.value, lease);
    }
  }

  // ---- decisions: what an operation makes of the state it read -------------------------------

  /** Stop with a result, or try this mutation. */
  datatype Decision<T> = Finish(result: Result<T>) | Attempt(m: Mutation)

  /** `claim`: reuse the same token's claim, replace a cleaned one, or add a new one. */
  function DecideClaim(v: View, h: Uuid, t: Uuid, expected: Option<Generation>): Decision<Assignment> {
    if v.NoAllocation? then Finish(Err(Integrity))
    else if !Meets(v.assignment, expected) then Finish(Err(Conflict))
    else if h in v.claims && v.claims[h].token == t then Finish(Ok(v.assignment))
    else if h in v.claims && !v.claims[h].state.Cleaned? then Finish(Err(Conflict))
    else if v.intent.Some? then Finish(Err(Conflict))
    else if h in v.claims then Attempt(ReplaceClaim(v.assignment, v.claims[h], t))
    else Attempt(AddClaim(v.assignment, h, t))
  }

  /** The states that `claim` refuses, and how. */
  predicate ClaimRefused(v: View, h: Uuid, t: Uuid, expected: Option<Generation>, e: Error) {
    match e
    case Integrity => v.NoAllocation?
    case Conflict =>
      && v.View?
      && (!Meets(v.assignment, expected)
          || (if h in v.claims then v.claims[h].token != t && (!v.claims[h].state.Cleaned? || v.intent.Some?)
              else v.intent.Some?))
    case _ => false
  }

  /**
   * The token's own claim is enough. Anything else is attempted exactly when it
   * is not refused, and the attempt takes the host's place: a cleaned claim is
   * replaced where it stands.
   */
  lemma ClaimDecided(cfg: Config, u: Uuid, v: View, h: Uuid, t: Uuid, expected: Option<Generation>)
    requires ViewParses(cfg, u, v)
    ensures forall e :: DecideClaim(v, h, t, expected) == Finish(Err(e)) <==> ClaimRefused(v, h, t, expected, e)
    ensures match DecideClaim(v, h, t, expected)
      case Attempt(m) =>
        && Admissible(cfg, m) && Targets(m, u, h, t) && Meets(m.current, expected) && AttemptedOn(m, v)
        && (if h in v.assignment.hosts then m.ReplaceClaim? else m.AddClaim?)
      case Finish(result) =>
        result.Ok? ==>
          && Meets(result.value, expected) && v.View? && v.assignment == result.value
          && h in v.claims && v.claims[h].token == t
  {
  }

  /** The mutation is built from this view: its pair, its claim, and its barrier or the lack of it. */
  predicate AttemptedOn(m: Mutation, v: View) {
    && v.View? && !m.Allocate? && !m.RestoreAll? && !m.RestoreIntent? && m.current == v.assignment
    && (Consumed(m).Some? ==> ClaimIn(v, Consumed(m).value.host) == Consumed(m))
    && (m.AddClaim? ==> m.host !in v.assignment.hosts)
    && (m.Release? ==> v.intent == Some(m.intent))
    && (NeedsNoBarrier(m) ==> v.intent.None?)
  }

  /** So it commits wherever the view is still true and the health record still stands. */
  lemma AttemptCommits(cfg: Config, db: Db, m: Mutation, g: Guard, v: View)
    requires Consistent(cfg, db) && Admissible(cfg, m) && ViewAt(db, SubjectOf(m), v) && AttemptedOn(m, v)
    requires GuardStood(cfg, db, g)
    ensures Commits(db, Compile(cfg, m, g))
  {
    var u := SubjectOf(m);
    CompileCommits(cfg, db, m, g);
    assert RecordOk(cfg, InstanceKey(u), db[InstanceKey(u)].raw);
    if m.AddClaim? {
      HostListed(cfg, db, u, m.host);
    }
    forall c | c in Body(cfg, m).compares ensures Holds(db, c) {
      if c.key == SlotKey(m.current.gen.slot) {
        assert HasAssignment(db, u);
      }
    }
  }

  lemma HostListed(cfg: Config, db: Db, u: Uuid, h: Uuid)
    requires Consistent(cfg, db) && HasAssignment(db, u)
    ensures HostKey(h, u) in db ==> h in AssignmentAt(db, u).hosts
  {
    if HostKey(h, u) in db {
      assert RecordOk(cfg, HostKey(h, u), db[HostKey(h, u)].raw);
      assert HasClaim(db, h, u);
    }
  }

  predicate Reached(c: Claim, t: Uuid, change: Change) {
    && c.token == t
    && match change
       case ToPossible => c.state.Possible?
       case ToCommitted => c.state.Committed?
       case ToCleaned(p) => c.state.Cleaned? && c.proof == Some(p)
  }

  /** `mark_materialization_possible`, `mark_materialization_committed` and `_record_claim_proof`. */
  function DecideChange(v: View, h: Uuid, t: Uuid, change: Change, expected: Option<Generation>): Decision<Claim> {
    if v.NoAllocation? then Finish(Err(Integrity))
    else if !Meets(v.assignment, expected) then Finish(Err(Conflict))
    else if change.ToPossible? && v.intent.Some? then Finish(Err(Conflict))
    else if ClaimIn(v, h).None? || v.claims[h].token != t then Finish(Err(Conflict))
    else
      var c := v.claims[h];
      match change
      case ToPossible =>
        if c.state.Possible? then Finish(Ok(c))
        else if !c.state.Unmaterialized? then Finish(Err(Conflict))
        else Attempt(MarkPossible(v.assignment, c))
      case ToCommitted =>
        if c.state.Committed? then Finish(Ok(c))
        else if !c.state.Possible? then Finish(Err(Conflict))
        else Attempt(MarkCommitted(v.assignment, c))
      case ToCleaned(p) =>
        if c.state.Cleaned? then Finish(if c.proof == Some(p) then Ok(c) else Err(Conflict))
        else if c.state != RequiredState(p) then Finish(Err(Conflict))
        else if !ProofBinds(p, c) then Finish(Err(Integrity))
        else Attempt(RecordProof(v.assignment, c, p))
  }

  /** The states that a change refuses, and how. */
  predicate ChangeRefused(
      v: View, h: Uuid, t: Uuid, change: Change, expected: Option<Generation>, e: Error)
  {
    match e
    case Integrity =>
      || v.NoAllocation?
      || (change.ToCleaned? && Held(v, h, t, expected) && v.claims[h].state == RequiredState(change.proof)
          && !ProofBinds(change.proof, v.claims[h]))
    case Conflict =>
      && v.View?
      && (!Held(v, h, t, expected)
          || match change
             case ToPossible => v.intent.Some? || v.claims[h].state.Committed? || v.claims[h].state.Cleaned?
             case ToCommitted => v.claims[h].state.Unmaterialized? || v.claims[h].state.Cleaned?
             case ToCleaned(p) =>
               if v.claims[h].state.Cleaned? then v.claims[h].proof != Some(p)
               else v.claims[h].state != RequiredState(p))
    case _ => false
  }

  /** The host's claim in the expected generation is under this token. */
  predicate Held(v: View, h: Uuid, t: Uuid, expected: Option<Generation>) {
    v.View? && Meets(v.assignment, expected) && h in v.claims && v.claims[h].token == t
  }

  /** What is neither refused nor done already is attempted, on exactly the claim seen. */
  lemma ChangeDecided(
      cfg: Config, u: Uuid, v: View, h: Uuid, t: Uuid, change: Change, expected: Option<Generation>)
    requires ViewParses(cfg, u, v) && ChangeOk(change)
    ensures forall e ::
      DecideChange(v, h, t, change, expected) == Finish(Err(e)) <==> ChangeRefused(v, h, t, change, expected, e)
    ensures match DecideChange(v, h, t, change, expected)
      case Attempt(m) =>
        && Admissible(cfg, m) && IsChange(m, u, h, t, change) && Meets(m.current, expected) && AttemptedOn(m, v)
        && !Reached(v.claims[h], t, change)
      case Finish(result) =>
        result.Ok? ==> Reached(result.value, t, change) && ClaimIn(v, h) == Some(result.value)
  {
  }

  function ChangeVerdict(m: Mutation, h: Uuid, t: Uuid, change: Change, s: Settled): Result<Claim>
    requires s.Reread?
  {
    var observed := ClaimIn(s.view, h);
    if observed.None? then (if s.certain then Err(Integrity) else Err(Backend))
    else if Stands(m, s.view) then Ok(observed.value)
    else if s.certain then Err(Integrity)
    else if !change.ToCleaned? && Reached(observed.value, t, change) then Ok(observed.value)
    else Err(Backend)
  }

  predicate RemovalOk(u: Uuid, h: Uuid, removal: Removal) {
    removal.Fencing? ==>
      ValidFence(removal.fence) && removal.fence.instance == u && removal.fence.host == h
  }

  /** `abandon_unregistered_claim`, `retire_claim` and `fence_retire_claim`. */
  function DecideRemoval(
      v: View, h: Uuid, removal: Removal, expected: Option<Generation>): Decision<Option<Assignment>>
  {
    if v.NoAllocation? then Finish(Ok(None))
    else if !Meets(v.assignment, expected) then Finish(Err(Conflict))
    else if ClaimIn(v, h).None? then Finish(Ok(Some(v.assignment)))
    else
      var c := v.claims[h];
      match removal
      case Abandoning(t) =>
        if c.token != t || !c.state.Unmaterialized? then Finish(Err(Conflict))
        else Attempt(Abandon(v.assignment, c))
      case Retiring(t) =>
        if c.token != t || !c.state.Cleaned? then Finish(Err(Conflict))
        else Attempt(Retire(v.assignment, c))
      case Fencing(f) =>
        if c.state.Cleaned? then Finish(Err(Conflict))
        else if f.allocation != v.assignment.gen.allocation then Finish(Err(Integrity))
        else Attempt(FenceRetire(v.assignment, c, f.(token := Some(c.token))))
  }

  /** The states that a removal refuses, and how. */
  predicate RemovalRefused(v: View, h: Uuid, removal: Removal, expected: Option<Generation>, e: Error) {
    match e
    case Integrity =>
      && removal.Fencing? && v.View? && Meets(v.assignment, expected) && h in v.claims
      && !v.claims[h].state.Cleaned? && removal.fence.allocation != v.assignment.gen.allocation
    case Conflict =>
      && v.View?
      && (!Meets(v.assignment, expected)
          || (h in v.claims
              && match removal
                 case Abandoning(t) => v.claims[h].token != t || !v.claims[h].state.Unmaterialized?
                 case Retiring(t) => v.claims[h].token != t || !v.claims[h].state.Cleaned?
                 case Fencing(_) => v.claims[h].state.Cleaned?))
    case _ => false
  }

  /** A claim that is there and may go is removed; without one there is nothing to do. */
  lemma RemovalDecided(
      cfg: Config, u: Uuid, v: View, h: Uuid, removal: Removal, expected: Option<Generation>)
    requires ViewParses(cfg, u, v) && RemovalOk(u, h, removal)
    ensures forall e ::
      DecideRemoval(v, h, removal, expected) == Finish(Err(e)) <==> RemovalRefused(v, h, removal, expected, e)
    ensures match DecideRemoval(v, h, removal, expected)
      case Attempt(m) =>
        && Admissible(cfg, m) && IsRemoval(m, u, h, removal) && Meets(m.current, expected) && AttemptedOn(m, v)
        && h in v.claims
      case Finish(result) =>
        result.Ok? ==>
          if v.NoAllocation? then result.value.None? else result.value == Some(v.assignment) && h !in v.claims
  {
  }

  /** At one revision since `from` the instance had no claim on the host. */
  ghost predicate FreeOf(r: Run, from: nat, u: Uuid, h: Uuid, a: Option<Assignment>) {
    if a.None? then Saw(r, from, u, NoAllocation)
    else exists v :: Saw(r, from, u, v) && v.View? && v.assignment == a.value && h !in v.claims
  }

  /** At one revision since `from` the state was one that the operation refuses with this error. */
  ghost predicate ClaimDeclined(
      r: Run, from: nat, u: Uuid, h: Uuid, t: Uuid, expected: Option<Generation>, e: Error)
  {
    exists v :: Saw(r, from, u, v) && ClaimRefused(v, h, t, expected, e)
  }

  ghost predicate ChangeDeclined(
      r: Run, from: nat, u: Uuid, h: Uuid, t: Uuid, change: Change, expected: Option<Generation>, e: Error)
  {
    exists v :: Saw(r, from, u, v) && ChangeRefused(v, h, t, change, expected, e)
  }

  ghost predicate RemovalDeclined(
      r: Run, from: nat, u: Uuid, h: Uuid, removal: Removal, expected: Option<Generation>, e: Error)
  {
    exists v :: Saw(r, from, u, v) && RemovalRefused(v, h, removal, expected, e)
  }

  ghost predicate BarrierDeclined(
      r: Run, from: nat, u: Uuid, name: string, expected: Option<Generation>, e: Error)
  {
    exists v :: Saw(r, from, u, v) && BarrierRefused(v, name, expected, e)
  }

  lemma SawEarlier(r: Run, from: nat, from': nat, u: Uuid, v: View)
    requires Saw(r, from, u, v) && from' <= from
    ensures Saw(r, from', u, v)
  {
  }

  /** What the decision promises, given a state seen since `from`. */
  ghost predicate ClaimSound(
      cfg: Config, r: Run, from: nat, u: Uuid, h: Uuid, t: Uuid, expected: Option<Generation>, d: Decision<Assignment>)
  {
    match d
    case Attempt(m) =>
      (m.AddClaim? || m.ReplaceClaim?) && Admissible(cfg, m) && Targets(m, u, h, t) && Meets(m.current, expected)
    case Finish(result) =>
      if result.Ok? then HeldBy(r, from, u, h, t, expected, result.value)
      else ClaimDeclined(r, from, u, h, t, expected, result.error)
  }

  /** A state seen during the call settles it one way or the other. */
  lemma ClaimFinished(
      cfg: Config, r: Run, from: nat, u: Uuid, v: View, h: Uuid, t: Uuid, expected: Option<Generation>)
    requires Saw(r, from, u, v) && ViewParses(cfg, u, v)
    ensures ClaimSound(cfg, r, from, u, h, t, expected, DecideClaim(v, h, t, expected))
  {
    ClaimDecided(cfg, u, v, h, t, expected);
  }

  /** What the decision promises, given a state seen since `from`. */
  ghost predicate ChangeSound(
      cfg: Config, r: Run, from: nat, u: Uuid, h: Uuid, t: Uuid, change: Change,
      expected: Option<Generation>, d: Decision<Claim>)
  {
    match d
    case Attempt(m) => Admissible(cfg, m) && IsChange(m, u, h, t, change) && Meets(m.current, expected)
    case Finish(result) =>
      if result.Ok? then ChangeSeen(r, from, u, h, t, change, result.value)
      else ChangeDeclined(r, from, u, h, t, change, expected, result.error)
  }

  lemma ChangeFinished(
      cfg: Config, r: Run, from: nat, u: Uuid, v: View, h: Uuid, t: Uuid, change: Change,
      expected: Option<Generation>)
    requires Saw(r, from, u, v) && ViewParses(cfg, u, v) && ChangeOk(change)
    ensures ChangeSound(cfg, r, from, u, h, t, change, expected, DecideChange(v, h, t, change, expected))
  {
    ChangeDecided(cfg, u, v, h, t, change, expected);
  }

  /** What the decision promises, given a state seen since `from`. */
  ghost predicate RemovalSound(
      cfg: Config, r: Run, from: nat, u: Uuid, h: Uuid, removal: Removal,
      expected: Option<Generation>, d: Decision<Option<Assignment>>)
  {
    match d
    case Attempt(m) => Admissible(cfg, m) && IsRemoval(m, u, h, removal) && Meets(m.current, expected)
    case Finish(result) =>
      if result.Ok? then FreeOf(r, from, u, h, result.value)
      else RemovalDeclined(r, from, u, h, removal, expected, result.error)
  }

  lemma RemovalFinished(
      cfg: Config, r: Run, from: nat, u: Uuid, v: View, h: Uuid, removal: Removal, expected: Option<Generation>)
    requires Saw(r, from, u, v) && ViewParses(cfg, u, v) && RemovalOk(u, h, removal)
    ensures RemovalSound(cfg, r, from, u, h, removal, expected, DecideRemoval(v, h, removal, expected))
  {
    RemovalDecided(cfg, u, v, h, removal, expected);
  }

  /** What the decision promises, given a state seen since `from`. */
  ghost predicate BarrierSound(
      cfg: Config, r: Run, from: nat, u: Uuid, name: string, expected: Option<Generation>, d: Decision<Intent>)
  {
    match d
    case Attempt(m) =>
      && m.RequestRelease? && Admissible(cfg, m) && SubjectOf(m) == u && m.name == name
      && Meets(m.current, expected)
    case Finish(result) =>
      if result.Ok? then result.value.name == name && BarrierSeen(r, from, u, expected, result.value)
      else BarrierDeclined(r, from, u, name, expected, result.error)
  }

  lemma BarrierFinished(
      cfg: Config, r: Run, from: nat, u: Uuid, v: View, name: string, expected: Option<Generation>)
    requires Saw(r, from, u, v) && ViewParses(cfg, u, v) && InstanceNameOk(name)
    ensures BarrierSound(cfg, r, from, u, name, expected, DecideBarrier(v, name, expected))
  {
    BarrierDecided(cfg, u, v, name, expected);
  }

  /** A verifying read that shows what was written gives the operation's result. */
  lemma ClaimShown(r: Run, from: nat, m: Mutation, u: Uuid, h: Uuid, t: Uuid, v: View)
    requires Saw(r, from, u, v) && (m.AddClaim? || m.ReplaceClaim?) && Targets(m, u, h, t) && Stands(m, v)
    ensures HeldBy(r, from, u, h, t, Some(m.current.gen), v.assignment)
  {
  }

  lemma ChangeShown(r: Run, from: nat, m: Mutation, u: Uuid, h: Uuid, t: Uuid, change: Change, s: Settled)
    requires s.Reread? && Saw(r, from, u, s.view) && IsChange(m, u, h, t, change)
    ensures var v := ChangeVerdict(m, h, t, change, s);
      if v.Ok? then ChangeSeen(r, from, u, h, t, change, v.value)
      else
        && v.error == (if s.certain then Integrity else Backend) && !Stands(m, s.view)
        && (!s.certain ==> !Confirms(m, s.view))
  {
  }

  lemma RemovalShown(r: Run, from: nat, m: Mutation, u: Uuid, h: Uuid, v: View)
    requires Saw(r, from, u, v) && (m.FenceRetire? || m.Abandon? || m.Retire?) && m.claim.host == h && Stands(m, v)
    ensures FreeOf(r, from, u, h, Standing(v))
  {
  }

  /** At one revision since `from` exactly this claim was in the wanted state. */
  ghost predicate ChangeSeen(r: Run, from: nat, u: Uuid, h: Uuid, t: Uuid, change: Change, c: Claim) {
    Reached(c, t, change) && exists v :: Saw(r, from, u, v) && ClaimIn(v, h) == Some(c)
  }

  /** `request_release`. */
  function DecideBarrier(v: View, name: string, expected: Option<Generation>): Decision<Intent> {
    if v.NoAllocation? then Finish(Err(Integrity))
    else if !Meets(v.assignment, expected) then Finish(Err(Conflict))
    else if v.intent.Some? then
      Finish(if v.intent.value == Intent(v.assignment.gen, name) then Ok(v.intent.value) else Err(Conflict))
    else Attempt(Mutation.RequestRelease(v.assignment, name))
  }

  /** The states that a release request refuses, and how. */
  predicate BarrierRefused(v: View, name: string, expected: Option<Generation>, e: Error) {
    match e
    case Integrity => v.NoAllocation?
    case Conflict =>
      && v.View?
      && (!Meets(v.assignment, expected) || (v.intent.Some? && v.intent.value.name != name))
    case _ => false
  }

  /** The same intent is enough; without any the barrier is attempted. */
  lemma BarrierDecided(cfg: Config, u: Uuid, v: View, name: string, expected: Option<Generation>)
    requires ViewParses(cfg, u, v) && InstanceNameOk(name)
    ensures forall e :: DecideBarrier(v, name, expected) == Finish(Err(e)) <==> BarrierRefused(v, name, expected, e)
    ensures match DecideBarrier(v, name, expected)
      case Attempt(m) =>
        && m.RequestRelease? && Admissible(cfg, m) && SubjectOf(m) == u && m.name == name
        && Meets(m.current, expected) && AttemptedOn(m, v)
      case Finish(result) =>
        result.Ok? ==> result.value.name == name && v.View? && v.intent == Some(result.value)
                       && Meets(v.assignment, expected)
  {
  }

  /** At one revision since `from` this intent stood for exactly the expected generation. */
  ghost predicate BarrierSeen(r: Run, from: nat, u: Uuid, expected: Option<Generation>, i: Intent) {
    && (expected.Some? ==> i.gen == expected.value)
    && exists v :: Saw(r, from, u, v) && v.View? && v.intent == Some(i)
  }

  /** The assignment stood, without a release barrier, at one revision since `from`. */
  ghost predicate AllocationSeen(r: Run, from: nat, u: Uuid, a: Assignment) {
    exists v :: Saw(r, from, u, v) && v.View? && v.assignment == a && v.intent.None?
  }

  /** A release barrier stood at one revision since `from`. */
  ghost predicate Barred(r: Run, from: nat, u: Uuid) {
    exists v :: Saw(r, from, u, v) && v.View? && v.intent.Some?
  }

  /**
   * The slot that the caller insists on was owned although nothing was sent
   * since the instance was seen unallocated, or the instance had another one.
   */
  ghost predicate Unavailable(l: Log, from: nat, u: Uuid, preferred: Option<nat>) {
    && preferred.Some?
    && ((exists c: nat :: Checkpoint(l, from, c, u) && SlotSeen(l.run, c, preferred.value))
        || exists v :: Saw(l.run, from, u, v) && v.View? && v.assignment.gen.slot != preferred.value)
  }

  /** The instance's generation was replaced or removed between two revisions since `from`. */
  ghost predicate Displaced(r: Run, from: nat, u: Uuid) {
    exists i: nat, j: nat :: from <= i < j && DisplacedBetween(r, i, j, u)
  }

  ghost predicate DisplacedBetween(r: Run, i: nat, j: nat, u: Uuid) {
    && i < j < |r.states| && HasAssignment(r.states[i].db, u)
    && (HasAssignment(r.states[j].db, u) ==> AssignmentAt(r.states[j].db, u).gen != AssignmentAt(r.states[i].db, u).gen)
  }

  /** This mutation was turned away as one of the actions from `from` to `to`. */
  ghost predicate Refusing(cfg: Config, l: Log, from: nat, to: nat, k: nat, m: Mutation)
    requires ValidRun(cfg, l.run) && |l.own| == |l.run.actions|
  {
    from <= k < to && RefusedAt(cfg, l, k) && l.run.actions[k].m == m
  }

  /** It was turned away twice, or once although the health record it compared was seen again. */
  ghost predicate TurnedAway(cfg: Config, l: Log, from: nat, to: nat, m: Mutation)
    requires ValidRun(cfg, l.run) && |l.own| == |l.run.actions|
  {
    exists k: nat ::
      && Refusing(cfg, l, from, to, k, m)
      && (|Refusals(cfg, l, from)| >= 2 || HealthAgain(l.run, k + 1, l.run.actions[k].g.health))
  }

  /** Its allocation was turned away, but afterwards the instance was unallocated and then the slot free. */
  ghost predicate Unexplained(cfg: Config, l: Log, from: nat, u: Uuid)
    requires ValidRun(cfg, l.run) && |l.own| == |l.run.actions|
  {
    exists m, c: nat ::
      && TurnedAway(cfg, l, from, c, m) && m.Allocate? && m.instance == u
      && c < |l.run.states| && ViewAt(l.run.states[c].db, u, NoAllocation) && SlotFree(l.run, c, m.slot)
  }

  /** Why a search for a slot may fail although there is one. */
  ghost predicate SearchExcused(
      cfg: Config, l: Log, l': Log, latched: bool, u: Uuid, preferred: Option<nat>, e: Error)
    requires ValidRun(cfg, l'.run) && |l'.own| == |l'.run.actions|
  {
    var from := |l.run.actions|;
    match e
    case Integrity => latched || MovedOn(cfg, l', from, u) || Displaced(l'.run, from, u)
    case Conflict =>
      || Flips(l'.run, from, u, 16)
      || Barred(l'.run, from, u) || Unavailable(l', from, u, preferred)
    case Backend => Troubled(l, l') || Unconfirmed(l, l', u) || Unexplained(cfg, l', from, u)
    case _ => false
  }

  /** What excuses the last part of a search excuses all of it. */
  lemma SearchExcusedFrom(
      cfg: Config, l: Log, mid: Log, l': Log, latched: bool, u: Uuid,
      preferred: Option<nat>, preferred': Option<nat>, e: Error)
    requires ValidRun(cfg, l'.run) && |l'.own| == |l'.run.actions|
    requires |l.run.actions| <= |mid.run.actions| && NotesGrow(l.notes, mid.notes)
    requires preferred.Some? ==> preferred' == preferred
    requires SearchExcused(cfg, mid, l', latched, u, preferred, e)
    ensures SearchExcused(cfg, l, l', latched, u, preferred', e)
  {
    var from, from' := |mid.run.actions|, |l.run.actions|;
    match e
    case Integrity =>
      MovedOnFrom(cfg, l', from, from', u);
    case Conflict =>
      if Flips(l'.run, from, u, 16) {
        FlipsStay(l'.run, l'.run, from, from', u, 16);
      }
      BarredFrom(l'.run, from, from', u);
      UnavailableFrom(l', from, from', u, preferred);
    case Backend =>
      if Unconfirmed(mid, l', u) {
        UnconfirmedFrom(l, mid, l', u);
      }
      UnexplainedFrom(cfg, l', from, from', u);
    case _ =>
  }

  lemma UnexplainedFrom(cfg: Config, l: Log, from: nat, from': nat, u: Uuid)
    requires ValidRun(cfg, l.run) && |l.own| == |l.run.actions| && from' <= from
    ensures Unexplained(cfg, l, from, u) ==> Unexplained(cfg, l, from', u)
  {
    if Unexplained(cfg, l, from, u) {
      var m, c: nat :|
        && TurnedAway(cfg, l, from, c, m) && m.Allocate? && m.instance == u
        && c < |l.run.states| && ViewAt(l.run.states[c].db, u, NoAllocation) && SlotFree(l.run, c, m.slot);
      TurnedAwayStays(cfg, l, l, from, from', c, c, m);
    }
  }

  lemma RefusedUnderStays(cfg: Config, l: Log, l': Log, from: nat, from': nat, m: Mutation, g: Guard)
    requires ValidRun(cfg, l.run) && |l.own| == |l.run.actions|
    requires ValidRun(cfg, l'.run) && |l'.own| == |l'.run.actions|
    requires l.run.states <= l'.run.states && l.run.actions <= l'.run.actions && l.own <= l'.own
    requires from' <= from && RefusedUnder(cfg, l, from, m, g)
    ensures RefusedUnder(cfg, l', from', m, g)
  {
    var k: nat :| from <= k && RefusedAt(cfg, l, k) && l.run.actions[k] == Mutate(m, g);
    RefusedStaysAt(cfg, l, l', k);
    assert l'.run.actions[k] == l.run.actions[k];
  }

  /** Refused, and the health record that was compared was seen again. */
  lemma RefusedAndKept(cfg: Config, l: Log, l': Log, from: nat, m: Mutation, g: Guard, lease: LeaseId)
    requires ValidRun(cfg, l.run) && |l.own| == |l.run.actions|
    requires ValidRun(cfg, l'.run) && |l'.own| == |l'.run.actions|
    requires l.run.states <= l'.run.states && l.run.actions <= l'.run.actions && l.own <= l'.own
    requires RefusedUnder(cfg, l, from, m, g) && HealthSeen(l'.run, |l.run.actions|, g.health, lease)
    ensures TurnedAway(cfg, l', from, |l'.run.actions|, m)
  {
    var k: nat :| from <= k && RefusedAt(cfg, l, k) && l.run.actions[k] == Mutate(m, g);
    RefusedStaysAt(cfg, l, l', k);
    assert l'.run.actions[k] == l.run.actions[k];
    HealthSeenStays(l'.run, l'.run, |l.run.actions|, k + 1, g.health, lease);
    assert Refusing(cfg, l', from, |l'.run.actions|, k, m);
  }

  lemma RefusedTwice(cfg: Config, l: Log, mid: Log, l': Log, m: Mutation)
    requires ValidRun(cfg, mid.run) && |mid.own| == |mid.run.actions| && |l.run.actions| <= |mid.run.actions|
    requires ValidRun(cfg, l'.run) && |l'.own| == |l'.run.actions|
    requires mid.run.states <= l'.run.states && mid.run.actions <= l'.run.actions && mid.own <= l'.own
    requires exists g :: RefusedUnder(cfg, mid, |l.run.actions|, m, g)
    requires exists g :: RefusedUnder(cfg, l', |mid.run.actions|, m, g)
    ensures TurnedAway(cfg, l', |l.run.actions|, |l'.run.actions|, m)
  {
    var from := |l.run.actions|;
    var g :| RefusedUnder(cfg, mid, from, m, g);
    var k: nat :| from <= k && RefusedAt(cfg, mid, k) && mid.run.actions[k] == Mutate(m, g);
    RefusalsFrom(cfg, mid, from, from);
    RefusalsGrow(cfg, mid, l', from);
    RefusedStaysAt(cfg, mid, l', k);
    assert l'.run.actions[k] == mid.run.actions[k];
    assert Refusing(cfg, l', from, |l'.run.actions|, k, m);
  }

  lemma HealthAgainStays(r: Run, r': Run, from: nat, from': nat, health: Raw)
    requires r.states <= r'.states && from' <= from
    ensures HealthAgain(r, from, health) ==> HealthAgain(r', from', health)
  {
    if lease :| HealthSeen(r, from, health, lease) {
      HealthSeenStays(r, r', from, from', health, lease);
    }
  }

  lemma TurnedAwayStays(
      cfg: Config, l: Log, l': Log, from: nat, from': nat, to: nat, to': nat, m: Mutation)
    requires ValidRun(cfg, l.run) && |l.own| == |l.run.actions|
    requires ValidRun(cfg, l'.run) && |l'.own| == |l'.run.actions|
    requires l.run.states <= l'.run.states && l.run.actions <= l'.run.actions && l.own <= l'.own
    requires from' <= from <= |l.run.actions| && to <= to' && TurnedAway(cfg, l, from, to, m)
    ensures TurnedAway(cfg, l', from', to', m)
  {
    var k: nat :|
      && Refusing(cfg, l, from, to, k, m)
      && (|Refusals(cfg, l, from)| >= 2 || HealthAgain(l.run, k + 1, l.run.actions[k].g.health));
    RefusedStaysAt(cfg, l, l', k);
    assert l'.run.actions[k] == l.run.actions[k];
    assert Refusing(cfg, l', from', to', k, m);
    if |Refusals(cfg, l, from)| >= 2 {
      RefusalsGrow(cfg, l, l', from);
      RefusalsFrom(cfg, l', from, from');
    } else {
      HealthAgainStays(l.run, l'.run, k + 1, k + 1, l.run.actions[k].g.health);
    }
  }

  lemma BarredFrom(r: Run, from: nat, from': nat, u: Uuid)
    requires from' <= from
    ensures Barred(r, from, u) ==> Barred(r, from', u)
  {
    if Barred(r, from, u) {
      var v :| Saw(r, from, u, v) && v.View? && v.intent.Some?;
      SawEarlier(r, from, from', u, v);
    }
  }

  lemma UnavailableFrom(l: Log, from: nat, from': nat, u: Uuid, preferred: Option<nat>)
    requires from' <= from
    ensures Unavailable(l, from, u, preferred) ==> Unavailable(l, from', u, preferred)
  {
    if Unavailable(l, from, u, preferred) {
      if c: nat :| Checkpoint(l, from, c, u) && SlotSeen(l.run, c, preferred.value) {
        assert Checkpoint(l, from', c, u);
      } else {
        var v :| Saw(l.run, from, u, v) && v.View? && v.assignment.gen.slot != preferred.value;
        SawEarlier(l.run, from, from', u, v);
      }
    }
  }

  /** Every slot was seen owned at some revision since `from`. */
  ghost predicate AllSeen(cfg: Config, r: Run, from: nat) {
    forall n: nat | n < cfg.count :: SlotSeen(r, from, n)
  }

  ghost predicate NoneFree(cfg: Config, db: Db) {
    forall n: nat | n < cfg.count :: SlotKey(n) in db
  }

  /**
   * What `allocate` promises, for a call that began at revision `from`: the
   * result stood at one revision of the call, on the preferred base if there
   * was one; an exhausted search saw every slot owned during the call; and
   * when no other client commits in the meantime, an unallocated instance gets
   * the first slot of the probe order that was free at the start, and
   * exhaustion means that none was.
   */
  ghost predicate AllocateOutcome(
      cfg: Config, l: Log, from: nat, u: Uuid, base: Option<int>, start: nat, r: Result<Assignment>)
    requires ValidConfig(cfg) && ValidRun(cfg, l.run) && |l.own| == |l.run.actions| && from < |l.run.states|
  {
    && (r.Ok? ==>
          && AllocationSeen(l.run, from, u, r.value)
          && (base.Some? ==> r.value.gen.base == base.value)
          && (base.None? && Alone(cfg, l, from) && InstanceKey(u) !in l.run.states[from].db ==>
                r.value.gen.slot >= 0 && FirstFree(cfg, l.run.states[from].db, start, r.value.gen.slot)))
    && (r == Err(Exhausted) ==>
          && base.None? && AllSeen(cfg, l.run, from)
          && (Alone(cfg, l, from) ==> NoneFree(cfg, l.run.states[from].db)))
  }

  // ---- the steps of a search --------------------------------------------------------------

  lemma AllocationSeenEarlier(r: Run, from: nat, from': nat, u: Uuid, a: Assignment)
    requires AllocationSeen(r, from, u, a) && from' <= from
    ensures AllocationSeen(r, from', u, a)
  {
    var v :| Saw(r, from, u, v) && v.View? && v.assignment == a && v.intent.None?;
    SawEarlier(r, from, from', u, v);
  }

  /** An allocation that was there and is not what a later read finds has been displaced. */
  lemma AllocationDisplaced(r: Run, r': Run, from: nat, u: Uuid, a: Assignment, v: View)
    requires |r.states| > 0 && r.states <= r'.states
    requires AllocationSeen(r, from, u, a) && Saw(r', |r.states| - 1, u, v)
    requires v.NoAllocation? || v.assignment.gen != a.gen
    ensures Displaced(r', from, u)
  {
    var w :| Saw(r, from, u, w) && w.View? && w.assignment == a && w.intent.None?;
    var i: nat :| from <= i < |r.states| && ViewAt(r.states[i].db, u, w);
    var j: nat :| |r.states| - 1 <= j < |r'.states| && ViewAt(r'.states[j].db, u, v);
    assert r'.states[i] == r.states[i];
    assert DisplacedBetween(r', i, j, u);
  }

  /** How one probe of a slot that was free may end, for a search that goes on or not. */
  ghost predicate Probed(
      cfg: Config, l: Log, l': Log, latched: bool, u: Uuid, slot: nat, preferred: Option<nat>,
      done: Option<Result<Assignment>>, c: nat)
    requires ValidRun(cfg, l'.run) && |l'.own| == |l'.run.actions|
  {
    var from := |l.run.actions|;
    if done.None? then preferred.None? && SlotSeen(l'.run, from, slot) && Checkpoint(l', from, c, u)
    else if done.value.Ok? then
      && AllocationSeen(l'.run, from, u, done.value.value)
      && (preferred.Some? ==> done.value.value.gen.slot == slot)
    else SearchExcused(cfg, l, l', latched, u, preferred, done.value.error)
  }

  lemma ProbedLater(
      cfg: Config, l: Log, mid: Log, l': Log, latched: bool, u: Uuid, slot: nat, preferred: Option<nat>,
      done: Option<Result<Assignment>>, c: nat)
    requires ValidRun(cfg, l'.run) && |l'.own| == |l'.run.actions|
    requires |l.run.actions| <= |mid.run.actions| && NotesGrow(l.notes, mid.notes)
    requires Probed(cfg, mid, l', latched, u, slot, preferred, done, c)
    ensures Probed(cfg, l, l', latched, u, slot, preferred, done, c)
  {
    if done.Some? && done.value.Ok? {
      AllocationSeenEarlier(l'.run, |mid.run.actions|, |l.run.actions|, u, done.value.value);
    } else if done.Some? {
      SearchExcusedFrom(cfg, l, mid, l', latched, u, preferred, preferred, done.value.error);
    }
  }

  /** What the second look at a refused slot says. */
  function SlotVerdict(preferred: Option<nat>, free: Result<bool>): Option<Result<Assignment>> {
    if free.Err? then Some(Err(free.error))
    else if free.value then Some(Err(Backend))
    else if preferred.Some? then Some(Err(Conflict)) else None
  }

  lemma RefusalSettled(
      cfg: Config, l: Log, mid: Log, seen: Log, l': Log, latched: bool, u: Uuid, slot: nat,
      preferred: Option<nat>, id: Uuid, free: Result<bool>, c: nat)
    requires ValidRun(cfg, mid.run) && |mid.own| == |mid.run.actions|
    requires ValidRun(cfg, l'.run) && |l'.own| == |l'.run.actions| && Ran(mid, l', Silence)
    requires seen.run.states <= l'.run.states && |seen.run.states| == |seen.run.actions| + 1
    requires |mid.run.actions| <= |seen.run.actions| && NotesGrow(l.notes, seen.notes)
    requires |l.run.actions| <= |mid.run.actions| && (preferred.Some? ==> preferred.value == slot)
    requires TurnedAway(cfg, mid, |l.run.actions|, |mid.run.actions|, Mutation.Allocate(u, slot, id))
    requires |mid.run.actions| <= c < |seen.run.states| && ViewAt(seen.run.states[c].db, u, NoAllocation)
    requires free == Ok(false) ==> SlotSeen(l'.run, |seen.run.actions|, slot)
    requires free == Ok(true) ==> SlotFree(l'.run, |seen.run.actions|, slot)
    requires free.Err? ==> SearchExcused(cfg, seen, l', latched, u, None, free.error)
    ensures Probed(cfg, l, l', latched, u, slot, preferred, SlotVerdict(preferred, free), c)
  {
    var from := |l.run.actions|;
    NothingSent(mid, l', Silence);
    SentForLater(l', |mid.run.actions|, c);
    assert l'.run.states[c] == seen.run.states[c];
    SlotSeenFrom(l'.run, |seen.run.actions|, c, slot);
    SlotSeenFrom(l'.run, |seen.run.actions|, from, slot);
    if free.Err? {
      SearchExcusedFrom(cfg, l, seen, l', latched, u, None, preferred, free.error);
    } else if free.value {
      TurnedAwayStays(cfg, mid, l', from, from, |mid.run.actions|, c, Mutation.Allocate(u, slot, id));
      assert Unexplained(cfg, l', from, u);
    } else {
      assert Checkpoint(l', from, c, u);
    }
  }

  lemma SlotSeenFrom(r: Run, from: nat, from': nat, n: nat)
    requires from' <= from
    ensures SlotSeen(r, from, n) ==> SlotSeen(r, from', n)
    ensures SlotFree(r, from, n) ==> SlotFree(r, from', n)
  {
  }

  lemma NothingSent(l: Log, l': Log, t: Traffic)
    requires Ran(l, l', t) && t.Sends? && t.writes.Nothing? && |l'.run.states| == |l'.run.actions| + 1
    ensures SentFor(l', |l.run.actions|, None)
  {
    forall k: nat | |l.run.actions| <= k < |l'.own| && l'.own[k] ensures !l'.run.actions[k].Mutate? {
      assert Allows(t, l'.run.actions[k]);
    }
  }

  lemma SentForLater(l: Log, from: nat, c: nat)
    requires SentFor(l, from, None) && from <= c
    ensures SentFor(l, c, None)
  {
  }

  lemma OneSlotSent(l: Log, l': Log, u: Uuid, slot: nat, id: Uuid)
    requires Ran(l, l', Mutations(Exactly(Mutation.Allocate(u, slot, id))))
    ensures SentFor(l', |l.run.actions|, Some(slot))
  {
    var t := Mutations(Exactly(Mutation.Allocate(u, slot, id)));
    forall k: nat | |l.run.actions| <= k < |l'.own| && l'.own[k] && l'.run.actions[k].Mutate?
      ensures l'.run.actions[k].m.Allocate? && l'.run.actions[k].m.slot == slot
    {
      assert Allows(t, l'.run.actions[k]);
    }
  }

  lemma SearchAllowed(l: Log, l': Log, u: Uuid, id: Uuid)
    requires Ran(l, l', Mutations(SlotsFor(u, id)))
    ensures SentOnly(l', |l.run.actions|, u, id)
  {
    var t := Mutations(SlotsFor(u, id));
    forall k: nat | |l.run.actions| <= k < |l'.own| && l'.own[k] && l'.run.actions[k].Mutate?
      ensures Searches(l'.run.actions[k].m, u, id)
    {
      assert Allows(t, l'.run.actions[k]);
    }
  }

  /** How the search for a slot ends, for a call that began at log `l`. */
  ghost predicate Searched(
      cfg: Config, l: Log, l': Log, latched: bool, u: Uuid, start: nat, preferred: Option<nat>, r: Result<Assignment>)
    requires ValidConfig(cfg) && ValidRun(cfg, l'.run) && |l'.own| == |l'.run.actions|
  {
    var from := |l.run.actions|;
    match r
    case Ok(a) =>
      && AllocationSeen(l'.run, from, u, a)
      && (preferred.Some? ==> a.gen.slot == preferred.value)
      && (preferred.None? ==> FoundInOrder(cfg, l', from, u, start))
    case Err(e) =>
      if e.Exhausted? then preferred.None? && ExhaustedInOrder(cfg, l', from, u, start)
      else SearchExcused(cfg, l, l', latched, u, preferred, e)
  }

  /** The search has seen `offset` slots owned, and the instance unallocated at revision `c`, since its last send. */
  ghost predicate SearchedTo(cfg: Config, l: Log, l': Log, u: Uuid, start: nat, offset: nat, c: nat)
    requires ValidConfig(cfg)
  {
    && |l.run.actions| <= |l'.run.actions| && NotesGrow(l.notes, l'.notes)
    && Checkpoint(l', |l.run.actions|, c, u)
    && forall j: nat | j < offset :: SlotSeen(l'.run, |l.run.actions|, ProbeSlot(cfg, start, j))
  }

  lemma SlotsStaySeen(cfg: Config, r: Run, r': Run, from: nat, start: nat, offset: nat)
    requires ValidConfig(cfg) && r.states <= r'.states
    requires forall j: nat | j < offset :: SlotSeen(r, from, ProbeSlot(cfg, start, j))
    ensures forall j: nat | j < offset :: SlotSeen(r', from, ProbeSlot(cfg, start, j))
  {
    forall j: nat | j < offset ensures SlotSeen(r', from, ProbeSlot(cfg, start, j)) {
      SlotSeenStays(r, r', from, ProbeSlot(cfg, start, j));
    }
  }

  /** The preferred slot was seen owned before anything was sent. */
  ghost predicate TakenSince(l: Log, l': Log, slot: nat, preferred: Option<nat>, e: Error) {
    && preferred == Some(slot) && e.Conflict?
    && SentFor(l', |l.run.actions|, None) && SlotSeen(l'.run, |l.run.actions|, slot)
  }

  /** A probe that ended the search. */
  lemma ProbeEnds(
      cfg: Config, l: Log, before: Log, l': Log, latched: bool, u: Uuid, start: nat, offset: nat, c: nat,
      slot: nat, preferred: Option<nat>, r: Result<Assignment>, id: Uuid)
    requires ValidConfig(cfg) && ValidRun(cfg, l'.run) && |l'.own| == |l'.run.actions| && offset < cfg.count
    requires |before.run.states| == |before.run.actions| + 1
    requires SearchedTo(cfg, l, before, u, start, offset, c)
    requires Ran(before, l', Mutations(Exactly(Mutation.Allocate(u, slot, id))))
    requires slot == if preferred.Some? then preferred.value else ProbeSlot(cfg, start, offset)
    requires r.Ok? ==>
      AllocationSeen(l'.run, |before.run.actions|, u, r.value) && (preferred.Some? ==> r.value.gen.slot == slot)
    requires r.Err? ==>
      SearchExcused(cfg, before, l', latched, u, preferred, r.error) || TakenSince(before, l', slot, preferred, r.error)
    ensures Searched(cfg, l, l', latched, u, start, preferred, r)
  {
    var from := |l.run.actions|;
    if r.Err? && SearchExcused(cfg, before, l', latched, u, preferred, r.error) {
      SearchExcusedFrom(cfg, l, before, l', latched, u, preferred, preferred, r.error);
    } else if r.Err? {
      OneSlotSent(before, l', u, slot, id);
      ProbedOn(before, l', from, c, u, slot);
      SlotSeenFrom(l'.run, |before.run.actions|, c, slot);
    } else {
      AllocationSeenEarlier(l'.run, |before.run.actions|, from, u, r.value);
      OneSlotSent(before, l', u, slot, id);
      ProbedOn(before, l', from, c, u, slot);
      SlotsStaySeen(cfg, before.run, l'.run, from, start, offset);
    }
  }

  /** A probe after which the search goes on, from a checkpoint of its own or the old one. */
  lemma ProbeGoesOn(
      cfg: Config, l: Log, before: Log, l': Log, u: Uuid, start: nat, offset: nat, c: nat, slot: nat, c1: nat, id: Uuid)
    returns (c': nat)
    requires ValidConfig(cfg)
    requires |l'.run.states| == |l'.run.actions| + 1 && |before.run.states| == |before.run.actions| + 1
    requires SearchedTo(cfg, l, before, u, start, offset, c) && slot == ProbeSlot(cfg, start, offset)
    requires Ran(before, l', Mutations(Exactly(Mutation.Allocate(u, slot, id))))
    requires SlotSeen(l'.run, |before.run.actions|, slot)
    requires SentFor(l', |before.run.actions|, None) || Checkpoint(l', |before.run.actions|, c1, u)
    ensures SearchedTo(cfg, l, l', u, start, offset + 1, c')
  {
    var from := |l.run.actions|;
    OneSlotSent(before, l', u, slot, id);
    ProbedOn(before, l', from, c, u, slot);
    SlotsStaySeen(cfg, before.run, l'.run, from, start, offset);
    c' := if SentFor(l', |before.run.actions|, None) then c else c1;
  }

  /** Why `allocate` may fail: the preference is refused as such, or the search is excused. */
  ghost predicate AllocateExcused(
      cfg: Config, l: Log, l': Log, latched: bool, u: Uuid, base: Option<int>, size: Option<int>, e: Error)
    requires ValidConfig(cfg) && ValidRun(cfg, l'.run) && |l'.own| == |l'.run.actions|
  {
    || PreferenceRefused(cfg, base, size, e)
    || SearchExcused(cfg, l, l', latched, u, None, e)
    || exists n: nat :: base.Some? && IsBase(cfg, base.value, n) && SearchExcused(cfg, l, l', latched, u, Some(n), e)
  }

  predicate IsBase(cfg: Config, base: int, n: nat) {
    base == SlotBase(cfg, n)
  }

  /** The preferences that no search can meet: impossible numbers, another size, or no slot's base. */
  ghost predicate PreferenceRefused(cfg: Config, base: Option<int>, size: Option<int>, e: Error) {
    var fits := size.Some? ==> size.value == cfg.size;
    match e
    case Configuration =>
      (size.Some? && size.value < 1) || (fits && base.Some? && base.value < 1)
    case Conflict =>
      || (!fits && size.value >= 1)
      || (fits && base.Some? && base.value >= 1 && forall n: nat | n < cfg.count :: !IsBase(cfg, base.value, n))
    case _ => false
  }

  /** Any other preference is met by exactly the slot of that base, or by every slot. */
  lemma PreferenceExact(cfg: Config, base: Option<int>, size: Option<int>)
    requires ValidConfig(cfg)
    ensures forall e :: PreferredChoice(cfg, base, size) == Err(e) <==> PreferenceRefused(cfg, base, size, e)
    ensures PreferredChoice(cfg, base, size).Ok? ==>
      var p := PreferredChoice(cfg, base, size).value;
      (p.Some? <==> base.Some?) && (p.Some? ==> p.value < cfg.count && IsBase(cfg, base.value, p.value))
  {
    if base.Some? {
      forall n: nat
        ensures PreferredSlot(cfg, base.value, size) == Ok(n) <==>
                (size.Some? ==> size.value == cfg.size) && n < cfg.count && IsBase(cfg, base.value, n)
      {
        PreferredSlotExact(cfg, base.value, size, n);
      }
    }
  }

  /** A search that ran from a checkpoint to its end says what it promises about the start. */
  lemma SearchConcludes(
      cfg: Config, l: Log, l': Log, from: nat, u: Uuid, id: Uuid,
      base: Option<int>, size: Option<int>, start: nat, r: Result<Assignment>)
    requires ValidConfig(cfg) && ValidRun(cfg, l'.run) && |l'.own| == |l'.run.actions| && start < cfg.count
    requires from < |l.run.states| == |l.run.actions| + 1 && |l.own| == |l.run.actions|
    requires l.run.states <= l'.run.states && l.run.actions <= l'.run.actions && l.own <= l'.own
    requires SentFor(l, from, None) && SentOnly(l', |l.run.actions|, u, id)
    requires PreferredChoice(cfg, base, size).Ok?
    requires r.Ok? ==>
      var preferred := PreferredChoice(cfg, base, size).value;
      && AllocationSeen(l'.run, from, u, r.value)
      && (preferred.Some? ==> r.value.gen.slot == preferred.value)
      && (preferred.None? ==> FoundInOrder(cfg, l', from, u, start))
    requires r == Err(Exhausted) ==> base.None? && ExhaustedInOrder(cfg, l', from, u, start)
    ensures AllocateOutcome(cfg, l', from, u, base, start, r)
  {
    SentSinceStart(l, l', from, u, id);
    if r == Err(Exhausted) {
      ExhaustedConcludes(cfg, l', from, u, id, start);
    }
    if r.Ok? {
      PreferredKept(cfg, l'.run, from, u, base, size, r.value);
      if base.None? && Alone(cfg, l', from) && InstanceKey(u) !in l'.run.states[from].db {
        FoundConcludes(cfg, l', from, u, id, start, r.value);
      }
    }
  }

  lemma ExhaustedConcludes(cfg: Config, l: Log, from: nat, u: Uuid, id: Uuid, start: nat)
    requires ValidConfig(cfg) && ValidRun(cfg, l.run) && start < cfg.count && from < |l.run.states|
    requires SentOnly(l, from, u, id) && ExhaustedInOrder(cfg, l, from, u, start)
    ensures AllSeen(cfg, l.run, from)
    ensures Alone(cfg, l, from) ==> NoneFree(cfg, l.run.states[from].db)
  {
    var c: nat :| Checkpoint(l, from, c, u);
    forall n: nat | n < cfg.count
      ensures SlotSeen(l.run, from, n)
      ensures Alone(cfg, l, from) ==> SlotKey(n) in l.run.states[from].db
    {
      ProbeVisitsOnce(cfg, start, n);
      if Alone(cfg, l, from) {
        ExhaustedWasFull(cfg, l, from, c, u, id, n);
      }
    }
  }

  /** An allocation on the preferred slot has the preferred base. */
  lemma PreferredKept(
      cfg: Config, r: Run, from: nat, u: Uuid, base: Option<int>, size: Option<int>, a: Assignment)
    requires ValidConfig(cfg) && ValidRun(cfg, r) && AllocationSeen(r, from, u, a)
    requires PreferredChoice(cfg, base, size).Ok?
    requires base.Some? ==> a.gen.slot == PreferredChoice(cfg, base, size).value.value
    ensures base.Some? ==> a.gen.base == base.value
  {
    if base.Some? {
      var v :| Saw(r, from, u, v) && v.View? && v.assignment == a && v.intent.None?;
      var e: nat :| from <= e < |r.states| && ViewAt(r.states[e].db, u, v);
      RunKeepsInv(cfg, r, e);
      assert RecordOk(cfg, InstanceKey(u), r.states[e].db[InstanceKey(u)].raw);
      PreferredSlotExact(cfg, base.value, size, a.gen.slot);
    }
  }

  lemma FoundConcludes(cfg: Config, l: Log, from: nat, u: Uuid, id: Uuid, start: nat, a: Assignment)
    requires ValidConfig(cfg) && ValidRun(cfg, l.run) && start < cfg.count
    requires SentOnly(l, from, u, id) && Alone(cfg, l, from) && from < |l.run.states|
    requires AllocationSeen(l.run, from, u, a) && FoundInOrder(cfg, l, from, u, start)
    requires InstanceKey(u) !in l.run.states[from].db
    ensures a.gen.slot >= 0 && FirstFree(cfg, l.run.states[from].db, start, a.gen.slot)
  {
    var v :| Saw(l.run, from, u, v) && v.View? && v.assignment == a && v.intent.None?;
    var e: nat :| from <= e < |l.run.states| && ViewAt(l.run.states[e].db, u, v);
    var k: nat, c: nat :|
      && k < cfg.count && from <= c < |l.run.states| && InstanceKey(u) !in l.run.states[c].db
      && SentFor(l, c, Some(ProbeSlot(cfg, start, k)))
      && forall j: nat | j < k :: SlotSeen(l.run, from, ProbeSlot(cfg, start, j));
    FoundWasFirstFree(cfg, l, from, c, u, id, start, k, e);
  }

  lemma SentSinceStart(l: Log, l': Log, from: nat, u: Uuid, id: Uuid)
    requires from <= |l.run.actions| && |l.own| == |l.run.actions| && |l'.own| == |l'.run.actions|
    requires l.run.actions <= l'.run.actions && l.own <= l'.own
    requires SentFor(l, from, None) && SentOnly(l', |l.run.actions|, u, id)
    ensures SentOnly(l', from, u, id)
  {
    forall k: nat | from <= k < |l.own| ensures !(l'.own[k] && l'.run.actions[k].Mutate?) {
      assert l.own[k] == l'.own[k] && l.run.actions[k] == l'.run.actions[k];
    }
  }

  /** An instance found allocated before the client sent anything was not its own doing. */
  lemma AlreadyThere(
      cfg: Config, l: Log, from: nat, u: Uuid, v: View, base: Option<int>, size: Option<int>, start: nat)
    requires ValidConfig(cfg) && ValidRun(cfg, l.run) && |l.own| == |l.run.actions| && from < |l.run.states|
    requires SentFor(l, from, None) && Saw(l.run, from, u, v) && v.View? && v.intent.None?
    requires PreferredChoice(cfg, base, size).Ok?
    ensures base.None? || v.assignment.gen.slot == PreferredChoice(cfg, base, size).value.value ==>
              AllocateOutcome(cfg, l, from, u, base, start, Ok(v.assignment))
  {
    if Alone(cfg, l, from) && InstanceKey(u) !in l.run.states[from].db {
      AloneIsUncontended(cfg, l, from, u, 0);
      var e: nat :| from <= e < |l.run.states| && ViewAt(l.run.states[e].db, u, v);
      var k := AllocatedBySearch(cfg, l.run, from, e, u, 0);
    }
    if base.None? || v.assignment.gen.slot == PreferredChoice(cfg, base, size).value.value {
      PreferredKept(cfg, l.run, from, u, base, size, v.assignment);
    }
  }

  /** Which slot the caller insists on, if any. */
  function PreferredChoice(cfg: Config, base: Option<int>, size: Option<int>): Result<Option<nat>>
    requires ValidConfig(cfg)
  {
    if base.Some? then
      var slot := PreferredSlot(cfg, base.value, size);
      if slot.Ok? then Ok(Some(slot.value)) else Err(slot.error)
    else if size.Some? && size.value < 1 then Err(Configuration)
    else if size.Some? && size.value != cfg.size then Err(Conflict)
    else Ok(None)
  }

  /** An election that took effect is known to every later state. */
  lemma {:induction false} ElectionRecorded(cfg: Config, r: Run, i: nat)
    requires ValidRun(cfg, r) && i < |r.actions| && r.actions[i].Acquire?
    requires Elected(cfg, r.states[i], r.actions[i])
    ensures r.actions[i].round in r.states[|r.states| - 1].acquired
  {
    assert Stepped(cfg, r, i);
    AcquiredLater(cfg, r, i + 1, |r.states| - 1, r.actions[i].round);
  }

  lemma {:induction false} AcquiredLater(cfg: Config, r: Run, i: nat, j: nat, round: Uuid)
    requires ValidRun(cfg, r) && i <= j < |r.states| && round in r.states[i].acquired
    ensures round in r.states[j].acquired
    decreases j
  {
    if i < j {
      AcquiredLater(cfg, r, i, j - 1, round);
      assert Stepped(cfg, r, j - 1);
      AcquiredStep(cfg, r.states[j - 1], r.actions[j - 1], round);
    }
  }

  lemma AcquiredStep(cfg: Config, f: Fleet, a: Action, round: Uuid)
    requires Permitted(cfg, f, a) && round in f.acquired
    ensures round in Step(cfg, f, a).acquired
  {}

  /** A commit in the log and a view read since stay what they are. */
  lemma CommitThenView(cfg: Config, l: Log, l': Log, from: nat, m: Mutation, u: Uuid, v: View)
    requires ValidRun(cfg, l.run) && |l.own| == |l.run.actions|
    requires ValidRun(cfg, l'.run) && |l'.own| == |l'.run.actions|
    requires l.run.states <= l'.run.states && l.run.actions <= l'.run.actions && l.own <= l'.own
    requires CommittedAs(cfg, l, from, m) && SubjectOf(m) == u && Saw(l'.run, |l.run.states| - 1, u, v)
    ensures CommittedThenSaw(cfg, l', from, m, v)
  {
    var k: nat :| from <= k && CommitsAt(cfg, l.run, k) && l.own[k] && l.run.actions[k].m == m;
    assert l'.run.actions[k] == l.run.actions[k] && l'.run.states[k] == l.run.states[k] && l'.own[k] == l.own[k];
    assert CommitsAt(cfg, l'.run, k);
    var i: nat :| |l.run.states| - 1 <= i < |l'.run.states| && ViewAt(l'.run.states[i].db, u, v);
    assert Saw(l'.run, k + 1, u, v);
  }

  /** What the settling read means, whether the answer had come or not. */
  lemma SettledView(cfg: Config, l: Log, mid: Log, l': Log, m: Mutation, u: Uuid, s: Settled)
    requires ValidRun(cfg, l'.run) && |l'.own| == |l'.run.actions| && s.Reread? && SubjectOf(m) == u
    requires |l.run.actions| <= |mid.run.actions| && mid.notes.unanswered <= l'.notes.unanswered
    requires Saw(l'.run, |mid.run.actions|, u, s.view)
    requires if s.certain then CommittedThenSaw(cfg, l', |l.run.actions|, m, s.view) else LeftOpen(l, mid, m)
    ensures s.certain && !Stands(m, s.view) ==> MovedOn(cfg, l', |l.run.actions|, u)
    ensures !s.certain && !Confirms(m, s.view) ==> Unconfirmed(l, l', u)
  {
    if s.certain {
      NotStanding(cfg, l', |l.run.actions|, m, s);
    } else {
      NotConfirmed(l, mid, l', m, u, s.view);
    }
  }

  /** An own commit that the verifying read does not show has been moved on from. */
  lemma NotStanding(cfg: Config, l: Log, from: nat, m: Mutation, s: Settled)
    requires ValidRun(cfg, l.run) && |l.own| == |l.run.actions| && s.Reread?
    requires s.certain ==> CommittedThenSaw(cfg, l, from, m, s.view)
    ensures s.certain && !Stands(m, s.view) ==> MovedOn(cfg, l, from, SubjectOf(m))
  {
  }

  lemma MovedOnFrom(cfg: Config, l: Log, from: nat, from': nat, u: Uuid)
    requires ValidRun(cfg, l.run) && |l.own| == |l.run.actions| && from' <= from
    ensures MovedOn(cfg, l, from, u) ==> MovedOn(cfg, l, from', u)
  {
    if MovedOn(cfg, l, from, u) {
      var m, v :| SubjectOf(m) == u && CommittedThenSaw(cfg, l, from, m, v) && !Stands(m, v);
      var k: nat :| from <= k && CommitsAt(cfg, l.run, k) && l.own[k] && l.run.actions[k].m == m
                    && Saw(l.run, k + 1, SubjectOf(m), v);
      assert CommittedThenSaw(cfg, l, from', m, v);
    }
  }
}
