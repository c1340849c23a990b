/** What one process may send: a bound on the actions of a call, for use in contracts. */
module Traffic {
  import opened Wrappers
  import opened Records
  import opened Store
  import opened Registry
  import opened Fleet

  /** The mutation is about this instance, host and materialization token. */
  predicate Targets(m: Mutation, u: Uuid, h: Uuid, t: Uuid) {
    SubjectOf(m) == u
    && match m
       case AddClaim(_, host, token) => host == h && token == t
       case ReplaceClaim(_, c, token) => c.host == h && token == t
       case MarkPossible(_, c) => c.host == h && c.token == t
       case MarkCommitted(_, c) => c.host == h && c.token == t
       case RecordProof(_, c, _) => c.host == h && c.token == t
       case Abandon(_, c) => c.host == h && c.token == t
       case Retire(_, c) => c.host == h && c.token == t
       case _ => false
  }

  /** The caller may pin the generation that it means. */
  predicate Meets(a: Assignment, expected: Option<Generation>) {
    expected.Some? ==> a.gen == expected.value
  }

  /** The three forward transitions of one claim. */
  datatype Change = ToPossible | ToCommitted | ToCleaned(proof: Proof)

  predicate ChangeOk(change: Change) {
    change.ToCleaned? ==> ValidProof(change.proof)
  }

  /** The mutation makes this change to this claim. */
  predicate IsChange(m: Mutation, u: Uuid, h: Uuid, t: Uuid, change: Change) {
    && Targets(m, u, h, t)
    && match change
       case ToPossible => m.MarkPossible?
       case ToCommitted => m.MarkCommitted?
       case ToCleaned(p) => m.RecordProof? && m.proof == p
  }

  /** The three removals of one claim. */
  datatype Removal = Abandoning(token: Uuid) | Retiring(token: Uuid) | Fencing(fence: Fence)

  /** The mutation makes this removal. */
  predicate IsRemoval(m: Mutation, u: Uuid, h: Uuid, removal: Removal) {
    match removal
    case Abandoning(t) => m.Abandon? && Targets(m, u, h, t)
    case Retiring(t) => m.Retire? && Targets(m, u, h, t)
    case Fencing(f) =>
      && m.FenceRetire? && SubjectOf(m) == u && m.claim.host == h
      && m.fence == f.(token := Some(m.claim.token))
  }

  /** What the allocator itself may send while it runs a fleet audit. */
  predicate AuditActions(token: Uuid, a: Action) {
    || a.Grant? || a.Expire? || a.PassAudit?
    || ((a.Acquire? || a.Promote? || a.Demote?) && a.owner == token)
    || (a.Refresh? && a.seen.CoordinatorRecord? && a.seen.owner == token)
    || (a.PublishFailure? && a.reporter == token)
  }

  /** Which mutations a call may send. */
  datatype Writes =
    | Nothing
    | Exactly(m: Mutation)
    | SlotsFor(instance: Uuid, allocation: Uuid)
    | Claims(instance: Uuid, host: Uuid, claim: Uuid, expected: Option<Generation>)
    | Changes(instance: Uuid, host: Uuid, claim: Uuid, change: Change, expected: Option<Generation>)
    | Removals(instance: Uuid, host: Uuid, removal: Removal, expected: Option<Generation>)
    | Barriers(instance: Uuid, name: string, expected: Option<Generation>)
    | Releases(intent: Intent)
    | Allocations(instance: Uuid)

  predicate Bears(w: Writes, m: Mutation) {
    match w
    case Nothing => false
    case Exactly(m') => m == m'
    case SlotsFor(u, id) => m.Allocate? && m.instance == u && m.allocation == id
    case Claims(u, h, t, expected) =>
      (m.AddClaim? || m.ReplaceClaim?) && Targets(m, u, h, t) && Meets(m.current, expected)
    case Changes(u, h, t, change, expected) => IsChange(m, u, h, t, change) && Meets(m.current, expected)
    case Removals(u, h, removal, expected) => IsRemoval(m, u, h, removal) && Meets(m.current, expected)
    case Barriers(u, name, expected) =>
      m.RequestRelease? && SubjectOf(m) == u && m.name == name && Meets(m.current, expected)
    case Releases(intent) => m.Release? && m.intent == intent
    case Allocations(u) => m.Allocate? && m.instance == u
  }

  /** A bound on what a call sends: the mutations above, and audit traffic under one process's token. */
  datatype Traffic =
    | Sends(auditor: Option<Uuid>, writes: Writes)
    | Only(action: Action)
    | Grants
    | Elections(token: Uuid)

  const Silence := Sends(None, Nothing)

  function Audits(token: Uuid): Traffic { Sends(Some(token), Nothing) }

  function AuditsAnd(token: Uuid, w: Writes): Traffic { Sends(Some(token), w) }

  function Mutations(w: Writes): Traffic { Sends(None, w) }

  predicate Allows(t: Traffic, a: Action) {
    match t
    case Sends(auditor, w) =>
      (auditor.Some? && AuditActions(auditor.value, a)) || (a.Mutate? && Bears(w, a.m))
    case Only(b) => a == b
    case Grants => a.Grant?
    case Elections(token) => a.Acquire? && a.owner == token
  }

  /** One bound lies within another, by their looks. */
  predicate Narrower(s: Traffic, t: Traffic) {
    || s == t
    || (s.Sends? && t.Sends? && (s.auditor.None? || s.auditor == t.auditor)
        && (s.writes == t.writes || s.writes.Nothing? || (s.writes.Exactly? && Bears(t.writes, s.writes.m))
            || (s.writes.SlotsFor? && t.writes == Allocations(s.writes.instance))))
    || (t.Sends? && s.Only? && s.action.Mutate? && Bears(t.writes, s.action.m))
    || (t.Sends? && t.auditor.Some? && (s.Grants? || s == Elections(t.auditor.value)
        || (s.Only? && AuditActions(t.auditor.value, s.action))))
  }

  lemma NarrowerAllows(s: Traffic, t: Traffic, a: Action)
    requires Narrower(s, t) && Allows(s, a)
    ensures Allows(t, a)
  {
  }
}
