/**
 * The records of the fleet-wide ID-map registry and the checks that the
 * allocator's parsers make on them.
 *
 * A record stands for its canonical JSON text: the parsers reject every text
 * that is not the canonical one, so equal records and equal texts are the same
 * thing. SHA-256 is collision free here: a digest is a constructor around
 * what was hashed. A UUID is a number; canonical texts order as numbers do.
 */
module Records {
  import opened Wrappers

  type Uuid = nat
  type LeaseId = nat

  /** The immutable namespace configuration; `base..base+count*size` is shared out. */
  datatype Config = Config(namespace: string, base: nat, size: nat, count: nat)

  ghost predicate ValidConfig(cfg: Config) {
    && 1 <= cfg.base && 1 <= cfg.size && 1 <= cfg.count
    && cfg.base + cfg.count * cfg.size <= 0x1_0000_0000
  }

  datatype Fingerprint = Sha256Config(config: Config)

  /** What makes one allocation different from every other one. */
  datatype Generation = Generation(
    instance: Uuid, base: int, size: int, slot: int, allocation: Uuid,
    fingerprint: Fingerprint)

  datatype Assignment = Assignment(gen: Generation, hosts: set<Uuid>)

  datatype Intent = Intent(gen: Generation, name: string)

  datatype ClaimState = Unmaterialized | Possible | Committed | Cleaned

  datatype Claim = Claim(
    host: Uuid, token: Uuid, gen: Generation, state: ClaimState,
    proof: Option<Proof>)

  datatype Disposition = DisposeDelete | DisposeDetach | DisposeHandover | DisposeOther

  datatype Driver = CephDriver | CephextDriver | LocalDriver(name: string)

  /** The fields that both kinds of Incus proof carry. */
  datatype Subject = Subject(
    token: Uuid, allocation: Uuid, compute: Uuid, owner: Uuid,
    project: string, instanceName: string, idmapBase: int, idmapSize: int,
    driver: Driver, pool: string, volume: string, rbdImage: string,
    identity: string, baselineClean: bool, disposition: Disposition)

  datatype Outcome =
    | NotMaterialized | ReconciledClean
    | Deleted | Normalized | Detached

  datatype AttemptState = AttemptAborted | AttemptClean | AttemptOther

  datatype StoragePhase = PhaseNone | PhaseClean | PhaseOther

  datatype Digest =
    | Sha256Attempt(subject: Subject, outcome: Outcome)
    | Sha256Receipt(subject: Subject, materialization: Uuid, outcome: Outcome,
                    complete: bool, createdAt: int, completedAt: int)

  datatype Proof =
    | MaterializationProof(
        subject: Subject, outcome: Outcome, attempt: AttemptState,
        phase: StoragePhase, started: bool, finished: bool,
        digest: Digest)
    | ReleaseProof(
        subject: Subject, materialization: Uuid, outcome: Outcome,
        complete: bool, createdAt: int, completedAt: int, digest: Digest)

  datatype Fence = Fence(
    instance: Uuid, host: Uuid, allocation: Uuid, agent: string,
    fencedAt: string, operator: string, evidence: string,
    token: Option<Uuid>)

  datatype AuditState = Pending | Healthy

  /** The value under a key. `Malformed` is every text that no parser accepts. */
  datatype Raw =
    | ConfigRecord(config: Config)
    | AssignmentRecord(assignment: Assignment)
    | IntentRecord(intent: Intent)
    | ClaimRecord(claim: Claim)
    | FenceRecord(fence: Fence)
    | CoordinatorRecord(owner: Uuid, state: AuditState, round: Uuid)
    | FailureRecord(reporter: Uuid, reason: string)
    | Malformed(text: string)

  // ---- the parsers' checks -------------------------------------------------

  function SlotBase(cfg: Config, slot: int): int {
    cfg.base + slot * cfg.size
  }

  predicate GenerationOk(cfg: Config, g: Generation) {
    && g.fingerprint == Sha256Config(cfg)
    && g.size == cfg.size
    && 0 <= g.slot < cfg.count
    && g.base == SlotBase(cfg, g.slot)
  }

  predicate Printable(text: string) {
    forall i | 0 <= i < |text| :: text[i] >= ' '
  }

  predicate InstanceNameOk(name: string) {
    0 < |name| <= 255 && Printable(name)
  }

  predicate ReceiptText(text: string) {
    |text| > 0 && Printable(text)
  }

  /** Checks shared by `_validate_materialization_proof` and `_validate_release_proof`. */
  predicate SubjectOk(p: Subject) {
    && InstanceNameOk(p.instanceName)
    && ReceiptText(p.project) && ReceiptText(p.pool) && ReceiptText(p.volume)
    && (p.driver.LocalDriver? ==> ReceiptText(p.driver.name))
    && Printable(p.rbdImage) && Printable(p.identity)
    && p.baselineClean
    && 0 <= p.idmapBase && 0 < p.idmapSize && p.idmapBase + p.idmapSize <= 0x1_0000_0000
    && !p.disposition.DisposeOther?
    && (p.driver.CephextDriver? ==> p.disposition.DisposeDetach?)
    && (p.disposition.DisposeDetach? ==> !p.driver.LocalDriver?)
    && (p.disposition.DisposeHandover? ==> p.driver.CephDriver?)
  }

  predicate Shared(d: Disposition) {
    d.DisposeDetach? || d.DisposeHandover?
  }

  predicate AttemptTerminal(p: Proof)
    requires p.MaterializationProof?
  {
    match p.outcome
    case NotMaterialized =>
      && p.attempt.AttemptAborted? && p.phase.PhaseNone? && !p.started && p.finished
      && (Shared(p.subject.disposition) || p.subject.identity == "")
    case ReconciledClean =>
      p.attempt.AttemptClean? && p.phase.PhaseClean? && p.started && p.finished
    case _ => false
  }

  predicate ReceiptOutcomeOk(d: Driver, disposition: Disposition, outcome: Outcome) {
    match d
    case CephextDriver => outcome.Normalized? || outcome.Detached?
    case CephDriver =>
      (if disposition.DisposeDetach? then outcome.Detached?
       else outcome.Deleted? || outcome.Detached?)
    case LocalDriver(_) => outcome.Deleted?
  }

  predicate ValidProof(p: Proof) {
    && SubjectOk(p.subject)
    && match p
       case MaterializationProof(s, outcome, _, _, _, _, digest) =>
         && (Shared(s.disposition) ==> s.identity != "")
         && AttemptTerminal(p)
         && digest == Sha256Attempt(s, outcome)
       case ReleaseProof(s, m, outcome, complete, created, completed, digest) =>
         && s.token == m
         && complete && 0 < created <= completed
         && (!s.driver.LocalDriver? ==> s.identity != "")
         && ReceiptOutcomeOk(s.driver, s.disposition, outcome)
         && digest == Sha256Receipt(s, m, outcome, complete, created, completed)
  }

  /** `_validate_claim_proof_binding`: the proof speaks of exactly this claim. */
  predicate ProofBinds(p: Proof, c: Claim) {
    && p.subject.token == c.token
    && p.subject.allocation == c.gen.allocation
    && p.subject.compute == c.host
    && p.subject.owner == c.gen.instance
    && p.subject.idmapBase == c.gen.base
    && p.subject.idmapSize == c.gen.size
  }

  /** The claim state that `_record_claim_proof` demands before it writes `p`. */
  function RequiredState(p: Proof): ClaimState {
    if p.ReleaseProof? then Committed
    else if p.outcome.NotMaterialized? then Unmaterialized
    else Possible
  }

  predicate ClaimOk(cfg: Config, c: Claim) {
    && GenerationOk(cfg, c.gen)
    && (c.state.Cleaned? <==> c.proof.Some?)
    && (c.proof.Some? ==> ValidProof(c.proof.value) && ProofBinds(c.proof.value, c))
  }

  predicate IntentOk(cfg: Config, i: Intent) {
    GenerationOk(cfg, i.gen) && InstanceNameOk(i.name)
  }

  predicate Blank(text: string) {
    forall i | 0 <= i < |text| :: text[i] in {' ', '\t', '\n', '\r'}
  }

  predicate ValidFence(f: Fence) {
    !Blank(f.agent) && !Blank(f.fencedAt) && !Blank(f.operator) && !Blank(f.evidence)
  }
}
