/** What a verifying read after one's own commit can mean. */
module Aftermath {
  import opened Wrappers
  import opened Records
  import opened Store
  import opened Registry
  import opened Effects
  import opened Fleet
  import opened Runs
  import opened Lifecycle
  import opened Etcd
  import opened Reader

  function ClaimIn(v: View, h: Uuid): Option<Claim> {
    if v.View? && h in v.claims then Some(v.claims[h]) else None
  }

  /** The view still shows what the mutation wrote. */
  predicate Stands(m: Mutation, v: View) {
    match m
    case Allocate(u, slot, id) => v.View? && v.assignment.gen.slot == slot && v.assignment.gen.allocation == id
    case AddClaim(a, h, t) =>
      ClaimIn(v, h).Some? && v.assignment.gen == a.gen && v.claims[h].token == t
    case ReplaceClaim(a, c, t) =>
      && ClaimIn(v, c.host).Some? && v.assignment.gen == a.gen && v.claims[c.host].token == t
      && v.claims[c.host].state.Unmaterialized?
    case MarkPossible(_, c) => ClaimIn(v, c.host) == Some(c.(state := Possible))
    case MarkCommitted(_, c) => ClaimIn(v, c.host) == Some(c.(state := Committed))
    case RecordProof(_, c, p) => ClaimIn(v, c.host) == Some(c.(state := Cleaned, proof := Some(p)))
    case FenceRetire(_, c, _) => ClaimIn(v, c.host).None?
    case Abandon(_, c) => ClaimIn(v, c.host).None?
    case Retire(_, c) => ClaimIn(v, c.host).None?
    case RequestRelease(a, name) => v.View? && v.intent == Some(Intent(a.gen, name))
    case Release(_, _) => v.NoAllocation?
    case RestoreAll(a, _, barrier) => v.View? && v.assignment == a && v.intent == barrier
    case RestoreIntent(_, _, i) => v.View? && v.intent == Some(i)
  }

  /**
   * The view settles a lost answer: it shows what was written or, for the two
   * materialization marks, the token's claim in the wanted state.
   */
  predicate Confirms(m: Mutation, v: View) {
    || Stands(m, v)
    || ((m.MarkPossible? || m.MarkCommitted?)
        && ClaimIn(v, m.claim.host).Some? && v.claims[m.claim.host].token == m.claim.token
        && v.claims[m.claim.host].state == (if m.MarkPossible? then Possible else Committed))
  }

  /** Right after its commit, a mutation stands in whatever is true of its instance. */
  lemma CommitStands(cfg: Config, db: Db, m: Mutation, v: View)
    requires Consistent(cfg, db) && Admissible(cfg, m) && Commits(db, Body(cfg, m))
    requires ViewAt(Apply(db, Body(cfg, m)), SubjectOf(m), v)
    ensures Stands(m, v)
  {
    var u := SubjectOf(m);
    CurrentHolds(cfg, db, m);
    PairEffect(cfg, db, m, u);
    IntentEffect(cfg, db, m, u);
    if Consumed(m).Some? {
      ConsumedHolds(cfg, db, m);
      ClaimEffect(cfg, db, m, Consumed(m).value.host, u);
    }
    if m.AddClaim? {
      ClaimEffect(cfg, db, m, m.host, u);
    }
  }

  /** The action is a committed mutation of this instance. */
  ghost predicate TouchedAt(cfg: Config, r: Run, k: nat, u: Uuid)
    requires ValidRun(cfg, r)
  {
    CommitsAt(cfg, r, k) && SubjectOf(r.actions[k].m) == u
  }

  /** What is true of an instance changes only in a committed mutation of that instance. */
  lemma ViewKept(cfg: Config, r: Run, k: nat, u: Uuid, v: View)
    requires ValidRun(cfg, r) && k < |r.actions| && !TouchedAt(cfg, r, k, u)
    requires ViewAt(r.states[k + 1].db, u, v)
    ensures ViewAt(r.states[k].db, u, v)
  {
    var f, a := r.states[k], r.actions[k];
    RunKeepsInv(cfg, r, k);
    assert Stepped(cfg, r, k);
    KeyKept(cfg, r, k, u, InstanceKey(u));
    KeyKept(cfg, r, k, u, ReleaseKey(u));
    if v.View? {
      forall h | h in v.claims ensures HasClaim(f.db, h, u) && ClaimAt(f.db, h, u) == v.claims[h] {
        KeyKept(cfg, r, k, u, HostKey(h, u));
      }
    }
  }

  predicate KeyOf(k: Key, u: Uuid) {
    k == InstanceKey(u) || k == ReleaseKey(u) || (k.HostKey? && k.instance == u)
  }

  lemma KeyKept(cfg: Config, r: Run, k: nat, u: Uuid, key: Key)
    requires ValidRun(cfg, r) && k < |r.actions| && !TouchedAt(cfg, r, k, u) && KeyOf(key, u)
    ensures key in r.states[k + 1].db <==> key in r.states[k].db
    ensures key in r.states[k].db ==> r.states[k + 1].db[key] == r.states[k].db[key]
  {
    var f, a := r.states[k], r.actions[k];
    RunKeepsInv(cfg, r, k);
    assert Stepped(cfg, r, k);
    if MutationCommits(cfg, f, a) {
      CompileCommits(cfg, f.db, a.m, a.g);
      PairEffect(cfg, f.db, a.m, u);
      IntentEffect(cfg, f.db, a.m, u);
      if key.HostKey? {
        ClaimEffect(cfg, f.db, a.m, key.host, u);
      }
    } else {
      QuietStep(cfg, f, a, key);
    }
  }

  lemma StandsRightAfter(cfg: Config, r: Run, k: nat, u: Uuid, v: View)
    requires ValidRun(cfg, r) && TouchedAt(cfg, r, k, u)
    ensures ViewAt(r.states[k + 1].db, u, v) ==> Stands(r.actions[k].m, v)
  {
    if ViewAt(r.states[k + 1].db, u, v) {
      RunKeepsInv(cfg, r, k);
      assert Stepped(cfg, r, k);
      CompileCommits(cfg, r.states[k].db, r.actions[k].m, r.actions[k].g);
      CommitStands(cfg, r.states[k].db, r.actions[k].m, v);
    }
  }

  /** No committed mutation of the instance lies strictly between two actions. */
  ghost predicate Untouched(cfg: Config, r: Run, k: nat, i: nat, u: Uuid)
    requires ValidRun(cfg, r)
  {
    forall n: nat | k < n < i :: !TouchedAt(cfg, r, n, u)
  }

  lemma {:induction false} ViewKeptBack(cfg: Config, r: Run, k: nat, i: nat, u: Uuid, v: View)
    requires ValidRun(cfg, r) && k < i < |r.states| && Untouched(cfg, r, k, i, u)
    requires ViewAt(r.states[i].db, u, v)
    ensures ViewAt(r.states[k + 1].db, u, v)
    decreases i
  {
    if k + 1 < i {
      assert !TouchedAt(cfg, r, i - 1, u);
      ViewKept(cfg, r, i - 1, u, v);
      ViewKeptBack(cfg, r, k, i - 1, u, v);
    }
  }

  /** A commit whose effect is no longer visible was followed by another commit on the same instance. */
  lemma SomebodyCameBetween(cfg: Config, r: Run, k: nat, i: nat, u: Uuid, v: View) returns (n: nat)
    requires ValidRun(cfg, r) && TouchedAt(cfg, r, k, u) && k < i < |r.states|
    requires ViewAt(r.states[i].db, u, v) && !Stands(r.actions[k].m, v)
    ensures k < n < i && TouchedAt(cfg, r, n, u)
  {
    if Untouched(cfg, r, k, i, u) {
      ViewKeptBack(cfg, r, k, i, u, v);
      StandsRightAfter(cfg, r, k, u, v);
    }
    n :| k < n < i && TouchedAt(cfg, r, n, u);
  }

  /** This client committed `m` since action `from`, and the view held at a revision after that. */
  ghost predicate CommittedThenSaw(cfg: Config, l: Log, from: nat, m: Mutation, v: View)
    requires ValidRun(cfg, l.run) && |l.own| == |l.run.actions|
  {
    exists k: nat :: from <= k && CommitsAt(cfg, l.run, k) && l.own[k] && l.run.actions[k].m == m
                     && Saw(l.run, k + 1, SubjectOf(m), v)
  }

  /** This client committed a mutation of the instance whose effect a later revision no longer shows. */
  ghost predicate MovedOn(cfg: Config, l: Log, from: nat, u: Uuid)
    requires ValidRun(cfg, l.run) && |l.own| == |l.run.actions|
  {
    exists m, v :: SubjectOf(m) == u && CommittedThenSaw(cfg, l, from, m, v) && !Stands(m, v)
  }

  /** Then somebody else's commit, or another of its own, came after it on the same instance. */
  lemma MovedOnBySomebody(cfg: Config, l: Log, from: nat, u: Uuid) returns (k: nat, n: nat)
    requires ValidRun(cfg, l.run) && |l.own| == |l.run.actions| && MovedOn(cfg, l, from, u)
    ensures from <= k < n && TouchedAt(cfg, l.run, k, u) && l.own[k] && TouchedAt(cfg, l.run, n, u)
  {
    var m, v :| SubjectOf(m) == u && CommittedThenSaw(cfg, l, from, m, v) && !Stands(m, v);
    k :| from <= k && CommitsAt(cfg, l.run, k) && l.own[k] && l.run.actions[k].m == m
         && Saw(l.run, k + 1, SubjectOf(m), v);
    var i: nat :| k + 1 <= i < |l.run.states| && ViewAt(l.run.states[i].db, u, v);
    n := SomebodyCameBetween(cfg, l.run, k, i, u, v);
  }
}
