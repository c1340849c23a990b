/**
 * The slot search of `allocate`: the probe order, what a caller's preferred
 * base means, and what the search finds when no other client commits.
 */
module SlotSearch {
  import opened Wrappers
  import opened Records
  import opened Store
  import opened Registry
  import opened Preservation
  import opened Effects
  import opened Fleet
  import opened Runs
  import opened Lifecycle
  import opened Etcd
  import opened Reader

  // ---- the probe order ---------------------------------------------------------------

  function ProbeSlot(cfg: Config, start: nat, offset: nat): nat
    requires ValidConfig(cfg)
  {
    (start + offset) % cfg.count
  }

  /** The probe order visits every slot of the namespace exactly once. */
  lemma ProbeVisitsOnce(cfg: Config, start: nat, n: nat)
    requires ValidConfig(cfg) && start < cfg.count && n < cfg.count
    ensures exists k: nat :: k < cfg.count && ProbeSlot(cfg, start, k) == n
    ensures forall j: nat, k: nat | j < cfg.count && k < cfg.count && j != k ::
              ProbeSlot(cfg, start, j) != ProbeSlot(cfg, start, k)
  {
    var k := if n >= start then n - start else n - start + cfg.count;
    ProbeWraps(cfg, start, k);
    assert ProbeSlot(cfg, start, k) == n;
    forall j: nat, k: nat | j < cfg.count && k < cfg.count && j != k
      ensures ProbeSlot(cfg, start, j) != ProbeSlot(cfg, start, k)
    {
      ProbeWraps(cfg, start, j);
      ProbeWraps(cfg, start, k);
    }
  }

  lemma ProbeWraps(cfg: Config, start: nat, k: nat)
    requires ValidConfig(cfg) && start < cfg.count && k < cfg.count
    ensures ProbeSlot(cfg, start, k) == if start + k < cfg.count then start + k else start + k - cfg.count
  {
    if start + k >= cfg.count {
      RemainderUnique(start + k, cfg.count, 1, start + k - cfg.count);
    } else {
      RemainderUnique(start + k, cfg.count, 0, start + k);
    }
  }

  lemma RemainderUnique(x: int, m: int, q: int, r: int)
    requires 0 <= r < m && x == q * m + r
    ensures x / m == q && x % m == r
  {
    var a := x / m - q;
    assert x == x / m * m + x % m;
    assert a * m == x / m * m - q * m;
    MulAtLeast(a, m);
  }

  lemma MulAtLeast(a: int, m: int)
    requires m > 0
    ensures a >= 1 ==> a * m >= m
    ensures a <= -1 ==> a * m <= -m
  {
    if a >= 1 {
      assert (a - 1) * m >= 0;
    } else if a <= -1 {
      assert (-a - 1) * m >= 0;
    }
  }

  /** `_preferred_slot`: the slot of an exact base, with the size check first. */
  function PreferredSlot(cfg: Config, base: int, size: Option<int>): Result<nat>
    requires ValidConfig(cfg)
  {
    if size.Some? && size.value < 1 then Err(Configuration)
    else if size.Some? && size.value != cfg.size then Err(Conflict)
    else if base < 1 then Err(Configuration)
    else if base < cfg.base || (base - cfg.base) % cfg.size != 0 then Err(Conflict)
    else if (base - cfg.base) / cfg.size >= cfg.count then Err(Conflict)
    else Ok((base - cfg.base) / cfg.size)
  }

  /** A preferred base is accepted exactly when it is the base of some slot, and then for that slot. */
  lemma PreferredSlotExact(cfg: Config, base: int, size: Option<int>, n: nat)
    requires ValidConfig(cfg)
    ensures PreferredSlot(cfg, base, size) == Ok(n) <==>
            (size.Some? ==> size.value == cfg.size) && n < cfg.count && base == SlotBase(cfg, n)
  {
    var d := base - cfg.base;
    assert d == d / cfg.size * cfg.size + d % cfg.size;
    if n < cfg.count && base == SlotBase(cfg, n) {
      assert n * cfg.size >= 0;
      assert d == n * cfg.size;
      RemainderUnique(d, cfg.size, n, 0);
    }
  }

  // ---- what a search can report --------------------------------------------------------

  /** The slot was owned at one revision since `from`. */
  ghost predicate SlotSeen(r: Run, from: nat, n: nat) {
    exists i: nat :: from <= i < |r.states| && SlotKey(n) in r.states[i].db
  }

  /** The slot was free at one revision since `from`. */
  ghost predicate SlotFree(r: Run, from: nat, n: nat) {
    exists i: nat :: from <= i < |r.states| && SlotKey(n) !in r.states[i].db
  }

  lemma SlotSeenStays(r: Run, r': Run, from: nat, n: nat)
    requires r.states <= r'.states
    ensures SlotSeen(r, from, n) ==> SlotSeen(r', from, n)
    ensures SlotFree(r, from, n) ==> SlotFree(r', from, n)
  {
    if SlotSeen(r, from, n) {
      var i: nat :| from <= i < |r.states| && SlotKey(n) in r.states[i].db;
      assert r'.states[i] == r.states[i];
    }
    if SlotFree(r, from, n) {
      var i: nat :| from <= i < |r.states| && SlotKey(n) !in r.states[i].db;
      assert r'.states[i] == r.states[i];
    }
  }

  /** Of the probe order, `n` is the first slot that is free in this store. */
  ghost predicate FirstFree(cfg: Config, db: Db, start: nat, n: nat)
    requires ValidConfig(cfg)
  {
    exists k: nat :: k < cfg.count && ProbeSlot(cfg, start, k) == n && SlotKey(n) !in db
                     && forall j: nat | j < k :: SlotKey(ProbeSlot(cfg, start, j)) in db
  }

  // ---- a search without contention -----------------------------------------------------

  /** A mutation of the search for `u` under allocation id `id`. */
  predicate Searches(m: Mutation, u: Uuid, id: Uuid) {
    m.Allocate? && m.instance == u && m.allocation == id
  }

  /** Since `from` nothing commits but the search itself. */
  ghost predicate Uncontended(cfg: Config, r: Run, from: nat, u: Uuid, id: Uuid)
    requires ValidRun(cfg, r)
  {
    forall k: nat | from <= k :: OnlySearch(cfg, r, k, u, id)
  }

  ghost predicate OnlySearch(cfg: Config, r: Run, k: nat, u: Uuid, id: Uuid)
    requires ValidRun(cfg, r)
  {
    CommitsAt(cfg, r, k) ==> Searches(r.actions[k].m, u, id)
  }

  /** The `k`-th action is the commit that gave slot `n` to `u`. */
  ghost predicate FilledAt(cfg: Config, r: Run, k: nat, u: Uuid, n: nat)
    requires ValidRun(cfg, r)
  {
    && CommitsAt(cfg, r, k) && InstanceKey(u) !in r.states[k].db
    && HasAssignment(r.states[k + 1].db, u) && AssignmentAt(r.states[k + 1].db, u).gen.slot == n
  }

  /** A slot changes hands only in a commit of the search. */
  lemma SearchStep(cfg: Config, r: Run, k: nat, u: Uuid, id: Uuid, n: nat)
    requires ValidRun(cfg, r) && k < |r.actions|
    requires OnlySearch(cfg, r, k, u, id)
    ensures SlotKey(n) in r.states[k].db ==> SlotKey(n) in r.states[k + 1].db
    ensures SlotKey(n) !in r.states[k].db && SlotKey(n) in r.states[k + 1].db ==>
      FilledAt(cfg, r, k, u, n)
  {
    assert Stepped(cfg, r, k);
    RunKeepsInv(cfg, r, k);
    if CommitsAt(cfg, r, k) {
      CompileCommits(cfg, r.states[k].db, r.actions[k].m, r.actions[k].g);
      CurrentHolds(cfg, r.states[k].db, r.actions[k].m);
    } else {
      QuietStep(cfg, r.states[k], r.actions[k], SlotKey(n));
    }
  }

  lemma {:induction false} SlotsOnlyFill(cfg: Config, r: Run, i: nat, j: nat, u: Uuid, id: Uuid, n: nat)
    requires ValidRun(cfg, r) && i <= j < |r.states| && Uncontended(cfg, r, i, u, id)
    requires SlotKey(n) in r.states[i].db
    ensures SlotKey(n) in r.states[j].db
    decreases j
  {
    if i < j {
      SlotsOnlyFill(cfg, r, i, j - 1, u, id, n);
      assert OnlySearch(cfg, r, j - 1, u, id);
      SearchStep(cfg, r, j - 1, u, id, n);
    }
  }

  /** A slot that fills up during the search was filled by its one commit. */
  lemma {:induction false} FilledBySearch(cfg: Config, r: Run, i: nat, j: nat, u: Uuid, id: Uuid, n: nat)
      returns (k: nat)
    requires ValidRun(cfg, r) && i <= j < |r.states| && Uncontended(cfg, r, i, u, id)
    requires SlotKey(n) !in r.states[i].db && SlotKey(n) in r.states[j].db
    ensures i <= k < j && FilledAt(cfg, r, k, u, n)
    decreases j
  {
    if SlotKey(n) in r.states[j - 1].db {
      k := FilledBySearch(cfg, r, i, j - 1, u, id, n);
    } else {
      assert OnlySearch(cfg, r, j - 1, u, id);
      SearchStep(cfg, r, j - 1, u, id, n);
      k := j - 1;
    }
  }

  lemma NoReleases(cfg: Config, r: Run, i: nat, u: Uuid, id: Uuid)
    requires ValidRun(cfg, r) && Uncontended(cfg, r, i, u, id)
    ensures forall k: nat | i <= k :: !ReleasesAt(cfg, r, k, u)
  {
    forall k: nat | i <= k ensures !ReleasesAt(cfg, r, k, u) {
      assert OnlySearch(cfg, r, k, u, id);
    }
  }

  /** The search allocates at most once: two revisions that know `u` know one generation. */
  lemma SearchAgrees(cfg: Config, r: Run, from: nat, i: nat, j: nat, u: Uuid, id: Uuid)
    requires ValidRun(cfg, r) && Uncontended(cfg, r, from, u, id)
    requires from <= i < |r.states| && from <= j < |r.states|
    requires HasAssignment(r.states[i].db, u) && HasAssignment(r.states[j].db, u)
    ensures AssignmentAt(r.states[i].db, u).gen == AssignmentAt(r.states[j].db, u).gen
  {
    NoReleases(cfg, r, from, u, id);
    if i <= j {
      GenerationPersists(cfg, r, i, j, u);
    } else {
      GenerationPersists(cfg, r, j, i, u);
    }
  }

  /** Once allocated, an instance stays allocated while only the search commits. */
  lemma StaysAllocated(cfg: Config, r: Run, from: nat, i: nat, j: nat, u: Uuid, id: Uuid)
    requires ValidRun(cfg, r) && Uncontended(cfg, r, from, u, id)
    requires from <= i <= j < |r.states| && HasAssignment(r.states[i].db, u)
    ensures HasAssignment(r.states[j].db, u)
  {
    NoReleases(cfg, r, from, u, id);
    GenerationPersists(cfg, r, i, j, u);
  }

  /**
   * Without contention, a slot that the search saw owned while the instance
   * ended in another slot, or in none, was already owned at the start.
   */
  lemma SeenWasOwned(cfg: Config, r: Run, from: nat, u: Uuid, id: Uuid, n: nat, e: nat)
    requires ValidRun(cfg, r) && Uncontended(cfg, r, from, u, id)
    requires from <= e < |r.states| && SlotSeen(r, from, n)
    requires HasAssignment(r.states[e].db, u) ==> AssignmentAt(r.states[e].db, u).gen.slot != n
    requires !HasAssignment(r.states[e].db, u) ==>
      InstanceKey(u) !in r.states[e].db && forall k: nat | e <= k :: !CommitsAt(cfg, r, k)
    ensures SlotKey(n) in r.states[from].db
  {
    var i: nat :| from <= i < |r.states| && SlotKey(n) in r.states[i].db;
    if SlotKey(n) !in r.states[from].db {
      var k := FilledBySearch(cfg, r, from, i, u, id, n);
      if HasAssignment(r.states[e].db, u) {
        SearchAgrees(cfg, r, from, k + 1, e, u, id);
      } else {
        StaysAllocated(cfg, r, from, k + 1, e, u, id);
      }
    }
  }

  /** The `k`-th action is the commit of the search that allocated `u`. */
  ghost predicate AllocatedAt(cfg: Config, r: Run, k: nat, u: Uuid, id: Uuid)
    requires ValidRun(cfg, r)
  {
    && CommitsAt(cfg, r, k) && Searches(r.actions[k].m, u, id)
    && SlotKey(r.actions[k].m.slot) !in r.states[k].db
    && HasAssignment(r.states[k + 1].db, u)
    && AssignmentAt(r.states[k + 1].db, u).gen.slot == r.actions[k].m.slot
  }

  /** Without contention, an instance that was unallocated was allocated by one commit of the search. */
  lemma {:induction false} AllocatedBySearch(cfg: Config, r: Run, i: nat, j: nat, u: Uuid, id: Uuid)
      returns (k: nat)
    requires ValidRun(cfg, r) && i <= j < |r.states| && Uncontended(cfg, r, i, u, id)
    requires InstanceKey(u) !in r.states[i].db && InstanceKey(u) in r.states[j].db
    ensures i <= k < j && AllocatedAt(cfg, r, k, u, id)
    decreases j
  {
    if InstanceKey(u) in r.states[j - 1].db {
      k := AllocatedBySearch(cfg, r, i, j - 1, u, id);
    } else {
      k := j - 1;
      assert OnlySearch(cfg, r, k, u, id);
      AllocatingStep(cfg, r, k, u, id);
    }
  }

  lemma AllocatingStep(cfg: Config, r: Run, k: nat, u: Uuid, id: Uuid)
    requires ValidRun(cfg, r) && k < |r.actions| && OnlySearch(cfg, r, k, u, id)
    requires InstanceKey(u) !in r.states[k].db && InstanceKey(u) in r.states[k + 1].db
    ensures AllocatedAt(cfg, r, k, u, id)
  {
    assert Stepped(cfg, r, k);
    RunKeepsInv(cfg, r, k);
    if CommitsAt(cfg, r, k) {
      var m := r.actions[k].m;
      CompileCommits(cfg, r.states[k].db, m, r.actions[k].g);
      AbsentHolds(r.states[k].db, SlotKey(m.slot), Body(cfg, m));
    } else {
      QuietStep(cfg, r.states[k], r.actions[k], InstanceKey(u));
    }
  }

  /** Without contention the search ends in the first slot of the probe order that was free at the start. */
  lemma FirstFreeFound(cfg: Config, r: Run, from: nat, u: Uuid, id: Uuid, start: nat, k: nat, e: nat)
    requires ValidConfig(cfg) && ValidRun(cfg, r) && Uncontended(cfg, r, from, u, id)
    requires start < cfg.count && k < cfg.count && from <= e < |r.states|
    requires InstanceKey(u) !in r.states[from].db && HasAssignment(r.states[e].db, u)
    requires AssignmentAt(r.states[e].db, u).gen.slot == ProbeSlot(cfg, start, k)
    requires forall j: nat | j < k :: SlotSeen(r, from, ProbeSlot(cfg, start, j))
    ensures FirstFree(cfg, r.states[from].db, start, ProbeSlot(cfg, start, k))
  {
    var n := ProbeSlot(cfg, start, k);
    var c := AllocatedBySearch(cfg, r, from, e, u, id);
    SearchAgrees(cfg, r, from, c + 1, e, u, id);
    if SlotKey(n) in r.states[from].db {
      SlotsOnlyFill(cfg, r, from, c, u, id, n);
    }
    ProbeVisitsOnce(cfg, start, n);
    forall j: nat | j < k ensures SlotKey(ProbeSlot(cfg, start, j)) in r.states[from].db {
      SeenWasOwned(cfg, r, from, u, id, ProbeSlot(cfg, start, j), e);
    }
  }

  // ---- the client's own bookkeeping ------------------------------------------------------

  /** No other client's mutation commits from revision `from` on. */
  ghost predicate Alone(cfg: Config, l: Log, from: nat)
    requires ValidRun(cfg, l.run) && |l.own| == |l.run.actions|
  {
    forall k: nat | from <= k && CommitsAt(cfg, l.run, k) :: l.own[k]
  }

  /** What one `allocate` call sends besides audit traffic. */
  ghost predicate SentOnly(l: Log, from: nat, u: Uuid, id: Uuid) {
    |l.own| == |l.run.actions|
    && forall k: nat | from <= k < |l.own| && l.own[k] && l.run.actions[k].Mutate? ::
         Searches(l.run.actions[k].m, u, id)
  }

  /** The client sent no mutation from revision `c` on, except for slot `n`. */
  ghost predicate SentFor(l: Log, c: nat, n: Option<nat>) {
    |l.own| == |l.run.actions|
    && forall k: nat | c <= k < |l.own| && l.own[k] && l.run.actions[k].Mutate? ::
         n.Some? && l.run.actions[k].m.Allocate? && l.run.actions[k].m.slot == n.value
  }

  /** At revision `c` the instance was unallocated, and nothing was sent since. */
  ghost predicate Checkpoint(l: Log, from: nat, c: nat, u: Uuid) {
    && from <= c < |l.run.states| && ViewAt(l.run.states[c].db, u, NoAllocation)
    && SentFor(l, c, None)
  }

  /** A slot of the probe order was the only one tried since the instance was last seen unallocated. */
  ghost predicate FoundInOrder(cfg: Config, l: Log, from: nat, u: Uuid, start: nat)
    requires ValidConfig(cfg)
  {
    exists k: nat, c: nat ::
      && k < cfg.count && from <= c < |l.run.states| && InstanceKey(u) !in l.run.states[c].db
      && SentFor(l, c, Some(ProbeSlot(cfg, start, k)))
      && forall j: nat | j < k :: SlotSeen(l.run, from, ProbeSlot(cfg, start, j))
  }

  /** Every slot of the probe order was seen owned, and the instance unallocated after the last try. */
  ghost predicate ExhaustedInOrder(cfg: Config, l: Log, from: nat, u: Uuid, start: nat)
    requires ValidConfig(cfg)
  {
    && (forall k: nat | k < cfg.count :: SlotSeen(l.run, from, ProbeSlot(cfg, start, k)))
    && exists c: nat :: Checkpoint(l, from, c, u)
  }

  /** After one more probe the old checkpoint still tells what was sent. */
  lemma ProbedOn(l: Log, l': Log, from: nat, c: nat, u: Uuid, slot: nat)
    requires Checkpoint(l, from, c, u)
    requires |l.run.states| == |l.run.actions| + 1 && |l'.own| == |l'.run.actions|
    requires l.run.states <= l'.run.states && l.run.actions <= l'.run.actions && l.own <= l'.own
    requires SentFor(l', |l.run.actions|, Some(slot))
    ensures SentFor(l', c, Some(slot)) && from <= c < |l'.run.states| && ViewAt(l'.run.states[c].db, u, NoAllocation)
    ensures SentFor(l', |l.run.actions|, None) ==> Checkpoint(l', from, c, u)
  {
    assert l'.run.states[c] == l.run.states[c];
    forall k: nat | c <= k < |l.own| ensures !(l'.own[k] && l'.run.actions[k].Mutate?) {
      assert l.own[k] == l'.own[k] && l.run.actions[k] == l'.run.actions[k];
    }
  }

  lemma AloneIsUncontended(cfg: Config, l: Log, from: nat, u: Uuid, id: Uuid)
    requires ValidRun(cfg, l.run) && SentOnly(l, from, u, id) && Alone(cfg, l, from)
    ensures Uncontended(cfg, l.run, from, u, id)
  {
    forall k: nat | from <= k ensures OnlySearch(cfg, l.run, k, u, id) {
    }
  }

  /** Alone, an exhausted search started in a full namespace. */
  lemma ExhaustedWasFull(cfg: Config, l: Log, from: nat, c: nat, u: Uuid, id: Uuid, n: nat)
    requires ValidRun(cfg, l.run) && SentOnly(l, from, u, id) && Alone(cfg, l, from)
    requires Checkpoint(l, from, c, u) && SlotSeen(l.run, from, n)
    ensures SlotKey(n) in l.run.states[from].db
  {
    AloneIsUncontended(cfg, l, from, u, id);
    SeenWasOwned(cfg, l.run, from, u, id, n, c);
  }

  /** Alone, the slot found is the one probed since the last checkpoint, and it was the first free one. */
  lemma FoundWasFirstFree(
      cfg: Config, l: Log, from: nat, c: nat, u: Uuid, id: Uuid, start: nat, k: nat, e: nat)
    requires ValidConfig(cfg) && ValidRun(cfg, l.run) && SentOnly(l, from, u, id) && Alone(cfg, l, from)
    requires from <= c < |l.run.states| && InstanceKey(u) !in l.run.states[c].db
    requires start < cfg.count && k < cfg.count && SentFor(l, c, Some(ProbeSlot(cfg, start, k)))
    requires from <= e < |l.run.states| && HasAssignment(l.run.states[e].db, u)
    requires InstanceKey(u) !in l.run.states[from].db
    requires forall j: nat | j < k :: SlotSeen(l.run, from, ProbeSlot(cfg, start, j))
    ensures FirstFree(cfg, l.run.states[from].db, start, ProbeSlot(cfg, start, k))
    ensures AssignmentAt(l.run.states[e].db, u).gen.slot == ProbeSlot(cfg, start, k)
  {
    AloneIsUncontended(cfg, l, from, u, id);
    if e <= c {
      StaysAllocated(cfg, l.run, from, e, c, u, id);
    } else {
      UncontendedLater(cfg, l.run, from, c, u, id);
      var a := AllocatedBySearch(cfg, l.run, c, e, u, id);
      assert l.own[a];
      SearchAgrees(cfg, l.run, from, a + 1, e, u, id);
      FirstFreeFound(cfg, l.run, from, u, id, start, k, e);
    }
  }

  lemma UncontendedLater(cfg: Config, r: Run, from: nat, c: nat, u: Uuid, id: Uuid)
    requires ValidRun(cfg, r) && Uncontended(cfg, r, from, u, id) && from <= c
    ensures Uncontended(cfg, r, c, u, id)
  {
    forall k: nat | c <= k ensures OnlySearch(cfg, r, k, u, id) {
    }
  }
}
