/**
 * `restore` and `restore_registry`: replaying a frozen document against a
 * registry that nobody else touches, when any request may fail or lose its
 * answer at any point.
 */
module Restoration {
  import opened Wrappers
  import opened Records
  import opened Store
  import opened Registry
  import opened Preservation
  import opened Replay
  import opened Effects
  import opened Audit
  import opened Reader
  import opened Documents

  /** Nothing that was there has changed or gone. */
  ghost predicate Kept(db: Db, db': Db) {
    forall k | k in db :: k in db' && db'[k] == db[k]
  }

  /** Whatever is new is one of these entries. */
  ghost predicate AddsOnly(db: Db, db': Db, puts: Db) {
    forall k | k in db' && k !in db :: k in puts && db'[k] == puts[k]
  }

  /** A committed restore transaction creates keys and overwrites none. */
  lemma RestoreNeverOverwrites(cfg: Config, db: Db, m: Mutation)
    requires (m.RestoreAll? || m.RestoreIntent?) && Admissible(cfg, m) && Commits(db, Body(cfg, m))
    ensures Kept(db, Apply(db, Body(cfg, m)))
    ensures AddsOnly(db, Apply(db, Body(cfg, m)),
                     RestorePuts(m.current, m.claims, if m.RestoreAll? then m.barrier else Some(m.intent)))
  {
    var t := Body(cfg, m);
    var puts := RestorePuts(m.current, m.claims, if m.RestoreAll? then m.barrier else Some(m.intent));
    forall k | k in t.puts ensures k !in db && k in puts && t.puts[k] == puts[k] {
      RestorePutIsFresh(cfg, db, m, k);
    }
    FreshPutsKeep(db, t, puts);
  }

  lemma FreshPutsKeep(db: Db, t: Txn, puts: Db)
    requires t.deletes == {} && forall k | k in t.puts :: k !in db && k in puts && t.puts[k] == puts[k]
    ensures Kept(db, Apply(db, t)) && AddsOnly(db, Apply(db, t), puts)
  {
  }

  lemma RestorePutIsFresh(cfg: Config, db: Db, m: Mutation, k: Key)
    requires (m.RestoreAll? || m.RestoreIntent?) && Admissible(cfg, m) && Commits(db, Body(cfg, m))
    requires k in Body(cfg, m).puts
    ensures k !in db
    ensures var puts := RestorePuts(m.current, m.claims, if m.RestoreAll? then m.barrier else Some(m.intent));
      k in puts && Body(cfg, m).puts[k] == puts[k]
  {
    var t := Body(cfg, m);
    var u := m.current.gen.instance;
    AbsentHolds(db, ReleaseKey(u), t);
    if m.RestoreAll? {
      AbsentHolds(db, InstanceKey(u), t);
      AbsentHolds(db, SlotKey(m.current.gen.slot), t);
      RestoreFrontView(m.current, m.claims);
      if k.HostKey? {
        AbsentHolds(db, k, t);
      }
    }
  }

  /** The claims of a restored allocation are under no token that the fence ledger disposed of. */
  ghost predicate Unfenced(db: Db, u: Uuid, claims: map<Uuid, Claim>) {
    forall h | h in claims :: !FencedToken(db, h, u, claims[h].token)
  }

  lemma RestoredWellFormed(cfg: Config, db: Db, m: Mutation)
    requires (m.RestoreAll? || m.RestoreIntent?) && Admissible(cfg, m) && Commits(db, Body(cfg, m))
    requires WellFormed(cfg, db) && Unfenced(db, m.current.gen.instance, m.claims)
    ensures WellFormed(cfg, Apply(db, Body(cfg, m)))
  {
    match m {
      case RestoreAll(_, _, _) => RestoreKeeps(cfg, db, m);
      case RestoreIntent(a, _, i) => BarrierKeeps(cfg, db, a, i, Body(cfg, m));
      case _ =>
    }
    forall h, u ensures !FenceClash(Apply(db, Body(cfg, m)), h, u) {
      ClashAfter(cfg, db, m, h, u);
    }
  }

  // ---- what one restore finds -----------------------------------------------------------------

  /** The instance is either untouched or already restored, up to its intent; the rest is in order. */
  ghost predicate Fits(cfg: Config, db: Db, a: Assignment, claims: map<Uuid, Claim>, desired: Option<Intent>)
    requires a.gen.slot >= 0
  {
    && WellFormed(cfg, db)
    && (Untouched(db, a) || Standing(db, a, claims, None) || Standing(db, a, claims, desired))
  }

  /** And none of its claims was fenced. */
  ghost predicate Ready(cfg: Config, db: Db, a: Assignment, claims: map<Uuid, Claim>, desired: Option<Intent>)
    requires a.gen.slot >= 0
  {
    Fits(cfg, db, a, claims, desired) && Unfenced(db, a.gen.instance, claims)
  }

  ghost predicate Untouched(db: Db, a: Assignment)
    requires a.gen.slot >= 0
  {
    InstanceKey(a.gen.instance) !in db && SlotKey(a.gen.slot) !in db
  }

  ghost predicate Standing(db: Db, a: Assignment, claims: map<Uuid, Claim>, intent: Option<Intent>) {
    ViewAt(db, a.gen.instance, View(a, intent, claims))
  }

  /** An allocation that a ready store has is the wanted one, with its barrier or none. */
  lemma ReadyExisting(
      cfg: Config, db: Db, a: Assignment, claims: map<Uuid, Claim>, desired: Option<Intent>, v: View)
    requires a.gen.slot >= 0 && v.View? && ViewAt(db, a.gen.instance, v)
    ensures Ready(cfg, db, a, claims, desired) ==>
      v.assignment == a && v.claims == claims && (v.intent.None? || v.intent == desired)
    ensures Standing(db, a, claims, desired) ==> v.intent == desired
  {
  }

  lemma ExistingStands(db: Db, a: Assignment, claims: map<Uuid, Claim>, v: View)
    requires v.View? && ViewAt(db, a.gen.instance, v)
    ensures v.assignment == a && v.claims == claims ==> Standing(db, a, claims, v.intent)
  {
  }

  predicate RestoreInput(cfg: Config, a: Assignment, claims: map<Uuid, Claim>, desired: Option<Intent>) {
    && RestoreOk(cfg, a, claims)
    && (desired.Some? ==> IntentOk(cfg, desired.value) && desired.value.gen == a.gen)
  }

  lemma UntouchedCommits(cfg: Config, db: Db, a: Assignment, claims: map<Uuid, Claim>, desired: Option<Intent>)
    requires RestoreInput(cfg, a, claims, desired) && Consistent(cfg, db) && Untouched(db, a)
    ensures Commits(db, Body(cfg, RestoreAll(a, claims, desired)))
  {
    CompanionsNeedInstance(cfg, db, a.gen.instance);
    AbsencesCompared(cfg, a, claims, desired);
  }

  lemma AbsencesCompared(cfg: Config, a: Assignment, claims: map<Uuid, Claim>, desired: Option<Intent>)
    requires RestoreInput(cfg, a, claims, desired)
    ensures forall c | c in Body(cfg, RestoreAll(a, claims, desired)).compares ::
              c.Absent?
              && (c.key == InstanceKey(a.gen.instance) || c.key == SlotKey(a.gen.slot)
                  || c.key == ReleaseKey(a.gen.instance)
                  || (c.key.HostKey? && c.key == HostKey(c.key.host, a.gen.instance)))
  {
  }

  lemma CompanionsNeedInstance(cfg: Config, db: Db, u: Uuid)
    requires Consistent(cfg, db)
    ensures ReleaseKey(u) in db ==> InstanceKey(u) in db
    ensures forall h | HostKey(h, u) in db :: InstanceKey(u) in db
  {
    if ReleaseKey(u) in db {
      assert RecordOk(cfg, ReleaseKey(u), db[ReleaseKey(u)].raw);
      assert HasIntent(db, u);
    }
    forall h | HostKey(h, u) in db ensures InstanceKey(u) in db {
      assert RecordOk(cfg, HostKey(h, u), db[HostKey(h, u)].raw);
      assert HasClaim(db, h, u);
    }
  }

  lemma StandingCommits(cfg: Config, db: Db, a: Assignment, claims: map<Uuid, Claim>, i: Intent)
    requires RestoreInput(cfg, a, claims, Some(i)) && Consistent(cfg, db) && Standing(db, a, claims, None)
    ensures Commits(db, Body(cfg, RestoreIntent(a, claims, i)))
  {
    var u := a.gen.instance;
    assert HasAssignment(db, u);
    forall h | h in claims ensures HostKey(h, u) in db && db[HostKey(h, u)].raw == ClaimRecord(claims[h]) {
      assert HasClaim(db, h, u);
    }
  }

  /** After either transaction the allocation stands as desired. */
  lemma CommittedStands(cfg: Config, db: Db, m: Mutation)
    requires (m.RestoreAll? || m.RestoreIntent?) && Admissible(cfg, m) && Commits(db, Body(cfg, m))
    requires m.RestoreIntent? ==> Standing(db, m.current, m.claims, None)
    ensures Standing(Apply(db, Body(cfg, m)), m.current, m.claims,
                     if m.RestoreAll? then m.barrier else Some(m.intent))
  {
    var u := m.current.gen.instance;
    var db' := Apply(db, Body(cfg, m));
    CurrentHolds(cfg, db, m);
    PairEffect(cfg, db, m, u);
    IntentEffect(cfg, db, m, u);
    forall h | h in m.claims ensures HasClaim(db', h, u) && ClaimAt(db', h, u) == m.claims[h] {
      ClaimEffect(cfg, db, m, h, u);
    }
  }

  lemma StillUnfenced(cfg: Config, db: Db, m: Mutation)
    requires (m.RestoreAll? || m.RestoreIntent?) && Admissible(cfg, m) && Commits(db, Body(cfg, m))
    requires Unfenced(db, m.current.gen.instance, m.claims)
    ensures Unfenced(Apply(db, Body(cfg, m)), m.current.gen.instance, m.claims)
  {
    forall h | h in m.claims
      ensures !FencedToken(Apply(db, Body(cfg, m)), h, m.current.gen.instance, m.claims[h].token)
    {
      FenceEffect(cfg, db, m, h, m.current.gen.instance);
    }
  }

  // ---- lookups in one audited snapshot ------------------------------------------------------

  function FindInstance(s: seq<Assignment>, u: Uuid): (r: Option<Assignment>)
    ensures r.Some? ==> r.value in s && r.value.gen.instance == u
    ensures r.None? ==> forall a | a in s :: a.gen.instance != u
  {
    if s == [] then None
    else if s[0].gen.instance == u then Some(s[0])
    else FindInstance(s[1..], u)
  }

  function FindSlot(s: seq<Assignment>, n: int): (r: Option<Assignment>)
    ensures r.Some? ==> r.value in s && r.value.gen.slot == n
    ensures r.None? ==> forall a | a in s :: a.gen.slot != n
  {
    if s == [] then None
    else if s[0].gen.slot == n then Some(s[0])
    else FindSlot(s[1..], n)
  }

  function FindIntent(s: seq<Intent>, u: Uuid): (r: Option<Intent>)
    ensures r.Some? ==> r.value in s && r.value.gen.instance == u
    ensures r.None? ==> forall x | x in s :: x.gen.instance != u
  {
    if s == [] then None
    else if s[0].gen.instance == u then Some(s[0])
    else FindIntent(s[1..], u)
  }

  /** The snapshot's answer about one instance is the store's. */
  lemma SnapshotAnswers(cfg: Config, db: Db, s: Snapshot, u: Uuid)
    requires Consistent(cfg, db) && Lists(db, s)
    ensures var a := FindInstance(s.assignments, u);
      (a.Some? <==> InstanceKey(u) in db) && (a.Some? ==> HasAssignment(db, u) && AssignmentAt(db, u) == a.value)
    ensures var i := FindIntent(s.intents, u);
      (i.Some? <==> ReleaseKey(u) in db) && (i.Some? ==> HasIntent(db, u) && IntentAt(db, u) == i.value)
  {
    if InstanceKey(u) in db {
      assert RecordOk(cfg, InstanceKey(u), db[InstanceKey(u)].raw);
      assert AssignmentAt(db, u) in s.assignments;
    }
    if ReleaseKey(u) in db {
      assert RecordOk(cfg, ReleaseKey(u), db[ReleaseKey(u)].raw);
      assert IntentAt(db, u) in s.intents;
    }
  }

  lemma SlotAnswers(cfg: Config, db: Db, s: Snapshot, n: nat)
    requires Consistent(cfg, db) && Lists(db, s)
    ensures FindSlot(s.assignments, n).Some? <==> SlotKey(n) in db
  {
    if SlotKey(n) in db {
      assert RecordOk(cfg, SlotKey(n), db[SlotKey(n)].raw);
      var a := db[SlotKey(n)].raw.assignment;
      assert HasAssignment(db, a.gen.instance) && AssignmentAt(db, a.gen.instance) == a;
      assert a in s.assignments;
    }
    if FindSlot(s.assignments, n).Some? {
      var a := FindSlot(s.assignments, n).value;
      assert HasAssignment(db, a.gen.instance);
    }
  }

  // ---- the document and the store -------------------------------------------------------------

  /** What one entry of a validated document asks `restore` for. */
  function ClaimsOf(e: DocumentEntry): map<Uuid, Claim> {
    ClaimMap(e.claims)
  }

  function IntentOf(d: Document, e: DocumentEntry): Option<Intent> {
    FindIntent(d.intents, e.gen.instance)
  }

  /** No claim of the document is under a token that the ledger disposed of. */
  ghost predicate DocumentUnfenced(d: Document, db: Db) {
    forall e | e in d.entries :: Unfenced(db, e.gen.instance, ClaimsOf(e))
  }

  /** A state in which some earlier attempt at this document may have stopped. */
  ghost predicate Resumable(cfg: Config, d: Document, db: Db) {
    WellFormed(cfg, db) && Agrees(cfg, d, db) && DocumentUnfenced(d, db)
  }

  /** Some instance or release record is not the document's. */
  ghost predicate HoldsForeign(cfg: Config, d: Document, db: Db) {
    exists k {:trigger Says(cfg, d, k, db[k].raw)} ::
      k in db && (k.InstanceKey? || k.ReleaseKey?) && !Says(cfg, d, k, db[k].raw)
  }

  /** Nothing that was there has changed, and everything new is something the document says. */
  ghost predicate Grown(cfg: Config, d: Document, db: Db, db': Db) {
    && Kept(db, db')
    && forall k {:trigger Says(cfg, d, k, db'[k].raw)} | k in db' && k !in db :: Says(cfg, d, k, db'[k].raw)
  }

  lemma GrownOn(cfg: Config, d: Document, db: Db, db': Db, db'': Db)
    requires Grown(cfg, d, db, db') && Grown(cfg, d, db', db'')
    ensures Grown(cfg, d, db, db'')
  {
    forall k | k in db'' && k !in db ensures Says(cfg, d, k, db''[k].raw) {
      if k in db' {
        assert Says(cfg, d, k, db'[k].raw);
      }
    }
  }

  /** With one claim per host, the dictionary of an entry's claims loses none. */
  lemma ClaimMapExact(claims: seq<Claim>)
    requires forall i, j | 0 <= i < j < |claims| :: claims[i].host < claims[j].host
    ensures forall h, c :: c in claims && c.host == h <==> h in ClaimMap(claims) && ClaimMap(claims)[h] == c
  {
    forall h, c | c in claims && c.host == h ensures h in ClaimMap(claims) && ClaimMap(claims)[h] == c {
      var x := ClaimMap(claims)[h];
      var p :| 0 <= p < |claims| && claims[p] == c;
      var q :| 0 <= q < |claims| && claims[q] == x;
    }
  }

  lemma ClaimsRestorable(cfg: Config, e: DocumentEntry)
    requires EntryOk(cfg, e)
    ensures RestoreOk(cfg, AssignmentOf(e), ClaimsOf(e))
  {
    var claims := ClaimsOf(e);
    forall h | h in claims ensures ClaimOk(cfg, claims[h]) && claims[h].host == h && claims[h].gen == e.gen {
      var p :| 0 <= p < |e.claims| && e.claims[p] == claims[h];
    }
  }

  lemma IntentRestorable(cfg: Config, d: Document, e: DocumentEntry)
    requires DocumentOk(cfg, d) && e in d.entries && GenerationOk(cfg, e.gen)
    ensures IntentOf(d, e).Some? ==> IntentOk(cfg, IntentOf(d, e).value) && IntentOf(d, e).value.gen == e.gen
  {
    if IntentOf(d, e).Some? {
      var x := IntentOf(d, e).value;
      var n :| 0 <= n < |d.intents| && d.intents[n] == x;
      assert IntentBacked(d, d.intents[n]);
      var f :| f in d.entries && f.gen == x.gen;
      SameEntry(d, e, f);
    }
  }

  lemma EntryRestorable(cfg: Config, d: Document, e: DocumentEntry)
    requires DocumentOk(cfg, d) && e in d.entries
    ensures RestoreInput(cfg, AssignmentOf(e), ClaimsOf(e), IntentOf(d, e))
    ensures forall h, c :: c in e.claims && c.host == h <==> h in ClaimsOf(e) && ClaimsOf(e)[h] == c
  {
    var i :| 0 <= i < |d.entries| && d.entries[i] == e;
    assert EntryOk(cfg, d.entries[i]);
    ClaimMapExact(e.claims);
    ClaimsRestorable(cfg, e);
    IntentRestorable(cfg, d, e);
  }

  lemma SameEntry(d: Document, e: DocumentEntry, f: DocumentEntry)
    requires EntriesDistinct(d) && e in d.entries && f in d.entries
    ensures e.gen.instance == f.gen.instance || e.gen.slot == f.gen.slot ==> e == f
  {
    var i :| 0 <= i < |d.entries| && d.entries[i] == e;
    var j :| 0 <= j < |d.entries| && d.entries[j] == f;
    if i < j {
      assert Apart(e, f);
    } else if j < i {
      assert Apart(f, e);
    }
  }

  /** What `restore` may add for an entry is what the document says. */
  lemma PutsAreSaid(cfg: Config, d: Document, e: DocumentEntry, k: Key)
    requires e in d.entries && e.gen.slot >= 0
    ensures var puts := RestorePuts(AssignmentOf(e), ClaimsOf(e), IntentOf(d, e));
      k in puts ==> Says(cfg, d, k, puts[k].raw)
  {
    if k != ReleaseKey(e.gen.instance) {
      FrontIsSaid(cfg, d, e, k);
    }
  }

  lemma FrontIsSaid(cfg: Config, d: Document, e: DocumentEntry, k: Key)
    requires e in d.entries && e.gen.slot >= 0
    ensures var front := RestoreFront(AssignmentOf(e), ClaimsOf(e));
      k in front ==> Says(cfg, d, k, front[k].raw)
  {
    var a := AssignmentOf(e);
    RestoreFrontView(a, ClaimsOf(e));
    if k in RestoreFront(a, ClaimsOf(e)) && k.HostKey? {
      assert SaysClaim(d, k.host, e.gen.instance, ClaimsOf(e)[k.host]);
    }
  }

  /** In a resumable registry every entry is untouched or stands, up to its intent. */
  lemma EntryReady(cfg: Config, d: Document, db: Db, e: DocumentEntry)
    requires DocumentOk(cfg, d) && Resumable(cfg, d, db) && e in d.entries
    ensures RestoreInput(cfg, AssignmentOf(e), ClaimsOf(e), IntentOf(d, e))
    ensures Ready(cfg, db, AssignmentOf(e), ClaimsOf(e), IntentOf(d, e))
  {
    EntryRestorable(cfg, d, e);
    var u := e.gen.instance;
    if InstanceKey(u) in db {
      EntryStands(cfg, d, db, e);
    } else if SlotKey(e.gen.slot) in db {
      SlotSaid(cfg, d, db, e);
    }
  }

  lemma SlotSaid(cfg: Config, d: Document, db: Db, e: DocumentEntry)
    requires DocumentOk(cfg, d) && Resumable(cfg, d, db) && e in d.entries && e.gen.slot >= 0
    requires SlotKey(e.gen.slot) in db
    ensures InstanceKey(e.gen.instance) in db
  {
    var n: nat := e.gen.slot;
    assert Says(cfg, d, SlotKey(n), db[SlotKey(n)].raw);
    var f :| f in d.entries && f.gen.slot == n && db[SlotKey(n)].raw == AssignmentRecord(AssignmentOf(f));
    SameEntry(d, e, f);
  }

  lemma EntryStands(cfg: Config, d: Document, db: Db, e: DocumentEntry)
    requires DocumentOk(cfg, d) && Resumable(cfg, d, db) && e in d.entries && InstanceKey(e.gen.instance) in db
    ensures Standing(db, AssignmentOf(e), ClaimsOf(e), None)
            || Standing(db, AssignmentOf(e), ClaimsOf(e), IntentOf(d, e))
  {
    var u := e.gen.instance;
    EntryRestorable(cfg, d, e);
    assert Says(cfg, d, InstanceKey(u), db[InstanceKey(u)].raw);
    var f :| f in d.entries && f.gen.instance == u && db[InstanceKey(u)].raw == AssignmentRecord(AssignmentOf(f));
    SameEntry(d, e, f);
    assert HasAssignment(db, u) && AssignmentAt(db, u) == AssignmentOf(e);
    forall h | h in ClaimsOf(e) ensures HasClaim(db, h, u) && ClaimAt(db, h, u) == ClaimsOf(e)[h] {
      assert HasClaim(db, h, u);
      ClaimSaid(cfg, d, db, e, h);
    }
    if ReleaseKey(u) in db {
      BarrierSaid(cfg, d, db, e);
    }
  }

  lemma BarrierSaid(cfg: Config, d: Document, db: Db, e: DocumentEntry)
    requires DocumentOk(cfg, d) && Agrees(cfg, d, db) && e in d.entries && ReleaseKey(e.gen.instance) in db
    ensures IntentOf(d, e).Some? && HasIntent(db, e.gen.instance)
    ensures IntentAt(db, e.gen.instance) == IntentOf(d, e).value
  {
    var u := e.gen.instance;
    assert Says(cfg, d, ReleaseKey(u), db[ReleaseKey(u)].raw);
    var x :| x in d.intents && x.gen.instance == u && db[ReleaseKey(u)].raw == IntentRecord(x);
    OneIntentEach(cfg, d, x, IntentOf(d, e).value);
  }

  lemma ClaimSaid(cfg: Config, d: Document, db: Db, e: DocumentEntry, h: Uuid)
    requires DocumentOk(cfg, d) && Agrees(cfg, d, db) && e in d.entries && HasClaim(db, h, e.gen.instance)
    ensures h in ClaimsOf(e) && ClaimAt(db, h, e.gen.instance) == ClaimsOf(e)[h]
  {
    var u := e.gen.instance;
    assert Says(cfg, d, HostKey(h, u), db[HostKey(h, u)].raw);
    var f :| f in d.entries && f.gen.instance == u && ClaimAt(db, h, u) in f.claims && ClaimAt(db, h, u).host == h;
    SameEntry(d, e, f);
    EntryRestorable(cfg, d, e);
  }

  lemma OneIntentEach(cfg: Config, d: Document, x: Intent, y: Intent)
    requires DocumentOk(cfg, d) && x in d.intents && y in d.intents && x.gen.instance == y.gen.instance
    ensures x == y
  {
    IntentsDistinctFromOrder(cfg, d);
    var i :| 0 <= i < |d.intents| && d.intents[i] == x;
    var j :| 0 <= j < |d.intents| && d.intents[j] == y;
  }

  /** Growing by what the document says keeps a well-formed registry resumable. */
  lemma GrownResumable(cfg: Config, d: Document, db: Db, db': Db)
    requires Resumable(cfg, d, db) && Grown(cfg, d, db, db') && WellFormed(cfg, db')
    ensures Resumable(cfg, d, db')
  {
    forall e, h | e in d.entries && h in ClaimsOf(e)
      ensures !FencedToken(db', h, e.gen.instance, ClaimsOf(e)[h].token)
    {
      assert Unfenced(db, e.gen.instance, ClaimsOf(e));
      var k := FenceKey(h, e.gen.instance);
      assert k in db' ==> !Says(cfg, d, k, db'[k].raw);
    }
  }

  /** The claims of an entry are stored; unlike the whole view, later restores cannot disturb this. */
  ghost predicate ClaimsStand(db: Db, e: DocumentEntry) {
    forall h | h in ClaimsOf(e) ::
      HasClaim(db, h, e.gen.instance) && ClaimAt(db, h, e.gen.instance) == ClaimsOf(e)[h]
  }

  /** The last comparison of `restore_registry` together with the restores says the registry is the document. */
  lemma ExactlyRestored(cfg: Config, d: Document, db: Db, s: Snapshot)
    requires DocumentOk(cfg, d) && WellFormed(cfg, db) && Lists(db, s)
    requires |s.assignments| == |d.entries|
    requires forall i | 0 <= i < |d.entries| :: s.assignments[i] == AssignmentOf(d.entries[i])
    requires s.intents == d.intents
    requires forall e | e in d.entries :: ClaimsStand(db, e)
    ensures Restored(cfg, d, db)
  {
    forall k, raw | RegistryKey(k) ensures (k in db && db[k].raw == raw) <==> Says(cfg, d, k, raw) {
      match k
      case ConfigKey => assert RecordOk(cfg, ConfigKey, db[ConfigKey].raw);
      case InstanceKey(u) => PairRestored(cfg, d, db, s, k, raw);
      case SlotKey(n) => PairRestored(cfg, d, db, s, k, raw);
      case ReleaseKey(u) => IntentRestored(cfg, d, db, s, u, raw);
      case HostKey(h, u) => ClaimRestored(cfg, d, db, s, h, u, raw);
    }
  }

  lemma PairRestored(cfg: Config, d: Document, db: Db, s: Snapshot, k: Key, raw: Raw)
    requires Consistent(cfg, db) && Lists(db, s) && |s.assignments| == |d.entries| && (k.InstanceKey? || k.SlotKey?)
    requires forall i | 0 <= i < |d.entries| :: s.assignments[i] == AssignmentOf(d.entries[i])
    ensures (k in db && db[k].raw == raw) <==> Says(cfg, d, k, raw)
  {
    if k in db && db[k].raw == raw {
      assert RecordOk(cfg, k, raw);
      var a := raw.assignment;
      assert HasAssignment(db, a.gen.instance) && AssignmentAt(db, a.gen.instance) == a;
      assert a in s.assignments;
      var i :| 0 <= i < |s.assignments| && s.assignments[i] == a;
      assert d.entries[i] in d.entries;
    }
    if Says(cfg, d, k, raw) {
      var e :| e in d.entries && raw == AssignmentRecord(AssignmentOf(e))
               && (if k.InstanceKey? then e.gen.instance == k.instance else e.gen.slot == k.slot);
      var i :| 0 <= i < |d.entries| && d.entries[i] == e;
      assert s.assignments[i] in s.assignments;
      assert HasAssignment(db, e.gen.instance) && AssignmentAt(db, e.gen.instance) == AssignmentOf(e);
    }
  }

  lemma IntentRestored(cfg: Config, d: Document, db: Db, s: Snapshot, u: Uuid, raw: Raw)
    requires Consistent(cfg, db) && Lists(db, s) && s.intents == d.intents
    ensures (ReleaseKey(u) in db && db[ReleaseKey(u)].raw == raw) <==> Says(cfg, d, ReleaseKey(u), raw)
  {
    if ReleaseKey(u) in db && db[ReleaseKey(u)].raw == raw {
      assert RecordOk(cfg, ReleaseKey(u), raw);
      assert HasIntent(db, u) && IntentAt(db, u) in s.intents;
    }
  }

  lemma ClaimRestored(cfg: Config, d: Document, db: Db, s: Snapshot, h: Uuid, u: Uuid, raw: Raw)
    requires DocumentOk(cfg, d) && Consistent(cfg, db) && Lists(db, s) && |s.assignments| == |d.entries|
    requires forall i | 0 <= i < |d.entries| :: s.assignments[i] == AssignmentOf(d.entries[i])
    requires forall e | e in d.entries :: ClaimsStand(db, e)
    ensures (HostKey(h, u) in db && db[HostKey(h, u)].raw == raw) <==> Says(cfg, d, HostKey(h, u), raw)
  {
    if HostKey(h, u) in db && db[HostKey(h, u)].raw == raw {
      assert RecordOk(cfg, HostKey(h, u), raw);
      assert HasClaim(db, h, u);
      var a := AssignmentAt(db, u);
      assert RecordOk(cfg, InstanceKey(u), db[InstanceKey(u)].raw);
      assert a in s.assignments;
      var i :| 0 <= i < |s.assignments| && s.assignments[i] == a;
      var e := d.entries[i];
      assert e in d.entries && ClaimsStand(db, e) && h in a.hosts;
      EntryRestorable(cfg, d, e);
      assert SaysClaim(d, h, u, raw.claim);
    }
    if Says(cfg, d, HostKey(h, u), raw) {
      var e :| e in d.entries && e.gen.instance == u && raw.claim in e.claims && raw.claim.host == h;
      EntryRestorable(cfg, d, e);
      assert ClaimsStand(db, e);
    }
  }

  lemma CommitAdds(cfg: Config, db: Db, m: Mutation)
    requires (m.RestoreAll? || m.RestoreIntent?) && Admissible(cfg, m) && Commits(db, Body(cfg, m)) && NamespaceOnly(db)
    ensures var db' := Apply(db, Body(cfg, m));
      && NamespaceOnly(db') && Kept(db, db')
      && AddsOnly(db, db', RestorePuts(m.current, m.claims, if m.RestoreAll? then m.barrier else Some(m.intent)))
  {
    RestoreNeverOverwrites(cfg, db, m);
    RestoreFrontView(m.current, m.claims);
  }

  /** What one submitted restore transaction leaves behind, whether or not it committed. */
  lemma CommitFacts(cfg: Config, db: Db, db': Db, m: Mutation, desired: Option<Intent>)
    requires (m.RestoreAll? || m.RestoreIntent?) && Admissible(cfg, m) && WellFormed(cfg, db) && NamespaceOnly(db)
    requires m.RestoreAll? ==> m.barrier == desired
    requires m.RestoreIntent? ==> desired == Some(m.intent) && Standing(db, m.current, m.claims, None)
    requires db' == db || (Commits(db, Body(cfg, m)) && db' == Apply(db, Body(cfg, m)))
    ensures NamespaceOnly(db') && Kept(db, db') && AddsOnly(db, db', RestorePuts(m.current, m.claims, desired))
    ensures db' != db ==> Standing(db', m.current, m.claims, desired)
    ensures Unfenced(db, m.current.gen.instance, m.claims) ==>
              WellFormed(cfg, db') && Unfenced(db', m.current.gen.instance, m.claims)
  {
    if db' != db {
      CommitAdds(cfg, db, m);
      CommittedStands(cfg, db, m);
      if Unfenced(db, m.current.gen.instance, m.claims) {
        RestoredWellFormed(cfg, db, m);
        StillUnfenced(cfg, db, m);
      }
    }
  }

  /** The entry's claims, its pair and its barrier are there. */
  ghost predicate EntryDone(d: Document, db: Db, e: DocumentEntry) {
    && ClaimsStand(db, e) && InstanceKey(e.gen.instance) in db
    && (IntentOf(d, e).Some? ==> ReleaseKey(e.gen.instance) in db)
  }

  /** The first `i` entries are done. */
  ghost predicate DoneUpTo(d: Document, db: Db, i: nat)
    requires i <= |d.entries|
  {
    forall j {:trigger EntryDone(d, db, d.entries[j])} | 0 <= j < i :: EntryDone(d, db, d.entries[j])
  }

  lemma DoneStays(d: Document, db: Db, db': Db, i: nat)
    requires Kept(db, db') && i <= |d.entries| && DoneUpTo(d, db, i)
    ensures DoneUpTo(d, db', i)
    ensures i < |d.entries| && EntryDone(d, db', d.entries[i]) ==> DoneUpTo(d, db', i + 1)
  {
    forall j, h | 0 <= j < i && h in ClaimsOf(d.entries[j])
      ensures HasClaim(db', h, d.entries[j].gen.instance)
      ensures ClaimAt(db', h, d.entries[j].gen.instance) == ClaimsOf(d.entries[j])[h]
    {
      assert EntryDone(d, db, d.entries[j]);
    }
    forall j | 0 <= j < i ensures EntryDone(d, db', d.entries[j]) {
      assert EntryDone(d, db, d.entries[j]);
    }
  }

  lemma BootstrapGrows(cfg: Config, d: Document, db: Db, db': Db)
    requires db' == db || (db == map[] && db' == map[ConfigKey := Plain(ConfigRecord(cfg))])
    ensures Grown(cfg, d, db, db')
    ensures db' == db || Resumable(cfg, d, db')
  {
    if db' != db {
      assert WellFormed(cfg, db');
      assert Says(cfg, d, ConfigKey, ConfigRecord(cfg));
    }
  }

  lemma AllDone(d: Document, db: Db)
    requires DoneUpTo(d, db, |d.entries|)
    ensures forall e | e in d.entries :: EntryDone(d, db, e)
  {
    forall e | e in d.entries ensures EntryDone(d, db, e) {
      var j :| 0 <= j < |d.entries| && d.entries[j] == e;
      assert EntryDone(d, db, d.entries[j]);
    }
  }

  lemma StandingIsDone(d: Document, db: Db, e: DocumentEntry)
    requires Standing(db, AssignmentOf(e), ClaimsOf(e), IntentOf(d, e))
    ensures EntryDone(d, db, e)
  {
  }

  /** What the replay loop hands to `restore` for one entry. */
  lemma EntryPrepared(cfg: Config, d: Document, db: Db, parsed: Restorable, i: nat)
    requires DocumentOk(cfg, d) && i < |d.entries|
    requires ParsedEntries(cfg, d, |d.entries|, parsed.assignments, parsed.claims)
    ensures var e := d.entries[i];
      && e in d.entries && e.gen.slot >= 0
      && parsed.assignments[i] == AssignmentOf(e)
      && e.gen.instance in parsed.claims && parsed.claims[e.gen.instance] == ClaimsOf(e)
      && RestoreInput(cfg, AssignmentOf(e), ClaimsOf(e), IntentOf(d, e))
      && (Resumable(cfg, d, db) ==> Ready(cfg, db, AssignmentOf(e), ClaimsOf(e), IntentOf(d, e)))
  {
    var e := d.entries[i];
    assert EntryOk(cfg, e) && ClaimsOfEntry(e, parsed.claims);
    EntryRestorable(cfg, d, e);
    if Resumable(cfg, d, db) {
      EntryReady(cfg, d, db, e);
    }
  }

  lemma EntryGrows(cfg: Config, d: Document, e: DocumentEntry, db: Db, db': Db)
    requires e in d.entries && e.gen.slot >= 0
    requires Kept(db, db') && AddsOnly(db, db', RestorePuts(AssignmentOf(e), ClaimsOf(e), IntentOf(d, e)))
    ensures Grown(cfg, d, db, db')
  {
    forall k | k in db' && k !in db ensures Says(cfg, d, k, db'[k].raw) {
      PutsAreSaid(cfg, d, e, k);
    }
  }

  /** What a resumable registry holds passes the first comparison. */
  lemma ResumableIsKnown(cfg: Config, d: Document, db: Db, parsed: Restorable, s: Snapshot)
    requires DocumentOk(cfg, d) && Resumable(cfg, d, db) && Lists(db, s)
    requires ParsedEntries(cfg, d, |d.entries|, parsed.assignments, parsed.claims) && parsed.intents == d.intents
    ensures forall a | a in s.assignments :: FindInstance(parsed.assignments, a.gen.instance) == Some(a)
    ensures forall x | x in s.intents :: FindIntent(parsed.intents, x.gen.instance) == Some(x)
  {
    forall a | a in s.assignments ensures FindInstance(parsed.assignments, a.gen.instance) == Some(a) {
      var u := a.gen.instance;
      assert Says(cfg, d, InstanceKey(u), db[InstanceKey(u)].raw);
      var e :| e in d.entries && e.gen.instance == u && a == AssignmentOf(e);
      FoundByInstance(cfg, d, parsed, e);
    }
    forall x | x in s.intents ensures FindIntent(parsed.intents, x.gen.instance) == Some(x) {
      var u := x.gen.instance;
      assert Says(cfg, d, ReleaseKey(u), db[ReleaseKey(u)].raw);
      assert x in d.intents;
      OneIntentEach(cfg, d, x, FindIntent(d.intents, u).value);
    }
  }

  /** What passes the first comparison holds nothing foreign. */
  lemma KnownIsSaid(cfg: Config, d: Document, db: Db, parsed: Restorable, s: Snapshot)
    requires WellFormed(cfg, db) && Lists(db, s)
    requires ParsedEntries(cfg, d, |d.entries|, parsed.assignments, parsed.claims) && parsed.intents == d.intents
    requires forall a | a in s.assignments :: FindInstance(parsed.assignments, a.gen.instance) == Some(a)
    requires forall x | x in s.intents :: FindIntent(parsed.intents, x.gen.instance) == Some(x)
    ensures !HoldsForeign(cfg, d, db)
  {
    forall k | k in db && (k.InstanceKey? || k.ReleaseKey?) ensures Says(cfg, d, k, db[k].raw) {
      SnapshotAnswers(cfg, db, s, k.instance);
      if k.InstanceKey? {
        var a := FindInstance(s.assignments, k.instance).value;
        var i :| 0 <= i < |parsed.assignments| && parsed.assignments[i] == a;
        assert d.entries[i] in d.entries && a == AssignmentOf(d.entries[i]);
      }
    }
  }

  lemma FoundByInstance(cfg: Config, d: Document, parsed: Restorable, e: DocumentEntry)
    requires ParsedEntries(cfg, d, |d.entries|, parsed.assignments, parsed.claims) && e in d.entries
    requires EntriesDistinct(d)
    ensures FindInstance(parsed.assignments, e.gen.instance) == Some(AssignmentOf(e))
  {
    var i :| 0 <= i < |d.entries| && d.entries[i] == e;
    assert parsed.assignments[i] in parsed.assignments;
    var a := FindInstance(parsed.assignments, e.gen.instance).value;
    var j :| 0 <= j < |parsed.assignments| && parsed.assignments[j] == a;
    SameEntry(d, d.entries[j], e);
  }

  /** Two lists of allocations, both in strict slot order, that have the same members are the same list. */
  lemma {:induction false} SameAscending<T(!new)>(s: seq<T>, t: seq<T>, rank: T -> int)
    requires forall i, j | 0 <= i < j < |s| :: rank(s[i]) < rank(s[j])
    requires forall i, j | 0 <= i < j < |t| :: rank(t[i]) < rank(t[j])
    requires forall x :: x in s <==> x in t
    ensures s == t
  {
    EmptyTogether(s, t);
    if s != [] {
      assert s[0] in s && s[0] in t;
      var j :| 0 <= j < |t| && t[j] == s[0];
      assert t[0] in t && t[0] in s;
      var i :| 0 <= i < |s| && s[i] == t[0];
      assert s[0] == t[0];
      forall x ensures x in s[1..] <==> x in t[1..] {
        TailMembers(s, rank, x);
        TailMembers(t, rank, x);
      }
      SameAscending(s[1..], t[1..], rank);
      assert s == [s[0]] + s[1..] && t == [t[0]] + t[1..];
    }
  }

  lemma EmptyTogether<T>(s: seq<T>, t: seq<T>)
    requires forall x :: x in s <==> x in t
    ensures s == [] <==> t == []
  {
    if s != [] {
      assert s[0] in s;
    }
    if t != [] {
      assert t[0] in t;
    }
  }

  lemma TailMembers<T>(s: seq<T>, rank: T -> int, x: T)
    requires s != [] && forall i, j | 0 <= i < j < |s| :: rank(s[i]) < rank(s[j])
    ensures x in s[1..] <==> x in s && x != s[0]
  {
    if x in s && x != s[0] {
      var i :| 0 <= i < |s| && s[i] == x;
      assert s[1..][i - 1] == x;
    }
    if x in s[1..] {
      var i :| 0 <= i < |s[1..]| && s[1..][i] == x;
      assert s[i + 1] == x;
    }
  }

  /** After all entries are restored the last comparison holds. */
  lemma FinalComparison(cfg: Config, d: Document, db: Db, parsed: Restorable, s: Snapshot)
    requires DocumentOk(cfg, d) && Resumable(cfg, d, db) && Lists(db, s)
    requires ParsedEntries(cfg, d, |d.entries|, parsed.assignments, parsed.claims) && parsed.intents == d.intents
    requires forall e | e in d.entries :: EntryDone(d, db, e)
    ensures s.assignments == parsed.assignments && s.intents == parsed.intents
  {
    forall a ensures a in s.assignments <==> a in parsed.assignments {
      AssignmentDone(cfg, d, db, parsed, s, a);
    }
    forall i, j | 0 <= i < j < |parsed.assignments|
      ensures parsed.assignments[i].gen.slot < parsed.assignments[j].gen.slot
    {
      assert parsed.assignments[i] == AssignmentOf(d.entries[i]) && parsed.assignments[j] == AssignmentOf(d.entries[j]);
    }
    SameAscending(s.assignments, parsed.assignments, (a: Assignment) => a.gen.slot);
    forall x ensures x in s.intents <==> x in d.intents {
      IntentDone(cfg, d, db, s, x);
    }
    SameAscending(s.intents, d.intents, (x: Intent) => x.gen.slot);
  }

  lemma StoredIsParsed(cfg: Config, d: Document, db: Db, parsed: Restorable, a: Assignment)
    requires Agrees(cfg, d, db)
    requires ParsedEntries(cfg, d, |d.entries|, parsed.assignments, parsed.claims)
    requires HasAssignment(db, a.gen.instance) && AssignmentAt(db, a.gen.instance) == a
    ensures a in parsed.assignments
  {
    var u := a.gen.instance;
    assert Says(cfg, d, InstanceKey(u), db[InstanceKey(u)].raw);
    var e :| e in d.entries && e.gen.instance == u && db[InstanceKey(u)].raw == AssignmentRecord(AssignmentOf(e));
    EntryIsParsed(d, parsed.assignments, e);
  }

  lemma EntryIsParsed(d: Document, assignments: seq<Assignment>, e: DocumentEntry)
    requires |assignments| == |d.entries| && e in d.entries
    requires forall i | 0 <= i < |d.entries| :: assignments[i] == AssignmentOf(d.entries[i])
    ensures AssignmentOf(e) in assignments
  {
    var i :| 0 <= i < |d.entries| && d.entries[i] == e;
    assert assignments[i] == AssignmentOf(e);
  }

  lemma EntryIsStored(cfg: Config, d: Document, db: Db, e: DocumentEntry)
    requires EntriesDistinct(d) && Agrees(cfg, d, db) && e in d.entries && InstanceKey(e.gen.instance) in db
    ensures HasAssignment(db, e.gen.instance) && AssignmentAt(db, e.gen.instance) == AssignmentOf(e)
  {
    var u := e.gen.instance;
    assert Says(cfg, d, InstanceKey(u), db[InstanceKey(u)].raw);
    var f :| f in d.entries && f.gen.instance == u && db[InstanceKey(u)].raw == AssignmentRecord(AssignmentOf(f));
    SameEntry(d, e, f);
  }

  lemma AssignmentDone(cfg: Config, d: Document, db: Db, parsed: Restorable, s: Snapshot, a: Assignment)
    requires EntriesDistinct(d) && Agrees(cfg, d, db) && Lists(db, s)
    requires ParsedEntries(cfg, d, |d.entries|, parsed.assignments, parsed.claims)
    requires forall e | e in d.entries :: EntryDone(d, db, e)
    ensures a in s.assignments <==> a in parsed.assignments
  {
    if a in s.assignments {
      StoredIsParsed(cfg, d, db, parsed, a);
    }
    if a in parsed.assignments {
      var i :| 0 <= i < |parsed.assignments| && parsed.assignments[i] == a;
      assert d.entries[i] in d.entries && EntryDone(d, db, d.entries[i]);
      EntryIsStored(cfg, d, db, d.entries[i]);
    }
  }

  lemma IntentDone(cfg: Config, d: Document, db: Db, s: Snapshot, x: Intent)
    requires DocumentOk(cfg, d) && Resumable(cfg, d, db) && Lists(db, s)
    requires forall e | e in d.entries :: EntryDone(d, db, e)
    ensures x in s.intents <==> x in d.intents
  {
    var u := x.gen.instance;
    if x in s.intents {
      assert Says(cfg, d, ReleaseKey(u), db[ReleaseKey(u)].raw);
    }
    if x in d.intents {
      var n :| 0 <= n < |d.intents| && d.intents[n] == x;
      assert IntentBacked(d, d.intents[n]);
      var e :| e in d.entries && e.gen == x.gen;
      assert EntryDone(d, db, e);
      assert Says(cfg, d, ReleaseKey(u), db[ReleaseKey(u)].raw);
      var y :| y in d.intents && y.gen.instance == u && db[ReleaseKey(u)].raw == IntentRecord(y);
      OneIntentEach(cfg, d, x, y);
      assert HasIntent(db, u) && IntentAt(db, u) == x;
    }
  }

  /** The allocator namespace during a frozen recovery, with a count of the requests that went wrong. */
  class FrozenRegistry {
    const cfg: Config
    var db: Db
    ghost var faults: nat

    constructor (cfg: Config, db: Db)
      ensures this.cfg == cfg && this.db == db && faults == 0
    {
      this.cfg, this.db, faults := cfg, db, 0;
    }

    /**
     * One guarded transaction with its retries inside the call. A fault may turn
     * it away, hide its commit, or have a retry refused because an earlier
     * delivery committed.
     */
    method Submit(m: Mutation) returns (sent: Result<bool>)
      requires (m.RestoreAll? || m.RestoreIntent?) && Admissible(cfg, m)
      modifies this
      ensures faults >= old(faults)
      ensures db == old(db) || (Commits(old(db), Body(cfg, m)) && db == Apply(old(db), Body(cfg, m)))
      ensures sent == Ok(true) ==> Commits(old(db), Body(cfg, m)) && db == Apply(old(db), Body(cfg, m))
      ensures sent == Ok(false) ==> db == old(db) || faults > old(faults)
      ensures sent.Err? ==> sent.error == Backend
      ensures faults == old(faults) ==> sent == Ok(Commits(old(db), Body(cfg, m)))
    {
      var faulty: bool := *;
      var arrives: bool := *;
      var refused: bool := *;
      var commits := Commits(db, Body(cfg, m));
      if faulty {
        faults := faults + 1;
      }
      if commits && (arrives || !faulty) {
        db := Apply(db, Body(cfg, m));
      }
      sent := if !faulty then Ok(commits) else if refused then Ok(false) else Err(Backend);
    }

    /** `_audit_with_latch` over the frozen namespace. */
    method AuditAll() returns (r: Result<Snapshot>)
      requires NamespaceOnly(db)
      modifies this`faults
      ensures faults >= old(faults)
      ensures r.Ok? ==> WellFormed(cfg, db) && Lists(db, r.value)
      ensures faults == old(faults) ==> (r.Ok? <==> WellFormed(cfg, db))
    {
      var faulty: bool := *;
      if faulty {
        faults := faults + 1;
        return Err(Backend);
      }
      r := AuditSnapshot(cfg, db);
    }

    /** `_read_assignment_state` of an instance that the last audit listed. */
    method ReadView(u: Uuid) returns (r: Result<View>)
      requires WellFormed(cfg, db) && InstanceKey(u) in db
      modifies this`faults
      ensures faults >= old(faults)
      ensures r.Ok? ==> r.value.View? && ViewAt(db, u, r.value)
      ensures r.Err? ==> faults > old(faults)
    {
      var faulty: bool := *;
      if faulty {
        faults := faults + 1;
        return Err(Backend);
      }
      assert RecordOk(cfg, InstanceKey(u), db[InstanceKey(u)].raw);
      var a := db[InstanceKey(u)].raw.assignment;
      assert HasAssignment(db, u) && AssignmentAt(db, u) == a;
      forall h | h in a.hosts ensures HasClaim(db, h, u) {
      }
      if ReleaseKey(u) in db {
        assert RecordOk(cfg, ReleaseKey(u), db[ReleaseKey(u)].raw);
      }
      r := Ok(View(
        a, if ReleaseKey(u) in db then Some(db[ReleaseKey(u)].raw.intent) else None,
        map h | h in a.hosts :: db[HostKey(h, u)].raw.claim));
    }

    /** The audit and the read that settle a restore transaction. */
    method Confirm(a: Assignment, claims: map<Uuid, Claim>, desired: Option<Intent>, certain: bool)
      returns (r: Result<Assignment>)
      requires NamespaceOnly(db)
      modifies this`faults
      ensures faults >= old(faults)
      ensures r.Ok? ==> r.value == a && WellFormed(cfg, db) && Standing(db, a, claims, desired)
      ensures r.Err? && WellFormed(cfg, db) && Standing(db, a, claims, desired) ==> faults > old(faults)
    {
      var u := a.gen.instance;
      var audited := AuditAll();
      if audited.Err? {
        return Err(audited.error);
      }
      SnapshotAnswers(cfg, db, audited.value, u);
      if FindInstance(audited.value.assignments, u) == Some(a) && FindIntent(audited.value.intents, u) == desired {
        var view := ReadView(u);
        if view.Err? {
          return Err(view.error);
        }
        if view.value.claims == claims {
          return Ok(a);
        }
      }
      r := Err(if certain then Integrity else Backend);
    }

    /** One round of `restore`; `None` when it must look again. */
    method RestoreOnce(a: Assignment, claims: map<Uuid, Claim>, desired: Option<Intent>)
      returns (done: Option<Result<Assignment>>)
      requires NamespaceOnly(db) && RestoreInput(cfg, a, claims, desired)
      modifies this
      ensures NamespaceOnly(db) && faults >= old(faults)
      ensures Kept(old(db), db) && AddsOnly(old(db), db, RestorePuts(a, claims, desired))
      ensures done.Some? && done.value.Ok? ==>
        done.value.value == a && WellFormed(cfg, db) && Standing(db, a, claims, desired)
      ensures !old(Fits(cfg, db, a, claims, desired)) ==> done.Some? && done.value.Err? && db == old(db)
      ensures old(Ready(cfg, db, a, claims, desired)) ==> Ready(cfg, db, a, claims, desired)
      ensures old(Ready(cfg, db, a, claims, desired)) && faults == old(faults) ==>
        done == Some(Ok(a)) || (done.None? && Standing(db, a, claims, desired))
      ensures old(Ready(cfg, db, a, claims, desired) && Standing(db, a, claims, desired)) && faults == old(faults) ==>
        done == Some(Ok(a))
    {
      var u := a.gen.instance;
      var audited := AuditAll();
      if audited.Err? {
        return Some(Err(audited.error));
      }
      SnapshotAnswers(cfg, db, audited.value, u);
      SlotAnswers(cfg, db, audited.value, a.gen.slot);
      var existing := FindInstance(audited.value.assignments, u);
      var intent := FindIntent(audited.value.intents, u);
      if existing.Some? {
        done := CompleteExisting(a, claims, desired, existing.value, intent);
        return;
      }
      if FindSlot(audited.value.assignments, a.gen.slot).Some? {
        return Some(Err(Conflict));
      }
      if intent.Some? {
        return Some(Err(Integrity));
      }
      done := CreateAll(a, claims, desired);
    }

    /** The allocation is absent: write it with its claims and its barrier in one transaction. */
    method CreateAll(a: Assignment, claims: map<Uuid, Claim>, desired: Option<Intent>)
      returns (done: Option<Result<Assignment>>)
      requires NamespaceOnly(db) && RestoreInput(cfg, a, claims, desired) && WellFormed(cfg, db) && Untouched(db, a)
      modifies this
      ensures NamespaceOnly(db) && faults >= old(faults)
      ensures Kept(old(db), db) && AddsOnly(old(db), db, RestorePuts(a, claims, desired))
      ensures done.Some? && done.value.Ok? ==>
        done.value.value == a && WellFormed(cfg, db) && Standing(db, a, claims, desired)
      ensures old(Ready(cfg, db, a, claims, desired)) ==> Ready(cfg, db, a, claims, desired)
      ensures old(Ready(cfg, db, a, claims, desired)) && faults == old(faults) ==> done == Some(Ok(a))
    {
      ghost var before := db;
      var m := RestoreAll(a, claims, desired);
      UntouchedCommits(cfg, db, a, claims, desired);
      var sent := Submit(m);
      CommitFacts(cfg, before, db, m, desired);
      if sent == Ok(false) {
        return None;
      }
      var settled := Confirm(a, claims, desired, sent.Ok?);
      done := Some(settled);
    }

    /** The allocation is there: it must be the wanted one, and at most its barrier is missing. */
    method CompleteExisting(
        a: Assignment, claims: map<Uuid, Claim>, desired: Option<Intent>, existing: Assignment, intent: Option<Intent>)
      returns (done: Option<Result<Assignment>>)
      requires NamespaceOnly(db) && RestoreInput(cfg, a, claims, desired) && WellFormed(cfg, db)
      requires HasAssignment(db, a.gen.instance) && AssignmentAt(db, a.gen.instance) == existing
      requires (intent.Some? <==> ReleaseKey(a.gen.instance) in db)
      requires intent.Some? ==> HasIntent(db, a.gen.instance) && IntentAt(db, a.gen.instance) == intent.value
      modifies this
      ensures NamespaceOnly(db) && faults >= old(faults)
      ensures Kept(old(db), db) && AddsOnly(old(db), db, RestorePuts(a, claims, desired))
      ensures done.Some? && done.value.Ok? ==>
        done.value.value == a && WellFormed(cfg, db) && Standing(db, a, claims, desired)
      ensures !old(Fits(cfg, db, a, claims, desired)) ==> done.Some? && done.value.Err? && db == old(db)
      ensures old(Ready(cfg, db, a, claims, desired)) ==> Ready(cfg, db, a, claims, desired)
      ensures old(Ready(cfg, db, a, claims, desired)) && faults == old(faults) ==>
        done == Some(Ok(a)) || (done.None? && Standing(db, a, claims, desired))
      ensures old(Ready(cfg, db, a, claims, desired) && Standing(db, a, claims, desired)) && faults == old(faults) ==>
        done == Some(Ok(a))
    {
      var u := a.gen.instance;
      var view := ReadView(u);
      if view.Err? {
        return Some(Err(view.error));
      }
      ReadyExisting(cfg, db, a, claims, desired, view.value);
      ExistingStands(db, a, claims, view.value);
      if existing != a || view.value.claims != claims {
        return Some(Err(Conflict));
      }
      if intent == desired {
        return Some(Ok(existing));
      }
      if intent.Some? || desired.None? {
        return Some(Err(Conflict));
      }
      done := WriteBarrier(a, claims, desired);
    }

    /** Everything but the barrier stands: write it. */
    method WriteBarrier(a: Assignment, claims: map<Uuid, Claim>, desired: Option<Intent>)
      returns (done: Option<Result<Assignment>>)
      requires NamespaceOnly(db) && RestoreInput(cfg, a, claims, desired) && WellFormed(cfg, db)
      requires desired.Some? && Standing(db, a, claims, None)
      modifies this
      ensures NamespaceOnly(db) && faults >= old(faults)
      ensures Kept(old(db), db) && AddsOnly(old(db), db, RestorePuts(a, claims, desired))
      ensures done.Some? && done.value.Ok? ==>
        done.value.value == a && WellFormed(cfg, db) && Standing(db, a, claims, desired)
      ensures old(Ready(cfg, db, a, claims, desired)) ==> Ready(cfg, db, a, claims, desired)
      ensures faults == old(faults) ==> done.None? && Standing(db, a, claims, desired)
    {
      ghost var before := db;
      var m := RestoreIntent(a, claims, desired.value);
      StandingCommits(cfg, db, a, claims, desired.value);
      var sent := Submit(m);
      CommitFacts(cfg, before, db, m, desired);
      if sent.Ok? {
        return None;
      }
      var settled := Confirm(a, claims, desired, false);
      done := Some(settled);
    }

    /**
     * `restore`: overwrites nothing, adds nothing but this allocation, and
     * reports success only when exactly it stands. Any partial or different
     * state is refused and left alone; from any point at which an earlier attempt
     * may have stopped, a fault-free call succeeds.
     */
    method Restore(a: Assignment, claims: map<Uuid, Claim>, desired: Option<Intent>) returns (r: Result<Assignment>)
      requires NamespaceOnly(db) && RestoreInput(cfg, a, claims, desired)
      modifies this
      ensures NamespaceOnly(db) && faults >= old(faults)
      ensures Kept(old(db), db) && AddsOnly(old(db), db, RestorePuts(a, claims, desired))
      ensures r.Ok? ==> r.value == a && WellFormed(cfg, db) && Standing(db, a, claims, desired)
      ensures !old(Fits(cfg, db, a, claims, desired)) ==> r.Err? && db == old(db)
      ensures old(Ready(cfg, db, a, claims, desired)) ==> Ready(cfg, db, a, claims, desired)
      ensures old(Ready(cfg, db, a, claims, desired)) && faults == old(faults) ==> r == Ok(a)
    {
      for attempt := 0 to 32
        invariant NamespaceOnly(db) && faults >= old(faults)
        invariant Kept(old(db), db) && AddsOnly(old(db), db, RestorePuts(a, claims, desired))
        invariant !old(Fits(cfg, db, a, claims, desired)) ==> attempt == 0 && db == old(db)
        invariant old(Ready(cfg, db, a, claims, desired)) ==> Ready(cfg, db, a, claims, desired)
        invariant old(Ready(cfg, db, a, claims, desired)) && faults == old(faults) ==>
          attempt <= 1 && (attempt == 1 ==> Standing(db, a, claims, desired))
      {
        var done := RestoreOnce(a, claims, desired);
        if done.Some? {
          return done.value;
        }
      }
      r := Err(Conflict);
    }

    /** `bootstrap`: create the configuration of an empty namespace, or audit the one that is there. */
    method Bootstrap() returns (ok: bool)
      requires NamespaceOnly(db)
      modifies this
      ensures NamespaceOnly(db) && faults >= old(faults)
      ensures db == old(db) || (old(db) == map[] && db == map[ConfigKey := Plain(ConfigRecord(cfg))])
      ensures ok ==> WellFormed(cfg, db)
      ensures faults == old(faults) && (old(db) == map[] || WellFormed(cfg, old(db))) ==> ok
    {
      if db == map[] {
        var faulty: bool := *;
        var arrives: bool := *;
        if faulty {
          faults := faults + 1;
        }
        if !faulty || arrives {
          db := map[ConfigKey := Plain(ConfigRecord(cfg))];
        }
        if faulty {
          return false;
        }
      }
      var audited := AuditAll();
      ok := audited.Ok?;
    }

    /** The entries are restored one by one, in document order. */
    method RestoreEntries(d: Document, parsed: Restorable, ghost resumable: bool) returns (ok: bool)
      requires NamespaceOnly(db) && DocumentOk(cfg, d)
      requires ParsedEntries(cfg, d, |d.entries|, parsed.assignments, parsed.claims) && parsed.intents == d.intents
      requires resumable ==> Resumable(cfg, d, db)
      modifies this
      ensures NamespaceOnly(db) && faults >= old(faults) && Grown(cfg, d, old(db), db)
      ensures ok ==> forall e | e in d.entries :: EntryDone(d, db, e)
      ensures resumable ==> Resumable(cfg, d, db) && (faults == old(faults) ==> ok)
    {
      for i := 0 to |d.entries|
        invariant NamespaceOnly(db) && faults >= old(faults) && Grown(cfg, d, old(db), db)
        invariant DoneUpTo(d, db, i)
        invariant resumable ==> Resumable(cfg, d, db)
      {
        ghost var before := db;
        var restored := RestoreEntry(d, parsed, i, resumable);
        GrownOn(cfg, d, old(db), before, db);
        DoneStays(d, before, db, i);
        if !restored {
          return false;
        }
      }
      AllDone(d, db);
      ok := true;
    }

    method RestoreEntry(d: Document, parsed: Restorable, i: nat, ghost resumable: bool) returns (ok: bool)
      requires NamespaceOnly(db) && DocumentOk(cfg, d) && i < |d.entries|
      requires ParsedEntries(cfg, d, |d.entries|, parsed.assignments, parsed.claims) && parsed.intents == d.intents
      requires resumable ==> Resumable(cfg, d, db)
      modifies this
      ensures NamespaceOnly(db) && faults >= old(faults) && Grown(cfg, d, old(db), db)
      ensures ok ==> EntryDone(d, db, d.entries[i])
      ensures resumable ==> Resumable(cfg, d, db) && (faults == old(faults) ==> ok)
    {
      ghost var e := d.entries[i];
      var a := parsed.assignments[i];
      EntryPrepared(cfg, d, db, parsed, i);
      ghost var before := db;
      var restored := Restore(a, parsed.claims[a.gen.instance], FindIntent(parsed.intents, a.gen.instance));
      EntryGrows(cfg, d, e, before, db);
      if resumable {
        GrownResumable(cfg, d, before, db);
      }
      ok := restored == Ok(a);
      if ok {
        StandingIsDone(d, db, e);
      }
    }

    /** Everything that the first audit found must be part of the document. */
    method AllKnown(parsed: Restorable, s: Snapshot) returns (known: bool)
      ensures known <==>
        && (forall a | a in s.assignments :: FindInstance(parsed.assignments, a.gen.instance) == Some(a))
        && (forall x | x in s.intents :: FindIntent(parsed.intents, x.gen.instance) == Some(x))
    {
      for i := 0 to |s.assignments|
        invariant forall a | a in s.assignments[..i] :: FindInstance(parsed.assignments, a.gen.instance) == Some(a)
      {
        assert s.assignments[i] in s.assignments;
        if FindInstance(parsed.assignments, s.assignments[i].gen.instance) != Some(s.assignments[i]) {
          return false;
        }
      }
      for i := 0 to |s.intents|
        invariant forall x | x in s.intents[..i] :: FindIntent(parsed.intents, x.gen.instance) == Some(x)
      {
        assert s.intents[i] in s.intents;
        if FindIntent(parsed.intents, s.intents[i].gen.instance) != Some(s.intents[i]) {
          return false;
        }
      }
      known := true;
    }

    /**
     * `restore_registry`: whatever happens, nothing stored is overwritten and
     * nothing foreign to the document is added; a registry that is not in order
     * or holds an allocation or barrier foreign to the document is left alone;
     * success means that the registry is exactly the document; and a fault-free
     * run succeeds from an empty namespace and from wherever earlier runs of it
     * may have stopped.
     */
    method RestoreRegistry(d: Document) returns (r: Result<()>)
      requires NamespaceOnly(db)
      modifies this
      ensures NamespaceOnly(db) && faults >= old(faults) && Grown(cfg, d, old(db), db)
      ensures !DocumentOk(cfg, d) ==> r.Err? && db == old(db)
      ensures r.Ok? ==> Restored(cfg, d, db)
      ensures old(db != map[] && (!WellFormed(cfg, db) || HoldsForeign(cfg, d, db))) ==> r.Err? && db == old(db)
      ensures DocumentOk(cfg, d) && (old(db) == map[] || old(Resumable(cfg, d, db))) ==>
        (db == map[] || Resumable(cfg, d, db)) && (faults == old(faults) ==> r.Ok?)
    {
      var parsed := ValidateRestoreDocument(cfg, d);
      if parsed.Err? {
        return Err(parsed.error);
      }
      var started := Bootstrap();
      ghost var booted := db;
      BootstrapGrows(cfg, d, old(db), db);
      if !started {
        return Err(Backend);
      }
      r := ReplayDocument(d, parsed.value);
      GrownOn(cfg, d, old(db), booted, db);
    }

    /** `restore_registry` on a bootstrapped namespace. */
    method ReplayDocument(d: Document, parsed: Restorable) returns (r: Result<()>)
      requires NamespaceOnly(db) && DocumentOk(cfg, d) && WellFormed(cfg, db)
      requires ParsedEntries(cfg, d, |d.entries|, parsed.assignments, parsed.claims) && parsed.intents == d.intents
      modifies this
      ensures NamespaceOnly(db) && faults >= old(faults) && Grown(cfg, d, old(db), db)
      ensures r.Ok? ==> Restored(cfg, d, db)
      ensures old(HoldsForeign(cfg, d, db)) ==> r.Err? && db == old(db)
      ensures old(Resumable(cfg, d, db)) ==> Resumable(cfg, d, db) && (faults == old(faults) ==> r.Ok?)
    {
      var existing := AuditAll();
      if existing.Err? {
        return Err(existing.error);
      }
      var known := AllKnown(parsed, existing.value);
      if Resumable(cfg, d, db) {
        ResumableIsKnown(cfg, d, db, parsed, existing.value);
      }
      if !known {
        return Err(Integrity);
      }
      KnownIsSaid(cfg, d, db, parsed, existing.value);
      var restored := RestoreEntries(d, parsed, Resumable(cfg, d, db));
      if !restored {
        return Err(Backend);
      }
      var final := AuditAll();
      if final.Err? {
        return Err(final.error);
      }
      if Resumable(cfg, d, db) {
        FinalComparison(cfg, d, db, parsed, final.value);
      }
      if final.value.assignments != parsed.assignments || final.value.intents != parsed.intents {
        return Err(Integrity);
      }
      forall e | e in d.entries ensures ClaimsStand(db, e) {
        assert EntryDone(d, db, e);
      }
      ExactlyRestored(cfg, d, db, final.value);
      r := Ok(());
    }
  }
}
