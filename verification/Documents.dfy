/**
 * The frozen registry document (tools/openstack-incus-idmap-registry.py): its
 * export from one audited snapshot, its validation, and what it says.
 */
module Documents {
  import opened Wrappers
  import opened Records
  import opened Store
  import opened Registry
  import opened Audit

  const DOCUMENT_SCHEMA := "openstack-incus-idmap-registry/v3"

  /** One allocation with its claims; `gen` holds the entry's own six fields. */
  datatype DocumentEntry = DocumentEntry(gen: Generation, claims: seq<Claim>)

  datatype Document = Document(
    schema: string, config: Config, fingerprint: Fingerprint,
    entries: seq<DocumentEntry>, intents: seq<Intent>)

  /** The result of a successful validation. */
  datatype Restorable = Restorable(
    assignments: seq<Assignment>, claims: map<Uuid, map<Uuid, Claim>>, intents: seq<Intent>)

  function HostsNamed(e: DocumentEntry): set<Uuid> {
    set c | c in e.claims :: c.host
  }

  function AssignmentOf(e: DocumentEntry): Assignment {
    Assignment(e.gen, HostsNamed(e))
  }

  /** `validate_restore`: one assignment with its canonical list of claims. */
  predicate EntryOk(cfg: Config, e: DocumentEntry) {
    && GenerationOk(cfg, e.gen)
    && (forall i, j | 0 <= i < j < |e.claims| :: e.claims[i].host < e.claims[j].host)
    && (forall i | 0 <= i < |e.claims| :: ClaimOk(cfg, e.claims[i]) && e.claims[i].gen == e.gen)
  }

  predicate HeaderOk(cfg: Config, d: Document) {
    d.schema == DOCUMENT_SCHEMA && d.config == cfg && d.fingerprint == Sha256Config(cfg)
  }

  /** The documents that describe one registry of this namespace, in canonical order. */
  ghost predicate DocumentOk(cfg: Config, d: Document) {
    && HeaderOk(cfg, d)
    && EntriesOk(cfg, d) && EntriesDistinct(d)
    && (forall i, j | 0 <= i < j < |d.entries| :: d.entries[i].gen.slot < d.entries[j].gen.slot)
    && IntentsBacked(d)
    && (forall i, j | 0 <= i < j < |d.intents| :: d.intents[i].gen.slot < d.intents[j].gen.slot)
  }

  ghost predicate EntriesOk(cfg: Config, d: Document) {
    forall i | 0 <= i < |d.entries| :: EntryOk(cfg, d.entries[i])
  }

  ghost predicate EntriesDistinct(d: Document) {
    forall i, j | 0 <= i < j < |d.entries| :: Apart(d.entries[i], d.entries[j])
  }

  ghost predicate IntentsBacked(d: Document) {
    forall i | 0 <= i < |d.intents| :: IntentBacked(d, d.intents[i])
  }

  ghost predicate IntentsDistinct(d: Document) {
    forall i, j | 0 <= i < j < |d.intents| :: d.intents[i].gen.instance != d.intents[j].gen.instance
  }

  /** The intent releases one of the document's own generations. */
  ghost predicate IntentBacked(d: Document, x: Intent) {
    InstanceNameOk(x.name) && exists e :: e in d.entries && e.gen == x.gen
  }

  // ---- what a document says ---------------------------------------------------------------

  predicate RegistryKey(k: Key) {
    k.ConfigKey? || k.InstanceKey? || k.SlotKey? || k.ReleaseKey? || k.HostKey?
  }

  /** The document prescribes this record under this key. */
  ghost predicate Says(cfg: Config, d: Document, k: Key, raw: Raw) {
    match k
    case ConfigKey => raw == ConfigRecord(cfg)
    case InstanceKey(u) =>
      exists e :: e in d.entries && e.gen.instance == u && raw == AssignmentRecord(AssignmentOf(e))
    case SlotKey(n) =>
      exists e :: e in d.entries && e.gen.slot == n && raw == AssignmentRecord(AssignmentOf(e))
    case HostKey(h, u) => raw.ClaimRecord? && SaysClaim(d, h, u, raw.claim)
    case ReleaseKey(u) =>
      exists x :: x in d.intents && x.gen.instance == u && raw == IntentRecord(x)
    case _ => false
  }

  ghost predicate SaysClaim(d: Document, h: Uuid, u: Uuid, c: Claim) {
    exists e :: e in d.entries && e.gen.instance == u && c in e.claims && c.host == h
  }

  /** The registry's records are exactly the document's; fences and control records are not its business. */
  ghost predicate Restored(cfg: Config, d: Document, db: Db) {
    forall k, raw | RegistryKey(k) :: (k in db && db[k].raw == raw) <==> Says(cfg, d, k, raw)
  }

  /** Everything stored so far is something the document says. */
  ghost predicate Agrees(cfg: Config, d: Document, db: Db) {
    forall k {:trigger Says(cfg, d, k, db[k].raw)} | k in db && RegistryKey(k) :: Says(cfg, d, k, db[k].raw)
  }

  // ---- validation ---------------------------------------------------------------------------

  function ClaimMap(claims: seq<Claim>): (m: map<Uuid, Claim>)
    ensures m.Keys == set c | c in claims :: c.host
    ensures forall h | h in m :: m[h] in claims && m[h].host == h
  {
    if claims == [] then map[]
    else
      var n := |claims| - 1;
      var m := ClaimMap(claims[..n]);
      assert claims == claims[..n] + [claims[n]];
      m[claims[n].host := claims[n]]
  }

  /** The first `n` entries are valid, pairwise distinct, and parsed. */
  ghost predicate ParsedEntries(
      cfg: Config, d: Document, n: nat, assignments: seq<Assignment>, claims: map<Uuid, map<Uuid, Claim>>)
    requires n <= |d.entries|
  {
    && |assignments| == n
    && (forall i | 0 <= i < n :: EntryOk(cfg, d.entries[i]))
    && (forall i | 0 <= i < n :: assignments[i] == AssignmentOf(d.entries[i]))
    && (forall i, j | 0 <= i < j < n :: Apart(d.entries[i], d.entries[j]))
    && ClaimsOfEntries(d, n, claims)
  }

  predicate Apart(e: DocumentEntry, f: DocumentEntry) {
    e.gen.instance != f.gen.instance && e.gen.slot != f.gen.slot
  }

  ghost predicate ClaimsOfEntries(d: Document, n: nat, claims: map<Uuid, map<Uuid, Claim>>)
    requires n <= |d.entries|
  {
    && (forall i | 0 <= i < n :: ClaimsOfEntry(d.entries[i], claims))
    && (forall u | u in claims :: exists i :: 0 <= i < n && d.entries[i].gen.instance == u)
  }

  ghost predicate ClaimsOfEntry(e: DocumentEntry, claims: map<Uuid, map<Uuid, Claim>>) {
    e.gen.instance in claims && claims[e.gen.instance] == ClaimMap(e.claims)
  }

  lemma OneMoreEntry(d: Document, n: nat, claims: map<Uuid, map<Uuid, Claim>>)
    requires n < |d.entries| && ClaimsOfEntries(d, n, claims)
    requires d.entries[n].gen.instance !in claims
    ensures ClaimsOfEntries(d, n + 1, claims[d.entries[n].gen.instance := ClaimMap(d.entries[n].claims)])
    ensures forall i | 0 <= i < n :: d.entries[i].gen.instance != d.entries[n].gen.instance
  {
    var e := d.entries[n];
    var claims' := claims[e.gen.instance := ClaimMap(e.claims)];
    forall i | 0 <= i < n + 1 ensures ClaimsOfEntry(d.entries[i], claims') {
      if i < n {
        assert ClaimsOfEntry(d.entries[i], claims);
      }
    }
    forall i | 0 <= i < n ensures d.entries[i].gen.instance != e.gen.instance {
      assert ClaimsOfEntry(d.entries[i], claims);
    }
    forall u | u in claims' ensures exists i :: 0 <= i < n + 1 && d.entries[i].gen.instance == u {
      if u != e.gen.instance {
        var i :| 0 <= i < n && d.entries[i].gen.instance == u;
      } else {
        assert d.entries[n].gen.instance == u;
      }
    }
  }

  lemma OneMoreParsed(
      cfg: Config, d: Document, n: nat, assignments: seq<Assignment>, claims: map<Uuid, map<Uuid, Claim>>)
    requires n < |d.entries| && ParsedEntries(cfg, d, n, assignments, claims)
    requires EntryOk(cfg, d.entries[n]) && d.entries[n].gen.instance !in claims
    requires forall i | 0 <= i < n :: d.entries[i].gen.slot != d.entries[n].gen.slot
    ensures ParsedEntries(cfg, d, n + 1, assignments + [AssignmentOf(d.entries[n])],
                          claims[d.entries[n].gen.instance := ClaimMap(d.entries[n].claims)])
  {
    OneMoreEntry(d, n, claims);
    var assignments' := assignments + [AssignmentOf(d.entries[n])];
    forall i | 0 <= i < n + 1 ensures assignments'[i] == AssignmentOf(d.entries[i]) {
      if i < n {
        assert assignments'[i] == assignments[i];
      }
    }
  }

  /** The loop of `validate_restore_document` over the assignments. */
  method ParseEntries(cfg: Config, d: Document)
      returns (ok: bool, assignments: seq<Assignment>, claims: map<Uuid, map<Uuid, Claim>>)
    ensures ok <==> EntriesOk(cfg, d) && EntriesDistinct(d)
    ensures ok ==> ParsedEntries(cfg, d, |d.entries|, assignments, claims)
  {
    assignments, claims := [], map[];
    var slots: set<int> := {};
    var index := 0;
    while index < |d.entries|
      invariant 0 <= index <= |d.entries| && ParsedEntries(cfg, d, index, assignments, claims)
      invariant slots == SlotsNamed(d, index)
    {
      var e := d.entries[index];
      if !EntryOk(cfg, e) || e.gen.instance in claims || e.gen.slot in slots {
        BadEntry(cfg, d, index, claims);
        return false, [], map[];
      }
      OneMoreParsed(cfg, d, index, assignments, claims);
      slots := slots + {e.gen.slot};
      assignments := assignments + [AssignmentOf(e)];
      claims := claims[e.gen.instance := ClaimMap(e.claims)];
      index := index + 1;
    }
    ok := true;
  }

  function SlotsNamed(d: Document, n: nat): set<int>
    requires n <= |d.entries|
  {
    set i | 0 <= i < n :: d.entries[i].gen.slot
  }

  lemma BadEntry(cfg: Config, d: Document, n: nat, claims: map<Uuid, map<Uuid, Claim>>)
    requires n < |d.entries| && ClaimsOfEntries(d, n, claims)
    requires !EntryOk(cfg, d.entries[n]) || d.entries[n].gen.instance in claims
             || d.entries[n].gen.slot in SlotsNamed(d, n)
    ensures !(EntriesOk(cfg, d) && EntriesDistinct(d))
  {
    if EntryOk(cfg, d.entries[n]) {
      var i :| 0 <= i < n
               && (d.entries[i].gen.instance == d.entries[n].gen.instance
                   || d.entries[i].gen.slot == d.entries[n].gen.slot);
      assert !Apart(d.entries[i], d.entries[n]);
    }
  }

  /** The loop of `validate_restore_document` over the release intents. */
  method ParseIntents(d: Document, assignments: seq<Assignment>) returns (ok: bool)
    requires |assignments| == |d.entries|
    requires forall i | 0 <= i < |d.entries| :: assignments[i] == AssignmentOf(d.entries[i])
    ensures ok <==> IntentsBacked(d) && IntentsDistinct(d)
  {
    var seen: set<Uuid> := {};
    for index := 0 to |d.intents|
      invariant forall i | 0 <= i < index :: IntentBacked(d, d.intents[i])
      invariant forall i, j | 0 <= i < j < index :: d.intents[i].gen.instance != d.intents[j].gen.instance
      invariant forall i | 0 <= i < index :: d.intents[i].gen.instance in seen
      invariant forall u | u in seen :: exists i :: 0 <= i < index && d.intents[i].gen.instance == u
    {
      var x := d.intents[index];
      var backed := exists i | 0 <= i < |assignments| :: assignments[i].gen == x.gen;
      BackedByAssignment(d, assignments, x);
      if !backed || !InstanceNameOk(x.name) || x.gen.instance in seen {
        return false;
      }
      seen := seen + {x.gen.instance};
    }
    ok := true;
  }

  lemma BackedByAssignment(d: Document, assignments: seq<Assignment>, x: Intent)
    requires |assignments| == |d.entries|
    requires forall i | 0 <= i < |d.entries| :: assignments[i] == AssignmentOf(d.entries[i])
    ensures (exists i | 0 <= i < |assignments| :: assignments[i].gen == x.gen) <==>
            (exists e :: e in d.entries && e.gen == x.gen)
  {
    if exists i | 0 <= i < |assignments| :: assignments[i].gen == x.gen {
      var i :| 0 <= i < |assignments| && assignments[i].gen == x.gen;
      assert d.entries[i] in d.entries;
    }
    if exists e :: e in d.entries && e.gen == x.gen {
      var e :| e in d.entries && e.gen == x.gen;
      var i :| 0 <= i < |d.entries| && d.entries[i] == e;
      assert assignments[i].gen == x.gen;
    }
  }

  predicate AssignmentsInOrder(s: seq<Assignment>) {
    forall i, j | 0 <= i < j < |s| :: s[i].gen.slot <= s[j].gen.slot
  }

  predicate IntentsInOrder(s: seq<Intent>) {
    forall i, j | 0 <= i < j < |s| ::
      s[i].gen.slot < s[j].gen.slot
      || (s[i].gen.slot == s[j].gen.slot && s[i].gen.instance <= s[j].gen.instance)
  }

  /** `validate_restore_document`: accepts exactly the documents that describe one registry. */
  method ValidateRestoreDocument(cfg: Config, d: Document) returns (r: Result<Restorable>)
    ensures r.Ok? <==> DocumentOk(cfg, d)
    ensures r.Ok? ==>
      && ParsedEntries(cfg, d, |d.entries|, r.value.assignments, r.value.claims)
      && r.value.intents == d.intents
    ensures r.Err? ==> r.error == Configuration
  {
    if !HeaderOk(cfg, d) {
      return Err(Configuration);
    }
    var entriesOk, assignments, claims := ParseEntries(cfg, d);
    if !entriesOk {
      return Err(Configuration);
    }
    var intentsOk := ParseIntents(d, assignments);
    if !intentsOk {
      IntentsDistinctFromOrder(cfg, d);
      return Err(Configuration);
    }
    OrdersAgree(cfg, d, assignments, claims);
    if !AssignmentsInOrder(assignments) || !IntentsInOrder(d.intents) {
      return Err(Configuration);
    }
    r := Ok(Restorable(assignments, claims, d.intents));
  }

  /** Intents of one document name generations, which differ in slot and instance alike. */
  lemma IntentsDistinctFromOrder(cfg: Config, d: Document)
    ensures DocumentOk(cfg, d) ==> IntentsDistinct(d)
  {
    if DocumentOk(cfg, d) {
      forall i, j | 0 <= i < j < |d.intents| ensures d.intents[i].gen.instance != d.intents[j].gen.instance {
        BackedIntentsDiffer(d, d.intents[i], d.intents[j]);
      }
    }
  }

  /** Two backed intents are of one generation, or differ in both slot and instance. */
  lemma BackedIntentsDiffer(d: Document, x: Intent, y: Intent)
    requires IntentBacked(d, x) && IntentBacked(d, y) && EntriesDistinct(d)
    ensures x.gen == y.gen || (x.gen.instance != y.gen.instance && x.gen.slot != y.gen.slot)
  {
    var e :| e in d.entries && e.gen == x.gen;
    var f :| f in d.entries && f.gen == y.gen;
    var i :| 0 <= i < |d.entries| && d.entries[i] == e;
    var j :| 0 <= j < |d.entries| && d.entries[j] == f;
    if i < j {
      assert Apart(e, f);
    } else if j < i {
      assert Apart(f, e);
    }
  }

  /** With slots and instances distinct, the code's non-strict order checks are strict ones. */
  lemma OrdersAgree(
      cfg: Config, d: Document, assignments: seq<Assignment>, claims: map<Uuid, map<Uuid, Claim>>)
    requires ParsedEntries(cfg, d, |d.entries|, assignments, claims)
    requires EntriesDistinct(d) && IntentsBacked(d) && IntentsDistinct(d)
    ensures AssignmentsInOrder(assignments) <==>
            (forall i, j | 0 <= i < j < |d.entries| :: d.entries[i].gen.slot < d.entries[j].gen.slot)
    ensures IntentsInOrder(d.intents) <==>
            (forall i, j | 0 <= i < j < |d.intents| :: d.intents[i].gen.slot < d.intents[j].gen.slot)
  {
    forall i, j | 0 <= i < j < |d.entries|
      ensures assignments[i].gen.slot <= assignments[j].gen.slot <==> d.entries[i].gen.slot < d.entries[j].gen.slot
    {
      assert assignments[i] == AssignmentOf(d.entries[i]) && assignments[j] == AssignmentOf(d.entries[j]);
    }
    forall i, j | 0 <= i < j < |d.intents|
      ensures d.intents[i].gen.slot != d.intents[j].gen.slot
    {
      BackedIntentsDiffer(d, d.intents[i], d.intents[j]);
    }
  }
}
