/** `registry_document`: the export of one audited snapshot, and that it loses nothing but the fence ledger. */
module Exports {
  import opened Wrappers
  import opened Records
  import opened Store
  import opened Registry
  import opened Audit
  import opened Documents

  /** The claims of one instance, in the order in which they are listed. */
  function ClaimsFor(claims: seq<Claim>, u: Uuid): (r: seq<Claim>)
    ensures forall c :: c in r <==> c in claims && c.gen.instance == u
  {
    if claims == [] then []
    else
      var n := |claims| - 1;
      var rest := ClaimsFor(claims[..n], u);
      assert claims == claims[..n] + [claims[n]];
      if claims[n].gen.instance == u then rest + [claims[n]] else rest
  }

  function EntryFor(a: Assignment, claims: seq<Claim>): DocumentEntry {
    DocumentEntry(a.gen, ClaimsFor(claims, a.gen.instance))
  }

  function Export(cfg: Config, s: Snapshot): Document {
    Document(
      DOCUMENT_SCHEMA, cfg, Sha256Config(cfg),
      seq(|s.assignments|, i requires 0 <= i < |s.assignments| => EntryFor(s.assignments[i], s.claims)),
      s.intents)
  }

  /** Group the snapshot's claims by instance, as the exporter's dictionary does. */
  method GroupClaims(claims: seq<Claim>) returns (groups: map<Uuid, seq<Claim>>)
    ensures forall u :: (if u in groups then groups[u] else []) == ClaimsFor(claims, u)
  {
    groups := map[];
    for i := 0 to |claims|
      invariant forall u :: (if u in groups then groups[u] else []) == ClaimsFor(claims[..i], u)
    {
      var c := claims[i];
      assert claims[..i + 1][..i] == claims[..i];
      var group := if c.gen.instance in groups then groups[c.gen.instance] else [];
      groups := groups[c.gen.instance := group + [c]];
    }
    assert claims[..|claims|] == claims;
  }

  /** `registry_document`: refuses when the caller's lists are not the audited ones. */
  method RegistryDocument(cfg: Config, records: Db, assignments: seq<Assignment>, intents: Option<seq<Intent>>)
      returns (r: Result<Document>)
    requires NamespaceOnly(records)
    ensures r.Ok? ==> WellFormed(cfg, records)
    ensures r.Ok? ==>
      exists s :: Lists(records, s) && s.assignments == assignments
                  && (intents.Some? ==> s.intents == intents.value) && r.value == Export(cfg, s)
    ensures r.Err? ==> r.error == Integrity || r.error == Conflict
    ensures (r.Err? && r.error == Integrity) <==> !WellFormed(cfg, records)
    ensures r.Err? && r.error == Conflict ==>
      exists s :: Lists(records, s) && (s.assignments != assignments || (intents.Some? && s.intents != intents.value))
  {
    var audited := AuditSnapshot(cfg, records);
    if audited.Err? {
      return Err(Integrity);
    }
    var s := audited.value;
    if assignments != s.assignments || (intents.Some? && intents.value != s.intents) {
      return Err(Conflict);
    }
    var groups := GroupClaims(s.claims);
    var entries: seq<DocumentEntry> := [];
    for i := 0 to |s.assignments|
      invariant |entries| == i
      invariant forall j | 0 <= j < i :: entries[j] == EntryFor(s.assignments[j], s.claims)
    {
      var u := s.assignments[i].gen.instance;
      entries := entries + [DocumentEntry(s.assignments[i].gen, if u in groups then groups[u] else [])];
    }
    var d := Document(DOCUMENT_SCHEMA, cfg, Sha256Config(cfg), entries, s.intents);
    assert d.entries == Export(cfg, s).entries;
    r := Ok(d);
  }

  // ---- the export describes the registry -----------------------------------------------------

  ghost predicate HostsAscend(r: seq<Claim>) {
    forall i, j | 0 <= i < j < |r| :: r[i].host < r[j].host
  }

  lemma {:induction false} ClaimsForOrdered(claims: seq<Claim>, u: Uuid)
    requires forall i, j | 0 <= i < j < |claims| :: ClaimBefore(claims[i], claims[j])
    requires forall c, d | c in claims && d in claims && c.gen.instance == u && d.gen.instance == u :: c.gen == d.gen
    ensures HostsAscend(ClaimsFor(claims, u))
  {
    if claims != [] {
      var n := |claims| - 1;
      assert claims == claims[..n] + [claims[n]];
      ClaimsForOrdered(claims[..n], u);
      var rest := ClaimsFor(claims[..n], u);
      if claims[n].gen.instance == u {
        forall i | 0 <= i < |rest| ensures rest[i].host < claims[n].host {
          assert rest[i] in rest;
          var k :| 0 <= k < n && claims[..n][k] == rest[i];
          assert ClaimBefore(claims[k], claims[n]);
          assert claims[k] in claims && claims[n] in claims;
        }
        assert HostsAscend(rest + [claims[n]]);
      }
    }
  }

  /** The claims listed for an allocation are valid, of its generation, and on its hosts. */
  lemma ListedClaims(cfg: Config, db: Db, s: Snapshot, a: Assignment)
    requires Consistent(cfg, db) && Lists(db, s) && a in s.assignments
    ensures forall c | c in s.claims && c.gen.instance == a.gen.instance ::
              ClaimOk(cfg, c) && c.gen == a.gen && c.host in a.hosts
  {
    var u := a.gen.instance;
    forall c | c in s.claims && c.gen.instance == u
      ensures ClaimOk(cfg, c) && c.gen == a.gen && c.host in a.hosts
    {
      assert RecordOk(cfg, HostKey(c.host, u), db[HostKey(c.host, u)].raw);
    }
  }

  lemma EntryClaimsOk(cfg: Config, s: Snapshot, a: Assignment)
    requires forall i, j | 0 <= i < j < |s.claims| :: ClaimBefore(s.claims[i], s.claims[j])
    requires forall c | c in s.claims && c.gen.instance == a.gen.instance :: ClaimOk(cfg, c) && c.gen == a.gen
    requires GenerationOk(cfg, a.gen)
    ensures EntryOk(cfg, EntryFor(a, s.claims))
  {
    ClaimsForOrdered(s.claims, a.gen.instance);
    var e := EntryFor(a, s.claims);
    forall i | 0 <= i < |e.claims| ensures ClaimOk(cfg, e.claims[i]) && e.claims[i].gen == e.gen {
      assert e.claims[i] in e.claims;
    }
  }

  /** One exported entry is the stored assignment with exactly its stored claims. */
  lemma EntryFaithful(cfg: Config, db: Db, s: Snapshot, a: Assignment)
    requires Consistent(cfg, db) && Lists(db, s) && a in s.assignments
    ensures EntryOk(cfg, EntryFor(a, s.claims)) && AssignmentOf(EntryFor(a, s.claims)) == a
  {
    var u := a.gen.instance;
    assert RecordOk(cfg, InstanceKey(u), db[InstanceKey(u)].raw);
    ListedClaims(cfg, db, s, a);
    EntryClaimsOk(cfg, s, a);
    var e := EntryFor(a, s.claims);
    forall h ensures h in HostsNamed(e) <==> h in a.hosts {
      if h in a.hosts {
        HostHasListedClaim(cfg, db, s, a, h);
      }
    }
  }

  lemma HostHasListedClaim(cfg: Config, db: Db, s: Snapshot, a: Assignment, h: Uuid)
    requires Consistent(cfg, db) && Lists(db, s) && a in s.assignments && h in a.hosts
    ensures h in HostsNamed(EntryFor(a, s.claims))
  {
    var u := a.gen.instance;
    assert HasClaim(db, h, u);
    var c := ClaimAt(db, h, u);
    assert RecordOk(cfg, HostKey(h, u), db[HostKey(h, u)].raw);
    assert c in s.claims;
    assert c in EntryFor(a, s.claims).claims;
  }

  /** The export of a well-formed registry is a valid restore document. */
  lemma ExportIsValid(cfg: Config, db: Db, s: Snapshot)
    requires WellFormed(cfg, db) && Lists(db, s)
    ensures DocumentOk(cfg, Export(cfg, s))
  {
    var d := Export(cfg, s);
    forall i | 0 <= i < |d.entries|
      ensures EntryOk(cfg, d.entries[i]) && d.entries[i] == EntryFor(s.assignments[i], s.claims)
      ensures AssignmentOf(d.entries[i]) == s.assignments[i]
    {
      EntryFaithful(cfg, db, s, s.assignments[i]);
    }
    forall i, j | 0 <= i < j < |d.entries| ensures Apart(d.entries[i], d.entries[j]) {
      assert s.assignments[i] in s.assignments && s.assignments[j] in s.assignments;
      assert s.assignments[i].gen.slot < s.assignments[j].gen.slot;
    }
    forall i | 0 <= i < |d.intents| ensures IntentBacked(d, d.intents[i]) {
      IntentFaithful(cfg, db, s, d.intents[i]);
    }
  }

  lemma IntentFaithful(cfg: Config, db: Db, s: Snapshot, x: Intent)
    requires Consistent(cfg, db) && Lists(db, s) && x in s.intents
    ensures IntentBacked(Export(cfg, s), x)
  {
    var u := x.gen.instance;
    assert HasIntent(db, u) && IntentAt(db, u) == x;
    assert RecordOk(cfg, ReleaseKey(u), db[ReleaseKey(u)].raw);
    var a := AssignmentAt(db, u);
    assert RecordOk(cfg, InstanceKey(u), db[InstanceKey(u)].raw);
    ExportHasEntry(cfg, s, a);
  }

  lemma ExportHasEntry(cfg: Config, s: Snapshot, a: Assignment)
    requires a in s.assignments
    ensures EntryFor(a, s.claims) in Export(cfg, s).entries
  {
    var i :| 0 <= i < |s.assignments| && s.assignments[i] == a;
    assert Export(cfg, s).entries[i] == EntryFor(a, s.claims);
  }

  lemma ExportedEntry(cfg: Config, s: Snapshot, e: DocumentEntry) returns (a: Assignment)
    requires e in Export(cfg, s).entries
    ensures a in s.assignments && e == EntryFor(a, s.claims)
  {
    var i :| 0 <= i < |s.assignments| && Export(cfg, s).entries[i] == e;
    a := s.assignments[i];
  }

  lemma SaysPair(cfg: Config, db: Db, s: Snapshot, u: Uuid, n: nat, raw: Raw)
    requires Consistent(cfg, db) && Lists(db, s)
    ensures (InstanceKey(u) in db && db[InstanceKey(u)].raw == raw) <==> Says(cfg, Export(cfg, s), InstanceKey(u), raw)
    ensures (SlotKey(n) in db && db[SlotKey(n)].raw == raw) <==> Says(cfg, Export(cfg, s), SlotKey(n), raw)
  {
    var d := Export(cfg, s);
    forall k | k in db && (k == InstanceKey(u) || k == SlotKey(n)) && db[k].raw == raw
      ensures Says(cfg, d, k, raw)
    {
      assert RecordOk(cfg, k, db[k].raw);
      var a := raw.assignment;
      assert HasAssignment(db, a.gen.instance) && AssignmentAt(db, a.gen.instance) == a;
      ExportHasEntry(cfg, s, a);
      EntryFaithful(cfg, db, s, a);
    }
    forall e | e in d.entries && raw == AssignmentRecord(AssignmentOf(e))
      ensures e.gen.instance == u ==> InstanceKey(u) in db && db[InstanceKey(u)].raw == raw
      ensures e.gen.slot == n ==> SlotKey(n) in db && db[SlotKey(n)].raw == raw
    {
      var a := ExportedEntry(cfg, s, e);
      EntryFaithful(cfg, db, s, a);
      assert HasAssignment(db, a.gen.instance) && AssignmentAt(db, a.gen.instance) == a;
    }
  }

  lemma SaysIntentExactly(cfg: Config, db: Db, s: Snapshot, u: Uuid, raw: Raw)
    requires Consistent(cfg, db) && Lists(db, s)
    ensures (ReleaseKey(u) in db && db[ReleaseKey(u)].raw == raw) <==> Says(cfg, Export(cfg, s), ReleaseKey(u), raw)
  {
    if ReleaseKey(u) in db && db[ReleaseKey(u)].raw == raw {
      assert RecordOk(cfg, ReleaseKey(u), db[ReleaseKey(u)].raw);
      assert HasIntent(db, u) && IntentAt(db, u) in s.intents;
    }
  }

  lemma SaysClaimExactly(cfg: Config, db: Db, s: Snapshot, h: Uuid, u: Uuid, raw: Raw)
    requires Consistent(cfg, db) && Lists(db, s)
    ensures (HostKey(h, u) in db && db[HostKey(h, u)].raw == raw) <==> Says(cfg, Export(cfg, s), HostKey(h, u), raw)
  {
    if HostKey(h, u) in db && db[HostKey(h, u)].raw == raw {
      assert RecordOk(cfg, HostKey(h, u), db[HostKey(h, u)].raw);
      assert HasClaim(db, h, u) && ClaimAt(db, h, u) in s.claims;
      var a := AssignmentAt(db, u);
      assert RecordOk(cfg, InstanceKey(u), db[InstanceKey(u)].raw);
      ExportHasEntry(cfg, s, a);
      assert ClaimAt(db, h, u) in EntryFor(a, s.claims).claims;
    }
    if Says(cfg, Export(cfg, s), HostKey(h, u), raw) {
      var e :| e in Export(cfg, s).entries && e.gen.instance == u && raw.claim in e.claims && raw.claim.host == h;
      var a := ExportedEntry(cfg, s, e);
    }
  }

  /** The export says exactly what the registry's four families and configuration hold. */
  lemma ExportIsExact(cfg: Config, db: Db, s: Snapshot)
    requires WellFormed(cfg, db) && Lists(db, s)
    ensures Restored(cfg, Export(cfg, s), db)
  {
    var d := Export(cfg, s);
    forall k, raw | RegistryKey(k)
      ensures (k in db && db[k].raw == raw) <==> Says(cfg, d, k, raw)
    {
      match k
      case ConfigKey => assert RecordOk(cfg, ConfigKey, db[ConfigKey].raw);
      case InstanceKey(u) => SaysPair(cfg, db, s, u, 0, raw);
      case SlotKey(n) => SaysPair(cfg, db, s, 0, n, raw);
      case ReleaseKey(u) => SaysIntentExactly(cfg, db, s, u, raw);
      case HostKey(h, u) => SaysClaimExactly(cfg, db, s, h, u, raw);
    }
  }

  /** Restoring an export anywhere reproduces the exported registry record for record. */
  lemma ExportRestoresExactly(cfg: Config, db: Db, s: Snapshot, db': Db, k: Key)
    requires WellFormed(cfg, db) && Lists(db, s) && Restored(cfg, Export(cfg, s), db') && RegistryKey(k)
    ensures k in db <==> k in db'
    ensures k in db ==> db[k].raw == db'[k].raw
  {
    ExportIsExact(cfg, db, s);
    if k in db {
      assert Says(cfg, Export(cfg, s), k, db[k].raw);
    }
    if k in db' {
      assert Says(cfg, Export(cfg, s), k, db'[k].raw);
    }
  }
}
