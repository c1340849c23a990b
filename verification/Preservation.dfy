/** One committed mutation keeps the registry consistent, whatever snapshot it was built from. */
module Preservation {
  import opened Wrappers
  import opened Records
  import opened Store
  import opened Registry

  lemma PairHolds(db: Db, a: Assignment, t: Txn)
    requires a.gen.slot >= 0 && PairIs(a) <= t.compares && Commits(db, t)
    ensures HasAssignment(db, a.gen.instance) && AssignmentAt(db, a.gen.instance) == a
    ensures SlotKey(a.gen.slot) in db && db[SlotKey(a.gen.slot)].raw == AssignmentRecord(a)
  {
    assert Holds(db, ValueIs(InstanceKey(a.gen.instance), AssignmentRecord(a)));
    assert Holds(db, ValueIs(SlotKey(a.gen.slot), AssignmentRecord(a)));
  }

  lemma ClaimHolds(db: Db, c: Claim, t: Txn)
    requires ClaimIs(c) <= t.compares && Commits(db, t)
    ensures HasClaim(db, c.host, c.gen.instance) && ClaimAt(db, c.host, c.gen.instance) == c
  {
    assert Holds(db, ValueIs(HostKey(c.host, c.gen.instance), ClaimRecord(c)));
  }

  lemma AbsentHolds(db: Db, k: Key, t: Txn)
    requires Absent(k) in t.compares && Commits(db, t)
    ensures k !in db
  {
    assert Holds(db, Absent(k));
  }

  // ---- an update that stays inside one instance and its slot -------------------

  predicate Touches(k: Key, u: Uuid, slot: nat) {
    match k
    case InstanceKey(v) => v == u
    case SlotKey(n) => n == slot
    case ReleaseKey(v) => v == u
    case HostKey(_, v) => v == u
    case FenceKey(_, v) => v == u
    case _ => false
  }

  ghost predicate SameOutside(db: Db, db': Db, u: Uuid, slot: nat) {
    forall k | !Touches(k, u, slot) :: (k in db <==> k in db') && (k in db ==> db[k] == db'[k])
  }

  /** The relationships of one instance with its slot, intent and claims. */
  ghost predicate LocalOk(db: Db, u: Uuid, slot: nat) {
    && (SlotKey(slot) in db <==> HasAssignment(db, u))
    && (HasAssignment(db, u) ==>
          AssignmentAt(db, u).gen.slot == slot && db[SlotKey(slot)].raw == db[InstanceKey(u)].raw)
    && (HasIntent(db, u) ==> HasAssignment(db, u) && AssignmentAt(db, u).gen == IntentAt(db, u).gen)
    && (forall h :: HasClaim(db, h, u) <==> HasAssignment(db, u) && h in AssignmentAt(db, u).hosts)
    && (forall h | HasClaim(db, h, u) :: ClaimAt(db, h, u).gen == AssignmentAt(db, u).gen)
  }

  ghost predicate LocalRecords(cfg: Config, db: Db, u: Uuid, slot: nat) {
    forall k | k in db && Touches(k, u, slot) :: RecordOk(cfg, k, db[k].raw)
  }

  lemma LocalUpdateKeeps(cfg: Config, db: Db, db': Db, u: Uuid, slot: nat)
    requires Consistent(cfg, db) && SameOutside(db, db', u, slot)
    requires LocalRecords(cfg, db', u, slot) && LocalOk(db', u, slot)
    requires HasAssignment(db, u) ==> AssignmentAt(db, u).gen.slot == slot
    requires SlotKey(slot) in db ==> HasAssignment(db, u)
    ensures Consistent(cfg, db')
  {
    assert RecordsOk(cfg, db') by {
      assert !Touches(ConfigKey, u, slot);
      forall k | k in db' ensures RecordOk(cfg, k, db'[k].raw) {}
    }
    OtherSlots(cfg, db, db', u, slot);
    OtherIntents(cfg, db, db', u, slot);
    OtherClaims(cfg, db, db', u, slot);
  }

  lemma OtherSlots(cfg: Config, db: Db, db': Db, u: Uuid, slot: nat)
    requires RecordsOk(cfg, db) && SlotsMirror(db) && SameOutside(db, db', u, slot)
    requires LocalRecords(cfg, db', u, slot) && LocalOk(db', u, slot)
    requires HasAssignment(db, u) ==> AssignmentAt(db, u).gen.slot == slot
    requires SlotKey(slot) in db ==> HasAssignment(db, u)
    ensures SlotsMirror(db')
  {
    forall v | HasAssignment(db', v)
      ensures AssignmentAt(db', v).gen.slot >= 0
      ensures SlotKey(AssignmentAt(db', v).gen.slot) in db'
      ensures db'[SlotKey(AssignmentAt(db', v).gen.slot)].raw == db'[InstanceKey(v)].raw
    {
      if v != u {
        assert !Touches(InstanceKey(v), u, slot);
        var n := AssignmentAt(db, v).gen.slot;
        assert RecordOk(cfg, InstanceKey(v), db[InstanceKey(v)].raw);
        if n != slot {
          assert !Touches(SlotKey(n), u, slot);
        }
      }
    }
    forall n | SlotKey(n) in db'
      ensures db'[SlotKey(n)].raw.AssignmentRecord?
      ensures InstanceKey(db'[SlotKey(n)].raw.assignment.gen.instance) in db'
      ensures db'[InstanceKey(db'[SlotKey(n)].raw.assignment.gen.instance)].raw == db'[SlotKey(n)].raw
    {
      if n == slot {
        assert RecordOk(cfg, InstanceKey(u), db'[InstanceKey(u)].raw);
      } else {
        assert !Touches(SlotKey(n), u, slot);
        var v := db[SlotKey(n)].raw.assignment.gen.instance;
        assert RecordOk(cfg, SlotKey(n), db[SlotKey(n)].raw);
        if v != u {
          assert !Touches(InstanceKey(v), u, slot);
        }
      }
    }
  }

  lemma OtherIntents(cfg: Config, db: Db, db': Db, u: Uuid, slot: nat)
    requires IntentsMatch(db) && SameOutside(db, db', u, slot) && LocalOk(db', u, slot)
    ensures IntentsMatch(db')
  {
    forall v | HasIntent(db', v)
      ensures HasAssignment(db', v) && AssignmentAt(db', v).gen == IntentAt(db', v).gen
    {
      if v != u {
        assert !Touches(ReleaseKey(v), u, slot) && !Touches(InstanceKey(v), u, slot);
        assert HasIntent(db, v);
      }
    }
  }

  lemma OtherClaims(cfg: Config, db: Db, db': Db, u: Uuid, slot: nat)
    requires ClaimsMatch(db) && SameOutside(db, db', u, slot) && LocalOk(db', u, slot)
    ensures ClaimsMatch(db')
  {
    forall h, v | HasAssignment(db', v) && h in AssignmentAt(db', v).hosts
      ensures HasClaim(db', h, v) && ClaimAt(db', h, v).gen == AssignmentAt(db', v).gen
    {
      if v != u {
        assert !Touches(InstanceKey(v), u, slot) && !Touches(HostKey(h, v), u, slot);
        assert HasAssignment(db, v) && h in AssignmentAt(db, v).hosts;
      } else {
        assert HasClaim(db', h, u);
      }
    }
    forall h, v | HasClaim(db', h, v)
      ensures HasAssignment(db', v) && h in AssignmentAt(db', v).hosts
      ensures ClaimAt(db', h, v).gen == AssignmentAt(db', v).gen
    {
      if v != u {
        assert !Touches(InstanceKey(v), u, slot) && !Touches(HostKey(h, v), u, slot);
        assert HasClaim(db, h, v);
      }
    }
  }

  /** A consistent registry read locally. */
  lemma LocalView(cfg: Config, db: Db, u: Uuid)
    requires Consistent(cfg, db)
    ensures HasAssignment(db, u) ==>
      AssignmentAt(db, u).gen.slot >= 0 && LocalOk(db, u, AssignmentAt(db, u).gen.slot)
    ensures !HasAssignment(db, u) ==> InstanceKey(u) !in db && ReleaseKey(u) !in db
    ensures !HasAssignment(db, u) ==> forall h :: HostKey(h, u) !in db
  {
    assert InstanceKey(u) in db ==> RecordOk(cfg, InstanceKey(u), db[InstanceKey(u)].raw);
    assert ReleaseKey(u) in db ==> RecordOk(cfg, ReleaseKey(u), db[ReleaseKey(u)].raw) && HasIntent(db, u);
    forall h | HostKey(h, u) in db
      ensures HasClaim(db, h, u)
    {
      assert RecordOk(cfg, HostKey(h, u), db[HostKey(h, u)].raw);
    }
  }

  // ---- one lemma for each shape of mutation ---------------------------------------

  lemma AllocateKeeps(cfg: Config, db: Db, m: Mutation)
    requires Consistent(cfg, db) && m.Allocate? && Admissible(cfg, m) && Commits(db, Body(cfg, m))
    ensures Consistent(cfg, Apply(db, Body(cfg, m)))
  {
    var t := Body(cfg, m);
    AbsentHolds(db, InstanceKey(m.instance), t);
    AbsentHolds(db, SlotKey(m.slot), t);
    AbsentHolds(db, ReleaseKey(m.instance), t);
    LocalView(cfg, db, m.instance);
    LocalUpdateKeeps(cfg, db, Apply(db, t), m.instance, m.slot);
  }

  lemma AddedPairAndClaim(db: Db, a: Assignment, c: Claim, t: Txn)
    requires a.gen.slot >= 0 && t.puts == PairPut(a) + ClaimPut(c) && t.deletes == {}
    requires c.gen == a.gen
    ensures HasAssignment(Apply(db, t), a.gen.instance) && AssignmentAt(Apply(db, t), a.gen.instance) == a
    ensures SlotKey(a.gen.slot) in Apply(db, t)
    ensures Apply(db, t)[SlotKey(a.gen.slot)].raw == AssignmentRecord(a)
    ensures HasClaim(Apply(db, t), c.host, c.gen.instance)
    ensures ClaimAt(Apply(db, t), c.host, c.gen.instance) == c
    ensures forall k | k !in {InstanceKey(a.gen.instance), SlotKey(a.gen.slot), HostKey(c.host, c.gen.instance)} ::
              (k in Apply(db, t) <==> k in db) && (k in db ==> Apply(db, t)[k] == db[k])
  {}

  lemma AddedRecords(cfg: Config, db: Db, a: Assignment, c: Claim, t: Txn)
    requires Consistent(cfg, db) && GenerationOk(cfg, a.gen) && ClaimOk(cfg, c) && c.gen == a.gen
    requires t.puts == PairPut(a) + ClaimPut(c) && t.deletes == {}
    ensures LocalRecords(cfg, Apply(db, t), a.gen.instance, a.gen.slot)
    ensures SameOutside(db, Apply(db, t), a.gen.instance, a.gen.slot)
  {
  }

  lemma AddClaimKeeps(cfg: Config, db: Db, m: Mutation)
    requires Consistent(cfg, db) && m.AddClaim? && Admissible(cfg, m) && Commits(db, Body(cfg, m))
    ensures Consistent(cfg, Apply(db, Body(cfg, m)))
  {
    var t := Body(cfg, m);
    var u := m.current.gen.instance;
    PairHolds(db, m.current, t);
    AbsentHolds(db, ReleaseKey(u), t);
    AddedKeeps(cfg, db, m.current, m.current.(hosts := m.current.hosts + {m.host}),
               NewClaim(m.current.gen, m.host, m.token), t);
  }

  /** A new host in the pair together with its claim. */
  lemma AddedKeeps(cfg: Config, db: Db, a: Assignment, a': Assignment, c: Claim, t: Txn)
    requires Consistent(cfg, db) && GenerationOk(cfg, a.gen) && ClaimOk(cfg, c) && c.gen == a.gen
    requires HasAssignment(db, a.gen.instance) && AssignmentAt(db, a.gen.instance) == a
    requires a' == a.(hosts := a.hosts + {c.host}) && ReleaseKey(a.gen.instance) !in db
    requires t.puts == PairPut(a') + ClaimPut(c) && t.deletes == {}
    ensures Consistent(cfg, Apply(db, t))
  {
    var u := a.gen.instance;
    LocalView(cfg, db, u);
    var db' := Apply(db, t);
    AddedPairAndClaim(db, a', c, t);
    AddedRecords(cfg, db, a', c, t);
    forall h ensures HasClaim(db', h, u) <==> h in a'.hosts {
      assert HasClaim(db, h, u) <==> h in a.hosts;
    }
    LocalUpdateKeeps(cfg, db, db', u, a.gen.slot);
  }

  /** A write of one claim record over the claim it compared. */
  lemma ClaimWriteKeeps(cfg: Config, db: Db, a: Assignment, c: Claim, d: Claim, t: Txn)
    requires Consistent(cfg, db) && ViewOk(cfg, a, c) && ClaimOk(cfg, d)
    requires d.host == c.host && d.gen == c.gen
    requires PairIs(a) <= t.compares && ClaimIs(c) <= t.compares && Commits(db, t)
    requires t.puts == ClaimPut(d) && t.deletes == {}
    ensures Consistent(cfg, Apply(db, t))
  {
    PairHolds(db, a, t);
    ClaimHolds(db, c, t);
    LocalView(cfg, db, a.gen.instance);
    LocalUpdateKeeps(cfg, db, Apply(db, t), a.gen.instance, a.gen.slot);
  }

  /** What a removal of one claim together with its host leaves behind. */
  lemma DroppedView(db: Db, a: Assignment, c: Claim, extra: map<Key, Entry>, t: Txn)
    requires a.gen.slot >= 0 && c.gen == a.gen
    requires t.puts == PairPut(Without(a, c.host)) + extra
    requires t.deletes == {HostKey(c.host, a.gen.instance)}
    requires forall k | k in extra :: k == FenceKey(c.host, a.gen.instance)
    ensures var db', u := Apply(db, t), a.gen.instance;
      && InstanceKey(u) in db' && db'[InstanceKey(u)] == Plain(AssignmentRecord(Without(a, c.host)))
      && SlotKey(a.gen.slot) in db' && db'[SlotKey(a.gen.slot)] == Plain(AssignmentRecord(Without(a, c.host)))
      && HostKey(c.host, u) !in db'
      && (forall h | h != c.host ::
            (HostKey(h, u) in db' <==> HostKey(h, u) in db)
            && (HostKey(h, u) in db ==> db'[HostKey(h, u)] == db[HostKey(h, u)]))
      && (ReleaseKey(u) in db' <==> ReleaseKey(u) in db)
      && (ReleaseKey(u) in db ==> db'[ReleaseKey(u)] == db[ReleaseKey(u)])
      && SameOutside(db, db', u, a.gen.slot)
  {
  }

  lemma DroppedRecords(cfg: Config, db: Db, a: Assignment, c: Claim, extra: map<Key, Entry>, t: Txn)
    requires Consistent(cfg, db) && GenerationOk(cfg, a.gen) && c.gen == a.gen
    requires t.puts == PairPut(Without(a, c.host)) + extra
    requires forall k | k in extra :: RecordOk(cfg, k, extra[k].raw)
    ensures LocalRecords(cfg, Apply(db, t), a.gen.instance, a.gen.slot)
  {
  }

  /** A removal of one claim together with its host in the pair. */
  lemma ClaimDropKeeps(cfg: Config, db: Db, a: Assignment, c: Claim, extra: map<Key, Entry>, t: Txn)
    requires Consistent(cfg, db) && ViewOk(cfg, a, c)
    requires PairIs(a) <= t.compares && ClaimIs(c) <= t.compares && Commits(db, t)
    requires t.puts == PairPut(Without(a, c.host)) + extra
    requires t.deletes == {HostKey(c.host, a.gen.instance)}
    requires forall k | k in extra :: k == FenceKey(c.host, a.gen.instance) && RecordOk(cfg, k, extra[k].raw)
    ensures Consistent(cfg, Apply(db, t))
  {
    PairHolds(db, a, t);
    ClaimHolds(db, c, t);
    var u := a.gen.instance;
    LocalView(cfg, db, u);
    DroppedView(db, a, c, extra, t);
    DroppedRecords(cfg, db, a, c, extra, t);
    var db' := Apply(db, t);
    forall h
      ensures HasClaim(db', h, u) <==> h in a.hosts && h != c.host
    {
      assert HasClaim(db, h, u) <==> h in a.hosts;
    }
    LocalUpdateKeeps(cfg, db, db', u, a.gen.slot);
  }

  /** A release barrier over an exact pair. */
  lemma BarrierKeeps(cfg: Config, db: Db, a: Assignment, i: Intent, t: Txn)
    requires Consistent(cfg, db) && IntentOk(cfg, i) && i.gen == a.gen
    requires PairIs(a) <= t.compares && Commits(db, t)
    requires t.puts == map[ReleaseKey(a.gen.instance) := Plain(IntentRecord(i))] && t.deletes == {}
    ensures Consistent(cfg, Apply(db, t))
  {
    PairHolds(db, a, t);
    LocalView(cfg, db, a.gen.instance);
    LocalUpdateKeeps(cfg, db, Apply(db, t), a.gen.instance, a.gen.slot);
  }

  lemma ReleaseKeeps(cfg: Config, db: Db, m: Mutation)
    requires Consistent(cfg, db) && m.Release? && Admissible(cfg, m) && Commits(db, Body(cfg, m))
    ensures Consistent(cfg, Apply(db, Body(cfg, m)))
  {
    var t := Body(cfg, m);
    PairHolds(db, m.current, t);
    var u := m.current.gen.instance;
    LocalView(cfg, db, u);
    forall h ensures !HasClaim(Apply(db, t), h, u) {
      assert !HasClaim(db, h, u);
    }
    LocalUpdateKeeps(cfg, db, Apply(db, t), u, m.current.gen.slot);
  }

  lemma RestoreFrontView(a: Assignment, claims: map<Uuid, Claim>)
    requires a.gen.slot >= 0
    ensures InstanceKey(a.gen.instance) in RestoreFront(a, claims)
    ensures SlotKey(a.gen.slot) in RestoreFront(a, claims)
    ensures RestoreFront(a, claims)[InstanceKey(a.gen.instance)] == Plain(AssignmentRecord(a))
    ensures RestoreFront(a, claims)[SlotKey(a.gen.slot)] == Plain(AssignmentRecord(a))
    ensures forall h :: HostKey(h, a.gen.instance) in RestoreFront(a, claims) <==> h in claims
    ensures forall h | h in claims ::
              RestoreFront(a, claims)[HostKey(h, a.gen.instance)] == Plain(ClaimRecord(claims[h]))
    ensures forall k | k in RestoreFront(a, claims) ::
              k in {InstanceKey(a.gen.instance), SlotKey(a.gen.slot)} || (k.HostKey? && k.instance == a.gen.instance)
    ensures forall k | k in RestoreFront(a, claims) :: RestoreFront(a, claims)[k].lease == 0
  {
    ClaimPutsView(a.gen.instance, claims);
  }

  lemma RestoredView(a: Assignment, claims: map<Uuid, Claim>, i: Option<Intent>, t: Txn)
    requires a.gen.slot >= 0 && t.deletes == {}
    requires t.puts == RestorePuts(a, claims, i)
    ensures InstanceKey(a.gen.instance) in t.puts && SlotKey(a.gen.slot) in t.puts
    ensures t.puts[InstanceKey(a.gen.instance)] == Plain(AssignmentRecord(a))
    ensures t.puts[SlotKey(a.gen.slot)] == Plain(AssignmentRecord(a))
    ensures ReleaseKey(a.gen.instance) in t.puts <==> i.Some?
    ensures i.Some? ==> t.puts[ReleaseKey(a.gen.instance)] == Plain(IntentRecord(i.value))
    ensures forall h :: HostKey(h, a.gen.instance) in t.puts <==> h in claims
    ensures forall h | h in claims :: t.puts[HostKey(h, a.gen.instance)] == Plain(ClaimRecord(claims[h]))
    ensures forall k | k in t.puts ::
              Touches(k, a.gen.instance, a.gen.slot) && !k.FenceKey? && t.puts[k].lease == 0
  {
    RestoreFrontView(a, claims);
    forall h ensures HostKey(h, a.gen.instance) in t.puts <==> h in claims {
      assert HostKey(h, a.gen.instance) in RestoreFront(a, claims) <==> h in claims;
    }
    forall h | h in claims ensures t.puts[HostKey(h, a.gen.instance)] == Plain(ClaimRecord(claims[h])) {
      assert HostKey(h, a.gen.instance) in RestoreFront(a, claims);
    }
  }

  lemma ClaimPutsView(u: Uuid, claims: map<Uuid, Claim>)
    ensures forall h :: HostKey(h, u) in ClaimPuts(u, claims) <==> h in claims
    ensures forall h | h in claims :: ClaimPuts(u, claims)[HostKey(h, u)] == Plain(ClaimRecord(claims[h]))
    ensures forall k | k in ClaimPuts(u, claims) ::
              k.HostKey? && k.instance == u && ClaimPuts(u, claims)[k].lease == 0
  {
    var hosts := set h | h in claims :: HostKey(h, u);
    assert ClaimPuts(u, claims).Keys == hosts;
    forall h ensures HostKey(h, u) in ClaimPuts(u, claims) <==> h in claims {
      assert h in claims <==> HostKey(h, u) in hosts;
    }
  }

  /** What a restored allocation adds, and that nothing of it was there. */
  lemma RestoreFacts(cfg: Config, db: Db, m: Mutation)
    requires Consistent(cfg, db) && m.RestoreAll? && Admissible(cfg, m) && Commits(db, Body(cfg, m))
    ensures var t, u := Body(cfg, m), m.current.gen.instance;
      && InstanceKey(u) !in db && SlotKey(m.current.gen.slot) !in db && ReleaseKey(u) !in db
      && (forall h :: HostKey(h, u) !in db)
      && SameOutside(db, Apply(db, t), u, m.current.gen.slot)
  {
    var t := Body(cfg, m);
    var u := m.current.gen.instance;
    AbsentHolds(db, InstanceKey(u), t);
    AbsentHolds(db, SlotKey(m.current.gen.slot), t);
    AbsentHolds(db, ReleaseKey(u), t);
    NoStrayClaims(cfg, db, u);
    RestoredView(m.current, m.claims, m.barrier, t);
  }

  lemma NoStrayClaims(cfg: Config, db: Db, u: Uuid)
    requires Consistent(cfg, db) && InstanceKey(u) !in db
    ensures forall h :: HostKey(h, u) !in db
  {
    forall h ensures HostKey(h, u) !in db {
      ClaimNeedsInstance(cfg, db, h, u);
    }
  }

  lemma ClaimNeedsInstance(cfg: Config, db: Db, h: Uuid, u: Uuid)
    requires Consistent(cfg, db)
    ensures HostKey(h, u) in db ==> HasClaim(db, h, u) && HasAssignment(db, u)
  {
    if HostKey(h, u) in db {
      assert RecordOk(cfg, HostKey(h, u), db[HostKey(h, u)].raw);
      assert HasClaim(db, h, u);
    }
  }

  lemma RestoredRecords(cfg: Config, db: Db, m: Mutation)
    requires Consistent(cfg, db) && m.RestoreAll? && Admissible(cfg, m) && Commits(db, Body(cfg, m))
    ensures LocalRecords(cfg, Apply(db, Body(cfg, m)), m.current.gen.instance, m.current.gen.slot)
  {
    var t := Body(cfg, m);
    var db' := Apply(db, t);
    RestoredView(m.current, m.claims, m.barrier, t);
    forall k | k in db' && Touches(k, m.current.gen.instance, m.current.gen.slot)
      ensures RecordOk(cfg, k, db'[k].raw)
    {
      if k in t.puts {
        RestoredRecordOk(cfg, m, k);
      }
    }
  }

  lemma RestoredLocal(cfg: Config, db: Db, m: Mutation)
    requires Consistent(cfg, db) && m.RestoreAll? && Admissible(cfg, m) && Commits(db, Body(cfg, m))
    ensures LocalOk(Apply(db, Body(cfg, m)), m.current.gen.instance, m.current.gen.slot)
  {
    var t := Body(cfg, m);
    var u := m.current.gen.instance;
    var db' := Apply(db, t);
    RestoreFacts(cfg, db, m);
    RestoredView(m.current, m.claims, m.barrier, t);
    forall k ensures k in db' <==> k in db || k in t.puts {}
    forall h ensures HasClaim(db', h, u) <==> h in m.claims {
      assert HostKey(h, u) in t.puts <==> h in m.claims;
    }
  }

  lemma RestoreKeeps(cfg: Config, db: Db, m: Mutation)
    requires Consistent(cfg, db) && m.RestoreAll? && Admissible(cfg, m) && Commits(db, Body(cfg, m))
    ensures Consistent(cfg, Apply(db, Body(cfg, m)))
  {
    RestoreFacts(cfg, db, m);
    RestoredRecords(cfg, db, m);
    RestoredLocal(cfg, db, m);
    LocalUpdateKeeps(cfg, db, Apply(db, Body(cfg, m)), m.current.gen.instance, m.current.gen.slot);
  }

  lemma RestoredRecordOk(cfg: Config, m: Mutation, k: Key)
    requires m.RestoreAll? && Admissible(cfg, m) && k in Body(cfg, m).puts
    ensures RecordOk(cfg, k, Body(cfg, m).puts[k].raw)
  {
    ClaimPutsView(m.current.gen.instance, m.claims);
    RestoreFrontView(m.current, m.claims);
    if k != ReleaseKey(m.current.gen.instance) {
      assert k in RestoreFront(m.current, m.claims);
    }
  }

  lemma TransitionKeeps(cfg: Config, db: Db, m: Mutation)
    requires m.ReplaceClaim? || m.MarkPossible? || m.MarkCommitted? || m.RecordProof?
    requires Consistent(cfg, db) && Admissible(cfg, m) && Commits(db, Body(cfg, m))
    ensures Consistent(cfg, Apply(db, Body(cfg, m)))
  {
    var a, c := m.current, m.claim;
    var d :=
      match m
      case ReplaceClaim(_, _, token) => NewClaim(a.gen, c.host, token)
      case MarkPossible(_, _) => c.(state := Possible)
      case MarkCommitted(_, _) => c.(state := Committed)
      case RecordProof(_, _, p) => c.(state := Cleaned, proof := Some(p));
    ClaimWriteKeeps(cfg, db, a, c, d, Body(cfg, m));
  }

  lemma RemovalKeeps(cfg: Config, db: Db, m: Mutation)
    requires m.FenceRetire? || m.Abandon? || m.Retire?
    requires Consistent(cfg, db) && Admissible(cfg, m) && Commits(db, Body(cfg, m))
    ensures Consistent(cfg, Apply(db, Body(cfg, m)))
  {
    var extra: map<Key, Entry> :=
      if m.FenceRetire? then map[FenceKey(m.claim.host, m.current.gen.instance) := Plain(FenceRecord(m.fence))]
      else map[];
    ClaimDropKeeps(cfg, db, m.current, m.claim, extra, Body(cfg, m));
  }

  /** Any committed mutation, stale or replayed, keeps the registry consistent. */
  lemma MutationKeepsConsistent(cfg: Config, db: Db, m: Mutation, g: Guard)
    requires Consistent(cfg, db) && Admissible(cfg, m) && Commits(db, Compile(cfg, m, g))
    ensures Consistent(cfg, Apply(db, Compile(cfg, m, g)))
  {
    CompileCommits(cfg, db, m, g);
    var t := Body(cfg, m);
    match m
    case Allocate(_, _, _) => AllocateKeeps(cfg, db, m);
    case AddClaim(_, _, _) => AddClaimKeeps(cfg, db, m);
    case ReplaceClaim(_, _, _) => TransitionKeeps(cfg, db, m);
    case MarkPossible(_, _) => TransitionKeeps(cfg, db, m);
    case MarkCommitted(_, _) => TransitionKeeps(cfg, db, m);
    case RecordProof(_, _, _) => TransitionKeeps(cfg, db, m);
    case FenceRetire(_, _, _) => RemovalKeeps(cfg, db, m);
    case Abandon(_, _) => RemovalKeeps(cfg, db, m);
    case Retire(_, _) => RemovalKeeps(cfg, db, m);
    case RequestRelease(a, name) => BarrierKeeps(cfg, db, a, Intent(a.gen, name), t);
    case Release(_, _) => ReleaseKeeps(cfg, db, m);
    case RestoreAll(_, _, _) => RestoreKeeps(cfg, db, m);
    case RestoreIntent(a, _, i) => BarrierKeeps(cfg, db, a, i, t);
  }
}
