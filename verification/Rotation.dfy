/**
 * Cold attachment rotation (nova/virt/incus/manager.py): a volume's Cinder
 * attachment is replaced under a durable phase record, or rolled back, and the
 * process may stop between any two effects.
 *
 * Every request may fail, and a failed request may have taken effect or not. A
 * delete that was reported failed may also stay outstanding and take effect at
 * any later moment. Other parties may change the status of an attachment or add
 * attachments of their own; they do not delete this rotation's two.
 */
module Rotation {
  import opened Wrappers

  type Id = nat

  datatype Status = Reserved | Attaching | Attached | OtherStatus

  datatype Phase =
    | Prepared | Creating | NewCreated | SourceOldRetained | OldDeleted | BdmRotated
    | ReleaseComplete | RollbackComplete

  datatype Record = Record(
    former: Id, replacement: Option<Id>, baseline: set<Id>, phase: Phase, bootVolume: bool, owner: nat)

  /** The phase changes that `transition_cold_attachment_rotation` lets through. */
  predicate LegalTransition(before: Phase, after: Phase) {
    match after
    case Creating => before.Prepared?
    case NewCreated => before.Creating?
    case SourceOldRetained => before.NewCreated?
    case OldDeleted => before.NewCreated?
    case BdmRotated => before.OldDeleted?
    case ReleaseComplete => before.BdmRotated?
    case RollbackComplete => before.Prepared? || before.SourceOldRetained? || before.OldDeleted? || before.BdmRotated?
    case Prepared => false
  }

  predicate Terminal(p: Phase) {
    p.ReleaseComplete? || p.RollbackComplete?
  }

  predicate Usable(s: Status) {
    s.Reserved? || s.Attaching? || s.Attached?
  }

  /** What a record says about itself, whatever became of the attachments. */
  predicate Shaped(r: Record) {
    && r.former in r.baseline
    && (r.replacement.Some? ==> r.replacement.value != r.former)
    && (r.replacement.None? ==> r.phase.Prepared? || r.phase.Creating? || r.phase.RollbackComplete?)
    && (r.phase.Prepared? || r.phase.Creating? ==> r.replacement.None?)
  }

  /**
   * Which attachment the instance still has, and where Nova points, phase by
   * phase. An attachment is `sure` when it is present and no delete of it is
   * outstanding.
   */
  predicate InOrder(r: Record, present: set<Id>, sure: set<Id>, bdm: Id)
    requires Shaped(r)
  {
    match r.phase
    case Prepared => r.former in sure && bdm == r.former
    case Creating => r.former in sure && bdm == r.former
    case NewCreated => bdm == r.former && (r.former in sure || r.replacement.value in sure)
    case SourceOldRetained => bdm == r.former && r.former in sure && r.replacement.value !in present
    case OldDeleted => r.former !in present && r.replacement.value in sure && bdm in {r.former, r.replacement.value}
    case BdmRotated => r.former !in present && r.replacement.value in sure && bdm == r.replacement.value
    case ReleaseComplete => r.former !in present && r.replacement.value in sure && bdm == r.replacement.value
    case RollbackComplete => OneOwner(r, present, sure, bdm)
  }

  /** Exactly one of the two attachments is left, for sure, and Nova names it. */
  predicate OneOwner(r: Record, present: set<Id>, sure: set<Id>, bdm: Id) {
    || (bdm == r.former && r.former in sure && (r.replacement.Some? ==> r.replacement.value !in present))
    || (r.replacement.Some? && bdm == r.replacement.value && r.replacement.value in sure && r.former !in present)
  }

  /** The old attachment or the replacement that is known by name is there for sure. */
  predicate StillAttached(r: Record, sure: set<Id>) {
    r.former in sure || (r.replacement.Some? && r.replacement.value in sure)
  }

  /** In every phase one of the two is there; the old one is only given up once the other is on record. */
  lemma RotationNeverLosesBoth(r: Record, present: set<Id>, sure: set<Id>, bdm: Id)
    requires Shaped(r) && InOrder(r, present, sure, bdm)
    ensures StillAttached(r, sure)
    ensures r.former !in sure ==> r.replacement.Some? && r.replacement.value in sure
  {
  }

  function Two(r: Record): set<Id> {
    {r.former} + (if r.replacement.Some? then {r.replacement.value} else {})
  }

  // ---- deletes that arrive late -------------------------------------------------------------

  datatype Outcome = Done | Never | Later

  /** A delete request of one of the two attachments, or the late arrival of an earlier one. */
  datatype Event = Request(id: Id, outcome: Outcome) | Arrival(id: Id)

  datatype Deletes = Deletes(present: set<Id>, late: set<Id>)

  /** A request is only sent after the other attachment was seen; what arrives late is outstanding. */
  predicate MayHappen(two: set<Id>, d: Deletes, e: Event) {
    match e
    case Request(id, _) => id in two && two - {id} <= d.present
    case Arrival(id) => id in d.late
  }

  function After(d: Deletes, e: Event): Deletes {
    match e
    case Request(id, Done) => Deletes(d.present - {id}, d.late)
    case Request(id, Later) => Deletes(d.present, d.late + {id})
    case Request(_, Never) => d
    case Arrival(id) => Deletes(d.present - {id}, d.late)
  }

  function Play(d: Deletes, events: seq<Event>): Deletes {
    if events == [] then d else After(Play(d, events[..|events| - 1]), events[|events| - 1])
  }

  predicate Possible(two: set<Id>, d: Deletes, events: seq<Event>) {
    events == []
    || (var n := |events| - 1;
        Possible(two, d, events[..n]) && MayHappen(two, Play(d, events[..n]), events[n]))
  }

  /** The request reaches Cinder while a delete of the other attachment is outstanding. */
  predicate Crosses(two: set<Id>, d: Deletes, e: Event) {
    e.Request? && !e.outcome.Never? && two - {e.id} <= d.late
  }

  predicate EverCrosses(two: set<Id>, d: Deletes, events: seq<Event>) {
    events != []
    && (var n := |events| - 1;
        EverCrosses(two, d, events[..n]) || Crosses(two, Play(d, events[..n]), events[n]))
  }

  /**
   * Both attachments are lost, at once or when everything outstanding has
   * arrived, if and only if some request crossed an outstanding one.
   */
  lemma {:induction false} LostExactlyByCrossing(former: Id, replacement: Id, d: Deletes, events: seq<Event>)
    requires former != replacement && {former, replacement} <= d.present && d.late == {}
    requires Possible({former, replacement}, d, events)
    ensures var end := Play(d, events);
      {former, replacement} !! (end.present - end.late) <==> EverCrosses({former, replacement}, d, events)
  {
    var two := {former, replacement};
    if events != [] {
      var n := |events| - 1;
      LostExactlyByCrossing(former, replacement, d, events[..n]);
      OthersOf(former, replacement);
    }
  }

  lemma OthersOf(a: Id, b: Id)
    requires a != b
    ensures {a, b} - {a} == {b} && {a, b} - {b} == {a}
  {
  }

  /** The rotation's delete is reported failed, the rollback deletes the replacement, and the first one arrives. */
  lemma LateDeleteLosesBoth(former: Id, replacement: Id, d: Deletes) returns (events: seq<Event>)
    requires former != replacement && {former, replacement} <= d.present && d.late == {}
    ensures Possible({former, replacement}, d, events)
    ensures former !in Play(d, events).present && replacement !in Play(d, events).present
  {
    OthersOf(former, replacement);
    var one := [Request(former, Later)];
    var two := one + [Request(replacement, Done)];
    events := two + [Arrival(former)];
    assert one[..0] == [] && two[..1] == one && events[..2] == two;
    assert Play(d, []) == d && Possible({former, replacement}, d, []);
    assert Play(d, one) == After(d, one[0]) && Possible({former, replacement}, d, one);
    assert Play(d, two) == After(Play(d, one), two[1]) && Possible({former, replacement}, d, two);
  }

  /** A finished rotation, as it was when its record was removed. */
  datatype Ending = Ending(record: Record, creates: nat, present: set<Id>, sure: set<Id>, bdm: Id)

  predicate EndedWell(e: Ending) {
    Terminal(e.record.phase) && e.creates <= 1 && OneOwner(e.record, e.present, e.sure, e.bdm)
  }

  /** Cinder can always name a new attachment. */
  lemma UnusedId(taken: set<Id>) returns (id: Id)
    ensures id !in taken
  {
    id := Above(taken);
    assert id in taken ==> id < id;
  }

  lemma {:induction false} Above(taken: set<Id>) returns (bound: nat)
    ensures forall id | id in taken :: id < bound
  {
    if taken == {} {
      bound := 0;
    } else {
      var id: Id :| id in taken;
      var rest := Above(taken - {id});
      bound := if rest > id then rest else id + 1;
      forall x | x in taken ensures x < bound {
        assert x == id || x in taken - {id};
      }
    }
  }

  class Volume {
    var attachments: map<Id, Status>
    /** Attachments whose delete was reported failed and may still take effect. */
    var late: set<Id>
    var bdm: Id
    var record: Option<Record>
    /** Create requests issued under the present record. */
    ghost var creates: nat
    /** Failed requests, refusals, late effects and foreign changes. */
    ghost var faults: nat
    /** Under the present record, a delete reached Cinder while a delete of the other one was outstanding. */
    ghost var crossed: bool
    /** An earlier record was crossed. */
    ghost var ruined: bool
    ghost var ended: seq<Ending>

    function Sure(): set<Id>
      reads this
    {
      attachments.Keys - late
    }

    /** No two deletes of one rotation's attachments ever overlapped. */
    ghost predicate Lucky()
      reads this
    {
      !crossed && !ruined
    }

    /** Once the outstanding deletes have taken effect, neither attachment is left. */
    predicate Doomed(r: Record)
      reads this
    {
      Two(r) !! Sure()
    }

    ghost predicate Safe()
      reads this
    {
      && creates <= 1 && (crossed ==> record.Some? && record.value.replacement.Some?)
      && (record.Some? ==> Shaped(record.value) && (record.value.phase.Prepared? ==> creates == 0))
      && (record.Some? && Lucky() ==> InOrder(record.value, attachments.Keys, Sure(), bdm))
      && (record.Some? && crossed && !ruined ==> Doomed(record.value))
      && (record.None? && !ruined ==> bdm !in late)
      && (!ruined ==> forall i | 0 <= i < |ended| :: EndedWell(ended[i]))
    }

    /** Both attachments are lost, now or when the outstanding deletes arrive, exactly when deletes overlapped. */
    lemma LostExactlyWhenCrossed()
      requires Safe() && record.Some? && !ruined
      ensures Doomed(record.value) <==> crossed
      ensures !crossed ==> StillAttached(record.value, Sure())
    {
      if !crossed {
        RotationNeverLosesBoth(record.value, attachments.Keys, Sure(), bdm);
      }
    }

    constructor (attachments: map<Id, Status>, bdm: Id)
      ensures record == None && this.attachments == attachments && this.bdm == bdm
      ensures Safe() && Lucky() && ended == [] && late == {}
    {
      this.attachments, this.bdm, late := attachments, bdm, {};
      record, creates, faults, crossed, ruined, ended := None, 0, 0, false, false, [];
    }

    // ---- the services, one request at a time ----------------------------------------------

    /** Of the record's two attachments none appears, and none goes except by an outstanding delete. */
    ghost predicate Steady(before: map<Id, Status>)
      reads this
    {
      record.Some? ==> forall id | id in Two(record.value) ::
        (id in attachments ==> id in before) && (id in before && id !in late ==> id in attachments)
    }

    /** Somebody else changes a status or adds an attachment, or an outstanding delete takes effect. */
    method Drift()
      requires Safe()
      modifies this`attachments, this`faults
      ensures Safe() && Steady(old(attachments))
      ensures faults >= old(faults) && (faults == old(faults) ==> attachments == old(attachments))
    {
      var drifts: bool := *;
      if drifts {
        faults := faults + 1;
        var id: Id := *;
        var status: Status := *;
        if id in attachments || (id !in late && (record.None? || id !in Two(record.value))) {
          attachments := attachments[id := status];
        }
      }
      var arrives: bool := *;
      if arrives {
        faults := faults + 1;
        var some: set<Id> := *;
        attachments := attachments - (some * late);
      }
    }

    /** `_get_exact_cinder_attachment`. */
    method Show(id: Id) returns (r: Result<Option<Status>>)
      requires Safe()
      modifies this`attachments, this`faults
      ensures Safe() && Steady(old(attachments))
      ensures r.Ok? ==> r.value == (if id in attachments then Some(attachments[id]) else None)
      ensures faults >= old(faults) && (faults == old(faults) ==> r.Ok? && attachments == old(attachments))
    {
      Drift();
      var fails: bool := *;
      if fails {
        faults := faults + 1;
        return Err(Backend);
      }
      r := Ok(if id in attachments then Some(attachments[id]) else None);
    }

    /** `attachment_create`: not repeatable, since the request carries no key of its own. */
    method CreateAttachment() returns (r: Result<Option<Id>>)
      requires Safe() && record.Some? && record.value.phase.Creating? && creates == 0
      modifies this`attachments, this`faults, this`creates
      ensures Safe() && creates == 1 && faults >= old(faults)
      ensures r.Ok? && r.value.Some? && faults == old(faults) ==> r.value.value !in late
      ensures faults == old(faults) ==>
        && r.Ok? && r.value.Some? && r.value.value !in record.value.baseline
        && r.value.value !in old(attachments) && attachments == old(attachments)[r.value.value := Reserved]
    {
      Drift();
      creates := creates + 1;
      var fails: bool := *;
      var executed: bool := *;
      ghost var unused := UnusedId(attachments.Keys + record.value.baseline + late);
      var id: Id :| id !in attachments.Keys + record.value.baseline + late;
      if !fails || executed {
        attachments := attachments[id := Reserved];
      }
      if fails {
        faults := faults + 1;
        var answered: bool := *;
        var garbled: Option<Id> := *;
        return if answered then Ok(garbled) else Err(Backend);
      }
      r := Ok(Some(id));
    }

    /**
     * `attachment_delete` of one of the two, after the other was seen. A request
     * reported failed may still be outstanding. The rotation is crossed exactly
     * when the request reaches Cinder while a delete of the other is outstanding.
     */
    method DeleteAttachment(id: Id) returns (ok: bool, ghost reaches: bool)
      requires Safe() && record.Some? && id in Two(record.value)
      requires record.value.phase.NewCreated? || (record.value.phase.BdmRotated? && id == record.value.former)
      requires Two(record.value) - {id} <= attachments.Keys + late
      modifies this`attachments, this`late, this`faults, this`crossed
      ensures Safe() && faults >= old(faults)
      ensures crossed <==> old(crossed) || (reaches && Two(record.value) - {id} <= old(late))
      ensures if reaches then id !in attachments || id in late else late == old(late)
      ensures ok ==> id !in attachments
      ensures faults == old(faults) ==> ok && attachments == old(attachments) - {id} && late == old(late)
    {
      Drift();
      var fails: bool := *;
      var executed: bool := *;
      var outstanding: bool := *;
      reaches := !fails || executed || outstanding;
      if reaches && Two(record.value) - {id} <= late {
        crossed := true;
      }
      if !fails || executed {
        attachments := attachments - {id};
      } else if outstanding {
        late := late + {id};
      }
      if fails {
        faults := faults + 1;
      }
      ok := !fails;
    }

    /** `current.save()` of the BDM with the replacement. */
    method SaveBdm(id: Id) returns (ok: bool)
      requires Safe() && record.Some? && record.value.phase.OldDeleted? && record.value.replacement == Some(id)
      modifies this`bdm, this`faults
      ensures Safe() && faults >= old(faults)
      ensures bdm == old(bdm) || bdm == id
      ensures ok ==> bdm == id
      ensures faults == old(faults) ==> ok
    {
      var fails: bool := *;
      var executed: bool := *;
      if !fails || executed {
        bdm := id;
      }
      if fails {
        faults := faults + 1;
      }
      ok := !fails;
    }

    /** `transition_cold_attachment_rotation`: one durable replacement of exactly the expected record. */
    method Transition(expected: Record, phase: Phase, replacement: Option<Id>) returns (r: Result<Record>)
      requires Safe()
      requires record == Some(expected) && LegalTransition(expected.phase, phase) ==>
        var next := Moved(expected, phase, replacement);
        Shaped(next) && (Lucky() ==> InOrder(next, attachments.Keys, Sure(), bdm))
      requires phase.NewCreated? ==> !crossed
      modifies this`record, this`faults
      ensures Safe() && faults >= old(faults)
      ensures
        || record == old(record)
        || (old(record) == Some(expected) && record == Some(Moved(expected, phase, replacement)))
      ensures r.Ok? ==> record == Some(r.value) && r.value == Moved(expected, phase, replacement)
                        && old(record) == Some(expected) && LegalTransition(expected.phase, phase)
      ensures if old(record) == Some(expected) && LegalTransition(expected.phase, phase)
              then faults == old(faults) ==> r.Ok?
              else r.Err? && record == old(record)
    {
      if !LegalTransition(expected.phase, phase) || record != Some(expected) {
        return Err(Conflict);
      }
      var fails: bool := *;
      var executed: bool := *;
      if !fails || executed {
        record := Some(Moved(expected, phase, replacement));
      }
      if fails {
        faults := faults + 1;
        return Err(Backend);
      }
      r := Ok(Moved(expected, phase, replacement));
    }

    function Moved(r: Record, phase: Phase, replacement: Option<Id>): Record {
      r.(phase := phase, replacement := if phase.NewCreated? then replacement else r.replacement)
    }

    /** `cancel_cold_attachment_rotation` of a finished record. */
    method CancelRecord(expected: Record) returns (ok: bool)
      requires Safe() && record == Some(expected) && Terminal(expected.phase)
      requires Lucky() ==> OneOwner(expected, attachments.Keys, Sure(), bdm)
      modifies this`record, this`faults, this`crossed, this`ruined, this`ended
      ensures Safe() && faults >= old(faults)
      ensures record == old(record) || record == None
      ensures record == old(record) ==> crossed == old(crossed) && ruined == old(ruined) && ended == old(ended)
      ensures record == None ==>
        && (Lucky() <==> old(Lucky()))
        && ended == old(ended) + [Ending(expected, old(creates), attachments.Keys, Sure(), bdm)]
      ensures ok ==> record == None
      ensures faults == old(faults) ==> ok
    {
      var fails: bool := *;
      var executed: bool := *;
      if !fails || executed {
        ended := ended + [Ending(expected, creates, attachments.Keys, Sure(), bdm)];
        record, ruined, crossed := None, ruined || crossed, false;
      }
      if fails {
        faults := faults + 1;
      }
      ok := !fails;
    }

    /** `attachment_update` (reserved to attaching) and `attachment_complete` (attaching to attached). */
    method Promote(id: Id, before: Status, after: Status) returns (ok: bool)
      requires Safe()
      modifies this`attachments, this`faults
      ensures Safe() && Steady(old(attachments))
      ensures faults >= old(faults)
      ensures faults == old(faults) && id in old(attachments) && old(attachments)[id] == before ==>
        ok && attachments == old(attachments)[id := after]
    {
      Drift();
      var fails: bool := *;
      var executed: bool := *;
      if id !in attachments || attachments[id] != before {
        return false;
      }
      if !fails || executed {
        attachments := attachments[id := after];
      }
      if fails {
        faults := faults + 1;
      }
      ok := !fails;
    }

    /** Some other service call of the recovery that touches none of this state. */
    method OtherCall() returns (ok: bool)
      requires Safe()
      modifies this`attachments, this`faults
      ensures Safe() && Steady(old(attachments))
      ensures faults >= old(faults) && (faults == old(faults) ==> ok && attachments == old(attachments))
    {
      Drift();
      ok := *;
      if !ok {
        faults := faults + 1;
      }
    }

    // ---- the rotation -----------------------------------------------------------------------

    predicate BdmAttached()
      reads this
    {
      bdm in attachments && attachments[bdm].Attached?
    }

    /** `_prepare_cold_attachment_rotation_locked`: put the rotation on record before any Cinder effect. */
    method Prepare(owner: nat, bootVolume: bool) returns (r: Result<Record>)
      requires Safe()
      modifies this`attachments, this`record, this`creates, this`faults
      ensures Safe() && faults >= old(faults)
      ensures old(record).Some? ==> record == old(record) && creates == old(creates)
      ensures r.Ok? ==> record == Some(r.value) && r.value.former == bdm && r.value.owner == owner
                        && r.value.bootVolume == bootVolume
      ensures r.Ok? && old(record).None? ==>
        r.value == Record(bdm, None, {bdm}, Prepared, bootVolume, owner) && creates == 0
      ensures old(record).Some? ==>
        (r.Ok? <==> old(record).value.former == bdm && old(record).value.owner == owner
                    && old(record).value.bootVolume == bootVolume)
      ensures faults == old(faults) && old(record).None? ==> (r.Ok? <==> old(BdmAttached()))
      ensures faults == old(faults) && r.Err? ==> record == old(record) && attachments == old(attachments)
    {
      if record.Some? {
        r := if record.value.former == bdm && record.value.owner == owner && record.value.bootVolume == bootVolume
             then Ok(record.value) else Err(Integrity);
        return;
      }
      var shown := Show(bdm);
      if shown.Err? {
        return Err(shown.error);
      }
      if shown.value != Some(Attached) {
        return Err(Integrity);
      }
      var fails: bool := *;
      var executed: bool := *;
      var prepared := Record(bdm, None, {bdm}, Prepared, bootVolume, owner);
      if !fails || executed {
        record, creates := Some(prepared), 0;
      }
      if fails {
        faults := faults + 1;
        return Err(Backend);
      }
      r := Ok(prepared);
    }

    /** The replacement is there and may still become the instance's attachment. */
    predicate ReplacementUsable(rotation: Record)
      reads this
    {
      && rotation.replacement.Some? && rotation.replacement.value in attachments
      && Usable(attachments[rotation.replacement.value])
    }

    /** `_validate_cold_rotation_new_attachment`. */
    method ValidateReplacement(rotation: Record) returns (r: Result<Status>)
      requires Safe() && record == Some(rotation)
      modifies this`attachments, this`faults
      ensures Safe() && Steady(old(attachments))
      ensures r.Ok? ==> ReplacementUsable(rotation) && attachments[rotation.replacement.value] == r.value
      ensures faults >= old(faults)
      ensures faults == old(faults) ==>
        attachments == old(attachments) && (r.Ok? <==> ReplacementUsable(rotation))
    {
      if rotation.replacement.None? {
        return Err(Integrity);
      }
      var shown := Show(rotation.replacement.value);
      if shown.Err? {
        return Err(shown.error);
      }
      if shown.value.None? || !Usable(shown.value.value) {
        return Err(Integrity);
      }
      r := Ok(shown.value.value);
    }

    /** `_create_cold_rotation_attachment_locked`: the one create request, fenced by the durable `creating` phase. */
    method CreateReplacement(rotation: Record) returns (r: Result<Record>)
      requires Safe() && record == Some(rotation) && rotation.phase.Prepared?
      modifies this`attachments, this`record, this`creates, this`faults
      ensures Safe() && faults >= old(faults) && record.Some?
      ensures r.Ok? ==> record == Some(r.value) && r.value.phase.NewCreated?
      ensures record.value.former == rotation.former && record.value.bootVolume == rotation.bootVolume
      ensures Lucky() ==> rotation.former in Sure()
      ensures r.Err? ==> record.value.phase.Prepared? || record.value.phase.Creating? || record.value.phase.NewCreated?
      ensures faults == old(faults) ==>
        && r.Ok? && r.value.replacement.Some? && r.value.replacement.value !in old(attachments)
        && attachments == old(attachments)[r.value.replacement.value := Reserved]
    {
      var creating := Transition(rotation, Creating, None);
      if creating.Err? {
        return Err(creating.error);
      }
      var created := CreateAttachment();
      if created.Err? {
        return Err(Backend);
      }
      if created.value.None? || created.value.value in creating.value.baseline {
        return Err(Integrity);
      }
      r := Transition(creating.value, NewCreated, created.value);
    }

    /** Delete one of the two if it was seen, and look whether it is gone. */
    method DeleteIfThere(rotation: Record, id: Id, there: bool) returns (gone: bool)
      requires Safe() && record == Some(rotation) && rotation.phase.NewCreated? && id in Two(rotation)
      requires Two(rotation) - {id} <= attachments.Keys + late
      modifies this`attachments, this`late, this`faults, this`crossed
      ensures Safe() && faults >= old(faults) && (Lucky() ==> old(Lucky()))
      ensures gone ==> id !in attachments
      ensures faults == old(faults) ==> attachments.Keys - {id} == old(attachments).Keys - {id}
      ensures faults == old(faults) && (there <==> id in old(attachments)) ==>
        gone && attachments == old(attachments) - {id} && late == old(late)
    {
      if there {
        var deleted, reaches := DeleteAttachment(id);
        if !deleted {
          var again := Show(id);
          if again.Err? || again.value.Some? {
            return false;
          }
        }
      }
      var shown := Show(id);
      gone := shown.Ok? && shown.value.None?;
    }

    /** The old attachment may go: the replacement is known and exists. */
    method DeleteFormer(rotation: Record) returns (r: Result<Record>)
      requires Safe() && record == Some(rotation) && rotation.phase.NewCreated?
      modifies this`attachments, this`late, this`record, this`faults, this`crossed
      ensures Safe() && faults >= old(faults) && record.Some? && (Lucky() ==> old(Lucky()))
      ensures r.Ok? ==> record == Some(r.value) && r.value.phase.OldDeleted?
      ensures r.Err? ==> record.value.phase.NewCreated? || record.value.phase.OldDeleted?
      ensures record.value == rotation.(phase := record.value.phase)
      ensures Lucky() && rotation.former !in Sure() ==> rotation.replacement.value in Sure()
      ensures faults == old(faults) && old(ReadyToSwitch(rotation)) ==>
        r.Ok? && ReplacementUsable(rotation) && attachments == old(attachments) - {rotation.former} && late == old(late)
      ensures faults == old(faults) && !old(ReadyToSwitch(rotation)) ==>
        r.Err? && record == old(record) && attachments == old(attachments) && late == old(late)
    {
      var validated := ValidateReplacement(rotation);
      if validated.Err? {
        return Err(validated.error);
      }
      var shown := Show(rotation.former);
      if shown.Err? {
        return Err(shown.error);
      }
      if shown.value.Some? && !shown.value.value.Attached? {
        return Err(Integrity);
      }
      var gone := DeleteIfThere(rotation, rotation.former, shown.value.Some?);
      if !gone {
        return Err(Backend);
      }
      r := Transition(rotation, OldDeleted, None);
    }

    /** The replacement is usable, and the old attachment is attached or already gone. */
    predicate ReadyToSwitch(rotation: Record)
      reads this
    {
      ReplacementUsable(rotation) && (rotation.former in attachments ==> attachments[rotation.former].Attached?)
    }

    /** Point Nova at the replacement and put that on record. */
    method SwitchBdm(rotation: Record) returns (r: Result<Record>)
      requires Safe() && record == Some(rotation) && rotation.phase.OldDeleted?
      modifies this`attachments, this`bdm, this`record, this`faults
      ensures Safe() && faults >= old(faults) && record.Some?
      ensures r.Ok? ==> record == Some(r.value) && r.value.phase.BdmRotated? && bdm == rotation.replacement.value
      ensures r.Err? ==> record.value.phase.OldDeleted? || record.value.phase.BdmRotated?
      ensures record.value == rotation.(phase := record.value.phase)
      ensures faults == old(faults) ==>
        && attachments == old(attachments)
        && (r.Ok? <==> old(ReplacementUsable(rotation) && bdm in Two(rotation)))
        && (r.Err? ==> record == old(record) && bdm == old(bdm))
    {
      var validated := ValidateReplacement(rotation);
      if validated.Err? {
        return Err(validated.error);
      }
      if bdm == rotation.former {
        var saved := SaveBdm(rotation.replacement.value);
        if !saved && bdm != rotation.replacement.value {
          return Err(Backend);
        }
      } else if bdm != rotation.replacement.value {
        return Err(Integrity);
      }
      if bdm != rotation.replacement.value {
        return Err(Integrity);
      }
      r := Transition(rotation, BdmRotated, None);
    }

    predicate FormerAttached(rotation: Record)
      reads this
    {
      rotation.former in attachments && attachments[rotation.former].Attached?
    }

    /** A fault-free advance from here reaches `bdm-rotated` with a usable replacement. */
    predicate CanAdvance(rotation: Record)
      reads this
    {
      match rotation.phase
      case Prepared => FormerAttached(rotation)
      case NewCreated => ReadyToSwitch(rotation)
      case OldDeleted => ReplacementUsable(rotation)
      case BdmRotated => ReplacementUsable(rotation)
      case _ => false
    }

    /**
     * `_advance_cold_attachment_rotation_locked`: from any phase in which a run
     * may have stopped. A `creating` record, whose create request has an unknown
     * outcome, is never acted upon again.
     */
    method Advance(rotation: Record) returns (r: Result<Record>)
      requires Safe() && record == Some(rotation)
      modifies this`attachments, this`late, this`bdm, this`record, this`creates, this`faults, this`crossed
      ensures Safe() && faults >= old(faults) && record.Some? && (Lucky() ==> old(Lucky()))
      ensures record.value.former == rotation.former && record.value.bootVolume == rotation.bootVolume
      ensures Lucky() ==> StillAttached(record.value, Sure())
      ensures r.Ok? ==> record == Some(r.value)
      ensures r.Ok? ==>
        || r.value.phase.BdmRotated?
        || (r.value == rotation && (Terminal(rotation.phase) || rotation.phase.SourceOldRetained?))
      ensures r.Ok? && r.value.phase.BdmRotated? && Lucky() ==>
        bdm == r.value.replacement.value && bdm in Sure() && rotation.former !in attachments
      ensures rotation.phase.Creating? ==>
        && r.Err? && record == Some(rotation) && attachments == old(attachments) && bdm == old(bdm)
        && creates == old(creates)
      ensures !rotation.phase.Prepared? ==> creates == old(creates)
      ensures faults == old(faults) && Lucky() && old(CanAdvance(rotation)) ==>
        r.Ok? && r.value.phase.BdmRotated? && ReplacementUsable(r.value)
      ensures faults == old(faults) && Lucky() && !old(CanAdvance(rotation)) ==>
        && bdm == old(bdm) && old(attachments.Keys) <= attachments.Keys
        && (rotation.phase.Prepared? || (record == old(record) && attachments == old(attachments)))
        && (rotation.phase.Prepared? || rotation.phase.NewCreated? || rotation.phase.OldDeleted? ==> r.Err?)
    {
      var current := rotation;
      if current.phase.Prepared? {
        var created := CreateReplacement(current);
        if created.Err? {
          return Err(created.error);
        }
        current := created.value;
      }
      r := AdvanceCreated(current);
      if Lucky() {
        RotationNeverLosesBoth(record.value, attachments.Keys, Sure(), bdm);
      }
    }

    /** `Advance` once no create request is left to make. */
    method AdvanceCreated(rotation: Record) returns (r: Result<Record>)
      requires Safe() && record == Some(rotation) && !rotation.phase.Prepared?
      modifies this`attachments, this`late, this`bdm, this`record, this`faults, this`crossed
      ensures Safe() && faults >= old(faults) && record.Some? && (Lucky() ==> old(Lucky()))
      ensures record.value == rotation.(phase := record.value.phase)
      ensures r.Ok? ==> record == Some(r.value)
      ensures r.Ok? ==>
        || r.value.phase.BdmRotated?
        || (r.value == rotation && (Terminal(rotation.phase) || rotation.phase.SourceOldRetained?))
      ensures rotation.phase.Creating? ==>
        r.Err? && record == Some(rotation) && attachments == old(attachments) && bdm == old(bdm)
      ensures faults == old(faults) && Lucky() && old(CanAdvance(rotation)) ==>
        r.Ok? && r.value.phase.BdmRotated? && ReplacementUsable(r.value)
      ensures faults == old(faults) && Lucky() && !old(CanAdvance(rotation)) ==>
        && record == old(record) && attachments == old(attachments) && bdm == old(bdm)
        && (rotation.phase.NewCreated? || rotation.phase.OldDeleted? ==> r.Err?)
    {
      var current := rotation;
      if current.phase.Creating? {
        return Err(Integrity);
      }
      if current.phase.NewCreated? {
        var deleted := DeleteFormer(current);
        if deleted.Err? {
          return Err(deleted.error);
        }
        current := deleted.value;
      }
      if current.phase.OldDeleted? {
        var switched := SwitchBdm(current);
        if switched.Err? {
          return Err(switched.error);
        }
        current := switched.value;
      }
      r := Ok(current);
    }

    // ---- the rollback -----------------------------------------------------------------------

    /** Bring the replacement to `attached` for the source: update, connect, complete, and check. */
    method AttachReplacement(rotation: Record) returns (ok: bool)
      requires Safe() && record == Some(rotation) && rotation.phase.BdmRotated?
      modifies this`attachments, this`faults
      ensures Safe() && Steady(old(attachments))
      ensures faults >= old(faults)
      ensures faults == old(faults) ==> (ok <==> old(ReplacementUsable(rotation)))
      ensures faults == old(faults) ==>
        attachments == if ok then old(attachments)[rotation.replacement.value := Attached] else old(attachments)
    {
      var id := rotation.replacement.value;
      var validated := ValidateReplacement(rotation);
      if validated.Err? {
        return false;
      }
      var status := validated.value;
      if status.Reserved? {
        var updated := Promote(id, Reserved, Attaching);
        var shown := Show(id);
        if shown.Err? || shown.value.None? || (!updated && shown.value.value.Reserved?) {
          return false;
        }
        status := shown.value.value;
      }
      if !status.Attaching? && !status.Attached? {
        return false;
      }
      var connected := OtherCall();
      if !connected {
        return false;
      }
      if status.Attaching? {
        var completed := Promote(id, Attaching, Attached);
        if !completed {
          return false;
        }
      }
      var final := Show(id);
      ok := final.Ok? && final.value == Some(Attached);
    }

    /** What is true once a rollback or a retirement has removed the record. */
    ghost predicate Settled(rotation: Record)
      reads this
    {
      record.None? && Lucky() ==>
        && bdm in Sure() && (bdm != rotation.former ==> rotation.former !in attachments)
        && (bdm == rotation.former && rotation.replacement.Some? ==> rotation.replacement.value !in attachments)
    }

    /** While the record stands, it is the same rotation and the volume is still attached. */
    ghost predicate Standing(rotation: Record)
      reads this
    {
      record.Some? ==> record.value.former == rotation.former && (Lucky() ==> StillAttached(record.value, Sure()))
    }

    /** `_restore_cold_rotation_new_owner_locked`: the replacement becomes the source's attachment. */
    method RestoreNewOwner(rotation: Record) returns (ok: bool)
      requires Safe() && record == Some(rotation)
      modifies this
      ensures Safe() && faults >= old(faults) && Standing(rotation) && (Lucky() ==> old(Lucky()))
      ensures record.None? && Lucky() ==> bdm in Sure() && bdm != rotation.former && rotation.former !in attachments
      ensures ok ==> record.None?
      ensures !rotation.phase.Prepared? ==> creates == old(creates)
      ensures faults == old(faults) && Lucky() ==> (ok <==> old(CanAdvance(rotation))) && (ok ==> BdmAttached())
      ensures faults == old(faults) && !ok ==> record.Some?
    {
      var advanced := Advance(rotation);
      if advanced.Err? || !advanced.value.phase.BdmRotated? {
        return false;
      }
      var current := advanced.value;
      var attached := AttachReplacement(current);
      if !attached {
        KeepsStanding(rotation);
        return false;
      }
      ok := CompleteRollback(current);
    }

    lemma KeepsStanding(rotation: Record)
      requires Safe() && (record.Some? ==> record.value.former == rotation.former)
      ensures Standing(rotation)
    {
      if record.Some? && Lucky() {
        RotationNeverLosesBoth(record.value, attachments.Keys, Sure(), bdm);
      }
    }

    /** The last durable steps of a rollback: the terminal phase first, the record's removal last. */
    method CompleteRollback(rotation: Record) returns (ok: bool)
      requires Safe() && record == Some(rotation)
      requires rotation.phase.BdmRotated?
      modifies this`attachments, this`record, this`faults, this`crossed, this`ruined, this`ended
      ensures Safe() && faults >= old(faults) && Standing(rotation) && (Lucky() ==> old(Lucky()))
      ensures record.None? && Lucky() ==>
        Some(bdm) == rotation.replacement && bdm in Sure() && rotation.former !in attachments
      ensures ok ==> record.None?
      ensures faults == old(faults) ==> ok && attachments == old(attachments)
    {
      KeepsStanding(rotation);
      var marked := OtherCall();
      if !marked {
        KeepsStanding(rotation);
        return false;
      }
      var done := Transition(rotation, RollbackComplete, None);
      KeepsStanding(rotation);
      if done.Err? {
        return false;
      }
      var cancelled := OtherCall();
      KeepsStanding(rotation);
      if !cancelled {
        return false;
      }
      ok := CancelRecord(done.value);
      KeepsStanding(rotation);
    }

    /** Something outside this model refuses to go on; that counts as a fault. */
    method Authorised() returns (ok: bool)
      requires Safe()
      modifies this`faults
      ensures Safe() && faults >= old(faults) && (faults == old(faults) ==> ok)
    {
      ok := *;
      if !ok {
        faults := faults + 1;
      }
    }

    /** `_retire_terminal_cold_attachment_rotation_locked`: prove one owner, then remove the record last. */
    method RetireTerminal(rotation: Record) returns (ok: bool)
      requires Safe() && record == Some(rotation)
      modifies this`attachments, this`record, this`faults, this`crossed, this`ruined, this`ended
      ensures Safe() && faults >= old(faults) && Standing(rotation) && (Lucky() ==> old(Lucky()))
      ensures record == old(record) || (Terminal(rotation.phase) && record.None?)
      ensures record.None? && Lucky() ==> bdm in Sure() && OneOwner(rotation, attachments.Keys, Sure(), bdm)
      ensures ok ==> Terminal(rotation.phase) && record.None?
      ensures faults == old(faults) ==> (ok <==> Terminal(rotation.phase) && old(OwnedAlone(rotation)))
      ensures faults == old(faults) && !ok ==> record == old(record)
    {
      KeepsStanding(rotation);
      var authorised := Authorised();
      if !Terminal(rotation.phase) || !authorised {
        return false;
      }
      var proven := ProveOneOwner(rotation);
      KeepsStanding(rotation);
      if !proven {
        return false;
      }
      var cancelled := OtherCall();
      KeepsStanding(rotation);
      if !cancelled {
        return false;
      }
      ok := CancelRecord(rotation);
      KeepsStanding(rotation);
    }

    /** Nova names one of the two, after a release the replacement; it is attached, and the other one is gone. */
    predicate OwnedAlone(rotation: Record)
      reads this
    {
      && BdmAttached() && bdm in Two(rotation) && (Two(rotation) - {bdm}) !! attachments.Keys
      && (rotation.phase.ReleaseComplete? ==> Some(bdm) == rotation.replacement)
    }

    /** Under a lucky terminal record, the attachment that Nova names only has to be attached. */
    lemma AttachedIsAlone(rotation: Record)
      requires Safe() && record == Some(rotation) && Terminal(rotation.phase) && Lucky()
      ensures OwnedAlone(rotation) <==> BdmAttached()
    {
    }

    method ProveOneOwner(rotation: Record) returns (ok: bool)
      requires Safe() && record == Some(rotation) && Terminal(rotation.phase)
      modifies this`attachments, this`faults
      ensures Safe() && faults >= old(faults) && Steady(old(attachments))
      ensures faults == old(faults) ==> attachments == old(attachments) && (ok <==> old(OwnedAlone(rotation)))
      ensures ok ==> bdm in Two(rotation) && (rotation.phase.ReleaseComplete? ==> Some(bdm) == rotation.replacement)
    {
      var owner := Show(bdm);
      if owner.Err? || owner.value != Some(Attached) {
        return false;
      }
      if rotation.phase.ReleaseComplete? && Some(bdm) != rotation.replacement {
        return false;
      }
      if bdm != rotation.former && Some(bdm) != rotation.replacement {
        return false;
      }
      var other := if bdm == rotation.former then rotation.replacement else Some(rotation.former);
      if other.Some? {
        var shown := Show(other.value);
        if shown.Err? || shown.value.Some? {
          return false;
        }
      }
      ok := true;
    }

    /** `_complete_failed_cold_bfv_rotation_locked`: a boot volume's rollback needs no local replay. */
    method CompleteBootRollback(rotation: Record) returns (ok: bool)
      requires Safe() && record == Some(rotation)
      requires rotation.phase.Prepared? || rotation.phase.SourceOldRetained?
      modifies this`attachments, this`record, this`faults, this`crossed, this`ruined, this`ended
      ensures Safe() && faults >= old(faults) && Standing(rotation) && (Lucky() ==> old(Lucky()))
      ensures record.None? && Lucky() ==>
        && bdm == rotation.former && bdm in Sure()
        && (rotation.replacement.Some? ==> rotation.replacement.value !in attachments)
      ensures ok ==> record.None?
      ensures faults == old(faults) && Lucky() ==> (ok <==> old(FormerAttached(rotation)))
      ensures faults == old(faults) && !ok ==> record.Some?
    {
      KeepsStanding(rotation);
      var marked := OtherCall();
      KeepsStanding(rotation);
      if !marked {
        return false;
      }
      var done := Transition(rotation, RollbackComplete, None);
      KeepsStanding(rotation);
      if done.Err? {
        return false;
      }
      if Lucky() {
        AttachedIsAlone(done.value);
      }
      ok := RetireTerminal(done.value);
    }

    /**
     * `_recover_incus_migration_source_release_locked`: the migration succeeded,
     * so the source lets go of the volume: what is left of the old attachment is
     * deleted, the rotation becomes terminal, and the record goes last.
     */
    method Release(rotation: Record) returns (ok: bool)
      requires Safe() && record == Some(rotation)
      modifies this`attachments, this`late, this`record, this`faults, this`crossed, this`ruined, this`ended
      ensures Safe() && faults >= old(faults) && Standing(rotation) && (Lucky() ==> old(Lucky()))
      ensures record.None? && Lucky() ==>
        Some(bdm) == rotation.replacement && bdm in Sure() && rotation.former !in attachments
      ensures record.Some? ==> record.value.phase == rotation.phase || record.value.phase.ReleaseComplete?
      ensures ok ==> rotation.phase.BdmRotated? && record.None?
      ensures faults == old(faults) ==>
        && (ok <==> rotation.phase.BdmRotated? && Some(bdm) == rotation.replacement && old(MayRelease(rotation)))
        && (!ok ==> record == old(record) && attachments == old(attachments))
    {
      KeepsStanding(rotation);
      var authorised := Authorised();
      if !authorised || !rotation.phase.BdmRotated? || Some(bdm) != rotation.replacement {
        return false;
      }
      var released := ReleaseFormer(rotation);
      KeepsStanding(rotation);
      if !released {
        return false;
      }
      ok := CompleteRelease(rotation);
    }

    /** The target is attached, and the old attachment is not one that was reserved again. */
    predicate MayRelease(rotation: Record)
      reads this
    {
      BdmAttached() && (rotation.former in attachments ==> !attachments[rotation.former].Reserved?)
    }

    /** With the target attached, delete what is left of the old attachment and look that it is gone. */
    method ReleaseFormer(rotation: Record) returns (gone: bool)
      requires Safe() && record == Some(rotation) && rotation.phase.BdmRotated? && Some(bdm) == rotation.replacement
      modifies this`attachments, this`late, this`faults, this`crossed
      ensures Safe() && faults >= old(faults) && (Lucky() ==> old(Lucky()))
      ensures gone ==> rotation.former !in attachments
      ensures faults == old(faults) ==>
        && (gone <==> old(MayRelease(rotation)))
        && (!gone ==> attachments == old(attachments) && late == old(late))
    {
      var target := Show(bdm);
      if target.Err? || target.value != Some(Attached) {
        return false;
      }
      var source := Show(rotation.former);
      if source.Err? || source.value == Some(Reserved) {
        return false;
      }
      if source.value.Some? {
        var deleted, reaches := DeleteAttachment(rotation.former);
        if !deleted {
          return false;
        }
      }
      var shown := Show(rotation.former);
      gone := shown.Ok? && shown.value.None?;
    }

    /** The last durable steps of a release: the terminal phase, the intent, and the record. */
    method CompleteRelease(rotation: Record) returns (ok: bool)
      requires Safe() && record == Some(rotation) && rotation.phase.BdmRotated?
      modifies this`attachments, this`record, this`faults, this`crossed, this`ruined, this`ended
      ensures Safe() && faults >= old(faults) && Standing(rotation) && (Lucky() ==> old(Lucky()))
      ensures record.None? && Lucky() ==>
        Some(bdm) == rotation.replacement && bdm in Sure() && rotation.former !in attachments
      ensures record.Some? ==> record.value.phase == rotation.phase || record.value.phase.ReleaseComplete?
      ensures ok ==> record.None?
      ensures faults == old(faults) ==> ok
    {
      KeepsStanding(rotation);
      var finalized := OtherCall();
      KeepsStanding(rotation);
      if !finalized {
        return false;
      }
      var done := Transition(rotation, ReleaseComplete, None);
      KeepsStanding(rotation);
      if done.Err? {
        return false;
      }
      var cancelled := OtherCall();
      KeepsStanding(rotation);
      if !cancelled {
        return false;
      }
      ok := CancelRecord(done.value);
      KeepsStanding(rotation);
    }

    /** Rolling back is possible: the old attachment stands and the replacement is unused, or the other way round. */
    predicate CanRetain(rotation: Record)
      reads this
    {
      rotation.replacement.Some? &&
      if rotation.former in attachments then
        && attachments[rotation.former].Attached? && bdm == rotation.former
        && (rotation.replacement.value in attachments ==> attachments[rotation.replacement.value].Reserved?)
      else ReplacementUsable(rotation)
    }

    /** Rolling back a rotation whose replacement is on record, while the old attachment may still stand. */
    method RetainFormer(rotation: Record) returns (r: Result<Record>)
      requires Safe() && record == Some(rotation) && rotation.phase.NewCreated?
      modifies this`attachments, this`late, this`record, this`faults, this`crossed
      ensures Safe() && faults >= old(faults) && record.Some? && (Lucky() ==> old(Lucky()))
      ensures r.Ok? ==> record == Some(r.value) && (r.value.phase.SourceOldRetained? || r.value.phase.OldDeleted?)
      ensures record.value == rotation.(phase := record.value.phase)
      ensures Lucky() && rotation.replacement.value !in Sure() ==> rotation.former in Sure()
      ensures faults == old(faults) && old(CanRetain(rotation)) ==>
        && r.Ok? && (rotation.former in attachments <==> r.value.phase.SourceOldRetained?)
        && (if rotation.former in attachments then attachments[rotation.former].Attached?
            else ReplacementUsable(rotation))
      ensures faults == old(faults) && !old(CanRetain(rotation)) ==>
        r.Err? && record == old(record) && attachments == old(attachments)
    {
      var shown := Show(rotation.former);
      if shown.Err? {
        return Err(shown.error);
      }
      if shown.value.None? {
        var validated := ValidateReplacement(rotation);
        if validated.Err? {
          return Err(validated.error);
        }
        r := Transition(rotation, OldDeleted, None);
        return;
      }
      if !shown.value.value.Attached? || bdm != rotation.former {
        return Err(Integrity);
      }
      var removed := RemoveReplacement(rotation);
      if !removed {
        return Err(Integrity);
      }
      r := Transition(rotation, SourceOldRetained, None);
    }

    predicate ReplacementUnused(rotation: Record)
      requires rotation.replacement.Some?
      reads this
    {
      rotation.replacement.value in attachments ==> attachments[rotation.replacement.value].Reserved?
    }

    /** Delete a replacement that nobody uses, while the old attachment stands. */
    method RemoveReplacement(rotation: Record) returns (ok: bool)
      requires Safe() && record == Some(rotation) && rotation.phase.NewCreated? && rotation.former in attachments
      modifies this`attachments, this`late, this`faults, this`crossed
      ensures Safe() && faults >= old(faults) && (Lucky() ==> old(Lucky()))
      ensures ok ==> rotation.replacement.value !in attachments
      ensures faults == old(faults) && old(ReplacementUnused(rotation)) ==>
        ok && attachments == old(attachments) - {rotation.replacement.value}
      ensures faults == old(faults) && !old(ReplacementUnused(rotation)) ==> !ok && attachments == old(attachments)
    {
      var id := rotation.replacement.value;
      var shown := Show(id);
      if shown.Err? {
        return false;
      }
      if shown.value.Some? && !shown.value.value.Reserved? {
        return false;
      }
      ok := DeleteIfThere(rotation, id, shown.value.Some?);
    }

    /** From here a fault-free rollback settles the rotation, or leaves it to the ordinary source replay. */
    predicate CanRecover(rotation: Record)
      reads this
    {
      match rotation.phase
      case Prepared => rotation.bootVolume ==> FormerAttached(rotation)
      case SourceOldRetained => rotation.bootVolume ==> FormerAttached(rotation)
      case NewCreated => CanRetain(rotation)
      case OldDeleted => ReplacementUsable(rotation)
      case BdmRotated => ReplacementUsable(rotation)
      case _ => false
    }

    /**
     * `_recover_failed_cold_attachment_rotation_locked`: `Ok(true)` when the
     * rotation is settled and its record gone, `Ok(false)` when the old owner
     * stands and the ordinary source replay goes on, `Err` otherwise.
     */
    method RecoverFailed(rotation: Record) returns (r: Result<bool>)
      requires Safe() && record == Some(rotation)
      modifies this
      ensures Safe() && faults >= old(faults) && creates == old(creates) && (Lucky() ==> old(Lucky()))
      ensures Standing(rotation) && Settled(rotation)
      ensures r == Ok(true) ==> record.None?
      ensures r == Ok(false) ==>
        && record.Some? && !record.value.bootVolume
        && (record.value.phase.Prepared? || record.value.phase.SourceOldRetained?)
        && (Lucky() ==> bdm == rotation.former && rotation.former in Sure())
      ensures rotation.phase.Creating? ==> r.Err? && record == Some(rotation) && bdm == old(bdm)
      ensures faults == old(faults) && Lucky() ==> (r.Ok? <==> old(CanRecover(rotation)))
      ensures faults == old(faults) && rotation.phase.NewCreated? && !old(CanRetain(rotation)) ==>
        r.Err? && record == old(record) && attachments == old(attachments) && bdm == old(bdm)
    {
      KeepsStanding(rotation);
      var authorised := Authorised();
      if !authorised {
        return Err(Integrity);
      }
      var fenced := OtherCall();
      KeepsStanding(rotation);
      if !fenced {
        return Err(Backend);
      }
      var current := rotation;
      if current.phase.Creating? {
        return Err(Integrity);
      }
      if current.phase.NewCreated? {
        var retained := RetainFormer(current);
        KeepsStanding(rotation);
        if retained.Err? {
          return Err(retained.error);
        }
        current := retained.value;
      }
      r := RecoverSettled(current);
    }

    /** The rest of a rollback, once it is clear which attachment stays. */
    method RecoverSettled(rotation: Record) returns (r: Result<bool>)
      requires Safe() && record == Some(rotation) && !rotation.phase.Creating? && !rotation.phase.NewCreated?
      modifies this
      ensures Safe() && faults >= old(faults) && creates == old(creates) && (Lucky() ==> old(Lucky()))
      ensures Standing(rotation) && Settled(rotation)
      ensures r == Ok(true) ==> record.None?
      ensures r == Ok(false) ==>
        && record == Some(rotation) && !rotation.bootVolume
        && (rotation.phase.Prepared? || rotation.phase.SourceOldRetained?)
        && (Lucky() ==> bdm == rotation.former && rotation.former in Sure())
      ensures faults == old(faults) && Lucky() ==> (r.Ok? <==> old(CanRecover(rotation)))
    {
      KeepsStanding(rotation);
      if rotation.phase.Prepared? || rotation.phase.SourceOldRetained? {
        if !rotation.bootVolume {
          return Ok(false);
        }
        var completed := CompleteBootRollback(rotation);
        return if completed then Ok(true) else Err(Backend);
      }
      var restored := RestoreNewOwner(rotation);
      r := if restored then Ok(true) else Err(Backend);
    }

    /**
     * Any number of rotations of boot and data volumes, attempted, rolled back,
     * released and retired any number of times, each cut short anywhere.
     */
    method Reruns(owner: nat)
      requires Safe()
      modifies this
      ensures Safe() && creates <= 1
      ensures record.Some? && Lucky() ==> StillAttached(record.value, Sure())
      ensures record.Some? && !ruined ==> (Doomed(record.value) <==> crossed)
      ensures !ruined ==> forall i | 0 <= i < |ended| :: EndedWell(ended[i])
    {
      var rounds: nat := *;
      while rounds > 0
        invariant Safe()
      {
        var choice: nat := *;
        if choice == 0 {
          var boot: bool := *;
          var prepared := Prepare(owner, boot);
        } else if record.Some? {
          var rotation := record.value;
          if choice == 1 {
            var advanced := Advance(rotation);
          } else if choice == 2 {
            var recovered := RecoverFailed(rotation);
          } else if choice == 3 {
            var released := Release(rotation);
          } else {
            var retired := RetireTerminal(rotation);
          }
        }
        rounds := rounds - 1;
      }
      if record.Some? && !ruined {
        LostExactlyWhenCrossed();
      }
    }
  }
}
