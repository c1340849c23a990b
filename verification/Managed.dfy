/**
 * Managed attach and detach of one Cinder volume (nova/virt/incus/manager.py):
 * a durable intent and a host journal are driven against Nova's block device
 * mapping, Cinder's attachment and the host mapping, and the process may stop
 * between any two effects, recovery included.
 *
 * Every request may fail, and a failed request may have taken effect or not.
 */
module Managed {
  import opened Wrappers

  type Info = nat

  datatype Status = Reserved | Attaching | Attached | ErrorAttaching | ErrorDetaching | Detached | Deleted | OtherStatus

  datatype Attachment = Attachment(status: Status, info: Option<Info>)

  datatype Bdm = Bdm(info: Option<Info>)

  datatype JournalPhase = Connecting | Connected | Disconnecting | Disconnected | RolledBack

  datatype DetachIntent = DetachIntent(destroyBdm: bool)

  /** Everything durable about the volume, in its four places. */
  datatype Durable = Durable(
    attachment: Option<Attachment>, bdm: Option<Bdm>, mapping: Option<Info>,
    journal: Option<JournalPhase>, attaching: bool, detaching: Option<DetachIntent>)

  /** Nova, Cinder and the host all have the volume, with the same connection. */
  predicate AllPresent(d: Durable) {
    && d.mapping.Some?
    && d.attachment == Some(Attachment(Attached, d.mapping))
    && d.bdm == Some(Bdm(d.mapping))
  }

  predicate AllAbsent(d: Durable) {
    d.mapping.None? && d.attachment.None? && d.bdm.None?
  }

  predicate Agree(d: Durable) {
    AllPresent(d) || AllAbsent(d)
  }

  /** What holds at every moment while an intent is on record. */
  predicate InOrder(d: Durable) {
    && !(d.attaching && d.detaching.Some?)
    && (d.attaching ==>
          && (d.journal.None? && d.mapping.Some? ==> AllPresent(d))
          && (d.journal.Some? && (d.journal.value.RolledBack? || d.journal.value.Disconnected?) ==> d.mapping.None?))
    && (d.detaching.Some? ==>
          && (d.bdm.None? ==> d.attachment.None?)
          && (d.journal.None? && d.detaching.value.destroyBdm ==> Agree(d))
          && (d.journal.Some? ==> d.journal.value.Disconnecting? || d.journal.value.Disconnected?)
          && (d.journal == Some(Disconnected) ==> d.mapping.None?))
  }

  /** The statuses that an attach rollback may delete. */
  predicate RollbackStatus(s: Status) {
    s.Reserved? || s.ErrorAttaching? || s.Detached? || s.Deleted?
  }

  /**
   * Nothing contradicts what the evidence says: a fault-free attach recovery
   * from here finishes, and from anywhere else it refuses and changes nothing.
   */
  predicate AttachRecoverable(d: Durable) {
    var status := if d.attachment.Some? then Some(d.attachment.value.status) else None;
    var info := if d.attachment.Some? then d.attachment.value.info else None;
    if d.journal.None? then
      if status == Some(Attached) then AllPresent(d)
      else status in {None, Some(Attaching), Some(Reserved), Some(ErrorAttaching), Some(Detached), Some(Deleted)}
    else if status == Some(Attached) then
      d.journal.value.Connected? && d.mapping == info && info.Some? && d.bdm == Some(Bdm(info))
    else if status == Some(Attaching) then
      && (d.journal.value.Connecting? || d.journal.value.Connected?)
      && info.Some? && d.bdm.Some? && (d.bdm.value.info.None? || d.bdm.value.info == info)
    else
      && status in {None, Some(Reserved), Some(ErrorAttaching), Some(Detached), Some(Deleted)}
      && (d.bdm.Some? && d.bdm.value.info.Some? && info.Some? ==> d.bdm.value.info == info)
  }

  predicate AttachingNow(d: Durable) {
    d.attachment.Some? && d.attachment.value.status.Attaching?
  }

  /** The same for detach. */
  predicate DetachRecoverable(d: Durable)
    requires d.detaching.Some?
  {
    if d.bdm.None? then
      if d.journal.None? then d.mapping.None? && d.attachment.None?
      else d.journal.value.Disconnected? && d.detaching.value.destroyBdm
    else if d.journal.None? then AllPresent(d)
    else
      && d.detaching.value.destroyBdm
      && (d.attachment.Some? ==>
            && d.attachment.value.status in {Attached, ErrorDetaching, Detached, Deleted}
            && d.bdm.value.info.Some? && d.attachment.value.info == d.bdm.value.info)
  }

  /** The statuses from which a detach is finished. */
  predicate DetachStatus(s: Status) {
    s.Attached? || s.ErrorDetaching? || s.Detached? || s.Deleted?
  }

  class Volume {
    var now: Durable
    /** Requests that failed or whose answer was lost, and refusals from outside this model. */
    ghost var faults: nat

    ghost predicate Safe()
      reads this
    {
      InOrder(now)
    }

    constructor (d: Durable)
      requires InOrder(d)
      ensures Safe() && now == d
    {
      now := d;
      faults := 0;
    }

    /** One durable effect: it happens or it does not, and the caller may learn of it or not. */
    method Effect(next: Durable) returns (ok: bool)
      requires Safe() && InOrder(next)
      modifies this
      ensures Safe() && (now == old(now) || now == next) && (ok ==> now == next)
      ensures faults >= old(faults) && (faults == old(faults) ==> ok)
    {
      var executed: bool := *;
      var answered: bool := *;
      if executed {
        now := next;
      }
      ok := executed && answered;
      if !ok {
        faults := faults + 1;
      }
    }

    /** A check against something outside this model, which may refuse. */
    method Granted() returns (ok: bool)
      requires Safe()
      modifies this`faults
      ensures Safe() && faults >= old(faults) && (faults == old(faults) ==> ok)
    {
      ok := *;
      if !ok {
        faults := faults + 1;
      }
    }

    // ---- the driver's journal operations -----------------------------------------------------

    /** `confirm_connected_volume_journal`: the journal goes only when the host has exactly this connection. */
    method ConfirmConnected(info: Info) returns (ok: bool)
      requires Safe() && (now.attaching || now.detaching.Some?)
      requires now.attachment == Some(Attachment(Attached, Some(info))) && now.bdm == Some(Bdm(Some(info)))
      modifies this
      ensures Safe() && now.(journal := None) == old(now).(journal := None)
      ensures ok ==> now.journal.None? && AllPresent(now)
      ensures faults >= old(faults)
      ensures if old(now).mapping == Some(info) && old(now).journal in {None, Some(Connected)}
              then faults == old(faults) ==> ok
              else !ok && now == old(now)
    {
      if now.journal.Some? && !now.journal.value.Connected? {
        return false;
      }
      if now.mapping != Some(info) {
        return false;
      }
      if now.journal.None? {
        return true;
      }
      ok := Effect(now.(journal := None));
    }

    /** `resume_connecting_volume_journal`: finish the guest side and keep the journal. */
    method ResumeConnecting(info: Info) returns (ok: bool)
      requires Safe() && now.attaching
      modifies this
      ensures Safe() && now.attaching && now.attachment == old(now).attachment && now.bdm == old(now).bdm
      ensures now.journal.Some? <==> old(now).journal.Some?
      ensures now.detaching == old(now).detaching
      ensures ok ==> now.journal == Some(Connected) && now.mapping == Some(info)
      ensures faults >= old(faults)
      ensures if old(now).journal in {Some(Connecting), Some(Connected)} then faults == old(faults) ==> ok
              else !ok && now == old(now)
    {
      if now.journal.None? || !(now.journal.value.Connecting? || now.journal.value.Connected?) {
        return false;
      }
      var connected := Effect(now.(mapping := Some(info)));
      if !connected {
        return false;
      }
      ok := Effect(now.(journal := Some(Connected)));
    }

    /** `rollback_connecting_volume_journal`: remove the host mapping, then say so durably. */
    method RollbackConnecting() returns (ok: bool)
      requires Safe() && now.attaching && now.journal.Some?
      modifies this
      ensures Safe() && now.attaching && now.attachment == old(now).attachment && now.bdm == old(now).bdm
      ensures now.journal.Some? && now.detaching == old(now).detaching
      ensures ok ==> now.journal == Some(RolledBack) && now.mapping.None?
      ensures faults >= old(faults)
      ensures faults == old(faults) ==> ok
    {
      if now.journal == Some(RolledBack) {
        return true;
      }
      var disconnected := Effect(now.(mapping := None));
      if !disconnected {
        return false;
      }
      ok := Effect(now.(journal := Some(RolledBack)));
    }

    /** `finalize_rolled_back_volume_journal`. */
    method FinalizeRolledBack() returns (ok: bool)
      requires Safe() && now.attaching && AllAbsent(now)
      modifies this
      ensures Safe() && now.(journal := None) == old(now).(journal := None)
      ensures ok ==> now.journal.None?
      ensures faults >= old(faults)
      ensures if old(now).journal in {None, Some(RolledBack)} then faults == old(faults) ==> ok
              else !ok && now == old(now)
    {
      if now.journal.None? {
        return true;
      }
      if !now.journal.value.RolledBack? {
        return false;
      }
      ok := Effect(now.(journal := None));
    }

    /** `_recover_disconnecting_volume_journal_locked`: guest access and host mapping first, the journal after. */
    method RecoverDisconnecting() returns (ok: bool)
      requires Safe() && now.detaching.Some? && now.journal.Some?
      modifies this
      ensures Safe() && now.attachment == old(now).attachment && now.bdm == old(now).bdm
      ensures now.detaching == old(now).detaching && now.attaching == old(now).attaching && now.journal.Some?
      ensures ok ==> now.journal == Some(Disconnected)
      ensures faults >= old(faults)
      ensures faults == old(faults) ==> ok
    {
      if now.journal == Some(Disconnected) {
        return true;
      }
      var disconnected := Effect(now.(mapping := None));
      if !disconnected {
        return false;
      }
      ok := Effect(now.(journal := Some(Disconnected)));
    }

    /** `finalize_disconnected_volume_journal`. */
    method FinalizeDisconnected() returns (ok: bool)
      requires Safe() && now.detaching.Some?
      requires now.detaching.value.destroyBdm ==> now.attachment.None? && now.bdm.None?
      modifies this
      ensures Safe() && now.(journal := None) == old(now).(journal := None)
      ensures ok ==> now.journal.None?
      ensures faults >= old(faults)
      ensures if old(now).journal in {None, Some(Disconnected)} then faults == old(faults) ==> ok
              else !ok && now == old(now)
    {
      if now.journal.None? {
        return true;
      }
      if !now.journal.value.Disconnected? {
        return false;
      }
      ok := Effect(now.(journal := None));
    }

    // ---- Cinder, Nova and the intents ---------------------------------------------------------

    /** `attachment_delete` during attach recovery: never of an attachment that Cinder reports attached. */
    method DeleteUnattached() returns (ok: bool)
      requires Safe() && now.attaching && (now.attachment.Some? ==> !now.attachment.value.status.Attached?)
      modifies this
      ensures Safe() && now.(attachment := None) == old(now).(attachment := None)
      ensures now.attachment == old(now).attachment || now.attachment.None?
      ensures ok ==> now.attachment.None?
      ensures faults >= old(faults)
      ensures faults == old(faults) ==> ok
    {
      if now.attachment.None? {
        return true;
      }
      ok := Effect(now.(attachment := None));
    }

    /** `attachment_delete` of a detach, once the host mapping is gone. */
    method DeleteDetached() returns (ok: bool)
      requires Safe() && now.detaching.Some? && now.journal.Some? && now.mapping.None?
      modifies this
      ensures Safe() && now.(attachment := None) == old(now).(attachment := None)
      ensures ok ==> now.attachment.None?
      ensures faults >= old(faults)
      ensures faults == old(faults) ==> ok
    {
      if now.attachment.None? {
        return true;
      }
      ok := Effect(now.(attachment := None));
    }

    /** `bdm.destroy()`. */
    method DestroyBdm() returns (ok: bool)
      requires Safe() && now.attachment.None?
      requires now.attaching ==> now.journal.Some? || now.mapping.None?
      requires now.detaching.Some? ==> now.journal.Some?
      modifies this
      ensures Safe() && now.(bdm := None) == old(now).(bdm := None)
      ensures now.bdm == old(now).bdm || now.bdm.None?
      ensures ok ==> now.bdm.None?
      ensures faults >= old(faults)
      ensures faults == old(faults) ==> ok
    {
      if now.bdm.None? {
        return true;
      }
      ok := Effect(now.(bdm := None));
    }

    /** Retiring the attach intent is only for a volume on which everyone agrees. */
    method CancelAttach() returns (ok: bool)
      requires Safe() && now.attaching && now.journal.None? && Agree(now)
      modifies this
      ensures Safe() && Agree(now) && now.(attaching := false) == old(now).(attaching := false)
      ensures ok ==> !now.attaching
      ensures faults >= old(faults)
      ensures faults == old(faults) ==> ok
    {
      ok := Effect(now.(attaching := false));
    }

    /** Retiring the detach intent likewise, unless Nova keeps the mapping for a rebuild. */
    method CancelDetach() returns (ok: bool)
      requires Safe() && now.detaching.Some? && now.journal.None?
      requires now.detaching.value.destroyBdm ==> Agree(now)
      modifies this
      ensures Safe() && now.(detaching := None) == old(now).(detaching := None)
      ensures ok ==> now.detaching.None?
      ensures faults >= old(faults)
      ensures faults == old(faults) ==> ok
    {
      ok := Effect(now.(detaching := None));
    }

    // ---- attach ---------------------------------------------------------------------------------

    /** Nova's own attach flow between the intent and the final confirmation, stopped anywhere. */
    method NovaAttach(info: Info) returns (ok: bool)
      requires Safe() && now.attaching && now.journal.None? && now.mapping.None?
      modifies this
      ensures Safe() && now.attaching && now.detaching == old(now).detaching
      ensures ok ==> now.attachment == Some(Attachment(Attached, Some(info))) && now.bdm == Some(Bdm(Some(info)))
      ensures faults >= old(faults)
      ensures faults == old(faults) ==> ok && now.journal == Some(Connected) && now.mapping == Some(info)
    {
      var updated := Effect(now.(attachment := Some(Attachment(Attaching, Some(info)))));
      if !updated {
        NovaCleanup();
        return false;
      }
      var journalled := Effect(now.(journal := Some(Connecting)));
      if !journalled {
        NovaCleanup();
        return false;
      }
      var connected := ResumeConnecting(info);
      if !connected {
        NovaCleanup();
        return false;
      }
      var saved := Effect(now.(bdm := Some(Bdm(Some(info)))));
      if !saved {
        NovaCleanup();
        return false;
      }
      ok := Effect(now.(attachment := Some(Attachment(Attached, Some(info)))));
      if !ok {
        NovaCleanup();
      }
    }

    /** Nova's failure path may remove the attachment and the mapping it created, or neither. */
    method NovaCleanup()
      requires Safe() && now.attaching && (now.journal.Some? || now.mapping.None?)
      modifies this
      ensures Safe() && now.attaching && now.detaching == old(now).detaching && faults >= old(faults)
    {
      var deletes: bool := *;
      if deletes {
        var deleted := Effect(now.(attachment := None));
      }
      var destroys: bool := *;
      if destroys {
        var destroyed := Effect(now.(bdm := None));
      }
    }

    /** `_attach_volume_locked`. */
    method AttachVolume(info: Info) returns (ok: bool)
      requires Safe() && !now.attaching && now.detaching.None? && now.journal.None? && now.mapping.None?
      modifies this
      ensures Safe() && (ok && !now.attaching ==> AllPresent(now))
      ensures !ok && !now.attaching ==> now == old(now)
      ensures ok ==> now.attachment == Some(Attachment(Attached, Some(info))) && now.bdm == Some(Bdm(Some(info)))
      ensures faults >= old(faults)
      ensures faults == old(faults) ==> ok && !now.attaching && AllPresent(now) && now.mapping == Some(info)
    {
      var prepared := Effect(now.(attaching := true));
      if !prepared {
        return false;
      }
      ok := NovaAttach(info);
      if !ok {
        return false;
      }
      var confirmed := ConfirmConnected(info);
      if confirmed {
        var cancelled := CancelAttach();
      }
    }

    /**
     * `_recover_incus_connecting_volume_journal_locked` for a hot attach:
     * whenever it retires the intent, all three places have the volume with one
     * connection, or none has it.
     */
    method RecoverAttach() returns (ok: bool)
      requires Safe() && now.attaching
      modifies this
      ensures Safe() && now.detaching == old(now).detaching
      ensures ok ==> !now.attaching && now.journal.None?
      ensures !now.attaching ==> Agree(now)
      ensures old(now).attachment.Some? && old(now).attachment.value.status.Attached? ==>
        now.attachment == old(now).attachment
      ensures faults >= old(faults)
      ensures if AttachRecoverable(old(now)) then faults == old(faults) ==> ok else !ok && now == old(now)
    {
      var status := if now.attachment.Some? then Some(now.attachment.value.status) else None;
      if now.journal.None? {
        ok := RecoverPending();
      } else if status == Some(Attached) || status == Some(Attaching) {
        ok := RecoverFormal();
      } else {
        ok := RollbackAttach();
      }
    }

    /** `_recover_incus_attach_pending_locked`: before the driver ran, or after everything committed. */
    method RecoverPending() returns (ok: bool)
      requires Safe() && now.attaching && now.journal.None?
      modifies this
      ensures Safe() && now.detaching == old(now).detaching
      ensures ok ==> !now.attaching && now.journal.None?
      ensures !now.attaching ==> Agree(now)
      ensures old(now).attachment.Some? && old(now).attachment.value.status.Attached? ==>
        now.attachment == old(now).attachment
      ensures faults >= old(faults)
      ensures if AttachRecoverable(old(now)) then faults == old(faults) ==> ok else !ok && now == old(now)
    {
      if now.attachment.Some? && now.attachment.value.status.Attached? {
        var info := now.attachment.value.info;
        if now.bdm.None? || info.None? || now.bdm.value.info != info {
          return false;
        }
        var confirmed := ConfirmConnected(info.value);
        if !confirmed {
          return false;
        }
        ok := CancelAttach();
        return;
      }
      if now.attachment.Some? && !RollbackStatus(now.attachment.value.status)
         && !now.attachment.value.status.Attaching? {
        return false;
      }
      var volumeReleased := Granted();
      if !volumeReleased {
        return false;
      }
      var deleted := DeleteUnattached();
      if !deleted {
        return false;
      }
      var destroyed := DestroyBdm();
      if !destroyed {
        return false;
      }
      ok := CancelAttach();
    }

    /** `_recover_incus_formal_attach_locked`: preserve or complete what Cinder already owns. */
    method RecoverFormal() returns (ok: bool)
      requires Safe() && now.attaching && now.journal.Some? && now.attachment.Some?
      requires now.attachment.value.status.Attached? || now.attachment.value.status.Attaching?
      modifies this
      ensures Safe() && now.detaching == old(now).detaching
      ensures ok ==> !now.attaching && now.journal.None?
      ensures !now.attaching ==> Agree(now)
      ensures old(now).attachment.value.status.Attached? ==> now.attachment == old(now).attachment
      ensures faults >= old(faults)
      ensures if AttachRecoverable(old(now)) then faults == old(faults) ==> ok else !ok && now == old(now)
    {
      var status, info := now.attachment.value.status, now.attachment.value.info;
      if now.bdm.None? || info.None? {
        return false;
      }
      if now.bdm.value.info.None? && status.Attached? {
        return false;
      }
      if now.bdm.value.info.Some? && now.bdm.value.info != info {
        return false;
      }
      if status.Attaching? {
        var resumed := ResumeConnecting(info.value);
        if !resumed {
          return false;
        }
        var saved := Effect(now.(bdm := Some(Bdm(info))));
        if !saved {
          return false;
        }
        var completed := Effect(now.(attachment := Some(Attachment(Attached, info))));
        if !completed {
          return false;
        }
      }
      var confirmed := ConfirmConnected(info.value);
      if !confirmed {
        return false;
      }
      ok := CancelAttach();
    }

    /** `_rollback_incus_managed_attach_locked`: host first, then Cinder, then Nova, then the evidence. */
    method RollbackAttach() returns (ok: bool)
      requires Safe() && now.attaching && now.journal.Some?
      requires now.attachment.Some? ==> !now.attachment.value.status.Attached?
      modifies this
      ensures Safe() && now.detaching == old(now).detaching
      ensures ok ==> !now.attaching && now.journal.None?
      ensures !now.attaching ==> Agree(now)
      ensures now.attachment != old(now).attachment ==> now.attachment.None? && now.mapping.None?
      ensures now.bdm != old(now).bdm ==> now.bdm.None? && now.attachment.None? && now.mapping.None?
      ensures now.journal.None? || !now.attaching ==> AllAbsent(now)
      ensures faults >= old(faults)
      ensures if AttachRecoverable(old(now)) && !AttachingNow(old(now)) then faults == old(faults) ==> ok
              else !ok && now == old(now)
    {
      if now.attachment.Some? && !RollbackStatus(now.attachment.value.status) {
        return false;
      }
      if now.bdm.Some? && now.bdm.value.info.Some? && now.attachment.Some? && now.attachment.value.info.Some?
         && now.bdm.value.info != now.attachment.value.info {
        return false;
      }
      var volumeReleased := Granted();
      if !volumeReleased && now.journal != Some(RolledBack) {
        return false;
      }
      var rolledBack := RollbackConnecting();
      if !rolledBack {
        return false;
      }
      var deleted := DeleteUnattached();
      if !deleted {
        return false;
      }
      var destroyed := DestroyBdm();
      if !destroyed {
        return false;
      }
      var finalized := FinalizeRolledBack();
      if !finalized {
        return false;
      }
      ok := CancelAttach();
    }

    // ---- detach ---------------------------------------------------------------------------------

    /** Nova's own detach flow: the driver's disconnect, then Cinder, then the block device mapping. */
    method NovaDetach(destroyBdm: bool) returns (ok: bool)
      requires Safe() && now.detaching == Some(DetachIntent(destroyBdm)) && AllPresent(now) && now.journal.None?
      modifies this
      ensures Safe() && now.detaching == old(now).detaching && now.attaching == old(now).attaching
      ensures ok ==> now.journal == Some(Disconnected) && now.attachment.None? && (destroyBdm ==> now.bdm.None?)
      ensures now.journal.None? ==> AllPresent(now)
      ensures faults >= old(faults)
      ensures faults == old(faults) ==> ok && now.mapping.None? && (destroyBdm ==> AllAbsent(now))
    {
      var journalled := Effect(now.(journal := Some(Disconnecting)));
      if !journalled {
        return false;
      }
      var disconnected := RecoverDisconnecting();
      if !disconnected {
        return false;
      }
      var deleted := DeleteDetached();
      if !deleted {
        return false;
      }
      if destroyBdm {
        ok := DestroyBdm();
      } else {
        ok := true;
      }
    }

    /** `_detach_volume_locked`. */
    method DetachVolume(destroyBdm: bool) returns (ok: bool)
      requires Safe() && !now.attaching && now.detaching.None? && now.journal.None? && AllPresent(now)
      modifies this
      ensures Safe() && (now.detaching.None? && destroyBdm ==> Agree(now))
      ensures ok ==> now.mapping.None? && now.attachment.None? && (destroyBdm ==> AllAbsent(now))
      ensures faults >= old(faults)
      ensures faults == old(faults) ==>
        ok && now.detaching.None? && now.mapping.None? && now.attachment.None? && (destroyBdm ==> AllAbsent(now))
    {
      var prepared := Effect(now.(detaching := Some(DetachIntent(destroyBdm))));
      if !prepared {
        return false;
      }
      ok := NovaDetach(destroyBdm);
      if !ok {
        if now.journal.None? {
          var cancelled := CancelDetach();
        }
        return false;
      }
      var finalized := FinalizeDisconnected();
      if finalized {
        var cancelled := CancelDetach();
      }
    }

    /**
     * `_recover_incus_disconnecting_volume_journal`: a detach that destroys the
     * block device mapping is retired only when everyone agrees; one that keeps
     * it is never finished here once the driver has started.
     */
    method RecoverDetach() returns (ok: bool)
      requires Safe() && now.detaching.Some?
      modifies this
      ensures Safe()
      ensures ok ==> now.detaching.None? && now.journal.None?
      ensures now.detaching.None? ==> Agree(now)
      ensures !old(now).detaching.value.destroyBdm && old(now).journal.Some? ==> !ok && now == old(now)
      ensures faults >= old(faults)
      ensures if DetachRecoverable(old(now)) then faults == old(faults) ==> ok else !ok && now == old(now)
    {
      if now.bdm.None? {
        ok := RecoverWithoutBdm();
      } else if now.journal.None? {
        ok := RecoverDetachPending();
      } else if !now.detaching.value.destroyBdm {
        ok := false;
      } else {
        ok := FinishDetach();
      }
    }

    method RecoverWithoutBdm() returns (ok: bool)
      requires Safe() && now.detaching.Some? && now.bdm.None?
      modifies this
      ensures Safe()
      ensures ok ==> now.detaching.None? && now.journal.None?
      ensures now.detaching.None? ==> Agree(now)
      ensures !old(now).detaching.value.destroyBdm && old(now).journal.Some? ==> !ok && now == old(now)
      ensures faults >= old(faults)
      ensures if DetachRecoverable(old(now)) then faults == old(faults) ==> ok else !ok && now == old(now)
    {
      if now.journal.None? {
        if now.mapping.Some? || now.attachment.Some? {
          return false;
        }
        ok := CancelDetach();
        return;
      }
      if now.journal != Some(Disconnected) || !now.detaching.value.destroyBdm {
        return false;
      }
      var finalized := FinalizeDisconnected();
      if !finalized {
        return false;
      }
      ok := CancelDetach();
    }

    /** The driver never ran: the attachment must still be exact, and the detach is taken back. */
    method RecoverDetachPending() returns (ok: bool)
      requires Safe() && now.detaching.Some? && now.bdm.Some? && now.journal.None?
      modifies this
      ensures Safe()
      ensures ok ==> now.detaching.None? && now.journal.None?
      ensures now.detaching.None? ==> AllPresent(now)
      ensures faults >= old(faults)
      ensures if DetachRecoverable(old(now)) then faults == old(faults) ==> ok else !ok && now == old(now)
    {
      if now.attachment.None? || !now.attachment.value.status.Attached? || now.bdm.value.info.None?
         || now.attachment.value.info != now.bdm.value.info {
        return false;
      }
      var owned := Granted();
      if !owned {
        return false;
      }
      var confirmed := ConfirmConnected(now.bdm.value.info.value);
      if !confirmed {
        return false;
      }
      ok := CancelDetach();
    }

    /** The driver ran: finish the disconnect, then Cinder, then Nova, then the evidence. */
    method FinishDetach() returns (ok: bool)
      requires Safe() && now.detaching == Some(DetachIntent(true)) && now.bdm.Some? && now.journal.Some?
      modifies this
      ensures Safe()
      ensures ok ==> now.detaching.None? && now.journal.None?
      ensures now.detaching.None? ==> AllAbsent(now)
      ensures faults >= old(faults)
      ensures if DetachRecoverable(old(now)) then faults == old(faults) ==> ok else !ok && now == old(now)
    {
      if now.attachment.Some? {
        var s := now.attachment.value.status;
        if !DetachStatus(s) || now.bdm.value.info.None?
           || now.attachment.value.info != now.bdm.value.info {
          return false;
        }
      }
      var ownershipProven := Granted();
      if now.journal != Some(Disconnected) && !ownershipProven {
        return false;
      }
      var disconnected := RecoverDisconnecting();
      if !disconnected {
        return false;
      }
      var deleted := DeleteDetached();
      if !deleted {
        return false;
      }
      var destroyed := DestroyBdm();
      if !destroyed {
        return false;
      }
      var finalized := FinalizeDisconnected();
      if !finalized {
        return false;
      }
      ok := CancelDetach();
    }

    /** Attach recovery attempted any number of times, each cut short anywhere. */
    method RecoverAttachRepeatedly() returns (settled: bool)
      requires Safe() && now.attaching
      modifies this
      ensures Safe() && (settled <==> !now.attaching) && (settled ==> Agree(now))
    {
      var rounds: nat := *;
      while rounds > 0 && now.attaching
        invariant Safe() && (now.attaching || Agree(now))
      {
        var ok := RecoverAttach();
        rounds := rounds - 1;
      }
      settled := !now.attaching;
    }

    /** Detach recovery attempted any number of times, each cut short anywhere. */
    method RecoverDetachRepeatedly() returns (settled: bool)
      requires Safe() && now.detaching.Some?
      modifies this
      ensures Safe() && (settled <==> now.detaching.None?) && (settled ==> Agree(now))
    {
      var rounds: nat := *;
      while rounds > 0 && now.detaching.Some?
        invariant Safe() && (now.detaching.Some? || Agree(now))
      {
        var ok := RecoverDetach();
        rounds := rounds - 1;
      }
      settled := now.detaching.None?;
    }
  }
}
