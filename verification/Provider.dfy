// The bank provider: one component's activate, commit and rollback over two stores, its slot
// of the NV boot state and its entry in the shared boot vector.
module Provider {
  import opened Base
  import opened Nv
  import opened BootVector
  import Ota

  datatype Device = Device(nv: Store, vec: Vec)

  /** The bank a rollback lands on, refused as the rollback itself would be. */
  function RollbackTarget(nv: Store, slot: nat): Ota.Result<Bank>
    requires slot < MAX_SLOTS && Wellformed(nv)
  {
    if ReadBoot(nv).None? then Ota.Err(Ota.NoBootState)
    else if ReadBoot(nv).value[slot].committed then Ota.Err(Ota.NotInTrial)
    else Ota.Ok(ReadBoot(nv).value[slot].active.Other())
  }

  function NvActive(nv: Store, slot: nat): Bank
    requires slot < MAX_SLOTS && Wellformed(nv)
  {
    if ReadBoot(nv).None? then A else ReadBoot(nv).value[slot].active
  }

  /** The vector's next-boot selection disagrees with the NV active bank. */
  predicate PendingReboot(d: Device, slot: nat, id: string)
    requires slot < MAX_SLOTS && Wellformed(d.nv)
  {
    d.vec.Selected(id).Some? && d.vec.Selected(id).value != NvActive(d.nv, slot)
  }

  function TargetBank(nv: Store, slot: nat): Bank
    requires slot < MAX_SLOTS && Wellformed(nv)
  {
    NvActive(nv, slot).Other()
  }

  /** The activator runs first; only then is the entry staged and sealed. */
  function Activated(v: Vec, id: string, e: Entry, activatorOk: bool, sealOk: bool): (Vec, bool) {
    if !activatorOk then (v, false)
    else
      var (v', r) := Sealed(Staged(v, id, e), sealOk);
      (v', r.Done?)
  }

  /** NV first, an already committed slot counting as done, then the vector. */
  function CommittedBoth(d: Device, slot: nat, landed: nat, vecOk: bool): (Device, bool)
    requires slot < MAX_SLOTS && Wellformed(d.nv)
  {
    var plan := Ota.CommitPlan(d.nv, slot);
    var nv' := Carry(d.nv, plan.writes, landed);
    var r := Ota.Reported(plan, landed);
    if r.Err? && r.error != Ota.AlreadyCommitted then (d.(nv := nv'), false)
    else
      var (v', q) := CommittedVec(d.vec, vecOk);
      (Device(nv', v'), q.Done?)
  }

  /** The NV precondition, then the vector, then NV. */
  function RolledBackBoth(d: Device, slot: nat, vecOk: bool, landed: nat): (Device, bool)
    requires slot < MAX_SLOTS && Wellformed(d.nv)
  {
    if RollbackTarget(d.nv, slot).Err? then (d, false)
    else
      var (v', q) := RolledBack(d.vec, vecOk);
      if q.Failed? then (d.(vec := v'), false)
      else
        var plan := Ota.RollbackPlan(d.nv, slot);
        (Device(Carry(d.nv, plan.writes, landed), v'), Ota.Reported(plan, landed).Ok?)
  }

  class BankProvider {
    const slot: nat
    const id: string
    const nv: NvStore
    // absent where no boot vector is wired: NV is then the only authority
    const vector: Manager?

    constructor (slot: nat, id: string, nv: NvStore, vector: Manager?)
      ensures this.slot == slot && this.id == id && this.nv == nv && this.vector == vector
    {
      this.slot, this.id, this.nv, this.vector := slot, id, nv, vector;
    }

    ghost predicate Valid()
      reads this, nv, vector
    {
      slot < MAX_SLOTS && Wellformed(nv.nv) && (vector != null ==> vector.Coherent())
    }

    ghost function View(): Device
      requires vector != null
      reads this, nv, vector
    {
      Device(nv.nv, vector.View())
    }

    /** NV is out of reach of an activation, failed or not. */
    method Activate(bank: Bank, images: map<string, seq<byte>>, activatorOk: bool) returns (ok: bool)
      requires Valid()
      modifies vector
      ensures Valid()
      ensures vector != null ==>
                (vector.View(), ok)
                == Activated(old(vector.View()), id, Entry(bank, images), activatorOk, old(vector.landing) > 0)
      ensures vector == null ==> ok == activatorOk
    {
      if !activatorOk {
        return false;
      }
      if vector != null {
        vector.Stage(id, Entry(bank, images));
        var r := vector.Seal();
        return r.Done?;
      }
      ok := true;
    }

    method Commit() returns (ok: bool)
      requires Valid()
      modifies nv, vector
      ensures Wellformed(nv.nv) && (vector != null && old(vector.primary.Some?) ==> Valid())
      ensures vector != null ==>
                (View(), ok) == CommittedBoth(old(View()), slot, old(nv.landing), old(vector.landing) > 0)
      ensures vector == null ==>
                var plan := Ota.CommitPlan(old(nv.nv), slot);
                && nv.nv == Carry(old(nv.nv), plan.writes, old(nv.landing))
                && ok == (Ota.Reported(plan, old(nv.landing)) in {Ota.Ok(()), Ota.Err(Ota.AlreadyCommitted)})
    {
      var r := Ota.Commit(nv, slot);
      if r.Err? && r.error != Ota.AlreadyCommitted {
        return false;
      }
      if vector != null {
        var q := vector.Commit();
        return q.Done?;
      }
      ok := true;
    }

    method Rollback() returns (ok: bool)
      requires Valid()
      modifies nv, vector
      ensures Valid()
      ensures vector != null ==>
                (View(), ok) == RolledBackBoth(old(View()), slot, old(vector.landing) > 0, old(nv.landing))
      ensures vector == null ==>
                var plan := Ota.RollbackPlan(old(nv.nv), slot);
                && nv.nv == Carry(old(nv.nv), plan.writes, old(nv.landing))
                && ok == Ota.Reported(plan, old(nv.landing)).Ok?
    {
      var target := RollbackTarget(nv.nv, slot);
      if target.Err? {
        return false;
      }
      if vector != null {
        var q := vector.Rollback();
        if q.Failed? {
          return false;
        }
      }
      var r := Ota.Rollback(nv, slot);
      ok := r.Ok?;
    }
  }
}
