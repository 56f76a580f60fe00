// The OTA flow over the NV store: install into the inactive bank, commit, rollback.
module Ota {
  import opened Base
  import opened Nv

  datatype OtaError =
    | InTrial
    | SecurityVersionTooLow(image: nat, floor: nat)
    | AlreadyCommitted
    | NotInTrial
    | NoBootState
    | NothingInstalled
    | NvError

  datatype Result<+T> = Ok(value: T) | Err(error: OtaError)

  /** The parts of an incoming image's metadata that reach NV, with its hash and CRC. */
  datatype Image = Image(fwSeq: nat, fwSecver: nat, sha: seq<byte>, crc: nat)

  datatype Installed = Installed(target: Bank, sha: seq<byte>, gen: nat)

  /** What a bank without metadata counts as. */
  function MetaOrZero(m: Option<FwMeta>): FwMeta {
    match m
    case Some(v) => v
    case None => FwMeta(0, 0, 0, [], 0, 0)
  }

  function NewMeta(image: Image, floor: nat, gen: nat): FwMeta {
    FwMeta(image.fwSeq, image.fwSecver, image.crc, image.sha, floor, gen)
  }

  function CopiedRuntime(nv: Store, slot: nat, from: Bank): Runtime {
    match ReadRuntime(nv, slot, from)
    case Some(r) => r
    case None => EmptyRuntime()
  }

  /** The checks of an install, in the order they are made. */
  function InstallRefusal(nv: Store, slot: nat, image: Image): Option<OtaError>
    requires slot < MAX_SLOTS && Wellformed(nv)
  {
    if ReadBoot(nv).None? then Some(NoBootState)
    else
      var b := ReadBoot(nv).value[slot];
      if !b.committed then Some(InTrial)
      else
        var current := ReadMeta(nv, slot, b.active);
        if current.Some? && image.fwSecver < current.value.minSecurityVer
        then Some(SecurityVersionTooLow(image.fwSecver, current.value.minSecurityVer))
        else if slot >= nv.slotCount then Some(NvError)
        else None
  }

  /**
   * A/B: runtime data is cloned to the target, then its metadata written under the active
   * bank's floor and the next generation, then the boot state moved to a trial of it.
   * Single bank: bank A is overwritten in place and stays committed.
   */
  function InstallPlan(nv: Store, slot: nat, image: Image, single: bool): Plan<Result<Installed>>
    requires slot < MAX_SLOTS && Wellformed(nv)
  {
    var refusal := InstallRefusal(nv, slot, image);
    if refusal.Some? then Plan([], Err(refusal.value))
    else
      var banks := ReadBoot(nv).value;
      var active := banks[slot].active;
      if single then
        var gen := MetaOrZero(ReadMeta(nv, slot, A)).gen + 1;
        Plan([PutMeta(slot, A, NewMeta(image, image.fwSecver, gen)),
              PutBoot(banks[slot := BankBoot(A, true, 0)])],
             Ok(Installed(A, image.sha, gen)))
      else
        var target := active.Other();
        var current := MetaOrZero(ReadMeta(nv, slot, active));
        Plan([PutRuntime(slot, target, CopiedRuntime(nv, slot, active)),
              PutMeta(slot, target, NewMeta(image, current.minSecurityVer, current.gen + 1)),
              PutBoot(banks[slot := BankBoot(target, false, 0)])],
             Ok(Installed(target, image.sha, current.gen + 1)))
  }

  function CommitPlan(nv: Store, slot: nat): Plan<Result<()>>
    requires slot < MAX_SLOTS && Wellformed(nv)
  {
    if ReadBoot(nv).None? then Plan([], Err(NoBootState))
    else
      var banks := ReadBoot(nv).value;
      if banks[slot].committed then Plan([], Err(AlreadyCommitted))
      else
        var active := banks[slot].active;
        var m := ReadMeta(nv, slot, active);
        var raise :=
          if m.Some? && m.value.fwSecver > m.value.minSecurityVer
          then [PutMeta(slot, active, m.value.(minSecurityVer := m.value.fwSecver))] else [];
        Plan(raise + [PutBoot(banks[slot := BankBoot(active, true, 0)])], Ok(()))
  }

  function RollbackPlan(nv: Store, slot: nat): Plan<Result<Bank>>
    requires slot < MAX_SLOTS && Wellformed(nv)
  {
    if ReadBoot(nv).None? then Plan([], Err(NoBootState))
    else
      var banks := ReadBoot(nv).value;
      if banks[slot].committed then Plan([], Err(NotInTrial))
      else
        var previous := banks[slot].active.Other();
        Plan([PutBoot(banks[slot := BankBoot(previous, true, 0)])], Ok(previous))
  }

  /**
   * A manifest that carries a security floor and no image: the floor of the bank the process
   * runs on is raised, if that bank has metadata and a lower floor; a trial refuses it.
   */
  function RaiseFloorPlan(nv: Store, slot: nat, running: Bank, secver: nat, single: bool): Plan<Result<()>>
    requires slot < MAX_SLOTS && Wellformed(nv)
  {
    if !single && ReadBoot(nv).Some? && !ReadBoot(nv).value[slot].committed then Plan([], Err(InTrial))
    else
      var m := ReadMeta(nv, slot, running);
      if m.Some? && secver > m.value.minSecurityVer
      then Plan([PutMeta(slot, running, m.value.(minSecurityVer := secver))], Ok(()))
      else Plan([], Ok(()))
  }

  /** Disabling a component moves the serving bank's generation up to that of its signed record. */
  function DisablePlan(nv: Store, slot: nat, serving: Bank, single: bool): Plan<Result<nat>>
    requires slot < MAX_SLOTS && Wellformed(nv)
  {
    if !single && ReadBoot(nv).None? then Plan([], Err(NoBootState))
    else if !single && !ReadBoot(nv).value[slot].committed then Plan([], Err(InTrial))
    else
      var m := ReadMeta(nv, slot, serving);
      if m.None? then Plan([], Err(NothingInstalled))
      else Plan([PutMeta(slot, serving, m.value.(gen := m.value.gen + 1))], Ok(m.value.gen + 1))
  }

  /** The result a caller sees when only `landed` writes land. */
  function Reported<T>(plan: Plan<Result<T>>, landed: nat): Result<T> {
    Landed(plan, landed, Err(NvError))
  }

  method Install(store: NvStore, slot: nat, image: Image, single: bool) returns (r: Result<Installed>)
    requires slot < MAX_SLOTS && Wellformed(store.nv)
    modifies store
    ensures store.nv == Carry(old(store.nv), InstallPlan(old(store.nv), slot, image, single).writes, old(store.landing))
    ensures r == Reported(InstallPlan(old(store.nv), slot, image, single), old(store.landing))
  {
    ghost var nv0, plan := store.nv, InstallPlan(store.nv, slot, image, single);
    var state := ReadBoot(store.nv);
    if state.None? {
      return Err(NoBootState);
    }
    if !state.value[slot].committed {
      return Err(InTrial);
    }
    var active := state.value[slot].active;
    var current := ReadMeta(store.nv, slot, active);
    if current.Some? && image.fwSecver < current.value.minSecurityVer {
      return Err(SecurityVersionTooLow(image.fwSecver, current.value.minSecurityVer));
    }
    if single {
      var gen := MetaOrZero(ReadMeta(store.nv, slot, A)).gen + 1;
      var ok := store.Put(PutMeta(slot, A, NewMeta(image, image.fwSecver, gen)));
      if !ok {
        return Err(NvError);
      }
      OneMore(nv0, plan.writes, 0);
      ok := store.Put(PutBoot(state.value[slot := BankBoot(A, true, 0)]));
      if !ok {
        return Err(NvError);
      }
      OneMore(nv0, plan.writes, 1);
      return Ok(Installed(A, image.sha, gen));
    }
    var target := active.Other();
    var ok := store.Put(PutRuntime(slot, target, CopiedRuntime(store.nv, slot, active)));
    if !ok {
      return Err(NvError);
    }
    OneMore(nv0, plan.writes, 0);
    var floor := MetaOrZero(ReadMeta(store.nv, slot, active)).minSecurityVer;
    var gen := MetaOrZero(ReadMeta(store.nv, slot, active)).gen + 1;
    ok := store.Put(PutMeta(slot, target, NewMeta(image, floor, gen)));
    if !ok {
      return Err(NvError);
    }
    OneMore(nv0, plan.writes, 1);
    ok := store.Put(PutBoot(state.value[slot := BankBoot(target, false, 0)]));
    if !ok {
      return Err(NvError);
    }
    OneMore(nv0, plan.writes, 2);
    r := Ok(Installed(target, image.sha, gen));
  }

  method Commit(store: NvStore, slot: nat) returns (r: Result<()>)
    requires slot < MAX_SLOTS && Wellformed(store.nv)
    modifies store
    ensures Wellformed(store.nv)
    ensures store.nv == Carry(old(store.nv), CommitPlan(old(store.nv), slot).writes, old(store.landing))
    ensures r == Reported(CommitPlan(old(store.nv), slot), old(store.landing))
  {
    ghost var nv0, plan := store.nv, CommitPlan(store.nv, slot);
    var state := ReadBoot(store.nv);
    if state.None? {
      return Err(NoBootState);
    }
    if state.value[slot].committed {
      return Err(AlreadyCommitted);
    }
    var active := state.value[slot].active;
    var meta := ReadMeta(store.nv, slot, active);
    if meta.Some? && meta.value.fwSecver > meta.value.minSecurityVer {
      var ok := store.Put(PutMeta(slot, active, meta.value.(minSecurityVer := meta.value.fwSecver)));
      if !ok {
        return Err(NvError);
      }
      OneMore(nv0, plan.writes, 0);
    }
    OneMore(nv0, plan.writes, |plan.writes| - 1);
    var ok := store.Put(PutBoot(state.value[slot := BankBoot(active, true, 0)]));
    r := if ok then Ok(()) else Err(NvError);
  }

  method Rollback(store: NvStore, slot: nat) returns (r: Result<Bank>)
    requires slot < MAX_SLOTS && Wellformed(store.nv)
    modifies store
    ensures Wellformed(store.nv)
    ensures store.nv == Carry(old(store.nv), RollbackPlan(old(store.nv), slot).writes, old(store.landing))
    ensures r == Reported(RollbackPlan(old(store.nv), slot), old(store.landing))
  {
    ghost var nv0, plan := store.nv, RollbackPlan(store.nv, slot);
    var state := ReadBoot(store.nv);
    if state.None? {
      return Err(NoBootState);
    }
    if state.value[slot].committed {
      return Err(NotInTrial);
    }
    var previous := state.value[slot].active.Other();
    OneMore(nv0, plan.writes, 0);
    var ok := store.Put(PutBoot(state.value[slot := BankBoot(previous, true, 0)]));
    r := if ok then Ok(previous) else Err(NvError);
  }

  method RaiseFloor(store: NvStore, slot: nat, running: Bank, secver: nat, single: bool) returns (r: Result<()>)
    requires slot < MAX_SLOTS && Wellformed(store.nv)
    modifies store
    ensures var plan := RaiseFloorPlan(old(store.nv), slot, running, secver, single);
            store.nv == Carry(old(store.nv), plan.writes, old(store.landing))
    ensures r == Reported(RaiseFloorPlan(old(store.nv), slot, running, secver, single), old(store.landing))
  {
    ghost var nv0, plan := store.nv, RaiseFloorPlan(store.nv, slot, running, secver, single);
    var state := ReadBoot(store.nv);
    if !single && state.Some? && !state.value[slot].committed {
      return Err(InTrial);
    }
    var meta := ReadMeta(store.nv, slot, running);
    if meta.None? || secver <= meta.value.minSecurityVer {
      return Ok(());
    }
    OneMore(nv0, plan.writes, 0);
    var ok := store.Put(PutMeta(slot, running, meta.value.(minSecurityVer := secver)));
    r := if ok then Ok(()) else Err(NvError);
  }

  method Disable(store: NvStore, slot: nat, serving: Bank, single: bool) returns (r: Result<nat>)
    requires slot < MAX_SLOTS && Wellformed(store.nv)
    modifies store
    ensures var plan := DisablePlan(old(store.nv), slot, serving, single);
            store.nv == Carry(old(store.nv), plan.writes, old(store.landing))
    ensures r == Reported(DisablePlan(old(store.nv), slot, serving, single), old(store.landing))
  {
    ghost var nv0, plan := store.nv, DisablePlan(store.nv, slot, serving, single);
    var state := ReadBoot(store.nv);
    if !single {
      if state.None? {
        return Err(NoBootState);
      }
      if !state.value[slot].committed {
        return Err(InTrial);
      }
    }
    var meta := ReadMeta(store.nv, slot, serving);
    if meta.None? {
      return Err(NothingInstalled);
    }
    OneMore(nv0, plan.writes, 0);
    var gen := meta.value.gen + 1;
    var ok := store.Put(PutMeta(slot, serving, meta.value.(gen := gen)));
    r := if ok then Ok(gen) else Err(NvError);
  }
}
