// The boot manager's NV path: trial counting, automatic rollback, hash rollback.
module Boot {
  import opened Base
  import opened Nv

  datatype BootAction =
    | NormalBoot(bank: Bank)
    | TrialBoot(bank: Bank, bootCount: nat)
    | AutoRollback(from: Bank, to: Bank)
    | HashRollback(from: Bank, to: Bank)
    | HashFatal(bank: Bank)
    | FirstBoot

  /** One boot of one slot: its new state and what is reported. The counter is one octet wide. */
  function BootSlot(b: BankBoot): (BankBoot, BootAction) {
    if b.committed then (b, NormalBoot(b.active))
    else
      var count := (b.bootCount + 1) % 256;
      if count > MAX_TRIAL_BOOTS
      then (BankBoot(b.active.Other(), true, 0), AutoRollback(b.active, b.active.Other()))
      else (b.(bootCount := count), TrialBoot(b.active, count))
  }

  /** All slots the store has, booted once; the rest of the record untouched. */
  function BootedBanks(nv: Store, banks: seq<BankBoot>): (r: seq<BankBoot>)
    ensures |r| == |banks|
  {
    seq(|banks|, i requires 0 <= i < |banks| => if i < nv.slotCount then BootSlot(banks[i]).0 else banks[i])
  }

  function BootActions(nv: Store, banks: seq<BankBoot>): (r: seq<BootAction>)
    requires nv.slotCount <= |banks|
    ensures |r| == nv.slotCount
  {
    seq(nv.slotCount, i requires 0 <= i < nv.slotCount => BootSlot(banks[i]).1)
  }

  predicate AnyTrial(nv: Store, banks: seq<BankBoot>)
    requires nv.slotCount <= |banks|
  {
    exists i :: 0 <= i < nv.slotCount && !banks[i].committed
  }

  /** `None` is an NV error. */
  function BootPlan(nv: Store): Plan<Option<seq<BootAction>>>
    requires Wellformed(nv)
  {
    match ReadBoot(nv)
    case None => Plan([PutBoot(seq(MAX_SLOTS, _ => DEFAULT_BOOT))], Some(seq(nv.slotCount, _ => FirstBoot)))
    case Some(banks) =>
      Plan(if AnyTrial(nv, banks) then [PutBoot(BootedBanks(nv, banks))] else [],
           Some(BootActions(nv, banks)))
  }

  function HashFailurePlan(nv: Store, slot: nat): Plan<Option<BootAction>>
    requires slot < MAX_SLOTS && Wellformed(nv)
  {
    match ReadBoot(nv)
    case None => Plan([], Some(FirstBoot))
    case Some(banks) =>
      var b := banks[slot];
      if b.committed then Plan([], Some(HashFatal(b.active)))
      else Plan([PutBoot(banks[slot := BankBoot(b.active.Other(), true, 0)])],
                Some(HashRollback(b.active, b.active.Other())))
  }

  method ProcessBoot(store: NvStore) returns (r: Option<seq<BootAction>>)
    requires Wellformed(store.nv)
    modifies store
    ensures Wellformed(store.nv)
    ensures store.nv == Carry(old(store.nv), BootPlan(old(store.nv)).writes, old(store.landing))
    ensures r == Landed(BootPlan(old(store.nv)), old(store.landing), None)
  {
    ghost var nv0, plan := store.nv, BootPlan(store.nv);
    var slots := store.nv.slotCount;
    var state := ReadBoot(store.nv);
    if state.None? {
      OneMore(nv0, plan.writes, 0);
      var ok := store.Put(PutBoot(seq(MAX_SLOTS, _ => DEFAULT_BOOT)));
      return if ok then Some(seq(slots, _ => FirstBoot)) else None;
    }
    var banks := state.value;
    var actions := seq(slots, _ => FirstBoot);
    var changed := false;
    for i := 0 to slots
      invariant |banks| == MAX_SLOTS && |actions| == slots
      invariant forall j :: 0 <= j < i ==> banks[j] == BootSlot(state.value[j]).0 && actions[j] == BootSlot(state.value[j]).1
      invariant forall j :: i <= j < MAX_SLOTS ==> banks[j] == state.value[j]
      invariant changed <==> exists j :: 0 <= j < i && !state.value[j].committed
    {
      var b := banks[i];
      if b.committed {
        actions := actions[i := NormalBoot(b.active)];
      } else {
        b := b.(bootCount := (b.bootCount + 1) % 256);
        changed := true;
        if b.bootCount > MAX_TRIAL_BOOTS {
          actions := actions[i := AutoRollback(b.active, b.active.Other())];
          b := BankBoot(b.active.Other(), true, 0);
        } else {
          actions := actions[i := TrialBoot(b.active, b.bootCount)];
        }
        banks := banks[i := b];
      }
    }
    assert banks == BootedBanks(nv0, state.value);
    assert actions == BootActions(nv0, state.value);
    if changed {
      OneMore(nv0, plan.writes, 0);
      var ok := store.Put(PutBoot(banks));
      if !ok {
        return None;
      }
    }
    r := Some(actions);
  }

  method HandleHashFailure(store: NvStore, slot: nat) returns (r: Option<BootAction>)
    requires slot < MAX_SLOTS && Wellformed(store.nv)
    modifies store
    ensures Wellformed(store.nv)
    ensures store.nv == Carry(old(store.nv), HashFailurePlan(old(store.nv), slot).writes, old(store.landing))
    ensures r == Landed(HashFailurePlan(old(store.nv), slot), old(store.landing), None)
  {
    ghost var nv0, plan := store.nv, HashFailurePlan(store.nv, slot);
    var state := ReadBoot(store.nv);
    if state.None? {
      return Some(FirstBoot);
    }
    var from := state.value[slot].active;
    if state.value[slot].committed {
      return Some(HashFatal(from));
    }
    OneMore(nv0, plan.writes, 0);
    var ok := store.Put(PutBoot(state.value[slot := BankBoot(from.Other(), true, 0)]));
    r := if ok then Some(HashRollback(from, from.Other())) else None;
  }
}
