// The NV store: boot state for every slot, firmware metadata and runtime records per
// bank, and the order in which an operation writes them.
//
// Each record write is atomic. An operation is a plan: the writes it makes, in order,
// and the result it reports once all of them landed. A failing device and a power cut
// both leave a prefix of the plan behind.
module Nv {
  import opened Base
  import S = Sectors

  const MAX_SLOTS: nat := 64
  const MAX_TRIAL_BOOTS: nat := 10
  const MAX_DIDS: nat := 20
  const DID_CAPACITY: nat := 32

  /** One slot of the boot state. */
  datatype BankBoot = BankBoot(active: Bank, committed: bool, bootCount: nat)

  const DEFAULT_BOOT: BankBoot := BankBoot(A, true, 0)

  /** Firmware metadata of one bank. */
  datatype FwMeta = FwMeta(
    fwSeq: nat, fwSecver: nat, fwCrc: nat, imageSha: seq<byte>, minSecurityVer: nat, gen: nat)

  datatype DidEntry = DidEntry(did: nat, len: nat, data: seq<byte>)

  /** Runtime data of one bank: a bounded DID table and the fault memory. */
  datatype Runtime = Runtime(didCount: nat, dids: seq<DidEntry>, dtcs: seq<nat>)

  function EmptyRuntime(): Runtime {
    Runtime(0, seq(MAX_DIDS, _ => DidEntry(0, 0, Zeros(DID_CAPACITY))), [])
  }

  /** The write-once hardware identity. */
  datatype Factory = Factory(
    supplierId: seq<byte>, manufacturingDate: seq<byte>, serialNumber: seq<byte>, vin: seq<byte>,
    ecuHwNumber: seq<byte>, supplierHwNumber: seq<byte>, supplierHwVersion: seq<byte>)

  type Key = (nat, Bank)

  datatype Store = Store(
    slotCount: nat,
    boot: Option<seq<BankBoot>>,
    meta: map<Key, FwMeta>,
    runtime: map<Key, Runtime>,
    factory: Option<Factory>)

  /** What every store looks like: a boot record always carries one entry per possible slot. */
  predicate Wellformed(nv: Store) {
    nv.slotCount <= MAX_SLOTS && (nv.boot.Some? ==> |nv.boot.value| == MAX_SLOTS)
  }

  /** The boot record as read: entries past the store's own slots read as the default. */
  function ReadBoot(nv: Store): (r: Option<seq<BankBoot>>)
    ensures r.Some? <==> nv.boot.Some?
    ensures r.Some? ==> |r.value| == |nv.boot.value|
  {
    match nv.boot
    case None => None
    case Some(banks) =>
      Some(seq(|banks|, i requires 0 <= i < |banks| => if i < nv.slotCount then banks[i] else DEFAULT_BOOT))
  }

  lemma SameBootRecord(nv: Store, nv': Store)
    requires nv.boot == nv'.boot && nv.slotCount == nv'.slotCount
    ensures ReadBoot(nv) == ReadBoot(nv')
  {
    if nv.boot.Some? {
      assert ReadBoot(nv).value == ReadBoot(nv').value;
    }
  }

  function ReadMeta(nv: Store, slot: nat, bank: Bank): Option<FwMeta> {
    if slot < nv.slotCount && (slot, bank) in nv.meta then Some(nv.meta[(slot, bank)]) else None
  }

  function ReadRuntime(nv: Store, slot: nat, bank: Bank): Option<Runtime> {
    if slot < nv.slotCount && (slot, bank) in nv.runtime then Some(nv.runtime[(slot, bank)]) else None
  }

  datatype Write =
    | PutBoot(banks: seq<BankBoot>)
    | PutMeta(slot: nat, bank: Bank, meta: FwMeta)
    | PutRuntime(slot: nat, bank: Bank, runtime: Runtime)

  /** A write to a slot the store has no room for is refused. */
  predicate Addressable(nv: Store, w: Write) {
    w.PutBoot? || w.slot < nv.slotCount
  }

  function Apply(nv: Store, w: Write): Store {
    match w
    case PutBoot(banks) => nv.(boot := Some(banks))
    case PutMeta(slot, bank, m) => nv.(meta := nv.meta[(slot, bank) := m])
    case PutRuntime(slot, bank, r) => nv.(runtime := nv.runtime[(slot, bank) := r])
  }

  function ApplyAll(nv: Store, ws: seq<Write>): Store
    decreases |ws|
  {
    if ws == [] then nv else ApplyAll(Apply(nv, ws[0]), ws[1..])
  }

  /** One more write of a list landing is that write applied. */
  lemma OneMore(nv: Store, ws: seq<Write>, k: nat)
    requires k < |ws|
    ensures ApplyAll(nv, ws[..0]) == nv
    ensures ApplyAll(nv, ws[..k + 1]) == Apply(ApplyAll(nv, ws[..k]), ws[k])
    decreases k
  {
    if k == 0 {
      assert ws[..1][1..] == [];
    } else {
      OneMore(Apply(nv, ws[0]), ws[1..], k - 1);
      assert ws[..k][1..] == ws[1..][..k - 1] && ws[..k + 1][1..] == ws[1..][..k];
    }
  }

  /** The writes of an operation and what it reports when all of them landed. */
  datatype Plan<R> = Plan(writes: seq<Write>, result: R)

  /** What a caller sees when only `landed` writes land. */
  function Landed<R>(plan: Plan<R>, landed: nat, failure: R): R {
    if landed >= |plan.writes| then plan.result else failure
  }

  /** The store after the first `landed` writes of a plan, or all of them if there are fewer. */
  function Carry(nv: Store, ws: seq<Write>, landed: nat): Store {
    ApplyAll(nv, ws[..Min(landed, |ws|)])
  }

  /** The device: `landing` is how many more writes it will accept before it fails. */
  class NvStore {
    var nv: Store
    var landing: nat

    constructor (nv: Store, landing: nat)
      ensures this.nv == nv && this.landing == landing
    {
      this.nv := nv;
      this.landing := landing;
    }

    method Put(w: Write) returns (ok: bool)
      modifies this
      ensures ok <==> old(landing) > 0 && Addressable(old(nv), w)
      ensures ok ==> nv == Apply(old(nv), w) && landing == old(landing) - 1
      ensures !ok ==> nv == old(nv) && landing == old(landing)
    {
      ok := landing > 0 && (w.PutBoot? || w.slot < nv.slotCount);
      if ok {
        landing := landing - 1;
        match w
        case PutBoot(banks) => nv := nv.(boot := Some(banks));
        case PutMeta(slot, bank, m) => nv := nv.(meta := nv.meta[(slot, bank) := m]);
        case PutRuntime(slot, bank, r) => nv := nv.(runtime := nv.runtime[(slot, bank) := r]);
      }
    }
  }

  // ----------------------------------------------------------------------
  // Why one write lands whole or not at all
  // ----------------------------------------------------------------------

  /** The boot-record writes that were not cut. */
  function Whole(ws: seq<S.Attempt<seq<BankBoot>>>): seq<Write> {
    if ws == [] then []
    else if ws[0].debris.Some? then Whole(ws[1..])
    else [PutBoot(ws[0].rec)] + Whole(ws[1..])
  }

  lemma {:induction false} WholeApplied(nv: Store, ws: seq<S.Attempt<seq<BankBoot>>>)
    requires nv.boot.Some?
    ensures ApplyAll(nv, Whole(ws)).boot == Some(S.LastWhole(nv.boot.value, ws))
    decreases |ws|
  {
    if ws == [] {
    } else if ws[0].debris.Some? {
      WholeApplied(nv, ws[1..]);
    } else {
      var next := Apply(nv, PutBoot(ws[0].rec));
      WholeApplied(next, ws[1..]);
      assert Whole(ws)[1..] == Whole(ws[1..]);
      assert ApplyAll(nv, Whole(ws)) == ApplyAll(next, Whole(ws[1..]));
    }
  }

  /**
   * From a completed write on, the region of the boot record reads as the store in which every
   * completed write was applied and every cut one was not, while no more writes in a row are
   * cut than the region has spare sectors.
   */
  lemma RegionIsStore(nv: Store, s: seq<S.Sector<seq<BankBoot>>>, banks: seq<BankBoot>,
                      ws: seq<S.Attempt<seq<BankBoot>>>)
    requires s != [] && S.MaxSeq(s, |s|) < S.U32_MAX
    requires S.Bearable(S.Written(s, banks, None), ws, |s| - 1, |s| - 1)
    ensures S.Stored(S.Attempts(S.Written(s, banks, None), ws)) == ApplyAll(Apply(nv, PutBoot(banks)), Whole(ws)).boot
  {
    S.AtomicRegister(s, banks, ws);
    WholeApplied(Apply(nv, PutBoot(banks)), ws);
  }
}
