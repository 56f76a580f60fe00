// Data identifiers: the bounded runtime table of each bank and the cascade that
// resolves an identifier from it, from the factory record or from boot state.
module Did {
  import opened Base
  import opened Nv

  const DID_SUPPLIER_ID: nat := 0xF18A
  const DID_MANUFACTURING_DATE: nat := 0xF18B
  const DID_SERIAL_NUMBER: nat := 0xF18C
  const DID_VIN: nat := 0xF190
  const DID_ECU_HW_NUMBER: nat := 0xF191
  const DID_SUPPLIER_HW_NUMBER: nat := 0xF192
  const DID_SUPPLIER_HW_VERSION: nat := 0xF193
  const DID_ACTIVE_BANK: nat := 0xFD00
  const DID_MIN_SECURITY_VER: nat := 0xFD02
  const DID_CURRENT_SECURITY_VER: nat := 0xFD03

  datatype DidValue = Bytes(data: seq<byte>) | NotFound

  // ----------------------------------------------------------------------
  // The table
  // ----------------------------------------------------------------------

  /** The shape a decoded record has, with every length inside its field. */
  predicate TableShape(t: Runtime) {
    && t.didCount <= MAX_DIDS == |t.dids|
    && (forall i :: 0 <= i < MAX_DIDS ==> |t.dids[i].data| == DID_CAPACITY && t.dids[i].len <= DID_CAPACITY)
  }

  /** No identifier is listed twice. */
  predicate Distinct(t: Runtime)
    requires TableShape(t)
  {
    forall i, j :: 0 <= i < j < t.didCount ==> t.dids[i].did != t.dids[j].did
  }

  function EntryValue(e: DidEntry): seq<byte>
    requires e.len <= |e.data|
  {
    e.data[..e.len]
  }

  function ContentsUpTo(t: Runtime, n: nat): map<nat, seq<byte>>
    requires TableShape(t) && n <= t.didCount
  {
    if n == 0 then map[] else ContentsUpTo(t, n - 1)[t.dids[n - 1].did := EntryValue(t.dids[n - 1])]
  }

  /** The finite map a table stands for. */
  function Contents(t: Runtime): map<nat, seq<byte>>
    requires TableShape(t)
  {
    ContentsUpTo(t, t.didCount)
  }

  /** The value as stored: at most 32 octets are kept. */
  function Clipped(data: seq<byte>): (r: seq<byte>)
    ensures |r| <= DID_CAPACITY
  {
    data[..Min(|data|, DID_CAPACITY)]
  }

  function NewEntry(did: nat, data: seq<byte>): DidEntry {
    DidEntry(did, |Clipped(data)|, Clipped(data) + Zeros(DID_CAPACITY - |Clipped(data)|))
  }

  lemma {:induction false} ContentsKeys(t: Runtime, n: nat, did: nat)
    requires TableShape(t) && n <= t.didCount
    ensures did in ContentsUpTo(t, n) <==> exists i :: 0 <= i < n && t.dids[i].did == did
    decreases n
  {
    if n == 0 {
    } else {
      ContentsKeys(t, n - 1, did);
    }
  }

  lemma {:induction false} ContentsAt(t: Runtime, n: nat, i: nat)
    requires TableShape(t) && Distinct(t) && i < n <= t.didCount
    ensures t.dids[i].did in ContentsUpTo(t, n) && ContentsUpTo(t, n)[t.dids[i].did] == EntryValue(t.dids[i])
    decreases n
  {
    if i == n - 1 {
    } else {
      ContentsAt(t, n - 1, i);
    }
  }

  lemma {:induction false} ContentsSize(t: Runtime, n: nat)
    requires TableShape(t) && Distinct(t) && n <= t.didCount
    ensures |ContentsUpTo(t, n)| == n
    decreases n
  {
    if n == 0 {
    } else {
      ContentsSize(t, n - 1);
      ContentsKeys(t, n - 1, t.dids[n - 1].did);
    }
  }

  /** Entries below `n` decide the first `n` steps. */
  lemma {:induction false} ContentsFrame(t: Runtime, u: Runtime, n: nat)
    requires TableShape(t) && TableShape(u) && n <= t.didCount && n <= u.didCount
    requires forall i :: 0 <= i < n ==> t.dids[i] == u.dids[i]
    ensures ContentsUpTo(t, n) == ContentsUpTo(u, n)
    decreases n
  {
    if n == 0 {
    } else {
      ContentsFrame(t, u, n - 1);
    }
  }

  lemma {:induction false} ContentsAfterUpdate(t: Runtime, at: nat, e: DidEntry, n: nat)
    requires TableShape(t) && Distinct(t) && at < n <= t.didCount
    requires e.did == t.dids[at].did && |e.data| == DID_CAPACITY && e.len <= DID_CAPACITY
    ensures TableShape(t.(dids := t.dids[at := e]))
    ensures ContentsUpTo(t.(dids := t.dids[at := e]), n) == ContentsUpTo(t, n)[e.did := EntryValue(e)]
    decreases n
  {
    var u := t.(dids := t.dids[at := e]);
    if at < n - 1 {
      ContentsAfterUpdate(t, at, e, n - 1);
    } else {
      ContentsFrame(t, u, n - 1);
    }
  }

  // ----------------------------------------------------------------------
  // Updating the table
  // ----------------------------------------------------------------------

  /** The first listed position of an identifier at or after `i`, or the count. */
  function FirstAt(t: Runtime, did: nat, i: nat): (r: nat)
    requires TableShape(t) && i <= t.didCount
    ensures i <= r <= t.didCount
    ensures r < t.didCount ==> t.dids[r].did == did
    ensures forall j :: i <= j < r ==> t.dids[j].did != did
    decreases t.didCount - i
  {
    if i == t.didCount || t.dids[i].did == did then i else FirstAt(t, did, i + 1)
  }

  /** The table with the identifier updated in place or appended; `None` when there is no room. */
  function TableWrite(t: Runtime, did: nat, data: seq<byte>): Option<Runtime>
    requires TableShape(t)
  {
    var at := FirstAt(t, did, 0);
    if at < t.didCount then Some(t.(dids := t.dids[at := NewEntry(did, data)]))
    else if t.didCount >= MAX_DIDS then None
    else Some(t.(didCount := t.didCount + 1, dids := t.dids[t.didCount := NewEntry(did, data)]))
  }

  /**
   * The bounded table refines a finite map of capacity `MAX_DIDS`: a write is a map update
   * that keeps identifiers distinct, and is refused exactly when the map is full without it.
   */
  lemma TableRefinesMap(t: Runtime, did: nat, data: seq<byte>)
    requires TableShape(t) && Distinct(t)
    ensures TableWrite(t, did, data).None? <==> did !in Contents(t) && |Contents(t)| == MAX_DIDS
    ensures TableWrite(t, did, data).Some? ==>
              var u := TableWrite(t, did, data).value;
              TableShape(u) && Distinct(u) && Contents(u) == Contents(t)[did := Clipped(data)] && u.dtcs == t.dtcs
  {
    var e, at := NewEntry(did, data), FirstAt(t, did, 0);
    assert EntryValue(e) == Clipped(data);
    ContentsKeys(t, t.didCount, did);
    ContentsSize(t, t.didCount);
    if at < t.didCount {
      ContentsAfterUpdate(t, at, e, t.didCount);
      hide ContentsUpTo, Clipped;
    } else if t.didCount < MAX_DIDS {
      var u := t.(didCount := t.didCount + 1, dids := t.dids[t.didCount := e]);
      ContentsFrame(t, u, t.didCount);
      assert Contents(u) == Contents(t)[did := Clipped(data)];
      hide ContentsUpTo, Clipped;
    }
  }

  /** Searching the table from the front finds the map's value. */
  lemma LookupRefinesMap(t: Runtime, did: nat)
    requires TableShape(t) && Distinct(t)
    ensures FirstAt(t, did, 0) < t.didCount <==> did in Contents(t)
    ensures did in Contents(t) ==> EntryValue(t.dids[FirstAt(t, did, 0)]) == Contents(t)[did]
  {
    ContentsKeys(t, t.didCount, did);
    if FirstAt(t, did, 0) < t.didCount {
      ContentsAt(t, t.didCount, FirstAt(t, did, 0));
    }
  }

  // ----------------------------------------------------------------------
  // Identifiers in a store
  // ----------------------------------------------------------------------

  /** Every runtime record in the store is a table of distinct identifiers. */
  ghost predicate TablesValid(nv: Store) {
    forall k :: k in nv.runtime ==> TableShape(nv.runtime[k]) && Distinct(nv.runtime[k])
  }

  function RuntimeOrEmpty(nv: Store, slot: nat, bank: Bank): Runtime {
    match ReadRuntime(nv, slot, bank)
    case Some(r) => r
    case None => EmptyRuntime()
  }

  /** The runtime identifiers of one bank, as a map. */
  ghost function RuntimeDids(nv: Store, slot: nat, bank: Bank): map<nat, seq<byte>>
    requires TablesValid(nv)
  {
    Contents(RuntimeOrEmpty(nv, slot, bank))
  }

  function FactoryDid(f: Factory, did: nat): Option<seq<byte>> {
    if did == DID_SUPPLIER_ID then Some(f.supplierId)
    else if did == DID_MANUFACTURING_DATE then Some(f.manufacturingDate)
    else if did == DID_SERIAL_NUMBER then Some(f.serialNumber)
    else if did == DID_VIN then Some(f.vin)
    else if did == DID_ECU_HW_NUMBER then Some(f.ecuHwNumber)
    else if did == DID_SUPPLIER_HW_NUMBER then Some(f.supplierHwNumber)
    else if did == DID_SUPPLIER_HW_VERSION then Some(f.supplierHwVersion)
    else None
  }

  /** What an identifier the runtime table does not hold resolves to. */
  function StaticDid(nv: Store, slot: nat, bank: Bank, did: nat): DidValue {
    if nv.factory.Some? && FactoryDid(nv.factory.value, did).Some? then
      Bytes(FactoryDid(nv.factory.value, did).value)
    else if did == DID_ACTIVE_BANK then Bytes([if bank == A then 0x41 else 0x42])
    else if did == DID_MIN_SECURITY_VER || did == DID_CURRENT_SECURITY_VER then
      match ReadMeta(nv, slot, bank)
      case Some(m) => Bytes(LeBytes(if did == DID_MIN_SECURITY_VER then m.minSecurityVer else m.fwSecver, 4))
      case None => Bytes(LeBytes(0, 4))
    else NotFound
  }

  /** The bank a read resolves against: the running one if known, else the NV active bank. */
  function ReadingBank(nv: Store, slot: nat, running: Option<Bank>): Option<Bank>
    requires slot < MAX_SLOTS && Wellformed(nv)
  {
    if nv.boot.None? then None
    else if running.Some? then running
    else Some(ReadBoot(nv).value[slot].active)
  }

  /** What reading an identifier must give. */
  ghost function Resolved(nv: Store, slot: nat, did: nat, running: Option<Bank>): DidValue
    requires slot < MAX_SLOTS && Wellformed(nv) && TablesValid(nv)
  {
    match ReadingBank(nv, slot, running)
    case None => NotFound
    case Some(bank) =>
      if did in RuntimeDids(nv, slot, bank) then Bytes(RuntimeDids(nv, slot, bank)[did])
      else StaticDid(nv, slot, bank, did)
  }

  method ReadDid(nv: Store, slot: nat, did: nat, running: Option<Bank>) returns (r: DidValue)
    requires slot < MAX_SLOTS && Wellformed(nv) && TablesValid(nv)
    ensures r == Resolved(nv, slot, did, running)
  {
    var state := ReadBoot(nv);
    if state.None? {
      return NotFound;
    }
    var active := if running.Some? then running.value else state.value[slot].active;
    var runtime := ReadRuntime(nv, slot, active);
    LookupRefinesMap(RuntimeOrEmpty(nv, slot, active), did);
    if runtime.Some? {
      for i := 0 to runtime.value.didCount
        invariant forall j :: 0 <= j < i ==> runtime.value.dids[j].did != did
      {
        if runtime.value.dids[i].did == did {
          return Bytes(runtime.value.dids[i].data[..runtime.value.dids[i].len]);
        }
      }
    }
    r := StaticDid(nv, slot, active, did);
  }

  /** The table a write goes to: the NV active bank's, or an empty one. */
  function ActiveTable(nv: Store, slot: nat): Runtime
    requires slot < MAX_SLOTS && Wellformed(nv)
  {
    if nv.boot.None? then EmptyRuntime() else RuntimeOrEmpty(nv, slot, ReadBoot(nv).value[slot].active)
  }

  /** `None` is an NV error; `Some(false)` a refusal. */
  function WriteDidPlan(nv: Store, slot: nat, did: nat, data: seq<byte>): Plan<Option<bool>>
    requires slot < MAX_SLOTS && Wellformed(nv) && TableShape(ActiveTable(nv, slot))
  {
    if ReadBoot(nv).None? then Plan([], Some(false))
    else
      match TableWrite(ActiveTable(nv, slot), did, data)
      case None => Plan([], Some(false))
      case Some(t) =>
        if slot >= nv.slotCount then Plan([], None)
        else Plan([PutRuntime(slot, ReadBoot(nv).value[slot].active, t)], Some(true))
  }

  method WriteDid(store: NvStore, slot: nat, did: nat, data: seq<byte>) returns (r: Option<bool>)
    requires slot < MAX_SLOTS && Wellformed(store.nv) && TablesValid(store.nv)
    modifies store
    ensures Wellformed(store.nv)
    ensures store.nv == Carry(old(store.nv), WriteDidPlan(old(store.nv), slot, did, data).writes, old(store.landing))
    ensures r == Landed(WriteDidPlan(old(store.nv), slot, did, data), old(store.landing), None)
  {
    ghost var nv0, plan := store.nv, WriteDidPlan(store.nv, slot, did, data);
    var state := ReadBoot(store.nv);
    if state.None? {
      return Some(false);
    }
    var active := state.value[slot].active;
    var t := RuntimeOrEmpty(store.nv, slot, active);
    var e := NewEntry(did, data);
    for i := 0 to t.didCount
      invariant store.nv == nv0 && store.landing == old(store.landing)
      invariant forall j :: 0 <= j < i ==> t.dids[j].did != did
    {
      if t.dids[i].did == did {
        assert FirstAt(t, did, 0) == i;
        if |plan.writes| > 0 {
          OneMore(nv0, plan.writes, 0);
        }
        var ok := store.Put(PutRuntime(slot, active, t.(dids := t.dids[i := e])));
        return if ok then Some(true) else None;
      }
    }
    if t.didCount >= MAX_DIDS {
      return Some(false);
    }
    if |plan.writes| > 0 {
      OneMore(nv0, plan.writes, 0);
    }
    var ok := store.Put(PutRuntime(slot, active, t.(didCount := t.didCount + 1, dids := t.dids[t.didCount := e])));
    r := if ok then Some(true) else None;
  }

  function PutTable(nv: Store, slot: nat, bank: Bank, t: Runtime): Store {
    nv.(runtime := nv.runtime[(slot, bank) := t])
  }

  lemma PutKeepsTables(nv: Store, slot: nat, bank: Bank, t: Runtime)
    requires TablesValid(nv) && TableShape(t) && Distinct(t)
    ensures TablesValid(PutTable(nv, slot, bank, t))
  {
    hide TableShape, Distinct;
  }

  lemma StaticDidDependsOn(nv: Store, nv': Store, slot: nat, bank: Bank, did: nat)
    requires nv.factory == nv'.factory && ReadMeta(nv, slot, bank) == ReadMeta(nv', slot, bank)
    ensures StaticDid(nv, slot, bank, did) == StaticDid(nv', slot, bank, did)
  {
  }

  /** Replacing one table changes only what is read from that slot's bank. */
  lemma ResolveAfterPut(nv: Store, slot: nat, bank: Bank, t: Runtime, s: nat, d: nat, running: Option<Bank>)
    requires slot < nv.slotCount && s < MAX_SLOTS && Wellformed(nv) && TablesValid(nv)
    requires TableShape(t) && Distinct(t)
    ensures Wellformed(PutTable(nv, slot, bank, t)) && TablesValid(PutTable(nv, slot, bank, t))
    ensures Resolved(PutTable(nv, slot, bank, t), s, d, running) ==
            if s == slot && ReadingBank(nv, s, running) == Some(bank)
            then (if d in Contents(t) then Bytes(Contents(t)[d]) else StaticDid(nv, s, bank, d))
            else Resolved(nv, s, d, running)
  {
    hide Contents, TablesValid, ReadBoot, StaticDid;
    PutKeepsTables(nv, slot, bank, t);
    var nv' := PutTable(nv, slot, bank, t);
    SameBootRecord(nv, nv');
    if ReadingBank(nv, s, running).Some? {
      StaticDidDependsOn(nv, nv', s, ReadingBank(nv, s, running).value, d);
    }
  }

  lemma WriteIsPutTable(nv: Store, slot: nat, did: nat, data: seq<byte>)
    requires slot < MAX_SLOTS && Wellformed(nv) && TableShape(ActiveTable(nv, slot))
    requires WriteDidPlan(nv, slot, did, data).result == Some(true)
    ensures nv.boot.Some? && slot < nv.slotCount && TableWrite(ActiveTable(nv, slot), did, data).Some?
    ensures ApplyAll(nv, WriteDidPlan(nv, slot, did, data).writes) ==
            PutTable(nv, slot, ReadBoot(nv).value[slot].active, TableWrite(ActiveTable(nv, slot), did, data).value)
  {
    hide TableWrite;
    var plan := WriteDidPlan(nv, slot, did, data);
    OneMore(nv, plan.writes, 0);
    assert plan.writes[..1] == plan.writes;
  }

  /**
   * After a successful write the identifier reads back, from the bank it was written to, as
   * its first 32 octets; every other read (another identifier, slot or bank; runtime,
   * factory or dynamic) gives what it gave before.
   */
  lemma WriteThenRead(nv: Store, slot: nat, did: nat, data: seq<byte>, s: nat, d: nat, running: Option<Bank>)
    requires slot < MAX_SLOTS && s < MAX_SLOTS && Wellformed(nv) && TablesValid(nv)
    requires WriteDidPlan(nv, slot, did, data).result == Some(true)
    ensures var nv' := ApplyAll(nv, WriteDidPlan(nv, slot, did, data).writes);
            && Wellformed(nv') && TablesValid(nv')
            && Resolved(nv', s, d, running) ==
               if s == slot && d == did && ReadingBank(nv, s, running) == ReadingBank(nv, slot, None)
               then Bytes(Clipped(data)) else Resolved(nv, s, d, running)
  {
    WriteIsPutTable(nv, slot, did, data);
    var bank := ReadBoot(nv).value[slot].active;
    TableRefinesMap(ActiveTable(nv, slot), did, data);
    var t := TableWrite(ActiveTable(nv, slot), did, data).value;
    hide TableWrite, WriteDidPlan, ApplyAll, Contents, Distinct, TableShape, Clipped, StaticDid;
    ResolveAfterPut(nv, slot, bank, t, s, d, running);
  }
}
