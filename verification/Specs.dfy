// Component specifications: what a whole set must satisfy before anything is built from it,
// and what that buys the components at run time.
module Specs {
  import opened Base
  import opened PartitionRouting
  import opened PartitionSeal

  datatype PartSpec = PartSpec(name: string, a: string, b: string) {
    function Devices(): set<string> {
      {a, b}
    }
  }

  datatype Spec = Spec(id: string, componentType: string, bankSet: Option<string>, slot: Option<nat>, parts: seq<PartSpec>)

  datatype SpecError =
    | EmptyName | SlashInName(name: string) | DuplicateName(name: string) | EmptyDevice(name: string)
    | SameDevice(name: string) | ReusedDevice(name: string, device: string)
    | UnknownType(id: string) | RetiredBankSet(id: string) | NoSlot(id: string) | SlotOutOfRange(id: string)
    | SharedSlot(id: string) | SharedDevice(id: string)

  // ----------------------------------------------------------------------
  // The rules, as properties of the whole list
  // ----------------------------------------------------------------------

  predicate WellFormedPart(p: PartSpec) {
    p.name != "" && '/' !in p.name && p.a != "" && p.b != "" && p.a != p.b
  }

  predicate Apart(p: PartSpec, q: PartSpec) {
    p.name != q.name && p.Devices() !! q.Devices()
  }

  /** Names and devices of one component: sound each, and no two parts share either. */
  predicate WellFormedParts(parts: seq<PartSpec>) {
    && (forall i :: 0 <= i < |parts| ==> WellFormedPart(parts[i]))
    && (forall i, j :: 0 <= i < j < |parts| ==> Apart(parts[i], parts[j]))
  }

  const TYPES: set<string> := {"app", "bank", "hpc", "hsm"}

  predicate WellFormedSpec(spec: Spec, slots: nat) {
    && WellFormedParts(spec.parts) && spec.componentType in TYPES
    && spec.bankSet.None? && spec.slot.Some? && spec.slot.value < slots
  }

  predicate NoCommonDevice(s: seq<PartSpec>, t: seq<PartSpec>) {
    forall i, j :: 0 <= i < |s| && 0 <= j < |t| ==> s[i].Devices() !! t[j].Devices()
  }

  /** No two components share a slot or a device. */
  predicate Disjoint(s: Spec, t: Spec) {
    s.slot != t.slot && NoCommonDevice(s.parts, t.parts)
  }

  predicate ValidSpecs(specs: seq<Spec>, slots: nat) {
    && (forall i :: 0 <= i < |specs| ==> WellFormedSpec(specs[i], slots))
    && (forall i, j :: 0 <= i < j < |specs| ==> Disjoint(specs[i], specs[j]))
  }

  // ----------------------------------------------------------------------
  // The checks
  // ----------------------------------------------------------------------

  function ResolveBankSet(spec: Spec): (r: (Option<SpecError>, nat))
    ensures r.0.None? <==> spec.bankSet.None? && spec.slot.Some?
    ensures r.0.None? ==> r.1 == spec.slot.value
  {
    if spec.bankSet.Some? then (Some(RetiredBankSet(spec.id)), 0)
    else if spec.slot.Some? then (None, spec.slot.value)
    else (Some(NoSlot(spec.id)), 0)
  }

  function NameList(parts: seq<PartSpec>): (r: seq<string>)
    ensures forall x :: x in r <==> exists j :: 0 <= j < |parts| && parts[j].name == x
  {
    if parts == [] then [] else NameList(parts[..|parts| - 1]) + [parts[|parts| - 1].name]
  }

  function DeviceList(parts: seq<PartSpec>): (r: seq<string>)
    ensures forall x :: x in r <==> exists j :: 0 <= j < |parts| && x in parts[j].Devices()
  {
    if parts == [] then [] else DeviceList(parts[..|parts| - 1]) + [parts[|parts| - 1].a, parts[|parts| - 1].b]
  }

  /** What one more part must satisfy. */
  predicate Extends(parts: seq<PartSpec>, p: PartSpec) {
    WellFormedPart(p) && p.name !in NameList(parts) && p.a !in DeviceList(parts) && p.b !in DeviceList(parts)
  }

  lemma OneMorePart(parts: seq<PartSpec>, i: nat)
    requires i < |parts|
    ensures WellFormedParts(parts[..i + 1]) <==> WellFormedParts(parts[..i]) && Extends(parts[..i], parts[i])
    ensures WellFormedParts(parts) ==> WellFormedParts(parts[..i + 1])
    ensures NameList(parts[..i + 1]) == NameList(parts[..i]) + [parts[i].name]
    ensures DeviceList(parts[..i + 1]) == DeviceList(parts[..i]) + [parts[i].a, parts[i].b]
  {
    hide WellFormedPart;
    var before, p := parts[..i], parts[i];
    assert parts[..i + 1] == before + [p] && parts[..i + 1][..i] == before;
    if WellFormedParts(before + [p]) {
      assert (before + [p])[i] == p;
      forall j | 0 <= j < i ensures before[j] == (before + [p])[j] && WellFormedPart(before[j]) && Apart(before[j], p) {
      }
      assert forall j, k :: 0 <= j < k < i ==> Apart((before + [p])[j], (before + [p])[k]);
    }
  }

  lemma EmptyIsWellFormed()
    ensures WellFormedParts([]) && NameList([]) == [] && DeviceList([]) == []
  {
  }

  method ValidateParts(spec: Spec) returns (r: Option<SpecError>)
    ensures r.None? <==> WellFormedParts(spec.parts)
  {
    hide WellFormedParts, NameList, DeviceList;
    var names: seq<string>, devices: seq<string> := [], [];
    assert spec.parts[..0] == [];
    EmptyIsWellFormed();
    for i := 0 to |spec.parts|
      invariant WellFormedParts(spec.parts[..i])
      invariant names == NameList(spec.parts[..i]) && devices == DeviceList(spec.parts[..i])
    {
      var part := spec.parts[i];
      OneMorePart(spec.parts, i);
      if part.name == "" {
        return Some(EmptyName);
      }
      if '/' in part.name {
        return Some(SlashInName(part.name));
      }
      if part.name in names {
        return Some(DuplicateName(part.name));
      }
      names := names + [part.name];
      if part.a == "" || part.b == "" {
        return Some(EmptyDevice(part.name));
      }
      if part.a == part.b {
        return Some(SameDevice(part.name));
      }
      if part.a in devices {
        return Some(ReusedDevice(part.name, part.a));
      }
      if part.b in devices + [part.a] {
        return Some(ReusedDevice(part.name, part.b));
      }
      devices := devices + [part.a, part.b];
    }
    assert spec.parts[..|spec.parts|] == spec.parts;
    r := None;
  }

  // ----------------------------------------------------------------------
  // The whole set
  // ----------------------------------------------------------------------

  function SlotList(specs: seq<Spec>): (r: seq<Option<nat>>)
    ensures forall x :: x in r <==> exists j :: 0 <= j < |specs| && specs[j].slot == x
  {
    if specs == [] then [] else SlotList(specs[..|specs| - 1]) + [specs[|specs| - 1].slot]
  }

  function AllDevices(specs: seq<Spec>): (r: seq<string>)
    ensures forall x :: x in r <==> exists j :: 0 <= j < |specs| && x in DeviceList(specs[j].parts)
  {
    if specs == [] then [] else AllDevices(specs[..|specs| - 1]) + DeviceList(specs[|specs| - 1].parts)
  }

  /** What one more component must satisfy. */
  ghost predicate Admits(specs: seq<Spec>, t: Spec, slots: nat) {
    && WellFormedSpec(t, slots) && t.slot !in SlotList(specs)
    && forall d :: d in DeviceList(t.parts) ==> d !in AllDevices(specs)
  }

  lemma CommonDevice(s: seq<PartSpec>, t: seq<PartSpec>)
    ensures NoCommonDevice(s, t) <==> forall d :: d in DeviceList(s) ==> d !in DeviceList(t)
  {
    hide DeviceList;
    if NoCommonDevice(s, t) {
      forall d | d in DeviceList(s) ensures d !in DeviceList(t) {
        var i :| 0 <= i < |s| && d in s[i].Devices();
        assert forall j :: 0 <= j < |t| ==> s[i].Devices() !! t[j].Devices();
      }
    } else {
      var i, j :| 0 <= i < |s| && 0 <= j < |t| && !(s[i].Devices() !! t[j].Devices());
      var d :| d in s[i].Devices() && d in t[j].Devices();
      assert d in DeviceList(s) && d in DeviceList(t);
    }
  }

  lemma DisjointFromAll(specs: seq<Spec>, t: Spec)
    ensures (forall j :: 0 <= j < |specs| ==> Disjoint(specs[j], t))
            <==> t.slot !in SlotList(specs) && forall d :: d in DeviceList(t.parts) ==> d !in AllDevices(specs)
  {
    forall j | 0 <= j < |specs|
      ensures Disjoint(specs[j], t) <==>
              specs[j].slot != t.slot && forall d :: d in DeviceList(specs[j].parts) ==> d !in DeviceList(t.parts)
    {
      CommonDevice(specs[j].parts, t.parts);
    }
    hide Disjoint, DeviceList, SlotList, AllDevices;
    if t.slot !in SlotList(specs) && forall d :: d in DeviceList(t.parts) ==> d !in AllDevices(specs) {
      forall j | 0 <= j < |specs| ensures Disjoint(specs[j], t) {
        assert forall d :: d in DeviceList(specs[j].parts) ==> d in AllDevices(specs);
      }
    }
  }

  lemma ValidExtended(before: seq<Spec>, t: Spec, slots: nat)
    ensures ValidSpecs(before + [t], slots)
            <==> ValidSpecs(before, slots) && WellFormedSpec(t, slots)
                 && forall j :: 0 <= j < |before| ==> Disjoint(before[j], t)
  {
    hide WellFormedSpec, Disjoint;
    var after, n := before + [t], |before|;
    assert after[n] == t && forall j :: 0 <= j < n ==> after[j] == before[j];
    if ValidSpecs(after, slots) {
      assert forall j :: 0 <= j < n ==> WellFormedSpec(after[j], slots) && Disjoint(after[j], after[n]);
      assert forall j, k :: 0 <= j < k < n ==> Disjoint(after[j], after[k]);
    }
  }

  lemma OneMoreSpec(specs: seq<Spec>, i: nat, slots: nat)
    requires i < |specs|
    ensures ValidSpecs(specs[..i + 1], slots) <==> ValidSpecs(specs[..i], slots) && Admits(specs[..i], specs[i], slots)
    ensures SlotList(specs[..i + 1]) == SlotList(specs[..i]) + [specs[i].slot]
    ensures AllDevices(specs[..i + 1]) == AllDevices(specs[..i]) + DeviceList(specs[i].parts)
  {
    assert specs[..i + 1] == specs[..i] + [specs[i]] && specs[..i + 1][..i] == specs[..i];
    ValidExtended(specs[..i], specs[i], slots);
    DisjointFromAll(specs[..i], specs[i]);
    hide ValidSpecs, WellFormedSpec, Disjoint, DeviceList;
  }

  lemma ValidPrefix(specs: seq<Spec>, i: nat, slots: nat)
    requires i <= |specs| && ValidSpecs(specs, slots)
    ensures ValidSpecs(specs[..i], slots)
  {
    hide WellFormedSpec, Disjoint;
  }

  lemma ValidPartsPrefix(parts: seq<PartSpec>, i: nat)
    requires i <= |parts| && WellFormedParts(parts)
    ensures WellFormedParts(parts[..i])
  {
    hide WellFormedPart, Apart;
  }

  /** The first part of a component that names a device already claimed. */
  method ClaimDevices(owned: seq<string>, parts: seq<PartSpec>) returns (clash: bool, all: seq<string>)
    requires WellFormedParts(parts)
    ensures clash <==> exists d :: d in DeviceList(parts) && d in owned
    ensures !clash ==> all == owned + DeviceList(parts)
  {
    all := owned;
    for j := 0 to |parts|
      invariant all == owned + DeviceList(parts[..j])
      invariant forall d :: d in DeviceList(parts[..j]) ==> d !in owned
    {
      OneMorePart(parts, j);
      ValidPartsPrefix(parts, j + 1);
      hide WellFormedParts, NameList, DeviceList;
      var part := parts[j];
      if part.a in all {
        assert part.a in part.Devices();
        return true, all;
      }
      all := all + [part.a];
      if part.b in all {
        assert part.b in part.Devices();
        return true, all;
      }
      all := all + [part.b];
    }
    assert parts[..|parts|] == parts;
    clash := false;
  }

  lemma NoSpecs(slots: nat)
    ensures ValidSpecs([], slots) && SlotList([]) == [] && AllDevices([]) == []
  {
  }

  method ValidateSpecs(specs: seq<Spec>, slots: nat) returns (r: Option<SpecError>)
    ensures r.None? <==> ValidSpecs(specs, slots)
  {
    hide ValidSpecs, WellFormedParts, SlotList, AllDevices, DeviceList;
    var slotOwners: seq<Option<nat>>, devices: seq<string> := [], [];
    NoSpecs(slots);
    assert specs[..0] == [];
    for i := 0 to |specs|
      invariant ValidSpecs(specs[..i], slots)
      invariant slotOwners == SlotList(specs[..i]) && devices == AllDevices(specs[..i])
    {
      var spec := specs[i];
      OneMoreSpec(specs, i, slots);
      if ValidSpecs(specs, slots) {
        ValidPrefix(specs, i + 1, slots);
      }
      var e := ValidateParts(spec);
      if e.Some? {
        return e;
      }
      if spec.componentType !in TYPES {
        return Some(UnknownType(spec.id));
      }
      var resolved := ResolveBankSet(spec);
      if resolved.0.Some? {
        return resolved.0;
      }
      if resolved.1 >= slots {
        return Some(SlotOutOfRange(spec.id));
      }
      if Some(resolved.1) in slotOwners {
        return Some(SharedSlot(spec.id));
      }
      slotOwners := slotOwners + [Some(resolved.1)];
      var clash, all := ClaimDevices(devices, spec.parts);
      if clash {
        return Some(SharedDevice(spec.id));
      }
      devices := all;
    }
    assert specs[..|specs|] == specs;
    r := None;
  }

  // ----------------------------------------------------------------------
  // What a valid set buys
  // ----------------------------------------------------------------------

  /** The checks made on one component when it is built, against the open store's slots. */
  predicate Buildable(spec: Spec, slotCount: nat) {
    && WellFormedParts(spec.parts) && ResolveBankSet(spec).0.None? && ResolveBankSet(spec).1 < slotCount
    && spec.componentType in TYPES
  }

  /** A valid set builds on every store with at least its slots. */
  lemma ValidSetBuilds(specs: seq<Spec>, slots: nat, slotCount: nat, i: nat)
    requires ValidSpecs(specs, slots) && slots <= slotCount && i < |specs|
    ensures Buildable(specs[i], slotCount)
  {
    assert WellFormedSpec(specs[i], slots);
  }

  /** The part map a component is built with. */
  function PartMap(spec: Spec): (r: seq<Part>)
    ensures |r| == |spec.parts|
  {
    seq(|spec.parts|, j requires 0 <= j < |spec.parts| =>
      Part(spec.parts[j].name, spec.parts[j].a, spec.parts[j].b, false))
  }

  /** The device a payload is written to; a name outside the map is refused. */
  function Sink(parts: seq<Part>, bank: Bank, name: string): Option<string> {
    var at := FindPart(parts, name);
    if at < |parts| then Some(parts[at].Device(bank)) else None
  }

  function Wrote(devices: map<string, seq<byte>>, parts: seq<Part>, bank: Bank, name: string, data: seq<byte>):
    map<string, seq<byte>>
  {
    match Sink(parts, bank, name)
    case None => devices
    case Some(device) => devices[device := data]
  }

  /** In a valid set every part of every bank of every component has a sink of its own. */
  lemma SinksAreDistinct(specs: seq<Spec>, slots: nat, i: nat, bank: Bank, name: string, k: nat, bank': Bank, name': string)
    requires ValidSpecs(specs, slots) && i < |specs| && k < |specs| && (i, bank, name) != (k, bank', name')
    requires Sink(PartMap(specs[i]), bank, name).Some? && Sink(PartMap(specs[k]), bank', name').Some?
    ensures Sink(PartMap(specs[i]), bank, name) != Sink(PartMap(specs[k]), bank', name')
  {
    var p, q := FindPart(PartMap(specs[i]), name), FindPart(PartMap(specs[k]), name');
    var parts, parts' := specs[i].parts, specs[k].parts;
    assert Sink(PartMap(specs[i]), bank, name).value in parts[p].Devices();
    assert Sink(PartMap(specs[k]), bank', name').value in parts'[q].Devices();
    if i < k {
      assert Disjoint(specs[i], specs[k]);
    } else if k < i {
      assert Disjoint(specs[k], specs[i]);
      assert parts'[q].Devices() !! parts[p].Devices();
    } else {
      assert WellFormedSpec(specs[i], slots) && WellFormedPart(parts[p]);
      if p < q {
        assert Apart(parts[p], parts[q]);
      } else if q < p {
        assert Apart(parts[q], parts[p]);
      }
    }
  }

  /** Writing a payload changes no other part, bank or component. */
  lemma WriteIsConfined(
    specs: seq<Spec>, slots: nat, devices: map<string, seq<byte>>, i: nat, bank: Bank, name: string, data: seq<byte>,
    k: nat, bank': Bank, name': string)
    requires ValidSpecs(specs, slots) && i < |specs| && k < |specs| && (i, bank, name) != (k, bank', name')
    requires Sink(PartMap(specs[k]), bank', name').Some?
    ensures var d, after := Sink(PartMap(specs[k]), bank', name').value, Wrote(devices, PartMap(specs[i]), bank, name, data);
            (d in after <==> d in devices) && (d in devices ==> after[d] == devices[d])
  {
    if Sink(PartMap(specs[i]), bank, name).Some? {
      SinksAreDistinct(specs, slots, i, bank, name, k, bank', name');
    }
  }
}
