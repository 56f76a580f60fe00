// Sealing a raw-partition bank: the devices behind the parts an install declared are hashed
// back, each part's image record is told, and only then is the inventory signed.
module PartitionSeal {
  import opened Base
  import opened Names
  import opened PartitionRouting

  /** The first part of a name, or the length. */
  function FindPart(parts: seq<Part>, name: string, i: nat := 0): (r: nat)
    requires i <= |parts|
    ensures i <= r <= |parts| && (r < |parts| ==> parts[r].file == name)
    ensures forall j :: i <= j < r ==> parts[j].file != name
    decreases |parts| - i
  {
    if i == |parts| || parts[i].file == name then i else FindPart(parts, name, i + 1)
  }

  // ----------------------------------------------------------------------
  // The medium and the inventory
  // ----------------------------------------------------------------------

  /** The devices that exist, with what reading them gives, and the files beside the metadata. */
  datatype Medium = Medium(devices: map<string, Option<seq<byte>>>, files: set<string>)

  type Digest = seq<byte> -> seq<byte>

  datatype IvdFile = IvdFile(name: string, sha: seq<byte>, size: nat)

  datatype Hsm = Absent | ProbeFails | Unprovisioned | Provisioned

  datatype SealError =
    | NoParts | NoMetadataDir | UnknownPart(name: string) | NoDevice(name: string) | Residue(name: string)
    | Unreadable(name: string) | RecordRefused(name: string) | NoHsm | ProbeFailed | NoCrypto | SignFailed

  datatype Outcome = Signed | Skipped | Refused(error: SealError)

  /** A declared part that can be attested: mapped, its device present and readable, nothing
      staged as a file under its name. */
  predicate Attestable(parts: seq<Part>, bank: Bank, m: Medium, name: string) {
    var at := FindPart(parts, name);
    && at < |parts| && parts[at].Device(bank) in m.devices && m.devices[parts[at].Device(bank)].Some?
    && name !in m.files
  }

  function Attested(parts: seq<Part>, bank: Bank, m: Medium, digest: Digest, name: string): IvdFile
    requires Attestable(parts, bank, m, name)
  {
    var bytes := m.devices[parts[FindPart(parts, name)].Device(bank)].value;
    IvdFile(name, digest(bytes), |bytes|)
  }

  predicate HasRecord(parts: seq<Part>, name: string) {
    FindPart(parts, name) < |parts| && parts[FindPart(parts, name)].record
  }

  /** How many of these names have a record to tell. */
  function Tellable(parts: seq<Part>, names: seq<string>): (r: nat)
    ensures r <= |names|
  {
    if names == [] then 0
    else Tellable(parts, names[..|names| - 1]) + (if HasRecord(parts, names[|names| - 1]) then 1 else 0)
  }

  /** What the records of these names are told, in order. */
  function Told(parts: seq<Part>, bank: Bank, m: Medium, digest: Digest, names: seq<string>): (r: seq<IvdFile>)
    requires forall x :: x in names ==> Attestable(parts, bank, m, x)
    ensures |r| == Tellable(parts, names)
  {
    if names == [] then []
    else
      var n := |names| - 1;
      Told(parts, bank, m, digest, names[..n])
      + (if HasRecord(parts, names[n]) then [Attested(parts, bank, m, digest, names[n])] else [])
  }

  lemma NoneTold(parts: seq<Part>, bank: Bank, m: Medium, digest: Digest, names: seq<string>)
    ensures Told(parts, bank, m, digest, names[..0]) == [] && Tellable(parts, names[..0]) == 0
  {
  }

  lemma OneMoreTold(parts: seq<Part>, bank: Bank, m: Medium, digest: Digest, names: seq<string>, n: nat)
    requires n < |names| && Attestable(parts, bank, m, names[n])
    requires forall x :: x in names[..n] ==> Attestable(parts, bank, m, x)
    ensures forall x :: x in names[..n + 1] ==> Attestable(parts, bank, m, x)
    ensures Tellable(parts, names[..n + 1])
            == Tellable(parts, names[..n]) + (if HasRecord(parts, names[n]) then 1 else 0)
    ensures Told(parts, bank, m, digest, names[..n + 1])
            == Told(parts, bank, m, digest, names[..n])
               + (if HasRecord(parts, names[n]) then [Attested(parts, bank, m, digest, names[n])] else [])
  {
    hide Attestable, Attested, HasRecord;
    assert names[..n + 1] == names[..n] + [names[n]];
    assert names[..n + 1][..n] == names[..n];
  }

  /** Everything a signature needs. */
  predicate Sealable(parts: seq<Part>, bank: Bank, m: Medium, required: seq<string>, accepting: nat, dirOk: bool) {
    && dirOk && required != []
    && (forall x :: x in required ==> Attestable(parts, bank, m, x))
    && Tellable(parts, FirstOccurrences(required)) <= accepting
  }

  lemma {:induction false} TellableGrows(parts: seq<Part>, names: seq<string>, i: nat)
    requires i <= |names|
    ensures Tellable(parts, names[..i]) <= Tellable(parts, names)
    decreases |names| - i
  {
    if i == |names| {
      assert names[..i] == names;
    } else {
      assert names[..i + 1][..i] == names[..i];
      TellableGrows(parts, names, i + 1);
    }
  }

  lemma NotSealable(parts: seq<Part>, bank: Bank, m: Medium, required: seq<string>, accepting: nat, dirOk: bool, i: nat)
    requires i < |FirstOccurrences(required)|
    requires var x := FirstOccurrences(required)[i];
             !Attestable(parts, bank, m, x)
             || (HasRecord(parts, x) && accepting == Tellable(parts, FirstOccurrences(required)[..i]))
    ensures !Sealable(parts, bank, m, required, accepting, dirOk)
  {
    var names := FirstOccurrences(required);
    assert names[i] in required;
    TellableGrows(parts, names, i + 1);
    assert names[..i + 1][..i] == names[..i];
  }

  class PartitionSealer {
    const parts: seq<Part>
    // what the image records were told and accepted
    var told: seq<IvdFile>
    // how many more images the records accept before one refuses
    var accepting: nat
    // the inventory signed into the bank
    var signed: Option<seq<IvdFile>>

    constructor (parts: seq<Part>, accepting: nat)
      ensures this.parts == parts && this.accepting == accepting && told == [] && signed == None
    {
      this.parts, this.accepting, told, signed := parts, accepting, [], None;
    }

    /** The device behind one declared part, hashed back; its record told. */
    method AttestPart(bank: Bank, m: Medium, digest: Digest, name: string) returns (r: Option<SealError>, f: IvdFile)
      modifies this
      ensures signed == old(signed)
      ensures r.None? <==> Attestable(parts, bank, m, name) && (HasRecord(parts, name) ==> old(accepting) > 0)
      ensures r.None? ==> f == Attested(parts, bank, m, digest, name)
      ensures r.None? ==> told == old(told) + (if HasRecord(parts, name) then [f] else [])
      ensures r.None? ==> accepting == old(accepting) - (if HasRecord(parts, name) then 1 else 0)
      ensures r.Some? ==> told == old(told) && accepting == old(accepting)
    {
      r, f := None, IvdFile(name, [], 0);
      var at := 0;
      while at < |parts| && parts[at].file != name
        invariant 0 <= at <= |parts| && FindPart(parts, name, at) == FindPart(parts, name)
      {
        at := at + 1;
      }
      if at == |parts| {
        return Some(UnknownPart(name)), f;
      }
      var device := parts[at].Device(bank);
      if device !in m.devices {
        return Some(NoDevice(name)), f;
      }
      if name in m.files {
        return Some(Residue(name)), f;
      }
      if m.devices[device].None? {
        return Some(Unreadable(name)), f;
      }
      f := IvdFile(name, digest(m.devices[device].value), |m.devices[device].value|);
      if parts[at].record {
        if accepting == 0 {
          return Some(RecordRefused(name)), f;
        }
        accepting := accepting - 1;
        told := told + [f];
      }
    }

    /** All parts of an inventory; `n` of them went through. */
    method AttestAll(bank: Bank, m: Medium, digest: Digest, inventory: seq<string>)
      returns (r: Option<SealError>, files: seq<IvdFile>, n: nat)
      modifies this
      ensures signed == old(signed) && n == |files| <= |inventory| && (r.None? ==> n == |inventory|)
      ensures forall x :: x in inventory[..n] ==> Attestable(parts, bank, m, x)
      ensures forall i :: 0 <= i < n ==> files[i] == Attested(parts, bank, m, digest, inventory[i])
      ensures told == old(told) + Told(parts, bank, m, digest, inventory[..n])
      ensures Tellable(parts, inventory[..n]) <= old(accepting)
      ensures r.Some? ==> n < |inventory|
      ensures r.Some? && Attestable(parts, bank, m, inventory[n]) ==>
                HasRecord(parts, inventory[n]) && old(accepting) == Tellable(parts, inventory[..n])
    {
      hide Attestable, Attested, HasRecord, Told, Tellable;
      files, n := [], 0;
      NoneTold(parts, bank, m, digest, inventory);
      while n < |inventory|
        invariant signed == old(signed) && n == |files| <= |inventory|
        invariant forall x :: x in inventory[..n] ==> Attestable(parts, bank, m, x)
        invariant forall j :: 0 <= j < n ==> files[j] == Attested(parts, bank, m, digest, inventory[j])
        invariant told == old(told) + Told(parts, bank, m, digest, inventory[..n])
        invariant accepting == old(accepting) - Tellable(parts, inventory[..n])
      {
        var e, f := AttestPart(bank, m, digest, inventory[n]);
        if e.Some? {
          return e, files, n;
        }
        OneMoreTold(parts, bank, m, digest, inventory, n);
        files, n := files + [f], n + 1;
      }
      r := None;
    }

    /**
     * A signature covers exactly the first occurrences of `required`, each with the digest and
     * size of its device in this bank. Without one nothing is signed, and the records were told
     * the first `n` names of that inventory, all of it once only the signing itself was left.
     */
    method Seal(bank: Bank, m: Medium, digest: Digest, required: seq<string>, dirOk: bool,
                hsm: Hsm, crypto: bool, signOk: bool) returns (r: Outcome, ghost n: nat)
      modifies this
      ensures r.Signed? <==>
              Sealable(parts, bank, m, required, old(accepting), dirOk) && hsm.Provisioned? && crypto && signOk
      ensures r.Skipped? <==> Sealable(parts, bank, m, required, old(accepting), dirOk) && hsm.Unprovisioned?
      ensures r.Signed? ==>
                && signed.Some? && |signed.value| == |FirstOccurrences(required)|
                && forall i :: 0 <= i < |signed.value| ==>
                     && Attestable(parts, bank, m, FirstOccurrences(required)[i])
                     && signed.value[i] == Attested(parts, bank, m, digest, FirstOccurrences(required)[i])
      ensures !r.Signed? ==> signed == old(signed)
      ensures n <= |FirstOccurrences(required)|
      ensures forall x :: x in FirstOccurrences(required)[..n] ==> Attestable(parts, bank, m, x)
      ensures told == old(told) + Told(parts, bank, m, digest, FirstOccurrences(required)[..n])
      ensures Sealable(parts, bank, m, required, old(accepting), dirOk) ==> n == |FirstOccurrences(required)|
    {
      hide Attestable, Attested, HasRecord;
      var inventory := Deduplicate(required);
      n := 0;
      if inventory == [] {
        EmptyInventory(required);
        return Refused(NoParts), 0;
      }
      if !dirOk {
        return Refused(NoMetadataDir), 0;
      }
      var e, files, count := AttestAll(bank, m, digest, inventory);
      n := count;
      if e.Some? {
        NotSealable(parts, bank, m, required, old(accepting), dirOk, n);
        return Refused(e.value), n;
      }
      assert inventory[..n] == inventory;
      assert Sealable(parts, bank, m, required, old(accepting), dirOk);
      match hsm {
        case Absent => return Refused(NoHsm), n;
        case ProbeFails => return Refused(ProbeFailed), n;
        case Unprovisioned => return Skipped, n;
        case Provisioned =>
      }
      if !crypto {
        return Refused(NoCrypto), n;
      }
      if !signOk {
        return Refused(SignFailed), n;
      }
      signed := Some(files);
      assert forall i :: 0 <= i < n ==> inventory[i] in inventory[..n];
      r := Signed;
    }
  }
}
