// Completing a partial bank: every part the manifest declares that was not shipped into the
// target bank is copied from the active one, and nothing else.
module Seed {
  import opened Base
  import opened Names

  /** What a bank directory holds under a name. */
  datatype Node = File(data: seq<byte>, mode: nat) | Link(dest: string) | Special

  type Dir = map<string, Node>

  datatype SeedError =
    | NoTarget
    | Unreadable(name: string)
    | InNeither(name: string)
    | NotAFile(name: string)
    | IoFailed(name: string)

  datatype Outcome = Outcome(copied: seq<string>, foreign: seq<string>)

  datatype Result = Ok(outcome: Outcome) | Err(error: SeedError)

  /** The names of a list the target does not hold. */
  function Lacking(names: seq<string>, target: Dir): (r: seq<string>)
    ensures forall x :: x in r <==> x in names && x !in target
  {
    if names == [] then []
    else
      var n := |names| - 1;
      var r := Lacking(names[..n], target);
      assert forall x :: x in names <==> x in names[..n] || x == names[n];
      if names[n] in target then r else r + [names[n]]
  }

  /** The declared names the target does not hold, in order, each once. */
  function Missing(required: seq<string>, target: Dir): (r: seq<string>)
    ensures forall x :: x in r <==> x in required && x !in target
  {
    Lacking(FirstOccurrences(required), target)
  }

  lemma OneMoreLacking(names: seq<string>, name: string, target: Dir)
    ensures Lacking(names + [name], target) == Lacking(names, target) + (if name in target then [] else [name])
  {
    assert (names + [name])[..|names|] == names;
  }

  /** One more declared name is missing when the target does not hold it and it is new. */
  lemma OneMoreName(names: seq<string>, name: string, target: Dir)
    ensures Missing(names + [name], target)
            == Missing(names, target) + (if name in target || name in Missing(names, target) then [] else [name])
  {
    var all, before := names + [name], FirstOccurrences(names);
    assert all[..|names|] == names;
    assert FirstOccurrences(all) == if name in before then before else before + [name];
    hide FirstOccurrences;
    OneMoreLacking(before, name, target);
    hide Lacking;
  }

  /** The names come in the order in which they are first declared, so none comes twice. */
  lemma {:induction false} MissingOrder(required: seq<string>, target: Dir, i: nat, j: nat)
    requires i < j < |Missing(required, target)|
    ensures FirstIndex(required, Missing(required, target)[i]) < FirstIndex(required, Missing(required, target)[j])
    ensures Missing(required, target)[i] != Missing(required, target)[j]
    decreases |required|
  {
    hide Missing;
    if required == [] {
    } else {
      var n := |required| - 1;
      var r, name := Missing(required[..n], target), required[n];
      assert required == required[..n] + [name];
      OneMoreName(required[..n], name, target);
      FirstIndexPrefix(required, n, r[i]);
      if j < |r| {
        MissingOrder(required[..n], target, i, j);
        FirstIndexPrefix(required, n, r[j]);
      } else {
        assert forall k :: 0 <= k < n ==> required[k] in required[..n];
      }
    }
  }

  /** A node that can be copied; `unreadable` names cannot even be looked at. */
  predicate Copyable(source: Dir, unreadable: set<string>, name: string) {
    name !in unreadable && name in source && !source[name].Special?
  }

  /** The target with these names taken from the source. */
  function Completed(target: Dir, source: Dir, names: seq<string>): Dir {
    target + map x | x in names && x in source :: source[x]
  }

  /** The name up to the first slash. */
  function FirstSegment(name: string): string {
    if name == [] || name[0] == '/' then [] else [name[0]] + FirstSegment(name[1..])
  }

  const IVD_MANIFEST: string := "ivd-manifest.cbor"
  const IVD_SIGNATURE: string := "ivd-signature.bin"

  predicate IsForeign(name: string, required: seq<string>) {
    name != IVD_MANIFEST && name != IVD_SIGNATURE && forall r :: r in required ==> FirstSegment(r) != name
  }

  function Foreign(listing: seq<string>, required: seq<string>): seq<string> {
    if listing == [] then []
    else
      var rest := Foreign(listing[..|listing| - 1], required);
      if IsForeign(listing[|listing| - 1], required) then rest + [listing[|listing| - 1]] else rest
  }

  // ----------------------------------------------------------------------
  // What completing a bank means
  // ----------------------------------------------------------------------

  lemma NoMembers(s: seq<string>)
    ensures s == [] <==> forall x :: x !in s
  {
    if s != [] {
      assert s[0] in s;
    }
  }

  /**
   * A completed bank holds every declared part; parts shipped beforehand are untouched, each
   * added part is the active bank's, and nothing undeclared was added. Completing it again
   * copies nothing, and a bank shipped whole is left alone.
   */
  lemma CompletedBank(required: seq<string>, source: Dir, target: Dir)
    requires forall x :: x in Missing(required, target) ==> x in source
    ensures var r := Completed(target, source, Missing(required, target));
            && (forall x :: x in required ==> x in r)
            && (forall x :: x in target ==> x in r && r[x] == target[x])
            && (forall x :: x in r && x !in target ==> x in required && x in source && r[x] == source[x])
            && Missing(required, r) == []
    ensures (forall x :: x in required ==> x in target) ==> Missing(required, target) == []
  {
    var r := Completed(target, source, Missing(required, target));
    NoMembers(Missing(required, r));
    NoMembers(Missing(required, target));
  }

  lemma {:induction false} MissingPrefix(required: seq<string>, target: Dir, i: nat)
    requires i <= |required|
    ensures Missing(required[..i], target) <= Missing(required, target)
    decreases |required| - i
  {
    if i == |required| {
      assert required[..i] == required;
    } else {
      assert required[..i + 1] == required[..i] + [required[i]];
      OneMoreName(required[..i], required[i], target);
      MissingPrefix(required, target, i + 1);
    }
  }

  lemma MissingStep(required: seq<string>, target: Dir, i: nat)
    requires i < |required|
    ensures var now, name := Missing(required[..i], target), required[i];
            var next := if name in target || name in now then now else now + [name];
            Missing(required[..i + 1], target) == next <= Missing(required, target)
  {
    assert required[..i + 1] == required[..i] + [required[i]];
    OneMoreName(required[..i], required[i], target);
    MissingPrefix(required, target, i + 1);
  }

  lemma CompletedHas(target: Dir, source: Dir, names: seq<string>, name: string)
    requires forall x :: x in names ==> x in source
    ensures name in Completed(target, source, names) <==> name in target || name in names
  {
  }

  lemma CompletedStep(target: Dir, source: Dir, names: seq<string>, name: string)
    requires name in source
    ensures Completed(target, source, names + [name]) == Completed(target, source, names)[name := source[name]]
  {
  }

  // ----------------------------------------------------------------------
  // Seeding
  // ----------------------------------------------------------------------

  /** The target bank's directory: it takes `landing` more copies before one fails. */
  class BankDir {
    var nodes: Dir
    var landing: nat

    constructor (nodes: Dir, landing: nat)
      ensures this.nodes == nodes && this.landing == landing
    {
      this.nodes, this.landing := nodes, landing;
    }

    /** A copy that fails leaves `debris`, if anything. */
    method Copy(name: string, node: Node, debris: Option<Node>) returns (ok: bool)
      modifies this
      ensures ok <==> old(landing) > 0
      ensures ok ==> nodes == old(nodes)[name := node] && landing == old(landing) - 1
      ensures !ok ==> nodes == (if debris.Some? then old(nodes)[name := debris.value] else old(nodes)) && landing == 0
    {
      ok := landing > 0;
      if ok {
        nodes, landing := nodes[name := node], landing - 1;
      } else if debris.Some? {
        nodes := nodes[name := debris.value];
      }
    }
  }

  /** One declared name: left alone if shipped, else copied from the active bank. */
  method SettleOne(source: Dir, unreadable: set<string>, target: BankDir, name: string, debris: Option<Node>)
    returns (e: Option<SeedError>, added: bool)
    modifies target
    ensures name in old(target.nodes) ==>
              e.None? && !added && target.nodes == old(target.nodes) && target.landing == old(target.landing)
    ensures name !in old(target.nodes) ==>
              && added == e.None?
              && (e.None? <==> Copyable(source, unreadable, name) && old(target.landing) > 0)
              && (e.None? ==> target.nodes == old(target.nodes)[name := source[name]]
                              && target.landing == old(target.landing) - 1)
              && (e.Some? ==> !e.value.NoTarget? && e.value.name == name)
              && (e.Some? && e.value.Unreadable? <==> name in unreadable)
              && (e.Some? && e.value.InNeither? <==> name !in unreadable && name !in source)
              && (e.Some? ==> target.nodes == if e.value.IoFailed? && debris.Some?
                                              then old(target.nodes)[name := debris.value] else old(target.nodes))
  {
    e, added := None, false;
    if name in target.nodes {
      return;
    }
    if name in unreadable {
      return Some(Unreadable(name)), false;
    }
    if name !in source {
      return Some(InNeither(name)), false;
    }
    if source[name].Special? {
      return Some(NotAFile(name)), false;
    }
    added := target.Copy(name, source[name], debris);
    if !added {
      e := Some(IoFailed(name));
    }
  }

  /** Everything seeding needs of the missing names. */
  predicate Seedable(missing: seq<string>, source: Dir, unreadable: set<string>, landing: nat) {
    |missing| <= landing && forall x :: x in missing ==> Copyable(source, unreadable, x)
  }

  lemma NotSeedable(missing: seq<string>, source: Dir, unreadable: set<string>, landing: nat, done: nat)
    requires done < |missing| && (!Copyable(source, unreadable, missing[done]) || landing == done)
    ensures !Seedable(missing, source, unreadable, landing)
  {
    hide Copyable;
    assert missing[done] in missing;
  }

  lemma NextOf(now: seq<string>, name: string, all: seq<string>)
    requires now + [name] <= all
    ensures |now| < |all| && now <= all && all[|now|] == name
  {
    assert (now + [name])[|now|] == name;
    assert now <= now + [name];
  }

  lemma AllSeedable(missing: seq<string>, source: Dir, unreadable: set<string>, landing: nat)
    requires |missing| <= landing && forall x :: x in missing ==> Copyable(source, unreadable, x)
    ensures Seedable(missing, source, unreadable, landing)
  {
  }

  /** Settle the declared names one by one; `copied` lists those added, also when one fails. */
  method SettleAll(source: Dir, unreadable: set<string>, target: BankDir, required: seq<string>, debris: Option<Node>)
    returns (e: Option<SeedError>, copied: seq<string>)
    modifies target
    ensures copied <= Missing(required, old(target.nodes))
    ensures e.None? <==> Seedable(Missing(required, old(target.nodes)), source, unreadable, old(target.landing))
    ensures e.None? ==> copied == Missing(required, old(target.nodes))
    ensures e.Some? ==>
              && |copied| < |Missing(required, old(target.nodes))|
              && !e.value.NoTarget? && e.value.name == Missing(required, old(target.nodes))[|copied|]
    ensures forall x :: x in copied ==> x in source
    ensures var kept := Completed(old(target.nodes), source, copied);
            target.nodes
            == if e.Some? && e.value.IoFailed? && debris.Some? then kept[e.value.name := debris.value] else kept
  {
    ghost var was, missing := target.nodes, Missing(required, target.nodes);
    e, copied := None, [];
    assert required[..0] == [] && required[..|required|] == required;
    assert Missing([], was) == [] && Completed(was, source, []) == was;
    hide Missing, Completed, Seedable;
    for i := 0 to |required|
      invariant e.None? && copied == Missing(required[..i], was) && copied <= missing
      invariant forall x :: x in copied ==> Copyable(source, unreadable, x)
      invariant target.nodes == Completed(was, source, copied)
      invariant target.landing == old(target.landing) - |copied|
    {
      var name := required[i];
      MissingStep(required, was, i);
      CompletedHas(was, source, copied, name);
      var added;
      e, added := SettleOne(source, unreadable, target, name, debris);
      if e.Some? {
        NextOf(copied, name, missing);
        NotSeedable(missing, source, unreadable, old(target.landing), |copied|);
        return;
      }
      if added {
        CompletedStep(was, source, copied, name);
        copied := copied + [name];
      }
    }
    AllSeedable(missing, source, unreadable, old(target.landing));
  }

  method SeedMissingFiles(source: Dir, unreadable: set<string>, listing: seq<string>, target: BankDir, present: bool,
                          required: seq<string>, debris: Option<Node>) returns (r: Result, copied: seq<string>)
    modifies target
    ensures r.Ok? <==> required == []
                       || (present && Seedable(Missing(required, old(target.nodes)), source, unreadable,
                                               old(target.landing)))
    ensures copied <= Missing(required, old(target.nodes))
    ensures r.Ok? ==>
              && r.outcome.copied == copied == Missing(required, old(target.nodes))
              && r.outcome.foreign == (if required == [] then [] else Foreign(listing, required))
              && target.nodes == Completed(old(target.nodes), source, copied)
    ensures r.Err? ==>
              && (r.error.NoTarget? <==> !present)
              && (present ==> |copied| < |Missing(required, old(target.nodes))|
                              && r.error.name == Missing(required, old(target.nodes))[|copied|])
              && var kept := Completed(old(target.nodes), source, copied);
                 target.nodes == if r.error.IoFailed? && debris.Some? then kept[r.error.name := debris.value] else kept
  {
    assert Completed(target.nodes, source, []) == target.nodes;
    copied := [];
    if required == [] {
      return Ok(Outcome([], [])), [];
    }
    hide Missing, Completed, Seedable, Foreign;
    if !present {
      return Err(NoTarget), [];
    }
    var e;
    e, copied := SettleAll(source, unreadable, target, required, debris);
    r := if e.Some? then Err(e.value) else Ok(Outcome(copied, Foreign(listing, required)));
  }

  /**
   * What a failed copy left under a name counts as shipped: completing the bank again keeps
   * it, and the part is the active bank's exactly when nothing was left or it was intact.
   */
  lemma RetryAfterFailedCopy(required: seq<string>, source: Dir, target: Dir, done: nat, debris: Option<Node>)
    requires done < |Missing(required, target)| && forall x :: x in Missing(required, target) ==> x in source
    ensures var name := Missing(required, target)[done];
            var kept := Completed(target, source, Missing(required, target)[..done]);
            var left := if debris.Some? then kept[name := debris.value] else kept;
            && name in source && (forall x :: x in Missing(required, left) ==> x in source)
            && var retried := Completed(left, source, Missing(required, left));
               name in retried && (retried[name] == source[name] <==> debris.None? || debris.value == source[name])
  {
    var missing := Missing(required, target);
    forall i: nat | i < done ensures missing[i] != missing[done] {
      MissingOrder(required, target, i, done);
    }
    assert missing[done] in missing && missing[done] !in missing[..done];
  }

  // ----------------------------------------------------------------------
  // Copying one part forward under its declared digest
  // ----------------------------------------------------------------------

  datatype CopyError = MissingActive | DigestMismatch | CopyIo

  datatype CopyResult = Copied(sha: seq<byte>, size: nat) | NotCopied(error: CopyError)

  // What opening the active bank's part gives, and where the copy can fail: reads past
  // `readable` octets, writes past `writable` chunks, and each of the single steps.
  datatype Source = Opened(data: seq<byte>, mode: nat) | Absent | Unopened

  datatype Faults = Faults(creates: bool, readable: nat, writable: nat, flushes: bool, removes: bool, setsMode: bool) {
    /** Nothing stands in the way of copying `n` octets, however they are split. */
    predicate Clear(n: nat) {
      creates && readable >= n && writable >= n && flushes
    }
  }

  /** Creating over a file truncates it and keeps its mode. */
  function CreatedMode(dir: Dir, name: string): nat {
    if name in dir && dir[name].File? then dir[name].mode else 0
  }

  const COPY_BUF: nat := 4 * 1024 * 1024

  /** An interrupted copy leaves the front of the part under its name and nothing else changed. */
  ghost predicate LeftPartial(before: Dir, after: Dir, name: string, input: Source) {
    && input.Opened?
    && exists n: nat :: n <= |input.data| && after == before[name := File(input.data[..n], CreatedMode(before, name))]
  }

  /**
   * Copy one part of the active bank under its name in the target, keeping it only when its
   * digest is the declared one. A part that cannot be opened, or a name that cannot be created,
   * leaves the target alone; a mismatch leaves the name empty if the removal works, and the
   * whole unverified copy if it does not.
   */
  method CopyForwardFile(input: Source, target: BankDir, name: string, expected: seq<byte>,
                         sha: seq<byte> -> seq<byte>, faults: Faults)
    returns (r: CopyResult)
    modifies target
    ensures r.Copied? ==>
              && input.Opened? && faults.creates && faults.flushes
              && sha(input.data) == expected == r.sha && r.size == |input.data|
              && var mode := if faults.setsMode then input.mode else CreatedMode(old(target.nodes), name);
                 target.nodes == old(target.nodes)[name := File(input.data, mode)]
    ensures r == NotCopied(MissingActive) <==> input.Absent?
    ensures !input.Opened? || !faults.creates ==> r.NotCopied? && target.nodes == old(target.nodes)
    ensures r == NotCopied(DigestMismatch) ==>
              && input.Opened? && sha(input.data) != expected
              && target.nodes
                 == if faults.removes then old(target.nodes) - {name}
                    else old(target.nodes)[name := File(input.data, CreatedMode(old(target.nodes), name))]
    ensures r == NotCopied(CopyIo) ==>
              target.nodes == old(target.nodes) || LeftPartial(old(target.nodes), target.nodes, name, input)
    ensures input.Opened? && faults.Clear(|input.data|) ==>
              r == if sha(input.data) == expected then Copied(expected, |input.data|) else NotCopied(DigestMismatch)
  {
    if input.Absent? {
      return NotCopied(MissingActive);
    }
    if input.Unopened? || !faults.creates {
      return NotCopied(CopyIo);
    }
    var data, mode := input.data, CreatedMode(target.nodes, name);
    target.nodes := target.nodes[name := File([], mode)];
    var at, chunks := 0, 0;
    while at < |data|
      invariant at <= |data| && at <= faults.readable && chunks <= at
      invariant target.nodes == old(target.nodes)[name := File(data[..at], mode)]
    {
      var most := Min(COPY_BUF, Min(faults.readable, |data|) - at);
      if most == 0 || chunks == faults.writable {
        return NotCopied(CopyIo);
      }
      var n: nat :| 1 <= n <= most;
      at, chunks := at + n, chunks + 1;
      target.nodes := target.nodes[name := File(data[..at], mode)];
    }
    if !faults.flushes {
      return NotCopied(CopyIo);
    }
    assert data[..at] == data;
    if sha(data) != expected {
      if faults.removes {
        target.nodes := target.nodes - {name};
      }
      return NotCopied(DigestMismatch);
    }
    if faults.setsMode {
      target.nodes := target.nodes[name := File(data, input.mode)];
    }
    r := Copied(sha(data), at);
  }
}
