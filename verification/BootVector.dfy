// The boot vector: which bank every component boots. PRIMARY is what boots, SECONDARY the
// committed floor a rollback restores, and a staging map lives in memory only.
module BootVector {
  import opened Base

  /** A component's entry: its bank and the digests of the images sealed into it. */
  datatype Entry = Entry(bank: Bank, images: map<string, seq<byte>>)

  type Entries = map<string, Entry>

  datatype Copy = Copy(entries: Entries, generation: nat)

  function EntriesOf(c: Option<Copy>): Entries {
    if c.Some? then c.value.entries else map[]
  }

  datatype Vec = Vec(primary: Option<Copy>, secondary: Option<Copy>, pending: Option<Entries>) {
    function Current(): Entries {
      EntriesOf(primary)
    }

    function Committed(): Entries {
      EntriesOf(secondary)
    }

    predicate IsTrial() {
      Current() != Committed()
    }

    /** The booted entry differs from the floor's; an absent floor entry differs too. */
    predicate InTrial(id: string) {
      id in Current() && (id !in Committed() || Committed()[id] != Current()[id])
    }

    function Selected(id: string): Option<Bank> {
      if id in Current() then Some(Current()[id].bank) else None
    }

    /** What the next staging starts from. */
    function Base(): Entries {
      if pending.Some? then pending.value else Current()
    }
  }

  function GenerationOf(c: Option<Copy>): nat {
    if c.Some? then c.value.generation else 0
  }

  datatype VecError = Io | NoTrial

  datatype VecResult = Done(wrote: bool) | Failed(error: VecError)

  // ----------------------------------------------------------------------
  // What each operation does; `ok` is whether the device takes the write
  // ----------------------------------------------------------------------

  function Staged(v: Vec, id: string, e: Entry): Vec {
    v.(pending := Some(v.Base()[id := e]))
  }

  function Sealed(v: Vec, ok: bool): (Vec, VecResult) {
    if v.pending.None? then (v, Done(false))
    else if !ok then (v, Failed(Io))
    else
      var gen := Max(GenerationOf(v.primary), GenerationOf(v.secondary)) + 1;
      (Vec(Some(Copy(v.pending.value, gen)), v.secondary, None), Done(true))
  }

  function CommittedVec(v: Vec, ok: bool): (Vec, VecResult) {
    if !ok then (v, Failed(Io))
    else if v.primary.None? then (v, Done(true))
    else (v.(secondary := v.primary), Done(true))
  }

  function RolledBack(v: Vec, ok: bool): (Vec, VecResult) {
    if !v.IsTrial() then (v.(pending := None), Done(false))
    else if !ok then (v, Failed(Io))
    else if v.secondary.None? then (v, Failed(NoTrial))
    else (Vec(v.secondary, v.secondary, None), Done(true))
  }

  /** A process restart: everything in memory is gone. */
  function Reloaded(v: Vec): Vec {
    v.(pending := None)
  }

  // ----------------------------------------------------------------------
  // Runs of the vector alone
  // ----------------------------------------------------------------------

  datatype Op = Stage(id: string, e: Entry) | Seal(ok: bool) | Commit(ok: bool) | Rollback(ok: bool) | Reload

  function Next(v: Vec, op: Op): Vec {
    match op
    case Stage(id, e) => Staged(v, id, e)
    case Seal(ok) => Sealed(v, ok).0
    case Commit(ok) => CommittedVec(v, ok).0
    case Rollback(ok) => RolledBack(v, ok).0
    case Reload => Reloaded(v)
  }

  function Run(v: Vec, ops: seq<Op>): Vec
    decreases |ops|
  {
    if ops == [] then v else Run(Next(v, ops[0]), ops[1..])
  }

  /** The floor is never ahead of what boots, and one generation names one content. */
  predicate Ordered(v: Vec) {
    && GenerationOf(v.secondary) <= GenerationOf(v.primary)
    && (v.secondary.Some? && GenerationOf(v.secondary) == GenerationOf(v.primary) ==> v.primary == v.secondary)
  }

  /** Over every run the floor's generation never falls, so it can gate anti-rollback. */
  lemma {:induction false} FloorGenerationMonotone(v: Vec, ops: seq<Op>)
    requires Ordered(v)
    ensures Ordered(Run(v, ops)) && GenerationOf(v.secondary) <= GenerationOf(Run(v, ops).secondary)
    decreases |ops|
  {
    if ops == [] {
    } else {
      FloorGenerationMonotone(Next(v, ops[0]), ops[1..]);
    }
  }

  predicate Unsealed(ops: seq<Op>) {
    forall op :: op in ops ==> op.Stage? || op == Seal(false) || op.Reload?
  }

  /** Staging, however often and with however many failed seals, changes nothing that boots. */
  lemma {:induction false} StagingIsVolatile(v: Vec, ops: seq<Op>)
    requires Unsealed(ops)
    ensures Reloaded(Run(v, ops)) == Reloaded(v)
    decreases |ops|
  {
    if ops == [] {
    } else {
      assert ops[0] in ops;
      StagingIsVolatile(Next(v, ops[0]), ops[1..]);
    }
  }

  // ----------------------------------------------------------------------
  // What the whole-vector operations do to the components they are not for
  // ----------------------------------------------------------------------

  /** Sealing one component's entry leaves every other booted entry alone exactly when no stale
      staging disagrees with what boots. */
  lemma SealFrame(v: Vec, id: string, e: Entry)
    ensures var r := Sealed(Staged(v, id, e), true).0;
            && r.Current() == v.Base()[id := e] && r.Committed() == v.Committed()
            && (r.Current() - {id} == v.Current() - {id}
                <==> v.pending.None? || v.pending.value - {id} == v.Current() - {id})
  {
    assert v.Base()[id := e] - {id} == v.Base() - {id};
  }

  /** A commit moves no other floor, and a rollback no other booted entry, exactly when there is
      no copy to take from or the two copies agree on every other component. */
  lemma CommitAndRollbackFrame(v: Vec, id: string)
    ensures CommittedVec(v, true).0.Current() == v.Current()
    ensures CommittedVec(v, true).0.Committed() - {id} == v.Committed() - {id}
            <==> v.primary.None? || v.Current() - {id} == v.Committed() - {id}
    ensures RolledBack(v, true).0.Committed() == v.Committed()
    ensures RolledBack(v, true).0.Current() - {id} == v.Current() - {id}
            <==> v.secondary.None? || v.Current() - {id} == v.Committed() - {id}
  {
  }

  /**
   * A staging left by a seal that failed is sealed by the next component to activate: with no
   * component in trial, activating `d` moves `c` to the bank its failed activation asked for.
   */
  lemma StaleStagingIsSealed(c: string, d: string, settled: Entries, gen: nat, target: Entry, e: Entry)
    requires c != d && c in settled && settled[c] != target
    ensures var v := Vec(Some(Copy(settled, gen)), Some(Copy(settled, gen)), None);
            var failed := Sealed(Staged(v, c, target), false);
            var r := Sealed(Staged(failed.0, d, e), true).0;
            && failed.1.Failed? && !failed.0.IsTrial()
            && r.Current()[c] == target && r.InTrial(c)
            && Sealed(Staged(Reloaded(failed.0), d, e), true).0.Current()[c] == settled[c]
  {
  }

  /** The store keeps the copies; the manager caches them and stages beside them. */
  class Manager {
    var primary: Option<Copy>
    var secondary: Option<Copy>
    // how many more writes the store takes before it fails
    var landing: nat

    var current: Entries
    var generation: nat
    var committed: Entries
    var committedGeneration: nat
    var pending: Option<Entries>

    function View(): Vec
      reads this
    {
      Vec(primary, secondary, pending)
    }

    /** The cache never runs ahead of the store. */
    predicate Coherent()
      reads this
    {
      && current == EntriesOf(primary) && generation == GenerationOf(primary)
      && committed == EntriesOf(secondary) && committedGeneration == GenerationOf(secondary)
    }

    constructor Cached(v: Vec, landing: nat)
      ensures Coherent() && View() == Reloaded(v) && this.landing == landing
    {
      primary, secondary, this.landing := v.primary, v.secondary, landing;
      current, generation := EntriesOf(v.primary), GenerationOf(v.primary);
      committed, committedGeneration := EntriesOf(v.secondary), GenerationOf(v.secondary);
      pending := None;
    }

    method Stage(id: string, e: Entry)
      requires Coherent()
      modifies this
      ensures Coherent() && View() == Staged(old(View()), id, e) && landing == old(landing)
    {
      var staging := if pending.Some? then pending.value else current;
      pending := Some(staging[id := e]);
    }

    method Seal() returns (r: VecResult)
      requires Coherent()
      modifies this
      ensures Coherent() && (View(), r) == Sealed(old(View()), old(landing) > 0)
    {
      if pending.None? {
        return Done(false);
      }
      if landing == 0 {
        return Failed(Io);
      }
      landing := landing - 1;
      var gen := Max(GenerationOf(primary), GenerationOf(secondary)) + 1;
      primary := Some(Copy(pending.value, gen));
      current, generation := pending.value, gen;
      pending := None;
      r := Done(true);
    }

    /**
     * Without a PRIMARY the store has nothing to copy and keeps its SECONDARY, while the cache
     * takes the empty selection for the floor: the two part exactly when that floor was not
     * empty already.
     */
    method Commit() returns (r: VecResult)
      requires Coherent()
      modifies this
      ensures (View(), r) == CommittedVec(old(View()), old(landing) > 0)
      ensures Coherent() <==>
              r.Failed? || old(primary.Some?) || (old(committed) == map[] && old(committedGeneration) == 0)
    {
      if landing == 0 {
        return Failed(Io);
      }
      landing := landing - 1;
      if primary.Some? {
        secondary := primary;
      }
      committed, committedGeneration := current, generation;
      r := Done(true);
    }

    method Rollback() returns (r: VecResult)
      requires Coherent()
      modifies this
      ensures Coherent() && (View(), r) == RolledBack(old(View()), old(landing) > 0)
    {
      if current == committed {
        pending := None;
        return Done(false);
      }
      if landing == 0 {
        return Failed(Io);
      }
      if secondary.None? || primary == secondary {
        return Failed(NoTrial);
      }
      landing := landing - 1;
      primary := secondary;
      current, generation, pending := committed, GenerationOf(secondary), None;
      r := Done(true);
    }
  }

  /** A restart reads both copies; one that cannot be read fails it before anything is cached. */
  method Load(v: Vec, primaryReads: bool, secondaryReads: bool, landing: nat) returns (r: Option<Manager>)
    ensures r.Some? <==> primaryReads && secondaryReads
    ensures r.Some? ==> fresh(r.value) && r.value.Coherent() && r.value.View() == Reloaded(v)
    ensures r.Some? ==> r.value.landing == landing
  {
    if !primaryReads || !secondaryReads {
      return None;
    }
    var m := new Manager.Cached(v, landing);
    r := Some(m);
  }
}
