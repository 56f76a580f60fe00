// The two-store protocol of one component: NV decides what is committed, the boot vector
// what boots. Either store's write may fail and power may go between any two of them.
module DualAuthority {
  import opened Base
  import opened Nv
  import opened BootVector
  import opened Provider
  import Boot
  import L = Lifecycle
  import M = SlotMachine
  import Ota

  datatype Component = Component(id: string, slot: nat)

  /** An A/B component of a device whose NV has a boot record. */
  ghost predicate Ready(d: Device, c: Component) {
    L.Good(d.nv) && c.slot < d.nv.slotCount && d.nv.boot.Some?
  }

  function NvEntry(d: Device, c: Component): BankBoot
    requires Wellformed(d.nv) && c.slot < d.nv.slotCount && d.nv.boot.Some?
  {
    d.nv.boot.value[c.slot]
  }

  // ----------------------------------------------------------------------
  // Steps
  // ----------------------------------------------------------------------

  /** How the activation that follows an install goes. */
  datatype Arming = Sound | PowerCut | ActivatorFails | SealFails

  /**
   * What happens to one component. The last four are the shared vector moved on another's
   * behalf, be it another component or the node itself.
   */
  datatype Event =
    | Flash(image: Ota.Image, images: map<string, seq<byte>>, landed: nat, arming: Arming, undoLanded: nat)
    | Commit(landed: nat, vecOk: bool)
    | Rollback(vecOk: bool, landed: nat)
    | HashFailure(landed: nat)
    | Restart
    | OthersStage(id: string, entry: Entry)
    | OthersSeal(vecOk: bool)
    | OthersCommit(vecOk: bool)
    | OthersRollback(vecOk: bool)
  {
    predicate Own() {
      Flash? || Commit? || Rollback? || HashFailure? || Restart?
    }
  }

  /** A flash starts only on a component the vector has in no trial and owing no reboot. */
  predicate MayFlash(d: Device, c: Component)
    requires Wellformed(d.nv) && c.slot < MAX_SLOTS
  {
    !d.vec.InTrial(c.id) && !PendingReboot(d, c.slot, c.id)
  }

  ghost function NvStep(nv: Store, op: L.Op, landed: nat): (r: Store)
    requires L.Good(nv) && L.InRange(op)
    ensures L.Good(r) && r.slotCount == nv.slotCount
  {
    L.Step(nv, L.Event(op, landed), {})
  }

  /** Install into the target bank, then activate it; a failed activation is undone in NV. */
  ghost function Flashed(d: Device, c: Component, e: Event): (Device, bool)
    requires Ready(d, c) && e.Flash?
  {
    var installed := d.(nv := NvStep(d.nv, L.Install(c.slot, e.image), e.landed));
    if !MayFlash(d, c) then (d, false)
    else if Ota.Reported(Ota.InstallPlan(d.nv, c.slot, e.image, false), e.landed).Err? then (installed, false)
    else if e.arming.PowerCut? then (installed.(vec := Reloaded(d.vec)), false)
    else
      var entry := Entry(TargetBank(d.nv, c.slot), e.images);
      var (v, ok) := Activated(d.vec, c.id, entry, !e.arming.ActivatorFails?, !e.arming.SealFails?);
      if ok then (Device(installed.nv, v), true)
      else (Device(NvStep(installed.nv, L.Rollback(c.slot), e.undoLanded), v), false)
  }

  /** A flash moves the vector exactly when it succeeds, and then to its target bank. */
  lemma FlashVector(d: Device, c: Component, e: Event)
    requires Ready(d, c) && e.Flash?
    ensures var (d', ok) := Flashed(d, c, e);
            && (!ok ==> d'.vec.primary == d.vec.primary && d'.vec.secondary == d.vec.secondary)
            && (ok ==> d'.vec.Current() == d.vec.Base()[c.id := Entry(TargetBank(d.nv, c.slot), e.images)])
            && (ok ==> MayFlash(d, c) && e.arming.Sound?
                       && Ota.Reported(Ota.InstallPlan(d.nv, c.slot, e.image, false), e.landed).Ok?)
  {
    hide NvStep, MayFlash, TargetBank, Ota.InstallPlan, L.Good;
  }

  /** The new device and whether the event reported success. */
  ghost function Step(d: Device, c: Component, e: Event): (Device, bool)
    requires Ready(d, c)
  {
    match e
    case Flash(_, _, _, _, _) => Flashed(d, c, e)
    case Commit(landed, vecOk) =>
      if PendingReboot(d, c.slot, c.id) then (d, false) else CommittedBoth(d, c.slot, landed, vecOk)
    case Rollback(vecOk, landed) => RolledBackBoth(d, c.slot, vecOk, landed)
    case HashFailure(landed) =>
      (d.(nv := NvStep(d.nv, L.HashFailure(c.slot), landed)),
       Landed(Boot.HashFailurePlan(d.nv, c.slot), landed, None).Some?)
    case Restart => (d.(vec := Reloaded(d.vec)), true)
    case OthersStage(id, entry) => (if id == c.id then d else d.(vec := Staged(d.vec, id, entry)), true)
    case OthersSeal(ok) => (d.(vec := Sealed(d.vec, ok).0), Sealed(d.vec, ok).1 == Done(true))
    case OthersCommit(ok) => (d.(vec := CommittedVec(d.vec, ok).0), ok)
    case OthersRollback(ok) => (d.(vec := RolledBack(d.vec, ok).0), RolledBack(d.vec, ok).1.Done?)
  }

  // ----------------------------------------------------------------------
  // NV, as one slot sees it
  // ----------------------------------------------------------------------

  lemma NvAfter(nv: Store, op: L.Op, landed: nat, s: nat)
    requires L.Good(nv) && s < nv.slotCount && nv.boot.Some? && L.InRange(op) && L.Local(op, s).Some?
    ensures M.Valid(L.View(nv, s))
    ensures L.View(NvStep(nv, op, landed), s) == M.Step(L.View(nv, s), M.Event(L.Local(op, s).value, landed), false)
    ensures NvStep(nv, op, landed).boot.Some?
  {
    hide L.Step, M.Step, M.Valid;
    L.ViewValid(nv, s);
    L.StepRefines(nv, L.Event(op, landed), {}, s);
    M.BootRecordStays(L.View(nv, s), M.Event(L.Local(op, s).value, landed));
  }

  lemma InstallAfter(nv: Store, s: nat, image: Ota.Image, landed: nat)
    requires L.Good(nv) && s < nv.slotCount && nv.boot.Some?
    ensures var nv', b := NvStep(nv, L.Install(s, image), landed), nv.boot.value[s];
            var ok := Ota.Reported(Ota.InstallPlan(nv, s, image, false), landed).Ok?;
            && nv'.boot.Some? && (ok ==> b.committed)
            && nv'.boot.value[s] == if ok then BankBoot(b.active.Other(), false, 0) else b
  {
    NvAfter(nv, L.Install(s, image), landed, s);
    L.InstallOutcome(nv, s, image, landed);
    hide NvStep, M.Valid, Ota.InstallPlan, L.Good;
  }

  lemma CommitAfter(nv: Store, s: nat, landed: nat)
    requires L.Good(nv) && s < nv.slotCount && nv.boot.Some?
    ensures var plan, b := Ota.CommitPlan(nv, s), nv.boot.value[s];
            var nv', r := Carry(nv, plan.writes, landed), Ota.Reported(plan, landed);
            && nv' == NvStep(nv, L.Commit(s), landed) && nv'.boot.Some?
            && (b.committed ==> r == Ota.Err(Ota.AlreadyCommitted) && nv' == nv)
            && (!b.committed ==>
                  && (r.Ok? || r == Ota.Err(Ota.NvError))
                  && nv'.boot.value[s] == if r.Ok? then BankBoot(b.active, true, 0) else b)
  {
    NvAfter(nv, L.Commit(s), landed, s);
    L.EntryRead(nv, s);
    hide L.Good, M.Valid, ReadBoot, ReadMeta, ReadRuntime;
  }

  lemma RollbackAfter(nv: Store, s: nat, landed: nat)
    requires L.Good(nv) && s < nv.slotCount && nv.boot.Some?
    ensures var plan, b := Ota.RollbackPlan(nv, s), nv.boot.value[s];
            var nv', r := Carry(nv, plan.writes, landed), Ota.Reported(plan, landed);
            && nv' == NvStep(nv, L.Rollback(s), landed) && nv'.boot.Some?
            && (r.Ok? <==> !b.committed && landed >= 1)
            && nv'.boot.value[s] == if r.Ok? then BankBoot(b.active.Other(), true, 0) else b
  {
    NvAfter(nv, L.Rollback(s), landed, s);
    L.EntryRead(nv, s);
    hide L.Good, M.Valid, ReadBoot, ReadMeta, ReadRuntime;
  }

  lemma HashAfter(nv: Store, s: nat, landed: nat)
    requires L.Good(nv) && s < nv.slotCount && nv.boot.Some?
    ensures var nv', b := NvStep(nv, L.HashFailure(s), landed), nv.boot.value[s];
            var ok := Landed(Boot.HashFailurePlan(nv, s), landed, None).Some?;
            && nv'.boot.Some? && (ok <==> b.committed || landed >= 1)
            && (b.committed ==> nv' == nv)
            && nv'.boot.value[s] == if !b.committed && ok then BankBoot(b.active.Other(), true, 0) else b
  {
    NvAfter(nv, L.HashFailure(s), landed, s);
    L.EntryRead(nv, s);
    hide L.Good, M.Valid, ReadBoot, ReadMeta, ReadRuntime;
  }

  /** Whatever happens, NV keeps its boot record and its slots. */
  lemma StepKeepsReady(d: Device, c: Component, e: Event)
    requires Ready(d, c)
    ensures Ready(Step(d, c, e).0, c) && Step(d, c, e).0.nv.slotCount == d.nv.slotCount
  {
    if e.Flash? {
      InstallAfter(d.nv, c.slot, e.image, e.landed);
      RollbackAfter(NvStep(d.nv, L.Install(c.slot, e.image), e.landed), c.slot, e.undoLanded);
      hide NvStep, MayFlash, Ota.InstallPlan, Ota.RollbackPlan, L.Good;
    } else if e.Commit? {
      CommitAfter(d.nv, c.slot, e.landed);
      hide NvStep, Ota.CommitPlan, L.Good;
    } else if e.Rollback? {
      RollbackAfter(d.nv, c.slot, e.landed);
      hide NvStep, Ota.RollbackPlan, L.Good;
    } else if e.HashFailure? {
      HashAfter(d.nv, c.slot, e.landed);
      hide NvStep, Boot.HashFailurePlan, L.Good;
    }
  }

  ghost function Run(d: Device, c: Component, es: seq<Event>): (r: Device)
    requires Ready(d, c)
    ensures Ready(r, c)
    decreases |es|
  {
    if es == [] then d
    else
      StepKeepsReady(d, c, es[0]);
      Run(Step(d, c, es[0]).0, c, es[1..])
  }

  // ----------------------------------------------------------------------
  // Commit retries
  // ----------------------------------------------------------------------

  /** NV's active bank and the vector's booted entry name the same bank. */
  ghost predicate Agreed(d: Device, c: Component, bank: Bank) {
    Ready(d, c) && NvEntry(d, c).active == bank && c.id in d.vec.Current() && d.vec.Current()[c.id].bank == bank
  }

  /** Nothing is staged for a component but the entry it boots. */
  predicate NothingStale(v: Vec, id: string) {
    v.pending.Some? ==> id in v.pending.value && id in v.Current() && v.pending.value[id] == v.Current()[id]
  }

  /** Commits, restarts, and what others stage, commit or, with nothing stale staged, seal. */
  predicate Confirms(v: Vec, id: string, e: Event) {
    e.Commit? || e.Restart? || e.OthersCommit? || e.OthersStage? || (e.OthersSeal? && NothingStale(v, id))
  }

  predicate AllConfirm(v: Vec, id: string, es: seq<Event>) {
    forall e :: e in es ==> Confirms(v, id, e)
  }

  lemma ActiveIs(d: Device, c: Component)
    requires Ready(d, c)
    ensures NvActive(d.nv, c.slot) == NvEntry(d, c).active
    ensures RollbackTarget(d.nv, c.slot) ==
            if NvEntry(d, c).committed then Ota.Err(Ota.NotInTrial) else Ota.Ok(NvEntry(d, c).active.Other())
  {
    L.EntryRead(d.nv, c.slot);
  }

  lemma ConfirmKeepsAgreed(d: Device, c: Component, bank: Bank, e: Event)
    requires Agreed(d, c, bank) && Confirms(d.vec, c.id, e)
    ensures var d' := Step(d, c, e).0;
            && Agreed(d', c, bank) && d'.vec.Current()[c.id] == d.vec.Current()[c.id]
            && (NothingStale(d.vec, c.id) ==> NothingStale(d'.vec, c.id))
    ensures e.Commit? && Step(d, c, e).1 ==>
              var d' := Step(d, c, e).0;
              && NvEntry(d', c).committed
              && c.id in d'.vec.Committed() && d'.vec.Committed()[c.id] == d'.vec.Current()[c.id]
  {
    hide NvActive, Ota.CommitPlan, L.Good, NvStep;
    ActiveIs(d, c);
    if e.Commit? {
      CommitAfter(d.nv, c.slot, e.landed);
    }
  }

  lemma FirstConfirms(v: Vec, id: string, es: seq<Event>)
    requires es != [] && AllConfirm(v, id, es)
    ensures Confirms(v, id, es[0])
  {
    hide Confirms;
    assert es[0] in es;
  }

  lemma StillConfirm(v: Vec, v': Vec, id: string, es: seq<Event>)
    requires es != [] && AllConfirm(v, id, es) && (NothingStale(v, id) ==> NothingStale(v', id))
    ensures AllConfirm(v', id, es[1..])
  {
    hide NothingStale;
    assert forall e :: e in es[1..] ==> e in es;
  }

  lemma {:induction false} ConfirmsKeepAgreed(d: Device, c: Component, bank: Bank, es: seq<Event>)
    requires Agreed(d, c, bank) && AllConfirm(d.vec, c.id, es)
    ensures Agreed(Run(d, c, es), c, bank) && Run(d, c, es).vec.Current()[c.id] == d.vec.Current()[c.id]
    decreases |es|
  {
    hide Step, Ready, AllConfirm, NothingStale;
    if es == [] {
    } else {
      FirstConfirms(d.vec, c.id, es);
      ConfirmKeepsAgreed(d, c, bank, es[0]);
      StillConfirm(d.vec, Step(d, c, es[0]).0.vec, c.id, es);
      ConfirmsKeepAgreed(Step(d, c, es[0]).0, c, bank, es[1..]);
    }
  }

  lemma CommitLands(nv: Store, s: nat, landed: nat)
    requires L.Good(nv) && s < nv.slotCount && landed >= 2
    ensures Ota.Reported(Ota.CommitPlan(nv, s), landed) == Ota.CommitPlan(nv, s).result
    ensures nv.boot.Some? && !nv.boot.value[s].committed ==> Ota.CommitPlan(nv, s).result.Ok?
  {
    if nv.boot.Some? {
      L.EntryRead(nv, s);
    }
  }

  /** In an agreed state no reboot is owed, and a commit whose writes land succeeds. */
  lemma SoundCommitSucceeds(d: Device, c: Component, bank: Bank, e: Event)
    requires Agreed(d, c, bank) && e.Commit?
    ensures e.landed >= 2 && e.vecOk ==> Step(d, c, e).1
  {
    hide NvActive, Ota.CommitPlan, L.Good, NvStep;
    ActiveIs(d, c);
    CommitAfter(d.nv, c.slot, e.landed);
    if e.landed >= 2 {
      CommitLands(d.nv, c.slot, e.landed);
    }
  }

  /**
   * From any state in which both stores name one bank, trials of other components and an
   * absent floor included: any number of commit attempts, each failing at any NV or vector
   * write, with restarts and other components' commits, stagings and, unless a failed seal
   * left something of this one staged, seals between them, then one that succeeds, leaves
   * both stores committed on that bank with the same booted entry. One whose writes land does.
   */
  lemma CommitRetriesConverge(d: Device, c: Component, bank: Bank, es: seq<Event>, last: Event)
    requires Agreed(d, c, bank) && AllConfirm(d.vec, c.id, es) && last.Commit?
    ensures last.landed >= 2 && last.vecOk ==> Step(Run(d, c, es), c, last).1
    ensures Step(Run(d, c, es), c, last).1 ==>
              var r := Step(Run(d, c, es), c, last).0;
              && Ready(r, c) && NvEntry(r, c).active == bank && NvEntry(r, c).committed
              && c.id in r.vec.Current() && c.id in r.vec.Committed()
              && r.vec.Committed()[c.id] == r.vec.Current()[c.id] == d.vec.Current()[c.id]
              && r.vec.Current()[c.id].bank == bank
  {
    hide Run, Step, Ready, AllConfirm, NothingStale;
    ConfirmsKeepAgreed(d, c, bank, es);
    ConfirmKeepsAgreed(Run(d, c, es), c, bank, last);
    SoundCommitSucceeds(Run(d, c, es), c, bank, last);
  }

  // ----------------------------------------------------------------------
  // Standings
  // ----------------------------------------------------------------------

  /**
   * Where the two stores stand on a component, `bank` being NV's active bank.
   *
   *   NV         vector boots   vector floor
   *   committed  bank           bank           Settled
   *   trial      bank           sibling        Trial
   *   trial      sibling        sibling        HalfArmed
   *   committed  bank           sibling        HalfCommitted
   *   committed  sibling        bank           Split
   *   committed  sibling        sibling        Stranded
   *   trial      bank           bank           Ahead
   */
  datatype Phase =
    | Settled(bank: Bank)
    | Trial(bank: Bank)
    | HalfArmed(bank: Bank)
    | HalfCommitted(bank: Bank)
    | Split(bank: Bank)
    | Stranded(bank: Bank)
    | Ahead(bank: Bank)

  /** A phase, and whether the staging holds an entry of this component left by a failed seal. */
  datatype Standing = Standing(phase: Phase, stale: bool)

  predicate PhaseIs(b: BankBoot, boots: Entry, floor: Entry, p: Phase) {
    && b.active == p.bank
    && match p
       case Settled(k) => b.committed && boots == floor && boots.bank == k
       case Trial(k) => !b.committed && boots.bank == k && floor.bank == k.Other()
       case HalfArmed(k) => !b.committed && boots == floor && boots.bank == k.Other()
       case HalfCommitted(k) => b.committed && boots.bank == k && floor.bank == k.Other()
       case Split(k) => b.committed && boots.bank == k.Other() && floor.bank == k
       case Stranded(k) => b.committed && boots == floor && boots.bank == k.Other()
       case Ahead(k) => !b.committed && boots == floor && boots.bank == k
  }

  /** What the staging holds of this component: nothing, its booted entry, or a failed seal's. */
  predicate StagingIs(v: Vec, id: string, st: Standing)
    requires id in v.Current()
  {
    && (st.stale ==> v.pending.Some? && (st.phase.Settled? || st.phase.HalfArmed?))
    && (v.pending.Some? ==>
          && id in v.pending.value
          && if st.stale then v.pending.value[id].bank == v.Current()[id].bank.Other()
             else v.pending.value[id] == v.Current()[id])
  }

  ghost predicate In(d: Device, c: Component, st: Standing) {
    && Ready(d, c) && c.id in d.vec.Current() && c.id in d.vec.Committed()
    && PhaseIs(NvEntry(d, c), d.vec.Current()[c.id], d.vec.Committed()[c.id], st.phase)
    && StagingIs(d.vec, c.id, st)
  }

  /** Whether an event's NV writes all landed. */
  ghost predicate NvOk(d: Device, c: Component, e: Event)
    requires Ready(d, c)
  {
    match e
    case Flash(image, _, landed, _, _) => Ota.Reported(Ota.InstallPlan(d.nv, c.slot, image, false), landed).Ok?
    case Commit(landed, _) => Ota.Reported(Ota.CommitPlan(d.nv, c.slot), landed).Ok?
    case Rollback(_, landed) => Ota.Reported(Ota.RollbackPlan(d.nv, c.slot), landed).Ok?
    case HashFailure(landed) => Landed(Boot.HashFailurePlan(d.nv, c.slot), landed, None).Some?
    case _ => true
  }

  /** Whether an event's vector operation went through. */
  predicate VecOk(v: Vec, e: Event) {
    match e
    case Commit(_, ok) => ok
    case OthersCommit(ok) => ok
    case Rollback(ok, _) => RolledBack(v, ok).1.Done?
    case OthersRollback(ok) => RolledBack(v, ok).1.Done?
    case OthersSeal(ok) => Sealed(v, ok).1 == Done(true)
    case _ => true
  }

  function AfterFlash(st: Standing, arming: Arming, undone: bool): Standing {
    var target := st.phase.bank.Other();
    match arming
    case Sound => Standing(Trial(target), false)
    case PowerCut => Standing(HalfArmed(target), false)
    case ActivatorFails => st.(phase := if undone then st.phase else HalfArmed(target))
    case SealFails => Standing(if undone then st.phase else HalfArmed(target), true)
  }

  function AfterRollback(st: Standing, nvOk: bool): Standing {
    match st.phase
    case Trial(k) => Standing(if nvOk then Settled(k.Other()) else HalfArmed(k), false)
    case HalfArmed(k) => Standing(if nvOk then Settled(k.Other()) else HalfArmed(k), false)
    case Ahead(k) => Standing(if nvOk then Stranded(k.Other()) else Ahead(k), false)
    case _ => st
  }

  /** The machine of the seven phases. */
  function Next(st: Standing, e: Event, nvOk: bool, vecOk: bool): Standing {
    var p := st.phase;
    match e
    case Flash(_, _, _, arming, undoLanded) =>
      if p.Settled? && nvOk then AfterFlash(st, arming, undoLanded >= 1) else st
    case Commit(_, _) =>
      if p.Trial? && nvOk then st.(phase := if vecOk then Settled(p.bank) else HalfCommitted(p.bank))
      else if p.HalfCommitted? && vecOk then st.(phase := Settled(p.bank))
      else if p.Ahead? && nvOk then st.(phase := Settled(p.bank))
      else st
    case Rollback(_, _) => if vecOk then AfterRollback(st, nvOk) else st
    case HashFailure(_) =>
      if !nvOk then st
      else if p.Trial? then st.(phase := Split(p.bank.Other()))
      else if p.HalfArmed? then st.(phase := Settled(p.bank.Other()))
      else if p.Ahead? then st.(phase := Stranded(p.bank.Other()))
      else st
    case Restart => st.(stale := false)
    case OthersStage(_, _) => st
    case OthersSeal(_) =>
      if !vecOk then st
      else if !st.stale then st
      else Standing(if p.Settled? then Split(p.bank) else Trial(p.bank), false)
    case OthersCommit(_) =>
      if !vecOk then st
      else if p.Trial? then st.(phase := Ahead(p.bank))
      else if p.HalfCommitted? then st.(phase := Settled(p.bank))
      else if p.Split? then st.(phase := Stranded(p.bank))
      else st
    case OthersRollback(_) =>
      if !vecOk then st
      else if p.Trial? then Standing(HalfArmed(p.bank), false)
      else if p.HalfCommitted? then Standing(Stranded(p.bank), false)
      else if p.Split? then Standing(Settled(p.bank), false)
      else st.(stale := false)
  }

  /** What an event reports. */
  predicate Reports(p: Phase, e: Event, nvOk: bool, vecOk: bool) {
    match e
    case Flash(_, _, _, arming, _) => p.Settled? && nvOk && arming.Sound?
    case Commit(_, _) => vecOk && (p.Settled? || p.HalfCommitted? || ((p.Trial? || p.Ahead?) && nvOk))
    case Rollback(_, _) => (p.Trial? || p.HalfArmed? || p.Ahead?) && vecOk && nvOk
    case HashFailure(_) => nvOk
    case _ => vecOk
  }

  /** What every step keeps: the machine's next standing, and its report. */
  ghost predicate Follows(d: Device, c: Component, st: Standing, e: Event)
    requires Ready(d, c)
  {
    var (d', ok) := Step(d, c, e);
    && In(d', c, Next(st, e, NvOk(d, c, e), VecOk(d.vec, e)))
    && ok == Reports(st.phase, e, NvOk(d, c, e), VecOk(d.vec, e))
  }

  lemma CommitFollows(d: Device, c: Component, st: Standing, e: Event)
    requires In(d, c, st) && e.Commit?
    ensures Follows(d, c, st, e)
  {
    hide NvActive, Ota.CommitPlan, L.Good, NvStep;
    ActiveIs(d, c);
    CommitAfter(d.nv, c.slot, e.landed);
  }

  lemma RollbackFollows(d: Device, c: Component, st: Standing, e: Event)
    requires In(d, c, st) && e.Rollback?
    ensures Follows(d, c, st, e)
  {
    hide NvActive, RollbackTarget, Ota.RollbackPlan, L.Good, NvStep;
    ActiveIs(d, c);
    RollbackAfter(d.nv, c.slot, e.landed);
  }

  lemma HashFollows(d: Device, c: Component, st: Standing, e: Event)
    requires In(d, c, st) && e.HashFailure?
    ensures Follows(d, c, st, e)
  {
    hide Boot.HashFailurePlan, L.Good, NvStep;
    HashAfter(d.nv, c.slot, e.landed);
  }

  /** A flash not let in, or refused by NV, leaves both stores on this component as they were. */
  lemma FlashRefused(d: Device, c: Component, st: Standing, e: Event)
    requires In(d, c, st) && e.Flash? && !(MayFlash(d, c) && NvOk(d, c, e))
    ensures Follows(d, c, st, e)
  {
    hide NvActive, Ota.InstallPlan, L.Good, NvStep, StagingIs;
    ActiveIs(d, c);
    InstallAfter(d.nv, c.slot, e.image, e.landed);
  }

  lemma ActivationIs(v: Vec, id: string, e: Entry)
    ensures forall ok :: Activated(v, id, e, false, ok) == (v, false)
    ensures Activated(v, id, e, true, false) == (v.(pending := Some(v.Base()[id := e])), false)
    ensures var (r, ok) := Activated(v, id, e, true, true);
            ok && r.Current() == v.Base()[id := e] && r.Committed() == v.Committed() && r.pending.None?
  {
  }

  lemma FlashArms(d: Device, c: Component, st: Standing, e: Event)
    requires In(d, c, st) && e.Flash? && MayFlash(d, c) && NvOk(d, c, e) && (e.arming.Sound? || e.arming.PowerCut?)
    ensures Follows(d, c, st, e)
  {
    ActiveIs(d, c);
    InstallAfter(d.nv, c.slot, e.image, e.landed);
    ActivationIs(d.vec, c.id, Entry(TargetBank(d.nv, c.slot), e.images));
    assert st.phase.Settled?;
    hide NvActive, Ota.InstallPlan, L.Good, NvStep, MayFlash, Activated;
  }

  lemma FlashUndone(d: Device, c: Component, st: Standing, e: Event)
    requires In(d, c, st) && e.Flash? && MayFlash(d, c) && NvOk(d, c, e)
    requires e.arming.ActivatorFails? || e.arming.SealFails?
    ensures Follows(d, c, st, e)
  {
    ActiveIs(d, c);
    InstallAfter(d.nv, c.slot, e.image, e.landed);
    RollbackAfter(NvStep(d.nv, L.Install(c.slot, e.image), e.landed), c.slot, e.undoLanded);
    ActivationIs(d.vec, c.id, Entry(TargetBank(d.nv, c.slot), e.images));
    assert st.phase.Settled?;
    hide NvActive, Ota.InstallPlan, Ota.RollbackPlan, L.Good, NvStep, MayFlash, Activated;
  }

  lemma VectorFollows(d: Device, c: Component, st: Standing, e: Event)
    requires In(d, c, st) && (e.Restart? || !e.Own())
    ensures Follows(d, c, st, e)
  {
    hide L.Good;
  }

  /**
   * Whatever happens to a component, by its own operations failing at any write of either
   * store or by the vector moving on another's behalf, the two stores follow the machine.
   */
  lemma StepFollows(d: Device, c: Component, st: Standing, e: Event)
    requires In(d, c, st)
    ensures Follows(d, c, st, e)
  {
    assert Ready(d, c);
    hide Follows, In, MayFlash, NvOk;
    if e.Flash? {
      if !(MayFlash(d, c) && NvOk(d, c, e)) {
        FlashRefused(d, c, st, e);
      } else if e.arming.Sound? || e.arming.PowerCut? {
        FlashArms(d, c, st, e);
      } else {
        FlashUndone(d, c, st, e);
      }
    } else if e.Commit? {
      CommitFollows(d, c, st, e);
    } else if e.Rollback? {
      RollbackFollows(d, c, st, e);
    } else if e.HashFailure? {
      HashFollows(d, c, st, e);
    } else {
      VectorFollows(d, c, st, e);
    }
  }

  // ----------------------------------------------------------------------
  // Runs
  // ----------------------------------------------------------------------

  ghost function StandingAfter(d: Device, c: Component, st: Standing, es: seq<Event>): Standing
    requires Ready(d, c)
    decreases |es|
  {
    if es == [] then st
    else
      StepKeepsReady(d, c, es[0]);
      StandingAfter(Step(d, c, es[0]).0, c, Next(st, es[0], NvOk(d, c, es[0]), VecOk(d.vec, es[0])), es[1..])
  }

  /** So does every run, in any interleaving with what others do to the vector. */
  lemma {:induction false} RunFollows(d: Device, c: Component, st: Standing, es: seq<Event>)
    requires In(d, c, st)
    ensures In(Run(d, c, es), c, StandingAfter(d, c, st, es))
    decreases |es|
  {
    if es == [] {
    } else {
      StepFollows(d, c, st, es[0]);
      RunFollows(Step(d, c, es[0]).0, c, Next(st, es[0], NvOk(d, c, es[0]), VecOk(d.vec, es[0])), es[1..]);
      hide Step, In, Next, NvOk, VecOk;
    }
  }

  /** No other component is in trial, and nothing staged concerns another component. */
  predicate Alone(v: Vec, id: string) {
    && v.Current() - {id} == v.Committed() - {id}
    && (v.pending.Some? ==> v.pending.value - {id} == v.Current() - {id})
  }

  /** The entries of all components but one, in both copies. */
  function OthersOf(v: Vec, id: string): (Entries, Entries) {
    (v.Current() - {id}, v.Committed() - {id})
  }

  lemma FlashKeepsOthers(d: Device, c: Component, e: Event)
    requires Ready(d, c) && Alone(d.vec, c.id) && e.Flash?
    ensures var d' := Step(d, c, e).0; Alone(d'.vec, c.id) && OthersOf(d'.vec, c.id) == OthersOf(d.vec, c.id)
  {
    SealFrame(d.vec, c.id, Entry(TargetBank(d.nv, c.slot), e.images));
    hide NvStep, MayFlash, TargetBank, Ota.InstallPlan, L.Good;
  }

  /** With no other component in trial or staged, a component's operations touch no other's entries. */
  lemma StepKeepsOthers(d: Device, c: Component, e: Event)
    requires Ready(d, c) && Alone(d.vec, c.id) && e.Own()
    ensures var d' := Step(d, c, e).0; Alone(d'.vec, c.id) && OthersOf(d'.vec, c.id) == OthersOf(d.vec, c.id)
  {
    hide Flashed, PendingReboot, RollbackTarget, Ota.CommitPlan, Ota.RollbackPlan, NvStep, L.Good;
    if e.Flash? {
      FlashKeepsOthers(d, c, e);
    }
  }

  predicate AllOwn(es: seq<Event>) {
    forall e :: e in es ==> e.Own()
  }

  lemma {:induction false} RunKeepsOthers(d: Device, c: Component, es: seq<Event>)
    requires Ready(d, c) && Alone(d.vec, c.id) && AllOwn(es)
    ensures var r := Run(d, c, es); Alone(r.vec, c.id) && OthersOf(r.vec, c.id) == OthersOf(d.vec, c.id)
    decreases |es|
  {
    hide Step, Ready, Alone, OthersOf;
    if es == [] {
    } else {
      assert es[0] in es;
      StepKeepsOthers(d, c, es[0]);
      StepKeepsReady(d, c, es[0]);
      RunKeepsOthers(Step(d, c, es[0]).0, c, es[1..]);
    }
  }

  // ----------------------------------------------------------------------
  // Ways out
  // ----------------------------------------------------------------------

  /**
   * One sound operation settles every phase but one: the component's commit or rollback, or
   * for a split the vector's own rollback by the node.
   */
  lemma OneRepair(d: Device, c: Component, st: Standing, landed: nat)
    requires In(d, c, st) && landed >= 2
    ensures st.phase.HalfCommitted? || st.phase.Ahead? ==>
              In(Step(d, c, Event.Commit(landed, true)).0, c, Standing(Settled(st.phase.bank), false))
    ensures st.phase.HalfArmed? || st.phase.Trial? ==>
              In(Step(d, c, Event.Rollback(true, landed)).0, c, Standing(Settled(st.phase.bank.Other()), false))
    ensures st.phase.Split? ==>
              In(Step(d, c, OthersRollback(true)).0, c, Standing(Settled(st.phase.bank), false))
  {
    hide Step, Ota.CommitPlan, Ota.RollbackPlan, NvStep, L.Good, Ota.Reported;
    var commit, rollback, node := Event.Commit(landed, true), Event.Rollback(true, landed), OthersRollback(true);
    StepFollows(d, c, st, commit);
    StepFollows(d, c, st, rollback);
    StepFollows(d, c, st, node);
    CommitAfter(d.nv, c.slot, landed);
    RollbackAfter(d.nv, c.slot, landed);
    CommitLands(d.nv, c.slot, landed);
    assert d.vec.secondary.Some?;
  }

  /**
   * What a hash failure in an agreed trial, or another's commit over a split, leads to. A split
   * component's own operations move neither store; a stranded one is moved by nothing.
   */
  lemma NoWayOut(d: Device, c: Component, st: Standing, e: Event)
    requires In(d, c, st) && (st.phase.Stranded? || (st.phase.Split? && e.Own()))
    ensures var (d', ok) := Step(d, c, e);
            && d'.nv == d.nv && In(d', c, Standing(st.phase, false))
            && (e.Own() ==> d'.vec.primary == d.vec.primary && d'.vec.secondary == d.vec.secondary)
            && (e.Flash? || e.Commit? || e.Rollback? ==> !ok)
  {
    hide NvActive, RollbackTarget, Ota.InstallPlan, Boot.HashFailurePlan, NvStep, L.Good;
    StepFollows(d, c, st, e);
    ActiveIs(d, c);
    HashAfter(d.nv, c.slot, 0);
    if e.HashFailure? {
      HashAfter(d.nv, c.slot, e.landed);
    }
  }

  /** A hash failure breaks the protocol exactly in a trial whose bank the vector boots. */
  lemma HashFailureSplits(d: Device, c: Component, st: Standing, landed: nat)
    requires In(d, c, st) && landed >= 1
    ensures var st' := Next(st, HashFailure(landed), true, true);
            && In(Step(d, c, HashFailure(landed)).0, c, st')
            && (st'.phase != st.phase && !st'.phase.Settled? <==>
                  !NvEntry(d, c).committed && d.vec.Current()[c.id].bank == NvEntry(d, c).active)
  {
    hide Step, Boot.HashFailurePlan, NvStep, L.Good;
    StepFollows(d, c, st, HashFailure(landed));
    HashAfter(d.nv, c.slot, landed);
  }

  // ----------------------------------------------------------------------
  // Single operations, in any state
  // ----------------------------------------------------------------------

  /** NV moves in a rollback only once the vector has: refused or failed there, nothing moves. */
  lemma RollbackOrder(d: Device, slot: nat, vecOk: bool, landed: nat)
    requires slot < MAX_SLOTS && Wellformed(d.nv)
    ensures var (d', ok) := RolledBackBoth(d, slot, vecOk, landed);
            && (RollbackTarget(d.nv, slot).Err? || RolledBack(d.vec, vecOk).1.Failed? ==> d' == d && !ok)
            && (ok ==> d'.nv == ApplyAll(d.nv, Ota.RollbackPlan(d.nv, slot).writes)
                       && (d.vec.IsTrial() ==> d'.vec.Current() == d.vec.Committed()))
  {
    var plan := Ota.RollbackPlan(d.nv, slot);
    if landed >= |plan.writes| {
      assert plan.writes[..Min(landed, |plan.writes|)] == plan.writes;
    }
  }

  /** A flash never writes the bank the vector boots or the bank it falls back to. */
  lemma FlashTargetIsFree(d: Device, c: Component, st: Standing, image: Ota.Image, landed: nat)
    requires In(d, c, st) && MayFlash(d, c)
    requires Ota.Reported(Ota.InstallPlan(d.nv, c.slot, image, false), landed).Ok?
    ensures st.phase.Settled?
    ensures TargetBank(d.nv, c.slot) != d.vec.Current()[c.id].bank
    ensures TargetBank(d.nv, c.slot) != d.vec.Committed()[c.id].bank
  {
    hide Ota.InstallPlan, NvActive, NvStep, L.Good;
    ActiveIs(d, c);
    InstallAfter(d.nv, c.slot, image, landed);
  }

  /**
   * The provider's own commit does not look at the selection: a commit that succeeds settles
   * the component exactly when no reboot was owed before it, which is what the check in front
   * of it asks.
   */
  lemma CommitNeedsItsGuard(d: Device, c: Component, st: Standing, landed: nat)
    requires In(d, c, st) && CommittedBoth(d, c.slot, landed, true).1
    ensures var d' := CommittedBoth(d, c.slot, landed, true).0;
            && Ready(d', c) && c.id in d'.vec.Current() && c.id in d'.vec.Committed()
            && ((exists k :: PhaseIs(NvEntry(d', c), d'.vec.Current()[c.id], d'.vec.Committed()[c.id], Settled(k)))
                <==> !PendingReboot(d, c.slot, c.id))
  {
    ActiveIs(d, c);
    CommitAfter(d.nv, c.slot, landed);
    var d' := CommittedBoth(d, c.slot, landed, true).0;
    hide Ota.CommitPlan, NvActive, NvStep, L.Good, StagingIs;
    if !PendingReboot(d, c.slot, c.id) {
      assert PhaseIs(NvEntry(d', c), d'.vec.Current()[c.id], d'.vec.Committed()[c.id], Settled(st.phase.bank));
    }
  }

  // ----------------------------------------------------------------------
  // Several components at once
  // ----------------------------------------------------------------------

  /** The components of a device and how each stands; no two share a slot or an id. */
  ghost predicate Fleet(d: Device, standings: map<Component, Standing>) {
    && (forall c :: c in standings ==> In(d, c, standings[c]))
    && (forall c, k :: c in standings && k in standings && c != k ==> c.slot != k.slot && c.id != k.id)
  }

  /** An operation of one component, or the node's own rollback of the vector. */
  datatype Turn = Of(c: Component, e: Event) | NodeRollback(vecOk: bool)

  /** What one component's operation is to all others. */
  ghost function SeenByOthers(d: Device, c: Component, e: Event): seq<Event>
    requires Ready(d, c)
  {
    match e
    case Flash(_, images, _, arming, _) =>
      var staged := OthersStage(c.id, Entry(TargetBank(d.nv, c.slot), images));
      if !(MayFlash(d, c) && NvOk(d, c, e)) || arming.ActivatorFails? then []
      else if arming.PowerCut? then [Restart]
      else [staged, OthersSeal(arming.Sound?)]
    case Commit(landed, vecOk) =>
      var r := Ota.Reported(Ota.CommitPlan(d.nv, c.slot), landed);
      if PendingReboot(d, c.slot, c.id) || (r.Err? && r.error != Ota.AlreadyCommitted) then []
      else [OthersCommit(vecOk)]
    case Rollback(vecOk, _) => if RollbackTarget(d.nv, c.slot).Err? then [] else [OthersRollback(vecOk)]
    case HashFailure(_) => []
    case Restart => [Restart]
    case _ => []
  }

  lemma RunShort(d: Device, c: Component, es: seq<Event>)
    requires Ready(d, c) && |es| <= 2
    ensures es == [] ==> Run(d, c, es) == d
    ensures |es| == 1 ==> Run(d, c, es) == Step(d, c, es[0]).0
    ensures |es| == 2 ==> Ready(Step(d, c, es[0]).0, c) && Run(d, c, es) == Step(Step(d, c, es[0]).0, c, es[1]).0
  {
    hide Step, Ready;
    if |es| >= 1 {
      var next := Step(d, c, es[0]).0;
      StepKeepsReady(d, c, es[0]);
      assert Run(d, c, es) == Run(next, c, es[1..]);
      if |es| == 1 {
        assert es[1..] == [];
      } else {
        StepKeepsReady(next, c, es[1]);
        assert es[1..] == [es[1]] && es[1..][1..] == [];
        assert Run(next, c, es[1..]) == Run(Step(next, c, es[1]).0, c, []);
      }
    }
  }

  lemma OthersSeeFlash(d: Device, c: Component, e: Event, k: Component)
    requires Ready(d, c) && Ready(d, k) && k.id != c.id && e.Flash?
    ensures Run(d, k, SeenByOthers(d, c, e)) == d.(vec := Step(d, c, e).0.vec)
  {
    hide Run, MayFlash, TargetBank, NvStep, L.Good, Ota.InstallPlan, Reloaded;
    RunShort(d, k, SeenByOthers(d, c, e));
  }

  /** Seen from another component, an operation moves the vector and nothing else of its. */
  lemma OthersSeeVector(d: Device, c: Component, e: Event, k: Component)
    requires Ready(d, c) && Ready(d, k) && k.id != c.id && e.Own()
    ensures Run(d, k, SeenByOthers(d, c, e)) == d.(vec := Step(d, c, e).0.vec)
  {
    hide Run, Flashed, NvOk, PendingReboot, RollbackTarget, NvStep, L.Good, Ota.CommitPlan, Ota.RollbackPlan;
    if e.Flash? {
      OthersSeeFlash(d, c, e, k);
    } else {
      RunShort(d, k, SeenByOthers(d, c, e));
    }
  }

  /** An NV operation on one slot leaves the boot entry of every other. */
  lemma OtherEntryStays(nv: Store, op: L.Op, landed: nat, s: nat)
    requires L.Good(nv) && s < nv.slotCount && nv.boot.Some? && L.InRange(op) && L.Local(op, s).None?
    ensures NvStep(nv, op, landed).boot.Some? && NvStep(nv, op, landed).boot.value[s] == nv.boot.value[s]
  {
    hide L.Step, M.Valid;
    L.ViewValid(nv, s);
    L.StepRefines(nv, L.Event(op, landed), {}, s);
    assert L.View(NvStep(nv, op, landed), s).boot == Some(nv.boot.value[s]);
  }

  lemma OtherSlotStays(d: Device, c: Component, e: Event, s: nat)
    requires Ready(d, c) && s < d.nv.slotCount && s != c.slot
    ensures var nv' := Step(d, c, e).0.nv;
            && L.Good(nv') && nv'.slotCount == d.nv.slotCount
            && nv'.boot.Some? && nv'.boot.value[s] == d.nv.boot.value[s]
  {
    if e.Flash? {
      OtherEntryStays(d.nv, L.Install(c.slot, e.image), e.landed, s);
      OtherEntryStays(NvStep(d.nv, L.Install(c.slot, e.image), e.landed), L.Rollback(c.slot), e.undoLanded, s);
    } else if e.Commit? {
      CommitAfter(d.nv, c.slot, e.landed);
      OtherEntryStays(d.nv, L.Commit(c.slot), e.landed, s);
    } else if e.Rollback? {
      RollbackAfter(d.nv, c.slot, e.landed);
      OtherEntryStays(d.nv, L.Rollback(c.slot), e.landed, s);
    } else if e.HashFailure? {
      OtherEntryStays(d.nv, L.HashFailure(c.slot), e.landed, s);
    }
    hide NvStep, L.Good, MayFlash, PendingReboot, Ota.InstallPlan, Ota.CommitPlan, Ota.RollbackPlan, Ota.Reported,
      Boot.HashFailurePlan, Activated, RolledBack, CommittedVec, Sealed;
  }

  /** A standing depends on the vector and on the component's own NV entry only. */
  lemma SameStanding(d: Device, d': Device, k: Component, st: Standing)
    requires In(d, k, st) && d'.vec == d.vec && Ready(d', k) && NvEntry(d', k) == NvEntry(d, k)
    ensures In(d', k, st)
  {
    hide PhaseIs, StagingIs, L.Good;
  }

  ghost function AfterTurn(d: Device, standings: map<Component, Standing>, t: Turn): map<Component, Standing>
    requires Fleet(d, standings) && (t.Of? ==> t.c in standings)
  {
    map k | k in standings ::
      if t.NodeRollback? then Next(standings[k], OthersRollback(t.vecOk), true, VecOk(d.vec, OthersRollback(t.vecOk)))
      else if k == t.c then Next(standings[k], t.e, NvOk(d, k, t.e), VecOk(d.vec, t.e))
      else StandingAfter(d, k, standings[k], SeenByOthers(d, t.c, t.e))
  }

  ghost function AfterTurnDevice(d: Device, t: Turn): Device
    requires t.Of? ==> Ready(d, t.c)
  {
    if t.NodeRollback? then d.(vec := RolledBack(d.vec, t.vecOk).0) else Step(d, t.c, t.e).0
  }

  lemma OtherStandingFollows(d: Device, c: Component, e: Event, k: Component, st: Standing)
    requires Ready(d, c) && In(d, k, st) && k.slot != c.slot && k.id != c.id && e.Own()
    ensures In(Step(d, c, e).0, k, StandingAfter(d, k, st, SeenByOthers(d, c, e)))
  {
    var es := SeenByOthers(d, c, e);
    RunFollows(d, k, st, es);
    OthersSeeVector(d, c, e, k);
    OtherSlotStays(d, c, e, k.slot);
    hide In, Step, Run, StandingAfter, SeenByOthers, L.Good;
    SameStanding(Run(d, k, es), Step(d, c, e).0, k, StandingAfter(d, k, st, es));
  }

  lemma AfterTurnKeys(d: Device, standings: map<Component, Standing>, t: Turn)
    requires Fleet(d, standings) && (t.Of? ==> t.c in standings)
    ensures AfterTurn(d, standings, t).Keys == standings.Keys
    ensures t.Of? ==> Ready(d, t.c)
  {
    hide Next, NvOk, VecOk, StandingAfter, SeenByOthers, PhaseIs, StagingIs;
  }

  lemma NodeRollbackIs(d: Device, k: Component, vecOk: bool)
    requires Ready(d, k)
    ensures Step(d, k, OthersRollback(vecOk)).0 == d.(vec := RolledBack(d.vec, vecOk).0)
    ensures NvOk(d, k, OthersRollback(vecOk))
  {
    hide RolledBack, L.Good;
  }

  lemma MemberFollows(d: Device, standings: map<Component, Standing>, t: Turn, k: Component)
    requires Fleet(d, standings) && (t.Of? ==> t.c in standings && t.e.Own() && Ready(d, t.c)) && k in standings
    ensures k in AfterTurn(d, standings, t) && In(AfterTurnDevice(d, t), k, AfterTurn(d, standings, t)[k])
  {
    hide Step, Next, NvOk, VecOk, StandingAfter, SeenByOthers, PhaseIs, StagingIs, L.Good;
    assert In(d, k, standings[k]);
    if t.NodeRollback? {
      StepFollows(d, k, standings[k], OthersRollback(t.vecOk));
      NodeRollbackIs(d, k, t.vecOk);
    } else if k == t.c {
      StepFollows(d, k, standings[k], t.e);
    } else {
      OtherStandingFollows(d, t.c, t.e, k, standings[k]);
    }
  }

  /** One turn of anyone takes every component to the standing the machine gives it. */
  lemma TurnKeepsFleet(d: Device, standings: map<Component, Standing>, t: Turn)
    requires Fleet(d, standings) && (t.Of? ==> t.c in standings && t.e.Own())
    ensures Fleet(AfterTurnDevice(d, t), AfterTurn(d, standings, t))
  {
    hide In, AfterTurnDevice, AfterTurn;
    AfterTurnKeys(d, standings, t);
    forall k | k in standings ensures In(AfterTurnDevice(d, t), k, AfterTurn(d, standings, t)[k]) {
      MemberFollows(d, standings, t, k);
    }
  }

  predicate Turns(standings: map<Component, Standing>, ts: seq<Turn>) {
    forall t :: t in ts && t.Of? ==> t.c in standings && t.e.Own()
  }

  /**
   * Any number of components, in trial together or not, operating in any order with faults
   * anywhere, and the node rolling the vector back at any time: every component stays in one
   * of the seven phases.
   */
  ghost function FleetRun(d: Device, standings: map<Component, Standing>, ts: seq<Turn>):
    (r: (Device, map<Component, Standing>))
    requires Fleet(d, standings) && Turns(standings, ts)
    ensures r.1.Keys == standings.Keys && Fleet(r.0, r.1)
    decreases |ts|
  {
    if ts == [] then (d, standings)
    else
      assert ts[0] in ts;
      TurnKeepsFleet(d, standings, ts[0]);
      FleetRun(AfterTurnDevice(d, ts[0]), AfterTurn(d, standings, ts[0]), ts[1..])
  }

  /** Every turn is another component's, taken with no other component in trial or staged. */
  ghost predicate OthersInOrder(d: Device, ts: seq<Turn>, k: Component)
    decreases |ts|
  {
    ts == []
    || (&& ts[0].Of? && ts[0].e.Own() && ts[0].c.slot != k.slot && ts[0].c.id != k.id
        && Ready(d, ts[0].c) && Alone(d.vec, ts[0].c.id)
        && OthersInOrder(Step(d, ts[0].c, ts[0].e).0, ts[1..], k))
  }

  ghost function TurnsRun(d: Device, ts: seq<Turn>, k: Component): Device
    requires OthersInOrder(d, ts, k)
    decreases |ts|
  {
    if ts == [] then d else TurnsRun(Step(d, ts[0].c, ts[0].e).0, ts[1..], k)
  }

  lemma SameEntry(m: Entries, m': Entries, id: string, other: string)
    requires m - {id} == m' - {id} && id != other && other in m
    ensures other in m' && m'[other] == m[other]
  {
    assert other in m - {id};
  }

  /** Through turns taken in order, a component that takes none keeps all three of its entries. */
  lemma {:induction false} BystanderStays(d: Device, ts: seq<Turn>, k: Component)
    requires Ready(d, k) && k.id in d.vec.Current() && k.id in d.vec.Committed() && OthersInOrder(d, ts, k)
    ensures var r := TurnsRun(d, ts, k);
            && Ready(r, k) && NvEntry(r, k) == NvEntry(d, k)
            && k.id in r.vec.Current() && r.vec.Current()[k.id] == d.vec.Current()[k.id]
            && k.id in r.vec.Committed() && r.vec.Committed()[k.id] == d.vec.Committed()[k.id]
    decreases |ts|
  {
    hide Step, L.Good, Alone;
    if ts == [] {
    } else {
      var c, d' := ts[0].c, Step(d, ts[0].c, ts[0].e).0;
      StepKeepsOthers(d, c, ts[0].e);
      OtherSlotStays(d, c, ts[0].e, k.slot);
      SameEntry(d.vec.Current(), d'.vec.Current(), c.id, k.id);
      SameEntry(d.vec.Committed(), d'.vec.Committed(), c.id, k.id);
      BystanderStays(d', ts[1..], k);
    }
  }
}
