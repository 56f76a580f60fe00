// Whole runs over the NV store: any sequence of operations on any slots, each cut at any
// write. Seen from one slot, a run is a run of the slot machine on the events that concern
// that slot, so every slot's history is independent of the others.
module Lifecycle {
  import opened Base
  import opened Nv
  import Boot
  import Did
  import Ota
  import M = SlotMachine

  datatype Op =
    | Install(slot: nat, image: Ota.Image)
    | Commit(slot: nat)
    | Rollback(slot: nat)
    | BootDevice
    | HashFailure(slot: nat)
    | WriteDid(slot: nat, did: nat, data: seq<byte>)
    | RaiseFloor(slot: nat, running: Bank, secver: nat)
    | Disable(slot: nat, serving: Bank)

  datatype Event = Event(op: Op, landed: nat)

  predicate InRange(op: Op) {
    op.BootDevice? || op.slot < MAX_SLOTS
  }

  ghost predicate Good(nv: Store) {
    Wellformed(nv) && Did.TablesValid(nv)
  }

  /** The writes an operation makes; `singles` are the single-bank slots. */
  ghost function Writes(nv: Store, op: Op, singles: set<nat>): seq<Write>
    requires Good(nv) && InRange(op)
  {
    match op
    case Install(slot, image) => Ota.InstallPlan(nv, slot, image, slot in singles).writes
    case Commit(slot) => Ota.CommitPlan(nv, slot).writes
    case Rollback(slot) => Ota.RollbackPlan(nv, slot).writes
    case BootDevice => Boot.BootPlan(nv).writes
    case HashFailure(slot) => Boot.HashFailurePlan(nv, slot).writes
    case WriteDid(slot, did, data) => Did.WriteDidPlan(nv, slot, did, data).writes
    case RaiseFloor(slot, running, secver) => Ota.RaiseFloorPlan(nv, slot, running, secver, slot in singles).writes
    case Disable(slot, serving) => Ota.DisablePlan(nv, slot, serving, slot in singles).writes
  }

  // ----------------------------------------------------------------------
  // A store seen from one slot
  // ----------------------------------------------------------------------

  function BankView(nv: Store, s: nat, bank: Bank): M.BankData {
    M.BankData(ReadMeta(nv, s, bank), ReadRuntime(nv, s, bank))
  }

  function View(nv: Store, s: nat): M.Slot
    requires Wellformed(nv) && s < nv.slotCount
  {
    M.Slot(if nv.boot.None? then None else Some(nv.boot.value[s]), BankView(nv, s, A), BankView(nv, s, B))
  }

  /** What an operation is to slot `s`: nothing, if it is another slot's. */
  function Local(op: Op, s: nat): Option<M.Op> {
    if op.BootDevice? then Some(M.Boot)
    else if op.slot != s then None
    else
      match op
      case Install(_, image) => Some(M.Install(image))
      case Commit(_) => Some(M.Commit)
      case Rollback(_) => Some(M.Rollback)
      case HashFailure(_) => Some(M.HashFailure)
      case WriteDid(_, did, data) => Some(M.WriteDid(did, data))
      case RaiseFloor(_, running, secver) => Some(M.RaiseFloor(running, secver))
      case Disable(_, serving) => Some(M.Disable(serving))
      case BootDevice => None
  }

  ghost function LocalStep(v: M.Slot, e: Event, s: nat, singles: set<nat>): M.Slot
    requires M.Valid(v)
  {
    match Local(e.op, s)
    case None => v
    case Some(op) => M.Step(v, M.Event(op, e.landed), s in singles)
  }

  lemma ViewValid(nv: Store, s: nat)
    requires Good(nv) && s < nv.slotCount
    ensures M.Valid(View(nv, s))
  {
  }

  // ----------------------------------------------------------------------
  // Writes seen from one slot
  // ----------------------------------------------------------------------

  /** A write that leaves every store it is applied to in good order. */
  ghost predicate Fits(w: Write, slotCount: nat) {
    match w
    case PutBoot(banks) => |banks| == MAX_SLOTS
    case PutMeta(slot, _, _) => slot < slotCount
    case PutRuntime(slot, _, t) => slot < slotCount && M.TableValid(t)
  }

  /** One write, as slot `s` sees it. */
  function Seen(v: M.Slot, w: Write, s: nat): M.Slot {
    match w
    case PutBoot(banks) => if s < |banks| then v.(boot := Some(banks[s])) else v
    case PutMeta(slot, bank, m) => if slot == s then v.With(bank, v.At(bank).(meta := Some(m))) else v
    case PutRuntime(slot, bank, t) => if slot == s then v.With(bank, v.At(bank).(runtime := Some(t))) else v
  }

  function AllSeen(v: M.Slot, ws: seq<Write>, s: nat): M.Slot
    decreases |ws|
  {
    if ws == [] then v else AllSeen(Seen(v, ws[0], s), ws[1..], s)
  }

  lemma WriteSeen(nv: Store, w: Write, s: nat)
    requires Good(nv) && Fits(w, nv.slotCount)
    ensures Good(Apply(nv, w)) && Apply(nv, w).slotCount == nv.slotCount && Apply(nv, w).factory == nv.factory
    ensures s < nv.slotCount ==> View(Apply(nv, w), s) == Seen(View(nv, s), w, s)
  {
    hide Did.TableShape, Did.Distinct;
  }

  lemma {:induction false} WritesSeen(nv: Store, ws: seq<Write>, s: nat)
    requires Good(nv) && forall w :: w in ws ==> Fits(w, nv.slotCount)
    ensures var r := ApplyAll(nv, ws);
            && Good(r) && r.slotCount == nv.slotCount && r.factory == nv.factory
            && (s < nv.slotCount ==> View(r, s) == AllSeen(View(nv, s), ws, s))
    decreases |ws|
  {
    hide Good, View, Fits, Apply, Seen;
    if ws == [] {
    } else {
      WriteSeen(nv, ws[0], s);
      WritesSeen(Apply(nv, ws[0]), ws[1..], s);
    }
  }

  /** What slot `s` sees of the first `landed` of at most three writes. */
  function FirstSeen(v: M.Slot, ws: seq<Write>, landed: nat, s: nat): M.Slot {
    var v1 := if landed >= 1 && |ws| >= 1 then Seen(v, ws[0], s) else v;
    var v2 := if landed >= 2 && |ws| >= 2 then Seen(v1, ws[1], s) else v1;
    if landed >= 3 && |ws| >= 3 then Seen(v2, ws[2], s) else v2
  }

  lemma FewSeen(v: M.Slot, ws: seq<Write>, landed: nat, s: nat)
    requires |ws| <= 3
    ensures AllSeen(v, ws[..Min(landed, |ws|)], s) == FirstSeen(v, ws, landed, s)
  {
    hide Seen;
    var cut := ws[..Min(landed, |ws|)];
    if |cut| >= 1 {
      var v1 := Seen(v, ws[0], s);
      assert AllSeen(v, cut, s) == AllSeen(v1, cut[1..], s);
      if |cut| >= 2 {
        var v2 := Seen(v1, ws[1], s);
        assert AllSeen(v1, cut[1..], s) == AllSeen(v2, cut[1..][1..], s);
        if |cut| == 3 {
          assert cut[1..][1..] == [ws[2]];
          assert AllSeen(v2, [ws[2]], s) == AllSeen(Seen(v2, ws[2], s), [], s);
        }
      }
    }
  }

  lemma EntryRead(nv: Store, s: nat)
    requires Wellformed(nv) && s < nv.slotCount && nv.boot.Some?
    ensures ReadBoot(nv).value[s] == nv.boot.value[s] == View(nv, s).boot.value
  {
  }

  lemma InstallFits(nv: Store, slot: nat, image: Ota.Image, single: bool)
    requires Good(nv) && slot < MAX_SLOTS
    ensures var ws := Ota.InstallPlan(nv, slot, image, single).writes;
            |ws| <= 3 && forall w :: w in ws ==> Fits(w, nv.slotCount)
  {
    assert M.TableValid(EmptyRuntime());
    hide Did.TableShape, Did.Distinct;
  }

  lemma WriteDidFits(nv: Store, slot: nat, did: nat, data: seq<byte>)
    requires Good(nv) && slot < MAX_SLOTS
    ensures var ws := Did.WriteDidPlan(nv, slot, did, data).writes;
            |ws| <= 1 && forall w :: w in ws ==> Fits(w, nv.slotCount)
  {
    Did.TableRefinesMap(Did.ActiveTable(nv, slot), did, data);
    hide Did.TableShape, Did.Distinct, Did.TableWrite;
  }

  /** Every operation makes at most three writes, none of which breaks the store. */
  lemma WritesFit(nv: Store, op: Op, singles: set<nat>)
    requires Good(nv) && InRange(op)
    ensures var ws := Writes(nv, op, singles); |ws| <= 3 && forall w :: w in ws ==> Fits(w, nv.slotCount)
  {
    hide Did.TableShape, Did.Distinct, Did.WriteDidPlan, Ota.InstallPlan;
    if op.WriteDid? {
      WriteDidFits(nv, op.slot, op.did, op.data);
    } else if op.Install? {
      InstallFits(nv, op.slot, op.image, op.slot in singles);
    }
  }

  /** One operation of which the first `landed` writes land. */
  ghost function Step(nv: Store, e: Event, singles: set<nat>): (r: Store)
    requires Good(nv) && InRange(e.op)
    ensures Good(r) && r.slotCount == nv.slotCount && r.factory == nv.factory
  {
    WritesFit(nv, e.op, singles);
    var ws := Writes(nv, e.op, singles);
    WritesSeen(nv, ws[..Min(e.landed, |ws|)], 0);
    Carry(nv, ws, e.landed)
  }

  lemma StepSeen(nv: Store, e: Event, singles: set<nat>, s: nat)
    requires Good(nv) && InRange(e.op) && s < nv.slotCount
    ensures View(Step(nv, e, singles), s) == FirstSeen(View(nv, s), Writes(nv, e.op, singles), e.landed, s)
  {
    var ws := Writes(nv, e.op, singles);
    WritesFit(nv, e.op, singles);
    hide Writes, Good, View, Fits, Seen;
    WritesSeen(nv, ws[..Min(e.landed, |ws|)], s);
    FewSeen(View(nv, s), ws, e.landed, s);
  }

  lemma OthersUnseen(nv: Store, op: Op, singles: set<nat>, landed: nat, s: nat)
    requires Good(nv) && InRange(op) && s < nv.slotCount && Local(op, s).None?
    ensures FirstSeen(View(nv, s), Writes(nv, op, singles), landed, s) == View(nv, s)
  {
    if nv.boot.Some? {
      EntryRead(nv, s);
    }
    hide ReadBoot, ReadMeta, ReadRuntime, Did.TablesValid, Did.TableWrite, Ota.InstallRefusal, Ota.NewMeta, Ota.CopiedRuntime;
  }

  lemma InstallSeen(nv: Store, s: nat, image: Ota.Image, landed: nat)
    requires Good(nv) && s < nv.slotCount
    ensures FirstSeen(View(nv, s), Ota.InstallPlan(nv, s, image, false).writes, landed, s)
            == M.AfterInstall(View(nv, s), image, landed)
  {
    hide ReadBoot, ReadMeta, ReadRuntime, Did.TablesValid, Ota.NewMeta;
    if nv.boot.Some? {
      EntryRead(nv, s);
    }
  }

  lemma SingleInstallSeen(nv: Store, s: nat, image: Ota.Image, landed: nat)
    requires Good(nv) && s < nv.slotCount
    ensures FirstSeen(View(nv, s), Ota.InstallPlan(nv, s, image, true).writes, landed, s)
            == M.AfterSingleInstall(View(nv, s), image, landed)
  {
    hide ReadBoot, ReadMeta, ReadRuntime, Did.TablesValid, Ota.NewMeta;
    if nv.boot.Some? {
      EntryRead(nv, s);
    }
  }

  lemma CommitSeen(nv: Store, s: nat, landed: nat)
    requires Good(nv) && s < nv.slotCount
    ensures FirstSeen(View(nv, s), Ota.CommitPlan(nv, s).writes, landed, s) == M.AfterCommit(View(nv, s), landed)
  {
    hide ReadBoot, ReadMeta, ReadRuntime, Did.TablesValid;
    if nv.boot.Some? {
      EntryRead(nv, s);
    }
  }

  lemma FallBackSeen(nv: Store, s: nat, landed: nat)
    requires Good(nv) && s < nv.slotCount
    ensures FirstSeen(View(nv, s), Ota.RollbackPlan(nv, s).writes, landed, s) == M.FellBack(View(nv, s), landed)
    ensures FirstSeen(View(nv, s), Boot.HashFailurePlan(nv, s).writes, landed, s) == M.FellBack(View(nv, s), landed)
  {
    hide ReadBoot, ReadMeta, ReadRuntime, Did.TablesValid;
    if nv.boot.Some? {
      EntryRead(nv, s);
    }
  }

  lemma BootSeen(nv: Store, s: nat, landed: nat)
    requires Good(nv) && s < nv.slotCount
    ensures FirstSeen(View(nv, s), Boot.BootPlan(nv).writes, landed, s) == M.AfterBoot(View(nv, s), landed)
  {
    hide ReadBoot, ReadMeta, ReadRuntime, Did.TablesValid;
    if nv.boot.Some? {
      EntryRead(nv, s);
    }
  }

  lemma WriteDidSeen(nv: Store, s: nat, did: nat, data: seq<byte>, landed: nat)
    requires Good(nv) && s < nv.slotCount && M.Valid(View(nv, s))
    ensures FirstSeen(View(nv, s), Did.WriteDidPlan(nv, s, did, data).writes, landed, s)
            == M.AfterWriteDid(View(nv, s), did, data, landed)
  {
    hide ReadBoot, ReadMeta, ReadRuntime, Did.TableWrite;
    if nv.boot.Some? {
      EntryRead(nv, s);
    }
  }

  lemma RaiseSeen(nv: Store, s: nat, running: Bank, secver: nat, single: bool, landed: nat)
    requires Good(nv) && s < nv.slotCount
    ensures FirstSeen(View(nv, s), Ota.RaiseFloorPlan(nv, s, running, secver, single).writes, landed, s)
            == M.AfterRaise(View(nv, s), running, secver, landed, single)
  {
    hide ReadBoot, ReadMeta, ReadRuntime, Did.TablesValid;
    if nv.boot.Some? {
      EntryRead(nv, s);
    }
  }

  lemma DisableSeen(nv: Store, s: nat, serving: Bank, single: bool, landed: nat)
    requires Good(nv) && s < nv.slotCount
    ensures FirstSeen(View(nv, s), Ota.DisablePlan(nv, s, serving, single).writes, landed, s)
            == M.AfterDisable(View(nv, s), serving, landed, single)
  {
    hide ReadBoot, ReadMeta, ReadRuntime, Did.TablesValid;
    if nv.boot.Some? {
      EntryRead(nv, s);
    }
  }

  /** Seen from a slot, a step is the slot machine's step if it concerns the slot, else nothing. */
  lemma StepRefines(nv: Store, e: Event, singles: set<nat>, s: nat)
    requires Good(nv) && InRange(e.op) && s < nv.slotCount && M.Valid(View(nv, s))
    ensures View(Step(nv, e, singles), s) == LocalStep(View(nv, s), e, s, singles)
  {
    hide Step, View, Good, FirstSeen, M.Valid, Ota.InstallPlan, Ota.CommitPlan, Ota.RollbackPlan, Ota.RaiseFloorPlan,
      Ota.DisablePlan, Boot.BootPlan, Boot.HashFailurePlan, Did.WriteDidPlan, M.AfterInstall, M.AfterSingleInstall,
      M.AfterCommit, M.FellBack, M.AfterBoot, M.AfterWriteDid, M.AfterRaise, M.AfterDisable;
    StepSeen(nv, e, singles, s);
    match Local(e.op, s)
    case None =>
      OthersUnseen(nv, e.op, singles, e.landed, s);
    case Some(Install(image)) =>
      InstallSeen(nv, s, image, e.landed);
      SingleInstallSeen(nv, s, image, e.landed);
    case Some(Commit) => CommitSeen(nv, s, e.landed);
    case Some(Rollback) => FallBackSeen(nv, s, e.landed);
    case Some(HashFailure) => FallBackSeen(nv, s, e.landed);
    case Some(Boot) => BootSeen(nv, s, e.landed);
    case Some(WriteDid(did, data)) => WriteDidSeen(nv, s, did, data, e.landed);
    case Some(RaiseFloor(running, secver)) => RaiseSeen(nv, s, running, secver, s in singles, e.landed);
    case Some(Disable(serving)) => DisableSeen(nv, s, serving, s in singles, e.landed);
  }

  // ----------------------------------------------------------------------
  // Runs
  // ----------------------------------------------------------------------

  predicate AllInRange(es: seq<Event>) {
    forall e :: e in es ==> InRange(e.op)
  }

  ghost function Run(nv: Store, es: seq<Event>, singles: set<nat>): (r: Store)
    requires Good(nv) && AllInRange(es)
    ensures Good(r) && r.slotCount == nv.slotCount && r.factory == nv.factory
    decreases |es|
  {
    if es == [] then nv else Run(Step(nv, es[0], singles), es[1..], singles)
  }

  /** The events of a run that concern slot `s`. */
  function Project(es: seq<Event>, s: nat): seq<M.Event> {
    if es == [] then []
    else
      match Local(es[0].op, s)
      case None => Project(es[1..], s)
      case Some(op) => [M.Event(op, es[0].landed)] + Project(es[1..], s)
  }

  /** A slot's part of a run depends on its own part of the store and its own events only. */
  lemma {:induction false} RunRefines(nv: Store, es: seq<Event>, singles: set<nat>, s: nat)
    requires Good(nv) && AllInRange(es) && s < nv.slotCount
    ensures M.Valid(View(nv, s))
    ensures View(Run(nv, es, singles), s) == M.Run(View(nv, s), Project(es, s), s in singles)
    decreases |es|
  {
    hide View, Step, Good, M.Step, M.Valid;
    ViewValid(nv, s);
    if es == [] {
    } else {
      StepRefines(nv, es[0], singles, s);
      RunRefines(Step(nv, es[0], singles), es[1..], singles, s);
    }
  }

  /** Two stores that agree on a slot, under runs that agree on it, go on agreeing on it. */
  lemma SlotsAreIndependent(
    nv: Store, es: seq<Event>, nv': Store, es': seq<Event>, singles: set<nat>, singles': set<nat>, s: nat)
    requires Good(nv) && AllInRange(es) && s < nv.slotCount
    requires Good(nv') && AllInRange(es') && s < nv'.slotCount
    requires View(nv, s) == View(nv', s) && Project(es, s) == Project(es', s) && (s in singles <==> s in singles')
    ensures View(Run(nv, es, singles), s) == View(Run(nv', es', singles'), s)
  {
    RunRefines(nv, es, singles, s);
    RunRefines(nv', es', singles', s);
  }

  /** An install goes through exactly on a committed slot, at or above its floor, all writes landing. */
  lemma InstallOutcome(nv: Store, s: nat, image: Ota.Image, landed: nat)
    requires Good(nv) && s < nv.slotCount
    ensures Ota.Reported(Ota.InstallPlan(nv, s, image, false), landed).Ok?
            <==> M.Accepts(View(nv, s), image) && landed >= 3
  {
    hide ReadBoot, ReadMeta, Ota.NewMeta, Ota.CopiedRuntime, Did.TablesValid;
    if nv.boot.Some? {
      EntryRead(nv, s);
    }
  }

  /**
   * For every A/B slot and every run, cut anywhere: the fallback's generation counts the
   * completed commits and disables; its floor is the one last committed or raised, and no
   * lower than any set before it or than the floor at the start; no image below any of them
   * installs afterwards.
   */
  lemma FloorHolds(nv: Store, es: seq<Event>, singles: set<nat>, s: nat, image: Ota.Image, landed: nat)
    requires Good(nv) && AllInRange(es) && s < nv.slotCount && s !in singles
    requires M.Valid(View(nv, s)) && M.TrialInv(View(nv, s))
    ensures var end, mine := Run(nv, es, singles), Project(es, s);
            var floors := [View(nv, s).Floor()] + M.Floors(View(nv, s), mine);
            && M.NonDecreasing(floors)
            && View(end, s).Floor() == floors[|floors| - 1]
            && View(end, s).Gen() == View(nv, s).Gen() + M.GenMoves(View(nv, s), mine)
            && (Ota.Reported(Ota.InstallPlan(end, s, image, false), landed).Ok? ==>
                  forall v :: v in floors ==> v <= image.fwSecver)
  {
    RunRefines(nv, es, singles, s);
    M.FloorHistory(View(nv, s), Project(es, s));
    var end := Run(nv, es, singles);
    InstallOutcome(end, s, image, landed);
    hide Run, View, Good, M.Floors, M.GenMoves, M.Run, Ota.InstallPlan;
  }

  // ----------------------------------------------------------------------
  // A trial undone
  // ----------------------------------------------------------------------

  /** Reads resolve alike in two stores whose slot is on the same bank with the same data. */
  lemma SameSlotSameReads(nv: Store, nv': Store, s: nat, did: nat)
    requires Good(nv) && Good(nv') && nv.slotCount == nv'.slotCount && nv.factory == nv'.factory
    requires s < nv.slotCount && nv.boot.Some? && nv'.boot.Some?
    requires View(nv, s).Active() == View(nv', s).Active()
    requires View(nv, s).At(View(nv, s).Active()) == View(nv', s).At(View(nv, s).Active())
    ensures Did.Resolved(nv, s, did, None) == Did.Resolved(nv', s, did, None)
  {
    hide ReadBoot, ReadMeta, ReadRuntime, Did.StaticDid, Did.Contents, Did.TableShape, Did.Distinct, Did.TablesValid;
    EntryRead(nv, s);
    EntryRead(nv', s);
    var bank := View(nv, s).Active();
    assert BankView(nv, s, bank) == BankView(nv', s, bank);
    Did.StaticDidDependsOn(nv, nv', s, bank, did);
  }

  /**
   * A committed slot takes a successful install; the device then runs on, whatever happens to
   * any slot, while this one's trial lasts; any event but a completed commit ends the trial.
   * The slot is then committed on the bank it was on, with that bank's firmware metadata and
   * runtime data, and every data identifier reads as before the install.
   */
  lemma RollbackRestores(
    nv: Store, s: nat, image: Ota.Image, landed: nat, es: seq<Event>, last: Event, singles: set<nat>, did: nat)
    requires Good(nv) && s < nv.slotCount && s !in singles && M.Valid(View(nv, s))
    requires Ota.Reported(Ota.InstallPlan(nv, s, image, false), landed).Ok?
    requires AllInRange(es) && InRange(last.op) && Local(last.op, s).Some?
    requires var armed := Step(nv, Event(Install(s, image), landed), singles);
             M.Valid(View(armed, s)) && M.StaysInTrial(View(armed, s), Project(es, s))
    requires var w := Run(Step(nv, Event(Install(s, image), landed), singles), es, singles);
             && !M.Completes(View(w, s), M.Event(Local(last.op, s).value, last.landed))
             && !View(Step(w, last, singles), s).InTrial()
    ensures var end := Step(Run(Step(nv, Event(Install(s, image), landed), singles), es, singles), last, singles);
            && end.boot.Some? && end.boot.value[s] == BankBoot(View(nv, s).Active(), true, 0)
            && BankView(end, s, View(nv, s).Active()) == BankView(nv, s, View(nv, s).Active())
            && Did.Resolved(end, s, did, None) == Did.Resolved(nv, s, did, None)
  {
    InstallOutcome(nv, s, image, landed);
    StepRefines(nv, Event(Install(s, image), landed), singles, s);
    var armed := Step(nv, Event(Install(s, image), landed), singles);
    RunRefines(armed, es, singles, s);
    var w := Run(armed, es, singles);
    ViewValid(w, s);
    StepRefines(w, last, singles, s);
    M.RollbackRestores(View(nv, s), image, landed, Project(es, s), M.Event(Local(last.op, s).value, last.landed));
    hide Step, Run, Good, M.Step, M.Run, M.Valid, M.Completes, M.StaysInTrial, Ota.InstallPlan;
    SameSlotSameReads(nv, Step(w, last, singles), s, did);
  }

  // ----------------------------------------------------------------------
  // The trial countdown
  // ----------------------------------------------------------------------

  lemma NextReport(nv: Store, s: nat)
    requires Good(nv) && s < nv.slotCount && View(nv, s).boot.Some?
    ensures Boot.BootPlan(nv).result.Some? && |Boot.BootPlan(nv).result.value| == nv.slotCount
    ensures Boot.BootPlan(nv).result.value[s] == Boot.BootSlot(View(nv, s).boot.value).1
  {
    hide ReadBoot, ReadMeta, ReadRuntime, Did.TablesValid, Boot.BootSlot, Boot.AnyTrial;
    EntryRead(nv, s);
  }

  /**
   * A slot in trial of `bank` at count `c`, through any run in which all that happens to it is
   * `n` recorded boots: the next boot reports trial boot `c + n + 1` of the same bank while
   * that is within the maximum, then one automatic rollback, then normal boots of the sibling.
   */
  lemma TrialCountdown(nv: Store, es: seq<Event>, singles: set<nat>, s: nat)
    requires Good(nv) && AllInRange(es) && s < nv.slotCount && View(nv, s).InTrial()
    requires View(nv, s).boot.value.bootCount <= MAX_TRIAL_BOOTS && M.OnlyBoots(Project(es, s))
    ensures var end := Run(nv, es, singles);
            var bank, c, n := View(nv, s).Active(), View(nv, s).boot.value.bootCount, |Project(es, s)|;
            && Boot.BootPlan(end).result.Some? && |Boot.BootPlan(end).result.value| == nv.slotCount
            && Boot.BootPlan(end).result.value[s] ==
               if c + n < MAX_TRIAL_BOOTS then Boot.TrialBoot(bank, c + n + 1)
               else if c + n == MAX_TRIAL_BOOTS then Boot.AutoRollback(bank, bank.Other())
               else Boot.NormalBoot(bank.Other())
  {
    hide Run, M.Run, M.Valid, View, Did.TablesValid, Boot.BootPlan, M.OnlyBoots;
    var v, end := View(nv, s), Run(nv, es, singles);
    RunRefines(nv, es, singles, s);
    M.BootsCountDown(v, Project(es, s), v.Active(), v.boot.value.bootCount, 0, s in singles);
    NextReport(end, s);
  }
}
