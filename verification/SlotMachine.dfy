// One slot of the device seen on its own: its boot entry and the data of its two banks.
// Every step carries how many of its NV writes land; a step cut short leaves the
// intermediate state behind and the next step starts from there.
module SlotMachine {
  import opened Base
  import opened Nv
  import Boot
  import Did
  import Ota

  datatype BankData = BankData(meta: Option<FwMeta>, runtime: Option<Runtime>)

  datatype Slot = Slot(boot: Option<BankBoot>, a: BankData, b: BankData) {
    function At(bank: Bank): BankData {
      if bank == A then a else b
    }

    function With(bank: Bank, d: BankData): Slot {
      if bank == A then this.(a := d) else this.(b := d)
    }

    predicate InTrial() {
      boot.Some? && !boot.value.committed
    }

    function Active(): Bank {
      if boot.Some? then boot.value.active else A
    }

    /** The bank the device falls back to: the active one if committed, else its sibling. */
    function Fallback(): Bank {
      if InTrial() then Active().Other() else Active()
    }

    /** The anti-rollback floor of the fallback bank. */
    function Floor(): nat {
      Ota.MetaOrZero(At(Fallback()).meta).minSecurityVer
    }

    function Gen(): nat {
      Ota.MetaOrZero(At(Fallback()).meta).gen
    }
  }

  function TableOf(d: BankData): Runtime {
    if d.runtime.Some? then d.runtime.value else EmptyRuntime()
  }

  ghost predicate TableValid(t: Runtime) {
    Did.TableShape(t) && Did.Distinct(t)
  }

  ghost predicate Valid(v: Slot) {
    TableValid(TableOf(v.a)) && TableValid(TableOf(v.b))
  }

  datatype Op =
    | Install(image: Ota.Image)
    | Commit
    | Rollback
    | Boot
    | HashFailure
    | WriteDid(did: nat, data: seq<byte>)
    | RaiseFloor(running: Bank, secver: nat)
    | Disable(serving: Bank)

  /** An operation of which the first `landed` writes reach the store. */
  datatype Event = Event(op: Op, landed: nat)

  predicate Accepts(v: Slot, image: Ota.Image) {
    v.boot.Some? && v.boot.value.committed && v.Floor() <= image.fwSecver
  }

  function AfterInstall(v: Slot, image: Ota.Image, landed: nat): Slot {
    if !Accepts(v, image) then v
    else
      var active, target := v.Active(), v.Active().Other();
      var current := Ota.MetaOrZero(v.At(active).meta);
      var copied := if landed >= 1 then v.At(target).(runtime := Some(TableOf(v.At(active)))) else v.At(target);
      var written :=
        if landed >= 2 then copied.(meta := Some(Ota.NewMeta(image, current.minSecurityVer, current.gen + 1)))
        else copied;
      var armed := if landed >= 3 then Some(BankBoot(target, false, 0)) else v.boot;
      v.With(target, written).(boot := armed)
  }

  function AfterSingleInstall(v: Slot, image: Ota.Image, landed: nat): Slot {
    if !Accepts(v, image) then v
    else
      var gen := Ota.MetaOrZero(v.a.meta).gen + 1;
      var a := if landed >= 1 then v.a.(meta := Some(Ota.NewMeta(image, image.fwSecver, gen))) else v.a;
      v.(a := a, boot := if landed >= 2 then Some(BankBoot(A, true, 0)) else v.boot)
  }

  /** A commit raises the floor first when the trial firmware is above it. */
  predicate RaisesFloor(v: Slot) {
    var m := v.At(v.Active()).meta;
    m.Some? && m.value.fwSecver > m.value.minSecurityVer
  }

  /** Whether an event is a commit that goes through. */
  predicate Completes(v: Slot, e: Event) {
    e.op.Commit? && v.InTrial() && e.landed >= (if RaisesFloor(v) then 2 else 1)
  }

  function AfterCommit(v: Slot, landed: nat): Slot {
    if !v.InTrial() then v
    else
      var active := v.Active();
      var raised :=
        if RaisesFloor(v) && landed >= 1 then
          var m := v.At(active).meta.value;
          v.With(active, v.At(active).(meta := Some(m.(minSecurityVer := m.fwSecver))))
        else v;
      if Completes(v, Event(Commit, landed)) then raised.(boot := Some(BankBoot(active, true, 0))) else raised
  }

  function FellBack(v: Slot, landed: nat): Slot {
    if v.InTrial() && landed >= 1 then v.(boot := Some(BankBoot(v.Active().Other(), true, 0))) else v
  }

  function AfterBoot(v: Slot, landed: nat): Slot {
    if landed == 0 then v
    else if v.boot.None? then v.(boot := Some(DEFAULT_BOOT))
    else v.(boot := Some(Boot.BootSlot(v.boot.value).0))
  }

  ghost function AfterWriteDid(v: Slot, did: nat, data: seq<byte>, landed: nat): Slot
    requires Valid(v)
  {
    var d := v.At(v.Active());
    if v.boot.None? || landed == 0 then v
    else
      match Did.TableWrite(TableOf(d), did, data)
      case None => v
      case Some(t) => v.With(v.Active(), d.(runtime := Some(t)))
  }

  function AfterRaise(v: Slot, bank: Bank, secver: nat, landed: nat, single: bool): Slot {
    var m := v.At(bank).meta;
    if (v.InTrial() && !single) || m.None? || secver <= m.value.minSecurityVer || landed == 0 then v
    else v.With(bank, v.At(bank).(meta := Some(m.value.(minSecurityVer := secver))))
  }

  function AfterDisable(v: Slot, bank: Bank, landed: nat, single: bool): Slot {
    var m := v.At(bank).meta;
    if ((v.boot.None? || v.InTrial()) && !single) || m.None? || landed == 0 then v
    else v.With(bank, v.At(bank).(meta := Some(m.value.(gen := m.value.gen + 1))))
  }

  ghost function Effect(v: Slot, e: Event, single: bool): Slot
    requires Valid(v)
  {
    match e.op
    case Install(image) => if single then AfterSingleInstall(v, image, e.landed) else AfterInstall(v, image, e.landed)
    case Commit => AfterCommit(v, e.landed)
    case Rollback => FellBack(v, e.landed)
    case HashFailure => FellBack(v, e.landed)
    case Boot => AfterBoot(v, e.landed)
    case WriteDid(did, data) => AfterWriteDid(v, did, data, e.landed)
    case RaiseFloor(running, secver) => AfterRaise(v, running, secver, e.landed, single)
    case Disable(serving) => AfterDisable(v, serving, e.landed, single)
  }

  lemma StepKeepsTables(v: Slot, e: Event, single: bool)
    requires Valid(v)
    ensures Valid(Effect(v, e, single))
  {
    hide Did.TableShape, Did.Distinct, Did.TableWrite, Ota.NewMeta, Boot.BootSlot, Completes, Accepts, RaisesFloor;
    if e.op.WriteDid? {
      Did.TableRefinesMap(TableOf(v.At(v.Active())), e.op.did, e.op.data);
    }
  }

  ghost function Step(v: Slot, e: Event, single: bool): (r: Slot)
    requires Valid(v)
    ensures Valid(r)
  {
    StepKeepsTables(v, e, single);
    Effect(v, e, single)
  }

  lemma BootRecordStays(v: Slot, e: Event)
    requires Valid(v) && v.boot.Some?
    ensures Step(v, e, false).boot.Some?
  {
    hide Valid, Did.TableWrite;
  }

  ghost function Run(v: Slot, es: seq<Event>, single: bool): (r: Slot)
    requires Valid(v)
    ensures Valid(r)
    decreases |es|
  {
    if es == [] then v else Run(Step(v, es[0], single), es[1..], single)
  }

  // ----------------------------------------------------------------------
  // Floor and generation over every run
  // ----------------------------------------------------------------------

  /** A trial runs firmware one generation above the fallback, at or above its floor. */
  predicate TrialInv(v: Slot) {
    v.InTrial() ==>
      && v.boot.value.bootCount <= MAX_TRIAL_BOOTS
      && var t := v.At(v.Active()).meta;
         t.Some? && t.value.gen == v.Gen() + 1 && v.Floor() <= t.value.minSecurityVer <= t.value.fwSecver
  }

  /** The floor an event sets: a completed commit's version, or one raised on the active bank. */
  function NewFloor(v: Slot, e: Event): Option<nat> {
    var m := v.At(v.Active()).meta;
    if m.None? then None
    else if Completes(v, e) then Some(m.value.fwSecver)
    else if e.op.RaiseFloor? && !v.InTrial() && e.landed >= 1 && e.op.running == v.Active()
            && e.op.secver > m.value.minSecurityVer then Some(e.op.secver)
    else None
  }

  /** Whether an event moves the generation: a completed commit, or disabling the active bank. */
  predicate MovesGen(v: Slot, e: Event) {
    || Completes(v, e)
    || (&& e.op.Disable? && v.boot.Some? && !v.InTrial() && e.landed >= 1
        && e.op.serving == v.Active() && v.At(v.Active()).meta.Some?)
  }

  /** The floors a run sets, in order. */
  ghost function Floors(v: Slot, es: seq<Event>): seq<nat>
    requires Valid(v)
    decreases |es|
  {
    if es == [] then []
    else (if NewFloor(v, es[0]).Some? then [NewFloor(v, es[0]).value] else []) + Floors(Step(v, es[0], false), es[1..])
  }

  /** How often a run moves the generation. */
  ghost function GenMoves(v: Slot, es: seq<Event>): nat
    requires Valid(v)
    decreases |es|
  {
    if es == [] then 0 else (if MovesGen(v, es[0]) then 1 else 0) + GenMoves(Step(v, es[0], false), es[1..])
  }

  lemma StepKeepsTrialInv(v: Slot, e: Event)
    requires Valid(v) && TrialInv(v)
    ensures TrialInv(Step(v, e, false))
    ensures Step(v, e, false).Gen() == v.Gen() + (if MovesGen(v, e) then 1 else 0)
    ensures NewFloor(v, e).Some? ==> v.Floor() <= Step(v, e, false).Floor() == NewFloor(v, e).value
    ensures NewFloor(v, e).None? ==> Step(v, e, false).Floor() == v.Floor()
  {
    hide Valid, Did.TableWrite, TableOf;
  }

  predicate NonDecreasing(s: seq<nat>) {
    forall i, j :: 0 <= i <= j < |s| ==> s[i] <= s[j]
  }

  lemma Prepend(x: nat, s: seq<nat>)
    requires s != [] && x <= s[0] && NonDecreasing(s)
    ensures NonDecreasing([x] + s)
  {
    forall i, j | 0 <= i <= j < |s| + 1 ensures ([x] + s)[i] <= ([x] + s)[j] {
      if i == 0 && j > 0 {
        assert s[0] <= s[j - 1];
      }
    }
  }

  /**
   * Over every run of an A/B slot, cut at any write: the floor is the one last set, by a
   * completed commit or by a floor raised on the active bank (or the initial one), none set
   * is below one before it, and the fallback's generation counts the completed commits and
   * the times the active bank was disabled.
   */
  lemma {:induction false} FloorHistory(v: Slot, es: seq<Event>)
    requires Valid(v) && TrialInv(v)
    ensures TrialInv(Run(v, es, false))
    ensures Run(v, es, false).Gen() == v.Gen() + GenMoves(v, es)
    ensures var floors := [v.Floor()] + Floors(v, es);
            NonDecreasing(floors) && Run(v, es, false).Floor() == floors[|floors| - 1]
    decreases |es|
  {
    if es == [] {
    } else {
      var next := Step(v, es[0], false);
      StepKeepsTrialInv(v, es[0]);
      var floors, rest := [v.Floor()] + Floors(v, es), [next.Floor()] + Floors(next, es[1..]);
      assert floors == if NewFloor(v, es[0]).Some? then [v.Floor()] + rest else rest;
      assert Run(v, es, false) == Run(next, es[1..], false);
      hide Step, Run, Floors, NonDecreasing, Valid, TrialInv, NewFloor, MovesGen;
      FloorHistory(next, es[1..]);
      if NewFloor(v, es[0]).Some? {
        Prepend(v.Floor(), rest);
      }
    }
  }

  /**
   * A floor-only manifest above the floor takes hold exactly when the process runs on the
   * active bank and that bank has metadata; otherwise it is accepted and the floor stays.
   */
  lemma RaiseTakesHold(v: Slot, running: Bank, secver: nat)
    requires Valid(v) && !v.InTrial() && secver > v.Floor()
    ensures var floor := Step(v, Event(RaiseFloor(running, secver), 1), false).Floor();
            && floor == (if running == v.Active() && v.At(running).meta.Some? then secver else v.Floor())
            && (floor == secver <==> running == v.Active() && v.At(running).meta.Some?)
  {
    hide Valid;
  }

  /** A single-bank slot stays committed on bank A and its floor never falls. */
  lemma SingleBankStep(v: Slot, e: Event)
    requires Valid(v) && v.Active() == A && !v.InTrial()
    ensures var r := Step(v, e, true);
            r.Active() == A && !r.InTrial() && v.Floor() <= r.Floor() && v.Gen() <= r.Gen() <= v.Gen() + 1
  {
    hide Valid, Did.TableWrite;
  }

  lemma {:induction false} SingleBankRun(v: Slot, es: seq<Event>)
    requires Valid(v) && v.Active() == A && !v.InTrial()
    ensures var r := Run(v, es, true); r.Active() == A && !r.InTrial() && v.Floor() <= r.Floor()
    decreases |es|
  {
    if es == [] {
    } else {
      SingleBankStep(v, es[0]);
      SingleBankRun(Step(v, es[0], true), es[1..]);
    }
  }

  // ----------------------------------------------------------------------
  // A trial undone
  // ----------------------------------------------------------------------

  /** The slot is in trial before and after every event. */
  ghost predicate StaysInTrial(v: Slot, es: seq<Event>)
    requires Valid(v)
    decreases |es|
  {
    v.InTrial() && (es != [] ==> StaysInTrial(Step(v, es[0], false), es[1..]))
  }

  /** The boots among a run's events that were recorded. */
  function Boots(es: seq<Event>): nat {
    if es == [] then 0 else (if es[0].op.Boot? && es[0].landed >= 1 then 1 else 0) + Boots(es[1..])
  }

  lemma StepInTrial(v: Slot, e: Event)
    requires Valid(v) && v.InTrial()
    ensures var r := Step(v, e, false);
            && r.At(v.Fallback()) == v.At(v.Fallback())
            && (r.InTrial() ==> r.Active() == v.Active())
            && (!r.InTrial() ==> r.boot == Some(BankBoot(if Completes(v, e) then v.Active() else v.Fallback(), true, 0)))
            && (r.InTrial() && v.boot.value.bootCount <= MAX_TRIAL_BOOTS ==>
                  r.boot.value.bootCount == v.boot.value.bootCount + Boots([e]) <= MAX_TRIAL_BOOTS)
  {
    hide Valid, Did.TableWrite;
    assert [e][1..] == [];
  }

  /** While a trial lasts its fallback's data is untouched and its counter counts the boots. */
  lemma {:induction false} TrialRun(v: Slot, es: seq<Event>)
    requires Valid(v) && StaysInTrial(v, es) && v.boot.value.bootCount <= MAX_TRIAL_BOOTS
    ensures var r := Run(v, es, false);
            && r.InTrial() && r.Active() == v.Active() && r.At(v.Fallback()) == v.At(v.Fallback())
            && r.boot.value.bootCount == v.boot.value.bootCount + Boots(es) <= MAX_TRIAL_BOOTS
    decreases |es|
  {
    hide Step, Valid;
    if es == [] {
    } else {
      StepInTrial(v, es[0]);
      assert [es[0]][1..] == [];
      TrialRun(Step(v, es[0], false), es[1..]);
    }
  }

  /**
   * A successful install, then any events while the trial lasts, then any event that ends it
   * other than a completed commit: the slot is committed where it was, and that bank's
   * metadata and runtime data are what they were.
   */
  lemma RollbackRestores(v: Slot, image: Ota.Image, landed: nat, es: seq<Event>, last: Event)
    requires Valid(v) && Accepts(v, image) && landed >= 3
    requires StaysInTrial(Step(v, Event(Install(image), landed), false), es)
    requires var w := Run(Step(v, Event(Install(image), landed), false), es, false);
             !Completes(w, last) && !Step(w, last, false).InTrial()
    ensures var r := Step(Run(Step(v, Event(Install(image), landed), false), es, false), last, false);
            && r.boot == Some(BankBoot(v.Active(), true, 0))
            && r.At(v.Active()) == v.At(v.Active())
  {
    var armed := Step(v, Event(Install(image), landed), false);
    TrialRun(armed, es);
    StepInTrial(Run(armed, es, false), last);
    assert armed.Fallback() == v.Active() && armed.At(v.Active()) == v.At(v.Active());
    hide Step, Run, Completes, Valid, StaysInTrial;
  }

  // ----------------------------------------------------------------------
  // The trial countdown
  // ----------------------------------------------------------------------

  predicate OnlyBoots(es: seq<Event>) {
    forall e :: e in es ==> e.op.Boot? && e.landed >= 1
  }

  /** The boot entry `n` boots after a trial of `bank` stood at count `c`. */
  function EntryAfter(bank: Bank, c: nat, n: nat): BankBoot {
    if c + n <= MAX_TRIAL_BOOTS then BankBoot(bank, false, c + n) else BankBoot(bank.Other(), true, 0)
  }

  lemma {:induction false} BootsCountDown(v: Slot, es: seq<Event>, bank: Bank, c: nat, done: nat, single: bool)
    requires Valid(v) && OnlyBoots(es) && c <= MAX_TRIAL_BOOTS && v.boot == Some(EntryAfter(bank, c, done))
    ensures Run(v, es, single) == v.(boot := Some(EntryAfter(bank, c, done + |es|)))
    decreases |es|
  {
    if es == [] {
    } else {
      var next := Step(v, es[0], single);
      assert es[0] in es && next == v.(boot := Some(EntryAfter(bank, c, done + 1)));
      BootsCountDown(next, es[1..], bank, c, done + 1, single);
      hide Step, Valid;
    }
  }
}
