// Raw-partition banks carry the platform's own image records. A record is pointed at a bank
// before the boot vector moves there.
module PartitionRouting {
  import opened Base
  import opened Nv
  import opened BootVector
  import opened Provider
  import D = DualAuthority
  import L = Lifecycle
  import Ota

  /** A part: its payload name, its device per bank, and whether it has an image record. */
  datatype Part = Part(file: string, deviceA: string, deviceB: string, record: bool) {
    function Device(bank: Bank): string {
      if bank == A then deviceA else deviceB
    }
  }

  /** How many of the first `n` parts carry a record. */
  function Records(parts: seq<Part>, n: nat): (r: nat)
    requires n <= |parts|
    ensures r <= n
    ensures r == 0 ==> forall i :: 0 <= i < n ==> !parts[i].record
  {
    if n == 0 then 0 else Records(parts, n - 1) + (if parts[n - 1].record then 1 else 0)
  }

  /** Where each part's record points, if anywhere. */
  type Routes = seq<Option<Bank>>

  /** The routes after the first `accepted` records took the bank and the next refused it. */
  function Routed(parts: seq<Part>, routes: Routes, bank: Bank, accepted: nat): (r: Routes)
    requires |routes| == |parts|
    ensures |r| == |parts|
  {
    seq(|parts|, i requires 0 <= i < |parts| =>
      if parts[i].record && Records(parts, i) < accepted then Some(bank) else routes[i])
  }

  predicate AllOn(parts: seq<Part>, routes: Routes, bank: Bank)
    requires |routes| == |parts|
  {
    forall i :: 0 <= i < |parts| && parts[i].record ==> routes[i] == Some(bank)
  }

  lemma {:induction false} RecordsMonotone(parts: seq<Part>, i: nat, n: nat)
    requires i <= n <= |parts|
    ensures Records(parts, i) <= Records(parts, n)
    decreases n - i
  {
    if i == n {
    } else {
      RecordsMonotone(parts, i, n - 1);
    }
  }

  lemma {:induction false} RecordsBelow(parts: seq<Part>, i: nat, n: nat)
    requires i < n <= |parts| && parts[i].record
    ensures Records(parts, i) < Records(parts, n)
    decreases n - i
  {
    if i + 1 < n {
      RecordsMonotone(parts, i + 1, n);
    }
  }

  lemma RoutedFully(parts: seq<Part>, routes: Routes, bank: Bank, accepted: nat)
    requires |routes| == |parts| && accepted >= Records(parts, |parts|)
    ensures forall j :: 0 <= j < |parts| ==>
              Routed(parts, routes, bank, accepted)[j] == if parts[j].record then Some(bank) else routes[j]
  {
    forall i | 0 <= i < |parts| && parts[i].record ensures Records(parts, i) < accepted {
      RecordsBelow(parts, i, |parts|);
    }
  }

  /** Once every record took the bank, every record is on it. */
  lemma AllAccepted(parts: seq<Part>, routes: Routes, bank: Bank, accepted: nat)
    requires |routes| == |parts| && accepted >= Records(parts, |parts|)
    ensures AllOn(parts, Routed(parts, routes, bank, accepted), bank)
  {
    RoutedFully(parts, routes, bank, accepted);
  }

  // ----------------------------------------------------------------------
  // The provider
  // ----------------------------------------------------------------------

  /** Records before a refusing one are exactly those that were accepted. */
  lemma RoutedPrefix(parts: seq<Part>, routes: Routes, bank: Bank, accepted: nat, at: nat)
    requires |routes| == |parts| && at < |parts| && parts[at].record && Records(parts, at) == accepted
    ensures forall j :: 0 <= j < at ==>
              Routed(parts, routes, bank, accepted)[j] == if parts[j].record then Some(bank) else routes[j]
    ensures forall j :: at <= j < |parts| ==> Routed(parts, routes, bank, accepted)[j] == routes[j]
  {
    forall j | 0 <= j < at && parts[j].record ensures Records(parts, j) < accepted {
      RecordsBelow(parts, j, at);
    }
    forall j | at <= j < |parts| ensures Records(parts, j) >= accepted {
      RecordsMonotone(parts, at, j);
    }
  }

  class PartitionProvider {
    const inner: BankProvider
    const parts: seq<Part>
    var routes: Routes
    // how many more routings the records accept before one refuses
    var accepting: nat

    constructor (inner: BankProvider, parts: seq<Part>, accepting: nat)
      ensures this.inner == inner && this.parts == parts && this.accepting == accepting && |routes| == |parts|
    {
      this.inner, this.parts, this.accepting := inner, parts, accepting;
      routes := seq(|parts|, _ => None);
    }

    ghost predicate Valid()
      reads this, inner, inner.nv, inner.vector
    {
      |routes| == |parts| && inner.Valid()
    }

    method RouteRecords(bank: Bank) returns (ok: bool)
      requires |routes| == |parts|
      modifies this
      ensures routes == Routed(parts, old(routes), bank, old(accepting))
      ensures ok <==> old(accepting) >= Records(parts, |parts|)
    {
      for i := 0 to |parts|
        invariant |routes| == |parts| && Records(parts, i) + accepting == old(accepting)
        invariant forall j :: 0 <= j < i ==>
                    routes[j] == if parts[j].record then Some(bank) else old(routes)[j]
        invariant forall j :: i <= j < |parts| ==> routes[j] == old(routes)[j]
      {
        if parts[i].record {
          if accepting == 0 {
            RecordsMonotone(parts, i + 1, |parts|);
            RoutedPrefix(parts, old(routes), bank, old(accepting), i);
            hide Routed, Records;
            assert routes == Routed(parts, old(routes), bank, old(accepting));
            return false;
          }
          accepting := accepting - 1;
          routes := routes[i := Some(bank)];
        }
      }
      RoutedFully(parts, old(routes), bank, old(accepting));
      hide Routed, Records;
      assert routes == Routed(parts, old(routes), bank, old(accepting));
      ok := true;
    }

    method Activate(bank: Bank, images: map<string, seq<byte>>) returns (ok: bool)
      requires Valid()
      modifies this, inner.vector
      ensures Valid() && routes == Routed(parts, old(routes), bank, old(accepting))
      ensures old(accepting) < Records(parts, |parts|) ==>
                !ok && (inner.vector != null ==> inner.vector.View() == old(inner.vector.View()))
      ensures old(accepting) >= Records(parts, |parts|) && inner.vector != null ==>
                (inner.vector.View(), ok)
                == Activated(old(inner.vector.View()), inner.id, Entry(bank, images), true, old(inner.vector.landing) > 0)
    {
      var routed := RouteRecords(bank);
      if !routed {
        return false;
      }
      ok := inner.Activate(bank, images, true);
    }

    /** A commit confirms the bank that already booted: nothing is routed. */
    method Commit() returns (ok: bool)
      requires Valid()
      modifies inner.nv, inner.vector
      ensures routes == old(routes)
      ensures inner.vector != null ==>
                (inner.View(), ok)
                == CommittedBoth(old(inner.View()), inner.slot, old(inner.nv.landing), old(inner.vector.landing) > 0)
    {
      ok := inner.Commit();
    }

    method Rollback() returns (ok: bool)
      requires Valid()
      modifies this, inner.nv, inner.vector
      ensures Valid()
      ensures var target := RollbackTarget(old(inner.nv.nv), inner.slot);
              && (target.Err? ==> !ok && routes == old(routes) && inner.nv.nv == old(inner.nv.nv))
              && (target.Err? && inner.vector != null ==> inner.vector.View() == old(inner.vector.View()))
              && (target.Ok? ==> routes == Routed(parts, old(routes), target.value, old(accepting)))
              && (target.Ok? && old(accepting) < Records(parts, |parts|) ==> !ok && inner.nv.nv == old(inner.nv.nv))
              && (target.Ok? && old(accepting) < Records(parts, |parts|) && inner.vector != null ==>
                    inner.vector.View() == old(inner.vector.View()))
              && (target.Ok? && old(accepting) >= Records(parts, |parts|) && inner.vector != null ==>
                    (inner.View(), ok)
                    == RolledBackBoth(old(inner.View()), inner.slot, old(inner.vector.landing) > 0, old(inner.nv.landing)))
    {
      var target := RollbackTarget(inner.nv.nv, inner.slot);
      if target.Err? {
        return false;
      }
      var routed := RouteRecords(target.value);
      if !routed {
        return false;
      }
      ok := inner.Rollback();
    }
  }

  // ----------------------------------------------------------------------
  // Runs: the two-store protocol with records routed in front of it
  // ----------------------------------------------------------------------

  datatype State = State(d: Device, routes: Routes)

  /** An event of the protocol during which the records accept `accepted` routings. */
  datatype Event = Event(e: D.Event, accepted: nat)

  ghost predicate Ready(s: State, parts: seq<Part>, c: D.Component) {
    D.Ready(s.d, c) && |s.routes| == |parts|
  }

  predicate Accepted(parts: seq<Part>, ev: Event) {
    ev.accepted >= Records(parts, |parts|)
  }

  /** Whether a flash gets as far as activating. */
  ghost predicate Activates(d: Device, c: D.Component, e: D.Event)
    requires D.Ready(d, c) && e.Flash?
  {
    D.MayFlash(d, c) && D.NvOk(d, c, e) && !e.arming.PowerCut?
  }

  /** What the protocol sees of an event: a refused routing fails an activation in front of it. */
  ghost function Seen(s: State, parts: seq<Part>, c: D.Component, ev: Event): D.Event
    requires Ready(s, parts, c)
  {
    if ev.e.Flash? && Activates(s.d, c, ev.e) && !Accepted(parts, ev) then ev.e.(arming := D.ActivatorFails) else ev.e
  }

  /** The bank an event routes the records to, if any. */
  ghost function RoutesTo(s: State, parts: seq<Part>, c: D.Component, ev: Event): Option<Bank>
    requires Ready(s, parts, c)
  {
    if ev.e.Flash? && Activates(s.d, c, ev.e) then Some(TargetBank(s.d.nv, c.slot))
    else if ev.e.Rollback? && RollbackTarget(s.d.nv, c.slot).Ok? then Some(RollbackTarget(s.d.nv, c.slot).value)
    else None
  }

  /** A refused routing fails the activation, or the rollback, before either store moves. */
  ghost function Step(s: State, parts: seq<Part>, c: D.Component, ev: Event): (State, bool)
    requires Ready(s, parts, c)
  {
    var to := RoutesTo(s, parts, c, ev);
    var routes := if to.Some? then Routed(parts, s.routes, to.value, ev.accepted) else s.routes;
    if ev.e.Rollback? && to.Some? && !Accepted(parts, ev) then (State(s.d, routes), false)
    else
      var (d, ok) := D.Step(s.d, c, Seen(s, parts, c, ev));
      (State(d, routes), ok)
  }

  lemma StepKeepsReady(s: State, parts: seq<Part>, c: D.Component, ev: Event)
    requires Ready(s, parts, c)
    ensures Ready(Step(s, parts, c, ev).0, parts, c)
  {
    hide D.Ready, D.Step, Seen, Routed, Accepted;
    D.StepKeepsReady(s.d, c, Seen(s, parts, c, ev));
  }

  /** With records in front, the stores stay in the same phases. */
  lemma StepKeepsStanding(s: State, parts: seq<Part>, c: D.Component, st: D.Standing, ev: Event)
    returns (next: D.Standing)
    requires Ready(s, parts, c) && D.In(s.d, c, st)
    ensures Ready(Step(s, parts, c, ev).0, parts, c) && D.In(Step(s, parts, c, ev).0.d, c, next)
  {
    hide D.In, D.Ready, D.Step, D.Next, D.NvOk, D.VecOk, Seen, Routed, Accepted;
    var e := Seen(s, parts, c, ev);
    StepKeepsReady(s, parts, c, ev);
    D.StepFollows(s.d, c, st, e);
    next := if Step(s, parts, c, ev).0.d == s.d then st else D.Next(st, e, D.NvOk(s.d, c, e), D.VecOk(s.d.vec, e));
  }

  // ----------------------------------------------------------------------
  // Records and the vector
  // ----------------------------------------------------------------------

  /** What the vector boots once a rollback has gone through. */
  function Restored(v: Vec): Entries {
    if v.IsTrial() then v.Committed() else v.Current()
  }

  lemma FlashBehindRecords(s: State, parts: seq<Part>, c: D.Component, ev: Event)
    requires Ready(s, parts, c) && ev.e.Flash?
    ensures var (s', ok) := Step(s, parts, c, ev);
            && (ok || s'.d.vec.Current() != s.d.vec.Current() ==>
                  && RoutesTo(s, parts, c, ev).Some? && Accepted(parts, ev) && c.id in s'.d.vec.Current()
                  && s'.routes == Routed(parts, s.routes, s'.d.vec.Current()[c.id].bank, ev.accepted)
                  && RoutesTo(s, parts, c, ev).value == s'.d.vec.Current()[c.id].bank)
            && (!ok ==> s'.d.vec.primary == s.d.vec.primary && s'.d.vec.secondary == s.d.vec.secondary)
  {
    hide D.Flashed, D.MayFlash, D.Ready, Routed, Records, Ota.InstallPlan, TargetBank;
    D.FlashVector(s.d, c, Seen(s, parts, c, ev));
  }

  lemma RollbackBehindRecords(s: State, parts: seq<Part>, c: D.Component, ev: Event)
    requires Ready(s, parts, c) && ev.e.Rollback?
    ensures var (s', ok) := Step(s, parts, c, ev);
            && (ok || s'.d.vec.Current() != s.d.vec.Current() ==>
                  && RollbackTarget(s.d.nv, c.slot).Ok? && Accepted(parts, ev)
                  && RoutesTo(s, parts, c, ev) == Some(RollbackTarget(s.d.nv, c.slot).value)
                  && s'.routes == Routed(parts, s.routes, RollbackTarget(s.d.nv, c.slot).value, ev.accepted)
                  && s'.d.vec.Current() == Restored(s.d.vec))
            && (RoutesTo(s, parts, c, ev).Some? && !Accepted(parts, ev) ==> !ok && s'.d == s.d)
  {
    hide D.Ready, Routed, Records, Ota.RollbackPlan, RollbackTarget;
  }

  /**
   * In any state: a flash that moves the vector or succeeds has every record on the bank it
   * boots, and a rollback on the bank NV lands on; a refused routing moves neither store's
   * selection.
   */
  lemma VectorMovesBehindRecords(s: State, parts: seq<Part>, c: D.Component, ev: Event)
    requires Ready(s, parts, c)
    ensures var (s', ok) := Step(s, parts, c, ev);
            && |s'.routes| == |parts|
            && (ev.e.Flash? && (ok || s'.d.vec.Current() != s.d.vec.Current()) ==>
                  c.id in s'.d.vec.Current() && AllOn(parts, s'.routes, s'.d.vec.Current()[c.id].bank))
            && (ev.e.Rollback? && (ok || s'.d.vec.Current() != s.d.vec.Current()) ==>
                  && RollbackTarget(s.d.nv, c.slot).Ok?
                  && AllOn(parts, s'.routes, RollbackTarget(s.d.nv, c.slot).value)
                  && s'.d.vec.Current() == Restored(s.d.vec))
            && ((ev.e.Flash? || ev.e.Rollback?) && RoutesTo(s, parts, c, ev).Some? && !Accepted(parts, ev) ==>
                  && !ok && s'.d.vec.primary == s.d.vec.primary && s'.d.vec.secondary == s.d.vec.secondary
                  && (ev.e.Rollback? ==> s'.d == s.d))
  {
    var to := RoutesTo(s, parts, c, ev);
    if to.Some? && Accepted(parts, ev) {
      AllAccepted(parts, s.routes, to.value, ev.accepted);
    }
    if ev.e.Flash? {
      FlashBehindRecords(s, parts, c, ev);
    } else if ev.e.Rollback? {
      RollbackBehindRecords(s, parts, c, ev);
    }
    hide Step, RoutesTo, Accepted, AllOn, D.Ready;
  }

  /**
   * The bank a rollback routes its records to is the vector's floor in every phase that has a
   * rollback, unless the vector was already committed to the trial bank on another's behalf.
   */
  lemma RollbackTargetIsFloor(s: State, parts: seq<Part>, c: D.Component, st: D.Standing)
    requires Ready(s, parts, c) && D.In(s.d, c, st)
    ensures RollbackTarget(s.d.nv, c.slot).Ok? <==> st.phase.Trial? || st.phase.HalfArmed? || st.phase.Ahead?
    ensures RollbackTarget(s.d.nv, c.slot).Ok? ==>
              && RollbackTarget(s.d.nv, c.slot).value == st.phase.bank.Other()
              && (s.d.vec.Committed()[c.id].bank == RollbackTarget(s.d.nv, c.slot).value <==> !st.phase.Ahead?)
  {
    hide RollbackTarget;
    D.ActiveIs(s.d, c);
  }

  predicate NoRecords(parts: seq<Part>) {
    forall i :: 0 <= i < |parts| ==> !parts[i].record
  }

  /** Records that are all on one bank are all on another only if there are none. */
  lemma OneBankOnly(parts: seq<Part>, routes: Routes, bank: Bank, other: Bank)
    requires |routes| == |parts| && AllOn(parts, routes, bank)
    ensures AllOn(parts, routes, other) <==> bank == other || NoRecords(parts)
  {
  }

  /** The vector moved on another's behalf leaves the bank this component boots as it is. */
  predicate KeepsBooted(v: Vec, id: string, e: D.Event)
    requires id in v.Current() && id in v.Committed() && (v.pending.Some? ==> id in v.pending.value)
  {
    match e
    case OthersRollback(ok) => !ok || v.Committed()[id].bank == v.Current()[id].bank
    case OthersSeal(ok) => !ok || v.pending.None? || v.pending.value[id].bank == v.Current()[id].bank
    case _ => true
  }

  lemma OthersMoveBank(s: State, parts: seq<Part>, c: D.Component, ev: Event)
    requires Ready(s, parts, c) && !ev.e.Own() && c.id in s.d.vec.Current() && c.id in s.d.vec.Committed()
    requires s.d.vec.pending.Some? ==> c.id in s.d.vec.pending.value
    ensures var s' := Step(s, parts, c, ev).0;
            && s'.routes == s.routes && c.id in s'.d.vec.Current()
            && (s'.d.vec.Current()[c.id].bank == s.d.vec.Current()[c.id].bank <==> KeepsBooted(s.d.vec, c.id, ev.e))
  {
    hide D.Ready, Routed, Records;
  }

  /**
   * The vector moved on another's behalf routes nothing. Records on the bank the component
   * boots are on the one it boots afterwards exactly when, before the move, the floor it is
   * rolled back to or the staging it is sealed from names the same bank, or the move fails, or
   * there are no records.
   */
  lemma OthersRouteNothing(s: State, parts: seq<Part>, c: D.Component, ev: Event)
    requires Ready(s, parts, c) && !ev.e.Own() && c.id in s.d.vec.Current() && c.id in s.d.vec.Committed()
    requires s.d.vec.pending.Some? ==> c.id in s.d.vec.pending.value
    requires AllOn(parts, s.routes, s.d.vec.Current()[c.id].bank)
    ensures var s' := Step(s, parts, c, ev).0;
            && s'.routes == s.routes && c.id in s'.d.vec.Current()
            && (AllOn(parts, s'.routes, s'.d.vec.Current()[c.id].bank)
                <==> KeepsBooted(s.d.vec, c.id, ev.e) || NoRecords(parts))
  {
    hide Step, AllOn, NoRecords, KeepsBooted;
    OthersMoveBank(s, parts, c, ev);
    OneBankOnly(parts, s.routes, s.d.vec.Current()[c.id].bank, Step(s, parts, c, ev).0.d.vec.Current()[c.id].bank);
  }

  /**
   * In the phases: another's rollback takes the booted bank away from a trial, a half commit
   * and a split, and another's seal from a component a failed seal left staged; nothing else does.
   */
  lemma WhenBootedStays(s: State, parts: seq<Part>, c: D.Component, st: D.Standing, ev: Event)
    requires Ready(s, parts, c) && D.In(s.d, c, st) && !ev.e.Own()
    ensures s.d.vec.pending.Some? ==> c.id in s.d.vec.pending.value
    ensures KeepsBooted(s.d.vec, c.id, ev.e) <==>
              match ev.e
              case OthersRollback(ok) => !ok || !(st.phase.Trial? || st.phase.HalfCommitted? || st.phase.Split?)
              case OthersSeal(ok) => !ok || !st.stale
              case _ => true
  {
    hide D.Ready, Routed, Records;
  }

  /** Another component's rollback takes this one's trial back with its records left behind. */
  lemma OthersRollbackLeavesRecords(s: State, parts: seq<Part>, c: D.Component, bank: Bank, accepted: nat, i: nat)
    requires Ready(s, parts, c) && D.In(s.d, c, D.Standing(D.Trial(bank), false))
    requires i < |parts| && parts[i].record && AllOn(parts, s.routes, bank)
    ensures var s' := Step(s, parts, c, Event(D.OthersRollback(true), accepted)).0;
            && D.In(s'.d, c, D.Standing(D.HalfArmed(bank), false))
            && s'.routes == s.routes && !AllOn(parts, s'.routes, s'.d.vec.Current()[c.id].bank)
  {
    hide D.Step, D.NvOk;
    var e := D.OthersRollback(true);
    D.StepFollows(s.d, c, D.Standing(D.Trial(bank), false), e);
    assert s.d.vec.secondary.Some?;
    assert s.routes[i] == Some(bank);
  }

  // ----------------------------------------------------------------------
  // Runs
  // ----------------------------------------------------------------------

  ghost function Run(s: State, parts: seq<Part>, c: D.Component, evs: seq<Event>): (r: State)
    requires Ready(s, parts, c)
    ensures Ready(r, parts, c)
    decreases |evs|
  {
    if evs == [] then s
    else
      StepKeepsReady(s, parts, c, evs[0]);
      Run(Step(s, parts, c, evs[0]).0, parts, c, evs[1..])
  }

  /** Every run, in any interleaving with what others do to the vector, stays in the phases. */
  lemma {:induction false} RunKeepsStanding(s: State, parts: seq<Part>, c: D.Component, st: D.Standing, evs: seq<Event>)
    returns (last: D.Standing)
    requires Ready(s, parts, c) && D.In(s.d, c, st)
    ensures D.In(Run(s, parts, c, evs).d, c, last)
    decreases |evs|
  {
    hide Step, D.In, Ready;
    if evs == [] {
      last := st;
    } else {
      var next := StepKeepsStanding(s, parts, c, st, evs[0]);
      last := RunKeepsStanding(Step(s, parts, c, evs[0]).0, parts, c, next, evs[1..]);
    }
  }

  /** Commits, restarts and what others stage or commit. */
  predicate Confirms(evs: seq<Event>) {
    forall ev :: ev in evs ==> ev.e.Commit? || ev.e.Restart? || ev.e.OthersCommit? || ev.e.OthersStage?
  }

  lemma ConfirmMovesNothing(s: State, parts: seq<Part>, c: D.Component, ev: Event)
    requires Ready(s, parts, c) && Confirms([ev])
    ensures var s' := Step(s, parts, c, ev).0; s'.routes == s.routes && s'.d.vec.Current() == s.d.vec.Current()
  {
    hide D.Ready, PendingReboot, Ota.CommitPlan, Routed, Records;
    assert ev in [ev];
  }

  /** They route nothing and move no selection. */
  lemma {:induction false} ConfirmingRun(s: State, parts: seq<Part>, c: D.Component, evs: seq<Event>)
    requires Ready(s, parts, c) && Confirms(evs)
    ensures var r := Run(s, parts, c, evs); r.routes == s.routes && r.d.vec.Current() == s.d.vec.Current()
    decreases |evs|
  {
    hide Step, Ready;
    if evs == [] {
    } else {
      assert evs[0] in evs;
      ConfirmMovesNothing(s, parts, c, evs[0]);
      StepKeepsReady(s, parts, c, evs[0]);
      ConfirmingRun(Step(s, parts, c, evs[0]).0, parts, c, evs[1..]);
    }
  }

  /**
   * From any state, a flash or a rollback that succeeds, and then any commits and restarts.
   * After the flash every record points at the bank the vector boots; after the rollback they
   * do exactly when the vector had that bank to fall back to, or there are no records.
   */
  lemma RecordsFollowVector(s: State, parts: seq<Part>, c: D.Component, ev: Event, after: seq<Event>)
    requires Ready(s, parts, c) && (ev.e.Flash? || ev.e.Rollback?) && Step(s, parts, c, ev).1 && Confirms(after)
    ensures Ready(Step(s, parts, c, ev).0, parts, c)
    ensures var r := Run(Step(s, parts, c, ev).0, parts, c, after);
            && (ev.e.Flash? ==> c.id in r.d.vec.Current() && AllOn(parts, r.routes, r.d.vec.Current()[c.id].bank))
            && (ev.e.Rollback? ==>
                  && r.d.vec.Current() == Restored(s.d.vec) && RollbackTarget(s.d.nv, c.slot).Ok?
                  && (c.id in Restored(s.d.vec) ==>
                        var boots := Restored(s.d.vec)[c.id].bank;
                        (AllOn(parts, r.routes, boots)
                         <==> RollbackTarget(s.d.nv, c.slot).value == boots || NoRecords(parts))))
  {
    VectorMovesBehindRecords(s, parts, c, ev);
    StepKeepsReady(s, parts, c, ev);
    ConfirmingRun(Step(s, parts, c, ev).0, parts, c, after);
    if ev.e.Rollback? && c.id in Restored(s.d.vec) {
      OneBankOnly(parts, Step(s, parts, c, ev).0.routes, RollbackTarget(s.d.nv, c.slot).value,
                  Restored(s.d.vec)[c.id].bank);
    }
    hide Step, Run, Ready, AllOn, NoRecords, RollbackTarget;
  }
}
