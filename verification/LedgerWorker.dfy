/** The instance-owned ledger worker: one condition variable, one goroutine at a time.

    The four mutex-protected fields are a class whose methods are the critical
    sections of the program; everything that happens between two critical
    sections of different goroutines is an interleaving of `Step`s. */
module LedgerWorker {
  import opened Options

  /** The fields guarded by the mutex. `work` is the installed work function, by name. */
  datatype Fields = Fields(work: Option<nat>, running: bool, pending: bool, closing: bool)

  datatype WakeOutcome = Ignored | Coalesced | Spawned

  const FRESH := Fields(None, false, false, false)

  // ----- critical sections, as functions of the guarded fields -----

  predicate RegistersFirst(f: Fields) {
    f.work.None? && !f.closing
  }

  function Registered(f: Fields, work: nat): Fields {
    if RegistersFirst(f) then f.(work := Some(work)) else f
  }

  predicate WakeAccepted(f: Fields) {
    !f.closing && f.work.Some?
  }

  function Woken(f: Fields): Fields {
    if WakeAccepted(f) then f.(pending := true, running := true) else f
  }

  function OutcomeOfWake(f: Fields): WakeOutcome {
    if !WakeAccepted(f) then Ignored else if f.running then Coalesced else Spawned
  }

  /** One turn of the goroutine's loop head: leave, or take the pending wake. */
  function Turned(f: Fields): Fields {
    if f.pending then f.(pending := false) else f.(running := false)
  }

  function Stopping(f: Fields): Fields {
    f.(closing := true)
  }

  function Reset(f: Fields): Fields {
    f.(closing := false, pending := false, work := None)
  }

  class LedgerWork {
    var work: Option<nat>
    var running: bool
    var pending: bool
    var closing: bool
    ghost var world: System      // these fields among all goroutines and callers of stop

    function Guarded(): Fields
      reads this
    {
      Fields(work, running, pending, closing)
    }

    ghost predicate Valid()
      reads this
    {
      world.f == Guarded() && Safe(world)
    }

    constructor ()
      ensures Valid() && Guarded() == FRESH && world == Start
    {
      work, running, pending, closing := None, false, false, false;
      world := Start;
    }

    /** Accounts for a step that these fields have just taken. */
    ghost method Took(e: Step, after: System)
      requires Safe(world) && Next(world, e, after) && after.f == Guarded()
      modifies this`world
      ensures Valid() && world == after
    {
      NextKeepsSafe(world, e, after);
      world := after;
    }

    method Register(newWork: nat) returns (first: bool)
      requires Valid()
      modifies this
      ensures Valid() && Next(old(world), RegisterStep(newWork), world)
      ensures first <==> old(work).None? && !old(closing)
      ensures Guarded() == old(Guarded()).(work := if first then Some(newWork) else old(work))
      ensures first == RegistersFirst(old(Guarded()))
    {
      first := work.None? && !closing;
      if first {
        work := Some(newWork);
      }
      Took(RegisterStep(newWork), world.(f := Guarded()));
    }

    method Wake(ghost newRunner: nat) returns (outcome: WakeOutcome)
      requires Valid() && newRunner !in world.runners
      modifies this
      ensures Valid() && Next(old(world), WakeStep(newRunner), world)
      ensures outcome == Ignored <==> old(closing) || old(work).None?
      ensures outcome == Coalesced <==> !old(closing) && old(work).Some? && old(running)
      ensures outcome == Spawned <==> !old(closing) && old(work).Some? && !old(running)
      ensures Guarded() == if outcome == Ignored then old(Guarded()) else old(Guarded()).(pending := true, running := true)
      ensures outcome == OutcomeOfWake(old(Guarded()))
    {
      if closing || work.None? {
        Took(WakeStep(newRunner), world);
        return Ignored;
      }
      pending := true;
      if running {
        Took(WakeStep(newRunner), world.(f := Guarded()));
        return Coalesced;
      }
      running := true;
      Took(WakeStep(newRunner), world.(f := Guarded(), runners := world.runners[newRunner := AtLoopHead]));
      return Spawned;
    }

    /** The goroutine's loop head; `None` means that it returned. */
    method Turn(ghost runner: nat) returns (next: Option<nat>)
      requires Valid() && runner in world.runners && world.runners[runner] == AtLoopHead
      modifies this
      ensures Valid() && Next(old(world), TurnStep(runner), world)
      ensures Guarded() == if old(pending) then old(Guarded()).(pending := false) else old(Guarded()).(running := false)
      ensures next.Some? <==> old(pending)
      ensures old(pending) ==> next == old(work)
    {
      if !pending {
        running := false;
        Took(TurnStep(runner), world.(f := Guarded(), runners := world.runners - {runner}));
        return None;
      }
      pending := false;
      Took(TurnStep(runner), world.(f := Guarded(), runners := world.runners[runner := InWork(work)]));
      return work;
    }

    method BeginStop(ghost caller: nat)
      requires Valid() && caller !in world.stopping
      modifies this
      ensures Valid() && Next(old(world), StopBegins(caller), world)
      ensures Guarded() == old(Guarded()).(closing := true)
    {
      closing := true;
      Took(StopBegins(caller), world.(f := Guarded(), stopping := world.stopping + {caller}));
    }

    method ResetWork()
      requires Valid()
      modifies this
      ensures Valid() && Next(old(world), ResetStep, world)
      ensures Guarded() == old(Guarded()).(closing := false, pending := false, work := None)
    {
      closing := false;
      pending := false;
      work := None;
      Took(ResetStep, world.(f := Guarded()));
    }
  }

  // ----- the system: guarded fields, goroutines, and callers of stop -----

  /** A goroutine is at its loop head or inside the function it took; taking `None`
      would be a call of a nil function. */
  datatype RunnerPc = AtLoopHead | InWork(fn: Option<nat>)

  datatype System = System(f: Fields, runners: map<nat, RunnerPc>, stopping: set<nat>)

  const Start := System(FRESH, map[], {})

  datatype Step =
    | RegisterStep(fn: nat)
    | WakeStep(newRunner: nat)       // the goroutine identity used if one is spawned
    | TurnStep(runner: nat)
    | WorkReturns(runner: nat)
    | StopBegins(caller: nat)
    | StopReturns(caller: nat)       // the condition wait ends: nothing is running
    | ResetStep
    | Elsewhere                      // something that leaves the worker alone

  ghost predicate Next(s: System, e: Step, s': System) {
    match e
    case RegisterStep(fn) =>
      s' == s.(f := Registered(s.f, fn))
    case WakeStep(r) =>
      && r !in s.runners
      && s' == s.(f := Woken(s.f),
                  runners := if OutcomeOfWake(s.f) == Spawned then s.runners[r := AtLoopHead] else s.runners)
    case TurnStep(r) =>
      && r in s.runners && s.runners[r] == AtLoopHead
      && s' == s.(f := Turned(s.f),
                  runners := if s.f.pending then s.runners[r := InWork(s.f.work)] else s.runners - {r})
    case WorkReturns(r) =>
      && r in s.runners && s.runners[r].InWork?
      && s' == s.(runners := s.runners[r := AtLoopHead])
    case StopBegins(c) =>
      && c !in s.stopping
      && s' == s.(f := Stopping(s.f), stopping := s.stopping + {c})
    case StopReturns(c) =>
      && c in s.stopping && !s.f.running
      && s' == s.(stopping := s.stopping - {c})
    case ResetStep =>
      s' == s.(f := Reset(s.f))
    case Elsewhere =>
      s' == s
  }

  /** Starting the work function is the turn that takes a pending wake. */
  ghost predicate Starts(s: System, e: Step) {
    e.TurnStep? && s.f.pending
  }

  ghost predicate Exits(s: System, e: Step) {
    e.TurnStep? && !s.f.pending
  }

  datatype Run = Run(states: seq<System>, steps: seq<Step>)

  ghost predicate IsRun(run: Run) {
    && |run.states| == |run.steps| + 1
    && run.states[0] == Start
    && forall i :: 0 <= i < |run.steps| ==> Next(run.states[i], run.steps[i], run.states[i + 1])
  }

  /** At most one goroutine, `running` says exactly whether it exists, a pending
      wake has a goroutine and a work function to serve it, and no goroutine
      ever calls a nil function. */
  ghost predicate Safe(s: System) {
    && (forall a, b :: a in s.runners && b in s.runners ==> a == b)
    && (s.f.running <==> s.runners.Keys != {})
    && (s.f.pending ==> s.f.running && s.f.work.Some?)
    && (forall r :: r in s.runners && s.runners[r].InWork? ==> s.runners[r].fn.Some?)
  }

  lemma {:induction false} NextKeepsSafe(s: System, e: Step, s': System)
    requires Safe(s) && Next(s, e, s')
    ensures Safe(s')
  {
    match e
    case WakeStep(r) =>
      if OutcomeOfWake(s.f) == Spawned {
        assert s.runners.Keys == {};
        assert r in s'.runners.Keys;
      }
    case TurnStep(r) =>
      if s.f.pending {
        assert r in s'.runners.Keys;
      } else {
        assert forall a :: a in s'.runners ==> a == r;
        assert s'.runners.Keys == {};
      }
    case WorkReturns(r) =>
      assert s'.runners.Keys == s.runners.Keys;
    case _ =>
  }

  /** Every reachable state, whatever the interleaving, is safe. */
  lemma {:induction false} EveryStateSafe(run: Run, k: nat)
    requires IsRun(run) && k < |run.states|
    ensures Safe(run.states[k])
  {
    if k > 0 {
      EveryStateSafe(run, k - 1);
      NextKeepsSafe(run.states[k - 1], run.steps[k - 1], run.states[k]);
    }
  }

  /** Resets happen only once the previous goroutine has been joined. */
  ghost predicate ResetsWhenJoined(run: Run)
    requires |run.states| == |run.steps| + 1
  {
    forall k :: 0 <= k < |run.steps| && run.steps[k].ResetStep? ==> !run.states[k].f.running
  }

  ghost predicate ResetBetween(run: Run, i: nat, j: nat) {
    exists k :: i <= k < j && k < |run.steps| && run.steps[k].ResetStep?
  }

  /** Until the work function is started again, an accepted wake stays pending,
      keeps its goroutine alive and keeps the work function it was accepted for. */
  lemma {:induction false} WakeStaysPending(run: Run, i: nat, m: nat)
    requires IsRun(run) && i < m <= |run.steps|
    requires run.steps[i].WakeStep? && WakeAccepted(run.states[i].f)
    requires forall k :: i < k < m ==> !Starts(run.states[k], run.steps[k])
    requires ResetsWhenJoined(run) || !ResetBetween(run, i, m)
    ensures run.states[m].f.pending && run.states[m].f.running
    ensures run.states[m].f.work == run.states[i].f.work
    ensures forall k :: i < k < m ==> !Exits(run.states[k], run.steps[k])
    decreases m
  {
    if m > i + 1 {
      assert ResetBetween(run, i, m - 1) ==> ResetBetween(run, i, m);
      WakeStaysPending(run, i, m - 1);
      assert Next(run.states[m - 1], run.steps[m - 1], run.states[m]);
      assert run.steps[m - 1].ResetStep? ==> ResetBetween(run, i, m);
    } else {
      assert Next(run.states[i], run.steps[i], run.states[i + 1]);
    }
  }

  ghost predicate AcceptedWake(run: Run, i: nat)
    requires |run.states| == |run.steps| + 1
  {
    i < |run.steps| && run.steps[i].WakeStep? && WakeAccepted(run.states[i].f)
  }

  ghost predicate StartBetween(run: Run, i: nat, j: nat)
    requires |run.states| == |run.steps| + 1
  {
    exists k :: i < k < j && k < |run.steps| && Starts(run.states[k], run.steps[k])
  }

  /** Some reset after `i` comes before any start of the work function. */
  ghost predicate Dropped(run: Run, i: nat, j: nat)
    requires |run.states| == |run.steps| + 1
  {
    exists r :: i < r < j && r < |run.steps| && run.steps[r].ResetStep? && !StartBetween(run, i, r)
  }

  /** Before any goroutine exits, a wake that no reset drops is followed by a fresh start
      of the work function it was accepted for. */
  lemma {:induction false} AcceptedWakeIsServed(run: Run, i: nat, j: nat)
    requires IsRun(run) && i < j < |run.steps|
    requires AcceptedWake(run, i) && Exits(run.states[j], run.steps[j])
    requires !Dropped(run, i, j)
    ensures exists k :: i < k < j && Starts(run.states[k], run.steps[k])
                        && run.states[k].f.work == run.states[i].f.work
  {
    if !StartBetween(run, i, j) {
      NoResetBeforeStart(run, i, j, j);
      WakeStaysPending(run, i, j);
      assert false;
    }
    var k := FirstStart(run, i, j);
    NoResetBeforeStart(run, i, k, j);
    WakeStaysPending(run, i, k);
  }

  lemma {:induction false} NoResetBeforeStart(run: Run, i: nat, k: nat, j: nat)
    requires IsRun(run) && i < k <= j < |run.steps| && run.steps[i].WakeStep?
    requires !Dropped(run, i, j) && forall h :: i < h < k ==> !Starts(run.states[h], run.steps[h])
    ensures !ResetBetween(run, i, k)
  {
    forall r | i <= r < k && r < |run.steps| ensures !run.steps[r].ResetStep? {
      assert !StartBetween(run, i, r);
    }
  }

  /** A reset clears the pending wake until another one is accepted. */
  lemma {:induction false} NothingPendingAfterReset(run: Run, r: nat, k: nat)
    requires IsRun(run) && r < k <= |run.steps| && run.steps[r].ResetStep?
    requires forall w :: r < w < k ==> !AcceptedWake(run, w)
    ensures !run.states[k].f.pending
    decreases k
  {
    assert Next(run.states[k - 1], run.steps[k - 1], run.states[k]);
    if k > r + 1 {
      NothingPendingAfterReset(run, r, k - 1);
      assert !AcceptedWake(run, k - 1);
    }
  }

  lemma {:induction false} LastWake(run: Run, i: nat, k: nat) returns (w: nat)
    requires IsRun(run) && i < k < |run.steps| && AcceptedWake(run, i)
    ensures i <= w < k && AcceptedWake(run, w) && forall h :: w < h < k ==> !AcceptedWake(run, h)
  {
    w := k - 1;
    while !AcceptedWake(run, w)
      invariant i <= w < k
      invariant forall h :: w < h < k ==> !AcceptedWake(run, h)
      decreases w
    {
      w := w - 1;
    }
  }

  /** The last wake accepted before a start is the one it serves: no reset dropped it. */
  lemma {:induction false} StartServesAWake(run: Run, w: nat, k: nat, j: nat)
    requires IsRun(run) && w < k < j < |run.steps|
    requires Starts(run.states[k], run.steps[k])
    requires forall h :: w < h < k ==> !AcceptedWake(run, h)
    ensures !Dropped(run, w, j)
  {
    forall r | w < r < j && r < |run.steps| && run.steps[r].ResetStep? ensures StartBetween(run, w, r) {
      if r < k {
        NothingPendingAfterReset(run, r, k);
        assert false;
      }
    }
  }

  /** Exactly when no wake is lost: between an accepted wake and a goroutine's exit the
      work function starts if and only if some wake accepted meanwhile is not dropped by
      a reset; if no other wake comes, if and only if this one is not dropped. */
  lemma {:induction false} ServedUnlessDropped(run: Run, i: nat, j: nat)
    requires IsRun(run) && i < j < |run.steps|
    requires AcceptedWake(run, i) && Exits(run.states[j], run.steps[j])
    ensures StartBetween(run, i, j) <==> exists w :: i <= w < j && AcceptedWake(run, w) && !Dropped(run, w, j)
    ensures (forall w :: i < w < j ==> !AcceptedWake(run, w)) ==> (StartBetween(run, i, j) <==> !Dropped(run, i, j))
  {
    if StartBetween(run, i, j) {
      var k :| i < k < j && k < |run.steps| && Starts(run.states[k], run.steps[k]);
      var w := LastWake(run, i, k);
      StartServesAWake(run, w, k, j);
    }
    forall w | i <= w < j && AcceptedWake(run, w) && !Dropped(run, w, j) ensures StartBetween(run, i, j) {
      AcceptedWakeIsServed(run, w, j);
    }
  }

  /** Where every reset follows a join, no wake is ever dropped. */
  lemma {:induction false} JoinedResetsDropNothing(run: Run, i: nat, j: nat)
    requires IsRun(run) && AcceptedWake(run, i) && i < j && ResetsWhenJoined(run)
    ensures !Dropped(run, i, j)
  {
    if Dropped(run, i, j) {
      var r :| i < r < j && r < |run.steps| && run.steps[r].ResetStep? && !StartBetween(run, i, r);
      WakeStaysPending(run, i, r);
      assert false;
    }
  }

  lemma {:induction false} FirstStart(run: Run, i: nat, j: nat) returns (k: nat)
    requires IsRun(run) && i < j < |run.steps|
    requires exists k :: i < k < j && Starts(run.states[k], run.steps[k])
    ensures i < k < j && Starts(run.states[k], run.steps[k])
    ensures forall h :: i < h < k ==> !Starts(run.states[h], run.steps[h])
    decreases j
  {
    k := i + 1;
    while !Starts(run.states[k], run.steps[k])
      invariant i < k < j
      invariant forall h :: i < h < k ==> !Starts(run.states[h], run.steps[h])
      decreases j - k
    {
      k := k + 1;
    }
  }

  lemma {:induction false} ClosingPersists(run: Run, b: nat, j: nat)
    requires IsRun(run) && b < j <= |run.steps|
    requires run.steps[b].StopBegins? && !ResetBetween(run, b, j)
    ensures run.states[j].f.closing
    decreases j
  {
    assert Next(run.states[j - 1], run.steps[j - 1], run.states[j]);
    if j > b + 1 {
      assert ResetBetween(run, b, j - 1) ==> ResetBetween(run, b, j);
      ClosingPersists(run, b, j - 1);
      assert !run.steps[j - 1].ResetStep?;
    }
  }

  /** Once stop has returned, until a reset, no goroutine exists and none of the
      steps registers, spawns or starts anything. */
  lemma {:induction false} StopIsQuiescent(run: Run, b: nat, r: nat, j: nat)
    requires IsRun(run) && b < r < j <= |run.steps|
    requires run.steps[b].StopBegins? && run.steps[r] == StopReturns(run.steps[b].caller)
    requires !ResetBetween(run, b, j)
    ensures run.states[j].f.closing && run.states[j].runners == map[]
    ensures run.states[j].f.work == run.states[r].f.work
    ensures forall k :: r < k < j ==> !run.steps[k].TurnStep? && !run.steps[k].WorkReturns?
    decreases j
  {
    ClosingPersists(run, b, j);
    assert Next(run.states[j - 1], run.steps[j - 1], run.states[j]);
    if j > r + 1 {
      assert ResetBetween(run, b, j - 1) ==> ResetBetween(run, b, j);
      StopIsQuiescent(run, b, r, j - 1);
      assert !run.steps[j - 1].ResetStep?;
    } else {
      EveryStateSafe(run, r);
      assert run.states[r].runners.Keys == {};
    }
  }

  /** Wakes can be dropped: when two callers have both stopped the worker before either
      resets it, the second reset loses the wake accepted after the first. */
  lemma {:induction false} UnjoinedResetDropsWake(fn: nat, r: nat, c: nat, d: nat) returns (run: Run)
    requires c != d
    ensures IsRun(run)
    ensures run.steps == [StopBegins(c), StopReturns(c), StopBegins(d), StopReturns(d), ResetStep, RegisterStep(fn), WakeStep(r),
                          ResetStep, TurnStep(r)]
    ensures AcceptedWake(run, 6) && Exits(run.states[8], run.steps[8]) && Dropped(run, 6, 8) && !StartBetween(run, 6, 8)
  {
    var idle, stopped := Fields(None, false, false, false), Fields(None, false, false, true);
    var woken := Fields(Some(fn), true, true, false);
    var steps := [StopBegins(c), StopReturns(c), StopBegins(d), StopReturns(d), ResetStep, RegisterStep(fn), WakeStep(r),
                  ResetStep, TurnStep(r)];
    var states := [Start, System(stopped, map[], {c}), System(stopped, map[], {}), System(stopped, map[], {d}),
                   System(stopped, map[], {}), System(idle, map[], {}), System(Fields(Some(fn), false, false, false), map[], {}),
                   System(woken, map[r := AtLoopHead], {}), System(Fields(None, true, false, false), map[r := AtLoopHead], {}),
                   System(idle, map[], {})];
    run := Run(states, steps);
    StepsFollow(states, steps, fn, r, c, d);
    assert run.steps[7].ResetStep?;
  }

  lemma {:induction false} StepsFollow(states: seq<System>, steps: seq<Step>, fn: nat, r: nat, c: nat, d: nat)
    requires steps == [StopBegins(c), StopReturns(c), StopBegins(d), StopReturns(d), ResetStep, RegisterStep(fn), WakeStep(r),
                       ResetStep, TurnStep(r)]
    requires states == [Start, System(Fields(None, false, false, true), map[], {c}), System(Fields(None, false, false, true), map[], {}),
                        System(Fields(None, false, false, true), map[], {d}), System(Fields(None, false, false, true), map[], {}),
                        System(Fields(None, false, false, false), map[], {}), System(Fields(Some(fn), false, false, false), map[], {}),
                        System(Fields(Some(fn), true, true, false), map[r := AtLoopHead], {}),
                        System(Fields(None, true, false, false), map[r := AtLoopHead], {}), System(Fields(None, false, false, false), map[], {})]
    ensures forall i :: 0 <= i < |steps| ==> Next(states[i], steps[i], states[i + 1])
  {
    assert {} + {c} == {c} && {c} - {c} == {} && {} + {d} == {d} && {d} - {d} == {};
    var none: map<nat, RunnerPc> := map[];
    assert none[r := AtLoopHead] == map[r := AtLoopHead];
    assert map[r := AtLoopHead] - {r} == none;
    assert Next(states[0], steps[0], states[1]) && Next(states[1], steps[1], states[2]) && Next(states[2], steps[2], states[3]);
    assert Next(states[3], steps[3], states[4]) && Next(states[4], steps[4], states[5]) && Next(states[5], steps[5], states[6]);
    assert Next(states[6], steps[6], states[7]) && Next(states[7], steps[7], states[8]) && Next(states[8], steps[8], states[9]);
  }
}
