/** The save queue drained by the ledger worker: the two protocols put together.

    The worker's goroutine runs the drain loop: it selects the oldest pending request,
    resolves it, and returns once none is pending, or gives up when the database is gone
    or storage fails. Clients receive requests and wake the worker in separate steps. */
module SaveDelivery {
  import W = LedgerWorker
  import Q = SaveQueue

  datatype System = System(w: W.System, q: Q.System)

  datatype Step =
    | Worker(e: W.Step)
    | Client(c: Q.Step)
    | Selects(runner: nat)
    | Resolves(runner: nat, verdict: Q.Verdict)
    | Drained(runner: nat)       // no request is pending: the work function returns
    | GivesUp(runner: nat)       // the database is gone, or a read or a write failed

  /** What a step is for the worker. */
  function WorkerStep(e: Step): W.Step {
    match e
    case Worker(step) => step
    case Drained(r) => W.WorkReturns(r)
    case GivesUp(r) => W.WorkReturns(r)
    case _ => W.Elsewhere
  }

  /** What a step is for the queue; a runner that gives up loses its copy of a request. */
  function QueueStep(e: Step): Q.Step {
    match e
    case Client(step) => step
    case Selects(r) => Q.SelectStep(r)
    case Resolves(r, verdict) => Q.ResolveStep(r, verdict)
    case GivesUp(r) => Q.CrashStep({r})
    case _ => Q.CrashStep({})
  }

  predicate InWork(w: W.System, r: nat) {
    r in w.runners && w.runners[r].InWork?
  }

  ghost predicate May(s: System, e: Step) {
    match e
    case Worker(step) => !step.WorkReturns?
    case Client(step) => step.AcceptStep? || step.DismissStep? || step.OtherWriteStep?
    case Selects(r) => InWork(s.w, r) && r !in s.q.jobs
    case Resolves(r, verdict) => InWork(s.w, r) && verdict != Q.StorageFails
    case Drained(r) => r !in s.q.jobs && Q.FirstPending(s.q.rows) < 0
    case GivesUp(_) => true
  }

  ghost predicate Next(h: Q.Payload -> int, s: System, e: Step, s': System) {
    May(s, e) && W.Next(s.w, WorkerStep(e), s'.w) && Q.Next(h, s.q, QueueStep(e), s'.q)
  }

  ghost predicate IsRun(h: Q.Payload -> int, states: seq<System>, steps: seq<Step>) {
    && |states| == |steps| + 1
    && states[0] == System(W.Start, Q.EMPTY)
    && forall k :: 0 <= k < |steps| ==> Next(h, states[k], steps[k], states[k + 1])
  }

  // ----- what each protocol sees -----

  ghost function WorkerRun(states: seq<System>, steps: seq<Step>): W.Run {
    W.Run(seq(|states|, k requires 0 <= k < |states| => states[k].w), seq(|steps|, k requires 0 <= k < |steps| => WorkerStep(steps[k])))
  }

  ghost function QueueStates(states: seq<System>): seq<Q.System> {
    seq(|states|, k requires 0 <= k < |states| => states[k].q)
  }

  ghost function QueueSteps(steps: seq<Step>): seq<Q.Step> {
    seq(|steps|, k requires 0 <= k < |steps| => QueueStep(steps[k]))
  }

  lemma {:induction false} RunsOfBoth(h: Q.Payload -> int, states: seq<System>, steps: seq<Step>)
    requires IsRun(h, states, steps)
    ensures W.IsRun(WorkerRun(states, steps)) && Q.IsRun(h, QueueStates(states), QueueSteps(steps))
  {
    forall k | 0 <= k < |steps|
      ensures W.Next(states[k].w, WorkerStep(steps[k]), states[k + 1].w) && Q.Next(h, states[k].q, QueueStep(steps[k]), states[k + 1].q)
    {
      assert Next(h, states[k], steps[k], states[k + 1]);
    }
  }

  lemma {:induction false} WorkerSafe(h: Q.Payload -> int, states: seq<System>, steps: seq<Step>, k: nat)
    requires IsRun(h, states, steps) && k < |states|
    ensures W.Safe(states[k].w)
  {
    RunsOfBoth(h, states, steps);
    W.EveryStateSafe(WorkerRun(states, steps), k);
  }

  // ----- one request at a time -----

  ghost predicate JobsAtWork(s: System) {
    forall r :: r in s.q.jobs ==> InWork(s.w, r)
  }

  lemma {:induction false} NextKeepsJobs(h: Q.Payload -> int, s: System, e: Step, s': System)
    requires JobsAtWork(s) && Next(h, s, e, s')
    ensures JobsAtWork(s')
  {
    forall r | r in s'.q.jobs ensures InWork(s'.w, r) {
      if e.Selects? && r == e.runner {
        assert InWork(s.w, r);
      } else {
        assert r in s.q.jobs;
      }
    }
  }

  lemma {:induction false} EveryJobAtWork(h: Q.Payload -> int, states: seq<System>, steps: seq<Step>, k: nat)
    requires IsRun(h, states, steps) && k < |states|
    ensures JobsAtWork(states[k])
  {
    if k > 0 {
      EveryJobAtWork(h, states, steps, k - 1);
      NextKeepsJobs(h, states[k - 1], steps[k - 1], states[k]);
    }
  }

  /** In every interleaving at most one request is being processed, by a running worker. */
  lemma {:induction false} OneRequestAtATime(h: Q.Payload -> int, states: seq<System>, steps: seq<Step>, k: nat, a: nat, b: nat)
    requires IsRun(h, states, steps) && k < |states| && a in states[k].q.jobs && b in states[k].q.jobs
    ensures a == b && states[k].w.f.running
  {
    EveryJobAtWork(h, states, steps, k);
    WorkerSafe(h, states, steps, k);
    assert InWork(states[k].w, a) && InWork(states[k].w, b);
    assert a in states[k].w.runners.Keys;
  }

  // ----- delivery -----

  /** A runner leaves its work function only by draining the queue or by giving up. */
  lemma {:induction false} LeavesWork(h: Q.Payload -> int, s: System, e: Step, s': System, r: nat)
    requires W.Safe(s.w) && Next(h, s, e, s') && InWork(s.w, r) && !InWork(s'.w, r)
    ensures e == Drained(r) || e == GivesUp(r)
  {
  }

  lemma {:induction false} WorkEnds(h: Q.Payload -> int, states: seq<System>, steps: seq<Step>, k: nat, j: nat, r: nat) returns (m: nat)
    requires IsRun(h, states, steps) && k < j < |states| && InWork(states[k].w, r) && !InWork(states[j].w, r)
    ensures k <= m < j && (steps[m] == Drained(r) || steps[m] == GivesUp(r))
  {
    m := k;
    while InWork(states[m + 1].w, r)
      invariant k <= m < j && InWork(states[m].w, r)
      decreases j - m
    {
      m := m + 1;
    }
    WorkerSafe(h, states, steps, m);
    assert Next(h, states[m], steps[m], states[m + 1]);
    LeavesWork(h, states[m], steps[m], states[m + 1], r);
  }

  lemma {:induction false} ExitLeavesWork(h: Q.Payload -> int, states: seq<System>, steps: seq<Step>, j: nat, r: nat)
    requires IsRun(h, states, steps) && j < |steps| && W.Exits(states[j].w, WorkerStep(steps[j]))
    ensures !InWork(states[j].w, r)
  {
    WorkerSafe(h, states, steps, j);
    assert Next(h, states[j], steps[j], states[j + 1]);
    assert WorkerStep(steps[j]).runner in states[j].w.runners;
  }

  ghost predicate GaveUp(steps: seq<Step>, i: nat, j: nat) {
    exists k :: i < k < j && k < |steps| && steps[k].GivesUp?
  }

  /** Between an accepted wake that no reset drops and the runner's exit, the work function
      finds the queue empty at some moment, unless it gave up. */
  lemma {:induction false} WakeDrains(h: Q.Payload -> int, states: seq<System>, steps: seq<Step>, i: nat, j: nat) returns (m: nat)
    requires IsRun(h, states, steps) && i < j < |steps|
    requires W.AcceptedWake(WorkerRun(states, steps), i) && !W.Dropped(WorkerRun(states, steps), i, j)
    requires W.Exits(states[j].w, WorkerStep(steps[j])) && !GaveUp(steps, i, j)
    ensures i < m < j && Q.FirstPending(states[m].q.rows) < 0
  {
    var run := WorkerRun(states, steps);
    RunsOfBoth(h, states, steps);
    W.AcceptedWakeIsServed(run, i, j);
    var k :| i < k < j && W.Starts(run.states[k], run.steps[k]) && run.states[k].f.work == run.states[i].f.work;
    assert Next(h, states[k], steps[k], states[k + 1]);
    var r := run.steps[k].runner;
    assert InWork(states[k + 1].w, r);
    ExitLeavesWork(h, states, steps, j, r);
    m := WorkEnds(h, states, steps, k + 1, j, r);
    assert Next(h, states[m], steps[m], states[m + 1]);
  }

  ghost predicate Known(rows: seq<Q.Row>, id: string) {
    exists n :: 0 <= n < |rows| && rows[n].id == id
  }

  /** Every request of that id has been completed or has failed. */
  ghost predicate Settled(rows: seq<Q.Row>, id: string) {
    Known(rows, id) && forall n :: 0 <= n < |rows| && rows[n].id == id ==> rows[n].state != Q.Pending
  }

  lemma {:induction false} ReceivedIsKnown(h: Q.Payload -> int, s: Q.System, id: string, p: Q.Payload, s': Q.System)
    requires Q.Next(h, s, Q.AcceptStep(id, p), s') && Q.ReceiptOf(s.rows, id, p, h(p)) == Q.Received
    ensures Known(s'.rows, id)
  {
    var at := Q.Find(s.rows, id);
    if at < 0 {
      assert s'.rows[|s.rows|].id == id;
    } else {
      assert s'.rows[at].id == id;
    }
  }

  lemma {:induction false} SettledStays(rows: seq<Q.Row>, rows': seq<Q.Row>, id: string)
    requires Q.Advances(rows, rows') && Q.DistinctIds(rows') && Settled(rows, id)
    ensures Settled(rows', id)
  {
    var n :| 0 <= n < |rows| && rows[n].id == id;
    assert rows'[n].id == id && rows'[n].state != Q.Pending;
  }

  lemma {:induction false} KnownStays(rows: seq<Q.Row>, rows': seq<Q.Row>, id: string)
    requires Q.Advances(rows, rows') && Known(rows, id)
    ensures Known(rows', id)
  {
    var n :| 0 <= n < |rows| && rows[n].id == id;
    assert rows'[n].id == id;
  }

  /** A save that was received and whose wake no reset drops is completed or has failed
      before the runner exits, unless the work function gave up in between. */
  lemma {:induction false} ReceivedSaveIsSettled(h: Q.Payload -> int, states: seq<System>, steps: seq<Step>, a: nat, i: nat, j: nat,
                                                 id: string, p: Q.Payload)
    requires IsRun(h, states, steps) && a < i < j < |steps|
    requires steps[a] == Client(Q.AcceptStep(id, p)) && Q.ReceiptOf(states[a].q.rows, id, p, h(p)) == Q.Received
    requires W.AcceptedWake(WorkerRun(states, steps), i) && !W.Dropped(WorkerRun(states, steps), i, j)
    requires W.Exits(states[j].w, WorkerStep(steps[j])) && !GaveUp(steps, i, j)
    ensures Settled(states[j].q.rows, id)
  {
    RunsOfBoth(h, states, steps);
    var qs, es := QueueStates(states), QueueSteps(steps);
    assert Next(h, states[a], steps[a], states[a + 1]);
    ReceivedIsKnown(h, states[a].q, id, p, states[a + 1].q);
    var m := WakeDrains(h, states, steps, i, j);
    Q.ResolutionIsFinal(h, qs, es, a + 1, m);
    KnownStays(states[a + 1].q.rows, states[m].q.rows, id);
    assert Settled(states[m].q.rows, id);
    Q.ResolutionIsFinal(h, qs, es, m, j);
    Q.EveryStateSafe(h, qs, es, j);
    SettledStays(states[m].q.rows, states[j].q.rows, id);
  }
}
