/** The Desktop coordinator's lease/drain protocol: borrows of the open vault,
    and the operations (lock, close, restore) that wait for them to be returned.

    A critical section under the coordinator's mutex is one method of
    `Coordinator`; the interleavings of the sections of all callers are `Step`s. */
module VaultCoordinator {
  import opened Options

  /** The fields guarded by the mutex. Database instances are named by numbers. */
  datatype Fields = Fields(
    instance: Option<nat>,
    active: nat,
    draining: bool,
    closed: bool,
    generation: nat,
    configured: bool,   // a manifest is loaded
    migrating: bool     // a migration journal is pending
  )

  datatype Refusal = ErrClosed | ErrBusy | ErrMigrationPending | ErrNotConfigured | ErrLocked | ErrAlreadyUnlocked

  // ----- critical sections, as functions of the guarded fields -----

  function MutableRefusal(f: Fields): Option<Refusal> {
    if f.closed then Some(ErrClosed) else if f.draining then Some(ErrBusy) else None
  }

  function UnlockedRefusal(f: Fields): Option<Refusal> {
    if MutableRefusal(f).Some? then MutableRefusal(f)
    else if f.migrating then Some(ErrMigrationPending)
    else if !f.configured then Some(ErrNotConfigured)
    else if f.instance.None? then Some(ErrLocked)
    else None
  }

  function UnlockRefusal(f: Fields): Option<Refusal> {
    if MutableRefusal(f).Some? then MutableRefusal(f)
    else if f.migrating then Some(ErrMigrationPending)
    else if !f.configured then Some(ErrNotConfigured)
    else if f.instance.Some? then Some(ErrAlreadyUnlocked)
    else None
  }

  /** Who is refused, and why: the first of these that holds. */
  lemma {:induction false} RefusedExactly(f: Fields)
    ensures MutableRefusal(f) == Some(ErrClosed) <==> f.closed
    ensures MutableRefusal(f) == Some(ErrBusy) <==> !f.closed && f.draining
    ensures MutableRefusal(f) == None <==> !f.closed && !f.draining
    ensures UnlockedRefusal(f) == Some(ErrClosed) <==> f.closed
    ensures UnlockedRefusal(f) == Some(ErrBusy) <==> !f.closed && f.draining
    ensures UnlockedRefusal(f) == Some(ErrMigrationPending) <==> !f.closed && !f.draining && f.migrating
    ensures UnlockedRefusal(f) == Some(ErrNotConfigured) <==> !f.closed && !f.draining && !f.migrating && !f.configured
    ensures UnlockedRefusal(f) == Some(ErrLocked) <==> !f.closed && !f.draining && !f.migrating && f.configured && f.instance == None
    ensures UnlockedRefusal(f) == None <==> !f.closed && !f.draining && !f.migrating && f.configured && f.instance != None
    ensures UnlockRefusal(f) == Some(ErrClosed) <==> f.closed
    ensures UnlockRefusal(f) == Some(ErrBusy) <==> !f.closed && f.draining
    ensures UnlockRefusal(f) == Some(ErrMigrationPending) <==> !f.closed && !f.draining && f.migrating
    ensures UnlockRefusal(f) == Some(ErrNotConfigured) <==> !f.closed && !f.draining && !f.migrating && !f.configured
    ensures UnlockRefusal(f) == Some(ErrAlreadyUnlocked) <==> !f.closed && !f.draining && !f.migrating && f.configured && f.instance != None
    ensures UnlockRefusal(f) == None <==> !f.closed && !f.draining && !f.migrating && f.configured && f.instance == None
  {
  }

  function Published(f: Fields, instance: nat): Fields {
    f.(instance := Some(instance), generation := f.generation + 1)
  }

  function Borrowed(f: Fields): Fields {
    f.(active := f.active + 1)
  }

  function Returned(f: Fields): Fields {
    if f.active > 0 then f.(active := f.active - 1) else f
  }

  function Detached(f: Fields): Fields {
    f.(instance := None, generation := f.generation + 1)
  }

  predicate GenerationIsLive(f: Fields, generation: nat) {
    !f.closed && !f.draining && f.instance.Some? && f.generation == generation
  }

  datatype LockOutcome = MustWait | LockPending | AlreadyLocked | Drains
  datatype CloseOutcome = CloseWaits | AlreadyClosed | ClosedIdle | CloseDrains

  class Coordinator {
    var instance: Option<nat>
    var active: nat
    var draining: bool
    var closed: bool
    var generation: nat
    var configured: bool
    var migrating: bool
    ghost var world: System      // these fields among all borrows and drains

    function Guarded(): Fields
      reads this
    {
      Fields(instance, active, draining, closed, generation, configured, migrating)
    }

    ghost predicate Valid()
      reads this
    {
      world.f == Guarded() && Safe(world)
    }

    /** Starts locked; a loaded manifest sets the first generation. */
    constructor (configured: bool, migrating: bool)
      ensures Valid() && Guarded() == Initial(configured, migrating)
      ensures world == Start(configured, migrating)
    {
      instance, active, draining, closed := None, 0, false, false;
      generation := if configured then 1 else 0;
      this.configured, this.migrating := configured, migrating;
      world := Start(configured, migrating);
      StartIsSafe(configured, migrating);
    }

    /** Accounts for a step of the protocol that these fields have just taken. */
    ghost method Took(e: Step, after: System)
      requires Safe(world) && Next(world, e, after) && after.f == Guarded()
      modifies this`world
      ensures Valid() && world == after
    {
      NextKeepsSafe(world, e, after);
      world := after;
    }

    /** `vault` is the vault the password or recovery secret opened, if it did. */
    method Unlock(vault: Option<nat>) returns (refusal: Option<Refusal>, published: bool)
      requires Valid() && (vault.Some? ==> vault.value !in world.published)
      modifies this
      ensures Valid()
      ensures refusal == UnlockRefusal(old(Guarded()))
      ensures published == (refusal.None? && vault.Some?)
      ensures if published then Next(old(world), OpenStep(vault.value), world) else world == old(world)
      ensures refusal.None? <==> !old(closed) && !old(draining) && !old(migrating) && old(configured) && old(instance).None?
      ensures published ==> Guarded() == old(Guarded()).(instance := vault, generation := old(generation) + 1)
      ensures !published ==> Guarded() == old(Guarded())
    {
      published := false;
      if closed { return Some(ErrClosed), false; }
      if draining { return Some(ErrBusy), false; }
      if migrating { return Some(ErrMigrationPending), false; }
      if !configured { return Some(ErrNotConfigured), false; }
      if instance.Some? { return Some(ErrAlreadyUnlocked), false; }
      if vault.None? { return None, false; }
      instance := vault;
      generation := generation + 1;
      Took(OpenStep(vault.value), world.(f := Guarded(), published := world.published + {vault.value}));
      return None, true;
    }

    method Borrow(ghost lease: nat) returns (refusal: Option<Refusal>, at: nat)
      requires Valid() && lease !in world.leases
      modifies this
      ensures Valid()
      ensures if refusal.None? then Next(old(world), BorrowStep(lease), world) else world == old(world)
      ensures refusal == UnlockedRefusal(old(Guarded()))
      ensures refusal.None? <==> !old(closed) && !old(draining) && !old(migrating) && old(configured) && old(instance).Some?
      ensures refusal.None? ==> Guarded() == old(Guarded()).(active := old(active) + 1) && at == old(generation)
      ensures refusal.Some? ==> Guarded() == old(Guarded())
    {
      at := generation;
      if closed { return Some(ErrClosed), at; }
      if draining { return Some(ErrBusy), at; }
      if migrating { return Some(ErrMigrationPending), at; }
      if !configured { return Some(ErrNotConfigured), at; }
      if instance.None? { return Some(ErrLocked), at; }
      active := active + 1;
      Took(BorrowStep(lease), world.(f := Guarded(), leases := world.leases[lease := Lease(instance, generation, Held)]));
      return None, at;
    }

    method ReleaseOperation(ghost lease: nat)
      requires Valid() && lease in world.leases && world.leases[lease].phase != Done
      modifies this
      ensures Valid()
      ensures Next(old(world), ReleaseStep(lease), world)
      ensures old(active) > 0 && Guarded() == old(Guarded()).(active := old(active) - 1)
    {
      if active > 0 {
        active := active - 1;
      }
      Took(ReleaseStep(lease), world.(f := Guarded(), leases := world.leases[lease := world.leases[lease].(phase := Done)]));
    }

    /** A live lease reads the published instance. */
    method Live(released: bool, at: nat, ghost lease: nat) returns (live: bool)
      requires Valid() && lease in world.leases && world.leases[lease].generation == at
      requires released <==> world.leases[lease].phase != Held
      ensures live == (!released && GenerationIsLive(Guarded(), at))
      ensures live <==> world.leases[lease].phase == Held && !closed && !draining
      ensures live ==> world.leases[lease].instance == instance
    {
      assert world.leases[lease].phase == Held ==> lease in Outstanding(world.leases);
      if released { return false; }
      live := !closed && !draining && instance.Some? && generation == at;
    }

    method BeginLock(ghost caller: nat) returns (outcome: LockOutcome)
      requires Valid() && caller !in world.drainers
      modifies this
      ensures Valid()
      ensures if outcome == MustWait || outcome == LockPending then world == old(world) else Next(old(world), LockBegins(caller), world)
      ensures outcome == (if old(draining) then MustWait else if old(migrating) then LockPending
                          else if old(instance).None? then AlreadyLocked else Drains)
      ensures Guarded() == if outcome == Drains then old(Guarded()).(draining := true) else old(Guarded())
    {
      if draining { return MustWait; }
      if migrating { return LockPending; }
      if instance.None? { return AlreadyLocked; }
      draining := true;
      Took(LockBegins(caller), world.(f := Guarded(), drainers := world.drainers[caller := Waiting(LockDrain)]));
      return Drains;
    }

    method BeginClose(ghost caller: nat) returns (outcome: CloseOutcome)
      requires Valid() && caller !in world.drainers
      modifies this
      ensures Valid()
      ensures if outcome == CloseWaits then world == old(world) else Next(old(world), CloseBegins(caller), world)
      ensures outcome == (if old(draining) then CloseWaits else if old(closed) then AlreadyClosed
                          else if old(instance).None? then ClosedIdle else CloseDrains)
      ensures Guarded() == (match outcome
                            case CloseWaits => old(Guarded())
                            case AlreadyClosed => old(Guarded())
                            case ClosedIdle => old(Guarded()).(closed := true)
                            case CloseDrains => old(Guarded()).(closed := true, draining := true))
    {
      if draining { return CloseWaits; }
      if closed { return AlreadyClosed; }
      closed := true;
      if instance.None? {
        Took(CloseBegins(caller), world.(f := Guarded()));
        return ClosedIdle;
      }
      draining := true;
      Took(CloseBegins(caller), world.(f := Guarded(), drainers := world.drainers[caller := Waiting(CloseDrain)]));
      return CloseDrains;
    }

    method BeginRestore(ghost caller: nat) returns (refusal: Option<Refusal>)
      requires Valid() && caller !in world.drainers
      modifies this
      ensures Valid()
      ensures if refusal.None? then Next(old(world), RestoreBegins(caller), world) else world == old(world)
      ensures refusal == UnlockedRefusal(old(Guarded()))
      ensures refusal.None? <==> !old(closed) && !old(draining) && !old(migrating) && old(configured) && old(instance).Some?
      ensures Guarded() == if refusal.None? then old(Guarded()).(draining := true) else old(Guarded())
    {
      if closed { return Some(ErrClosed); }
      if draining { return Some(ErrBusy); }
      if migrating { return Some(ErrMigrationPending); }
      if !configured { return Some(ErrNotConfigured); }
      if instance.None? { return Some(ErrLocked); }
      draining := true;
      Took(RestoreBegins(caller), world.(f := Guarded(), drainers := world.drainers[caller := Waiting(RestoreDrain)]));
      return None;
    }

    /** The end of lock's or close's wait: nothing happens while a borrow is out. */
    method TryDetach(ghost caller: nat) returns (done: bool, toClose: Option<nat>)
      requires Valid() && caller in world.drainers && world.drainers[caller].Waiting? && world.drainers[caller].op != RestoreDrain
      modifies this
      ensures Valid()
      ensures if done then Next(old(world), DetachStep(caller), world) else world == old(world)
      ensures done == (old(active) == 0)
      ensures done ==> Guarded() == old(Guarded()).(instance := None, generation := old(generation) + 1)
      ensures !done ==> Guarded() == old(Guarded())
      ensures done ==> toClose == old(instance)
    {
      if active > 0 { return false, None; }
      toClose := instance;
      instance := None;
      generation := generation + 1;
      Took(DetachStep(caller), world.(f := Guarded(), drainers := world.drainers[caller := Closing(toClose)]));
      return true, toClose;
    }

    method TryRestore(ghost caller: nat) returns (done: bool, toRestore: Option<nat>)
      requires Valid() && caller in world.drainers && world.drainers[caller] == Waiting(RestoreDrain)
      modifies this
      ensures Valid()
      ensures if done then Next(old(world), RestoreRuns(caller), world) else world == old(world)
      ensures done == (old(active) == 0)
      ensures Guarded() == if done then old(Guarded()).(generation := old(generation) + 1) else old(Guarded())
      ensures done ==> toRestore == old(instance)
    {
      if active > 0 { return false, None; }
      generation := generation + 1;
      Took(RestoreRuns(caller), world.(f := Guarded(), drainers := world.drainers[caller := Restoring(instance)]));
      return true, instance;
    }

    method DetachFailedRestore(restored: Option<nat>, ghost caller: nat)
      requires Valid() && caller in world.drainers && world.drainers[caller] == Restoring(restored)
      modifies this
      ensures Valid()
      ensures Next(old(world), RestoreFails(caller), world)
      ensures old(instance) == restored && Guarded() == old(Guarded()).(instance := None, generation := old(generation) + 1)
    {
      if instance == restored {
        instance := None;
        generation := generation + 1;
      }
      Took(RestoreFails(caller), world.(f := Guarded(), drainers := world.drainers[caller := Closing(restored)]));
    }

    method EndDrain(ghost caller: nat)
      requires Valid() && caller in world.drainers && (world.drainers[caller].Finishing? || world.drainers[caller].Restoring?)
      modifies this
      ensures Valid()
      ensures Next(old(world), if old(world).drainers[caller].Finishing? then FinishDrain(caller) else RestoreSucceeds(caller), world)
      ensures Guarded() == old(Guarded()).(draining := false)
    {
      draining := false;
      Took(if world.drainers[caller].Finishing? then FinishDrain(caller) else RestoreSucceeds(caller),
           world.(f := Guarded(), drainers := world.drainers - {caller}));
    }
  }

  function Initial(configured: bool, migrating: bool): Fields {
    Fields(None, 0, false, false, if configured then 1 else 0, configured, migrating)
  }

  // ----- the system -----

  /** A borrow remembers the instance it reads and the generation it was issued at.
      A service lease is marked released before its count is returned. */
  datatype Phase = Held | Releasing | Done
  datatype Lease = Lease(instance: Option<nat>, generation: nat, phase: Phase)

  datatype Drain = LockDrain | CloseDrain | RestoreDrain
  datatype DrainPc =
    | Waiting(op: Drain)
    | Restoring(instance: Option<nat>)    // outside the mutex
    | Closing(instance: Option<nat>)      // outside the mutex, about to close the instance
    | Finishing

  datatype System = System(
    f: Fields,
    leases: map<nat, Lease>,
    drainers: map<nat, DrainPc>,
    published: set<nat>,
    closes: seq<Option<nat>>       // every close of an instance that was once published
  )

  datatype Step =
    | OpenStep(instance: nat)                 // setup, unlock, recover or migration publishes a vault
    | BorrowStep(lease: nat)
    | MarkReleased(lease: nat)
    | ReleaseStep(lease: nat)
    | LockBegins(caller: nat)
    | CloseBegins(caller: nat)
    | RestoreBegins(caller: nat)
    | DetachStep(caller: nat)
    | RestoreRuns(caller: nat)
    | RestoreFails(caller: nat)
    | RestoreSucceeds(caller: nat)
    | CloseInstance(caller: nat)
    | FinishDrain(caller: nat)
    | ConfigurationStep(configured: bool, migrating: bool)

  ghost predicate Next(s: System, e: Step, s': System) {
    match e
    case OpenStep(i) =>
      && i !in s.published && MutableRefusal(s.f).None? && s.f.instance.None?
      && s' == s.(f := Published(s.f, i), published := s.published + {i})
    case BorrowStep(l) =>
      && l !in s.leases && UnlockedRefusal(s.f).None?
      && s' == s.(f := Borrowed(s.f), leases := s.leases[l := Lease(s.f.instance, s.f.generation, Held)])
    case MarkReleased(l) =>
      && l in s.leases && s.leases[l].phase == Held
      && s' == s.(leases := s.leases[l := s.leases[l].(phase := Releasing)])
    case ReleaseStep(l) =>
      && l in s.leases && s.leases[l].phase != Done
      && s' == s.(f := Returned(s.f), leases := s.leases[l := s.leases[l].(phase := Done)])
    case LockBegins(c) =>
      && c !in s.drainers && !s.f.draining && !s.f.migrating
      && s' == if s.f.instance.None? then s
               else s.(f := s.f.(draining := true), drainers := s.drainers[c := Waiting(LockDrain)])
    case CloseBegins(c) =>
      && c !in s.drainers && !s.f.draining
      && s' == if s.f.closed then s
               else if s.f.instance.None? then s.(f := s.f.(closed := true))
               else s.(f := s.f.(closed := true, draining := true), drainers := s.drainers[c := Waiting(CloseDrain)])
    case RestoreBegins(c) =>
      && c !in s.drainers && UnlockedRefusal(s.f).None?
      && s' == s.(f := s.f.(draining := true), drainers := s.drainers[c := Waiting(RestoreDrain)])
    case DetachStep(c) =>
      && c in s.drainers && s.drainers[c].Waiting? && s.drainers[c].op != RestoreDrain && s.f.active == 0
      && s' == s.(f := Detached(s.f), drainers := s.drainers[c := Closing(s.f.instance)])
    case RestoreRuns(c) =>
      && c in s.drainers && s.drainers[c] == Waiting(RestoreDrain) && s.f.active == 0
      && s' == s.(f := s.f.(generation := s.f.generation + 1), drainers := s.drainers[c := Restoring(s.f.instance)])
    case RestoreFails(c) =>
      && c in s.drainers && s.drainers[c].Restoring?
      && s' == s.(f := if s.f.instance == s.drainers[c].instance then Detached(s.f) else s.f,
                  drainers := s.drainers[c := Closing(s.drainers[c].instance)])
    case RestoreSucceeds(c) =>
      && c in s.drainers && s.drainers[c].Restoring?
      && s' == s.(f := s.f.(draining := false), drainers := s.drainers - {c})
    case CloseInstance(c) =>
      && c in s.drainers && s.drainers[c].Closing?
      && s' == s.(closes := s.closes + [s.drainers[c].instance], drainers := s.drainers[c := Finishing])
    case FinishDrain(c) =>
      && c in s.drainers && s.drainers[c].Finishing?
      && s' == s.(f := s.f.(draining := false), drainers := s.drainers - {c})
    case ConfigurationStep(configured, migrating) =>
      s' == s.(f := s.f.(configured := configured, migrating := migrating))
  }

  /** The borrows whose count has not been returned yet. */
  ghost function Outstanding(leases: map<nat, Lease>): set<nat> {
    set l | l in leases && leases[l].phase != Done
  }

  ghost predicate DrainerSafe(s: System, pc: DrainPc) {
    match pc
    case Waiting(op) => s.f.instance.Some? && (op == CloseDrain || !s.f.closed)
    case Restoring(i) => s.f.active == 0 && !s.f.closed && i.Some? && s.f.instance == i
    case Closing(i) => s.f.active == 0 && s.f.instance.None? && i.Some? && i.value in s.published && i !in s.closes
    case Finishing => s.f.active == 0 && s.f.instance.None?
  }

  /** The count is exactly the number of borrows still out, and each of those
      reads the published instance, of the current generation. */
  ghost predicate BorrowsSafe(s: System) {
    && s.f.active == |Outstanding(s.leases)|
    && (forall l :: l in Outstanding(s.leases) ==>
          s.f.instance.Some? && s.leases[l].instance == s.f.instance && s.leases[l].generation == s.f.generation)
  }

  /** A drain has exactly one owner, in a state that fits the shared fields. */
  ghost predicate DrainsSafe(s: System) {
    && (forall a, b :: a in s.drainers && b in s.drainers ==> a == b)
    && (s.f.draining <==> s.drainers.Keys != {})
    && (forall c :: c in s.drainers ==> DrainerSafe(s, s.drainers[c]))
    && (s.f.closed && s.f.instance.Some? ==> s.f.draining)
  }

  /** No published instance is closed while published, or closed twice. */
  ghost predicate ClosesSafe(s: System) {
    && (forall i, j :: 0 <= i < j < |s.closes| ==> s.closes[i] != s.closes[j])
    && (forall i :: 0 <= i < |s.closes| ==> s.closes[i].Some? && s.closes[i].value in s.published)
    && (s.f.instance.Some? ==> s.f.instance !in s.closes && s.f.instance.value in s.published)
  }

  ghost predicate Safe(s: System) {
    BorrowsSafe(s) && DrainsSafe(s) && ClosesSafe(s)
  }

  lemma {:induction false} OutstandingAfterBorrow(leases: map<nat, Lease>, l: nat, lease: Lease)
    requires l !in leases && lease.phase != Done
    ensures Outstanding(leases[l := lease]) == Outstanding(leases) + {l} && l !in Outstanding(leases)
  {
  }

  lemma {:induction false} OutstandingAfterReturn(leases: map<nat, Lease>, l: nat, lease: Lease)
    requires l in leases && leases[l].phase != Done && lease.phase == Done
    ensures Outstanding(leases[l := lease]) == Outstanding(leases) - {l} && l in Outstanding(leases)
    ensures |Outstanding(leases[l := lease])| == |Outstanding(leases)| - 1
  {
    assert Outstanding(leases[l := lease]) == Outstanding(leases) - {l};
  }

  lemma {:induction false} BorrowKeepsBorrows(s: System, l: nat, s': System)
    requires Safe(s) && Next(s, BorrowStep(l), s')
    ensures BorrowsSafe(s')
  {
    OutstandingAfterBorrow(s.leases, l, s'.leases[l]);
  }

  lemma {:induction false} ReleaseKeepsBorrows(s: System, l: nat, s': System)
    requires Safe(s) && Next(s, ReleaseStep(l), s')
    ensures BorrowsSafe(s')
  {
    OutstandingAfterReturn(s.leases, l, s'.leases[l]);
  }

  /** The instance and the generation change only when no borrow is out. */
  lemma {:induction false} ChangesOnlyWhenIdle(s: System, e: Step, s': System)
    requires Safe(s) && Next(s, e, s')
    ensures s'.f.instance != s.f.instance || s'.f.generation != s.f.generation ==> Outstanding(s.leases) == {}
  {
    if e.RestoreFails? {
      assert DrainerSafe(s, s.drainers[e.caller]);
    }
    if s.f.active == 0 {
      assert Outstanding(s.leases) == {};
    }
    if l: nat :| l in Outstanding(s.leases) {
      assert s.f.instance.Some?;
    }
  }

  lemma {:induction false} NextKeepsBorrows(s: System, e: Step, s': System)
    requires Safe(s) && Next(s, e, s')
    ensures BorrowsSafe(s')
  {
    ChangesOnlyWhenIdle(s, e, s');
    if e.BorrowStep? {
      BorrowKeepsBorrows(s, e.lease, s');
    } else if e.ReleaseStep? {
      ReleaseKeepsBorrows(s, e.lease, s');
    } else {
      assert Outstanding(s'.leases) == Outstanding(s.leases);
      assert s'.f.active == s.f.active;
    }
  }

  /** While somebody drains, only the owner of the drain changes its state. */
  lemma {:induction false} NextKeepsOwner(s: System, e: Step, s': System, c: nat)
    requires Safe(s) && Next(s, e, s') && c in s.drainers
    ensures DrainsSafe(s')
  {
    assert c in s.drainers.Keys && DrainerSafe(s, s.drainers[c]);
    if e.ReleaseStep? {
      assert e.lease in Outstanding(s.leases);
    } else if e.RestoreSucceeds? || e.FinishDrain? {
      assert s'.drainers.Keys == {};
    } else {
      assert c in s'.drainers.Keys;
    }
  }

  lemma {:induction false} NextKeepsIdle(s: System, e: Step, s': System)
    requires Safe(s) && Next(s, e, s') && s.drainers.Keys == {}
    ensures DrainsSafe(s')
  {
    if e.LockBegins? || e.CloseBegins? || e.RestoreBegins? {
      assert e.caller in s'.drainers.Keys || s'.drainers == s.drainers;
    }
  }

  lemma {:induction false} NextKeepsDrains(s: System, e: Step, s': System)
    requires Safe(s) && Next(s, e, s')
    ensures DrainsSafe(s')
  {
    if s.drainers.Keys == {} {
      NextKeepsIdle(s, e, s');
    } else {
      var c :| c in s.drainers.Keys;
      NextKeepsOwner(s, e, s', c);
    }
  }

  lemma {:induction false} NextKeepsCloses(s: System, e: Step, s': System)
    requires Safe(s) && Next(s, e, s')
    ensures ClosesSafe(s')
  {
    match e
    case CloseInstance(c) => assert DrainerSafe(s, s.drainers[c]);
    case RestoreFails(c) => assert DrainerSafe(s, s.drainers[c]);
    case _ =>
  }

  lemma {:induction false} NextKeepsSafe(s: System, e: Step, s': System)
    requires Safe(s) && Next(s, e, s')
    ensures Safe(s')
  {
    NextKeepsBorrows(s, e, s');
    NextKeepsDrains(s, e, s');
    NextKeepsCloses(s, e, s');
  }

  // ----- runs -----

  ghost predicate IsRun(states: seq<System>, steps: seq<Step>) {
    && |states| == |steps| + 1
    && (exists configured, migrating :: states[0] == Start(configured, migrating))
    && forall k {:trigger steps[k]} :: 0 <= k < |steps| ==> Next(states[k], steps[k], states[k + 1])
  }

  ghost function Start(configured: bool, migrating: bool): System {
    System(Initial(configured, migrating), map[], map[], {}, [])
  }

  lemma {:induction false} StartIsSafe(configured: bool, migrating: bool)
    ensures Safe(Start(configured, migrating))
  {
    assert Outstanding(Start(configured, migrating).leases) == {};
  }

  lemma {:induction false} EveryStateSafe(states: seq<System>, steps: seq<Step>, k: nat)
    requires IsRun(states, steps) && k < |states|
    ensures Safe(states[k])
  {
    if k > 0 {
      EveryStateSafe(states, steps, k - 1);
      NextKeepsSafe(states[k - 1], steps[k - 1], states[k]);
    } else {
      var configured, migrating :| states[0] == Start(configured, migrating);
      StartIsSafe(configured, migrating);
    }
  }

  /** A lease can be used: not released, and the coordinator still serves its generation. */
  ghost predicate Live(s: System, l: nat)
    requires l in s.leases
  {
    s.leases[l].phase == Held && GenerationIsLive(s.f, s.leases[l].generation)
  }

  /** In every reachable state, `active` is the number of unreturned borrows, each
      of which still reads the published, unclosed instance; a lease that was not
      released is usable exactly while the coordinator is neither draining nor closed. */
  lemma {:induction false} BorrowsAreCountedAndStable(states: seq<System>, steps: seq<Step>, k: nat)
    requires IsRun(states, steps) && k < |states|
    ensures states[k].f.active == |Outstanding(states[k].leases)|
    ensures forall l :: l in states[k].leases && states[k].leases[l].phase != Done ==>
              && states[k].f.instance.Some?
              && states[k].leases[l].instance == states[k].f.instance
              && states[k].f.instance !in states[k].closes
    ensures forall l :: l in states[k].leases && states[k].leases[l].phase == Held ==>
              (Live(states[k], l) <==> !states[k].f.draining && !states[k].f.closed)
  {
    EveryStateSafe(states, steps, k);
    forall l | l in states[k].leases && states[k].leases[l].phase != Done
      ensures l in Outstanding(states[k].leases)
    {
    }
  }

  /** Closing an instance happens with no borrow out, and never twice for one instance. */
  lemma {:induction false} ClosedOnceAndOnlyWhenIdle(states: seq<System>, steps: seq<Step>, k: nat)
    requires IsRun(states, steps) && k < |steps| && steps[k].CloseInstance?
    ensures forall l :: l in states[k].leases ==> states[k].leases[l].phase == Done
    ensures states[k].f.instance.None?
    ensures exists i: nat :: Some(i) !in states[k].closes && states[k + 1].closes == states[k].closes + [Some(i)]
  {
    EveryStateSafe(states, steps, k);
    var s := states[k];
    assert Next(s, steps[k], states[k + 1]);
    var pc := s.drainers[steps[k].caller];
    assert DrainerSafe(s, pc);
    assert states[k + 1].closes == s.closes + [Some(pc.instance.value)];
    assert Outstanding(s.leases) == {};
    forall l | l in s.leases ensures s.leases[l].phase == Done {
      assert l !in Outstanding(s.leases);
    }
  }

  /** The steps by which lock, close and restore take effect, including the calls
      that find nothing to drain. */
  ghost predicate BeginsDrain(e: Step) {
    e.LockBegins? || e.CloseBegins? || e.RestoreBegins?
  }

  ghost predicate ReturnedOrDraining(s: System, l: nat) {
    l in s.leases && (s.leases[l].phase == Done || s.f.draining)
  }

  /** A drain ends only when every borrow has been returned. */
  lemma {:induction false} DrainOutlastsBorrow(s: System, e: Step, s': System, l: nat)
    requires Safe(s) && Next(s, e, s') && l in s.leases
    requires ReturnedOrDraining(s, l) || BeginsDrain(e)
    ensures ReturnedOrDraining(s', l)
  {
    assert l in Outstanding(s.leases) <==> s.leases[l].phase != Done;
    if e.RestoreSucceeds? || e.FinishDrain? {
      assert DrainerSafe(s, s.drainers[e.caller]);
      assert Outstanding(s.leases) == {};
    }
  }

  lemma {:induction false} StepStaysReturned(states: seq<System>, steps: seq<Step>, k: nat, l: nat)
    requires IsRun(states, steps) && k < |steps| && (ReturnedOrDraining(states[k], l) || (l in states[k].leases && BeginsDrain(steps[k])))
    ensures ReturnedOrDraining(states[k + 1], l)
  {
    EveryStateSafe(states, steps, k);
    DrainOutlastsBorrow(states[k], steps[k], states[k + 1], l);
  }

  lemma {:induction false} StaysReturned(states: seq<System>, steps: seq<Step>, i: nat, j: nat, l: nat)
    requires IsRun(states, steps) && i <= j < |states| == |steps| + 1 && ReturnedOrDraining(states[i], l)
    ensures ReturnedOrDraining(states[j], l)
    decreases j
  {
    if i < j {
      StaysReturned(states, steps, i, j - 1, l);
      StepStaysReturned(states, steps, j - 1, l);
    }
  }

  /** A lease issued before a lock, close or restore is never live after it,
      whatever happens later, even when the vault is unlocked again. */
  lemma {:induction false} LeaseNeverOutlivesDrain(states: seq<System>, steps: seq<Step>, b: nat, j: nat, l: nat)
    requires IsRun(states, steps) && b < j < |states|
    requires BeginsDrain(steps[b]) && l in states[b].leases
    ensures l in states[j].leases && !Live(states[j], l)
  {
    StepStaysReturned(states, steps, b, l);
    StaysReturned(states, steps, b + 1, j, l);
    EveryStateSafe(states, steps, j);
  }

  /** No borrow starts between the beginning of a drain and its end. */
  lemma {:induction false} NoBorrowWhileDraining(states: seq<System>, steps: seq<Step>, b: nat, j: nat)
    requires IsRun(states, steps) && b <= j < |states|
    requires forall k :: b <= k <= j ==> states[k].f.draining
    ensures states[j].leases.Keys == states[b].leases.Keys
    ensures Outstanding(states[j].leases) <= Outstanding(states[b].leases)
    decreases j
  {
    if b < j {
      NoBorrowWhileDraining(states, steps, b, j - 1);
      DrainingStepBorrowsNothing(states[j - 1], steps[j - 1], states[j]);
    }
  }

  lemma {:induction false} DrainingStepBorrowsNothing(s: System, e: Step, s': System)
    requires Next(s, e, s') && s.f.draining
    ensures s'.leases.Keys == s.leases.Keys && Outstanding(s'.leases) <= Outstanding(s.leases)
  {
  }

  /** A closed coordinator stays closed and its instance is never replaced. */
  lemma {:induction false} CloseIsPermanent(states: seq<System>, steps: seq<Step>, b: nat, j: nat)
    requires IsRun(states, steps) && b < j < |states| && steps[b].CloseBegins?
    ensures states[j].f.closed
    ensures states[j].published == states[b].published
    decreases j
  {
    assert Next(states[j - 1], steps[j - 1], states[j]);
    if b < j - 1 {
      CloseIsPermanent(states, steps, b, j - 1);
    }
  }
}
