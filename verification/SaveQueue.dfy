/** The durable transaction-save queue and the workers that drain it.

    A queue row is received by one SQL transaction and resolved by another; a
    worker holds only a copy of the row it selected, and a crash loses that copy.
    Nothing below assumes that there is a single worker. */
module SaveQueue {
  import opened Options
  import S = Sums

  type Payload = seq<bv8>

  const MAX_SAVE_PAYLOAD_BYTES: nat := 32 * 1024 * 1024
  const MAX_PENDING_SAVE_BYTES: nat := 128 * 1024 * 1024
  const MAX_PENDING_SAVES: nat := 32

  datatype RowState = Pending | Completed | Failed

  /** One queue row, in receipt (rowid) order; the payload column is NULL once it is `None`. */
  datatype Row = Row(id: string, hash: int, payload: Option<Payload>, state: RowState)

  /** The ledger's history: what a save request changed, and changes by other writers. */
  datatype Change = Save(id: string, payload: Payload) | Other(writer: nat)

  datatype Receipt = Received | Rejected | Conflict | QueueFull

  /** What the ledger does with one prepared payload: it takes it, it refuses it
      (validation or constraint error), or storage fails and nothing is known. */
  datatype Verdict = Applies | Refuses | StorageFails

  // ----- queries over the rows -----

  function Find(rows: seq<Row>, id: string): (r: int)
    ensures -1 <= r < |rows|
    ensures r >= 0 ==> rows[r].id == id
    ensures r < 0 ==> forall i :: 0 <= i < |rows| ==> rows[i].id != id
  {
    if rows == [] then -1
    else if rows[|rows| - 1].id == id then |rows| - 1
    else Find(rows[..|rows| - 1], id)
  }

  /** SELECT ... WHERE state = 'pending' ORDER BY rowid LIMIT 1 */
  function FirstPending(rows: seq<Row>): (r: int)
    ensures -1 <= r < |rows|
    ensures r >= 0 ==> rows[r].state == Pending && forall i :: 0 <= i < r ==> rows[i].state != Pending
    ensures r < 0 ==> forall i :: 0 <= i < |rows| ==> rows[i].state != Pending
  {
    if rows == [] then -1
    else
      var earlier := FirstPending(rows[..|rows| - 1]);
      if earlier >= 0 then earlier
      else if rows[|rows| - 1].state == Pending then |rows| - 1
      else -1
  }

  function Weight(row: Row): nat {
    if row.payload.Some? then |row.payload.value| else 0
  }

  function RetainedCount(rows: seq<Row>): nat {
    if rows == [] then 0
    else RetainedCount(rows[..|rows| - 1]) + if rows[|rows| - 1].payload.Some? then 1 else 0
  }

  function RetainedBytes(rows: seq<Row>): nat {
    if rows == [] then 0
    else RetainedBytes(rows[..|rows| - 1]) + Weight(rows[|rows| - 1])
  }

  /** The rows that still have their payload, by position, and the size of each. */
  ghost function RetainedAt(rows: seq<Row>): set<int> {
    set i | 0 <= i < |rows| && rows[i].payload.Some?
  }

  ghost function SizeAt(rows: seq<Row>): int -> int {
    i => if 0 <= i < |rows| && rows[i].payload.Some? then |rows[i].payload.value| else 0
  }

  lemma {:induction false} RetainedSnoc(rows: seq<Row>)
    requires rows != []
    ensures var n := |rows| - 1;
      && n !in RetainedAt(rows[..n])
      && RetainedAt(rows) == RetainedAt(rows[..n]) + (if rows[n].payload.Some? then {n} else {})
      && forall i :: i in RetainedAt(rows[..n]) ==> SizeAt(rows)(i) == SizeAt(rows[..n])(i)
  {
    var n := |rows| - 1;
    assert forall i :: 0 <= i < n ==> rows[..n][i] == rows[i];
  }

  lemma {:induction false} RetainedExactly(rows: seq<Row>)
    ensures RetainedCount(rows) == |RetainedAt(rows)| && RetainedBytes(rows) == S.Sum(RetainedAt(rows), SizeAt(rows))
  {
    if rows == [] {
      assert RetainedAt(rows) == {};
    } else {
      var n := |rows| - 1;
      var fewer := RetainedAt(rows[..n]);
      RetainedExactly(rows[..n]);
      RetainedSnoc(rows);
      S.SumCongruent(fewer, SizeAt(rows[..n]), SizeAt(rows));
      if rows[n].payload.Some? {
        S.SumOneMore(fewer, SizeAt(rows), n);
      } else {
        assert fewer + {} == fewer;
      }
    }
  }

  /** There is room for one more payload: at most 32 of them and 128 MiB. */
  ghost predicate HasRoom(rows: seq<Row>, payload: Payload) {
    |RetainedAt(rows)| < 32 && S.Sum(RetainedAt(rows), SizeAt(rows)) + |payload| <= 134_217_728
  }

  ghost predicate Has(rows: seq<Row>, n: int, id: string) {
    0 <= n < |rows| && rows[n].id == id
  }

  // ----- the SQL transactions, as functions of the rows -----

  function ReceiptOf(rows: seq<Row>, id: string, payload: Payload, hash: int): Receipt {
    var at := Find(rows, id);
    if at >= 0 then (if rows[at].hash == hash then Received else Conflict)
    else if RetainedCount(rows) >= MAX_PENDING_SAVES
         || RetainedBytes(rows) + |payload| > MAX_PENDING_SAVE_BYTES then QueueFull
    else Received
  }

  function Accepted(rows: seq<Row>, id: string, payload: Payload, hash: int): seq<Row> {
    if Find(rows, id) < 0 && ReceiptOf(rows, id, payload, hash) == Received
    then rows + [Row(id, hash, Some(payload), Pending)]
    else rows
  }

  function Resolved(row: Row, state: RowState): Row
    requires state != Pending
  {
    if row.state != Pending then row
    else if state == Completed then row.(state := Completed, payload := None)
    else row.(state := Failed)
  }

  function Resolve(rows: seq<Row>, id: string, state: RowState): seq<Row>
    requires state != Pending
  {
    var at := Find(rows, id);
    if at < 0 then rows else rows[at := Resolved(rows[at], state)]
  }

  predicate IsPending(rows: seq<Row>, id: string) {
    var at := Find(rows, id);
    at >= 0 && rows[at].state == Pending
  }

  predicate CanDismiss(rows: seq<Row>, id: string) {
    var at := Find(rows, id);
    at >= 0 && rows[at].state == Failed
  }

  function Dismissed(rows: seq<Row>, id: string): seq<Row> {
    if CanDismiss(rows, id) then rows[Find(rows, id) := rows[Find(rows, id)].(payload := None)] else rows
  }

  // ----- the store -----

  class Store {
    const hash: Payload -> int
    var rows: seq<Row>
    var ledger: seq<Change>
    ghost var first: map<string, Payload>     // with which payload each request was first received

    /** The tables while nobody is between selecting a request and resolving it. */
    ghost function Tables(): System
      reads this
    {
      System(rows, ledger, map[], first)
    }

    ghost predicate Valid()
      reads this
    {
      Safe(hash, Tables())
    }

    constructor (hash: Payload -> int)
      ensures Valid() && this.hash == hash && Tables() == EMPTY
    {
      this.hash := hash;
      rows, ledger, first := [], [], map[];
    }

    /** Accounts for a step of the protocol that the tables have just taken. */
    ghost method Took(before: System, e: Step)
      requires Safe(hash, before) && Next(hash, before, e, Tables())
      ensures Valid()
    {
      NextKeepsSafe(hash, before, e, Tables());
    }

    /** Accounts for one request resolved by a worker that had selected it. */
    ghost method TookJob(before: System, job: Job, verdict: Verdict)
      requires Safe(hash, before) && before.jobs == map[] && KnownJob(job, before.rows, before.first)
      requires Next(hash, before.(jobs := map[0 := job]), ResolveStep(0, verdict), Tables())
      ensures Valid()
    {
      var selected := before.(jobs := map[0 := job]);
      assert Safe(hash, selected);
      NextKeepsSafe(hash, selected, ResolveStep(0, verdict), Tables());
    }

    /** `wellFormed` is the verdict of the request validators that precede the transaction. */
    method Accept(id: string, payload: Payload, wellFormed: bool) returns (receipt: Receipt)
      requires Valid()
      modifies this`rows, this`first
      ensures Valid()
      ensures !wellFormed || |payload| > MAX_SAVE_PAYLOAD_BYTES ==> receipt == Rejected && Tables() == old(Tables())
      ensures wellFormed && |payload| <= MAX_SAVE_PAYLOAD_BYTES ==>
                && receipt == ReceiptOf(old(rows), id, payload, hash(payload))
                && Next(hash, old(Tables()), AcceptStep(id, payload), Tables())
      ensures wellFormed && |payload| <= 33_554_432 ==>
                (forall n :: Has(old(rows), n, id) ==>
                   Tables() == old(Tables()) && receipt == if old(rows)[n].hash == hash(payload) then Received else Conflict)
      ensures wellFormed && |payload| <= 33_554_432 && (forall n :: !Has(old(rows), n, id)) ==>
                && receipt == (if HasRoom(old(rows), payload) then Received else QueueFull)
                && rows == old(rows) + (if HasRoom(old(rows), payload) then [Row(id, hash(payload), Some(payload), Pending)] else [])
    {
      RetainedExactly(rows);
      if !wellFormed || |payload| > MAX_SAVE_PAYLOAD_BYTES {
        return Rejected;
      }
      var digest := hash(payload);
      var at := Find(rows, id);
      FoundExactly(rows, id);
      if at >= 0 {
        if rows[at].hash != digest {
          return Conflict;
        }
        return Received;
      }
      if RetainedCount(rows) >= MAX_PENDING_SAVES || RetainedBytes(rows) + |payload| > MAX_PENDING_SAVE_BYTES {
        return QueueFull;
      }
      ghost var before := Tables();
      rows := rows + [Row(id, digest, Some(payload), Pending)];
      first := first[id := payload];
      assert rows[|rows| - 1] == Row(id, digest, Some(payload), Pending);
      Took(before, AcceptStep(id, payload));
      return Received;
    }

    /** One selected request. The ledger mutation and the result marker are one
        transaction, which first re-reads the state of the row. */
    method Process(id: string, payload: Payload, verdict: Verdict) returns (ok: bool)
      requires Valid() && KnownJob(Job(id, payload), rows, first)
      modifies this`rows, this`ledger
      ensures Valid()
      ensures ok == (verdict != StorageFails)
      ensures verdict == StorageFails ==> rows == old(rows) && ledger == old(ledger)
      ensures verdict == Refuses ==> rows == Resolve(old(rows), id, Failed) && ledger == old(ledger)
      ensures verdict == Applies && IsPending(old(rows), id) ==>
                rows == Resolve(old(rows), id, Completed) && ledger == old(ledger) + [Save(id, payload)]
      ensures verdict == Applies && !IsPending(old(rows), id) ==> rows == old(rows) && ledger == old(ledger)
      ensures forall n :: Has(old(rows), n, id) && old(rows)[n].state == Pending && verdict != StorageFails ==>
                rows == old(rows)[n := if verdict == Applies then old(rows)[n].(state := Completed, payload := None)
                                       else old(rows)[n].(state := Failed)]
      ensures forall n :: Has(old(rows), n, id) && old(rows)[n].state != Pending ==> rows == old(rows) && ledger == old(ledger)
    {
      FoundExactly(rows, id);
      ghost var before := Tables();
      match verdict
      case StorageFails =>
        return false;
      case Refuses =>
        var at := Find(rows, id);
        if at >= 0 && rows[at].state == Pending {
          rows := rows[at := rows[at].(state := Failed)];
        } else if at >= 0 {
          assert rows == rows[at := rows[at]];
        }
        TookJob(before, Job(id, payload), verdict);
        return true;
      case Applies =>
        var at := Find(rows, id);
        if at < 0 || rows[at].state != Pending {
          return true;
        }
        ledger := ledger + [Save(id, payload)];
        rows := rows[at := rows[at].(state := Completed, payload := None)];
        TookJob(before, Job(id, payload), verdict);
        return true;
    }

    method Dismiss(id: string) returns (ok: bool)
      requires Valid()
      modifies this`rows
      ensures Valid() && Next(hash, old(Tables()), DismissStep(id), Tables())
      ensures ok <==> exists n :: Has(old(rows), n, id) && old(rows)[n].state == Failed
      ensures forall n :: Has(old(rows), n, id) && old(rows)[n].state == Failed ==>
                rows == old(rows)[n := old(rows)[n].(payload := None)]
      ensures !ok ==> rows == old(rows)
    {
      FoundExactly(rows, id);
      var at := Find(rows, id);
      if at < 0 || rows[at].state != Failed {
        return false;
      }
      ghost var before := Tables();
      rows := rows[at := rows[at].(payload := None)];
      Took(before, DismissStep(id));
      return true;
    }

    /** The worker's loop: oldest pending request first, until none is pending or storage fails. */
    method ProcessAll(verdict: (string, Payload) -> Verdict) returns (drained: bool)
      requires Valid()
      modifies this`rows, this`ledger
      ensures Valid()
      ensures drained <==> forall i :: 0 <= i < |rows| ==> rows[i].state != Pending
      ensures |rows| == |old(rows)| && forall i :: 0 <= i < |rows| ==> rows[i] == DrainedRow(old(rows), verdict, i)
      ensures ledger == old(ledger) + AppliedBefore(old(rows), verdict, |old(rows)|)
    {
      DrainedExactly(rows, verdict);
      drained := Drain(verdict);
    }

    method Drain(verdict: (string, Payload) -> Verdict) returns (drained: bool)
      requires Valid()
      modifies this`rows, this`ledger
      ensures Valid()
      ensures rows == Drained(old(rows), verdict).0 && ledger == old(ledger) + Drained(old(rows), verdict).1
      ensures drained <==> forall i :: 0 <= i < |rows| ==> rows[i].state != Pending
    {
      ghost var outcome := Drained(rows, verdict);
      while true
        invariant Valid() && first == old(first)
        invariant outcome.0 == Drained(rows, verdict).0
        invariant old(ledger) + outcome.1 == ledger + Drained(rows, verdict).1
        decreases PendingCount(rows)
      {
        DrainTurn(rows, verdict);
        var at := FirstPending(rows);
        if at < 0 {
          return true;
        }
        var row := rows[at];
        UniqueFind(rows, at);
        var v := verdict(row.id, row.payload.value);
        ghost var was := ledger;
        SelectedIsKnown(hash, Tables(), at);
        var ok := Process(row.id, row.payload.value, v);
        if !ok {
          return false;
        }
        if v == Applies {
          AppendTurn(was, Save(row.id, row.payload.value), Drained(rows, verdict).1);
        }
      }
    }
  }

  // ----- what every step keeps -----

  ghost predicate DistinctIds(rows: seq<Row>) {
    forall i, j :: 0 <= i < j < |rows| ==> rows[i].id != rows[j].id
  }

  /** Requests are resolved in receipt order: the pending ones are the newest. */
  ghost predicate PendingSuffix(rows: seq<Row>) {
    forall i, j :: 0 <= i < j < |rows| && rows[i].state == Pending ==> rows[j].state == Pending
  }

  ghost predicate QueueShape(rows: seq<Row>) {
    && DistinctIds(rows)
    && PendingSuffix(rows)
    && (forall i :: 0 <= i < |rows| ==> rows[i].state == Pending ==> rows[i].payload.Some?)
    && (forall i :: 0 <= i < |rows| ==> rows[i].state == Completed ==> rows[i].payload.None?)
  }

  ghost function PendingCount(rows: seq<Row>): nat {
    if rows == [] then 0
    else PendingCount(rows[..|rows| - 1]) + if rows[|rows| - 1].state == Pending then 1 else 0
  }

  /** Ids are distinct, so a request is found where it is. */
  lemma {:induction false} FoundExactly(rows: seq<Row>, id: string)
    requires DistinctIds(rows)
    ensures forall n :: Has(rows, n, id) ==> Find(rows, id) == n
    ensures Find(rows, id) >= 0 ==> Has(rows, Find(rows, id), id)
  {
    forall n | Has(rows, n, id) ensures Find(rows, id) == n {
      UniqueFind(rows, n);
    }
  }

  /** The whole effect of draining: every pending request, oldest first, gets its verdict. */
  ghost function Drained(rows: seq<Row>, verdict: (string, Payload) -> Verdict): (r: (seq<Row>, seq<Change>))
    requires QueueShape(rows)
    ensures QueueShape(r.0)
    decreases PendingCount(rows)
  {
    var at := FirstPending(rows);
    if at < 0 then (rows, [])
    else
      var row := rows[at];
      match verdict(row.id, row.payload.value)
      case StorageFails => (rows, [])
      case Refuses =>
        ResolveAt(rows, at, Failed);
        Drained(rows[at := Resolved(row, Failed)], verdict)
      case Applies =>
        ResolveAt(rows, at, Completed);
        var rest := Drained(rows[at := Resolved(row, Completed)], verdict);
        (rest.0, [Save(row.id, row.payload.value)] + rest.1)
  }

  /** One turn of the worker's loop, in terms of what remains to be drained. */
  lemma {:induction false} DrainTurn(rows: seq<Row>, verdict: (string, Payload) -> Verdict)
    requires QueueShape(rows)
    ensures var at := FirstPending(rows);
      at >= 0 ==>
        && var v := verdict(rows[at].id, rows[at].payload.value);
        && (v == StorageFails ==> Drained(rows, verdict) == (rows, []))
        && (v != StorageFails ==>
              && var next := rows[at := Resolved(rows[at], if v == Applies then Completed else Failed)];
              && QueueShape(next) && PendingCount(next) < PendingCount(rows)
              && Drained(rows, verdict).0 == Drained(next, verdict).0
              && Drained(rows, verdict).1
                 == (if v == Applies then [Save(rows[at].id, rows[at].payload.value)] else []) + Drained(next, verdict).1)
  {
    var at := FirstPending(rows);
    if at >= 0 {
      ResolveAt(rows, at, Failed);
      ResolveAt(rows, at, Completed);
    }
  }

  // ----- what a drain leaves, row by row -----

  ghost predicate Fails(rows: seq<Row>, verdict: (string, Payload) -> Verdict, j: int) {
    0 <= j < |rows| && rows[j].state == Pending && rows[j].payload.Some? && verdict(rows[j].id, rows[j].payload.value) == StorageFails
  }

  /** Storage failed on this request or on a pending one before it. */
  ghost predicate Blocked(rows: seq<Row>, verdict: (string, Payload) -> Verdict, i: int) {
    exists j :: j <= i && Fails(rows, verdict, j)
  }

  /** Each pending request gets its verdict, up to the first on which storage fails. */
  ghost function DrainedRow(rows: seq<Row>, verdict: (string, Payload) -> Verdict, i: int): Row
    requires 0 <= i < |rows|
  {
    var row := rows[i];
    if row.state != Pending || row.payload.None? || Blocked(rows, verdict, i) then row
    else if verdict(row.id, row.payload.value) == Applies then row.(state := Completed, payload := None)
    else row.(state := Failed)
  }

  /** The changes of the requests that were applied, in receipt order. */
  ghost function AppliedBefore(rows: seq<Row>, verdict: (string, Payload) -> Verdict, n: nat): seq<Change>
    requires n <= |rows|
  {
    if n == 0 then []
    else
      var row := rows[n - 1];
      AppliedBefore(rows, verdict, n - 1)
      + if row.state == Pending && row.payload.Some? && !Blocked(rows, verdict, n - 1) && verdict(row.id, row.payload.value) == Applies
        then [Save(row.id, row.payload.value)] else []
  }

  lemma {:induction false} SameBlocked(rows: seq<Row>, next: seq<Row>, verdict: (string, Payload) -> Verdict, at: nat, i: int)
    requires at < |rows| && !Fails(rows, verdict, at) && |next| == |rows| && next[at].state != Pending
    requires forall k :: 0 <= k < |rows| && k != at ==> next[k] == rows[k]
    ensures Blocked(rows, verdict, i) <==> Blocked(next, verdict, i)
  {
    if Blocked(rows, verdict, i) {
      var j :| j <= i && Fails(rows, verdict, j);
      assert Fails(next, verdict, j);
    }
    if Blocked(next, verdict, i) {
      var j :| j <= i && Fails(next, verdict, j);
      assert Fails(rows, verdict, j);
    }
  }

  lemma {:induction false} NotBlockedYet(rows: seq<Row>, verdict: (string, Payload) -> Verdict, at: nat)
    requires FirstPending(rows) == at && !Fails(rows, verdict, at)
    ensures !Blocked(rows, verdict, at)
  {
    forall j | j <= at ensures !Fails(rows, verdict, j) {
    }
  }

  lemma {:induction false} OneMoreApplied(rows: seq<Row>, next: seq<Row>, verdict: (string, Payload) -> Verdict, at: nat, n: nat)
    requires FirstPending(rows) == at && !Fails(rows, verdict, at) && rows[at].payload.Some? && n <= |rows|
    requires |next| == |rows| && next[at].state != Pending && forall k :: 0 <= k < |rows| && k != at ==> next[k] == rows[k]
    ensures var first := if n > at && verdict(rows[at].id, rows[at].payload.value) == Applies
                         then [Save(rows[at].id, rows[at].payload.value)] else [];
            AppliedBefore(rows, verdict, n) == first + AppliedBefore(next, verdict, n)
  {
    if n > 0 {
      OneMoreApplied(rows, next, verdict, at, n - 1);
      SameBlocked(rows, next, verdict, at, n - 1);
      if n - 1 == at {
        NotBlockedYet(rows, verdict, at);
        NothingApplied(next, verdict, at);
      }
    }
  }

  lemma {:induction false} NothingApplied(rows: seq<Row>, verdict: (string, Payload) -> Verdict, n: nat)
    requires n <= |rows| && forall k :: 0 <= k < n ==> rows[k].state != Pending
    ensures AppliedBefore(rows, verdict, n) == []
  {
    if n > 0 { NothingApplied(rows, verdict, n - 1); }
  }

  lemma {:induction false} AllBlocked(rows: seq<Row>, verdict: (string, Payload) -> Verdict, at: nat, n: nat)
    requires FirstPending(rows) == at && Fails(rows, verdict, at) && n <= |rows|
    ensures AppliedBefore(rows, verdict, n) == []
    ensures forall i :: 0 <= i < n ==> DrainedRow(rows, verdict, i) == rows[i]
  {
    forall i | 0 <= i < n ensures DrainedRow(rows, verdict, i) == rows[i] {
      if i >= at { assert Blocked(rows, verdict, i); }
    }
    if n > 0 {
      AllBlocked(rows, verdict, at, n - 1);
      if n - 1 >= at { assert Blocked(rows, verdict, n - 1); }
    }
  }

  /** A drain gives every pending request its verdict in receipt order, up to the first on
      which storage fails, and adds the changes of those that were applied. */
  lemma {:induction false} DrainedExactly(rows: seq<Row>, verdict: (string, Payload) -> Verdict)
    requires QueueShape(rows)
    ensures var r := Drained(rows, verdict);
      && |r.0| == |rows| && (forall i :: 0 <= i < |rows| ==> r.0[i] == DrainedRow(rows, verdict, i))
      && r.1 == AppliedBefore(rows, verdict, |rows|)
    decreases PendingCount(rows)
  {
    DrainTurn(rows, verdict);
    var at := FirstPending(rows);
    if at < 0 {
      NothingApplied(rows, verdict, |rows|);
    } else if Fails(rows, verdict, at) {
      AllBlocked(rows, verdict, at, |rows|);
    } else {
      var v := verdict(rows[at].id, rows[at].payload.value);
      var next := rows[at := Resolved(rows[at], if v == Applies then Completed else Failed)];
      DrainedExactly(next, verdict);
      OneMoreApplied(rows, next, verdict, at, |rows|);
      forall i | 0 <= i < |rows| ensures DrainedRow(next, verdict, i) == DrainedRow(rows, verdict, i) {
        SameBlocked(rows, next, verdict, at, i);
        if i == at { NotBlockedYet(rows, verdict, at); }
      }
    }
  }

  lemma {:induction false} AppendTurn(ledger: seq<Change>, change: Change, rest: seq<Change>)
    ensures ledger + ([change] + rest) == (ledger + [change]) + rest
  {
  }

  lemma {:induction false} UniqueFind(rows: seq<Row>, at: nat)
    requires DistinctIds(rows) && at < |rows|
    ensures Find(rows, rows[at].id) == at
  {
    var f := Find(rows, rows[at].id);
    assert f >= 0;
  }

  lemma {:induction false} PendingCountUpdate(rows: seq<Row>, at: nat, row: Row)
    requires at < |rows| && rows[at].state == Pending && row.state != Pending
    ensures PendingCount(rows[at := row]) == PendingCount(rows) - 1
  {
    var n := |rows| - 1;
    if at < n {
      PendingCountUpdate(rows[..n], at, row);
      assert rows[at := row][..n] == rows[..n][at := row];
    } else {
      assert rows[at := row][..n] == rows[..n];
    }
  }

  /** Resolving the oldest pending row keeps the queue's shape and makes progress. */
  lemma {:induction false} ResolveAt(rows: seq<Row>, at: nat, state: RowState)
    requires QueueShape(rows) && state != Pending
    requires at < |rows| && FirstPending(rows) == at
    ensures QueueShape(rows[at := Resolved(rows[at], state)])
    ensures PendingCount(rows[at := Resolved(rows[at], state)]) < PendingCount(rows)
  {
    PendingCountUpdate(rows, at, Resolved(rows[at], state));
  }

  // ----- runs: accepts, retries, any number of workers, crashes, dismissals, other writers -----

  datatype Job = Job(id: string, payload: Payload)

  /** `first` records the payload with which each request was first received. */
  datatype System = System(rows: seq<Row>, ledger: seq<Change>, jobs: map<nat, Job>, first: map<string, Payload>)

  datatype Step =
    | AcceptStep(id: string, payload: Payload)
    | SelectStep(worker: nat)
    | ResolveStep(worker: nat, verdict: Verdict)
    | CrashStep(lost: set<nat>)
    | DismissStep(id: string)
    | OtherWriteStep(writer: nat)

  const EMPTY := System([], [], map[], map[])

  ghost predicate Next(h: Payload -> int, s: System, e: Step, s': System) {
    match e
    case AcceptStep(id, p) =>
      && |p| <= MAX_SAVE_PAYLOAD_BYTES
      && s' == s.(rows := Accepted(s.rows, id, p, h(p)),
                  first := if Accepted(s.rows, id, p, h(p)) != s.rows then s.first[id := p] else s.first)
    case SelectStep(w) =>
      var at := FirstPending(s.rows);
      && at >= 0 && s.rows[at].payload.Some?
      && s' == s.(jobs := s.jobs[w := Job(s.rows[at].id, s.rows[at].payload.value)])
    case ResolveStep(w, verdict) =>
      && w in s.jobs
      && var job := s.jobs[w];
      && var pending := IsPending(s.rows, job.id);
      && s' == s.(jobs := s.jobs - {w},
                  rows := (match verdict
                           case StorageFails => s.rows
                           case Refuses => Resolve(s.rows, job.id, Failed)
                           case Applies => Resolve(s.rows, job.id, Completed)),
                  ledger := if verdict == Applies && pending then s.ledger + [Save(job.id, job.payload)] else s.ledger)
    case CrashStep(lost) =>
      s' == s.(jobs := s.jobs - lost)
    case DismissStep(id) =>
      s' == s.(rows := Dismissed(s.rows, id))
    case OtherWriteStep(w) =>
      s' == s.(ledger := s.ledger + [Other(w)])
  }

  /** The ledger changes made by save requests, in the order they were made. */
  ghost function Saves(ledger: seq<Change>): seq<Change> {
    if ledger == [] then []
    else
      var n := |ledger| - 1;
      Saves(ledger[..n]) + if ledger[n].Save? then [ledger[n]] else []
  }

  /** What the queue says the ledger contains: the completed requests, in receipt
      order, each with the payload first received for it. */
  ghost function CompletedSaves(rows: seq<Row>, first: map<string, Payload>): seq<Change> {
    if rows == [] then []
    else
      var n := |rows| - 1;
      CompletedSaves(rows[..n], first)
      + if rows[n].state == Completed && rows[n].id in first then [Save(rows[n].id, first[rows[n].id])] else []
  }

  ghost predicate KnownRow(h: Payload -> int, row: Row, first: map<string, Payload>) {
    && row.id in first
    && row.hash == h(first[row.id])
    && (row.payload.Some? ==> row.payload.value == first[row.id])
  }

  /** A worker's copy is of a received row, and every older row is already resolved. */
  ghost predicate KnownJob(job: Job, rows: seq<Row>, first: map<string, Payload>) {
    && job.id in first && job.payload == first[job.id]
    && Find(rows, job.id) >= 0
    && forall i :: 0 <= i < Find(rows, job.id) ==> rows[i].state != Pending
  }

  ghost predicate Safe(h: Payload -> int, s: System) {
    && QueueShape(s.rows)
    && (forall i :: 0 <= i < |s.rows| ==> KnownRow(h, s.rows[i], s.first))
    && (forall w :: w in s.jobs ==> KnownJob(s.jobs[w], s.rows, s.first))
    && Saves(s.ledger) == CompletedSaves(s.rows, s.first)
    && RetainedCount(s.rows) <= MAX_PENDING_SAVES
    && RetainedBytes(s.rows) <= MAX_PENDING_SAVE_BYTES
  }

  lemma {:induction false} RetainedUpdate(rows: seq<Row>, at: nat, row: Row)
    requires at < |rows|
    requires row.payload.None? || row.payload == rows[at].payload
    ensures RetainedCount(rows[at := row]) <= RetainedCount(rows)
    ensures RetainedBytes(rows[at := row]) <= RetainedBytes(rows)
  {
    var n := |rows| - 1;
    if at < n {
      RetainedUpdate(rows[..n], at, row);
      assert rows[at := row][..n] == rows[..n][at := row];
    } else {
      assert rows[at := row][..n] == rows[..n];
    }
  }

  lemma {:induction false} CompletedSavesPending(rows: seq<Row>, first: map<string, Payload>, from: nat)
    requires from <= |rows| && forall i :: from <= i < |rows| ==> rows[i].state != Completed
    ensures CompletedSaves(rows, first) == CompletedSaves(rows[..from], first)
  {
    if from == |rows| {
      assert rows[..from] == rows;
    } else {
      var n := |rows| - 1;
      CompletedSavesPending(rows[..n], first, from);
      assert rows[..n][..from] == rows[..from];
    }
  }

  lemma {:induction false} CompletedSavesSame(rows: seq<Row>, rows': seq<Row>, first: map<string, Payload>,
                                              first': map<string, Payload>)
    requires |rows| == |rows'|
    requires forall i :: 0 <= i < |rows| ==> rows[i].id == rows'[i].id && (rows[i].state == Completed <==> rows'[i].state == Completed)
    requires forall i :: 0 <= i < |rows| ==> rows[i].id in first && rows[i].id in first' && first[rows[i].id] == first'[rows[i].id]
    ensures CompletedSaves(rows, first) == CompletedSaves(rows', first')
  {
    if rows != [] {
      var n := |rows| - 1;
      CompletedSavesSame(rows[..n], rows'[..n], first, first');
    }
  }

  /** Completing the oldest pending row appends its change at the end of the completed ones. */
  lemma {:induction false} CompleteOldest(rows: seq<Row>, first: map<string, Payload>, at: nat)
    requires QueueShape(rows) && at < |rows| && rows[at].state == Pending && rows[at].id in first
    requires forall i :: 0 <= i < at ==> rows[i].state != Pending
    ensures CompletedSaves(rows[at := Resolved(rows[at], Completed)], first)
         == CompletedSaves(rows, first) + [Save(rows[at].id, first[rows[at].id])]
  {
    var done := rows[at := Resolved(rows[at], Completed)];
    CompletedSavesPending(rows, first, at);
    CompletedSavesPending(done, first, at + 1);
    assert done[..at + 1][..at] == rows[..at];
  }

  lemma {:induction false} FindStable(rows: seq<Row>, rows': seq<Row>, id: string)
    requires DistinctIds(rows) && DistinctIds(rows') && |rows| <= |rows'|
    requires forall i :: 0 <= i < |rows| ==> rows[i].id == rows'[i].id
    requires Find(rows, id) >= 0
    ensures Find(rows', id) == Find(rows, id)
  {
    UniqueFind(rows', Find(rows, id));
  }

  lemma {:induction false} AppendKeepsShape(rows: seq<Row>, row: Row)
    requires QueueShape(rows) && Find(rows, row.id) < 0 && row.state == Pending && row.payload.Some?
    ensures QueueShape(rows + [row])
    ensures RetainedCount(rows + [row]) == RetainedCount(rows) + 1
    ensures RetainedBytes(rows + [row]) == RetainedBytes(rows) + Weight(row)
  {
    assert (rows + [row])[..|rows|] == rows;
  }

  lemma {:induction false} PendingCompletesNothing(rows: seq<Row>, row: Row, first: map<string, Payload>)
    requires row.state == Pending
    ensures CompletedSaves(rows + [row], first) == CompletedSaves(rows, first)
  {
    assert (rows + [row])[..|rows|] == rows;
  }

  lemma {:induction false} AppendKeepsCompleted(rows: seq<Row>, row: Row, first: map<string, Payload>, p: Payload)
    requires Find(rows, row.id) < 0 && row.state == Pending
    requires forall i :: 0 <= i < |rows| ==> rows[i].id in first
    ensures CompletedSaves(rows + [row], first[row.id := p]) == CompletedSaves(rows, first)
  {
    PendingCompletesNothing(rows, row, first[row.id := p]);
    CompletedSavesSame(rows, rows, first, first[row.id := p]);
  }

  lemma {:induction false} AcceptKeepsSafe(h: Payload -> int, s: System, id: string, p: Payload, s': System)
    requires Safe(h, s) && Next(h, s, AcceptStep(id, p), s')
    ensures Safe(h, s')
  {
    if Find(s.rows, id) < 0 && ReceiptOf(s.rows, id, p, h(p)) == Received {
      var n, row := |s.rows|, Row(id, h(p), Some(p), Pending);
      assert s'.rows == s.rows + [row] && |s'.rows| != n;
      AppendKeepsShape(s.rows, row);
      forall i | 0 <= i < |s'.rows| ensures KnownRow(h, s'.rows[i], s'.first) {
        if i < n { assert KnownRow(h, s.rows[i], s.first); }
      }
      forall w | w in s'.jobs ensures KnownJob(s'.jobs[w], s'.rows, s'.first) {
        assert KnownJob(s.jobs[w], s.rows, s.first);
        FindStable(s.rows, s'.rows, s.jobs[w].id);
      }
      assert forall i :: 0 <= i < n ==> KnownRow(h, s.rows[i], s.first);
      AppendKeepsCompleted(s.rows, row, s.first, p);
    }
  }

  /** Any change of one row that keeps its identity and does not add a payload. */
  lemma {:induction false} RowUpdateKeepsJobs(s: System, rows': seq<Row>, w: nat)
    requires w in s.jobs && KnownJob(s.jobs[w], s.rows, s.first)
    requires DistinctIds(s.rows) && DistinctIds(rows') && |rows'| == |s.rows|
    requires forall i :: 0 <= i < |rows'| ==> rows'[i].id == s.rows[i].id && (rows'[i].state == Pending ==> s.rows[i].state == Pending)
    ensures KnownJob(s.jobs[w], rows', s.first)
  {
    FindStable(s.rows, rows', s.jobs[w].id);
  }

  lemma {:induction false} UpdateKeepsKnown(h: Payload -> int, s: System, at: nat, row: Row, rows': seq<Row>)
    requires at < |s.rows| && DistinctIds(s.rows) && rows' == s.rows[at := row]
    requires row.id == s.rows[at].id && row.hash == s.rows[at].hash
    requires row.payload.None? || row.payload == s.rows[at].payload
    requires row.state == Pending ==> s.rows[at].state == Pending
    requires forall i :: 0 <= i < |s.rows| ==> KnownRow(h, s.rows[i], s.first)
    requires forall k :: k in s.jobs ==> KnownJob(s.jobs[k], s.rows, s.first)
    ensures forall i :: 0 <= i < |rows'| ==> KnownRow(h, rows'[i], s.first)
    ensures forall k :: k in s.jobs ==> KnownJob(s.jobs[k], rows', s.first)
  {
    forall i | 0 <= i < |rows'| ensures KnownRow(h, rows'[i], s.first) {
      assert KnownRow(h, s.rows[i], s.first);
    }
    forall k | k in s.jobs ensures KnownJob(s.jobs[k], rows', s.first) {
      RowUpdateKeepsJobs(s, rows', k);
    }
  }

  lemma {:induction false} ResolveKeepsShape(rows: seq<Row>, at: nat, state: RowState)
    requires QueueShape(rows) && state != Pending
    requires at < |rows| && rows[at].state == Pending && forall i :: 0 <= i < at ==> rows[i].state != Pending
    ensures QueueShape(rows[at := Resolved(rows[at], state)])
  {
  }

  lemma {:induction false} ResolveKeepsRows(h: Payload -> int, s: System, at: nat, state: RowState)
    requires Safe(h, s) && state != Pending
    requires at < |s.rows| && s.rows[at].state == Pending && forall i :: 0 <= i < at ==> s.rows[i].state != Pending
    ensures var rows' := s.rows[at := Resolved(s.rows[at], state)];
      && QueueShape(rows')
      && (forall i :: 0 <= i < |rows'| ==> KnownRow(h, rows'[i], s.first))
      && (forall k :: k in s.jobs ==> KnownJob(s.jobs[k], rows', s.first))
      && RetainedCount(rows') <= RetainedCount(s.rows) && RetainedBytes(rows') <= RetainedBytes(s.rows)
  {
    var row := Resolved(s.rows[at], state);
    ResolveKeepsShape(s.rows, at, state);
    RetainedUpdate(s.rows, at, row);
    UpdateKeepsKnown(h, s, at, row, s.rows[at := row]);
  }

  lemma {:induction false} CompletionKeepsSafe(h: Payload -> int, s: System, at: nat, jobs: map<nat, Job>, p: Payload)
    requires Safe(h, s) && at < |s.rows| && s.rows[at].state == Pending
    requires forall i :: 0 <= i < at ==> s.rows[i].state != Pending
    requires forall k :: k in jobs ==> k in s.jobs && jobs[k] == s.jobs[k]
    requires s.rows[at].id in s.first && p == s.first[s.rows[at].id]
    ensures Safe(h, System(s.rows[at := Resolved(s.rows[at], Completed)], s.ledger + [Save(s.rows[at].id, p)], jobs, s.first))
  {
    ResolveKeepsRows(h, s, at, Completed);
    CompleteOldest(s.rows, s.first, at);
    assert (s.ledger + [Save(s.rows[at].id, p)])[..|s.ledger|] == s.ledger;
  }

  lemma {:induction false} RefusalKeepsSafe(h: Payload -> int, s: System, at: nat, jobs: map<nat, Job>)
    requires Safe(h, s) && at < |s.rows| && s.rows[at].state == Pending
    requires forall i :: 0 <= i < at ==> s.rows[i].state != Pending
    requires forall k :: k in jobs ==> k in s.jobs && jobs[k] == s.jobs[k]
    ensures Safe(h, System(s.rows[at := Resolved(s.rows[at], Failed)], s.ledger, jobs, s.first))
  {
    ResolveKeepsRows(h, s, at, Failed);
    RefusalCompletesNothing(h, s, at);
  }

  lemma {:induction false} RefusalCompletesNothing(h: Payload -> int, s: System, at: nat)
    requires Safe(h, s) && at < |s.rows| && s.rows[at].state == Pending
    ensures CompletedSaves(s.rows[at := Resolved(s.rows[at], Failed)], s.first) == CompletedSaves(s.rows, s.first)
  {
    assert forall i :: 0 <= i < |s.rows| ==> KnownRow(h, s.rows[i], s.first);
    CompletedSavesSame(s.rows, s.rows[at := Resolved(s.rows[at], Failed)], s.first, s.first);
  }

  lemma {:induction false} ResolveKeepsSafe(h: Payload -> int, s: System, w: nat, verdict: Verdict, s': System)
    requires Safe(h, s) && Next(h, s, ResolveStep(w, verdict), s')
    ensures Safe(h, s')
  {
    var job := s.jobs[w];
    assert KnownJob(job, s.rows, s.first);
    var at := Find(s.rows, job.id);
    var jobs := s.jobs - {w};
    if verdict == StorageFails || s.rows[at].state != Pending {
      assert s' == System(s.rows, s.ledger, jobs, s.first);
    } else if verdict == Applies {
      assert s' == System(s.rows[at := Resolved(s.rows[at], Completed)], s.ledger + [Save(job.id, job.payload)], jobs, s.first);
      CompletionKeepsSafe(h, s, at, jobs, job.payload);
    } else {
      assert s' == System(s.rows[at := Resolved(s.rows[at], Failed)], s.ledger, jobs, s.first);
      RefusalKeepsSafe(h, s, at, jobs);
    }
  }

  lemma {:induction false} DismissKeepsShape(rows: seq<Row>, at: nat)
    requires QueueShape(rows) && at < |rows| && rows[at].state == Failed
    ensures QueueShape(rows[at := rows[at].(payload := None)])
  {
  }

  lemma {:induction false} DismissKeepsSafe(h: Payload -> int, s: System, id: string, s': System)
    requires Safe(h, s) && Next(h, s, DismissStep(id), s')
    ensures Safe(h, s')
  {
    if CanDismiss(s.rows, id) {
      var at := Find(s.rows, id);
      var row := s.rows[at].(payload := None);
      DismissKeepsShape(s.rows, at);
      RetainedUpdate(s.rows, at, row);
      UpdateKeepsKnown(h, s, at, row, s.rows[at := row]);
      assert forall i :: 0 <= i < |s.rows| ==> KnownRow(h, s.rows[i], s.first);
      CompletedSavesSame(s.rows, s.rows[at := row], s.first, s.first);
    }
  }

  lemma {:induction false} NextKeepsSafe(h: Payload -> int, s: System, e: Step, s': System)
    requires Safe(h, s) && Next(h, s, e, s')
    ensures Safe(h, s')
  {
    match e
    case AcceptStep(id, p) => AcceptKeepsSafe(h, s, id, p, s');
    case SelectStep(w) =>
      var at := FirstPending(s.rows);
      UniqueFind(s.rows, at);
      assert KnownRow(h, s.rows[at], s.first);
    case ResolveStep(w, verdict) => ResolveKeepsSafe(h, s, w, verdict, s');
    case CrashStep(_) =>
    case DismissStep(id) => DismissKeepsSafe(h, s, id, s');
    case OtherWriteStep(_) =>
      assert s'.ledger[..|s.ledger|] == s.ledger;
  }

  /** The oldest pending request may be handed to a worker. */
  lemma {:induction false} SelectedIsKnown(h: Payload -> int, s: System, at: nat)
    requires Safe(h, s) && FirstPending(s.rows) == at
    ensures s.rows[at].payload.Some? && KnownJob(Job(s.rows[at].id, s.rows[at].payload.value), s.rows, s.first)
  {
    UniqueFind(s.rows, at);
    assert KnownRow(h, s.rows[at], s.first);
  }

  ghost predicate IsRun(h: Payload -> int, states: seq<System>, steps: seq<Step>) {
    && |states| == |steps| + 1
    && states[0] == EMPTY
    && forall i :: 0 <= i < |steps| ==> Next(h, states[i], steps[i], states[i + 1])
  }

  lemma {:induction false} EveryStateSafe(h: Payload -> int, states: seq<System>, steps: seq<Step>, k: nat)
    requires IsRun(h, states, steps) && k < |states|
    ensures Safe(h, states[k])
  {
    if k > 0 {
      EveryStateSafe(h, states, steps, k - 1);
      NextKeepsSafe(h, states[k - 1], steps[k - 1], states[k]);
    }
  }

  // ----- the guarantees -----

  ghost function Occurrences(ledger: seq<Change>, id: string): nat {
    if ledger == [] then 0
    else
      var n := |ledger| - 1;
      Occurrences(ledger[..n], id) + if ledger[n].Save? && ledger[n].id == id then 1 else 0
  }

  lemma {:induction false} OccurrencesOfSaves(ledger: seq<Change>, id: string)
    ensures Occurrences(Saves(ledger), id) == Occurrences(ledger, id)
  {
    if ledger != [] {
      var n := |ledger| - 1;
      OccurrencesOfSaves(ledger[..n], id);
      if ledger[n].Save? {
        assert Saves(ledger)[..|Saves(ledger)| - 1] == Saves(ledger[..n]);
      } else {
        assert Saves(ledger) == Saves(ledger[..n]);
      }
    }
  }

  ghost predicate HasCompleted(rows: seq<Row>, id: string) {
    exists i :: 0 <= i < |rows| && rows[i].id == id && rows[i].state == Completed
  }

  lemma {:induction false} HasCompletedLast(rows: seq<Row>, id: string)
    requires rows != []
    ensures var n := |rows| - 1;
            (HasCompleted(rows, id)) <==> HasCompleted(rows[..n], id) || (rows[n].id == id && rows[n].state == Completed)
  {
    var n := |rows| - 1;
    if HasCompleted(rows[..n], id) {
      var i :| 0 <= i < n && rows[..n][i].id == id && rows[..n][i].state == Completed;
      assert rows[i].id == id;
    }
    if HasCompleted(rows, id) {
      var i :| 0 <= i < |rows| && rows[i].id == id && rows[i].state == Completed;
      assert i == n || rows[..n][i] == rows[i];
    }
  }

  lemma {:induction false} OccurrencesSnoc(ledger: seq<Change>, e: Change, id: string)
    ensures Occurrences(ledger + [e], id) == Occurrences(ledger, id) + if e.Save? && e.id == id then 1 else 0
  {
    assert (ledger + [e])[..|ledger|] == ledger;
  }

  lemma {:induction false} LastIsNew(rows: seq<Row>, id: string)
    requires rows != [] && DistinctIds(rows) && rows[|rows| - 1].id == id
    ensures !HasCompleted(rows[..|rows| - 1], id) && DistinctIds(rows[..|rows| - 1])
  {
  }

  lemma {:induction false} OccurrencesOfCompleted(rows: seq<Row>, first: map<string, Payload>, id: string)
    requires DistinctIds(rows) && forall i :: 0 <= i < |rows| ==> rows[i].id in first
    ensures Occurrences(CompletedSaves(rows, first), id) == if HasCompleted(rows, id) then 1 else 0
  {
    if rows != [] {
      var n := |rows| - 1;
      var last := rows[n];
      LastIsNew(rows, last.id);
      OccurrencesOfCompleted(rows[..n], first, id);
      HasCompletedLast(rows, id);
      if last.state == Completed {
        OccurrencesSnoc(CompletedSaves(rows[..n], first), Save(last.id, first[last.id]), id);
      } else {
        assert CompletedSaves(rows, first) == CompletedSaves(rows[..n], first);
      }
    }
  }

  /** Exactly once: in every reachable state a request has changed the ledger once
      if it is completed and never otherwise; all such changes, in the order they
      were made, are the completed requests in receipt order, each with the payload
      it was first received with; and the retained payloads stay inside the limits. */
  lemma {:induction false} ExactlyOnce(h: Payload -> int, states: seq<System>, steps: seq<Step>, k: nat, id: string)
    requires IsRun(h, states, steps) && k < |states|
    ensures var s := states[k];
      && Saves(s.ledger) == CompletedSaves(s.rows, s.first)
      && Occurrences(s.ledger, id)
         == (if Find(s.rows, id) >= 0 && s.rows[Find(s.rows, id)].state == Completed then 1 else 0)
      && RetainedCount(s.rows) <= MAX_PENDING_SAVES
      && RetainedBytes(s.rows) <= MAX_PENDING_SAVE_BYTES
  {
    EveryStateSafe(h, states, steps, k);
    var s := states[k];
    OccurrencesOfSaves(s.ledger, id);
    assert forall i :: 0 <= i < |s.rows| ==> KnownRow(h, s.rows[i], s.first);
    OccurrencesOfCompleted(s.rows, s.first, id);
    if HasCompleted(s.rows, id) {
      var i :| 0 <= i < |s.rows| && s.rows[i].id == id && s.rows[i].state == Completed;
      UniqueFind(s.rows, i);
    }
  }

  /** A row is never removed, reordered, renamed or un-resolved. */
  ghost predicate Advances(rows: seq<Row>, rows': seq<Row>) {
    && |rows| <= |rows'|
    && forall i :: 0 <= i < |rows| ==>
         && rows'[i].id == rows[i].id && rows'[i].hash == rows[i].hash
         && (rows[i].state != Pending ==> rows'[i].state == rows[i].state)
  }

  /** A step receives one new request or leaves the set of received requests alone. */
  ghost predicate Receives(s: System, s': System) {
    || (s'.first == s.first && |s'.rows| == |s.rows|)
    || (&& |s'.rows| == |s.rows| + 1
        && var id := s'.rows[|s.rows|].id;
        && Find(s.rows, id) < 0 && id in s'.first && s'.first == s.first[id := s'.first[id]])
  }

  lemma {:induction false} AcceptAdvances(h: Payload -> int, s: System, id: string, p: Payload, s': System)
    requires Next(h, s, AcceptStep(id, p), s')
    ensures Advances(s.rows, s'.rows) && Receives(s, s')
  {
    if Find(s.rows, id) < 0 && ReceiptOf(s.rows, id, p, h(p)) == Received {
      assert |s'.rows| == |s.rows| + 1;
      assert s'.rows[|s.rows|].id == id && s'.first == s.first[id := p];
    }
  }

  lemma {:induction false} NextAdvances(h: Payload -> int, s: System, e: Step, s': System)
    requires Next(h, s, e, s')
    ensures Advances(s.rows, s'.rows) && Receives(s, s')
  {
    if e.AcceptStep? {
      AcceptAdvances(h, s, e.id, e.payload, s');
    }
  }

  /** Only received requests have a first payload. */
  ghost predicate FirstMeansReceived(s: System, id: string) {
    id in s.first <==> Find(s.rows, id) >= 0
  }

  lemma {:induction false} AdvanceKeepsReceived(s: System, s': System, id: string)
    requires Advances(s.rows, s'.rows) && Receives(s, s') && FirstMeansReceived(s, id)
    requires DistinctIds(s.rows) && DistinctIds(s'.rows)
    ensures FirstMeansReceived(s', id)
    ensures id in s.first ==> id in s'.first && s'.first[id] == s.first[id]
  {
    if Find(s.rows, id) >= 0 {
      FindStable(s.rows, s'.rows, id);
    } else if Find(s'.rows, id) >= 0 {
      assert Find(s'.rows, id) == |s.rows|;
    }
  }

  /** Completed and failed are terminal: rows only ever advance. */
  lemma {:induction false} ResolutionIsFinal(h: Payload -> int, states: seq<System>, steps: seq<Step>, i: nat, j: nat)
    requires IsRun(h, states, steps) && i <= j < |states|
    ensures Advances(states[i].rows, states[j].rows)
    decreases j
  {
    if i < j {
      ResolutionIsFinal(h, states, steps, i, j - 1);
      NextAdvances(h, states[j - 1], steps[j - 1], states[j]);
      AdvancesTransitive(states[i].rows, states[j - 1].rows, states[j].rows);
    }
  }

  /** The payload a request was first received with is never replaced. */
  lemma {:induction false} FirstPayloadIsFinal(h: Payload -> int, states: seq<System>, steps: seq<Step>, i: nat, j: nat, id: string)
    requires IsRun(h, states, steps) && i <= j < |states| && id in states[i].first
    ensures id in states[j].first && states[j].first[id] == states[i].first[id]
    decreases j
  {
    if i < j {
      FirstPayloadIsFinal(h, states, steps, i, j - 1, id);
      StepKeepsPayload(h, states, steps, j - 1, id);
    }
  }

  lemma {:induction false} StepKeepsPayload(h: Payload -> int, states: seq<System>, steps: seq<Step>, k: nat, id: string)
    requires IsRun(h, states, steps) && k < |steps| && id in states[k].first
    ensures id in states[k + 1].first && states[k + 1].first[id] == states[k].first[id]
  {
    FirstIsReceived(h, states, steps, k, id);
    StepKeepsFirst(h, states, steps, k, id);
  }

  lemma {:induction false} AdvancesTransitive(a: seq<Row>, b: seq<Row>, c: seq<Row>)
    requires Advances(a, b) && Advances(b, c)
    ensures Advances(a, c)
  {
  }

  lemma {:induction false} StepKeepsFirst(h: Payload -> int, states: seq<System>, steps: seq<Step>, k: nat, id: string)
    requires IsRun(h, states, steps) && k < |steps| && FirstMeansReceived(states[k], id)
    ensures FirstMeansReceived(states[k + 1], id)
    ensures id in states[k].first ==> id in states[k + 1].first && states[k + 1].first[id] == states[k].first[id]
  {
    EveryStateSafe(h, states, steps, k);
    EveryStateSafe(h, states, steps, k + 1);
    NextAdvances(h, states[k], steps[k], states[k + 1]);
    AdvanceKeepsReceived(states[k], states[k + 1], id);
  }

  lemma {:induction false} FirstIsReceived(h: Payload -> int, states: seq<System>, steps: seq<Step>, k: nat, id: string)
    requires IsRun(h, states, steps) && k < |states|
    ensures FirstMeansReceived(states[k], id)
  {
    if k > 0 {
      FirstIsReceived(h, states, steps, k - 1, id);
      StepKeepsFirst(h, states, steps, k - 1, id);
    }
  }

  ghost predicate CollisionFree(h: Payload -> int) {
    forall a, b :: h(a) == h(b) ==> a == b
  }

  /** Retrying a received request never changes anything, in whatever state the
      request is: it is acknowledged exactly when it repeats the first payload. */
  lemma {:induction false} RetryIsIdempotent(h: Payload -> int, states: seq<System>, steps: seq<Step>, k: nat, id: string, p: Payload)
    requires IsRun(h, states, steps) && k < |states| && CollisionFree(h)
    requires id in states[k].first
    ensures Accepted(states[k].rows, id, p, h(p)) == states[k].rows
    ensures ReceiptOf(states[k].rows, id, p, h(p)) == if p == states[k].first[id] then Received else Conflict
  {
    EveryStateSafe(h, states, steps, k);
    FirstIsReceived(h, states, steps, k, id);
    var s := states[k];
    assert KnownRow(h, s.rows[Find(s.rows, id)], s.first);
  }
}
