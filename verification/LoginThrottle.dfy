/** Account lockout: escalating locks, decay, and the purge of stale rows.

    Instants are integer milliseconds, as the store keeps them; durations are
    integer nanoseconds, as the policy gives them. */
module LoginThrottle {
  import opened Options

  const MS: int := 1_000_000                 // nanoseconds per millisecond
  const SECOND: int := 1_000_000_000
  const DAY: int := 24 * 3600 * SECOND
  const MAX_INT64: int := 0x7FFF_FFFF_FFFF_FFFF
  const GC_INTERVAL: nat := 128

  datatype Policy = Policy(maxFailures: int, baseLock: int, maxLock: int, decay: int) {
    predicate Valid() {
      && 1 <= maxFailures <= 1000
      && SECOND <= baseLock <= maxLock
      && maxLock <= DAY
      && maxLock <= decay
    }
  }

  /** What the store accepts as an operation time: the years 2000 to 9999. */
  predicate ValidInstant(now: int) {
    946_684_800_000 <= now < 253_402_300_800_000
  }

  /** An account key is a SHA-256 digest in lower-case hexadecimal. */
  predicate ValidKey(key: string) {
    |key| == 64 && forall i :: 0 <= i < |key| ==> '0' <= key[i] <= '9' || 'a' <= key[i] <= 'f'
  }

  datatype Row = Row(failureCount: int, lockLevel: int, lockedUntil: Option<int>, lastFailure: int)

  /** The CHECK constraints of the login_throttle table. */
  predicate RowFitsSchema(row: Row) {
    && 0 <= row.failureCount <= 1_000_000
    && 0 <= row.lockLevel <= 64
    && (row.lockedUntil.Some? ==> row.lockedUntil.value > row.lastFailure)
  }

  function Pow2(n: nat): nat {
    if n == 0 then 1 else 2 * Pow2(n - 1)
  }

  function Min(a: int, b: int): int {
    if a < b then a else b
  }

  /** The documented curve: the k-th lock in a row doubles the base, up to the maximum. */
  function LockFor(p: Policy, k: nat): int
    requires k >= 1
  {
    Min(p.baseLock * Pow2(k - 1), p.maxLock)
  }

  lemma {:induction false} Pow2Monotone(m: nat, n: nat)
    requires m <= n
    ensures 1 <= Pow2(m) <= Pow2(n)
  {
    if n > 0 {
      if m == n { Pow2Monotone(m - 1, n - 1); } else { Pow2Monotone(m, n - 1); }
    }
  }

  lemma {:induction false} ScaledMonotone(b: int, m: nat, n: nat)
    requires b >= 0 && m <= n
    ensures b <= b * Pow2(m) <= b * Pow2(n)
  {
    Pow2Monotone(m, n);
    MulMonotone(b, 1, Pow2(m));
    MulMonotone(b, Pow2(m), Pow2(n));
  }

  lemma {:induction false} MulMonotone(b: int, x: int, y: int)
    requires b >= 0 && x <= y
    ensures b * x <= b * y
  {
  }

  /** Level `cap` is the first whose doubled base reaches the maximum. */
  ghost predicate IsMaxLevel(p: Policy, cap: nat) {
    && cap >= 1
    && p.baseLock * Pow2(cap - 1) >= p.maxLock
    && forall m: nat :: m + 1 < cap ==> p.baseLock * Pow2(m) < p.maxLock
  }

  /** The first doubling loop. Durations stay far inside 64 bits, and the level
      never exceeds 18, well inside the schema's range. */
  method MaxLevel(p: Policy) returns (cap: nat)
    requires p.Valid()
    ensures IsMaxLevel(p, cap) && cap <= 18
  {
    cap := 1;
    var duration := p.baseLock;
    while duration < p.maxLock && cap < 64
      invariant 1 <= cap <= 18
      invariant duration == p.baseLock * Pow2(cap - 1)
      invariant 0 < duration < 2 * p.maxLock <= MAX_INT64
      invariant forall m: nat :: m + 1 < cap ==> p.baseLock * Pow2(m) < p.maxLock
      decreases 64 - cap
    {
      LevelBound(p, cap);
      DoubleStep(p.baseLock, cap);
      duration := duration * 2;
      cap := cap + 1;
    }
  }

  lemma {:induction false} DoubleStep(b: int, n: nat)
    requires n >= 1
    ensures b * Pow2(n - 1) * 2 == b * Pow2(n)
  {
    assert Pow2(n) == 2 * Pow2(n - 1);
  }

  /** 2^17 seconds exceed a day, so a level whose lock is still too short is below 18. */
  lemma {:induction false} LevelBound(p: Policy, cap: nat)
    requires p.Valid() && cap >= 1 && p.baseLock * Pow2(cap - 1) < p.maxLock
    ensures cap < 18
  {
    assert Pow2(17) == 131072 by {
      assert Pow2(4) == 16;
      assert Pow2(8) == 256;
      assert Pow2(12) == 4096;
      assert Pow2(16) == 65536;
    }
    assert p.baseLock * Pow2(17) >= SECOND * 131072 > DAY;
    if cap >= 18 {
      ScaledMonotone(p.baseLock, 17, cap - 1);
    }
  }

  /** The second doubling loop computes exactly the documented curve. */
  method LockDuration(p: Policy, level: nat) returns (duration: int)
    requires p.Valid() && level >= 1
    ensures duration == LockFor(p, level)
  {
    duration := p.baseLock;
    var cycle := 1;
    while cycle < level && duration < p.maxLock
      invariant 1 <= cycle <= level
      invariant duration == p.baseLock * Pow2(cycle - 1)
      invariant 0 < duration < 2 * p.maxLock <= MAX_INT64
      decreases level - cycle
    {
      DoubleStep(p.baseLock, cycle);
      duration := duration * 2;
      cycle := cycle + 1;
    }
    ScaledMonotone(p.baseLock, cycle - 1, level - 1);
    if duration > p.maxLock {
      duration := p.maxLock;
    }
  }

  /** Capping the stored level does not shorten any lock. */
  lemma {:induction false} CapIsInvisible(p: Policy, cap: nat, k: nat)
    requires p.Valid() && IsMaxLevel(p, cap) && k >= 1
    ensures LockFor(p, Min(k, cap)) == LockFor(p, k)
    ensures SECOND <= LockFor(p, k) <= p.maxLock
  {
    ScaledMonotone(p.baseLock, 0, k - 1);
    if k > cap {
      ScaledMonotone(p.baseLock, cap - 1, k - 1);
    }
  }

  lemma {:induction false} MaxLevelUnique(p: Policy, a: nat, b: nat)
    requires p.Valid() && IsMaxLevel(p, a) && IsMaxLevel(p, b)
    ensures a == b
  {
  }

  /** The level at which locks stop growing, searched upwards from `from`. */
  ghost function CapFrom(p: Policy, from: nat): (cap: nat)
    requires p.Valid() && 1 <= from <= 18
    requires forall m: nat :: m + 1 < from ==> p.baseLock * Pow2(m) < p.maxLock
    ensures IsMaxLevel(p, cap) && cap <= 18
    decreases 18 - from
  {
    if p.baseLock * Pow2(from - 1) >= p.maxLock then from
    else
      LevelBound(p, from);
      CapFrom(p, from + 1)
  }

  ghost function Cap(p: Policy): (cap: nat)
    requires p.Valid()
    ensures IsMaxLevel(p, cap) && cap <= 18
  {
    CapFrom(p, 1)
  }

  // ----- one recorded failure -----

  predicate Locked(row: Option<Row>, now: int) {
    row.Some? && row.value.lockedUntil.Some? && row.value.lockedUntil.value > now
  }

  predicate Decayed(p: Policy, row: Row, now: int) {
    (now - row.lastFailure) * MS > p.decay
  }

  /** The counters a failure at `now` starts from. */
  function Counters(p: Policy, row: Option<Row>, now: int): (int, int) {
    if row.None? || Decayed(p, row.value, now) then (0, 0) else (row.value.failureCount, row.value.lockLevel)
  }

  ghost function AfterFailure(p: Policy, row: Option<Row>, now: int): (r: (Row, Option<int>))
    requires p.Valid()
  {
    if Locked(row, now) then (row.value, Some(row.value.lockedUntil.value * MS))
    else
      var (count, level) := Counters(p, row, now);
      if count + 1 < p.maxFailures then (Row(count + 1, level, None, now), None)
      else
        var raised: int := if level < Cap(p) then level + 1 else level;
        if raised < 1 then (Row(0, raised, None, now), None)
        else
          var until := now * MS + LockFor(p, raised);
          (Row(0, raised, Some(until / MS), now), Some(until))
  }

  function LockedUntil(row: Option<Row>, now: int): Option<int> {
    if Locked(row, now) then Some(row.value.lockedUntil.value) else None
  }

  /** DELETE ... WHERE COALESCE(locked_until_ms, last_failure_ms) < now - decay */
  predicate Purgeable(p: Policy, row: Row, now: int) {
    (if row.lockedUntil.Some? then row.lockedUntil.value else row.lastFailure) < (now * MS - p.decay) / MS
  }

  function Purged(p: Policy, rows: map<string, Row>, now: int): map<string, Row> {
    map key | key in rows && !Purgeable(p, rows[key], now) :: rows[key]
  }

  function Lookup(rows: map<string, Row>, key: string): Option<Row> {
    if key in rows then Some(rows[key]) else None
  }

  /** The body of the write transaction. A locked row is left as it is. */
  method RecordFailure(p: Policy, row: Option<Row>, now: int) returns (next: Row, lockedUntil: Option<int>)
    requires p.Valid() && (row.Some? ==> row.value.lockLevel >= 0)
    ensures (next, lockedUntil) == AfterFailure(p, row, now)
  {
    var failureCount, lockLevel := 0, 0;
    if row.Some? && (now - row.value.lastFailure) * MS <= p.decay {
      failureCount, lockLevel := row.value.failureCount, row.value.lockLevel;
    }
    if row.Some? && row.value.lockedUntil.Some? && row.value.lockedUntil.value > now {
      return row.value, Some(row.value.lockedUntil.value * MS);
    }
    failureCount := failureCount + 1;
    if failureCount < p.maxFailures {
      return Row(failureCount, lockLevel, None, now), None;
    }
    var cap := MaxLevel(p);
    MaxLevelUnique(p, cap, Cap(p));
    if lockLevel < cap {
      lockLevel := lockLevel + 1;
    }
    var duration := LockDuration(p, lockLevel);
    var until := now * MS + duration;
    return Row(0, lockLevel, Some(until / MS), now), Some(until);
  }

  lemma {:induction false} HexadecimalDigit(c: char)
    ensures c in "0123456789abcdef" <==> '0' <= c <= '9' || 'a' <= c <= 'f'
  {
    var digits := "0123456789abcdef";
    if '0' <= c <= '9' {
      assert digits[c as int - '0' as int] == c;
    } else if 'a' <= c <= 'f' {
      assert digits[c as int - 'a' as int + 10] == c;
    }
  }

  lemma {:induction false} KeysAreHexadecimal(key: string)
    ensures ValidKey(key) <==> |key| == 64 && forall c :: c in key ==> c in "0123456789abcdef"
  {
    forall c ensures c in "0123456789abcdef" <==> '0' <= c <= '9' || 'a' <= c <= 'f' {
      HexadecimalDigit(c);
    }
    if |key| == 64 && forall c :: c in key ==> c in "0123456789abcdef" {
      forall i | 0 <= i < |key| ensures '0' <= key[i] <= '9' || 'a' <= key[i] <= 'f' {
        assert key[i] in key;
      }
    }
  }

  class Store {
    var rows: map<string, Row>
    var writes: nat

    constructor ()
      ensures rows == map[] && writes == 0
    {
      rows, writes := map[], 0;
    }

    method RegisterLoginFailure(key: string, now: int, p: Policy) returns (ok: bool, lockedUntil: Option<int>)
      requires forall k :: k in rows ==> rows[k].lockLevel >= 0
      modifies this
      ensures ok <==>
        && |key| == 64 && (forall c :: c in key ==> c in "0123456789abcdef") && 946_684_800_000 <= now < 253_402_300_800_000
        && 1 <= p.maxFailures <= 1000 && 1_000_000_000 <= p.baseLock <= p.maxLock <= 86_400_000_000_000 && p.maxLock <= p.decay
      ensures !ok ==> rows == old(rows) && writes == old(writes)
      ensures ok ==>
        && var (row, result) := AfterFailure(p, Lookup(old(rows), key), now);
        && lockedUntil == result
        && writes == old(writes) + 1
        && var stored := old(rows)[key := row];
        && rows == if writes % 128 == 0 then Purged(p, stored, now) else stored
    {
      KeysAreHexadecimal(key);
      lockedUntil := None;
      ok := ValidKey(key) && p.Valid() && ValidInstant(now);
      if !ok {
        return;
      }
      var row := Lookup(rows, key);
      var next;
      next, lockedUntil := RecordFailure(p, row, now);
      rows := rows[key := next];
      writes := writes + 1;
      if writes % GC_INTERVAL == 0 {
        rows := Purged(p, rows, now);
      }
    }

    method ClearLoginFailures(key: string) returns (ok: bool)
      modifies this`rows
      ensures ok <==> |key| == 64 && forall c :: c in key ==> c in "0123456789abcdef"
      ensures rows == if ok then old(rows) - {key} else old(rows)
    {
      KeysAreHexadecimal(key);
      ok := ValidKey(key);
      if ok {
        rows := rows - {key};
      }
    }

    method LoginThrottleLockedUntil(key: string, now: int) returns (ok: bool, until: Option<int>)
      ensures ok <==>
        |key| == 64 && (forall c :: c in key ==> c in "0123456789abcdef") && 946_684_800_000 <= now < 253_402_300_800_000
      ensures until == if ok then LockedUntil(Lookup(rows, key), now) else None
    {
      KeysAreHexadecimal(key);
      ok := ValidKey(key) && ValidInstant(now);
      if !ok {
        return false, None;
      }
      if key !in rows || rows[key].lockedUntil.None? || rows[key].lockedUntil.value <= now {
        return true, None;
      }
      return true, rows[key].lockedUntil;
    }
  }

  // ----- the documented progression -----

  /** What an account's history amounts to: how many failures were recorded since
      the last decay, and when the latest one was. */
  datatype History = History(recorded: nat, last: int)

  /** The row such a history must have left behind. */
  ghost function RowOf(p: Policy, h: History): Row
    requires p.Valid() && h.recorded >= 1
  {
    var locks := h.recorded / p.maxFailures;
    Row(h.recorded % p.maxFailures,
        Min(locks, Cap(p)),
        if h.recorded % p.maxFailures == 0 then Some(h.last + LockFor(p, locks) / MS) else None,
        h.last)
  }

  /** The lock in force at `now`: it began with a failure completing a multiple of
      MaxFailures, and it is the `locks`-th since the decay. */
  ghost predicate InLock(p: Policy, h: History, now: int)
    requires p.Valid() && h.recorded >= 1
  {
    h.recorded % p.maxFailures == 0 && h.last + LockFor(p, h.recorded / p.maxFailures) / MS > now
  }

  /** Failures during a lock change nothing; a failure later than `decay` starts
      over; any other is one more recorded failure. */
  ghost function Extend(p: Policy, h: Option<History>, now: int): (r: History)
    requires p.Valid() && (h.Some? ==> h.value.recorded >= 1)
    ensures r.recorded >= 1
  {
    if h.None? then History(1, now)
    else if InLock(p, h.value, now) then h.value
    else if (now - h.value.last) * MS > p.decay then History(1, now)
    else History(h.value.recorded + 1, now)
  }

  lemma {:induction false} CountStep(n: nat, m: int)
    requires m >= 1
    ensures n % m + 1 < m ==> (n + 1) / m == n / m && (n + 1) % m == n % m + 1
    ensures n % m + 1 >= m ==> (n + 1) / m == n / m + 1 && (n + 1) % m == 0
  {
    var q, r := n / m, n % m;
    assert n == q * m + r;
    if r + 1 < m {
      DivModUnique(n + 1, m, q, r + 1);
    } else {
      assert n + 1 == (q + 1) * m;
      DivModUnique(n + 1, m, q + 1, 0);
    }
  }

  lemma {:induction false} DivModUnique(x: int, m: int, q: int, r: int)
    requires m >= 1 && x == q * m + r && 0 <= r < m
    ensures x / m == q && x % m == r
  {
    var d := x / m - q;
    assert x == (x / m) * m + x % m;
    assert d * m == r - x % m;
    if d >= 1 {
      MulMonotone(m, 1, d);
    } else if d <= -1 {
      MulMonotone(m, d, -1);
    }
  }

  lemma {:induction false} DivModBounds(n: nat, m: int)
    requires m >= 1
    ensures 0 <= n / m && 0 <= n % m < m
  {
    var q := n / m;
    assert n == q * m + n % m;
    if q < 0 {
      MulMonotone(m, q, -1);
    }
  }

  lemma {:induction false} LocksAtLeastOne(n: nat, m: int)
    requires m >= 1 && n >= 1 && n % m == 0
    ensures n / m >= 1
  {
    assert n == (n / m) * m;
  }

  /** What one failure must do: leave the row of the extended history, and reply with a
      lock exactly when that history is in one: the instant it ends, in full precision if
      this failure began it and to the millisecond if it was in force. */
  ghost predicate Follows(p: Policy, row: Option<Row>, now: int, next: History)
    requires p.Valid() && next.recorded >= 1
  {
    var (row', reply) := AfterFailure(p, row, now);
    && row' == RowOf(p, next)
    && (reply.Some? <==> next.recorded % p.maxFailures == 0)
    && (reply.Some? && !Locked(row, now) ==>
          next.recorded / p.maxFailures >= 1
          && reply.value == now * MS + LockFor(p, next.recorded / p.maxFailures))
    && (reply.Some? && Locked(row, now) ==>
          next.recorded / p.maxFailures >= 1
          && reply.value == (next.last + LockFor(p, next.recorded / p.maxFailures) / MS) * MS)
  }

  /** Starting over, from no row or from a decayed one. */
  lemma {:induction false} FreshFailure(p: Policy, row: Option<Row>, now: int)
    requires p.Valid() && !Locked(row, now) && (row.Some? ==> Decayed(p, row.value, now))
    ensures Follows(p, row, now, History(1, now))
  {
    CountStep(0, p.maxFailures);
    DivModUnique(0, p.maxFailures, 0, 0);
    CapIsInvisible(p, Cap(p), 1);
  }

  lemma {:induction false} NextFailureLocks(p: Policy, h: History, now: int)
    requires p.Valid() && h.recorded >= 1 && h.last <= now
    requires !InLock(p, h, now) && (now - h.last) * MS <= p.decay
    requires h.recorded % p.maxFailures + 1 >= p.maxFailures
    ensures Follows(p, Some(RowOf(p, h)), now, History(h.recorded + 1, now))
  {
    CountStep(h.recorded, p.maxFailures);
    CapIsInvisible(p, Cap(p), h.recorded / p.maxFailures + 1);
  }

  lemma {:induction false} NextFailureCounts(p: Policy, h: History, now: int)
    requires p.Valid() && h.recorded >= 1 && h.last <= now
    requires !InLock(p, h, now) && (now - h.last) * MS <= p.decay
    requires h.recorded % p.maxFailures + 1 < p.maxFailures
    ensures Follows(p, Some(RowOf(p, h)), now, History(h.recorded + 1, now))
  {
    CountStep(h.recorded, p.maxFailures);
  }

  lemma {:induction false} NextFailure(p: Policy, h: History, now: int)
    requires p.Valid() && h.recorded >= 1 && h.last <= now
    requires !InLock(p, h, now) && (now - h.last) * MS <= p.decay
    ensures Follows(p, Some(RowOf(p, h)), now, History(h.recorded + 1, now))
  {
    if h.recorded % p.maxFailures + 1 >= p.maxFailures {
      NextFailureLocks(p, h, now);
    } else {
      NextFailureCounts(p, h, now);
    }
  }

  /** One failure takes the row of a history to the row of the extended history,
      and the reply names a lock exactly when the extended history is in one: the
      k-th lock since the decay, of exactly min(base * 2^(k-1), max), begun by the
      (k * MaxFailures)-th recorded failure. */
  lemma {:induction false} FailureFollowsHistory(p: Policy, h: Option<History>, now: int)
    requires p.Valid() && (h.Some? ==> h.value.recorded >= 1 && h.value.last <= now)
    ensures Follows(p, if h.Some? then Some(RowOf(p, h.value)) else None, now, Extend(p, h, now))
  {
    if h.Some? && h.value.recorded % p.maxFailures == 0 {
      LocksAtLeastOne(h.value.recorded, p.maxFailures);
    }
    if h.None? {
      FreshFailure(p, None, now);
    } else if !InLock(p, h.value, now) {
      if (now - h.value.last) * MS > p.decay {
        FreshFailure(p, Some(RowOf(p, h.value)), now);
      } else {
        NextFailure(p, h.value, now);
      }
    }
  }

  /** A lock is never longer than the decay window, so waiting out a lock alone
      never resets the escalation. */
  lemma {:induction false} DecayLeavesLock(p: Policy, h: History, now: int)
    requires p.Valid() && h.recorded >= 1
    ensures InLock(p, h, now) ==> (now - h.last) * MS <= p.decay
    ensures h.recorded % p.maxFailures == 0 ==>
              var expiry := h.last + LockFor(p, h.recorded / p.maxFailures) / MS;
              (expiry - h.last) * MS <= p.decay && !InLock(p, h, expiry)
  {
    if h.recorded % p.maxFailures == 0 {
      LocksAtLeastOne(h.recorded, p.maxFailures);
      CapIsInvisible(p, Cap(p), h.recorded / p.maxFailures);
    }
  }

  // ----- whole runs of one account -----

  ghost predicate Monotone(times: seq<int>) {
    forall i, j :: 0 <= i <= j < |times| ==> times[i] <= times[j]
  }

  ghost function HistoryAfter(p: Policy, times: seq<int>): (h: Option<History>)
    requires p.Valid()
    ensures h.Some? ==> h.value.recorded >= 1
    ensures h.None? <==> times == []
  {
    if times == [] then None
    else Some(Extend(p, HistoryAfter(p, times[..|times| - 1]), times[|times| - 1]))
  }

  ghost function RowAfter(p: Policy, times: seq<int>): Option<Row>
    requires p.Valid()
  {
    if times == [] then None
    else Some(AfterFailure(p, RowAfter(p, times[..|times| - 1]), times[|times| - 1]).0)
  }

  /** For every run of failures in time order, with a fixed policy and no clear:
      the stored row is the row of the recorded history, its level is at most 18,
      it fits the schema, and the last reply follows the documented progression. */
  lemma {:induction false} Progression(p: Policy, times: seq<int>)
    requires p.Valid() && Monotone(times) && times != []
    ensures var h := HistoryAfter(p, times).value;
            && RowAfter(p, times) == Some(RowOf(p, h))
            && RowOf(p, h).lockLevel <= 18 && RowFitsSchema(RowOf(p, h))
            && h.last <= times[|times| - 1]
            && Follows(p, RowAfter(p, times[..|times| - 1]), times[|times| - 1], h)
  {
    var n := |times| - 1;
    var before := HistoryAfter(p, times[..n]);
    if n > 0 {
      Progression(p, times[..n]);
      assert times[..n][n - 1] <= times[n];
    }
    FailureFollowsHistory(p, before, times[n]);
    RowOfFits(p, HistoryAfter(p, times).value);
  }

  /** A query during a lock answers when the lock ends, and nothing otherwise: the lock begun
      by the latest recorded failure, if that completed a multiple of MaxFailures. */
  lemma {:induction false} QueryFollowsHistory(p: Policy, times: seq<int>, now: int)
    requires p.Valid() && Monotone(times)
    ensures times == [] ==> LockedUntil(RowAfter(p, times), now) == None
    ensures times != [] ==> var h := HistoryAfter(p, times).value;
      LockedUntil(RowAfter(p, times), now)
      == if InLock(p, h, now) then Some(h.last + LockFor(p, h.recorded / p.maxFailures) / MS) else None
  {
    if times != [] { Progression(p, times); }
  }

  lemma {:induction false} RowOfFits(p: Policy, h: History)
    requires p.Valid() && h.recorded >= 1
    ensures RowOf(p, h).lockLevel <= 18 && RowFitsSchema(RowOf(p, h))
  {
    DivModBounds(h.recorded, p.maxFailures);
    if h.recorded % p.maxFailures == 0 {
      LocksAtLeastOne(h.recorded, p.maxFailures);
      CapIsInvisible(p, Cap(p), h.recorded / p.maxFailures);
    }
  }

  // ----- purging is invisible -----

  datatype Op =
    | Fail(key: string, now: int)
    | Clear(key: string)
    | Query(key: string, now: int)
    | Purge(now: int)

  ghost predicate OpNotBefore(op: Op, clock: int) {
    op.Clear? || op.now >= clock
  }

  ghost function ClockAfter(op: Op, clock: int): int {
    if op.Clear? then clock else op.now
  }

  ghost function Apply(p: Policy, rows: map<string, Row>, op: Op): (map<string, Row>, Option<int>)
    requires p.Valid()
  {
    match op
    case Fail(key, now) =>
      var (row, reply) := AfterFailure(p, Lookup(rows, key), now);
      (rows[key := row], reply)
    case Clear(key) => (rows - {key}, None)
    case Query(key, now) => (rows, LockedUntil(Lookup(rows, key), now))
    case Purge(now) => (Purged(p, rows, now), None)
  }

  /** The replies to all operations other than purges, in order. */
  ghost function Replies(p: Policy, rows: map<string, Row>, ops: seq<Op>): seq<Option<int>>
    requires p.Valid()
    decreases |ops|
  {
    if ops == [] then []
    else
      var (next, reply) := Apply(p, rows, ops[0]);
      (if ops[0].Purge? then [] else [reply]) + Replies(p, next, ops[1..])
  }

  ghost function WithoutPurges(ops: seq<Op>): seq<Op> {
    if ops == [] then []
    else (if ops[0].Purge? then [] else [ops[0]]) + WithoutPurges(ops[1..])
  }

  ghost predicate InTimeOrder(ops: seq<Op>, clock: int)
    decreases |ops|
  {
    ops == [] || (OpNotBefore(ops[0], clock) && InTimeOrder(ops[1..], ClockAfter(ops[0], clock)))
  }

  ghost predicate WellFormedRow(p: Policy, row: Row) {
    row.lockedUntil.Some? ==> row.lockedUntil.value > row.lastFailure
  }

  /** `kept` holds the rows of `all`, except some that can no longer matter at `clock`. */
  ghost predicate Simulates(p: Policy, kept: map<string, Row>, all: map<string, Row>, clock: int) {
    && kept.Keys <= all.Keys
    && (forall k :: k in all ==> WellFormedRow(p, all[k]))
    && (forall k :: k in kept ==> kept[k] == all[k])
    && (forall k :: k in all && k !in kept ==> Purgeable(p, all[k], clock))
  }

  /** A purgeable row stays purgeable, is not locked, and counts for nothing. */
  lemma {:induction false} PurgeableIsDead(p: Policy, row: Row, clock: int, now: int)
    requires p.Valid() && WellFormedRow(p, row) && Purgeable(p, row, clock) && clock <= now
    ensures Purgeable(p, row, now)
    ensures !Locked(Some(row), now) && Decayed(p, row, now)
    ensures AfterFailure(p, Some(row), now) == AfterFailure(p, None, now)
  {
  }

  lemma {:induction false} AfterFailureWellFormed(p: Policy, row: Option<Row>, now: int)
    requires p.Valid() && (row.Some? ==> WellFormedRow(p, row.value))
    ensures WellFormedRow(p, AfterFailure(p, row, now).0)
  {
    var (count, level) := Counters(p, row, now);
    var raised: int := if level < Cap(p) then level + 1 else level;
    if raised >= 1 {
      CapIsInvisible(p, Cap(p), raised);
    }
  }

  lemma {:induction false} StepSimulates(p: Policy, kept: map<string, Row>, all: map<string, Row>, op: Op, clock: int)
    requires p.Valid() && Simulates(p, kept, all, clock) && OpNotBefore(op, clock) && !op.Purge?
    ensures Apply(p, kept, op).1 == Apply(p, all, op).1
    ensures Simulates(p, Apply(p, kept, op).0, Apply(p, all, op).0, ClockAfter(op, clock))
  {
    var now := ClockAfter(op, clock);
    forall k | k in all && k !in kept
      ensures Purgeable(p, all[k], now) && AfterFailure(p, Some(all[k]), now) == AfterFailure(p, None, now)
      ensures !Locked(Some(all[k]), now)
    {
      PurgeableIsDead(p, all[k], clock, now);
    }
    if op.Fail? {
      AfterFailureWellFormed(p, Lookup(all, op.key), now);
    }
  }

  lemma {:induction false} PurgeSimulation(p: Policy, kept: map<string, Row>, all: map<string, Row>, ops: seq<Op>, clock: int)
    requires p.Valid() && Simulates(p, kept, all, clock) && InTimeOrder(ops, clock)
    ensures Replies(p, kept, ops) == Replies(p, all, WithoutPurges(ops))
    decreases |ops|
  {
    if ops == [] { return; }
    var op, now := ops[0], ClockAfter(ops[0], clock);
    var next := Apply(p, kept, op).0;
    if op.Purge? {
      forall k | k in all && k !in kept ensures Purgeable(p, all[k], now) {
        PurgeableIsDead(p, all[k], clock, now);
      }
      PurgeSimulation(p, next, all, ops[1..], now);
      assert WithoutPurges(ops) == WithoutPurges(ops[1..]);
      assert Replies(p, kept, ops) == Replies(p, next, ops[1..]);
    } else {
      StepSimulates(p, kept, all, op, clock);
      var next' := Apply(p, all, op).0;
      PurgeSimulation(p, next, next', ops[1..], now);
      assert WithoutPurges(ops)[0] == op && WithoutPurges(ops)[1..] == WithoutPurges(ops[1..]);
    }
  }

  /** For every sequence of failures, clears and lock queries in time order, with
      purges anywhere in between: every reply is the one given without any purge. */
  lemma {:induction false} PurgingIsInvisible(p: Policy, ops: seq<Op>, start: int)
    requires p.Valid() && InTimeOrder(ops, start)
    ensures Replies(p, map[], ops) == Replies(p, map[], WithoutPurges(ops))
  {
    PurgeSimulation(p, map[], map[], ops, start);
  }

  // ----- and when the clock runs backwards -----

  /** A row as failures leave it behind. */
  ghost predicate Counting(p: Policy, row: Row)
    requires p.Valid()
  {
    && 0 <= row.failureCount < p.maxFailures && 0 <= row.lockLevel <= Cap(p)
    && (row.failureCount > 0 || row.lockLevel > 0)
  }

  /** The next operation on an account cannot tell its row from a missing one. */
  ghost predicate SameAsMissing(p: Policy, row: Row, now: int)
    requires p.Valid()
  {
    && AfterFailure(p, Some(row), now) == AfterFailure(p, None, now)
    && LockedUntil(Some(row), now) == LockedUntil(None, now)
  }

  /** The counters of an undecayed row mean nothing: one failure locks and locks never grow. */
  predicate Memoryless(p: Policy) {
    p.maxFailures == 1 && p.baseLock == p.maxLock
  }

  lemma {:induction false} CountingShows(p: Policy, row: Row, now: int)
    requires p.Valid() && Counting(p, row)
    ensures SameAsMissing(p, row, now) <==> !Locked(Some(row), now) && (Decayed(p, row, now) || Memoryless(p))
  {
    FlatExactly(p);
    if !Locked(Some(row), now) && !Decayed(p, row, now) {
      assert AfterFailure(p, None, now).0 == if 1 < p.maxFailures then Row(1, 0, None, now)
                                             else Row(0, 1, Some((now * MS + LockFor(p, 1)) / MS), now);
    }
  }

  lemma {:induction false} FlatExactly(p: Policy)
    requires p.Valid()
    ensures Cap(p) == 1 <==> p.baseLock == p.maxLock
  {
    assert Pow2(0) == 1;
    if p.baseLock == p.maxLock {
      assert IsMaxLevel(p, 1);
      MaxLevelUnique(p, 1, Cap(p));
    }
  }

  lemma {:induction false} FailureKeepsCounting(p: Policy, row: Option<Row>, now: int)
    requires p.Valid() && (row.Some? ==> Counting(p, row.value))
    ensures Counting(p, AfterFailure(p, row, now).0)
  {
  }

  /** The rows after some operations, whatever the clock did meanwhile. */
  ghost function RowsAfter(p: Policy, rows: map<string, Row>, ops: seq<Op>): map<string, Row>
    requires p.Valid()
    decreases |ops|
  {
    if ops == [] then rows else RowsAfter(p, Apply(p, rows, ops[0]).0, ops[1..])
  }

  ghost predicate AllCounting(p: Policy, rows: map<string, Row>)
    requires p.Valid()
  {
    forall key :: key in rows ==> Counting(p, rows[key])
  }

  /** Every row a store can hold counts something. */
  lemma {:induction false} EveryRowCounts(p: Policy, rows: map<string, Row>, ops: seq<Op>)
    requires p.Valid() && AllCounting(p, rows)
    ensures AllCounting(p, RowsAfter(p, rows, ops))
    decreases |ops|
  {
    if ops != [] {
      if ops[0].Fail? { FailureKeepsCounting(p, Lookup(rows, ops[0].key), ops[0].now); }
      EveryRowCounts(p, Apply(p, rows, ops[0]).0, ops[1..]);
    }
  }

  /** The next failure or query of an account gets the same reply and leaves the same row. */
  ghost predicate NextIsSame(p: Policy, rows: map<string, Row>, others: map<string, Row>, key: string, now: int)
    requires p.Valid()
  {
    && AfterFailure(p, Lookup(rows, key), now) == AfterFailure(p, Lookup(others, key), now)
    && LockedUntil(Lookup(rows, key), now) == LockedUntil(Lookup(others, key), now)
  }

  /** Exactly when a purge goes unnoticed, whatever the clock does: after any operations and
      a purge at `clock`, the next operation on an account at `now` differs if and only if
      the purge took a row that is locked at `now`, or that has not decayed by then and
      whose counters mean something. */
  lemma {:induction false} ForgettingIsInvisibleExactly(p: Policy, ops: seq<Op>, clock: int, key: string, now: int)
    requires p.Valid()
    ensures var rows := RowsAfter(p, map[], ops);
      NextIsSame(p, rows, Purged(p, rows, clock), key, now)
      <==> key !in rows || !Purgeable(p, rows[key], clock)
           || (!Locked(Some(rows[key]), now) && (Decayed(p, rows[key], now) || Memoryless(p)))
  {
    var rows := RowsAfter(p, map[], ops);
    EveryRowCounts(p, map[], ops);
    if key in rows {
      CountingShows(p, rows[key], now);
    }
  }

  /** An instant at which a failure recorded at `start` and its lock are past. */
  function LongAfter(p: Policy, start: int): int {
    start + (p.maxLock + p.decay) / MS + 2
  }

  /** Time order is needed: a purge seen by a clock that later runs backwards forgets a
      lock, all operation times being valid ones. */
  lemma {:induction false} PurgeThenClockBack(p: Policy, key: string, start: int)
    requires p.Valid() && p.maxFailures == 1 && ValidInstant(start) && ValidInstant(LongAfter(p, start))
    ensures var ops := [Fail(key, start), Purge(LongAfter(p, start)), Query(key, start)];
            Replies(p, map[], ops) != Replies(p, map[], WithoutPurges(ops))
  {
    var late := LongAfter(p, start);
    var ops := [Fail(key, start), Purge(late), Query(key, start)];
    CapIsInvisible(p, Cap(p), 1);
    var (row, reply) := AfterFailure(p, None, start);
    assert row.lockedUntil == Some((start * MS + LockFor(p, 1)) / MS) && row.lockedUntil.value > start;
    var rows: map<string, Row> := map[key := row];
    assert Apply(p, map[], ops[0]).0 == rows;
    assert Purgeable(p, row, late);
    assert Purged(p, rows, late) == map[];
    var rest, last := [Purge(late), Query(key, start)], [Query(key, start)];
    assert ops[1..] == rest && rest[1..] == last && last[1..] == [];
    assert Replies(p, map[], last) == [None];
    assert Replies(p, rows, rest) == [] + Replies(p, map[], last);
    assert Replies(p, map[], ops) == [reply, None];
    assert WithoutPurges(last) == last;
    assert WithoutPurges(rest) == [] + last;
    var quiet := [Fail(key, start), Query(key, start)];
    assert WithoutPurges(ops) == quiet && quiet[1..] == last;
    assert Replies(p, rows, last) == [row.lockedUntil];
    assert Replies(p, map[], quiet) == [reply, row.lockedUntil];
  }
}
