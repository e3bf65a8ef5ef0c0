/** Running account balances kept with checked 64-bit arithmetic, and the
    forward-filled balance history drawn from them. */
module Balances {
  import opened Options
  import opened Sums
  import opened Checked
  import opened Bytes

  /** A stored date: an ordered key whose day is what the history shows. */
  datatype Date = Date(day: int, clock: int)

  /** A transaction row; `amount` is the archive amount where there is one. */
  datatype Row = Row(account: Data, date: Date, income: bool, amount: Int64, balance: Int64)

  type Table = map<int, Row>

  /** Earlier in (date, id) order. */
  predicate Before(t: Table, i: int, j: int)
    requires i in t && j in t
  {
    var a, b := t[i].date, t[j].date;
    a.day < b.day || (a.day == b.day && (a.clock < b.clock || (a.clock == b.clock && i < j)))
  }

  function Signed(t: Table, id: int): int {
    if id !in t then 0
    else
      var amount: int := t[id].amount;
      if t[id].income then amount else -amount
  }

  ghost function SignedIn(t: Table): int -> int {
    id => Signed(t, id)
  }

  function Upto(t: Table, id: int): set<int>
    requires id in t
  {
    set j | j in t && t[j].account == t[id].account && (j == id || Before(t, j, id))
  }

  /** The exact signed sum of the account's rows up to and including this one. */
  ghost function PrefixSum(t: Table, id: int): int
    requires id in t
  {
    Sum(Upto(t, id), SignedIn(t))
  }

  ghost function AmountIn(t: Table): int -> int {
    id => if id in t then t[id].amount else 0
  }

  /** A prefix sum is all income up to the row less all expense. */
  lemma {:induction false} PrefixSumIs(t: Table, id: int)
    requires id in t
    ensures var earned := set j | j in Upto(t, id) && j in t && t[j].income;
      PrefixSum(t, id) == Sum(earned, AmountIn(t)) - Sum(Upto(t, id) - earned, AmountIn(t))
  {
    var earned := set j | j in Upto(t, id) && j in t && t[j].income;
    var spent := Upto(t, id) - earned;
    SumUnion(earned, spent, SignedIn(t));
    assert earned + spent == Upto(t, id);
    SumCongruent(earned, SignedIn(t), AmountIn(t));
    SumNegated(spent, SignedIn(t), AmountIn(t));
  }

  /** Every stored balance is the prefix sum of its account. */
  ghost predicate Balanced(t: Table) {
    forall id :: id in t ==> t[id].balance == PrefixSum(t, id)
  }

  ghost predicate AccountFits(t: Table, account: Data) {
    forall id :: id in t && t[id].account == account ==> Fits(PrefixSum(t, id))
  }

  ghost predicate AllFit(t: Table, accounts: set<Data>) {
    forall a :: a in accounts ==> AccountFits(t, a)
  }

  /** The table with the balances of some accounts recomputed. */
  ghost function Settled(t: Table, accounts: set<Data>): Table
    requires AllFit(t, accounts)
  {
    map id | id in t ::
      if t[id].account in accounts then
        assert AccountFits(t, t[id].account); t[id].(balance := PrefixSum(t, id))
      else t[id]
  }

  predicate SameEntry(r: Row, s: Row) {
    r.(balance := s.balance) == s
  }

  /** Two tables hold the same rows of an account, balances aside. */
  ghost predicate SameAccount(t: Table, u: Table, account: Data) {
    forall id ::
      && ((id in t && t[id].account == account) <==> (id in u && u[id].account == account))
      && (id in t && t[id].account == account ==> SameEntry(t[id], u[id]))
  }

  /** A prefix sum depends on nothing but the entries of its own account. */
  lemma {:induction false} PrefixSumIsLocal(t: Table, u: Table, id: int)
    requires id in t && SameAccount(t, u, t[id].account)
    ensures id in u && PrefixSum(t, id) == PrefixSum(u, id)
  {
    assert SameEntry(t[id], u[id]);
    assert Upto(t, id) == Upto(u, id);
    SumCongruent(Upto(t, id), SignedIn(t), SignedIn(u));
  }

  lemma {:induction false} FitsIsLocal(t: Table, u: Table, account: Data)
    requires SameAccount(t, u, account) && AccountFits(t, account)
    ensures AccountFits(u, account)
  {
    forall id | id in u && u[id].account == account ensures Fits(PrefixSum(u, id)) {
      PrefixSumIsLocal(t, u, id);
    }
  }

  lemma {:induction false} SettledIsSame(t: Table, accounts: set<Data>, account: Data)
    requires AllFit(t, accounts)
    ensures SameAccount(t, Settled(t, accounts), account) && SameAccount(Settled(t, accounts), t, account)
  {
  }

  /** Recomputing account after account is recomputing them all at once, and fails
      at the first account that does not fit. */
  lemma {:induction false} SettleOneMore(t: Table, accounts: set<Data>, account: Data)
    requires AllFit(t, accounts)
    ensures AccountFits(Settled(t, accounts), account) <==> AccountFits(t, account)
    ensures AccountFits(t, account) ==>
      && AllFit(t, accounts + {account}) && AllFit(Settled(t, accounts), {account})
      && Settled(Settled(t, accounts), {account}) == Settled(t, accounts + {account})
  {
    var u := Settled(t, accounts);
    SettledIsSame(t, accounts, account);
    if AccountFits(t, account) { FitsIsLocal(t, u, account); }
    if AccountFits(u, account) { FitsIsLocal(u, t, account); }
    if AccountFits(t, account) {
      forall id | id in t ensures Settled(u, {account})[id] == Settled(t, accounts + {account})[id] {
        if t[id].account == account { PrefixSumIsLocal(t, u, id); }
      }
    }
  }

  /** The heart of every write: settle the accounts an edit touched, and a
      balanced table is balanced again. */
  lemma {:induction false} SettlingRestoresBalance(before: Table, edited: Table, touched: set<Data>)
    requires Balanced(before) && AllFit(edited, touched)
    requires forall a :: a !in touched ==> SameAccount(before, edited, a)
    requires forall id :: id in edited && edited[id].account !in touched ==> id in before && edited[id] == before[id]
    ensures Balanced(Settled(edited, touched))
  {
    var after := Settled(edited, touched);
    forall id | id in after ensures after[id].balance == PrefixSum(after, id) {
      var account := after[id].account;
      SettledIsSame(edited, touched, account);
      PrefixSumIsLocal(edited, after, id);
      if account !in touched {
        PrefixSumIsLocal(before, edited, id);
      }
    }
  }

  // ----- the writes -----

  datatype Write =
    | Add(id: int, row: Row)
    | Update(id: int, row: Row)
    | Delete(id: int)
    | Import(rows: Table, replace: bool)

  /** New rows take ids no row has. */
  predicate FreshIds(t: Table, w: Write) {
    match w
    case Add(id, _) => id !in t
    case Import(rows, _) => rows.Keys !! t.Keys
    case _ => true
  }

  /** The rows before balances are recomputed; `None` when the row is missing. */
  function Edited(t: Table, w: Write): Option<Table> {
    match w
    case Add(id, row) => Some(t[id := row.(balance := 0)])
    case Update(id, row) => if id in t then Some(t[id := row.(balance := t[id].balance)]) else None
    case Delete(id) => if id in t then Some(t - {id}) else None
    case Import(rows, replace) => Some((if replace then map[] else t) + Zeroed(rows))
  }

  function Zeroed(rows: Table): Table {
    map id | id in rows :: rows[id].(balance := 0)
  }

  /** The accounts whose balances the write recomputes. */
  function Touched(t: Table, w: Write): set<Data> {
    match w
    case Add(_, row) => {row.account}
    case Update(id, row) => if id in t then {row.account, t[id].account} else {}
    case Delete(id) => if id in t then {t[id].account} else {}
    case Import(rows, _) => Accounts(rows)
  }

  function Accounts(t: Table): set<Data> {
    set id | id in t :: t[id].account
  }

  ghost predicate Commits(t: Table, w: Write) {
    Edited(t, w).Some? && AllFit(Edited(t, w).value, Touched(t, w))
  }

  /** A write commits with its balances recomputed or leaves the ledger as it was. */
  ghost function Next(t: Table, w: Write): Table {
    if Commits(t, w) then Settled(Edited(t, w).value, Touched(t, w)) else t
  }

  // ----- which rows a write leaves -----

  /** These rows are as before, balances aside. */
  ghost predicate Kept(before: Table, after: Table, ids: set<int>) {
    forall id :: id in ids && id in before ==> id in after && SameEntry(before[id], after[id])
  }

  /** The rows a write leaves, balances aside: the given row under its id, or no row there,
      or the imported rows; and every other row as it was, unless all are replaced. */
  ghost predicate Leaves(before: Table, w: Write, after: Table) {
    match w
    case Add(id, row) =>
      after.Keys == before.Keys + {id} && id in after && SameEntry(row, after[id]) && Kept(before, after, before.Keys - {id})
    case Update(id, row) =>
      after.Keys == before.Keys && id in after && SameEntry(row, after[id]) && Kept(before, after, before.Keys - {id})
    case Delete(id) =>
      id in before && after.Keys == before.Keys - {id} && Kept(before, after, before.Keys - {id})
    case Import(rows, replace) =>
      && after.Keys == rows.Keys + (if replace then {} else before.Keys)
      && Kept(rows, after, rows.Keys) && (!replace ==> Kept(before, after, before.Keys - rows.Keys))
  }

  lemma {:induction false} EditLeaves(t: Table, w: Write)
    requires Edited(t, w).Some?
    ensures Leaves(t, w, Edited(t, w).value)
  {
  }

  lemma {:induction false} SettlingLeaves(t: Table, w: Write, edited: Table, accounts: set<Data>)
    requires Leaves(t, w, edited) && AllFit(edited, accounts)
    ensures Leaves(t, w, Settled(edited, accounts))
  {
    var after := Settled(edited, accounts);
    assert after.Keys == edited.Keys;
    assert forall id :: id in edited ==> id in after && SameEntry(edited[id], after[id]);
  }

  /** A committed write leaves exactly the rows it says. */
  lemma {:induction false} WriteLeaves(t: Table, w: Write)
    requires Commits(t, w)
    ensures Leaves(t, w, Next(t, w))
  {
    EditLeaves(t, w);
    SettlingLeaves(t, w, Edited(t, w).value, Touched(t, w));
  }

  ghost predicate SameRows(t: Table, u: Table) {
    t.Keys == u.Keys && forall id :: id in t ==> id in u && SameEntry(t[id], u[id])
  }

  lemma {:induction false} LeavesSameRows(before: Table, w: Write, t: Table, u: Table)
    requires Leaves(before, w, t) && Leaves(before, w, u)
    ensures SameRows(t, u)
  {
    forall id | id in t ensures id in u && SameEntry(t[id], u[id]) {
      assert id in t.Keys && id in u.Keys;
    }
  }

  lemma {:induction false} SameRowsSameSums(t: Table, u: Table, id: int)
    requires SameRows(t, u) && id in t
    ensures id in u && PrefixSum(t, id) == PrefixSum(u, id)
  {
    assert forall k :: k in t <==> k in t.Keys;
    assert forall k :: k in u <==> k in u.Keys;
    PrefixSumIsLocal(t, u, id);
  }

  ghost predicate EverySumFits(t: Table) {
    forall id :: id in t ==> Fits(PrefixSum(t, id))
  }

  lemma {:induction false} UntouchedFit(t: Table, w: Write, id: int)
    requires Balanced(t) && FreshIds(t, w) && Edited(t, w).Some? && id in Edited(t, w).value
    requires Edited(t, w).value[id].account !in Touched(t, w)
    ensures Fits(PrefixSum(Edited(t, w).value, id))
  {
    var edited := Edited(t, w).value;
    if !(w.Import? && w.replace) {
      EditIsLocal(t, w, edited[id].account);
      PrefixSumIsLocal(t, edited, id);
    }
  }

  /** When a write commits: the row it names is there, and in the rows it leaves every
      prefix sum is within 64 bits. */
  lemma {:induction false} CommitsExactly(t: Table, w: Write)
    requires Balanced(t) && FreshIds(t, w)
    ensures Commits(t, w) <==>
      (w.Update? || w.Delete? ==> w.id in t) && forall after :: Leaves(t, w, after) ==> EverySumFits(after)
  {
    if w.Update? || w.Delete? ==> w.id in t {
      var edited := Edited(t, w).value;
      EditLeaves(t, w);
      if Commits(t, w) {
        forall after, id | Leaves(t, w, after) && id in after ensures Fits(PrefixSum(after, id)) {
          LeavesSameRows(t, w, after, edited);
          SameRowsSameSums(after, edited, id);
          if edited[id].account in Touched(t, w) {
            assert AccountFits(edited, edited[id].account);
          } else {
            UntouchedFit(t, w, id);
          }
        }
      }
    }
  }

  lemma {:induction false} EditIsLocal(t: Table, w: Write, a: Data)
    requires FreshIds(t, w) && Edited(t, w).Some? && a !in Touched(t, w)
    requires w.Import? ==> !w.replace
    ensures SameAccount(t, Edited(t, w).value, a)
  {
    if w.Import? {
      var edited := Edited(t, w).value;
      forall id | id in edited && id !in t ensures edited[id].account in Touched(t, w) {
        assert edited[id] == Zeroed(w.rows)[id];
      }
    }
  }

  lemma {:induction false} WriteKeepsBalanced(t: Table, w: Write)
    requires Balanced(t) && FreshIds(t, w)
    ensures Balanced(Next(t, w))
  {
    if Commits(t, w) {
      var edited, touched := Edited(t, w).value, Touched(t, w);
      if w.Import? && w.replace {
        assert edited == Zeroed(w.rows);
        assert forall id :: id in edited ==> edited[id].account == w.rows[id].account;
        SettlingRestoresBalance(map[], edited, touched);
      } else {
        forall a | a !in touched ensures SameAccount(t, edited, a) {
          EditIsLocal(t, w, a);
        }
        SettlingRestoresBalance(t, edited, touched);
      }
    }
  }

  lemma {:induction false} WriteMeans(t: Table, w: Write)
    requires FreshIds(t, w)
    ensures Commits(t, w) ==> Leaves(t, w, Next(t, w))
    ensures Balanced(t) ==> Balanced(Next(t, w))
    ensures Balanced(t) ==>
      (Commits(t, w) <==> (w.Update? || w.Delete? ==> w.id in t) && forall after :: Leaves(t, w, after) ==> EverySumFits(after))
  {
    if Commits(t, w) { WriteLeaves(t, w); }
    if Balanced(t) {
      WriteKeepsBalanced(t, w);
      CommitsExactly(t, w);
    }
  }

  ghost predicate IsRun(tables: seq<Table>, writes: seq<Write>) {
    && |tables| == |writes| + 1
    && forall k :: 0 <= k < |writes| ==> FreshIds(tables[k], writes[k]) && tables[k + 1] == Next(tables[k], writes[k])
  }

  /** Over any run of writes from a balanced ledger, every stored balance is the
      exact prefix sum of its account in (date, id) order. */
  lemma {:induction false} EveryStateBalanced(tables: seq<Table>, writes: seq<Write>, k: nat)
    requires IsRun(tables, writes) && Balanced(tables[0]) && k < |tables|
    ensures Balanced(tables[k])
  {
    if k > 0 {
      EveryStateBalanced(tables, writes, k - 1);
      WriteKeepsBalanced(tables[k - 1], writes[k - 1]);
    }
  }

  // ----- rows in query order -----

  ghost predicate InOrder(t: Table, s: seq<int>) {
    && (forall k :: 0 <= k < |s| ==> s[k] in t)
    && forall i, j :: 0 <= i < j < |s| ==> Before(t, s[i], s[j])
  }

  function Elements(s: seq<int>): set<int> {
    set k | 0 <= k < |s| :: s[k]
  }

  lemma {:induction false} OneMoreElement(s: seq<int>, k: nat)
    requires k < |s|
    ensures Elements(s[..k + 1]) == Elements(s[..k]) + {s[k]}
  {
    forall x | x in Elements(s[..k + 1]) ensures x in Elements(s[..k]) + {s[k]} {
      var i :| 0 <= i < k + 1 && s[..k + 1][i] == x;
      assert i < k ==> s[..k][i] == x;
    }
    forall x | x in Elements(s[..k]) ensures x in Elements(s[..k + 1]) {
      var i :| 0 <= i < k && s[..k][i] == x;
      assert s[..k + 1][i] == x;
    }
    assert s[..k + 1][k] == s[k];
  }

  /** The first of some rows in (date, id) order. */
  method First(t: Table, ids: set<int>) returns (id: int)
    requires ids <= t.Keys && ids != {}
    ensures id in ids && forall j :: j in ids ==> j == id || Before(t, id, j)
  {
    ghost var some: int := Pick(ids);
    assert some in ids;
    id :| id in ids;
    var rest := ids - {id};
    while rest != {}
      invariant rest <= ids && id in ids
      invariant forall j :: j in ids && j !in rest ==> j == id || Before(t, id, j)
      decreases rest
    {
      ghost var other: int := Pick(rest);
      assert other in rest;
      var j :| j in rest;
      if Before(t, j, id) {
        id := j;
      }
      rest := rest - {j};
    }
  }

  /** SELECT … ORDER BY date, id. */
  method Select(t: Table, ids: set<int>) returns (s: seq<int>)
    requires ids <= t.Keys
    ensures InOrder(t, s) && Elements(s) == ids
  {
    s := [];
    var rest := ids;
    while rest != {}
      invariant rest <= ids && InOrder(t, s) && Elements(s) == ids - rest
      invariant forall i, j :: 0 <= i < |s| && j in rest ==> s[i] in t && Before(t, s[i], j)
      decreases rest
    {
      var id := First(t, rest);
      assert (s + [id])[..|s|] == s;
      OneMoreElement(s + [id], |s|);
      assert (s + [id])[..|s| + 1] == s + [id];
      s := s + [id];
      rest := rest - {id};
    }
  }

  lemma {:induction false} OrderIsIndex(t: Table, s: seq<int>, i: nat, k: nat)
    requires InOrder(t, s) && i < |s| && k < |s|
    requires s[i] == s[k] || Before(t, s[i], s[k])
    ensures i <= k
  {
  }

  /** In query order the rows up to the k-th are the first k + 1. */
  lemma {:induction false} PrefixIsUpto(t: Table, account: Data, s: seq<int>, k: nat)
    requires InOrder(t, s) && k < |s| && Elements(s) == set j | j in t && t[j].account == account
    ensures s[k] in Elements(s) && Upto(t, s[k]) == Elements(s[..k + 1])
  {
    var x := s[k];
    assert x in Elements(s);
    forall j | j in Upto(t, x) ensures j in Elements(s[..k + 1]) {
      assert j in Elements(s);
      var i :| 0 <= i < |s| && s[i] == j;
      OrderIsIndex(t, s, i, k);
      assert s[..k + 1][i] == j;
    }
    forall j | j in Elements(s[..k + 1]) ensures j in Upto(t, x) {
      var i :| 0 <= i < k + 1 && s[..k + 1][i] == j;
      assert s[i] == j;
      assert j in Elements(s);
      assert i < k ==> Before(t, s[i], s[k]);
    }
  }

  lemma {:induction false} NotRepeated(t: Table, s: seq<int>, k: nat)
    requires InOrder(t, s) && k < |s|
    ensures s[k] !in Elements(s[..k])
  {
  }

  /** The rows of an account in query order. */
  ghost predicate Lists(t: Table, account: Data, s: seq<int>) {
    InOrder(t, s) && Elements(s) == set j | j in t && t[j].account == account
  }

  ghost function Running(t: Table, s: seq<int>, k: nat): int
    requires k <= |s|
  {
    Sum(Elements(s[..k]), SignedIn(t))
  }

  lemma {:induction false} NothingRunning(t: Table, s: seq<int>)
    ensures Running(t, s, 0) == 0
  {
    assert s[..0] == [];
  }

  /** The running balance after a row is its prefix sum. */
  lemma {:induction false} RunningStep(t: Table, account: Data, s: seq<int>, k: nat)
    requires Lists(t, account, s) && k < |s|
    ensures s[k] in t && t[s[k]].account == account
    ensures PrefixSum(t, s[k]) == Running(t, s, k) + Signed(t, s[k]) == Running(t, s, k + 1)
  {
    PrefixIsUpto(t, account, s, k);
    OneMoreElement(s, k);
    NotRepeated(t, s, k);
    SumOneMore(Elements(s[..k]), SignedIn(t), s[k]);
  }

  lemma {:induction false} AllListedFit(t: Table, account: Data, s: seq<int>)
    requires Lists(t, account, s)
    requires forall i :: 0 <= i < |s| ==> Fits(PrefixSum(t, s[i]))
    ensures AccountFits(t, account) && AllFit(t, {account})
  {
    forall id | id in t && t[id].account == account ensures Fits(PrefixSum(t, id)) {
      assert id in Elements(s);
      var i :| 0 <= i < |s| && s[i] == id;
      assert Fits(PrefixSum(t, s[i]));
    }
  }

  lemma {:induction false} ListedMisfit(t: Table, account: Data, s: seq<int>, k: nat)
    requires k < |s| && s[k] in t && t[s[k]].account == account && !Fits(PrefixSum(t, s[k]))
    ensures !AccountFits(t, account)
  {
  }

  /** Adds up an account in query order; fails exactly when some prefix sum leaves 64 bits. */
  method RunningBalances(t: Table, account: Data, s: seq<int>) returns (ok: bool, updates: seq<Int64>)
    requires Lists(t, account, s)
    ensures ok == AccountFits(t, account)
    ensures ok ==> AllFit(t, {account}) && |updates| == |s|
                   && forall i :: 0 <= i < |s| ==> s[i] in t && updates[i] == PrefixSum(t, s[i])
  {
    var running: Int64 := 0;
    updates := [];
    NothingRunning(t, s);
    for k := 0 to |s|
      invariant |updates| == k
      invariant running == Running(t, s, k)
      invariant forall i :: 0 <= i < k ==> s[i] in t && updates[i] == PrefixSum(t, s[i])
    {
      RunningStep(t, account, s, k);
      var row := t[s[k]];
      var next := if row.income then CheckedAdd(running, row.amount) else CheckedSub(running, row.amount);
      if next.None? {
        ListedMisfit(t, account, s, k);
        return false, [];
      }
      running := next.value;
      updates := updates + [running];
    }
    AllListedFit(t, account, s);
    return true, updates;
  }

  // ----- history -----

  function Through(t: Table, account: Data, day: int): set<int> {
    set j | j in t && t[j].account == account && t[j].date.day <= day
  }

  /** The sum of an account's transactions up to and including a day. */
  ghost function SumThrough(t: Table, account: Data, day: int): int {
    Sum(Through(t, account, day), SignedIn(t))
  }

  ghost predicate IsLatest(t: Table, ids: set<int>, id: int) {
    id in ids && ids <= t.Keys && forall j :: j in ids ==> j == id || Before(t, j, id)
  }

  /** The balance of the latest of some rows, zero when there is none. */
  ghost predicate IsLatestBalance(t: Table, ids: set<int>, value: int) {
    (ids == {} && value == 0) || exists id :: IsLatest(t, ids, id) && value == t[id].balance
  }

  lemma {:induction false} LatestIsSum(t: Table, account: Data, day: int, value: int)
    requires Balanced(t) && IsLatestBalance(t, Through(t, account, day), value)
    ensures value == SumThrough(t, account, day)
  {
    if Through(t, account, day) != {} {
      var id :| IsLatest(t, Through(t, account, day), id) && value == t[id].balance;
      assert Upto(t, id) == Through(t, account, day);
    }
  }

  /** The last of some rows, in query order, of an account on a day. */
  ghost function LastOn(t: Table, s: seq<int>, account: Data, day: int): Option<int>
    requires forall k :: 0 <= k < |s| ==> s[k] in t
  {
    if s == [] then None
    else
      var n := |s| - 1;
      if t[s[n]].account == account && t[s[n]].date.day == day then Some(s[n])
      else LastOn(t, s[..n], account, day)
  }

  lemma {:induction false} LastOnSnoc(t: Table, s: seq<int>, k: nat, account: Data, day: int)
    requires k < |s| && forall i :: 0 <= i < |s| ==> s[i] in t
    ensures LastOn(t, s[..k + 1], account, day)
         == if t[s[k]].account == account && t[s[k]].date.day == day then Some(s[k]) else LastOn(t, s[..k], account, day)
  {
    assert s[..k + 1][..k] == s[..k];
  }

  lemma {:induction false} LastOnIsLatest(t: Table, s: seq<int>, account: Data, day: int)
    requires InOrder(t, s)
    ensures var on := set j | j in Elements(s) && t[j].account == account && t[j].date.day == day;
            match LastOn(t, s, account, day)
            case None => on == {}
            case Some(id) => IsLatest(t, on, id)
  {
    if s != [] {
      var n := |s| - 1;
      LastOnIsLatest(t, s[..n], account, day);
      OneMoreElement(s, n);
      assert s[..n + 1] == s;
      forall j | j in Elements(s[..n]) ensures Before(t, j, s[n]) {
        var i :| 0 <= i < n && s[..n][i] == j;
        assert s[i] == j;
      }
    }
  }

  /** One step of the forward fill: a listed day either has rows of the account,
      whose last one is the latest so far, or changes nothing. */
  lemma {:induction false} FillStep(t: Table, s: seq<int>, account: Data, day: int, previous: set<int>, last: int)
    requires InOrder(t, s) && Elements(s) == t.Keys
    requires previous == set j | j in t && t[j].account == account && t[j].date.day < day
    requires IsLatestBalance(t, previous, last)
    ensures LastOn(t, s, account, day).None? ==> IsLatestBalance(t, Through(t, account, day), last)
    ensures LastOn(t, s, account, day).Some? ==>
      && LastOn(t, s, account, day).value in t
      && IsLatestBalance(t, Through(t, account, day), t[LastOn(t, s, account, day).value].balance)
  {
    LastOnIsLatest(t, s, account, day);
    var on := set j | j in Elements(s) && t[j].account == account && t[j].date.day == day;
    match LastOn(t, s, account, day)
    case None =>
      forall j | j in Through(t, account, day) ensures j in previous {
        assert j !in on;
      }
      assert Through(t, account, day) == previous;
    case Some(id) =>
      assert id in on;
      forall j | j in Through(t, account, day) ensures j == id || Before(t, j, id) {
        if t[j].date.day == day { assert j in on; }
      }
      assert IsLatest(t, Through(t, account, day), id);
  }

  ghost predicate StrictlySorted(s: seq<int>) {
    forall i, j :: 0 <= i < j < |s| ==> s[i] < s[j]
  }

  lemma {:induction false} SmallerIsEarlier(s: seq<int>, i: nat, k: nat)
    requires StrictlySorted(s) && i < |s| && k < |s| && s[i] < s[k]
    ensures i < k && s[i] <= s[k - 1]
  {
  }

  method SortDays(days: set<int>) returns (s: seq<int>)
    ensures StrictlySorted(s) && Elements(s) == days
  {
    s := [];
    var rest := days;
    while rest != {}
      invariant rest <= days && StrictlySorted(s) && Elements(s) == days - rest
      invariant forall i, d :: 0 <= i < |s| && d in rest ==> s[i] < d
      decreases rest
    {
      var least := Least(rest);
      assert (s + [least])[..|s|] == s;
      OneMoreElement(s + [least], |s|);
      assert (s + [least])[..|s| + 1] == s + [least];
      s := s + [least];
      rest := rest - {least};
    }
  }

  method Least(days: set<int>) returns (d: int)
    requires days != {}
    ensures d in days && forall x :: x in days ==> d <= x
  {
    ghost var some: int := Pick(days);
    assert some in days;
    d :| d in days;
    var rest := days - {d};
    while rest != {}
      invariant rest <= days && d in days
      invariant forall x :: x in days && x !in rest ==> d <= x
      decreases rest
    {
      ghost var other: int := Pick(rest);
      assert other in rest;
      var x :| x in rest;
      if x < d { d := x; }
      rest := rest - {x};
    }
  }

  function Days(t: Table): set<int> {
    set id | id in t :: t[id].date.day
  }

  /** Between two neighbouring listed days there is no row. */
  lemma {:induction false} EarlierIsPrevious(t: Table, account: Data, dates: seq<int>, i: nat)
    requires StrictlySorted(dates) && Elements(dates) == Days(t) && i < |dates|
    ensures (set j | j in t && t[j].account == account && t[j].date.day < dates[i])
         == if i == 0 then {} else Through(t, account, dates[i - 1])
  {
    forall j | j in t && t[j].account == account && t[j].date.day < dates[i]
      ensures i > 0 && t[j].date.day <= dates[i - 1]
    {
      var day := t[j].date.day;
      assert day in Days(t);
      var k :| 0 <= k < |dates| && dates[k] == day;
      SmallerIsEarlier(dates, k, i);
    }
  }

  // ----- the tables as the code updates them -----

  class Ledger {
    var rows: Table

    constructor ()
      ensures rows == map[]
    {
      rows := map[];
    }

    /** Recomputes one account, or changes nothing when some balance overflows. */
    method Recalculate(account: Data) returns (ok: bool)
      modifies this
      ensures ok == AccountFits(old(rows), account)
      ensures ok ==> AllFit(old(rows), {account}) && rows == Settled(old(rows), {account})
      ensures !ok ==> rows == old(rows)
    {
      var s := Select(rows, set j | j in rows && rows[j].account == account);
      var updates;
      ok, updates := RunningBalances(rows, account, s);
      if ok {
        WriteUpdates(account, s, updates);
      }
    }

    /** The UPDATE statements, one per row. */
    method WriteUpdates(account: Data, s: seq<int>, updates: seq<Int64>)
      requires |updates| == |s| && InOrder(rows, s) && AllFit(rows, {account})
      requires Elements(s) == set j | j in rows && rows[j].account == account
      requires forall i :: 0 <= i < |s| ==> updates[i] == PrefixSum(rows, s[i])
      modifies this
      ensures rows == Settled(old(rows), {account})
    {
      var t := rows;
      for k := 0 to |s|
        invariant rows.Keys == t.Keys
        invariant forall id :: id in t ==>
          rows[id] == if id in Elements(s[..k]) then t[id].(balance := Settled(t, {account})[id].balance) else t[id]
      {
        OneMoreElement(s, k);
        assert s[k] in Elements(s);
        rows := rows[s[k] := rows[s[k]].(balance := updates[k])];
      }
      assert s[..|s|] == s;
      forall id | id in t ensures rows[id] == Settled(t, {account})[id] {
        assert id in Elements(s) <==> t[id].account == account;
      }
    }

    method RecalculateAll(accounts: set<Data>) returns (ok: bool)
      modifies this
      ensures ok == AllFit(old(rows), accounts)
      ensures ok ==> rows == Settled(old(rows), accounts)
    {
      var rest := accounts;
      ghost var done: set<Data> := {};
      assert rows == Settled(rows, {});
      while rest != {}
        invariant rest + done == accounts && rest !! done
        invariant AllFit(old(rows), done) && rows == Settled(old(rows), done)
        decreases rest
      {
        var account :| account in rest;
        SettleOneMore(old(rows), done, account);
        ok := Recalculate(account);
        if !ok { return; }
        done := done + {account};
        rest := rest - {account};
      }
      assert done == accounts;
      return true;
    }

    /** Runs one write: edits the rows, recomputes the touched accounts, and rolls
        everything back when a balance does not fit. */
    method Apply(w: Write) returns (ok: bool)
      requires FreshIds(rows, w)
      modifies this
      ensures ok == Commits(old(rows), w)
      ensures rows == Next(old(rows), w)
      ensures ok ==> Leaves(old(rows), w, rows)
      ensures !ok ==> rows == old(rows)
      ensures Balanced(old(rows)) ==> Balanced(rows)
      ensures Balanced(old(rows)) ==>
        (ok <==> (w.Update? || w.Delete? ==> w.id in old(rows)) && forall after :: Leaves(old(rows), w, after) ==> EverySumFits(after))
    {
      WriteMeans(rows, w);
      ghost var t := rows;
      var saved := rows;
      match w {
        case Add(id, row) =>
          rows := rows[id := row.(balance := 0)];
          ok := RecalculateAll({row.account});
        case Update(id, row) =>
          if id !in rows { return false; }
          var oldAccount := rows[id].account;
          rows := rows[id := row.(balance := rows[id].balance)];
          ok := RecalculateAll({row.account, oldAccount});
        case Delete(id) =>
          if id !in rows { return false; }
          var account := rows[id].account;
          rows := rows - {id};
          ok := RecalculateAll({account});
        case Import(imported, replace) =>
          rows := (if replace then map[] else rows) + Zeroed(imported);
          ok := RecalculateAll(Accounts(imported));
      }
      if !ok { rows := saved; }
    }

    method BalanceHistory() returns (accounts: set<Data>, dates: seq<int>, balances: map<Data, seq<Int64>>)
      ensures accounts == Accounts(rows) && balances.Keys == accounts
      ensures StrictlySorted(dates) && Elements(dates) == Days(rows)
      ensures forall a :: a in accounts ==> |balances[a]| == |dates|
      ensures forall a, i :: a in accounts && 0 <= i < |dates| ==>
                IsLatestBalance(rows, Through(rows, a, dates[i]), balances[a][i])
      ensures Balanced(rows) ==> forall a, i :: a in accounts && 0 <= i < |dates| ==>
                balances[a][i] == SumThrough(rows, a, dates[i])
    {
      var s := Select(rows, rows.Keys);
      var lastOn := GroupByDay(s);
      dates := SortDays(Days(rows));
      accounts := Accounts(rows);
      balances := map[];
      var rest := accounts;
      while rest != {}
        invariant rest <= accounts && balances.Keys == accounts - rest
        invariant forall a :: a in balances ==> |balances[a]| == |dates|
        invariant forall a, i :: a in balances && 0 <= i < |dates| ==>
                    IsLatestBalance(rows, Through(rows, a, dates[i]), balances[a][i])
        decreases rest
      {
        var account :| account in rest;
        var filled := Fill(account, s, lastOn, dates);
        balances := balances[account := filled];
        rest := rest - {account};
      }
      if Balanced(rows) {
        forall a, i | a in accounts && 0 <= i < |dates| ensures balances[a][i] == SumThrough(rows, a, dates[i]) {
          LatestIsSum(rows, a, dates[i], balances[a][i]);
        }
      }
    }

    /** The last balance of each account on each day it has rows. */
    method GroupByDay(s: seq<int>) returns (m: map<Data, map<int, Int64>>)
      requires InOrder(rows, s)
      ensures forall a, d :: Recorded(m, a, d) == BalanceOf(LastOn(rows, s, a, d))
    {
      m := map[];
      for k := 0 to |s|
        invariant forall a, d :: Recorded(m, a, d) == BalanceOf(LastOn(rows, s[..k], a, d))
      {
        var row := rows[s[k]];
        forall a, d ensures LastOn(rows, s[..k + 1], a, d)
          == if row.account == a && row.date.day == d then Some(s[k]) else LastOn(rows, s[..k], a, d)
        {
          LastOnSnoc(rows, s, k, a, d);
        }
        var days := if row.account in m then m[row.account] else map[];
        ghost var before := m;
        m := m[row.account := days[row.date.day := row.balance]];
        forall a, d ensures Recorded(m, a, d) == BalanceOf(LastOn(rows, s[..k + 1], a, d)) {
          assert Recorded(m, a, d) == if row.account == a && row.date.day == d then Some(row.balance) else Recorded(before, a, d);
        }
      }
      assert s[..|s|] == s;
    }

    function BalanceOf(id: Option<int>): Option<Int64>
      reads this
    {
      if id.Some? && id.value in rows then Some(rows[id.value].balance) else None
    }

    /** Carries the last balance over days without rows. */
    method Fill(account: Data, s: seq<int>, m: map<Data, map<int, Int64>>, dates: seq<int>)
      returns (filled: seq<Int64>)
      requires InOrder(rows, s) && Elements(s) == rows.Keys
      requires forall a, d :: Recorded(m, a, d) == BalanceOf(LastOn(rows, s, a, d))
      requires StrictlySorted(dates) && Elements(dates) == Days(rows)
      ensures |filled| == |dates|
      ensures forall i :: 0 <= i < |dates| ==> IsLatestBalance(rows, Through(rows, account, dates[i]), filled[i])
    {
      filled := [];
      var last: Int64 := 0;
      for i := 0 to |dates|
        invariant |filled| == i
        invariant IsLatestBalance(rows, if i == 0 then {} else Through(rows, account, dates[i - 1]), last)
        invariant forall j :: 0 <= j < i ==> IsLatestBalance(rows, Through(rows, account, dates[j]), filled[j])
      {
        EarlierIsPrevious(rows, account, dates, i);
        FillStep(rows, s, account, dates[i], if i == 0 then {} else Through(rows, account, dates[i - 1]), last);
        var recorded := Recorded(m, account, dates[i]);
        if recorded.Some? {
          last := recorded.value;
        }
        filled := filled + [last];
      }
    }
  }

  function Recorded(m: map<Data, map<int, Int64>>, account: Data, day: int): Option<Int64> {
    if account in m && day in m[account] then Some(m[account][day]) else None
  }
}
