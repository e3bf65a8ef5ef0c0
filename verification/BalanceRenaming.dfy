/** Balances under new row ids: an order-keeping renaming changes no prefix sum. */
module BalanceRenaming {
  import opened Sums
  import opened Balances

  predicate SameMoney(r: Row, s: Row) {
    r.account == s.account && r.date == s.date && r.income == s.income && r.amount == s.amount
  }

  ghost predicate OneToOne(rename: map<int, int>) {
    forall x, y :: x in rename && y in rename && rename[x] == rename[y] ==> x == y
  }

  /** `u` is `t` under new ids that keep the (date, id) order. */
  ghost predicate Follows(t: Table, u: Table, rename: map<int, int>) {
    && rename.Keys == t.Keys
    && OneToOne(rename)
    && (forall id :: id in rename ==> rename[id] in u && SameMoney(t[id], u[rename[id]]))
    && (forall y :: y in u ==> exists x :: x in rename && rename[x] == y)
    && (forall i, j :: i in rename && j in rename && Before(t, i, j) ==> rename[i] < rename[j])
  }

  lemma {:induction false} OrderIsTotal(t: Table, i: int, j: int)
    requires i in t && j in t && i != j
    ensures Before(t, i, j) != Before(t, j, i)
  {
  }

  lemma {:induction false} BeforeRenamed(t: Table, u: Table, rename: map<int, int>, i: int, j: int)
    requires Follows(t, u, rename) && i in rename && j in rename && Before(t, i, j)
    ensures Before(u, rename[i], rename[j])
  {
    assert SameMoney(t[i], u[rename[i]]) && SameMoney(t[j], u[rename[j]]);
  }

  lemma {:induction false} OrderRenamed(t: Table, u: Table, rename: map<int, int>, i: int, j: int)
    requires Follows(t, u, rename) && i in rename && j in rename && i != j
    ensures Before(t, i, j) == Before(u, rename[i], rename[j])
  {
    OrderIsTotal(t, i, j);
    if Before(t, i, j) {
      BeforeRenamed(t, u, rename, i, j);
    } else {
      BeforeRenamed(t, u, rename, j, i);
      OrderIsTotal(u, rename[i], rename[j]);
    }
  }

  lemma {:induction false} UptoRenamed(t: Table, u: Table, rename: map<int, int>, id: int)
    requires Follows(t, u, rename) && id in rename
    ensures Upto(u, rename[id]) == set j | j in Upto(t, id) :: rename[j]
  {
    assert SameMoney(t[id], u[rename[id]]);
    forall y | y in Upto(u, rename[id]) ensures y in set j | j in Upto(t, id) :: rename[j] {
      var x :| x in rename && rename[x] == y;
      assert SameMoney(t[x], u[rename[x]]);
      if x != id { OrderRenamed(t, u, rename, x, id); }
      assert x in Upto(t, id);
    }
    forall j | j in Upto(t, id) ensures rename[j] in Upto(u, rename[id]) {
      assert j in rename.Keys;
      assert SameMoney(t[j], u[rename[j]]);
      if j != id { OrderRenamed(t, u, rename, j, id); }
    }
  }

  lemma {:induction false} PrefixSumRenamed(t: Table, u: Table, rename: map<int, int>, id: int)
    requires Follows(t, u, rename) && id in rename
    ensures rename[id] in u && id in t && PrefixSum(u, rename[id]) == PrefixSum(t, id)
  {
    assert id in rename.Keys;
    UptoRenamed(t, u, rename, id);
    var ids := Upto(t, id);
    forall x | x in ids ensures x in rename && SignedIn(u)(rename[x]) == SignedIn(t)(x) {
      assert x in rename.Keys;
      assert SameMoney(t[x], u[rename[x]]);
    }
    SumRenamed(ids, SignedIn(t), rename, SignedIn(u));
  }

  /** The balances a replace computes are the prefix sums of the new rows. */
  lemma {:induction false} ReplacedBalance(table: Table, id: int)
    requires Commits(map[], Import(table, true)) && id in table
    ensures var after := Next(map[], Import(table, true));
            id in after && id in Zeroed(table) && after[id].balance == PrefixSum(Zeroed(table), id)
  {
    var zeroed := Zeroed(table);
    assert map[] + zeroed == zeroed;
    assert Edited(map[], Import(table, true)).value == zeroed;
    assert zeroed[id].account == table[id].account;
    assert zeroed[id].account in Accounts(table);
  }

  /** So after an order-keeping renaming each row has the balance it had. */
  lemma {:induction false} BalancesRestored(t: Table, table: Table, rename: map<int, int>, id: int)
    requires Balanced(t) && Follows(t, Zeroed(table), rename) && Commits(map[], Import(table, true)) && id in t
    ensures id in rename && rename[id] in Next(map[], Import(table, true))
    ensures Next(map[], Import(table, true))[rename[id]].balance == t[id].balance
  {
    assert id in rename.Keys;
    PrefixSumRenamed(t, Zeroed(table), rename, id);
    assert rename[id] in Zeroed(table).Keys;
    ReplacedBalance(table, rename[id]);
  }
}
