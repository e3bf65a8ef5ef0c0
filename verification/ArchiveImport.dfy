/** Replacing a ledger with a parsed archive: new ids throughout, links checked and
    pruned, balances recomputed. */
module ArchiveImport {
  import opened Options
  import opened Bytes
  import opened Checked
  import opened ArchiveRows
  import opened ArchiveParse
  import opened ArchiveTags
  import Balances
  import CardLinks
  import Q = ImageQuota

  datatype Tx = Tx(account: Data, date: Balances.Date, item: Data, income: bool, amount: Int64, balance: Int64, memo: Data)

  datatype StoredTag = StoredTag(name: Data, parent: Option<int>, level: int)

  datatype StoredImage = StoredImage(tx: int, filename: Data, mimeType: Data, data: Data, created: Data)

  /** The ledger tables; amounts are the effective ones. */
  datatype Ledger = Ledger(txs: map<int, Tx>, tags: map<int, StoredTag>, tagLinks: set<(int, int)>, links: set<(int, int)>,
                           settings: map<SettingKey, Data>, images: seq<StoredImage>)

  /** How a setting's text lists account names, how an account reads as text, and the
      time stamp the database gives an image without one. */
  datatype Env = Env(items: Data -> Option<seq<string>>, accountText: Data -> string, stamp: Data)

  function TableOf(txs: map<int, Tx>): Balances.Table {
    map id | id in txs :: Balances.Row(txs[id].account, txs[id].date, txs[id].income, txs[id].amount, txs[id].balance)
  }

  // ----- transactions -----

  predicate IsTx(r: Row) {
    r.TxRow? && Fits(r.amount)
  }

  function NewTx(r: Row): Tx
    requires IsTx(r)
  {
    Tx(r.account, r.date, r.item, r.income, r.amount, 0, r.memo)
  }

  /** The k-th transaction gets id `base + k`. */
  function TxIds(base: int, rows: seq<Row>): map<int, int> {
    if rows == [] then map[]
    else
      var n := |rows| - 1;
      TxIds(base, rows[..n])[IdOf(rows[n]) := base + n]
  }

  function NewTxs(base: int, rows: seq<Row>): map<int, Tx>
    requires forall k :: 0 <= k < |rows| ==> IsTx(rows[k])
  {
    if rows == [] then map[]
    else
      var n := |rows| - 1;
      NewTxs(base, rows[..n])[base + n := NewTx(rows[n])]
  }

  lemma {:induction false} NewTxsAt(base: int, rows: seq<Row>)
    requires forall k :: 0 <= k < |rows| ==> IsTx(rows[k])
    ensures forall id :: id in NewTxs(base, rows) <==> base <= id < base + |rows|
    ensures forall k :: 0 <= k < |rows| ==> base + k in NewTxs(base, rows) && NewTxs(base, rows)[base + k] == NewTx(rows[k])
  {
    if rows != [] {
      NewTxsAt(base, rows[..|rows| - 1]);
    }
  }

  lemma {:induction false} TxIdsAt(base: int, rows: seq<Row>)
    requires DistinctIds(rows)
    ensures TxIds(base, rows).Keys == Ids(rows)
    ensures forall k :: 0 <= k < |rows| ==> IdOf(rows[k]) in TxIds(base, rows) && TxIds(base, rows)[IdOf(rows[k])] == base + k
  {
    if rows != [] {
      var n := |rows| - 1;
      TxIdsAt(base, rows[..n]);
      IdsSnoc(rows);
      forall k | 0 <= k < |rows| ensures IdOf(rows[k]) in TxIds(base, rows) && TxIds(base, rows)[IdOf(rows[k])] == base + k {
        if k < n {
          assert rows[..n][k] == rows[k];
          assert IdOf(rows[k]) != IdOf(rows[n]);
        }
      }
    }
  }

  lemma {:induction false} IdsSnoc(rows: seq<Row>)
    requires rows != []
    ensures Ids(rows) == Ids(rows[..|rows| - 1]) + {IdOf(rows[|rows| - 1])}
  {
    var n := |rows| - 1;
    forall id | id in Ids(rows) ensures id in Ids(rows[..n]) + {IdOf(rows[n])} {
      var k :| 0 <= k < |rows| && IdOf(rows[k]) == id;
      assert k < n ==> rows[..n][k] == rows[k];
    }
    forall id | id in Ids(rows[..n]) ensures id in Ids(rows) {
      var k :| 0 <= k < n && IdOf(rows[..n][k]) == id;
      assert rows[k] == rows[..n][k];
    }
  }

  // ----- images -----

  function Stamped(env: Env, created: Data): Data {
    if created == [] then env.stamp else created
  }

  function NewImage(env: Env, ids: map<int, int>, r: Row): StoredImage
    requires r.ImageRow? && r.tx in ids
  {
    StoredImage(ids[r.tx], r.filename, r.mimeType, r.data, Stamped(env, r.created))
  }

  predicate Refers(ids: map<int, int>, r: Row) {
    r.ImageRow? && r.tx in ids
  }

  /** Normal images are inserted before archived ones. */
  function NewImages(env: Env, ids: map<int, int>, rows: seq<Row>, legacy: bool): seq<StoredImage>
    requires forall k :: 0 <= k < |rows| ==> Refers(ids, rows[k])
  {
    if rows == [] then []
    else
      assert Refers(ids, rows[0]);
      (if rows[0].legacy == legacy then [NewImage(env, ids, rows[0])] else []) + NewImages(env, ids, rows[1..], legacy)
  }

  function ShotOf(r: Row): Q.Shot {
    if r.ImageRow? then Q.Shot(r.tx, |r.data|, r.legacy) else Q.Shot(0, 0, false)
  }

  function ShotsOf(rows: seq<Row>): seq<Q.Shot> {
    seq(|rows|, k requires 0 <= k < |rows| => ShotOf(rows[k]))
  }

  /** The accounts of the inserted transactions, by the ids the archive uses. */
  function AccountsOf(ids: map<int, int>, txs: map<int, Tx>): map<int, Data> {
    map id | id in ids && ids[id] in txs :: txs[ids[id]].account
  }

  /** Every image is of a size its kind allows, and together they are within the quotas. */
  ghost predicate ImagesAdmitted(ids: map<int, int>, txs: map<int, Tx>, images: seq<Row>) {
    && (forall k :: 0 <= k < |images| && images[k].ImageRow? ==>
          |images[k].data| <= ImageLimit(images[k].legacy) && (images[k].legacy || images[k].data != []))
    && Q.QuotaAdmits(ShotsOf(images), AccountsOf(ids, txs))
  }

  // ----- links -----

  function CardTxs(env: Env, txs: map<int, Tx>): map<int, CardLinks.Tx> {
    map id | id in txs :: CardLinks.Tx(env.accountText(txs[id].account), txs[id].income, txs[id].amount)
  }

  function ItemsOf(env: Env, settings: map<SettingKey, Data>, key: SettingKey): Option<seq<string>> {
    if key in settings then env.items(settings[key]) else None
  }

  function CardSettings(env: Env, settings: map<SettingKey, Data>): CardLinks.Settings {
    CardLinks.Settings(ItemsOf(env, settings, CreditCardItems), ItemsOf(env, settings, BankAccountItems))
  }

  /** The renamed links, one after the other: each must join a card and a bank, and be new. */
  function AddLinks(b: CardLinks.Book, ids: map<int, int>, pairs: seq<(int, int)>): Option<CardLinks.Book>
    decreases |pairs|
  {
    if pairs == [] then Some(b)
    else if pairs[0].0 !in ids || pairs[0].1 !in ids then None
    else
      var edge := CardLinks.Edge(ids[pairs[0].0], ids[pairs[0].1]);
      if CardLinks.LinkPair(b, edge).None? || edge in b.links then None
      else AddLinks(b.(links := b.links + {edge}), ids, pairs[1..])
  }

  function RenamedLinks(ids: map<int, int>, pairs: seq<(int, int)>): set<(int, int)> {
    set k | 0 <= k < |pairs| && pairs[k].0 in ids && pairs[k].1 in ids :: CardLinks.Edge(ids[pairs[k].0], ids[pairs[k].1])
  }

  ghost predicate AllPaired(b: CardLinks.Book) {
    forall link :: link in b.links ==> CardLinks.LinkPair(b, link).Some?
  }

  lemma {:induction false} RenamedCons(ids: map<int, int>, pairs: seq<(int, int)>)
    requires pairs != [] && pairs[0].0 in ids && pairs[0].1 in ids
    ensures RenamedLinks(ids, pairs)
         == {CardLinks.Edge(ids[pairs[0].0], ids[pairs[0].1])} + RenamedLinks(ids, pairs[1..])
  {
    var rest := pairs[1..];
    forall e | e in RenamedLinks(ids, pairs) ensures e == CardLinks.Edge(ids[pairs[0].0], ids[pairs[0].1]) || e in RenamedLinks(ids, rest) {
      var k :| 0 <= k < |pairs| && pairs[k].0 in ids && pairs[k].1 in ids && e == CardLinks.Edge(ids[pairs[k].0], ids[pairs[k].1]);
      if k > 0 { assert rest[k - 1] == pairs[k]; }
    }
    forall e | e in RenamedLinks(ids, rest) ensures e in RenamedLinks(ids, pairs) {
      var k :| 0 <= k < |rest| && rest[k].0 in ids && rest[k].1 in ids && e == CardLinks.Edge(ids[rest[k].0], ids[rest[k].1]);
      assert pairs[k + 1] == rest[k];
    }
  }

  lemma {:induction false} AddLinksAdds(b: CardLinks.Book, ids: map<int, int>, pairs: seq<(int, int)>)
    requires AddLinks(b, ids, pairs).Some?
    ensures var after := AddLinks(b, ids, pairs).value;
      && (AllPaired(b) ==> AllPaired(after)) && after.txs == b.txs && after.settings == b.settings
      && after.links == b.links + RenamedLinks(ids, pairs)
    decreases |pairs|
  {
    if pairs != [] {
      var edge := CardLinks.Edge(ids[pairs[0].0], ids[pairs[0].1]);
      var next := b.(links := b.links + {edge});
      assert forall link :: CardLinks.LinkPair(next, link) == CardLinks.LinkPair(b, link);
      AddLinksAdds(next, ids, pairs[1..]);
      RenamedCons(ids, pairs);
    }
  }

  /** Every restored link joins a card and a bank, so pruning finds nothing. */
  lemma {:induction false} PruneRemovesNothing(b: CardLinks.Book)
    requires AllPaired(b)
    ensures CardLinks.Prune(b).links == b.links
  {
    forall link | link in b.links ensures link in CardLinks.Prune(b).links {
      assert CardLinks.LinkPair(b, link).Some?;
      CardLinks.PairIsSymmetric(link.0, b.txs[link.0].account, link.1, b.txs[link.1].account, b.settings);
    }
  }

  // ----- the whole import -----

  function TagTable(base: int, tags: seq<NewTag>): map<int, StoredTag> {
    if tags == [] then map[]
    else
      var n := |tags| - 1;
      TagTable(base, tags[..n])[base + n := StoredTag(tags[n].name, tags[n].parent, tags[n].level)]
  }

  lemma {:induction false} TagTableAt(base: int, tags: seq<NewTag>)
    ensures forall id :: id in TagTable(base, tags) <==> base <= id < base + |tags|
    ensures forall k :: 0 <= k < |tags| ==>
      base + k in TagTable(base, tags) && TagTable(base, tags)[base + k] == StoredTag(tags[k].name, tags[k].parent, tags[k].level)
  {
    if tags != [] {
      TagTableAt(base, tags[..|tags| - 1]);
    }
  }

  function RenamedTagLinks(txIds: map<int, int>, tagIds: map<int, int>, pairs: seq<(int, int)>): set<(int, int)> {
    set k | 0 <= k < |pairs| && pairs[k].0 in txIds && pairs[k].1 in tagIds :: (txIds[pairs[k].0], tagIds[pairs[k].1])
  }

  ghost predicate Importable(p: Parsed) {
    && (forall k :: 0 <= k < |p.txs| ==> IsTx(p.txs[k]))
    && (forall k :: 0 <= k < |p.tags| ==> IsTag(p.tags[k]))
    && DistinctIds(p.txs)
    && (forall k :: 0 <= k < |p.images| ==> p.images[k].ImageRow? && p.images[k].tx in Ids(p.txs))
  }

  lemma {:induction false} ParsedIsImportable(rules: Rules, rows: seq<Row>)
    requires Parse(rules, rows).Some?
    ensures Importable(Parse(rules, rows).value)
  {
    ParsedIsConsistent(rules, rows);
  }

  lemma {:induction false} ImagesRefer(base: int, p: Parsed)
    requires Importable(p)
    ensures forall k :: 0 <= k < |p.images| ==> Refers(TxIds(base, p.txs), p.images[k])
  {
    TxIdsAt(base, p.txs);
    forall k | 0 <= k < |p.images| ensures Refers(TxIds(base, p.txs), p.images[k]) {
      assert p.images[k].tx in TxIds(base, p.txs).Keys;
    }
  }

  function WithBalances(txs: map<int, Tx>, table: Balances.Table): map<int, Tx> {
    map id | id in txs :: txs[id].(balance := if id in table then table[id].balance else 0)
  }

  /** The balances of a freshly inserted table. */
  ghost predicate BalancesFit(txs: map<int, Tx>) {
    Balances.Commits(map[], Balances.Import(TableOf(txs), true))
  }

  ghost function Recomputed(txs: map<int, Tx>): map<int, Tx> {
    WithBalances(txs, Balances.Next(map[], Balances.Import(TableOf(txs), true)))
  }

  /** The links to restore, before the final checks. */
  function Linked(env: Env, p: Parsed, txIds: map<int, int>, txs: map<int, Tx>): Option<CardLinks.Book> {
    AddLinks(CardLinks.Book(CardTxs(env, txs), {}, CardSettings(env, p.settings)), txIds, p.links)
  }

  /** A replace: all tables are emptied first, so the result holds the archive alone. */
  ghost function Replace(env: Env, base: int, tagBase: int, p: Parsed): Option<Ledger>
    requires Importable(p)
  {
    ImagesRefer(base, p);
    var txIds, txs := TxIds(base, p.txs), NewTxs(base, p.txs);
    var tags, linked := InsertTags(tagBase, p.tags), Linked(env, p, txIds, txs);
    if tags.None? || linked.None? || !ImagesAdmitted(txIds, txs, p.images) then None
    else
      var pruned := CardLinks.Prune(linked.value);
      if !CardLinks.ChangesAllowed(CardLinks.Book(map[], {}, linked.value.settings), pruned) || !BalancesFit(txs) then None
      else Some(Ledger(Recomputed(txs), TagTable(tagBase, tags.value.tags),
                       RenamedTagLinks(txIds, tags.value.ids, p.tagLinks), pruned.links, p.settings,
                       NewImages(env, txIds, p.images, false) + NewImages(env, txIds, p.images, true)))
  }
}
