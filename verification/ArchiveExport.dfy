/** Writing the rows of an archive, and which ledgers can be written at all. */
module ArchiveExport {
  import opened Options
  import opened Bytes
  import opened ArchiveRows
  import opened ArchiveParse
  import opened ArchiveImport
  import opened ArchiveRoundTrip
  import opened ArchiveBudget
  import opened ImageQuota
  import opened Sums
  import Balances
  import B = ParsedBudget

  /** What the tables say beside the ledger's content: the transactions with an archive
      amount, the tags marked as duplicates, and for each image its id in the archive and
      whether it comes from the table of archived images. */
  datatype Marks = Marks(txs: set<int>, tags: set<int>, imageIds: seq<int>, archived: seq<bool>)

  /** A row goes as a normal one if it is not marked and passes the current rules, else as
      a legacy one if it passes those. */
  function Choose(rules: Rules, marked: bool, normal: Row, legacy: Row): Option<Row> {
    if !marked && rules.accepts(normal) then Some(normal)
    else if rules.accepts(legacy) then Some(legacy)
    else None
  }

  function TxAs(legacy: bool, id: int, t: Tx): Row {
    TxRow(legacy, id, t.account, t.date, t.item, t.income, t.amount, t.balance, t.memo)
  }

  function TagAs(legacy: bool, id: int, t: StoredTag): Row {
    TagRow(legacy, id, t.name, t.parent, t.level)
  }

  function TxRecord(rules: Rules, marked: bool, id: int, t: Tx): Option<Row> {
    Choose(rules, marked, TxAs(false, id, t), TxAs(true, id, t))
  }

  /** A root is on level 1, any other tag directly below its parent, at most on level 3. */
  predicate Placed(l: Ledger, t: StoredTag) {
    1 <= t.level <= MAX_LEVEL
    && if t.parent.None? then t.level == 1 else t.parent.value in l.tags && l.tags[t.parent.value].level + 1 == t.level
  }

  function TagRecord(rules: Rules, l: Ledger, marked: bool, id: int, t: StoredTag): Option<Row> {
    if Placed(l, t) then Choose(rules, marked, TagAs(false, id, t), TagAs(true, id, t)) else None
  }

  function SettingRecord(rules: Rules, key: SettingKey, value: Data): Option<Row> {
    Choose(rules, false, SettingRow(false, key, value), SettingRow(true, key, value))
  }

  // ----- images -----

  predicate MarksImages(l: Ledger, marks: Marks) {
    |marks.imageIds| == |marks.archived| == |l.images|
  }

  predicate Prepared(rules: Rules, i: StoredImage) {
    rules.prepare(i.filename, i.mimeType, i.data) == Some((i.filename, i.mimeType, i.data))
  }

  function Sizes(images: seq<StoredImage>): seq<Shot> {
    seq(|images|, k requires 0 <= k < |images| => Shot(images[k].tx, |images[k].data|, false))
  }

  /** An image goes as an archived one if it is one, if its transaction is over its quota,
      or if preparing it would change it. */
  predicate GoesArchived(rules: Rules, l: Ledger, marks: Marks, k: nat)
    requires MarksImages(l, marks) && k < |l.images|
  {
    marks.archived[k] || OverQuota(Sizes(l.images), l.images[k].tx) || !Prepared(rules, l.images[k])
  }

  /** The same with today's limits: ten images and 20 MiB a transaction. */
  ghost predicate MustBeArchived(rules: Rules, l: Ledger, marks: Marks, k: nat)
    requires MarksImages(l, marks) && k < |l.images|
  {
    var i := l.images[k];
    || marks.archived[k] || rules.prepare(i.filename, i.mimeType, i.data) != Some((i.filename, i.mimeType, i.data))
    || Tally(l.images, (j: StoredImage) => if j.tx == i.tx then 1 else 0) > 10
    || Tally(l.images, (j: StoredImage) => if j.tx == i.tx then |j.data| else 0) > 20_971_520
  }

  lemma {:induction false} ArchivedExactly(rules: Rules, l: Ledger, marks: Marks, k: nat)
    requires MarksImages(l, marks) && k < |l.images|
    ensures GoesArchived(rules, l, marks, k) <==> MustBeArchived(rules, l, marks, k)
  {
    var tx := l.images[k].tx;
    TallyAgrees(Sizes(l.images), One(tx), l.images, (j: StoredImage) => if j.tx == tx then 1 else 0);
    TallyAgrees(Sizes(l.images), Size(tx), l.images, (j: StoredImage) => if j.tx == tx then |j.data| else 0);
  }

  function Shots(rules: Rules, l: Ledger, marks: Marks): seq<Shot>
    requires MarksImages(l, marks)
  {
    seq(|l.images|, k requires 0 <= k < |l.images| => Shot(l.images[k].tx, |l.images[k].data|, GoesArchived(rules, l, marks, k)))
  }

  function ImageRecord(rules: Rules, legacy: bool, id: int, i: StoredImage): Option<Row> {
    var row := ImageRow(legacy, id, i.tx, i.filename, i.mimeType, i.data, i.created);
    if rules.accepts(row) && |i.data| <= ImageLimit(legacy) then Some(row) else None
  }

  function AccountsIn(l: Ledger): map<int, Data> {
    map id | id in l.txs :: l.txs[id].account
  }

  /** The query lists the images by transaction. */
  ghost predicate ImagesListed(l: Ledger, marks: Marks) {
    MarksImages(l, marks) && Grouped(Sizes(l.images)) && forall k :: 0 <= k < |l.images| ==> l.images[k].tx > 0
  }

  // ----- what can be written -----

  /** An entry can be written if it is not marked and passes the current rules, or passes
      the legacy ones. */
  predicate Passes(rules: Rules, marked: bool, normal: Row, legacy: Row) {
    (!marked && rules.accepts(normal)) || rules.accepts(legacy)
  }

  ghost predicate TxsWritable(rules: Rules, l: Ledger, marks: Marks) {
    forall id :: id in l.txs ==> Passes(rules, id in marks.txs, TxAs(false, id, l.txs[id]), TxAs(true, id, l.txs[id]))
  }

  ghost predicate ImagesWritable(rules: Rules, l: Ledger, marks: Marks)
    requires MarksImages(l, marks)
  {
    forall k :: 0 <= k < |l.images| ==>
      var i, legacy := l.images[k], MustBeArchived(rules, l, marks, k);
      |i.data| <= (if legacy then 8_388_608 else 5_242_880)
      && rules.accepts(ImageRow(legacy, marks.imageIds[k], i.tx, i.filename, i.mimeType, i.data, i.created))
  }

  ghost predicate TagsWritable(rules: Rules, l: Ledger, marks: Marks) {
    forall id :: id in l.tags ==>
      && 1 <= l.tags[id].level <= 3 && (l.tags[id].parent.None? ==> l.tags[id].level == 1)
      && (l.tags[id].parent.Some? ==>
            l.tags[id].parent.value in l.tags && l.tags[l.tags[id].parent.value].level == l.tags[id].level - 1)
      && Passes(rules, id in marks.tags, TagAs(false, id, l.tags[id]), TagAs(true, id, l.tags[id]))
  }

  ghost predicate SettingsWritable(rules: Rules, l: Ledger) {
    forall key :: key in l.settings ==>
      Passes(rules, false, SettingRow(false, key, l.settings[key]), SettingRow(true, key, l.settings[key]))
  }

  function RowCount(l: Ledger): nat {
    |l.txs| + |l.images| + |l.tags| + |l.tagLinks| + |l.links| + |l.settings|
  }

  ghost predicate RecordsWritable(rules: Rules, l: Ledger, marks: Marks)
    requires MarksImages(l, marks)
  {
    && TxsWritable(rules, l, marks) && TagsWritable(rules, l, marks) && SettingsWritable(rules, l)
    && ImagesWritable(rules, l, marks) && Restorable(Shots(rules, l, marks), AccountsIn(l))
  }

  /** Every record passes the current or the legacy rules, the images are within the
      restore bounds, the text is within the importer's memory, and one row is left for
      the manifest. */
  ghost predicate Writable(rules: Rules, l: Ledger, marks: Marks)
    requires MarksImages(l, marks)
  {
    && RecordsWritable(rules, l, marks)
    && LedgerWeight(rules, l) <= 67_108_864
    && RowCount(l) < 1_000_000
  }

  // ----- what is written -----

  /** The row as a normal one. */
  function AsNormal(r: Row): Row {
    match r
    case TxRow(_, id, account, date, item, income, amount, balance, memo) => TxRow(false, id, account, date, item, income, amount, balance, memo)
    case TagRow(_, id, name, parent, level) => TagRow(false, id, name, parent, level)
    case SettingRow(_, key, value) => SettingRow(false, key, value)
    case _ => r
  }

  ghost predicate TxsWritten(rules: Rules, marks: Marks, rows: seq<Row>) {
    DistinctIds(rows)
    && forall k :: 0 <= k < |rows| ==>
         rows[k].TxRow? && rules.accepts(rows[k]) && (rows[k].legacy <==> rows[k].id in marks.txs || !rules.accepts(AsNormal(rows[k])))
  }

  ghost predicate ImagesWritten(rules: Rules, l: Ledger, marks: Marks, rows: seq<Row>)
    requires MarksImages(l, marks)
  {
    |rows| == |l.images|
    && forall k :: 0 <= k < |rows| ==> IsImageOf(rules, l, marks, k, rows[k])
  }

  /** The row of an image: archived exactly if it must be, of a size its kind allows. */
  ghost predicate IsImageOf(rules: Rules, l: Ledger, marks: Marks, k: nat, r: Row)
    requires MarksImages(l, marks) && k < |l.images|
  {
    var i := l.images[k];
    && r == ImageRow(MustBeArchived(rules, l, marks, k), marks.imageIds[k], i.tx, i.filename, i.mimeType, i.data, i.created)
    && rules.accepts(r) && |i.data| <= (if r.legacy then 8_388_608 else 5_242_880)
  }

  ghost predicate TagsWritten(rules: Rules, l: Ledger, marks: Marks, rows: seq<Row>) {
    DistinctIds(rows)
    && forall k :: 0 <= k < |rows| ==>
         rows[k].TagRow? && rules.accepts(rows[k])
         && (rows[k].legacy <==> rows[k].id in marks.tags || !rules.accepts(AsNormal(rows[k])))
         && rows[k].id in l.tags && Placed(l, l.tags[rows[k].id])
  }

  ghost predicate DistinctRows(rows: seq<Row>) {
    forall i, j :: 0 <= i < j < |rows| ==> PairOfRow(rows[i]) != PairOfRow(rows[j])
  }

  ghost predicate SettingsWritten(rules: Rules, rows: seq<Row>) {
    && (forall k :: 0 <= k < |rows| ==>
          rows[k].SettingRow? && rules.accepts(rows[k]) && (rows[k].legacy <==> !rules.accepts(AsNormal(rows[k]))))
    && forall i, j :: 0 <= i < j < |rows| && rows[i].SettingRow? && rows[j].SettingRow? ==> rows[i].key != rows[j].key
  }

  /** The rows of the archive: none twice, each of the kind its entry calls for. */
  ghost predicate Written(rules: Rules, l: Ledger, marks: Marks, a: Archive)
    requires MarksImages(l, marks)
  {
    && TxsWritten(rules, marks, a.txs) && ImagesWritten(rules, l, marks, a.images) && TagsWritten(rules, l, marks, a.tags)
    && DistinctRows(a.tagLinks) && DistinctRows(a.links) && SettingsWritten(rules, a.settings)
  }

  // ----- the sections -----

  lemma {:induction false} OneMoreId(rows: seq<Row>, r: Row)
    ensures Ids(rows + [r]) == Ids(rows) + {IdOf(r)}
  {
    assert (rows + [r])[|rows|] == r;
    assert forall k :: 0 <= k < |rows| ==> (rows + [r])[k] == rows[k];
  }

  lemma {:induction false} DistinctIdsCount(rows: seq<Row>)
    requires DistinctIds(rows)
    ensures |Ids(rows)| == |rows|
  {
    CountDistinct(rows, (r: Row) => IdOf(r), Ids(rows));
  }

  /** The transactions in (date, id) order. */
  method ExportTxs(rules: Rules, l: Ledger, marks: Marks) returns (r: Option<seq<Row>>)
    ensures r.Some? <==> TxsWritable(rules, l, marks)
    ensures r.Some? ==> TxsExported(l, r.value) && TxsWritten(rules, marks, r.value) && |r.value| == |l.txs|
  {
    var table := TableOf(l.txs);
    var order := Balances.Select(table, table.Keys);
    var rows: seq<Row> := [];
    for k := 0 to |order|
      invariant |rows| == k
      invariant forall i :: 0 <= i < k ==> TxWritten(rules, l, marks, order[i], rows[i])
    {
      var id := order[k];
      assert id in table.Keys;
      var row := TxRecord(rules, id in marks.txs, id, l.txs[id]);
      if row.None? {
        return None;
      }
      rows := rows + [row.value];
    }
    AllTxsWritten(rules, l, marks, order, rows);
    return Some(rows);
  }

  ghost predicate TxWritten(rules: Rules, l: Ledger, marks: Marks, id: int, r: Row) {
    id in l.txs && TxRecord(rules, id in marks.txs, id, l.txs[id]) == Some(r)
  }

  lemma {:induction false} AllTxsWritten(rules: Rules, l: Ledger, marks: Marks, order: seq<int>, rows: seq<Row>)
    requires Balances.InOrder(TableOf(l.txs), order) && Balances.Elements(order) == TableOf(l.txs).Keys && |rows| == |order|
    requires forall k :: 0 <= k < |rows| ==> TxWritten(rules, l, marks, order[k], rows[k])
    ensures TxsWritable(rules, l, marks) && TxsExported(l, rows) && TxsWritten(rules, marks, rows) && |rows| == |l.txs|
  {
    forall k | 0 <= k < |rows|
      ensures ExportsTx(l, rows[k]) && IdOf(rows[k]) == order[k] && rows[k].TxRow? && rules.accepts(rows[k])
      ensures rows[k].legacy <==> rows[k].id in marks.txs || !rules.accepts(AsNormal(rows[k]))
    {
      assert TxWritten(rules, l, marks, order[k], rows[k]);
    }
    ExportedInOrder(l, order, rows);
    OrderedIsDistinct(l, rows);
    DistinctIdsCount(rows);
    forall id | id in l.txs ensures Passes(rules, id in marks.txs, TxAs(false, id, l.txs[id]), TxAs(true, id, l.txs[id])) {
      assert id in TableOf(l.txs).Keys;
      assert id in Balances.Elements(order);
      var i :| 0 <= i < |order| && order[i] == id;
      assert TxWritten(rules, l, marks, order[i], rows[i]);
    }
  }

  lemma {:induction false} OrderedIsDistinct(l: Ledger, rows: seq<Row>)
    requires TxsExported(l, rows)
    ensures DistinctIds(rows)
  {
    forall i, j | 0 <= i < j < |rows| ensures IdOf(rows[i]) != IdOf(rows[j]) {
      assert EarlierTx(l, IdOf(rows[i]), IdOf(rows[j]));
    }
  }

  lemma {:induction false} ExportedInOrder(l: Ledger, order: seq<int>, rows: seq<Row>)
    requires Balances.InOrder(TableOf(l.txs), order) && Balances.Elements(order) == TableOf(l.txs).Keys && |rows| == |order|
    requires forall k :: 0 <= k < |rows| ==> ExportsTx(l, rows[k]) && IdOf(rows[k]) == order[k]
    ensures TxsExported(l, rows)
  {
    forall id | id in Ids(rows) ensures id in l.txs.Keys {
      var k :| 0 <= k < |rows| && IdOf(rows[k]) == id;
    }
    forall id | id in l.txs.Keys ensures id in Ids(rows) {
      assert id in TableOf(l.txs).Keys;
      assert id in Balances.Elements(order);
      var k :| 0 <= k < |order| && order[k] == id;
      assert IdOf(rows[k]) == id;
    }
    forall i, j | 0 <= i < j < |rows| ensures EarlierTx(l, IdOf(rows[i]), IdOf(rows[j])) {
      assert Balances.Before(TableOf(l.txs), order[i], order[j]);
    }
  }

  /** The images, normal and archived ones, within the restore bounds. */
  method ExportImages(rules: Rules, l: Ledger, marks: Marks) returns (r: Option<seq<Row>>)
    requires ImagesListed(l, marks)
    ensures r.Some? <==> ImagesWritable(rules, l, marks) && Restorable(Shots(rules, l, marks), AccountsIn(l))
    ensures r.Some? ==> ImagesExported(rules, l.images, r.value) && ImagesWritten(rules, l, marks, r.value)
  {
    var shots := Shots(rules, l, marks);
    ShotsGrouped(rules, l, marks);
    var legacyFits := CheckLegacy(shots);
    var accountsFit := CheckAccounts(shots, AccountsIn(l));
    var totalFits := CheckTotal(shots);
    if !legacyFits || !accountsFit || !totalFits {
      return None;
    }
    var rows: seq<Row> := [];
    for k := 0 to |l.images|
      invariant |rows| == k
      invariant forall i :: 0 <= i < k ==> ImageWritten(rules, l, marks, i, rows[i])
    {
      var row := ImageRecord(rules, GoesArchived(rules, l, marks, k), marks.imageIds[k], l.images[k]);
      ArchivedExactly(rules, l, marks, k);
      if row.None? {
        return None;
      }
      rows := rows + [row.value];
    }
    AllImagesWritten(rules, l, marks, rows);
    return Some(rows);
  }

  ghost predicate ImageWritten(rules: Rules, l: Ledger, marks: Marks, k: nat, r: Row)
    requires MarksImages(l, marks)
  {
    k < |l.images| && ImageRecord(rules, GoesArchived(rules, l, marks, k), marks.imageIds[k], l.images[k]) == Some(r)
  }

  lemma {:induction false} AllImagesWritten(rules: Rules, l: Ledger, marks: Marks, rows: seq<Row>)
    requires MarksImages(l, marks) && |rows| == |l.images|
    requires forall k :: 0 <= k < |rows| ==> ImageWritten(rules, l, marks, k, rows[k])
    ensures ImagesWritable(rules, l, marks) && ImagesExported(rules, l.images, rows) && ImagesWritten(rules, l, marks, rows)
  {
    forall k | 0 <= k < |rows| ensures IsImageOf(rules, l, marks, k, rows[k]) && ExportsImage(rules, l.images[k], rows[k]) {
      assert ImageWritten(rules, l, marks, k, rows[k]);
      ArchivedExactly(rules, l, marks, k);
    }
  }

  lemma {:induction false} ShotsGrouped(rules: Rules, l: Ledger, marks: Marks)
    requires ImagesListed(l, marks)
    ensures Grouped(Shots(rules, l, marks)) && forall k :: 0 <= k < |l.images| ==> Shots(rules, l, marks)[k].tx > 0
  {
    forall i, j | 0 <= i < j < |l.images| ensures Shots(rules, l, marks)[i].tx <= Shots(rules, l, marks)[j].tx {
      assert Sizes(l.images)[i].tx <= Sizes(l.images)[j].tx;
    }
  }

  /** The tags in some order; the parser does not depend on it. */
  method ExportTags(rules: Rules, l: Ledger, marks: Marks) returns (r: Option<seq<Row>>)
    ensures r.Some? <==> TagsWritable(rules, l, marks)
    ensures r.Some? ==> TagsExported(l, r.value) && TagsWritten(rules, l, marks, r.value) && |r.value| == |l.tags|
  {
    var rows: seq<Row> := [];
    var rest := l.tags.Keys;
    while rest != {}
      invariant rest <= l.tags.Keys && TagsSoFar(rules, l, marks, rows, l.tags.Keys - rest)
      decreases rest
    {
      ghost var some: int := Pick(rest);
      assert some in rest;
      var id :| id in rest;
      assert id in l.tags.Keys;
      var row := TagRecord(rules, l, id in marks.tags, id, l.tags[id]);
      if row.None? {
        TagIsRefused(rules, l, marks, id);
        return None;
      }
      OneMoreTag(rules, l, marks, rows, l.tags.Keys - rest, id, row.value);
      assert l.tags.Keys - rest + {id} == l.tags.Keys - (rest - {id});
      rows := rows + [row.value];
      rest := rest - {id};
    }
    assert l.tags.Keys - rest == l.tags.Keys;
    AllTagsWritten(rules, l, marks, rows);
    return Some(rows);
  }

  lemma {:induction false} TagIsRefused(rules: Rules, l: Ledger, marks: Marks, id: int)
    requires id in l.tags && TagRecord(rules, l, id in marks.tags, id, l.tags[id]).None?
    ensures !TagsWritable(rules, l, marks)
  {
  }

  lemma {:induction false} AllTagsWritten(rules: Rules, l: Ledger, marks: Marks, rows: seq<Row>)
    requires TagsSoFar(rules, l, marks, rows, l.tags.Keys)
    ensures TagsWritable(rules, l, marks) && TagsExported(l, rows) && TagsWritten(rules, l, marks, rows) && |rows| == |l.tags|
  {
    DistinctIdsCount(rows);
    forall id | id in l.tags.Keys
      ensures Placed(l, l.tags[id]) && Passes(rules, id in marks.tags, TagAs(false, id, l.tags[id]), TagAs(true, id, l.tags[id]))
    {
      assert id in Ids(rows);
      var k :| 0 <= k < |rows| && IdOf(rows[k]) == id;
      assert ExportsTag(l, rows[k]);
    }
  }

  ghost predicate TagsSoFar(rules: Rules, l: Ledger, marks: Marks, rows: seq<Row>, done: set<int>) {
    Ids(rows) == done && TagsWritten(rules, l, marks, rows) && forall i :: 0 <= i < |rows| ==> ExportsTag(l, rows[i])
  }

  lemma {:induction false} OneMoreTag(rules: Rules, l: Ledger, marks: Marks, rows: seq<Row>, done: set<int>, id: int, row: Row)
    requires TagsSoFar(rules, l, marks, rows, done) && id in l.tags && id !in done
    requires TagRecord(rules, l, id in marks.tags, id, l.tags[id]) == Some(row)
    ensures TagsSoFar(rules, l, marks, rows + [row], done + {id})
  {
    OneMoreId(rows, row);
    NewId(rows, row);
  }

  /** One row per link of either kind, in some order. */
  method ExportPairs(pairs: set<(int, int)>, tagged: bool) returns (rows: seq<Row>)
    ensures ListsPairs(rows, pairs) && DistinctRows(rows) && |rows| == |pairs|
    ensures forall k :: 0 <= k < |rows| ==> if tagged then rows[k].TagLinkRow? else rows[k].LinkRow?
  {
    rows := [];
    var rest := pairs;
    ghost var done: set<(int, int)> := {};
    while rest != {}
      invariant done + rest == pairs && done !! rest && PairsSoFar(rows, tagged, done)
      decreases rest
    {
      var pair :| pair in rest;
      OneMorePair(rows, tagged, done, pair);
      rows := rows + [if tagged then TagLinkRow(pair.0, pair.1) else LinkRow(pair.0, pair.1)];
      done := done + {pair};
      rest := rest - {pair};
    }
    PairsCount(rows, pairs);
  }

  ghost predicate PairsSoFar(rows: seq<Row>, tagged: bool, done: set<(int, int)>) {
    && ListsPairs(rows, done) && DistinctRows(rows)
    && forall k :: 0 <= k < |rows| ==> if tagged then rows[k].TagLinkRow? else rows[k].LinkRow?
  }

  lemma {:induction false} PairsCount(rows: seq<Row>, pairs: set<(int, int)>)
    requires ListsPairs(rows, pairs) && DistinctRows(rows)
    ensures |rows| == |pairs|
  {
    CountDistinct(rows, (r: Row) => PairOfRow(r), pairs);
  }

  lemma {:induction false} OneMorePair(rows: seq<Row>, tagged: bool, done: set<(int, int)>, pair: (int, int))
    requires PairsSoFar(rows, tagged, done) && pair !in done
    ensures PairsSoFar(rows + [if tagged then TagLinkRow(pair.0, pair.1) else LinkRow(pair.0, pair.1)], tagged, done + {pair})
  {
    var more := rows + [if tagged then TagLinkRow(pair.0, pair.1) else LinkRow(pair.0, pair.1)];
    assert PairOfRow(more[|rows|]) == pair;
    assert forall k :: 0 <= k < |rows| ==> more[k] == rows[k] && PairOfRow(rows[k]) in done;
  }

  method ExportSettings(rules: Rules, l: Ledger) returns (r: Option<seq<Row>>)
    ensures r.Some? <==> SettingsWritable(rules, l)
    ensures r.Some? ==> SettingsExported(l, r.value) && SettingsWritten(rules, r.value) && |r.value| == |l.settings|
  {
    var rows: seq<Row> := [];
    var keys := [BankAccountItems, CreditCardItems];
    for k := 0 to 2
      invariant SettingsSoFar(rules, l, keys, k, rows)
    {
      if keys[k] in l.settings {
        var row := SettingRecord(rules, keys[k], l.settings[keys[k]]);
        if row.None? {
          return None;
        }
        OneMoreSetting(rules, l, keys, k, rows, row.value);
        rows := rows + [row.value];
      }
    }
    AllSettingsWritten(rules, l, keys, rows);
    return Some(rows);
  }

  ghost predicate SettingsSoFar(rules: Rules, l: Ledger, keys: seq<SettingKey>, k: nat, rows: seq<Row>) {
    && k <= |keys| && SettingsWritten(rules, rows)
    && (forall i :: 0 <= i < |rows| ==> ExportsSetting(l, rows[i]) && KeyBefore(keys, k, rows[i].key))
    && forall i :: 0 <= i < k && keys[i] in l.settings ==> HasKey(rows, keys[i])
  }

  lemma {:induction false} OneMoreSetting(rules: Rules, l: Ledger, keys: seq<SettingKey>, k: nat, rows: seq<Row>, row: Row)
    requires keys == [BankAccountItems, CreditCardItems] && k < 2 && SettingsSoFar(rules, l, keys, k, rows)
    requires keys[k] in l.settings && SettingRecord(rules, keys[k], l.settings[keys[k]]) == Some(row)
    ensures SettingsSoFar(rules, l, keys, k + 1, rows + [row])
  {
    KeysStay(rows, row);
    var more := rows + [row];
    forall i | 0 <= i < |more| ensures ExportsSetting(l, more[i]) && KeyBefore(keys, k + 1, more[i].key) {
      if i == |rows| {
        assert more[i].key == keys[k];
      } else {
        assert more[i] == rows[i];
      }
    }
  }

  lemma {:induction false} AllSettingsWritten(rules: Rules, l: Ledger, keys: seq<SettingKey>, rows: seq<Row>)
    requires keys == [BankAccountItems, CreditCardItems] && SettingsSoFar(rules, l, keys, 2, rows)
    ensures SettingsWritable(rules, l) && SettingsExported(l, rows) && |rows| == |l.settings|
  {
    forall key | key in l.settings
      ensures HasKey(rows, key) && Passes(rules, false, SettingRow(false, key, l.settings[key]), SettingRow(true, key, l.settings[key]))
    {
      assert key == keys[if key.BankAccountItems? then 0 else 1];
      var k :| 0 <= k < |rows| && rows[k].SettingRow? && rows[k].key == key;
      assert ExportsSetting(l, rows[k]);
    }
    SettingsCount(rules, l, rows);
  }

  predicate KeyBefore(keys: seq<SettingKey>, k: nat, key: SettingKey) {
    exists i :: 0 <= i < k && i < |keys| && keys[i] == key
  }

  lemma {:induction false} SettingsCount(rules: Rules, l: Ledger, rows: seq<Row>)
    requires SettingsExported(l, rows) && SettingsWritten(rules, rows)
    ensures |rows| == |l.settings|
  {
    var keyOf := (r: Row) => if r.SettingRow? then r.key else CreditCardItems;
    var all := set k | 0 <= k < |rows| :: keyOf(rows[k]);
    CountDistinct(rows, keyOf, all);
    forall key ensures key in all <==> key in l.settings.Keys {
      if key in l.settings {
        assert HasKey(rows, key);
        var k :| 0 <= k < |rows| && rows[k].SettingRow? && rows[k].key == key;
        assert keyOf(rows[k]) == key;
      }
      if key in all {
        var k :| 0 <= k < |rows| && keyOf(rows[k]) == key;
        assert ExportsSetting(l, rows[k]);
      }
    }
    assert all == l.settings.Keys;
  }

  lemma {:induction false} KeysStay(rows: seq<Row>, r: Row)
    requires r.SettingRow?
    ensures HasKey(rows + [r], r.key) && forall key :: HasKey(rows, key) ==> HasKey(rows + [r], key)
  {
    assert (rows + [r])[|rows|] == r;
    forall key | HasKey(rows, key) ensures HasKey(rows + [r], key) {
      var k :| 0 <= k < |rows| && rows[k].SettingRow? && rows[k].key == key;
      assert (rows + [r])[k] == rows[k];
    }
  }

  // ----- the weight of the rows -----

  lemma {:induction false} TxsWeigh(rules: Rules, l: Ledger, rows: seq<Row>)
    requires TxsExported(l, rows) && DistinctIds(rows)
    ensures Tally(rows, Weights(rules)) == Sum(l.txs.Keys, TxWeights(rules, l))
  {
    forall k | 0 <= k < |rows| ensures Weights(rules)(rows[k]) == TxWeights(rules, l)(IdOf(rows[k])) {
      assert ExportsTx(l, rows[k]);
    }
    WeightById(rows, Weights(rules), TxWeights(rules, l));
  }

  lemma {:induction false} TagsWeigh(rules: Rules, l: Ledger, rows: seq<Row>)
    requires TagsExported(l, rows) && DistinctIds(rows)
    ensures Tally(rows, Weights(rules)) == Sum(l.tags.Keys, TagWeights(l))
  {
    forall k | 0 <= k < |rows| ensures Weights(rules)(rows[k]) == TagWeights(l)(IdOf(rows[k])) {
      assert ExportsTag(l, rows[k]);
    }
    WeightById(rows, Weights(rules), TagWeights(l));
  }

  lemma {:induction false} ImagesWeigh(rules: Rules, l: Ledger, rows: seq<Row>)
    requires ImagesExported(rules, l.images, rows)
    ensures Tally(rows, Weights(rules)) == Tally(l.images, ImageWeights())
  {
    forall k | 0 <= k < |rows| ensures Weights(rules)(rows[k]) == ImageWeights()(l.images[k]) {
      assert ExportsImage(rules, l.images[k], rows[k]);
    }
    TallyAgrees(rows, Weights(rules), l.images, ImageWeights());
  }

  lemma {:induction false} PairsWeigh(rules: Rules, rows: seq<Row>)
    requires forall k :: 0 <= k < |rows| ==> rows[k].TagLinkRow? || rows[k].LinkRow?
    ensures Tally(rows, Weights(rules)) == 0
  {
    TallyNothing(rows, Weights(rules));
  }

  function KeyWeights(rules: Rules, key: SettingKey): Row -> nat {
    (r: Row) => if r.SettingRow? && r.key == key then Weight(rules, r) else 0
  }

  lemma {:induction false} SettingWeighs(rules: Rules, l: Ledger, rows: seq<Row>, key: SettingKey)
    requires (forall k :: 0 <= k < |rows| ==> ExportsSetting(l, rows[k])) && SettingsWritten(rules, rows)
    ensures Tally(rows, KeyWeights(rules, key)) == if HasKey(rows, key) then SettingWeight(l.settings, key) else 0
  {
    if rows != [] {
      var n := |rows| - 1;
      SettingWeighs(rules, l, rows[..n], key);
      assert ExportsSetting(l, rows[n]);
      if HasKey(rows, key) {
        var k :| 0 <= k < |rows| && rows[k].SettingRow? && rows[k].key == key;
        assert k < n ==> rows[..n][k] == rows[k];
      }
      if HasKey(rows[..n], key) {
        var k :| 0 <= k < n && rows[..n][k].SettingRow? && rows[..n][k].key == key;
        assert rows[k].key != rows[n].key;
      }
    }
  }

  lemma {:induction false} SettingsSplit(rules: Rules, rows: seq<Row>)
    requires forall k :: 0 <= k < |rows| ==> rows[k].SettingRow?
    ensures Tally(rows, Weights(rules)) == Tally(rows, KeyWeights(rules, CreditCardItems)) + Tally(rows, KeyWeights(rules, BankAccountItems))
  {
    if rows != [] {
      SettingsSplit(rules, rows[..|rows| - 1]);
      assert rows[|rows| - 1].SettingRow?;
    }
  }

  lemma {:induction false} SettingsWeigh(rules: Rules, l: Ledger, rows: seq<Row>)
    requires SettingsExported(l, rows) && SettingsWritten(rules, rows)
    ensures Tally(rows, Weights(rules)) == SettingWeight(l.settings, CreditCardItems) + SettingWeight(l.settings, BankAccountItems)
  {
    SettingsSplit(rules, rows);
    SettingWeighs(rules, l, rows, CreditCardItems);
    SettingWeighs(rules, l, rows, BankAccountItems);
  }

  /** The rows of an archive weigh what the ledger does. */
  lemma {:induction false} ArchiveWeighs(rules: Rules, l: Ledger, marks: Marks, a: Archive)
    requires MarksImages(l, marks) && IsExport(rules, l, a) && Written(rules, l, marks, a)
    ensures Tally(AllRows(a), Weights(rules)) == LedgerWeight(rules, l)
  {
    TxsWeigh(rules, l, a.txs);
    ImagesWeigh(rules, l, a.images);
    TagsWeigh(rules, l, a.tags);
    PairsWeigh(rules, a.tagLinks);
    PairsWeigh(rules, a.links);
    SettingsWeigh(rules, l, a.settings);
    var w := Weights(rules);
    TallyConcat(a.links, a.settings, w);
    TallyConcat(a.tagLinks, a.links + a.settings, w);
    TallyConcat(a.tags, a.tagLinks + (a.links + a.settings), w);
    TallyConcat(a.images, a.tags + (a.tagLinks + (a.links + a.settings)), w);
    TallyConcat(a.txs, a.images + (a.tags + (a.tagLinks + (a.links + a.settings))), w);
  }

  method ExportRows(rules: Rules, l: Ledger, marks: Marks) returns (r: Option<Archive>)
    requires ImagesListed(l, marks)
    ensures r.Some? <==> RecordsWritable(rules, l, marks)
    ensures r.Some? ==> IsExport(rules, l, r.value) && Written(rules, l, marks, r.value) && |AllRows(r.value)| == RowCount(l)
  {
    var txs := ExportTxs(rules, l, marks);
    if txs.None? { return None; }
    var images := ExportImages(rules, l, marks);
    if images.None? { return None; }
    var tags := ExportTags(rules, l, marks);
    if tags.None? { return None; }
    var tagLinks := ExportPairs(l.tagLinks, true);
    var links := ExportPairs(l.links, false);
    var settings := ExportSettings(rules, l);
    if settings.None? { return None; }
    return Some(Archive(txs.value, images.value, tags.value, tagLinks, links, settings.value));
  }

  /** Writes the archive of a ledger, or refuses exactly what is not writable. */
  method Export(rules: Rules, l: Ledger, marks: Marks) returns (r: Option<Archive>)
    requires ImagesListed(l, marks)
    ensures r.Some? <==> Writable(rules, l, marks)
    ensures r.Some? ==> IsExport(rules, l, r.value) && Written(rules, l, marks, r.value)
    ensures r.Some? ==> |AllRows(r.value)| == RowCount(l) && Tally(AllRows(r.value), Weights(rules)) == LedgerWeight(rules, l)
  {
    r := ExportRows(rules, l, marks);
    if r.None? { return None; }
    var rows := AllRows(r.value);
    ArchiveWeighs(rules, l, marks, r.value);
    ChargesWeigh(rules, rows);
    var light := B.Preflight(Charges(rules, rows));
    if !light || |rows| >= B.MAX_ROWS { return None; }
  }
}
