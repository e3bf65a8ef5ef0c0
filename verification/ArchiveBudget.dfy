/** What the rows of an archive weigh in the importer's memory budget, and what a ledger
    weighs when it is exported. */
module ArchiveBudget {
  import opened Bytes
  import opened Sums
  import opened ArchiveRows
  import opened ArchiveParse
  import opened ArchiveImport
  import B = ParsedBudget

  /** An image is charged with the names its preparation gives it. */
  function ChargedImage(rules: Rules, r: Row): Row
    requires r.ImageRow?
  {
    if PreparedImage(rules, r).Some? then PreparedImage(rules, r).value else r
  }

  function Charge(rules: Rules, r: Row): seq<B.Row> {
    match r
    case TxRow(_, _, account, date, item, income, _, _, memo) =>
      [B.TransactionRow(|account|, |rules.dateText(date)|, |item|, |TypeText(income)|, |memo|)]
    case ImageRow(_, _, _, _, _, _, created) =>
      [B.ImageRow(|ChargedImage(rules, r).filename|, |ChargedImage(rules, r).mimeType|, |created|)]
    case TagRow(_, _, name, _, _) => [B.TagRow(|name|)]
    case TagLinkRow(_, _) => []
    case LinkRow(_, _) => []
    case SettingRow(_, key, value) => [B.SettingRow(|KeyText(key)|, |value|)]
  }

  function Charges(rules: Rules, rows: seq<Row>): seq<B.Row> {
    if rows == [] then [] else Charges(rules, rows[..|rows| - 1]) + Charge(rules, rows[|rows| - 1])
  }

  function Weight(rules: Rules, r: Row): nat {
    match r
    case TxRow(_, _, account, date, item, income, _, _, memo) =>
      |account| + |rules.dateText(date)| + |item| + |TypeText(income)| + |memo|
    case ImageRow(legacy, _, _, filename, mimeType, data, created) =>
      var p := rules.prepare(filename, mimeType, data);
      (if legacy || p.None? then |filename| + |mimeType| else |p.value.0| + |p.value.1|) + |created| + 1024
    case TagRow(_, _, name, _, _) => |name|
    case TagLinkRow(_, _) => 0
    case LinkRow(_, _) => 0
    case SettingRow(_, key, value) => |KeyText(key)| + |value|
  }

  function Weights(rules: Rules): Row -> nat {
    r => Weight(rules, r)
  }

  lemma {:induction false} TotalOf(a: nat, b: nat, c: nat, d: nat, e: nat)
    ensures B.Total([a]) == a && B.Total([a, b]) == a + b && B.Total([a, b, c]) == a + b + c
    ensures B.Total([a, b, c, d, e]) == a + b + c + d + e
  {
    assert [a][..0] == [] && [a, b][..1] == [a] && [a, b, c][..2] == [a, b] && [a, b, c, d][..3] == [a, b, c];
    assert [a, b, c, d, e][..4] == [a, b, c, d];
  }

  lemma {:induction false} ChargeWeighs(rules: Rules, r: Row)
    ensures B.RowsWeight(Charge(rules, r)) == Weight(rules, r)
  {
    var charge := Charge(rules, r);
    if charge != [] {
      assert charge[..0] == [];
      match charge[0]
      case TransactionRow(a, b, c, d, e) => TotalOf(a, b, c, d, e);
      case ImageRow(a, b, c) => TotalOf(a, b, c, 0, 0);
      case TagRow(a) => TotalOf(a, 0, 0, 0, 0);
      case SettingRow(a, b) => TotalOf(a, b, 0, 0, 0);
    }
  }

  lemma {:induction false} ChargesWeigh(rules: Rules, rows: seq<Row>)
    ensures B.RowsWeight(Charges(rules, rows)) == Tally(rows, Weights(rules))
  {
    if rows != [] {
      var n := |rows| - 1;
      ChargesWeigh(rules, rows[..n]);
      ChargeWeighs(rules, rows[n]);
      B.WeightConcat(Charges(rules, rows[..n]), Charge(rules, rows[n]));
    }
  }

  // ----- the weight of a ledger -----

  function TxWeight(rules: Rules, t: Tx): nat {
    |t.account| + |rules.dateText(t.date)| + |t.item| + |TypeText(t.income)| + |t.memo|
  }

  function ImageWeights(): StoredImage -> nat {
    (i: StoredImage) => |i.filename| + |i.mimeType| + |i.created| + B.IMAGE_STRUCTURE_BYTES
  }

  ghost function TxWeights(rules: Rules, l: Ledger): int -> int {
    id => if id in l.txs then TxWeight(rules, l.txs[id]) else 0
  }

  ghost function TagWeights(l: Ledger): int -> int {
    id => if id in l.tags then |l.tags[id].name| else 0
  }

  function SettingWeight(settings: map<SettingKey, Data>, key: SettingKey): nat {
    if key in settings then |KeyText(key)| + |settings[key]| else 0
  }

  /** All text of a ledger and a fixed weight for each image. */
  ghost function LedgerWeight(rules: Rules, l: Ledger): int {
    Sum(l.txs.Keys, TxWeights(rules, l)) + Tally(l.images, ImageWeights()) + Sum(l.tags.Keys, TagWeights(l))
    + SettingWeight(l.settings, CreditCardItems) + SettingWeight(l.settings, BankAccountItems)
  }

  /** Rows with different ids weigh what their ids do. */
  lemma {:induction false} WeightById(rows: seq<Row>, w: Row -> nat, f: int -> int)
    requires DistinctIds(rows) && forall k :: 0 <= k < |rows| ==> w(rows[k]) == f(IdOf(rows[k]))
    ensures Tally(rows, w) == Sum(Ids(rows), f)
  {
    if rows == [] {
      assert Ids(rows) == {};
    } else {
      var n := |rows| - 1;
      WeightById(rows[..n], w, f);
      IdsSnoc(rows);
      assert IdOf(rows[n]) !in Ids(rows[..n]);
      SumOneMore(Ids(rows[..n]), f, IdOf(rows[n]));
      assert w(rows[n]) == f(IdOf(rows[n]));
    }
  }
}
