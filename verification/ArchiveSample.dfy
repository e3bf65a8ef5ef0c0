/** Small ledgers through export and import. One with a card payment linked to its bank
    transaction, a tag, an image and both settings is restored, so nothing asked of a
    ledger, of its export or of the format's rules is out of reach; the same ledger with
    the payment linked to a second bank transaction is exported but not restored. */
module ArchiveSample {
  import opened Options
  import opened Bytes
  import opened Sums
  import opened ArchiveRows
  import opened ArchiveParse
  import opened ArchiveImport
  import opened ArchiveRoundTrip
  import opened ArchiveExport
  import opened ArchiveBudget
  import opened ArchiveFile
  import opened ArchiveFits
  import opened ArchiveSucceeds
  import opened ArchiveEndToEnd
  import opened TextCells
  import FieldStreams
  import Checked
  import IntText
  import Base64
  import Balances
  import CardLinks
  import Q = ImageQuota
  import B = ParsedBudget
  import G = CsvGuard
  import CsvText

  // ----- rules -----

  const CARD: Data := [99]
  const BANK: Data := [98]

  predicate IsPlain(v: Data) {
    !Marked(v) && |v| <= G.MAX_FIELD_BYTES
  }

  predicate TextsArePlain(r: Row) {
    match r
    case TxRow(_, _, account, _, item, _, _, _, memo) => IsPlain(account) && IsPlain(item) && IsPlain(memo)
    case ImageRow(_, _, _, filename, mimeType, _, created) => IsPlain(filename) && IsPlain(mimeType) && IsPlain(created)
    case TagRow(_, _, name, _, _) => IsPlain(name)
    case TagLinkRow(_, _) => true
    case LinkRow(_, _) => true
    case SettingRow(_, _, value) => IsPlain(value)
  }

  /** Dates are day numbers in decimal, and any image with data is as it should be. */
  function Rules(): ArchiveRows.Rules {
    ArchiveRows.Rules(
      Classes((v: Data) => false, (v: Data) => true),
      (d: Balances.Date) => IntText.Format(d.day),
      (v: Data) => if IntText.Parse(v).Some? then Some(Balances.Date(IntText.Parse(v).value, 0)) else None,
      (r: Row) => TextsArePlain(r),
      (filename: Data, mimeType: Data, data: Data) => if data == [] then None else Some((filename, mimeType, data)))
  }

  lemma {:induction false} RulesAreSound()
    ensures Sound(Rules())
  {
  }

  lemma {:induction false} DayReads(day: int)
    requires Checked.Fits(day)
    ensures DateReads(Rules(), Balances.Date(day, 0))
  {
    IntText.ParseFormat(day);
    IntText.FormatLength(day);
  }

  // ----- the ledger and its archive -----

  const CARD_TX := Tx(CARD, Balances.Date(20000, 0), [105], false, 1200, -1200, [])
  const BANK_TX := Tx(BANK, Balances.Date(20030, 0), [105], false, 1200, -1200, [109])
  const NEXT_TX := Tx(BANK, Balances.Date(20060, 0), [105], false, 300, -1500, [])
  const PHOTO := StoredImage(1, [112], [106], [1, 2, 3], [])

  const TXS: map<int, Tx> := map[1 := CARD_TX, 2 := BANK_TX, 3 := NEXT_TX]

  /** Where `shared`, the card payment has two banks. */
  function Book(shared: bool): Ledger {
    Ledger(TXS, map[7 := StoredTag([116], None, 1)], {(1, 7)}, if shared then {(1, 2), (1, 3)} else {(1, 2)},
           map[BankAccountItems := BANK, CreditCardItems := CARD], [PHOTO])
  }

  const MARKS := Marks({}, {}, [5], [false])

  function RowOfTx(id: int, t: Tx): Row {
    TxRow(false, id, t.account, t.date, t.item, t.income, t.amount, t.balance, t.memo)
  }

  function Rows(shared: bool): Archive {
    Archive([RowOfTx(1, CARD_TX), RowOfTx(2, BANK_TX), RowOfTx(3, NEXT_TX)],
            [ImageRow(false, 5, 1, PHOTO.filename, PHOTO.mimeType, PHOTO.data, PHOTO.created)],
            [TagRow(false, 7, [116], None, 1)],
            [TagLinkRow(1, 7)], if shared then [LinkRow(1, 2), LinkRow(1, 3)] else [LinkRow(1, 2)],
            [SettingRow(false, BankAccountItems, BANK), SettingRow(false, CreditCardItems, CARD)])
  }

  lemma {:induction false} BookIsStored(shared: bool)
    ensures WellStored(Rules(), Book(shared), MARKS)
  {
    DayReads(20000);
    DayReads(20030);
    DayReads(20060);
    var shots := Sizes(Book(shared).images);
    assert |shots| == 1 && Q.Grouped(shots);
    assert TxsStored(Rules(), Book(shared), MARKS);
    assert ImagesStored(Book(shared), MARKS);
    assert TagsStored(Book(shared), MARKS);
    assert LinksStored(Book(shared));
  }

  // ----- its export -----

  lemma {:induction false} ThreeIds(a: Row, b: Row, c: Row)
    ensures Ids([a, b, c]) == {IdOf(a), IdOf(b), IdOf(c)}
  {
    assert [a, b, c][0] == a && [a, b, c][1] == b && [a, b, c][2] == c;
  }

  lemma {:induction false} TxsInOrder(l: Ledger)
    requires l.txs == TXS
    ensures EarlierTx(l, 1, 2) && EarlierTx(l, 1, 3) && EarlierTx(l, 2, 3)
  {
    var t := TableOf(l.txs);
    assert t[1].date == CARD_TX.date && t[2].date == BANK_TX.date && t[3].date == NEXT_TX.date;
  }

  lemma {:induction false} ThreeRows(l: Ledger, a: Row, b: Row, c: Row)
    requires ExportsTx(l, a) && ExportsTx(l, b) && ExportsTx(l, c) && l.txs.Keys == {a.id, b.id, c.id}
    requires EarlierTx(l, a.id, b.id) && EarlierTx(l, a.id, c.id) && EarlierTx(l, b.id, c.id)
    ensures TxsExported(l, [a, b, c])
  {
    ThreeIds(a, b, c);
  }

  lemma {:induction false} ThreeWritten(a: Row, b: Row, c: Row)
    requires a.TxRow? && b.TxRow? && c.TxRow? && a.id != b.id && a.id != c.id && b.id != c.id
    requires TextsArePlain(a) && TextsArePlain(b) && TextsArePlain(c) && !a.legacy && !b.legacy && !c.legacy
    ensures TxsWritten(Rules(), MARKS, [a, b, c])
  {
  }

  lemma {:induction false} TxsAreExported(shared: bool)
    ensures TxsExported(Book(shared), Rows(shared).txs) && TxsWritten(Rules(), MARKS, Rows(shared).txs)
  {
    var a, b, c := RowOfTx(1, CARD_TX), RowOfTx(2, BANK_TX), RowOfTx(3, NEXT_TX);
    assert TXS.Keys == {1, 2, 3};
    TxsInOrder(Book(shared));
    ThreeRows(Book(shared), a, b, c);
    ThreeWritten(a, b, c);
  }

  lemma {:induction false} PhotoIsNormal(shared: bool)
    ensures !GoesArchived(Rules(), Book(shared), MARKS, 0)
  {
    var shots := Sizes(Book(shared).images);
    assert |shots| == 1 && shots[..0] == [] && shots[0] == Q.Shot(1, 3, false);
    assert Q.One(1)(shots[0]) == 1 && Q.Size(1)(shots[0]) == 3;
    assert Tally(shots, Q.One(1)) == 1 && Tally(shots, Q.Size(1)) == 3;
  }

  lemma {:induction false} ImagesAreExported(shared: bool)
    ensures ImagesExported(Rules(), Book(shared).images, Rows(shared).images) && ImagesWritten(Rules(), Book(shared), MARKS, Rows(shared).images)
  {
    PhotoIsNormal(shared);
    ArchivedExactly(Rules(), Book(shared), MARKS, 0);
    assert IsImageOf(Rules(), Book(shared), MARKS, 0, Rows(shared).images[0]);
    assert ExportsImage(Rules(), PHOTO, Rows(shared).images[0]);
  }

  lemma {:induction false} TagsAreExported(shared: bool)
    ensures TagsExported(Book(shared), Rows(shared).tags) && TagsWritten(Rules(), Book(shared), MARKS, Rows(shared).tags)
  {
    var l, rows := Book(shared), Rows(shared).tags;
    assert ExportsTag(l, rows[0]);
    forall id ensures id in Ids(rows) <==> id in l.tags.Keys {
      assert IdOf(rows[0]) == 7;
    }
  }

  lemma {:induction false} LinksAreExported(shared: bool)
    ensures LinksExported(Book(shared), Rows(shared).tagLinks, Rows(shared).links)
    ensures DistinctRows(Rows(shared).tagLinks) && DistinctRows(Rows(shared).links)
  {
    assert PairOfRow(Rows(shared).tagLinks[0]) == (1, 7) && PairOfRow(Rows(shared).links[0]) == (1, 2);
    assert shared ==> PairOfRow(Rows(shared).links[1]) == (1, 3);
  }

  lemma {:induction false} SettingsAreExported(shared: bool)
    ensures SettingsExported(Book(shared), Rows(shared).settings) && SettingsWritten(Rules(), Rows(shared).settings)
  {
    var l, rows := Book(shared), Rows(shared).settings;
    assert ExportsSetting(l, rows[0]) && ExportsSetting(l, rows[1]);
    assert rows[0].key == BankAccountItems && rows[1].key == CreditCardItems;
    forall key | key in l.settings ensures HasKey(rows, key) {
      assert key == rows[0].key || key == rows[1].key;
    }
  }

  lemma {:induction false} CountsMatch(shared: bool)
    ensures |AllRows(Rows(shared))| == RowCount(Book(shared)) <= 10
  {
    var l := Book(shared);
    assert l.txs.Keys == {1, 2, 3} && l.tags.Keys == {7} && l.settings.Keys == {BankAccountItems, CreditCardItems};
    assert |{(1, 2), (1, 3)}| == 2;
  }

  // ----- it is writable -----

  lemma {:induction false} Lone(w: Q.Shot -> nat, shots: seq<Q.Shot>)
    requires |shots| == 1
    ensures Tally(shots, w) == w(shots[0])
  {
    assert shots[..0] == [];
  }

  lemma {:induction false} PhotoFits(shared: bool)
    ensures Q.Restorable(Shots(Rules(), Book(shared), MARKS), AccountsIn(Book(shared)))
  {
    PhotoIsNormal(shared);
    var shots := Shots(Rules(), Book(shared), MARKS);
    assert shots[0] == Q.Shot(1, 3, false);
    Lone(Q.AnyLegacy(), shots);
    Lone(Q.AnySize(), shots);
    forall tx ensures Tally(shots, Q.Legacy(tx)) == 0 { Lone(Q.Legacy(tx), shots); }
    forall account ensures Tally(shots, Q.AccountSize(AccountsIn(Book(shared)), account)) <= 3 {
      Lone(Q.AccountSize(AccountsIn(Book(shared)), account), shots);
    }
  }

  lemma {:induction false} SumOfThree(f: int -> int)
    ensures Sum({1, 2, 3}, f) == f(1) + f(2) + f(3) && Sum({2, 3}, f) == f(2) + f(3)
  {
    SumOf(1, f);
    SumOf(2, f);
    SumOneMore({1}, f, 2);
    SumOneMore({1, 2}, f, 3);
    SumOneMore({2}, f, 3);
    assert {1} + {2} == {1, 2} && {1, 2} + {3} == {1, 2, 3} && {2} + {3} == {2, 3};
  }

  lemma {:induction false} SumOf(id: int, f: int -> int)
    ensures Sum({id}, f) == f(id)
  {
    SumOneMore({}, f, id);
    assert {} + {id} == {id};
  }

  lemma {:induction false} TxIsLight(t: Tx)
    requires |t.account| <= 1 && |t.item| <= 1 && |t.memo| <= 1 && Checked.Fits(t.date.day)
    ensures TxWeight(Rules(), t) <= 50
  {
    IntText.FormatLength(t.date.day);
    NamesBack(CreditCardItems, t.income);
  }

  lemma {:induction false} SettingIsLight(settings: map<SettingKey, Data>, key: SettingKey)
    requires key in settings ==> |settings[key]| <= 1
    ensures SettingWeight(settings, key) <= 50
  {
    NamesBack(key, true);
  }

  lemma {:induction false} TxsAreLight(l: Ledger)
    requires l.txs == TXS
    ensures Sum(l.txs.Keys, TxWeights(Rules(), l)) <= 150
  {
    assert l.txs.Keys == {1, 2, 3};
    SumOfThree(TxWeights(Rules(), l));
    TxIsLight(CARD_TX);
    TxIsLight(BANK_TX);
    TxIsLight(NEXT_TX);
  }

  lemma {:induction false} TagIsLight(l: Ledger)
    requires l.tags == map[7 := StoredTag([116], None, 1)]
    ensures Sum(l.tags.Keys, TagWeights(l)) == 1
  {
    assert l.tags.Keys == {7};
    SumOf(7, TagWeights(l));
  }

  lemma {:induction false} PhotoIsLight(images: seq<StoredImage>)
    requires images == [PHOTO]
    ensures Tally(images, ImageWeights()) == 1026
  {
    assert images[..0] == [];
  }

  lemma {:induction false} BookIsLight(shared: bool)
    ensures LedgerWeight(Rules(), Book(shared)) <= B.MAX_PARSED_BYTES
  {
    var l := Book(shared);
    TxsAreLight(l);
    TagIsLight(l);
    PhotoIsLight(l.images);
    SettingIsLight(l.settings, CreditCardItems);
    SettingIsLight(l.settings, BankAccountItems);
  }

  lemma {:induction false} TxsAreWritable(l: Ledger)
    requires l.txs == TXS
    ensures TxsWritable(Rules(), l, MARKS)
  {
    forall id | id in l.txs ensures TxRecord(Rules(), id in MARKS.txs, id, l.txs[id]).Some? {
      assert TextsArePlain(RowOfTx(id, l.txs[id]));
    }
  }

  lemma {:induction false} TagsAreWritable(l: Ledger)
    requires l.tags == map[7 := StoredTag([116], None, 1)]
    ensures TagsWritable(Rules(), l, MARKS)
  {
  }

  lemma {:induction false} SettingsAreWritable(l: Ledger)
    requires l.settings == map[BankAccountItems := BANK, CreditCardItems := CARD]
    ensures SettingsWritable(Rules(), l)
  {
    forall key | key in l.settings ensures SettingRecord(Rules(), key, l.settings[key]).Some? {
      assert TextsArePlain(SettingRow(false, key, l.settings[key]));
    }
  }

  lemma {:induction false} ImagesAreWritable(shared: bool)
    ensures ImagesWritable(Rules(), Book(shared), MARKS)
  {
    PhotoIsNormal(shared);
    assert TextsArePlain(Rows(shared).images[0]);
  }

  lemma {:induction false} BookIsWritable(shared: bool)
    ensures Writable(Rules(), Book(shared), MARKS)
  {
    BookIsLight(shared);
    PhotoFits(shared);
    CountsMatch(shared);
    TxsAreWritable(Book(shared));
    TagsAreWritable(Book(shared));
    SettingsAreWritable(Book(shared));
    ImagesAreWritable(shared);
  }

  // ----- its balances and links -----

  lemma {:induction false} BookIsBalanced(shared: bool)
    ensures Balances.Balanced(TableOf(Book(shared).txs))
  {
    var t := TableOf(TXS);
    assert t.Keys == {1, 2, 3};
    assert t[1].account != t[2].account && t[2].account == t[3].account;
    assert Balances.Upto(t, 1) == {1} && Balances.Upto(t, 2) == {2} && Balances.Upto(t, 3) == {2, 3};
    SumOf(1, Balances.SignedIn(t));
    SumOf(2, Balances.SignedIn(t));
    SumOfThree(Balances.SignedIn(t));
    assert t[1].balance == Balances.PrefixSum(t, 1) && t[2].balance == Balances.PrefixSum(t, 2);
    assert t[3].balance == Balances.PrefixSum(t, 3);
  }

  /** The setting texts name one account each. */
  function Env(): ArchiveImport.Env {
    ArchiveImport.Env((v: Data) => Some([if v == CARD then "card" else "bank"]), (v: Data) => if v == CARD then "card" else "bank", [])
  }

  lemma {:induction false} NamesAreTrimmed()
    ensures CardLinks.Trim("card") == "card" && CardLinks.Trim("bank") == "bank"
  {
  }

  lemma {:induction false} AccountsAreKnown(shared: bool, s: CardLinks.Settings)
    requires s == CardSettings(Env(), Book(shared).settings)
    ensures CardLinks.Cards(s) == {"card"} && CardLinks.Banks(s) == {"bank"}
  {
    NamesAreTrimmed();
    assert s.cardItems.value[0] == "card" && s.bankItems.value[0] == "bank";
  }

  lemma {:induction false} CardMeetsBank(s: CardLinks.Settings, a: int, b: int)
    requires CardLinks.Cards(s) == {"card"} && CardLinks.Banks(s) == {"bank"}
    ensures CardLinks.PairOf(a, "card", b, "bank", s) == Some((a, b))
  {
    NamesAreTrimmed();
  }

  lemma {:induction false} LinksJoin(shared: bool)
    ensures CardLinks.LinkPair(BookOf(Env(), Book(shared)), (1, 2)) == Some((1, 2))
    ensures CardLinks.LinkPair(BookOf(Env(), Book(shared)), (1, 3)) == Some((1, 3))
  {
    var b := BookOf(Env(), Book(shared));
    AccountsAreKnown(shared, b.settings);
    assert b.txs[1].account == "card" && b.txs[2].account == "bank" && b.txs[3].account == "bank";
    CardMeetsBank(b.settings, 1, 2);
    CardMeetsBank(b.settings, 1, 3);
  }

  /** The links of the first ledger are in order; in the second a card has two banks. */
  lemma {:induction false} LinksAreClean(shared: bool)
    ensures AllPaired(BookOf(Env(), Book(shared))) && (CardLinks.Clean(BookOf(Env(), Book(shared))) <==> !shared)
  {
    LinksJoin(shared);
    var b := BookOf(Env(), Book(shared));
    if shared {
      assert (1, 2) in b.links && (1, 3) in b.links;
      assert 2 in CardLinks.BanksOf(b, 1) && 3 in CardLinks.BanksOf(b, 1);
      AtMostOne(CardLinks.BanksOf(b, 1));
    } else {
      forall card ensures |CardLinks.BanksOf(b, card)| <= 1 {
        AtMostOne(CardLinks.BanksOf(b, card));
      }
    }
  }

  // ----- its file -----

  function QuoteAll(): Data -> bool { (v: Data) => true }

  function Table(shared: bool): seq<seq<Data>> { CellTable(Rules(), AllRows(Rows(shared))) }

  ghost function Format(shared: bool): ArchiveEndToEnd.Format
    requires FieldStreams.Wide(Table(shared), COLUMNS)
  {
    var manifest := Manifest(map kind | kind in KindTexts() :: CountOf(Table(shared), kind), DataStream(Table(shared)));
    ArchiveEndToEnd.Format([[104]], (cells: seq<Data>) => Some(manifest), (v: Data) => v)
  }

  lemma {:induction false} DoubledLength(v: Data)
    ensures |CsvText.Doubled(v)| <= 2 * |v|
  {
    if v != [] { DoubledLength(v[1..]); }
  }

  ghost predicate Short(cells: seq<Data>) {
    |cells| <= COLUMNS && forall k :: 0 <= k < |cells| ==> |cells[k]| <= 50
  }

  lemma {:induction false} FieldsLength(cells: seq<CsvText.Cell>)
    requires forall k :: 0 <= k < |cells| ==> |cells[k].value| <= 50
    ensures |CsvText.FieldsText(cells)| <= 103 * |cells|
  {
    if cells != [] {
      DoubledLength(cells[0].value);
      FieldsLength(cells[1..]);
    }
  }

  lemma {:induction false} ShortRow(cells: seq<Data>)
    requires Short(cells)
    ensures |CsvText.RowText(Quoted(QuoteAll(), cells))| <= 2400 && SmallRow(QuoteAll(), cells)
  {
    FieldsLength(Quoted(QuoteAll(), cells));
  }

  lemma {:induction false} FileLength(table: seq<seq<Data>>)
    requires forall k :: 0 <= k < |table| ==> Short(table[k])
    ensures |CsvText.FileText(QuotedTable(QuoteAll(), table))| <= 2400 * |table|
    decreases |table|
  {
    if table != [] {
      var rows, rest := QuotedTable(QuoteAll(), table), QuotedTable(QuoteAll(), table[1..]);
      ShortRow(table[0]);
      FileLength(table[1..]);
      assert rows[1..] == rest;
      assert CsvText.FileText(rows) == CsvText.RowText(rows[0]) + CsvText.FileText(rest);
    }
  }

  predicate IsShort(v: Data) {
    |v| <= 21 && G.CR !in v
  }

  predicate TextsAreShort(r: Row) {
    match r
    case TxRow(_, _, account, date, item, _, _, _, memo) =>
      IsShort(account) && IsShort(IntText.Format(date.day)) && IsShort(item) && IsShort(memo)
    case ImageRow(_, _, _, filename, mimeType, data, created) =>
      IsShort(filename) && IsShort(mimeType) && IsShort(created) && |data| <= 30
    case TagRow(_, _, name, _, _) => IsShort(name)
    case TagLinkRow(_, _) => true
    case LinkRow(_, _) => true
    case SettingRow(_, _, value) => IsShort(value)
  }

  lemma {:induction false} ShortTexts()
    ensures forall v :: IsShort(v) ==> |TextCell(Rules(), v)| <= 22
    ensures forall n :: Checked.Fits(n) ==> |IntText.Format(n)| <= 21
  {
    forall n | Checked.Fits(n) ensures |IntText.Format(n)| <= 21 { IntText.FormatLength(n); }
  }

  lemma {:induction false} ShortTx(r: Row)
    requires Numbered(r) && TextsAreShort(r) && r.TxRow?
    ensures Short(Cells(Rules(), r))
  {
    ShortTexts();
    KindBack(KindOfRow(r));
    NamesBack(CreditCardItems, r.income);
  }

  lemma {:induction false} ShortImage(r: Row)
    requires Numbered(r) && TextsAreShort(r) && r.ImageRow?
    ensures Short(Cells(Rules(), r))
  {
    ShortTexts();
    KindBack(KindOfRow(r));
    Base64.PaddedLength(r.data);
  }

  lemma {:induction false} ShortOther(r: Row)
    requires Numbered(r) && TextsAreShort(r) && !r.TxRow? && !r.ImageRow?
    ensures Short(Cells(Rules(), r))
  {
    ShortTexts();
    KindBack(KindOfRow(r));
    if r.SettingRow? { NamesBack(r.key, true); }
  }

  lemma {:induction false} ShortCells(r: Row)
    requires Numbered(r) && TextsAreShort(r)
    ensures Short(Cells(Rules(), r))
  {
    if r.TxRow? { ShortTx(r); } else if r.ImageRow? { ShortImage(r); } else { ShortOther(r); }
  }

  predicate IsSmall(r: Row) {
    Numbered(r) && TextsAreShort(r)
  }

  lemma {:induction false} TxIsShort(id: int, t: Tx)
    requires PositiveId(id) && PositiveId(t.amount) && IsShort(t.account) && IsShort(t.item) && IsShort(t.memo)
    requires Checked.Fits(t.date.day)
    ensures IsSmall(RowOfTx(id, t))
  {
    IntText.FormatLength(t.date.day);
    IntText.FormatHasNoCR(t.date.day);
  }

  ghost predicate AllSmall(rows: seq<Row>) {
    forall k :: 0 <= k < |rows| ==> IsSmall(rows[k])
  }

  lemma {:induction false} SmallConcat(a: seq<Row>, b: seq<Row>)
    requires AllSmall(a) && AllSmall(b)
    ensures AllSmall(a + b)
  {
  }

  lemma {:induction false} TxsAreShort(shared: bool)
    ensures AllSmall(Rows(shared).txs)
  {
    TxIsShort(1, CARD_TX);
    TxIsShort(2, BANK_TX);
    TxIsShort(3, NEXT_TX);
  }

  lemma {:induction false} OthersAreShort(shared: bool)
    ensures AllSmall(Rows(shared).images) && AllSmall(Rows(shared).tags) && AllSmall(Rows(shared).tagLinks)
    ensures AllSmall(Rows(shared).links) && AllSmall(Rows(shared).settings)
  {
  }

  lemma {:induction false} RowsAreShort(shared: bool)
    ensures AllSmall(AllRows(Rows(shared)))
  {
    TxsAreShort(shared);
    OthersAreShort(shared);
    var a := Rows(shared);
    SmallConcat(a.links, a.settings);
    SmallConcat(a.tagLinks, a.links + a.settings);
    SmallConcat(a.tags, a.tagLinks + (a.links + a.settings));
    SmallConcat(a.images, a.tags + (a.tagLinks + (a.links + a.settings)));
    SmallConcat(a.txs, a.images + (a.tags + (a.tagLinks + (a.links + a.settings))));
  }

  ghost predicate AllShort(table: seq<seq<Data>>) {
    forall k :: 0 <= k < |table| ==> Short(table[k])
  }

  lemma {:induction false} TableIsShort(rows: seq<Row>)
    requires AllSmall(rows)
    ensures AllShort(CellTable(Rules(), rows)) && RecordsShort(Rules(), QuoteAll(), rows)
  {
    CellTableAt(Rules(), rows);
    forall k | 0 <= k < |rows|
      ensures Short(CellTable(Rules(), rows)[k])
      ensures |CsvText.RowText(Quoted(QuoteAll(), Cells(Rules(), rows[k])))| <= G.MAX_RECORD_BYTES
    {
      ShortCells(rows[k]);
      ShortRow(Cells(Rules(), rows[k]));
    }
  }

  lemma {:induction false} WholeIsShort(header: seq<Data>, table: seq<seq<Data>>, manifest: seq<Data>)
    requires Short(header) && AllShort(table) && Short(manifest) && |table| <= 100
    ensures |CsvText.FileText(QuotedTable(QuoteAll(), [header] + table + [manifest]))| <= MAX_EXPORT_BYTES
  {
    var whole := [header] + table + [manifest];
    forall k | 0 <= k < |whole| ensures Short(whole[k]) {
      if 0 < k <= |table| { assert whole[k] == table[k - 1]; }
    }
    FileLength(whole);
  }

  lemma {:induction false} TableIsWide(shared: bool)
    ensures FieldStreams.Wide(Table(shared), COLUMNS) && |Table(shared)| <= 10
  {
    TableIsClean(Rules(), AllRows(Rows(shared)));
    CellTableAt(Rules(), AllRows(Rows(shared)));
    CountsMatch(shared);
  }

  lemma {:induction false} FileIsShort(shared: bool)
    ensures FieldStreams.Wide(Table(shared), COLUMNS) && RecordsShort(Rules(), QuoteAll(), AllRows(Rows(shared)))
    ensures |FileOf(QuoteAll(), Format(shared), Table(shared), [MANIFEST])| <= MAX_EXPORT_BYTES
  {
    RowsAreShort(shared);
    TableIsShort(AllRows(Rows(shared)));
    TableIsWide(shared);
    WholeIsShort([[104]], Table(shared), [MANIFEST]);
  }

  lemma {:induction false} FrameIsShort(f: ArchiveEndToEnd.Format, manifest: seq<Data>)
    requires Short(f.header) && NoCR(f.header) && Short(manifest) && NoCR(manifest) && f.manifestOf(manifest).Some?
    ensures Framed(f, QuoteAll(), manifest)
  {
    ShortRow(f.header);
    ShortRow(manifest);
  }

  lemma {:induction false} OneCell(v: Data)
    requires |v| <= 50 && G.CR !in v
    ensures Short([v]) && NoCR([v])
  {
  }

  lemma {:induction false} ManifestDescribes(shared: bool)
    requires FieldStreams.Wide(Table(shared), COLUMNS)
    ensures Describes(Format(shared).hash, Table(shared), Format(shared).manifestOf([MANIFEST]).value)
  {
  }

  lemma {:induction false} BookIsFramed(shared: bool)
    requires FieldStreams.Wide(Table(shared), COLUMNS)
    ensures Framed(Format(shared), QuoteAll(), [MANIFEST])
  {
    OneCell([104]);
    OneCell(MANIFEST);
    FrameIsShort(Format(shared), [MANIFEST]);
  }

  lemma {:induction false} BookIsExport(shared: bool)
    ensures IsExport(Rules(), Book(shared), Rows(shared)) && Written(Rules(), Book(shared), MARKS, Rows(shared))
  {
    TxsAreExported(shared);
    ImagesAreExported(shared);
    TagsAreExported(shared);
    LinksAreExported(shared);
    SettingsAreExported(shared);
  }

  lemma {:induction false} BookIsExported(shared: bool)
    ensures FieldStreams.Wide(Table(shared), COLUMNS)
    ensures ExportedAs(Rules(), Format(shared), QuoteAll(), Book(shared), MARKS, Rows(shared), [MANIFEST])
  {
    BookIsStored(shared);
    BookIsWritable(shared);
    BookIsExport(shared);
    CountsMatch(shared);
    FileIsShort(shared);
    BookIsFramed(shared);
    ManifestDescribes(shared);
  }

  lemma {:induction false} ImportedUnlessShared(shared: bool, base: int, tagBase: int)
    ensures FieldStreams.Wide(Table(shared), COLUMNS)
    ensures ImportFile(Rules(), Env(), Format(shared), base, tagBase, FileOf(QuoteAll(), Format(shared), Table(shared), [MANIFEST])).Some?
            <==> !shared
  {
    RulesAreSound();
    BookIsExported(shared);
    BookIsBalanced(shared);
    LinksAreClean(shared);
    FileIsShort(shared);
    ExportedFileImportsExactly(Rules(), Env(), Format(shared), QuoteAll(), Book(shared), MARKS, Rows(shared), [MANIFEST], base, tagBase);
  }

  /** All that a restore asks for can be met at once, and the import then succeeds. */
  lemma {:induction false} SampleIsRestored(base: int, tagBase: int)
    ensures Sound(Rules()) && FieldStreams.Wide(Table(false), COLUMNS)
    ensures ExportedAs(Rules(), Format(false), QuoteAll(), Book(false), MARKS, Rows(false), [MANIFEST])
    ensures Balances.Balanced(TableOf(Book(false).txs))
    ensures ImportFile(Rules(), Env(), Format(false), base, tagBase, FileOf(QuoteAll(), Format(false), Table(false), [MANIFEST])).Some?
  {
    RulesAreSound();
    BookIsExported(false);
    BookIsBalanced(false);
    ImportedUnlessShared(false, base, tagBase);
  }

  /** A ledger in which a card has two banks is exported, and its file is refused. */
  lemma {:induction false} SharedCardIsRefused(base: int, tagBase: int)
    ensures Sound(Rules()) && FieldStreams.Wide(Table(true), COLUMNS)
    ensures ExportedAs(Rules(), Format(true), QuoteAll(), Book(true), MARKS, Rows(true), [MANIFEST])
    ensures ImportFile(Rules(), Env(), Format(true), base, tagBase, FileOf(QuoteAll(), Format(true), Table(true), [MANIFEST])).None?
  {
    RulesAreSound();
    BookIsExported(true);
    ImportedUnlessShared(true, base, tagBase);
  }
}
