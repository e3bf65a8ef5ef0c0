/** A ledger whose file is too long in one record: it is exported, and refused. */
module ArchiveLong {
  import opened Options
  import opened Bytes
  import opened Sums
  import opened ArchiveRows
  import opened ArchiveParse
  import opened ArchiveImport
  import opened ArchiveRoundTrip
  import opened ArchiveExport
  import opened ArchiveBudget
  import opened ArchiveFile
  import opened ArchiveFits
  import opened ArchiveEndToEnd
  import opened TextCells
  import S = ArchiveSample
  import FieldStreams
  import Checked
  import IntText
  import Balances
  import Q = ImageQuota
  import G = CsvGuard
  import CsvText

  /** One legacy transaction with an account and a memo as long as a text may be. */
  function LongTx(): Tx {
    Tx(Quotes(G.MAX_FIELD_BYTES), Balances.Date(20000, 0), [105], false, 1200, -1200, Quotes(G.MAX_FIELD_BYTES))
  }

  function LongBook(): Ledger {
    Ledger(map[1 := LongTx()], map[], {}, {}, map[], [])
  }

  const LONG_MARKS := Marks({1}, {}, [], [])

  function LongRow(t: Tx): Row {
    TxRow(true, 1, t.account, t.date, t.item, t.income, t.amount, t.balance, t.memo)
  }

  function LongRows(): Archive {
    Archive([LongRow(LongTx())], [], [], [], [], [])
  }

  // ----- it is stored and written -----

  lemma {:induction false} BookIsStored()
    ensures WellStored(S.Rules(), LongBook(), LONG_MARKS)
  {
    S.DayReads(20000);
    assert Q.Grouped(Sizes(LongBook().images));
  }

  lemma {:induction false} RowIsPlain(t: Tx)
    requires t == LongTx()
    ensures S.Rules().accepts(LongRow(t))
  {
    assert t.account[0] == G.QUOTE;
    MarkerHasNoCR();
  }

  lemma {:induction false} TxIsExported(t: Tx, l: Ledger, rows: seq<Row>)
    requires t == LongTx() && l.txs == map[1 := t] && rows == [LongRow(t)]
    ensures TxsExported(l, rows) && TxsWritten(S.Rules(), LONG_MARKS, rows) && TxsWritable(S.Rules(), l, LONG_MARKS)
  {
    RowIsPlain(t);
    assert ExportsTx(l, rows[0]) && IdOf(rows[0]) == 1;
    assert Ids(rows) == {1} && l.txs.Keys == {1};
  }

  lemma {:induction false} NothingElse(l: Ledger, a: Archive)
    requires l.tags == map[] && l.tagLinks == {} && l.links == {} && l.settings == map[] && l.images == []
    requires a.images == [] && a.tags == [] && a.tagLinks == [] && a.links == [] && a.settings == []
    ensures ImagesExported(S.Rules(), l.images, a.images) && TagsExported(l, a.tags) && LinksExported(l, a.tagLinks, a.links)
    ensures SettingsExported(l, a.settings) && ImagesWritten(S.Rules(), l, LONG_MARKS, a.images)
    ensures TagsWritten(S.Rules(), l, LONG_MARKS, a.tags) && DistinctRows(a.tagLinks) && DistinctRows(a.links)
    ensures SettingsWritten(S.Rules(), a.settings) && AllRows(a) == a.txs
  {
    assert Ids(a.tags) == {} && l.tags.Keys == {};
  }

  lemma {:induction false} BookIsExport()
    ensures IsExport(S.Rules(), LongBook(), LongRows()) && Written(S.Rules(), LongBook(), LONG_MARKS, LongRows())
    ensures AllRows(LongRows()) == [LongRow(LongTx())]
  {
    TxIsExported(LongTx(), LongBook(), LongRows().txs);
    NothingElse(LongBook(), LongRows());
  }

  lemma {:induction false} OneRow(l: Ledger)
    requires |l.txs.Keys| == 1 && l.tags == map[] && l.tagLinks == {} && l.links == {} && l.settings == map[] && l.images == []
    ensures RowCount(l) == 1
  {
  }

  lemma {:induction false} CountIsOne()
    ensures RowCount(LongBook()) == 1
  {
    assert LongBook().txs.Keys == {1};
    OneRow(LongBook());
  }

  lemma {:induction false} TxIsLight(t: Tx, l: Ledger)
    requires |t.account| == |t.memo| == G.MAX_FIELD_BYTES && |t.item| <= 1 && Checked.Fits(t.date.day) && l.txs == map[1 := t]
    ensures Sum(l.txs.Keys, TxWeights(S.Rules(), l)) <= 2 * G.MAX_FIELD_BYTES + 50
  {
    assert l.txs.Keys == {1};
    S.SumOf(1, TxWeights(S.Rules(), l));
    IntText.FormatLength(t.date.day);
    NamesBack(CreditCardItems, t.income);
  }

  lemma {:induction false} NoImages(l: Ledger)
    requires l.images == []
    ensures Q.Restorable(Shots(S.Rules(), l, LONG_MARKS), AccountsIn(l)) && ImagesWritable(S.Rules(), l, LONG_MARKS)
    ensures Tally(l.images, ImageWeights()) == 0
  {
    assert Shots(S.Rules(), l, LONG_MARKS) == [];
  }

  lemma {:induction false} BookIsLight(l: Ledger)
    requires l.tags == map[] && l.settings == map[] && l.images == [] && Tally(l.images, ImageWeights()) == 0
    requires Sum(l.txs.Keys, TxWeights(S.Rules(), l)) <= 2 * G.MAX_FIELD_BYTES + 50
    ensures LedgerWeight(S.Rules(), l) <= 2 * G.MAX_FIELD_BYTES + 50
  {
    assert l.tags.Keys == {};
    assert Sum({}, TagWeights(l)) == 0;
  }

  lemma {:induction false} BookIsWritable()
    ensures Writable(S.Rules(), LongBook(), LONG_MARKS)
  {
    CountIsOne();
    TxIsExported(LongTx(), LongBook(), LongRows().txs);
    TxIsLight(LongTx(), LongBook());
    NoImages(LongBook());
    BookIsLight(LongBook());
  }

  lemma {:induction false} BookIsBalanced()
    ensures Balances.Balanced(TableOf(LongBook().txs))
  {
    var t := TableOf(LongBook().txs);
    assert t.Keys == {1};
    assert Balances.Upto(t, 1) == {1};
    S.SumOf(1, Balances.SignedIn(t));
  }

  // ----- its file is within the export limit -----

  lemma {:induction false} OneCellShorter(cells: seq<CsvText.Cell>, i: nat, c: CsvText.Cell)
    requires i < |cells|
    ensures |CsvText.FieldsText(cells)| + |CsvText.CellText(c)| == |CsvText.FieldsText(cells[i := c])| + |CsvText.CellText(cells[i])|
    decreases |cells|
  {
    if i > 0 {
      OneCellShorter(cells[1..], i - 1, c);
      assert cells[i := c][1..] == cells[1..][i - 1 := c];
    } else {
      assert cells[i := c][1..] == cells[1..];
    }
  }

  lemma {:induction false} TwoLongCells(cells: seq<CsvText.Cell>, i: nat, j: nat)
    requires i < j < |cells| <= COLUMNS && |cells[i].value| <= G.MAX_FIELD_BYTES && |cells[j].value| <= G.MAX_FIELD_BYTES
    requires forall k :: 0 <= k < |cells| && k != i && k != j ==> |cells[k].value| <= 50
    ensures |CsvText.FieldsText(cells)| <= 4 * G.MAX_FIELD_BYTES + 2400
  {
    var empty := CsvText.Cell([], false);
    OneCellShorter(cells, i, empty);
    OneCellShorter(cells[i := empty], j, empty);
    S.FieldsLength(cells[i := empty][j := empty]);
    S.DoubledLength(cells[i].value);
    S.DoubledLength(cells[j].value);
  }

  lemma {:induction false} RowIsBounded(t: Tx)
    requires t == LongTx()
    ensures |CsvText.RowText(Quoted(S.QuoteAll(), Cells(S.Rules(), LongRow(t))))| <= 5 * G.MAX_FIELD_BYTES
  {
    var r := LongRow(t);
    var cells := Cells(S.Rules(), r);
    QuotesStay(S.Rules(), t.account);
    TxCells(S.Rules(), r);
    OtherCells(t, t.(account := [], memo := []));
    TwoLongCells(Quoted(S.QuoteAll(), cells), 7, 13);
  }

  /** Cells other than account and memo do not depend on them. */
  lemma {:induction false} OtherCells(t: Tx, u: Tx)
    requires u == t.(account := [], memo := []) && S.IsShort(t.item) && Checked.Fits(t.date.day) && PositiveId(t.amount)
    ensures forall k :: 0 <= k < COLUMNS && k != 7 && k != 13 ==> |Cells(S.Rules(), LongRow(t))[k]| <= 50
  {
    IntText.FormatLength(t.date.day);
    IntText.FormatHasNoCR(t.date.day);
    S.ShortCells(LongRow(u));
    forall k | 0 <= k < COLUMNS && k != 7 && k != 13 ensures |Cells(S.Rules(), LongRow(t))[k]| <= 50 {
      assert Cells(S.Rules(), LongRow(t))[k] == Cells(S.Rules(), LongRow(u))[k];
    }
  }

  function LongTable(): seq<seq<Data>> { CellTable(S.Rules(), AllRows(LongRows())) }

  ghost function LongFormat(): ArchiveEndToEnd.Format
    requires FieldStreams.Wide(LongTable(), COLUMNS)
  {
    var manifest := Manifest(map kind | kind in KindTexts() :: CountOf(LongTable(), kind), DataStream(LongTable()));
    ArchiveEndToEnd.Format([[104]], (cells: seq<Data>) => Some(manifest), (v: Data) => v)
  }

  lemma {:induction false} ThreeRows(a: seq<Data>, b: seq<Data>, c: seq<Data>, quote: Data -> bool)
    ensures |CsvText.FileText(QuotedTable(quote, [a] + [b] + [c]))|
         == |CsvText.RowText(Quoted(quote, a))| + |CsvText.RowText(Quoted(quote, b))| + |CsvText.RowText(Quoted(quote, c))|
  {
    var rows := QuotedTable(quote, [a] + [b] + [c]);
    assert rows == [Quoted(quote, a), Quoted(quote, b), Quoted(quote, c)];
    var two, one := [Quoted(quote, b), Quoted(quote, c)], [Quoted(quote, c)];
    assert rows[1..] == two && two[1..] == one && one[1..] == [];
    assert CsvText.FileText(one) == CsvText.RowText(one[0]) + [];
    assert CsvText.FileText(two) == CsvText.RowText(two[0]) + CsvText.FileText(one);
  }

  lemma {:induction false} FileIsBounded()
    ensures FieldStreams.Wide(LongTable(), COLUMNS)
    ensures |FileOf(S.QuoteAll(), LongFormat(), LongTable(), [MANIFEST])| <= MAX_EXPORT_BYTES
    ensures Framed(LongFormat(), S.QuoteAll(), [MANIFEST])
  {
    BookIsExport();
    TableIsClean(S.Rules(), AllRows(LongRows()));
    CellTableAt(S.Rules(), AllRows(LongRows()));
    var cells := Cells(S.Rules(), LongRow(LongTx()));
    assert LongTable() == [cells];
    S.OneCell([104]);
    S.OneCell(MANIFEST);
    S.ShortRow([[104]]);
    S.ShortRow([MANIFEST]);
    S.FrameIsShort(LongFormat(), [MANIFEST]);
    RowIsBounded(LongTx());
    ThreeRows([[104]], cells, [MANIFEST], S.QuoteAll());
  }

  lemma {:induction false} BookIsExported()
    ensures FieldStreams.Wide(LongTable(), COLUMNS)
    ensures ExportedAs(S.Rules(), LongFormat(), S.QuoteAll(), LongBook(), LONG_MARKS, LongRows(), [MANIFEST])
  {
    BookIsStored();
    BookIsWritable();
    BookIsExport();
    CountIsOne();
    FileIsBounded();
    ManifestDescribes();
  }

  lemma {:induction false} ManifestDescribes()
    requires FieldStreams.Wide(LongTable(), COLUMNS)
    ensures Describes(LongFormat().hash, LongTable(), LongFormat().manifestOf([MANIFEST]).value)
  {
  }

  lemma {:induction false} RecordIsLong()
    ensures !RecordsShort(S.Rules(), S.QuoteAll(), AllRows(LongRows()))
  {
    BookIsExport();
    var r := LongRow(LongTx());
    LongRecord(S.Rules(), S.QuoteAll(), r);
    assert AllRows(LongRows())[0] == r;
  }

  /** The ledger is exported without complaint, and the file is refused by its importer. */
  lemma {:induction false} LongBookIsRefused(base: int, tagBase: int)
    ensures Sound(S.Rules()) && FieldStreams.Wide(LongTable(), COLUMNS)
    ensures ExportedAs(S.Rules(), LongFormat(), S.QuoteAll(), LongBook(), LONG_MARKS, LongRows(), [MANIFEST])
    ensures ImportFile(S.Rules(), S.Env(), LongFormat(), base, tagBase, FileOf(S.QuoteAll(), LongFormat(), LongTable(), [MANIFEST])).None?
  {
    S.RulesAreSound();
    BookIsExported();
    BookIsBalanced();
    RecordIsLong();
    ExportedFileImportsExactly(S.Rules(), S.Env(), LongFormat(), S.QuoteAll(), LongBook(), LONG_MARKS, LongRows(), [MANIFEST], base, tagBase);
  }
}
