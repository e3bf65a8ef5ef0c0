/** From a ledger to the bytes of its archive and back. */
module ArchiveEndToEnd {
  import opened Options
  import opened Bytes
  import opened FieldStreams
  import opened ArchiveRows
  import opened ArchiveParse
  import opened ArchiveTags
  import opened ArchiveImport
  import opened ArchiveRoundTrip
  import opened ArchiveFile
  import opened ArchiveBudget
  import opened ArchiveExport
  import opened ArchiveSucceeds
  import opened ArchiveFits
  import opened Sums
  import Balances
  import CardLinks
  import Checked
  import TextCells
  import IntText
  import B = ParsedBudget
  import G = CsvGuard
  import CsvText

  const MAX_IMPORT_BYTES: nat := 512 * 1024 * 1024

  /** Three bytes are left for a byte order mark in front of the file. */
  const MAX_EXPORT_BYTES: nat := MAX_IMPORT_BYTES - 3

  const V3Limits := G.Limits(G.MAX_GUARD_FIELD_BYTES, true)

  /** The parts of the file format that are not data rows: the header line, how a
      manifest reads from its row, and the hash. */
  datatype Format = Format(header: seq<Data>, manifestOf: seq<Data> -> Option<Manifest>, hash: Data -> Data)

  /** A header, the data rows and a manifest that describes them. */
  ghost function DataRows(f: Format, table: seq<seq<Data>>): Option<seq<seq<Data>>> {
    if |table| < 2 || table[0] != f.header then None
    else
      var data, last := table[1..|table| - 1], f.manifestOf(table[|table| - 1]);
      if last.None? || !Wide(data, COLUMNS) || !Describes(f.hash, data, last.value) then None else Some(data)
  }

  function FieldsOf(records: seq<G.Record>): seq<seq<Data>> {
    seq(|records|, i requires 0 <= i < |records| => records[i].fields)
  }

  /** The rows of an archive file; `None` is a refusal: too many bytes, a record the guard
      stops, malformed CSV, too many rows, a manifest that does not describe them, an
      unreadable row, or more text than the memory budget. */
  ghost function ReadFile(rules: Rules, f: Format, bytes: Data): Option<seq<Row>> {
    if |bytes| > MAX_IMPORT_BYTES || G.ConsumeAll(V3Limits, G.Initial, bytes).None? || G.Records(bytes).None? then None
    else
      var records := G.Records(bytes).value;
      var data := DataRows(f, FieldsOf(records));
      if |records| > B.MAX_ROWS + 1 || data.None? then None
      else
        var rows := ReadAll(rules, data.value);
        if rows.None? || Tally(rows.value, Weights(rules)) > B.MAX_PARSED_BYTES then None else rows
  }

  ghost function ImportFile(rules: Rules, env: Env, f: Format, base: int, tagBase: int, bytes: Data): Option<Ledger> {
    var rows := ReadFile(rules, f, bytes);
    if rows.None? then None
    else
      var p := Parse(rules, rows.value);
      if p.None? then None
      else
        ParsedIsImportable(rules, rows.value);
        Replace(env, base, tagBase, p.value)
  }

  /** The bytes of an archive with these rows. */
  function FileOf(quote: Data -> bool, f: Format, table: seq<seq<Data>>, manifest: seq<Data>): Data {
    CsvText.FileText(QuotedTable(quote, [f.header] + table + [manifest]))
  }

  ghost predicate AllClean(table: seq<seq<Data>>) {
    forall j :: 0 <= j < |table| ==> NoCR(table[j])
  }

  lemma {:induction false} FieldsAreRead(quote: Data -> bool, table: seq<seq<Data>>)
    requires QuotesEnough(quote) && table != [] && AllClean(table)
    ensures var records := G.Records(CsvText.FileText(QuotedTable(quote, table)));
            records.Some? && FieldsOf(records.value) == table
  {
    TableIsRead(quote, table, 0);
    var records := G.Records(CsvText.FileText(QuotedTable(quote, table))).value;
    forall i | 0 <= i < |table| ensures records[i].fields == table[i] {
      TableIsRead(quote, table, i);
    }
  }

  lemma {:induction false} CellTableAt(rules: Rules, rows: seq<Row>)
    ensures |CellTable(rules, rows)| == |rows|
    ensures forall k :: 0 <= k < |rows| ==> CellTable(rules, rows)[k] == Cells(rules, rows[k])
  {
    if rows != [] { CellTableAt(rules, rows[1..]); }
  }

  lemma {:induction false} TableIsClean(rules: Rules, rows: seq<Row>)
    ensures Wide(CellTable(rules, rows), COLUMNS) && AllClean(CellTable(rules, rows))
  {
    CellTableAt(rules, rows);
    var table := CellTable(rules, rows);
    forall j | 0 <= j < |table| ensures NoCR(table[j]) {
      CellsAreClean(rules, rows[j]);
    }
  }

  lemma {:induction false} WholeIsClean(header: seq<Data>, table: seq<seq<Data>>, manifest: seq<Data>)
    requires NoCR(header) && NoCR(manifest) && AllClean(table)
    ensures AllClean([header] + table + [manifest])
  {
    var whole := [header] + table + [manifest];
    forall j | 0 <= j < |whole| ensures NoCR(whole[j]) {
      assert 1 <= j <= |table| ==> whole[j] == table[j - 1];
    }
  }

  /** The data rows of a file are the rows it was written from. */
  lemma {:induction false} DataRowsBack(f: Format, quote: Data -> bool, table: seq<seq<Data>>, manifest: seq<Data>)
    requires QuotesEnough(quote) && AllClean(table) && NoCR(f.header) && NoCR(manifest)
    requires f.manifestOf(manifest).Some? && Wide(table, COLUMNS) && Describes(f.hash, table, f.manifestOf(manifest).value)
    ensures var records := G.Records(FileOf(quote, f, table, manifest));
            records.Some? && DataRows(f, FieldsOf(records.value)) == Some(table)
  {
    WholeIsClean(f.header, table, manifest);
    FieldsAreRead(quote, [f.header] + table + [manifest]);
    MiddleIs(f.header, table, manifest);
  }

  /** What the importer reads from an exported file are the exported rows, unless the file
      is over one of its limits. */
  lemma {:induction false} FileReadsBack(rules: Rules, f: Format, quote: Data -> bool, rows: seq<Row>, manifest: seq<Data>)
    requires Sound(rules) && QuotesEnough(quote)
    requires forall k :: 0 <= k < |rows| ==> Exportable(rules, rows[k])
    requires NoCR(f.header) && NoCR(manifest) && f.manifestOf(manifest).Some?
    requires Wide(CellTable(rules, rows), COLUMNS) && Describes(f.hash, CellTable(rules, rows), f.manifestOf(manifest).value)
    ensures var file := FileOf(quote, f, CellTable(rules, rows), manifest);
      ReadFile(rules, f, file) == if WithinLimits(rules, file, rows) then Some(rows) else None
  {
    TableIsClean(rules, rows);
    DataRowsBack(f, quote, CellTable(rules, rows), manifest);
    RowsReadBack(rules, rows);
    CellTableAt(rules, rows);
    RecordCount(f, quote, CellTable(rules, rows), manifest);
  }

  ghost predicate WithinLimits(rules: Rules, file: Data, rows: seq<Row>) {
    && |file| <= 536_870_912 && G.ConsumeAll(V3Limits, G.Initial, file).Some?
    && |rows| < 1_000_000 && Tally(rows, Weights(rules)) <= 67_108_864
  }

  lemma {:induction false} RecordCount(f: Format, quote: Data -> bool, table: seq<seq<Data>>, manifest: seq<Data>)
    requires QuotesEnough(quote) && AllClean(table) && NoCR(f.header) && NoCR(manifest)
    ensures var records := G.Records(FileOf(quote, f, table, manifest)); records.Some? && |records.value| == |table| + 2
  {
    WholeIsClean(f.header, table, manifest);
    FieldsAreRead(quote, [f.header] + table + [manifest]);
  }

  lemma {:induction false} MiddleIs(header: seq<Data>, table: seq<seq<Data>>, manifest: seq<Data>)
    ensures var whole := [header] + table + [manifest];
            whole[0] == header && whole[|whole| - 1] == manifest && whole[1..|whole| - 1] == table
  {
  }

  /** Whenever the replace import of the file exported from a ledger succeeds, it
      restores the ledger under an injective renaming of ids, balances included where
      they were prefix sums. */
  lemma {:induction false} ExportedFileRestores(rules: Rules, env: Env, f: Format, quote: Data -> bool, l: Ledger, a: Archive, manifest: seq<Data>,
                             base: int, tagBase: int)
    returns (txs: map<int, int>, tags: map<int, int>)
    requires Sound(rules) && QuotesEnough(quote) && IsExport(rules, l, a)
    requires forall k :: 0 <= k < |AllRows(a)| ==> Exportable(rules, AllRows(a)[k])
    requires NoCR(f.header) && NoCR(manifest) && f.manifestOf(manifest).Some?
    requires Wide(CellTable(rules, AllRows(a)), COLUMNS)
    requires Describes(f.hash, CellTable(rules, AllRows(a)), f.manifestOf(manifest).value)
    requires ImportFile(rules, env, f, base, tagBase, FileOf(quote, f, CellTable(rules, AllRows(a)), manifest)).Some?
    ensures var m := ImportFile(rules, env, f, base, tagBase, FileOf(quote, f, CellTable(rules, AllRows(a)), manifest)).value;
      && Same(env, l, m, txs, tags)
      && (Balances.Balanced(TableOf(l.txs)) ==>
            forall id :: id in l.txs ==> id in txs && txs[id] in m.txs && m.txs[txs[id]].balance == l.txs[id].balance)
  {
    var rows := AllRows(a);
    FileReadsBack(rules, f, quote, rows, manifest);
    var p := Parse(rules, rows).value;
    ParsedIsImportable(rules, rows);
    RestoresTheLedger(rules, env, l, a, base, tagBase, p);
    txs, tags := TxIds(base, p.txs), InsertTags(tagBase, p.tags).value.ids;
    if Balances.Balanced(TableOf(l.txs)) {
      forall id | id in l.txs
        ensures var m := Replace(env, base, tagBase, p).value;
                id in txs && txs[id] in m.txs && m.txs[txs[id]].balance == l.txs[id].balance
      {
        RestoresBalances(rules, env, l, a, base, tagBase, p, id);
      }
    }
  }

  // ----- when the file is accepted -----

  /** A row the guard lets through. */
  ghost predicate SmallRow(quote: Data -> bool, cells: seq<Data>) {
    |CsvText.RowText(Quoted(quote, cells))| <= G.MAX_RECORD_BYTES && |cells| <= G.MAX_RECORD_FIELDS && G.FieldsFit(V3Limits, cells)
  }

  /** The writer's quoting, a header and a manifest row as the format has them. */
  ghost predicate Framed(f: Format, quote: Data -> bool, manifest: seq<Data>) {
    && QuotesEnough(quote) && NoCR(f.header) && NoCR(manifest) && f.manifestOf(manifest).Some?
    && SmallRow(quote, f.header) && SmallRow(quote, manifest)
  }

  /** No data record is longer than the guard's limit. */
  ghost predicate RecordsShort(rules: Rules, quote: Data -> bool, rows: seq<Row>) {
    forall k :: 0 <= k < |rows| ==> |CsvText.RowText(Quoted(quote, Cells(rules, rows[k])))| <= 33_554_432
  }

  lemma {:induction false} SmallNumbers(n: int)
    requires Checked.Fits(n)
    ensures |IntText.Format(n)| <= G.MAX_GUARD_FIELD_BYTES
  {
    IntText.FormatLength(n);
  }

  lemma {:induction false} SmallText(rules: Rules, v: Data)
    requires Plain(rules, v)
    ensures |TextCell(rules, v)| <= G.MAX_GUARD_FIELD_BYTES
  {
    TextCells.FitsTheGuard(rules.classes, v);
  }

  lemma {:induction false} SmallName(rules: Rules, v: Data)
    requires v != [] && 97 <= v[0] as int <= 122 && |v| <= 18 && G.CR !in v
    ensures |TextCell(rules, v)| <= G.MAX_GUARD_FIELD_BYTES
  {
    NameBack(rules, v);
  }

  lemma {:induction false} TxCellsFit(rules: Rules, r: Row)
    requires Sound(rules) && Exportable(rules, r) && r.TxRow?
    ensures G.FieldsFit(V3Limits, Cells(rules, r))
  {
    KindBack(KindOfRow(r));
    SmallNumbers(r.id);
    SmallNumbers(r.amount);
    SmallNumbers(r.balance);
    SmallText(rules, r.account);
    SmallText(rules, rules.dateText(r.date));
    SmallText(rules, r.item);
    SmallText(rules, r.memo);
    NamesBack(CreditCardItems, r.income);
    SmallName(rules, TypeText(r.income));
  }

  lemma {:induction false} ImageCellsFit(rules: Rules, r: Row)
    requires Sound(rules) && Exportable(rules, r) && r.ImageRow?
    ensures G.FieldsFit(V3Limits, Cells(rules, r))
  {
    KindBack(KindOfRow(r));
    SmallNumbers(r.id);
    SmallNumbers(r.tx);
    SmallText(rules, r.filename);
    SmallText(rules, r.mimeType);
    SmallText(rules, r.created);
    ImageDataBack(r.data, ImageLimit(r.legacy));
  }

  lemma {:induction false} OtherCellsFit(rules: Rules, r: Row)
    requires Sound(rules) && Exportable(rules, r) && !r.TxRow? && !r.ImageRow?
    ensures G.FieldsFit(V3Limits, Cells(rules, r))
  {
    KindBack(KindOfRow(r));
    match r
    case TagRow(_, id, name, parent, level) =>
      SmallNumbers(id);
      SmallNumbers(level);
      if parent.Some? { SmallNumbers(parent.value); }
      SmallText(rules, name);
    case TagLinkRow(tx, tag) =>
      SmallNumbers(tx);
      SmallNumbers(tag);
    case LinkRow(first, second) =>
      SmallNumbers(first);
      SmallNumbers(second);
    case SettingRow(_, key, value) =>
      NamesBack(key, true);
      SmallName(rules, KeyText(key));
      SmallText(rules, value);
  }

  /** No cell of an exported row is above the guard's field limit. */
  lemma {:induction false} CellsFit(rules: Rules, r: Row)
    requires Sound(rules) && Exportable(rules, r)
    ensures G.FieldsFit(V3Limits, Cells(rules, r)) && |Cells(rules, r)| <= G.MAX_RECORD_FIELDS
  {
    if r.TxRow? { TxCellsFit(rules, r); }
    else if r.ImageRow? { ImageCellsFit(rules, r); }
    else { OtherCellsFit(rules, r); }
  }

  lemma {:induction false} GuardPassesExactly(quote: Data -> bool, table: seq<seq<Data>>)
    requires QuotesEnough(quote) && AllClean(table)
    ensures G.ConsumeAll(V3Limits, G.Initial, CsvText.FileText(QuotedTable(quote, table))).Some?
            <==> forall i :: 0 <= i < |table| ==> SmallRow(quote, table[i])
  {
    QuotedIsWritable(quote, table);
    var rows := QuotedTable(quote, table);
    CsvText.WrittenPassesGuard(V3Limits, rows);
    forall i | 0 <= i < |table|
      ensures rows[i] == Quoted(quote, table[i]) && |rows[i]| == |table[i]| && CsvText.Values(rows[i]) == table[i]
    {
      ValuesOfQuoted(quote, table[i]);
    }
  }

  lemma {:induction false} AllSmall(quote: Data -> bool, header: seq<Data>, table: seq<seq<Data>>, manifest: seq<Data>)
    requires SmallRow(quote, header) && SmallRow(quote, manifest)
    ensures var whole := [header] + table + [manifest];
      (forall i :: 0 <= i < |whole| ==> SmallRow(quote, whole[i])) <==> forall k :: 0 <= k < |table| ==> SmallRow(quote, table[k])
  {
    var whole := [header] + table + [manifest];
    assert forall k :: 0 <= k < |table| ==> whole[k + 1] == table[k];
    if forall k :: 0 <= k < |table| ==> SmallRow(quote, table[k]) {
      forall i | 0 <= i < |whole| ensures SmallRow(quote, whole[i]) {
        if 0 < i <= |table| { assert whole[i] == table[i - 1]; }
      }
    }
    if forall i :: 0 <= i < |whole| ==> SmallRow(quote, whole[i]) {
      forall k | 0 <= k < |table| ensures SmallRow(quote, table[k]) { assert SmallRow(quote, whole[k + 1]); }
    }
  }

  lemma {:induction false} SmallCells(rules: Rules, quote: Data -> bool, rows: seq<Row>)
    requires Sound(rules) && forall k :: 0 <= k < |rows| ==> Exportable(rules, rows[k])
    ensures var table := CellTable(rules, rows);
      (forall k :: 0 <= k < |table| ==> SmallRow(quote, table[k])) <==> RecordsShort(rules, quote, rows)
  {
    CellTableAt(rules, rows);
    forall k | 0 <= k < |rows|
      ensures SmallRow(quote, CellTable(rules, rows)[k])
              <==> |CsvText.RowText(Quoted(quote, Cells(rules, rows[k])))| <= G.MAX_RECORD_BYTES
    {
      CellsFit(rules, rows[k]);
    }
  }

  /** The guard lets an exported file through exactly when no record is too long. */
  lemma {:induction false} FilePassesExactly(rules: Rules, f: Format, quote: Data -> bool, rows: seq<Row>, manifest: seq<Data>)
    requires Sound(rules) && Framed(f, quote, manifest) && forall k :: 0 <= k < |rows| ==> Exportable(rules, rows[k])
    ensures G.ConsumeAll(V3Limits, G.Initial, FileOf(quote, f, CellTable(rules, rows), manifest)).Some?
            <==> RecordsShort(rules, quote, rows)
  {
    var table := CellTable(rules, rows);
    TableIsClean(rules, rows);
    WholeIsClean(f.header, table, manifest);
    GuardPassesExactly(quote, [f.header] + table + [manifest]);
    AllSmall(quote, f.header, table, manifest);
    SmallCells(rules, quote, rows);
  }

  // ----- altered files -----

  lemma {:induction false} EightBytesHold(n: nat)
    requires n <= G.MAX_GUARD_FIELD_BYTES
    ensures n < Power256(8)
  {
    assert Power256(4) == 256 * Power256(3) && Power256(3) == 256 * Power256(2) && Power256(2) == 256 * Power256(1) && Power256(1) == 256;
    assert Power256(8) == 256 * Power256(7) && Power256(7) == 256 * Power256(6) && Power256(6) == 256 * Power256(5)
           && Power256(5) == 256 * Power256(4);
  }

  lemma {:induction false} GuardedFieldsHold(bytes: Data)
    requires G.ConsumeAll(V3Limits, G.Initial, bytes).Some? && G.Records(bytes).Some?
    ensures RowsPrefixable(FieldsOf(G.Records(bytes).value))
  {
    G.AcceptedExactlyWithinLimits(V3Limits, bytes);
    var records := G.Records(bytes).value;
    forall i, c | 0 <= i < |records| && 0 <= c < |records[i].fields| ensures Prefixable(records[i].fields[c]) {
      assert G.RecordFits(V3Limits, records[i]);
      EightBytesHold(|records[i].fields[c]|);
    }
  }

  /** Whether the table ends in a manifest of these rows. */
  ghost predicate EndsInManifestOf(f: Format, table: seq<seq<Data>>, written: seq<seq<Data>>) {
    && table != [] && Wide(written, COLUMNS) && f.manifestOf(table[|table| - 1]).Some?
    && Describes(f.hash, written, f.manifestOf(table[|table| - 1]).value)
  }

  lemma {:induction false} DataRowsHold(f: Format, table: seq<seq<Data>>, written: seq<seq<Data>>)
    requires (forall a, b :: f.hash(a) == f.hash(b) ==> a == b) && RowsPrefixable(written) && RowsPrefixable(table)
    requires DataRows(f, table).Some? && EndsInManifestOf(f, table, written)
    ensures DataRows(f, table) == Some(written) && table == [f.header] + written + [table[|table| - 1]]
  {
    var found := table[1..|table| - 1];
    forall i | 0 <= i < |found| ensures AllPrefixable(found[i]) {
      assert found[i] == table[i + 1];
    }
    ManifestDetectsChange(f.hash, written, found, f.manifestOf(table[|table| - 1]).value);
  }

  /** A file that is read and ends in the manifest of some rows holds exactly those rows:
      nothing dropped, added, reordered or altered between its header and its manifest. */
  lemma {:induction false} TamperingIsNoticed(rules: Rules, f: Format, written: seq<seq<Data>>, bytes: Data)
    requires (forall a, b :: f.hash(a) == f.hash(b) ==> a == b) && RowsPrefixable(written)
    requires ReadFile(rules, f, bytes).Some? && EndsInManifestOf(f, FieldsOf(G.Records(bytes).value), written)
    ensures var table := FieldsOf(G.Records(bytes).value); table == [f.header] + written + [table[|table| - 1]]
    ensures ReadFile(rules, f, bytes) == ReadAll(rules, written)
  {
    GuardedFieldsHold(bytes);
    DataRowsHold(f, FieldsOf(G.Records(bytes).value), written);
  }

  /** What holds once a ledger has been written to a file: the exporter found it writable,
      these are its rows, the manifest describes them, and the file is not too long. */
  ghost predicate ExportedAs(rules: Rules, f: Format, quote: Data -> bool, l: Ledger, marks: Marks, a: Archive, manifest: seq<Data>) {
    && WellStored(rules, l, marks) && Writable(rules, l, marks)
    && IsExport(rules, l, a) && Written(rules, l, marks, a) && |AllRows(a)| == RowCount(l)
    && Framed(f, quote, manifest) && Wide(CellTable(rules, AllRows(a)), COLUMNS)
    && Describes(f.hash, CellTable(rules, AllRows(a)), f.manifestOf(manifest).value)
    && |FileOf(quote, f, CellTable(rules, AllRows(a)), manifest)| <= MAX_EXPORT_BYTES
  }

  lemma {:induction false} ExportedFileIsRead(rules: Rules, f: Format, quote: Data -> bool, l: Ledger, marks: Marks, a: Archive, manifest: seq<Data>)
    requires Sound(rules) && ExportedAs(rules, f, quote, l, marks, a, manifest)
    ensures ReadFile(rules, f, FileOf(quote, f, CellTable(rules, AllRows(a)), manifest))
         == if RecordsShort(rules, quote, AllRows(a)) then Some(AllRows(a)) else None
  {
    ExportIsParsed(rules, l, marks, a);
    ArchiveWeighs(rules, l, marks, a);
    FileIsRead(rules, f, quote, AllRows(a), manifest);
  }

  lemma {:induction false} FileIsRead(rules: Rules, f: Format, quote: Data -> bool, rows: seq<Row>, manifest: seq<Data>)
    requires Sound(rules) && Framed(f, quote, manifest) && (forall k :: 0 <= k < |rows| ==> Exportable(rules, rows[k]))
    requires Wide(CellTable(rules, rows), COLUMNS) && Describes(f.hash, CellTable(rules, rows), f.manifestOf(manifest).value)
    requires |rows| < B.MAX_ROWS && Tally(rows, Weights(rules)) <= B.MAX_PARSED_BYTES
    requires |FileOf(quote, f, CellTable(rules, rows), manifest)| <= MAX_EXPORT_BYTES
    ensures ReadFile(rules, f, FileOf(quote, f, CellTable(rules, rows), manifest))
         == if RecordsShort(rules, quote, rows) then Some(rows) else None
  {
    FileReadsBack(rules, f, quote, rows, manifest);
    FilePassesExactly(rules, f, quote, rows, manifest);
  }

  lemma {:induction false} ImportIsReplace(rules: Rules, env: Env, f: Format, base: int, tagBase: int, file: Data, rows: seq<Row>)
    requires ReadFile(rules, f, file) == Some(rows) && Parse(rules, rows).Some? && Importable(Parse(rules, rows).value)
    ensures ImportFile(rules, env, f, base, tagBase, file) == Replace(env, base, tagBase, Parse(rules, rows).value)
  {
  }

  /** Every export fits its importer, byte for byte: the file of a stored and balanced
      ledger that the exporter agrees to write is imported if and only if none of its
      records is above the record limit, every link joins a card and a bank, and no card
      has two banks. */
  lemma {:induction false} ExportedFileImportsExactly(rules: Rules, env: Env, f: Format, quote: Data -> bool, l: Ledger, marks: Marks,
                                                      a: Archive, manifest: seq<Data>, base: int, tagBase: int)
    requires Sound(rules) && ExportedAs(rules, f, quote, l, marks, a, manifest) && Balances.Balanced(TableOf(l.txs))
    ensures ImportFile(rules, env, f, base, tagBase, FileOf(quote, f, CellTable(rules, AllRows(a)), manifest)).Some?
            <==> RecordsShort(rules, quote, AllRows(a)) && AllPaired(BookOf(env, l)) && CardLinks.Clean(BookOf(env, l))
  {
    var file := FileOf(quote, f, CellTable(rules, AllRows(a)), manifest);
    ExportedFileIsRead(rules, f, quote, l, marks, a, manifest);
    ExportRestoresExactly(rules, env, l, marks, a, base, tagBase);
    if RecordsShort(rules, quote, AllRows(a)) {
      ImportIsReplace(rules, env, f, base, tagBase, file, AllRows(a));
    }
  }

  // ----- a record above the limit -----

  function Quotes(n: nat): Data {
    seq(n, i requires 0 <= i < n => G.QUOTE)
  }

  lemma {:induction false} QuotesDouble(v: Data)
    requires forall k :: 0 <= k < |v| ==> v[k] == G.QUOTE
    ensures |CsvText.Doubled(v)| == 2 * |v|
  {
    if v != [] { QuotesDouble(v[1..]); }
  }

  lemma {:induction false} CellInRow(cells: seq<CsvText.Cell>, i: nat, j: nat)
    requires i < j < |cells|
    ensures |CsvText.FieldsText(cells)| >= |CsvText.CellText(cells[i])| + |CsvText.CellText(cells[j])|
    decreases |cells|
  {
    if i > 0 {
      CellInRow(cells[1..], i - 1, j - 1);
    } else {
      OneCell(cells[1..], j - 1);
    }
  }

  lemma {:induction false} OneCell(cells: seq<CsvText.Cell>, j: nat)
    requires j < |cells|
    ensures |CsvText.FieldsText(cells)| >= |CsvText.CellText(cells[j])|
    decreases |cells|
  {
    if j > 0 { OneCell(cells[1..], j - 1); }
  }

  /** Each field of a legacy transaction may be as long as the text limit, but an account
      and a memo of that many quotes make a record above the guard's limit: such a ledger
      is exported, and its file is refused. */
  lemma {:induction false} LongRecord(rules: Rules, quote: Data -> bool, r: Row)
    requires QuotesEnough(quote) && r.TxRow? && r.account == Quotes(G.MAX_FIELD_BYTES) && r.memo == r.account
    ensures |CsvText.RowText(Quoted(quote, Cells(rules, r)))| > 33_554_432
  {
    var v, cells := r.account, Quoted(quote, Cells(rules, r));
    TxCells(rules, r);
    assert v[0] == G.QUOTE && CsvText.Special(v[0]);
    QuotesStay(rules, v);
    assert cells[7] == CsvText.Cell(v, true) && cells[13] == CsvText.Cell(v, true);
    QuotesDouble(v);
    CellInRow(cells, 7, 13);
  }

  lemma {:induction false} QuotesStay(rules: Rules, v: Data)
    requires v != [] && forall k :: 0 <= k < |v| ==> v[k] == G.QUOTE
    ensures TextCell(rules, v) == v
  {
    assert G.CR !in v;
  }
}
