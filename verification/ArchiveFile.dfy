/** An archive as a CSV file: its rows read back, and its manifest notices any change. */
module ArchiveFile {
  import opened Options
  import opened Bytes
  import opened ArchiveRows
  import opened FieldStreams
  import G = CsvGuard
  import CsvText

  // ----- rows through the file -----

  function CellTable(rules: Rules, rows: seq<Row>): seq<seq<Data>> {
    if rows == [] then [] else [Cells(rules, rows[0])] + CellTable(rules, rows[1..])
  }

  function ReadAll(rules: Rules, table: seq<seq<Data>>): Option<seq<Row>> {
    if table == [] then Some([])
    else
      var head, tail := ReadRow(rules, table[0]), ReadAll(rules, table[1..]);
      if head.None? || tail.None? then None else Some([head.value] + tail.value)
  }

  /** Rows the exporter lets through. Links carry no text and are not put to the rules. */
  predicate Exportable(rules: Rules, r: Row) {
    (r.TagLinkRow? || r.LinkRow? || rules.accepts(r)) && Numbered(r) && (r.TxRow? ==> DateReads(rules, r.date))
  }

  ghost predicate ReadsBack(rules: Rules, r: Row) {
    ReadRow(rules, Cells(rules, r)) == Some(r)
  }

  lemma {:induction false} OneRowBack(rules: Rules, r: Row)
    requires Sound(rules) && Exportable(rules, r)
    ensures ReadsBack(rules, r)
  {
    RowBack(rules, r);
  }

  lemma {:induction false} ReadCons(rules: Rules, cells: seq<Data>, r: Row, table: seq<seq<Data>>, rows: seq<Row>)
    requires ReadRow(rules, cells) == Some(r) && ReadAll(rules, table) == Some(rows)
    ensures ReadAll(rules, [cells] + table) == Some([r] + rows)
  {
    assert ([cells] + table)[1..] == table;
  }

  lemma {:induction false} TableReadsBack(rules: Rules, rows: seq<Row>)
    requires forall k :: 0 <= k < |rows| ==> ReadsBack(rules, rows[k])
    ensures ReadAll(rules, CellTable(rules, rows)) == Some(rows)
  {
    if rows != [] {
      TableReadsBack(rules, rows[1..]);
      ReadCons(rules, Cells(rules, rows[0]), rows[0], CellTable(rules, rows[1..]), rows[1..]);
      assert rows == [rows[0]] + rows[1..];
    }
  }

  /** Reading the cells of exported rows gives the rows back. */
  lemma {:induction false} RowsReadBack(rules: Rules, rows: seq<Row>)
    requires Sound(rules) && forall k :: 0 <= k < |rows| ==> Exportable(rules, rows[k])
    ensures ReadAll(rules, CellTable(rules, rows)) == Some(rows)
  {
    forall k | 0 <= k < |rows| ensures ReadsBack(rules, rows[k]) {
      OneRowBack(rules, rows[k]);
    }
    TableReadsBack(rules, rows);
  }

  // ----- cells through the file -----

  /** The writer quotes every field with a delimiter, a quote or a line break. */
  ghost predicate QuotesEnough(quote: Data -> bool) {
    forall v, k :: 0 <= k < |v| && CsvText.Special(v[k]) ==> quote(v)
  }

  function Quoted(quote: Data -> bool, cells: seq<Data>): seq<CsvText.Cell> {
    seq(|cells|, i requires 0 <= i < |cells| => CsvText.Cell(cells[i], quote(cells[i])))
  }

  function QuotedTable(quote: Data -> bool, table: seq<seq<Data>>): seq<seq<CsvText.Cell>> {
    seq(|table|, i requires 0 <= i < |table| => Quoted(quote, table[i]))
  }

  ghost predicate NoCR(cells: seq<Data>) {
    cells != [] && forall c :: 0 <= c < |cells| ==> G.CR !in cells[c]
  }

  lemma {:induction false} CellsAreClean(rules: Rules, r: Row)
    ensures NoCR(Cells(rules, r))
  {
    forall c | 0 <= c < COLUMNS ensures G.CR !in Cells(rules, r)[c] {
      CellsHaveNoCR(rules, r, c);
    }
  }

  lemma {:induction false} QuotedIsWritable(quote: Data -> bool, table: seq<seq<Data>>)
    requires QuotesEnough(quote) && forall i :: 0 <= i < |table| ==> NoCR(table[i])
    ensures CsvText.AllWritable(QuotedTable(quote, table))
  {
    forall i | 0 <= i < |table|
      ensures Quoted(quote, table[i]) != []
      ensures forall k :: 0 <= k < |Quoted(quote, table[i])| ==> CsvText.Writable(Quoted(quote, table[i])[k])
    {
      assert NoCR(table[i]);
    }
  }

  lemma {:induction false} ValuesOfQuoted(quote: Data -> bool, cells: seq<Data>)
    ensures CsvText.Values(Quoted(quote, cells)) == cells
  {
  }

  /** A CSV file written from CR-free cells decodes to exactly those cells. */
  lemma {:induction false} TableIsRead(quote: Data -> bool, table: seq<seq<Data>>, i: nat)
    requires QuotesEnough(quote) && (forall j :: 0 <= j < |table| ==> NoCR(table[j])) && i < |table|
    ensures var records := G.Records(CsvText.FileText(QuotedTable(quote, table)));
            records.Some? && |records.value| == |table| && records.value[i].fields == table[i]
  {
    var rows := QuotedTable(quote, table);
    QuotedIsWritable(quote, table);
    CsvText.WrittenIsRead(rows);
    CsvText.RecordsOfAt(rows, i);
    ValuesOfQuoted(quote, table[i]);
  }

  // ----- the manifest -----

  /** The number of rows of each kind and the digest of all data rows. */
  datatype Manifest = Manifest(counts: map<Data, nat>, digest: Data)

  function CountOf(table: seq<seq<Data>>, kind: Data): nat
    requires forall i :: 0 <= i < |table| ==> |table[i]| == COLUMNS
  {
    if table == [] then 0
    else
      var n := |table| - 1;
      CountOf(table[..n], kind) + if table[n][1] == kind then 1 else 0
  }

  /** A count is the number of rows with that name in the column of record types. */
  lemma {:induction false} CountIs(table: seq<seq<Data>>, kind: Data)
    requires Wide(table, COLUMNS)
    ensures CountOf(table, kind) == |set i | 0 <= i < |table| && table[i][1] == kind|
  {
    if table != [] {
      var n := |table| - 1;
      CountIs(table[..n], kind);
      var before := set i | 0 <= i < n && table[..n][i][1] == kind;
      var all := set i | 0 <= i < |table| && table[i][1] == kind;
      assert all == if table[n][1] == kind then before + {n} else before;
    }
  }

  function KindTexts(): set<Data> {
    {TRANSACTION, TRANSACTION_LEGACY, IMAGE, IMAGE_LEGACY, TAG, TAG_LEGACY, TRANSACTION_TAG, TRANSACTION_LINK, SETTING,
     SETTING_LEGACY}
  }

  function DataStream(table: seq<seq<Data>>): Data {
    Stream(Flatten(table))
  }

  /** A manifest without a count for archived images stands for none of them. */
  function CountIn(m: Manifest, kind: Data): nat {
    if kind in m.counts then m.counts[kind] else 0
  }

  ghost predicate Describes(h: Data -> Data, table: seq<seq<Data>>, m: Manifest)
    requires forall i :: 0 <= i < |table| ==> |table[i]| == COLUMNS
  {
    && (forall kind :: kind in KindTexts() ==> CountIn(m, kind) == CountOf(table, kind))
    && m.digest == h(DataStream(table))
  }

  lemma {:induction false} CountStep(table: seq<seq<Data>>, kind: Data, k: nat)
    requires k < |table| && forall i :: 0 <= i < |table| ==> |table[i]| == COLUMNS
    ensures CountOf(table[..k + 1], kind) == CountOf(table[..k], kind) + if table[k][1] == kind then 1 else 0
  {
    assert table[..k + 1][..k] == table[..k];
  }

  /** With a collision-free hash a manifest describes exactly the rows it was made for:
      dropping, reordering or altering any of them is noticed. */
  lemma {:induction false} ManifestDetectsChange(h: Data -> Data, written: seq<seq<Data>>, found: seq<seq<Data>>, m: Manifest)
    requires forall a, b :: h(a) == h(b) ==> a == b
    requires Wide(written, COLUMNS) && Wide(found, COLUMNS) && RowsPrefixable(written) && RowsPrefixable(found)
    requires Describes(h, written, m)
    ensures Describes(h, found, m) <==> found == written
  {
    if Describes(h, found, m) {
      assert h(DataStream(found)) == h(DataStream(written));
      RowStreamDetermines(found, written, COLUMNS);
    }
  }

  /** The parser's running counts and digest over the data rows. */
  method CheckManifest(h: Data -> Data, table: seq<seq<Data>>, m: Manifest) returns (ok: bool)
    requires Wide(table, COLUMNS)
    ensures ok <==> Describes(h, table, m)
  {
    var digest := new Digest();
    var counts: map<Data, nat> := map[];
    for i := 0 to |table|
      invariant digest.written == Stream(Flatten(table[..i]))
      invariant forall kind :: (if kind in counts then counts[kind] else 0) == CountOf(table[..i], kind)
      modifies digest
    {
      RowAdded(table, i);
      forall kind ensures CountOf(table[..i + 1], kind) == CountOf(table[..i], kind) + if table[i][1] == kind then 1 else 0 {
        CountStep(table, kind, i);
      }
      var kind := table[i][1];
      counts := counts[kind := (if kind in counts then counts[kind] else 0) + 1];
      digest.WriteFields(table[i]);
    }
    assert table[..|table|] == table;
    var kinds := KindTexts();
    while kinds != {}
      invariant kinds <= KindTexts()
      invariant forall kind :: kind in KindTexts() && kind !in kinds ==> CountIn(m, kind) == CountOf(table, kind)
      decreases kinds
    {
      var kind :| kind in kinds;
      if CountIn(m, kind) != (if kind in counts then counts[kind] else 0) {
        return false;
      }
      kinds := kinds - {kind};
    }
    return m.digest == h(digest.written);
  }

  lemma {:induction false} RowAdded(table: seq<seq<Data>>, i: nat)
    requires i < |table|
    ensures Stream(Flatten(table[..i + 1])) == Stream(Flatten(table[..i])) + Stream(table[i])
  {
    assert table[..i + 1] == table[..i] + [table[i]];
    FlattenConcat(table[..i], [table[i]]);
    assert Flatten([table[i]]) == table[i] by {
      assert [table[i]][1..] == [];
      assert table[i] + [] == table[i];
    }
    StreamConcat(Flatten(table[..i]), table[i]);
  }
}
