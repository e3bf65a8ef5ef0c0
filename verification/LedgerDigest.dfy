/** The digest of a ledger's content, the pins a preview hands out, and the
    classification of previewed rows. */
module LedgerDigest {
  import opened Options
  import opened Bytes
  import opened FieldStreams
  import IntText

  /** A scanned SQL value; a time is known by its normalised text. */
  datatype SqlValue = Null | Integer(n: int) | Real(x: real) | Blob(bytes: Data) | Text(bytes: Data) | Time(text: Data)

  const COLON: Byte := 58
  const CAPITAL_S: Byte := 83

  /** The name the value's type prints as. */
  function TypeName(v: SqlValue): Data {
    match v
    case Null => [60, 110, 105, 108, 62]
    case Integer(_) => [105, 110, 116, 54, 52]
    case Real(_) => [102, 108, 111, 97, 116, 54, 52]
    case Blob(_) => [91, 93, 117, 105, 110, 116, 56]
    case Text(_) => [115, 116, 114, 105, 110, 103]
    case Time(_) => [116, 105, 109, 101, 46, 84, 105, 109, 101]
  }

  lemma {:induction false} TypesAreSpelled(v: SqlValue)
    ensures match v
            case Null => Spells(TypeName(v), "<nil>")
            case Integer(_) => Spells(TypeName(v), "int64")
            case Real(_) => Spells(TypeName(v), "float64")
            case Blob(_) => Spells(TypeName(v), "[]uint8")
            case Text(_) => Spells(TypeName(v), "string")
            case Time(_) => Spells(TypeName(v), "time.Time")
  {
  }

  function Truncated(x: real): int {
    if x >= 0.0 then x.Floor else -((-x).Floor)
  }

  /** The integer part: the nearest integer in the direction of zero. */
  lemma {:induction false} TruncatedIs(x: real)
    ensures x >= 0.0 ==> Truncated(x) as real <= x < (Truncated(x) + 1) as real
    ensures x < 0.0 ==> (Truncated(x) - 1) as real < x <= Truncated(x) as real
  {
  }

  function CellText(v: SqlValue): Data {
    match v
    case Null => []
    case Integer(n) => IntText.Format(n)
    case Real(x) => IntText.Format(Truncated(x))
    case Blob(bytes) => bytes
    case Text(bytes) => bytes
    case Time(text) => text
  }

  function Field(v: SqlValue): Data {
    TypeName(v) + [COLON] + CellText(v)
  }

  /** Equal, or floating-point values with the same integer part. */
  predicate SameCell(v: SqlValue, w: SqlValue) {
    v == w || (v.Real? && w.Real? && Truncated(v.x) == Truncated(w.x))
  }

  lemma {:induction false} FieldParts(v: SqlValue)
    ensures Field(v) != [] && Field(v)[0] == TypeName(v)[0]
    ensures Field(v)[|TypeName(v)| + 1..] == CellText(v)
  {
  }

  lemma {:induction false} KindsDiffer(v: SqlValue, w: SqlValue)
    requires TypeName(v)[0] == TypeName(w)[0]
    ensures TypeName(v) == TypeName(w)
    ensures (v.Integer? == w.Integer?) && (v.Real? == w.Real?) && (v.Blob? == w.Blob?)
    ensures (v.Text? == w.Text?) && (v.Time? == w.Time?) && (v.Null? == w.Null?)
  {
  }

  /** A digest field determines a typed cell, up to the fraction of a float. */
  lemma {:induction false} FieldDetermines(v: SqlValue, w: SqlValue)
    ensures Field(v) == Field(w) <==> SameCell(v, w)
  {
    FieldParts(v);
    FieldParts(w);
    if Field(v) == Field(w) {
      KindsDiffer(v, w);
      assert CellText(v) == CellText(w);
      if v.Integer? { IntText.FormatIsInjective(v.n, w.n); }
      if v.Real? { IntText.FormatIsInjective(Truncated(v.x), Truncated(w.x)); }
    }
  }

  /** Two different floats can have one digest field. */
  lemma {:induction false} FractionsAreLost()
    ensures Real(1.25) != Real(1.75) && Field(Real(1.25)) == Field(Real(1.75))
  {
    FieldDetermines(Real(1.25), Real(1.75));
  }

  // ----- tables -----

  /** One of the fixed queries and the number of its columns. */
  datatype Query = Query(text: Data, columns: nat)

  ghost predicate AreSelects(queries: seq<Query>) {
    forall i :: 0 <= i < |queries| ==>
      queries[i].text != [] && queries[i].text[0] == CAPITAL_S && Prefixable(queries[i].text) && queries[i].columns > 0
  }

  type Rows = seq<seq<SqlValue>>

  /** A result set per query, each row as wide as its query. */
  ghost predicate Fits(queries: seq<Query>, tables: seq<Rows>) {
    && |tables| == |queries|
    && forall i :: 0 <= i < |tables| ==> RowsFit(queries[i], tables[i])
  }

  ghost predicate RowsFit(q: Query, rows: Rows) {
    forall r :: 0 <= r < |rows| ==> |rows[r]| == q.columns && forall c :: 0 <= c < |rows[r]| ==> Prefixable(Field(rows[r][c]))
  }

  function RowFields(row: seq<SqlValue>): seq<Data> {
    if row == [] then [] else [Field(row[0])] + RowFields(row[1..])
  }

  function TableFields(rows: Rows): seq<seq<Data>> {
    if rows == [] then [] else [RowFields(rows[0])] + TableFields(rows[1..])
  }

  function LedgerFields(queries: seq<Query>, tables: seq<Rows>): seq<Data> {
    if queries == [] || tables == [] then []
    else [queries[0].text] + Flatten(TableFields(tables[0])) + LedgerFields(queries[1..], tables[1..])
  }

  ghost predicate SameRow(a: seq<SqlValue>, b: seq<SqlValue>) {
    |a| == |b| && forall c :: 0 <= c < |a| ==> SameCell(a[c], b[c])
  }

  ghost predicate SameRows(a: Rows, b: Rows) {
    |a| == |b| && forall r :: 0 <= r < |a| ==> SameRow(a[r], b[r])
  }

  /** The same tables, rows and typed cells, up to fractions of floats. */
  ghost predicate SameContent(a: seq<Rows>, b: seq<Rows>) {
    |a| == |b| && forall i :: 0 <= i < |a| ==> SameRows(a[i], b[i])
  }

  lemma {:induction false} RowFieldsAt(row: seq<SqlValue>)
    ensures |RowFields(row)| == |row|
    ensures forall c :: 0 <= c < |row| ==> RowFields(row)[c] == Field(row[c])
  {
    if row != [] { RowFieldsAt(row[1..]); }
  }

  lemma {:induction false} TableFieldsAt(rows: Rows)
    ensures |TableFields(rows)| == |rows|
    ensures forall r :: 0 <= r < |rows| ==> TableFields(rows)[r] == RowFields(rows[r])
  {
    if rows != [] { TableFieldsAt(rows[1..]); }
  }

  lemma {:induction false} RowDetermines(a: seq<SqlValue>, b: seq<SqlValue>)
    ensures RowFields(a) == RowFields(b) <==> SameRow(a, b)
  {
    RowFieldsAt(a);
    RowFieldsAt(b);
    forall c | 0 <= c < |a| && c < |b| ensures Field(a[c]) == Field(b[c]) <==> SameCell(a[c], b[c]) {
      FieldDetermines(a[c], b[c]);
    }
    if RowFields(a) == RowFields(b) {
      forall c | 0 <= c < |a| ensures SameCell(a[c], b[c]) {
        assert RowFields(a)[c] == RowFields(b)[c];
      }
    }
    if SameRow(a, b) {
      assert RowFields(a) == RowFields(b);
    }
  }

  lemma {:induction false} TableDetermines(a: Rows, b: Rows)
    ensures TableFields(a) == TableFields(b) <==> SameRows(a, b)
  {
    TableFieldsAt(a);
    TableFieldsAt(b);
    forall r | 0 <= r < |a| && r < |b| ensures RowFields(a[r]) == RowFields(b[r]) <==> SameRow(a[r], b[r]) {
      RowDetermines(a[r], b[r]);
    }
    if TableFields(a) == TableFields(b) {
      forall r | 0 <= r < |a| ensures SameRow(a[r], b[r]) {
        assert TableFields(a)[r] == TableFields(b)[r];
      }
    }
    if SameRows(a, b) {
      assert TableFields(a) == TableFields(b);
    }
  }

  /** Cell fields never look like a query. */
  ghost predicate NoQuery(fields: seq<Data>) {
    forall i :: 0 <= i < |fields| ==> fields[i] != [] && fields[i][0] != CAPITAL_S
  }

  ghost predicate StartsWithQuery(fields: seq<Data>) {
    fields == [] || (fields[0] != [] && fields[0][0] == CAPITAL_S)
  }

  lemma {:induction false} CellsAreNoQuery(row: seq<SqlValue>)
    ensures NoQuery(RowFields(row))
  {
    if row != [] {
      FieldParts(row[0]);
      CellsAreNoQuery(row[1..]);
    }
  }

  lemma {:induction false} TableIsNoQuery(rows: Rows)
    ensures NoQuery(Flatten(TableFields(rows)))
  {
    if rows != [] {
      CellsAreNoQuery(rows[0]);
      TableIsNoQuery(rows[1..]);
      assert TableFields(rows)[1..] == TableFields(rows[1..]);
    }
  }

  lemma {:induction false} NoLonger(a: seq<Data>, x: seq<Data>, b: seq<Data>, y: seq<Data>)
    requires a + x == b + y && NoQuery(b) && StartsWithQuery(x)
    ensures |b| <= |a|
  {
    assert x != [] ==> (a + x)[|a|] == x[0];
    assert forall k :: 0 <= k < |b| ==> (b + y)[k] == b[k];
  }

  lemma {:induction false} SplitAtQuery(a: seq<Data>, x: seq<Data>, b: seq<Data>, y: seq<Data>)
    requires a + x == b + y && NoQuery(a) && NoQuery(b) && StartsWithQuery(x) && StartsWithQuery(y)
    ensures a == b && x == y
  {
    NoLonger(a, x, b, y);
    NoLonger(b, y, a, x);
    assert a == (a + x)[..|a|] && b == (b + y)[..|b|];
    assert x == (a + x)[|a|..] && y == (b + y)[|b|..];
  }

  lemma {:induction false} TableWidth(q: Query, rows: Rows)
    requires RowsFit(q, rows)
    ensures Wide(TableFields(rows), q.columns) && RowsPrefixable(TableFields(rows))
  {
    TableFieldsAt(rows);
    forall r | 0 <= r < |rows|
      ensures |TableFields(rows)[r]| == q.columns && AllPrefixable(TableFields(rows)[r])
    {
      RowFieldsAt(rows[r]);
    }
  }

  lemma {:induction false} FieldsDetermine(queries: seq<Query>, a: seq<Rows>, b: seq<Rows>)
    requires AreSelects(queries) && Fits(queries, a) && Fits(queries, b)
    requires LedgerFields(queries, a) == LedgerFields(queries, b)
    ensures SameContent(a, b)
    decreases |queries|
  {
    if queries != [] {
      var cellsA, cellsB := Flatten(TableFields(a[0])), Flatten(TableFields(b[0]));
      var restA, restB := LedgerFields(queries[1..], a[1..]), LedgerFields(queries[1..], b[1..]);
      Tail([queries[0].text], cellsA, restA, cellsB, restB);
      TableIsNoQuery(a[0]);
      TableIsNoQuery(b[0]);
      SplitAtQuery(cellsA, restA, cellsB, restB);
      OneTable(queries[0], a[0], b[0]);
      FieldsDetermine(queries[1..], a[1..], b[1..]);
      forall i | 0 <= i < |a| ensures SameRows(a[i], b[i]) {
        if i > 0 { assert a[i] == a[1..][i - 1] && b[i] == b[1..][i - 1]; }
      }
    }
  }

  lemma {:induction false} Tail(q: seq<Data>, a: seq<Data>, x: seq<Data>, b: seq<Data>, y: seq<Data>)
    requires q + a + x == q + b + y
    ensures a + x == b + y
  {
    assert a + x == (q + a + x)[|q|..] && b + y == (q + b + y)[|q|..];
  }

  lemma {:induction false} OneTable(q: Query, a: Rows, b: Rows)
    requires q.columns > 0 && RowsFit(q, a) && RowsFit(q, b) && Flatten(TableFields(a)) == Flatten(TableFields(b))
    ensures SameRows(a, b)
  {
    TableWidth(q, a);
    TableWidth(q, b);
    FlattenDetermines(TableFields(a), TableFields(b), q.columns);
    TableDetermines(a, b);
  }

  lemma {:induction false} FieldsArePrefixable(queries: seq<Query>, tables: seq<Rows>)
    requires AreSelects(queries) && Fits(queries, tables)
    ensures AllPrefixable(LedgerFields(queries, tables))
    decreases |queries|
  {
    if queries != [] {
      TableWidth(queries[0], tables[0]);
      FlattenPrefixable(TableFields(tables[0]));
      FieldsArePrefixable(queries[1..], tables[1..]);
    }
  }

  lemma {:induction false} SameContentSameFields(queries: seq<Query>, a: seq<Rows>, b: seq<Rows>)
    requires SameContent(a, b)
    ensures LedgerFields(queries, a) == LedgerFields(queries, b)
    decreases |queries|
  {
    if queries != [] && a != [] {
      TableDetermines(a[0], b[0]);
      SameContentSameFields(queries[1..], a[1..], b[1..]);
    }
  }

  function LedgerStream(queries: seq<Query>, tables: seq<Rows>): Data {
    Stream(LedgerFields(queries, tables))
  }

  /** The bytes fed to the ledger digest determine every table, row and typed cell. */
  lemma {:induction false} LedgerStreamDetermines(queries: seq<Query>, a: seq<Rows>, b: seq<Rows>)
    requires AreSelects(queries) && Fits(queries, a) && Fits(queries, b)
    ensures LedgerStream(queries, a) == LedgerStream(queries, b) <==> SameContent(a, b)
  {
    if LedgerStream(queries, a) == LedgerStream(queries, b) {
      FieldsArePrefixable(queries, a);
      FieldsArePrefixable(queries, b);
      StreamDetermines(LedgerFields(queries, a), LedgerFields(queries, b));
      FieldsDetermine(queries, a, b);
    }
    if SameContent(a, b) {
      SameContentSameFields(queries, a, b);
    }
  }

  // ----- hashing the ledger -----

  method HashRow(digest: Digest, row: seq<SqlValue>)
    modifies digest
    ensures digest.written == old(digest.written) + Stream(RowFields(row))
  {
    var fields: seq<Data> := [];
    RowFieldsAt(row);
    for i := 0 to |row|
      invariant |fields| == i && forall j :: 0 <= j < i ==> fields[j] == Field(row[j])
    {
      fields := fields + [Field(row[i])];
    }
    assert fields == RowFields(row);
    digest.WriteFields(fields);
  }

  method HashRows(digest: Digest, rows: Rows)
    modifies digest
    ensures digest.written == old(digest.written) + Stream(Flatten(TableFields(rows)))
  {
    ghost var start := digest.written;
    ghost var all := TableFields(rows);
    TableFieldsAt(rows);
    assert start + Stream(Flatten(all[..0])) == start;
    for r := 0 to |rows|
      invariant digest.written == start + Stream(Flatten(all[..r]))
    {
      OneMoreRow(start, all, r);
      HashRow(digest, rows[r]);
    }
    assert all[..|rows|] == all;
  }

  lemma {:induction false} OneMoreRow(start: Data, rows: seq<seq<Data>>, r: nat)
    requires r < |rows|
    ensures start + Stream(Flatten(rows[..r + 1])) == start + Stream(Flatten(rows[..r])) + Stream(rows[r])
  {
    assert rows[..r + 1] == rows[..r] + [rows[r]];
    FlattenConcat(rows[..r], [rows[r]]);
    OneRow(rows[r]);
    StreamConcat(Flatten(rows[..r]), rows[r]);
  }

  lemma {:induction false} OneRow(row: seq<Data>)
    ensures Flatten([row]) == row
  {
    assert [row][1..] == [];
    assert row + [] == row;
  }

  /** Streams every query and its rows. */
  method HashLedger(queries: seq<Query>, tables: seq<Rows>) returns (written: Data)
    requires |queries| == |tables|
    ensures written == LedgerStream(queries, tables)
  {
    var digest := new Digest();
    ghost var whole := LedgerStream(queries, tables);
    assert queries[0..] == queries && tables[0..] == tables;
    for i := 0 to |queries|
      invariant digest.written + LedgerStream(queries[i..], tables[i..]) == whole
      modifies digest
    {
      NextTable(digest.written, queries, tables, i);
      digest.WriteFields([queries[i].text]);
      HashRows(digest, tables[i]);
    }
    assert digest.written + [] == digest.written;
    return digest.written;
  }

  lemma {:induction false} NextTable(before: Data, queries: seq<Query>, tables: seq<Rows>, i: nat)
    requires i < |queries| == |tables|
    ensures before + LedgerStream(queries[i..], tables[i..])
         == before + Stream([queries[i].text]) + Stream(Flatten(TableFields(tables[i])))
            + LedgerStream(queries[i + 1..], tables[i + 1..])
  {
    var q, cells := [queries[i].text], Flatten(TableFields(tables[i]));
    var rest := LedgerFields(queries[i + 1..], tables[i + 1..]);
    assert queries[i..][1..] == queries[i + 1..] && tables[i..][1..] == tables[i + 1..];
    assert LedgerFields(queries[i..], tables[i..]) == q + cells + rest;
    StreamConcat(q + cells, rest);
    StreamConcat(q, cells);
    Regroup(before, Stream(q), Stream(cells), Stream(rest));
  }

  lemma {:induction false} Regroup(a: Data, b: Data, c: Data, d: Data)
    ensures a + (b + c + d) == a + b + c + d
  {
  }

  // ----- preview pins -----

  datatype Pins = Pins(source: Data, target: Data)

  ghost predicate CollisionFree(h: Data -> Data) {
    forall a, b :: h(a) == h(b) ==> a == b
  }

  /** What a preview returns for pinning. */
  function Preview(h: Data -> Data, source: Data, queries: seq<Query>, ledger: seq<Rows>): Pins {
    Pins(h(source), h(LedgerStream(queries, ledger)))
  }

  /** Whether an apply gets past its pins: well-formed, the same source before the
      transaction and the same ledger inside it. */
  predicate PassesPins(h: Data -> Data, isHex: Data -> bool, pins: Option<Pins>, source: Data,
                       queries: seq<Query>, ledger: seq<Rows>) {
    pins.None?
    || (isHex(pins.value.source) && isHex(pins.value.target)
        && pins.value.source == h(source) && pins.value.target == h(LedgerStream(queries, ledger)))
  }

  /** With a collision-free hash a pinned apply goes through exactly on the source bytes
      and the ledger content that the preview saw. */
  lemma {:induction false} PinnedApplySeesPreview(h: Data -> Data, isHex: Data -> bool, queries: seq<Query>,
                               previewed: Data, before: seq<Rows>, source: Data, ledger: seq<Rows>)
    requires CollisionFree(h) && AreSelects(queries) && Fits(queries, before) && Fits(queries, ledger)
    requires forall d :: isHex(h(d))
    ensures PassesPins(h, isHex, Some(Preview(h, previewed, queries, before)), source, queries, ledger)
            <==> source == previewed && SameContent(before, ledger)
  {
    LedgerStreamDetermines(queries, before, ledger);
  }

  // ----- classification -----

  datatype Key = Key(account: Data, date: Data, item: Data, kind: Data, amount: int)

  datatype FullKey = FullKey(key: Key, memo: Data)

  /** The positions below `n` of rows with a property. */
  ghost function Where(rows: seq<FullKey>, n: nat, p: FullKey -> bool): set<nat> {
    set k: nat | k < n && k < |rows| && p(rows[k])
  }

  lemma {:induction false} WhereStep(rows: seq<FullKey>, n: nat, p: FullKey -> bool)
    requires n < |rows|
    ensures |Where(rows, n + 1, p)| == |Where(rows, n, p)| + if p(rows[n]) then 1 else 0
  {
    if p(rows[n]) {
      assert Where(rows, n + 1, p) == Where(rows, n, p) + {n};
    } else {
      assert Where(rows, n + 1, p) == Where(rows, n, p);
    }
  }

  /** Every row is counted once: as stored already, as clashing with a stored row in
      everything but the memo, or as new. */
  method Classify(rows: seq<FullKey>, full: set<FullKey>, natural: set<Key>)
    returns (unseen: nat, duplicates: nat, conflicts: nat)
    ensures duplicates == |Where(rows, |rows|, (r: FullKey) => r in full)|
    ensures conflicts == |Where(rows, |rows|, (r: FullKey) => r !in full && r.key in natural)|
    ensures unseen == |Where(rows, |rows|, (r: FullKey) => r !in full && r.key !in natural)|
    ensures unseen + duplicates + conflicts == |rows|
  {
    ghost var stored, clashes, other :=
      (r: FullKey) => r in full, (r: FullKey) => r !in full && r.key in natural, (r: FullKey) => r !in full && r.key !in natural;
    unseen, duplicates, conflicts := 0, 0, 0;
    for k := 0 to |rows|
      invariant duplicates == |Where(rows, k, stored)| && conflicts == |Where(rows, k, clashes)| && unseen == |Where(rows, k, other)|
      invariant unseen + duplicates + conflicts == k
    {
      WhereStep(rows, k, stored);
      WhereStep(rows, k, clashes);
      WhereStep(rows, k, other);
      if rows[k] in full {
        duplicates := duplicates + 1;
      } else if rows[k].key in natural {
        conflicts := conflicts + 1;
      } else {
        unseen := unseen + 1;
      }
    }
  }
}
