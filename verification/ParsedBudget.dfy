/** The memory budget the exporter checks before it writes and the importer charges
    while it reads, and the row limits of both. Texts count by their length. */
module ParsedBudget {
  import opened Options

  const MAX_PARSED_BYTES: int := 64 * 1024 * 1024
  const IMAGE_STRUCTURE_BYTES: int := 1024
  const MAX_ROWS: nat := 1_000_000

  // ----- one charge -----

  function Total(texts: seq<nat>): nat {
    if texts == [] then 0 else Total(texts[..|texts| - 1]) + texts[|texts| - 1]
  }

  lemma {:induction false} TotalStep(texts: seq<nat>, k: nat)
    requires k < |texts|
    ensures Total(texts[..k + 1]) == Total(texts[..k]) + texts[k]
  {
    assert texts[..k + 1][..k] == texts[..k];
  }

  lemma {:induction false} TotalPrefix(texts: seq<nat>, k: nat)
    requires k <= |texts|
    ensures Total(texts[..k]) <= Total(texts)
    decreases |texts| - k
  {
    if k == |texts| {
      assert texts[..k] == texts;
    } else {
      TotalPrefix(texts, k + 1);
      TotalStep(texts, k);
    }
  }

  /** Adds a charge to what is used, or refuses; the subtractions never overflow. */
  method AddParsedBudget(used: int, structural: int, texts: seq<nat>) returns (r: Option<int>)
    ensures r.Some? <==> 0 <= used <= 67_108_864 && 0 <= structural
                         && used + structural + Total(texts) <= 67_108_864
    ensures r.Some? ==> r.value == used + structural + Total(texts)
  {
    if structural < 0 || used < 0 || used > MAX_PARSED_BYTES {
      return None;
    }
    var additional := structural;
    for k := 0 to |texts|
      invariant additional == structural + Total(texts[..k])
    {
      TotalStep(texts, k);
      TotalPrefix(texts, k + 1);
      if texts[k] > MAX_PARSED_BYTES - additional {
        return None;
      }
      additional := additional + texts[k];
    }
    assert texts[..|texts|] == texts;
    if additional > MAX_PARSED_BYTES - used {
      return None;
    }
    return Some(used + additional);
  }

  // ----- the exporter's rows and the importer's rows -----

  /** The charged texts of an archive row, by length. */
  datatype Row =
    | TransactionRow(account: nat, date: nat, item: nat, kind: nat, memo: nat)
    | ImageRow(filename: nat, mimeType: nat, created: nat)
    | TagRow(name: nat)
    | SettingRow(key: nat, value: nat)

  function Texts(row: Row): seq<nat> {
    match row
    case TransactionRow(account, date, item, kind, memo) => [account, date, item, kind, memo]
    case ImageRow(filename, mimeType, created) => [filename, mimeType, created]
    case TagRow(name) => [name]
    case SettingRow(key, value) => [key, value]
  }

  /** All text plus a fixed weight per image. */
  function RowsWeight(rows: seq<Row>): nat {
    if rows == [] then 0
    else
      var n := |rows| - 1;
      RowsWeight(rows[..n]) + Total(Texts(rows[n])) + if rows[n].ImageRow? then IMAGE_STRUCTURE_BYTES else 0
  }

  lemma {:induction false} WeightStep(rows: seq<Row>, k: nat)
    requires k < |rows|
    ensures RowsWeight(rows[..k + 1])
         == RowsWeight(rows[..k]) + Total(Texts(rows[k])) + if rows[k].ImageRow? then IMAGE_STRUCTURE_BYTES else 0
  {
    assert rows[..k + 1][..k] == rows[..k];
  }

  lemma {:induction false} WeightPrefix(rows: seq<Row>, k: nat)
    requires k <= |rows|
    ensures RowsWeight(rows[..k]) <= RowsWeight(rows)
    decreases |rows| - k
  {
    if k == |rows| {
      assert rows[..k] == rows;
    } else {
      WeightPrefix(rows, k + 1);
      WeightStep(rows, k);
    }
  }

  /** The exporter's preflight: each row is charged once, an image with its structure. */
  method Preflight(rows: seq<Row>) returns (ok: bool)
    ensures ok <==> RowsWeight(rows) <= 67_108_864
  {
    var used := 0;
    for k := 0 to |rows|
      invariant used == RowsWeight(rows[..k]) <= MAX_PARSED_BYTES
    {
      WeightStep(rows, k);
      WeightPrefix(rows, k + 1);
      var next := AddParsedBudget(used, if rows[k].ImageRow? then IMAGE_STRUCTURE_BYTES else 0, Texts(rows[k]));
      if next.None? {
        return false;
      }
      used := next.value;
    }
    assert rows[..|rows|] == rows;
    return true;
  }

  /** The importer's charges: an image's structure first, its texts later. */
  method ChargeRows(rows: seq<Row>) returns (ok: bool)
    ensures ok <==> RowsWeight(rows) <= 67_108_864
  {
    var used := 0;
    for k := 0 to |rows|
      invariant used == RowsWeight(rows[..k]) <= MAX_PARSED_BYTES
    {
      WeightStep(rows, k);
      WeightPrefix(rows, k + 1);
      if rows[k].ImageRow? {
        var structure := AddParsedBudget(used, IMAGE_STRUCTURE_BYTES, []);
        if structure.None? {
          return false;
        }
        used := structure.value;
      }
      var next := AddParsedBudget(used, 0, Texts(rows[k]));
      if next.None? {
        return false;
      }
      used := next.value;
    }
    assert rows[..|rows|] == rows;
    return true;
  }

  lemma {:induction false} TakeOut(rows: seq<Row>, row: Row) returns (before: seq<Row>, after: seq<Row>)
    requires row in rows
    ensures rows == before + [row] + after && multiset(before + after) == multiset(rows) - multiset{row}
  {
    var k :| 0 <= k < |rows| && rows[k] == row;
    before, after := rows[..k], rows[k + 1..];
    assert rows == before + [row] + after;
  }

  lemma {:induction false} WeightConcat(a: seq<Row>, b: seq<Row>)
    ensures RowsWeight(a + b) == RowsWeight(a) + RowsWeight(b)
    decreases |b|
  {
    if b == [] {
      assert a + b == a;
    } else {
      var n := |b| - 1;
      assert (a + b)[..|a + b| - 1] == a + b[..n];
      WeightConcat(a, b[..n]);
    }
  }

  lemma {:induction false} SameRowsSameWeight(a: seq<Row>, b: seq<Row>)
    requires multiset(a) == multiset(b)
    ensures RowsWeight(a) == RowsWeight(b)
    decreases |a|
  {
    if a == [] {
      assert |multiset(b)| == 0;
    } else {
      var n := |a| - 1;
      var row := a[n];
      assert a == a[..n] + [row];
      assert row in multiset(b);
      var before, after := TakeOut(b, row);
      SameRowsSameWeight(a[..n], before + after);
      WeightConcat(a[..n], [row]);
      WeightConcat(before + [row], after);
      WeightConcat(before, [row]);
      WeightConcat(before, after);
    }
  }

  /** The exporter's preflight admits a ledger exactly when the importer's charges for
      the same rows, in whatever order the archive lists them, succeed. */
  method PreflightMeetsImporter(rows: seq<Row>, archived: seq<Row>) returns (exported: bool, imported: bool)
    requires multiset(rows) == multiset(archived)
    ensures exported == imported == (RowsWeight(rows) <= 67_108_864)
  {
    SameRowsSameWeight(rows, archived);
    exported := Preflight(rows);
    imported := ChargeRows(archived);
  }

  // ----- row limits -----

  /** Writes data rows, keeping one row for the manifest. */
  method WriteRows(count: nat) returns (written: nat, ok: bool)
    ensures ok <==> count + 1 <= 1_000_000
    ensures ok ==> written == count + 1
  {
    written := 0;
    while written < count
      invariant written <= count && written <= MAX_ROWS - 1
    {
      if written >= MAX_ROWS - 1 {
        return written, false;
      }
      written := written + 1;
    }
    return written + 1, true;
  }

  /** Reads rows after the header, which is row 1. */
  method ReadRows(count: nat) returns (ok: bool)
    ensures ok <==> count <= 1_000_000
  {
    var rowNumber := 1;
    for k := 0 to count
      invariant rowNumber == k + 1 <= MAX_ROWS + 1
    {
      rowNumber := rowNumber + 1;
      if rowNumber > MAX_ROWS + 1 {
        return false;
      }
    }
    return true;
  }

  /** The longest archive the exporter writes is the longest the importer reads. */
  method LimitsMeet(count: nat) returns (written: bool, read: bool)
    ensures written == read
    ensures written <==> count < 1_000_000
  {
    var total;
    total, written := WriteRows(count);
    read := ReadRows(count + 1);
  }
}
