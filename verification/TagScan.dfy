/** Reading the joined tag and transaction rows into one record per tag. */
module TagScan {
  import opened Options
  import opened Checked
  import opened TagForest
  import opened TagRollup
  import S = Sums

  /** A row of the tag/transaction outer join; `amount` is absent without a transaction. */
  datatype ScanRow = ScanRow(id: int, name: string, level: int, parent: Option<int>, amount: Option<Int64>)

  ghost function DirectSum(rows: seq<ScanRow>, id: int): int {
    if rows == [] then 0
    else
      var n := |rows| - 1;
      DirectSum(rows[..n], id) + if rows[n].id == id && rows[n].amount.Some? then rows[n].amount.value else 0
  }

  ghost function DirectCount(rows: seq<ScanRow>, id: int): nat {
    if rows == [] then 0
    else
      var n := |rows| - 1;
      DirectCount(rows[..n], id) + if rows[n].id == id && rows[n].amount.Some? then 1 else 0
  }

  ghost predicate PositiveRows(rows: seq<ScanRow>) {
    forall k :: 0 <= k < |rows| && rows[k].amount.Some? ==> rows[k].amount.value > 0
  }

  lemma {:induction false} DirectStep(rows: seq<ScanRow>, k: nat, id: int)
    requires k < |rows|
    ensures DirectSum(rows[..k + 1], id) == DirectSum(rows[..k], id)
              + if rows[k].id == id && rows[k].amount.Some? then rows[k].amount.value else 0
    ensures DirectCount(rows[..k + 1], id) == DirectCount(rows[..k], id)
              + if rows[k].id == id && rows[k].amount.Some? then 1 else 0
  {
    assert rows[..k + 1][..k] == rows[..k];
  }

  lemma {:induction false} CountAtMostSum(rows: seq<ScanRow>, id: int)
    requires PositiveRows(rows)
    ensures DirectCount(rows, id) <= DirectSum(rows, id)
  {
    if rows != [] {
      CountAtMostSum(rows[..|rows| - 1], id);
    }
  }

  lemma {:induction false} DirectBounds(rows: seq<ScanRow>, k: nat, id: int)
    requires PositiveRows(rows) && k <= |rows|
    ensures DirectCount(rows[..k], id) <= DirectSum(rows[..k], id) <= DirectSum(rows, id)
    decreases |rows| - k
  {
    CountAtMostSum(rows[..k], id);
    if k < |rows| {
      DirectBounds(rows, k + 1, id);
      DirectStep(rows, k, id);
    } else {
      assert rows[..k] == rows;
    }
  }

  /** The records hold, per tag met so far, what its rows add up to. */
  ghost predicate Sums(data: seq<Tag>, rows: seq<ScanRow>) {
    forall i :: 0 <= i < |data| ==>
      data[i].amount == DirectSum(rows, data[i].id) && data[i].count == DirectCount(rows, data[i].id)
  }

  ghost predicate Covers(index: map<int, int>, rows: seq<ScanRow>) {
    && (forall k :: 0 <= k < |rows| ==> rows[k].id in index)
    && forall id :: id !in index ==> DirectSum(rows, id) == 0 && DirectCount(rows, id) == 0
  }

  lemma {:induction false} CoversStep(index: map<int, int>, rows: seq<ScanRow>, k: nat)
    requires k < |rows| && Covers(index, rows[..k])
    ensures Covers(index[rows[k].id := if rows[k].id in index then index[rows[k].id] else 0], rows[..k + 1])
  {
    forall id ensures id == rows[k].id || DirectSum(rows[..k + 1], id) == DirectSum(rows[..k], id)
      ensures id == rows[k].id || DirectCount(rows[..k + 1], id) == DirectCount(rows[..k], id)
    {
      DirectStep(rows, k, id);
    }
    assert rows[..k + 1] == rows[..k] + [rows[k]];
  }

  lemma {:induction false} CoversKeys(index: map<int, int>, other: map<int, int>, rows: seq<ScanRow>)
    requires Covers(index, rows) && index.Keys == other.Keys
    ensures Covers(other, rows)
  {
    assert forall id :: id in other <==> id in other.Keys;
    assert forall id :: id in index <==> id in index.Keys;
  }

  lemma {:induction false} SumsStep(data: seq<Tag>, after: seq<Tag>, rows: seq<ScanRow>, k: nat, at: nat)
    requires k < |rows| && |after| == |data| && at < |data| && data[at].id == rows[k].id
    requires DistinctIds(data) && Sums(data, rows[..k])
    requires forall i :: 0 <= i < |data| && i != at ==> after[i] == data[i]
    requires after[at].id == data[at].id
    requires after[at].amount == data[at].amount + if rows[k].amount.Some? then rows[k].amount.value else 0
    requires after[at].count == data[at].count + if rows[k].amount.Some? then 1 else 0
    ensures Sums(after, rows[..k + 1])
  {
    forall i | 0 <= i < |after|
      ensures after[i].amount == DirectSum(rows[..k + 1], after[i].id)
      ensures after[i].count == DirectCount(rows[..k + 1], after[i].id)
    {
      DirectStep(rows, k, after[i].id);
    }
  }

  lemma {:induction false} TagOverflows(rows: seq<ScanRow>, k: nat, sum: int)
    requires PositiveRows(rows) && k < |rows| && rows[k].amount.Some?
    requires sum == DirectSum(rows[..k], rows[k].id) && !Fits(sum + rows[k].amount.value)
    ensures exists id :: DirectSum(rows, id) > MAX_INT64
  {
    DirectStep(rows, k, rows[k].id);
    DirectBounds(rows, k + 1, rows[k].id);
    DirectBounds(rows, k, rows[k].id);
  }

  lemma {:induction false} NothingOverflows(data: seq<Tag>, index: map<int, int>, rows: seq<ScanRow>)
    requires Indexes(data, index, |data|) && Covers(index, rows) && Sums(data, rows)
    ensures forall id :: DirectSum(rows, id) <= MAX_INT64
  {
    forall id ensures DirectSum(rows, id) <= MAX_INT64 {
      if id in index {
        assert Fits(data[index[id]].amount);
      }
    }
  }

  lemma {:induction false} SumsArePositive(data: seq<Tag>, rows: seq<ScanRow>)
    requires Sums(data, rows) && PositiveRows(rows)
    ensures PositiveAmounts(data)
  {
    forall i | 0 <= i < |data| ensures data[i].count <= data[i].amount {
      assert rows[..|rows|] == rows;
      DirectBounds(rows, |rows|, data[i].id);
    }
  }

  /** The different tags some rows name. */
  ghost function TagIds(rows: seq<ScanRow>): set<int> {
    set k | 0 <= k < |rows| :: rows[k].id
  }

  lemma {:induction false} TagIdsStep(rows: seq<ScanRow>, k: nat)
    requires k < |rows|
    ensures TagIds(rows[..k + 1]) == TagIds(rows[..k]) + {rows[k].id}
  {
    forall id ensures id in TagIds(rows[..k + 1]) <==> id in TagIds(rows[..k]) + {rows[k].id} {
      if id in TagIds(rows[..k + 1]) {
        var i :| 0 <= i < k + 1 && rows[..k + 1][i].id == id;
        assert i < k ==> rows[..k][i].id == id;
      }
      if id in TagIds(rows[..k]) {
        var i :| 0 <= i < k && rows[..k][i].id == id;
        assert rows[..k + 1][i].id == id;
      }
      assert rows[..k + 1][k].id == rows[k].id;
    }
  }

  lemma {:induction false} TagIdsGrow(rows: seq<ScanRow>, k: nat)
    requires k <= |rows|
    ensures |TagIds(rows[..k])| <= |TagIds(rows)|
  {
    forall id | id in TagIds(rows[..k]) ensures id in TagIds(rows) {
      var i :| 0 <= i < k && rows[..k][i].id == id;
      assert rows[i].id == id;
    }
    assert TagIds(rows) == TagIds(rows[..k]) + (TagIds(rows) - TagIds(rows[..k]));
  }

  ghost predicate Names(index: map<int, int>, rows: seq<ScanRow>) {
    index.Keys == TagIds(rows)
  }

  /** The records and their index after some rows. */
  ghost predicate Scanned(data: seq<Tag>, index: map<int, int>, rows: seq<ScanRow>) {
    DistinctIds(data) && Indexes(data, index, |data|) && Sums(data, rows) && Covers(index, rows) && Names(index, rows)
  }

  /** The next row has its record, but is not added up yet. */
  ghost predicate Met(data: seq<Tag>, index: map<int, int>, rows: seq<ScanRow>, k: nat)
    requires k < |rows|
  {
    && DistinctIds(data) && Indexes(data, index, |data|) && Sums(data, rows[..k]) && rows[k].id in index
    && Covers(index, rows[..k + 1]) && Names(index, rows[..k + 1])
  }

  lemma {:induction false} MeetKnown(data: seq<Tag>, index: map<int, int>, rows: seq<ScanRow>, k: nat)
    requires k < |rows| && Scanned(data, index, rows[..k]) && rows[k].id in index
    ensures Met(data, index, rows, k)
  {
    CoversStep(index, rows, k);
    assert rows[k].id in index.Keys;
    CoversKeys(index[rows[k].id := index[rows[k].id]], index, rows[..k + 1]);
    TagIdsStep(rows, k);
  }

  lemma {:induction false} MeetNew(data: seq<Tag>, index: map<int, int>, rows: seq<ScanRow>, k: nat)
    requires k < |rows| && Scanned(data, index, rows[..k]) && rows[k].id !in index
    ensures Met(data + [Tag(rows[k].id, rows[k].name, rows[k].level, rows[k].parent, 0, 0)], index[rows[k].id := |data|], rows, k)
  {
    NewTag(data, index, rows[..k], rows[k]);
    CoversStep(index, rows, k);
    CoversKeys(index[rows[k].id := 0], index[rows[k].id := |data|], rows[..k + 1]);
    TagIdsStep(rows, k);
  }

  lemma {:induction false} AddUp(data: seq<Tag>, after: seq<Tag>, index: map<int, int>, rows: seq<ScanRow>, k: nat, at: nat)
    requires k < |rows| && Met(data, index, rows, k) && |after| == |data| && at < |data| && data[at].id == rows[k].id
    requires forall i :: 0 <= i < |data| && i != at ==> after[i] == data[i]
    requires after[at].id == data[at].id
    requires after[at].amount == data[at].amount + if rows[k].amount.Some? then rows[k].amount.value else 0
    requires after[at].count == data[at].count + if rows[k].amount.Some? then 1 else 0
    ensures Scanned(after, index, rows[..k + 1])
  {
    SumsStep(data, after, rows, k, at);
    SameIds(data, after, index);
  }

  lemma {:induction false} OnePerTag(data: seq<Tag>, index: map<int, int>, rows: seq<ScanRow>)
    requires DistinctIds(data) && Indexes(data, index, |data|) && Names(index, rows)
    ensures |data| == |TagIds(rows)|
  {
    var all := set k | 0 <= k < |data| :: data[k].id;
    S.CountDistinct(data, (t: Tag) => t.id, all);
    assert all == index.Keys;
  }

  lemma {:induction false} TooMany(data: seq<Tag>, index: map<int, int>, rows: seq<ScanRow>, k: nat)
    requires k < |rows| && DistinctIds(data) && Indexes(data, index, |data|) && Names(index, rows[..k]) && rows[k].id !in index
    ensures |TagIds(rows)| > |data|
  {
    OnePerTag(data, index, rows[..k]);
    TagIdsStep(rows, k);
    assert rows[k].id !in index.Keys;
    TagIdsGrow(rows, k + 1);
  }

  /** One record per tag with the checked sum and the number of its transactions. With
      positive amounts the scan fails exactly when some tag's own amount passes 64 bits or
      there are more tags than a positive `limit`. */
  method Collect(rows: seq<ScanRow>, limit: int) returns (r: Option<seq<Tag>>)
    ensures r.Some? ==> DistinctIds(r.value) && Sums(r.value, rows)
    ensures r.Some? ==> forall k :: 0 <= k < |rows| ==> exists i :: 0 <= i < |r.value| && r.value[i].id == rows[k].id
    ensures r.Some? && PositiveRows(rows) ==> PositiveAmounts(r.value)
    ensures r.Some? ==> |r.value| == |TagIds(rows)|
    ensures PositiveRows(rows) ==>
      (r.None? <==> (exists id :: DirectSum(rows, id) > MAX_INT64) || (limit > 0 && |TagIds(rows)| > limit))
    ensures r.Some? && limit > 0 ==> |r.value| <= limit
  {
    var data: seq<Tag> := [];
    var index: map<int, int> := map[];
    for k := 0 to |rows|
      invariant Scanned(data, index, rows[..k])
      invariant limit > 0 ==> |data| <= limit
    {
      var row := rows[k];
      if row.id !in index {
        if limit > 0 && |data| >= limit {
          TooMany(data, index, rows, k);
          return None;
        }
        MeetNew(data, index, rows, k);
        index := index[row.id := |data|];
        data := data + [Tag(row.id, row.name, row.level, row.parent, 0, 0)];
      } else {
        MeetKnown(data, index, rows, k);
      }
      Indexed(data, index, row.id);
      var at := index[row.id];
      ghost var was := data;
      if row.amount.Some? {
        var sum := CheckedAdd(data[at].amount, row.amount.value);
        if sum.None? {
          if PositiveRows(rows) { TagOverflows(rows, k, data[at].amount); }
          return None;
        }
        data := data[at := data[at].(amount := sum.value, count := data[at].count + 1)];
      }
      AddUp(was, data, index, rows, k, at);
    }
    assert rows[..|rows|] == rows;
    NothingOverflows(data, index, rows);
    OnePerTag(data, index, rows);
    if PositiveRows(rows) { SumsArePositive(data, rows); }
    forall k | 0 <= k < |rows| ensures exists i :: 0 <= i < |data| && data[i].id == rows[k].id {
      Indexed(data, index, rows[k].id);
    }
    return Some(data);
  }

  lemma {:induction false} NewTag(data: seq<Tag>, index: map<int, int>, rows: seq<ScanRow>, row: ScanRow)
    requires DistinctIds(data) && Indexes(data, index, |data|) && Sums(data, rows) && Covers(index, rows)
    requires row.id !in index
    ensures var after := data + [Tag(row.id, row.name, row.level, row.parent, 0, 0)];
            DistinctIds(after) && Indexes(after, index[row.id := |data|], |after|) && Sums(after, rows)
  {
  }

  lemma {:induction false} SameIds(data: seq<Tag>, after: seq<Tag>, index: map<int, int>)
    requires DistinctIds(data) && Indexes(data, index, |data|) && |after| == |data|
    requires forall i :: 0 <= i < |data| ==> after[i].id == data[i].id
    ensures DistinctIds(after) && Indexes(after, index, |after|)
  {
  }
}
