/** Which archives the parser accepts: each row on its own, no two rows that clash, and
    every reference met. */
module ArchiveAccept {
  import opened ArchiveRows
  import opened ArchiveParse

  /** What the parser asks of a row by itself. */
  predicate Alone(rules: Rules, r: Row) {
    match r
    case TxRow(legacy, _, _, _, _, _, amount, _, _) =>
      rules.accepts(r) && 0 < amount <= 9_223_372_036_854_775_807 && (legacy || amount <= 1_000_000_000)
    case ImageRow(legacy, id, tx, filename, mimeType, data, created) =>
      if legacy then rules.accepts(r)
      else
        var p := rules.prepare(filename, mimeType, data);
        p.Some? && rules.accepts(ImageRow(false, id, tx, p.value.0, p.value.1, p.value.2, created))
    case TagRow(_, _, _, parent, level) => rules.accepts(r) && 1 <= level <= 3 && (parent.None? ==> level == 1)
    case TagLinkRow(_, _) => true
    case LinkRow(first, second) => first != second
    case SettingRow(_, _, _) => rules.accepts(r)
  }

  predicate SameName(a: Row, r: Row)
    requires a.TagRow? && r.TagRow?
  {
    a.name == r.name && a.parent == r.parent && (r.parent.None? ==> !r.legacy && !a.legacy)
  }

  /** What an earlier row may not share with a later one. */
  predicate Clash(a: Row, r: Row) {
    match r
    case TxRow(_, id, _, _, _, _, _, _, _) => a.TxRow? && a.id == id
    case ImageRow(_, id, _, _, _, _, _) => a.ImageRow? && a.id == id
    case TagRow(_, id, _, _, _) => a.TagRow? && (a.id == id || SameName(a, r))
    case TagLinkRow(_, _) => a == r
    case LinkRow(first, second) => a.LinkRow? && Ordered(a.first, a.second) == Ordered(first, second)
    case SettingRow(_, key, _) => a.SettingRow? && a.key == key
  }

  predicate ClashesWith(done: seq<Row>, r: Row) {
    exists i :: 0 <= i < |done| && Clash(done[i], r)
  }

  predicate AllAlone(rules: Rules, rows: seq<Row>) {
    forall k :: 0 <= k < |rows| ==> Alone(rules, rows[k])
  }

  predicate NoClash(rows: seq<Row>) {
    forall i, k :: 0 <= i < k < |rows| ==> !Clash(rows[i], rows[k])
  }

  // ----- what the sections hold -----

  lemma {:induction false} TxRowsHold(rows: seq<Row>, x: Row)
    ensures x in TxRows(rows) <==> x in rows && x.TxRow?
  {
    if rows != [] {
      TxRowsHold(rows[1..], x);
      assert x in rows <==> x == rows[0] || x in rows[1..];
    }
  }

  lemma {:induction false} TagRowsHold(rows: seq<Row>, x: Row)
    ensures x in TagRows(rows) <==> x in rows && x.TagRow?
  {
    if rows != [] {
      TagRowsHold(rows[1..], x);
      assert x in rows <==> x == rows[0] || x in rows[1..];
    }
  }

  predicate HasImage(rows: seq<Row>, id: int) {
    exists i :: 0 <= i < |rows| && rows[i].ImageRow? && rows[i].id == id
  }

  lemma {:induction false} ImageRowsHold(rules: Rules, rows: seq<Row>, id: int)
    requires AllAlone(rules, rows)
    ensures id in Ids(ImageRows(rules, rows)) <==> HasImage(rows, id)
  {
    if rows != [] {
      assert Alone(rules, rows[0]);
      var rest := rows[1..];
      ImageRowsHold(rules, rest, id);
      IdsConcat(Image(rules, rows[0]), ImageRows(rules, rest));
      if HasImage(rows, id) {
        var i :| 0 <= i < |rows| && rows[i].ImageRow? && rows[i].id == id;
        assert i > 0 ==> rest[i - 1] == rows[i];
      }
      if HasImage(rest, id) {
        var i :| 0 <= i < |rest| && rest[i].ImageRow? && rest[i].id == id;
        assert rows[i + 1] == rest[i];
      }
      if rows[0].ImageRow? {
        var x := PreparedImage(rules, rows[0]).value;
        assert Ids([x]) == {x.id} by { assert [x][0] == x; }
      }
    }
  }

  lemma {:induction false} IdsConcat(a: seq<Row>, b: seq<Row>)
    ensures Ids(a + b) == Ids(a) + Ids(b)
  {
    forall id | id in Ids(a) + Ids(b) ensures id in Ids(a + b) {
      if id in Ids(a) {
        var k :| 0 <= k < |a| && IdOf(a[k]) == id;
        assert (a + b)[k] == a[k];
      } else {
        var k :| 0 <= k < |b| && IdOf(b[k]) == id;
        assert (a + b)[|a| + k] == b[k];
      }
    }
  }

  lemma {:induction false} TagLinksHold(rows: seq<Row>, pair: (int, int))
    ensures pair in TagLinkPairs(rows) <==> TagLinkRow(pair.0, pair.1) in rows
  {
    if rows != [] {
      var x := TagLinkRow(pair.0, pair.1);
      TagLinksHold(rows[1..], pair);
      assert x in rows <==> x == rows[0] || x in rows[1..];
    }
  }

  predicate HasLink(rows: seq<Row>, pair: (int, int)) {
    exists i :: 0 <= i < |rows| && rows[i].LinkRow? && Ordered(rows[i].first, rows[i].second) == pair
  }

  lemma {:induction false} LinksHold(rows: seq<Row>, pair: (int, int))
    ensures pair in LinkPairs(rows) <==> HasLink(rows, pair)
  {
    if rows != [] {
      var rest := rows[1..];
      LinksHold(rest, pair);
      if HasLink(rows, pair) {
        var i :| 0 <= i < |rows| && rows[i].LinkRow? && Ordered(rows[i].first, rows[i].second) == pair;
        assert i > 0 ==> rest[i - 1] == rows[i];
      }
      if HasLink(rest, pair) {
        var i :| 0 <= i < |rest| && rest[i].LinkRow? && Ordered(rest[i].first, rest[i].second) == pair;
        assert rows[i + 1] == rest[i];
      }
    }
  }

  predicate HasSetting(rows: seq<Row>, key: SettingKey) {
    exists i :: 0 <= i < |rows| && rows[i].SettingRow? && rows[i].key == key
  }

  lemma {:induction false} SettingsHold(rows: seq<Row>, key: SettingKey)
    ensures key in Settings(rows) <==> HasSetting(rows, key)
  {
    if rows != [] {
      var rest := rows[1..];
      SettingsHold(rest, key);
      if HasSetting(rows, key) {
        var i :| 0 <= i < |rows| && rows[i].SettingRow? && rows[i].key == key;
        assert i > 0 ==> rest[i - 1] == rows[i];
      }
      if HasSetting(rest, key) {
        var i :| 0 <= i < |rest| && rest[i].SettingRow? && rest[i].key == key;
        assert rows[i + 1] == rest[i];
      }
    }
  }

  // ----- one row after others -----

  /** The rows of each kind, collected. */
  function Sections(rules: Rules, rows: seq<Row>): Parsed {
    Parsed(TxRows(rows), ImageRows(rules, rows), TagRows(rows), TagLinkPairs(rows), LinkPairs(rows), Settings(rows))
  }

  lemma {:induction false} TxClash(rules: Rules, done: seq<Row>, r: Row)
    requires r.TxRow?
    ensures r.id in Ids(TxRows(done)) <==> ClashesWith(done, r)
  {
    var rows := TxRows(done);
    if r.id in Ids(rows) {
      var k :| 0 <= k < |rows| && IdOf(rows[k]) == r.id;
      TxRowsHold(done, rows[k]);
      var i :| 0 <= i < |done| && done[i] == rows[k];
      assert Clash(done[i], r);
    }
    if ClashesWith(done, r) {
      var i :| 0 <= i < |done| && Clash(done[i], r);
      TxRowsHold(done, done[i]);
      var k :| 0 <= k < |rows| && rows[k] == done[i];
      IdsMember(rows, k);
    }
  }

  lemma {:induction false} TagClash(rules: Rules, done: seq<Row>, r: Row)
    requires r.TagRow?
    ensures r.id in Ids(TagRows(done)) || NameTaken(TagRows(done), r) <==> ClashesWith(done, r)
  {
    var rows := TagRows(done);
    if r.id in Ids(rows) {
      var k :| 0 <= k < |rows| && IdOf(rows[k]) == r.id;
      TagRowsHold(done, rows[k]);
      var i :| 0 <= i < |done| && done[i] == rows[k];
      assert Clash(done[i], r);
    }
    if NameTaken(rows, r) {
      var k := TakenBy(rows, r);
      TagRowsHold(done, rows[k]);
      var i :| 0 <= i < |done| && done[i] == rows[k];
      assert Clash(done[i], r);
    }
    if ClashesWith(done, r) {
      var i :| 0 <= i < |done| && Clash(done[i], r);
      TagRowsHold(done, done[i]);
      var k :| 0 <= k < |rows| && rows[k] == done[i];
      IdsMember(rows, k);
    }
  }

  lemma {:induction false} TakenBy(rows: seq<Row>, r: Row) returns (k: nat)
    requires r.TagRow? && NameTaken(rows, r)
    ensures k < |rows| && rows[k].TagRow? && SameName(rows[k], r)
  {
    if r.parent.None? {
      k :| 0 <= k < |rows| && rows[k].TagRow? && !rows[k].legacy && rows[k].parent.None? && rows[k].name == r.name;
    } else {
      k :| 0 <= k < |rows| && rows[k].TagRow? && rows[k].parent == r.parent && rows[k].name == r.name;
    }
  }

  lemma {:induction false} OtherClash(rules: Rules, done: seq<Row>, r: Row)
    requires AllAlone(rules, done)
    ensures r.ImageRow? ==> (r.id in Ids(ImageRows(rules, done)) <==> ClashesWith(done, r))
    ensures r.TagLinkRow? ==> ((r.tx, r.tag) in TagLinkPairs(done) <==> ClashesWith(done, r))
    ensures r.LinkRow? ==> (Ordered(r.first, r.second) in LinkPairs(done) <==> ClashesWith(done, r))
    ensures r.SettingRow? ==> (r.key in Settings(done) <==> ClashesWith(done, r))
  {
    match r
    case ImageRow(_, id, _, _, _, _, _) =>
      ImageRowsHold(rules, done, id);
      assert HasImage(done, id) <==> ClashesWith(done, r);
    case TagLinkRow(tx, tag) =>
      TagLinksHold(done, (tx, tag));
      if r in done {
        var i :| 0 <= i < |done| && done[i] == r;
        assert Clash(done[i], r);
      }
    case LinkRow(first, second) =>
      LinksHold(done, Ordered(first, second));
      assert HasLink(done, Ordered(first, second)) <==> ClashesWith(done, r);
    case SettingRow(_, key, _) =>
      SettingsHold(done, key);
      assert HasSetting(done, key) <==> ClashesWith(done, r);
    case _ =>
  }

  lemma {:induction false} StepExactly(rules: Rules, done: seq<Row>, r: Row)
    requires AllAlone(rules, done)
    ensures ParseRow(rules, Sections(rules, done), r).Some? <==> Alone(rules, r) && !ClashesWith(done, r)
  {
    match r
    case TxRow(_, _, _, _, _, _, _, _, _) => TxClash(rules, done, r);
    case TagRow(_, _, _, _, _) => TagClash(rules, done, r);
    case _ => OtherClash(rules, done, r);
  }

  // ----- all rows -----

  lemma {:induction false} SectionsStep(rules: Rules, done: seq<Row>, r: Row)
    requires ParseRow(rules, Sections(rules, done), r).Some?
    ensures ParseRow(rules, Sections(rules, done), r).value == Sections(rules, done + [r])
  {
    ParseRowAdds(rules, Sections(rules, done), r);
    RowsSnoc(rules, done, r);
    PairsSnoc(done, r);
  }

  lemma {:induction false} RowsSnoc(rules: Rules, done: seq<Row>, r: Row)
    ensures TxRows(done + [r]) == TxRows(done) + Tx(r) && TagRows(done + [r]) == TagRows(done) + Tag(r)
    ensures ImageRows(rules, done + [r]) == ImageRows(rules, done) + Image(rules, r)
  {
    if done == [] {
      assert done + [r] == [r] && [r][1..] == [];
    } else {
      var rest := done[1..];
      assert (done + [r])[0] == done[0] && (done + [r])[1..] == rest + [r];
      RowsSnoc(rules, rest, r);
      Regroup(Tx(done[0]), TxRows(rest), Tx(r));
      Regroup(Tag(done[0]), TagRows(rest), Tag(r));
      Regroup(Image(rules, done[0]), ImageRows(rules, rest), Image(rules, r));
    }
  }

  lemma {:induction false} PairsSnoc(done: seq<Row>, r: Row)
    ensures TagLinkPairs(done + [r]) == TagLinkPairs(done) + TagLink(r) && LinkPairs(done + [r]) == LinkPairs(done) + Link(r)
    ensures Settings(done + [r]) == Settings(done) + Setting(r)
  {
    if done == [] {
      assert done + [r] == [r] && [r][1..] == [];
      assert Setting(r) + map[] == map[] + Setting(r);
    } else {
      var rest := done[1..];
      assert (done + [r])[0] == done[0] && (done + [r])[1..] == rest + [r];
      PairsSnoc(rest, r);
      Regroup(TagLink(done[0]), TagLinkPairs(rest), TagLink(r));
      Regroup(Link(done[0]), LinkPairs(rest), Link(r));
      RegroupSettings(Setting(done[0]), Settings(rest), Setting(r));
    }
  }

  ghost predicate RestAccepted(rules: Rules, done: seq<Row>, rows: seq<Row>) {
    forall k :: 0 <= k < |rows| ==> Alone(rules, rows[k]) && !ClashesWith(done + rows[..k], rows[k])
  }

  lemma {:induction false} RestCons(rules: Rules, done: seq<Row>, rows: seq<Row>)
    requires rows != []
    ensures RestAccepted(rules, done, rows)
            <==> Alone(rules, rows[0]) && !ClashesWith(done, rows[0]) && RestAccepted(rules, done + [rows[0]], rows[1..])
  {
    var rest := rows[1..];
    assert done + rows[..0] == done;
    forall k | 0 <= k < |rest| ensures done + [rows[0]] + rest[..k] == done + rows[..k + 1] && rest[k] == rows[k + 1] {
    }
    if RestAccepted(rules, done, rows) {
      forall k | 0 <= k < |rest| ensures Alone(rules, rest[k]) && !ClashesWith(done + [rows[0]] + rest[..k], rest[k]) {
        assert Alone(rules, rows[k + 1]) && !ClashesWith(done + rows[..k + 1], rows[k + 1]);
      }
    }
    if Alone(rules, rows[0]) && !ClashesWith(done, rows[0]) && RestAccepted(rules, done + [rows[0]], rest) {
      forall k | 0 <= k < |rows| ensures Alone(rules, rows[k]) && !ClashesWith(done + rows[..k], rows[k]) {
        if k > 0 {
          assert Alone(rules, rest[k - 1]) && !ClashesWith(done + [rows[0]] + rest[..k - 1], rest[k - 1]);
        }
      }
    }
  }

  lemma {:induction false} AloneSnoc(rules: Rules, done: seq<Row>, r: Row)
    requires AllAlone(rules, done) && Alone(rules, r)
    ensures AllAlone(rules, done + [r])
  {
  }

  lemma {:induction false} AllExactly(rules: Rules, done: seq<Row>, rows: seq<Row>)
    requires AllAlone(rules, done)
    ensures ParseAll(rules, Sections(rules, done), rows).Some? <==> RestAccepted(rules, done, rows)
    ensures ParseAll(rules, Sections(rules, done), rows).Some? ==>
            ParseAll(rules, Sections(rules, done), rows).value == Sections(rules, done + rows)
    decreases |rows|
  {
    if rows == [] {
      assert done + rows == done;
    } else {
      StepExactly(rules, done, rows[0]);
      RestCons(rules, done, rows);
      if ParseRow(rules, Sections(rules, done), rows[0]).Some? {
        SectionsStep(rules, done, rows[0]);
        AloneSnoc(rules, done, rows[0]);
        AllExactly(rules, done + [rows[0]], rows[1..]);
        assert done + [rows[0]] + rows[1..] == done + rows;
      }
    }
  }

  lemma {:induction false} AcceptedPairwise(rules: Rules, rows: seq<Row>)
    ensures RestAccepted(rules, [], rows) <==> AllAlone(rules, rows) && NoClash(rows)
  {
    assert forall k :: 0 <= k <= |rows| ==> [] + rows[..k] == rows[..k];
    if RestAccepted(rules, [], rows) {
      forall i, k | 0 <= i < k < |rows| ensures !Clash(rows[i], rows[k]) {
        assert !ClashesWith([] + rows[..k], rows[k]);
        assert rows[..k][i] == rows[i];
      }
    }
  }

  /** The parser accepts exactly the rows that pass alone, do not clash and refer to
      rows that are there. */
  lemma {:induction false} ParsesExactly(rules: Rules, rows: seq<Row>)
    ensures Parse(rules, rows).Some? <==> AllAlone(rules, rows) && NoClash(rows) && Complete(Sections(rules, rows))
    ensures Parse(rules, rows).Some? ==> Parse(rules, rows).value == Sections(rules, rows)
  {
    AllExactly(rules, [], rows);
    AcceptedPairwise(rules, rows);
    assert [] + rows == rows;
  }
}
