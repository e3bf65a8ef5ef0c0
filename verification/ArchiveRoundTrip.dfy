/** Exporting a ledger and importing the archive gives the ledger back. */
module ArchiveRoundTrip {
  import opened Options
  import opened Bytes
  import opened ArchiveRows
  import opened ArchiveParse
  import opened ArchiveTags
  import opened ArchiveImport
  import Balances
  import CardLinks
  import BalanceRenaming

  // ----- what the exporter writes -----

  /** The rows of an archive in the order they are written. */
  datatype Archive = Archive(txs: seq<Row>, images: seq<Row>, tags: seq<Row>, tagLinks: seq<Row>, links: seq<Row>, settings: seq<Row>)

  function AllRows(a: Archive): seq<Row> {
    a.txs + (a.images + (a.tags + (a.tagLinks + (a.links + a.settings))))
  }

  ghost predicate ExportsTx(l: Ledger, r: Row) {
    r.TxRow? && r.id in l.txs &&
    var tx := l.txs[r.id];
    r == TxRow(r.legacy, r.id, tx.account, tx.date, tx.item, tx.income, tx.amount, tx.balance, tx.memo)
  }

  /** An image is exported as a normal one only if preparing it would change nothing. */
  ghost predicate ExportsImage(rules: Rules, i: StoredImage, r: Row) {
    && r.ImageRow?
    && r == ImageRow(r.legacy, r.id, i.tx, i.filename, i.mimeType, i.data, i.created)
    && (!r.legacy ==> rules.prepare(i.filename, i.mimeType, i.data) == Some((i.filename, i.mimeType, i.data)))
  }

  ghost predicate ExportsTag(l: Ledger, r: Row) {
    r.TagRow? && r.id in l.tags &&
    r == TagRow(r.legacy, r.id, l.tags[r.id].name, l.tags[r.id].parent, l.tags[r.id].level)
  }

  ghost predicate ExportsSetting(l: Ledger, r: Row) {
    r.SettingRow? && r.key in l.settings && r.value == l.settings[r.key]
  }

  function PairOfRow(r: Row): (int, int) {
    match r
    case TagLinkRow(tx, tag) => (tx, tag)
    case LinkRow(first, second) => (first, second)
    case _ => (0, 0)
  }

  ghost predicate ListsPairs(rows: seq<Row>, pairs: set<(int, int)>) {
    pairs == set k | 0 <= k < |rows| :: PairOfRow(rows[k])
  }

  ghost predicate TxsExported(l: Ledger, rows: seq<Row>) {
    && (forall k :: 0 <= k < |rows| ==> ExportsTx(l, rows[k]))
    && Ids(rows) == l.txs.Keys
    && (forall i, j :: 0 <= i < j < |rows| ==> EarlierTx(l, IdOf(rows[i]), IdOf(rows[j])))
  }

  ghost predicate ImagesExported(rules: Rules, images: seq<StoredImage>, rows: seq<Row>) {
    |rows| == |images| && forall k :: 0 <= k < |rows| ==> ExportsImage(rules, images[k], rows[k])
  }

  ghost predicate TagsExported(l: Ledger, rows: seq<Row>) {
    (forall k :: 0 <= k < |rows| ==> ExportsTag(l, rows[k])) && Ids(rows) == l.tags.Keys
  }

  ghost predicate LinksExported(l: Ledger, tagLinks: seq<Row>, links: seq<Row>) {
    && (forall k :: 0 <= k < |tagLinks| ==> tagLinks[k].TagLinkRow?) && ListsPairs(tagLinks, l.tagLinks)
    && (forall k :: 0 <= k < |links| ==> links[k].LinkRow?) && ListsPairs(links, l.links)
  }

  ghost predicate SettingsExported(l: Ledger, rows: seq<Row>) {
    && (forall k :: 0 <= k < |rows| ==> ExportsSetting(l, rows[k]))
    && (forall key :: key in l.settings ==> HasKey(rows, key))
  }

  /** Transactions come in (date, id) order; every row of the ledger is written. */
  ghost predicate IsExport(rules: Rules, l: Ledger, a: Archive) {
    && TxsExported(l, a.txs)
    && ImagesExported(rules, l.images, a.images)
    && TagsExported(l, a.tags)
    && LinksExported(l, a.tagLinks, a.links)
    && SettingsExported(l, a.settings)
  }

  predicate HasKey(rows: seq<Row>, key: SettingKey) {
    exists k :: 0 <= k < |rows| && rows[k].SettingRow? && rows[k].key == key
  }

  ghost predicate EarlierTx(l: Ledger, a: int, b: int) {
    a in l.txs && b in l.txs && Balances.Before(TableOf(l.txs), a, b)
  }

  // ----- the parser sees the sections -----

  lemma {:induction false} SectionsConcat(rules: Rules, a: seq<Row>, b: seq<Row>)
    ensures TxRows(a + b) == TxRows(a) + TxRows(b) && ImageRows(rules, a + b) == ImageRows(rules, a) + ImageRows(rules, b)
    ensures TagRows(a + b) == TagRows(a) + TagRows(b)
    decreases |a|
  {
    if a == [] {
      assert a + b == b;
    } else {
      assert (a + b)[0] == a[0] && (a + b)[1..] == a[1..] + b;
      SectionsConcat(rules, a[1..], b);
      Regroup(ArchiveParse.Tx(a[0]), TxRows(a[1..]), TxRows(b));
      Regroup(Image(rules, a[0]), ImageRows(rules, a[1..]), ImageRows(rules, b));
      Regroup(Tag(a[0]), TagRows(a[1..]), TagRows(b));
    }
  }

  lemma {:induction false} PairsConcat(a: seq<Row>, b: seq<Row>)
    ensures TagLinkPairs(a + b) == TagLinkPairs(a) + TagLinkPairs(b) && LinkPairs(a + b) == LinkPairs(a) + LinkPairs(b)
    ensures Settings(a + b) == Settings(a) + Settings(b)
    decreases |a|
  {
    if a == [] {
      assert a + b == b;
      assert map[] + Settings(b) == Settings(b);
    } else {
      assert (a + b)[0] == a[0] && (a + b)[1..] == a[1..] + b;
      PairsConcat(a[1..], b);
      Regroup(TagLink(a[0]), TagLinkPairs(a[1..]), TagLinkPairs(b));
      Regroup(Link(a[0]), LinkPairs(a[1..]), LinkPairs(b));
      RegroupSettings(Setting(a[0]), Settings(a[1..]), Settings(b));
    }
  }

  datatype Section = TxSection | ImageSection | TagSection | TagLinkSection | LinkSection | SettingSection

  function SectionOf(r: Row): Section {
    match r
    case TxRow(_, _, _, _, _, _, _, _, _) => TxSection
    case ImageRow(_, _, _, _, _, _, _) => ImageSection
    case TagRow(_, _, _, _, _) => TagSection
    case TagLinkRow(_, _) => TagLinkSection
    case LinkRow(_, _) => LinkSection
    case SettingRow(_, _, _) => SettingSection
  }

  ghost predicate OnlySection(rows: seq<Row>, s: Section) {
    forall k :: 0 <= k < |rows| ==> SectionOf(rows[k]) == s
  }

  lemma {:induction false} RowsOfSection(rules: Rules, rows: seq<Row>, s: Section)
    requires OnlySection(rows, s)
    ensures TxRows(rows) == if s.TxSection? then rows else []
    ensures TagRows(rows) == if s.TagSection? then rows else []
    ensures !s.ImageSection? ==> ImageRows(rules, rows) == []
  {
    if rows != [] {
      assert SectionOf(rows[0]) == s;
      RowsOfSection(rules, rows[1..], s);
      assert rows == [rows[0]] + rows[1..];
    }
  }

  lemma {:induction false} PairsOfSection(rows: seq<Row>, s: Section)
    requires OnlySection(rows, s)
    ensures !s.TagLinkSection? ==> TagLinkPairs(rows) == []
    ensures !s.LinkSection? ==> LinkPairs(rows) == []
    ensures !s.SettingSection? ==> Settings(rows) == map[]
  {
    if rows != [] {
      assert SectionOf(rows[0]) == s;
      PairsOfSection(rows[1..], s);
    }
  }

  lemma {:induction false} ImagesStay(rules: Rules, images: seq<StoredImage>, rows: seq<Row>)
    requires ImagesExported(rules, images, rows)
    ensures ImageRows(rules, rows) == rows
  {
    if rows != [] {
      assert ExportsImage(rules, images[0], rows[0]);
      ImagesStay(rules, images[1..], rows[1..]);
      assert rows == [rows[0]] + rows[1..];
    }
  }

  lemma {:induction false} TagLinkPairsAt(rows: seq<Row>)
    requires forall k :: 0 <= k < |rows| ==> rows[k].TagLinkRow?
    ensures |TagLinkPairs(rows)| == |rows| && forall k :: 0 <= k < |rows| ==> TagLinkPairs(rows)[k] == PairOfRow(rows[k])
  {
    if rows != [] { TagLinkPairsAt(rows[1..]); }
  }

  lemma {:induction false} LinkPairsAt(rows: seq<Row>)
    requires forall k :: 0 <= k < |rows| ==> rows[k].LinkRow?
    ensures |LinkPairs(rows)| == |rows|
    ensures forall k :: 0 <= k < |rows| ==> LinkPairs(rows)[k] == Ordered(PairOfRow(rows[k]).0, PairOfRow(rows[k]).1)
  {
    if rows != [] { LinkPairsAt(rows[1..]); }
  }

  lemma {:induction false} HasKeyCons(rows: seq<Row>, key: SettingKey)
    requires rows != [] && rows[0].SettingRow?
    ensures HasKey(rows, key) <==> rows[0].key == key || HasKey(rows[1..], key)
  {
    if HasKey(rows[1..], key) {
      var k :| 0 <= k < |rows[1..]| && rows[1..][k].SettingRow? && rows[1..][k].key == key;
      assert rows[k + 1] == rows[1..][k];
    }
    if HasKey(rows, key) {
      var k :| 0 <= k < |rows| && rows[k].SettingRow? && rows[k].key == key;
      assert k > 0 ==> rows[1..][k - 1] == rows[k];
    }
  }

  lemma {:induction false} SettingsAt(l: Ledger, rows: seq<Row>, key: SettingKey)
    requires forall k :: 0 <= k < |rows| ==> ExportsSetting(l, rows[k])
    ensures key in Settings(rows) <==> HasKey(rows, key)
    ensures key in Settings(rows) ==> key in l.settings && Settings(rows)[key] == l.settings[key]
  {
    if rows != [] {
      assert ExportsSetting(l, rows[0]);
      SettingsAt(l, rows[1..], key);
      HasKeyCons(rows, key);
    }
  }

  lemma {:induction false} SettingsStay(l: Ledger, rows: seq<Row>)
    requires SettingsExported(l, rows)
    ensures Settings(rows) == l.settings
  {
    forall key ensures key in Settings(rows) <==> key in l.settings
      ensures key in l.settings ==> Settings(rows)[key] == l.settings[key]
    {
      SettingsAt(l, rows, key);
    }
  }

  lemma {:induction false} SectionsAre(rules: Rules, l: Ledger, a: Archive)
    requires IsExport(rules, l, a)
    ensures OnlySection(a.txs, TxSection) && OnlySection(a.images, ImageSection)
    ensures OnlySection(a.tags, TagSection) && OnlySection(a.tagLinks, TagLinkSection)
    ensures OnlySection(a.links, LinkSection) && OnlySection(a.settings, SettingSection)
  {
    forall k | 0 <= k < |a.txs| ensures SectionOf(a.txs[k]) == TxSection { assert ExportsTx(l, a.txs[k]); }
    forall k | 0 <= k < |a.images| ensures SectionOf(a.images[k]) == ImageSection {
      assert ExportsImage(rules, l.images[k], a.images[k]);
    }
    forall k | 0 <= k < |a.tags| ensures SectionOf(a.tags[k]) == TagSection { assert ExportsTag(l, a.tags[k]); }
    forall k | 0 <= k < |a.settings| ensures SectionOf(a.settings[k]) == SettingSection {
      assert ExportsSetting(l, a.settings[k]);
    }
  }

  lemma {:induction false} RowsInFront(rules: Rules, rows: seq<Row>, rest: seq<Row>, s: Section)
    requires OnlySection(rows, s)
    ensures TxRows(rows + rest) == if s.TxSection? then rows + TxRows(rest) else TxRows(rest)
    ensures TagRows(rows + rest) == if s.TagSection? then rows + TagRows(rest) else TagRows(rest)
    ensures ImageRows(rules, rows + rest) == if s.ImageSection? then ImageRows(rules, rows) + ImageRows(rules, rest) else ImageRows(rules, rest)
  {
    SectionsConcat(rules, rows, rest);
    RowsOfSection(rules, rows, s);
  }

  /** The rows of each kind in the whole archive are its section. */
  lemma {:induction false} RowsAreSections(rules: Rules, l: Ledger, a: Archive)
    requires IsExport(rules, l, a)
    ensures TxRows(AllRows(a)) == a.txs && TagRows(AllRows(a)) == a.tags
    ensures ImageRows(rules, AllRows(a)) == ImageRows(rules, a.images)
  {
    SectionsAre(rules, l, a);
    var last := a.links + a.settings;
    RowsOfSection(rules, a.settings, SettingSection);
    RowsInFront(rules, a.links, a.settings, LinkSection);
    RowsInFront(rules, a.tagLinks, last, TagLinkSection);
    RowsInFront(rules, a.tags, a.tagLinks + last, TagSection);
    RowsInFront(rules, a.images, a.tags + (a.tagLinks + last), ImageSection);
    RowsInFront(rules, a.txs, a.images + (a.tags + (a.tagLinks + last)), TxSection);
  }

  lemma {:induction false} SkipSection(rows: seq<Row>, rest: seq<Row>, s: Section)
    requires OnlySection(rows, s)
    ensures !s.TagLinkSection? ==> TagLinkPairs(rows + rest) == TagLinkPairs(rest)
    ensures !s.LinkSection? ==> LinkPairs(rows + rest) == LinkPairs(rest)
    ensures !s.SettingSection? ==> Settings(rows + rest) == Settings(rest)
  {
    PairsConcat(rows, rest);
    PairsOfSection(rows, s);
    EmptyFirst(TagLinkPairs(rest), LinkPairs(rest), Settings(rest));
  }

  lemma {:induction false} EmptyFirst(a: seq<(int, int)>, b: seq<(int, int)>, m: map<SettingKey, Data>)
    ensures [] + a == a && [] + b == b && map[] + m == m
  {
  }

  lemma {:induction false} KeepSection(rows: seq<Row>, rest: seq<Row>)
    ensures TagLinkPairs(rest) == [] ==> TagLinkPairs(rows + rest) == TagLinkPairs(rows)
    ensures LinkPairs(rest) == [] ==> LinkPairs(rows + rest) == LinkPairs(rows)
  {
    PairsConcat(rows, rest);
  }

  lemma {:induction false} PairsAreSections(rules: Rules, l: Ledger, a: Archive)
    requires IsExport(rules, l, a)
    ensures TagLinkPairs(AllRows(a)) == TagLinkPairs(a.tagLinks) && LinkPairs(AllRows(a)) == LinkPairs(a.links)
    ensures Settings(AllRows(a)) == Settings(a.settings)
  {
    SectionsAre(rules, l, a);
    PairsOfSection(a.links, LinkSection);
    PairsOfSection(a.settings, SettingSection);
    var last := a.links + a.settings;
    SkipSection(a.links, a.settings, LinkSection);
    KeepSection(a.links, a.settings);
    SkipSection(a.tagLinks, last, TagLinkSection);
    KeepSection(a.tagLinks, last);
    SkipSection(a.tags, a.tagLinks + last, TagSection);
    SkipSection(a.images, a.tags + (a.tagLinks + last), ImageSection);
    SkipSection(a.txs, a.images + (a.tags + (a.tagLinks + last)), TxSection);
  }

  /** What the parser makes of an exported archive. */
  ghost predicate Reads(l: Ledger, a: Archive, p: Parsed) {
    && p.txs == a.txs && p.images == a.images && p.tags == a.tags
    && p.tagLinks == TagLinkPairs(a.tagLinks) && p.links == LinkPairs(a.links) && p.settings == l.settings
  }

  lemma {:induction false} ParserReadsExport(rules: Rules, l: Ledger, a: Archive)
    requires IsExport(rules, l, a) && Parse(rules, AllRows(a)).Some?
    ensures Reads(l, a, Parse(rules, AllRows(a)).value)
  {
    ParsedIsRows(rules, AllRows(a));
    RowsAreSections(rules, l, a);
    PairsAreSections(rules, l, a);
    SettingsStay(l, a.settings);
    ImagesStay(rules, l.images, a.images);
  }

  // ----- the same ledger under new ids -----

  /** An injective renaming of one set of ids onto another. */
  ghost predicate Renames(rename: map<int, int>, from: set<int>, to: set<int>) {
    && rename.Keys == from
    && (forall x :: x in rename ==> rename[x] in to)
    && (forall y :: y in to ==> exists x :: x in rename && rename[x] == y)
    && forall x, y :: x in rename && y in rename && rename[x] == rename[y] ==> x == y
  }

  ghost predicate SameTx(t: Tx, u: Tx) {
    t.(balance := u.balance) == u
  }

  ghost predicate SameTxs(l: map<int, Tx>, m: map<int, Tx>, rename: map<int, int>) {
    forall id :: id in l ==> id in rename && rename[id] in m && SameTx(l[id], m[rename[id]])
  }

  ghost predicate SameTags(l: map<int, StoredTag>, m: map<int, StoredTag>, rename: map<int, int>) {
    forall id :: id in l ==>
      && id in rename && rename[id] in m
      && (l[id].parent.Some? ==> l[id].parent.value in rename)
      && m[rename[id]] == StoredTag(l[id].name, if l[id].parent.None? then None else Some(rename[l[id].parent.value]), l[id].level)
  }

  ghost predicate SameTagLinks(l: set<(int, int)>, m: set<(int, int)>, txs: map<int, int>, tags: map<int, int>) {
    && (forall p :: p in l ==> p.0 in txs && p.1 in tags)
    && m == set p | p in l && p.0 in txs && p.1 in tags :: (txs[p.0], tags[p.1])
  }

  ghost predicate SameLinks(l: set<(int, int)>, m: set<(int, int)>, txs: map<int, int>) {
    && (forall p :: p in l ==> p.0 in txs && p.1 in txs)
    && m == set p | p in l && p.0 in txs && p.1 in txs :: CardLinks.Edge(txs[p.0], txs[p.1])
  }

  function RenamedImage(env: Env, i: StoredImage, txs: map<int, int>): StoredImage {
    StoredImage(if i.tx in txs then txs[i.tx] else i.tx, i.filename, i.mimeType, i.data,
                if i.created == [] then env.stamp else i.created)
  }

  function RenamedImages(env: Env, images: seq<StoredImage>, txs: map<int, int>): seq<StoredImage> {
    if images == [] then [] else [RenamedImage(env, images[0], txs)] + RenamedImages(env, images[1..], txs)
  }

  /** The same images on the renamed transactions, in any order; one stored without a
      time stamp has got the database's. */
  ghost predicate SameImages(env: Env, l: seq<StoredImage>, m: seq<StoredImage>, txs: map<int, int>) {
    && (forall k :: 0 <= k < |l| ==> l[k].tx in txs)
    && multiset(m) == multiset(RenamedImages(env, l, txs))
  }

  ghost predicate Same(env: Env, l: Ledger, m: Ledger, txs: map<int, int>, tags: map<int, int>) {
    && Renames(txs, l.txs.Keys, m.txs.Keys) && Renames(tags, l.tags.Keys, m.tags.Keys)
    && SameTxs(l.txs, m.txs, txs)
    && SameTags(l.tags, m.tags, tags)
    && SameTagLinks(l.tagLinks, m.tagLinks, txs, tags)
    && SameLinks(l.links, m.links, txs)
    && m.settings == l.settings
    && SameImages(env, l.images, m.images, txs)
  }

  // ----- transactions -----

  /** New ids follow the order of the rows. */
  ghost predicate ByPosition(base: int, rows: seq<Row>, ids: map<int, int>) {
    && ids.Keys == Ids(rows)
    && forall k :: 0 <= k < |rows| ==> IdOf(rows[k]) in ids && ids[IdOf(rows[k])] == base + k
  }

  ghost predicate Spans(base: int, n: nat, ids: set<int>) {
    forall y :: y in ids <==> base <= y < base + n
  }

  lemma {:induction false} PositionOf(base: int, rows: seq<Row>, ids: map<int, int>, id: int) returns (k: nat)
    requires ByPosition(base, rows, ids) && id in Ids(rows)
    ensures k < |rows| && IdOf(rows[k]) == id && id in ids && ids[id] == base + k
  {
    k := RowOf(rows, id);
  }

  lemma {:induction false} PositionsRename(base: int, rows: seq<Row>, ids: map<int, int>, to: set<int>)
    requires ByPosition(base, rows, ids) && Spans(base, |rows|, to)
    ensures Renames(ids, Ids(rows), to)
  {
    forall x | x in ids ensures ids[x] in to {
      assert x in ids.Keys;
      var k := PositionOf(base, rows, ids, x);
    }
    forall y | y in to ensures exists x :: x in ids && ids[x] == y {
      var k := y - base;
      assert IdOf(rows[k]) in ids && ids[IdOf(rows[k])] == y;
    }
    forall x, y | x in ids && y in ids && ids[x] == ids[y] ensures x == y {
      assert x in ids.Keys && y in ids.Keys;
      var i := PositionOf(base, rows, ids, x);
      var j := PositionOf(base, rows, ids, y);
    }
  }

  ghost predicate AtPositions(base: int, rows: seq<Row>, txs: map<int, Tx>) {
    forall k :: 0 <= k < |rows| ==> IsTx(rows[k]) && base + k in txs && txs[base + k] == NewTx(rows[k])
  }

  lemma {:induction false} PositionsKeepTxs(base: int, l: Ledger, rows: seq<Row>, ids: map<int, int>, txs: map<int, Tx>)
    requires TxsExported(l, rows) && ByPosition(base, rows, ids) && AtPositions(base, rows, txs)
    ensures SameTxs(l.txs, txs, ids)
  {
    forall id | id in l.txs ensures id in ids && ids[id] in txs && SameTx(l.txs[id], txs[ids[id]]) {
      assert id in l.txs.Keys;
      var k := PositionOf(base, rows, ids, id);
      assert ExportsTx(l, rows[k]);
    }
  }

  lemma {:induction false} TxPositions(base: int, rows: seq<Row>)
    requires DistinctIds(rows)
    ensures ByPosition(base, rows, TxIds(base, rows))
  {
    TxIdsAt(base, rows);
  }

  lemma {:induction false} NewTxPositions(base: int, rows: seq<Row>)
    requires forall k :: 0 <= k < |rows| ==> IsTx(rows[k])
    ensures AtPositions(base, rows, NewTxs(base, rows)) && Spans(base, |rows|, NewTxs(base, rows).Keys)
  {
    NewTxsAt(base, rows);
    forall y ensures y in NewTxs(base, rows).Keys <==> base <= y < base + |rows| {
      assert y in NewTxs(base, rows).Keys <==> y in NewTxs(base, rows);
    }
  }

  lemma {:induction false} TxsRenamed(l: Ledger, rows: seq<Row>, base: int)
    requires TxsExported(l, rows) && DistinctIds(rows) && (forall k :: 0 <= k < |rows| ==> IsTx(rows[k]))
    ensures Renames(TxIds(base, rows), Ids(rows), NewTxs(base, rows).Keys)
    ensures SameTxs(l.txs, NewTxs(base, rows), TxIds(base, rows))
  {
    TxPositions(base, rows);
    NewTxPositions(base, rows);
    PositionsRename(base, rows, TxIds(base, rows), NewTxs(base, rows).Keys);
    PositionsKeepTxs(base, l, rows, TxIds(base, rows), NewTxs(base, rows));
  }

  /** Only balances differ, so what was renamed stays so. */
  lemma {:induction false} RecomputedTxs(l: Ledger, txs: map<int, Tx>, ids: map<int, int>)
    requires SameTxs(l.txs, txs, ids)
    ensures SameTxs(l.txs, Recomputed(txs), ids) && Recomputed(txs).Keys == txs.Keys
  {
    var after := Recomputed(txs);
    forall id | id in l.txs ensures id in ids && ids[id] in after && SameTx(l.txs[id], after[ids[id]]) {
      assert SameTx(l.txs[id], txs[ids[id]]);
    }
  }

  // ----- tags -----

  ghost predicate TagAt(base: int, s: TagState, table: map<int, StoredTag>) {
    && (forall id :: id in table <==> base <= id < base + |s.tags|)
    && forall k :: 0 <= k < |s.tags| ==>
         base + k in table && table[base + k] == StoredTag(s.tags[k].name, s.tags[k].parent, s.tags[k].level)
  }

  lemma {:induction false} TagTableEntry(base: int, s: TagState, table: map<int, StoredTag>, id: int)
    requires TagAt(base, s, table) && base <= id < base + |s.tags|
    ensures id in table && table[id] == StoredTag(s.tags[id - base].name, s.tags[id - base].parent, s.tags[id - base].level)
  {
    assert base + (id - base) in table;
  }

  lemma {:induction false} OneTagRenamed(base: int, l: Ledger, rows: seq<Row>, s: TagState, table: map<int, StoredTag>, id: int)
    requires TagsExported(l, rows) && TagAt(base, s, table) && id in l.tags
    requires forall k :: 0 <= k < |rows| ==> Stored(base, rows, s, rows[k])
    ensures id in s.ids && s.ids[id] in table && (l.tags[id].parent.Some? ==> l.tags[id].parent.value in s.ids)
    ensures table[s.ids[id]] == StoredTag(l.tags[id].name,
      if l.tags[id].parent.None? then None else Some(s.ids[l.tags[id].parent.value]), l.tags[id].level)
  {
    assert id in l.tags.Keys;
    var k := RowOf(rows, id);
    assert ExportsTag(l, rows[k]);
    assert Stored(base, rows, s, rows[k]);
    TagTableEntry(base, s, table, s.ids[id]);
  }

  lemma {:induction false} TagIdsRename(base: int, rows: seq<Row>, s: TagState, table: map<int, StoredTag>)
    requires TagAt(base, s, table) && s.ids.Keys == Ids(rows) && Apart(s) && Owned(base, s) && AllStored(base, rows, s)
    ensures Renames(s.ids, Ids(rows), table.Keys)
  {
    forall x | x in s.ids ensures s.ids[x] in table.Keys {
      assert x in s.ids.Keys;
      var k := RowOf(rows, x);
      assert Stored(base, rows, s, rows[k]);
      TagTableEntry(base, s, table, s.ids[x]);
    }
    forall y | y in table.Keys ensures exists x :: x in s.ids && s.ids[x] == y {
      assert y in table;
      assert HasOwner(base, s, y - base);
      var x :| x in s.ids && s.ids[x] == base + (y - base);
    }
  }

  lemma {:induction false} TagTablePositions(base: int, s: TagState)
    ensures TagAt(base, s, TagTable(base, s.tags))
  {
    TagTableAt(base, s.tags);
  }

  ghost predicate AllStored(base: int, rows: seq<Row>, s: TagState) {
    forall k :: 0 <= k < |rows| ==> Stored(base, rows, s, rows[k])
  }

  lemma {:induction false} TagsKeep(base: int, l: Ledger, rows: seq<Row>, s: TagState, table: map<int, StoredTag>)
    requires TagsExported(l, rows) && TagAt(base, s, table) && AllStored(base, rows, s)
    ensures SameTags(l.tags, table, s.ids)
  {
    forall id | id in l.tags
      ensures id in s.ids && s.ids[id] in table && (l.tags[id].parent.Some? ==> l.tags[id].parent.value in s.ids)
      ensures table[s.ids[id]] == StoredTag(l.tags[id].name,
        if l.tags[id].parent.None? then None else Some(s.ids[l.tags[id].parent.value]), l.tags[id].level)
    {
      OneTagRenamed(base, l, rows, s, table, id);
    }
  }

  lemma {:induction false} TagsRenamed(l: Ledger, rows: seq<Row>, base: int, s: TagState)
    requires TagsExported(l, rows) && s.ids.Keys == Ids(rows) && Apart(s) && Owned(base, s)
    requires AllStored(base, rows, s)
    ensures Renames(s.ids, Ids(rows), TagTable(base, s.tags).Keys)
    ensures SameTags(l.tags, TagTable(base, s.tags), s.ids)
  {
    TagTablePositions(base, s);
    TagIdsRename(base, rows, s, TagTable(base, s.tags));
    TagsKeep(base, l, rows, s, TagTable(base, s.tags));
  }

  // ----- links -----

  ghost predicate Enumerates(pairs: seq<(int, int)>, all: set<(int, int)>) {
    all == set k | 0 <= k < |pairs| :: pairs[k]
  }

  lemma {:induction false} TagPairsRenamed(pairs: seq<(int, int)>, all: set<(int, int)>, txs: map<int, int>, tags: map<int, int>)
    requires Enumerates(pairs, all) && forall k :: 0 <= k < |pairs| ==> pairs[k].0 in txs && pairs[k].1 in tags
    ensures SameTagLinks(all, RenamedTagLinks(txs, tags, pairs), txs, tags)
  {
    var wanted := set p | p in all && p.0 in txs && p.1 in tags :: (txs[p.0], tags[p.1]);
    forall e | e in RenamedTagLinks(txs, tags, pairs) ensures e in wanted {
      var k :| 0 <= k < |pairs| && pairs[k].0 in txs && pairs[k].1 in tags && e == (txs[pairs[k].0], tags[pairs[k].1]);
      assert pairs[k] in all;
    }
    forall e | e in wanted ensures e in RenamedTagLinks(txs, tags, pairs) {
      var p :| p in all && p.0 in txs && p.1 in tags && e == (txs[p.0], tags[p.1]);
      var k :| 0 <= k < |pairs| && pairs[k] == p;
    }
  }

  lemma {:induction false} TagLinksRenamed(all: set<(int, int)>, rows: seq<Row>, txs: map<int, int>, tags: map<int, int>)
    requires (forall k :: 0 <= k < |rows| ==> rows[k].TagLinkRow?) && ListsPairs(rows, all)
    requires forall k :: 0 <= k < |rows| ==> PairOfRow(rows[k]).0 in txs && PairOfRow(rows[k]).1 in tags
    ensures SameTagLinks(all, RenamedTagLinks(txs, tags, TagLinkPairs(rows)), txs, tags)
  {
    TagLinkPairsAt(rows);
    var pairs := TagLinkPairs(rows);
    assert Enumerates(pairs, all);
    TagPairsRenamed(pairs, all, txs, tags);
  }

  lemma {:induction false} EdgeOfOrdered(txs: map<int, int>, a: int, b: int)
    requires a in txs && b in txs
    ensures Ordered(a, b).0 in txs && Ordered(a, b).1 in txs
    ensures CardLinks.Edge(txs[Ordered(a, b).0], txs[Ordered(a, b).1]) == CardLinks.Edge(txs[a], txs[b])
  {
  }

  lemma {:induction false} LinksRenamed(all: set<(int, int)>, rows: seq<Row>, txs: map<int, int>)
    requires (forall k :: 0 <= k < |rows| ==> rows[k].LinkRow?) && ListsPairs(rows, all)
    requires forall k :: 0 <= k < |rows| ==> PairOfRow(rows[k]).0 in txs && PairOfRow(rows[k]).1 in txs
    ensures SameLinks(all, RenamedLinks(txs, LinkPairs(rows)), txs)
  {
    LinkPairsAt(rows);
    OrderedRenamed(all, rows, LinkPairs(rows), txs);
  }

  lemma {:induction false} OrderedRenamed(all: set<(int, int)>, rows: seq<Row>, pairs: seq<(int, int)>, txs: map<int, int>)
    requires ListsPairs(rows, all) && |pairs| == |rows|
    requires forall k :: 0 <= k < |rows| ==> PairOfRow(rows[k]).0 in txs && PairOfRow(rows[k]).1 in txs
    requires forall k :: 0 <= k < |rows| ==> pairs[k] == Ordered(PairOfRow(rows[k]).0, PairOfRow(rows[k]).1)
    ensures SameLinks(all, RenamedLinks(txs, pairs), txs)
  {
    var wanted := set p | p in all && p.0 in txs && p.1 in txs :: CardLinks.Edge(txs[p.0], txs[p.1]);
    forall e | e in RenamedLinks(txs, pairs) ensures e in wanted {
      var k :| 0 <= k < |pairs| && pairs[k].0 in txs && pairs[k].1 in txs && e == CardLinks.Edge(txs[pairs[k].0], txs[pairs[k].1]);
      var p := PairOfRow(rows[k]);
      EdgeOfOrdered(txs, p.0, p.1);
      assert p in all;
    }
    forall e | e in wanted ensures e in RenamedLinks(txs, pairs) {
      var p :| p in all && p.0 in txs && p.1 in txs && e == CardLinks.Edge(txs[p.0], txs[p.1]);
      var k :| 0 <= k < |rows| && PairOfRow(rows[k]) == p;
      EdgeOfOrdered(txs, p.0, p.1);
      assert pairs[k] == Ordered(p.0, p.1);
    }
  }

  // ----- images -----

  lemma {:induction false} ImagesRenamed(rules: Rules, env: Env, images: seq<StoredImage>, rows: seq<Row>, txs: map<int, int>)
    requires ImagesExported(rules, images, rows)
    requires forall k :: 0 <= k < |rows| ==> Refers(txs, rows[k])
    ensures multiset(NewImages(env, txs, rows, false)) + multiset(NewImages(env, txs, rows, true))
         == multiset(RenamedImages(env, images, txs))
  {
    if rows != [] {
      assert ExportsImage(rules, images[0], rows[0]) && Refers(txs, rows[0]);
      ImagesRenamed(rules, env, images[1..], rows[1..], txs);
      assert NewImage(env, txs, rows[0]) == RenamedImage(env, images[0], txs);
    }
  }

  // ----- the whole ledger -----

  /** What a successful replace stored. */
  lemma {:induction false} ReplaceStored(env: Env, base: int, tagBase: int, p: Parsed)
    requires Importable(p) && Replace(env, base, tagBase, p).Some?
    ensures var m, ids := Replace(env, base, tagBase, p).value, TxIds(base, p.txs);
      && InsertTags(tagBase, p.tags).Some? && Linked(env, p, ids, NewTxs(base, p.txs)).Some?
      && BalancesFit(NewTxs(base, p.txs))
      && m.txs == Recomputed(NewTxs(base, p.txs))
      && m.tags == TagTable(tagBase, InsertTags(tagBase, p.tags).value.tags)
      && m.tagLinks == RenamedTagLinks(ids, InsertTags(tagBase, p.tags).value.ids, p.tagLinks)
      && m.links == CardLinks.Prune(Linked(env, p, ids, NewTxs(base, p.txs)).value).links
      && m.settings == p.settings
  {
  }

  /** The final prune takes no link away. */
  lemma {:induction false} LinksSurvive(env: Env, p: Parsed, ids: map<int, int>, txs: map<int, Tx>)
    requires Linked(env, p, ids, txs).Some?
    ensures CardLinks.Prune(Linked(env, p, ids, txs).value).links == Linked(env, p, ids, txs).value.links
    ensures Linked(env, p, ids, txs).value.links == RenamedLinks(ids, p.links)
  {
    var start := CardLinks.Book(CardTxs(env, txs), {}, CardSettings(env, p.settings));
    AddLinksAdds(start, ids, p.links);
    PruneRemovesNothing(Linked(env, p, ids, txs).value);
    assert {} + RenamedLinks(ids, p.links) == RenamedLinks(ids, p.links);
  }

  lemma {:induction false} TagLinkRefs(p: Parsed, rows: seq<Row>, txs: map<int, int>, tags: map<int, int>)
    requires Complete(p) && p.tagLinks == TagLinkPairs(rows) && forall k :: 0 <= k < |rows| ==> rows[k].TagLinkRow?
    requires txs.Keys == Ids(p.txs) && tags.Keys == Ids(p.tags)
    ensures forall k :: 0 <= k < |rows| ==> PairOfRow(rows[k]).0 in txs && PairOfRow(rows[k]).1 in tags
  {
    TagLinkPairsAt(rows);
    forall k | 0 <= k < |rows| ensures PairOfRow(rows[k]).0 in txs && PairOfRow(rows[k]).1 in tags {
      assert p.tagLinks[k].0 in txs.Keys && p.tagLinks[k].1 in tags.Keys;
    }
  }

  lemma {:induction false} LinkRefs(p: Parsed, rows: seq<Row>, txs: map<int, int>)
    requires Complete(p) && p.links == LinkPairs(rows) && forall k :: 0 <= k < |rows| ==> rows[k].LinkRow?
    requires txs.Keys == Ids(p.txs)
    ensures forall k :: 0 <= k < |rows| ==> PairOfRow(rows[k]).0 in txs && PairOfRow(rows[k]).1 in txs
  {
    LinkPairsAt(rows);
    forall k | 0 <= k < |rows| ensures PairOfRow(rows[k]).0 in txs && PairOfRow(rows[k]).1 in txs {
      assert p.links[k].0 in txs.Keys && p.links[k].1 in txs.Keys;
    }
  }

  lemma {:induction false} ConsistentParts(p: Parsed)
    requires Consistent(p)
    ensures DistinctIds(p.txs) && Unmixed(p.tags)
    ensures forall k :: 0 <= k < |p.tags| ==> IsTag(p.tags[k]) && 1 <= p.tags[k].level <= MAX_LEVEL
    ensures forall k :: 0 <= k < |p.txs| ==> IsTx(p.txs[k])
  {
  }

  lemma {:induction false} SameLinkTables(l: Ledger, a: Archive, p: Parsed, txs: map<int, int>, tags: map<int, int>)
    requires LinksExported(l, a.tagLinks, a.links) && Complete(p)
    requires p.tagLinks == TagLinkPairs(a.tagLinks) && p.links == LinkPairs(a.links)
    requires txs.Keys == Ids(p.txs) && tags.Keys == Ids(p.tags)
    ensures SameTagLinks(l.tagLinks, RenamedTagLinks(txs, tags, p.tagLinks), txs, tags)
    ensures SameLinks(l.links, RenamedLinks(txs, p.links), txs)
  {
    TagLinkRefs(p, a.tagLinks, txs, tags);
    TagLinksRenamed(l.tagLinks, a.tagLinks, txs, tags);
    LinkRefs(p, a.links, txs);
    LinksRenamed(l.links, a.links, txs);
  }

  lemma {:induction false} SameImageTables(rules: Rules, env: Env, l: Ledger, a: Archive, base: int, p: Parsed)
    requires ImagesExported(rules, l.images, a.images) && Importable(p) && p.images == a.images
    ensures forall k :: 0 <= k < |p.images| ==> Refers(TxIds(base, p.txs), p.images[k])
    ensures SameImages(env, l.images, NewImages(env, TxIds(base, p.txs), p.images, false)
                                     + NewImages(env, TxIds(base, p.txs), p.images, true), TxIds(base, p.txs))
  {
    ImagesRefer(base, p);
    ImagesRenamed(rules, env, l.images, a.images, TxIds(base, p.txs));
    forall k | 0 <= k < |l.images| ensures l.images[k].tx in TxIds(base, p.txs) {
      assert ExportsImage(rules, l.images[k], a.images[k]);
      assert Refers(TxIds(base, p.txs), p.images[k]);
    }
  }

  lemma {:induction false} ReplaceImages(env: Env, base: int, tagBase: int, p: Parsed)
    requires Importable(p) && Replace(env, base, tagBase, p).Some?
    requires forall k :: 0 <= k < |p.images| ==> Refers(TxIds(base, p.txs), p.images[k])
    ensures Replace(env, base, tagBase, p).value.images
         == NewImages(env, TxIds(base, p.txs), p.images, false) + NewImages(env, TxIds(base, p.txs), p.images, true)
  {
  }

  /** Whenever the replace import of an exported archive succeeds, the new ledger is the
      exported one under an injective renaming of transactions and tags: the same
      transactions, tag forest, tag links, transaction links, settings and images. */
  lemma {:induction false} RestoresTheLedger(rules: Rules, env: Env, l: Ledger, a: Archive, base: int, tagBase: int, p: Parsed)
    requires IsExport(rules, l, a) && Parse(rules, AllRows(a)) == Some(p)
    requires Importable(p) && Replace(env, base, tagBase, p).Some?
    ensures InsertTags(tagBase, p.tags).Some?
    ensures Same(env, l, Replace(env, base, tagBase, p).value, TxIds(base, p.txs), InsertTags(tagBase, p.tags).value.ids)
  {
    ParserReadsExport(rules, l, a);
    ParsedIsConsistent(rules, AllRows(a));
    ConsistentParts(p);
    ReplaceStored(env, base, tagBase, p);
    LinksSurvive(env, p, TxIds(base, p.txs), NewTxs(base, p.txs));
    SameTransactions(l, p, base);
    SameForest(l, p, tagBase);
    TxPositions(base, p.txs);
    SameLinkTables(l, a, p, TxIds(base, p.txs), InsertTags(tagBase, p.tags).value.ids);
    SameImageTables(rules, env, l, a, base, p);
    ReplaceImages(env, base, tagBase, p);
  }

  lemma {:induction false} SameTransactions(l: Ledger, p: Parsed, base: int)
    requires TxsExported(l, p.txs) && DistinctIds(p.txs) && (forall k :: 0 <= k < |p.txs| ==> IsTx(p.txs[k]))
    ensures Renames(TxIds(base, p.txs), l.txs.Keys, Recomputed(NewTxs(base, p.txs)).Keys)
    ensures SameTxs(l.txs, Recomputed(NewTxs(base, p.txs)), TxIds(base, p.txs))
  {
    TxsRenamed(l, p.txs, base);
    RecomputedTxs(l, NewTxs(base, p.txs), TxIds(base, p.txs));
    assert Ids(p.txs) == l.txs.Keys by { assert TxsExported(l, p.txs); }
  }

  lemma {:induction false} SameForest(l: Ledger, p: Parsed, base: int)
    requires TagsExported(l, p.tags) && Unmixed(p.tags)
    requires forall k :: 0 <= k < |p.tags| ==> IsTag(p.tags[k]) && 1 <= p.tags[k].level <= MAX_LEVEL
    requires InsertTags(base, p.tags).Some?
    ensures var s := InsertTags(base, p.tags).value;
      && s.ids.Keys == Ids(p.tags)
      && Renames(s.ids, l.tags.Keys, TagTable(base, s.tags).Keys)
      && SameTags(l.tags, TagTable(base, s.tags), s.ids)
  {
    TagsAreRestored(base, p.tags);
    var s := InsertTags(base, p.tags).value;
    assert AllStored(base, p.tags, s);
    TagsRenamed(l, p.tags, base, s);
    assert Ids(p.tags) == l.tags.Keys by { assert TagsExported(l, p.tags); }
  }

  // ----- balances -----

  lemma {:induction false} OrderIsKept(l: Ledger, rows: seq<Row>, base: int, ids: map<int, int>, i: int, j: int)
    requires TxsExported(l, rows) && ByPosition(base, rows, ids) && i in ids && j in ids
    requires i in TableOf(l.txs) && j in TableOf(l.txs) && Balances.Before(TableOf(l.txs), i, j)
    ensures ids[i] < ids[j]
  {
    assert i in ids.Keys && j in ids.Keys;
    var x := PositionOf(base, rows, ids, i);
    var y := PositionOf(base, rows, ids, j);
    EarlierRow(l, rows, x, y);
  }

  lemma {:induction false} EarlierRow(l: Ledger, rows: seq<Row>, x: nat, y: nat)
    requires TxsExported(l, rows) && x < |rows| && y < |rows| && EarlierTx(l, IdOf(rows[x]), IdOf(rows[y]))
    ensures x < y
  {
  }

  lemma {:induction false} TablesFollow(l: Ledger, rows: seq<Row>, base: int, ids: map<int, int>, txs: map<int, Tx>)
    requires TxsExported(l, rows) && ByPosition(base, rows, ids)
    requires Renames(ids, l.txs.Keys, txs.Keys) && SameTxs(l.txs, txs, ids)
    ensures BalanceRenaming.Follows(TableOf(l.txs), Balances.Zeroed(TableOf(txs)), ids)
  {
    var t, u := TableOf(l.txs), Balances.Zeroed(TableOf(txs));
    assert t.Keys == l.txs.Keys;
    forall id | id in ids ensures ids[id] in u && BalanceRenaming.SameMoney(t[id], u[ids[id]]) {
      assert id in ids.Keys;
      assert id in l.txs;
      assert SameTx(l.txs[id], txs[ids[id]]);
    }
    forall y | y in u ensures exists x :: x in ids && ids[x] == y {
      assert y in txs.Keys;
    }
    forall i, j | i in ids && j in ids && Balances.Before(t, i, j) ensures ids[i] < ids[j] {
      OrderIsKept(l, rows, base, ids, i, j);
    }
  }

  /** And when every stored balance was the prefix sum of its account, the recomputed
      balances are the old ones. */
  lemma {:induction false} RestoresBalances(rules: Rules, env: Env, l: Ledger, a: Archive, base: int, tagBase: int, p: Parsed, id: int)
    requires IsExport(rules, l, a) && Parse(rules, AllRows(a)) == Some(p)
    requires Importable(p) && Replace(env, base, tagBase, p).Some?
    requires Balances.Balanced(TableOf(l.txs)) && id in l.txs
    ensures var m, ids := Replace(env, base, tagBase, p).value, TxIds(base, p.txs);
            id in ids && ids[id] in m.txs && m.txs[ids[id]].balance == l.txs[id].balance
  {
    ParserReadsExport(rules, l, a);
    ParsedIsConsistent(rules, AllRows(a));
    ConsistentParts(p);
    ReplaceStored(env, base, tagBase, p);
    TxPositions(base, p.txs);
    TxsRenamed(l, p.txs, base);
    BalanceOf(l, p, base, id);
  }

  lemma {:induction false} BalanceOf(l: Ledger, p: Parsed, base: int, id: int)
    requires TxsExported(l, p.txs) && (forall k :: 0 <= k < |p.txs| ==> IsTx(p.txs[k]))
    requires ByPosition(base, p.txs, TxIds(base, p.txs))
    requires Renames(TxIds(base, p.txs), Ids(p.txs), NewTxs(base, p.txs).Keys)
    requires SameTxs(l.txs, NewTxs(base, p.txs), TxIds(base, p.txs))
    requires BalancesFit(NewTxs(base, p.txs)) && Balances.Balanced(TableOf(l.txs)) && id in l.txs
    ensures var txs, ids := Recomputed(NewTxs(base, p.txs)), TxIds(base, p.txs);
            id in ids && ids[id] in txs && txs[ids[id]].balance == l.txs[id].balance
  {
    var txs, ids := NewTxs(base, p.txs), TxIds(base, p.txs);
    TablesFollow(l, p.txs, base, ids, txs);
    assert id in TableOf(l.txs).Keys;
    BalanceRenaming.BalancesRestored(TableOf(l.txs), TableOf(txs), ids, id);
    assert SameTx(l.txs[id], txs[ids[id]]);
  }
}
