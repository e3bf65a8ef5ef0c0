/** Every export fits its importer: what the exporter writes of a stored ledger, the
    parser accepts and the image quotas admit. */
module ArchiveFits {
  import opened Checked
  import opened Sums
  import opened ArchiveRows
  import opened ArchiveParse
  import opened ArchiveTags
  import opened ArchiveImport
  import opened ArchiveRoundTrip
  import opened ArchiveExport
  import opened ArchiveAccept
  import opened ArchiveSucceeds
  import opened ArchiveFile
  import Balances
  import CardLinks
  import Q = ImageQuota

  // ----- what the tables hold -----

  /** Ids and amounts are positive, dates are ones the program wrote, and only a
      transaction with an archive amount exceeds today's maximum. */
  ghost predicate TxsStored(rules: Rules, l: Ledger, marks: Marks) {
    forall id :: id in l.txs ==>
      && PositiveId(id) && PositiveId(l.txs[id].amount) && DateReads(rules, l.txs[id].date)
      && (id !in marks.txs ==> l.txs[id].amount <= MAX_AMOUNT)
  }

  /** Each image belongs to a transaction; archived ones are listed under negative ids. */
  ghost predicate ImagesStored(l: Ledger, marks: Marks) {
    && ImagesListed(l, marks)
    && (forall k :: 0 <= k < |l.images| ==>
          && l.images[k].tx in l.txs && Fits(marks.imageIds[k])
          && if marks.archived[k] then marks.imageIds[k] < 0 else marks.imageIds[k] > 0)
    && forall i, j :: 0 <= i < j < |marks.imageIds| ==> marks.imageIds[i] != marks.imageIds[j]
  }

  ghost predicate SameTag(l: Ledger, a: int, b: int) {
    a in l.tags && b in l.tags && l.tags[a].name == l.tags[b].name && l.tags[a].parent == l.tags[b].parent
  }

  /** Siblings differ in name; among roots, those not marked as duplicates do. */
  ghost predicate TagsStored(l: Ledger, marks: Marks) {
    && (forall id :: id in l.tags ==> PositiveId(id))
    && forall a, b :: SameTag(l, a, b) && (l.tags[a].parent.Some? || (a !in marks.tags && b !in marks.tags)) ==> a == b
  }

  /** Links are stored once, the smaller id first, between existing rows. */
  ghost predicate LinksStored(l: Ledger) {
    && (forall link :: link in l.tagLinks ==> link.0 in l.txs && link.1 in l.tags)
    && forall link :: link in l.links ==> link.0 in l.txs && link.1 in l.txs && link.0 < link.1
  }

  ghost predicate WellStored(rules: Rules, l: Ledger, marks: Marks) {
    TxsStored(rules, l, marks) && ImagesStored(l, marks) && TagsStored(l, marks) && LinksStored(l)
  }

  // ----- each row -----

  predicate Fitting(rules: Rules, r: Row) {
    Alone(rules, r) && Exportable(rules, r)
  }

  lemma {:induction false} TxFitting(rules: Rules, l: Ledger, marks: Marks, rows: seq<Row>, k: nat)
    requires TxsStored(rules, l, marks) && TxsExported(l, rows) && TxsWritten(rules, marks, rows) && k < |rows|
    ensures Fitting(rules, rows[k])
  {
    assert ExportsTx(l, rows[k]);
  }

  lemma {:induction false} ImageFitting(rules: Rules, l: Ledger, marks: Marks, rows: seq<Row>, k: nat)
    requires Sound(rules) && TxsStored(rules, l, marks) && ImagesStored(l, marks) && ImagesWritten(rules, l, marks, rows) && k < |rows|
    ensures rows[k].ImageRow? && Fitting(rules, rows[k]) && ShotOf(rows[k]) == Shots(rules, l, marks)[k]
    ensures rows[k].id == marks.imageIds[k] && rows[k].tx == l.images[k].tx
  {
    var i := l.images[k];
    assert IsImageOf(rules, l, marks, k, rows[k]);
    ArchivedExactly(rules, l, marks, k);
    if !rows[k].legacy {
      assert Prepared(rules, i);
      assert rules.prepare(i.filename, i.mimeType, []).None?;
    }
  }

  lemma {:induction false} TagFitting(rules: Rules, l: Ledger, marks: Marks, rows: seq<Row>, k: nat)
    requires TagsStored(l, marks) && TagsExported(l, rows) && TagsWritten(rules, l, marks, rows) && k < |rows|
    ensures Fitting(rules, rows[k])
  {
    assert ExportsTag(l, rows[k]);
  }

  lemma {:induction false} LinkFitting(rules: Rules, l: Ledger, marks: Marks, tagLinks: seq<Row>, links: seq<Row>)
    requires TxsStored(rules, l, marks) && TagsStored(l, marks) && LinksStored(l) && LinksExported(l, tagLinks, links)
    ensures forall k :: 0 <= k < |tagLinks| ==> Fitting(rules, tagLinks[k])
    ensures forall k :: 0 <= k < |links| ==> Fitting(rules, links[k])
  {
    forall k | 0 <= k < |tagLinks| ensures Fitting(rules, tagLinks[k]) {
      assert PairOfRow(tagLinks[k]) in l.tagLinks;
    }
    forall k | 0 <= k < |links| ensures Fitting(rules, links[k]) {
      assert PairOfRow(links[k]) in l.links;
    }
  }

  lemma {:induction false} EachRowFits(rules: Rules, l: Ledger, marks: Marks, a: Archive)
    requires Sound(rules) && WellStored(rules, l, marks) && IsExport(rules, l, a) && Written(rules, l, marks, a)
    ensures forall k :: 0 <= k < |AllRows(a)| ==> Fitting(rules, AllRows(a)[k])
  {
    forall k | 0 <= k < |a.txs| ensures Fitting(rules, a.txs[k]) { TxFitting(rules, l, marks, a.txs, k); }
    forall k | 0 <= k < |a.images| ensures Fitting(rules, a.images[k]) { ImageFitting(rules, l, marks, a.images, k); }
    forall k | 0 <= k < |a.tags| ensures Fitting(rules, a.tags[k]) { TagFitting(rules, l, marks, a.tags, k); }
    LinkFitting(rules, l, marks, a.tagLinks, a.links);
    forall k | 0 <= k < |a.settings| ensures Fitting(rules, a.settings[k]) { assert rules.accepts(a.settings[k]); }
    FittingConcat(rules, a.links, a.settings);
    FittingConcat(rules, a.tagLinks, a.links + a.settings);
    FittingConcat(rules, a.tags, a.tagLinks + (a.links + a.settings));
    FittingConcat(rules, a.images, a.tags + (a.tagLinks + (a.links + a.settings)));
    FittingConcat(rules, a.txs, a.images + (a.tags + (a.tagLinks + (a.links + a.settings))));
  }

  ghost predicate AllFitting(rules: Rules, rows: seq<Row>) {
    forall k :: 0 <= k < |rows| ==> Fitting(rules, rows[k])
  }

  lemma {:induction false} FittingConcat(rules: Rules, a: seq<Row>, b: seq<Row>)
    requires AllFitting(rules, a) && AllFitting(rules, b)
    ensures AllFitting(rules, a + b)
  {
  }

  // ----- no two rows -----

  ghost predicate Without(rows: seq<Row>, s: Section) {
    forall k :: 0 <= k < |rows| ==> SectionOf(rows[k]) != s
  }

  lemma {:induction false} NoClashConcat(a: seq<Row>, b: seq<Row>, s: Section)
    requires NoClash(a) && NoClash(b) && OnlySection(a, s) && Without(b, s)
    ensures NoClash(a + b)
  {
    forall i, k | 0 <= i < k < |a + b| ensures !Clash((a + b)[i], (a + b)[k]) {
      if k < |a| {
        assert !Clash(a[i], a[k]);
      } else if i >= |a| {
        assert !Clash(b[i - |a|], b[k - |a|]);
      } else {
        assert SectionOf(a[i]) != SectionOf(b[k - |a|]);
      }
    }
  }

  lemma {:induction false} OneOfEachRow(rules: Rules, l: Ledger, marks: Marks, a: Archive)
    requires Sound(rules) && WellStored(rules, l, marks) && IsExport(rules, l, a) && Written(rules, l, marks, a)
    ensures NoClash(a.txs) && NoClash(a.images) && NoClash(a.settings)
  {
    forall i, k | 0 <= i < k < |a.txs| ensures !Clash(a.txs[i], a.txs[k]) {
      assert IdOf(a.txs[i]) != IdOf(a.txs[k]);
    }
    forall i, k | 0 <= i < k < |a.images| ensures !Clash(a.images[i], a.images[k]) {
      ImageFitting(rules, l, marks, a.images, i);
      ImageFitting(rules, l, marks, a.images, k);
    }
  }

  lemma {:induction false} TagsDiffer(rules: Rules, l: Ledger, marks: Marks, rows: seq<Row>)
    requires TagsStored(l, marks) && TagsExported(l, rows) && TagsWritten(rules, l, marks, rows)
    ensures NoClash(rows)
  {
    forall i, k | 0 <= i < k < |rows| ensures !Clash(rows[i], rows[k]) {
      assert ExportsTag(l, rows[i]) && ExportsTag(l, rows[k]) && IdOf(rows[i]) != IdOf(rows[k]);
      assert SameName(rows[i], rows[k]) ==> SameTag(l, rows[i].id, rows[k].id);
    }
  }

  lemma {:induction false} LinksDiffer(l: Ledger, tagLinks: seq<Row>, links: seq<Row>)
    requires LinksStored(l) && LinksExported(l, tagLinks, links) && DistinctRows(tagLinks) && DistinctRows(links)
    ensures NoClash(tagLinks) && NoClash(links)
  {
    forall i, k | 0 <= i < k < |tagLinks| ensures !Clash(tagLinks[i], tagLinks[k]) {
      assert PairOfRow(tagLinks[i]) != PairOfRow(tagLinks[k]);
    }
    forall i, k | 0 <= i < k < |links| ensures !Clash(links[i], links[k]) {
      assert PairOfRow(links[i]) != PairOfRow(links[k]);
      assert PairOfRow(links[i]) in l.links && PairOfRow(links[k]) in l.links;
    }
  }

  lemma {:induction false} WithoutConcat(a: seq<Row>, b: seq<Row>, s: Section, t: Section)
    requires OnlySection(a, s) && Without(b, t) && s != t
    ensures Without(a + b, t)
  {
  }

  lemma {:induction false} OnlyIsWithout(rows: seq<Row>, s: Section, t: Section)
    requires OnlySection(rows, s) && s != t
    ensures Without(rows, t)
  {
  }

  lemma {:induction false} RowsApart(rules: Rules, l: Ledger, marks: Marks, a: Archive)
    requires Sound(rules) && WellStored(rules, l, marks) && IsExport(rules, l, a) && Written(rules, l, marks, a)
    ensures NoClash(AllRows(a))
  {
    SectionsAre(rules, l, a);
    OneOfEachRow(rules, l, marks, a);
    TagsDiffer(rules, l, marks, a.tags);
    LinksDiffer(l, a.tagLinks, a.links);
    SectionsDiffer(a);
  }

  lemma {:induction false} SectionsDiffer(a: Archive)
    requires OnlySection(a.txs, TxSection) && OnlySection(a.images, ImageSection)
    requires OnlySection(a.tags, TagSection) && OnlySection(a.tagLinks, TagLinkSection)
    requires OnlySection(a.links, LinkSection) && OnlySection(a.settings, SettingSection)
    requires NoClash(a.txs) && NoClash(a.images) && NoClash(a.tags) && NoClash(a.tagLinks) && NoClash(a.links) && NoClash(a.settings)
    ensures NoClash(AllRows(a))
  {
    var last := a.links + a.settings;
    var links := a.tagLinks + last;
    var tags := a.tags + links;
    OnlyIsWithout(a.settings, SettingSection, LinkSection);
    NoClashConcat(a.links, a.settings, LinkSection);
    forall s: Section | s != SettingSection && s != LinkSection ensures Without(last, s) {
      OnlyIsWithout(a.settings, SettingSection, s);
      WithoutConcat(a.links, a.settings, LinkSection, s);
    }
    NoClashConcat(a.tagLinks, last, TagLinkSection);
    WithoutConcat(a.tagLinks, last, TagLinkSection, TagSection);
    NoClashConcat(a.tags, links, TagSection);
    WithoutConcat(a.tagLinks, last, TagLinkSection, ImageSection);
    WithoutConcat(a.tags, links, TagSection, ImageSection);
    NoClashConcat(a.images, tags, ImageSection);
    WithoutConcat(a.tagLinks, last, TagLinkSection, TxSection);
    WithoutConcat(a.tags, links, TagSection, TxSection);
    WithoutConcat(a.images, tags, ImageSection, TxSection);
    NoClashConcat(a.txs, a.images + tags, TxSection);
  }

  // ----- every reference -----

  lemma {:induction false} TagsPlaced(rules: Rules, l: Ledger, marks: Marks, rows: seq<Row>, k: nat)
    requires TagsExported(l, rows) && TagsWritten(rules, l, marks, rows) && k < |rows|
    ensures PlacedTag(rows, rows[k])
  {
    assert ExportsTag(l, rows[k]) && Placed(l, l.tags[rows[k].id]);
    if rows[k].parent.Some? {
      assert rows[k].parent.value in l.tags.Keys;
      var j := RowOf(rows, rows[k].parent.value);
      assert ExportsTag(l, rows[j]);
    }
  }

  lemma {:induction false} ReferencesMet(rules: Rules, l: Ledger, marks: Marks, a: Archive)
    requires Sound(rules) && WellStored(rules, l, marks) && IsExport(rules, l, a) && Written(rules, l, marks, a)
    ensures Complete(Sections(rules, AllRows(a)))
  {
    RowsAreSections(rules, l, a);
    PairsAreSections(rules, l, a);
    ImagesStay(rules, l.images, a.images);
    var p := Sections(rules, AllRows(a));
    assert p.txs == a.txs && p.images == a.images && p.tags == a.tags;
    assert Ids(p.txs) == l.txs.Keys && Ids(p.tags) == l.tags.Keys;
    forall k | 0 <= k < |p.tags| ensures PlacedTag(p.tags, p.tags[k]) { TagsPlaced(rules, l, marks, a.tags, k); }
    forall k | 0 <= k < |p.images| ensures p.images[k].ImageRow? && p.images[k].tx in Ids(p.txs) {
      ImageFitting(rules, l, marks, a.images, k);
      assert l.images[k].tx in l.txs.Keys;
    }
    LinksMet(l, a, p);
  }

  lemma {:induction false} LinksMet(l: Ledger, a: Archive, p: Parsed)
    requires LinksStored(l) && LinksExported(l, a.tagLinks, a.links)
    requires p.tagLinks == TagLinkPairs(a.tagLinks) && p.links == LinkPairs(a.links)
    requires Ids(p.txs) == l.txs.Keys && Ids(p.tags) == l.tags.Keys
    ensures forall k :: 0 <= k < |p.tagLinks| ==> p.tagLinks[k].0 in Ids(p.txs) && p.tagLinks[k].1 in Ids(p.tags)
    ensures forall k :: 0 <= k < |p.links| ==> p.links[k].0 in Ids(p.txs) && p.links[k].1 in Ids(p.txs)
  {
    TagLinkPairsAt(a.tagLinks);
    LinkPairsAt(a.links);
    forall k | 0 <= k < |p.tagLinks| ensures p.tagLinks[k].0 in Ids(p.txs) && p.tagLinks[k].1 in Ids(p.tags) {
      assert PairOfRow(a.tagLinks[k]) in l.tagLinks;
      assert p.tagLinks[k].0 in l.txs.Keys && p.tagLinks[k].1 in l.tags.Keys;
    }
    forall k | 0 <= k < |p.links| ensures p.links[k].0 in Ids(p.txs) && p.links[k].1 in Ids(p.txs) {
      assert PairOfRow(a.links[k]) in l.links;
      assert p.links[k].0 in l.txs.Keys && p.links[k].1 in l.txs.Keys;
    }
  }

  /** Whatever the exporter writes, the parser accepts. */
  lemma {:induction false} ExportIsParsed(rules: Rules, l: Ledger, marks: Marks, a: Archive)
    requires Sound(rules) && WellStored(rules, l, marks) && IsExport(rules, l, a) && Written(rules, l, marks, a)
    ensures Parse(rules, AllRows(a)).Some?
    ensures forall k :: 0 <= k < |AllRows(a)| ==> Exportable(rules, AllRows(a)[k])
  {
    EachRowFits(rules, l, marks, a);
    RowsApart(rules, l, marks, a);
    ReferencesMet(rules, l, marks, a);
    ParsesExactly(rules, AllRows(a));
  }

  // ----- the image quotas -----

  lemma {:induction false} SameQuota(rules: Rules, l: Ledger, marks: Marks)
    requires MarksImages(l, marks)
    ensures Q.ArchivesOverQuota(Shots(rules, l, marks))
  {
    var shots, sizes := Shots(rules, l, marks), Sizes(l.images);
    forall k | 0 <= k < |shots| && Q.OverQuota(shots, shots[k].tx) ensures shots[k].legacy {
      var tx := shots[k].tx;
      TallyAgrees(shots, Q.One(tx), sizes, Q.One(tx));
      TallyAgrees(shots, Q.Size(tx), sizes, Q.Size(tx));
    }
  }

  lemma {:induction false} RestoredAccountsAre(l: Ledger, ids: map<int, int>, txs: map<int, Tx>)
    requires Renames(ids, l.txs.Keys, txs.Keys) && SameTxs(l.txs, txs, ids)
    ensures ArchiveImport.AccountsOf(ids, txs) == AccountsIn(l)
  {
    var accounts := ArchiveImport.AccountsOf(ids, txs);
    forall id ensures id in accounts <==> id in l.txs {
      if id in l.txs { assert SameTx(l.txs[id], txs[ids[id]]); }
      if id in accounts { assert id in ids.Keys; }
    }
    forall id | id in l.txs ensures accounts[id] == AccountsIn(l)[id] {
      assert SameTx(l.txs[id], txs[ids[id]]);
    }
  }

  /** What the exporter's restore bounds let through, the importer's quotas admit. */
  lemma {:induction false} ExportIsAdmitted(rules: Rules, l: Ledger, marks: Marks, rows: seq<Row>, ids: map<int, int>, txs: map<int, Tx>)
    requires Sound(rules) && TxsStored(rules, l, marks) && ImagesStored(l, marks) && ImagesWritten(rules, l, marks, rows)
    requires Q.Restorable(Shots(rules, l, marks), AccountsIn(l))
    requires Renames(ids, l.txs.Keys, txs.Keys) && SameTxs(l.txs, txs, ids)
    ensures ImagesAdmitted(ids, txs, rows)
  {
    forall k | 0 <= k < |rows|
      ensures rows[k].ImageRow? && Fitting(rules, rows[k]) && ShotOf(rows[k]) == Shots(rules, l, marks)[k]
    {
      ImageFitting(rules, l, marks, rows, k);
    }
    assert ShotsOf(rows) == Shots(rules, l, marks);
    SameQuota(rules, l, marks);
    Q.RestorableIsAdmitted(ShotsOf(rows), AccountsIn(l));
    RestoredAccountsAre(l, ids, txs);
  }

  /** Every export fits its importer: a stored ledger whose export the exporter does not
      refuse is parsed, and restored if and only if each of its links joins a card and a
      bank and no card has two banks. */
  lemma {:induction false} ExportRestoresExactly(rules: Rules, env: Env, l: Ledger, marks: Marks, a: Archive, base: int, tagBase: int)
    requires Sound(rules) && WellStored(rules, l, marks) && Writable(rules, l, marks) && Balances.Balanced(TableOf(l.txs))
    requires IsExport(rules, l, a) && Written(rules, l, marks, a)
    ensures Parse(rules, AllRows(a)).Some? && Importable(Parse(rules, AllRows(a)).value)
    ensures Replace(env, base, tagBase, Parse(rules, AllRows(a)).value).Some?
            <==> AllPaired(BookOf(env, l)) && CardLinks.Clean(BookOf(env, l))
  {
    ExportIsParsed(rules, l, marks, a);
    ParsedIsImportable(rules, AllRows(a));
    ParserReadsExport(rules, l, a);
    ParsedIsConsistent(rules, AllRows(a));
    var p := Parse(rules, AllRows(a)).value;
    ConsistentParts(p);
    TxsRenamed(l, p.txs, base);
    ExportIsAdmitted(rules, l, marks, a.images, TxIds(base, p.txs), NewTxs(base, p.txs));
    ReplaceSucceedsExactly(rules, env, l, a, base, tagBase, p);
  }
}
