/** Appending an archive to a ledger that holds something already: what was there stays,
    and what the archive holds arrives under new ids. */
module ArchiveAppend {
  import opened Options
  import opened Bytes
  import opened Sums
  import opened ArchiveRows
  import opened ArchiveParse
  import opened ArchiveTags
  import opened ArchiveImport
  import opened ArchiveRoundTrip
  import opened ArchiveSucceeds
  import ArchiveExport
  import Balances
  import CardLinks
  import Q = ImageQuota

  // ----- what is there -----

  function AsStored(t: NewTag): StoredTag {
    StoredTag(t.name, t.parent, t.level)
  }

  /** The tag table, with the marks of repeated roots. */
  ghost predicate ListsTags(l: Ledger, known: seq<KnownTag>) {
    && KnownApart(known) && KnownPlaced(known)
    && (forall i :: 0 <= i < |known| ==> known[i].id in l.tags && l.tags[known[i].id] == AsStored(known[i].tag))
    && forall id :: id in l.tags ==> IsListed(known, id)
  }

  ghost predicate IsListed(known: seq<KnownTag>, id: int) {
    exists i :: 0 <= i < |known| && known[i].id == id
  }

  /** New ids are larger than those in use. */
  ghost predicate NewIds(l: Ledger, base: int, tagBase: int) {
    (forall id :: id in l.txs ==> id < base) && forall id :: id in l.tags ==> id < tagBase
  }

  /** A stored image and whether it is in the table of archived ones. */
  datatype Kept = Kept(image: StoredImage, archived: bool)

  ghost predicate ListsImages(l: Ledger, kept: seq<Kept>) {
    |kept| == |l.images| && forall k :: 0 <= k < |kept| ==> kept[k].image == l.images[k]
  }

  function StoredShots(kept: seq<Kept>): seq<Q.Shot> {
    seq(|kept|, k requires 0 <= k < |kept| => Q.Shot(kept[k].image.tx, |kept[k].image.data|, kept[k].archived))
  }

  // ----- the import -----

  predicate Overwrites(settings: map<SettingKey, Data>, incoming: map<SettingKey, Data>) {
    exists key :: key in settings && key in incoming && settings[key] != incoming[key]
  }

  predicate Readable(env: Env, settings: map<SettingKey, Data>) {
    forall key :: key in settings ==> env.items(settings[key]).Some?
  }

  /** The new images are of allowed sizes and, beside the stored ones, within the quotas.
      Their transactions are new, so no image of them is stored yet. */
  ghost predicate AppendAdmits(l: Ledger, stored: seq<Q.Shot>, ids: map<int, int>, txs: map<int, Tx>, images: seq<Row>) {
    var shots, accounts := ShotsOf(images), AccountsOf(ids, txs);
    && (forall k :: 0 <= k < |images| && images[k].ImageRow? ==>
          |images[k].data| <= ImageLimit(images[k].legacy) && (images[k].legacy || images[k].data != []))
    && (forall tx :: Q.TransactionFits(shots, tx))
    && Tally(stored, Q.AnyLegacy()) + Tally(shots, Q.AnyLegacy()) <= Q.MAX_ARCHIVED_IMAGES_DATABASE
    && (forall k :: 0 <= k < |shots| && shots[k].tx in accounts ==>
          Tally(stored, Q.AccountSize(ArchiveExport.AccountsIn(l), accounts[shots[k].tx]))
          + Tally(shots, Q.AccountSize(accounts, accounts[shots[k].tx])) <= Q.MAX_IMAGE_BYTES_PER_ACCOUNT)
    && Tally(stored, Q.AnySize()) + Tally(shots, Q.AnySize()) <= Q.MAX_IMAGE_BYTES_DATABASE
  }

  ghost function Write(added: map<int, Tx>): Balances.Write {
    Balances.Import(TableOf(added), false)
  }

  /** The links beside the stored ones, under the merged settings. */
  function Joined(env: Env, l: Ledger, p: Parsed, ids: map<int, int>, added: map<int, Tx>): Option<CardLinks.Book> {
    AddLinks(CardLinks.Book(CardTxs(env, l.txs + added), l.links, CardSettings(env, l.settings + p.settings)), ids, p.links)
  }

  /** Refused for a setting with another value, a link that joins no card and bank, an image
      over a quota, a card that gets a second bank, or a balance past 64 bits. */
  ghost predicate MayAppend(env: Env, l: Ledger, stored: seq<Q.Shot>, ids: map<int, int>, added: map<int, Tx>, p: Parsed) {
    && Readable(env, l.settings) && !Overwrites(l.settings, p.settings)
    && AppendAdmits(l, stored, ids, added, p.images)
    && Joined(env, l, p, ids, added).Some?
    && CardLinks.ChangesAllowed(BookOf(env, l), Joined(env, l, p, ids, added).value)
    && Balances.Commits(TableOf(l.txs), Write(added))
  }

  ghost function NewImagesOf(env: Env, base: int, p: Parsed): seq<StoredImage>
    requires Importable(p)
  {
    ImagesRefer(base, p);
    NewImages(env, TxIds(base, p.txs), p.images, false) + NewImages(env, TxIds(base, p.txs), p.images, true)
  }

  ghost function Append(env: Env, l: Ledger, known: seq<KnownTag>, kept: seq<Kept>, base: int, tagBase: int, p: Parsed): Option<Ledger>
    requires Importable(p)
  {
    var ids, added, tags := TxIds(base, p.txs), NewTxs(base, p.txs), InsertInto(known, tagBase, p.tags);
    if tags.None? || !MayAppend(env, l, StoredShots(kept), ids, added, p) then None
    else Some(Ledger(WithBalances(l.txs + added, Balances.Next(TableOf(l.txs), Write(added))),
                     l.tags + TagTable(tagBase, tags.value.tags),
                     l.tagLinks + RenamedTagLinks(ids, tags.value.ids, p.tagLinks),
                     Joined(env, l, p, ids, added).value.links, l.settings + p.settings,
                     l.images + NewImagesOf(env, base, p)))
  }

  // ----- what was there stays -----

  /** Nothing is taken away or changed but balances. */
  ghost predicate Keeps(l: Ledger, m: Ledger) {
    && (forall id :: id in l.txs ==> id in m.txs && SameTx(l.txs[id], m.txs[id]))
    && (forall id :: id in l.tags ==> id in m.tags && m.tags[id] == l.tags[id])
    && l.tagLinks <= m.tagLinks && l.links <= m.links
    && (forall key :: key in l.settings ==> key in m.settings && m.settings[key] == l.settings[key])
    && l.images <= m.images
  }

  lemma {:induction false} AddedAbove(l: Ledger, base: int, rows: seq<Row>)
    requires (forall k :: 0 <= k < |rows| ==> IsTx(rows[k])) && (forall id :: id in l.txs ==> id < base)
    ensures l.txs.Keys !! NewTxs(base, rows).Keys
    ensures forall id :: id in l.txs ==> (l.txs + NewTxs(base, rows))[id] == l.txs[id]
  {
    NewTxsAt(base, rows);
    forall id | id in l.txs ensures id !in NewTxs(base, rows) {
      assert id < base;
    }
  }

  lemma {:induction false} TagsAbove(l: Ledger, tagBase: int, tags: seq<NewTag>)
    requires forall id :: id in l.tags ==> id < tagBase
    ensures forall id :: id in l.tags ==> id !in TagTable(tagBase, tags) && (l.tags + TagTable(tagBase, tags))[id] == l.tags[id]
  {
    TagTableAt(tagBase, tags);
  }

  lemma {:induction false} SettingsAgree(settings: map<SettingKey, Data>, incoming: map<SettingKey, Data>)
    requires !Overwrites(settings, incoming)
    ensures forall key :: key in settings ==> (settings + incoming)[key] == settings[key]
  {
  }

  /** An append changes nothing that was there but balances. */
  lemma {:induction false} AppendKeeps(env: Env, l: Ledger, known: seq<KnownTag>, kept: seq<Kept>, base: int, tagBase: int, p: Parsed)
    requires Importable(p) && NewIds(l, base, tagBase) && Append(env, l, known, kept, base, tagBase, p).Some?
    ensures Keeps(l, Append(env, l, known, kept, base, tagBase, p).value)
  {
    AppendStored(env, l, known, kept, base, tagBase, p);
    AddedAbove(l, base, p.txs);
    TagsAbove(l, tagBase, InsertInto(known, tagBase, p.tags).value.tags);
    SettingsAgree(l.settings, p.settings);
    LinksAdded(env, l, p, TxIds(base, p.txs), NewTxs(base, p.txs));
  }

  // ----- balances -----

  lemma {:induction false} TableAfter(l: Ledger, added: map<int, Tx>)
    requires l.txs.Keys !! added.Keys && Balances.Commits(TableOf(l.txs), Write(added))
    ensures TableOf(WithBalances(l.txs + added, Balances.Next(TableOf(l.txs), Write(added)))) == Balances.Next(TableOf(l.txs), Write(added))
  {
    var t, u := TableOf(l.txs), Balances.Zeroed(TableOf(added));
    var next := Balances.Next(t, Write(added));
    assert t.Keys == l.txs.Keys && u.Keys == added.Keys;
    assert next.Keys == (t + u).Keys == (l.txs + added).Keys;
    var after := TableOf(WithBalances(l.txs + added, next));
    forall id | id in next ensures id in after && after[id] == next[id] {
      assert id in next.Keys;
      if id in added { assert u[id] == TableOf(added)[id].(balance := 0); } else { assert (t + u)[id] == t[id]; }
    }
    assert after.Keys == next.Keys;
  }

  lemma {:induction false} BalancedAfter(l: Ledger, added: map<int, Tx>)
    requires l.txs.Keys !! added.Keys && Balances.Commits(TableOf(l.txs), Write(added)) && Balances.Balanced(TableOf(l.txs))
    ensures Balances.Balanced(TableOf(WithBalances(l.txs + added, Balances.Next(TableOf(l.txs), Write(added)))))
  {
    TableAfter(l, added);
    assert TableOf(added).Keys == added.Keys && TableOf(l.txs).Keys == l.txs.Keys;
    Balances.WriteKeepsBalanced(TableOf(l.txs), Write(added));
  }

  /** A balanced ledger is balanced after an append. */
  lemma {:induction false} AppendKeepsBalances(env: Env, l: Ledger, known: seq<KnownTag>, kept: seq<Kept>, base: int, tagBase: int, p: Parsed)
    requires Importable(p) && NewIds(l, base, tagBase) && Append(env, l, known, kept, base, tagBase, p).Some?
    requires Balances.Balanced(TableOf(l.txs))
    ensures Balances.Balanced(TableOf(Append(env, l, known, kept, base, tagBase, p).value.txs))
  {
    AppendStored(env, l, known, kept, base, tagBase, p);
    AddedAbove(l, base, p.txs);
    BalancedAfter(l, NewTxs(base, p.txs));
  }

  // ----- what the archive holds arrives -----

  ghost function Range(rename: map<int, int>): set<int> {
    set x | x in rename :: rename[x]
  }

  ghost predicate OneToOne(rename: map<int, int>, from: set<int>) {
    rename.Keys == from && forall x, y :: x in rename && y in rename && rename[x] == rename[y] ==> x == y
  }

  /** A root with the name of another one of a smaller id. */
  ghost predicate RepeatsRoot(e: Ledger, id: int)
    requires id in e.tags
  {
    e.tags[id].parent.None? && exists other :: other in e.tags && other < id && e.tags[other].parent.None? && e.tags[other].name == e.tags[id].name
  }

  ghost predicate HasTag(known: seq<KnownTag>, name: Data, parent: Option<int>) {
    exists i :: 0 <= i < |known| && Matches(known[i].tag, name, parent)
  }

  function RenamedParent(t: StoredTag, tags: map<int, int>): Option<int>
    requires t.parent.Some? ==> t.parent.value in tags
  {
    if t.parent.None? then None else Some(tags[t.parent.value])
  }

  /** The tag of the exported ledger is there with its name, level and renamed parent; it
      was there before exactly if one had that name in that place and it repeats no root. */
  ghost predicate TagArrives(e: Ledger, l: Ledger, known: seq<KnownTag>, m: Ledger, tags: map<int, int>, id: int)
    requires id in e.tags
  {
    && (e.tags[id].parent.Some? ==> e.tags[id].parent.value in tags)
    && id in tags && tags[id] in m.tags
    && m.tags[tags[id]] == StoredTag(e.tags[id].name, RenamedParent(e.tags[id], tags), e.tags[id].level)
    && (tags[id] in l.tags <==> !RepeatsRoot(e, id) && HasTag(known, e.tags[id].name, RenamedParent(e.tags[id], tags)))
  }

  ghost predicate TagsArrive(e: Ledger, l: Ledger, known: seq<KnownTag>, m: Ledger, tags: map<int, int>) {
    && OneToOne(tags, e.tags.Keys)
    && (forall id :: id in e.tags ==> TagArrives(e, l, known, m, tags, id))
    && m.tags.Keys == l.tags.Keys + Range(tags)
  }

  ghost predicate TxsArrive(e: Ledger, l: Ledger, m: Ledger, txs: map<int, int>) {
    && OneToOne(txs, e.txs.Keys)
    && (forall id :: id in e.txs ==> id in txs && txs[id] !in l.txs && txs[id] in m.txs && SameTx(e.txs[id], m.txs[txs[id]]))
    && m.txs.Keys == l.txs.Keys + Range(txs)
  }

  /** All of an exported ledger is there beside what was there, and nothing else. */
  ghost predicate Arrives(env: Env, e: Ledger, l: Ledger, known: seq<KnownTag>, m: Ledger, txs: map<int, int>, tags: map<int, int>) {
    && TxsArrive(e, l, m, txs) && TagsArrive(e, l, known, m, tags)
    && (exists more :: SameTagLinks(e.tagLinks, more, txs, tags) && m.tagLinks == l.tagLinks + more)
    && (exists more :: SameLinks(e.links, more, txs) && m.links == l.links + more)
    && m.settings == l.settings + e.settings
    && (forall k :: 0 <= k < |e.images| ==> e.images[k].tx in txs)
    && multiset(m.images) == multiset(l.images) + multiset(RenamedImages(env, e.images, txs))
  }

  lemma {:induction false} DuplicateExactly(e: Ledger, rows: seq<Row>, k: nat)
    requires TagsExported(e, rows) && k < |rows| && rows[k].TagRow? && rows[k].id in e.tags
    ensures IsDuplicate(rows, rows[k]) <==> RepeatsRoot(e, rows[k].id)
  {
    var r := rows[k];
    assert ExportsTag(e, r);
    if IsDuplicate(rows, r) {
      var i :| 0 <= i < |rows| && SameRoot(rows[i], r) && IdOf(rows[i]) < IdOf(r);
      assert ExportsTag(e, rows[i]);
    }
    if RepeatsRoot(e, r.id) {
      var other :| other in e.tags && other < r.id && e.tags[other].parent.None? && e.tags[other].name == e.tags[r.id].name;
      assert other in e.tags.Keys;
      var i := RowOf(rows, other);
      assert ExportsTag(e, rows[i]);
      assert SameRoot(rows[i], r);
    }
  }

  /** Which tag an id names after the insertion. */
  lemma {:induction false} SeatedArrives(e: Ledger, l: Ledger, known: seq<KnownTag>, base: int, rows: seq<Row>, s: TagState, m: Ledger, k: nat)
    requires TagsExported(e, rows) && ListsTags(l, known) && KnownBelow(known, base) && (forall id :: id in l.tags ==> id < base)
    requires Unmixed(rows) && WellLeveled(rows) && AllPlacedRows(rows) && s.ids.Keys == Ids(rows)
    requires forall n :: 0 <= n < |rows| ==> Seated(known, base, rows, s, rows[n])
    requires m.tags == l.tags + TagTable(base, s.tags) && k < |rows|
    ensures IdOf(rows[k]) in e.tags && TagArrives(e, l, known, m, s.ids, IdOf(rows[k]))
  {
    var r := rows[k];
    assert ExportsTag(e, r) && Seated(known, base, rows, s, r);
    TagTableAt(base, s.tags);
    DuplicateExactly(e, rows, k);
    MergedExactly(known, base, rows, s, r);
    assert NewParent(s, r) == RenamedParent(e.tags[r.id], s.ids);
    if s.ids[r.id] < base {
      var i :| 0 <= i < |known| && known[i].id == s.ids[r.id] && Matches(known[i].tag, r.name, NewParent(s, r));
      MergedOnLevel(known, base, rows, s, k, i);
      assert l.tags[known[i].id] == AsStored(known[i].tag);
      assert known[i].id !in TagTable(base, s.tags);
    }
  }

  lemma {:induction false} NewTagsAreNamed(base: int, s: TagState)
    requires Owned(base, s)
    ensures TagTable(base, s.tags).Keys <= Range(s.ids)
  {
    TagTableAt(base, s.tags);
    forall id | id in TagTable(base, s.tags).Keys ensures id in Range(s.ids) {
      assert id in TagTable(base, s.tags);
      assert HasOwner(base, s, id - base);
      var x :| x in s.ids && s.ids[x] == base + (id - base);
    }
  }

  lemma {:induction false} SeatedIsThere(l: Ledger, base: int, rows: seq<Row>, known: seq<KnownTag>, s: TagState, n: nat)
    requires ListsTags(l, known) && n < |rows| && Seated(known, base, rows, s, rows[n])
    ensures s.ids[rows[n].id] in l.tags || s.ids[rows[n].id] in TagTable(base, s.tags)
  {
    TagTableAt(base, s.tags);
  }

  lemma {:induction false} TagKeys(l: Ledger, base: int, rows: seq<Row>, known: seq<KnownTag>, s: TagState)
    requires ListsTags(l, known) && s.ids.Keys == Ids(rows) && Owned(base, s)
    requires forall n :: 0 <= n < |rows| ==> Seated(known, base, rows, s, rows[n])
    ensures (l.tags + TagTable(base, s.tags)).Keys == l.tags.Keys + Range(s.ids)
  {
    NewTagsAreNamed(base, s);
    forall id | id in Range(s.ids) ensures id in l.tags.Keys + TagTable(base, s.tags).Keys {
      var x :| x in s.ids && s.ids[x] == id;
      assert x in s.ids.Keys;
      var n := RowOf(rows, x);
      SeatedIsThere(l, base, rows, known, s, n);
    }
  }

  lemma {:induction false} SeatedTagsArrive(e: Ledger, l: Ledger, known: seq<KnownTag>, base: int, rows: seq<Row>, s: TagState, m: Ledger)
    requires TagsExported(e, rows) && ListsTags(l, known) && KnownBelow(known, base) && (forall id :: id in l.tags ==> id < base)
    requires Unmixed(rows) && WellLeveled(rows) && AllPlacedRows(rows) && s.ids.Keys == Ids(rows) && Apart(s) && Owned(base, s)
    requires forall n :: 0 <= n < |rows| ==> Seated(known, base, rows, s, rows[n])
    requires m.tags == l.tags + TagTable(base, s.tags)
    ensures TagsArrive(e, l, known, m, s.ids)
  {
    forall id | id in e.tags ensures TagArrives(e, l, known, m, s.ids, id) {
      assert id in e.tags.Keys;
      var k := RowOf(rows, id);
      SeatedArrives(e, l, known, base, rows, s, m, k);
    }
    TagKeys(l, base, rows, known, s);
  }

  lemma {:induction false} TagsAreInOrder(l: Ledger, known: seq<KnownTag>, tagBase: int, p: Parsed)
    requires Consistent(p) && Complete(p) && ListsTags(l, known) && (forall id :: id in l.tags ==> id < tagBase)
    ensures KnownBelow(known, tagBase) && Unmixed(p.tags) && WellLeveled(p.tags) && AllPlacedRows(p.tags)
  {
  }

  lemma {:induction false} AppendedTags(e: Ledger, l: Ledger, known: seq<KnownTag>, tagBase: int, p: Parsed, m: Ledger)
    requires TagsExported(e, p.tags) && Consistent(p) && Complete(p) && ListsTags(l, known) && (forall id :: id in l.tags ==> id < tagBase)
    requires InsertInto(known, tagBase, p.tags).Some? && m.tags == l.tags + TagTable(tagBase, InsertInto(known, tagBase, p.tags).value.tags)
    ensures TagsArrive(e, l, known, m, InsertInto(known, tagBase, p.tags).value.ids)
  {
    TagsAreInOrder(l, known, tagBase, p);
    TagsAreMerged(known, tagBase, p.tags);
    SeatedTagsArrive(e, l, known, tagBase, p.tags, InsertInto(known, tagBase, p.tags).value, m);
  }

  lemma {:induction false} RangeIs(rename: map<int, int>, from: set<int>, to: set<int>)
    requires Renames(rename, from, to)
    ensures Range(rename) == to && OneToOne(rename, from)
  {
    forall y | y in to ensures y in Range(rename) {
      var x :| x in rename && rename[x] == y;
    }
  }

  lemma {:induction false} SameTwice(t: Tx, u: Tx, v: Tx)
    requires SameTx(t, u) && SameTx(u, v)
    ensures SameTx(t, v)
  {
  }

  ghost predicate AddsTxs(l: Ledger, m: Ledger, added: map<int, Tx>) {
    && l.txs.Keys !! added.Keys && m.txs.Keys == l.txs.Keys + added.Keys
    && forall id :: id in added ==> id in m.txs && SameTx(added[id], m.txs[id])
  }

  lemma {:induction false} AppendedTxs(e: Ledger, l: Ledger, m: Ledger, ids: map<int, int>, added: map<int, Tx>)
    requires Renames(ids, e.txs.Keys, added.Keys) && SameTxs(e.txs, added, ids) && AddsTxs(l, m, added)
    ensures TxsArrive(e, l, m, ids)
  {
    RangeIs(ids, e.txs.Keys, added.Keys);
    forall id | id in e.txs ensures id in ids && ids[id] !in l.txs && ids[id] in m.txs && SameTx(e.txs[id], m.txs[ids[id]]) {
      var now: int := ids[id];
      assert now in added && now in added.Keys;
      SameTwice(e.txs[id], added[now], m.txs[now]);
    }
  }

  lemma {:induction false} BalancesAreAdded(l: Ledger, m: Ledger, added: map<int, Tx>, table: Balances.Table)
    requires l.txs.Keys !! added.Keys && m.txs == WithBalances(l.txs + added, table)
    ensures AddsTxs(l, m, added)
  {
    assert m.txs.Keys == (l.txs + added).Keys;
  }

  /** What a successful append stored. */
  lemma {:induction false} AppendStored(env: Env, l: Ledger, known: seq<KnownTag>, kept: seq<Kept>, base: int, tagBase: int, p: Parsed)
    requires Importable(p) && Append(env, l, known, kept, base, tagBase, p).Some?
    ensures InsertInto(known, tagBase, p.tags).Some? && Joined(env, l, p, TxIds(base, p.txs), NewTxs(base, p.txs)).Some?
    ensures var m, ids, added := Append(env, l, known, kept, base, tagBase, p).value, TxIds(base, p.txs), NewTxs(base, p.txs);
      && m.txs == WithBalances(l.txs + added, Balances.Next(TableOf(l.txs), Write(added)))
      && m.tags == l.tags + TagTable(tagBase, InsertInto(known, tagBase, p.tags).value.tags)
      && m.tagLinks == l.tagLinks + RenamedTagLinks(ids, InsertInto(known, tagBase, p.tags).value.ids, p.tagLinks)
      && m.links == Joined(env, l, p, ids, added).value.links && m.settings == l.settings + p.settings
      && m.images == l.images + NewImagesOf(env, base, p) && MayAppend(env, l, StoredShots(kept), ids, added, p)
  {
  }

  lemma {:induction false} LinksAdded(env: Env, l: Ledger, p: Parsed, ids: map<int, int>, added: map<int, Tx>)
    requires Joined(env, l, p, ids, added).Some?
    ensures Joined(env, l, p, ids, added).value.links == l.links + RenamedLinks(ids, p.links)
  {
    AddLinksAdds(CardLinks.Book(CardTxs(env, l.txs + added), l.links, CardSettings(env, l.settings + p.settings)), ids, p.links);
  }

  /** Whenever an append of an exported archive succeeds, all of the exported ledger is
      there under one-to-one renamings beside what was there, tags merged exactly where
      name and place agree. */
  lemma {:induction false} AppendBringsAll(rules: Rules, env: Env, e: Ledger, a: Archive, l: Ledger, known: seq<KnownTag>, kept: seq<Kept>,
                                           base: int, tagBase: int, p: Parsed)
    requires IsExport(rules, e, a) && Parse(rules, AllRows(a)) == Some(p) && Importable(p)
    requires ListsTags(l, known) && NewIds(l, base, tagBase) && Append(env, l, known, kept, base, tagBase, p).Some?
    ensures InsertInto(known, tagBase, p.tags).Some?
    ensures Arrives(env, e, l, known, Append(env, l, known, kept, base, tagBase, p).value,
                    TxIds(base, p.txs), InsertInto(known, tagBase, p.tags).value.ids)
  {
    ParserReadsExport(rules, e, a);
    ParsedIsConsistent(rules, AllRows(a));
    ConsistentParts(p);
    Appended(rules, env, e, a, l, known, kept, base, tagBase, p);
  }

  lemma {:induction false} Appended(rules: Rules, env: Env, e: Ledger, a: Archive, l: Ledger, known: seq<KnownTag>, kept: seq<Kept>,
                                    base: int, tagBase: int, p: Parsed)
    requires IsExport(rules, e, a) && Reads(e, a, p) && Consistent(p) && Complete(p) && Importable(p)
    requires ListsTags(l, known) && NewIds(l, base, tagBase) && Append(env, l, known, kept, base, tagBase, p).Some?
    ensures InsertInto(known, tagBase, p.tags).Some?
    ensures Arrives(env, e, l, known, Append(env, l, known, kept, base, tagBase, p).value,
                    TxIds(base, p.txs), InsertInto(known, tagBase, p.tags).value.ids)
  {
    var m := Append(env, l, known, kept, base, tagBase, p).value;
    AppendStored(env, l, known, kept, base, tagBase, p);
    var ids, tags := TxIds(base, p.txs), InsertInto(known, tagBase, p.tags).value.ids;
    LinksAdded(env, l, p, ids, NewTxs(base, p.txs));
    AddedAbove(l, base, p.txs);
    BalancesAreAdded(l, m, NewTxs(base, p.txs), Balances.Next(TableOf(l.txs), Write(NewTxs(base, p.txs))));
    TxsRenamed(e, p.txs, base);
    AppendedTxs(e, l, m, ids, NewTxs(base, p.txs));
    AppendedTags(e, l, known, tagBase, p, m);
    SameLinkTables(e, a, p, ids, tags);
    SameImageTables(rules, env, e, a, base, p);
    ArrivesFrom(env, e, l, known, m, ids, tags, RenamedTagLinks(ids, tags, p.tagLinks), RenamedLinks(ids, p.links),
                NewImagesOf(env, base, p));
  }

  lemma {:induction false} ArrivesFrom(env: Env, e: Ledger, l: Ledger, known: seq<KnownTag>, m: Ledger, txs: map<int, int>, tags: map<int, int>,
                                       tagLinks: set<(int, int)>, links: set<(int, int)>, images: seq<StoredImage>)
    requires TxsArrive(e, l, m, txs) && TagsArrive(e, l, known, m, tags)
    requires SameTagLinks(e.tagLinks, tagLinks, txs, tags) && m.tagLinks == l.tagLinks + tagLinks
    requires SameLinks(e.links, links, txs) && m.links == l.links + links && m.settings == l.settings + e.settings
    requires SameImages(env, e.images, images, txs) && m.images == l.images + images
    ensures Arrives(env, e, l, known, m, txs, tags)
  {
  }

  // ----- a replace is an append to nothing -----

  const EmptyLedger := Ledger(map[], map[], {}, {}, map[], [])

  lemma {:induction false} NoImageNoBytes(shots: seq<Q.Shot>, accounts: map<int, Data>, account: Data)
    requires forall k :: 0 <= k < |shots| && shots[k].tx in accounts ==> accounts[shots[k].tx] != account
    ensures Tally(shots, Q.AccountSize(accounts, account)) == 0
  {
    TallyNothing(shots, Q.AccountSize(accounts, account));
  }

  lemma {:induction false} SameQuotas(ids: map<int, int>, txs: map<int, Tx>, images: seq<Row>)
    ensures AppendAdmits(EmptyLedger, [], ids, txs, images) <==> ImagesAdmitted(ids, txs, images)
  {
    var shots, accounts := ShotsOf(images), AccountsOf(ids, txs);
    if AppendAdmits(EmptyLedger, [], ids, txs, images) {
      forall account ensures Tally(shots, Q.AccountSize(accounts, account)) <= Q.MAX_IMAGE_BYTES_PER_ACCOUNT {
        if k :| 0 <= k < |shots| && shots[k].tx in accounts && accounts[shots[k].tx] == account {
          assert Tally(shots, Q.AccountSize(accounts, accounts[shots[k].tx])) <= Q.MAX_IMAGE_BYTES_PER_ACCOUNT;
        } else {
          NoImageNoBytes(shots, accounts, account);
        }
      }
    }
  }

  lemma {:induction false} SameLinksJoined(env: Env, p: Parsed, ids: map<int, int>, added: map<int, Tx>)
    ensures Joined(env, EmptyLedger, p, ids, added) == Linked(env, p, ids, added)
    ensures Linked(env, p, ids, added).Some? ==>
      && CardLinks.Prune(Linked(env, p, ids, added).value).links == Linked(env, p, ids, added).value.links
      && (LinksRestorable(env, p, ids, added) <==>
            CardLinks.ChangesAllowed(BookOf(env, EmptyLedger), Joined(env, EmptyLedger, p, ids, added).value))
  {
    assert map[] + added == added && map[] + p.settings == p.settings;
    if Linked(env, p, ids, added).Some? {
      var b := Linked(env, p, ids, added).value;
      LinksSurvive(env, p, ids, added);
      assert CardLinks.Prune(b) == b;
      assert BookOf(env, EmptyLedger).txs == map[];
      AllowedFromNothing(b.settings, b);
      AllowedFromNothing(BookOf(env, EmptyLedger).settings, b);
    }
  }

  lemma {:induction false} SameBalances(added: map<int, Tx>)
    ensures Balances.Commits(TableOf(EmptyLedger.txs), Write(added)) <==> BalancesFit(added)
    ensures WithBalances(EmptyLedger.txs + added, Balances.Next(TableOf(EmptyLedger.txs), Write(added))) == Recomputed(added)
  {
    assert map[] + added == added && TableOf(EmptyLedger.txs) == map[];
    assert Balances.Edited(map[], Write(added)) == Balances.Edited(map[], Balances.Import(TableOf(added), true));
  }

  lemma {:induction false} ReplaceUnfolds(env: Env, base: int, tagBase: int, p: Parsed)
    requires Importable(p)
    ensures var ids, added, tags := TxIds(base, p.txs), NewTxs(base, p.txs), InsertTags(tagBase, p.tags);
      Replace(env, base, tagBase, p)
      == if tags.None? || !LinksRestorable(env, p, ids, added) || !ImagesAdmitted(ids, added, p.images) || !BalancesFit(added) then None
         else Some(Ledger(Recomputed(added), TagTable(tagBase, tags.value.tags), RenamedTagLinks(ids, tags.value.ids, p.tagLinks),
                          CardLinks.Prune(Linked(env, p, ids, added).value).links, p.settings, NewImagesOf(env, base, p)))
  {
  }

  /** A replace does to the emptied tables exactly what an append would. */
  lemma {:induction false} ReplaceIsAppendToNothing(env: Env, base: int, tagBase: int, p: Parsed)
    requires Importable(p)
    ensures Append(env, EmptyLedger, [], [], base, tagBase, p) == Replace(env, base, tagBase, p)
  {
    var ids, added := TxIds(base, p.txs), NewTxs(base, p.txs);
    SameQuotas(ids, added, p.images);
    SameLinksJoined(env, p, ids, added);
    SameBalances(added);
    ReplaceUnfolds(env, base, tagBase, p);
    assert Readable(env, EmptyLedger.settings) && !Overwrites(EmptyLedger.settings, p.settings);
    NothingAdds(EmptyLedger, p.settings, NewImagesOf(env, base, p));
  }

  lemma {:induction false} NothingAdds(l: Ledger, settings: map<SettingKey, Data>, images: seq<StoredImage>)
    requires l == EmptyLedger
    ensures l.settings + settings == settings && l.images + images == images
    ensures forall tags: map<int, StoredTag> :: l.tags + tags == tags
    ensures forall links: set<(int, int)> :: l.tagLinks + links == links
  {
  }
}
