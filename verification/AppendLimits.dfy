/** When an append is refused: exactly when the ledger it would make is one it may not make. */
module AppendLimits {
  import opened Options
  import opened Bytes
  import opened Checked
  import opened Sums
  import opened ArchiveRows
  import opened ArchiveParse
  import opened ArchiveTags
  import opened ArchiveImport
  import opened ArchiveRoundTrip
  import opened ArchiveSucceeds
  import opened ArchiveAppend
  import ArchiveExport
  import Balances
  import CardLinks
  import Q = ImageQuota

  // ----- limits on all images of a ledger -----

  function AnyArchived(): Kept -> nat { (i: Kept) => if i.archived then 1 else 0 }

  function AnyBytes(): Kept -> nat { (i: Kept) => |i.image.data| }

  function AccountBytes(accounts: map<int, Data>, account: Data): Kept -> nat {
    (i: Kept) => if i.image.tx in accounts && accounts[i.image.tx] == account then |i.image.data| else 0
  }

  function InTx(tx: int): Kept -> nat { (i: Kept) => if i.image.tx == tx then 1 else 0 }

  function NormalInTx(tx: int): Kept -> nat { (i: Kept) => if i.image.tx == tx && !i.archived then 1 else 0 }

  function NormalBytesInTx(tx: int): Kept -> nat { (i: Kept) => if i.image.tx == tx && !i.archived then |i.image.data| else 0 }

  /** An image is of a size its kind allows, its account holds at most 128 MiB of images, and
      its transaction at most 1000 images of both kinds if it is archived, else at most 10
      normal ones of 20 MiB together. */
  ghost predicate ImageWithin(accounts: map<int, Data>, kept: seq<Kept>, i: Kept) {
    && |i.image.data| <= (if i.archived then 8_388_608 else 5_242_880) && (i.archived || i.image.data != [])
    && (i.image.tx in accounts ==> Tally(kept, AccountBytes(accounts, accounts[i.image.tx])) <= 134_217_728)
    && if i.archived then Tally(kept, InTx(i.image.tx)) <= 1_000
       else Tally(kept, NormalInTx(i.image.tx)) <= 10 && Tally(kept, NormalBytesInTx(i.image.tx)) <= 20_971_520
  }

  /** The images of a ledger, those from a position on being new: at most 100,000 archived
      ones, at most 256 MiB in all, and every new one within its own limits. */
  ghost predicate WithinLimits(m: Ledger, kept: seq<Kept>, from: nat) {
    && Tally(kept, AnyArchived()) <= 100_000 && Tally(kept, AnyBytes()) <= 268_435_456
    && forall k :: from <= k < |kept| ==> ImageWithin(ArchiveExport.AccountsIn(m), kept, kept[k])
  }

  function Flagged(images: seq<StoredImage>, archived: bool): seq<Kept> {
    seq(|images|, k requires 0 <= k < |images| => Kept(images[k], archived))
  }

  /** The new images as they are stored: normal ones first, then archived ones. */
  ghost function NewKept(env: Env, ids: map<int, int>, rows: seq<Row>): seq<Kept>
    requires forall k :: 0 <= k < |rows| ==> Refers(ids, rows[k])
  {
    Flagged(NewImages(env, ids, rows, false), false) + Flagged(NewImages(env, ids, rows, true), true)
  }

  function KeptImage(env: Env, ids: map<int, int>, r: Row): Kept
    requires Refers(ids, r)
  {
    Kept(NewImage(env, ids, r), r.legacy)
  }

  lemma {:induction false} FlaggedCons(image: StoredImage, images: seq<StoredImage>, archived: bool)
    ensures Flagged([image] + images, archived) == [Kept(image, archived)] + Flagged(images, archived)
  {
  }

  lemma {:induction false} LoneTally(x: Kept, w: Kept -> nat)
    ensures Tally([x], w) == w(x)
  {
    assert [x][..0] == [];
  }

  /** What the new images weigh is what the rows do. */
  lemma {:induction false} NewTally(env: Env, ids: map<int, int>, rows: seq<Row>, v: Kept -> nat, w: Q.Shot -> nat)
    requires forall k :: 0 <= k < |rows| ==> Refers(ids, rows[k]) && v(KeptImage(env, ids, rows[k])) == w(ShotOf(rows[k]))
    ensures Tally(NewKept(env, ids, rows), v) == Tally(ShotsOf(rows), w)
  {
    if rows == [] {
      assert ShotsOf(rows) == [] && NewKept(env, ids, rows) == [];
    } else {
      var r, rest := rows[0], rows[1..];
      assert Refers(ids, r) && v(KeptImage(env, ids, r)) == w(ShotOf(r));
      NewTally(env, ids, rest, v, w);
      assert ShotsOf(rows) == [ShotOf(r)] + ShotsOf(rest);
      TallyConcat([ShotOf(r)], ShotsOf(rest), w);
      assert [ShotOf(r)][..0] == [];
      var normal, archived := Flagged(NewImages(env, ids, rest, false), false), Flagged(NewImages(env, ids, rest, true), true);
      FlaggedCons(NewImage(env, ids, r), NewImages(env, ids, rest, r.legacy), r.legacy);
      var x := KeptImage(env, ids, r);
      LoneTally(x, v);
      TallyConcat(normal, archived, v);
      TallyConcat([x], normal, v);
      TallyConcat([x], archived, v);
      TallyConcat([x] + normal, archived, v);
      TallyConcat(normal, [x] + archived, v);
      assert [] + NewImages(env, ids, rest, !r.legacy) == NewImages(env, ids, rest, !r.legacy);
    }
  }

  /** Every row is one of the new images, and there are no others. */
  lemma {:induction false} NewMembers(env: Env, ids: map<int, int>, rows: seq<Row>, archived: bool, image: StoredImage)
    requires forall k :: 0 <= k < |rows| ==> Refers(ids, rows[k])
    ensures image in NewImages(env, ids, rows, archived) <==> ComesFrom(env, ids, rows, archived, image)
  {
    if rows != [] {
      var r, rest := rows[0], rows[1..];
      assert Refers(ids, r);
      NewMembers(env, ids, rest, archived, image);
      if ComesFrom(env, ids, rows, archived, image) {
        var k :| 0 <= k < |rows| && Refers(ids, rows[k]) && rows[k].legacy == archived && NewImage(env, ids, rows[k]) == image;
        assert k > 0 ==> rest[k - 1] == rows[k];
      }
      if ComesFrom(env, ids, rest, archived, image) {
        var k :| 0 <= k < |rest| && Refers(ids, rest[k]) && rest[k].legacy == archived && NewImage(env, ids, rest[k]) == image;
        assert rows[k + 1] == rest[k];
      }
    }
  }

  ghost predicate ComesFrom(env: Env, ids: map<int, int>, rows: seq<Row>, archived: bool, image: StoredImage) {
    exists k :: 0 <= k < |rows| && Refers(ids, rows[k]) && rows[k].legacy == archived && NewImage(env, ids, rows[k]) == image
  }

  ghost predicate AllRowsWithin(env: Env, accounts: map<int, Data>, kept: seq<Kept>, ids: map<int, int>, rows: seq<Row>) {
    forall k :: 0 <= k < |rows| && Refers(ids, rows[k]) ==> ImageWithin(accounts, kept, KeptImage(env, ids, rows[k]))
  }

  lemma {:induction false} NewComesFrom(env: Env, ids: map<int, int>, rows: seq<Row>, x: Kept) returns (n: nat)
    requires (forall k :: 0 <= k < |rows| ==> Refers(ids, rows[k])) && x in NewKept(env, ids, rows)
    ensures n < |rows| && KeptImage(env, ids, rows[n]) == x
  {
    assert x.image in NewImages(env, ids, rows, x.archived);
    NewMembers(env, ids, rows, x.archived, x.image);
    var i :| 0 <= i < |rows| && Refers(ids, rows[i]) && rows[i].legacy == x.archived && NewImage(env, ids, rows[i]) == x.image;
    n := i;
  }

  lemma {:induction false} NewIsThere(env: Env, ids: map<int, int>, rows: seq<Row>, n: nat) returns (k: nat)
    requires (forall k :: 0 <= k < |rows| ==> Refers(ids, rows[k])) && n < |rows|
    ensures k < |NewKept(env, ids, rows)| && NewKept(env, ids, rows)[k] == KeptImage(env, ids, rows[n])
  {
    var x := KeptImage(env, ids, rows[n]);
    NewMembers(env, ids, rows, x.archived, x.image);
    k := PositionIn(env, ids, rows, x);
  }

  lemma {:induction false} NewWithin(env: Env, accounts: map<int, Data>, before: seq<Kept>, ids: map<int, int>, rows: seq<Row>)
    requires forall k :: 0 <= k < |rows| ==> Refers(ids, rows[k])
    ensures var kept := before + NewKept(env, ids, rows);
      (forall k :: |before| <= k < |kept| ==> ImageWithin(accounts, kept, kept[k])) <==> AllRowsWithin(env, accounts, kept, ids, rows)
  {
    var news := NewKept(env, ids, rows);
    var kept := before + news;
    if AllRowsWithin(env, accounts, kept, ids, rows) {
      forall k | |before| <= k < |kept| ensures ImageWithin(accounts, kept, kept[k]) {
        assert kept[k] == news[k - |before|];
        var n := NewComesFrom(env, ids, rows, kept[k]);
      }
    }
    if forall k :: |before| <= k < |kept| ==> ImageWithin(accounts, kept, kept[k]) {
      forall n | 0 <= n < |rows| && Refers(ids, rows[n]) ensures ImageWithin(accounts, kept, KeptImage(env, ids, rows[n])) {
        var k := NewIsThere(env, ids, rows, n);
        assert kept[|before| + k] == news[k];
      }
    }
  }

  lemma {:induction false} PositionIn(env: Env, ids: map<int, int>, rows: seq<Row>, x: Kept) returns (k: nat)
    requires (forall n :: 0 <= n < |rows| ==> Refers(ids, rows[n])) && x.image in NewImages(env, ids, rows, x.archived)
    ensures k < |NewKept(env, ids, rows)| && NewKept(env, ids, rows)[k] == x
  {
    var images := NewImages(env, ids, rows, x.archived);
    var n :| 0 <= n < |images| && images[n] == x.image;
    k := if x.archived then |NewImages(env, ids, rows, false)| + n else n;
  }

  /** New ids are none of the stored images' and do not repeat. */
  ghost predicate Separate(l: Ledger, kept: seq<Kept>, ids: map<int, int>, added: map<int, Tx>) {
    && (forall k :: 0 <= k < |kept| ==> kept[k].image.tx in l.txs)
    && (forall x :: x in ids ==> ids[x] in added) && l.txs.Keys !! added.Keys
    && forall x, y :: x in ids && y in ids && ids[x] == ids[y] ==> x == y
  }

  lemma {:induction false} AllTally(env: Env, kept: seq<Kept>, ids: map<int, int>, rows: seq<Row>, v: Kept -> nat, u: Q.Shot -> nat, w: Q.Shot -> nat)
    requires forall k :: 0 <= k < |rows| ==> Refers(ids, rows[k]) && v(KeptImage(env, ids, rows[k])) == w(ShotOf(rows[k]))
    requires forall k :: 0 <= k < |kept| ==> v(kept[k]) == u(StoredShots(kept)[k])
    ensures Tally(kept + NewKept(env, ids, rows), v) == Tally(StoredShots(kept), u) + Tally(ShotsOf(rows), w)
  {
    TallyConcat(kept, NewKept(env, ids, rows), v);
    NewTally(env, ids, rows, v, w);
    TallyAgrees(kept, v, StoredShots(kept), u);
  }

  lemma {:induction false} GrandTallies(env: Env, kept: seq<Kept>, ids: map<int, int>, rows: seq<Row>)
    requires forall k :: 0 <= k < |rows| ==> Refers(ids, rows[k])
    ensures Tally(kept + NewKept(env, ids, rows), AnyArchived()) == Tally(StoredShots(kept), Q.AnyLegacy()) + Tally(ShotsOf(rows), Q.AnyLegacy())
    ensures Tally(kept + NewKept(env, ids, rows), AnyBytes()) == Tally(StoredShots(kept), Q.AnySize()) + Tally(ShotsOf(rows), Q.AnySize())
  {
    AllTally(env, kept, ids, rows, AnyArchived(), Q.AnyLegacy(), Q.AnyLegacy());
    AllTally(env, kept, ids, rows, AnyBytes(), Q.AnySize(), Q.AnySize());
  }

  lemma {:induction false} AccountTally(env: Env, l: Ledger, kept: seq<Kept>, ids: map<int, int>, added: map<int, Tx>, rows: seq<Row>,
                                        accounts: map<int, Data>, account: Data)
    requires (forall k :: 0 <= k < |rows| ==> Refers(ids, rows[k])) && Separate(l, kept, ids, added)
    requires forall id :: id in l.txs ==> id in accounts && accounts[id] == l.txs[id].account
    requires forall id :: id in added ==> id in accounts && accounts[id] == added[id].account
    ensures Tally(kept + NewKept(env, ids, rows), AccountBytes(accounts, account))
         == Tally(StoredShots(kept), Q.AccountSize(ArchiveExport.AccountsIn(l), account))
            + Tally(ShotsOf(rows), Q.AccountSize(AccountsOf(ids, added), account))
  {
    AllTally(env, kept, ids, rows, AccountBytes(accounts, account), Q.AccountSize(ArchiveExport.AccountsIn(l), account),
             Q.AccountSize(AccountsOf(ids, added), account));
  }

  /** A transaction of the archive has no image but the archive's. */
  lemma {:induction false} TxTally(env: Env, l: Ledger, kept: seq<Kept>, ids: map<int, int>, added: map<int, Tx>, rows: seq<Row>, tx: int)
    requires (forall k :: 0 <= k < |rows| ==> Refers(ids, rows[k])) && Separate(l, kept, ids, added) && tx in ids
    ensures Tally(kept + NewKept(env, ids, rows), InTx(ids[tx])) == Tally(ShotsOf(rows), Q.One(tx))
    ensures Tally(kept + NewKept(env, ids, rows), NormalInTx(ids[tx])) == Tally(ShotsOf(rows), Q.Normal(tx))
    ensures Tally(kept + NewKept(env, ids, rows), NormalBytesInTx(ids[tx])) == Tally(ShotsOf(rows), Q.NormalSize(tx))
  {
    forall k | 0 <= k < |kept| ensures kept[k].image.tx != ids[tx] {
      assert kept[k].image.tx in l.txs.Keys && ids[tx] in added.Keys;
    }
    forall k | 0 <= k < |rows| ensures ids[rows[k].tx] == ids[tx] <==> rows[k].tx == tx {
      assert Refers(ids, rows[k]);
    }
    var none := (s: Q.Shot) => 0;
    TallyNothing(StoredShots(kept), none);
    AllTally(env, kept, ids, rows, InTx(ids[tx]), none, Q.One(tx));
    AllTally(env, kept, ids, rows, NormalInTx(ids[tx]), none, Q.Normal(tx));
    AllTally(env, kept, ids, rows, NormalBytesInTx(ids[tx]), none, Q.NormalSize(tx));
  }

  lemma {:induction false} SomeCounts(shots: seq<Q.Shot>, w: Q.Shot -> nat) returns (k: nat)
    requires Tally(shots, w) > 0
    ensures k < |shots| && w(shots[k]) > 0
  {
    if forall i :: 0 <= i < |shots| ==> w(shots[i]) == 0 {
      TallyNothing(shots, w);
    }
    var i :| 0 <= i < |shots| && w(shots[i]) > 0;
    k := i;
  }

  lemma {:induction false} CountsItself(shots: seq<Q.Shot>, w: Q.Shot -> nat, k: nat)
    requires k < |shots| && w(shots[k]) > 0
    ensures Tally(shots, w) > 0
  {
    TallyStep(shots, w, k);
    TallyPrefix(shots, w, k + 1);
  }

  /** The per-transaction quotas hold exactly if they hold for each image. */
  lemma {:induction false} QuotaPerImage(shots: seq<Q.Shot>)
    ensures (forall tx :: Q.TransactionFits(shots, tx)) <==>
      forall k :: 0 <= k < |shots| ==>
        if shots[k].legacy then Tally(shots, Q.One(shots[k].tx)) <= 1_000
        else Tally(shots, Q.Normal(shots[k].tx)) <= 10 && Tally(shots, Q.NormalSize(shots[k].tx)) <= 20_971_520
  {
    if forall tx :: Q.TransactionFits(shots, tx) {
      forall k | 0 <= k < |shots|
        ensures if shots[k].legacy then Tally(shots, Q.One(shots[k].tx)) <= 1_000
                else Tally(shots, Q.Normal(shots[k].tx)) <= 10 && Tally(shots, Q.NormalSize(shots[k].tx)) <= 20_971_520
      {
        var tx := shots[k].tx;
        assert Q.TransactionFits(shots, tx);
        CountsItself(shots, if shots[k].legacy then Q.Legacy(tx) else Q.Normal(tx), k);
      }
    }
    if forall k :: 0 <= k < |shots| ==>
         if shots[k].legacy then Tally(shots, Q.One(shots[k].tx)) <= 1_000
         else Tally(shots, Q.Normal(shots[k].tx)) <= 10 && Tally(shots, Q.NormalSize(shots[k].tx)) <= 20_971_520 {
      forall tx ensures Q.TransactionFits(shots, tx) {
        if Tally(shots, Q.Legacy(tx)) > 0 { var k := SomeCounts(shots, Q.Legacy(tx)); }
        if Tally(shots, Q.Normal(tx)) > 0 { var k := SomeCounts(shots, Q.Normal(tx)); }
      }
    }
  }

  /** What the quota check asks, row by row. */
  ghost predicate RowWithin(l: Ledger, stored: seq<Q.Shot>, ids: map<int, int>, added: map<int, Tx>, rows: seq<Row>, k: nat)
    requires k < |rows| && rows[k].ImageRow?
  {
    var r, shots, accounts := rows[k], ShotsOf(rows), AccountsOf(ids, added);
    && |r.data| <= (if r.legacy then 8_388_608 else 5_242_880) && (r.legacy || r.data != [])
    && (r.tx in accounts ==> Tally(stored, Q.AccountSize(ArchiveExport.AccountsIn(l), accounts[r.tx]))
                             + Tally(shots, Q.AccountSize(accounts, accounts[r.tx])) <= 134_217_728)
    && if r.legacy then Tally(shots, Q.One(r.tx)) <= 1_000
       else Tally(shots, Q.Normal(r.tx)) <= 10 && Tally(shots, Q.NormalSize(r.tx)) <= 20_971_520
  }

  lemma {:induction false} AdmitsRowByRow(l: Ledger, stored: seq<Q.Shot>, ids: map<int, int>, added: map<int, Tx>, rows: seq<Row>)
    requires forall k :: 0 <= k < |rows| ==> rows[k].ImageRow?
    ensures AppendAdmits(l, stored, ids, added, rows) <==>
      && Tally(stored, Q.AnyLegacy()) + Tally(ShotsOf(rows), Q.AnyLegacy()) <= 100_000
      && Tally(stored, Q.AnySize()) + Tally(ShotsOf(rows), Q.AnySize()) <= 268_435_456
      && forall k :: 0 <= k < |rows| ==> RowWithin(l, stored, ids, added, rows, k)
  {
    var shots := ShotsOf(rows);
    QuotaPerImage(shots);
    if AppendAdmits(l, stored, ids, added, rows) {
      forall k | 0 <= k < |rows| ensures RowWithin(l, stored, ids, added, rows, k) {
        assert rows[k].ImageRow? && shots[k] == Q.Shot(rows[k].tx, |rows[k].data|, rows[k].legacy);
      }
    }
    if forall k :: 0 <= k < |rows| ==> RowWithin(l, stored, ids, added, rows, k) {
      forall k | 0 <= k < |shots|
        ensures RowWithin(l, stored, ids, added, rows, k) && shots[k] == Q.Shot(rows[k].tx, |rows[k].data|, rows[k].legacy)
      {
        assert rows[k].ImageRow?;
      }
    }
  }

  lemma {:induction false} SameImageLimits(env: Env, l: Ledger, kept: seq<Kept>, ids: map<int, int>, added: map<int, Tx>, rows: seq<Row>,
                                           accounts: map<int, Data>, k: nat)
    requires (forall n :: 0 <= n < |rows| ==> Refers(ids, rows[n])) && Separate(l, kept, ids, added) && k < |rows|
    requires forall id :: id in l.txs ==> id in accounts && accounts[id] == l.txs[id].account
    requires forall id :: id in added ==> id in accounts && accounts[id] == added[id].account
    ensures ImageWithin(accounts, kept + NewKept(env, ids, rows), KeptImage(env, ids, rows[k]))
            <==> RowWithin(l, StoredShots(kept), ids, added, rows, k)
  {
    var r := rows[k];
    assert Refers(ids, r) && ids[r.tx] in added;
    AccountTally(env, l, kept, ids, added, rows, accounts, added[ids[r.tx]].account);
    TxTally(env, l, kept, ids, added, rows, r.tx);
  }

  /** The image quotas of an append are limits on all images of the ledger it makes. */
  lemma {:induction false} AdmitsExactly(env: Env, l: Ledger, kept: seq<Kept>, ids: map<int, int>, added: map<int, Tx>, rows: seq<Row>, m: Ledger)
    requires (forall k :: 0 <= k < |rows| ==> Refers(ids, rows[k])) && Separate(l, kept, ids, added)
    requires ArchiveExport.AccountsIn(m) == ArchiveExport.AccountsIn(Ledger(l.txs + added, map[], {}, {}, map[], []))
    ensures AppendAdmits(l, StoredShots(kept), ids, added, rows) <==> WithinLimits(m, kept + NewKept(env, ids, rows), |kept|)
  {
    var accounts := ArchiveExport.AccountsIn(m);
    GrandTallies(env, kept, ids, rows);
    AdmitsRowByRow(l, StoredShots(kept), ids, added, rows);
    NewWithin(env, accounts, kept, ids, rows);
    AccountsKnown(l, added, accounts);
    forall k | 0 <= k < |rows|
      ensures ImageWithin(accounts, kept + NewKept(env, ids, rows), KeptImage(env, ids, rows[k]))
              <==> RowWithin(l, StoredShots(kept), ids, added, rows, k)
    {
      SameImageLimits(env, l, kept, ids, added, rows, accounts, k);
    }
  }

  lemma {:induction false} AccountsKnown(l: Ledger, added: map<int, Tx>, accounts: map<int, Data>)
    requires l.txs.Keys !! added.Keys
    requires accounts == ArchiveExport.AccountsIn(Ledger(l.txs + added, map[], {}, {}, map[], []))
    ensures forall id :: id in l.txs ==> id in accounts && accounts[id] == l.txs[id].account
    ensures forall id :: id in added ==> id in accounts && accounts[id] == added[id].account
  {
    forall id | id in l.txs ensures (l.txs + added)[id] == l.txs[id] {
      assert id in l.txs.Keys;
    }
  }

  /** A parsed archive's tags are always insertable, so nothing but the stated checks refuses it. */
  lemma {:induction false} TagsNeverRefuse(rules: Rules, env: Env, rows: seq<Row>, l: Ledger, known: seq<KnownTag>, kept: seq<Kept>,
                                           base: int, tagBase: int, p: Parsed)
    requires Parse(rules, rows) == Some(p) && Importable(p) && ListsTags(l, known) && NewIds(l, base, tagBase)
    ensures Append(env, l, known, kept, base, tagBase, p).Some? <==> MayAppend(env, l, StoredShots(kept), TxIds(base, p.txs), NewTxs(base, p.txs), p)
  {
    ParsedIsConsistent(rules, rows);
    ConsistentParts(p);
    TagsAreInOrder(l, known, tagBase, p);
    TagsAreInserted(known, tagBase, p.tags);
  }

  /** What an append would make, balances and tags aside. */
  ghost function Joint(env: Env, l: Ledger, base: int, p: Parsed): Ledger
    requires Importable(p)
  {
    Ledger(l.txs + NewTxs(base, p.txs), l.tags, l.tagLinks, l.links + RenamedLinks(TxIds(base, p.txs), p.links),
           l.settings + p.settings, l.images + NewImagesOf(env, base, p))
  }

  /** All images after an append, with the table each is in. */
  ghost function KeptAfter(env: Env, kept: seq<Kept>, base: int, p: Parsed): seq<Kept>
    requires Importable(p)
  {
    ImagesRefer(base, p);
    kept + NewKept(env, TxIds(base, p.txs), p.images)
  }

  /** The rows of a new transaction's accounts add up within 64 bits throughout. */
  ghost predicate SumsFit(txs: map<int, Tx>, added: map<int, Tx>) {
    forall id, other :: id in txs && other in added && txs[id].account == added[other].account ==>
      id in TableOf(txs) && Fits(Balances.PrefixSum(TableOf(txs), id))
  }

  ghost predicate LinksJoinCardAndBank(b: CardLinks.Book, ids: map<int, int>, pairs: seq<(int, int)>) {
    forall k :: 0 <= k < |pairs| ==>
      && pairs[k].0 in ids && pairs[k].1 in ids
      && (CardLinks.CardMeetsBank(b, ids[pairs[k].0], ids[pairs[k].1]) || CardLinks.CardMeetsBank(b, ids[pairs[k].1], ids[pairs[k].0]))
  }

  ghost predicate SettingsKept(env: Env, settings: map<SettingKey, Data>, after: map<SettingKey, Data>) {
    forall key :: key in settings ==> env.items(settings[key]).Some? && key in after && after[key] == settings[key]
  }

  /** The ledger an append would make is one it may make: stored settings are readable and
      keep their values, new links join a card and a bank, no card gets a second bank, sums
      are within 64 bits and all images within the limits. */
  ghost predicate MayBe(env: Env, l: Ledger, kept: seq<Kept>, base: int, p: Parsed)
    requires Importable(p)
  {
    var m := Joint(env, l, base, p);
    && SettingsKept(env, l.settings, m.settings)
    && LinksJoinCardAndBank(BookOf(env, m), TxIds(base, p.txs), p.links)
    && CardLinks.ChangesAllowed(BookOf(env, l), BookOf(env, m))
    && SumsFit(m.txs, NewTxs(base, p.txs))
    && WithinLimits(m, KeptAfter(env, kept, base, p), |kept|)
  }

  lemma {:induction false} CommitsIfSumsFit(l: Ledger, added: map<int, Tx>)
    requires l.txs.Keys !! added.Keys && (forall id :: id in added ==> added[id].balance == 0)
    ensures Balances.Commits(TableOf(l.txs), Write(added)) <==> SumsFit(l.txs + added, added)
  {
    var t := TableOf(l.txs) + Balances.Zeroed(TableOf(added));
    JointTable(l, added);
    if SumsFit(l.txs + added, added) {
      forall account, id | account in Balances.Accounts(TableOf(added)) && id in t && t[id].account == account
        ensures Fits(Balances.PrefixSum(t, id))
      {
        var other :| other in TableOf(added) && TableOf(added)[other].account == account;
        assert id in l.txs + added && other in added;
      }
    }
    if Balances.Commits(TableOf(l.txs), Write(added)) {
      forall id, other | id in l.txs + added && other in added && (l.txs + added)[id].account == added[other].account
        ensures id in t && Fits(Balances.PrefixSum(t, id))
      {
        assert other in TableOf(added) && added[other].account in Balances.Accounts(TableOf(added));
        assert Balances.AccountFits(t, added[other].account);
      }
    }
  }

  lemma {:induction false} JointTable(l: Ledger, added: map<int, Tx>)
    requires l.txs.Keys !! added.Keys && (forall id :: id in added ==> added[id].balance == 0)
    ensures TableOf(l.txs + added) == TableOf(l.txs) + Balances.Zeroed(TableOf(added))
  {
    var t, u := TableOf(l.txs), Balances.Zeroed(TableOf(added));
    assert TableOf(l.txs + added).Keys == (t + u).Keys;
    forall id | id in l.txs + added ensures TableOf(l.txs + added)[id] == (t + u)[id] {
      if id in added { assert u[id] == TableOf(added)[id].(balance := 0); } else { assert (t + u)[id] == t[id]; }
    }
  }

  lemma {:induction false} NewEdges(l: Ledger, base: int, p: Parsed)
    requires Consistent(p) && Complete(p) && Importable(p) && (forall id :: id in l.txs ==> id < base)
    requires forall link :: link in l.links ==> link.0 in l.txs && link.1 in l.txs
    ensures EdgesNew(l.links, TxIds(base, p.txs), p.links)
  {
    var ids := TxIds(base, p.txs);
    TxIdsAt(base, p.txs);
    TxPositions(base, p.txs);
    IdsApart(base, p.txs);
    ParsedEdgesNew(p, ids);
    forall k | 0 <= k < |p.links| && p.links[k].0 in ids && p.links[k].1 in ids
      ensures CardLinks.Edge(ids[p.links[k].0], ids[p.links[k].1]) !in l.links
    {
      AtLeastBase(base, p.txs, p.links[k].0);
      AtLeastBase(base, p.txs, p.links[k].1);
    }
  }

  lemma {:induction false} AtLeastBase(base: int, rows: seq<Row>, id: int)
    requires DistinctIds(rows) && id in TxIds(base, rows)
    ensures base <= TxIds(base, rows)[id] < base + |rows|
  {
    TxPositions(base, rows);
    assert id in TxIds(base, rows).Keys;
    var k := PositionOf(base, rows, TxIds(base, rows), id);
  }

  lemma {:induction false} IdsApart(base: int, rows: seq<Row>)
    requires DistinctIds(rows)
    ensures forall x, y :: x in TxIds(base, rows) && y in TxIds(base, rows) && TxIds(base, rows)[x] == TxIds(base, rows)[y] ==> x == y
  {
    TxPositions(base, rows);
    forall x, y | x in TxIds(base, rows) && y in TxIds(base, rows) && TxIds(base, rows)[x] == TxIds(base, rows)[y] ensures x == y {
      assert x in TxIds(base, rows).Keys && y in TxIds(base, rows).Keys;
      var i := PositionOf(base, rows, TxIds(base, rows), x);
      var j := PositionOf(base, rows, TxIds(base, rows), y);
    }
  }

  lemma {:induction false} PairedIsJoining(b: CardLinks.Book, m: CardLinks.Book, ids: map<int, int>, pairs: seq<(int, int)>)
    requires m.txs == b.txs && m.settings == b.settings && forall k :: 0 <= k < |pairs| ==> pairs[k].0 in ids && pairs[k].1 in ids
    ensures PairedUnder(b, ids, pairs) <==> LinksJoinCardAndBank(m, ids, pairs)
  {
    forall k | 0 <= k < |pairs|
      ensures CardLinks.LinkPair(b, CardLinks.Edge(ids[pairs[k].0], ids[pairs[k].1])).Some? <==>
        CardLinks.CardMeetsBank(m, ids[pairs[k].0], ids[pairs[k].1]) || CardLinks.CardMeetsBank(m, ids[pairs[k].1], ids[pairs[k].0])
    {
      PairedExactlyAt(b, m, ids[pairs[k].0], ids[pairs[k].1]);
    }
  }

  /** Links are joined exactly if each joins a card and a bank, and then they are all there. */
  lemma {:induction false} JoinedExactly(env: Env, l: Ledger, base: int, p: Parsed)
    requires Consistent(p) && Complete(p) && Importable(p) && (forall id :: id in l.txs ==> id < base)
    requires forall link :: link in l.links ==> link.0 in l.txs && link.1 in l.txs
    ensures var ids, added := TxIds(base, p.txs), NewTxs(base, p.txs);
      && (Joined(env, l, p, ids, added).Some? <==> LinksJoinCardAndBank(BookOf(env, Joint(env, l, base, p)), ids, p.links))
      && (Joined(env, l, p, ids, added).Some? ==> Joined(env, l, p, ids, added).value == BookOf(env, Joint(env, l, base, p)))
  {
    var ids, added := TxIds(base, p.txs), NewTxs(base, p.txs);
    var b := CardLinks.Book(CardTxs(env, l.txs + added), l.links, CardSettings(env, l.settings + p.settings));
    var m := CardLinks.Book(b.txs, b.links + RenamedLinks(ids, p.links), b.settings);
    assert m == BookOf(env, Joint(env, l, base, p));
    NewEdges(l, base, p);
    AddsExactly(b, ids, p.links);
    PairedIsJoining(b, m, ids, p.links);
    if Joined(env, l, p, ids, added).Some? { AddLinksAdds(b, ids, p.links); }
  }

  lemma {:induction false} PairedExactlyAt(b: CardLinks.Book, m: CardLinks.Book, x: int, y: int)
    requires m.txs == b.txs && m.settings == b.settings
    ensures CardLinks.LinkPair(b, CardLinks.Edge(x, y)).Some? <==> CardLinks.CardMeetsBank(m, x, y) || CardLinks.CardMeetsBank(m, y, x)
  {
    if x in b.txs && y in b.txs {
      CardLinks.PairExactly(b, x, y);
      CardLinks.PairExactly(b, y, x);
    }
  }

  lemma {:induction false} NewTxsStartAtZero(base: int, rows: seq<Row>)
    requires forall k :: 0 <= k < |rows| ==> IsTx(rows[k])
    ensures forall id :: id in NewTxs(base, rows) ==> NewTxs(base, rows)[id].balance == 0
  {
    NewTxsAt(base, rows);
    forall id | id in NewTxs(base, rows) ensures NewTxs(base, rows)[id].balance == 0 {
      assert NewTxs(base, rows)[base + (id - base)] == NewTx(rows[id - base]);
    }
  }

  lemma {:induction false} IdsAreSeparate(l: Ledger, kept: seq<Kept>, base: int, p: Parsed)
    requires Importable(p) && (forall id :: id in l.txs ==> id < base) && (forall k :: 0 <= k < |kept| ==> kept[k].image.tx in l.txs)
    ensures Separate(l, kept, TxIds(base, p.txs), NewTxs(base, p.txs))
  {
    AddedAbove(l, base, p.txs);
    IdsApart(base, p.txs);
    NewTxsAt(base, p.txs);
    forall x | x in TxIds(base, p.txs) ensures TxIds(base, p.txs)[x] in NewTxs(base, p.txs) {
      AtLeastBase(base, p.txs, x);
    }
  }

  lemma {:induction false} ImagesExactly(env: Env, l: Ledger, kept: seq<Kept>, base: int, p: Parsed)
    requires Importable(p) && (forall id :: id in l.txs ==> id < base) && (forall k :: 0 <= k < |kept| ==> kept[k].image.tx in l.txs)
    ensures AppendAdmits(l, StoredShots(kept), TxIds(base, p.txs), NewTxs(base, p.txs), p.images)
            <==> WithinLimits(Joint(env, l, base, p), KeptAfter(env, kept, base, p), |kept|)
  {
    ImagesRefer(base, p);
    IdsAreSeparate(l, kept, base, p);
    AdmitsExactly(env, l, kept, TxIds(base, p.txs), NewTxs(base, p.txs), p.images, Joint(env, l, base, p));
  }

  lemma {:induction false} SettingsExactly(env: Env, settings: map<SettingKey, Data>, incoming: map<SettingKey, Data>)
    ensures Readable(env, settings) && !Overwrites(settings, incoming)
            <==> SettingsKept(env, settings, settings + incoming)
  {
  }

  /** An append of a parsed archive succeeds if and only if the ledger it would make is one
      it may make. */
  lemma {:induction false} AppendRefusesExactly(rules: Rules, env: Env, rows: seq<Row>, l: Ledger, known: seq<KnownTag>, kept: seq<Kept>,
                                                base: int, tagBase: int, p: Parsed)
    requires Parse(rules, rows) == Some(p) && Importable(p) && ListsTags(l, known) && NewIds(l, base, tagBase)
    requires (forall link :: link in l.links ==> link.0 in l.txs && link.1 in l.txs) && (forall k :: 0 <= k < |kept| ==> kept[k].image.tx in l.txs)
    ensures Append(env, l, known, kept, base, tagBase, p).Some? <==> MayBe(env, l, kept, base, p)
  {
    TagsNeverRefuse(rules, env, rows, l, known, kept, base, tagBase, p);
    ParsedIsConsistent(rules, rows);
    MayAppendExactly(env, l, kept, base, p);
  }

  lemma {:induction false} AddedIsNew(l: Ledger, base: int, p: Parsed)
    requires Importable(p) && (forall id :: id in l.txs ==> id < base)
    ensures Balances.Commits(TableOf(l.txs), Write(NewTxs(base, p.txs))) <==> SumsFit(l.txs + NewTxs(base, p.txs), NewTxs(base, p.txs))
  {
    AddedAbove(l, base, p.txs);
    NewTxsStartAtZero(base, p.txs);
    CommitsIfSumsFit(l, NewTxs(base, p.txs));
  }

  /** The policy check, once the links are joined. */
  ghost predicate LinksFine(env: Env, l: Ledger, p: Parsed, ids: map<int, int>, added: map<int, Tx>) {
    Joined(env, l, p, ids, added).Some? && CardLinks.ChangesAllowed(BookOf(env, l), Joined(env, l, p, ids, added).value)
  }

  lemma {:induction false} LinksFineExactly(env: Env, l: Ledger, base: int, p: Parsed)
    requires Consistent(p) && Complete(p) && Importable(p) && (forall id :: id in l.txs ==> id < base)
    requires forall link :: link in l.links ==> link.0 in l.txs && link.1 in l.txs
    ensures var m := Joint(env, l, base, p);
      LinksFine(env, l, p, TxIds(base, p.txs), NewTxs(base, p.txs)) <==>
        LinksJoinCardAndBank(BookOf(env, m), TxIds(base, p.txs), p.links) && CardLinks.ChangesAllowed(BookOf(env, l), BookOf(env, m))
  {
    JoinedExactly(env, l, base, p);
  }

  lemma {:induction false} MayAppendParts(env: Env, l: Ledger, stored: seq<Q.Shot>, ids: map<int, int>, added: map<int, Tx>, p: Parsed)
    ensures MayAppend(env, l, stored, ids, added, p) <==>
      && Readable(env, l.settings) && !Overwrites(l.settings, p.settings) && AppendAdmits(l, stored, ids, added, p.images)
      && LinksFine(env, l, p, ids, added) && Balances.Commits(TableOf(l.txs), Write(added))
  {
  }

  lemma {:induction false} MayAppendExactly(env: Env, l: Ledger, kept: seq<Kept>, base: int, p: Parsed)
    requires Consistent(p) && Complete(p) && Importable(p) && (forall id :: id in l.txs ==> id < base)
    requires (forall link :: link in l.links ==> link.0 in l.txs && link.1 in l.txs) && (forall k :: 0 <= k < |kept| ==> kept[k].image.tx in l.txs)
    ensures MayAppend(env, l, StoredShots(kept), TxIds(base, p.txs), NewTxs(base, p.txs), p) <==> MayBe(env, l, kept, base, p)
  {
    MayAppendParts(env, l, StoredShots(kept), TxIds(base, p.txs), NewTxs(base, p.txs), p);
    SettingsExactly(env, l.settings, p.settings);
    ImagesExactly(env, l, kept, base, p);
    LinksFineExactly(env, l, base, p);
    AddedIsNew(l, base, p);
  }

  lemma {:induction false} KeptListsAll(env: Env, l: Ledger, kept: seq<Kept>, base: int, p: Parsed, m: Ledger)
    requires Importable(p) && ListsImages(l, kept) && m.images == l.images + NewImagesOf(env, base, p)
    ensures ListsImages(m, KeptAfter(env, kept, base, p))
  {
    ImagesRefer(base, p);
  }

  lemma {:induction false} WithinCarriesOver(env: Env, l: Ledger, kept: seq<Kept>, base: int, p: Parsed, m: Ledger)
    requires Importable(p) && MayBe(env, l, kept, base, p)
    requires ArchiveExport.AccountsIn(m) == ArchiveExport.AccountsIn(Joint(env, l, base, p)) && BookOf(env, m) == BookOf(env, Joint(env, l, base, p))
    ensures WithinLimits(m, KeptAfter(env, kept, base, p), |kept|) && CardLinks.ChangesAllowed(BookOf(env, l), BookOf(env, m))
  {
  }

  lemma {:induction false} AppendIsJoint(env: Env, l: Ledger, known: seq<KnownTag>, kept: seq<Kept>, base: int, tagBase: int, p: Parsed)
    requires Importable(p) && Append(env, l, known, kept, base, tagBase, p).Some?
    ensures var m, joint := Append(env, l, known, kept, base, tagBase, p).value, Joint(env, l, base, p);
      && ArchiveExport.AccountsIn(m) == ArchiveExport.AccountsIn(joint) && BookOf(env, m) == BookOf(env, joint)
      && m.images == l.images + NewImagesOf(env, base, p)
  {
    AppendStored(env, l, known, kept, base, tagBase, p);
    LinksAdded(env, l, p, TxIds(base, p.txs), NewTxs(base, p.txs));
    SameAccountsAfter(env, Append(env, l, known, kept, base, tagBase, p).value, Joint(env, l, base, p),
                      Balances.Next(TableOf(l.txs), Write(NewTxs(base, p.txs))));
  }

  /** After an append the images of the whole ledger are within the limits, and no card has
      got a second bank. */
  lemma {:induction false} AppendEndsWithin(rules: Rules, env: Env, rows: seq<Row>, l: Ledger, known: seq<KnownTag>, kept: seq<Kept>,
                                            base: int, tagBase: int, p: Parsed)
    requires Parse(rules, rows) == Some(p) && Importable(p) && ListsTags(l, known) && NewIds(l, base, tagBase) && ListsImages(l, kept)
    requires (forall link :: link in l.links ==> link.0 in l.txs && link.1 in l.txs) && (forall k :: 0 <= k < |kept| ==> kept[k].image.tx in l.txs)
    requires Append(env, l, known, kept, base, tagBase, p).Some?
    ensures var m := Append(env, l, known, kept, base, tagBase, p).value;
      && ListsImages(m, KeptAfter(env, kept, base, p)) && WithinLimits(m, KeptAfter(env, kept, base, p), |kept|)
      && CardLinks.ChangesAllowed(BookOf(env, l), BookOf(env, m))
  {
    var m := Append(env, l, known, kept, base, tagBase, p).value;
    AppendRefusesExactly(rules, env, rows, l, known, kept, base, tagBase, p);
    AppendIsJoint(env, l, known, kept, base, tagBase, p);
    KeptListsAll(env, l, kept, base, p, m);
    WithinCarriesOver(env, l, kept, base, p, m);
  }

  lemma {:induction false} SameAccountsAfter(env: Env, m: Ledger, joint: Ledger, table: Balances.Table)
    requires m.txs == WithBalances(joint.txs, table) && m.links == joint.links && m.settings == joint.settings
    ensures ArchiveExport.AccountsIn(m) == ArchiveExport.AccountsIn(joint) && BookOf(env, m) == BookOf(env, joint)
  {
  }
}
