/** When the replace import of an exported archive succeeds. */
module ArchiveSucceeds {
  import opened Options
  import opened Checked
  import opened Sums
  import opened ArchiveRows
  import opened ArchiveParse
  import opened ArchiveTags
  import opened ArchiveImport
  import opened ArchiveRoundTrip
  import Balances
  import BalanceRenaming
  import CardLinks

  /** The ledger as the card/bank policy sees it. */
  function BookOf(env: Env, l: Ledger): CardLinks.Book {
    CardLinks.Book(CardTxs(env, l.txs), l.links, CardSettings(env, l.settings))
  }

  // ----- links under new ids -----

  /** The accounts of a renamed ledger are the old ones. */
  ghost predicate SameAccounts(b: CardLinks.Book, c: CardLinks.Book, ids: map<int, int>) {
    && ids.Keys == b.txs.Keys && b.settings == c.settings
    && (forall x :: x in ids ==> ids[x] in c.txs && c.txs[ids[x]].account == b.txs[x].account)
    && forall x, y :: x in ids && y in ids && ids[x] == ids[y] ==> x == y
  }

  /** Which end is the card does not depend on the ids. */
  lemma {:induction false} PairRenamed(b: CardLinks.Book, c: CardLinks.Book, ids: map<int, int>, x: int, y: int)
    requires SameAccounts(b, c, ids) && x in ids && y in ids
    ensures var pair, renamed := CardLinks.LinkPair(b, (x, y)), CardLinks.LinkPair(c, CardLinks.Edge(ids[x], ids[y]));
      && (renamed.Some? <==> pair.Some?)
      && (pair.Some? ==> (pair.value == (x, y) || pair.value == (y, x)) && renamed.value == (ids[pair.value.0], ids[pair.value.1]))
  {
    assert x in b.txs.Keys && y in b.txs.Keys;
    CardLinks.PairIsSymmetric(ids[x], c.txs[ids[x]].account, ids[y], c.txs[ids[y]].account, c.settings);
  }

  lemma {:induction false} SameEdge(ids: map<int, int>, p: (int, int), q: (int, int))
    requires p.0 in ids && p.1 in ids && q.0 in ids && q.1 in ids && p.0 < p.1 && q.0 < q.1
    requires forall x, y :: x in ids && y in ids && ids[x] == ids[y] ==> x == y
    requires CardLinks.Edge(ids[p.0], ids[p.1]) == CardLinks.Edge(ids[q.0], ids[q.1])
    ensures p == q
  {
  }

  ghost predicate EdgesNew(links: set<(int, int)>, ids: map<int, int>, pairs: seq<(int, int)>) {
    && (forall k :: 0 <= k < |pairs| ==> pairs[k].0 in ids && pairs[k].1 in ids)
    && (forall k :: 0 <= k < |pairs| && pairs[k].0 in ids && pairs[k].1 in ids ==>
          CardLinks.Edge(ids[pairs[k].0], ids[pairs[k].1]) !in links)
    && forall i, k :: 0 <= i < k < |pairs| && pairs[i].0 in ids && pairs[i].1 in ids && pairs[k].0 in ids && pairs[k].1 in ids ==>
         CardLinks.Edge(ids[pairs[i].0], ids[pairs[i].1]) != CardLinks.Edge(ids[pairs[k].0], ids[pairs[k].1])
  }

  ghost predicate PairedUnder(b: CardLinks.Book, ids: map<int, int>, pairs: seq<(int, int)>) {
    forall k :: 0 <= k < |pairs| ==>
      pairs[k].0 in ids && pairs[k].1 in ids && CardLinks.LinkPair(b, CardLinks.Edge(ids[pairs[k].0], ids[pairs[k].1])).Some?
  }

  lemma {:induction false} PairedCons(b: CardLinks.Book, next: CardLinks.Book, ids: map<int, int>, pairs: seq<(int, int)>)
    requires pairs != [] && pairs[0].0 in ids && pairs[0].1 in ids && next.txs == b.txs && next.settings == b.settings
    ensures PairedUnder(b, ids, pairs)
            <==> CardLinks.LinkPair(b, CardLinks.Edge(ids[pairs[0].0], ids[pairs[0].1])).Some? && PairedUnder(next, ids, pairs[1..])
  {
    assert forall link :: CardLinks.LinkPair(next, link) == CardLinks.LinkPair(b, link);
    var rest := pairs[1..];
    if PairedUnder(b, ids, pairs) {
      forall k | 0 <= k < |rest|
        ensures rest[k].0 in ids && rest[k].1 in ids && CardLinks.LinkPair(next, CardLinks.Edge(ids[rest[k].0], ids[rest[k].1])).Some?
      {
        assert pairs[k + 1] == rest[k];
      }
    }
    if CardLinks.LinkPair(b, CardLinks.Edge(ids[pairs[0].0], ids[pairs[0].1])).Some? && PairedUnder(next, ids, rest) {
      forall k | 0 <= k < |pairs|
        ensures pairs[k].0 in ids && pairs[k].1 in ids && CardLinks.LinkPair(b, CardLinks.Edge(ids[pairs[k].0], ids[pairs[k].1])).Some?
      {
        assert k > 0 ==> rest[k - 1] == pairs[k];
      }
    }
  }

  lemma {:induction false} NewCons(links: set<(int, int)>, ids: map<int, int>, pairs: seq<(int, int)>)
    requires pairs != [] && EdgesNew(links, ids, pairs)
    ensures EdgesNew(links + {CardLinks.Edge(ids[pairs[0].0], ids[pairs[0].1])}, ids, pairs[1..])
  {
    var rest := pairs[1..];
    assert forall k :: 0 <= k < |rest| ==> rest[k] == pairs[k + 1];
  }

  /** Links between known transactions are added unless one does not join a card and a bank. */
  lemma {:induction false} AddsExactly(b: CardLinks.Book, ids: map<int, int>, pairs: seq<(int, int)>)
    requires EdgesNew(b.links, ids, pairs)
    ensures AddLinks(b, ids, pairs).Some? <==> PairedUnder(b, ids, pairs)
    decreases |pairs|
  {
    if pairs != [] {
      var edge := CardLinks.Edge(ids[pairs[0].0], ids[pairs[0].1]);
      var next := b.(links := b.links + {edge});
      NewCons(b.links, ids, pairs);
      PairedCons(b, next, ids, pairs);
      AddsExactly(next, ids, pairs[1..]);
    }
  }

  lemma {:induction false} ParsedEdgesNew(p: Parsed, ids: map<int, int>)
    requires Consistent(p) && Complete(p) && ids.Keys == Ids(p.txs)
    requires forall x, y :: x in ids && y in ids && ids[x] == ids[y] ==> x == y
    ensures EdgesNew({}, ids, p.links)
  {
    forall k | 0 <= k < |p.links| ensures p.links[k].0 in ids && p.links[k].1 in ids {
      assert p.links[k].0 in ids.Keys && p.links[k].1 in ids.Keys;
    }
    forall i, k | 0 <= i < k < |p.links|
      ensures CardLinks.Edge(ids[p.links[i].0], ids[p.links[i].1]) != CardLinks.Edge(ids[p.links[k].0], ids[p.links[k].1])
    {
      assert p.links[i] != p.links[k];
      if CardLinks.Edge(ids[p.links[i].0], ids[p.links[i].1]) == CardLinks.Edge(ids[p.links[k].0], ids[p.links[k].1]) {
        SameEdge(ids, p.links[i], p.links[k]);
      }
    }
  }

  /** The parsed links are the ledger's. */
  ghost predicate SamePairs(links: set<(int, int)>, pairs: seq<(int, int)>) {
    && (forall k :: 0 <= k < |pairs| ==> pairs[k] in links)
    && forall link :: link in links ==> link in pairs
  }

  lemma {:induction false} ListedPairs(links: set<(int, int)>, rows: seq<Row>)
    requires ListsPairs(rows, links) && (forall k :: 0 <= k < |rows| ==> rows[k].LinkRow?)
    requires forall link :: link in links ==> link.0 < link.1
    ensures SamePairs(links, LinkPairs(rows))
  {
    LinkPairsAt(rows);
    var pairs := LinkPairs(rows);
    forall k | 0 <= k < |pairs| ensures pairs[k] in links {
      assert PairOfRow(rows[k]) in links;
    }
    forall link | link in links ensures link in pairs {
      var k :| 0 <= k < |rows| && PairOfRow(rows[k]) == link;
      assert pairs[k] == link;
    }
  }

  lemma {:induction false} PairedExactly(b: CardLinks.Book, c: CardLinks.Book, ids: map<int, int>, pairs: seq<(int, int)>)
    requires SameAccounts(b, c, ids) && SamePairs(b.links, pairs)
    requires forall k :: 0 <= k < |pairs| ==> pairs[k].0 in ids && pairs[k].1 in ids
    ensures PairedUnder(c, ids, pairs) <==> AllPaired(b)
  {
    forall k | 0 <= k < |pairs|
      ensures CardLinks.LinkPair(c, CardLinks.Edge(ids[pairs[k].0], ids[pairs[k].1])).Some? <==> CardLinks.LinkPair(b, pairs[k]).Some?
    {
      PairRenamed(b, c, ids, pairs[k].0, pairs[k].1);
      assert pairs[k] == (pairs[k].0, pairs[k].1);
    }
    if PairedUnder(c, ids, pairs) {
      forall link | link in b.links ensures CardLinks.LinkPair(b, link).Some? {
        var k :| 0 <= k < |pairs| && pairs[k] == link;
      }
    }
  }

  // ----- one bank per card -----

  lemma {:induction false} AtMostOne(s: set<int>)
    ensures |s| <= 1 <==> forall x, y :: x in s && y in s ==> x == y
  {
    if s == {} {
      assert |s| == 0;
    } else {
      var x: int := Pick(s);
      CardLinks.OnlyMember(s, x);
      if forall y, z :: y in s && z in s ==> y == z {
        assert s == {x};
      }
    }
  }

  ghost predicate RenamedBook(b: CardLinks.Book, c: CardLinks.Book, ids: map<int, int>) {
    && SameAccounts(b, c, ids)
    && (forall link :: link in b.links ==> link.0 in ids && link.1 in ids && CardLinks.Edge(ids[link.0], ids[link.1]) in c.links)
    && forall e :: e in c.links ==> FromLink(b, ids, e)
  }

  ghost predicate FromLink(b: CardLinks.Book, ids: map<int, int>, e: (int, int)) {
    exists link :: link in b.links && link.0 in ids && link.1 in ids && e == CardLinks.Edge(ids[link.0], ids[link.1])
  }

  lemma {:induction false} BankRenamed(b: CardLinks.Book, c: CardLinks.Book, ids: map<int, int>, card: int, bank: int)
    requires RenamedBook(b, c, ids) && bank in CardLinks.BanksOf(b, card)
    ensures card in ids && bank in ids && ids[bank] in CardLinks.BanksOf(c, ids[card])
  {
    var link :| link in b.links && CardLinks.LinkPair(b, link).Some? && CardLinks.LinkPair(b, link).value == (card, bank);
    PairRenamed(b, c, ids, link.0, link.1);
    assert link == (link.0, link.1);
    assert CardLinks.Edge(ids[link.0], ids[link.1]) in c.links;
  }

  lemma {:induction false} BankBefore(b: CardLinks.Book, c: CardLinks.Book, ids: map<int, int>, newCard: int, newBank: int)
    returns (card: int, bank: int)
    requires RenamedBook(b, c, ids) && newBank in CardLinks.BanksOf(c, newCard)
    ensures bank in CardLinks.BanksOf(b, card) && card in ids && bank in ids && ids[card] == newCard && ids[bank] == newBank
  {
    var e :| e in c.links && CardLinks.LinkPair(c, e).Some? && CardLinks.LinkPair(c, e).value == (newCard, newBank);
    assert FromLink(b, ids, e);
    var link :| link in b.links && link.0 in ids && link.1 in ids && e == CardLinks.Edge(ids[link.0], ids[link.1]);
    PairRenamed(b, c, ids, link.0, link.1);
    assert link == (link.0, link.1);
    var pair := CardLinks.LinkPair(b, link).value;
    card, bank := pair.0, pair.1;
  }

  /** A card with several banks keeps them under new ids, and none gets several. */
  lemma {:induction false} CleanExactly(b: CardLinks.Book, c: CardLinks.Book, ids: map<int, int>)
    requires RenamedBook(b, c, ids)
    ensures CardLinks.Clean(c) <==> CardLinks.Clean(b)
  {
    if CardLinks.Clean(b) {
      forall card ensures |CardLinks.BanksOf(c, card)| <= 1 {
        forall x, y | x in CardLinks.BanksOf(c, card) && y in CardLinks.BanksOf(c, card) ensures x == y {
          var cardX, bankX := BankBefore(b, c, ids, card, x);
          var cardY, bankY := BankBefore(b, c, ids, card, y);
          AtMostOne(CardLinks.BanksOf(b, cardX));
        }
        AtMostOne(CardLinks.BanksOf(c, card));
      }
    }
    if CardLinks.Clean(c) {
      forall card ensures |CardLinks.BanksOf(b, card)| <= 1 {
        forall x, y | x in CardLinks.BanksOf(b, card) && y in CardLinks.BanksOf(b, card) ensures x == y {
          BankRenamed(b, c, ids, card, x);
          BankRenamed(b, c, ids, card, y);
          AtMostOne(CardLinks.BanksOf(c, ids[card]));
        }
        AtMostOne(CardLinks.BanksOf(b, card));
      }
    }
  }

  /** Starting from nothing, the change check asks for one bank per card. */
  lemma {:induction false} AllowedFromNothing(settings: CardLinks.Settings, after: CardLinks.Book)
    ensures CardLinks.ChangesAllowed(CardLinks.Book(map[], {}, settings), after) <==> CardLinks.Clean(after)
  {
    var nothing := CardLinks.Book(map[], {}, settings);
    forall card ensures CardLinks.BanksOf(nothing, card) == {} {
    }
    if CardLinks.ChangesAllowed(nothing, after) {
      forall card ensures |CardLinks.BanksOf(after, card)| <= 1 {
        assert |CardLinks.BanksOf(after, card)| > 1 ==> CardLinks.BanksOf(after, card) <= CardLinks.BanksOf(nothing, card);
      }
    }
  }

  // ----- balances -----

  /** Balances that were prefix sums are so again, and fit again. */
  lemma {:induction false} BalancesFitAgain(t: Balances.Table, table: Balances.Table, ids: map<int, int>)
    requires Balances.Balanced(t) && BalanceRenaming.Follows(t, Balances.Zeroed(table), ids)
    ensures Balances.Commits(map[], Balances.Import(table, true))
  {
    var zeroed := Balances.Zeroed(table);
    assert map[] + zeroed == zeroed;
    forall id | id in zeroed ensures Fits(Balances.PrefixSum(zeroed, id)) {
      var x :| x in ids && ids[x] == id;
      BalanceRenaming.PrefixSumRenamed(t, zeroed, ids, x);
      assert t[x].balance == Balances.PrefixSum(t, x);
    }
  }

  // ----- the whole import -----

  lemma {:induction false} RestoredAccounts(env: Env, l: Ledger, p: Parsed, ids: map<int, int>, txs: map<int, Tx>)
    requires Renames(ids, l.txs.Keys, txs.Keys) && SameTxs(l.txs, txs, ids) && p.settings == l.settings
    ensures SameAccounts(BookOf(env, l), CardLinks.Book(CardTxs(env, txs), {}, CardSettings(env, p.settings)), ids)
  {
    assert BookOf(env, l).txs.Keys == l.txs.Keys;
    forall x | x in ids ensures ids[x] in txs && env.accountText(txs[ids[x]].account) == env.accountText(l.txs[x].account) {
      assert x in ids.Keys;
      assert SameTx(l.txs[x], txs[ids[x]]);
    }
  }

  lemma {:induction false} LinkedExactly(env: Env, l: Ledger, p: Parsed, ids: map<int, int>, txs: map<int, Tx>)
    requires Renames(ids, l.txs.Keys, txs.Keys) && SameTxs(l.txs, txs, ids) && p.settings == l.settings
    requires Consistent(p) && Complete(p) && ids.Keys == Ids(p.txs) && SamePairs(l.links, p.links)
    ensures Linked(env, p, ids, txs).Some? <==> AllPaired(BookOf(env, l))
  {
    var b, c := BookOf(env, l), CardLinks.Book(CardTxs(env, txs), {}, CardSettings(env, p.settings));
    RestoredAccounts(env, l, p, ids, txs);
    ParsedEdgesNew(p, ids);
    AddsExactly(c, ids, p.links);
    PairedExactly(b, c, ids, p.links);
  }

  lemma {:induction false} RestoredBook(env: Env, l: Ledger, p: Parsed, ids: map<int, int>, txs: map<int, Tx>)
    requires Renames(ids, l.txs.Keys, txs.Keys) && SameTxs(l.txs, txs, ids) && p.settings == l.settings
    requires Linked(env, p, ids, txs).Some? && SameLinks(l.links, RenamedLinks(ids, p.links), ids)
    ensures RenamedBook(BookOf(env, l), CardLinks.Prune(Linked(env, p, ids, txs).value), ids)
  {
    RestoredAccounts(env, l, p, ids, txs);
    LinksSurvive(env, p, ids, txs);
    var start := CardLinks.Book(CardTxs(env, txs), {}, CardSettings(env, p.settings));
    AddLinksAdds(start, ids, p.links);
    var b, c := BookOf(env, l), CardLinks.Prune(Linked(env, p, ids, txs).value);
    assert c.txs == start.txs && c.settings == start.settings && c.links == RenamedLinks(ids, p.links);
    forall e | e in c.links ensures FromLink(b, ids, e) {
      var link :| link in l.links && link.0 in ids && link.1 in ids && e == CardLinks.Edge(ids[link.0], ids[link.1]);
    }
  }

  ghost predicate LinksRestorable(env: Env, p: Parsed, ids: map<int, int>, txs: map<int, Tx>) {
    var linked := Linked(env, p, ids, txs);
    linked.Some? && CardLinks.ChangesAllowed(CardLinks.Book(map[], {}, linked.value.settings), CardLinks.Prune(linked.value))
  }

  lemma {:induction false} ReplaceChecks(env: Env, base: int, tagBase: int, p: Parsed)
    requires Importable(p) && InsertTags(tagBase, p.tags).Some? && BalancesFit(NewTxs(base, p.txs))
    requires ImagesAdmitted(TxIds(base, p.txs), NewTxs(base, p.txs), p.images)
    ensures Replace(env, base, tagBase, p).Some? <==> LinksRestorable(env, p, TxIds(base, p.txs), NewTxs(base, p.txs))
  {
  }

  lemma {:induction false} LinksRestorableExactly(env: Env, l: Ledger, p: Parsed, rows: seq<Row>, ids: map<int, int>, txs: map<int, Tx>)
    requires Renames(ids, l.txs.Keys, txs.Keys) && SameTxs(l.txs, txs, ids) && p.settings == l.settings
    requires Consistent(p) && Complete(p) && ids.Keys == Ids(p.txs) && (forall link :: link in l.links ==> link.0 < link.1)
    requires p.links == LinkPairs(rows) && ListsPairs(rows, l.links) && (forall k :: 0 <= k < |rows| ==> rows[k].LinkRow?)
    ensures LinksRestorable(env, p, ids, txs) <==> AllPaired(BookOf(env, l)) && CardLinks.Clean(BookOf(env, l))
  {
    ListedPairs(l.links, rows);
    LinkedExactly(env, l, p, ids, txs);
    if Linked(env, p, ids, txs).Some? {
      LinkRefs(p, rows, ids);
      LinksRenamed(l.links, rows, ids);
      RestoredBook(env, l, p, ids, txs);
      var pruned := CardLinks.Prune(Linked(env, p, ids, txs).value);
      CleanExactly(BookOf(env, l), pruned, ids);
      AllowedFromNothing(Linked(env, p, ids, txs).value.settings, pruned);
    }
  }

  /** An exported archive that the parser accepts is restored if and only if every link of
      the ledger joins a card and a bank and no card has two banks; what else the import
      checks, it finds in order. */
  lemma {:induction false} ReplaceSucceedsExactly(rules: Rules, env: Env, l: Ledger, a: Archive, base: int, tagBase: int, p: Parsed)
    requires IsExport(rules, l, a) && Parse(rules, AllRows(a)) == Some(p) && Importable(p)
    requires Balances.Balanced(TableOf(l.txs)) && (forall link :: link in l.links ==> link.0 < link.1)
    requires ImagesAdmitted(TxIds(base, p.txs), NewTxs(base, p.txs), p.images)
    ensures Replace(env, base, tagBase, p).Some? <==> AllPaired(BookOf(env, l)) && CardLinks.Clean(BookOf(env, l))
  {
    ParserReadsExport(rules, l, a);
    ParsedIsConsistent(rules, AllRows(a));
    SucceedsExactly(env, l, a.links, base, tagBase, p);
  }

  lemma {:induction false} SucceedsExactly(env: Env, l: Ledger, links: seq<Row>, base: int, tagBase: int, p: Parsed)
    requires TxsExported(l, p.txs) && p.settings == l.settings && Consistent(p) && Complete(p) && Importable(p)
    requires p.links == LinkPairs(links) && ListsPairs(links, l.links) && (forall k :: 0 <= k < |links| ==> links[k].LinkRow?)
    requires Balances.Balanced(TableOf(l.txs)) && (forall link :: link in l.links ==> link.0 < link.1)
    requires ImagesAdmitted(TxIds(base, p.txs), NewTxs(base, p.txs), p.images)
    ensures Replace(env, base, tagBase, p).Some? <==> AllPaired(BookOf(env, l)) && CardLinks.Clean(BookOf(env, l))
  {
    ConsistentParts(p);
    TxPositions(base, p.txs);
    TxsRenamed(l, p.txs, base);
    TagsAreInserted([], tagBase, p.tags);
    FitsAgain(l, p, base);
    ReplaceChecks(env, base, tagBase, p);
    LinksRestorableExactly(env, l, p, links, TxIds(base, p.txs), NewTxs(base, p.txs));
  }

  lemma {:induction false} FitsAgain(l: Ledger, p: Parsed, base: int)
    requires TxsExported(l, p.txs) && ByPosition(base, p.txs, TxIds(base, p.txs)) && Balances.Balanced(TableOf(l.txs))
    requires forall k :: 0 <= k < |p.txs| ==> IsTx(p.txs[k])
    requires Renames(TxIds(base, p.txs), l.txs.Keys, NewTxs(base, p.txs).Keys)
    requires SameTxs(l.txs, NewTxs(base, p.txs), TxIds(base, p.txs))
    ensures BalancesFit(NewTxs(base, p.txs))
  {
    var ids, txs := TxIds(base, p.txs), NewTxs(base, p.txs);
    TablesFollow(l, p.txs, base, ids, txs);
    BalancesFitAgain(TableOf(l.txs), TableOf(txs), ids);
  }
}
