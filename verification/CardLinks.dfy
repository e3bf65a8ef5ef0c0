/** Links between card transactions and the bank transactions that pay them:
    the policy every ledger mutation must keep, and reconciliation totals. */
module CardLinks {
  import opened Options
  import opened Sums

  datatype Tx = Tx(account: string, income: bool, amount: int)

  /** The two ledger settings, as the item lists they parse to; an absent or
      unreadable setting is `None`. */
  datatype Settings = Settings(cardItems: Option<seq<string>>, bankItems: Option<seq<string>>)

  /** The tables that take part in the policy. A link is stored with its smaller id first. */
  datatype Book = Book(txs: map<int, Tx>, links: set<(int, int)>, settings: Settings)

  // ----- classification -----

  predicate IsSpace(c: char) {
    c == ' ' || '\U{09}' <= c <= '\U{0D}' || c == '\U{85}' || c == '\U{A0}' || c == '\U{1680}' || '\U{2000}' <= c <= '\U{200A}'
    || c == '\U{2028}' || c == '\U{2029}' || c == '\U{202F}' || c == '\U{205F}' || c == '\U{3000}'
  }

  function Trim(s: string): string {
    if s != [] && IsSpace(s[0]) then Trim(s[1..])
    else if s != [] && IsSpace(s[|s| - 1]) then Trim(s[..|s| - 1])
    else s
  }

  /** The code points that are white space in Unicode. */
  const SPACES: set<int> :=
    {9, 10, 11, 12, 13, 32, 133, 160, 5760, 8192, 8193, 8194, 8195, 8196, 8197, 8198, 8199, 8200, 8201, 8202, 8232, 8233, 8239, 8287, 12288}

  lemma {:induction false} SpacesAre(c: char)
    ensures IsSpace(c) <==> c as int in SPACES
  {
  }

  predicate AllSpace(s: string) {
    forall k :: 0 <= k < |s| ==> IsSpace(s[k])
  }

  /** A trimmed name is what stands between the blanks at both ends. */
  lemma {:induction false} TrimIs(s: string) returns (before: string, behind: string)
    ensures s == before + Trim(s) + behind && AllSpace(before) && AllSpace(behind)
    ensures Trim(s) != "" ==> !IsSpace(Trim(s)[0]) && !IsSpace(Trim(s)[|Trim(s)| - 1])
    decreases |s|
  {
    if s != [] && IsSpace(s[0]) {
      before, behind := TrimIs(s[1..]);
      Reassociate([s[0]], before, Trim(s), behind);
      assert s == [s[0]] + s[1..];
      MoreSpace(s[0], before);
      before := [s[0]] + before;
    } else if s != [] && IsSpace(s[|s| - 1]) {
      before, behind := TrimIs(s[..|s| - 1]);
      Reassociate(before, Trim(s), behind, [s[|s| - 1]]);
      assert s == s[..|s| - 1] + [s[|s| - 1]];
      MoreSpace(s[|s| - 1], behind);
      behind := behind + [s[|s| - 1]];
    } else {
      before, behind := "", "";
    }
  }

  lemma {:induction false} MoreSpace(c: char, s: string)
    requires IsSpace(c) && AllSpace(s)
    ensures AllSpace([c] + s) && AllSpace(s + [c])
  {
  }

  lemma {:induction false} Reassociate(a: string, b: string, c: string, d: string)
    ensures a + (b + c + d) == a + b + c + d && a + b + c + d == a + b + (c + d)
  {
    assert a + (b + c + d) == a + b + c + d;
    assert a + b + c + d == a + b + (c + d);
  }

  function Names(items: Option<seq<string>>): set<string> {
    if items.None? then {} else set i | 0 <= i < |items.value| && Trim(items.value[i]) != "" :: Trim(items.value[i])
  }

  function Cards(s: Settings): set<string> { Names(s.cardItems) }

  function Banks(s: Settings): set<string> { Names(s.bankItems) }

  /** Which of two transactions is the card and which is the bank; `None` when an
      account is classified as both or the pair is not one card and one bank. */
  function PairOf(a: int, accountA: string, b: int, accountB: string, s: Settings): Option<(int, int)> {
    var nameA, nameB := Trim(accountA), Trim(accountB);
    if (nameA in Cards(s) && nameA in Banks(s)) || (nameB in Cards(s) && nameB in Banks(s)) then None
    else if nameA in Cards(s) && nameB in Banks(s) then Some((a, b))
    else if nameA in Banks(s) && nameB in Cards(s) then Some((b, a))
    else None
  }

  predicate IsWithdrawalPair(accountA: string, accountB: string, s: Settings) {
    var nameA, nameB := Trim(accountA), Trim(accountB);
    (nameA in Cards(s) && nameB in Banks(s)) || (nameA in Banks(s) && nameB in Cards(s))
  }

  lemma {:induction false} PairIsSymmetric(a: int, accountA: string, b: int, accountB: string, s: Settings)
    ensures PairOf(a, accountA, b, accountB, s) == PairOf(b, accountB, a, accountA, s)
    ensures PairOf(a, accountA, b, accountB, s).Some? ==> IsWithdrawalPair(accountA, accountB, s)
  {
  }

  predicate Joined(b: Book, link: (int, int)) {
    link.0 in b.txs && link.1 in b.txs
  }

  function LinkPair(b: Book, link: (int, int)): Option<(int, int)> {
    if Joined(b, link) then PairOf(link.0, b.txs[link.0].account, link.1, b.txs[link.1].account, b.settings) else None
  }

  /** The banks a card transaction is linked to. */
  function BanksOf(b: Book, card: int): set<int> {
    set link | link in b.links && LinkPair(b, link).Some? && LinkPair(b, link).value.0 == card :: LinkPair(b, link).value.1
  }

  function Edge(a: int, b: int): (int, int) {
    if a <= b then (a, b) else (b, a)
  }

  function Neighbours(b: Book, id: int): set<int> {
    (set link | link in b.links && link.0 == id && link.1 in b.txs :: link.1)
    + (set link | link in b.links && link.1 == id && link.0 in b.txs :: link.0)
  }

  // ----- the mutations, each committed or refused as a whole -----

  function AddLink(b: Book, x: int, y: int): Option<Book> {
    if x <= 0 || y <= 0 || x == y || x !in b.txs || y !in b.txs then None
    else
      var pair := PairOf(x, b.txs[x].account, y, b.txs[y].account, b.settings);
      if pair.None? then None
      else if Edge(x, y) in b.links then Some(b)
      else if exists n :: n in Neighbours(b, pair.value.0) && n != pair.value.1 && IsBankTx(b, n) then None
      else Some(b.(links := b.links + {Edge(x, y)}))
  }

  predicate IsBankTx(b: Book, id: int) {
    id in b.txs && Trim(b.txs[id].account) in Banks(b.settings)
  }

  function RemoveLinks(b: Book, id: int, others: seq<int>): Option<Book>
    decreases |others|
  {
    if others == [] then Some(b)
    else if others[0] <= 0 || others[0] == id || Edge(id, others[0]) !in b.links then None
    else RemoveLinks(b.(links := b.links - {Edge(id, others[0])}), id, others[1..])
  }

  function AddLinks(b: Book, id: int, others: seq<int>): Option<Book>
    decreases |others|
  {
    if others == [] then Some(b)
    else
      var next := AddLink(b, id, others[0]);
      if next.None? then None else AddLinks(next.value, id, others[1..])
  }

  function ChangeLinks(b: Book, id: int, adds: seq<int>, removes: seq<int>): Option<Book> {
    if |adds| + |removes| > 100 then None
    else
      var removed := RemoveLinks(b, id, removes);
      if removed.None? then None else AddLinks(removed.value, id, adds)
  }

  function Prune(b: Book): Book {
    b.(links := set link | link in b.links
                           && !(Joined(b, link)
                                && !IsWithdrawalPair(b.txs[link.0].account, b.txs[link.1].account, b.settings)))
  }

  /** The check after a mutation: a card with several banks has only banks it had before. */
  ghost predicate ChangesAllowed(before: Book, after: Book) {
    forall card :: |BanksOf(after, card)| > 1 ==> BanksOf(after, card) <= BanksOf(before, card)
  }

  ghost function UpdateTx(b: Book, id: int, tx: Tx, adds: seq<int>, removes: seq<int>): Option<Book> {
    if id !in b.txs then None
    else
      var changed := ChangeLinks(b.(txs := b.txs[id := tx]), id, adds, removes);
      if changed.None? then None
      else
        var after := Prune(changed.value);
        if b.txs[id].account != tx.account && !ChangesAllowed(b, after) then None else Some(after)
  }

  ghost function SaveSettings(b: Book, s: Settings): Option<Book> {
    var after := Prune(b.(settings := s));
    if ChangesAllowed(b, after) then Some(after) else None
  }

  function DeleteTx(b: Book, id: int): Option<Book> {
    if id !in b.txs then None
    else Some(b.(txs := b.txs - {id}, links := set link | link in b.links && link.0 != id && link.1 != id))
  }

  function AddTx(b: Book, id: int, tx: Tx): Book {
    b.(txs := b.txs[id := tx])
  }

  /** Imported links carry the new ids; each must be a card/bank pair and new. */
  function InsertLinks(b: Book, pairs: seq<(int, int)>): Option<Book>
    decreases |pairs|
  {
    if pairs == [] then Some(b)
    else
      var edge := Edge(pairs[0].0, pairs[0].1);
      if LinkPair(b, edge).None? || edge in b.links then None
      else InsertLinks(b.(links := b.links + {edge}), pairs[1..])
  }

  /** Append keeps an existing setting and takes a new one; a different value is refused. */
  function MergeItems(existing: Option<seq<string>>, incoming: Option<seq<string>>): Option<Option<seq<string>>> {
    if existing.Some? && incoming.Some? && existing != incoming then None
    else Some(if incoming.Some? then incoming else existing)
  }

  ghost function CsvAppend(b: Book, rows: map<int, Tx>, pairs: seq<(int, int)>, incoming: Settings): Option<Book> {
    var cards := MergeItems(b.settings.cardItems, incoming.cardItems);
    var banks := MergeItems(b.settings.bankItems, incoming.bankItems);
    if cards.None? || banks.None? then None
    else
      var after := InsertLinks(Book(b.txs + rows, b.links, Settings(cards.value, banks.value)), pairs);
      if after.None? || !ChangesAllowed(b, after.value) then None else after
  }

  ghost function CsvReplace(b: Book, rows: map<int, Tx>, pairs: seq<(int, int)>, incoming: Settings): Option<Book> {
    var imported := InsertLinks(Book(rows, {}, incoming), pairs);
    if imported.None? then None
    else
      var after := Prune(imported.value);
      if ChangesAllowed(Book(map[], {}, incoming), after) then Some(after) else None
  }

  // ----- every committed step keeps the policy -----

  datatype Step =
    | AddLinkStep(x: int, y: int)
    | RemoveLinkStep(id: int, other: int)
    | UpdateStep(id: int, tx: Tx, adds: seq<int>, removes: seq<int>)
    | SettingsStep(settings: Settings)
    | DeleteStep(id: int)
    | AddTxStep(id: int, tx: Tx)
    | AppendStep(rows: map<int, Tx>, pairs: seq<(int, int)>, incoming: Settings)
    | ReplaceStep(rows: map<int, Tx>, pairs: seq<(int, int)>, incoming: Settings)

  /** The effect of a committed step; `None` is a refused one. New rows get new ids. */
  ghost function Commit(b: Book, e: Step): Option<Book> {
    match e
    case AddLinkStep(x, y) => AddLink(b, x, y)
    case RemoveLinkStep(id, other) =>
      if (id, other) in b.links || (other, id) in b.links then Some(b.(links := b.links - {(id, other), (other, id)})) else None
    case UpdateStep(id, tx, adds, removes) => UpdateTx(b, id, tx, adds, removes)
    case SettingsStep(s) => SaveSettings(b, s)
    case DeleteStep(id) => DeleteTx(b, id)
    case AddTxStep(id, tx) => if id in b.txs then None else Some(AddTx(b, id, tx))
    case AppendStep(rows, pairs, incoming) =>
      if rows.Keys !! b.txs.Keys then CsvAppend(b, rows, pairs, incoming) else None
    case ReplaceStep(rows, pairs, incoming) => CsvReplace(b, rows, pairs, incoming)
  }

  /** Foreign keys: a link's ends exist. */
  ghost predicate LinksJoined(b: Book) {
    forall link :: link in b.links ==> Joined(b, link) && link.0 < link.1
  }

  lemma {:induction false} SubsetCard(a: set<int>, b: set<int>)
    requires a <= b
    ensures |a| <= |b|
  {
    assert b == a + (b - a);
  }

  lemma {:induction false} NothingChanged(b: Book)
    ensures ChangesAllowed(b, b)
  {
  }

  lemma {:induction false} AllowedIsTransitive(a: Book, b: Book, c: Book)
    requires ChangesAllowed(a, b) && ChangesAllowed(b, c)
    ensures ChangesAllowed(a, c)
  {
    forall card | |BanksOf(c, card)| > 1 ensures BanksOf(c, card) <= BanksOf(a, card) {
      SubsetCard(BanksOf(c, card), BanksOf(b, card));
    }
  }

  /** Dropping links, or changing nothing a link's classification depends on, adds no bank. */
  lemma {:induction false} FewerLinksAllowed(b: Book, after: Book)
    requires forall link :: link in after.links ==> link in b.links && LinkPair(after, link) == LinkPair(b, link)
    ensures forall card :: BanksOf(after, card) <= BanksOf(b, card)
    ensures ChangesAllowed(b, after)
  {
  }

  lemma {:induction false} BanksAreNeighbours(b: Book, card: int, bank: int)
    requires bank in BanksOf(b, card)
    ensures bank in Neighbours(b, card) && IsBankTx(b, bank)
  {
    var link :| link in b.links && LinkPair(b, link).Some? && LinkPair(b, link).value == (card, bank);
  }

  lemma {:induction false} AddLinkAllowed(b: Book, x: int, y: int)
    requires AddLink(b, x, y).Some?
    ensures ChangesAllowed(b, AddLink(b, x, y).value)
  {
    var after := AddLink(b, x, y).value;
    var pair := PairOf(x, b.txs[x].account, y, b.txs[y].account, b.settings).value;
    var edge := Edge(x, y);
    PairIsSymmetric(x, b.txs[x].account, y, b.txs[y].account, b.settings);
    if edge !in b.links {
      forall card | |BanksOf(after, card)| > 1 ensures BanksOf(after, card) <= BanksOf(b, card) {
        forall bank | bank in BanksOf(after, card) ensures bank in BanksOf(b, card) || (card, bank) == pair {
          var link :| link in after.links && LinkPair(after, link).Some? && LinkPair(after, link).value == (card, bank);
          assert LinkPair(after, link) == LinkPair(b, link);
        }
        if card == pair.0 {
          forall bank | bank in BanksOf(after, card) ensures bank == pair.1 {
            if bank in BanksOf(b, card) { BanksAreNeighbours(b, card, bank); }
          }
          SubsetCard(BanksOf(after, card), {pair.1});
        }
      }
    }
  }

  lemma {:induction false} RemoveLinksAllowed(b: Book, id: int, others: seq<int>)
    requires RemoveLinks(b, id, others).Some?
    ensures var after := RemoveLinks(b, id, others).value;
            after.txs == b.txs && after.settings == b.settings && after.links <= b.links
    decreases |others|
  {
    if others != [] {
      RemoveLinksAllowed(b.(links := b.links - {Edge(id, others[0])}), id, others[1..]);
    }
  }

  lemma {:induction false} AddLinksAllowed(b: Book, id: int, others: seq<int>)
    requires AddLinks(b, id, others).Some?
    ensures ChangesAllowed(b, AddLinks(b, id, others).value)
    decreases |others|
  {
    if others == [] {
      NothingChanged(b);
    } else {
      var next := AddLink(b, id, others[0]).value;
      AddLinkAllowed(b, id, others[0]);
      AddLinksAllowed(next, id, others[1..]);
      AllowedIsTransitive(b, next, AddLinks(next, id, others[1..]).value);
    }
  }

  lemma {:induction false} AddLinksJoined(b: Book, id: int, others: seq<int>)
    requires AddLinks(b, id, others).Some?
    ensures LinksJoined(b) ==> LinksJoined(AddLinks(b, id, others).value)
    ensures AddLinks(b, id, others).value.txs == b.txs
    decreases |others|
  {
    if others != [] {
      AddLinksJoined(AddLink(b, id, others[0]).value, id, others[1..]);
    }
  }

  lemma {:induction false} ChangeLinksAllowed(b: Book, id: int, adds: seq<int>, removes: seq<int>)
    requires ChangeLinks(b, id, adds, removes).Some?
    ensures ChangesAllowed(b, ChangeLinks(b, id, adds, removes).value)
    ensures LinksJoined(b) ==> LinksJoined(ChangeLinks(b, id, adds, removes).value)
    ensures ChangeLinks(b, id, adds, removes).value.txs == b.txs
  {
    var removed := RemoveLinks(b, id, removes).value;
    RemoveLinksAllowed(b, id, removes);
    FewerLinksAllowed(b, removed);
    AddLinksAllowed(removed, id, adds);
    AddLinksJoined(removed, id, adds);
    AllowedIsTransitive(b, removed, AddLinks(removed, id, adds).value);
  }

  lemma {:induction false} PruneAllowed(b: Book)
    ensures ChangesAllowed(b, Prune(b))
    ensures LinksJoined(b) ==> LinksJoined(Prune(b))
  {
    FewerLinksAllowed(b, Prune(b));
  }

  /** An update that keeps the account needs no check: its link changes cannot break the policy. */
  lemma {:induction false} UpdateAllowed(b: Book, id: int, tx: Tx, adds: seq<int>, removes: seq<int>)
    requires LinksJoined(b) && UpdateTx(b, id, tx, adds, removes).Some?
    ensures ChangesAllowed(b, UpdateTx(b, id, tx, adds, removes).value)
    ensures LinksJoined(UpdateTx(b, id, tx, adds, removes).value)
  {
    var edited := b.(txs := b.txs[id := tx]);
    var changed := ChangeLinks(edited, id, adds, removes).value;
    assert LinksJoined(edited);
    ChangeLinksAllowed(edited, id, adds, removes);
    PruneAllowed(changed);
    if b.txs[id].account == tx.account {
      FewerLinksAllowed(b, edited);
      AllowedIsTransitive(b, edited, changed);
      AllowedIsTransitive(b, changed, Prune(changed));
    }
  }

  lemma {:induction false} OneMoreJoined(b: Book, x: int, y: int)
    requires LinksJoined(b) && LinkPair(b, Edge(x, y)).Some?
    ensures LinksJoined(b.(links := b.links + {Edge(x, y)}))
  {
    var after := b.(links := b.links + {Edge(x, y)});
    forall link | link in after.links ensures Joined(after, link) && link.0 < link.1 {
      assert link != Edge(x, y) ==> Joined(b, link);
    }
  }

  lemma {:induction false} InsertLinksJoined(b: Book, pairs: seq<(int, int)>)
    requires LinksJoined(b) && InsertLinks(b, pairs).Some?
    ensures LinksJoined(InsertLinks(b, pairs).value)
    decreases |pairs|
  {
    if pairs != [] {
      OneMoreJoined(b, pairs[0].0, pairs[0].1);
      InsertLinksJoined(b.(links := b.links + {Edge(pairs[0].0, pairs[0].1)}), pairs[1..]);
    }
  }

  lemma {:induction false} AppendAllowed(b: Book, rows: map<int, Tx>, pairs: seq<(int, int)>, incoming: Settings)
    requires LinksJoined(b) && CsvAppend(b, rows, pairs, incoming).Some?
    ensures ChangesAllowed(b, CsvAppend(b, rows, pairs, incoming).value)
    ensures LinksJoined(CsvAppend(b, rows, pairs, incoming).value)
  {
    var cards := MergeItems(b.settings.cardItems, incoming.cardItems).value;
    var banks := MergeItems(b.settings.bankItems, incoming.bankItems).value;
    InsertLinksJoined(Book(b.txs + rows, b.links, Settings(cards, banks)), pairs);
  }

  lemma {:induction false} ReplaceAllowed(b: Book, rows: map<int, Tx>, pairs: seq<(int, int)>, incoming: Settings)
    requires CsvReplace(b, rows, pairs, incoming).Some?
    ensures ChangesAllowed(b, CsvReplace(b, rows, pairs, incoming).value)
    ensures LinksJoined(CsvReplace(b, rows, pairs, incoming).value)
  {
    InsertLinksJoined(Book(rows, {}, incoming), pairs);
    PruneAllowed(InsertLinks(Book(rows, {}, incoming), pairs).value);
    ReplaceIsClean(b, CsvReplace(b, rows, pairs, incoming).value, incoming);
  }

  /** Every committed mutation leaves a card with several banks only banks it already had. */
  lemma {:induction false} CommitKeepsPolicy(b: Book, e: Step)
    requires LinksJoined(b) && Commit(b, e).Some?
    ensures ChangesAllowed(b, Commit(b, e).value)
    ensures LinksJoined(Commit(b, e).value)
  {
    var after := Commit(b, e).value;
    match e
    case AddLinkStep(x, y) => AddLinkAllowed(b, x, y);
    case RemoveLinkStep(_, _) => FewerLinksAllowed(b, after);
    case UpdateStep(id, tx, adds, removes) => UpdateAllowed(b, id, tx, adds, removes);
    case SettingsStep(s) => PruneAllowed(b.(settings := s));
    case DeleteStep(_) => FewerLinksAllowed(b, after);
    case AddTxStep(_, _) => FewerLinksAllowed(b, after);
    case AppendStep(rows, pairs, incoming) => AppendAllowed(b, rows, pairs, incoming);
    case ReplaceStep(rows, pairs, incoming) => ReplaceAllowed(b, rows, pairs, incoming);
  }

  /** Nothing is grandfathered through a replace. */
  lemma {:induction false} ReplaceIsClean(b: Book, after: Book, incoming: Settings)
    requires ChangesAllowed(Book(map[], {}, incoming), after)
    ensures Clean(after) && ChangesAllowed(b, after)
  {
    forall card ensures |BanksOf(after, card)| <= 1 {
      assert BanksOf(Book(map[], {}, incoming), card) == {};
      if |BanksOf(after, card)| > 1 {
        SubsetCard(BanksOf(after, card), {});
      }
    }
  }

  ghost predicate Clean(b: Book) {
    forall card :: |BanksOf(b, card)| <= 1
  }

  ghost function Next(b: Book, e: Step): Book {
    if Commit(b, e).Some? then Commit(b, e).value else b
  }

  ghost predicate IsRun(books: seq<Book>, steps: seq<Step>) {
    && |books| == |steps| + 1
    && LinksJoined(books[0])
    && forall k :: 0 <= k < |steps| ==> books[k + 1] == Next(books[k], steps[k])
  }

  lemma {:induction false} NextKeepsPolicy(b: Book, e: Step)
    requires LinksJoined(b)
    ensures ChangesAllowed(b, Next(b, e)) && LinksJoined(Next(b, e))
  {
    if Commit(b, e).Some? {
      CommitKeepsPolicy(b, e);
    }
  }

  lemma {:induction false} AllowedKeepsClean(a: Book, b: Book)
    requires ChangesAllowed(a, b) && Clean(a)
    ensures Clean(b)
  {
    forall card ensures |BanksOf(b, card)| <= 1 {
      if |BanksOf(b, card)| > 1 {
        SubsetCard(BanksOf(b, card), BanksOf(a, card));
      }
    }
  }

  /** Over any run, a card that ends with several banks has only banks it started
      with; so a ledger that starts clean stays clean. */
  lemma {:induction false} RunKeepsPolicy(books: seq<Book>, steps: seq<Step>, k: nat)
    requires IsRun(books, steps) && k < |books|
    ensures ChangesAllowed(books[0], books[k]) && LinksJoined(books[k])
    ensures Clean(books[0]) ==> Clean(books[k])
  {
    if k == 0 {
      NothingChanged(books[0]);
    } else {
      RunKeepsPolicy(books, steps, k - 1);
      NextKeepsPolicy(books[k - 1], steps[k - 1]);
      AllowedIsTransitive(books[0], books[k - 1], books[k]);
    }
    if Clean(books[0]) {
      AllowedKeepsClean(books[0], books[k]);
    }
  }

  // ----- reconciliation -----

  /** Expenses count, refunds count against them. */
  function Signed(b: Book, id: int): int {
    if id !in b.txs then 0 else if b.txs[id].income then -b.txs[id].amount else b.txs[id].amount
  }

  predicate IsReconcilable(b: Book, bank: int) {
    bank in b.txs
    && Trim(b.txs[bank].account) in Banks(b.settings) && Trim(b.txs[bank].account) !in Cards(b.settings)
  }

  /** The cards a reconciliation of `bank` lists. */
  function CardsFor(b: Book, bank: int): set<int> {
    if !IsReconcilable(b, bank) then {}
    else set n | n in Neighbours(b, bank)
                 && PairOf(n, b.txs[n].account, bank, b.txs[bank].account, b.settings).Some?
  }

  /** What a reconciliation reports; the amounts are exact, whatever their size. */
  datatype Report = Report(applicable: bool, cards: set<int>, total: int, difference: int, matched: bool, conflicts: bool)

  const NotApplicable := Report(false, {}, 0, 0, false, false)

  ghost function AmountIn(b: Book): int -> int {
    id => if id in b.txs then b.txs[id].amount else 0
  }

  /** A total is what was spent less what came back. */
  lemma {:induction false} CardTotalIs(b: Book, bank: int)
    ensures var refunds := set c | c in CardsFor(b, bank) && c in b.txs && b.txs[c].income;
      CardTotal(b, bank) == Sum(CardsFor(b, bank) - refunds, AmountIn(b)) - Sum(refunds, AmountIn(b))
  {
    var refunds := set c | c in CardsFor(b, bank) && c in b.txs && b.txs[c].income;
    var spent := CardsFor(b, bank) - refunds;
    SumUnion(spent, refunds, SignedIn(b));
    assert spent + refunds == CardsFor(b, bank);
    SumCongruent(spent, SignedIn(b), AmountIn(b));
    SumNegated(refunds, SignedIn(b), AmountIn(b));
  }

  lemma {:induction false} OnlyMember(owners: set<int>, bank: int)
    requires bank in owners
    ensures owners == {bank} <==> |owners| <= 1
  {
    assert owners == owners - {bank} + {bank};
    if |owners| <= 1 {
      assert owners - {bank} == {};
    }
  }

  lemma {:induction false} ConflictAt(b: Book, bank: int, n: int)
    requires LinksJoined(b)
    ensures BanksOf(b, n) != {bank} <==> n !in CardsFor(b, bank) || |BanksOf(b, n)| > 1
  {
    CardsForIsAssignment(b, bank, n);
    if bank in BanksOf(b, n) {
      OnlyMember(BanksOf(b, n), bank);
    } else {
      assert bank in {bank};
    }
  }

  ghost predicate InConflict(b: Book, bank: int) {
    exists n :: n in Neighbours(b, bank) && BanksOf(b, n) != {bank}
  }

  /** A foreign or a shared transaction among the linked ones is one with other banks than this. */
  lemma {:induction false} ConflictsExactly(b: Book, bank: int, cards: set<int>, owners: map<int, set<int>>)
    requires LinksJoined(b) && cards == CardsFor(b, bank) && cards <= Neighbours(b, bank)
    requires forall card :: (if card in owners then owners[card] else {}) == BanksOf(b, card)
    ensures InConflict(b, bank) <==>
      cards != Neighbours(b, bank) || exists card :: card in cards && card in owners && |owners[card]| > 1
  {
    var linked := Neighbours(b, bank);
    if n :| n in linked && BanksOf(b, n) != {bank} {
      ConflictAt(b, bank, n);
      assert n in cards ==> n in owners && |owners[n]| > 1;
    }
    if cards != linked {
      var n :| n in linked && n !in cards;
      ConflictAt(b, bank, n);
    }
    if card :| card in cards && card in owners && |owners[card]| > 1 {
      ConflictAt(b, bank, card);
      assert card in linked && BanksOf(b, card) == owners[card];
    }
  }

  ghost function SignedIn(b: Book): int -> int {
    id => Signed(b, id)
  }

  ghost function CardTotal(b: Book, bank: int): int {
    Sum(CardsFor(b, bank), SignedIn(b))
  }

  ghost function CardTotalIn(b: Book): int -> int {
    bank => CardTotal(b, bank)
  }

  /** A reconciliation lists exactly the cards assigned to the bank. */
  lemma {:induction false} CardsForIsAssignment(b: Book, bank: int, card: int)
    requires LinksJoined(b)
    ensures card in CardsFor(b, bank) <==> bank in BanksOf(b, card)
  {
    if card in CardsFor(b, bank) {
      var link :| link in b.links && (link == (bank, card) || link == (card, bank));
      PairIsSymmetric(card, b.txs[card].account, bank, b.txs[bank].account, b.settings);
      assert LinkPair(b, link) == Some((card, bank));
    }
    if bank in BanksOf(b, card) {
      var link :| link in b.links && LinkPair(b, link).Some? && LinkPair(b, link).value == (card, bank);
      PairIsSymmetric(card, b.txs[card].account, bank, b.txs[bank].account, b.settings);
    }
  }

  /** What a card contributes to the totals of `banks`: its amount once per assignment. */
  ghost function Weight(b: Book, banks: set<int>, card: int): int {
    Signed(b, card) * |BanksOf(b, card) * banks|
  }

  ghost function WeightIn(b: Book, banks: set<int>): int -> int {
    card => Weight(b, banks, card)
  }

  ghost function Listed(b: Book, bank: int): int -> int {
    card => if card in CardsFor(b, bank) then Signed(b, card) else 0
  }

  lemma {:induction false} MeetOneMore(owners: set<int>, rest: set<int>, k: int)
    requires k !in rest
    ensures |owners * (rest + {k})| == |owners * rest| + (if k in owners then 1 else 0)
  {
    if k in owners {
      assert owners * (rest + {k}) == owners * rest + {k};
    } else {
      assert owners * (rest + {k}) == owners * rest;
    }
  }

  lemma {:induction false} WeightOfOneMore(b: Book, rest: set<int>, k: int, card: int)
    requires LinksJoined(b) && k !in rest
    ensures Weight(b, rest + {k}, card) == Weight(b, rest, card) + Listed(b, k)(card)
  {
    CardsForIsAssignment(b, k, card);
    MeetOneMore(BanksOf(b, card), rest, k);
    TimesOneMore(Signed(b, card), |BanksOf(b, card) * rest|);
  }

  lemma {:induction false} TimesOneMore(amount: int, n: int)
    ensures amount * (n + 1) == amount * n + amount
  {
  }

  lemma {:induction false} TotalIsListed(b: Book, bank: int)
    ensures CardTotal(b, bank) == Sum(b.txs.Keys, Listed(b, bank))
  {
    SumPart(CardsFor(b, bank), b.txs.Keys, SignedIn(b), Listed(b, bank));
  }

  lemma {:induction false} WeightsOfOneMore(b: Book, rest: set<int>, k: int)
    requires LinksJoined(b) && k !in rest
    ensures forall c :: WeightIn(b, rest + {k})(c) == WeightIn(b, rest)(c) + Listed(b, k)(c)
  {
    forall c ensures WeightIn(b, rest + {k})(c) == WeightIn(b, rest)(c) + Listed(b, k)(c) {
      WeightOfOneMore(b, rest, k, c);
    }
  }

  lemma {:induction false} OneMoreBank(b: Book, rest: set<int>, k: int)
    requires LinksJoined(b) && k !in rest
    ensures Sum(b.txs.Keys, WeightIn(b, rest + {k})) == Sum(b.txs.Keys, WeightIn(b, rest)) + CardTotal(b, k)
  {
    WeightsOfOneMore(b, rest, k);
    SumSplit(b.txs.Keys, WeightIn(b, rest), Listed(b, k), WeightIn(b, rest + {k}));
    TotalIsListed(b, k);
  }

  lemma {:induction false} NoBanksNoWeight(b: Book)
    ensures Sum(b.txs.Keys, WeightIn(b, {})) == 0
  {
    forall c ensures WeightIn(b, {})(c) == 0 {
      NoMeet(BanksOf(b, c));
    }
    SumPart({}, b.txs.Keys, SignedIn(b), WeightIn(b, {}));
  }

  lemma {:induction false} NoMeet(owners: set<int>)
    ensures |owners * {}| == 0
  {
    assert owners * {} == {};
  }

  /** Summed over any set of banks, each card is counted once per bank it is linked to. */
  lemma {:induction false} TotalsCountAssignments(b: Book, banks: set<int>)
    requires LinksJoined(b)
    ensures Sum(banks, CardTotalIn(b)) == Sum(b.txs.Keys, WeightIn(b, banks))
    decreases banks
  {
    if banks == {} {
      NoBanksNoWeight(b);
    } else {
      var k := Pick(banks);
      var rest := banks - {k};
      SumPick(banks, CardTotalIn(b), k);
      TotalsCountAssignments(b, rest);
      OneMoreBank(b, rest, k);
      assert rest + {k} == banks;
    }
  }

  ghost function LinkedCards(b: Book): set<int> {
    set c | c in b.txs && BanksOf(b, c) != {}
  }

  lemma {:induction false} CleanWeight(b: Book, card: int)
    requires LinksJoined(b) && Clean(b) && card in b.txs
    ensures Weight(b, b.txs.Keys, card) == if card in LinkedCards(b) then Signed(b, card) else 0
  {
    var owners, all := BanksOf(b, card), b.txs.Keys;
    forall k | k in owners ensures k in all {
      BanksAreNeighbours(b, card, k);
    }
    assert owners * all == owners;
    if owners != {} {
      var k := Pick(owners);
      SubsetCard({k}, owners);
      assert |owners| == 1;
    }
  }

  /** In a clean ledger the totals of all bank transactions together count every
      linked card transaction exactly once. */
  lemma {:induction false} CleanTotalsCountOnce(b: Book)
    requires LinksJoined(b) && Clean(b)
    ensures Sum(b.txs.Keys, CardTotalIn(b)) == Sum(LinkedCards(b), SignedIn(b))
  {
    var all := b.txs.Keys;
    TotalsCountAssignments(b, all);
    forall c | c in all ensures WeightIn(b, all)(c) == if c in LinkedCards(b) then SignedIn(b)(c) else 0 {
      CleanWeight(b, c);
    }
    SumPart(LinkedCards(b), all, SignedIn(b), WeightIn(b, all));
  }

  // ----- the code that reads and checks the tables -----

  // ----- what each mutation does -----

  predicate OnCard(b: Book, id: int) {
    id in b.txs && Trim(b.txs[id].account) in Cards(b.settings)
  }

  predicate OnBank(b: Book, id: int) {
    id in b.txs && Trim(b.txs[id].account) in Banks(b.settings)
  }

  function Smaller(x: int, y: int): int { if x < y then x else y }

  function Larger(x: int, y: int): int { if x < y then y else x }

  /** A card is linked to some transaction of a bank other than this one. */
  ghost predicate LinkedElsewhere(b: Book, card: int, bank: int) {
    exists n :: n != bank && OnBank(b, n) && ((card, n) in b.links || (n, card) in b.links)
  }

  /** One is on a card and not a bank, the other on a bank and not a card. */
  predicate CardMeetsBank(b: Book, card: int, bank: int) {
    OnCard(b, card) && !OnBank(b, card) && OnBank(b, bank) && !OnCard(b, bank)
  }

  /** When two transactions may be linked: one is the card and one the bank, and the link is
      there already or the card has no other bank. */
  ghost predicate MayLink(b: Book, x: int, y: int) {
    && x > 0 && y > 0 && x != y
    && (|| (CardMeetsBank(b, x, y) && ((Smaller(x, y), Larger(x, y)) in b.links || !LinkedElsewhere(b, x, y)))
        || (CardMeetsBank(b, y, x) && ((Smaller(x, y), Larger(x, y)) in b.links || !LinkedElsewhere(b, y, x))))
  }

  lemma {:induction false} PairExactly(b: Book, x: int, y: int)
    requires x in b.txs && y in b.txs
    ensures var pair := PairOf(x, b.txs[x].account, y, b.txs[y].account, b.settings);
      pair == if CardMeetsBank(b, x, y) then Some((x, y)) else if CardMeetsBank(b, y, x) then Some((y, x)) else None
  {
  }

  lemma {:induction false} ElsewhereExactly(b: Book, card: int, bank: int)
    ensures (exists n :: n in Neighbours(b, card) && n != bank && IsBankTx(b, n)) <==> LinkedElsewhere(b, card, bank)
  {
    if n :| n in Neighbours(b, card) && n != bank && IsBankTx(b, n) {
      assert (card, n) in b.links || (n, card) in b.links;
    }
    if n :| n != bank && OnBank(b, n) && ((card, n) in b.links || (n, card) in b.links) {
      assert n in Neighbours(b, card);
    }
  }

  /** A link is added exactly when it may be, and nothing else changes. */
  lemma {:induction false} AddLinkExactly(b: Book, x: int, y: int)
    ensures AddLink(b, x, y).Some? <==> MayLink(b, x, y)
    ensures AddLink(b, x, y).Some? ==> AddLink(b, x, y).value == Book(b.txs, b.links + {(Smaller(x, y), Larger(x, y))}, b.settings)
  {
    if x in b.txs && y in b.txs {
      PairExactly(b, x, y);
      ElsewhereExactly(b, x, y);
      ElsewhereExactly(b, y, x);
    }
    if AddLink(b, x, y).Some? && (Smaller(x, y), Larger(x, y)) in b.links {
      assert b.links + {(Smaller(x, y), Larger(x, y))} == b.links;
    }
  }

  ghost function LinksTo(id: int, others: seq<int>): set<(int, int)> {
    set k | 0 <= k < |others| :: (Smaller(id, others[k]), Larger(id, others[k]))
  }

  lemma {:induction false} LinksToCons(id: int, others: seq<int>)
    requires others != []
    ensures LinksTo(id, others) == {(Smaller(id, others[0]), Larger(id, others[0]))} + LinksTo(id, others[1..])
  {
    var rest := others[1..];
    forall e | e in LinksTo(id, others) ensures e == (Smaller(id, others[0]), Larger(id, others[0])) || e in LinksTo(id, rest) {
      var k :| 0 <= k < |others| && e == (Smaller(id, others[k]), Larger(id, others[k]));
      if k > 0 { assert rest[k - 1] == others[k]; }
    }
    forall e | e in LinksTo(id, rest) ensures e in LinksTo(id, others) {
      var k :| 0 <= k < |rest| && e == (Smaller(id, rest[k]), Larger(id, rest[k]));
      assert others[k + 1] == rest[k];
    }
  }

  /** Each named link is there, and named once. */
  ghost predicate MayRemove(links: set<(int, int)>, id: int, others: seq<int>) {
    && (forall k :: 0 <= k < |others| ==> others[k] > 0 && others[k] != id && (Smaller(id, others[k]), Larger(id, others[k])) in links)
    && forall i, k :: 0 <= i < k < |others| ==> others[i] != others[k]
  }

  lemma {:induction false} MayRemoveCons(links: set<(int, int)>, id: int, others: seq<int>)
    requires others != []
    ensures var e := (Smaller(id, others[0]), Larger(id, others[0]));
      MayRemove(links, id, others) <==> others[0] > 0 && others[0] != id && e in links && MayRemove(links - {e}, id, others[1..])
  {
    var e, rest := (Smaller(id, others[0]), Larger(id, others[0])), others[1..];
    assert forall k :: 0 <= k < |rest| ==> rest[k] == others[k + 1];
    if MayRemove(links, id, others) {
      forall k | 0 <= k < |rest| ensures rest[k] > 0 && rest[k] != id && (Smaller(id, rest[k]), Larger(id, rest[k])) in links - {e} {
        assert others[0] != others[k + 1];
      }
    }
    if others[0] > 0 && others[0] != id && e in links && MayRemove(links - {e}, id, rest) {
      forall k | 0 <= k < |others| ensures others[k] > 0 && others[k] != id && (Smaller(id, others[k]), Larger(id, others[k])) in links {
        if k > 0 { assert rest[k - 1] == others[k]; }
      }
      forall i, k | 0 <= i < k < |others| ensures others[i] != others[k] {
        assert rest[k - 1] == others[k];
        if i > 0 { assert rest[i - 1] == others[i]; }
      }
    }
  }

  lemma {:induction false} RemoveLinksExactly(b: Book, id: int, others: seq<int>)
    ensures RemoveLinks(b, id, others).Some? <==> MayRemove(b.links, id, others)
    ensures RemoveLinks(b, id, others).Some? ==>
      RemoveLinks(b, id, others).value == Book(b.txs, b.links - LinksTo(id, others), b.settings)
    decreases |others|
  {
    if others == [] {
      assert b.links - LinksTo(id, others) == b.links;
    } else {
      var e := (Smaller(id, others[0]), Larger(id, others[0]));
      MayRemoveCons(b.links, id, others);
      LinksToCons(id, others);
      RemoveLinksExactly(b.(links := b.links - {e}), id, others[1..]);
      assert b.links - {e} - LinksTo(id, others[1..]) == b.links - LinksTo(id, others);
    }
  }

  /** Each link may be added once the ones before it are there. */
  ghost predicate MayLinkAll(b: Book, id: int, others: seq<int>) {
    forall k :: 0 <= k < |others| ==> MayLink(Book(b.txs, b.links + LinksTo(id, others[..k]), b.settings), id, others[k])
  }

  lemma {:induction false} MayLinkAllCons(b: Book, id: int, others: seq<int>)
    requires others != []
    ensures var next := Book(b.txs, b.links + {(Smaller(id, others[0]), Larger(id, others[0]))}, b.settings);
      MayLinkAll(b, id, others) <==> MayLink(b, id, others[0]) && MayLinkAll(next, id, others[1..])
  {
    var e, rest := (Smaller(id, others[0]), Larger(id, others[0])), others[1..];
    var next := Book(b.txs, b.links + {e}, b.settings);
    assert LinksTo(id, others[..0]) == {} && Book(b.txs, b.links + {}, b.settings) == b;
    forall k | 0 <= k < |rest|
      ensures Book(b.txs, b.links + LinksTo(id, others[..k + 1]), b.settings) == Book(next.txs, next.links + LinksTo(id, rest[..k]), next.settings)
    {
      LinksToCons(id, others[..k + 1]);
      assert others[..k + 1][1..] == rest[..k];
    }
    if MayLinkAll(b, id, others) {
      assert MayLink(Book(b.txs, b.links + LinksTo(id, others[..0]), b.settings), id, others[0]);
      forall k | 0 <= k < |rest| ensures MayLink(Book(next.txs, next.links + LinksTo(id, rest[..k]), next.settings), id, rest[k]) {
        assert MayLink(Book(b.txs, b.links + LinksTo(id, others[..k + 1]), b.settings), id, others[k + 1]);
      }
    }
    if MayLink(b, id, others[0]) && MayLinkAll(next, id, rest) {
      forall k | 0 <= k < |others| ensures MayLink(Book(b.txs, b.links + LinksTo(id, others[..k]), b.settings), id, others[k]) {
        if k > 0 { assert MayLink(Book(next.txs, next.links + LinksTo(id, rest[..k - 1]), next.settings), id, rest[k - 1]); }
      }
    }
  }

  lemma {:induction false} AddLinksExactly(b: Book, id: int, others: seq<int>)
    ensures AddLinks(b, id, others).Some? <==> MayLinkAll(b, id, others)
    ensures AddLinks(b, id, others).Some? ==> AddLinks(b, id, others).value == Book(b.txs, b.links + LinksTo(id, others), b.settings)
    decreases |others|
  {
    if others == [] {
      assert b.links + LinksTo(id, others) == b.links;
    } else {
      AddLinkExactly(b, id, others[0]);
      MayLinkAllCons(b, id, others);
      LinksToCons(id, others);
      if AddLink(b, id, others[0]).Some? {
        AddLinksExactly(AddLink(b, id, others[0]).value, id, others[1..]);
      }
    }
  }

  /** A link that stays: one end on a card and the other on a bank, or an end is missing. */
  predicate Stays(b: Book, link: (int, int)) {
    link.0 !in b.txs || link.1 !in b.txs || (OnCard(b, link.0) && OnBank(b, link.1)) || (OnBank(b, link.0) && OnCard(b, link.1))
  }

  function Staying(b: Book): set<(int, int)> {
    set link | link in b.links && Stays(b, link)
  }

  lemma {:induction false} PruneExactly(b: Book)
    ensures Prune(b) == Book(b.txs, Staying(b), b.settings)
  {
  }

  /** The tables an update leaves: the row replaced, the named links removed, then the named
      ones added, then all that join no card and bank dropped. */
  ghost function Updated(b: Book, id: int, tx: Tx, adds: seq<int>, removes: seq<int>): Book {
    var edited := Book(b.txs[id := tx], b.links - LinksTo(id, removes) + LinksTo(id, adds), b.settings);
    Book(edited.txs, Staying(edited), edited.settings)
  }

  lemma {:induction false} UpdateExactly(b: Book, id: int, tx: Tx, adds: seq<int>, removes: seq<int>)
    ensures UpdateTx(b, id, tx, adds, removes).Some? <==>
      && id in b.txs && |adds| + |removes| <= 100 && MayRemove(b.links, id, removes)
      && MayLinkAll(Book(b.txs[id := tx], b.links - LinksTo(id, removes), b.settings), id, adds)
      && (b.txs[id].account != tx.account ==> ChangesAllowed(b, Updated(b, id, tx, adds, removes)))
    ensures UpdateTx(b, id, tx, adds, removes).Some? ==> UpdateTx(b, id, tx, adds, removes).value == Updated(b, id, tx, adds, removes)
  {
    if id in b.txs {
      var edited := b.(txs := b.txs[id := tx]);
      RemoveLinksExactly(edited, id, removes);
      if |adds| + |removes| <= 100 && RemoveLinks(edited, id, removes).Some? {
        AddLinksExactly(RemoveLinks(edited, id, removes).value, id, adds);
        if AddLinks(RemoveLinks(edited, id, removes).value, id, adds).Some? {
          PruneExactly(AddLinks(RemoveLinks(edited, id, removes).value, id, adds).value);
        }
      }
    }
  }

  /** The tables new settings leave: links that join no card and bank under them are dropped. */
  ghost function Resettled(b: Book, s: Settings): Book {
    Book(b.txs, Staying(Book(b.txs, b.links, s)), s)
  }

  lemma {:induction false} SaveSettingsExactly(b: Book, s: Settings)
    ensures SaveSettings(b, s).Some? <==> ChangesAllowed(b, Resettled(b, s))
    ensures SaveSettings(b, s).Some? ==> SaveSettings(b, s).value == Resettled(b, s)
  {
    PruneExactly(b.(settings := s));
  }

  /** A deleted transaction takes its links along; nothing else goes. */
  lemma {:induction false} DeleteExactly(b: Book, id: int)
    ensures DeleteTx(b, id).Some? <==> id in b.txs
    ensures DeleteTx(b, id).Some? ==> var after := DeleteTx(b, id).value;
      && after.txs.Keys == b.txs.Keys - {id} && (forall k :: k in after.txs ==> after.txs[k] == b.txs[k]) && after.settings == b.settings
      && forall link :: link in after.links <==> link in b.links && id != link.0 && id != link.1
  {
  }

  function AsLink(pair: (int, int)): (int, int) {
    (Smaller(pair.0, pair.1), Larger(pair.0, pair.1))
  }

  ghost function PairsAsLinks(pairs: seq<(int, int)>): set<(int, int)> {
    set k | 0 <= k < |pairs| :: AsLink(pairs[k])
  }

  lemma {:induction false} PairsAsLinksCons(pairs: seq<(int, int)>)
    requires pairs != []
    ensures PairsAsLinks(pairs) == {AsLink(pairs[0])} + PairsAsLinks(pairs[1..])
  {
    var rest := pairs[1..];
    forall f | f in PairsAsLinks(pairs) ensures f == AsLink(pairs[0]) || f in PairsAsLinks(rest) {
      var k :| 0 <= k < |pairs| && f == AsLink(pairs[k]);
      if k > 0 { assert rest[k - 1] == pairs[k]; }
    }
    forall f | f in PairsAsLinks(rest) ensures f in PairsAsLinks(pairs) {
      var k :| 0 <= k < |rest| && f == AsLink(rest[k]);
      assert pairs[k + 1] == rest[k];
    }
  }

  /** Two transactions, one on a card and the other on a bank. */
  predicate Crosses(b: Book, pair: (int, int)) {
    CardMeetsBank(b, pair.0, pair.1) || CardMeetsBank(b, pair.1, pair.0)
  }

  /** Imported links: each joins a card and a bank, is not there yet and comes once. */
  ghost predicate MayInsert(b: Book, pairs: seq<(int, int)>) {
    && (forall k :: 0 <= k < |pairs| ==> Crosses(b, pairs[k]) && AsLink(pairs[k]) !in b.links)
    && forall i, k :: 0 <= i < k < |pairs| ==> AsLink(pairs[i]) != AsLink(pairs[k])
  }

  lemma {:induction false} MayInsertCons(b: Book, pairs: seq<(int, int)>)
    requires pairs != []
    ensures MayInsert(b, pairs) <==>
      && Crosses(b, pairs[0]) && AsLink(pairs[0]) !in b.links
      && MayInsert(Book(b.txs, b.links + {AsLink(pairs[0])}, b.settings), pairs[1..])
  {
    var rest, next := pairs[1..], Book(b.txs, b.links + {AsLink(pairs[0])}, b.settings);
    forall k | 0 <= k < |rest| ensures rest[k] == pairs[k + 1] && (Crosses(next, rest[k]) <==> Crosses(b, pairs[k + 1])) {
    }
    if MayInsert(b, pairs) {
      forall k | 0 <= k < |rest| ensures Crosses(next, rest[k]) && AsLink(rest[k]) !in next.links {
        assert AsLink(pairs[0]) != AsLink(pairs[k + 1]) && Crosses(b, pairs[k + 1]);
      }
      forall i, k | 0 <= i < k < |rest| ensures AsLink(rest[i]) != AsLink(rest[k]) {
        assert AsLink(pairs[i + 1]) != AsLink(pairs[k + 1]);
      }
    }
    if Crosses(b, pairs[0]) && AsLink(pairs[0]) !in b.links && MayInsert(next, rest) {
      forall k | 0 <= k < |pairs| ensures Crosses(b, pairs[k]) && AsLink(pairs[k]) !in b.links {
        if k > 0 { assert pairs[k] == rest[k - 1] && Crosses(next, rest[k - 1]); }
      }
      forall i, k | 0 <= i < k < |pairs| ensures AsLink(pairs[i]) != AsLink(pairs[k]) {
        assert pairs[k] == rest[k - 1] && AsLink(rest[k - 1]) !in next.links;
        if i > 0 { assert pairs[i] == rest[i - 1]; }
      }
    }
  }

  lemma {:induction false} LinkPairExactly(b: Book, pair: (int, int))
    ensures Edge(pair.0, pair.1) == AsLink(pair) && (LinkPair(b, Edge(pair.0, pair.1)).Some? <==> Crosses(b, pair))
  {
    var e := AsLink(pair);
    if e.0 in b.txs && e.1 in b.txs { PairExactly(b, e.0, e.1); }
  }

  /** Imported links are inserted exactly when they may be, beside the ones that are there. */
  lemma {:induction false} InsertLinksExactly(b: Book, pairs: seq<(int, int)>)
    ensures InsertLinks(b, pairs).Some? <==> MayInsert(b, pairs)
    ensures InsertLinks(b, pairs).Some? ==> InsertLinks(b, pairs).value == Book(b.txs, b.links + PairsAsLinks(pairs), b.settings)
    decreases |pairs|
  {
    if pairs == [] {
      assert b.links + PairsAsLinks(pairs) == b.links;
    } else {
      var next := Book(b.txs, b.links + {AsLink(pairs[0])}, b.settings);
      LinkPairExactly(b, pairs[0]);
      MayInsertCons(b, pairs);
      InsertLinksExactly(next, pairs[1..]);
      PairsAsLinksCons(pairs);
      assert b.links + {AsLink(pairs[0])} + PairsAsLinks(pairs[1..]) == b.links + PairsAsLinks(pairs);
    }
  }

  /** The setting after an append: the one that was there, or else the archive's. */
  function Merged(existing: Option<seq<string>>, incoming: Option<seq<string>>): Option<seq<string>> {
    if existing.None? then incoming else existing
  }

  predicate Disagree(existing: Option<seq<string>>, incoming: Option<seq<string>>) {
    existing.Some? && incoming.Some? && existing.value != incoming.value
  }

  /** An append goes through exactly if no setting has another value, the links may be inserted
      and no card gets a new second bank; then the rows, links and settings are those of both. */
  lemma {:induction false} AppendExactly(b: Book, rows: map<int, Tx>, pairs: seq<(int, int)>, incoming: Settings)
    ensures var r := CsvAppend(b, rows, pairs, incoming);
      var settings := Settings(Merged(b.settings.cardItems, incoming.cardItems), Merged(b.settings.bankItems, incoming.bankItems));
      var after := Book(b.txs + rows, b.links + PairsAsLinks(pairs), settings);
      && (r.Some? <==>
            && !Disagree(b.settings.cardItems, incoming.cardItems) && !Disagree(b.settings.bankItems, incoming.bankItems)
            && MayInsert(Book(b.txs + rows, b.links, settings), pairs) && ChangesAllowed(b, after))
      && (r.Some? ==> r.value == after)
  {
    var settings := Settings(Merged(b.settings.cardItems, incoming.cardItems), Merged(b.settings.bankItems, incoming.bankItems));
    InsertLinksExactly(Book(b.txs + rows, b.links, settings), pairs);
  }

  lemma {:induction false} ReplacedStays(rows: map<int, Tx>, pairs: seq<(int, int)>, incoming: Settings)
    requires MayInsert(Book(rows, {}, incoming), pairs)
    ensures var after := Book(rows, PairsAsLinks(pairs), incoming); Prune(after) == after
  {
    var start, after := Book(rows, {}, incoming), Book(rows, PairsAsLinks(pairs), incoming);
    PruneExactly(after);
    forall link | link in after.links ensures Stays(after, link) {
      var k :| 0 <= k < |pairs| && link == AsLink(pairs[k]);
      assert Crosses(start, pairs[k]);
    }
    assert Staying(after) == after.links;
  }

  lemma {:induction false} NoBanksAtFirst(settings: Settings, after: Book)
    ensures ChangesAllowed(Book(map[], {}, settings), after) <==> forall card :: |BanksOf(after, card)| <= 1
  {
    var empty := Book(map[], {}, settings);
    forall card ensures BanksOf(empty, card) == {} {
    }
    if ChangesAllowed(empty, after) {
      forall card ensures |BanksOf(after, card)| <= 1 {
        assert |BanksOf(after, card)| > 1 ==> BanksOf(after, card) <= BanksOf(empty, card);
      }
    }
  }

  /** A replace goes through exactly if the links may be inserted and no card has two banks;
      then rows, links and settings are the archive's. */
  lemma {:induction false} ReplaceExactly(b: Book, rows: map<int, Tx>, pairs: seq<(int, int)>, incoming: Settings)
    ensures var r, after := CsvReplace(b, rows, pairs, incoming), Book(rows, PairsAsLinks(pairs), incoming);
      && (r.Some? <==> MayInsert(Book(rows, {}, incoming), pairs) && forall card :: |BanksOf(after, card)| <= 1)
      && (r.Some? ==> r.value == after)
  {
    var start, after := Book(rows, {}, incoming), Book(rows, PairsAsLinks(pairs), incoming);
    InsertLinksExactly(start, pairs);
    assert start.links + PairsAsLinks(pairs) == after.links;
    if MayInsert(start, pairs) {
      ReplacedStays(rows, pairs, incoming);
      NoBanksAtFirst(incoming, after);
    }
  }

  /** Taking back one link, and storing a transaction under a new id. */
  lemma {:induction false} SmallStepsExactly(b: Book, id: int, other: int, tx: Tx)
    ensures var r := Commit(b, RemoveLinkStep(id, other));
      && (r.Some? <==> (id, other) in b.links || (other, id) in b.links)
      && (r.Some? ==> r.value == Book(b.txs, b.links - {(id, other), (other, id)}, b.settings))
    ensures var r := Commit(b, AddTxStep(id, tx));
      && (r.Some? <==> id !in b.txs)
      && (r.Some? ==> r.value == Book(b.txs[id := tx], b.links, b.settings))
  {
  }

  class Tables {
    var txs: map<int, Tx>
    var links: set<(int, int)>
    var settings: Settings

    function Contents(): Book
      reads this
    {
      Book(txs, links, settings)
    }

    constructor (b: Book)
      ensures Contents() == b
    {
      txs, links, settings := b.txs, b.links, b.settings;
    }

    /** Reads all links and groups the banks by card; unclassifiable pairs are skipped. */
    method ReadAssignments() returns (byCard: map<int, set<int>>)
      ensures forall card :: BanksOf(Contents(), card) == if card in byCard then byCard[card] else {}
    {
      byCard := map[];
      var rest := links;
      ghost var done := {};
      while rest != {}
        invariant rest + done == links && rest !! done
        invariant forall card :: BanksOf(Contents().(links := done), card) == if card in byCard then byCard[card] else {}
        decreases rest
      {
        var link :| link in rest;
        if link.0 in txs && link.1 in txs {
          var pair := PairOf(link.0, txs[link.0].account, link.1, txs[link.1].account, settings);
          if pair.Some? {
            var (card, bank) := pair.value;
            byCard := byCard[card := (if card in byCard then byCard[card] else {}) + {bank}];
          }
        }
        OneMoreLink(Contents(), done, link);
        done := done + {link};
        rest := rest - {link};
      }
      assert done == links;
    }

    /** Refuses a state in which some card has several banks, one of them new. */
    method ValidateChanges(before: map<int, set<int>>) returns (ok: bool)
      ensures ok <==> forall card :: |BanksOf(Contents(), card)| > 1 ==>
                        BanksOf(Contents(), card) <= if card in before then before[card] else {}
    {
      var after := ReadAssignments();
      var cards := after.Keys;
      while cards != {}
        invariant cards <= after.Keys
        invariant forall card :: card in after && card !in cards && |after[card]| > 1 ==>
                    after[card] <= if card in before then before[card] else {}
        decreases cards
      {
        ghost var some: int := Pick(cards);
        assert some in cards;
        var card :| card in cards;
        if |after[card]| > 1 && !(after[card] <= (if card in before then before[card] else {})) {
          assert BanksOf(Contents(), card) == after[card];
          return false;
        }
        cards := cards - {card};
      }
      return true;
    }

    method AddTransactionLink(x: int, y: int) returns (ok: bool)
      modifies this`links
      ensures ok == AddLink(old(Contents()), x, y).Some?
      ensures Contents() == if ok then AddLink(old(Contents()), x, y).value else old(Contents())
      ensures ok <==> MayLink(old(Contents()), x, y)
      ensures links == if ok then old(links) + {(Smaller(x, y), Larger(x, y))} else old(links)
    {
      AddLinkExactly(Contents(), x, y);
      if x <= 0 || y <= 0 || x == y || x !in txs || y !in txs {
        return false;
      }
      var pair := PairOf(x, txs[x].account, y, txs[y].account, settings);
      if pair.None? {
        return false;
      }
      if Edge(x, y) in links {
        return true;
      }
      var others := Neighbours(Contents(), pair.value.0);
      while others != {}
        invariant others <= Neighbours(Contents(), pair.value.0)
        invariant forall n :: n in Neighbours(Contents(), pair.value.0) && n !in others ==>
                    !(n != pair.value.1 && IsBankTx(Contents(), n))
        decreases others
      {
        ghost var some: int := Pick(others);
        assert some in others;
        var n :| n in others;
        if n != pair.value.1 && Trim(txs[n].account) in Banks(settings) {
          return false;
        }
        others := others - {n};
      }
      links := links + {Edge(x, y)};
      return true;
    }

    method SaveLedgerSettings(s: Settings) returns (ok: bool)
      modifies this
      ensures ok == SaveSettings(old(Contents()), s).Some?
      ensures Contents() == if ok then SaveSettings(old(Contents()), s).value else old(Contents())
      ensures ok <==> ChangesAllowed(old(Contents()), Resettled(old(Contents()), s))
      ensures Contents() == if ok then Resettled(old(Contents()), s) else old(Contents())
    {
      SaveSettingsExactly(Contents(), s);
      var before := ReadAssignments();
      var oldSettings, oldLinks := settings, links;
      settings := s;
      links := Prune(Contents()).links;
      ok := ValidateChanges(before);
      if !ok {
        settings, links := oldSettings, oldLinks;
      }
    }

    /** The report on a bank transaction; `None` when there is no such transaction. It is
        free of conflicts exactly when every linked transaction is a card of this bank alone. */
    method Reconcile(bank: int) returns (r: Option<Report>)
      requires LinksJoined(Contents())
      ensures r.Some? <==> bank in txs
      ensures r.Some? ==> (r.value.applicable <==> IsReconcilable(Contents(), bank))
      ensures r.Some? && !r.value.applicable ==> r.value == NotApplicable
      ensures r.Some? && r.value.applicable ==>
        && r.value.cards == CardsFor(Contents(), bank)
        && r.value.total == CardTotal(Contents(), bank)
        && r.value.difference == CardTotal(Contents(), bank) - Signed(Contents(), bank)
        && (r.value.matched <==> CardTotal(Contents(), bank) == Signed(Contents(), bank))
        && (r.value.conflicts <==> InConflict(Contents(), bank))
    {
      if bank !in txs {
        return None;
      }
      if Trim(txs[bank].account) !in Banks(settings) || Trim(txs[bank].account) in Cards(settings) {
        return Some(NotApplicable);
      }
      var cards, total, conflicts := CardsAndTotal(bank);
      var byCard := ReadAssignments();
      conflicts := conflicts || exists card :: card in cards && card in byCard && |byCard[card]| > 1;
      ConflictsExactly(Contents(), bank, cards, byCard);
      var drawn := if txs[bank].income then -txs[bank].amount else txs[bank].amount;
      return Some(Report(true, cards, total, total - drawn, total == drawn, conflicts));
    }

    method CardsAndTotal(bank: int) returns (cards: set<int>, total: int, foreign: bool)
      requires LinksJoined(Contents()) && IsReconcilable(Contents(), bank)
      ensures cards == CardsFor(Contents(), bank)
      ensures total == CardTotal(Contents(), bank)
      ensures cards <= Neighbours(Contents(), bank) && (foreign <==> cards != Neighbours(Contents(), bank))
    {
      cards, total, foreign := {}, 0, false;
      var linked := Neighbours(Contents(), bank);
      ghost var listed := CardsFor(Contents(), bank);
      var rest := linked;
      while rest != {}
        invariant rest <= linked
        invariant Sifted(listed, linked, rest, cards, foreign)
        invariant total == Sum(cards, SignedIn(Contents()))
        decreases rest
      {
        ghost var some: int := Pick(rest);
        assert some in rest;
        var n :| n in rest;
        assert n in linked && n in txs;
        SiftOne(listed, linked, rest, cards, foreign, n);
        if PairOf(n, txs[n].account, bank, txs[bank].account, settings).Some? {
          assert n in listed && n !in cards;
          SumOneMore(cards, SignedIn(Contents()), n);
          total := total + if txs[n].income then -txs[n].amount else txs[n].amount;
          cards := cards + {n};
        } else {
          assert n !in listed;
          foreign := true;
        }
        rest := rest - {n};
      }
    }
  }

  /** The listed ones of those looked at so far, and whether there was any other. */
  ghost predicate Sifted(listed: set<int>, linked: set<int>, rest: set<int>, cards: set<int>, foreign: bool) {
    cards == listed - rest && cards <= linked - rest && (foreign <==> cards != linked - rest)
  }

  lemma {:induction false} SiftOne(listed: set<int>, linked: set<int>, rest: set<int>, cards: set<int>, foreign: bool, n: int)
    requires n in rest && rest <= linked && Sifted(listed, linked, rest, cards, foreign)
    ensures n !in cards
    ensures if n in listed then Sifted(listed, linked, rest - {n}, cards + {n}, foreign)
            else Sifted(listed, linked, rest - {n}, cards, true)
  {
    assert linked - (rest - {n}) == linked - rest + {n};
    if n in listed {
      assert listed - (rest - {n}) == listed - rest + {n};
    } else {
      assert listed - (rest - {n}) == listed - rest;
      assert n in linked - (rest - {n});
    }
  }

  lemma {:induction false} OneMoreLink(b: Book, done: set<(int, int)>, link: (int, int))
    ensures forall card ::
      BanksOf(b.(links := done + {link}), card)
      == BanksOf(b.(links := done), card)
         + (if LinkPair(b, link).Some? && LinkPair(b, link).value.0 == card then {LinkPair(b, link).value.1} else {})
  {
    forall card ensures
      BanksOf(b.(links := done + {link}), card)
      == BanksOf(b.(links := done), card)
         + (if LinkPair(b, link).Some? && LinkPair(b, link).value.0 == card then {LinkPair(b, link).value.1} else {})
    {
      BanksAfterOneMore(b, done, link, card);
    }
  }

  lemma {:induction false} BanksAfterOneMore(b: Book, done: set<(int, int)>, link: (int, int), card: int)
    ensures
      BanksOf(b.(links := done + {link}), card)
      == BanksOf(b.(links := done), card)
         + (if LinkPair(b, link).Some? && LinkPair(b, link).value.0 == card then {LinkPair(b, link).value.1} else {})
  {
    var more, fewer := b.(links := done + {link}), b.(links := done);
    assert forall l :: LinkPair(more, l) == LinkPair(b, l) == LinkPair(fewer, l);
  }
}
