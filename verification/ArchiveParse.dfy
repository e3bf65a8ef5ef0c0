/** Collecting the rows of an archive, with every check that needs more than one row. */
module ArchiveParse {
  import opened Options
  import opened Bytes
  import opened ArchiveRows

  const MAX_AMOUNT: int := 1_000_000_000
  const MAX_LEVEL: int := 3

  datatype Parsed = Parsed(txs: seq<Row>, images: seq<Row>, tags: seq<Row>, tagLinks: seq<(int, int)>, links: seq<(int, int)>,
                           settings: map<SettingKey, Data>)

  const Nothing := Parsed([], [], [], [], [], map[])

  function IdOf(r: Row): int {
    match r
    case TxRow(_, id, _, _, _, _, _, _, _) => id
    case ImageRow(_, id, _, _, _, _, _) => id
    case TagRow(_, id, _, _, _) => id
    case _ => 0
  }

  function Ids(rows: seq<Row>): set<int> {
    set k | 0 <= k < |rows| :: IdOf(rows[k])
  }

  /** A normal image goes through image preparation; an archived one is kept as it is. */
  function PreparedImage(rules: Rules, r: Row): Option<Row>
    requires r.ImageRow?
  {
    if r.legacy then Some(r)
    else
      var p := rules.prepare(r.filename, r.mimeType, r.data);
      if p.None? then None else Some(r.(filename := p.value.0, mimeType := p.value.1, data := p.value.2))
  }

  /** Normal root tags may not repeat a name, and no child may repeat one of a sibling. */
  predicate NameTaken(tags: seq<Row>, r: Row)
    requires r.TagRow?
  {
    if r.parent.None? then
      !r.legacy && exists k :: 0 <= k < |tags| && tags[k].TagRow? && !tags[k].legacy && tags[k].parent.None? && tags[k].name == r.name
    else exists k :: 0 <= k < |tags| && tags[k].TagRow? && tags[k].parent == r.parent && tags[k].name == r.name
  }

  function Ordered(a: int, b: int): (int, int) {
    if a > b then (b, a) else (a, b)
  }

  function ParseTx(rules: Rules, p: Parsed, r: Row): Option<Parsed>
    requires r.TxRow?
  {
    if r.id in Ids(p.txs) || !rules.accepts(r) || !PositiveId(r.amount) || (!r.legacy && r.amount > MAX_AMOUNT) then None
    else Some(p.(txs := p.txs + [r]))
  }

  function ParseImage(rules: Rules, p: Parsed, r: Row): Option<Parsed>
    requires r.ImageRow?
  {
    var image := PreparedImage(rules, r);
    if r.id in Ids(p.images) || image.None? || !rules.accepts(image.value) then None
    else Some(p.(images := p.images + [image.value]))
  }

  function ParseTag(rules: Rules, p: Parsed, r: Row): Option<Parsed>
    requires r.TagRow?
  {
    if r.id in Ids(p.tags) || !rules.accepts(r) || r.level < 1 || r.level > MAX_LEVEL || (r.parent.None? && r.level != 1)
       || NameTaken(p.tags, r)
    then None
    else Some(p.(tags := p.tags + [r]))
  }

  function ParseRow(rules: Rules, p: Parsed, r: Row): Option<Parsed> {
    match r
    case TxRow(_, _, _, _, _, _, _, _, _) => ParseTx(rules, p, r)
    case ImageRow(_, _, _, _, _, _, _) => ParseImage(rules, p, r)
    case TagRow(_, _, _, _, _) => ParseTag(rules, p, r)
    case TagLinkRow(tx, tag) =>
      if (tx, tag) in p.tagLinks then None else Some(p.(tagLinks := p.tagLinks + [(tx, tag)]))
    case LinkRow(first, second) =>
      if first == second || Ordered(first, second) in p.links then None
      else Some(p.(links := p.links + [Ordered(first, second)]))
    case SettingRow(_, key, value) =>
      if !rules.accepts(r) || key in p.settings then None else Some(p.(settings := p.settings[key := value]))
  }

  function ParseAll(rules: Rules, p: Parsed, rows: seq<Row>): Option<Parsed>
    decreases |rows|
  {
    if rows == [] then Some(p)
    else
      var next := ParseRow(rules, p, rows[0]);
      if next.None? then None else ParseAll(rules, next.value, rows[1..])
  }

  /** A tag without parent is on level 1, any other directly below its parent. */
  predicate PlacedTag(tags: seq<Row>, r: Row) {
    r.TagRow? &&
    if r.parent.None? then r.level == 1
    else exists k :: 0 <= k < |tags| && tags[k].TagRow? && tags[k].id == r.parent.value && tags[k].level + 1 == r.level
  }

  /** The checks once all rows are known: the tag hierarchy and every reference. */
  predicate Complete(p: Parsed) {
    && (forall k :: 0 <= k < |p.tags| ==> PlacedTag(p.tags, p.tags[k]))
    && (forall k :: 0 <= k < |p.images| ==> p.images[k].ImageRow? && p.images[k].tx in Ids(p.txs))
    && (forall k :: 0 <= k < |p.tagLinks| ==> p.tagLinks[k].0 in Ids(p.txs) && p.tagLinks[k].1 in Ids(p.tags))
    && (forall k :: 0 <= k < |p.links| ==> p.links[k].0 in Ids(p.txs) && p.links[k].1 in Ids(p.txs))
  }

  function Parse(rules: Rules, rows: seq<Row>): Option<Parsed> {
    var p := ParseAll(rules, Nothing, rows);
    if p.None? || !Complete(p.value) then None else p
  }

  // ----- what a parsed archive holds -----

  ghost predicate DistinctIds(rows: seq<Row>) {
    forall i, j :: 0 <= i < j < |rows| ==> IdOf(rows[i]) != IdOf(rows[j])
  }

  ghost predicate DistinctPairs(pairs: seq<(int, int)>) {
    forall i, j :: 0 <= i < j < |pairs| ==> pairs[i] != pairs[j]
  }

  ghost predicate DistinctSiblings(tags: seq<Row>) {
    forall i, j :: 0 <= i < j < |tags| && tags[i].TagRow? && tags[j].TagRow? && tags[j].parent.Some? && tags[i].parent == tags[j].parent
      ==> tags[i].name != tags[j].name
  }

  ghost predicate Consistent(p: Parsed) {
    && (forall k :: 0 <= k < |p.txs| ==> p.txs[k].TxRow? && PositiveId(p.txs[k].amount))
    && (forall k :: 0 <= k < |p.images| ==> p.images[k].ImageRow?)
    && (forall k :: 0 <= k < |p.tags| ==> p.tags[k].TagRow? && 1 <= p.tags[k].level <= MAX_LEVEL)
    && (forall k :: 0 <= k < |p.links| ==> p.links[k].0 < p.links[k].1)
    && DistinctIds(p.txs) && DistinctIds(p.images) && DistinctIds(p.tags)
    && DistinctSiblings(p.tags) && DistinctPairs(p.tagLinks) && DistinctPairs(p.links)
  }

  lemma {:induction false} IdsMember(rows: seq<Row>, k: nat)
    requires k < |rows|
    ensures IdOf(rows[k]) in Ids(rows)
  {
  }

  lemma {:induction false} NewId(rows: seq<Row>, r: Row)
    requires DistinctIds(rows) && IdOf(r) !in Ids(rows)
    ensures DistinctIds(rows + [r])
  {
    forall i, j | 0 <= i < j < |rows + [r]| ensures IdOf((rows + [r])[i]) != IdOf((rows + [r])[j]) {
      if j == |rows| { IdsMember(rows, i); }
    }
  }

  lemma {:induction false} NewPair(pairs: seq<(int, int)>, pair: (int, int))
    requires DistinctPairs(pairs) && pair !in pairs
    ensures DistinctPairs(pairs + [pair])
  {
  }

  lemma {:induction false} NewTag(tags: seq<Row>, r: Row)
    requires DistinctSiblings(tags) && r.TagRow? && !NameTaken(tags, r)
    ensures DistinctSiblings(tags + [r])
  {
  }

  lemma {:induction false} ParseRowConsistent(rules: Rules, p: Parsed, r: Row)
    requires Consistent(p) && ParseRow(rules, p, r).Some?
    ensures Consistent(ParseRow(rules, p, r).value)
  {
    match r
    case TxRow(_, _, _, _, _, _, _, _, _) => NewId(p.txs, r);
    case ImageRow(_, _, _, _, _, _, _) => NewId(p.images, PreparedImage(rules, r).value);
    case TagRow(_, _, _, _, _) =>
      NewId(p.tags, r);
      NewTag(p.tags, r);
    case TagLinkRow(tx, tag) => NewPair(p.tagLinks, (tx, tag));
    case LinkRow(first, second) => NewPair(p.links, Ordered(first, second));
    case SettingRow(_, _, _) =>
  }

  lemma {:induction false} ParseAllConsistent(rules: Rules, p: Parsed, rows: seq<Row>)
    requires Consistent(p) && ParseAll(rules, p, rows).Some?
    ensures Consistent(ParseAll(rules, p, rows).value)
    decreases |rows|
  {
    if rows != [] {
      ParseRowConsistent(rules, p, rows[0]);
      ParseAllConsistent(rules, ParseRow(rules, p, rows[0]).value, rows[1..]);
    }
  }

  lemma {:induction false} ParsedIsConsistent(rules: Rules, rows: seq<Row>)
    requires Parse(rules, rows).Some?
    ensures Consistent(Parse(rules, rows).value)
  {
    var p := Nothing;
    ParseAllConsistent(rules, p, rows);
  }

  // ----- and where it came from -----

  function Tx(r: Row): seq<Row> { if r.TxRow? then [r] else [] }

  function Tag(r: Row): seq<Row> { if r.TagRow? then [r] else [] }

  function Image(rules: Rules, r: Row): seq<Row> {
    if r.ImageRow? && PreparedImage(rules, r).Some? then [PreparedImage(rules, r).value] else []
  }

  function TagLink(r: Row): seq<(int, int)> { if r.TagLinkRow? then [(r.tx, r.tag)] else [] }

  function Link(r: Row): seq<(int, int)> { if r.LinkRow? then [Ordered(r.first, r.second)] else [] }

  function Setting(r: Row): map<SettingKey, Data> { if r.SettingRow? then map[r.key := r.value] else map[] }

  function TxRows(rows: seq<Row>): seq<Row> {
    if rows == [] then [] else Tx(rows[0]) + TxRows(rows[1..])
  }

  function TagRows(rows: seq<Row>): seq<Row> {
    if rows == [] then [] else Tag(rows[0]) + TagRows(rows[1..])
  }

  function ImageRows(rules: Rules, rows: seq<Row>): seq<Row> {
    if rows == [] then [] else Image(rules, rows[0]) + ImageRows(rules, rows[1..])
  }

  function TagLinkPairs(rows: seq<Row>): seq<(int, int)> {
    if rows == [] then [] else TagLink(rows[0]) + TagLinkPairs(rows[1..])
  }

  function LinkPairs(rows: seq<Row>): seq<(int, int)> {
    if rows == [] then [] else Link(rows[0]) + LinkPairs(rows[1..])
  }

  function Settings(rows: seq<Row>): map<SettingKey, Data> {
    if rows == [] then map[] else Setting(rows[0]) + Settings(rows[1..])
  }

  /** Parsing collects the rows of each kind in their order. */
  ghost predicate Collects(rules: Rules, p: Parsed, rows: seq<Row>, q: Parsed) {
    && q.txs == p.txs + TxRows(rows)
    && q.images == p.images + ImageRows(rules, rows)
    && q.tags == p.tags + TagRows(rows)
    && q.tagLinks == p.tagLinks + TagLinkPairs(rows)
    && q.links == p.links + LinkPairs(rows)
    && q.settings == p.settings + Settings(rows)
    && p.settings.Keys !! Settings(rows).Keys
  }

  lemma {:induction false} CollectsNothing(rules: Rules, p: Parsed)
    ensures Collects(rules, p, [], p)
  {
    assert p.txs + [] == p.txs && p.images + [] == p.images && p.tags + [] == p.tags;
    assert p.tagLinks + [] == p.tagLinks && p.links + [] == p.links && p.settings + map[] == p.settings;
  }

  lemma {:induction false} ParseRowAdds(rules: Rules, p: Parsed, r: Row)
    requires ParseRow(rules, p, r).Some?
    ensures var q := ParseRow(rules, p, r).value;
      && q.txs == p.txs + Tx(r) && q.images == p.images + Image(rules, r) && q.tags == p.tags + Tag(r)
      && q.tagLinks == p.tagLinks + TagLink(r) && q.links == p.links + Link(r)
      && q.settings == p.settings + Setting(r) && p.settings.Keys !! Setting(r).Keys
  {
    CollectsNothing(rules, p);
  }

  lemma {:induction false} Regroup<T>(a: seq<T>, b: seq<T>, c: seq<T>)
    ensures a + b + c == a + (b + c)
  {
  }

  lemma {:induction false} RegroupSettings(a: map<SettingKey, Data>, b: map<SettingKey, Data>, c: map<SettingKey, Data>)
    ensures a + b + c == a + (b + c)
    ensures a.Keys !! b.Keys && (a + b).Keys !! c.Keys ==> a.Keys !! (b + c).Keys
  {
  }

  lemma {:induction false} ParseAllCollects(rules: Rules, p: Parsed, rows: seq<Row>)
    requires ParseAll(rules, p, rows).Some?
    ensures Collects(rules, p, rows, ParseAll(rules, p, rows).value)
    decreases |rows|
  {
    if rows == [] {
      CollectsNothing(rules, p);
    } else {
      var r, rest := rows[0], rows[1..];
      ParseRowAdds(rules, p, r);
      ParseAllCollects(rules, ParseRow(rules, p, r).value, rest);
      Regroup(p.txs, Tx(r), TxRows(rest));
      Regroup(p.images, Image(rules, r), ImageRows(rules, rest));
      Regroup(p.tags, Tag(r), TagRows(rest));
      Regroup(p.tagLinks, TagLink(r), TagLinkPairs(rest));
      Regroup(p.links, Link(r), LinkPairs(rest));
      RegroupSettings(p.settings, Setting(r), Settings(rest));
    }
  }

  /** The parsed archive is the rows, kind by kind and in order. */
  lemma {:induction false} ParsedIsRows(rules: Rules, rows: seq<Row>)
    requires Parse(rules, rows).Some?
    ensures var p := Parse(rules, rows).value;
      && p.txs == TxRows(rows) && p.images == ImageRows(rules, rows) && p.tags == TagRows(rows)
      && p.tagLinks == TagLinkPairs(rows) && p.links == LinkPairs(rows) && p.settings == Settings(rows)
  {
    var p := Nothing;
    ParseAllCollects(rules, p, rows);
    FromNothing(rules, rows, ParseAll(rules, p, rows).value);
  }

  lemma {:induction false} FromNothing(rules: Rules, rows: seq<Row>, q: Parsed)
    requires Collects(rules, Nothing, rows, q)
    ensures q.txs == TxRows(rows) && q.images == ImageRows(rules, rows) && q.tags == TagRows(rows)
    ensures q.tagLinks == TagLinkPairs(rows) && q.links == LinkPairs(rows) && q.settings == Settings(rows)
  {
  }
}
