/** The loops that parse an archive and restore its tags and links. */
module ArchiveReader {
  import opened Options
  import opened Bytes
  import opened ArchiveRows
  import opened ArchiveParse
  import opened ArchiveTags
  import ArchiveImport
  import CardLinks

  // ----- parsing -----

  lemma {:induction false} ParseSnoc(rules: Rules, p: Parsed, rows: seq<Row>, r: Row)
    ensures ParseAll(rules, p, rows + [r])
         == if ParseAll(rules, p, rows).None? then None else ParseRow(rules, ParseAll(rules, p, rows).value, r)
    decreases |rows|
  {
    if rows == [] {
      assert rows + [r] == [r] && [r][1..] == [];
    } else {
      assert (rows + [r])[0] == rows[0] && (rows + [r])[1..] == rows[1..] + [r];
      var next := ParseRow(rules, p, rows[0]);
      if next.Some? { ParseSnoc(rules, next.value, rows[1..], r); }
    }
  }

  lemma {:induction false} ParseStep(rules: Rules, rows: seq<Row>, k: nat)
    requires k < |rows| && ParseAll(rules, Nothing, rows[..k]).Some?
    ensures ParseAll(rules, Nothing, rows[..k + 1]) == ParseRow(rules, ParseAll(rules, Nothing, rows[..k]).value, rows[k])
  {
    assert rows[..k + 1] == rows[..k] + [rows[k]];
    ParseSnoc(rules, Nothing, rows[..k], rows[k]);
  }

  lemma {:induction false} ParseFails(rules: Rules, p: Parsed, rows: seq<Row>, k: nat)
    requires k <= |rows| && ParseAll(rules, p, rows[..k]).None?
    ensures ParseAll(rules, p, rows).None?
    decreases |rows|
  {
    if rows != [] && k > 0 {
      assert rows[..k][0] == rows[0] && rows[..k][1..] == rows[1..][..k - 1];
      var next := ParseRow(rules, p, rows[0]);
      if next.Some? { ParseFails(rules, next.value, rows[1..], k - 1); }
    }
  }

  /** Names that normal roots have taken, and children below their parents. */
  function RootNames(tags: seq<Row>): set<Data> {
    set k | 0 <= k < |tags| && tags[k].TagRow? && !tags[k].legacy && tags[k].parent.None? :: tags[k].name
  }

  function ChildNames(tags: seq<Row>): set<(int, Data)> {
    set k | 0 <= k < |tags| && tags[k].TagRow? && tags[k].parent.Some? :: (tags[k].parent.value, tags[k].name)
  }

  lemma {:induction false} NamesDecide(tags: seq<Row>, r: Row)
    requires r.TagRow?
    ensures NameTaken(tags, r) <==>
      if r.parent.None? then !r.legacy && r.name in RootNames(tags) else (r.parent.value, r.name) in ChildNames(tags)
  {
  }

  lemma {:induction false} SetsGrow(rows: seq<Row>, r: Row)
    ensures Ids(rows + [r]) == Ids(rows) + {IdOf(r)}
    ensures r.TagRow? ==>
      && RootNames(rows + [r]) == RootNames(rows) + (if !r.legacy && r.parent.None? then {r.name} else {})
      && ChildNames(rows + [r]) == ChildNames(rows) + (if r.parent.Some? then {(r.parent.value, r.name)} else {})
  {
    var more := rows + [r];
    assert more[|rows|] == r;
    assert forall k :: 0 <= k < |rows| ==> more[k] == rows[k];
  }

  /** Collects the rows one by one, remembering what has been seen. */
  method ParseRows(rules: Rules, rows: seq<Row>) returns (r: Option<Parsed>)
    ensures r == ParseAll(rules, Nothing, rows)
  {
    var p := Nothing;
    var txIds, imageIds, tagIds: set<int> := {}, {}, {};
    var rootNames: set<Data> := {};
    var childNames: set<(int, Data)> := {};
    for k := 0 to |rows|
      invariant ParseAll(rules, Nothing, rows[..k]) == Some(p)
      invariant txIds == Ids(p.txs) && imageIds == Ids(p.images) && tagIds == Ids(p.tags)
      invariant rootNames == RootNames(p.tags) && childNames == ChildNames(p.tags)
    {
      ParseStep(rules, rows, k);
      var row := rows[k];
      ghost var target := ParseRow(rules, p, row);
      if target.None? { ParseFails(rules, Nothing, rows, k + 1); }
      match row {
        case TxRow(_, id, _, _, _, _, amount, _, _) =>
          if id in txIds || !rules.accepts(row) || !PositiveId(amount) || (!row.legacy && amount > MAX_AMOUNT) {
            return None;
          }
          SetsGrow(p.txs, row);
          txIds := txIds + {id};
          p := p.(txs := p.txs + [row]);
        case ImageRow(_, id, _, _, _, _, _) =>
          var image := PreparedImage(rules, row);
          if id in imageIds || image.None? || !rules.accepts(image.value) {
            return None;
          }
          SetsGrow(p.images, image.value);
          imageIds := imageIds + {id};
          p := p.(images := p.images + [image.value]);
        case TagRow(legacy, id, name, parent, level) =>
          NamesDecide(p.tags, row);
          if id in tagIds || !rules.accepts(row) || level < 1 || level > MAX_LEVEL || (parent.None? && level != 1) {
            return None;
          }
          if parent.None? {
            if !legacy {
              if name in rootNames {
                return None;
              }
              rootNames := rootNames + {name};
            }
          } else {
            if (parent.value, name) in childNames {
              return None;
            }
            childNames := childNames + {(parent.value, name)};
          }
          SetsGrow(p.tags, row);
          tagIds := tagIds + {id};
          p := p.(tags := p.tags + [row]);
        case TagLinkRow(tx, tag) =>
          if (tx, tag) in p.tagLinks {
            return None;
          }
          p := p.(tagLinks := p.tagLinks + [(tx, tag)]);
        case LinkRow(first, second) =>
          if first == second || Ordered(first, second) in p.links {
            return None;
          }
          p := p.(links := p.links + [Ordered(first, second)]);
        case SettingRow(_, key, value) =>
          if !rules.accepts(row) || key in p.settings {
            return None;
          }
          p := p.(settings := p.settings[key := value]);
      }
    }
    assert rows[..|rows|] == rows;
    return Some(p);
  }

  // ----- restoring tags -----

  function ThenHigher(known: seq<KnownTag>, base: int, all: seq<Row>, s: Option<TagState>, level: int): Option<TagState>
    requires forall i :: 0 <= i < |all| ==> IsTag(all[i])
  {
    if s.None? then None else InsertFrom(known, base, all, s.value, level + 1)
  }

  /** Inserts the tags level by level, so that every parent is there before its children. */
  method RestoreTags(known: seq<KnownTag>, base: int, all: seq<Row>) returns (r: Option<TagState>)
    requires forall i :: 0 <= i < |all| ==> IsTag(all[i])
    ensures r == InsertInto(known, base, all)
  {
    var s := TagState(map[], []);
    var level := 1;
    while level <= MAX_LEVEL
      invariant 1 <= level <= MAX_LEVEL + 1
      invariant InsertInto(known, base, all) == InsertFrom(known, base, all, s, level)
    {
      for k := 0 to |all|
        invariant InsertInto(known, base, all) == ThenHigher(known, base, all, InsertLevel(known, base, all, s, level, k), level)
      {
        assert IsTag(all[k]);
        if all[k].level == level {
          var next := InsertTag(known, base, all, s, all[k]);
          if next.None? {
            return None;
          }
          s := next.value;
        }
      }
      level := level + 1;
    }
    return Some(s);
  }

  // ----- restoring links -----

  /** Renames, checks and inserts the links one by one. */
  method RestoreLinks(b: CardLinks.Book, ids: map<int, int>, pairs: seq<(int, int)>) returns (r: Option<CardLinks.Book>)
    ensures r == ArchiveImport.AddLinks(b, ids, pairs)
  {
    var book := b;
    assert pairs[0..] == pairs;
    for k := 0 to |pairs|
      invariant ArchiveImport.AddLinks(b, ids, pairs) == ArchiveImport.AddLinks(book, ids, pairs[k..])
    {
      assert pairs[k..][1..] == pairs[k + 1..];
      if pairs[k].0 !in ids || pairs[k].1 !in ids {
        return None;
      }
      var first, second := ids[pairs[k].0], ids[pairs[k].1];
      var edge := if first > second then (second, first) else (first, second);
      if edge.0 !in book.txs || edge.1 !in book.txs {
        return None;
      }
      var pair := CardLinks.PairOf(edge.0, book.txs[edge.0].account, edge.1, book.txs[edge.1].account, book.settings);
      if pair.None? || edge in book.links {
        return None;
      }
      book := book.(links := book.links + {edge});
    }
    return Some(book);
  }
}
