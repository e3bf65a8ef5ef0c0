/** Restoring the tags of an archive under new ids, level by level, beside the tags that
    are there already. A replace finds none. */
module ArchiveTags {
  import opened Options
  import opened Bytes
  import opened ArchiveRows
  import opened ArchiveParse

  /** A stored tag; `duplicate` marks a root that repeats the name of an earlier one. */
  datatype NewTag = NewTag(name: Data, parent: Option<int>, level: int, duplicate: bool)

  datatype KnownTag = KnownTag(id: int, tag: NewTag)

  /** The ids given so far and the tags inserted so far; the k-th tag has id `base + k`. */
  datatype TagState = TagState(ids: map<int, int>, tags: seq<NewTag>)

  predicate IsTag(r: Row) {
    r.TagRow?
  }

  predicate SameRoot(r: Row, t: Row) {
    r.TagRow? && t.TagRow? && r.parent.None? && t.parent.None? && r.name == t.name
  }

  /** Of several roots with one name, all but the one with the smallest id are marked. */
  predicate IsDuplicate(all: seq<Row>, r: Row) {
    exists k :: 0 <= k < |all| && SameRoot(all[k], r) && IdOf(all[k]) < IdOf(r)
  }

  predicate Matches(t: NewTag, name: Data, parent: Option<int>) {
    t.name == name && t.parent == parent && (parent.None? ==> !t.duplicate)
  }

  /** An inserted tag of that name in that place. */
  function Find(tags: seq<NewTag>, name: Data, parent: Option<int>): (r: Option<nat>)
    ensures r.Some? ==> r.value < |tags| && Matches(tags[r.value], name, parent)
    ensures r.None? ==> forall k :: 0 <= k < |tags| ==> !Matches(tags[k], name, parent)
  {
    if tags == [] then None
    else
      var n := |tags| - 1;
      if Matches(tags[n], name, parent) then Some(n) else Find(tags[..n], name, parent)
  }

  /** A tag of that name in that place which was there before. */
  function FindKnown(known: seq<KnownTag>, name: Data, parent: Option<int>): (r: Option<nat>)
    ensures r.Some? ==> r.value < |known| && Matches(known[r.value].tag, name, parent)
    ensures r.None? ==> forall k :: 0 <= k < |known| ==> !Matches(known[k].tag, name, parent)
  {
    if known == [] then None
    else
      var n := |known| - 1;
      if Matches(known[n].tag, name, parent) then Some(n) else FindKnown(known[..n], name, parent)
  }

  function Existing(known: seq<KnownTag>, base: int, tags: seq<NewTag>, name: Data, parent: Option<int>): Option<int> {
    var before, inserted := FindKnown(known, name, parent), Find(tags, name, parent);
    if before.Some? then Some(known[before.value].id)
    else if inserted.Some? then Some(base + inserted.value)
    else None
  }

  function NewParent(s: TagState, r: Row): Option<int>
    requires r.TagRow? && (r.parent.Some? ==> r.parent.value in s.ids)
  {
    if r.parent.None? then None else Some(s.ids[r.parent.value])
  }

  function InsertTag(known: seq<KnownTag>, base: int, all: seq<Row>, s: TagState, r: Row): Option<TagState>
    requires r.TagRow?
  {
    if r.parent.Some? && r.parent.value !in s.ids then None
    else
      var parent, duplicate := NewParent(s, r), IsDuplicate(all, r);
      var existing := if duplicate then None else Existing(known, base, s.tags, r.name, parent);
      if existing.Some? then Some(s.(ids := s.ids[r.id := existing.value]))
      else Some(TagState(s.ids[r.id := base + |s.tags|], s.tags + [NewTag(r.name, parent, r.level, duplicate)]))
  }

  function InsertAt(known: seq<KnownTag>, base: int, all: seq<Row>, s: TagState, level: int, r: Row): Option<TagState>
    requires r.TagRow?
  {
    if r.level == level then InsertTag(known, base, all, s, r) else Some(s)
  }

  /** One pass over the rows inserts those of one level, from the k-th on. */
  function InsertLevel(known: seq<KnownTag>, base: int, all: seq<Row>, s: TagState, level: int, k: nat): Option<TagState>
    requires k <= |all| && forall i :: 0 <= i < |all| ==> IsTag(all[i])
    decreases |all| - k
  {
    if k == |all| then Some(s)
    else
      assert IsTag(all[k]);
      var next := InsertAt(known, base, all, s, level, all[k]);
      if next.None? then None else InsertLevel(known, base, all, next.value, level, k + 1)
  }

  function InsertFrom(known: seq<KnownTag>, base: int, all: seq<Row>, s: TagState, level: int): Option<TagState>
    requires forall i :: 0 <= i < |all| ==> IsTag(all[i])
    decreases MAX_LEVEL + 1 - level
  {
    if level > MAX_LEVEL then Some(s)
    else
      var next := InsertLevel(known, base, all, s, level, 0);
      if next.None? then None else InsertFrom(known, base, all, next.value, level + 1)
  }

  function InsertInto(known: seq<KnownTag>, base: int, all: seq<Row>): Option<TagState>
    requires forall i :: 0 <= i < |all| ==> IsTag(all[i])
  {
    InsertFrom(known, base, all, TagState(map[], []), 1)
  }

  function InsertTags(base: int, all: seq<Row>): Option<TagState>
    requires forall i :: 0 <= i < |all| ==> IsTag(all[i])
  {
    InsertInto([], base, all)
  }

  // ----- no two rows share a tag -----

  ghost predicate Unmixed(all: seq<Row>) {
    && (forall i :: 0 <= i < |all| ==> IsTag(all[i]))
    && DistinctIds(all) && DistinctSiblings(all)
  }

  /** New ids are larger than those in use. */
  ghost predicate KnownBelow(known: seq<KnownTag>, base: int) {
    forall i :: 0 <= i < |known| ==> known[i].id < base
  }

  ghost predicate IsKnown(known: seq<KnownTag>, id: int, name: Data, parent: Option<int>) {
    exists i :: 0 <= i < |known| && known[i].id == id && Matches(known[i].tag, name, parent)
  }

  /** A row has got a tag that was there, of its name and place; or one of its own, and
      then it is a repeated root or there was none. */
  ghost predicate Seated(known: seq<KnownTag>, base: int, all: seq<Row>, s: TagState, r: Row) {
    && r.TagRow? && r.id in s.ids
    && (r.parent.Some? ==> r.parent.value in s.ids)
    && if s.ids[r.id] < base then !IsDuplicate(all, r) && IsKnown(known, s.ids[r.id], r.name, NewParent(s, r))
       else && s.ids[r.id] < base + |s.tags|
            && s.tags[s.ids[r.id] - base] == NewTag(r.name, NewParent(s, r), r.level, IsDuplicate(all, r))
            && (IsDuplicate(all, r) || FindKnown(known, r.name, NewParent(s, r)).None?)
  }

  ghost predicate SeatedRows(known: seq<KnownTag>, base: int, all: seq<Row>, s: TagState) {
    forall k :: 0 <= k < |all| && IdOf(all[k]) in s.ids ==> Seated(known, base, all, s, all[k])
  }

  ghost predicate FromRows(all: seq<Row>, s: TagState) {
    forall id :: id in s.ids ==> id in Ids(all)
  }

  ghost predicate Apart(s: TagState) {
    forall a, b :: a in s.ids && b in s.ids && s.ids[a] == s.ids[b] ==> a == b
  }

  ghost predicate Owned(base: int, s: TagState) {
    forall j :: 0 <= j < |s.tags| ==> HasOwner(base, s, j)
  }

  ghost predicate HasOwner(base: int, s: TagState, j: int) {
    exists id :: id in s.ids && s.ids[id] == base + j
  }

  ghost predicate Good(known: seq<KnownTag>, base: int, all: seq<Row>, s: TagState) {
    SeatedRows(known, base, all, s) && FromRows(all, s) && Apart(s) && Owned(base, s)
  }

  lemma {:induction false} RowOf(all: seq<Row>, id: int) returns (k: nat)
    requires id in Ids(all)
    ensures k < |all| && IdOf(all[k]) == id
  {
    var i :| 0 <= i < |all| && IdOf(all[i]) == id;
    k := i;
  }

  lemma {:induction false} SameNewId(s: TagState, a: int, b: int)
    requires Apart(s) && a in s.ids && b in s.ids && s.ids[a] == s.ids[b]
    ensures a == b
  {
  }

  /** Two different rows never match: normal roots differ in name, and siblings do. */
  lemma {:induction false} RowsDiffer(all: seq<Row>, s: TagState, i: nat, j: nat)
    requires Unmixed(all) && Apart(s) && i < |all| && j < |all| && i != j
    requires all[i].parent.Some? ==> all[i].parent.value in s.ids
    requires all[j].parent.Some? ==> all[j].parent.value in s.ids
    requires !IsDuplicate(all, all[i]) && !IsDuplicate(all, all[j])
    ensures all[i].name != all[j].name || NewParent(s, all[i]) != NewParent(s, all[j])
  {
    var r, t := all[i], all[j];
    assert IsTag(r) && IsTag(t) && IdOf(t) != IdOf(r);
    if r.name == t.name && NewParent(s, r) == NewParent(s, t) {
      if r.parent.None? {
        assert SameRoot(t, r) && SameRoot(r, t);
      } else {
        SameNewId(s, r.parent.value, t.parent.value);
      }
    }
  }

  /** So no tag inserted for another row is one to merge with. */
  lemma {:induction false} NothingToMerge(known: seq<KnownTag>, base: int, all: seq<Row>, s: TagState, i: nat)
    requires Unmixed(all) && Good(known, base, all, s) && i < |all| && all[i].TagRow?
    requires IdOf(all[i]) !in s.ids && !IsDuplicate(all, all[i])
    requires all[i].parent.Some? ==> all[i].parent.value in s.ids
    ensures Find(s.tags, all[i].name, NewParent(s, all[i])).None?
  {
    forall j | 0 <= j < |s.tags| ensures !Matches(s.tags[j], all[i].name, NewParent(s, all[i])) {
      assert HasOwner(base, s, j);
      var id :| id in s.ids && s.ids[id] == base + j;
      var k := RowOf(all, id);
      assert Seated(known, base, all, s, all[k]);
      if s.tags[j].duplicate {
        DuplicateIsRoot(all, all[k]);
      } else {
        RowsDiffer(all, s, i, k);
      }
    }
  }

  lemma {:induction false} DuplicateIsRoot(all: seq<Row>, r: Row)
    requires r.TagRow? && IsDuplicate(all, r)
    ensures r.parent.None?
  {
  }

  /** What one insertion does: it takes the known tag of that name and place, or adds one. */
  lemma {:induction false} InsertIs(known: seq<KnownTag>, base: int, all: seq<Row>, s: TagState, i: nat)
    requires Unmixed(all) && Good(known, base, all, s) && i < |all| && all[i].TagRow?
    requires IdOf(all[i]) !in s.ids && InsertTag(known, base, all, s, all[i]).Some?
    ensures var r := all[i];
      && (r.parent.Some? ==> r.parent.value in s.ids)
      && var found := FindKnown(known, r.name, NewParent(s, r));
      && InsertTag(known, base, all, s, r)
         == if !IsDuplicate(all, r) && found.Some? then Some(s.(ids := s.ids[r.id := known[found.value].id]))
            else Some(TagState(s.ids[r.id := base + |s.tags|], s.tags + [NewTag(r.name, NewParent(s, r), r.level, IsDuplicate(all, r))]))
  {
    if !IsDuplicate(all, all[i]) {
      NothingToMerge(known, base, all, s, i);
    }
  }

  ghost predicate Extends(s: TagState, after: TagState) {
    s.tags <= after.tags && forall id :: id in s.ids ==> id in after.ids && after.ids[id] == s.ids[id]
  }

  lemma {:induction false} IdStays(s: TagState, after: TagState, id: int)
    requires Extends(s, after) && id in s.ids
    ensures id in after.ids && after.ids[id] == s.ids[id]
  {
  }

  lemma {:induction false} SeatedStays(known: seq<KnownTag>, base: int, all: seq<Row>, s: TagState, r: Row, after: TagState)
    requires Seated(known, base, all, s, r)
    requires Extends(s, after)
    ensures Seated(known, base, all, after, r)
  {
    IdStays(s, after, r.id);
    if r.parent.Some? { IdStays(s, after, r.parent.value); }
    assert NewParent(after, r) == NewParent(s, r);
  }

  /** The row's tag is in place and the others stay. */
  lemma {:induction false} NextSeated(known: seq<KnownTag>, base: int, all: seq<Row>, s: TagState, i: nat, after: TagState)
    requires Unmixed(all) && SeatedRows(known, base, all, s) && i < |all| && all[i].TagRow? && IdOf(all[i]) !in s.ids
    requires after.ids.Keys == s.ids.Keys + {IdOf(all[i])}
    requires Extends(s, after)
    requires Seated(known, base, all, after, all[i])
    ensures SeatedRows(known, base, all, after)
  {
    forall k | 0 <= k < |all| && IdOf(all[k]) in after.ids ensures Seated(known, base, all, after, all[k]) {
      assert IdOf(all[k]) in after.ids.Keys;
      if IdOf(all[k]) in s.ids {
        SeatedStays(known, base, all, s, all[k], after);
      } else {
        assert k == i;
      }
    }
  }

  lemma {:induction false} IdsBelow(known: seq<KnownTag>, base: int, all: seq<Row>, s: TagState)
    requires SeatedRows(known, base, all, s) && FromRows(all, s)
    ensures forall id :: id in s.ids ==> s.ids[id] < base + |s.tags|
  {
    forall id | id in s.ids ensures s.ids[id] < base + |s.tags| {
      var k := RowOf(all, id);
      assert Seated(known, base, all, s, all[k]);
    }
  }

  /** No other row has the known tag that a row is merged with. */
  lemma {:induction false} KnownTagIsFree(known: seq<KnownTag>, base: int, all: seq<Row>, s: TagState, i: nat, at: nat)
    requires Unmixed(all) && Good(known, base, all, s) && KnownBelow(known, base) && KnownApart(known)
    requires i < |all| && all[i].TagRow? && IdOf(all[i]) !in s.ids && !IsDuplicate(all, all[i])
    requires all[i].parent.Some? ==> all[i].parent.value in s.ids
    requires at < |known| && Matches(known[at].tag, all[i].name, NewParent(s, all[i]))
    ensures forall id :: id in s.ids ==> s.ids[id] != known[at].id
  {
    forall id | id in s.ids ensures s.ids[id] != known[at].id {
      if s.ids[id] == known[at].id {
        var k := RowOf(all, id);
        assert Seated(known, base, all, s, all[k]);
        assert known[at].id < base;
        var n :| 0 <= n < |known| && known[n].id == s.ids[id] && Matches(known[n].tag, all[k].name, NewParent(s, all[k]));
        assert n == at;
        RowsDiffer(all, s, i, k);
      }
    }
  }

  ghost predicate KnownApart(known: seq<KnownTag>) {
    forall i, j :: 0 <= i < |known| && 0 <= j < |known| && known[i].id == known[j].id ==> i == j
  }

  lemma {:induction false} MergeKeepsGood(known: seq<KnownTag>, base: int, all: seq<Row>, s: TagState, i: nat, at: nat)
    requires Unmixed(all) && Good(known, base, all, s) && KnownBelow(known, base) && KnownApart(known)
    requires i < |all| && all[i].TagRow? && IdOf(all[i]) !in s.ids && !IsDuplicate(all, all[i])
    requires all[i].parent.Some? ==> all[i].parent.value in s.ids
    requires at < |known| && Matches(known[at].tag, all[i].name, NewParent(s, all[i]))
    ensures Good(known, base, all, s.(ids := s.ids[all[i].id := known[at].id]))
  {
    var after := s.(ids := s.ids[all[i].id := known[at].id]);
    KnownTagIsFree(known, base, all, s, i, at);
    assert NewParent(after, all[i]) == NewParent(s, all[i]);
    assert known[at].id < base && IsKnown(known, known[at].id, all[i].name, NewParent(after, all[i]));
    NextSeated(known, base, all, s, i, after);
    IdsMember(all, i);
    forall j | 0 <= j < |after.tags| ensures HasOwner(base, after, j) {
      assert HasOwner(base, s, j);
      var id :| id in s.ids && s.ids[id] == base + j;
      assert after.ids[id] == base + j;
    }
  }

  lemma {:induction false} AppendKeepsGood(known: seq<KnownTag>, base: int, all: seq<Row>, s: TagState, i: nat, after: TagState)
    requires Unmixed(all) && Good(known, base, all, s) && i < |all| && all[i].TagRow? && IdOf(all[i]) !in s.ids
    requires all[i].parent.Some? ==> all[i].parent.value in s.ids
    requires IsDuplicate(all, all[i]) || FindKnown(known, all[i].name, NewParent(s, all[i])).None?
    requires after == TagState(s.ids[all[i].id := base + |s.tags|],
                               s.tags + [NewTag(all[i].name, NewParent(s, all[i]), all[i].level, IsDuplicate(all, all[i]))])
    ensures Good(known, base, all, after)
  {
    assert NewParent(after, all[i]) == NewParent(s, all[i]);
    NextSeated(known, base, all, s, i, after);
    IdsMember(all, i);
    IdsBelow(known, base, all, s);
    assert Apart(after);
    forall j | 0 <= j < |after.tags| ensures HasOwner(base, after, j) {
      if j < |s.tags| {
        assert HasOwner(base, s, j);
        var id :| id in s.ids && s.ids[id] == base + j;
        assert after.ids[id] == base + j;
      } else {
        assert after.ids[all[i].id] == base + j;
      }
    }
  }

  lemma {:induction false} InsertKeepsGood(known: seq<KnownTag>, base: int, all: seq<Row>, s: TagState, i: nat)
    requires Unmixed(all) && Good(known, base, all, s) && KnownBelow(known, base) && KnownApart(known)
    requires i < |all| && all[i].TagRow? && IdOf(all[i]) !in s.ids && InsertTag(known, base, all, s, all[i]).Some?
    ensures var after := InsertTag(known, base, all, s, all[i]).value;
      Good(known, base, all, after) && after.ids.Keys == s.ids.Keys + {IdOf(all[i])}
  {
    InsertIs(known, base, all, s, i);
    var found := FindKnown(known, all[i].name, NewParent(s, all[i]));
    if !IsDuplicate(all, all[i]) && found.Some? {
      MergeKeepsGood(known, base, all, s, i, found.value);
    } else {
      AppendKeepsGood(known, base, all, s, i, InsertTag(known, base, all, s, all[i]).value);
    }
  }

  // ----- the passes -----

  /** The rows of lower levels, and those of this one before the k-th, have their tag; no others. */
  ghost predicate Progress(all: seq<Row>, s: TagState, level: int, k: nat) {
    forall i :: 0 <= i < |all| && all[i].TagRow? ==>
      (IdOf(all[i]) in s.ids <==> all[i].level < level || (all[i].level == level && i < k))
  }

  lemma {:induction false} ProgressStep(all: seq<Row>, s: TagState, level: int, k: nat, after: TagState)
    requires Unmixed(all) && Progress(all, s, level, k) && k < |all| && all[k].TagRow?
    requires if all[k].level == level then after.ids.Keys == s.ids.Keys + {IdOf(all[k])} else after == s
    ensures Progress(all, after, level, k + 1)
  {
    forall i | 0 <= i < |all| && all[i].TagRow?
      ensures IdOf(all[i]) in after.ids <==> all[i].level < level || (all[i].level == level && i < k + 1)
    {
      assert i != k ==> IdOf(all[i]) != IdOf(all[k]);
      assert IdOf(all[i]) in after.ids <==> IdOf(all[i]) in after.ids.Keys;
    }
  }

  lemma {:induction false} NotYet(all: seq<Row>, s: TagState, level: int, k: nat)
    requires Progress(all, s, level, k) && k < |all| && all[k].TagRow? && all[k].level == level
    ensures IdOf(all[k]) !in s.ids
  {
  }

  lemma {:induction false} NextLevel(all: seq<Row>, s: TagState, level: int)
    requires Progress(all, s, level, |all|)
    ensures Progress(all, s, level + 1, 0)
  {
  }

  ghost predicate AllPlacedRows(all: seq<Row>) {
    forall k :: 0 <= k < |all| ==> PlacedTag(all, all[k])
  }

  /** When a row's turn comes its parent, one level up, has its new id. */
  lemma {:induction false} ParentIsThere(all: seq<Row>, s: TagState, level: int, k: nat)
    requires AllPlacedRows(all) && Progress(all, s, level, k) && k < |all| && all[k].TagRow? && all[k].level == level
    ensures all[k].parent.Some? ==> all[k].parent.value in s.ids
  {
    assert PlacedTag(all, all[k]);
    if all[k].parent.Some? {
      var j :| 0 <= j < |all| && all[j].TagRow? && all[j].id == all[k].parent.value && all[j].level + 1 == all[k].level;
      assert IdOf(all[j]) in s.ids;
    }
  }

  /** A pass gets through, where every parent is there, and leaves good tags up to a row. */
  ghost predicate Passes(known: seq<KnownTag>, base: int, all: seq<Row>, next: Option<TagState>, level: int, k: nat) {
    && (AllPlacedRows(all) ==> next.Some?)
    && (next.Some? ==> Good(known, base, all, next.value) && Progress(all, next.value, level, k))
  }

  lemma {:induction false} RowKeepsGood(known: seq<KnownTag>, base: int, all: seq<Row>, s: TagState, level: int, k: nat)
    requires Unmixed(all) && KnownBelow(known, base) && KnownApart(known) && Good(known, base, all, s) && Progress(all, s, level, k)
    requires k < |all| && all[k].TagRow?
    ensures Passes(known, base, all, InsertAt(known, base, all, s, level, all[k]), level, k + 1)
  {
    if all[k].level != level {
      ProgressStep(all, s, level, k, s);
    } else {
      NotYet(all, s, level, k);
      if AllPlacedRows(all) { ParentIsThere(all, s, level, k); }
      if InsertTag(known, base, all, s, all[k]).Some? {
        InsertKeepsGood(known, base, all, s, k);
        ProgressStep(all, s, level, k, InsertTag(known, base, all, s, all[k]).value);
      }
    }
  }

  lemma {:induction false} LevelKeepsGood(known: seq<KnownTag>, base: int, all: seq<Row>, s: TagState, level: int, k: nat)
    requires Unmixed(all) && KnownBelow(known, base) && KnownApart(known) && Good(known, base, all, s) && Progress(all, s, level, k)
    requires k <= |all| && forall i :: 0 <= i < |all| ==> IsTag(all[i])
    ensures Passes(known, base, all, InsertLevel(known, base, all, s, level, k), level, |all|)
    decreases |all| - k
  {
    if k < |all| {
      assert IsTag(all[k]);
      RowKeepsGood(known, base, all, s, level, k);
      var next := InsertAt(known, base, all, s, level, all[k]);
      if next.Some? {
        LevelKeepsGood(known, base, all, next.value, level, k + 1);
        assert InsertLevel(known, base, all, s, level, k) == InsertLevel(known, base, all, next.value, level, k + 1);
      } else {
        assert InsertLevel(known, base, all, s, level, k) == None;
      }
    }
  }

  lemma {:induction false} FromKeepsGood(known: seq<KnownTag>, base: int, all: seq<Row>, s: TagState, level: int)
    requires Unmixed(all) && KnownBelow(known, base) && KnownApart(known) && Good(known, base, all, s) && Progress(all, s, level, 0)
    requires level <= MAX_LEVEL + 1 && forall i :: 0 <= i < |all| ==> IsTag(all[i])
    ensures Passes(known, base, all, InsertFrom(known, base, all, s, level), MAX_LEVEL + 1, 0)
    decreases MAX_LEVEL + 1 - level
  {
    if level <= MAX_LEVEL {
      LevelKeepsGood(known, base, all, s, level, 0);
      var next := InsertLevel(known, base, all, s, level, 0);
      if next.Some? {
        NextLevel(all, next.value, level);
        FromKeepsGood(known, base, all, next.value, level + 1);
        assert InsertFrom(known, base, all, s, level) == InsertFrom(known, base, all, next.value, level + 1);
      } else {
        assert InsertFrom(known, base, all, s, level) == None;
      }
    }
  }

  lemma {:induction false} StartGood(known: seq<KnownTag>, base: int, all: seq<Row>, s: TagState)
    requires s == TagState(map[], []) && forall i :: 0 <= i < |all| && all[i].TagRow? ==> 1 <= all[i].level
    ensures Good(known, base, all, s) && Progress(all, s, 1, 0)
  {
  }

  lemma {:induction false} AllSeated(known: seq<KnownTag>, base: int, all: seq<Row>, s: TagState)
    requires Good(known, base, all, s) && Progress(all, s, MAX_LEVEL + 1, 0)
    requires forall i :: 0 <= i < |all| ==> all[i].TagRow? && all[i].level <= MAX_LEVEL
    ensures forall k :: 0 <= k < |all| ==> Seated(known, base, all, s, all[k])
    ensures s.ids.Keys == Ids(all)
  {
    forall k | 0 <= k < |all| ensures Seated(known, base, all, s, all[k]) && IdOf(all[k]) in s.ids {
      assert IdOf(all[k]) in s.ids;
    }
    forall id | id in Ids(all) ensures id in s.ids.Keys {
      var k := RowOf(all, id);
    }
    forall id | id in s.ids.Keys ensures id in Ids(all) {
      assert id in s.ids;
    }
  }

  ghost predicate WellLeveled(all: seq<Row>) {
    forall i :: 0 <= i < |all| ==> IsTag(all[i]) && 1 <= all[i].level <= MAX_LEVEL
  }

  /** Merged tags: a row takes the tag of its name and place if there is one and it is no
      repeated root, and gets a tag of its own otherwise; no two rows share a tag, and no
      other tag is added. */
  lemma {:induction false} TagsAreMerged(known: seq<KnownTag>, base: int, all: seq<Row>)
    requires Unmixed(all) && WellLeveled(all) && KnownBelow(known, base) && KnownApart(known)
    requires InsertInto(known, base, all).Some?
    ensures var s := InsertInto(known, base, all).value;
      && s.ids.Keys == Ids(all)
      && Apart(s) && Owned(base, s)
      && forall k :: 0 <= k < |all| ==> Seated(known, base, all, s, all[k])
  {
    var start := TagState(map[], []);
    StartGood(known, base, all, start);
    FromKeepsGood(known, base, all, start, 1);
    AllSeated(known, base, all, InsertInto(known, base, all).value);
  }

  /** A forest whose tags stand below their parents is inserted whole. */
  lemma {:induction false} TagsAreInserted(known: seq<KnownTag>, base: int, all: seq<Row>)
    requires Unmixed(all) && WellLeveled(all) && AllPlacedRows(all) && KnownBelow(known, base) && KnownApart(known)
    ensures InsertInto(known, base, all).Some?
  {
    var start := TagState(map[], []);
    StartGood(known, base, all, start);
    FromKeepsGood(known, base, all, start, 1);
  }

  // ----- what merging means -----

  /** Exactly when a row is merged with a tag that was there. */
  lemma {:induction false} MergedExactly(known: seq<KnownTag>, base: int, all: seq<Row>, s: TagState, r: Row)
    requires Seated(known, base, all, s, r) && KnownBelow(known, base)
    ensures s.ids[r.id] < base <==>
      !IsDuplicate(all, r) && exists i :: 0 <= i < |known| && Matches(known[i].tag, r.name, NewParent(s, r))
  {
    if s.ids[r.id] < base {
      var i :| 0 <= i < |known| && known[i].id == s.ids[r.id] && Matches(known[i].tag, r.name, NewParent(s, r));
    }
  }

  /** Tags that were there stand below their parents, too. */
  ghost predicate KnownPlaced(known: seq<KnownTag>) {
    forall i :: 0 <= i < |known| ==>
      if known[i].tag.parent.None? then known[i].tag.level == 1
      else HasKnown(known, known[i].tag.parent.value, known[i].tag.level - 1)
  }

  ghost predicate HasKnown(known: seq<KnownTag>, id: int, level: int) {
    exists j :: 0 <= j < |known| && known[j].id == id && known[j].tag.level == level
  }

  /** So a row is merged with a tag of its own level. */
  lemma {:induction false} MergedOnLevel(known: seq<KnownTag>, base: int, all: seq<Row>, s: TagState, k: nat, i: nat)
    requires Unmixed(all) && WellLeveled(all) && AllPlacedRows(all) && KnownBelow(known, base) && KnownApart(known) && KnownPlaced(known)
    requires forall n :: 0 <= n < |all| ==> Seated(known, base, all, s, all[n])
    requires k < |all| && i < |known| && all[k].TagRow? && all[k].id in s.ids && s.ids[all[k].id] == known[i].id
    ensures known[i].tag.level == all[k].level
    decreases if all[k].TagRow? then all[k].level else 0
  {
    var r := all[k];
    assert PlacedTag(all, r) && Seated(known, base, all, s, r) && known[i].id < base;
    var n :| 0 <= n < |known| && known[n].id == s.ids[r.id] && Matches(known[n].tag, r.name, NewParent(s, r));
    assert n == i;
    if r.parent.Some? {
      var q :| 0 <= q < |all| && all[q].TagRow? && all[q].id == r.parent.value && all[q].level + 1 == r.level;
      assert HasKnown(known, known[i].tag.parent.value, known[i].tag.level - 1);
      var j :| 0 <= j < |known| && known[j].id == known[i].tag.parent.value && known[j].tag.level == known[i].tag.level - 1;
      assert Seated(known, base, all, s, all[q]);
      MergedOnLevel(known, base, all, s, q, j);
    }
  }

  // ----- a replace -----

  /** The stored tag is the row under the new ids. */
  ghost predicate Stored(base: int, all: seq<Row>, s: TagState, r: Row) {
    && r.TagRow? && r.id in s.ids
    && (r.parent.Some? ==> r.parent.value in s.ids)
    && base <= s.ids[r.id] < base + |s.tags|
    && s.tags[s.ids[r.id] - base] == NewTag(r.name, NewParent(s, r), r.level, IsDuplicate(all, r))
  }

  /** Restored tags: every row has a tag of its own with the row's name, level and
      (renamed) parent, no two rows share one, and there are no other tags. */
  lemma {:induction false} TagsAreRestored(base: int, all: seq<Row>)
    requires Unmixed(all) && WellLeveled(all) && InsertTags(base, all).Some?
    ensures var s := InsertTags(base, all).value;
      && s.ids.Keys == Ids(all)
      && Apart(s) && Owned(base, s)
      && forall k :: 0 <= k < |all| ==> Stored(base, all, s, all[k])
  {
    TagsAreMerged([], base, all);
    var s := InsertTags(base, all).value;
    forall k | 0 <= k < |all| ensures Stored(base, all, s, all[k]) {
      assert Seated([], base, all, s, all[k]);
    }
  }
}
