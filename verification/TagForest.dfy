/** The tag forest behind a tag summary: validation by breadth-first search. */
module TagForest {
  import opened Options
  import opened Checked

  /** A tag with the amounts and number of the transactions that carry it directly. */
  datatype Tag = Tag(id: int, name: string, level: int, parent: Option<int>, amount: Int64, count: nat)

  datatype Forest = Forest(roots: seq<int>, children: seq<seq<int>>)

  datatype Flaw = DuplicateId | Orphan | LevelOutOfRange | DuplicatePath | Cycle | LevelMismatch

  // ----- what a well-formed forest is -----

  predicate IsChild(data: seq<Tag>, p: int, i: int) {
    0 <= p < |data| && 0 <= i < |data| && data[i].parent == Some(data[p].id)
  }

  ghost predicate DistinctIds(data: seq<Tag>) {
    forall i, j :: 0 <= i < j < |data| ==> data[i].id != data[j].id
  }

  /** The path from a root down to tag `i` has `d` tags. */
  ghost predicate HasDepth(data: seq<Tag>, i: int, d: nat)
    decreases d
  {
    && 0 <= i < |data|
    && d >= 1
    && if data[i].parent.None? then d == 1 else exists p :: IsChild(data, p, i) && HasDepth(data, p, d - 1)
  }

  /** Distinct ids, existing parents, and a level that is the depth, at most three. */
  ghost predicate WellFormed(data: seq<Tag>) {
    && DistinctIds(data)
    && forall i :: 0 <= i < |data| ==> 1 <= data[i].level <= 3 && HasDepth(data, i, data[i].level)
  }

  ghost predicate ParentsExist(data: seq<Tag>) {
    forall i :: 0 <= i < |data| && data[i].parent.Some? ==> exists p :: IsChild(data, p, i)
  }

  ghost predicate LevelsInRange(data: seq<Tag>) {
    forall i :: 0 <= i < |data| ==> 1 <= data[i].level <= 3 && (data[i].parent.None? ==> data[i].level == 1)
  }

  ghost predicate LevelsFollowParents(data: seq<Tag>) {
    forall p, i :: IsChild(data, p, i) ==> data[i].level == data[p].level + 1
  }

  ghost predicate Rooted(data: seq<Tag>, i: int) {
    exists d: nat :: HasDepth(data, i, d)
  }

  lemma {:induction false} DepthIsUnique(data: seq<Tag>, i: int, d: nat, e: nat)
    requires DistinctIds(data) && HasDepth(data, i, d) && HasDepth(data, i, e)
    ensures d == e
    decreases d
  {
    if data[i].parent.Some? {
      var p :| IsChild(data, p, i) && HasDepth(data, p, d - 1);
      var q :| IsChild(data, q, i) && HasDepth(data, q, e - 1);
      assert p == q;
      DepthIsUnique(data, p, d - 1, e - 1);
    }
  }

  lemma {:induction false} LevelIsDepth(data: seq<Tag>, i: int)
    requires ParentsExist(data) && LevelsInRange(data) && LevelsFollowParents(data) && 0 <= i < |data|
    ensures HasDepth(data, i, data[i].level)
    decreases data[i].level
  {
    if data[i].parent.Some? {
      var p :| IsChild(data, p, i);
      LevelIsDepth(data, p);
    }
  }

  lemma {:induction false} ChildIsDeeper(data: seq<Tag>, p: int, i: int)
    requires WellFormed(data) && IsChild(data, p, i)
    ensures data[i].level == data[p].level + 1
  {
    assert HasDepth(data, i, data[i].level);
    var q :| IsChild(data, q, i) && HasDepth(data, q, data[i].level - 1);
    assert p == q;
    DepthIsUnique(data, p, data[p].level, data[i].level - 1);
  }

  lemma {:induction false} WellFormedTag(data: seq<Tag>, i: int)
    requires WellFormed(data) && 0 <= i < |data|
    ensures data[i].parent.None? ==> data[i].level == 1
    ensures data[i].parent.Some? ==> exists p :: IsChild(data, p, i)
  {
    assert HasDepth(data, i, data[i].level);
  }

  ghost predicate WellLinked(data: seq<Tag>) {
    DistinctIds(data) && ParentsExist(data) && LevelsInRange(data) && LevelsFollowParents(data)
  }

  lemma {:induction false} LocalSuffices(data: seq<Tag>)
    requires WellLinked(data)
    ensures WellFormed(data)
  {
    forall i | 0 <= i < |data| ensures HasDepth(data, i, data[i].level) {
      LevelIsDepth(data, i);
    }
  }

  lemma {:induction false} LocalIsNecessary(data: seq<Tag>)
    requires WellFormed(data)
    ensures WellLinked(data)
  {
    forall p, i | IsChild(data, p, i) ensures data[i].level == data[p].level + 1 {
      ChildIsDeeper(data, p, i);
    }
    forall i | 0 <= i < |data|
      ensures data[i].parent.None? ==> data[i].level == 1
      ensures data[i].parent.Some? ==> exists p :: IsChild(data, p, i)
    {
      WellFormedTag(data, i);
    }
  }

  /** The checks the code makes one tag at a time amount to well-formedness. */
  lemma {:induction false} WellFormedLocally(data: seq<Tag>)
    ensures WellFormed(data) == WellLinked(data)
  {
    if WellFormed(data) { LocalIsNecessary(data); }
    if WellLinked(data) { LocalSuffices(data); }
  }

  lemma {:induction false} LinkedDeeper(data: seq<Tag>, p: int, i: int)
    requires WellLinked(data) && IsChild(data, p, i)
    ensures data[i].level == data[p].level + 1
  {
  }

  lemma {:induction false} LinkedTag(data: seq<Tag>, i: int)
    requires WellLinked(data) && 0 <= i < |data|
    ensures 1 <= data[i].level <= 3
    ensures data[i].parent.None? ==> data[i].level == 1
    ensures data[i].parent.Some? ==> exists p :: IsChild(data, p, i)
  {
  }

  // ----- children in scan order -----

  /** The first `n` tags with a given parent, in scan order. */
  function WithParent(data: seq<Tag>, parent: Option<int>, n: nat): seq<int>
    requires n <= |data|
  {
    if n == 0 then [] else WithParent(data, parent, n - 1) + if data[n - 1].parent == parent then [n - 1] else []
  }

  function Roots(data: seq<Tag>): seq<int> {
    WithParent(data, None, |data|)
  }

  function Kids(data: seq<Tag>, p: int): seq<int>
    requires 0 <= p < |data|
  {
    WithParent(data, Some(data[p].id), |data|)
  }

  lemma {:induction false} WithParentMembers(data: seq<Tag>, parent: Option<int>, n: nat)
    requires n <= |data|
    ensures forall x :: x in WithParent(data, parent, n) <==> 0 <= x < n && data[x].parent == parent
    ensures Distinct(WithParent(data, parent, n))
  {
    if n > 0 {
      WithParentMembers(data, parent, n - 1);
    }
  }

  ghost predicate Distinct(s: seq<int>) {
    forall i, j :: 0 <= i < j < |s| ==> s[i] != s[j]
  }

  lemma {:induction false} KidsAreChildren(data: seq<Tag>, p: int)
    requires 0 <= p < |data|
    ensures forall x :: x in Kids(data, p) <==> IsChild(data, p, x)
    ensures Distinct(Kids(data, p))
  {
    WithParentMembers(data, Some(data[p].id), |data|);
  }

  method IndexById(data: seq<Tag>) returns (ok: bool, index: map<int, int>)
    ensures ok == DistinctIds(data)
    ensures ok ==> Indexes(data, index, |data|)
  {
    index := map[];
    for i := 0 to |data|
      invariant DistinctIds(data[..i])
      invariant Indexes(data, index, i)
    {
      if data[i].id in index {
        assert data[index[data[i].id]].id == data[i].id;
        return false, index;
      }
      index := index[data[i].id := i];
    }
    assert data[..|data|] == data;
    return true, index;
  }

  ghost predicate Indexes(data: seq<Tag>, index: map<int, int>, n: nat)
    requires n <= |data|
  {
    && (forall id :: id in index ==> 0 <= index[id] < n && data[index[id]].id == id)
    && forall i :: 0 <= i < n ==> data[i].id in index && index[data[i].id] == i
  }

  lemma {:induction false} Indexed(data: seq<Tag>, index: map<int, int>, id: int)
    requires Indexes(data, index, |data|) && id in index
    ensures 0 <= index[id] < |data| && data[index[id]].id == id
  {
  }

  lemma {:induction false} NoSuchParent(data: seq<Tag>, index: map<int, int>, i: int)
    requires Indexes(data, index, |data|) && 0 <= i < |data|
    requires data[i].parent.Some? && data[i].parent.value !in index
    ensures !ParentsExist(data)
  {
  }

  method LinkChildren(data: seq<Tag>, index: map<int, int>) returns (ok: bool, forest: Forest)
    requires Indexes(data, index, |data|)
    ensures ok == ParentsExist(data)
    ensures ok ==> IsForestOf(data, forest)
  {
    var roots, children := [], [];
    for p := 0 to |data|
      invariant |children| == p
      invariant forall q :: 0 <= q < p ==> children[q] == []
    {
      children := children + [[]];
    }
    for i := 0 to |data|
      invariant |children| == |data|
      invariant roots == WithParent(data, None, i)
      invariant forall p :: 0 <= p < |data| ==> children[p] == WithParent(data, Some(data[p].id), i)
      invariant forall j :: 0 <= j < i && data[j].parent.Some? ==> exists p :: IsChild(data, p, j)
    {
      var parent := data[i].parent;
      if parent.None? {
        roots := roots + [i];
      } else if parent.value !in index {
        NoSuchParent(data, index, i);
        return false, Forest([], []);
      } else {
        var p := index[parent.value];
        Indexed(data, index, parent.value);
        assert IsChild(data, p, i);
        children := children[p := children[p] + [i]];
      }
    }
    return true, Forest(roots, children);
  }

  // ----- the breadth-first search -----

  ghost predicate InRange(data: seq<Tag>, queue: seq<int>) {
    forall k :: 0 <= k < |queue| ==> 0 <= queue[k] < |data|
  }

  /** Every waiting or visited tag is a root or a child of a visited one before it. */
  ghost predicate HaveParents(data: seq<Tag>, queue: seq<int>, cursor: nat)
    requires cursor <= |queue| && InRange(data, queue)
  {
    forall k :: 0 <= k < |queue| && data[queue[k]].parent.Some? ==>
      exists c :: 0 <= c < cursor && c < k && IsChild(data, queue[c], queue[k])
  }

  ghost predicate RootsQueued(data: seq<Tag>, queue: seq<int>) {
    forall i :: 0 <= i < |data| && data[i].parent.None? ==> i in queue
  }

  ghost predicate KidsQueued(data: seq<Tag>, queue: seq<int>, cursor: nat)
    requires cursor <= |queue|
  {
    forall c, i :: 0 <= c < cursor && IsChild(data, queue[c], i) ==> i in queue
  }

  /** The search so far: `queue[..cursor]` is visited and the rest is waiting. */
  ghost predicate Searching(data: seq<Tag>, queue: seq<int>, cursor: nat) {
    && cursor <= |queue|
    && Distinct(queue)
    && InRange(data, queue)
    && HaveParents(data, queue, cursor)
    && RootsQueued(data, queue)
    && KidsQueued(data, queue, cursor)
  }

  lemma {:induction false} SearchStart(data: seq<Tag>)
    ensures Searching(data, Roots(data), 0)
  {
    WithParentMembers(data, None, |data|);
    var roots := Roots(data);
    forall k | 0 <= k < |roots| ensures 0 <= roots[k] < |data| && data[roots[k]].parent.None? {
      assert roots[k] in roots;
    }
  }

  /** A tag is appended only when its one parent is visited, so never twice. */
  lemma {:induction false} NoSecondPath(data: seq<Tag>, queue: seq<int>, cursor: nat, x: int)
    requires DistinctIds(data) && Searching(data, queue, cursor) && cursor < |queue|
    requires IsChild(data, queue[cursor], x)
    ensures x !in queue
  {
  }

  lemma {:induction false} DistinctConcat(a: seq<int>, b: seq<int>)
    requires Distinct(a) && Distinct(b) && forall x :: x in b ==> x !in a
    ensures Distinct(a + b)
  {
    var s := a + b;
    forall i, j | 0 <= i < j < |s| ensures s[i] != s[j] {
      if i < |a| && |a| <= j {
        assert s[j] in b && s[i] in a;
      }
    }
  }

  lemma {:induction false} ParentsStay(data: seq<Tag>, queue: seq<int>, cursor: nat, kids: seq<int>)
    requires cursor < |queue| && InRange(data, queue) && HaveParents(data, queue, cursor) && InRange(data, kids)
    requires forall x :: x in kids ==> IsChild(data, queue[cursor], x)
    ensures InRange(data, queue + kids) && HaveParents(data, queue + kids, cursor + 1)
  {
    var next := queue + kids;
    forall k | 0 <= k < |next| && data[next[k]].parent.Some?
      ensures exists c :: 0 <= c < cursor + 1 && c < k && IsChild(data, next[c], next[k])
    {
      if k < |queue| {
        var c :| 0 <= c < cursor && c < k && IsChild(data, queue[c], queue[k]);
        assert IsChild(data, next[c], next[k]);
      } else {
        assert next[k] in kids;
        assert IsChild(data, next[cursor], next[k]);
      }
    }
  }

  lemma {:induction false} KidsStay(data: seq<Tag>, queue: seq<int>, cursor: nat, kids: seq<int>)
    requires cursor < |queue| && KidsQueued(data, queue, cursor)
    requires forall x :: IsChild(data, queue[cursor], x) ==> x in kids
    ensures KidsQueued(data, queue + kids, cursor + 1)
  {
    var next := queue + kids;
    forall c, i | 0 <= c < cursor + 1 && IsChild(data, next[c], i) ensures i in next {
      assert next[c] == queue[c];
    }
  }

  lemma {:induction false} SearchStep(data: seq<Tag>, queue: seq<int>, cursor: nat)
    requires DistinctIds(data) && Searching(data, queue, cursor) && cursor < |queue|
    ensures Searching(data, queue + Kids(data, queue[cursor]), cursor + 1)
  {
    var kids := Kids(data, queue[cursor]);
    KidsAreChildren(data, queue[cursor]);
    forall x | x in kids ensures x !in queue {
      NoSecondPath(data, queue, cursor, x);
    }
    assert forall k :: 0 <= k < |kids| ==> kids[k] in kids;
    DistinctConcat(queue, kids);
    ParentsStay(data, queue, cursor, kids);
    KidsStay(data, queue, cursor, kids);
  }

  function Members(s: seq<int>): set<int> {
    set x | x in s
  }

  lemma {:induction false} DistinctIsShort(s: seq<int>, n: nat)
    requires Distinct(s) && forall k :: 0 <= k < |s| ==> 0 <= s[k] < n
    ensures |s| <= n
    ensures |s| == n <==> forall i :: 0 <= i < n ==> i in s
  {
    var members := Members(s);
    var all := Range(n);
    DistinctCount(s);
    assert members <= all;
    assert all == members + (all - members);
    if |s| == n {
      assert all - members == {};
      forall i | 0 <= i < n ensures i in s { assert i in all; }
    }
    if forall i :: 0 <= i < n ==> i in s { assert all == members; }
  }

  lemma {:induction false} DistinctCount(s: seq<int>)
    requires Distinct(s)
    ensures |Members(s)| == |s|
  {
    if s != [] {
      var n := |s| - 1;
      DistinctCount(s[..n]);
      assert s == s[..n] + [s[n]];
      assert Members(s) == Members(s[..n]) + {s[n]};
    }
  }

  function Range(n: nat): (r: set<int>)
    ensures |r| == n && forall i :: i in r <==> 0 <= i < n
  {
    if n == 0 then {} else Range(n - 1) + {n - 1}
  }

  /** A finished search has found exactly the tags with a path from a root. */
  lemma {:induction false} FoundIfRooted(data: seq<Tag>, queue: seq<int>, i: int, d: nat)
    requires Searching(data, queue, |queue|) && HasDepth(data, i, d)
    ensures i in queue
    decreases d
  {
    if data[i].parent.Some? {
      var p :| IsChild(data, p, i) && HasDepth(data, p, d - 1);
      FoundIfRooted(data, queue, p, d - 1);
      var c :| 0 <= c < |queue| && queue[c] == p;
      assert IsChild(data, queue[c], i);
    }
  }

  ghost predicate AllRooted(data: seq<Tag>) {
    forall i :: 0 <= i < |data| ==> Rooted(data, i)
  }

  lemma {:induction false} VisitedAreRooted(data: seq<Tag>, queue: seq<int>, cursor: nat, rooted: nat)
    requires Searching(data, queue, cursor) && rooted <= cursor
    requires forall k :: 0 <= k < rooted ==> Rooted(data, queue[k])
    ensures forall k :: 0 <= k < cursor ==> Rooted(data, queue[k])
    decreases cursor - rooted
  {
    if rooted < cursor {
      var i := queue[rooted];
      if data[i].parent.None? {
        assert HasDepth(data, i, 1);
      } else {
        var c :| 0 <= c < rooted && IsChild(data, queue[c], i);
        var d: nat :| HasDepth(data, queue[c], d);
        assert HasDepth(data, i, d + 1);
      }
      VisitedAreRooted(data, queue, cursor, rooted + 1);
    }
  }

  /** What a finished search says about the forest. */
  lemma {:induction false} SearchVerdict(data: seq<Tag>, queue: seq<int>)
    requires Searching(data, queue, |queue|)
    ensures |queue| <= |data|
    ensures |queue| == |data| <==> AllRooted(data)
  {
    DistinctIsShort(queue, |data|);
    VisitedAreRooted(data, queue, |queue|, 0);
    if |queue| == |data| {
      forall i | 0 <= i < |data| ensures Rooted(data, i) {
        assert i in queue;
      }
    }
    if AllRooted(data) {
      forall i | 0 <= i < |data| ensures i in queue {
        assert Rooted(data, i);
        var d: nat :| HasDepth(data, i, d);
        FoundIfRooted(data, queue, i, d);
      }
    }
  }

  lemma {:induction false} WaitingIsUnvisited(data: seq<Tag>, queue: seq<int>, cursor: nat)
    requires Searching(data, queue, cursor) && cursor < |queue|
    ensures 0 <= queue[cursor] < |data| && queue[cursor] !in queue[..cursor] && cursor < |data|
  {
    DistinctIsShort(queue, |data|);
  }

  ghost predicate IsForestOf(data: seq<Tag>, forest: Forest) {
    && forest.roots == Roots(data)
    && |forest.children| == |data|
    && forall p :: 0 <= p < |data| ==> forest.children[p] == Kids(data, p)
  }

  lemma {:induction false} OneMoreVisited(queue: seq<int>, more: seq<int>, cursor: nat)
    requires cursor < |queue|
    ensures Members((queue + more)[..cursor + 1]) == Members(queue[..cursor]) + {queue[cursor]}
  {
    assert (queue + more)[..cursor + 1] == queue[..cursor] + [queue[cursor]];
  }

  /** Visits the forest from its roots; `duplicate` reports a tag met twice. */
  method Search(data: seq<Tag>, forest: Forest) returns (duplicate: bool, count: nat)
    requires DistinctIds(data) && IsForestOf(data, forest)
    ensures !duplicate
    ensures count == |data| <==> AllRooted(data)
  {
    var queue := forest.roots;
    var reachable := {};
    count := 0;
    var cursor := 0;
    SearchStart(data);
    while cursor < |queue|
      invariant cursor <= |queue| && Searching(data, queue, cursor)
      invariant reachable == Members(queue[..cursor]) && count == cursor <= |data|
      decreases |data| - cursor
    {
      var index := queue[cursor];
      WaitingIsUnvisited(data, queue, cursor);
      if index in reachable {
        return true, count;
      }
      SearchStep(data, queue, cursor);
      OneMoreVisited(queue, forest.children[index], cursor);
      reachable := reachable + {index};
      count := count + 1;
      queue := queue + forest.children[index];
      cursor := cursor + 1;
    }
    SearchVerdict(data, queue);
    return false, count;
  }

  method CheckLevels(data: seq<Tag>) returns (ok: bool)
    ensures ok == LevelsInRange(data)
  {
    for i := 0 to |data|
      invariant forall j :: 0 <= j < i ==>
        1 <= data[j].level <= 3 && (data[j].parent.None? ==> data[j].level == 1)
    {
      if data[i].level < 1 || data[i].level > 3 || (data[i].parent.None? && data[i].level != 1) {
        return false;
      }
    }
    return true;
  }

  method CheckParentLevels(data: seq<Tag>, index: map<int, int>) returns (ok: bool)
    requires Indexes(data, index, |data|) && ParentsExist(data)
    ensures ok == LevelsFollowParents(data)
  {
    for i := 0 to |data|
      invariant forall p, j :: j < i && IsChild(data, p, j) ==> data[j].level == data[p].level + 1
    {
      if data[i].parent.Some? {
        var q :| IsChild(data, q, i);
        var p := index[data[i].parent.value];
        assert p == q;
        if data[i].level != data[p].level + 1 {
          return false;
        }
      }
    }
    return true;
  }

  lemma {:induction false} WellFormedIsRooted(data: seq<Tag>)
    requires WellFormed(data)
    ensures AllRooted(data)
  {
    forall i | 0 <= i < |data| ensures Rooted(data, i) {
      assert HasDepth(data, i, data[i].level);
    }
  }

  ghost function FirstFlaw(data: seq<Tag>): Flaw {
    if !DistinctIds(data) then DuplicateId
    else if !ParentsExist(data) then Orphan
    else if !LevelsInRange(data) then LevelOutOfRange
    else if !AllRooted(data) then Cycle
    else LevelMismatch
  }

  /** Accepts exactly the well-formed forests and lists each tag's children in scan
      order. The two late failures are told apart: a cycle is reported exactly when
      some tag has no path to a root, and a second path to a tag never is. */
  method BuildForest(data: seq<Tag>) returns (r: Result<Forest, Flaw>)
    ensures r.Ok? <==> WellFormed(data)
    ensures r.Ok? ==> IsForestOf(data, r.value)
    ensures r.Err? ==> r.error == FirstFlaw(data)
  {
    WellFormedLocally(data);
    if WellFormed(data) { WellFormedIsRooted(data); }
    var distinct, index := IndexById(data);
    if !distinct { return Err(DuplicateId); }
    var linked, forest := LinkChildren(data, index);
    if !linked { return Err(Orphan); }
    var inRange := CheckLevels(data);
    if !inRange { return Err(LevelOutOfRange); }
    var duplicate, count := Search(data, forest);
    if duplicate { return Err(DuplicatePath); }
    if count != |data| { return Err(Cycle); }
    var follow := CheckParentLevels(data, index);
    if !follow { return Err(LevelMismatch); }
    return Ok(forest);
  }
}
