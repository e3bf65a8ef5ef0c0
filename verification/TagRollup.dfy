/** Rolling amounts and counts up the tag forest. */
module TagRollup {
  import opened Options
  import opened Checked
  import opened Sums
  import opened TagForest

  // ----- ancestry -----

  ghost function ParentOf(data: seq<Tag>, i: int): (p: int)
    requires WellLinked(data) && 0 <= i < |data| && data[i].parent.Some?
    ensures IsChild(data, p, i) && data[p].level == data[i].level - 1
  {
    LinkedTag(data, i);
    var p :| IsChild(data, p, i);
    LinkedDeeper(data, p, i);
    p
  }

  lemma {:induction false} OneParent(data: seq<Tag>, p: int, i: int)
    requires WellLinked(data) && IsChild(data, p, i)
    ensures ParentOf(data, i) == p
  {
    assert DistinctIds(data);
  }

  function Rank(data: seq<Tag>, i: int): nat {
    if 0 <= i < |data| && data[i].level >= 0 then data[i].level else 0
  }

  lemma {:induction false} RankIsLevel(data: seq<Tag>, i: int)
    requires WellLinked(data) && 0 <= i < |data|
    ensures 1 <= Rank(data, i) == data[i].level <= 3
  {
  }

  /** `i` is `top` or a descendant of it. */
  ghost predicate Under(data: seq<Tag>, top: int, i: int)
    requires WellLinked(data) && 0 <= i < |data|
    decreases Rank(data, i)
  {
    RankIsLevel(data, i);
    i == top || (data[i].parent.Some? && Under(data, top, ParentOf(data, i)))
  }

  lemma {:induction false} UnderIsDeeper(data: seq<Tag>, top: int, i: int)
    requires WellLinked(data) && 0 <= i < |data| && Under(data, top, i)
    ensures 0 <= top < |data| && data[top].level <= data[i].level
    ensures data[top].level == data[i].level ==> top == i
    decreases Rank(data, i)
  {
    if i != top {
      RankIsLevel(data, i);
      UnderIsDeeper(data, top, ParentOf(data, i));
    }
  }

  lemma {:induction false} UnderIsTransitive(data: seq<Tag>, a: int, b: int, i: int)
    requires WellLinked(data) && 0 <= i < |data| && 0 <= b < |data| && Under(data, a, b) && Under(data, b, i)
    ensures Under(data, a, i)
    decreases Rank(data, i)
  {
    if i != b {
      RankIsLevel(data, i);
      UnderIsTransitive(data, a, b, ParentOf(data, i));
    }
  }

  lemma {:induction false} KidIsUnder(data: seq<Tag>, top: int, c: int)
    requires WellLinked(data) && IsChild(data, top, c)
    ensures Under(data, top, c)
  {
    OneParent(data, top, c);
  }

  /** The way down to a descendant starts with a child. */
  lemma {:induction false} UnderSomeKid(data: seq<Tag>, top: int, i: int) returns (c: int)
    requires WellLinked(data) && 0 <= i < |data| && Under(data, top, i) && i != top
    ensures IsChild(data, top, c) && Under(data, c, i)
    decreases Rank(data, i)
  {
    RankIsLevel(data, i);
    var p := ParentOf(data, i);
    if p == top {
      c := i;
    } else {
      c := UnderSomeKid(data, top, p);
    }
  }

  lemma {:induction false} UnderSomeRoot(data: seq<Tag>, i: int) returns (root: int)
    requires WellLinked(data) && 0 <= i < |data|
    ensures 0 <= root < |data| && data[root].parent.None? && Under(data, root, i)
    decreases Rank(data, i)
  {
    if data[i].parent.None? {
      root := i;
    } else {
      RankIsLevel(data, i);
      root := UnderSomeRoot(data, ParentOf(data, i));
    }
  }

  /** Two tags of one level share no descendant. */
  lemma {:induction false} SameLevelsApart(data: seq<Tag>, a: int, b: int, i: int)
    requires WellLinked(data) && 0 <= i < |data| && 0 <= a < |data| && 0 <= b < |data|
    requires data[a].level == data[b].level && Under(data, a, i) && Under(data, b, i)
    ensures a == b
    decreases Rank(data, i)
  {
    if i == a {
      UnderIsDeeper(data, b, i);
    } else if i == b {
      UnderIsDeeper(data, a, i);
    } else {
      RankIsLevel(data, i);
      SameLevelsApart(data, a, b, ParentOf(data, i));
    }
  }

  // ----- subtree sums -----

  ghost function Subtree(data: seq<Tag>, top: int): set<int>
    requires WellLinked(data)
  {
    set i | i in Range(|data|) && Under(data, top, i)
  }

  ghost function Below(data: seq<Tag>, tops: seq<int>): set<int>
    requires WellLinked(data)
  {
    if tops == [] then {} else Below(data, tops[..|tops| - 1]) + Subtree(data, tops[|tops| - 1])
  }

  lemma {:induction false} BelowMember(data: seq<Tag>, tops: seq<int>, top: int)
    requires WellLinked(data) && top in tops
    ensures Subtree(data, top) <= Below(data, tops)
  {
    if top != tops[|tops| - 1] {
      BelowMember(data, tops[..|tops| - 1], top);
    }
  }

  lemma {:induction false} BelowSome(data: seq<Tag>, tops: seq<int>, i: int) returns (top: int)
    requires WellLinked(data) && i in Below(data, tops)
    ensures top in tops && 0 <= i < |data| && Under(data, top, i)
  {
    var n := |tops| - 1;
    if i in Subtree(data, tops[n]) {
      top := tops[n];
    } else {
      top := BelowSome(data, tops[..n], i);
    }
  }

  ghost predicate OneLevel(data: seq<Tag>, tops: seq<int>, level: int) {
    Distinct(tops) && forall k :: 0 <= k < |tops| ==> 0 <= tops[k] < |data| && data[tops[k]].level == level
  }

  ghost function SubtreeSum(data: seq<Tag>, top: int, f: int -> int): int
    requires WellLinked(data)
  {
    Sum(Subtree(data, top), f)
  }

  /** The value a tag rolls up to, for amounts or for counts. */
  ghost function Rolled(data: seq<Tag>, f: int -> int): int -> int
    requires WellLinked(data)
  {
    top => SubtreeSum(data, top, f)
  }

  lemma {:induction false} BelowApart(data: seq<Tag>, tops: seq<int>, level: int)
    requires WellLinked(data) && tops != [] && OneLevel(data, tops, level)
    ensures Below(data, tops[..|tops| - 1]) !! Subtree(data, tops[|tops| - 1])
  {
    var n := |tops| - 1;
    forall i | i in Below(data, tops[..n]) ensures i !in Subtree(data, tops[n]) {
      var top := BelowSome(data, tops[..n], i);
      if i in Subtree(data, tops[n]) {
        SameLevelsApart(data, top, tops[n], i);
      }
    }
  }

  /** Subtrees of one level add up. */
  lemma {:induction false} BelowSum(data: seq<Tag>, tops: seq<int>, level: int, f: int -> int)
    requires WellLinked(data) && OneLevel(data, tops, level)
    ensures Sum(Below(data, tops), f) == SeqSum(tops, Rolled(data, f))
  {
    if tops != [] {
      var n := |tops| - 1;
      BelowSum(data, tops[..n], level, f);
      BelowApart(data, tops, level);
      SumUnion(Below(data, tops[..n]), Subtree(data, tops[n]), f);
    }
  }

  lemma {:induction false} KidsOneLevel(data: seq<Tag>, p: int)
    requires WellLinked(data) && 0 <= p < |data|
    ensures OneLevel(data, Kids(data, p), data[p].level + 1)
  {
    KidsAreChildren(data, p);
    var kids := Kids(data, p);
    forall k | 0 <= k < |kids| ensures 0 <= kids[k] < |data| && data[kids[k]].level == data[p].level + 1 {
      assert kids[k] in kids;
      LinkedDeeper(data, p, kids[k]);
    }
  }

  lemma {:induction false} KidsInRange(data: seq<Tag>, p: int)
    requires 0 <= p < |data|
    ensures forall k :: 0 <= k < |Kids(data, p)| ==> 0 <= Kids(data, p)[k] < |data|
  {
    KidsAreChildren(data, p);
    forall k | 0 <= k < |Kids(data, p)| ensures 0 <= Kids(data, p)[k] < |data| {
      assert Kids(data, p)[k] in Kids(data, p);
    }
  }

  lemma {:induction false} RootsOneLevel(data: seq<Tag>)
    requires WellLinked(data)
    ensures OneLevel(data, Roots(data), 1)
  {
    WithParentMembers(data, None, |data|);
    var roots := Roots(data);
    forall k | 0 <= k < |roots| ensures 0 <= roots[k] < |data| && data[roots[k]].level == 1 {
      assert roots[k] in roots;
      LinkedTag(data, roots[k]);
    }
  }

  lemma {:induction false} TopInSubtree(data: seq<Tag>, top: int)
    requires WellLinked(data) && 0 <= top < |data|
    ensures top in Subtree(data, top)
  {
  }

  lemma {:induction false} UnderIsBelow(data: seq<Tag>, p: int, i: int)
    requires WellLinked(data) && 0 <= p < |data| && i in Subtree(data, p) && i != p
    ensures i in Below(data, Kids(data, p))
  {
    KidsAreChildren(data, p);
    var c := UnderSomeKid(data, p, i);
    BelowMember(data, Kids(data, p), c);
    assert i in Subtree(data, c);
  }

  lemma {:induction false} BelowIsUnder(data: seq<Tag>, p: int, i: int)
    requires WellLinked(data) && 0 <= p < |data| && i in Below(data, Kids(data, p))
    ensures i in Subtree(data, p) && i != p
  {
    KidsAreChildren(data, p);
    var c := BelowSome(data, Kids(data, p), i);
    KidIsUnder(data, p, c);
    UnderIsTransitive(data, p, c, i);
    UnderIsDeeper(data, c, i);
    LinkedDeeper(data, p, c);
  }

  lemma {:induction false} SubtreeIsKids(data: seq<Tag>, p: int)
    requires WellLinked(data) && 0 <= p < |data|
    ensures Subtree(data, p) == {p} + Below(data, Kids(data, p)) && p !in Below(data, Kids(data, p))
  {
    var below := Below(data, Kids(data, p));
    TopInSubtree(data, p);
    forall i | i in Subtree(data, p) && i != p ensures i in below {
      UnderIsBelow(data, p, i);
    }
    forall i | i in below ensures i in Subtree(data, p) && i != p {
      BelowIsUnder(data, p, i);
    }
  }

  /** A tag's value is its own plus its children's. */
  lemma {:induction false} RolledStep(data: seq<Tag>, p: int, f: int -> int)
    requires WellLinked(data) && 0 <= p < |data|
    ensures SubtreeSum(data, p, f) == f(p) + SeqSum(Kids(data, p), Rolled(data, f))
  {
    SubtreeIsKids(data, p);
    KidsOneLevel(data, p);
    BelowSum(data, Kids(data, p), data[p].level + 1, f);
    SumOneLess({p} + Below(data, Kids(data, p)), Below(data, Kids(data, p)), f, p);
  }

  /** The roots together hold everything. */
  lemma {:induction false} RolledRoots(data: seq<Tag>, f: int -> int)
    requires WellLinked(data)
    ensures SeqSum(Roots(data), Rolled(data, f)) == Sum(Range(|data|), f)
  {
    RootsOneLevel(data);
    BelowSum(data, Roots(data), 1, f);
    RootsCoverAll(data);
  }

  lemma {:induction false} RootsCoverAll(data: seq<Tag>)
    requires WellLinked(data)
    ensures Below(data, Roots(data)) == Range(|data|)
  {
    WithParentMembers(data, None, |data|);
    var roots := Roots(data);
    forall i | i in Range(|data|) ensures i in Below(data, roots) {
      var root := UnderSomeRoot(data, i);
      BelowMember(data, roots, root);
      assert i in Subtree(data, root);
    }
    forall i | i in Below(data, roots) ensures i in Range(|data|) {
      var root := BelowSome(data, roots, i);
    }
  }

  // ----- amounts and counts -----

  ghost function AmountIn(data: seq<Tag>): int -> int {
    i => if 0 <= i < |data| then data[i].amount else 0
  }

  ghost function CountIn(data: seq<Tag>): int -> int {
    i => if 0 <= i < |data| then data[i].count else 0
  }

  /** Transaction amounts are positive, so a tag's direct amount is at least its count. */
  ghost predicate PositiveAmounts(data: seq<Tag>) {
    forall i :: 0 <= i < |data| ==> data[i].count <= data[i].amount
  }

  ghost function Total(data: seq<Tag>, i: int): int
    requires WellLinked(data)
  {
    SubtreeSum(data, i, AmountIn(data))
  }

  ghost function Count(data: seq<Tag>, i: int): int
    requires WellLinked(data)
  {
    SubtreeSum(data, i, CountIn(data))
  }

  lemma {:induction false} TotalBounds(data: seq<Tag>, i: int)
    requires WellLinked(data) && PositiveAmounts(data)
    ensures 0 <= Count(data, i) <= Total(data, i) <= Sum(Range(|data|), AmountIn(data))
  {
    SumNonNegative(Subtree(data, i), CountIn(data));
    SumMonotone(Subtree(data, i), CountIn(data), AmountIn(data));
    SumOfPart(Subtree(data, i), Range(|data|), AmountIn(data));
  }

  lemma {:induction false} KidTotal(data: seq<Tag>, p: int, c: int)
    requires WellLinked(data) && PositiveAmounts(data) && IsChild(data, p, c)
    ensures Total(data, c) <= Total(data, p)
  {
    forall i | i in Subtree(data, c) ensures i in Subtree(data, p) {
      KidIsUnder(data, p, c);
      UnderIsTransitive(data, p, c, i);
    }
    SumOfPart(Subtree(data, c), Subtree(data, p), AmountIn(data));
  }

  /** A tag that rolls up to no amount rolls up to no transaction. */
  lemma {:induction false} NothingRolled(data: seq<Tag>)
    requires WellLinked(data) && PositiveAmounts(data)
    ensures forall i :: Rolled(data, AmountIn(data))(i) <= 0 ==> Rolled(data, AmountIn(data))(i) == 0
    ensures forall i :: Rolled(data, AmountIn(data))(i) <= 0 ==> Rolled(data, CountIn(data))(i) == 0
  {
    forall i ensures 0 <= Rolled(data, CountIn(data))(i) <= Rolled(data, AmountIn(data))(i) {
      TotalBounds(data, i);
    }
  }

  /** The positive ones among some tags, largest first. */
  ghost predicate IsRanking(data: seq<Tag>, s: seq<int>, ranked: seq<int>)
    requires WellLinked(data)
  {
    && multiset(ranked) == multiset(PositiveOnly(s, Rolled(data, AmountIn(data))))
    && forall i, j :: 0 <= i < j < |ranked| ==> Total(data, ranked[i]) >= Total(data, ranked[j])
  }

  lemma {:induction false} RankedAreListed(data: seq<Tag>, s: seq<int>, ranked: seq<int>, x: int)
    requires WellLinked(data) && IsRanking(data, s, ranked) && x in ranked
    ensures x in s
  {
    PositiveOnlyMembers(s, Rolled(data, AmountIn(data)));
    assert x in multiset(ranked);
  }

  lemma {:induction false} RankingSums(data: seq<Tag>, s: seq<int>, ranked: seq<int>)
    requires WellLinked(data) && PositiveAmounts(data) && IsRanking(data, s, ranked)
    ensures SeqSum(ranked, Rolled(data, AmountIn(data))) == SeqSum(s, Rolled(data, AmountIn(data)))
    ensures SeqSum(ranked, Rolled(data, CountIn(data))) == SeqSum(s, Rolled(data, CountIn(data)))
  {
    var totals, counts := Rolled(data, AmountIn(data)), Rolled(data, CountIn(data));
    NothingRolled(data);
    PositiveOnlySum(s, totals, totals);
    PositiveOnlySum(s, totals, counts);
    SeqSumPermutation(ranked, PositiveOnly(s, totals), totals);
    SeqSumPermutation(ranked, PositiveOnly(s, totals), counts);
  }

  // ----- the roll-up -----

  datatype Node = Node(children: seq<int>, amount: Int64, count: nat)

  ghost predicate Done(data: seq<Tag>, i: int, node: Node)
    requires WellLinked(data) && 0 <= i < |data|
  {
    && node.amount == Total(data, i)
    && node.count == Count(data, i)
    && IsRanking(data, Kids(data, i), node.children)
  }

  ghost predicate Finished(data: seq<Tag>, nodes: seq<Node>, i: int)
    requires WellLinked(data)
  {
    0 <= i < |data| && i < |nodes| && nodes[i].amount == Total(data, i) && nodes[i].count == Count(data, i)
  }

  lemma {:induction false} AllFinished(data: seq<Tag>, nodes: seq<Node>, tops: seq<int>)
    requires WellLinked(data) && DoneOn(data, nodes, Below(data, tops))
    requires forall k :: 0 <= k < |tops| ==> 0 <= tops[k] < |data|
    ensures forall x :: x in tops ==> Finished(data, nodes, x)
  {
    forall x | x in tops ensures Finished(data, nodes, x) {
      BelowMember(data, tops, x);
      TopInSubtree(data, x);
    }
  }

  lemma {:induction false} OneMoreTop(data: seq<Tag>, tops: seq<int>, level: int, k: nat)
    requires WellLinked(data) && OneLevel(data, tops, level) && k < |tops|
    ensures 0 <= tops[k] < |data| && Rank(data, tops[k]) == level
    ensures Below(data, tops[..k + 1]) == Below(data, tops[..k]) + Subtree(data, tops[k])
    ensures Below(data, tops[..k]) !! Subtree(data, tops[k])
    ensures Subtree(data, tops[k]) <= Below(data, tops)
    ensures PositiveOnly(tops[..k + 1], Rolled(data, AmountIn(data)))
         == PositiveOnly(tops[..k], Rolled(data, AmountIn(data)))
            + if Rolled(data, AmountIn(data))(tops[k]) > 0 then [tops[k]] else []
  {
    RankIsLevel(data, tops[k]);
    assert tops[..k + 1][..k] == tops[..k];
    assert OneLevel(data, tops[..k + 1], level);
    BelowApart(data, tops[..k + 1], level);
    BelowMember(data, tops, tops[k]);
  }

  lemma {:induction false} PositiveInRange(data: seq<Tag>, nodes: seq<Node>, s: seq<int>)
    requires WellLinked(data) && forall x :: x in s ==> Finished(data, nodes, x)
    ensures var positive := PositiveOnly(s, Rolled(data, AmountIn(data)));
            forall k :: 0 <= k < |positive| ==> 0 <= positive[k] < |nodes|
  {
    PositiveOnlyMembers(s, Rolled(data, AmountIn(data)));
    var positive := PositiveOnly(s, Rolled(data, AmountIn(data)));
    forall k | 0 <= k < |positive| ensures 0 <= positive[k] < |nodes| {
      assert positive[k] in positive;
      assert Finished(data, nodes, positive[k]);
    }
  }

  lemma {:induction false} BigKid(data: seq<Tag>, p: int)
    requires WellLinked(data) && PositiveAmounts(data) && 0 <= p < |data|
    requires !NoneTooBig(Kids(data, p), Rolled(data, AmountIn(data)))
    ensures Rolled(data, AmountIn(data))(p) > MAX_INT64
  {
    var k :| 0 <= k < |Kids(data, p)| && Total(data, Kids(data, p)[k]) > MAX_INT64;
    KidsAreChildren(data, p);
    assert Kids(data, p)[k] in Kids(data, p);
    KidTotal(data, p, Kids(data, p)[k]);
  }

  lemma {:induction false} BigRoot(data: seq<Tag>)
    requires WellLinked(data) && PositiveAmounts(data)
    requires !NoneTooBig(Roots(data), Rolled(data, AmountIn(data)))
    ensures Sum(Range(|data|), AmountIn(data)) > MAX_INT64
  {
    var k :| 0 <= k < |Roots(data)| && Total(data, Roots(data)[k]) > MAX_INT64;
    TotalBounds(data, Roots(data)[k]);
  }

  lemma {:induction false} RankedByTotal(data: seq<Tag>, nodes: seq<Node>, s: seq<int>, positive: seq<int>, ranked: seq<int>)
    requires WellLinked(data) && forall x :: x in s ==> Finished(data, nodes, x)
    requires positive == PositiveOnly(s, Rolled(data, AmountIn(data)))
    requires multiset(ranked) == multiset(positive) && Descending(nodes, ranked)
    ensures IsRanking(data, s, ranked)
    ensures IsTable(nodes, ranked, Rolled(data, AmountIn(data)), Rolled(data, CountIn(data)))
  {
    PositiveOnlyMembers(s, Rolled(data, AmountIn(data)));
    forall k | 0 <= k < |ranked|
      ensures Finished(data, nodes, ranked[k]) && Rolled(data, AmountIn(data))(ranked[k]) > 0
    {
      assert ranked[k] in multiset(ranked);
      assert ranked[k] in positive;
    }
  }

  ghost predicate DoneOn(data: seq<Tag>, nodes: seq<Node>, ids: set<int>)
    requires WellLinked(data)
  {
    |nodes| == |data| && forall j :: j in ids ==> 0 <= j < |data| && Done(data, j, nodes[j])
  }

  /** Every tag has its subtree's amount and count and its children ranked. */
  ghost predicate AllDone(data: seq<Tag>, nodes: seq<Node>)
    requires WellLinked(data)
  {
    |nodes| == |data| && forall i :: 0 <= i < |data| ==> Done(data, i, nodes[i])
  }

  lemma {:induction false} DoneEverywhere(data: seq<Tag>, nodes: seq<Node>, ids: set<int>)
    requires WellLinked(data) && DoneOn(data, nodes, ids) && forall i :: 0 <= i < |data| ==> i in ids
    ensures AllDone(data, nodes)
  {
  }

  lemma {:induction false} RootsDone(data: seq<Tag>, nodes: seq<Node>)
    requires WellLinked(data) && DoneOn(data, nodes, Below(data, Roots(data)))
    ensures AllDone(data, nodes)
  {
    RootsCoverAll(data);
    DoneEverywhere(data, nodes, Below(data, Roots(data)));
  }

  lemma {:induction false} DoneMeansRanked(data: seq<Tag>, i: int, node: Node)
    requires WellLinked(data) && 0 <= i < |data| && Done(data, i, node)
    ensures IsRanking(data, Kids(data, i), node.children)
  {
  }

  /** The nodes as the builder left them. */
  ghost predicate FreshOn(data: seq<Tag>, nodes: seq<Node>, ids: set<int>) {
    |nodes| == |data| && forall j :: j in ids ==> 0 <= j < |data| && nodes[j].children == Kids(data, j)
  }

  ghost predicate SameOutside(before: seq<Node>, after: seq<Node>, ids: set<int>) {
    |before| == |after| && forall j :: 0 <= j < |before| && j !in ids ==> before[j] == after[j]
  }

  lemma {:induction false} OutsideIsFresh(data: seq<Tag>, before: seq<Node>, after: seq<Node>, all: set<int>, changed: set<int>, ids: set<int>)
    requires FreshOn(data, before, all) && SameOutside(before, after, changed) && ids <= all && ids !! changed
    ensures FreshOn(data, after, ids)
  {
  }

  lemma {:induction false} DoneOnMore(data: seq<Tag>, before: seq<Node>, after: seq<Node>, done: set<int>, more: set<int>)
    requires WellLinked(data) && done !! more
    requires DoneOn(data, before, done) && SameOutside(before, after, more) && DoneOn(data, after, more)
    ensures DoneOn(data, after, done + more)
  {
    forall j | j in done + more ensures 0 <= j < |data| && Done(data, j, after[j]) {
      if j in done { assert Done(data, j, before[j]); }
    }
  }

  lemma {:induction false} SameOutsideBoth(a: seq<Node>, b: seq<Node>, c: seq<Node>, ids: set<int>, more: set<int>)
    requires SameOutside(a, b, ids) && SameOutside(b, c, more)
    ensures SameOutside(a, c, ids + more)
  {
  }

  /** Setting the top node completes a subtree whose children are done. */
  lemma {:induction false} TopDone(data: seq<Tag>, start: seq<Node>, nodes: seq<Node>, i: int, node: Node, below: set<int>, whole: set<int>)
    requires WellLinked(data) && 0 <= i < |data| && Done(data, i, node) && i !in below
    requires whole == {i} + below
    requires DoneOn(data, nodes, below) && SameOutside(start, nodes, below) && |nodes| == |data|
    ensures DoneOn(data, nodes[i := node], whole)
    ensures SameOutside(start, nodes[i := node], whole)
  {
    var after := nodes[i := node];
    assert SameOutside(nodes, after, {i});
    assert DoneOn(data, after, {i}) by {
      forall j | j in {i} ensures 0 <= j < |data| && Done(data, j, after[j]) {
      }
    }
    DoneOnMore(data, nodes, after, below, {i});
    SameOutsideBoth(start, nodes, after, below, {i});
    assert below + {i} == whole;
  }

  lemma {:induction false} NodeDone(data: seq<Tag>, start: seq<Node>, nodes: seq<Node>, i: int, node: Node)
    requires WellLinked(data) && 0 <= i < |data| && IsRanking(data, Kids(data, i), node.children)
    requires node.amount == Rolled(data, AmountIn(data))(i) && node.count == Rolled(data, CountIn(data))(i)
    requires DoneOn(data, nodes, Below(data, Kids(data, i))) && |nodes| == |data|
    requires SameOutside(start, nodes, Below(data, Kids(data, i)))
    ensures DoneOn(data, nodes[i := node], Subtree(data, i))
    ensures SameOutside(start, nodes[i := node], Subtree(data, i))
  {
    SubtreeIsKids(data, i);
    TopDone(data, start, nodes, i, node, Below(data, Kids(data, i)), Subtree(data, i));
  }

  ghost predicate NoneTooBig(tops: seq<int>, totals: int -> int) {
    forall k :: 0 <= k < |tops| ==> totals(tops[k]) <= MAX_INT64
  }

  lemma {:induction false} OneMoreFits(tops: seq<int>, totals: int -> int, k: nat)
    requires k < |tops| && NoneTooBig(tops[..k], totals)
    ensures totals(tops[k]) <= MAX_INT64 ==> NoneTooBig(tops[..k + 1], totals)
    ensures totals(tops[k]) > MAX_INT64 ==> !NoneTooBig(tops, totals)
  {
  }

  class Rollup {
    const data: seq<Tag>
    var nodes: seq<Node>
    var roots: seq<int>

    ghost predicate Valid()
      reads this
    {
      WellLinked(data) && PositiveAmounts(data) && |nodes| == |data|
    }

    constructor (tags: seq<Tag>, forest: Forest)
      requires WellLinked(tags) && PositiveAmounts(tags) && IsForestOf(tags, forest)
      ensures data == tags && Valid() && roots == Roots(tags) && FreshOn(data, nodes, Range(|data|))
    {
      data := tags;
      roots := forest.roots;
      var built: seq<Node> := [];
      for i := 0 to |tags|
        invariant |built| == i && forall j :: 0 <= j < i ==> built[j].children == Kids(tags, j)
      {
        built := built + [Node(forest.children[i], 0, 0)];
      }
      nodes := built;
    }

    ghost function Totals(): int -> int
      requires WellLinked(data)
    {
      Rolled(data, AmountIn(data))
    }

    ghost function Counts(): int -> int
      requires WellLinked(data)
    {
      Rolled(data, CountIn(data))
    }

    /** Rolls up one tag with everything under it. */
    method RollupNode(i: int) returns (ok: bool)
      requires Valid() && 0 <= i < |data| && FreshOn(data, nodes, Subtree(data, i))
      modifies this`nodes
      ensures Valid()
      ensures ok == (Totals()(i) <= MAX_INT64)
      ensures ok ==> DoneOn(data, nodes, Subtree(data, i))
      ensures ok ==> SameOutside(old(nodes), nodes, Subtree(data, i))
      decreases 4 - Rank(data, i), 0
    {
      RankIsLevel(data, i);
      KidsOneLevel(data, i);
      ghost var start := nodes;
      FreshKids(data, nodes, i);
      var kids := nodes[i].children;
      var positive;
      ok, positive := RollupAll(kids, data[i].level + 1);
      if !ok {
        BigKid(data, i);
        return;
      }
      ok := FinishNode(i, kids, positive, start);
    }

    /** Ranks the positive children and sets the node's own amount and count. */
    method FinishNode(i: int, kids: seq<int>, positive: seq<int>, ghost start: seq<Node>) returns (ok: bool)
      requires Valid() && 0 <= i < |data| && kids == Kids(data, i) && positive == PositiveOnly(kids, Totals())
      requires DoneOn(data, nodes, Below(data, kids)) && SameOutside(start, nodes, Below(data, kids))
      modifies this`nodes
      ensures Valid()
      ensures ok == (Totals()(i) <= MAX_INT64)
      ensures ok ==> DoneOn(data, nodes, Subtree(data, i))
      ensures ok ==> SameOutside(start, nodes, Subtree(data, i))
    {
      KidsInRange(data, i);
      AllFinished(data, nodes, kids);
      var ranked := Sorted(kids, positive);
      NodeSums(data, i, ranked);
      var sum := AddUp(nodes, data[i].amount, data[i].count, ranked, Totals(), Counts());
      if sum.None? {
        return false;
      }
      NodeDone(data, start, nodes, i, Node(ranked, sum.value.0, sum.value.1));
      nodes := nodes[i := Node(ranked, sum.value.0, sum.value.1)];
      return true;
    }

    /** Sorts the positive ones among finished tags. */
    method Sorted(s: seq<int>, positive: seq<int>) returns (ranked: seq<int>)
      requires Valid() && (forall x :: x in s ==> Finished(data, nodes, x))
      requires positive == PositiveOnly(s, Totals())
      ensures IsRanking(data, s, ranked)
      ensures IsTable(nodes, ranked, Totals(), Counts())
    {
      PositiveInRange(data, nodes, s);
      ranked := SortByAmount(nodes, positive);
      RankedByTotal(data, nodes, s, positive, ranked);
    }

    /** Rolls up several tags of one level and keeps those with a positive amount. */
    method RollupAll(tops: seq<int>, level: nat) returns (ok: bool, positive: seq<int>)
      requires Valid() && level <= 4 && OneLevel(data, tops, level)
      requires FreshOn(data, nodes, Below(data, tops))
      modifies this`nodes
      ensures Valid()
      ensures (ok) == NoneTooBig(tops, Totals())
      ensures ok ==> positive == PositiveOnly(tops, Totals())
      ensures ok ==> DoneOn(data, nodes, Below(data, tops))
      ensures ok ==> SameOutside(old(nodes), nodes, Below(data, tops))
      decreases 4 - level, 1
    {
      positive := [];
      ghost var start := nodes;
      for k := 0 to |tops|
        invariant Valid()
        invariant NoneTooBig(tops[..k], Totals())
        invariant positive == PositiveOnly(tops[..k], Totals())
        invariant DoneOn(data, nodes, Below(data, tops[..k]))
        invariant SameOutside(start, nodes, Below(data, tops[..k]))
      {
        OneMoreTop(data, tops, level, k);
        OneMoreFits(tops, Totals(), k);
        OutsideIsFresh(data, start, nodes, Below(data, tops), Below(data, tops[..k]), Subtree(data, tops[k]));
        ghost var before := nodes;
        ok := RollupNode(tops[k]);
        if !ok {
          return;
        }
        DoneOnMore(data, before, nodes, Below(data, tops[..k]), Subtree(data, tops[k]));
        SameOutsideBoth(start, before, nodes, Below(data, tops[..k]), Subtree(data, tops[k]));
        DoneTop(data, nodes, tops[k]);
        if nodes[tops[k]].amount > 0 {
          positive := positive + [tops[k]];
        }
      }
      assert tops[..|tops|] == tops;
      return true, positive;
    }

    /** Rolls up the whole forest and totals it. */
    method RollupForest() returns (total: Option<Int64>)
      requires Valid() && roots == Roots(data) && FreshOn(data, nodes, Range(|data|))
      modifies this
      ensures Valid()
      ensures total.Some? <==> Sum(Range(|data|), AmountIn(data)) <= MAX_INT64
      ensures total.Some? ==> total.value == Sum(Range(|data|), AmountIn(data))
      ensures total.Some? ==> AllDone(data, nodes)
      ensures total.Some? ==> IsRanking(data, Roots(data), roots)
    {
      RootsOneLevel(data);
      RolledRoots(data, AmountIn(data));
      RootsCoverAll(data);
      var ok, positive := RollupAll(roots, 1);
      if !ok {
        BigRoot(data);
        return None;
      }
      AllFinished(data, nodes, roots);
      RootsDone(data, nodes);
      var ranked := Sorted(roots, positive);
      RankingSums(data, roots, ranked);
      var sum := AddUp(nodes, 0, 0, ranked, Totals(), Counts());
      roots := ranked;
      return if sum.Some? then Some(sum.value.0) else None;
    }
  }

  lemma {:induction false} FreshKids(data: seq<Tag>, nodes: seq<Node>, i: int)
    requires WellLinked(data) && 0 <= i < |data| && FreshOn(data, nodes, Subtree(data, i))
    ensures nodes[i].children == Kids(data, i)
    ensures FreshOn(data, nodes, Below(data, Kids(data, i)))
  {
    SubtreeIsKids(data, i);
  }

  lemma {:induction false} DoneTop(data: seq<Tag>, nodes: seq<Node>, top: int)
    requires WellLinked(data) && 0 <= top < |data| && DoneOn(data, nodes, Subtree(data, top))
    ensures nodes[top].amount == Rolled(data, AmountIn(data))(top)
  {
    assert Under(data, top, top);
    assert Done(data, top, nodes[top]);
  }

  /** What a tag and its ranked children add up to. */
  lemma {:induction false} NodeSums(data: seq<Tag>, i: int, ranked: seq<int>)
    requires WellLinked(data) && PositiveAmounts(data) && 0 <= i < |data|
    requires IsRanking(data, Kids(data, i), ranked)
    ensures data[i].amount >= 0
    ensures Rolled(data, AmountIn(data))(i) == data[i].amount + SeqSum(ranked, Rolled(data, AmountIn(data)))
    ensures Rolled(data, CountIn(data))(i) == data[i].count + SeqSum(ranked, Rolled(data, CountIn(data)))
  {
    RolledStep(data, i, AmountIn(data));
    RolledStep(data, i, CountIn(data));
    RankingSums(data, Kids(data, i), ranked);
  }

  /** The node amounts and counts at `s` are the values of two functions. */
  ghost predicate IsTable(nodes: seq<Node>, s: seq<int>, f: int -> int, g: int -> int) {
    forall k :: 0 <= k < |s| ==>
      && 0 <= s[k] < |nodes|
      && nodes[s[k]].amount == f(s[k]) >= 0
      && nodes[s[k]].count == g(s[k])
  }

  /** Adds the amounts and counts of finished tags; fails exactly past the 64-bit maximum. */
  method AddUp(nodes: seq<Node>, amount: Int64, count: nat, s: seq<int>, ghost f: int -> int, ghost g: int -> int)
    returns (sum: Option<(Int64, nat)>)
    requires amount >= 0 && IsTable(nodes, s, f, g)
    ensures sum.Some? <==> amount + SeqSum(s, f) <= MAX_INT64
    ensures sum.Some? ==> sum.value.0 == amount + SeqSum(s, f) && sum.value.1 == count + SeqSum(s, g)
  {
    var a := amount;
    var c: nat := count;
    assert s[..0] == [];
    for k := 0 to |s|
      invariant Fits(a) && a == amount + SeqSum(s[..k], f)
      invariant c == count + SeqSum(s[..k], g)
    {
      assert s[..k + 1] == s[..k] + [s[k]];
      SeqSumSnoc(s[..k], s[k], f);
      SeqSumSnoc(s[..k], s[k], g);
      SeqSumPrefix(s, k, f);
      SeqSumPrefix(s, k + 1, f);
      var next := CheckedAdd(a, nodes[s[k]].amount);
      if next.None? {
        return None;
      }
      a := next.value;
      c := c + nodes[s[k]].count;
    }
    assert s[..|s|] == s;
    return Some((a, c));
  }

  ghost predicate Descending(nodes: seq<Node>, s: seq<int>) {
    && (forall k :: 0 <= k < |s| ==> 0 <= s[k] < |nodes|)
    && forall i, j :: 0 <= i < j < |s| ==> nodes[s[i]].amount >= nodes[s[j]].amount
  }

  lemma {:induction false} InsertKeepsOrder(nodes: seq<Node>, ranked: seq<int>, at: nat, x: int)
    requires Descending(nodes, ranked) && at <= |ranked| && 0 <= x < |nodes|
    requires forall i :: 0 <= i < at ==> nodes[ranked[i]].amount >= nodes[x].amount
    requires at < |ranked| ==> nodes[ranked[at]].amount < nodes[x].amount
    ensures Descending(nodes, ranked[..at] + [x] + ranked[at..])
  {
    var next := ranked[..at] + [x] + ranked[at..];
    forall k | 0 <= k < |next| ensures next[k] == if k < at then ranked[k] else if k == at then x else ranked[k - 1] {
    }
  }

  lemma {:induction false} InsertKeepsElements(ranked: seq<int>, at: nat, x: int)
    requires at <= |ranked|
    ensures multiset(ranked[..at] + [x] + ranked[at..]) == multiset(ranked) + multiset{x}
  {
    assert ranked == ranked[..at] + ranked[at..];
  }

  /** Where a tag belongs in a list sorted by amount, largest first. */
  method Position(nodes: seq<Node>, ranked: seq<int>, x: int) returns (at: nat)
    requires Descending(nodes, ranked) && 0 <= x < |nodes|
    ensures at <= |ranked|
    ensures forall i :: 0 <= i < at ==> nodes[ranked[i]].amount >= nodes[x].amount
    ensures at < |ranked| ==> nodes[ranked[at]].amount < nodes[x].amount
  {
    at := 0;
    while at < |ranked| && nodes[ranked[at]].amount >= nodes[x].amount
      invariant at <= |ranked|
      invariant forall i :: 0 <= i < at ==> nodes[ranked[i]].amount >= nodes[x].amount
    {
      at := at + 1;
    }
  }

  /** Sorts tags by rolled-up amount, largest first. */
  method SortByAmount(nodes: seq<Node>, s: seq<int>) returns (ranked: seq<int>)
    requires forall k :: 0 <= k < |s| ==> 0 <= s[k] < |nodes|
    ensures multiset(ranked) == multiset(s) && Descending(nodes, ranked)
  {
    ranked := [];
    for k := 0 to |s|
      invariant multiset(ranked) == multiset(s[..k]) && Descending(nodes, ranked)
    {
      var at := Position(nodes, ranked, s[k]);
      InsertKeepsOrder(nodes, ranked, at, s[k]);
      InsertKeepsElements(ranked, at, s[k]);
      assert s[..k + 1] == s[..k] + [s[k]];
      ranked := ranked[..at] + [s[k]] + ranked[at..];
    }
    assert s[..|s|] == s;
  }
}
