/** Building the summary tree under a node budget. */
module TagSummaries {
  import opened Options
  import opened Checked
  import opened Sums
  import opened TagForest
  import opened TagRollup

  /** What a summary says about one tag. */
  datatype Entry = Entry(id: int, name: string, amount: Int64, count: nat, ratio: real)

  datatype Summary = Summary(entry: Entry, children: seq<Summary>)

  // ----- truncation -----

  /** Keeps the first `budget` nodes met in preorder; also returns the unspent budget. */
  function Truncate(ts: seq<Summary>, budget: int): (seq<Summary>, int)
    decreases ts
  {
    if budget <= 0 || ts == [] then ([], budget)
    else
      var (children, left) := Truncate(ts[0].children, budget - 1);
      var (rest, unspent) := Truncate(ts[1..], left);
      ([Summary(ts[0].entry, children)] + rest, unspent)
  }

  /** A node's place in the tree is its depth and its position in this listing. */
  function Preorder(ts: seq<Summary>, depth: nat): seq<(nat, Entry)>
    decreases ts
  {
    if ts == [] then []
    else [(depth, ts[0].entry)] + Preorder(ts[0].children, depth + 1) + Preorder(ts[1..], depth)
  }

  function Size(ts: seq<Summary>): nat
    decreases ts
  {
    if ts == [] then 0 else 1 + Size(ts[0].children) + Size(ts[1..])
  }

  lemma {:induction false} SizeIsListing(ts: seq<Summary>, depth: nat)
    ensures |Preorder(ts, depth)| == Size(ts)
    decreases ts
  {
    if ts != [] {
      SizeIsListing(ts[0].children, depth + 1);
      SizeIsListing(ts[1..], depth);
    }
  }

  function Least(a: int, b: int): int {
    if a <= b then a else b
  }

  function Take<T>(s: seq<T>, n: nat): seq<T> {
    if n <= |s| then s[..n] else s
  }

  lemma {:induction false} TakeOfTwo<T>(x: T, a: seq<T>, b: seq<T>, n: nat, left: nat)
    requires n > 0 && left == n - 1 - Least(n - 1, |a|)
    ensures [x] + Take(a, n - 1) + Take(b, left) == Take([x] + a + b, n)
    ensures left - Least(left, |b|) == n - Least(n, |[x] + a + b|)
  {
  }

  /** Truncation keeps a prefix of the preorder listing, each node at its depth and
      with its amounts, so the kept nodes are closed under ancestors; and it keeps
      as many as the budget allows. */
  lemma {:induction false} TruncateIsPrefix(ts: seq<Summary>, budget: nat, depth: nat)
    ensures Preorder(Truncate(ts, budget).0, depth) == Take(Preorder(ts, depth), budget)
    ensures Truncate(ts, budget).1 == budget - Least(budget, |Preorder(ts, depth)|)
    decreases ts
  {
    if budget > 0 && ts != [] {
      var (children, left) := Truncate(ts[0].children, budget - 1);
      var (rest, _) := Truncate(ts[1..], left);
      TruncateIsPrefix(ts[0].children, budget - 1, depth + 1);
      TruncateIsPrefix(ts[1..], left, depth);
      TakeOfTwo((depth, ts[0].entry), Preorder(ts[0].children, depth + 1), Preorder(ts[1..], depth), budget, left);
      ListingOfCons(Summary(ts[0].entry, children), rest, depth);
    }
  }

  lemma {:induction false} ListingOfCons(t: Summary, rest: seq<Summary>, depth: nat)
    ensures Preorder([t] + rest, depth) == [(depth, t.entry)] + Preorder(t.children, depth + 1) + Preorder(rest, depth)
  {
    assert ([t] + rest)[1..] == rest;
  }

  lemma {:induction false} ListingDepths(ts: seq<Summary>, depth: nat)
    ensures forall k :: 0 <= k < |Preorder(ts, depth)| ==> Preorder(ts, depth)[k].0 >= depth
    ensures ts != [] ==> Preorder(ts, depth) != [] && Preorder(ts, depth)[0] == (depth, ts[0].entry)
    decreases ts
  {
    if ts != [] {
      ListingDepths(ts[0].children, depth + 1);
      ListingDepths(ts[1..], depth);
    }
  }

  lemma {:induction false} SplitByDepth(a: seq<(nat, Entry)>, b: seq<(nat, Entry)>, c: seq<(nat, Entry)>, d: seq<(nat, Entry)>, depth: nat)
    requires a + b == c + d
    requires forall k :: 0 <= k < |a| ==> a[k].0 > depth
    requires forall k :: 0 <= k < |c| ==> c[k].0 > depth
    requires b != [] ==> b[0].0 == depth
    requires d != [] ==> d[0].0 == depth
    ensures a == c && b == d
  {
    NoLonger(a, b, c, d, depth);
    NoLonger(c, d, a, b, depth);
    assert a == (a + b)[..|a|] && c == (c + d)[..|c|];
    assert b == (a + b)[|a|..] && d == (c + d)[|c|..];
  }

  lemma {:induction false} NoLonger(a: seq<(nat, Entry)>, b: seq<(nat, Entry)>, c: seq<(nat, Entry)>, d: seq<(nat, Entry)>, depth: nat)
    requires a + b == c + d
    requires forall k :: 0 <= k < |c| ==> c[k].0 > depth
    requires b != [] ==> b[0].0 == depth
    ensures |c| <= |a|
  {
    assert b != [] ==> (a + b)[|a|] == b[0];
    assert forall k :: 0 <= k < |c| ==> (c + d)[k] == c[k];
  }

  /** The listing determines the forest, so a truncated forest is the only one with
      that prefix. */
  lemma {:induction false} ListingDetermines(a: seq<Summary>, b: seq<Summary>, depth: nat)
    requires Preorder(a, depth) == Preorder(b, depth)
    ensures a == b
    decreases a
  {
    ListingDepths(a, depth);
    ListingDepths(b, depth);
    if a != [] && b != [] {
      var kidsA, restA := Preorder(a[0].children, depth + 1), Preorder(a[1..], depth);
      var kidsB, restB := Preorder(b[0].children, depth + 1), Preorder(b[1..], depth);
      TailOfListing(a, depth);
      TailOfListing(b, depth);
      ListingDepths(a[0].children, depth + 1);
      ListingDepths(b[0].children, depth + 1);
      ListingDepths(a[1..], depth);
      ListingDepths(b[1..], depth);
      SplitByDepth(kidsA, restA, kidsB, restB, depth);
      ListingDetermines(a[0].children, b[0].children, depth + 1);
      ListingDetermines(a[1..], b[1..], depth);
      assert a == [a[0]] + a[1..] && b == [b[0]] + b[1..];
    }
  }

  lemma {:induction false} TailOfListing(ts: seq<Summary>, depth: nat)
    requires ts != []
    ensures Preorder(ts, depth) != []
    ensures Preorder(ts, depth)[1..] == Preorder(ts[0].children, depth + 1) + Preorder(ts[1..], depth)
  {
  }

  // ----- from the rolled-up forest to summaries -----

  ghost predicate AtLevel(data: seq<Tag>, indexes: seq<int>, level: nat) {
    forall k :: 0 <= k < |indexes| ==> 0 <= indexes[k] < |data| && data[indexes[k]].level == level
  }

  /** Every listed child is one level below, and there are three levels. */
  ghost predicate Layered(data: seq<Tag>, nodes: seq<Node>) {
    && |nodes| == |data|
    && forall i :: 0 <= i < |data| ==> 1 <= data[i].level <= 3 && AtLevel(data, nodes[i].children, data[i].level + 1)
  }

  /** A rolled-up forest only lists children. */
  lemma {:induction false} DoneIsLayered(data: seq<Tag>, nodes: seq<Node>)
    requires WellLinked(data) && AllDone(data, nodes)
    ensures Layered(data, nodes)
  {
    forall i | 0 <= i < |data|
      ensures 1 <= data[i].level <= 3 && AtLevel(data, nodes[i].children, data[i].level + 1)
    {
      DoneAtLevel(data, i, nodes[i]);
    }
  }

  lemma {:induction false} DoneAtLevel(data: seq<Tag>, i: int, node: Node)
    requires WellLinked(data) && 0 <= i < |data| && Done(data, i, node)
    ensures 1 <= data[i].level <= 3 && AtLevel(data, node.children, data[i].level + 1)
  {
    RankIsLevel(data, i);
    DoneMeansRanked(data, i, node);
    ListedAtLevel(data, i, node.children);
  }

  lemma {:induction false} ListedAtLevel(data: seq<Tag>, i: int, listed: seq<int>)
    requires WellLinked(data) && 0 <= i < |data| && data[i].level >= 1 && IsRanking(data, Kids(data, i), listed)
    ensures AtLevel(data, listed, data[i].level + 1)
  {
    KidsAreChildren(data, i);
    forall k | 0 <= k < |listed| ensures 0 <= listed[k] < |data| && data[listed[k]].level == data[i].level + 1 {
      RankedAreListed(data, Kids(data, i), listed, listed[k]);
      LinkedDeeper(data, i, listed[k]);
    }
  }

  lemma {:induction false} ChildrenAtLevel(data: seq<Tag>, nodes: seq<Node>, indexes: seq<int>, k: nat, level: nat)
    requires Layered(data, nodes) && AtLevel(data, indexes, level) && k < |indexes|
    ensures |nodes| == |data| && 0 <= indexes[k] < |data| && 1 <= level <= 3
    ensures AtLevel(data, nodes[indexes[k]].children, level + 1)
  {
  }

  function Ratio(amount: int, total: int): real {
    if total > 0 then amount as real / total as real else 0.0
  }

  function EntryOf(data: seq<Tag>, nodes: seq<Node>, i: int, total: Int64): Entry
    requires 0 <= i < |data| && |nodes| == |data|
  {
    Entry(data[i].id, data[i].name, nodes[i].amount, nodes[i].count, Ratio(nodes[i].amount, total))
  }

  /** The summary of everything under the tags from the `k`-th on. */
  ghost function Full(data: seq<Tag>, nodes: seq<Node>, indexes: seq<int>, k: nat, level: nat, total: Int64): seq<Summary>
    requires Layered(data, nodes) && AtLevel(data, indexes, level) && k <= |indexes|
    decreases if level <= 4 then 4 - level else 0, |indexes| - k
  {
    if k == |indexes| then []
    else
      ChildrenAtLevel(data, nodes, indexes, k, level);
      [Summary(EntryOf(data, nodes, indexes[k], total), Full(data, nodes, nodes[indexes[k]].children, 0, level + 1, total))]
      + Full(data, nodes, indexes, k + 1, level, total)
  }

  class Builder {
    const data: seq<Tag>
    const nodes: seq<Node>
    const total: Int64
    const maxNodes: int
    var remaining: int

    constructor (data: seq<Tag>, nodes: seq<Node>, total: Int64, maxNodes: int)
      ensures this.data == data && this.nodes == nodes && this.total == total && this.maxNodes == maxNodes
      ensures remaining == maxNodes
    {
      this.data, this.nodes, this.total, this.maxNodes := data, nodes, total, maxNodes;
      remaining := maxNodes;
    }

    ghost predicate Ready() {
      Layered(data, nodes) && |nodes| == |data|
    }

    ghost function Tree(indexes: seq<int>, k: nat, level: nat): seq<Summary>
      requires Ready() && AtLevel(data, indexes, level) && k <= |indexes|
    {
      Full(data, nodes, indexes, k, level, total)
    }

    lemma {:induction false} TreeStep(indexes: seq<int>, k: nat, level: nat)
      requires Ready() && AtLevel(data, indexes, level) && k < |indexes|
      ensures 0 <= indexes[k] < |data| && level <= 3 && AtLevel(data, nodes[indexes[k]].children, level + 1)
      ensures Tree(indexes, k, level) != []
      ensures Tree(indexes, k, level)[0]
           == Summary(EntryOf(data, nodes, indexes[k], total), Tree(nodes[indexes[k]].children, 0, level + 1))
      ensures Tree(indexes, k, level)[1..] == Tree(indexes, k + 1, level)
    {
      ChildrenAtLevel(data, nodes, indexes, k, level);
    }

    lemma {:induction false} TreeEnd(indexes: seq<int>, level: nat)
      requires Ready() && AtLevel(data, indexes, level)
      ensures Tree(indexes, |indexes|, level) == []
    {
    }

    /** How many summaries an unlimited answer would hold. */
    method CountVisible(indexes: seq<int>, level: nat) returns (count: nat)
      requires Ready() && level <= 4 && AtLevel(data, indexes, level)
      ensures count == Size(Tree(indexes, 0, level))
      decreases 4 - level
    {
      count := 0;
      for k := 0 to |indexes|
        invariant count + Size(Tree(indexes, k, level)) == Size(Tree(indexes, 0, level))
      {
        TreeStep(indexes, k, level);
        var children := CountVisible(nodes[indexes[k]].children, level + 1);
        count := count + 1 + children;
      }
      TreeEnd(indexes, level);
    }

    /** Builds summaries while budget remains; without a budget, builds them all. */
    method MaterializeIndexes(indexes: seq<int>, level: nat) returns (summaries: seq<Summary>)
      requires Ready() && level <= 4 && AtLevel(data, indexes, level)
      modifies this
      ensures Completes(summaries, remaining, Tree(indexes, 0, level), old(remaining), maxNodes)
      decreases 4 - level
    {
      summaries := [];
      ghost var all, budget := Tree(indexes, 0, level), remaining;
      NothingDone(all, remaining, maxNodes);
      for k := 0 to |indexes|
        invariant Resumes(summaries, Tree(indexes, k, level), remaining, all, budget, maxNodes)
      {
        if maxNodes > 0 && remaining <= 0 {
          BudgetSpent(summaries, Tree(indexes, k, level), remaining, all, budget, maxNodes);
          return;
        }
        ghost var before := remaining;
        if maxNodes > 0 {
          remaining := remaining - 1;
        }
        TreeStep(indexes, k, level);
        var children := MaterializeIndexes(nodes[indexes[k]].children, level + 1);
        OneMoreSummary(summaries, Tree(indexes, k, level), before, children, remaining, all, budget, maxNodes);
        summaries := summaries + [Summary(EntryOf(data, nodes, indexes[k], total), children)];
      }
      TreeEnd(indexes, level);
      NothingLeft(summaries, remaining, all, budget, maxNodes);
    }

    /** The bounded answer is the plain truncation of the whole one, and is reported
        as truncated exactly when the whole one exceeds the budget. */
    method Materialize(roots: seq<int>) returns (summaries: seq<Summary>, truncated: bool)
      requires Ready() && AtLevel(data, roots, 1) && remaining == maxNodes
      modifies this
      ensures summaries == if maxNodes > 0 then Truncate(Tree(roots, 0, 1), maxNodes).0 else Tree(roots, 0, 1)
      ensures truncated == (maxNodes > 0 && Size(Tree(roots, 0, 1)) > maxNodes)
      ensures maxNodes > 0 ==> Size(summaries) == Least(Size(Tree(roots, 0, 1)), maxNodes)
      ensures maxNodes > 0 ==> Preorder(summaries, 1) == Take(Preorder(Tree(roots, 0, 1), 1), maxNodes)
      ensures !truncated ==> summaries == Tree(roots, 0, 1)
    {
      truncated := false;
      if maxNodes > 0 {
        var visible := CountVisible(roots, 1);
        truncated := visible > maxNodes;
      }
      summaries := MaterializeIndexes(roots, 1);
      if maxNodes > 0 {
        BudgetMet(Tree(roots, 0, 1), maxNodes);
      }
    }
  }

  /** A whole piece of work: the truncation to the budget when there is one. */
  ghost predicate Completes(done: seq<Summary>, left: int, all: seq<Summary>, budget: int, maxNodes: int) {
    if maxNodes > 0 then Truncate(all, budget) == (done, left) else done == all && left == budget
  }

  /** What is done, followed by the rest under what is left of the budget, is the whole work. */
  ghost predicate Resumes(done: seq<Summary>, rest: seq<Summary>, left: int, all: seq<Summary>, budget: int, maxNodes: int) {
    if maxNodes > 0 then Truncate(all, budget) == (done + Truncate(rest, left).0, Truncate(rest, left).1)
    else done + rest == all && left == budget
  }

  lemma {:induction false} NothingDone(all: seq<Summary>, budget: int, maxNodes: int)
    ensures Resumes([], all, budget, all, budget, maxNodes)
  {
    assert [] + Truncate(all, budget).0 == Truncate(all, budget).0;
    assert [] + all == all;
  }

  lemma {:induction false} OneMoreSummary(done: seq<Summary>, rest: seq<Summary>, left: int, children: seq<Summary>, after: int,
                       all: seq<Summary>, budget: int, maxNodes: int)
    requires Resumes(done, rest, left, all, budget, maxNodes) && rest != [] && (maxNodes > 0 ==> left > 0)
    requires Completes(children, after, rest[0].children, if maxNodes > 0 then left - 1 else left, maxNodes)
    ensures Resumes(done + [Summary(rest[0].entry, children)], rest[1..], after, all, budget, maxNodes)
  {
    if maxNodes > 0 {
      assert done + ([Summary(rest[0].entry, children)] + Truncate(rest[1..], after).0)
          == done + [Summary(rest[0].entry, children)] + Truncate(rest[1..], after).0;
    } else {
      assert done + rest == done + [rest[0]] + rest[1..];
    }
  }

  lemma {:induction false} BudgetSpent(done: seq<Summary>, rest: seq<Summary>, left: int, all: seq<Summary>, budget: int, maxNodes: int)
    requires Resumes(done, rest, left, all, budget, maxNodes) && maxNodes > 0 && left <= 0
    ensures Completes(done, left, all, budget, maxNodes)
  {
    assert done + [] == done;
  }

  lemma {:induction false} NothingLeft(done: seq<Summary>, left: int, all: seq<Summary>, budget: int, maxNodes: int)
    requires Resumes(done, [], left, all, budget, maxNodes)
    ensures Completes(done, left, all, budget, maxNodes)
  {
    assert done + [] == done;
  }

  lemma {:induction false} BudgetMet(ts: seq<Summary>, budget: nat)
    ensures Size(Truncate(ts, budget).0) == Least(Size(ts), budget)
    ensures Preorder(Truncate(ts, budget).0, 1) == Take(Preorder(ts, 1), budget)
    ensures Size(ts) <= budget ==> Truncate(ts, budget).0 == ts
  {
    TruncateIsPrefix(ts, budget, 1);
    SizeIsListing(ts, 1);
    SizeIsListing(Truncate(ts, budget).0, 1);
    if Size(ts) <= budget {
      ListingDetermines(Truncate(ts, budget).0, ts, 1);
    }
  }

  lemma {:induction false} RankedRootsAtLevel(data: seq<Tag>, roots: seq<int>)
    requires WellLinked(data) && IsRanking(data, Roots(data), roots)
    ensures AtLevel(data, roots, 1)
  {
    WithParentMembers(data, None, |data|);
    forall k | 0 <= k < |roots| ensures 0 <= roots[k] < |data| && data[roots[k]].level == 1 {
      RankedAreListed(data, Roots(data), roots, roots[k]);
      LinkedTag(data, roots[k]);
    }
  }

  lemma {:induction false} ReadyToBuild(data: seq<Tag>, nodes: seq<Node>, roots: seq<int>)
    requires WellLinked(data) && AllDone(data, nodes) && IsRanking(data, Roots(data), roots)
    ensures Layered(data, nodes) && AtLevel(data, roots, 1)
  {
    DoneIsLayered(data, nodes);
    RankedRootsAtLevel(data, roots);
  }

  // ----- what the whole answer says -----

  /** An entry with the amount and the count of a whole subtree, and its share of the total. */
  ghost predicate ReportsTag(data: seq<Tag>, i: int, e: Entry, total: int)
    requires WellLinked(data)
  {
    && 0 <= i < |data| && e.id == data[i].id && e.name == data[i].name
    && e.amount == Total(data, i) && e.count == Count(data, i) && e.ratio == (if total > 0 then Total(data, i) as real / total as real else 0.0)
  }

  /** One summary for each of some tags with a positive subtree sum, largest first, and
      below it the same for its children. */
  ghost predicate Reports(data: seq<Tag>, tags: seq<int>, ts: seq<Summary>, total: int)
    requires WellLinked(data)
    decreases ts
  {
    exists ranked :: ReportsRanked(data, tags, ranked, ts, total)
  }

  ghost predicate ReportsRanked(data: seq<Tag>, tags: seq<int>, ranked: seq<int>, ts: seq<Summary>, total: int)
    requires WellLinked(data)
    decreases ts, 0
  {
    && IsRanking(data, tags, ranked) && |ts| == |ranked|
    && forall k :: 0 <= k < |ts| ==> ReportsTag(data, ranked[k], ts[k].entry, total) && Reports(data, Kids(data, ranked[k]), ts[k].children, total)
  }

  lemma {:induction false} FullAt(data: seq<Tag>, nodes: seq<Node>, indexes: seq<int>, k: nat, level: nat, total: Int64, j: nat)
    requires Layered(data, nodes) && AtLevel(data, indexes, level) && k <= j < |indexes|
    ensures |nodes| == |data| && 0 <= indexes[j] < |data| && 1 <= level <= 3 && AtLevel(data, nodes[indexes[j]].children, level + 1)
    ensures var all := Full(data, nodes, indexes, k, level, total);
            |all| == |indexes| - k
            && all[j - k] == Summary(EntryOf(data, nodes, indexes[j], total), Full(data, nodes, nodes[indexes[j]].children, 0, level + 1, total))
    decreases |indexes| - k
  {
    ChildrenAtLevel(data, nodes, indexes, j, level);
    ChildrenAtLevel(data, nodes, indexes, k, level);
    if k < j {
      FullAt(data, nodes, indexes, k + 1, level, total, j);
    } else if k + 1 < |indexes| {
      FullAt(data, nodes, indexes, k + 1, level, total, k + 1);
    }
  }

  /** The untruncated answer reports every tag with its subtree sums. */
  lemma {:induction false} FullReports(data: seq<Tag>, nodes: seq<Node>, tags: seq<int>, indexes: seq<int>, level: nat, total: Int64)
    requires WellLinked(data) && AllDone(data, nodes) && Layered(data, nodes) && AtLevel(data, indexes, level)
    requires IsRanking(data, tags, indexes)
    ensures Reports(data, tags, Full(data, nodes, indexes, 0, level, total), total)
    decreases if level <= 4 then 4 - level else 0
  {
    var all := Full(data, nodes, indexes, 0, level, total);
    if indexes != [] {
      FullAt(data, nodes, indexes, 0, level, total, 0);
    }
    forall k | 0 <= k < |all|
      ensures ReportsTag(data, indexes[k], all[k].entry, total) && Reports(data, Kids(data, indexes[k]), all[k].children, total)
    {
      FullAt(data, nodes, indexes, 0, level, total, k);
      var i := indexes[k];
      assert Done(data, i, nodes[i]);
      FullReports(data, nodes, Kids(data, i), nodes[i].children, level + 1, total);
    }
    assert ReportsRanked(data, tags, indexes, all, total);
  }

  /** From scanned tags to the answer: refused exactly for a malformed forest or a grand
      total past 64 bits; else the first nodes, as many as a positive budget allows, of the
      tree that reports every tag with a positive subtree sum. */
  method Summarize(data: seq<Tag>, maxNodes: int) returns (r: Option<(seq<Summary>, bool)>, ghost full: seq<Summary>)
    requires PositiveAmounts(data)
    ensures r.Some? <==> WellFormed(data) && Sum(Range(|data|), AmountIn(data)) <= MAX_INT64
    ensures r.Some? ==> WellLinked(data) && Reports(data, Roots(data), full, Sum(Range(|data|), AmountIn(data)))
    ensures r.Some? && maxNodes > 0 ==>
      r.value.0 == Truncate(full, maxNodes).0 && Preorder(r.value.0, 1) == Take(Preorder(full, 1), maxNodes)
      && (r.value.1 <==> Size(full) > maxNodes)
    ensures r.Some? && maxNodes <= 0 ==> r.value == (full, false)
  {
    full := [];
    WellFormedLocally(data);
    var forest := BuildForest(data);
    if forest.Err? {
      return None, [];
    }
    var rollup := new Rollup(data, forest.value);
    var total := rollup.RollupForest();
    if total.None? {
      return None, [];
    }
    ReadyToBuild(data, rollup.nodes, rollup.roots);
    FullReports(data, rollup.nodes, Roots(data), rollup.roots, 1, total.value);
    var builder := new Builder(data, rollup.nodes, total.value, maxNodes);
    full := builder.Tree(rollup.roots, 0, 1);
    var summaries, truncated := builder.Materialize(rollup.roots);
    return Some((summaries, truncated)), full;
  }
}
