/** `getIssueStatistics`: counts per status and per category, the five
    most voted issues and the total, all over the store's contents at the
    time of the call. */
module StatisticsService {
  import opened Types
  import opened JsArray
  import opened StableSort

  /** What `getIssueStatistics` resolves to. The count maps are keyed by the
      enumerations; their string labels are distinct, so this is the same
      map as one keyed by label. */
  datatype Statistics = Statistics(
    statusStats: map<IssueStatus, nat>,
    categoryStats: map<IssueCategory, nat>,
    topVotedIssues: seq<Issue>,
    totalIssues: nat)

  /** `acc[k] || 0`: a missing key reads as zero. */
  function Get<K>(m: map<K, nat>, k: K): nat {
    if k in m then m[k] else 0
  }

  /** The reference meaning of a tally: every key that occurs, mapped to how
      often it occurs. Keys that do not occur are absent. */
  function Tally<K>(keys: seq<K>): map<K, nat> {
    map k | k in keys :: multiset(keys)[k]
  }

  /** `keys.reduce((acc, k) => { acc[k] = (acc[k] || 0) + 1; return acc }, {})`. */
  method CountBy<K>(keys: seq<K>) returns (acc: map<K, nat>)
    ensures acc == Tally(keys)
  {
    acc := map[];
    var i := 0;
    while i < |keys|
      invariant 0 <= i <= |keys|
      invariant forall k :: k in acc <==> k in keys[..i]
      invariant forall k :: k in acc ==> acc[k] == multiset(keys[..i])[k]
    {
      assert keys[..i + 1] == keys[..i] + [keys[i]];
      acc := acc[keys[i] := Get(acc, keys[i]) + 1];
      i := i + 1;
    }
    assert keys[..i] == keys;
  }

  function StatusOf(issue: Issue): IssueStatus { issue.status }
  function CategoryOf(issue: Issue): IssueCategory { issue.category }
  function Votes(issue: Issue): int { issue.votes }

  /** The filter predicates "has status `s`" and "has category `c`". */
  function HasStatus(s: IssueStatus): Issue -> bool {
    (issue: Issue) => issue.status == s
  }
  function HasCategory(c: IssueCategory): Issue -> bool {
    (issue: Issue) => issue.category == c
  }

  /** How many issues `getIssueStatistics` puts in `topVotedIssues`. */
  const TopCount: int := 5

  /** `[...issues].sort((a, b) => b.votes - a.votes).slice(0, 5)`. The sort
      runs on a copy, so the store keeps its order. */
  function TopVoted(issues: seq<Issue>): (r: seq<Issue>)
    ensures |r| == Min(TopCount, |issues|)
    ensures SortedBy(r, Votes)
    ensures multiset(r) <= multiset(issues)
  {
    var sorted := Sort(issues, Votes);
    SliceInRange(sorted, 0, TopCount);
    SliceElements(sorted, 0, TopCount);
    Slice(sorted, 0, TopCount)
  }

  /** The statistics as values computed from the store's contents. */
  function StatisticsOf(issues: seq<Issue>): Statistics {
    Statistics(Tally(Map(issues, StatusOf)), Tally(Map(issues, CategoryOf)), TopVoted(issues), |issues|)
  }

  /** `getIssueStatistics()`: the two folds, the top five and the length. */
  method GetIssueStatistics(issues: seq<Issue>) returns (stats: Statistics)
    ensures stats == StatisticsOf(issues)
    ensures forall s :: s in stats.statusStats <==> exists i :: 0 <= i < |issues| && issues[i].status == s
    ensures forall s :: s in stats.statusStats ==> stats.statusStats[s] == |Filter(issues, HasStatus(s))|
    ensures forall c :: c in stats.categoryStats <==> exists i :: 0 <= i < |issues| && issues[i].category == c
    ensures forall c :: c in stats.categoryStats ==> stats.categoryStats[c] == |Filter(issues, HasCategory(c))|
    ensures Total(stats.statusStats, AllStatuses) == stats.totalIssues == |issues|
    ensures Total(stats.categoryStats, AllCategories) == stats.totalIssues
  {
    var statusStats := CountBy(Map(issues, StatusOf));
    var categoryStats := CountBy(Map(issues, CategoryOf));
    stats := Statistics(statusStats, categoryStats, TopVoted(issues), |issues|);
    StatusCounts(issues);
    CategoryCounts(issues);
    CountsAddUp(issues);
  }

  /** The status map counts exactly the issues of each status, and holds a
      key only when some issue has that status. */
  lemma StatusCounts(issues: seq<Issue>)
    ensures forall s :: s in Tally(Map(issues, StatusOf)) <==> exists i :: 0 <= i < |issues| && issues[i].status == s
    ensures forall s :: Get(Tally(Map(issues, StatusOf)), s) == |Filter(issues, HasStatus(s))|
  {
    forall s ensures Get(Tally(Map(issues, StatusOf)), s) == |Filter(issues, HasStatus(s))| {
      FilterCountIsKeyCount(issues, StatusOf, s, HasStatus(s));
    }
  }

  /** The category map counts exactly the issues of each category, and
      holds a key only when some issue has that category. */
  lemma CategoryCounts(issues: seq<Issue>)
    ensures forall c :: c in Tally(Map(issues, CategoryOf)) <==> exists i :: 0 <= i < |issues| && issues[i].category == c
    ensures forall c :: Get(Tally(Map(issues, CategoryOf)), c) == |Filter(issues, HasCategory(c))|
  {
    forall c ensures Get(Tally(Map(issues, CategoryOf)), c) == |Filter(issues, HasCategory(c))| {
      FilterCountIsKeyCount(issues, CategoryOf, c, HasCategory(c));
    }
  }

  /** The values of `m` for the keys listed in `all`, added up. */
  function Total<K>(m: map<K, nat>, all: seq<K>): nat {
    if all == [] then 0 else Get(m, all[0]) + Total(m, all[1..])
  }

  /** The counts in `ms` of the keys listed in `all`, added up. */
  function SumCounts<K>(ms: multiset<K>, all: seq<K>): nat {
    if all == [] then 0 else ms[all[0]] + SumCounts(ms, all[1..])
  }

  lemma {:induction false} TotalOfTally<K>(keys: seq<K>, all: seq<K>)
    ensures Total(Tally(keys), all) == SumCounts(multiset(keys), all)
  {
    if all != [] {
      TotalOfTally(keys, all[1..]);
    }
  }

  /** One more element adds one to the sum if its key is listed once. */
  lemma {:induction false} SumCountsAdd<K>(ms: multiset<K>, x: K, all: seq<K>)
    requires Distinct(all)
    ensures SumCounts(ms + multiset{x}, all) == SumCounts(ms, all) + (if x in all then 1 else 0)
  {
    if all != [] {
      SumCountsAdd(ms, x, all[1..]);
      if x == all[0] {
        assert x !in all[1..];
      }
    }
  }

  lemma {:induction false} SumCountsNone<K>(all: seq<K>)
    ensures SumCounts(multiset{}, all) == 0
  {
    if all != [] {
      SumCountsNone(all[1..]);
    }
  }

  /** When every key is listed exactly once, the counts add up to the number
      of keys. */
  lemma {:induction false} SumCountsCoverAll<K>(keys: seq<K>, all: seq<K>)
    requires Distinct(all)
    requires forall i :: 0 <= i < |keys| ==> keys[i] in all
    ensures SumCounts(multiset(keys), all) == |keys|
  {
    if keys == [] {
      SumCountsNone(all);
    } else {
      SumCountsCoverAll(keys[1..], all);
      assert keys == [keys[0]] + keys[1..];
      assert multiset(keys) == multiset(keys[1..]) + multiset{keys[0]};
      SumCountsAdd(multiset(keys[1..]), keys[0], all);
      assert keys[0] in all;
    }
  }

  /** The totals of both maps equal the number of issues: every issue has
      exactly one status and exactly one category. */
  lemma CountsAddUp(issues: seq<Issue>)
    ensures Total(Tally(Map(issues, StatusOf)), AllStatuses) == |issues|
    ensures Total(Tally(Map(issues, CategoryOf)), AllCategories) == |issues|
  {
    StatusesAreExactlyFour();
    CategoriesAreExactlySix();
    assert Distinct(AllStatuses);
    assert Distinct(AllCategories);
    TotalOfTally(Map(issues, StatusOf), AllStatuses);
    SumCountsCoverAll(Map(issues, StatusOf), AllStatuses);
    TotalOfTally(Map(issues, CategoryOf), AllCategories);
    SumCountsCoverAll(Map(issues, CategoryOf), AllCategories);
  }

  /** Every issue left out of the top five has at most as many votes as the
      last issue in it. */
  lemma TopVotedBound(issues: seq<Issue>)
    requires issues != []
    ensures var r := TopVoted(issues);
      forall x :: x in multiset(issues) - multiset(r) ==> x.votes <= r[|r| - 1].votes
  {
    var sorted := Sort(issues, Votes);
    var n := Min(TopCount, |sorted|);
    SliceInRange(sorted, 0, TopCount);
    assert TopVoted(issues) == sorted[..n];
    PrefixOfSortedBound(sorted, n, Votes);
    assert multiset(sorted) == multiset(issues);
  }

  /** Issues with the same number of votes appear in the top five in store
      order: each vote count's issues there are a prefix of that count's
      issues in the store. */
  lemma TopVotedStable(issues: seq<Issue>, v: int)
    ensures TieGroup(TopVoted(issues), Votes, v) <= TieGroup(issues, Votes, v)
  {
    var sorted := Sort(issues, Votes);
    SliceInRange(sorted, 0, TopCount);
    TieGroupOfPrefix(sorted, Min(TopCount, |sorted|), Votes, v);
    SortIsStable(issues, Votes, v);
  }

  /** An appended issue is counted: the total grows by one, and so do the
      counts of its status and its category; no other count changes. */
  lemma StatisticsSeeAppend(issues: seq<Issue>, x: Issue)
    ensures var before, after := StatisticsOf(issues), StatisticsOf(issues + [x]);
      && after.totalIssues == before.totalIssues + 1
      && (forall s :: Get(after.statusStats, s) == Get(before.statusStats, s) + (if s == x.status then 1 else 0))
      && (forall c :: Get(after.categoryStats, c) == Get(before.categoryStats, c) + (if c == x.category then 1 else 0))
  {
    StatusesSeeAppend(issues, x);
    CategoriesSeeAppend(issues, x);
  }

  lemma StatusesSeeAppend(issues: seq<Issue>, x: Issue)
    ensures forall s :: Get(Tally(Map(issues + [x], StatusOf)), s)
                        == Get(Tally(Map(issues, StatusOf)), s) + (if s == x.status then 1 else 0)
  {
    MapAppend(issues, x, StatusOf);
    TallyAppend(Map(issues, StatusOf), x.status);
  }

  lemma CategoriesSeeAppend(issues: seq<Issue>, x: Issue)
    ensures forall c :: Get(Tally(Map(issues + [x], CategoryOf)), c)
                        == Get(Tally(Map(issues, CategoryOf)), c) + (if c == x.category then 1 else 0)
  {
    MapAppend(issues, x, CategoryOf);
    TallyAppend(Map(issues, CategoryOf), x.category);
  }

  /** One more key adds one to its own count and changes no other. */
  lemma TallyAppend<K>(keys: seq<K>, x: K)
    ensures forall k :: Get(Tally(keys + [x]), k) == Get(Tally(keys), k) + (if k == x then 1 else 0)
  {
    assert multiset(keys + [x]) == multiset(keys) + multiset{x};
    forall k ensures Get(Tally(keys + [x]), k) == Get(Tally(keys), k) + (if k == x then 1 else 0) {
      if k in keys { assert k in keys + [x]; }
    }
  }
}
