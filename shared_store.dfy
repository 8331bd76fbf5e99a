/** The services share one store: `getMockIssues` returns the very array
    that `createIssue` pushes into. This module states what the seed looks
    like through each query, and that an issue created through one service
    is seen by the others. */
module SharedStore {
  import opened Types
  import opened JsArray
  import opened StableSort
  import opened MockIssues
  import opened IssueOperations
  import opened UserIssues
  import opened StatisticsService

  function ReporterOf(issue: Issue): string { issue.reporterId }

  /** The seed's statuses, categories, vote counts and reporters, in store
      order. */
  const SeedStatuses: seq<IssueStatus> :=
    [Pending, InProgress, Completed, Pending, InProgress, Pending, InProgress, Completed, Pending, InProgress]
  const SeedCategories: seq<IssueCategory> :=
    [RoadsAndInfrastructure, PublicSafety, Sanitation, Environmental, PublicServices,
     RoadsAndInfrastructure, PublicSafety, Sanitation, Environmental, PublicServices]
  const SeedVotes: seq<int> := [5, 10, 3, 7, 12, 6, 9, 4, 8, 11]
  const SeedReporters: seq<string> :=
    [Reporter1Id, Reporter2Id, Reporter1Id, Reporter3Id, Reporter2Id,
     Reporter3Id, Reporter1Id, Reporter2Id, Reporter3Id, Reporter1Id]

  /** The seed read column by column. */
  lemma SeedColumns(ids: seq<string>, times: seq<int>)
    requires |ids| == 10 && |times| == 20
    ensures var s := Seed(ids, times);
      && Map(s, StatusOf) == SeedStatuses
      && Map(s, CategoryOf) == SeedCategories
      && Map(s, Votes) == SeedVotes
      && Map(s, ReporterOf) == SeedReporters
  {
    var s := Seed(ids, times);
    assert Map(s, StatusOf) == SeedStatuses;
    assert Map(s, CategoryOf) == SeedCategories;
    assert Map(s, Votes) == SeedVotes;
  }

  /** The seed holds four pending, four in-progress and two completed
      issues, and none rejected. */
  lemma SeedStatusCounts(ids: seq<string>, times: seq<int>)
    requires |ids| == 10 && |times| == 20
    ensures var stats := StatisticsOf(Seed(ids, times));
      && stats.totalIssues == 10
      && Get(stats.statusStats, Pending) == 4
      && Get(stats.statusStats, InProgress) == 4
      && Get(stats.statusStats, Completed) == 2
      && Rejected !in stats.statusStats
  {
    SeedColumns(ids, times);
    StatusColumnCounts();
  }

  lemma StatusColumnCounts()
    ensures var t := Tally(SeedStatuses);
      Get(t, Pending) == 4 && Get(t, InProgress) == 4 && Get(t, Completed) == 2 && Rejected !in t
  {
  }

  /** The seed holds two issues of each category except Other, which has
      none. */
  lemma SeedCategoryCounts(ids: seq<string>, times: seq<int>)
    requires |ids| == 10 && |times| == 20
    ensures var stats := StatisticsOf(Seed(ids, times));
      && (forall c :: c != Other ==> Get(stats.categoryStats, c) == 2)
      && Other !in stats.categoryStats
  {
    SeedColumns(ids, times);
    CategoryColumnCounts();
    forall c | c != Other ensures Get(StatisticsOf(Seed(ids, times)).categoryStats, c) == 2 {
      match c
      case RoadsAndInfrastructure =>
      case PublicSafety =>
      case Sanitation =>
      case Environmental =>
      case PublicServices =>
    }
  }

  lemma CategoryColumnCounts()
    ensures var t := Tally(SeedCategories);
      && Get(t, RoadsAndInfrastructure) == 2 && Get(t, PublicSafety) == 2 && Get(t, Sanitation) == 2
      && Get(t, Environmental) == 2 && Get(t, PublicServices) == 2 && Other !in t
  {
  }

  /** The five most voted seed issues have 12, 11, 10, 9 and 8 votes, in
      that order. */
  lemma SeedTopVoted(ids: seq<string>, times: seq<int>)
    requires |ids| == 10 && |times| == 20
    ensures Map(TopVoted(Seed(ids, times)), Votes) == [12, 11, 10, 9, 8]
  {
    SeedColumns(ids, times);
    TopVotedOfVotes(Seed(ids, times));
  }

  /** Any issues with the seed's vote counts have 12, 11, 10, 9 and 8 votes
      at the top. */
  lemma TopVotedOfVotes(s: seq<Issue>)
    requires Map(s, Votes) == SeedVotes
    ensures Map(TopVoted(s), Votes) == [12, 11, 10, 9, 8]
  {
    var sorted := Sort(s, Votes);
    SeedVotesDistinct();
    DistinctVotesSortStrictly(s);
    var k := Map(Sort(s, Votes), Votes);
    assert forall i, j :: 0 <= i < j < |Map(Sort(s, Votes), Votes)| ==>
             Map(Sort(s, Votes), Votes)[i] > Map(Sort(s, Votes), Votes)[j];
    assert forall i :: 0 <= i < |k| ==> Map(Sort(s, Votes), Votes)[i] in Map(s, Votes);
    LeadingVotes(k, Map(s, Votes));
    SliceInRange(sorted, 0, TopCount);
    assert TopVoted(s) == sorted[..5];
    assert Map(sorted[..5], Votes) == Map(sorted, Votes)[..5];
  }

  /** When no two issues have the same number of votes, the sorted vote
      counts strictly decrease and are exactly the store's vote counts. */
  lemma DistinctVotesSortStrictly(s: seq<Issue>)
    requires Distinct(Map(s, Votes))
    ensures var k := Map(Sort(s, Votes), Votes);
      && (forall i, j :: 0 <= i < j < |k| ==> k[i] > k[j])
      && (forall i :: 0 <= i < |k| ==> k[i] in Map(s, Votes))
      && (forall v :: v in Map(s, Votes) ==> v in k)
  {
    var sorted := Sort(s, Votes);
    var k := Map(sorted, Votes);
    MapPermutation(sorted, s, Votes);
    KeysOfSorted(sorted, Votes);
    DistinctCountsOne(Map(s, Votes));
    forall i, j | 0 <= i < j < |k| ensures k[i] > k[j] {
      PairCount(k, i, j);
    }
    forall i | 0 <= i < |k| ensures k[i] in Map(s, Votes) {
      assert k[i] in multiset(k);
    }
    forall v | v in Map(s, Votes) ensures v in k {
      assert v in multiset(Map(s, Votes));
    }
  }

  lemma SeedVotesDistinct()
    ensures Distinct(SeedVotes)
  {
  }

  /** Each of the five largest seed vote counts, and the next one below it. */
  lemma VoteLadder()
    ensures forall x :: x in SeedVotes ==>
      x <= 12 && (x < 12 ==> x <= 11) && (x < 11 ==> x <= 10) && (x < 10 ==> x <= 9) && (x < 9 ==> x <= 8)
    ensures 12 in SeedVotes && 11 in SeedVotes && 10 in SeedVotes && 9 in SeedVotes && 8 in SeedVotes
  {
  }

  /** A strictly decreasing list of exactly the seed's vote counts starts
      with 12, 11, 10, 9, 8. */
  lemma LeadingVotes(k: seq<int>, w: seq<int>)
    requires w == SeedVotes
    requires forall i, j :: 0 <= i < j < |k| ==> k[i] > k[j]
    requires forall i :: 0 <= i < |k| ==> k[i] in w
    requires forall v :: v in w ==> v in k
    ensures |k| >= 5 && k[..5] == [12, 11, 10, 9, 8]
  {
    VoteLadder();
    var j0 :| 0 <= j0 < |k| && k[j0] == 12;
    var j1 :| 0 <= j1 < |k| && k[j1] == 11;
    var j2 :| 0 <= j2 < |k| && k[j2] == 10;
    var j3 :| 0 <= j3 < |k| && k[j3] == 9;
    var j4 :| 0 <= j4 < |k| && k[j4] == 8;
    assert j0 < j1 < j2 < j3 < j4;
    assert k[0] == 12 && k[1] == 11 && k[2] == 10 && k[3] == 9 && k[4] == 8;
  }

  /** When the clock does not tick between the seed's creation readings,
      a reporter's listing of the seed keeps store order. */
  lemma SeedListingKeepsStoreOrder(ids: seq<string>, times: seq<int>, userId: string)
    requires |ids| == 10 && |times| == 20
    requires forall i :: 0 <= i < 10 ==> times[2 * i] == times[0]
    ensures GetUserIssues(Seed(ids, times), userId) == Filter(Seed(ids, times), FiledBy(userId))
  {
    var s := Seed(ids, times);
    SeedClock(ids, times);
    assert forall i :: 0 <= i < |s| ==> s[i].createdAt == times[0];
    ListingOfSameInstant(s, userId, times[0]);
  }

  /** When the clock has ticked before the last seed record was created,
      that record heads its reporter's listing: the listing is newest
      first, not in store order. */
  lemma SeedListingFollowsTheClock(ids: seq<string>, times: seq<int>)
    requires |ids| == 10 && |times| == 20
    requires times[0] < times[18] && times[4] < times[18] && times[12] < times[18]
    ensures var r := GetUserIssues(Seed(ids, times), Reporter1Id); |r| >= 1 && r[0] == Seed(ids, times)[9]
  {
    var s := Seed(ids, times);
    SeedColumns(ids, times);
    SeedClock(ids, times);
    var before := s[..9];
    assert s == before + [s[9]];
    forall i | 0 <= i < |before| && before[i].reporterId == s[9].reporterId
      ensures before[i].createdAt < s[9].createdAt
    {
      assert Map(s, ReporterOf)[i] == SeedReporters[i];
    }
    NewIssueHeadsFirstPage(before, s[9], DefaultLimit);
  }

  /** When at most ten issues were all created at one instant, a reporter's
      listing is the store's issues of that reporter in store order. */
  lemma ListingOfSameInstant(s: seq<Issue>, userId: string, t: int)
    requires |s| <= DefaultLimit
    requires forall i :: 0 <= i < |s| ==> s[i].createdAt == t
    ensures GetUserIssues(s, userId) == Filter(s, FiledBy(userId))
  {
    var mine := Filter(s, FiledBy(userId));
    FilteredAtSameInstant(s, FiledBy(userId), t);
    SortAllTied(mine, CreatedAt, t);
    assert NewestFirstOf(s, userId) == mine;
    GetMyIssuesPage(s, userId, DefaultPage, DefaultLimit);
    assert Page(mine, DefaultPage, DefaultLimit) == mine;
  }

  /** What a filter keeps was created at the instant everything was. */
  lemma {:induction false} FilteredAtSameInstant(s: seq<Issue>, keep: Issue -> bool, t: int)
    requires forall i :: 0 <= i < |s| ==> s[i].createdAt == t
    ensures forall i :: 0 <= i < |Filter(s, keep)| ==> CreatedAt(Filter(s, keep)[i]) == t
  {
    if s != [] {
      FilteredAtSameInstant(s[1..], keep, t);
    }
  }

  /** In the seed user-1 reported four issues, user-2 and user-3 three
      each; each sees them all on the first page of their listing, however
      the clock ran while the seed was built. */
  lemma SeedReporterCounts(ids: seq<string>, times: seq<int>)
    requires |ids| == 10 && |times| == 20
    ensures |GetUserIssues(Seed(ids, times), Reporter1Id)| == 4
    ensures |GetUserIssues(Seed(ids, times), Reporter2Id)| == 3
    ensures |GetUserIssues(Seed(ids, times), Reporter3Id)| == 3
  {
    var s := Seed(ids, times);
    SeedColumns(ids, times);
    ListingLength(s, Reporter1Id);
    ListingLength(s, Reporter2Id);
    ListingLength(s, Reporter3Id);
    FilterCountIsKeyCount(s, ReporterOf, Reporter1Id, FiledBy(Reporter1Id));
    FilterCountIsKeyCount(s, ReporterOf, Reporter2Id, FiledBy(Reporter2Id));
    FilterCountIsKeyCount(s, ReporterOf, Reporter3Id, FiledBy(Reporter3Id));
    ReporterColumnCounts();
  }

  /** A store of at most ten issues lists all of a reporter's issues. */
  lemma ListingLength(s: seq<Issue>, userId: string)
    requires |s| <= DefaultLimit
    ensures |GetUserIssues(s, userId)| == |Filter(s, FiledBy(userId))|
  {
    var sorted := NewestFirstOf(s, userId);
    GetMyIssuesPage(s, userId, DefaultPage, DefaultLimit);
    assert Page(sorted, DefaultPage, DefaultLimit) == sorted;
  }

  lemma ReporterColumnCounts()
    ensures multiset(SeedReporters)[Reporter1Id] == 4
    ensures multiset(SeedReporters)[Reporter2Id] == 3
    ensures multiset(SeedReporters)[Reporter3Id] == 3
  {
  }

  /** Report an issue, then list the reporter's issues and read the
      statistics, as the pages do: both queries read the store `createIssue`
      appended to, so the new issue heads the reporter's listing (it is
      the reporter's newest) and is counted as one more pending issue. */
  method ReportThenQuery(store: IssueStore, issueData: IssueFormData, user: User, id: string,
                         createdAt: int, updatedAt: int)
    returns (newIssue: Issue, mine: seq<Issue>, stats: Statistics)
    requires store.Valid()
    requires !IdInUse(store.issues, id)
    requires forall i :: 0 <= i < |store.issues| && store.issues[i].reporterId == user.id ==>
               store.issues[i].createdAt < createdAt
    modifies store
    ensures store.Valid()
    ensures store.issues == old(store.issues) + [newIssue]
    ensures |mine| >= 1 && mine[0] == newIssue
    ensures stats.totalIssues == |old(store.issues)| + 1
    ensures Get(stats.statusStats, Pending) == Get(StatisticsOf(old(store.issues)).statusStats, Pending) + 1
  {
    ghost var before := store.issues;
    newIssue := CreateIssue(store, issueData, user, id, createdAt, updatedAt);
    mine := GetUserIssues(store.issues, user.id);
    NewIssueHeadsFirstPage(before, newIssue, DefaultLimit);
    stats := GetIssueStatistics(store.issues);
    StatisticsSeeAppend(before, newIssue);
  }
}
