/** `getMyIssues` and its alias `getUserIssues`: the store's issues of one
    reporter, newest first, one page at a time. Unlike `getIssues`, which
    keeps store order, this listing is ordered by creation time. */
module UserIssues {
  import opened Types
  import opened JsArray
  import opened StableSort

  /** The defaults of `getMyIssues(userId, page = 1, limit = 10)`. */
  const DefaultPage: int := 1
  const DefaultLimit: int := 10

  /** The filter predicate `issue => issue.reporterId === userId`. */
  function FiledBy(userId: string): Issue -> bool {
    (issue: Issue) => issue.reporterId == userId
  }

  /** The sort key of the comparator `b.createdAt - a.createdAt`. */
  function CreatedAt(issue: Issue): int {
    issue.createdAt
  }

  /** The reporter's issues sorted by `createdAt`, newest first. */
  function NewestFirstOf(issues: seq<Issue>, userId: string): (r: seq<Issue>)
    ensures SortedBy(r, CreatedAt)
    ensures |r| == |Filter(issues, FiledBy(userId))|
    ensures multiset(r) == multiset(Filter(issues, FiledBy(userId)))
  {
    Sort(Filter(issues, FiledBy(userId)), CreatedAt)
  }

  /** Among one reporter's issues created at the same instant the sort keeps
      store order: they come out as the store's issues created at that
      instant, filtered to the reporter. */
  lemma NewestFirstIsStable(issues: seq<Issue>, userId: string, t: int)
    ensures TieGroup(NewestFirstOf(issues, userId), CreatedAt, t)
            == Filter(TieGroup(issues, CreatedAt, t), FiledBy(userId))
  {
    SortIsStable(Filter(issues, FiledBy(userId)), CreatedAt, t);
    FilterKeepsTieOrder(issues, FiledBy(userId), CreatedAt, t);
  }

  /** `getMyIssues(userId, page, limit)` over the store's contents at the
      time of the call: only that reporter's issues from the store, newest
      first, at most `limit` of them. */
  function GetMyIssues(issues: seq<Issue>, userId: string, page: int, limit: int): (r: seq<Issue>)
    ensures forall x :: x in r ==> x.reporterId == userId && x in issues
    ensures SortedBy(r, CreatedAt)
    ensures limit >= 0 ==> |r| <= limit
  {
    var sorted := NewestFirstOf(issues, userId);
    var r := Slice(sorted, (page - 1) * limit, page * limit);
    assert page * limit - (page - 1) * limit == limit;
    assert forall x :: x in r ==> x.reporterId == userId && x in issues by {
      forall x | x in r ensures x.reporterId == userId && x in issues {
        FilterCounts(issues, FiledBy(userId));
        assert x in sorted;
        assert multiset(sorted)[x] > 0;
      }
    }
    r
  }

  /** For page and limit of at least 1 the result is the page's run of the
      sorted list, cut off at its end; a page past the end is empty. */
  lemma GetMyIssuesPage(issues: seq<Issue>, userId: string, page: int, limit: int)
    requires page >= 1 && limit >= 1
    ensures GetMyIssues(issues, userId, page, limit) == Page(NewestFirstOf(issues, userId), page, limit)
    ensures (page - 1) * limit >= |Filter(issues, FiledBy(userId))| ==>
              GetMyIssues(issues, userId, page, limit) == []
  {
    SliceIsPage(NewestFirstOf(issues, userId), page, limit);
  }

  /** When the limit covers all of the reporter's issues, page 1 is a
      permutation of exactly the store's issues of that reporter. */
  lemma FirstPageHoldsAllOfThem(issues: seq<Issue>, userId: string, limit: int)
    requires limit >= |Filter(issues, FiledBy(userId))|
    ensures forall x :: multiset(GetMyIssues(issues, userId, 1, limit))[x]
                        == if x.reporterId == userId then multiset(issues)[x] else 0
  {
    var sorted := NewestFirstOf(issues, userId);
    FilterCounts(issues, FiledBy(userId));
    assert Slice(sorted, 0, limit) == sorted;
  }

  /** A user who reported nothing gets an empty list, not an error. */
  lemma UnknownUserGetsNothing(issues: seq<Issue>, userId: string, page: int, limit: int)
    requires forall i :: 0 <= i < |issues| ==> issues[i].reporterId != userId
    ensures GetMyIssues(issues, userId, page, limit) == []
  {
    FilterNone(issues, FiledBy(userId));
  }

  /** An issue appended by a reporter, later than all of that reporter's
      earlier issues, heads the reporter's first page: the store is shared,
      so the append is visible to the next query. */
  lemma NewIssueHeadsFirstPage(issues: seq<Issue>, x: Issue, limit: int)
    requires limit >= 1
    requires forall i :: 0 <= i < |issues| && issues[i].reporterId == x.reporterId ==>
               issues[i].createdAt < x.createdAt
    ensures var r := GetMyIssues(issues + [x], x.reporterId, 1, limit); |r| >= 1 && r[0] == x
  {
    var sorted := NewestFirstOf(issues + [x], x.reporterId);
    NewestIssueFirst(issues, x);
    GetMyIssuesPage(issues + [x], x.reporterId, 1, limit);
    assert Page(sorted, 1, limit)[0] == sorted[0];
  }

  /** The reporter's newest issue heads the reporter's sorted list. */
  lemma NewestIssueFirst(issues: seq<Issue>, x: Issue)
    requires forall i :: 0 <= i < |issues| && issues[i].reporterId == x.reporterId ==>
               issues[i].createdAt < x.createdAt
    ensures var sorted := NewestFirstOf(issues + [x], x.reporterId); |sorted| >= 1 && sorted[0] == x
  {
    var s := issues + [x];
    var keep := FiledBy(x.reporterId);
    var sorted := NewestFirstOf(s, x.reporterId);
    var mine := Filter(s, keep);
    FilterCounts(s, keep);
    assert multiset(s) == multiset(issues) + multiset{x};
    assert multiset(mine)[x] > 0;
    forall y | y in multiset(sorted) ensures y == x || CreatedAt(y) < CreatedAt(x) {
      assert multiset(mine)[y] > 0;
      assert keep(y);
      if y != x {
        assert y in multiset(issues);
        var i :| 0 <= i < |issues| && issues[i] == y;
      }
    }
    LatestHeadsSorted(sorted, CreatedAt, x);
  }

  /** `getUserIssues(userId)`: `getMyIssues` with the default page and
      limit, so at most ten issues. */
  function GetUserIssues(issues: seq<Issue>, userId: string): (r: seq<Issue>)
    ensures r == GetMyIssues(issues, userId, DefaultPage, DefaultLimit)
    ensures |r| <= 10
  {
    GetMyIssues(issues, userId, DefaultPage, DefaultLimit)
  }
}
