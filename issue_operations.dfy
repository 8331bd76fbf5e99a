/** `getIssues` (a page of the store in store order) and `createIssue`
    (build a record from form data and append it to the store). The
    simulated delays are left out: both run synchronously. */
module IssueOperations {
  import opened Types
  import opened JsArray
  import MockIssues

  /** `mockIssues.slice((page - 1) * limit, page * limit)`, over the store's
      contents at the time of the call. For page and limit of at least 1 it
      is the run of store positions `(page-1)*limit .. page*limit`, cut off
      at the end of the store. */
  function GetIssues(issues: seq<Issue>, page: int, limit: int): (r: seq<Issue>)
    ensures |r| <= |issues|
    ensures limit >= 0 ==> |r| <= limit
    ensures page >= 1 && limit >= 1 ==> r == Page(issues, page, limit)
  {
    if page >= 1 && limit >= 1 then SliceIsPage(issues, page, limit); Slice(issues, (page - 1) * limit, page * limit)
    else Slice(issues, (page - 1) * limit, page * limit)
  }

  /** A page holds at most `limit` issues, and exactly `limit` when the
      store reaches the end of the page. */
  lemma GetIssuesLength(issues: seq<Issue>, page: int, limit: int)
    requires page >= 1 && limit >= 1
    ensures |GetIssues(issues, page, limit)| <= limit
    ensures page * limit <= |issues| ==> |GetIssues(issues, page, limit)| == limit
  {
    assert page * limit == (page - 1) * limit + limit;
    ProductNonNegative(page - 1, limit);
  }

  /** A page that starts at or past the end of the store is empty; it is
      not an error. */
  lemma GetIssuesPastEnd(issues: seq<Issue>, page: int, limit: int)
    requires page >= 1 && limit >= 1
    requires (page - 1) * limit >= |issues|
    ensures GetIssues(issues, page, limit) == []
  {
  }

  /** Page 0, outside the intended range, is empty as well: `slice(-limit, 0)`
      ends at position 0. */
  lemma GetIssuesPageZero(issues: seq<Issue>, limit: int)
    requires limit >= 0
    ensures GetIssues(issues, 0, limit) == []
  {
  }

  /** Pages 1 to `k` laid end to end. */
  function PagesUpTo(issues: seq<Issue>, limit: int, k: nat): seq<Issue> {
    if k == 0 then [] else PagesUpTo(issues, limit, k - 1) + GetIssues(issues, k, limit)
  }

  /** Consecutive pages leave no gap and no overlap: the first `k` pages
      together are the first `k * limit` issues of the store. */
  lemma {:induction false} PagesTileTheStore(issues: seq<Issue>, limit: int, k: nat)
    requires limit >= 1
    ensures PagesUpTo(issues, limit, k) == issues[..Min(k * limit, |issues|)]
  {
    if k > 0 {
      PagesTileTheStore(issues, limit, k - 1);
      ProductNonNegative(k - 1, limit);
      var a, b := Min((k - 1) * limit, |issues|), Min(k * limit, |issues|);
      assert k * limit == (k - 1) * limit + limit;
      assert a <= b;
      assert issues[..a] + issues[a..b] == issues[..b];
    }
  }

  /** After an append, the page that covers the old end of the store gains
      the new issue as its last element, and every earlier page is as it
      was. */
  lemma AppendShowsOnLastPage(issues: seq<Issue>, x: Issue, page: int, limit: int)
    requires page >= 1 && limit >= 1
    ensures page * limit <= |issues| ==>
              GetIssues(issues + [x], page, limit) == GetIssues(issues, page, limit)
    ensures (page - 1) * limit <= |issues| < page * limit ==>
              GetIssues(issues + [x], page, limit) == GetIssues(issues, page, limit) + [x]
  {
    var s := issues + [x];
    var a, b := (page - 1) * limit, page * limit;
    assert b == a + limit;
    ProductNonNegative(page - 1, limit);
    if b <= |issues| {
      assert s[a..b] == issues[a..b];
    } else if a <= |issues| {
      assert Min(b, |s|) == |s|;
      assert s[a..|s|] == issues[a..|issues|] + [x];
    }
  }

  /** `createIssue(issueData, user)`. The id stands for `uuidv4()`, which
      gives an id no issue has yet; `createdAt` and `updatedAt` stand for
      its two clock readings, which need not be equal. Exactly one issue is appended, nothing before it changes, and it is
      the returned record: the form's fields, a fresh id, status Pending,
      no votes, not voted on, and the reporter taken from `user`. */
  method CreateIssue(store: MockIssues.IssueStore, issueData: IssueFormData, user: User,
                     id: string, createdAt: int, updatedAt: int)
    returns (newIssue: Issue)
    requires store.Valid()
    requires !MockIssues.IdInUse(store.issues, id)
    modifies store
    ensures store.Valid()
    ensures store.issues == old(store.issues) + [newIssue]
    ensures newIssue.id == id && FormOf(newIssue) == issueData
    ensures newIssue.status == Pending && newIssue.votes == 0 && newIssue.hasUserVoted == Some(false)
    ensures newIssue.reporterId == user.id && newIssue.reporterName == user.name
    ensures newIssue.createdAt == createdAt && newIssue.updatedAt == updatedAt
  {
    newIssue := Issue(id, issueData.title, issueData.description, issueData.category, Pending,
                      issueData.location, issueData.imageUrl, 0, Some(false),
                      user.id, user.name, createdAt, updatedAt);
    store.Push(newIssue);
  }
}
