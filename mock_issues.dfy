/** The in-memory issue store: one ordered, growable array shared by every
    service, seeded with ten issues when the module loads. */
module MockIssues {
  import opened Types

  /** No two issues in `s` share an id. */
  ghost predicate UniqueIds(s: seq<Issue>) {
    forall i, j :: 0 <= i < j < |s| ==> s[i].id != s[j].id
  }

  ghost predicate IdInUse(s: seq<Issue>, id: string) {
    exists i :: 0 <= i < |s| && s[i].id == id
  }

  /** The vote counts of `s`, in store order. */
  function VotesOf(s: seq<Issue>): (r: seq<int>)
    ensures |r| == |s| && forall i :: 0 <= i < |s| ==> r[i] == s[i].votes
  {
    seq(|s|, i requires 0 <= i < |s| => s[i].votes)
  }

  /** The free text of a seed issue: title, description, address and image
      URL. Kept in named constants so that proofs about the seed need not
      look at the text. */
  datatype SeedText = SeedText(title: string, description: string, address: string, imageUrl: string)

  /** Record `i` of the seed: generated id `i`, clock readings `2i` and
      `2i+1`, and the record's own text, category, status, votes and
      reporter. */
  function SeedIssue(ids: seq<string>, times: seq<int>, i: nat, text: SeedText, category: IssueCategory,
                     status: IssueStatus, votes: int, reporterId: string, reporterName: string): (r: Issue)
    requires |ids| == 10 && |times| == 20 && i < 10
    ensures r.id == ids[i] && r.createdAt == times[2 * i] && r.updatedAt == times[2 * i + 1]
  {
    Issue(ids[i], text.title, text.description, category, status,
          Location(34.0522, -118.2437, Some(text.address)), Some(text.imageUrl), votes, Some(false),
          reporterId, reporterName, times[2 * i], times[2 * i + 1])
  }

  const PotholeSeed: SeedText := SeedText(
    "Pothole on Main Street",
    "A large and dangerous pothole has formed on Main Street, causing a hazard for drivers and cyclists.",
    "Main Street, Los Angeles, CA",
    "https://example.com/pothole.jpg")
  const StreetlightSeed: SeedText := SeedText(
    "Streetlight Outage",
    "The streetlight at the corner of Elm and Oak is not working, creating a safety concern at night.",
    "Elm and Oak, Los Angeles, CA",
    "https://example.com/streetlight.jpg")
  const GarbageSeed: SeedText := SeedText(
    "Garbage Collection Issue",
    "Garbage has not been collected for two weeks, leading to unsanitary conditions.",
    "Residential Area, Los Angeles, CA",
    "https://example.com/garbage.jpg")
  const DumpingSeed: SeedText := SeedText(
    "Illegal Dumping",
    "There has been illegal dumping in the park, creating an environmental hazard.",
    "City Park, Los Angeles, CA",
    "https://example.com/dumping.jpg")
  const WaterLeakSeed: SeedText := SeedText(
    "Water Leak",
    "There is a significant water leak on the corner of 4th and Main.",
    "4th and Main, Los Angeles, CA",
    "https://example.com/waterleak.jpg")
  const SignageSeed: SeedText := SeedText(
    "Damaged Signage",
    "Road signage near the highway exit is damaged and difficult to read.",
    "Highway Exit, Los Angeles, CA",
    "https://example.com/signage.jpg")
  const VandalismSeed: SeedText := SeedText(
    "Vandalism",
    "There has been an increase in vandalism in the downtown area.",
    "Downtown, Los Angeles, CA",
    "https://example.com/vandalism.jpg")
  const BinsSeed: SeedText := SeedText(
    "Overflowing Bins",
    "Public bins in the market area are constantly overflowing.",
    "Market Area, Los Angeles, CA",
    "https://example.com/bins.jpg")
  const PollutionSeed: SeedText := SeedText(
    "Air Pollution",
    "High levels of air pollution reported near the industrial zone.",
    "Industrial Zone, Los Angeles, CA",
    "https://example.com/pollution.jpg")
  const FountainSeed: SeedText := SeedText(
    "Broken Water Fountain",
    "The public water fountain in the park is broken.",
    "City Park, Los Angeles, CA",
    "https://example.com/fountain.jpg")

  /** The three reporters of the seed. */
  const Reporter1Id: string := "user-1"
  const Reporter1Name: string := "John Doe"
  const Reporter2Id: string := "user-2"
  const Reporter2Name: string := "Jane Smith"
  const Reporter3Id: string := "user-3"
  const Reporter3Name: string := "Alice Johnson"

  /** The ten issues the store starts with. The ids stand for the ten
      `uuidv4()` values and `times` for the twenty `new Date()` readings
      taken while the module loads, two per record in source order: its
      `createdAt`, then its `updatedAt`. Nothing forces the readings to
      be equal; the clock may tick between any two of them. */
  function Seed(ids: seq<string>, times: seq<int>): (r: seq<Issue>)
    requires |ids| == 10 && |times| == 20
    ensures |r| == 10
  {
    [ SeedIssue(ids, times, 0, PotholeSeed, RoadsAndInfrastructure, Pending, 5, Reporter1Id, Reporter1Name),
      SeedIssue(ids, times, 1, StreetlightSeed, PublicSafety, InProgress, 10, Reporter2Id, Reporter2Name),
      SeedIssue(ids, times, 2, GarbageSeed, Sanitation, Completed, 3, Reporter1Id, Reporter1Name),
      SeedIssue(ids, times, 3, DumpingSeed, Environmental, Pending, 7, Reporter3Id, Reporter3Name),
      SeedIssue(ids, times, 4, WaterLeakSeed, PublicServices, InProgress, 12, Reporter2Id, Reporter2Name),
      SeedIssue(ids, times, 5, SignageSeed, RoadsAndInfrastructure, Pending, 6, Reporter3Id, Reporter3Name),
      SeedIssue(ids, times, 6, VandalismSeed, PublicSafety, InProgress, 9, Reporter1Id, Reporter1Name),
      SeedIssue(ids, times, 7, BinsSeed, Sanitation, Completed, 4, Reporter2Id, Reporter2Name),
      SeedIssue(ids, times, 8, PollutionSeed, Environmental, Pending, 8, Reporter3Id, Reporter3Name),
      SeedIssue(ids, times, 9, FountainSeed, PublicServices, InProgress, 11, Reporter1Id, Reporter1Name)
    ]
  }

  /** The shape of the seed: ten issues, none voted on by the viewer, with
      the vote counts listed in store order, all non-negative. */
  lemma SeedShape(ids: seq<string>, times: seq<int>)
    requires |ids| == 10 && |times| == 20
    ensures var s := Seed(ids, times);
      && (forall i :: 0 <= i < |s| ==> s[i].hasUserVoted == Some(false) && s[i].votes >= 0)
      && VotesOf(s) == [5, 10, 3, 7, 12, 6, 9, 4, 8, 11]
  {
  }

  /** Record `i` of the seed carries generated id `i` and clock readings
      `2i` and `2i+1`. */
  lemma SeedClock(ids: seq<string>, times: seq<int>)
    requires |ids| == 10 && |times| == 20
    ensures var s := Seed(ids, times);
      forall i :: 0 <= i < 10 ==>
        s[i].id == ids[i] && s[i].createdAt == times[2 * i] && s[i].updatedAt == times[2 * i + 1]
  {
  }

  /** The single store behind `mockIssues`. `getMockIssues` hands out this
      very array, so every reader sees `issues` as it is at the time of the
      read, appends included. */
  class IssueStore {
    var issues: seq<Issue>

    /** Ids are unique and vote counts are never negative. */
    ghost predicate Valid()
      reads this
    {
      UniqueIds(issues) && forall i :: 0 <= i < |issues| ==> issues[i].votes >= 0
    }

    /** Module load: the store holds the seed. */
    constructor (ids: seq<string>, times: seq<int>)
      requires |ids| == 10 && |times| == 20
      requires forall i, j :: 0 <= i < j < 10 ==> ids[i] != ids[j]
      ensures issues == Seed(ids, times)
      ensures Valid()
    {
      SeedClock(ids, times);
      issues := Seed(ids, times);
    }

    /** `mockIssues.push(issue)`: the store grows by exactly `issue` at the
        end and nothing before it changes. An issue with an unused id and a
        non-negative vote count keeps the store valid. */
    method Push(issue: Issue)
      modifies this
      ensures issues == old(issues) + [issue]
      ensures old(Valid()) && !IdInUse(old(issues), issue.id) && issue.votes >= 0 ==> Valid()
    {
      issues := issues + [issue];
    }
  }
}
