/** The record shapes and closed enumerations shared by the issue services
    and the session context. Timestamps (ISO-8601 strings in the
    application) are modelled as milliseconds since the epoch, which orders
    them the way `new Date(..).getTime()` does. */
module Types {

  datatype Option<T> = None | Some(value: T)

  /** An authenticated identity: exactly id, email, name and createdAt. */
  datatype User = User(id: string, email: string, name: string, createdAt: int)

  datatype IssueCategory =
    | RoadsAndInfrastructure
    | PublicSafety
    | Sanitation
    | Environmental
    | PublicServices
    | Other

  datatype IssueStatus = Pending | InProgress | Completed | Rejected

  /** Coordinates are opaque data here; `address` is optional. */
  datatype Location = Location(latitude: real, longitude: real, address: Option<string>)

  /** A reported civic problem. `imageUrl` and `hasUserVoted` are the only
      optional fields besides the location's address. */
  datatype Issue = Issue(
    id: string,
    title: string,
    description: string,
    category: IssueCategory,
    status: IssueStatus,
    location: Location,
    imageUrl: Option<string>,
    votes: int,
    hasUserVoted: Option<bool>,
    reporterId: string,
    reporterName: string,
    createdAt: int,
    updatedAt: int)

  /** What the reporting form supplies: the user-chosen fields of an issue
      and none of the fields the system fills in. */
  datatype IssueFormData = IssueFormData(
    title: string,
    description: string,
    category: IssueCategory,
    location: Location,
    imageUrl: Option<string>)

  /** The user-supplied part of an issue, the inverse of spreading a form
      into a new record. */
  function FormOf(issue: Issue): IssueFormData {
    IssueFormData(issue.title, issue.description, issue.category, issue.location, issue.imageUrl)
  }

  const AllCategories: seq<IssueCategory> :=
    [RoadsAndInfrastructure, PublicSafety, Sanitation, Environmental, PublicServices, Other]

  const AllStatuses: seq<IssueStatus> := [Pending, InProgress, Completed, Rejected]

  /** The string each category has in the application. */
  function CategoryLabel(c: IssueCategory): string {
    match c
    case RoadsAndInfrastructure => "Roads & Infrastructure"
    case PublicSafety => "Public Safety"
    case Sanitation => "Sanitation"
    case Environmental => "Environmental"
    case PublicServices => "Public Services"
    case Other => "Other"
  }

  /** The category a string names, if it names one. */
  function CategoryFromLabel(s: string): (r: Option<IssueCategory>)
    ensures r.Some? ==> CategoryLabel(r.value) == s
  {
    if s == "Roads & Infrastructure" then Some(RoadsAndInfrastructure)
    else if s == "Public Safety" then Some(PublicSafety)
    else if s == "Sanitation" then Some(Sanitation)
    else if s == "Environmental" then Some(Environmental)
    else if s == "Public Services" then Some(PublicServices)
    else if s == "Other" then Some(Other)
    else None
  }

  /** The string each status has in the application. */
  function StatusLabel(s: IssueStatus): string {
    match s
    case Pending => "Pending"
    case InProgress => "In Progress"
    case Completed => "Completed"
    case Rejected => "Rejected"
  }

  /** The status a string names, if it names one. */
  function StatusFromLabel(s: string): (r: Option<IssueStatus>)
    ensures r.Some? ==> StatusLabel(r.value) == s
  {
    if s == "Pending" then Some(Pending)
    else if s == "In Progress" then Some(InProgress)
    else if s == "Completed" then Some(Completed)
    else if s == "Rejected" then Some(Rejected)
    else None
  }

  /** The category union is closed and has exactly six members, each with
      its own label. */
  lemma CategoriesAreExactlySix()
    ensures |AllCategories| == 6
    ensures forall c: IssueCategory :: c in AllCategories
    ensures forall i, j :: 0 <= i < j < |AllCategories| ==>
              CategoryLabel(AllCategories[i]) != CategoryLabel(AllCategories[j])
  {
    forall c: IssueCategory ensures c in AllCategories {
      match c
      case RoadsAndInfrastructure => assert AllCategories[0] == c;
      case PublicSafety => assert AllCategories[1] == c;
      case Sanitation => assert AllCategories[2] == c;
      case Environmental => assert AllCategories[3] == c;
      case PublicServices => assert AllCategories[4] == c;
      case Other => assert AllCategories[5] == c;
    }
  }

  /** The status union is closed and has exactly four members, each with its
      own label. */
  lemma StatusesAreExactlyFour()
    ensures |AllStatuses| == 4
    ensures forall s: IssueStatus :: s in AllStatuses
    ensures forall i, j :: 0 <= i < j < |AllStatuses| ==>
              StatusLabel(AllStatuses[i]) != StatusLabel(AllStatuses[j])
  {
    forall s: IssueStatus ensures s in AllStatuses {
      match s
      case Pending => assert AllStatuses[0] == s;
      case InProgress => assert AllStatuses[1] == s;
      case Completed => assert AllStatuses[2] == s;
      case Rejected => assert AllStatuses[3] == s;
    }
  }

  /** A string is a category label exactly when parsing it gives that
      category back. */
  lemma CategoryLabelRoundTrip(c: IssueCategory, s: string)
    ensures CategoryFromLabel(s) == Some(c) <==> s == CategoryLabel(c)
  {
  }

  /** A string is a status label exactly when parsing it gives that status
      back. */
  lemma StatusLabelRoundTrip(st: IssueStatus, s: string)
    ensures StatusFromLabel(s) == Some(st) <==> s == StatusLabel(st)
  {
  }
}
