/** The club's records: roles, profiles, contributions, activities and participants. */
module Club {
  import opened Wrappers

  type UserId = string

  /**
   * A profile's role. Roles are stored as strings; the five the application
   * knows have their own constructor and every other string is `Other`.
   */
  datatype Role =
    | Member
    | SeniorExecutive
    | Treasurer
    | VicePresident
    | President
    | Other(name: string)

  /** The string stored in the `role` column for a role. */
  function Name(r: Role): string
  {
    match r
    case Member => "member"
    case SeniorExecutive => "senior_executive"
    case Treasurer => "treasurer"
    case VicePresident => "vice_president"
    case President => "president"
    case Other(n) => n
  }

  /** The role a stored string denotes. */
  function Parse(s: string): (r: Role)
    ensures r.Other? <==> s !in KnownNames
    ensures r.Other? ==> r.name == s
  {
    if s == "member" then Member
    else if s == "senior_executive" then SeniorExecutive
    else if s == "treasurer" then Treasurer
    else if s == "vice_president" then VicePresident
    else if s == "president" then President
    else Other(s)
  }

  const KnownNames: set<string> :=
    {"member", "senior_executive", "treasurer", "vice_president", "president"}

  /** A role value that some stored string can produce: `Other` never wraps a known name. */
  predicate ValidRole(r: Role)
  {
    r.Other? ==> r.name !in KnownNames
  }

  /** The roles a profile can hold: exactly those some stored string produces. */
  type StoredRole = r: Role | ValidRole(r) witness Member

  /** Reading back a stored role string gives the string again. */
  lemma NameOfParse(s: string)
    ensures ValidRole(Parse(s))
    ensures Name(Parse(s)) == s
  {
  }

  /** Storing a valid role and reading it back gives the role again. */
  lemma ParseOfName(r: Role)
    requires ValidRole(r)
    ensures Parse(Name(r)) == r
  {
  }

  /** A row of the `profiles` table. `level` is read from the backend and never computed here. */
  datatype User = User(
    id: UserId,
    username: string,
    fullName: Option<string>,
    role: StoredRole,
    points: int,
    level: string)

  /** What the contribution form submits. Empty strings stand for unselected fields. */
  datatype ContributionData = ContributionData(
    memberId: UserId,
    activityId: string,
    description: string,
    points: int,
    contributionType: string,
    date: string)

  /** A row of the `contributions` table: the submitted fields plus the recorder and creation time. */
  datatype Contribution = Contribution(
    id: string,
    data: ContributionData,
    recordedBy: Option<UserId>,
    createdAt: string)

  /** What the activity form submits; `maxParticipants` is `None` when left blank. */
  datatype ActivityData = ActivityData(
    title: string,
    description: string,
    date: string,
    activityType: string,
    maxParticipants: Option<int>)

  /** A row of the `activities` table. */
  datatype Activity = Activity(id: string, data: ActivityData, createdBy: Option<UserId>)

  /** A row of `activity_participants`; `status` is "registered", "attended" or "absent". */
  datatype Participant = Participant(memberId: UserId, status: string)

  /** An error reported by the backend; `code` is empty when the error carries none. */
  datatype ApiError = ApiError(code: string, message: string)
}
