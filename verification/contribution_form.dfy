/** The contribution form: whom an officer may credit, the suggested points, and submission. */
module ContributionForm {
  import opened Wrappers
  import opened Club
  import opened Seqs

  /**
   * The crediting table. It is its own table, not the rank order: a president
   * credits anyone, a vice president credits treasurers, senior executives and
   * members, a treasurer credits vice presidents, senior executives and members,
   * a senior executive credits members, and every other role credits nobody.
   */
  predicate MayCredit(actor: Role, target: Role)
  {
    match actor
    case President => true
    case VicePresident => target in {Treasurer, SeniorExecutive, Member}
    case Treasurer => target in {VicePresident, SeniorExecutive, Member}
    case SeniorExecutive => target == Member
    case _ => false
  }

  /** The eligible list computed for a present current user: never the current user. */
  function EligibleUsers(current: User, users: seq<User>): (r: seq<User>)
    ensures forall u :: u in r <==> u in users && u.id != current.id && MayCredit(current.role, u.role)
    ensures forall u :: u in r ==> u.id != current.id
  {
    Filter(users, (u: User) => u.id != current.id && MayCredit(current.role, u.role))
  }

  /** The effect's update: with no current user the previous list stays. */
  function RefreshEligible(current: Option<User>, users: seq<User>, previous: seq<User>): (r: seq<User>)
    ensures current.None? ==> r == previous
    ensures current.Some? ==> forall u :: u in r <==> u in users && u.id != current.value.id && MayCredit(current.value.role, u.role)
  {
    if current.None? then previous else EligibleUsers(current.value, users)
  }

  /** A president may credit every user except themself. */
  lemma PresidentCreditsAllButSelf(current: User, users: seq<User>, u: User)
    requires current.role == President && u in users
    ensures u in EligibleUsers(current, users) <==> u.id != current.id
  {
  }

  /** A treasurer may credit a vice president but never a president or another treasurer. */
  lemma TreasurerCreditsVicePresident(current: User, users: seq<User>, u: User)
    requires current.role == Treasurer && u in users && u.id != current.id
    ensures u.role == VicePresident ==> u in EligibleUsers(current, users)
    ensures u.role == President || u.role == Treasurer ==> u !in EligibleUsers(current, users)
  {
  }

  /** Members and unknown roles get an empty eligible list. */
  lemma NonOfficerCreditsNobody(current: User, users: seq<User>)
    requires current.role == Member || current.role.Other?
    ensures EligibleUsers(current, users) == []
  {
    FilterKeepsNone(users, (u: User) => u.id != current.id && MayCredit(current.role, u.role));
  }

  /** The default points per contribution type. */
  const Suggestions: map<string, int> := map[
    "participation" := 10,
    "presentation" := 20,
    "leadership" := 25,
    "competition_win" := 50,
    "competition_runner_up" := 30,
    "project_completion" := 40,
    "mentoring" := 15,
    "organizing" := 35]

  /** `getPointsSuggestion`: the table's value, and 10 for a type the table lacks. */
  function PointsSuggestion(contributionType: string): (p: int)
    ensures contributionType !in Suggestions ==> p == 10
    ensures contributionType in Suggestions ==> p == Suggestions[contributionType]
    ensures 10 <= p <= 50
  {
    if contributionType in Suggestions && Suggestions[contributionType] != 0 then Suggestions[contributionType]
    else 10
  }

  /** The form's fields; `points` holds the parsed number. */
  datatype Form = Form(
    memberId: UserId,
    activityId: string,
    description: string,
    points: int,
    contributionType: string)

  /** The form as first shown and after a successful submission. */
  const DefaultForm := Form("", "", "", 10, "participation")

  /** `handleTypeChange`: sets the type and its suggested points, nothing else. */
  function ChangeType(form: Form, contributionType: string): (f: Form)
    ensures f.contributionType == contributionType
    ensures f.points == PointsSuggestion(contributionType)
    ensures f.memberId == form.memberId && f.activityId == form.activityId && f.description == form.description
  {
    form.(contributionType := contributionType, points := PointsSuggestion(contributionType))
  }

  /** The default form already carries the suggestion for its own type. */
  lemma DefaultFormIsConsistent()
    ensures ChangeType(DefaultForm, DefaultForm.contributionType) == DefaultForm
  {
  }

  /** What `handleSubmit` did: the data passed to `onSubmit`, the form afterwards, and whether it closed. */
  datatype SubmitStep = SubmitStep(submitted: Option<ContributionData>, form: Form, closed: bool)

  /**
   * `handleSubmit`. `today` is the date stamped on the submission and
   * `submitThrows` whether `onSubmit` rejected.
   */
  function HandleSubmit(form: Form, today: string, submitThrows: bool): (step: SubmitStep)
    ensures step.submitted.Some? <==> form.memberId != "" && form.description != ""
    ensures step.submitted.Some? ==>
      step.submitted.value == ContributionData(
        form.memberId, form.activityId, form.description, form.points, form.contributionType, today)
    ensures step.closed <==> step.submitted.Some? && !submitThrows
    ensures step.closed ==> step.form == DefaultForm
    ensures !step.closed ==> step.form == form
  {
    if form.memberId == "" || form.description == "" then SubmitStep(None, form, false)
    else
      var data := ContributionData(
        form.memberId, form.activityId, form.description, form.points, form.contributionType, today);
      if submitThrows then SubmitStep(Some(data), form, false)
      else SubmitStep(Some(data), DefaultForm, true)
  }

  /** After a successful submission the form is blank again, so submitting it once more sends nothing. */
  lemma ResetFormBlocksResubmit(form: Form, today: string, later: string, submitThrows: bool)
    requires HandleSubmit(form, today, false).closed
    ensures HandleSubmit(HandleSubmit(form, today, false).form, later, submitThrows).submitted.None?
  {
  }
}
