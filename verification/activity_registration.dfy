/** The activity registration panel: who is registered, capacity, and the register/unregister toggle. */
module ActivityRegistration {
  import opened Wrappers
  import opened Club
  import opened Seqs

  const Registered := "registered"
  const Attended := "attended"
  const Absent := "absent"

  /** How many participants have the given status. */
  function StatusCount(participants: seq<Participant>, status: string): (n: nat)
    ensures n <= |participants|
    ensures n == 0 <==> forall i :: 0 <= i < |participants| ==> participants[i].status != status
  {
    CountWhere(participants, (p: Participant) => p.status == status)
  }

  /** The panel's three statistics together count each participant at most once. */
  lemma StatusCountsBounded(participants: seq<Participant>)
    ensures StatusCount(participants, Registered) + StatusCount(participants, Attended)
            + StatusCount(participants, Absent) <= |participants|
  {
    DisjointCountsBounded(participants,
      (p: Participant) => p.status == Registered,
      (p: Participant) => p.status == Attended,
      (p: Participant) => p.status == Absent);
  }

  /** The derived `isRegistered`: a user is signed in and some participant row carries their id. */
  function IsRegistered(participants: seq<Participant>, current: Option<User>): (b: bool)
    ensures b <==> current.Some? && exists i :: 0 <= i < |participants| && participants[i].memberId == current.value.id
  {
    current.Some? && CountWhere(participants, (p: Participant) => p.memberId == current.value.id) > 0
  }

  /**
   * `isActivityFull`: a maximum is set and nonzero, and the participants with
   * status "registered" reach it. `maxParticipants` is `None` when the activity
   * has no maximum (or there is no activity).
   */
  function IsActivityFull(maxParticipants: Option<int>, participants: seq<Participant>): (full: bool)
    ensures full ==> maxParticipants.Some? && maxParticipants.value != 0
    ensures full <==> maxParticipants.Some? && maxParticipants.value != 0
                      && StatusCount(participants, Registered) >= maxParticipants.value
  {
    match maxParticipants
    case None => false
    case Some(m) => m != 0 && StatusCount(participants, Registered) >= m
  }

  /** Without a maximum, or with maximum 0, an activity is never full. */
  lemma NoMaximumNeverFull(participants: seq<Participant>)
    ensures !IsActivityFull(None, participants)
    ensures !IsActivityFull(Some(0), participants)
  {
  }

  /** Participants who attended or were absent take no place: adding one leaves fullness as it was. */
  lemma {:induction false} OnlyRegisteredCount(maxParticipants: Option<int>, participants: seq<Participant>, p: Participant)
    requires p.status != Registered
    ensures IsActivityFull(maxParticipants, participants + [p]) == IsActivityFull(maxParticipants, participants)
  {
    CountAppendOther(participants, p);
  }

  lemma {:induction false} CountAppendOther(participants: seq<Participant>, p: Participant)
    requires p.status != Registered
    ensures StatusCount(participants + [p], Registered) == StatusCount(participants, Registered)
  {
    if |participants| > 0 {
      assert (participants + [p])[0] == participants[0];
      assert (participants + [p])[1..] == participants[1..] + [p];
      CountAppendOther(participants[1..], p);
    } else {
      assert participants + [p] == [p];
    }
  }

  /** `canRegister`: a signed-in user, not yet registered, and room left. */
  function CanRegister(current: Option<User>, isRegistered: bool, maxParticipants: Option<int>, participants: seq<Participant>): (ok: bool)
    ensures ok ==> current.Some? && !isRegistered
    ensures ok ==> maxParticipants.None? || maxParticipants.value == 0
                   || StatusCount(participants, Registered) < maxParticipants.value
    ensures current.Some? && !isRegistered && (maxParticipants.None? || maxParticipants == Some(0)) ==> ok
    ensures ok <==> current.Some? && !isRegistered && !IsActivityFull(maxParticipants, participants)
  {
    current.Some? && !isRegistered
    && (!IsActivityFull(maxParticipants, participants) || maxParticipants.None?)
  }

  /** The panel's loaded participant rows and its `isRegistered` flag. */
  datatype Panel = Panel(participants: seq<Participant>, isRegistered: bool)

  /** `fetchParticipants`: loaded rows replace the list and re-derive the flag; a failed load changes nothing. */
  function FetchParticipants(panel: Panel, current: Option<User>, fetched: Option<seq<Participant>>): (p: Panel)
    ensures fetched.None? ==> p == panel
    ensures fetched.Some? ==> p.participants == fetched.value
    ensures fetched.Some? ==> (p.isRegistered <==> IsRegistered(fetched.value, current))
  {
    match fetched
    case None => panel
    case Some(rows) => Panel(rows, IsRegistered(rows, current))
  }

  /** Which callback `handleRegistration` invoked. */
  datatype RegistrationCall = Register(activityId: string) | Unregister(activityId: string)

  /** How the callback ended: it resolved with or without an error, or it threw. */
  datatype CallOutcome = Resolved(error: Option<string>) | Threw

  /** The callback resolved with a falsy `error`: none at all, or the empty string. */
  predicate Succeeded(outcome: CallOutcome)
  {
    outcome.Resolved? && (outcome.error.None? || outcome.error.value == "")
  }

  /** What `handleRegistration` did: the callback it invoked, if any, and the panel afterwards. */
  datatype RegistrationStep = RegistrationStep(call: Option<RegistrationCall>, panel: Panel)

  /**
   * `handleRegistration`. It unregisters a registered user and registers any
   * other; only a callback that resolves with a falsy error flips the flag, after
   * which the participants are reloaded (`refetched` is that load's rows, or
   * `None` if it failed).
   */
  function HandleRegistration(panel: Panel, current: Option<User>, activityId: Option<string>,
                              outcome: CallOutcome, refetched: Option<seq<Participant>>): (step: RegistrationStep)
    ensures step.call.None? <==> current.None? || activityId.None?
    ensures step.call.Some? ==>
      step.call.value == (if panel.isRegistered then Unregister(activityId.value) else Register(activityId.value))
    ensures step.call.None? || !Succeeded(outcome) ==> step.panel == panel
    ensures step.call.Some? && Succeeded(outcome) && refetched.None? ==>
      step.panel == Panel(panel.participants, !panel.isRegistered)
    ensures step.call.Some? && Succeeded(outcome) && refetched.Some? ==>
      step.panel == Panel(refetched.value, IsRegistered(refetched.value, current))
  {
    if current.None? || activityId.None? then RegistrationStep(None, panel)
    else
      var call := if panel.isRegistered then Unregister(activityId.value) else Register(activityId.value);
      if Succeeded(outcome) then
        var flipped := panel.(isRegistered := !panel.isRegistered);
        RegistrationStep(Some(call), FetchParticipants(flipped, current, refetched))
      else RegistrationStep(Some(call), panel)
  }

  /**
   * After a successful registration whose reload shows the user's row, the
   * panel agrees with the rows and no longer offers registration.
   */
  lemma RegisteredUserCannotRegisterAgain(panel: Panel, current: User, activityId: string,
                                          rows: seq<Participant>, maxParticipants: Option<int>)
    requires !panel.isRegistered
    requires exists i :: 0 <= i < |rows| && rows[i].memberId == current.id
    ensures var step := HandleRegistration(panel, Some(current), Some(activityId), Resolved(None), Some(rows));
      && step.call == Some(Register(activityId))
      && step.panel.isRegistered
      && !CanRegister(Some(current), step.panel.isRegistered, maxParticipants, step.panel.participants)
  {
  }
}
