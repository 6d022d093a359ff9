/**
 * The client-side store: officer predicates, the fetch actions and the two
 * create actions. The backend is a value; every call to it takes its outcome
 * (success, or the error it reports) as a parameter.
 */
module Store {
  import opened Wrappers
  import opened Club
  import opened Errors
  import RoleManagement
  import Leaderboard
  import Ordering

  /** The backend's tables, in storage order; each query imposes its own order. */
  datatype Backend = Backend(profiles: seq<User>, activities: seq<Activity>, contributions: seq<Contribution>)

  /** The store's data and UI state. */
  datatype State = State(
    profile: Option<User>,
    users: seq<User>,
    activities: seq<Activity>,
    contributions: seq<Contribution>,
    activeTab: string,
    showActivityForm: bool,
    showContributionForm: bool)

  datatype World = World(backend: Backend, store: State)

  /** What a create action resolves to: `{data, error}` with exactly one of them set. */
  datatype Response<T> = Response(data: Option<T>, error: Option<string>)

  /** The roles allowed to create activities and record contributions. */
  predicate IsOfficerRole(r: Role)
  {
    r in {President, VicePresident, Treasurer, SeniorExecutive}
  }

  /** `canCreateActivity`: a profile is loaded and its role is an officer role. */
  function CanCreateActivity(s: State): (ok: bool)
    ensures ok <==> s.profile.Some? && RoleManagement.Rank(s.profile.value.role) >= 2
  {
    s.profile.Some? && IsOfficerRole(s.profile.value.role)
  }

  /** `canCreateContribution`: the same test as `canCreateActivity`. */
  function CanCreateContribution(s: State): (ok: bool)
    ensures ok <==> CanCreateActivity(s)
    ensures ok ==> s.profile.Some? && !s.profile.value.role.Other? && s.profile.value.role != Member
    ensures s.profile.Some? && s.profile.value.role == SeniorExecutive ==> ok
  {
    s.profile.Some? && IsOfficerRole(s.profile.value.role)
  }

  /** The first profile with the given id, as `Array.prototype.find` returns it. */
  function FindUser(users: seq<User>, id: UserId): (r: Option<User>)
    ensures r.Some? ==> r.value in users && r.value.id == id
    ensures r.None? <==> forall i :: 0 <= i < |users| ==> users[i].id != id
    ensures r.Some? ==> exists i :: 0 <= i < |users| && users[i] == r.value
                                    && forall j :: 0 <= j < i ==> users[j].id != id
  {
    if |users| == 0 then None
    else if users[0].id == id then Some(users[0])
    else
      var r := FindUser(users[1..], id);
      assert r.Some? ==> exists i :: 0 <= i < |users| && users[i] == r.value
                                     && forall j :: 0 <= j < i ==> users[j].id != id by {
        if r.Some? {
          var i :| 0 <= i < |users| - 1 && users[1..][i] == r.value
                   && forall j :: 0 <= j < i ==> users[1..][j].id != id;
          assert users[i + 1] == r.value && forall j :: 0 <= j < i + 1 ==> users[j].id != id;
        }
      }
      r
  }

  /**
   * `fetchProfile`. `failure` is a transport error, if any; a missing row is
   * the PGRST116 case. Either way the profile becomes null; on success it is
   * the row with that id.
   */
  function FetchProfile(w: World, userId: UserId, failure: Option<ApiError>): (res: (World, Option<User>))
    ensures res.0.store.profile == res.1
    ensures res.0.backend == w.backend
    ensures res.0.store == w.store.(profile := res.1)
    ensures res.1.Some? <==> failure.None? && exists i :: 0 <= i < |w.backend.profiles| && w.backend.profiles[i].id == userId
    ensures res.1.Some? ==> res.1.value.id == userId && res.1.value in w.backend.profiles
  {
    var found := if failure.Some? then None else FindUser(w.backend.profiles, userId);
    (w.(store := w.store.(profile := found)), found)
  }

  /**
   * `fetchUsers`: on success the profiles ordered by points, highest first
   * (profiles with equal points in storage order); on failure the list is emptied.
   */
  function FetchUsers(w: World, failure: Option<ApiError>): (res: (World, seq<User>))
    ensures res.0.store.users == res.1
    ensures res.0.backend == w.backend && res.0.store == w.store.(users := res.1)
    ensures failure.Some? ==> res.1 == []
    ensures failure.None? ==> multiset(res.1) == multiset(w.backend.profiles)
    ensures failure.None? ==> Leaderboard.Descending(res.1)
    ensures failure.None? ==> forall p :: Leaderboard.WithPoints(res.1, p) == Leaderboard.WithPoints(w.backend.profiles, p)
  {
    var rows := if failure.Some? then [] else Leaderboard.SortByPoints(w.backend.profiles);
    (w.(store := w.store.(users := rows)), rows)
  }

  /** The column `fetchActivities` orders by. */
  function ActivityDate(a: Activity): string
  {
    a.data.date
  }

  /** The column `fetchContributions` orders by. */
  function CreatedAt(c: Contribution): string
  {
    c.createdAt
  }

  /** `fetchActivities`: on success the activities latest date first; on failure the list is emptied. */
  function FetchActivities(w: World, failure: Option<ApiError>): (res: (World, seq<Activity>))
    ensures res.0.store.activities == res.1
    ensures res.0.backend == w.backend && res.0.store == w.store.(activities := res.1)
    ensures failure.Some? ==> res.1 == []
    ensures failure.None? ==> multiset(res.1) == multiset(w.backend.activities)
    ensures failure.None? ==> Ordering.LatestFirst(res.1, ActivityDate)
  {
    var rows := if failure.Some? then [] else Ordering.LatestFirstBy(w.backend.activities, ActivityDate);
    (w.(store := w.store.(activities := rows)), rows)
  }

  /** `fetchContributions`: on success the contributions latest creation first; on failure the list is emptied. */
  function FetchContributions(w: World, failure: Option<ApiError>): (res: (World, seq<Contribution>))
    ensures res.0.store.contributions == res.1
    ensures res.0.backend == w.backend && res.0.store == w.store.(contributions := res.1)
    ensures failure.Some? ==> res.1 == []
    ensures failure.None? ==> multiset(res.1) == multiset(w.backend.contributions)
    ensures failure.None? ==> Ordering.LatestFirst(res.1, CreatedAt)
  {
    var rows := if failure.Some? then [] else Ordering.LatestFirstBy(w.backend.contributions, CreatedAt);
    (w.(store := w.store.(contributions := rows)), rows)
  }

  /** The outcomes of the backend calls `createActivity` makes. */
  datatype ActivityCalls = ActivityCalls(insert: Result<string, ApiError>)

  /**
   * `createActivity`. On success the new row, created by `userId`, is stored
   * and prepended to the store's list whatever its date, and the form closes;
   * on failure nothing changes and the mapped message is returned.
   */
  function CreateActivity(w: World, data: ActivityData, userId: Option<UserId>, calls: ActivityCalls)
    : (res: (World, Response<Activity>))
    ensures calls.insert.Failure? ==>
      res.0 == w && res.1 == Response(None, Some(ErrorMessage(calls.insert.error)))
    ensures calls.insert.Success? ==>
      var a := Activity(calls.insert.value, data, userId);
      && res.1 == Response(Some(a), None)
      && res.0.store.activities == [a] + w.store.activities
      && !res.0.store.showActivityForm
      && multiset(res.0.backend.activities) == multiset(w.backend.activities) + multiset{a}
      && res.0.backend.profiles == w.backend.profiles
      && res.0.backend.contributions == w.backend.contributions
      && res.0.store == w.store.(activities := res.0.store.activities, showActivityForm := false)
  {
    match calls.insert
    case Failure(e) => (w, Response(None, Some(ErrorMessage(e))))
    case Success(rowId) =>
      var a := Activity(rowId, data, userId);
      var backend := w.backend.(activities := [a] + w.backend.activities);
      var store := w.store.(activities := [a] + w.store.activities, showActivityForm := false);
      (World(backend, store), Response(Some(a), None))
  }

  /** The `increment_user_points` call: adds `delta` to the points of every profile with that id. */
  function IncrementPoints(profiles: seq<User>, id: UserId, delta: int): (r: seq<User>)
    ensures |r| == |profiles|
    ensures forall i :: 0 <= i < |r| ==>
      r[i] == profiles[i].(points := profiles[i].points + (if profiles[i].id == id then delta else 0))
  {
    if |profiles| == 0 then []
    else
      var head := profiles[0];
      var head' := if head.id == id then head.(points := head.points + delta) else head;
      [head'] + IncrementPoints(profiles[1..], id, delta)
  }

  /** The outcomes of the backend calls `createContribution` makes, in order. */
  datatype ContributionCalls = ContributionCalls(
    insert: Result<string, ApiError>,   // the new row's id, or the insert's error
    createdAt: string,                  // the timestamp the client stamps on the row
    increment: Option<ApiError>,        // an error from `increment_user_points`, if any
    refetch: Option<ApiError>)          // an error from the `fetchUsers` that follows, if any

  /** The error `createContribution` raises when the target is not in the store's user list. */
  const TargetNotFound := ApiError("", "Target user not found")

  /** The missing-target error reaches the user as its own message. */
  lemma TargetNotFoundShown()
    ensures ErrorMessage(TargetNotFound) == "Target user not found"
  {
    CodelessMessagePassesThrough(TargetNotFound.message);
  }

  /**
   * The part of `createContribution` after a successful insert of row `c`: add
   * the points (an error there is ignored), refetch the users highest points
   * first, prepend the row and close the form.
   */
  function RecordInserted(w: World, c: Contribution, calls: ContributionCalls): (w': World)
    ensures multiset(w'.backend.contributions) == multiset(w.backend.contributions) + multiset{c}
    ensures w'.backend.activities == w.backend.activities
    ensures w'.backend.profiles ==
      if calls.increment.Some? then w.backend.profiles
      else IncrementPoints(w.backend.profiles, c.data.memberId, c.data.points)
    ensures calls.refetch.Some? ==> w'.store.users == []
    ensures calls.refetch.None? ==>
      multiset(w'.store.users) == multiset(w'.backend.profiles) && Leaderboard.Descending(w'.store.users)
    ensures w'.store.contributions == [c] + w.store.contributions
    ensures !w'.store.showContributionForm
    ensures w'.store == w.store.(users := w'.store.users,
                                 contributions := w'.store.contributions,
                                 showContributionForm := false)
  {
    var profiles :=
      if calls.increment.Some? then w.backend.profiles
      else IncrementPoints(w.backend.profiles, c.data.memberId, c.data.points);
    var backend := Backend(profiles, w.backend.activities, [c] + w.backend.contributions);
    var fetched := FetchUsers(World(backend, w.store), calls.refetch).0;
    World(backend, fetched.store.(contributions := [c] + w.store.contributions, showContributionForm := false))
  }

  /**
   * `createContribution`. It checks only that the target is in the store's
   * user list — no role check — then inserts the row with `recorded_by` and
   * records it as `RecordInserted` describes.
   */
  function CreateContribution(w: World, data: ContributionData, userId: Option<UserId>, calls: ContributionCalls)
    : (res: (World, Response<Contribution>))
    ensures FindUser(w.store.users, data.memberId).None? ==>
      res.0 == w && res.1 == Response(None, Some("Target user not found"))
    ensures FindUser(w.store.users, data.memberId).Some? && calls.insert.Failure? ==>
      res.0 == w && res.1 == Response(None, Some(ErrorMessage(calls.insert.error)))
    ensures res.1.data.Some? <==> FindUser(w.store.users, data.memberId).Some? && calls.insert.Success?
    ensures res.1.data.Some? <==> res.1.error.None?
    ensures res.1.data.Some? ==>
      && res.1.data.value == Contribution(calls.insert.value, data, userId, calls.createdAt)
      && res.0 == RecordInserted(w, res.1.data.value, calls)
  {
    if FindUser(w.store.users, data.memberId).None? then
      TargetNotFoundShown();
      (w, Response(None, Some(ErrorMessage(TargetNotFound))))
    else
      match calls.insert
      case Failure(e) => (w, Response(None, Some(ErrorMessage(e))))
      case Success(rowId) =>
        var c := Contribution(rowId, data, userId, calls.createdAt);
        (RecordInserted(w, c, calls), Response(Some(c), None))
  }

  /** The points ledger after a recorded contribution: the target gains exactly its points, nobody else changes. */
  lemma ContributionMovesOnlyTargetPoints(w: World, data: ContributionData, userId: Option<UserId>, calls: ContributionCalls)
    requires FindUser(w.store.users, data.memberId).Some? && calls.insert.Success?
    requires calls.increment.None?
    ensures var after := CreateContribution(w, data, userId, calls).0.backend.profiles;
      && |after| == |w.backend.profiles|
      && forall i :: 0 <= i < |after| ==>
           && after[i].id == w.backend.profiles[i].id
           && (after[i].id == data.memberId ==> after[i].points == w.backend.profiles[i].points + data.points)
           && (after[i].id != data.memberId ==> after[i] == w.backend.profiles[i])
  {
  }

  /** A failed increment is swallowed: the contribution is still recorded and the call succeeds, points unchanged. */
  lemma FailedIncrementIsSwallowed(w: World, data: ContributionData, userId: Option<UserId>, calls: ContributionCalls)
    requires FindUser(w.store.users, data.memberId).Some? && calls.insert.Success?
    requires calls.increment.Some?
    ensures var (w', resp) := CreateContribution(w, data, userId, calls);
      && resp.error.None?
      && w'.backend.profiles == w.backend.profiles
      && |w'.backend.contributions| == |w.backend.contributions| + 1
  {
  }

  /** `createContribution` checks no role: the signed-in profile does not affect the result. */
  lemma NoRoleCheckInStore(w: World, p: Option<User>, data: ContributionData, userId: Option<UserId>, calls: ContributionCalls)
    ensures var w2 := w.(store := w.store.(profile := p));
      && CreateContribution(w2, data, userId, calls).1 == CreateContribution(w, data, userId, calls).1
      && CreateContribution(w2, data, userId, calls).0.backend == CreateContribution(w, data, userId, calls).0.backend
  {
  }

  /** Both dashboard handlers pass no user id, so the rows they create carry no recorder or creator. */
  lemma DashboardCallsRecordNoCreator(w: World, data: ContributionData, calls: ContributionCalls, activity: ActivityData, aCalls: ActivityCalls)
    ensures var r := CreateContribution(w, data, None, calls).1;
      r.data.Some? ==> r.data.value.recordedBy.None?
    ensures var r := CreateActivity(w, activity, None, aCalls).1;
      r.data.Some? ==> r.data.value.createdBy.None?
  {
  }

  /**
   * Store lists holding the same rows as the backend tables still hold the
   * same rows after a create action, and a refetch of users after a recorded
   * contribution lists every profile, highest points first.
   */
  lemma CreatesKeepListsInSync(w: World, a: ActivityData, aCalls: ActivityCalls,
                               c: ContributionData, cCalls: ContributionCalls, userId: Option<UserId>)
    requires multiset(w.store.activities) == multiset(w.backend.activities)
    requires multiset(w.store.contributions) == multiset(w.backend.contributions)
    ensures var w' := CreateActivity(w, a, userId, aCalls).0;
      && multiset(w'.store.activities) == multiset(w'.backend.activities)
      && multiset(w'.store.contributions) == multiset(w'.backend.contributions)
    ensures var w' := CreateContribution(w, c, userId, cCalls).0;
      && multiset(w'.store.activities) == multiset(w'.backend.activities)
      && multiset(w'.store.contributions) == multiset(w'.backend.contributions)
      && (cCalls.refetch.None? && CreateContribution(w, c, userId, cCalls).1.data.Some? ==>
            multiset(w'.store.users) == multiset(w'.backend.profiles) && Leaderboard.Descending(w'.store.users))
  {
  }

  /**
   * A new activity is shown first until the next fetch, even when it is dated
   * before the others: the fetch puts it back in date order.
   */
  lemma NewActivityShownFirstUntilRefetch(w: World, x: Activity, data: ActivityData, rowId: string)
    requires w.backend.activities == [x] && w.store.activities == [x]
    requires x.data.date == "2026-12-01" && data.date == "2026-01-01"
    ensures var w' := CreateActivity(w, data, None, ActivityCalls(Success(rowId))).0;
      var a := Activity(rowId, data, None);
      && w'.store.activities == [a, x]
      && FetchActivities(w', None).1 == [x, a]
  {
    var a := Activity(rowId, data, None);
    var w' := CreateActivity(w, data, None, ActivityCalls(Success(rowId))).0;
    var fetched := FetchActivities(w', None).1;
    assert w'.backend.activities == [a, x];
    assert a != x by {
      assert a.data.date != x.data.date;
    }
    assert a.data.date[..5] == x.data.date[..5];
    Ordering.FirstDifferenceDecides(a.data.date, x.data.date, 5);
    assert multiset(fetched) == multiset{a, x};
    assert fetched[0] in multiset(fetched) && fetched[1] in multiset(fetched);
  }
}
