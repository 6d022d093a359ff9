/** Who may change whose role, and to what: the rank table and the role-management panel's logic. */
module RoleManagement {
  import opened Wrappers
  import opened Club
  import opened Text
  import opened Seqs

  /** The rank table: president 5 down to member 1; any other role string ranks 0. */
  function Rank(r: Role): (k: nat)
    ensures k <= 5
    ensures k == 0 <==> r.Other?
    ensures r == President <==> k == 5
  {
    match r
    case President => 5
    case VicePresident => 4
    case Treasurer => 3
    case SeniorExecutive => 2
    case Member => 1
    case Other(_) => 0
  }

  /** Distinct known roles have distinct ranks, so the table is a strict total order on them. */
  lemma RankIsStrictOnKnownRoles(a: Role, b: Role)
    requires !a.Other? && !b.Other?
    ensures Rank(a) == Rank(b) <==> a == b
  {
  }

  /** A role string the table does not list, such as "admin", ranks 0 like any unknown role. */
  lemma UnlistedRoleRanksZero()
    ensures Rank(Parse("admin")) == 0
    ensures Rank(Parse("")) == 0
  {
  }

  /**
   * `canChangeRole`: may `current` give `target` the role `newRole`?
   * Only a president hands out the president role; otherwise the actor must
   * strictly outrank the target and may grant any role up to its own rank.
   */
  function CanChangeRole(current: Option<User>, target: Option<User>, newRole: Role): (ok: bool)
    ensures ok ==> current.Some? && target.Some?
    ensures ok && newRole == President ==> current.value.role == President
    ensures ok ==> Rank(current.value.role) > Rank(target.value.role)
    ensures ok ==> Rank(newRole) <= Rank(current.value.role)
    ensures current.Some? && target.Some?
            && Rank(current.value.role) > Rank(target.value.role)
            && Rank(newRole) <= Rank(current.value.role)
            && (newRole == President ==> current.value.role == President)
            ==> ok
  {
    if current.None? || target.None? then false
    else
      var currentLevel := Rank(current.value.role);
      var targetLevel := Rank(target.value.role);
      var newRoleLevel := Rank(newRole);
      if newRole == President && current.value.role != President then false
      else currentLevel > targetLevel && currentLevel >= newRoleLevel
  }

  /** Nobody may change a president's role, nor the role of a user holding their own role. */
  lemma NoChangeOfPresidentOrPeer(current: User, target: User, newRole: Role)
    requires target.role == President || target.role == current.role
    ensures !CanChangeRole(Some(current), Some(target), newRole)
  {
  }

  /** A president may give any role to any user who is not a president. */
  lemma PresidentAssignsAnyRole(current: User, target: User, newRole: Role)
    requires current.role == President && target.role != President
    ensures CanChangeRole(Some(current), Some(target), newRole)
  {
  }

  /** An actor of rank 0 can change no user holding a known role. */
  lemma UnrankedActorChangesNoKnownRole(current: User, target: User, newRole: Role)
    requires current.role.Other? && !target.role.Other?
    ensures !CanChangeRole(Some(current), Some(target), newRole)
  {
  }

  /** A non-president may grant its own role: a vice president may make a treasurer vice president. */
  lemma VicePresidentGrantsOwnRole(current: User, target: User)
    requires current.role == VicePresident && target.role == Treasurer
    ensures CanChangeRole(Some(current), Some(target), VicePresident)
    ensures !CanChangeRole(Some(current), Some(target), President)
  {
  }

  /** Does the user's username or full name contain the search term, ignoring ASCII case? */
  predicate MatchesSearch(searchTerm: string, u: User)
  {
    var term := ToLower(searchTerm);
    Includes(ToLower(u.username), term)
    || (u.fullName.Some? && Includes(ToLower(u.fullName.value), term))
  }

  /** `filteredUsers`: the users matching the search term, in list order. */
  function FilteredUsers(users: seq<User>, searchTerm: string): (r: seq<User>)
    ensures forall u :: u in r <==> u in users && MatchesSearch(searchTerm, u)
  {
    Filter(users, u => MatchesSearch(searchTerm, u))
  }

  /** The panel's second filter: someone other than the current user, of strictly lower rank. */
  predicate Manageable(current: User, u: User)
  {
    u.id != current.id && Rank(current.role) > Rank(u.role)
  }

  /** `manageableUsers`: the filtered users the current user outranks, never the current user. */
  function ManageableUsers(current: User, users: seq<User>, searchTerm: string): (r: seq<User>)
    ensures forall u :: u in r ==> u.id != current.id
    ensures forall u :: u in r <==>
      u in users && MatchesSearch(searchTerm, u) && u.id != current.id && Rank(current.role) > Rank(u.role)
    ensures |r| <= |users|
  {
    Filter(FilteredUsers(users, searchTerm), u => Manageable(current, u))
  }

  /** An empty search term keeps every user. */
  lemma {:induction false} EmptySearchKeepsAll(users: seq<User>)
    ensures FilteredUsers(users, "") == users
  {
    forall i | 0 <= i < |users|
      ensures MatchesSearch("", users[i])
    {
      IncludesEmpty(ToLower(users[i].username));
    }
    FilterKeepsAll(users, u => MatchesSearch("", u));
  }

  /**
   * The panel lists exactly the users whose role the current user can change to
   * something: every listed user may be made a member, and every other user whose
   * role change some role would allow is listed when the search matches.
   */
  lemma ManageableIffSomeChangeAllowed(current: User, users: seq<User>, searchTerm: string, u: User)
    requires u in users && MatchesSearch(searchTerm, u) && u.id != current.id
    ensures u in ManageableUsers(current, users, searchTerm) <==> CanChangeRole(Some(current), Some(u), Member)
    ensures forall r :: CanChangeRole(Some(current), Some(u), r) ==> u in ManageableUsers(current, users, searchTerm)
  {
  }

  /** The panel's selection: the chosen user and the chosen role string ("" when none). */
  datatype RoleForm = RoleForm(selected: Option<User>, newRole: string)

  /** A call `onUpdateRole(userId, role)` issued by the panel. */
  datatype RoleRequest = RoleRequest(userId: UserId, role: string)

  /** What `handleRoleUpdate` did: the call it issued, if any, and the selection afterwards. */
  datatype RoleUpdateStep = RoleUpdateStep(request: Option<RoleRequest>, form: RoleForm)

  /**
   * `handleRoleUpdate`. `updateThrows` is whether `onUpdateRole` rejected; on a
   * completed call the selection is cleared, on a rejected one it is kept.
   */
  function HandleRoleUpdate(current: Option<User>, form: RoleForm, updateThrows: bool): (step: RoleUpdateStep)
    ensures step.request.Some? <==>
      form.selected.Some? && form.newRole != "" && CanChangeRole(current, form.selected, Parse(form.newRole))
    ensures step.request.Some? ==>
      step.request.value == RoleRequest(form.selected.value.id, form.newRole)
    ensures step.request.Some? && !updateThrows ==> step.form == RoleForm(None, "")
    ensures step.request.None? || updateThrows ==> step.form == form
  {
    if form.selected.None? || form.newRole == "" || !CanChangeRole(current, form.selected, Parse(form.newRole)) then
      RoleUpdateStep(None, form)
    else
      var request := RoleRequest(form.selected.value.id, form.newRole);
      if updateThrows then RoleUpdateStep(Some(request), form)
      else RoleUpdateStep(Some(request), RoleForm(None, ""))
  }

  /** Every role change the panel requests is one the rank rules allow, and never one on the actor. */
  lemma RequestedChangesAreAllowed(current: Option<User>, form: RoleForm, updateThrows: bool)
    requires HandleRoleUpdate(current, form, updateThrows).request.Some?
    ensures current.Some? && form.selected.Some?
    ensures form.selected.value != current.value
    ensures Rank(current.value.role) > Rank(form.selected.value.role)
    ensures Parse(form.newRole) == President ==> current.value.role == President
  {
  }
}
