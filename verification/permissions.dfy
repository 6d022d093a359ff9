/**
 * How the three permission rules of the application relate: the rank rule for
 * role changes, the crediting table of the contribution form, and the store's
 * officer test.
 */
module Permissions {
  import opened Wrappers
  import opened Club
  import opened RoleManagement
  import opened ContributionForm
  import opened Store

  /** The officers are exactly the roles that may credit somebody, and exactly the roles of rank 2 or more. */
  lemma OfficersAreTheCreditors(r: Role)
    ensures IsOfficerRole(r) <==> MayCredit(r, Member)
    ensures IsOfficerRole(r) <==> (exists t :: MayCredit(r, t))
    ensures IsOfficerRole(r) <==> Rank(r) >= 2
  {
    if exists t :: MayCredit(r, t) {
      var t :| MayCredit(r, t);
      assert r != Member && !r.Other?;
    }
  }

  /** Whoever the form lets a signed-in officer credit, the store lets that officer create. */
  lemma EligibleOnlyForOfficers(s: State, users: seq<User>)
    requires s.profile.Some?
    requires EligibleUsers(s.profile.value, users) != []
    ensures CanCreateContribution(s)
  {
    var u := EligibleUsers(s.profile.value, users)[0];
    assert u in EligibleUsers(s.profile.value, users);
    assert MayCredit(s.profile.value.role, u.role);
    OfficersAreTheCreditors(s.profile.value.role);
  }

  /**
   * For a vice president or a senior executive the crediting table is the rank
   * rule restricted to known roles: they credit exactly the known roles they
   * strictly outrank.
   */
  lemma CreditFollowsRankBelowTreasurer(actor: Role, target: Role)
    requires actor == VicePresident || actor == SeniorExecutive
    ensures MayCredit(actor, target) <==> !target.Other? && Rank(actor) > Rank(target)
  {
  }

  /**
   * The two rules disagree in both directions: a treasurer may credit a vice
   * president it cannot manage, a president may credit a fellow president it
   * cannot manage, and a vice president may manage a user of unknown role it
   * cannot credit.
   */
  lemma CreditAndManageDiffer(t: User, vp: User, p1: User, p2: User, x: User)
    requires t.role == Treasurer && vp.role == VicePresident
    requires p1.role == President && p2.role == President
    requires x.role.Other?
    ensures MayCredit(t.role, vp.role) && !CanChangeRole(Some(t), Some(vp), Member)
    ensures MayCredit(p1.role, p2.role) && !CanChangeRole(Some(p1), Some(p2), Member)
    ensures !MayCredit(vp.role, x.role) && CanChangeRole(Some(vp), Some(x), Member)
  {
  }

  /** Apart from the treasurer's vice-president case and presidents, a credit is a role change the actor could make. */
  lemma CreditImpliesManageOutsideExceptions(actor: User, target: User)
    requires MayCredit(actor.role, target.role)
    requires actor.role != President
    requires !(actor.role == Treasurer && target.role == VicePresident)
    ensures CanChangeRole(Some(actor), Some(target), Member)
  {
  }
}
