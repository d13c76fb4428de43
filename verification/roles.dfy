/** The current user's role as the pages hold it: resolved from the wallet
    account by an external classification call, normalised before it is
    handed to the navigation shell, and checked by the voter page's guard. */
module Roles {
  import opened Options
  import opened Text
  import opened Layout

  /** The `role` state of a page. `Unresolved` is `undefined` (the voter
      page's initial value, before its account effect has run), `NoAccount`
      is `null` (no wallet account connected), and `Classified` holds the
      string that the classification call returned for the account. */
  datatype RoleState = Unresolved | NoAccount | Classified(accountType: string)

  /** The role string a classification stands for: "owner" and "admin" in
      any letter case mean an administrator, and every other string stands
      for its lower-case form. The result is one of the three role names
      only when the classification is; it is never "owner". */
  function Normalize(accountType: string): (r: string)
    ensures r == "admin" <==> ToLower(accountType) == "owner" || ToLower(accountType) == "admin"
    ensures r != "admin" ==> r == ToLower(accountType)
    ensures IsLowerCase(r) && r != "owner"
  {
    var lower := ToLower(accountType);
    if lower == "owner" || lower == "admin" then "admin" else lower
  }

  /** Normalising a normalised role changes nothing. */
  lemma NormalizeIdempotent(accountType: string)
    ensures Normalize(Normalize(accountType)) == Normalize(accountType)
  {
    var r := Normalize(accountType);
    LowerCaseFixed(r);
  }

  lemma NormalizeExamples()
    ensures Normalize("owner") == "admin" && Normalize("Owner") == "admin" && Normalize("OWNER") == "admin"
    ensures Normalize("Admin") == "admin" && Normalize("ADMIN") == "admin"
    ensures Normalize("Voter") == "voter" && Normalize("guest") == "guest"
  {
    LowersTo("Owner", "owner");
    LowersTo("OWNER", "owner");
    LowersTo("owner", "owner");
    LowersTo("Admin", "admin");
    LowersTo("ADMIN", "admin");
    LowersTo("Voter", "voter");
    LowersTo("guest", "guest");
  }

  lemma LowersTo(s: string, t: string)
    requires |s| == |t| && forall i :: 0 <= i < |s| ==> Lower(s[i]) == t[i]
    ensures ToLower(s) == t
  {
  }

  /** The role handed to the navigation shell: `null` and `undefined` both
      become "guest", a classification its normalised form. Either way it is
      lower-case and never "owner". */
  function LayoutRole(s: RoleState): (r: string)
    ensures !s.Classified? ==> r == "guest"
    ensures s.Classified? ==> r == Normalize(s.accountType)
    ensures IsLowerCase(r) && r != "owner"
  {
    match s
    case Classified(t) => Normalize(t)
    case _ => "guest"
  }

  /** The role the voter page's guard computes: like LayoutRole, except that
      `undefined` stays undefined (None). */
  function GuardRole(s: RoleState): (r: Option<string>)
    ensures r.None? <==> s.Unresolved?
    ensures s.NoAccount? ==> r == Some("guest")
    ensures r.Some? ==> IsLowerCase(r.value) && r.value != "owner"
  {
    match s
    case Classified(t) => Some(Normalize(t))
    case NoAccount => Some("guest")
    case Unresolved => None
  }

  /** The two mappings differ exactly on the unresolved state, and both turn
      a missing account into "guest". */
  lemma GuardRoleVersusLayoutRole(s: RoleState)
    ensures s.Unresolved? ==> GuardRole(s) == None && LayoutRole(s) == "guest"
    ensures !s.Unresolved? ==> GuardRole(s) == Some(LayoutRole(s))
    ensures s.NoAccount? ==> LayoutRole(s) == "guest" && GuardRole(s) == Some("guest")
  {
  }

  /** The guard's decision for a page whose access role is `access`: while the
      role is unresolved nothing happens; otherwise the user is sent to `/`
      iff the role the shell shows is not the page's access role. */
  function ShouldRedirect(s: RoleState, access: Role): (r: bool)
    ensures s.Unresolved? ==> !r
    ensures !s.Unresolved? ==> (r <==> LayoutRole(s) != RoleName(access))
  {
    !s.Unresolved? && GuardRole(s) != Some(RoleName(access))
  }

  /** The guard as the voter page instantiates it, with the access role
      read from the route table: it compares the role with "voter". */
  function VoterPageRedirects(s: RoleState): (r: bool)
    ensures r <==> !s.Unresolved? && GuardRole(s) != Some("voter")
  {
    AccessRoles(MyVotingSessions);
    ShouldRedirect(s, PageOf(MyVotingSessions).access)
  }

  /** On the voter page the guard lets through exactly the accounts classified
      "voter" in some letter case; no account, an owner or an administrator
      is redirected. */
  lemma VoterPageGuard(s: RoleState)
    ensures VoterPageRedirects(s) <==>
      s.NoAccount? || (s.Classified? && ToLower(s.accountType) != "voter")
  {
    if s.Classified? {
      var lower := ToLower(s.accountType);
      if lower == "owner" || lower == "admin" {
        assert lower != "voter" by { assert lower[0] != "voter"[0]; }
      }
    }
  }

  lemma VoterPageGuardExamples()
    ensures VoterPageRedirects(NoAccount)
    ensures VoterPageRedirects(Classified("owner"))
    ensures VoterPageRedirects(Classified("Admin"))
    ensures VoterPageRedirects(Classified("ADMIN"))
    ensures !VoterPageRedirects(Classified("Voter"))
    ensures !VoterPageRedirects(Unresolved)
  {
    NormalizeExamples();
  }

  /** A page's `role` state and the effect that keeps it in step with the
      wallet account. */
  class RoleTracker {
    var role: RoleState

    /** The voter page starts with `undefined`. */
    constructor BeforeFirstEffect()
      ensures role == Unresolved
    {
      role := Unresolved;
    }

    /** The session lookup page starts with `null`. */
    constructor Disconnected()
      ensures role == NoAccount
    {
      role := NoAccount;
    }

    /** The effect run when the current account changes. With an account
        connected it asks for the account's classification (the account to
        classify is returned) and leaves the role as it was until the answer
        arrives; with none it sets the role to `null` at once. */
    method AccountChanged(currentAccount: Option<string>) returns (toClassify: Option<string>)
      modifies this
      ensures IsConnected(currentAccount) ==> toClassify == currentAccount && role == old(role)
      ensures !IsConnected(currentAccount) ==> toClassify == None && role == NoAccount
    {
      if IsConnected(currentAccount) {
        toClassify := currentAccount;
      } else {
        toClassify := None;
        role := NoAccount;
      }
    }

    /** The classification call answered. */
    method ClassificationReceived(accountType: string)
      modifies this
      ensures role == Classified(accountType)
    {
      role := Classified(accountType);
    }

    predicate Redirects(access: Role)
      reads this
    {
      ShouldRedirect(role, access)
    }
  }

  /** The voter page mounted while no account is known yet: the guard holds
      back on the first render and redirects once the effect has set `null`. */
  method VoterPageWithoutAccount() returns (before: bool, after: bool)
    ensures !before && after
  {
    var t := new RoleTracker.BeforeFirstEffect();
    before := t.Redirects(PageOf(MyVotingSessions).access);
    var _ := t.AccountChanged(None);
    after := t.Redirects(PageOf(MyVotingSessions).access);
  }

  /** Switching the wallet from a voter account to another account keeps the
      voter role until the new classification arrives, so the page's guard
      does not redirect while that classification is pending; an "owner"
      answer then makes it redirect. */
  method AccountSwitchKeepsRoleUntilClassified(first: string, second: string) returns (during: bool, after: bool)
    requires first != "" && second != ""
    ensures !during && after
  {
    var t := new RoleTracker.BeforeFirstEffect();
    var q := t.AccountChanged(Some(first));
    t.ClassificationReceived("voter");
    q := t.AccountChanged(Some(second));
    during := t.Redirects(PageOf(MyVotingSessions).access);
    LowersTo("voter", "voter");
    t.ClassificationReceived("owner");
    LowersTo("owner", "owner");
    after := t.Redirects(PageOf(MyVotingSessions).access);
  }
}
