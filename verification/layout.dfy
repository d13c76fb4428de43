/** The navigation shell shared by every page: the fixed table of routes with
    their titles and required roles, the sidebar that lists the routes the
    current role may use, the marking of the current route, and the account
    badge at the foot of the sidebar. */
module Layout {
  import opened Options
  import opened Text

  /** The union type `roles`. */
  datatype Role = Admin | Voter | Guest

  /** The string a role is written as; the shell compares the (string) current
      role against it. */
  function RoleName(r: Role): string {
    match r
    case Admin => "admin"
    case Voter => "voter"
    case Guest => "guest"
  }

  /** The union type `paths`. */
  datatype Path =
    | Home
    | AddVotingSession
    | RegisterVoterCandidate
    | UpdateVotingPhase
    | AddAccount
    | ViewAccounts
    | MyVotingSessions
    | CastVote

  function PathName(p: Path): string {
    match p
    case Home => "/"
    case AddVotingSession => "/add-voting-session"
    case RegisterVoterCandidate => "/register-voter-candidate"
    case UpdateVotingPhase => "/update-voting-phase"
    case AddAccount => "/add-account"
    case ViewAccounts => "/view-accounts"
    case MyVotingSessions => "/my-voting-sessions"
    case CastVote => "/cast-vote"
  }

  /** One entry of the `pages` object: its key and its `{ title, access }` value. */
  datatype Page = Page(path: Path, title: string, access: Role)

  /** The `pages` object, entries in declaration order (the order in which
      `Object.entries` yields them, since no key looks like an array index). */
  const Pages: seq<Page> := [
    Page(Home, "Check Voting Session", Guest),
    Page(AddVotingSession, "Add Voting Session", Admin),
    Page(RegisterVoterCandidate, "Register Voter/Candidate", Admin),
    Page(UpdateVotingPhase, "Update Voting Phase", Admin),
    Page(AddAccount, "Add Account", Admin),
    Page(ViewAccounts, "View Accounts", Admin),
    Page(MyVotingSessions, "My Voting Sessions", Voter),
    Page(CastVote, "Cast Vote", Voter)
  ]

  function PathsOf(pages: seq<Page>): (r: seq<Path>)
    ensures |r| == |pages|
    ensures forall i :: 0 <= i < |pages| ==> r[i] == pages[i].path
  {
    seq(|pages|, i requires 0 <= i < |pages| => pages[i].path)
  }

  ghost predicate Distinct<T>(s: seq<T>) {
    forall i, j :: 0 <= i < j < |s| ==> s[i] != s[j]
  }

  /** The eight keys are eight different strings, so the sidebar's test
      against the string "/" singles out the Home entry. */
  lemma PathNamesDistinct(p: Path, q: Path)
    ensures PathName(p) == PathName(q) <==> p == q
    ensures PathName(p) == "/" <==> p == Home
  {
    if p != q {
      var a, b := PathName(p), PathName(q);
      if |a| == |b| {
        assert a[1] != b[1] || a[2] != b[2] || a[5] != b[5] || a[6] != b[6];
      }
    }
  }

  /** `pages[key]`: the entry whose key is `p`, if any. */
  function Lookup(pages: seq<Page>, p: Path): (r: Option<Page>)
    ensures r.Some? <==> exists i :: 0 <= i < |pages| && pages[i].path == p
    ensures r.Some? ==> r.value in pages && r.value.path == p
  {
    if pages == [] then None
    else if pages[0].path == p then Some(pages[0])
    else Lookup(pages[1..], p)
  }

  /** Where each key sits in the table. */
  function IndexOf(p: Path): (i: nat)
    ensures i < |Pages| && Pages[i].path == p
  {
    match p
    case Home => 0
    case AddVotingSession => 1
    case RegisterVoterCandidate => 2
    case UpdateVotingPhase => 3
    case AddAccount => 4
    case ViewAccounts => 5
    case MyVotingSessions => 6
    case CastVote => 7
  }

  /** `pages[p]` for a key of type `paths`. */
  function PageOf(p: Path): Page {
    Pages[IndexOf(p)]
  }

  /** The table holds each key exactly once, so looking a key up finds the
      entry at its own index and never fails. */
  lemma KeysUnique()
    ensures |Pages| == 8
    ensures forall i :: 0 <= i < |Pages| ==> IndexOf(Pages[i].path) == i
    ensures Distinct(PathsOf(Pages))
    ensures forall p :: Lookup(Pages, p) == Some(PageOf(p))
  {
    forall p ensures Lookup(Pages, p) == Some(PageOf(p)) {
      LookupFindsFirst(Pages, p, IndexOf(p));
    }
  }

  lemma {:induction false} LookupFindsFirst(pages: seq<Page>, p: Path, k: nat)
    requires k < |pages| && pages[k].path == p
    requires forall i :: 0 <= i < k ==> pages[i].path != p
    ensures Lookup(pages, p) == Some(pages[k])
  {
    if k > 0 {
      LookupFindsFirst(pages[1..], p, k - 1);
    }
  }

  /** Each route has one access role: `/` is open to guests, five routes
      need an administrator and two need a voter. */
  lemma AccessRoles(p: Path)
    ensures PageOf(p).access == Guest <==> p == Home
    ensures PageOf(p).access == Voter <==> p == MyVotingSessions || p == CastVote
    ensures PageOf(p).access == Admin <==>
      p in {AddVotingSession, RegisterVoterCandidate, UpdateVotingPhase, AddAccount, ViewAccounts}
    ensures PageOf(Home).title == "Check Voting Session"
    ensures PageOf(MyVotingSessions).title == "My Voting Sessions"
  {
  }

  /** The sidebar's rule: an entry is rendered unless the role differs from
      its access role and it is not `/`. */
  predicate IsVisible(page: Page, currentRole: string) {
    currentRole == RoleName(page.access) || page.path == Home
  }

  /** The rule as the source writes it, against the key string "/". */
  lemma VisibilityRule(page: Page, currentRole: string)
    ensures IsVisible(page, currentRole) <==>
      currentRole == RoleName(page.access) || PathName(page.path) == "/"
  {
    PathNamesDistinct(page.path, Home);
  }

  /** A rendered sidebar entry: link target, label, and whether it is marked
      as the current page. */
  datatype MenuItem = MenuItem(path: Path, title: string, active: bool)

  function ItemOf(page: Page, currentPage: Path): MenuItem {
    MenuItem(page.path, page.title, page.path == currentPage)
  }

  /** `Object.entries(pages).map(...)` with its early `return null`: the
      entries kept, in table order, each marked active iff it is the current page. */
  function Menu(pages: seq<Page>, currentRole: string, currentPage: Path): (r: seq<MenuItem>)
    ensures |r| <= |pages|
    ensures forall i :: 0 <= i < |r| ==> (r[i].active <==> r[i].path == currentPage)
  {
    if pages == [] then []
    else
      var rest := Menu(pages[1..], currentRole, currentPage);
      if IsVisible(pages[0], currentRole) then [ItemOf(pages[0], currentPage)] + rest else rest
  }

  function Sidebar(currentRole: string, currentPage: Path): seq<MenuItem> {
    Menu(Pages, currentRole, currentPage)
  }

  function ItemPaths(items: seq<MenuItem>): (r: seq<Path>)
    ensures |r| == |items|
    ensures forall i :: 0 <= i < |items| ==> r[i] == items[i].path
  {
    seq(|items|, i requires 0 <= i < |items| => items[i].path)
  }

  /** An item is in the menu iff it is the item of some visible table entry. */
  lemma {:induction false} MenuMembership(pages: seq<Page>, currentRole: string, currentPage: Path, item: MenuItem)
    ensures item in Menu(pages, currentRole, currentPage) <==>
      exists pg :: pg in pages && IsVisible(pg, currentRole) && item == ItemOf(pg, currentPage)
  {
    if pages != [] {
      MenuMembership(pages[1..], currentRole, currentPage, item);
      assert forall pg :: pg in pages <==> pg == pages[0] || pg in pages[1..];
    }
  }

  /** `a` is `b` with some elements left out, the rest kept in their order. */
  ghost predicate IsSubsequence<T>(a: seq<T>, b: seq<T>)
    decreases |b|
  {
    if a == [] then true
    else if b == [] then false
    else (a[0] == b[0] && IsSubsequence(a[1..], b[1..])) || IsSubsequence(a, b[1..])
  }

  /** Filtering never reorders or invents entries. */
  lemma {:induction false} MenuIsSubsequence(pages: seq<Page>, currentRole: string, currentPage: Path)
    ensures IsSubsequence(ItemPaths(Menu(pages, currentRole, currentPage)), PathsOf(pages))
  {
    if pages != [] {
      MenuIsSubsequence(pages[1..], currentRole, currentPage);
      var m := Menu(pages, currentRole, currentPage);
      var rest := Menu(pages[1..], currentRole, currentPage);
      assert PathsOf(pages)[1..] == PathsOf(pages[1..]);
      if IsVisible(pages[0], currentRole) {
        assert ItemPaths(m)[1..] == ItemPaths(rest);
      } else {
        assert ItemPaths(m) == ItemPaths(rest);
        if ItemPaths(m) != [] {
          assert IsSubsequence(ItemPaths(m), PathsOf(pages)[1..]);
        }
      }
    }
  }

  lemma {:induction false} SubsequenceElements<T>(a: seq<T>, b: seq<T>)
    requires IsSubsequence(a, b)
    ensures forall x :: x in a ==> x in b
    decreases |b|
  {
    if a != [] {
      if a[0] == b[0] && IsSubsequence(a[1..], b[1..]) {
        SubsequenceElements(a[1..], b[1..]);
        forall x | x in a ensures x in b {
          if x != a[0] {
            assert x in a[1..];
            assert x in b[1..];
          }
        }
      } else {
        SubsequenceElements(a, b[1..]);
      }
    }
  }

  /** A subsequence of a sequence without repetitions has none either. */
  lemma {:induction false} SubsequenceDistinct<T>(a: seq<T>, b: seq<T>)
    requires IsSubsequence(a, b) && Distinct(b)
    ensures Distinct(a)
    decreases |b|
  {
    if a != [] {
      assert Distinct(b[1..]);
      if a[0] == b[0] && IsSubsequence(a[1..], b[1..]) {
        SubsequenceDistinct(a[1..], b[1..]);
        SubsequenceElements(a[1..], b[1..]);
        assert b[0] !in b[1..];
        forall i, j | 0 <= i < j < |a| ensures a[i] != a[j] {
          if i == 0 {
            assert a[j] in a[1..];
          } else {
            assert a[i] == a[1..][i - 1] && a[j] == a[1..][j - 1];
          }
        }
      } else {
        SubsequenceDistinct(a, b[1..]);
      }
    }
  }

  /** The sidebar never lists a route twice, and at most one of its entries
      is marked active. */
  lemma SidebarDistinct(currentRole: string, currentPage: Path)
    ensures Distinct(ItemPaths(Sidebar(currentRole, currentPage)))
    ensures var m := Sidebar(currentRole, currentPage);
      forall i, j :: 0 <= i < |m| && 0 <= j < |m| && m[i].active && m[j].active ==> i == j
  {
    KeysUnique();
    MenuIsSubsequence(Pages, currentRole, currentPage);
    SubsequenceDistinct(ItemPaths(Sidebar(currentRole, currentPage)), PathsOf(Pages));
  }

  /** A route is listed iff the role is its access role or the route is `/`. */
  lemma SidebarListsExactlyAllowed(currentRole: string, currentPage: Path, p: Path)
    ensures p in ItemPaths(Sidebar(currentRole, currentPage)) <==>
      (currentRole == RoleName(PageOf(p).access) || p == Home)
  {
    KeysUnique();
    if p in ItemPaths(Sidebar(currentRole, currentPage)) {
      ListedIsVisible(currentRole, currentPage, p);
    }
    if IsVisible(PageOf(p), currentRole) {
      VisibleIsListed(currentRole, currentPage, p);
    }
  }

  lemma ListedIsVisible(currentRole: string, currentPage: Path, p: Path)
    requires p in ItemPaths(Sidebar(currentRole, currentPage))
    ensures IsVisible(PageOf(p), currentRole)
  {
    var m := Sidebar(currentRole, currentPage);
    var i :| 0 <= i < |m| && ItemPaths(m)[i] == p;
    MenuMembership(Pages, currentRole, currentPage, m[i]);
    var q :| q in Pages && IsVisible(q, currentRole) && m[i] == ItemOf(q, currentPage);
    var k :| 0 <= k < |Pages| && Pages[k] == q;
    KeysUnique();
    assert IndexOf(p) == k;
  }

  lemma VisibleIsListed(currentRole: string, currentPage: Path, p: Path)
    requires IsVisible(PageOf(p), currentRole)
    ensures p in ItemPaths(Sidebar(currentRole, currentPage))
  {
    var m := Sidebar(currentRole, currentPage);
    var pg := PageOf(p);
    MenuMembership(Pages, currentRole, currentPage, ItemOf(pg, currentPage));
    var j :| 0 <= j < |m| && m[j] == ItemOf(pg, currentPage);
    assert ItemPaths(m)[j] == p;
  }

  /** `/` is listed whatever the role, and it comes first. */
  lemma HomeAlwaysListed(currentRole: string, currentPage: Path)
    ensures |Sidebar(currentRole, currentPage)| > 0
    ensures Sidebar(currentRole, currentPage)[0] == ItemOf(PageOf(Home), currentPage)
  {
  }

  /** The keys of the entries the filter keeps, in table order. */
  function VisiblePaths(pages: seq<Page>, currentRole: string): seq<Path> {
    if pages == [] then []
    else
      var rest := VisiblePaths(pages[1..], currentRole);
      if IsVisible(pages[0], currentRole) then [pages[0].path] + rest else rest
  }

  lemma {:induction false} MenuPaths(pages: seq<Page>, currentRole: string, currentPage: Path)
    ensures ItemPaths(Menu(pages, currentRole, currentPage)) == VisiblePaths(pages, currentRole)
  {
    if pages != [] {
      MenuPaths(pages[1..], currentRole, currentPage);
      var m := Menu(pages, currentRole, currentPage);
      var rest := Menu(pages[1..], currentRole, currentPage);
      if IsVisible(pages[0], currentRole) {
        assert ItemPaths(m) == [pages[0].path] + ItemPaths(rest);
      } else {
        assert ItemPaths(m) == ItemPaths(rest);
      }
    }
  }

  /** The sidebar of any role string, route by route in table order: `/`,
      then the five administrator routes for "admin", then the two voter
      routes for "voter". */
  lemma SidebarForRole(currentRole: string, currentPage: Path)
    ensures ItemPaths(Sidebar(currentRole, currentPage)) ==
      [Home]
      + (if currentRole == "admin"
         then [AddVotingSession, RegisterVoterCandidate, UpdateVotingPhase, AddAccount, ViewAccounts]
         else [])
      + (if currentRole == "voter" then [MyVotingSessions, CastVote] else [])
  {
    MenuPaths(Pages, currentRole, currentPage);
    VisibleForRole(currentRole);
  }

  /** A guest sees only `/`. */
  lemma GuestSidebar(currentRole: string, currentPage: Path)
    requires currentRole == "guest"
    ensures ItemPaths(Sidebar(currentRole, currentPage)) == [Home]
  {
    SidebarForRole(currentRole, currentPage);
  }

  /** A voter sees `/` and the two voter routes. */
  lemma VoterSidebar(currentRole: string, currentPage: Path)
    requires currentRole == "voter"
    ensures ItemPaths(Sidebar(currentRole, currentPage)) == [Home, MyVotingSessions, CastVote]
  {
    SidebarForRole(currentRole, currentPage);
  }

  /** An administrator sees `/` and the five administrator routes. */
  lemma AdminSidebar(currentRole: string, currentPage: Path)
    requires currentRole == "admin"
    ensures ItemPaths(Sidebar(currentRole, currentPage)) ==
      [Home, AddVotingSession, RegisterVoterCandidate, UpdateVotingPhase, AddAccount, ViewAccounts]
  {
    SidebarForRole(currentRole, currentPage);
  }

  /** A role string that names none of the three roles sees only `/`. */
  lemma UnknownRoleSidebar(currentRole: string, currentPage: Path)
    requires currentRole != "admin" && currentRole != "voter" && currentRole != "guest"
    ensures ItemPaths(Sidebar(currentRole, currentPage)) == [Home]
  {
    SidebarForRole(currentRole, currentPage);
  }

  /** The filter worked out block by block: `/`, the five administrator
      entries, the two voter entries. */
  lemma VisibleForRole(currentRole: string)
    ensures VisiblePaths(Pages, currentRole) ==
      [Home]
      + (if currentRole == "admin"
         then [AddVotingSession, RegisterVoterCandidate, UpdateVotingPhase, AddAccount, ViewAccounts]
         else [])
      + (if currentRole == "voter" then [MyVotingSessions, CastVote] else [])
  {
    var home, admin, voter := [Pages[0]], [Pages[1], Pages[2], Pages[3], Pages[4], Pages[5]], [Pages[6], Pages[7]];
    assert Pages == home + admin + voter;
    VisibleConcat(home + admin, voter, currentRole);
    VisibleConcat(home, admin, currentRole);
    VisibleUniform(admin, Admin, currentRole);
    VisibleUniform(voter, Voter, currentRole);
    assert VisiblePaths(home[1..], currentRole) == [];
    assert PathsOf(admin) == [AddVotingSession, RegisterVoterCandidate, UpdateVotingPhase, AddAccount, ViewAccounts];
    assert PathsOf(voter) == [MyVotingSessions, CastVote];
  }

  /** Filtering distributes over concatenation. */
  lemma {:induction false} VisibleConcat(a: seq<Page>, b: seq<Page>, currentRole: string)
    ensures VisiblePaths(a + b, currentRole) == VisiblePaths(a, currentRole) + VisiblePaths(b, currentRole)
  {
    if a == [] {
      assert a + b == b;
    } else {
      var ab := a + b;
      assert ab[0] == a[0] && ab[1..] == a[1..] + b;
      VisibleConcat(a[1..], b, currentRole);
      var head := if IsVisible(a[0], currentRole) then [a[0].path] else [];
      assert VisiblePaths(ab, currentRole) == head + VisiblePaths(a[1..] + b, currentRole);
      assert VisiblePaths(a, currentRole) == head + VisiblePaths(a[1..], currentRole);
    }
  }

  /** A block of entries other than `/` that share one access role is kept
      whole for that role and dropped for every other. */
  lemma {:induction false} VisibleUniform(pages: seq<Page>, access: Role, currentRole: string)
    requires forall i :: 0 <= i < |pages| ==> pages[i].access == access && pages[i].path != Home
    ensures VisiblePaths(pages, currentRole) == if currentRole == RoleName(access) then PathsOf(pages) else []
  {
    if pages != [] {
      VisibleUniform(pages[1..], access, currentRole);
      if currentRole == RoleName(access) {
        assert PathsOf(pages) == [pages[0].path] + PathsOf(pages[1..]);
      }
    }
  }

  /** The account badge at the foot of the sidebar. A guest's badge tells
      whether an account is connected; anyone else's starts with
      "Connected as " and then names the role, in as many characters. */
  function Badge(currentRole: string, currentAccount: Option<string>): (r: string)
    ensures currentRole == "guest" ==>
      (r == "Guest User (CONNECTED)" <==> IsConnected(currentAccount))
    ensures currentRole != "guest" ==>
      |r| == |ConnectedPrefix| + |currentRole| && r[..|ConnectedPrefix|] == ConnectedPrefix
  {
    if currentRole == "guest" then
      if IsConnected(currentAccount) then "Guest User (CONNECTED)"
      else
        assert "Guest User (UNCONNECTED)"[12] != "Guest User (CONNECTED)"[12];
        "Guest User (UNCONNECTED)"
    else ConnectedPrefix + TitleCase(currentRole)
  }

  /** JavaScript truthiness of the current account: both a missing account
      and the empty string are falsy. */
  function IsConnected(currentAccount: Option<string>): (r: bool)
    ensures !r <==> currentAccount == None || currentAccount == Some("")
  {
    currentAccount.Some? && currentAccount.value != ""
  }

  const ConnectedPrefix: string := "Connected as "

  /** The badge tells guests apart by connection, and for every other role
      names the role in title case: lower-casing the name on the badge
      gives back the (lower-case) role, and a one-word role comes out with
      its first character upper-cased and the rest lower-cased. */
  lemma BadgeText(currentRole: string, currentAccount: Option<string>)
    ensures currentRole == "guest" && IsConnected(currentAccount) ==>
      Badge(currentRole, currentAccount) == "Guest User (CONNECTED)"
    ensures currentRole == "guest" && !IsConnected(currentAccount) ==>
      Badge(currentRole, currentAccount) == "Guest User (UNCONNECTED)"
    ensures currentRole != "guest" ==>
      var b := Badge(currentRole, currentAccount);
      |b| == |ConnectedPrefix| + |currentRole| && b[..|ConnectedPrefix|] == ConnectedPrefix
      && ToLower(b[|ConnectedPrefix|..]) == ToLower(currentRole)
    ensures (&& currentRole != "guest" && |currentRole| > 0 && IsWordChar(currentRole[0])
             && forall i :: 0 <= i < |currentRole| ==> !IsSpace(currentRole[i])) ==>
      Badge(currentRole, currentAccount) == ConnectedPrefix + [Upper(currentRole[0])] + ToLower(currentRole[1..])
  {
    if currentRole != "guest" {
      var b := Badge(currentRole, currentAccount);
      TitleCaseOnlyChangesCase(currentRole, false);
      assert b[|ConnectedPrefix|..] == TitleCase(currentRole);
      if |currentRole| > 0 && IsWordChar(currentRole[0])
        && (forall i :: 0 <= i < |currentRole| ==> !IsSpace(currentRole[i])) {
        TitleCaseWord(currentRole);
      }
    }
  }

  lemma BadgeForRoles(currentAccount: Option<string>)
    ensures Badge("admin", currentAccount) == "Connected as Admin"
    ensures Badge("voter", currentAccount) == "Connected as Voter"
  {
    TitleCaseRoleNames();
  }
}
