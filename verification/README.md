# DCast front end: navigation gate, role guard and session view, in Dafny

DCast is a web front end for a voting contract. Almost all of it is markup.
This project models the decision logic inside that markup, and proves
properties of it:

- **Navigation shell** (`components/layout/Layout.tsx`, module `Layout` in
  `layout.dfy`). It holds the fixed table of eight routes, each with a title
  and one access role. The sidebar lists a route iff the current role is the
  route's access role or the route is `/`. It marks the current route as
  active. At its foot, an account badge shows "Guest User (CONNECTED)" or
  "Guest User (UNCONNECTED)" for a guest, and "Connected as" followed by the
  title-cased role for anyone else.
- **Role normalisation and the voter page's guard** (`pages/index.tsx`,
  `pages/my-voting-sessions.tsx`, module `Roles` in `roles.dfy`). A page's
  role is `undefined`, `null` (no account) or the classification string the
  contract returned. "owner" and "admin" in any letter case become "admin".
  Any other string becomes its lower-case form, and `null` becomes "guest".
  The voter page's guard does nothing while the role is `undefined`.
  Otherwise it redirects to `/` iff the normalised role is not "voter". The
  role state and its effect form a small state machine, the class
  `RoleTracker`.
- **Session view** (`pages/index.tsx`, module `SessionView` in
  `session_view.dfy`). The positional tuples the contract returns
  (`details[2]`, `candidateData[0]`, `voterVSDetails[i][1]`) become named
  records; each field's tuple index is noted in a comment. The module covers
  the phase label and the timestamp rows each phase allows. Candidates get
  Won/Lose in phase 2 and "-" otherwise. Voters get "No Vote" for the
  sentinel 0 and "Voted: n" otherwise. Empty candidate and voter lists get
  their messages. The page state is updated by a lookup, and a missing
  session produces the not-found message.
- **My voting sessions** (`pages/my-voting-sessions.tsx`, module `MySessions`
  in `my_sessions.dfy`). This module covers the loaded/array state that the
  View button updates, and the status cell of each row.
- Module `Text` (`text.dfy`) holds the string helpers these use: ASCII case
  mapping, the `\w` and `\s` classes of JavaScript regular expressions, the
  title-casing replace, and decimal rendering of numbers.

Where the code and the design description of the system disagree, the model
follows the code:

- The normalised role is not a closed enumeration. An unknown classification
  such as "Unregistered" becomes the string "unregistered", which the code
  casts to `roles` without a check. The model keeps it a string. Such a role
  sees only `/` in the sidebar (`Layout.UnknownRoleSidebar`), and the badge
  reads "Connected as Unregistered".
- An account change does not reset the role to `undefined`. While the new
  account's classification is pending, the old role stays in force, so the
  voter page's guard does not redirect in that interval
  (`Roles.AccountSwitchKeepsRoleUntilClassified`). The shell's own
  account-change handler navigates to `/` regardless; see "## Left out".
- A failed classification call is not caught, so the role is not set to
  "guest". A page mounted before any account is known gets `null` and is
  redirected (`Roles.VoterPageWithoutAccount`).
- A phase value above 2 is labelled "Close", but neither later timestamp row
  is shown (`SessionView.OutOfRangePhase`).
- A voted-candidate id of 0 (`voterVSDetails[i][1]`) means "no vote", so it
  cannot be told apart from a vote for a candidate whose id is 0. The model
  keeps this rule.

## Model

| member | source | states |
|---|---|---|
| `Layout.IndexOf` | components/layout/Layout.tsx:44-75 | every key of `paths` has an entry in the table, at a fixed position |
| `Layout.PathNamesDistinct` | components/layout/Layout.tsx:28-36 | the eight keys are distinct strings; exactly `Home` is "/" |
| `Layout.KeysUnique` | components/layout/Layout.tsx:38-76 | the table has exactly eight entries with distinct keys; `pages[p]` finds the entry for every key and never fails |
| `Layout.Lookup` | components/layout/Layout.tsx:38-76 | looking up a key succeeds iff some entry has that key, and returns an entry of the table with that key |
| `Layout.LookupFindsFirst` | components/layout/Layout.tsx:38-76 | looking up a key returns the first entry with that key |
| `Layout.AccessRoles` | components/layout/Layout.tsx:44-75 | each route has one access role: `/` is guest, five routes are admin, `/my-voting-sessions` and `/cast-vote` are voter; also the titles of `/` and `/my-voting-sessions` |
| `Layout.VisibilityRule` | components/layout/Layout.tsx:216-217 | the sidebar's rule `IsVisible` keeps an entry iff the role is its access role or its key is the string "/" |
| `Layout.Menu` | components/layout/Layout.tsx:216-238 | the menu is no longer than the table, and an entry is marked active iff its path is the current page |
| `Layout.MenuMembership` | components/layout/Layout.tsx:216-217 | an item is in the menu iff it is the item of a table entry that passes the sidebar rule (both directions) |
| `Layout.MenuIsSubsequence` | components/layout/Layout.tsx:216-238 | the menu's paths are a subsequence of the table's keys: filtering never reorders or invents entries |
| `Layout.SidebarDistinct` | components/layout/Layout.tsx:216-231 | no route is listed twice, and at most one entry is active |
| `Layout.SidebarListsExactlyAllowed` | components/layout/Layout.tsx:216-217 | a route is listed iff the current role equals its access role or it is `/` |
| `Layout.HomeAlwaysListed` | components/layout/Layout.tsx:216-217 | for every role, `/` is listed, and it is listed first |
| `Layout.MenuPaths` | components/layout/Layout.tsx:216-238 | the menu's paths are the keys of the entries the sidebar rule keeps, in table order |
| `Layout.SidebarForRole` | components/layout/Layout.tsx:216-217 | for any role string, the listed routes in order: `/`, then the five admin routes for "admin", then the two voter routes for "voter" |
| `Layout.GuestSidebar` | components/layout/Layout.tsx:216-217 | a guest sees only `/` |
| `Layout.VoterSidebar` | components/layout/Layout.tsx:216-217 | a voter sees `/`, `/my-voting-sessions`, `/cast-vote` |
| `Layout.AdminSidebar` | components/layout/Layout.tsx:216-217 | an admin sees `/` and the five admin routes, in table order |
| `Layout.UnknownRoleSidebar` | components/layout/Layout.tsx:216-217 | a role string that is none of the three role names sees only `/` |
| `Layout.BadgeText` | components/layout/Layout.tsx:241-268 | a guest with an account gets "Guest User (CONNECTED)", a guest without one "Guest User (UNCONNECTED)"; any other role gets "Connected as " followed by text of the role's length that lower-cases to the lower-cased role; a one-word role starting with a word character reads "Connected as " + its first character upper-cased + the rest lower-cased |
| `Layout.Badge` | components/layout/Layout.tsx:241-268 | a guest's badge reads "Guest User (CONNECTED)" iff an account is connected; any other role's badge is "Connected as " followed by as many characters as the role has |
| `Layout.IsConnected` | components/layout/Layout.tsx:242 | the account is falsy exactly when it is missing or the empty string |
| `Layout.BadgeForRoles` | components/layout/Layout.tsx:256-268 | the badge reads "Connected as Admin" and "Connected as Voter" for the two roles |
| `Text.ToLower` | pages/index.tsx:66-68 | lower-casing keeps the length and yields a lower-case string |
| `Text.TitleCaseFrom` | components/layout/Layout.tsx:263-267 | title-casing keeps the length |
| `Text.TitleCaseOnlyChangesCase` | components/layout/Layout.tsx:263-267 | title-casing changes only letter case: lower-casing its result gives the lower-cased input |
| `Text.TitleCaseIdempotent` | components/layout/Layout.tsx:263-267 | title-casing a title-cased string changes nothing |
| `Text.TitleCaseWord` | components/layout/Layout.tsx:263-267 | a single word upper-cases its first character and lower-cases the rest |
| `Text.TitleCaseRoleNames` | components/layout/Layout.tsx:263-267 | "admin", "voter" and "guest" become "Admin", "Voter" and "Guest" |
| `Text.DecimalString` | pages/index.tsx:383-385 | a number is rendered as a non-empty string of digits without a leading zero |
| `Text.DecimalRoundTrip` | pages/index.tsx:383-385 | reading the rendered digits back gives the number |
| `Text.DecimalInjective` | pages/index.tsx:383-385 | two numbers with the same rendering are equal |
| `Roles.Normalize` | pages/index.tsx:64-70 | the result is "admin" iff the lower-cased classification is "owner" or "admin"; otherwise it is the lower-cased classification; it is lower-case and never "owner" |
| `Roles.NormalizeIdempotent` | pages/index.tsx:66-68 | normalising a normalised role returns it unchanged |
| `Roles.NormalizeExamples` | pages/my-voting-sessions.tsx:36-38 | "owner", "Owner", "OWNER", "Admin" and "ADMIN" become "admin"; "Voter" becomes "voter" |
| `Roles.LayoutRole` | pages/my-voting-sessions.tsx:100-104 | `null` and `undefined` give "guest", a classification its normalised form; the result is lower-case and never "owner" (the same mapping as pages/index.tsx:64-70 for `null`) |
| `Roles.GuardRole` | pages/my-voting-sessions.tsx:34-41 | the guard's role is undefined exactly when the page's role is; `null` gives "guest"; any defined result is lower-case and never "owner" |
| `Roles.GuardRoleVersusLayoutRole` | pages/my-voting-sessions.tsx:34-41 | the guard's role and the role passed to the shell (lines 100-104) agree except on `undefined`: the guard keeps it undefined, the shell gets "guest"; for `null` both give "guest" |
| `Roles.ShouldRedirect` | pages/my-voting-sessions.tsx:43-49 | while the role is `undefined` there is no redirect; otherwise a redirect happens iff the shell's role differs from the page's access role |
| `Roles.VoterPageRedirects` | pages/my-voting-sessions.tsx:43-49 | with the access role read from the table (line 45), the voter page redirects iff the role is defined and the guard's role is not "voter" |
| `Roles.VoterPageGuard` | pages/my-voting-sessions.tsx:33-50 | on the voter page a redirect happens iff there is no account, or the classification does not lower-case to "voter" |
| `Roles.VoterPageGuardExamples` | pages/my-voting-sessions.tsx:34-48 | no account, "owner", "Admin" and "ADMIN" are redirected; "Voter" is let through; `undefined` is not redirected |
| `Roles.RoleTracker.BeforeFirstEffect` | pages/my-voting-sessions.tsx:17 | the voter page's role starts `undefined` |
| `Roles.RoleTracker.Disconnected` | pages/index.tsx:15 | the lookup page's role starts `null` |
| `Roles.RoleTracker.AccountChanged` | pages/my-voting-sessions.tsx:19-31 | with a connected account, the account is sent for classification and the role is left as it was; with none, the role becomes `null` at once |
| `Roles.RoleTracker.ClassificationReceived` | pages/my-voting-sessions.tsx:25-27 | the classification answer becomes the role |
| `Roles.VoterPageWithoutAccount` | pages/my-voting-sessions.tsx:17-50 | with no account, the guard does nothing on the first render and redirects once the role is `null` |
| `Roles.AccountSwitchKeepsRoleUntilClassified` | pages/my-voting-sessions.tsx:19-50 | after a switch away from a voter account, the guard does not redirect while the new classification is pending; an "owner" answer then makes it redirect |
| `SessionView.PhaseLabel` | pages/index.tsx:154-159 | the label is "Registration" iff the phase is 0, "Voting" iff 1, "Close" iff 2 or more |
| `SessionView.ShowsVotingTime` | pages/index.tsx:186-187 | the voting-time row shows iff the phase is one of the three a session can be in and its label is not "Registration" |
| `SessionView.ShowsCloseTime` | pages/index.tsx:212 | the close-time row shows iff the phase is one of the three and its label is "Close"; never without the voting-time row |
| `SessionView.PhaseRowsFollowLabel` | pages/index.tsx:155-212 | for phases 0 to 2, the voting-time row is shown iff the label is not "Registration", the close-time row iff the label is "Close", and never the close row without the voting row |
| `SessionView.OutOfRangePhase` | pages/index.tsx:155-212 | a phase above 2 is labelled "Close" but shows no voting or close row |
| `SessionView.IsWinner` | pages/index.tsx:294-305 | the search over the winner ids succeeds iff the id is in the list |
| `SessionView.StatusOf` | pages/index.tsx:292-317 | in phase 2 a candidate is Won iff its id is a winner id, else Lose; in any other phase the status is "-" whatever the winner list holds |
| `SessionView.StatusIgnoresWinnerOrder` | pages/index.tsx:294-305 | winner lists with the same elements, in any order and with any repetition, give the same status |
| `SessionView.WinnerExample` | pages/index.tsx:292-317 | with winners [2, 5], candidates 1, 2, 3, 5 are Lose, Won, Lose, Won in phase 2, and "-" in phase 1 |
| `SessionView.VoteStatusOf` | pages/index.tsx:374-385 | the sentinel 0 is "no vote"; any other id is a vote for that id |
| `SessionView.VoteLabelIdentifiesVote` | pages/index.tsx:379-385 | the label is "No Vote" iff the id is 0, and two labels are equal only for equal ids |
| `SessionView.CandidateSectionOf` | pages/index.tsx:240-329 | the message (line 327) iff there are no candidates; otherwise one row per candidate, in order, with the candidate's id |
| `SessionView.VoterSectionOf` | pages/index.tsx:334-400 | rendering throws iff some voter has no parallel vote entry; the message (line 398) iff there are no voters; otherwise one row per voter |
| `SessionView.Project` | pages/index.tsx:108-400 | the view exists iff the voter section renders; its header shows the session's own id, name and phase label |
| `SessionView.ProjectDefined` | pages/index.tsx:354-392 | rendering succeeds iff every voter has a parallel `voterVSDetails` entry |
| `SessionView.ProjectGatesTimestamps` | pages/index.tsx:163-232 | the registration time is always shown; the voting time iff the phase is 1 or 2; the close time iff the phase is 2; each shown value is the record's own |
| `SessionView.ProjectCandidates` | pages/index.tsx:240-329 | an empty candidate list gives the message; otherwise every candidate gets a row, in order, with its Won/Lose/- status |
| `SessionView.ProjectVoters` | pages/index.tsx:334-400 | an empty voter list gives the message; otherwise voter i gets a row with the weight and status of `voterVSDetails[i]` |
| `SessionView.NotFoundMessage` | pages/index.tsx:44-46 | the message is a fixed prefix, the submitted id as typed, and a fixed suffix |
| `SessionView.NotFoundMessageNamesId` | pages/index.tsx:44-46 | two submitted ids give the same message only when they are the same text; the message is never empty |
| `SessionView.SessionLookupPage.ShowsError` | pages/index.tsx:771-772 | the error paragraph shows only with no details and a non-empty message |
| `SessionView.SessionLookupPage.ShowsDetails` | pages/index.tsx:108 | the details block shows iff details are held, and then the error paragraph does not |
| `SessionView.SessionLookupPage.constructor` | pages/index.tsx:35-36 | the page starts with no details and no message, so neither block is shown |
| `SessionView.SessionLookupPage.LookupAnswered` | pages/index.tsx:38-57 | the details become the lookup result; a missing session sets "Voting Session with ID {id} does not exist.", a found one clears the message; afterwards the details block (line 108) shows iff found, the error paragraph (lines 771-772) iff not found, never both |
| `MySessions.MySessionsPage.constructor` | pages/my-voting-sessions.tsx:55-59 | the page starts not loaded with a `null` array, so no table |
| `MySessions.MySessionsPage.ShowsTable` | pages/my-voting-sessions.tsx:121-122 | the table shows only with an array; on a valid page (an array only once loaded) the array alone decides it |
| `MySessions.MySessionsPage.Submit` | pages/my-voting-sessions.tsx:61-85 | success loads one entry per session id and sets loaded; an empty list gives an empty array, not `null`; failure sets the array to `null` and keeps `isLoaded`; the table (lines 121-122) shows iff the submit succeeded; the page stays valid |
| `MySessions.RowOf` | pages/my-voting-sessions.tsx:146-186 | the row exists iff `voterVSDetails` has an entry at the row's index; it shows the session's id and name and that entry's weight; its status is "No Vote" iff the stored id is 0, else a vote for that id |

## Left out

- Wallet connection is not modelled: the `accountsChanged` listener, `connectWallet`, `checkIfWalletIsConnected` and the MetaMask button (components/layout/Layout.tsx:97-103, 131-153). These are browser and wallet I/O. The current account is a parameter.
- The contract calls `checkAccountType`, `getVotingSessionDetails`, `getSingleVoterDetails` and `getVoterID` are not modelled. Their results are parameters: an account type string, an optional session record, and a voter lookup that may throw. The `getVoterID` effect (pages/my-voting-sessions.tsx:87-93) is left out: the id it stores is never rendered.
- The timing of promises is not modelled. Results are applied in the order the caller passes them. The source does not order concurrent requests, so no "last request wins" property is claimed. A classification that arrives late for an earlier account is applied like any other.
- The source never catches a failed classification call, so the role keeps its old value. The model has no "guest on failure" rule because the code has none.
- `MySessions.MySessionsPage.Submit`: the array in the source holds unresolved promises of session lookups. The model records only the session id each entry was requested for.
- `MySessions.RowOf`: models a row as if its entry were a resolved session record. It reads `voterVSDetails` at the row's position in the voter's list, as the source does. The phase column, which the source leaves as a TODO, and the stray TODO text are not modelled.
- The shell's account-change handler (components/layout/Layout.tsx:133-141) navigates to `/` on every wallet account change, whatever the role. The model does not include it, so `Roles.AccountSwitchKeepsRoleUntilClassified` says only that the voter page's own guard does not redirect; it does not say that the page stays open.
- Toasts, `console.log` and the execution of `router.push` are not modelled. Only the redirect decision is.
- Sidebar toggling, click-outside handling, the address tooltip and the clipboard copy are not modelled. They are UI.
- Date and time formatting (`toLocaleDateString`, `toLocaleTimeString`) is not modelled because it depends on the locale. The model decides only whether each timestamp row is shown, and carries the raw timestamp.
- `BigNumber.toNumber()` conversions are not modelled. Ids, counts and weights are `nat`, so the throw for values above 2^53 is not captured.
- `Number(votingSessionId)`, the conversion of the form input before the lookup, is not modelled. The not-found message uses the raw input, as the source does.
- The commented-out block at pages/index.tsx:403-770 is dead code and is not modelled. Class names and styling are not modelled either.
- `Text.ToLower`: `toLowerCase` and `toUpperCase` are modelled on ASCII letters only. Unicode case mappings of other characters, including those that change a string's length, are not captured.
- The candidate image and the other markup-only cells are carried as plain strings.
