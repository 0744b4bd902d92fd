# github-migrate, modelled in Dafny

github-migrate moves the members of a GitHub organization from plain
membership to invitations. The tool has three layers:

- **The `ghapi` client.** It lists the organization's members, teams, team
  members, repositories, contributors, pending invitations and outside
  collaborators. It follows the `Link` response header page by page. It
  reads the `X-RateLimit-*` headers of every response and pauses when few
  requests are left.
- **The data directory.** Each listing is saved as a JSON snapshot:
  `users.json`, `teams.json`, `memberships.json` and the other snapshot
  files.
- **The command layer (`cmd`).** It pulls the snapshots (`pullAll`,
  `checkAndPull`). For one user, `migrateUser` deletes the membership (or
  refreshes the user's details), then posts an invitation. The invitation
  names the teams whose cached member lists hold the user's id.
  `removeUser` does the same without the invitation.

The model treats the GitHub API as a `Remote` value:

- For each listing, it maps a request URL to the response that URL gets.
- For each single-entity GET, it holds that GET's response.
- For each write, it holds that write's response.

A response either is unreachable (a transport error) or carries a `Link`
header, the other headers, a status and a body. Writes are recorded as
`Request` values, in the order the source sends them, so contracts can say
which requests a command sends and in what order.

The modules follow the source files:

| module | file | what it holds |
|---|---|---|
| `Types` | | the records, errors, responses and the `Remote` |
| `Text` | | `strconv.Itoa`/`Atoi` over decimal strings, `strings.Split`/`Replace`, each with its round-trip |
| `GhApi` | ghapi/ghapi.go | rate-limit headers, the `page=` extraction, the `Link` header scan |
| `Calls` | | one request and response, for a listing, a detail GET and a write |
| `Pager` | | the shared `for lp.Next <= lp.Last` page walker; the per-item fan-out with early exit |
| `Cache` | | the data directory as a class with one field per snapshot file; the lookups in cached snapshots |
| `Members` | ghapi/members.go | |
| `Memberships` | ghapi/memberships.go | |
| `Teams` | ghapi/teams.go | |
| `Repositories` | ghapi/repositories.go | |
| `Invitations` | ghapi/invitations.go | |
| `OutsideCollaborators` | ghapi/outsidecollaborators.go | |
| `Utils` | cmd/utils.go, cmd/ghmigrate.go | pulls, `pullAll`, `checkAndPull`, `migrateUser`, `removeUser` |

Each imperative source function is a method. Its loop is proved against a
specification function, and the properties of the command are proved about
that function.

The page walker is the `for lp.Next <= lp.Last` loop found in every `All*`
function. It comes in two variants:

- `CheckThenAppend` (members, teams, team members): a page is added after
  its error check.
- `AppendThenCheck` (invitations, repositories, contributors, outside
  collaborators): a page is added before its error check.

## Model

| member | source | states |
|---|---|---|
| GhApi.ParseRateLimit | ghapi/ghapi.go:80-108 | The three headers are read as integers in the order Limit, Remaining, Reset; the first header that does not parse is the error. A pause is requested exactly when Remaining is at most 50, and it lasts Reset milliseconds. |
| GhApi.RateLimitRoundTrip | ghapi/ghapi.go:86-102 | Headers written from three in-range integers parse back to exactly those integers, with the pause decision taken from Remaining. |
| GhApi.MissingRateHeaderFails | ghapi/ghapi.go:86-89 | A response without `X-RateLimit-Limit` is a syntax error on the empty string. |
| GhApi.PageFromLink | ghapi/ghapi.go:110-120 | The number in the leftmost `/?page=.*>` match, after stripping; no match is a syntax error on the empty string with page 0; a success is a 64-bit value. |
| GhApi.PageFromLinkReadsNumber | ghapi/ghapi.go:110-120 | For a link part with a single `page=<n>>` after which no other `>` follows, the extracted page is n. |
| GhApi.NoPageKeyIsSyntaxError | ghapi/ghapi.go:110-120 | A link part without `page=` yields page 0 and a syntax error. |
| GhApi.EveryOccurrenceStripped | ghapi/ghapi.go:110-120 | For every run of `page=<digits>>` pieces on one line, the match is the whole run and every `page=` and `>` in it is removed, so the page read is the conversion of all the digits concatenated. |
| GhApi.StripRun | ghapi/ghapi.go:113-114 | Removing every `page=` and then every `>` from a run of `page=<digits>>` pieces leaves exactly the digits, concatenated. |
| GhApi.TwoLinksReadAsTwelve | ghapi/ghapi.go:110-120 | Two links on one line, to pages 1 and 2, read as page 12. |
| GhApi.RelOf | ghapi/ghapi.go:127-139 | A part is classified by the first of next, prev, last it mentions; it is Other exactly when it mentions none. |
| GhApi.LinksOf | ghapi/ghapi.go:122-142 | The header split on commas: each of Prev, Next and Last is the page of the last part of that relation (0 if none), and the error is that of the last recognised part. |
| GhApi.ParseLinks | ghapi/ghapi.go:122-142 | The loop over the comma-separated parts computes the scan of the whole header. |
| GhApi.ScanIsLast | ghapi/ghapi.go:122-142 | Each of Prev, Next and Last is the page of the last part classified that way (0 if none), and the error is the one from the last classified part. |
| GhApi.EmptyLinkHeader | ghapi/ghapi.go:122-142 | An absent Link header gives all-zero pages and no error. |
| Text.AtoiItoa | ghapi/members.go:68-70 | A page number written into a URL reads back as the same number. |
| Text.Atoi | ghapi/ghapi.go:115 | An optional sign and at least one digit; anything else is a syntax error with value 0; a success lies in the 64-bit range. |
| Text.JoinSplit | ghapi/ghapi.go:125 | Splitting the Link header on commas loses nothing: joining the parts gives the header back. |
| Text.SplitJoin | ghapi/ghapi.go:125 | Parts without a comma, joined and split again, are the same parts. |
| Calls.ListPage | ghapi/members.go:64-103 | One page of a listing, checked in the source's order. An unreachable host is a transport error with no items. Otherwise the cursor always comes from the Link header. A Link error comes first, then a rate-limit error, each with no items. Items appear only when both headers parse and the status is accepted. A body that does not decode still yields its partial value, together with a decode error. |
| Calls.ErrorUnlessOKNon200 | ghapi/members.go:95-97 | In the member listing, a status other than 200 is an error carrying the body text, with no items. |
| Calls.EmptyUnlessOKNon200 | ghapi/repositories.go:152-154 | In the contributor listing, a status other than 200 is an empty page with no error. |
| Calls.ListPageOK | ghapi/members.go:95-102 | With status 200 every status rule reads the page alike: the decoded body and the Link cursor. |
| Calls.PagedURL | ghapi/members.go:68-70 | Page 0 (or less) is the bare URL; a positive page extends it. |
| Calls.PagedURLInjective | ghapi/members.go:68-70 | Different positive pages are requested at different URLs. |
| Calls.Fetch | ghapi/members.go:119-147 | A detail GET succeeds exactly when the host answered, the rate headers parse and the body decodes; the result is the decoded body. |
| Calls.FetchIgnoresStatus | ghapi/members.go:119-147 | The status of a detail GET never changes its result. |
| Calls.WriteOutcome | ghapi/members.go:205-224 | A write succeeds exactly when the host answered and the rate headers parse, whatever the status. |
| Pager.FanOut | ghapi/memberships.go:73-100 | Per-item calls in order, stopping at the first failure: the results of a prefix, complete exactly when there is no error, and otherwise the next item's error. |
| Pager.RunFanOut | ghapi/memberships.go:73-100 | The loop returns exactly FanOut's prefix and error. |
| Pager.FanOutTotal | ghapi/memberships.go:73-100 | When every call succeeds, every item has its result and there is no error. |
| Pager.FanOutStopsAt | ghapi/memberships.go:73-100 | A failing item ends the fan-out at or before it. |
| Pager.FanOutAbortsAt | ghapi/memberships.go:73-100 | The first failing item ends the fan-out with the earlier results and its own error. |
| Pager.WalkFrom | ghapi/members.go:39-59 | The walker requests one page per iteration, so at most one per unit of budget, and it always requests a page while `Next <= Last`. |
| Pager.WalkPages | ghapi/members.go:36-61 | The loop computes the walk: items, error and the pages requested. |
| Pager.WalkReaches | ghapi/members.go:36-61 | Over a chain of pages whose cursors point each to the next, the walk requests 1..k in order and gathers their items in order. |
| Pager.WalkAllPages | ghapi/members.go:36-61 | When pages 1..n chain, page n is the last, and nothing fails, the walk returns the items of all n pages in order, no error, and has requested exactly 1..n. |
| Pager.WalkFailsAt | ghapi/invitations.go:25-48 | A listing error on page k ends the walk with that error; the page's own items are kept only when pages are appended before the check. |
| Pager.WalkEnrichFailsAt | ghapi/outsidecollaborators.go:14-43 | A per-item failure on page k ends the walk with that error and without page k. |
| Pager.WalkExtends | ghapi/members.go:36-61 | The walk only appends: earlier items and requests are a prefix of the result. |
| Pager.WalkStartsAtPageOne | ghapi/members.go:39-45 | A zero cursor is read as page 1, so the first request is always page 1. |
| Pager.WalkRestarts | ghapi/members.go:39-45 | If page 1 reports no next page but a last page above 1, the walk keeps asking for page 1 until the page budget runs out. |
| Pager.WalkItemsEnriched | ghapi/outsidecollaborators.go:14-43 | Every item a walk adds is the successful per-item result for some listed item. |
| Cache.DataDir.SaveMemberList | ghapi/members.go:106-116 | users.json becomes the list; every other snapshot is unchanged. |
| Cache.DataDir.SaveTeamList | ghapi/teams.go:223-233 | teams.json becomes the list; every other snapshot is unchanged. |
| Cache.DataDir.SaveMembership | ghapi/memberships.go:103-113 | memberships.json becomes the list; every other snapshot is unchanged. |
| Cache.DataDir.SaveInvitations | ghapi/invitations.go:91-101 | invitations.json becomes the list; every other snapshot is unchanged. |
| Cache.DataDir.SaveOutsideCollaborators | ghapi/outsidecollaborators.go:85-95 | The outside-collaborator snapshot becomes the list; every other snapshot is unchanged. |
| Cache.DataDir.SaveRepositories | ghapi/repositories.go:303-313 | repositories.json becomes the list; every other snapshot is unchanged. |
| Cache.DataDir.SaveTeamRepoList | ghapi/repositories.go:275-285 | The team-repository snapshot becomes the list; every other snapshot is unchanged. |
| Cache.Load | ghapi/repositories.go:287-300 | Reading a snapshot fails with not-found exactly when the file is missing, and otherwise gives its contents. |
| Cache.DetailsLocal | ghapi/members.go:150-174 | The cached user with the same id, or the user unchanged when none matches; a missing users.json is an error. |
| Cache.DetailsLocalFirst | ghapi/members.go:150-174 | The first cached user with a matching id is the one returned. |
| Cache.DetailsLocalFallback | ghapi/members.go:150-174 | With no cached user of that id, the user is returned unchanged. |
| Cache.LocalMembership | ghapi/members.go:177-202 | A found membership is a cached one for that login; nothing found means no cached membership has that login; a missing file is an error. |
| Cache.LocalMembershipFirst | ghapi/members.go:177-202 | The first cached membership with the login is the one found. |
| Cache.TeamIDs | ghapi/teams.go:268-292 | A missing teams.json is an error with no ids; otherwise the ids of the teams listing the user, in file order, a team repeated once per matching member record. |
| Cache.TeamIDsOfAppend | ghapi/teams.go:268-292 | The ids of two runs of teams are the ids of each, concatenated. |
| Cache.MatchCountPositive | ghapi/teams.go:284-290 | A team contributes its id exactly when one of its members carries the user's id. |
| Cache.TeamIDsOfMember | ghapi/teams.go:268-292 | An id is listed exactly when it is the id of a team that has the user among its members. |
| Members.MemberPages | ghapi/members.go:64-103 | A member page whose headers parse but whose status is not 200 is an error carrying the body text, with no items. |
| Members.AllMembers | ghapi/members.go:36-61 | The member listing is the walk over the member pages, each page added after its error check. |
| Members.UserDetails | ghapi/members.go:119-147 | The user's details are the decoded detail response, whatever its status. |
| Members.InviteRole | ghapi/members.go:235-237 | The role "member" is sent as "direct_member"; any other role is kept; "member" is never sent. |
| Members.InviteRoleIdempotent | ghapi/members.go:235-237 | Rewriting an already rewritten role changes nothing. |
| Members.InvitePayload | ghapi/members.go:235-247 | The invitation carries the rewritten role and the team ids. It carries the email exactly when the user has no id and has an email; otherwise it carries the id. Never both. |
| Members.InviteOutcome | ghapi/members.go:265-281 | An invitation succeeds exactly when the host answered, the rate headers parse and the status is at most 202; above 202 the body text is the error. |
| Members.InviteSpec | ghapi/members.go:227-282 | A missing teams.json aborts before any request; otherwise exactly one invitation is posted, and its outcome is the result. |
| Members.Invite | ghapi/members.go:227-282 | The method rewrites the membership's role in place and sends what InviteSpec says. |
| Members.InviteNamesTeams | ghapi/members.go:235-250 | The posted invitation names the teams of the user's id, in teams.json order, with the rewritten role. |
| Members.Remove | ghapi/members.go:205-224 | Removal is one DELETE for the member's login; its outcome never depends on the status. |
| Members.RemoveIgnoresStatus | ghapi/members.go:205-224 | Any status of the DELETE gives the same result. |
| Memberships.UserMembership | ghapi/memberships.go:43-70 | A user's membership is the decoded answer for its login, when the host answered and the rate headers parse. |
| Memberships.GetAllMembership | ghapi/memberships.go:73-100 | A missing users.json is an error with no memberships; otherwise the memberships of the users in order, up to the first failure. |
| Memberships.AllMembershipsFetched | ghapi/memberships.go:73-100 | Every returned membership is the decoded answer for the user at its position; the list is complete exactly when there is no error, and the next user's lookup is the one that failed. |
| Invitations.GetAllInvitations | ghapi/invitations.go:25-48 | The invitation listing is the walk over the invitation pages, each page added before its error check. |
| Invitations.InvitationsUnreachable | ghapi/invitations.go:25-48 | When page 1 gets no response, only page 1 is requested and the result is no invitations and the transport error. |
| OutsideCollaborators.GetAllOutsideCollaborators | ghapi/outsidecollaborators.go:14-43 | The collaborator listing is the walk over their pages, each collaborator replaced by its details before the page is added. |
| OutsideCollaborators.CollaboratorsAreDetailed | ghapi/outsidecollaborators.go:24-29 | Every collaborator returned is a user as its own detail GET decoded it. |
| Repositories.WithContributors | ghapi/repositories.go:94-118 | A repository's contributors are replaced by its contributor walk exactly when that walk succeeds. |
| Repositories.TeamRepositories | ghapi/repositories.go:68-91 | A team's repositories are the walk over its repository pages, each page added before its error check. |
| Repositories.ContributorPages | ghapi/repositories.go:121-160 | A contributor page whose headers parse but whose status is not 200 is an empty page with no error. |
| Repositories.GetContributors | ghapi/repositories.go:94-118 | The contributors gathered are the walk's items. The repository is updated only when the walk succeeds, and is otherwise unchanged. |
| Repositories.OrgRepositories | ghapi/repositories.go:163-192 | The organization's repositories are the walk over their pages, each repository given its contributors before the page is added. |
| Repositories.OrgRepositoriesHaveContributors | ghapi/repositories.go:163-192 | Every repository returned carries the contributors of its own successful contributor walk. |
| Teams.TeamPages | ghapi/teams.go:77-114 | The status of a team page is not checked: a page whose headers parse and whose body decodes gives the decoded teams and its cursor, with no error. |
| Teams.AllTeams | ghapi/teams.go:51-74 | The team listing is the walk over the team pages, each page added after its error check. |
| Teams.TeamDetails | ghapi/teams.go:117-145 | A team's details are the decoded detail response, whatever its status. |
| Teams.AllMembers | ghapi/teams.go:148-181 | A team's members are the walk over its member pages; when that succeeds, each member is resolved against users.json. |
| Teams.ResolvedMembers | ghapi/teams.go:148-181 | Resolution keeps the number, the order and the ids of the members; each is either as listed or a cached user. |
| Teams.ResolutionFailure | ghapi/teams.go:148-181 | Resolution fails exactly when there is a member to resolve and users.json is missing. |
| Teams.InviteMemberToTeam | ghapi/teams.go:236-265 | One PUT of the member's login and role to the team; it succeeds exactly when the host answered and the rate headers parse. |
| Teams.InviteStep | ghapi/teams.go:295-323 | At most one request per (team, member). A step succeeds only for a member whose membership is cached. |
| Teams.InviteSteps | ghapi/teams.go:295-323 | The pairs are processed in order, stopping at the first error, with at most one request per pair. |
| Teams.InvitePair | ghapi/teams.go:311-319 | The loop body for one pair sends what InviteStep says. |
| Teams.InviteTeam | ghapi/teams.go:311-320 | The inner loop over one team's members sends the steps of that team's pairs. |
| Teams.InviteUsersToTeams | ghapi/teams.go:295-323 | The nested loops send exactly the steps over all (team, member) pairs: teams in file order, members in list order; a missing teams.json is an error with no request. |
| Teams.InviteStepsAppend | ghapi/teams.go:295-323 | Running two runs of pairs is running the first, then, if it did not fail, the second after it. |
| Teams.InviteStepsAbort | ghapi/teams.go:295-323 | Once a step fails, later pairs send nothing. |
| Teams.InviteStepsAbortPrefix | ghapi/teams.go:295-323 | A failure within a prefix of the pairs is the result of the whole run. |
| Teams.PairRequestSent | ghapi/teams.go:311-319 | A pair whose membership is cached and whose write succeeds sends exactly its PUT. |
| Teams.InviteStepsAllSent | ghapi/teams.go:295-323 | When every membership is cached and every write succeeds, one PUT is sent per pair, in pair order, with no error. |
| Teams.AllPairsAppend | ghapi/teams.go:295-323 | The pairs of two runs of teams are the pairs of each, concatenated. |
| Utils.PulledUsers | cmd/utils.go:47-59 | On success, users.json holds every listed member, each replaced by its own details, in listing order. |
| Utils.PullUsers | cmd/utils.go:47-59 | users.json is rewritten only when the listing and every detail GET succeeded; otherwise the directory is unchanged. |
| Utils.PulledMemberships | cmd/utils.go:23-29 | A missing users.json is an error. On success, there is one membership per cached user, each that user's lookup. |
| Utils.PullMembership | cmd/utils.go:23-29 | memberships.json is rewritten only when every lookup succeeded; otherwise the directory is unchanged. |
| Utils.TeamStep | cmd/utils.go:61-83 | One team is refreshed in order: its details, its repositories, its members, each resolved against users.json. Each failure, in that order, is the result. When all succeed the result is Ok, and the team carries all three. |
| Utils.PulledTeams | cmd/utils.go:61-83 | On success, teams.json holds every listed team, each refreshed by TeamStep, in listing order. |
| Utils.RefreshTeam | cmd/utils.go:67-80 | The loop body for one team computes TeamStep. |
| Utils.RefreshTeams | cmd/utils.go:66-81 | The loop over the teams stops at the first failure, returning the teams refreshed before it. |
| Utils.PullTeams | cmd/utils.go:61-83 | teams.json is rewritten only when every team was refreshed; otherwise the directory is unchanged. |
| Utils.PullRepositories | cmd/utils.go:15-21 | repositories.json is rewritten only when the whole listing succeeded; otherwise the directory is unchanged. |
| Utils.PullInvitations | cmd/utils.go:31-37 | invitations.json is rewritten only when the whole listing succeeded; otherwise the directory is unchanged. |
| Utils.PullOutsideCollaborators | cmd/utils.go:39-45 | The outside-collaborator snapshot is rewritten only when the whole listing succeeded; otherwise the directory is unchanged. |
| Utils.PullAllSpec | cmd/ghmigrate.go:63-67 | Users, then memberships (from the users just pulled), then teams. A failure keeps what the earlier steps wrote and returns its error. On success, the three snapshots hold exactly the pulled lists. The other snapshots are never touched. |
| Utils.PullAll | cmd/ghmigrate.go:63-67 | The three pulls leave the directory and error PullAllSpec describes. |
| Utils.CheckAndPull | cmd/utils.go:210-224 | It pulls exactly when memberships, teams or users is missing. If it does not pull, nothing changes. If it ends without error, all three are present. |
| Utils.MigrateSpec | cmd/utils.go:85-107 | A failed or empty membership lookup sends nothing. When no error occurs, exactly two requests are sent, the second being the invitation. |
| Utils.MigrateUser | cmd/utils.go:85-107 | migrateUser, with the membership's user replaced in place, sends what MigrateSpec says. |
| Utils.MigrateRemovesFirst | cmd/utils.go:90-105 | With a membership URL, the DELETE comes first. A failed DELETE ends the migration; otherwise the invitation follows. |
| Utils.MigrateFetchesFirst | cmd/utils.go:95-104 | Without a membership URL, nothing is deleted. The user's details are fetched, and the invitation is for the refreshed user and the teams of the refreshed id. |
| Utils.RemoveSpec | cmd/utils.go:109-127 | removeUser never posts an invitation. A failed or empty membership lookup sends nothing. |
| Utils.RemoveUser | cmd/utils.go:109-127 | removeUser sends what RemoveSpec says. |
| Utils.RemoveDeletesIffURL | cmd/utils.go:114-125 | removeUser sends a DELETE for the member exactly when the cached membership has a URL. |
| Utils.RemoveIsMigratePrefix | cmd/utils.go:85-127 | The requests of removeUser are a prefix of those of migrateUser for the same user. |

## Left out

- HTTP transport, the `Authorization` and `Accept` headers and request construction errors are not modelled. A response is either `Unreachable` or an `Http` value taken from the `Remote`.
- JSON encoding and decoding are modelled as the `decoded` flag and `value` of a response body. A body that does not decode is an error where the source checks `json.Unmarshal`'s result.
- Header names are looked up exactly as written. Go's canonicalisation of header keys is not modelled.
- GhApi.ParseRateLimit: the pause itself (`time.Sleep`) is not performed, because clocks are outside the model. Only the decision to pause and its length are stated. A negative Reset gives a negative pause here, while `time.Sleep` returns at once. A Reset large enough to overflow `time.Duration` when multiplied by a millisecond is not modelled.
- Text.Atoi: a string whose digits overflow before a later non-digit is a range error in Go (the scan stops at the overflow) but a syntax error here. The page numbers and rate headers the model proves things about are well-formed.
- Pager.WalkPages: the source loop has no bound, and some Link headers make it ask for the same page forever (Pager.WalkRestarts). The model bounds it with a page budget (`fuel`), and exhausting it is the error `PageBudgetExhausted`, which the source never returns.
- Saving a snapshot cannot fail in the model. Every save first deletes the file (`os.Remove`), then calls `json.Marshal` and `ioutil.WriteFile`. A failing marshal or write therefore leaves the snapshot deleted in the source; the model does not capture this. Corrupt snapshot files (a file that exists but does not decode) are not modelled either.
- Pointers are modelled as values. The source mutates shared `*User`, `*Team`, `*Membership` and `*Repository` records in place; the model returns the updated record, so aliasing between lists is not captured.
- `User.GetDetails` and `Team.GetDetails` unmarshal into the record they are called on. The model keys their responses by the record (`Remote.user`, `Remote.team`) and takes the decoded body as the new record, so fields the body leaves out are not kept from the old record.
- A membership lookup that finds nothing is dereferenced by `migrateUser`, `removeUser` and `InviteUsersToTeams` (a nil-pointer panic). Here it is the error `NilMembership(login)`.
- `log.Fatal` in the `cmd` layer is modelled as returning the error. Snapshots saved before it stay saved, and nothing after it runs.
- The detail GET that `migrateUser` and `removeUser` make for a user without a membership URL is recorded as the request `GetUser(login)`. It is a read, not a write.
- Logging (`log.Printf`), the `print*` functions and their table output are not modelled.
- ghapi/oauth.go (token exchange) is not part of this model.
- cmd/ghmigrate.go flag and environment parsing and the creation of the data directory are not modelled. `main` migrates the single user named by `-migrate`; that is `migrateUser`, which is modelled.
- Concurrency: the source is sequential, and so is the model.
