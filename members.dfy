/**
 * Organization members: the member listing, a user's details, and the two
 * writes the migration issues for a membership, removal and invitation.
 */
module Members {
  import opened Types
  import opened GhApi
  import opened Calls
  import opened Pager
  import opened Cache

  function OrgMembersURL(cfg: Config): string { Api + "orgs/" + cfg.org + "/members" }

  /** ListMembers: one page of members; a status other than 200 is an error carrying the body. */
  function MemberPages(remote: Remote, cfg: Config): (f: int -> Page<User>)
    ensures forall p :: HeadersParse(remote.userPages(PagedURL(OrgMembersURL(cfg), p))) &&
                        remote.userPages(PagedURL(OrgMembersURL(cfg), p)).status != 200 ==>
      f(p) == Page([], LinksOf(remote.userPages(PagedURL(OrgMembersURL(cfg), p)).link).pages,
                   Some(RemoteError(remote.userPages(PagedURL(OrgMembersURL(cfg), p)).body.text)))
  {
    (p: int) => ListPage(remote.userPages(PagedURL(OrgMembersURL(cfg), p)), ErrorUnlessOK)
  }

  /** AllMembers: a page is appended only after its error check. */
  method AllMembers(remote: Remote, cfg: Config, fuel: nat) returns (us: seq<User>, err: Option<Error>)
    ensures var w := Walk(MemberPages(remote, cfg), Keep, CheckThenAppend, fuel);
      us == w.items && err == w.err
  {
    var requested;
    us, err, requested := WalkPages(MemberPages(remote, cfg), Keep, CheckThenAppend, fuel);
  }

  /** User.GetDetails: the user as the detail GET decodes it; the status is not checked. */
  function UserDetails(remote: Remote, u: User): (r: Result<User>)
    ensures r.Ok? <==> remote.user(u).Http? && ParseRateLimit(remote.user(u).headers).Ok? && remote.user(u).body.decoded
    ensures r.Ok? ==> r.value == remote.user(u).body.value
  {
    Fetch(remote.user(u))
  }

  /** User.GetDetails as a step over a list of users. */
  function DetailsOf(remote: Remote): User -> Result<User> {
    (u: User) => UserDetails(remote, u)
  }

  /** The role an invitation carries: "member" becomes "direct_member", any other role is kept. */
  function InviteRole(role: string): (r: string)
    ensures r != "member"
    ensures role != "member" ==> r == role
  {
    if role == "member" then "direct_member" else role
  }

  /** Rewriting the role twice is rewriting it once. */
  lemma InviteRoleIdempotent(role: string)
    ensures InviteRole(InviteRole(role)) == InviteRole(role)
  {
  }

  /** A user is invited by email exactly when it has no id and has an email. */
  predicate ByEmail(u: User) { u.id == 0 && u.email != "" }

  /**
   * The invitation body: the rewritten role, the team ids, and either the
   * email or the invitee id, never both.
   */
  function InvitePayload(m: Membership, teamIds: seq<int>): (p: InviteParams)
    ensures p.role == InviteRole(m.role) && p.teamIds == teamIds
    ensures p.email != "" <==> ByEmail(m.user)
    ensures p.email != "" ==> p.email == m.user.email && p.inviteeId == 0
    ensures p.email == "" ==> p.inviteeId == m.user.id
  {
    if ByEmail(m.user) then InviteParams(0, m.user.email, teamIds, InviteRole(m.role))
    else InviteParams(m.user.id, "", teamIds, InviteRole(m.role))
  }

  /** How Invite reads its response: a status above 202 is an error carrying the body. */
  function InviteOutcome(res: Response<()>): (err: Option<Error>)
    ensures err.None? <==> res.Http? && ParseRateLimit(res.headers).Ok? && res.status <= 202
    ensures res.Http? && ParseRateLimit(res.headers).Ok? && res.status > 202 ==> err == Some(RemoteError(res.body.text))
  {
    match res
    case Unreachable(reason) => Some(Transport(reason))
    case Http(_, headers, status, body) =>
      match ParseRateLimit(headers)
      case Err(e) => Some(e)
      case Ok(_) => if status > 202 then Some(RemoteError(body.text)) else None
  }

  /**
   * Membership.Invite: rewrite the role, resolve the team ids from
   * teams.json (a failure aborts before any request), post the invitation.
   */
  function InviteSpec(remote: Remote, teams: Option<seq<Team>>, m: Membership): (sent: Sent)
    ensures teams.None? <==> sent == Sent([], Some(NotFound(TeamsFile)))
    ensures teams.Some? ==> |sent.requests| == 1 && sent.requests[0].PostInvitation?
    ensures teams.Some? ==> sent.err == InviteOutcome(remote.write(sent.requests[0]))
  {
    match teams
    case None => Sent([], Some(NotFound(TeamsFile)))
    case Some(ts) =>
      var m' := m.(role := InviteRole(m.role));
      var req := PostInvitation(InvitePayload(m', TeamIDsOf(ts, m.user.id)));
      Sent([req], InviteOutcome(remote.write(req)))
  }

  /** Membership.Invite as the source writes it; the membership's role is rewritten in place. */
  method Invite(remote: Remote, teams: Option<seq<Team>>, m: Membership) returns (updated: Membership, sent: Sent)
    ensures updated == m.(role := InviteRole(m.role))
    ensures sent == InviteSpec(remote, teams, m)
  {
    updated := m;
    if updated.role == "member" {
      updated := updated.(role := "direct_member");
    }
    var ids, terr := TeamIDs(teams, updated);
    if terr.Some? {
      return updated, Sent([], terr);
    }
    var req := PostInvitation(InvitePayload(updated, ids));
    sent := Sent([req], InviteOutcome(remote.write(req)));
  }

  /** The invitation names the teams whose member records carry the user's id, in teams-file order. */
  lemma InviteNamesTeams(remote: Remote, ts: seq<Team>, m: Membership)
    ensures var p := InviteSpec(remote, Some(ts), m).requests[0].params;
      p.teamIds == TeamIDsOf(ts, m.user.id) && p.role == InviteRole(m.role) &&
      (p.email != "" <==> ByEmail(m.user))
  {
  }

  /** Membership.Remove: one DELETE; the status of the response is never inspected. */
  function Remove(remote: Remote, m: Membership): (sent: Sent)
    ensures sent.requests == [DeleteMember(m.user.login)]
    ensures sent.err.None? <==> remote.write(DeleteMember(m.user.login)).Http? &&
                                ParseRateLimit(remote.write(DeleteMember(m.user.login)).headers).Ok?
  {
    var req := DeleteMember(m.user.login);
    Sent([req], WriteOutcome(remote.write(req)))
  }

  /** Whatever status the DELETE answers with, Remove's outcome is the same. */
  lemma RemoveIgnoresStatus(remote: Remote, m: Membership, status: int)
    requires remote.write(DeleteMember(m.user.login)).Http?
    ensures var res := remote.write(DeleteMember(m.user.login));
      WriteOutcome(res.(status := status)) == Remove(remote, m).err
  {
  }
}
