/**
 * The command-line orchestration: the pull commands that refresh the data
 * directory, the rule that decides whether to pull, and the migration and
 * removal of one user. A fatal error ends the command: here it is returned,
 * and nothing after it happens.
 */
module Utils {
  import opened Types
  import opened Calls
  import opened Pager
  import opened Cache
  import Members
  import Memberships
  import Teams
  import Repositories
  import Invitations
  import OutsideCollaborators

  /** pullUsers: the organization members, each replaced by its own details. */
  function PulledUsers(remote: Remote, cfg: Config, fuel: nat): (r: Result<seq<User>>)
    ensures var w := Walk(Members.MemberPages(remote, cfg), Keep, CheckThenAppend, fuel);
      r.Ok? ==> (w.err.None? && |r.value| == |w.items| &&
                 forall i :: 0 <= i < |w.items| ==> Members.UserDetails(remote, w.items[i]) == Ok(r.value[i]))
  {
    var w := Walk(Members.MemberPages(remote, cfg), Keep, CheckThenAppend, fuel);
    if w.err.Some? then Err(w.err.value)
    else
      var p := FanOut(w.items, Members.DetailsOf(remote));
      if p.err.Some? then Err(p.err.value) else Ok(p.done)
  }

  /** pullUsers: users.json is rewritten only after every member's details arrived. */
  method PullUsers(dir: DataDir, remote: Remote, cfg: Config, fuel: nat) returns (err: Option<Error>)
    modifies dir
    ensures var r := PulledUsers(remote, cfg, fuel);
      if r.Ok? then err.None? && dir.Contents() == old(dir.Contents()).(users := Some(r.value))
      else err == Some(r.error) && dir.Contents() == old(dir.Contents())
  {
    var us, lerr := Members.AllMembers(remote, cfg, fuel);
    if lerr.Some? {
      return lerr;
    }
    var detailed, derr := RunFanOut(us, Members.DetailsOf(remote));
    if derr.Some? {
      return derr;
    }
    dir.SaveMemberList(detailed);
    err := None;
  }

  /** pullMembership: the memberships of the users of users.json. */
  function PulledMemberships(remote: Remote, users: Option<seq<User>>): (r: Result<seq<Membership>>)
    ensures users.None? ==> r == Err(NotFound(UsersFile))
    ensures r.Ok? ==> (users.Some? && |r.value| == |users.value| &&
                       forall i :: 0 <= i < |r.value| ==> Memberships.UserMembership(remote, users.value[i]) == Ok(r.value[i]))
  {
    match users
    case None => Err(NotFound(UsersFile))
    case Some(us) =>
      var p := FanOut(us, Memberships.MembershipOf(remote));
      if p.err.Some? then Err(p.err.value) else Ok(p.done)
  }

  /** pullMembership: memberships.json is rewritten only when every lookup succeeded. */
  method PullMembership(dir: DataDir, remote: Remote) returns (err: Option<Error>)
    modifies dir
    ensures var r := PulledMemberships(remote, old(dir.users));
      if r.Ok? then err.None? && dir.Contents() == old(dir.Contents()).(memberships := Some(r.value))
      else err == Some(r.error) && dir.Contents() == old(dir.Contents())
  {
    var ms, merr := Memberships.GetAllMembership(remote, dir.users);
    if merr.Some? {
      return merr;
    }
    dir.SaveMembership(ms);
    err := None;
  }

  /** The repositories of a team, and its members before resolution. */
  function TeamRepoWalk(remote: Remote, t: Team, fuel: nat): Walked<Repository> {
    Walk(Repositories.RepoPages(remote, Repositories.TeamReposURL(t)), Keep, AppendThenCheck, fuel)
  }

  function TeamMemberWalk(remote: Remote, t: Team, fuel: nat): Walked<User> {
    Walk(Teams.TeamMemberPages(remote, t), Keep, CheckThenAppend, fuel)
  }

  /**
   * One team of pullTeams: its details, then its repositories, then its
   * members resolved against users.json; the first failure is the result.
   */
  function TeamStep(remote: Remote, users: Option<seq<User>>, fuel: nat, t: Team): (r: Result<Team>)
    ensures Teams.TeamDetails(remote, t).Err? ==> r == Err(Teams.TeamDetails(remote, t).error)
    ensures r.Ok? ==>
      var d := Teams.TeamDetails(remote, t).value;
      var res := FanOut(TeamMemberWalk(remote, d, fuel).items, Teams.LocalDetails(users));
      TeamRepoWalk(remote, d, fuel).err.None? && TeamMemberWalk(remote, d, fuel).err.None? && res.err.None? &&
      r.value == d.(repositories := TeamRepoWalk(remote, d, fuel).items, members := res.done)
    ensures Teams.TeamDetails(remote, t).Ok? && TeamRepoWalk(remote, Teams.TeamDetails(remote, t).value, fuel).err.Some? ==>
      r == Err(TeamRepoWalk(remote, Teams.TeamDetails(remote, t).value, fuel).err.value)
    ensures Teams.TeamDetails(remote, t).Ok? ==>
      var d := Teams.TeamDetails(remote, t).value;
      TeamRepoWalk(remote, d, fuel).err.None? && TeamMemberWalk(remote, d, fuel).err.Some? ==>
        r == Err(TeamMemberWalk(remote, d, fuel).err.value)
    ensures Teams.TeamDetails(remote, t).Ok? ==>
      var d := Teams.TeamDetails(remote, t).value;
      var res := FanOut(TeamMemberWalk(remote, d, fuel).items, Teams.LocalDetails(users));
      TeamRepoWalk(remote, d, fuel).err.None? && TeamMemberWalk(remote, d, fuel).err.None? && res.err.Some? ==>
        r == Err(res.err.value)
    ensures Teams.TeamDetails(remote, t).Ok? ==>
      var d := Teams.TeamDetails(remote, t).value;
      TeamRepoWalk(remote, d, fuel).err.None? && TeamMemberWalk(remote, d, fuel).err.None? &&
      FanOut(TeamMemberWalk(remote, d, fuel).items, Teams.LocalDetails(users)).err.None? ==>
        r.Ok?
  {
    match Teams.TeamDetails(remote, t)
    case Err(e) => Err(e)
    case Ok(d) =>
      var rw := TeamRepoWalk(remote, d, fuel);
      var mw := TeamMemberWalk(remote, d, fuel);
      if rw.err.Some? then Err(rw.err.value)
      else if mw.err.Some? then Err(mw.err.value)
      else
        var res := FanOut(mw.items, Teams.LocalDetails(users));
        if res.err.Some? then Err(res.err.value)
        else Ok(d.(repositories := rw.items, members := res.done))
  }

  function TeamStepOf(remote: Remote, users: Option<seq<User>>, fuel: nat): Team -> Result<Team> {
    (t: Team) => TeamStep(remote, users, fuel, t)
  }

  /** pullTeams: every team of the organization, each refreshed by TeamStep. */
  function PulledTeams(remote: Remote, users: Option<seq<User>>, cfg: Config, fuel: nat): (r: Result<seq<Team>>)
    ensures var w := Walk(Teams.TeamPages(remote, cfg), Keep, CheckThenAppend, fuel);
      r.Ok? ==> (w.err.None? && |r.value| == |w.items| &&
                 forall i :: 0 <= i < |w.items| ==> TeamStep(remote, users, fuel, w.items[i]) == Ok(r.value[i]))
  {
    var w := Walk(Teams.TeamPages(remote, cfg), Keep, CheckThenAppend, fuel);
    if w.err.Some? then Err(w.err.value)
    else
      var p := FanOut(w.items, TeamStepOf(remote, users, fuel));
      if p.err.Some? then Err(p.err.value) else Ok(p.done)
  }

  /** The body of pullTeams' loop for one team: details, repositories, members, in that order. */
  method RefreshTeam(remote: Remote, users: Option<seq<User>>, t: Team, fuel: nat) returns (r: Result<Team>)
    ensures r == TeamStep(remote, users, fuel, t)
  {
    var details := Teams.TeamDetails(remote, t);
    if details.Err? {
      return Err(details.error);
    }
    var refreshed := details.value;
    var trs, rerr := Repositories.TeamRepositories(remote, refreshed, fuel);
    if rerr.Some? {
      return Err(rerr.value);
    }
    var withMembers, tms, merr := Teams.AllMembers(remote, users, refreshed, fuel);
    if merr.Some? {
      return Err(merr.value);
    }
    refreshed := withMembers;
    refreshed := refreshed.(repositories := trs);
    refreshed := refreshed.(members := tms);
    return Ok(refreshed);
  }

  /** The loop of pullTeams: each team refreshed in order, stopping at the first failure. */
  method RefreshTeams(remote: Remote, users: Option<seq<User>>, ts: seq<Team>, fuel: nat)
    returns (done: seq<Team>, err: Option<Error>)
    ensures Partial(done, err) == FanOut(ts, TeamStepOf(remote, users, fuel))
  {
    ghost var step := TeamStepOf(remote, users, fuel);
    done := [];
    for i := 0 to |ts|
      invariant Partial(done, None) == FanOut(ts[..i], step)
    {
      assert ts[..i + 1][..i] == ts[..i];
      var t := RefreshTeam(remote, users, ts[i], fuel);
      if t.Err? {
        FanOutAbortsAt(ts, step, i);
        return done, Some(t.error);
      }
      done := done + [t.value];
    }
    assert ts[..|ts|] == ts;
    err := None;
  }

  /**
   * pullTeams: the teams are processed one at a time, in order; teams.json
   * is rewritten only after the last team.
   */
  method PullTeams(dir: DataDir, remote: Remote, cfg: Config, fuel: nat) returns (err: Option<Error>)
    modifies dir
    ensures var r := PulledTeams(remote, old(dir.users), cfg, fuel);
      if r.Ok? then err.None? && dir.Contents() == old(dir.Contents()).(teams := Some(r.value))
      else err == Some(r.error) && dir.Contents() == old(dir.Contents())
  {
    var ts, lerr := Teams.AllTeams(remote, cfg, fuel);
    if lerr.Some? {
      return lerr;
    }
    var done, terr := RefreshTeams(remote, dir.users, ts, fuel);
    if terr.Some? {
      return terr;
    }
    dir.SaveTeamList(done);
    err := None;
  }

  /** pullRepositories: repositories.json is rewritten only when the whole listing succeeded. */
  method PullRepositories(dir: DataDir, remote: Remote, cfg: Config, fuel: nat) returns (err: Option<Error>)
    modifies dir
    ensures var w := Walk(Repositories.RepoPages(remote, Repositories.OrgReposURL(cfg)),
                          Repositories.ContributorsOf(remote, cfg, fuel), AppendThenCheck, fuel);
      err == w.err &&
      dir.Contents() == if w.err.None? then old(dir.Contents()).(repositories := Some(w.items)) else old(dir.Contents())
  {
    var rs, rerr := Repositories.OrgRepositories(remote, cfg, fuel);
    if rerr.Some? {
      return rerr;
    }
    dir.SaveRepositories(rs);
    err := None;
  }

  /** pullInvitations: invitations.json is rewritten only when the whole listing succeeded. */
  method PullInvitations(dir: DataDir, remote: Remote, cfg: Config, fuel: nat) returns (err: Option<Error>)
    modifies dir
    ensures var w := Walk(Invitations.InvitationPages(remote, cfg), Keep, AppendThenCheck, fuel);
      err == w.err &&
      dir.Contents() == if w.err.None? then old(dir.Contents()).(invitations := Some(w.items)) else old(dir.Contents())
  {
    var invs, ierr := Invitations.GetAllInvitations(remote, cfg, fuel);
    if ierr.Some? {
      return ierr;
    }
    dir.SaveInvitations(invs);
    err := None;
  }

  /** pullOutsideCollaborators: outside_collaborators.json is rewritten only when the whole listing succeeded. */
  method PullOutsideCollaborators(dir: DataDir, remote: Remote, cfg: Config, fuel: nat) returns (err: Option<Error>)
    modifies dir
    ensures var w := Walk(OutsideCollaborators.CollaboratorPages(remote, cfg), Members.DetailsOf(remote), AppendThenCheck, fuel);
      err == w.err &&
      dir.Contents() == if w.err.None? then old(dir.Contents()).(outsideCollaborators := Some(w.items)) else old(dir.Contents())
  {
    var cs, cerr := OutsideCollaborators.GetAllOutsideCollaborators(remote, cfg, fuel);
    if cerr.Some? {
      return cerr;
    }
    dir.SaveOutsideCollaborators(cs);
    err := None;
  }

  /** The data directory after a command, and the fatal error that ended it, if any. */
  datatype Pulled = Pulled(dir: Snapshot, err: Option<Error>)

  /** A snapshot the migration needs is missing. */
  predicate NeedsPull(s: Snapshot) {
    s.memberships.None? || s.teams.None? || s.users.None?
  }

  /**
   * pullAll: users, then memberships (read from the users.json just
   * written), then teams; a fatal error keeps what the earlier steps wrote.
   */
  function PullAllSpec(s: Snapshot, remote: Remote, cfg: Config, fuel: nat): (r: Pulled)
    ensures r.err.None? ==> !NeedsPull(r.dir)
    ensures r.dir.invitations == s.invitations && r.dir.outsideCollaborators == s.outsideCollaborators
    ensures r.dir.repositories == s.repositories && r.dir.teamRepos == s.teamRepos
    ensures PulledUsers(remote, cfg, fuel).Err? ==> r == Pulled(s, Some(PulledUsers(remote, cfg, fuel).error))
    ensures PulledUsers(remote, cfg, fuel).Ok? ==>
      var us := PulledUsers(remote, cfg, fuel).value;
      PulledMemberships(remote, Some(us)).Err? ==>
        r == Pulled(s.(users := Some(us)), Some(PulledMemberships(remote, Some(us)).error))
    ensures PulledUsers(remote, cfg, fuel).Ok? ==>
      var us := PulledUsers(remote, cfg, fuel).value;
      PulledMemberships(remote, Some(us)).Ok? && PulledTeams(remote, Some(us), cfg, fuel).Err? ==>
        r == Pulled(s.(users := Some(us), memberships := Some(PulledMemberships(remote, Some(us)).value)),
                    Some(PulledTeams(remote, Some(us), cfg, fuel).error))
    ensures r.err.None? ==>
      PulledUsers(remote, cfg, fuel).Ok? &&
      var us := PulledUsers(remote, cfg, fuel).value;
      PulledMemberships(remote, Some(us)).Ok? && PulledTeams(remote, Some(us), cfg, fuel).Ok? &&
      r.dir == s.(users := Some(us), memberships := Some(PulledMemberships(remote, Some(us)).value),
                  teams := Some(PulledTeams(remote, Some(us), cfg, fuel).value))
  {
    match PulledUsers(remote, cfg, fuel)
    case Err(e) => Pulled(s, Some(e))
    case Ok(us) =>
      var s1 := s.(users := Some(us));
      match PulledMemberships(remote, s1.users)
      case Err(e) => Pulled(s1, Some(e))
      case Ok(ms) =>
        var s2 := s1.(memberships := Some(ms));
        match PulledTeams(remote, s2.users, cfg, fuel)
        case Err(e) => Pulled(s2, Some(e))
        case Ok(ts) => Pulled(s2.(teams := Some(ts)), None)
  }

  /** pullAll: the three pulls in order, stopping at the first fatal error. */
  method PullAll(dir: DataDir, remote: Remote, cfg: Config, fuel: nat) returns (err: Option<Error>)
    modifies dir
    ensures Pulled(dir.Contents(), err) == PullAllSpec(old(dir.Contents()), remote, cfg, fuel)
  {
    err := PullUsers(dir, remote, cfg, fuel);
    if err.Some? {
      return;
    }
    err := PullMembership(dir, remote);
    if err.Some? {
      return;
    }
    err := PullTeams(dir, remote, cfg, fuel);
  }

  /**
   * checkAndPull: everything is pulled exactly when memberships.json,
   * teams.json or users.json is missing; otherwise nothing changes.
   */
  method CheckAndPull(dir: DataDir, remote: Remote, cfg: Config, fuel: nat) returns (pulled: bool, err: Option<Error>)
    modifies dir
    ensures pulled <==> NeedsPull(old(dir.Contents()))
    ensures pulled ==> Pulled(dir.Contents(), err) == PullAllSpec(old(dir.Contents()), remote, cfg, fuel)
    ensures !pulled ==> dir.Contents() == old(dir.Contents()) && err.None?
    ensures err.None? ==> !NeedsPull(dir.Contents())
  {
    pulled := false;
    if dir.memberships.None? {
      pulled := true;
    }
    if dir.teams.None? {
      pulled := true;
    }
    if dir.users.None? {
      pulled := true;
    }
    err := None;
    if pulled {
      err := PullAll(dir, remote, cfg, fuel);
    }
  }

  /**
   * migrateUser: look the user's membership up in memberships.json; a
   * membership with a URL is removed from the organization, one without is
   * given the user's current details; then it is invited again. A lookup
   * that finds nothing is dereferenced by the source (a nil pointer): here
   * it is the error NilMembership.
   */
  function MigrateSpec(remote: Remote, memberships: Option<seq<Membership>>, teams: Option<seq<Team>>, u: User): (sent: Sent)
    ensures LocalMembership(memberships, u.login).Err? ==> sent == Sent([], Some(LocalMembership(memberships, u.login).error))
    ensures LocalMembership(memberships, u.login) == Ok(None) ==> sent == Sent([], Some(NilMembership(u.login)))
    ensures sent.err.None? ==> |sent.requests| == 2 && sent.requests[1].PostInvitation?
  {
    match LocalMembership(memberships, u.login)
    case Err(e) => Sent([], Some(e))
    case Ok(None) => Sent([], Some(NilMembership(u.login)))
    case Ok(Some(m)) =>
      if m.url != "" then
        var removed := Members.Remove(remote, m);
        if removed.err.Some? then removed
        else
          var invited := Members.InviteSpec(remote, teams, m);
          Sent(removed.requests + invited.requests, invited.err)
      else
        match Members.UserDetails(remote, u)
        case Err(e) => Sent([GetUser(u.login)], Some(e))
        case Ok(d) =>
          var invited := Members.InviteSpec(remote, teams, m.(user := d));
          Sent([GetUser(u.login)] + invited.requests, invited.err)
  }

  /** migrateUser as the source writes it: the membership's user is replaced in place before the invite. */
  method MigrateUser(remote: Remote, memberships: Option<seq<Membership>>, teams: Option<seq<Team>>, u: User)
    returns (sent: Sent)
    ensures sent == MigrateSpec(remote, memberships, teams, u)
  {
    var found := LocalMembership(memberships, u.login);
    if found.Err? {
      return Sent([], Some(found.error));
    }
    if found.value.None? {
      return Sent([], Some(NilMembership(u.login)));
    }
    var m := found.value.value;
    var requests: seq<Request>;
    if m.url != "" {
      var removed := Members.Remove(remote, m);
      if removed.err.Some? {
        return removed;
      }
      requests := removed.requests;
    } else {
      var details := Members.UserDetails(remote, u);
      requests := [GetUser(u.login)];
      if details.Err? {
        return Sent(requests, Some(details.error));
      }
      m := m.(user := details.value);
    }
    var invitedAs, invited := Members.Invite(remote, teams, m);
    sent := Sent(requests + invited.requests, invited.err);
  }

  /**
   * With a membership URL, the member is deleted first; a failed delete
   * ends the migration, otherwise the invitation follows.
   */
  lemma MigrateRemovesFirst(remote: Remote, memberships: Option<seq<Membership>>, teams: Option<seq<Team>>, u: User, m: Membership)
    requires LocalMembership(memberships, u.login) == Ok(Some(m)) && m.url != ""
    ensures var sent := MigrateSpec(remote, memberships, teams, u);
      sent.requests != [] && sent.requests[0] == DeleteMember(m.user.login) &&
      (Members.Remove(remote, m).err.Some? ==> sent == Members.Remove(remote, m)) &&
      (Members.Remove(remote, m).err.None? && teams.Some? ==>
         |sent.requests| == 2 && sent.requests[1] == Members.InviteSpec(remote, teams, m).requests[0])
  {
  }

  /**
   * Without a membership URL nothing is deleted: the user's details are
   * fetched and the invitation is made for the refreshed user, with the
   * teams that user's id belongs to.
   */
  lemma MigrateFetchesFirst(remote: Remote, memberships: Option<seq<Membership>>, ts: seq<Team>, u: User, m: Membership)
    requires LocalMembership(memberships, u.login) == Ok(Some(m)) && m.url == ""
    ensures var sent := MigrateSpec(remote, memberships, Some(ts), u);
      sent.requests != [] && sent.requests[0] == GetUser(u.login) &&
      (forall i :: 0 <= i < |sent.requests| ==> !sent.requests[i].DeleteMember?) &&
      (Members.UserDetails(remote, u).Ok? ==>
         var d := Members.UserDetails(remote, u).value;
         |sent.requests| == 2 &&
         sent.requests[1] == PostInvitation(Members.InvitePayload(m.(user := d), Cache.TeamIDsOf(ts, d.id))))
  {
    if Members.UserDetails(remote, u).Ok? {
      var d := Members.UserDetails(remote, u).value;
      Members.InviteRoleIdempotent(m.role);
      assert Members.InvitePayload(m.(user := d).(role := Members.InviteRole(m.role)), Cache.TeamIDsOf(ts, d.id))
          == Members.InvitePayload(m.(user := d), Cache.TeamIDsOf(ts, d.id));
    }
  }

  /** removeUser: migrateUser without the invitation. */
  function RemoveSpec(remote: Remote, memberships: Option<seq<Membership>>, u: User): (sent: Sent)
    ensures forall i :: 0 <= i < |sent.requests| ==> !sent.requests[i].PostInvitation?
    ensures LocalMembership(memberships, u.login).Err? ==> sent == Sent([], Some(LocalMembership(memberships, u.login).error))
    ensures LocalMembership(memberships, u.login) == Ok(None) ==> sent == Sent([], Some(NilMembership(u.login)))
  {
    match LocalMembership(memberships, u.login)
    case Err(e) => Sent([], Some(e))
    case Ok(None) => Sent([], Some(NilMembership(u.login)))
    case Ok(Some(m)) =>
      if m.url != "" then Members.Remove(remote, m)
      else
        match Members.UserDetails(remote, u)
        case Err(e) => Sent([GetUser(u.login)], Some(e))
        case Ok(d) => Sent([GetUser(u.login)], None)
  }

  /** removeUser as the source writes it. */
  method RemoveUser(remote: Remote, memberships: Option<seq<Membership>>, u: User) returns (sent: Sent)
    ensures sent == RemoveSpec(remote, memberships, u)
  {
    var found := LocalMembership(memberships, u.login);
    if found.Err? {
      return Sent([], Some(found.error));
    }
    if found.value.None? {
      return Sent([], Some(NilMembership(u.login)));
    }
    var m := found.value.value;
    if m.url != "" {
      sent := Members.Remove(remote, m);
      return;
    }
    var details := Members.UserDetails(remote, u);
    if details.Err? {
      return Sent([GetUser(u.login)], Some(details.error));
    }
    m := m.(user := details.value);
    sent := Sent([GetUser(u.login)], None);
  }

  /** removeUser deletes exactly when the cached membership has a URL. */
  lemma RemoveDeletesIffURL(remote: Remote, memberships: Option<seq<Membership>>, u: User, m: Membership)
    requires LocalMembership(memberships, u.login) == Ok(Some(m))
    ensures (exists i :: 0 <= i < |RemoveSpec(remote, memberships, u).requests| &&
                         RemoveSpec(remote, memberships, u).requests[i] == DeleteMember(m.user.login)) <==> m.url != ""
  {
    var sent := RemoveSpec(remote, memberships, u);
    if m.url != "" {
      assert sent.requests[0] == DeleteMember(m.user.login);
    }
  }

  /** removeUser is migrateUser stopped before the invitation. */
  lemma RemoveIsMigratePrefix(remote: Remote, memberships: Option<seq<Membership>>, teams: Option<seq<Team>>, u: User)
    ensures var r := RemoveSpec(remote, memberships, u).requests;
      r <= MigrateSpec(remote, memberships, teams, u).requests
  {
  }
}
