/**
 * Teams of the organization: the team listing, a team's members resolved
 * against the cached users, and re-adding cached team members to their teams.
 */
module Teams {
  import opened Types
  import opened Text
  import opened GhApi
  import opened Calls
  import opened Pager
  import opened Cache

  function OrgTeamsURL(cfg: Config): string { Api + "orgs/" + cfg.org + "/teams" }

  function TeamMembersURL(t: Team): string { Api + "teams/" + Itoa(t.id) + "/members" }

  /** ListTeams: one page of the organization's teams. */
  function TeamPages(remote: Remote, cfg: Config): (f: int -> Page<Team>)
    ensures forall p :: HeadersParse(remote.teamPages(PagedURL(OrgTeamsURL(cfg), p))) &&
                        remote.teamPages(PagedURL(OrgTeamsURL(cfg), p)).body.decoded ==>
      f(p) == Page(remote.teamPages(PagedURL(OrgTeamsURL(cfg), p)).body.value,
                   LinksOf(remote.teamPages(PagedURL(OrgTeamsURL(cfg), p)).link).pages, None)
  {
    (p: int) => ListPage(remote.teamPages(PagedURL(OrgTeamsURL(cfg), p)), IgnoreStatus)
  }

  /** Team.ListMembers: one page of a team's members. */
  function TeamMemberPages(remote: Remote, t: Team): int -> Page<User> {
    (p: int) => ListPage(remote.userPages(PagedURL(TeamMembersURL(t), p)), IgnoreStatus)
  }

  /** AllTeams: a page is appended only after its error check, so a failing page is left out. */
  method AllTeams(remote: Remote, cfg: Config, fuel: nat) returns (ts: seq<Team>, err: Option<Error>)
    ensures var w := Walk(TeamPages(remote, cfg), Keep, CheckThenAppend, fuel);
      ts == w.items && err == w.err
  {
    var requested;
    ts, err, requested := WalkPages(TeamPages(remote, cfg), Keep, CheckThenAppend, fuel);
  }

  /** Team.GetDetails: the team as the detail GET decodes it; the status is not checked. */
  function TeamDetails(remote: Remote, t: Team): (r: Result<Team>)
    ensures r.Ok? <==> remote.team(t).Http? && ParseRateLimit(remote.team(t).headers).Ok? && remote.team(t).body.decoded
    ensures r.Ok? ==> r.value == remote.team(t).body.value
  {
    Fetch(remote.team(t))
  }

  /** GetDetailsLocal as a step over a list of users. */
  function LocalDetails(users: Option<seq<User>>): User -> Result<User> {
    (u: User) => DetailsLocal(users, u)
  }

  /**
   * Resolving listed members against users.json keeps their number, order
   * and ids; each is either the member as listed or a cached user.
   */
  lemma ResolvedMembers(users: Option<seq<User>>, us: seq<User>)
    requires FanOut(us, LocalDetails(users)).err.None?
    ensures var lus := FanOut(us, LocalDetails(users)).done;
      |lus| == |us| &&
      forall i :: 0 <= i < |us| ==> lus[i].id == us[i].id && (lus[i] == us[i] || lus[i] in users.value)
  {
    var lus := FanOut(us, LocalDetails(users)).done;
    forall i | 0 <= i < |us| ensures lus[i].id == us[i].id && (lus[i] == us[i] || lus[i] in users.value) {
      assert LocalDetails(users)(us[i]) == Ok(lus[i]);
      assert DetailsLocal(users, us[i]) == Ok(lus[i]);
    }
  }

  /** Resolution fails exactly when there is a member to resolve and users.json is missing. */
  lemma ResolutionFailure(users: Option<seq<User>>, us: seq<User>)
    ensures FanOut(us, LocalDetails(users)).err.Some? <==> users.None? && us != []
    ensures FanOut(us, LocalDetails(users)).err.Some? ==> FanOut(us, LocalDetails(users)).err == Some(NotFound(UsersFile))
  {
    var r := FanOut(us, LocalDetails(users));
    if r.err.Some? {
      assert DetailsLocal(users, us[|r.done|]) == Err(r.err.value);
    }
    if users.None? && us != [] {
      assert LocalDetails(users)(us[0]).Err?;
      FanOutStopsAt(us, LocalDetails(users), 0);
    }
  }

  /**
   * Team.AllMembers: the team's members listed page by page, then each
   * replaced by its cached record. The team's members are set only when
   * both succeed; a failed resolution returns the unresolved list.
   */
  method AllMembers(remote: Remote, users: Option<seq<User>>, t: Team, fuel: nat)
    returns (updated: Team, members: seq<User>, err: Option<Error>)
    ensures var w := Walk(TeamMemberPages(remote, t), Keep, CheckThenAppend, fuel);
      var res := FanOut(w.items, LocalDetails(users));
      if w.err.Some? then updated == t && members == w.items && err == w.err
      else if res.err.Some? then updated == t && members == w.items && err == res.err
      else updated == t.(members := res.done) && members == res.done && err.None?
  {
    var us, werr, requested := WalkPages(TeamMemberPages(remote, t), Keep, CheckThenAppend, fuel);
    if werr.Some? {
      return t, us, werr;
    }
    var lus, lerr := RunFanOut(us, LocalDetails(users));
    if lerr.Some? {
      return t, us, lerr;
    }
    return t.(members := lus), lus, None;
  }

  /** InviteMemberToTeam: the membership's role is sent as it is; the response status is not inspected. */
  function InviteMemberToTeam(remote: Remote, m: Membership, t: Team): (sent: Sent)
    ensures sent.requests == [PutTeamMembership(t.id, m.user.login, m.role)]
    ensures sent.err.None? <==> remote.write(sent.requests[0]).Http? && ParseRateLimit(remote.write(sent.requests[0]).headers).Ok?
  {
    var req := PutTeamMembership(t.id, m.user.login, m.role);
    Sent([req], WriteOutcome(remote.write(req)))
  }

  /**
   * One (team, member) step of InviteUsersToTeams: look the member's
   * membership up by login, then add it to the team. A lookup that finds
   * nothing is dereferenced by the source (a nil pointer); here it is the
   * error NilMembership.
   */
  function InviteStep(remote: Remote, memberships: Option<seq<Membership>>, t: Team, u: User): (sent: Sent)
    ensures |sent.requests| <= 1
    ensures sent.err.None? ==> LocalMembership(memberships, u.login).Ok? && LocalMembership(memberships, u.login).value.Some?
  {
    match LocalMembership(memberships, u.login)
    case Err(e) => Sent([], Some(e))
    case Ok(None) => Sent([], Some(NilMembership(u.login)))
    case Ok(Some(m)) => InviteMemberToTeam(remote, m, t)
  }

  /** The (team, member) pairs of one team, in member order. */
  function TeamPairs(t: Team, us: seq<User>): (r: seq<(Team, User)>)
    ensures |r| == |us| && forall k :: 0 <= k < |us| ==> r[k] == (t, us[k])
    decreases |us|
  {
    if us == [] then [] else TeamPairs(t, us[..|us| - 1]) + [(t, us[|us| - 1])]
  }

  /** All (team, member) pairs: teams in file order, each team's members in list order. */
  function AllPairs(ts: seq<Team>): seq<(Team, User)>
    decreases |ts|
  {
    if ts == [] then [] else AllPairs(ts[..|ts| - 1]) + TeamPairs(ts[|ts| - 1], ts[|ts| - 1].members)
  }

  /** The steps run in order, stopping at the first error. */
  function InviteSteps(remote: Remote, memberships: Option<seq<Membership>>, pairs: seq<(Team, User)>): (sent: Sent)
    ensures |sent.requests| <= |pairs|
    decreases |pairs|
  {
    if pairs == [] then Sent([], None)
    else
      var s := InviteSteps(remote, memberships, pairs[..|pairs| - 1]);
      if s.err.Some? then s
      else
        var (t, u) := pairs[|pairs| - 1];
        var step := InviteStep(remote, memberships, t, u);
        Sent(s.requests + step.requests, step.err)
  }

  /** InviteUsersToTeams: a missing teams.json is an error; otherwise every pair in order. */
  function InviteAll(remote: Remote, teams: Option<seq<Team>>, memberships: Option<seq<Membership>>): Sent {
    match teams
    case None => Sent([], Some(NotFound(TeamsFile)))
    case Some(ts) => InviteSteps(remote, memberships, AllPairs(ts))
  }

  /** InviteSteps over one more pair, unfolded once. */
  lemma InviteStepsLast(remote: Remote, memberships: Option<seq<Membership>>, pairs: seq<(Team, User)>, p: (Team, User))
    ensures var s := InviteSteps(remote, memberships, pairs);
      var step := InviteStep(remote, memberships, p.0, p.1);
      InviteSteps(remote, memberships, pairs + [p]) ==
        if s.err.Some? then s else Sent(s.requests + step.requests, step.err)
  {
    assert (pairs + [p])[..|pairs|] == pairs;
    assert (pairs + [p])[|pairs|] == p;
  }

  /** Running one more pair after a clean run appends that pair's step. */
  lemma InviteStepsSnoc(remote: Remote, memberships: Option<seq<Membership>>, pairs: seq<(Team, User)>, t: Team, u: User)
    requires InviteSteps(remote, memberships, pairs).err.None?
    ensures var step := InviteStep(remote, memberships, t, u);
      InviteSteps(remote, memberships, pairs + [(t, u)]) ==
      Sent(InviteSteps(remote, memberships, pairs).requests + step.requests, step.err)
  {
    assert (pairs + [(t, u)])[..|pairs|] == pairs;
  }

  /** One pair's step, as the body of the inner loop. */
  method InvitePair(remote: Remote, memberships: Option<seq<Membership>>, t: Team, u: User) returns (step: Sent)
    ensures step == InviteStep(remote, memberships, t, u)
  {
    var lookup := LocalMembership(memberships, u.login);
    if lookup.Err? {
      return Sent([], Some(lookup.error));
    }
    if lookup.value.None? {
      return Sent([], Some(NilMembership(u.login)));
    }
    var m := lookup.value.value;
    var req := PutTeamMembership(t.id, m.user.login, m.role);
    return Sent([req], WriteOutcome(remote.write(req)));
  }

  lemma AllPairsSnoc(ts: seq<Team>, i: nat)
    requires i < |ts|
    ensures AllPairs(ts[..i + 1]) == AllPairs(ts[..i]) + TeamPairs(ts[i], ts[i].members)
  {
    assert ts[..i + 1][..i] == ts[..i];
  }

  lemma TeamPairsSnoc(t: Team, j: nat)
    requires j < |t.members|
    ensures TeamPairs(t, t.members[..j + 1]) == TeamPairs(t, t.members[..j]) + [(t, t.members[j])]
  {
    assert t.members[..j + 1][..j] == t.members[..j];
  }

  /** The pairs of the first j members come first among a team's pairs. */
  lemma TeamPairsPrefix(t: Team, j: nat)
    requires j <= |t.members|
    ensures TeamPairs(t, t.members[..j]) <= TeamPairs(t, t.members)
  {
    var short, all := TeamPairs(t, t.members[..j]), TeamPairs(t, t.members);
    assert forall k :: 0 <= k < j ==> short[k] == all[k];
  }

  /** The pairs of the first n teams come first among all pairs. */
  lemma {:induction false} AllPairsPrefix(ts: seq<Team>, n: nat)
    requires n <= |ts|
    ensures AllPairs(ts[..n]) <= AllPairs(ts)
    decreases |ts| - n
  {
    if n < |ts| {
      AllPairsPrefix(ts, n + 1);
      AllPairsSnoc(ts, n);
    } else {
      assert ts[..n] == ts;
    }
  }

  /** A clean run followed by another run is the two runs' requests, ending as the second. */
  lemma {:induction false} InviteStepsAppend(remote: Remote, memberships: Option<seq<Membership>>,
                                             pairs: seq<(Team, User)>, more: seq<(Team, User)>)
    requires InviteSteps(remote, memberships, pairs).err.None?
    ensures var first := InviteSteps(remote, memberships, pairs);
      var second := InviteSteps(remote, memberships, more);
      InviteSteps(remote, memberships, pairs + more) == Sent(first.requests + second.requests, second.err)
    decreases |more|
  {
    if more == [] {
      assert pairs + more == pairs;
    } else {
      var init, last := more[..|more| - 1], more[|more| - 1];
      InviteStepsAppend(remote, memberships, pairs, init);
      AppendLast(pairs, more);
      InviteStepsLast(remote, memberships, pairs + init, last);
      InviteStepsLast(remote, memberships, init, last);
      var first, mid := InviteSteps(remote, memberships, pairs), InviteSteps(remote, memberships, init);
      if mid.err.None? {
        var step := InviteStep(remote, memberships, last.0, last.1);
        AppendAssoc(first.requests, mid.requests, step.requests);
      }
    }
  }

  /** A failed run stands for the whole list when what it ran is a prefix of it. */
  lemma InviteStepsAbortPrefix(remote: Remote, memberships: Option<seq<Membership>>,
                               pairs: seq<(Team, User)>, all: seq<(Team, User)>)
    requires pairs <= all && InviteSteps(remote, memberships, pairs).err.Some?
    ensures InviteSteps(remote, memberships, all) == InviteSteps(remote, memberships, pairs)
  {
    InviteStepsAbort(remote, memberships, pairs, all[|pairs|..]);
    assert pairs + all[|pairs|..] == all;
  }

  /** The inner loop of InviteUsersToTeams: the members of one team, in order, up to the first error. */
  method InviteTeam(remote: Remote, memberships: Option<seq<Membership>>, t: Team) returns (sent: Sent)
    ensures sent == InviteSteps(remote, memberships, TeamPairs(t, t.members))
  {
    sent := Sent([], None);
    for j := 0 to |t.members|
      invariant sent == InviteSteps(remote, memberships, TeamPairs(t, t.members[..j]))
      invariant sent.err.None?
    {
      TeamPairsSnoc(t, j);
      InviteStepsSnoc(remote, memberships, TeamPairs(t, t.members[..j]), t, t.members[j]);
      var step := InvitePair(remote, memberships, t, t.members[j]);
      sent := Sent(sent.requests + step.requests, step.err);
      if step.err.Some? {
        TeamPairsPrefix(t, j + 1);
        InviteStepsAbortPrefix(remote, memberships, TeamPairs(t, t.members[..j + 1]), TeamPairs(t, t.members));
        return;
      }
    }
    assert t.members[..|t.members|] == t.members;
  }

  /** InviteUsersToTeams as the source writes it: a loop over teams and, inside, over their members. */
  method InviteUsersToTeams(remote: Remote, teams: Option<seq<Team>>, memberships: Option<seq<Membership>>)
    returns (sent: Sent)
    ensures sent == InviteAll(remote, teams, memberships)
  {
    if teams.None? {
      return Sent([], Some(NotFound(TeamsFile)));
    }
    var ts := teams.value;
    sent := Sent([], None);
    for i := 0 to |ts|
      invariant sent == InviteSteps(remote, memberships, AllPairs(ts[..i]))
      invariant sent.err.None?
    {
      AllPairsSnoc(ts, i);
      InviteStepsAppend(remote, memberships, AllPairs(ts[..i]), TeamPairs(ts[i], ts[i].members));
      var team := InviteTeam(remote, memberships, ts[i]);
      sent := Sent(sent.requests + team.requests, team.err);
      if team.err.Some? {
        AllPairsPrefix(ts, i + 1);
        InviteStepsAbortPrefix(remote, memberships, AllPairs(ts[..i + 1]), AllPairs(ts));
        return;
      }
    }
    assert ts[..|ts|] == ts;
  }

  /** Once a step fails, no later pair is attempted. */
  lemma {:induction false} InviteStepsAbort(remote: Remote, memberships: Option<seq<Membership>>,
                                            pairs: seq<(Team, User)>, more: seq<(Team, User)>)
    requires InviteSteps(remote, memberships, pairs).err.Some?
    ensures InviteSteps(remote, memberships, pairs + more) == InviteSteps(remote, memberships, pairs)
    decreases |more|
  {
    if more == [] {
      assert pairs + more == pairs;
    } else {
      var init, last := more[..|more| - 1], more[|more| - 1];
      InviteStepsAbort(remote, memberships, pairs, init);
      AppendLast(pairs, more);
      InviteStepsLast(remote, memberships, pairs + init, last);
    }
  }

  /** The team-membership request for a pair, when its membership is cached. */
  function PairRequest(memberships: Option<seq<Membership>>, pair: (Team, User)): Option<Request> {
    match LocalMembership(memberships, pair.1.login)
    case Ok(Some(m)) => Some(PutTeamMembership(pair.0.id, m.user.login, m.role))
    case _ => None
  }

  /** A pair whose membership is cached and whose write succeeds sends exactly its request. */
  lemma PairRequestSent(remote: Remote, memberships: Option<seq<Membership>>, pair: (Team, User))
    requires PairRequest(memberships, pair).Some?
    requires WriteOutcome(remote.write(PairRequest(memberships, pair).value)).None?
    ensures InviteStep(remote, memberships, pair.0, pair.1) == Sent([PairRequest(memberships, pair).value], None)
  {
  }

  /**
   * When every pair's membership is cached and every write succeeds, one
   * request is sent per pair, in pair order.
   */
  lemma {:induction false} InviteStepsAllSent(remote: Remote, memberships: Option<seq<Membership>>, pairs: seq<(Team, User)>)
    requires forall k :: 0 <= k < |pairs| ==>
      PairRequest(memberships, pairs[k]).Some? && WriteOutcome(remote.write(PairRequest(memberships, pairs[k]).value)).None?
    ensures InviteSteps(remote, memberships, pairs).err.None?
    ensures |InviteSteps(remote, memberships, pairs).requests| == |pairs|
    ensures forall k :: 0 <= k < |pairs| ==>
      InviteSteps(remote, memberships, pairs).requests[k] == PairRequest(memberships, pairs[k]).value
    decreases |pairs|
  {
    if pairs != [] {
      var init, last := pairs[..|pairs| - 1], pairs[|pairs| - 1];
      InviteStepsAllSent(remote, memberships, init);
      PairRequestSent(remote, memberships, last);
      AppendLast([], pairs);
      InviteStepsLast(remote, memberships, init, last);
      var sent := InviteSteps(remote, memberships, pairs);
      forall k | 0 <= k < |pairs| ensures sent.requests[k] == PairRequest(memberships, pairs[k]).value {
        if k < |init| {
          assert pairs[k] == init[k];
        }
      }
    }
  }

  /** AllPairs over one more team, unfolded once. */
  lemma AllPairsLast(ts: seq<Team>, t: Team)
    ensures AllPairs(ts + [t]) == AllPairs(ts) + TeamPairs(t, t.members)
  {
    assert (ts + [t])[..|ts|] == ts;
    assert (ts + [t])[|ts|] == t;
  }

  /** The pairs of two team lists in a row are the pairs of the first list, then those of the second. */
  lemma {:induction false} AllPairsAppend(a: seq<Team>, b: seq<Team>)
    ensures AllPairs(a + b) == AllPairs(a) + AllPairs(b)
    decreases |b|
  {
    if b == [] {
      assert a + b == a;
    } else {
      var init, last := b[..|b| - 1], b[|b| - 1];
      AllPairsAppend(a, init);
      AppendLast(a, b);
      AllPairsLast(a + init, last);
      AllPairsLast(init, last);
      AppendAssoc(AllPairs(a), AllPairs(init), TeamPairs(last, last.members));
    }
  }
}
