/**
 * The data directory: one JSON snapshot per file, each either missing or a
 * whole list, and the lookups the tool runs against the snapshots.
 */
module Cache {
  import opened Types

  const UsersFile: string := "users.json"
  const TeamsFile: string := "teams.json"
  const MembershipsFile: string := "memberships.json"
  const InvitationsFile: string := "invitations.json"
  const OutsideCollaboratorsFile: string := "outside_collaborators.json"
  const RepositoriesFile: string := "repositories.json"
  const TeamReposFile: string := "teamrepos.json"

  /** The contents of the data directory; None is a file that does not exist. */
  datatype Snapshot = Snapshot(
    users: Option<seq<User>>,
    teams: Option<seq<Team>>,
    memberships: Option<seq<Membership>>,
    invitations: Option<seq<Invitation>>,
    outsideCollaborators: Option<seq<User>>,
    repositories: Option<seq<Repository>>,
    teamRepos: Option<seq<Repository>>)

  const EmptyDir: Snapshot := Snapshot(None, None, None, None, None, None, None)

  /** The data directory, whose files the pull commands rewrite. */
  class DataDir {
    var users: Option<seq<User>>
    var teams: Option<seq<Team>>
    var memberships: Option<seq<Membership>>
    var invitations: Option<seq<Invitation>>
    var outsideCollaborators: Option<seq<User>>
    var repositories: Option<seq<Repository>>
    var teamRepos: Option<seq<Repository>>

    /** Every file of the directory. */
    function Contents(): Snapshot
      reads this
    {
      Snapshot(users, teams, memberships, invitations, outsideCollaborators, repositories, teamRepos)
    }

    /** An empty directory. */
    constructor()
      ensures Contents() == EmptyDir
    {
      users, teams, memberships, invitations := None, None, None, None;
      outsideCollaborators, repositories, teamRepos := None, None, None;
    }

    /** SaveMemberList: users.json becomes exactly ls; no other file changes. */
    method SaveMemberList(ls: seq<User>)
      modifies this
      ensures Contents() == old(Contents()).(users := Some(ls))
    {
      users := Some(ls);
    }

    /** SaveTeamList: teams.json becomes exactly ls; no other file changes. */
    method SaveTeamList(ls: seq<Team>)
      modifies this
      ensures Contents() == old(Contents()).(teams := Some(ls))
    {
      teams := Some(ls);
    }

    /** SaveMembership: memberships.json becomes exactly ls; no other file changes. */
    method SaveMembership(ls: seq<Membership>)
      modifies this
      ensures Contents() == old(Contents()).(memberships := Some(ls))
    {
      memberships := Some(ls);
    }

    /** SaveInvitations: invitations.json becomes exactly ls; no other file changes. */
    method SaveInvitations(ls: seq<Invitation>)
      modifies this
      ensures Contents() == old(Contents()).(invitations := Some(ls))
    {
      invitations := Some(ls);
    }

    /** SaveOutsideCollaborators: outside_collaborators.json becomes exactly ls; no other file changes. */
    method SaveOutsideCollaborators(ls: seq<User>)
      modifies this
      ensures Contents() == old(Contents()).(outsideCollaborators := Some(ls))
    {
      outsideCollaborators := Some(ls);
    }

    /** SaveRepositories: repositories.json becomes exactly ls; no other file changes. */
    method SaveRepositories(ls: seq<Repository>)
      modifies this
      ensures Contents() == old(Contents()).(repositories := Some(ls))
    {
      repositories := Some(ls);
    }

    /** SaveTeamRepoList: teamrepos.json becomes exactly ls; no other file changes. */
    method SaveTeamRepoList(ls: seq<Repository>)
      modifies this
      ensures Contents() == old(Contents()).(teamRepos := Some(ls))
    {
      teamRepos := Some(ls);
    }
  }

  /** Reading a snapshot: a missing file is an error naming it. */
  function Load<T>(snapshot: Option<seq<T>>, file: string): (r: Result<seq<T>>)
    ensures snapshot.None? <==> r == Err(NotFound(file))
    ensures snapshot.Some? ==> r == Ok(snapshot.value)
  {
    match snapshot
    case None => Err(NotFound(file))
    case Some(xs) => Ok(xs)
  }

  /** The index of the first element satisfying p, if any. */
  function FirstWhere<T>(xs: seq<T>, p: T -> bool): (r: Option<nat>)
    ensures r.Some? ==> r.value < |xs| && p(xs[r.value]) && forall j :: 0 <= j < r.value ==> !p(xs[j])
    ensures r.None? ==> forall j :: 0 <= j < |xs| ==> !p(xs[j])
    decreases |xs|
  {
    if xs == [] then None
    else if p(xs[0]) then Some(0)
    else match FirstWhere(xs[1..], p)
      case None => None
      case Some(i) => Some(i + 1)
  }

  /**
   * GetDetailsLocal: the first cached user with the same id, or the user
   * itself when none matches; a missing users.json is an error.
   */
  function DetailsLocal(users: Option<seq<User>>, u: User): (r: Result<User>)
    ensures users.None? <==> r == Err(NotFound(UsersFile))
    ensures r.Ok? ==> r.value.id == u.id
    ensures r.Ok? && r.value != u ==> r.value in users.value
  {
    match users
    case None => Err(NotFound(UsersFile))
    case Some(ul) =>
      match FirstWhere(ul, (x: User) => x.id == u.id)
      case None => Ok(u)
      case Some(i) => Ok(ul[i])
  }

  /** The first element satisfying p is the one FirstWhere finds. */
  lemma {:induction false} FirstWhereIs<T>(xs: seq<T>, p: T -> bool, i: nat)
    requires i < |xs| && p(xs[i])
    requires forall j :: 0 <= j < i ==> !p(xs[j])
    ensures FirstWhere(xs, p) == Some(i)
    decreases i
  {
    if i > 0 {
      assert !p(xs[0]);
      FirstWhereIs(xs[1..], p, i - 1);
    }
  }

  /** With no element satisfying p, FirstWhere finds nothing. */
  lemma {:induction false} FirstWhereNone<T>(xs: seq<T>, p: T -> bool)
    requires forall j :: 0 <= j < |xs| ==> !p(xs[j])
    ensures FirstWhere(xs, p) == None
    decreases |xs|
  {
    if xs != [] {
      assert !p(xs[0]);
      FirstWhereNone(xs[1..], p);
    }
  }

  /** GetDetailsLocal picks the first match: no earlier cached user shares the id. */
  lemma DetailsLocalFirst(ul: seq<User>, u: User, i: nat)
    requires i < |ul| && ul[i].id == u.id
    requires forall j :: 0 <= j < i ==> ul[j].id != u.id
    ensures DetailsLocal(Some(ul), u) == Ok(ul[i])
  {
    FirstWhereIs(ul, (x: User) => x.id == u.id, i);
  }

  /** With no cached user of the same id, the user comes back unchanged. */
  lemma DetailsLocalFallback(ul: seq<User>, u: User)
    requires forall j :: 0 <= j < |ul| ==> ul[j].id != u.id
    ensures DetailsLocal(Some(ul), u) == Ok(u)
  {
    FirstWhereNone(ul, (x: User) => x.id == u.id);
  }

  /**
   * GetLocalMembership: the first cached membership whose user has the
   * login, or nothing; a missing memberships.json is an error.
   */
  function LocalMembership(memberships: Option<seq<Membership>>, login: string): (r: Result<Option<Membership>>)
    ensures memberships.None? <==> r == Err(NotFound(MembershipsFile))
    ensures r.Ok? && r.value.Some? ==> r.value.value in memberships.value && r.value.value.user.login == login
    ensures r.Ok? && r.value.None? ==> forall j :: 0 <= j < |memberships.value| ==> memberships.value[j].user.login != login
  {
    match memberships
    case None => Err(NotFound(MembershipsFile))
    case Some(ms) =>
      match FirstWhere(ms, (m: Membership) => m.user.login == login)
      case None => Ok(None)
      case Some(i) => Ok(Some(ms[i]))
  }

  /** GetLocalMembership picks the first membership with the login. */
  lemma LocalMembershipFirst(ms: seq<Membership>, login: string, i: nat)
    requires i < |ms| && ms[i].user.login == login
    requires forall j :: 0 <= j < i ==> ms[j].user.login != login
    ensures LocalMembership(Some(ms), login) == Ok(Some(ms[i]))
  {
    FirstWhereIs(ms, (m: Membership) => m.user.login == login, i);
  }

  /** The number of member records with the given id. */
  function MatchCount(members: seq<User>, id: int): (n: nat)
    ensures n <= |members|
    decreases |members|
  {
    if members == [] then 0
    else MatchCount(members[..|members| - 1], id) + (if members[|members| - 1].id == id then 1 else 0)
  }

  /** n copies of x. */
  function Repeat(x: int, n: nat): (r: seq<int>)
    ensures |r| == n && forall k :: 0 <= k < n ==> r[k] == x
    decreases n
  {
    if n == 0 then [] else Repeat(x, n - 1) + [x]
  }

  /**
   * The team ids of a membership: teams in file order, each team's id once
   * per member record carrying the user's id.
   */
  function TeamIDsOf(ts: seq<Team>, id: int): seq<int>
    decreases |ts|
  {
    if ts == [] then []
    else TeamIDsOf(ts[..|ts| - 1], id) + Repeat(ts[|ts| - 1].id, MatchCount(ts[|ts| - 1].members, id))
  }

  /** TeamIDs: the nested loop over teams and their members. */
  method TeamIDs(teams: Option<seq<Team>>, m: Membership) returns (ids: seq<int>, err: Option<Error>)
    ensures teams.None? ==> ids == [] && err == Some(NotFound(TeamsFile))
    ensures teams.Some? ==> err.None? && ids == TeamIDsOf(teams.value, m.user.id)
  {
    ids := [];
    if teams.None? {
      return ids, Some(NotFound(TeamsFile));
    }
    var ts := teams.value;
    for i := 0 to |ts|
      invariant ids == TeamIDsOf(ts[..i], m.user.id)
    {
      assert ts[..i + 1][..i] == ts[..i];
      var t := ts[i];
      ghost var before := ids;
      for j := 0 to |t.members|
        invariant ids == before + Repeat(t.id, MatchCount(t.members[..j], m.user.id))
      {
        assert t.members[..j + 1][..j] == t.members[..j];
        if t.members[j].id == m.user.id {
          ids := ids + [t.id];
        }
      }
      assert t.members[..|t.members|] == t.members;
    }
    assert ts[..|ts|] == ts;
    return ids, None;
  }

  /** Team ids follow the order of the teams file: the ids of a split list are the ids of its halves. */
  lemma {:induction false} TeamIDsOfAppend(a: seq<Team>, b: seq<Team>, id: int)
    ensures TeamIDsOf(a + b, id) == TeamIDsOf(a, id) + TeamIDsOf(b, id)
    decreases |b|
  {
    if b != [] {
      var c := b[..|b| - 1];
      assert (a + b)[..|a + b| - 1] == a + c;
      TeamIDsOfAppend(a, c, id);
    } else {
      assert a + b == a;
    }
  }

  /** A member record carrying the id is counted. */
  lemma {:induction false} MatchCountPositive(members: seq<User>, id: int)
    ensures MatchCount(members, id) > 0 <==> exists k :: 0 <= k < |members| && members[k].id == id
    decreases |members|
  {
    if members != [] {
      var init := members[..|members| - 1];
      MatchCountPositive(init, id);
      if exists k :: 0 <= k < |init| && init[k].id == id {
        var k :| 0 <= k < |init| && init[k].id == id;
        assert members[k] == init[k];
      }
      if exists k :: 0 <= k < |members| && members[k].id == id {
        var k :| 0 <= k < |members| && members[k].id == id;
        if k < |init| {
          assert init[k] == members[k];
        }
      }
    }
  }

  /** An id is listed exactly when some team with that id has a member record for the user. */
  lemma {:induction false} TeamIDsOfMember(ts: seq<Team>, id: int, x: int)
    ensures x in TeamIDsOf(ts, id) <==>
      exists i :: 0 <= i < |ts| && ts[i].id == x && MatchCount(ts[i].members, id) > 0
    decreases |ts|
  {
    if ts != [] {
      var init := ts[..|ts| - 1];
      var last := ts[|ts| - 1];
      TeamIDsOfMember(init, id, x);
      var tail := Repeat(last.id, MatchCount(last.members, id));
      assert x in TeamIDsOf(ts, id) <==> x in TeamIDsOf(init, id) || x in tail;
      assert x in tail <==> last.id == x && MatchCount(last.members, id) > 0 by {
        if x in tail {
          var k :| 0 <= k < |tail| && tail[k] == x;
        }
        if last.id == x && MatchCount(last.members, id) > 0 {
          assert tail[0] == x;
        }
      }
      if exists i :: 0 <= i < |init| && init[i].id == x && MatchCount(init[i].members, id) > 0 {
        var i :| 0 <= i < |init| && init[i].id == x && MatchCount(init[i].members, id) > 0;
        assert ts[i] == init[i];
      }
      if exists i :: 0 <= i < |ts| && ts[i].id == x && MatchCount(ts[i].members, id) > 0 {
        var i :| 0 <= i < |ts| && ts[i].id == x && MatchCount(ts[i].members, id) > 0;
        if i < |init| {
          assert init[i] == ts[i];
        }
      }
    }
  }
}
