/**
 * Organization memberships: one membership GET per user of users.json.
 */
module Memberships {
  import opened Types
  import opened Calls
  import opened Pager
  import opened Cache

  /** User.GetUserMembership: the membership as the GET decodes it; the status is not checked. */
  function UserMembership(remote: Remote, u: User): (r: Result<Membership>)
    ensures r.Ok? <==> HeadersDecode(remote.membership(u.login))
    ensures r.Ok? ==> r.value == remote.membership(u.login).body.value
  {
    Fetch(remote.membership(u.login))
  }

  /** A detail response that arrived, whose rate-limit headers parse and whose body decodes. */
  predicate HeadersDecode<T>(res: Response<T>) {
    res.Http? && GhApi.ParseRateLimit(res.headers).Ok? && res.body.decoded
  }

  /** User.GetUserMembership as a step over a list of users. */
  function MembershipOf(remote: Remote): User -> Result<Membership> {
    (u: User) => UserMembership(remote, u)
  }

  /**
   * GetAllMembership: without users.json nothing is fetched; otherwise one
   * membership per user, in file order, stopping at the first failure with
   * the memberships gathered so far.
   */
  method GetAllMembership(remote: Remote, users: Option<seq<User>>) returns (ms: seq<Membership>, err: Option<Error>)
    ensures users.None? ==> ms == [] && err == Some(NotFound(UsersFile))
    ensures users.Some? ==> Partial(ms, err) == FanOut(users.value, MembershipOf(remote))
  {
    var loaded := Load(users, UsersFile);
    if loaded.Err? {
      return [], Some(loaded.error);
    }
    ms, err := RunFanOut(loaded.value, MembershipOf(remote));
  }

  /**
   * What GetAllMembership returns: the memberships of a prefix of the users,
   * each the decoded answer for that user's login; the whole list exactly
   * when there is no error, and otherwise the next user's lookup failed.
   */
  lemma AllMembershipsFetched(remote: Remote, us: seq<User>)
    ensures var p := FanOut(us, MembershipOf(remote));
      |p.done| <= |us| &&
      (forall i :: 0 <= i < |p.done| ==>
         HeadersDecode(remote.membership(us[i].login)) &&
         p.done[i] == remote.membership(us[i].login).body.value) &&
      (p.err.None? <==> |p.done| == |us|) &&
      (p.err.Some? ==> !HeadersDecode(remote.membership(us[|p.done|].login)))
  {
    var p := FanOut(us, MembershipOf(remote));
    forall i | 0 <= i < |p.done|
      ensures HeadersDecode(remote.membership(us[i].login)) &&
              p.done[i] == remote.membership(us[i].login).body.value
    {
      assert MembershipOf(remote)(us[i]) == Ok(p.done[i]);
    }
    if p.err.Some? {
      assert MembershipOf(remote)(us[|p.done|]).Err?;
    }
  }
}
