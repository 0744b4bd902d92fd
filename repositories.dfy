/**
 * Repositories of a team or of the organization, and the contributors of a
 * repository, gathered page by page.
 */
module Repositories {
  import opened Types
  import opened Text
  import opened GhApi
  import opened Calls
  import opened Pager

  function TeamReposURL(t: Team): string { Api + "teams/" + Itoa(t.id) + "/repos" }

  function OrgReposURL(cfg: Config): string { Api + "orgs/" + cfg.org + "/repos" }

  function ContributorsURL(cfg: Config, r: Repository): string {
    Api + "repos/" + cfg.org + "/" + r.name + "/contributors"
  }

  /** Team.ListRepositories and ListRepositories: one page of repositories at a base URL. */
  function RepoPages(remote: Remote, base: string): int -> Page<Repository> {
    (p: int) => ListPage(remote.repoPages(PagedURL(base, p)), IgnoreStatus)
  }

  /** ListContributors: one page of contributors; a status other than 200 is an empty page. */
  function ContributorPages(remote: Remote, cfg: Config, r: Repository): (f: int -> Page<User>)
    ensures forall p :: HeadersParse(remote.userPages(PagedURL(ContributorsURL(cfg, r), p))) &&
                        remote.userPages(PagedURL(ContributorsURL(cfg, r), p)).status != 200 ==>
      f(p) == Page([], LinksOf(remote.userPages(PagedURL(ContributorsURL(cfg, r), p)).link).pages, None)
  {
    (p: int) => ListPage(remote.userPages(PagedURL(ContributorsURL(cfg, r), p)), EmptyUnlessOK)
  }

  /** The walk over a repository's contributors. */
  function ContributorsWalk(remote: Remote, cfg: Config, fuel: nat, r: Repository): Walked<User> {
    Walk(ContributorPages(remote, cfg, r), Keep, AppendThenCheck, fuel)
  }

  /** GetContributors seen from OrgRepositories: the repository with its contributors, or the walk's error. */
  function WithContributors(remote: Remote, cfg: Config, fuel: nat, r: Repository): (res: Result<Repository>)
    ensures res.Ok? <==> ContributorsWalk(remote, cfg, fuel, r).err.None?
    ensures res.Ok? ==> res.value == r.(contributors := ContributorsWalk(remote, cfg, fuel, r).items)
  {
    var w := ContributorsWalk(remote, cfg, fuel, r);
    if w.err.Some? then Err(w.err.value) else Ok(r.(contributors := w.items))
  }

  /** The per-repository step of OrgRepositories. */
  function ContributorsOf(remote: Remote, cfg: Config, fuel: nat): Repository -> Result<Repository> {
    (r: Repository) => WithContributors(remote, cfg, fuel, r)
  }

  /** TeamRepositories: a page is appended before its error is checked. */
  method TeamRepositories(remote: Remote, t: Team, fuel: nat) returns (rs: seq<Repository>, err: Option<Error>)
    ensures var w := Walk(RepoPages(remote, TeamReposURL(t)), Keep, AppendThenCheck, fuel);
      rs == w.items && err == w.err
  {
    var requested;
    rs, err, requested := WalkPages(RepoPages(remote, TeamReposURL(t)), Keep, AppendThenCheck, fuel);
  }

  /**
   * GetContributors: the contributors gathered, and the repository, whose
   * contributors are replaced only when the whole walk succeeds.
   */
  method GetContributors(remote: Remote, cfg: Config, r: Repository, fuel: nat)
    returns (updated: Repository, cs: seq<User>, err: Option<Error>)
    ensures cs == ContributorsWalk(remote, cfg, fuel, r).items && err == ContributorsWalk(remote, cfg, fuel, r).err
    ensures err.None? ==> updated == r.(contributors := cs)
    ensures err.Some? ==> updated == r
  {
    var requested;
    cs, err, requested := WalkPages(ContributorPages(remote, cfg, r), Keep, AppendThenCheck, fuel);
    updated := r;
    if err.None? {
      updated := updated.(contributors := cs);
    }
  }

  /**
   * OrgRepositories: the contributors of every repository of a page are
   * fetched before the page is appended; a contributor failure returns the
   * earlier pages only.
   */
  method OrgRepositories(remote: Remote, cfg: Config, fuel: nat) returns (rs: seq<Repository>, err: Option<Error>)
    ensures var w := Walk(RepoPages(remote, OrgReposURL(cfg)),
                          ContributorsOf(remote, cfg, fuel), AppendThenCheck, fuel);
      rs == w.items && err == w.err
  {
    var requested;
    rs, err, requested := WalkPages(RepoPages(remote, OrgReposURL(cfg)),
                                    ContributorsOf(remote, cfg, fuel), AppendThenCheck, fuel);
  }

  /**
   * Every repository OrgRepositories returns carries the contributors its
   * own walk gathered, and that walk succeeded.
   */
  lemma OrgRepositoriesHaveContributors(remote: Remote, cfg: Config, fuel: nat, i: nat)
    requires var w := Walk(RepoPages(remote, OrgReposURL(cfg)),
                           ContributorsOf(remote, cfg, fuel), AppendThenCheck, fuel);
      i < |w.items|
    ensures var w := Walk(RepoPages(remote, OrgReposURL(cfg)),
                          ContributorsOf(remote, cfg, fuel), AppendThenCheck, fuel);
      exists r :: ContributorsWalk(remote, cfg, fuel, r).err.None? &&
                  w.items[i] == r.(contributors := ContributorsWalk(remote, cfg, fuel, r).items)
  {
    var enrich := ContributorsOf(remote, cfg, fuel);
    WalkItemsEnriched(RepoPages(remote, OrgReposURL(cfg)), enrich, AppendThenCheck, Start, [], [], fuel);
    var w := Walk(RepoPages(remote, OrgReposURL(cfg)), enrich, AppendThenCheck, fuel);
    assert w == WalkFrom(RepoPages(remote, OrgReposURL(cfg)), enrich, AppendThenCheck, Start, [], [], fuel);
    assert Enriched(enrich, w.items[i]);
    var r :| enrich(r) == Ok(w.items[i]);
    assert WithContributors(remote, cfg, fuel, r) == Ok(w.items[i]);
  }
}
