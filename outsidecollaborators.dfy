/**
 * Outside collaborators of the organization, gathered page by page, each
 * refreshed with its own details before its page is kept.
 */
module OutsideCollaborators {
  import opened Types
  import opened Calls
  import opened Pager
  import opened Members

  function OutsideCollaboratorsURL(cfg: Config): string { Api + "orgs/" + cfg.org + "/outside_collaborators" }

  /** ListOutsideCollaborators: one page of users; the status is not checked. */
  function CollaboratorPages(remote: Remote, cfg: Config): int -> Page<User> {
    (p: int) => ListPage(remote.userPages(PagedURL(OutsideCollaboratorsURL(cfg), p)), IgnoreStatus)
  }

  /**
   * GetAllOutsideCollaborators: the details of every user of a page are
   * fetched first (a failure returns the earlier pages only), then the page
   * is appended before its own error is checked.
   */
  method GetAllOutsideCollaborators(remote: Remote, cfg: Config, fuel: nat) returns (us: seq<User>, err: Option<Error>)
    ensures var w := Walk(CollaboratorPages(remote, cfg), DetailsOf(remote), AppendThenCheck, fuel);
      us == w.items && err == w.err
  {
    var requested;
    us, err, requested := WalkPages(CollaboratorPages(remote, cfg), DetailsOf(remote), AppendThenCheck, fuel);
  }

  /** Every collaborator returned is a user as its own detail GET decoded it. */
  lemma CollaboratorsAreDetailed(remote: Remote, cfg: Config, fuel: nat, i: nat)
    requires i < |Walk(CollaboratorPages(remote, cfg), DetailsOf(remote), AppendThenCheck, fuel).items|
    ensures var w := Walk(CollaboratorPages(remote, cfg), DetailsOf(remote), AppendThenCheck, fuel);
      exists u :: UserDetails(remote, u) == Ok(w.items[i]) && w.items[i] == remote.user(u).body.value
  {
    var enrich := DetailsOf(remote);
    WalkItemsEnriched(CollaboratorPages(remote, cfg), enrich, AppendThenCheck, Start, [], [], fuel);
    var w := Walk(CollaboratorPages(remote, cfg), enrich, AppendThenCheck, fuel);
    assert w == WalkFrom(CollaboratorPages(remote, cfg), enrich, AppendThenCheck, Start, [], [], fuel);
    assert Enriched(enrich, w.items[i]);
    var u :| enrich(u) == Ok(w.items[i]);
    assert UserDetails(remote, u) == Ok(w.items[i]);
  }
}
