/**
 * Pending invitations of the organization, gathered page by page.
 */
module Invitations {
  import opened Types
  import opened Calls
  import opened Pager

  function OrgInvitationsURL(cfg: Config): string { Api + "orgs/" + cfg.org + "/invitations" }

  /** ListInvitations: one page of pending invitations; the status is not checked. */
  function InvitationPages(remote: Remote, cfg: Config): int -> Page<Invitation> {
    (p: int) => ListPage(remote.invitationPages(PagedURL(OrgInvitationsURL(cfg), p)), IgnoreStatus)
  }

  /** GetAllInvitations: a page is appended before its error is checked. */
  method GetAllInvitations(remote: Remote, cfg: Config, fuel: nat) returns (invs: seq<Invitation>, err: Option<Error>)
    ensures var w := Walk(InvitationPages(remote, cfg), Keep, AppendThenCheck, fuel);
      invs == w.items && err == w.err
  {
    var requested;
    invs, err, requested := WalkPages(InvitationPages(remote, cfg), Keep, AppendThenCheck, fuel);
  }

  /**
   * When the first page's response does not arrive, GetAllInvitations asks
   * for page 1 only and returns no invitation with the transport error.
   */
  lemma InvitationsUnreachable(remote: Remote, cfg: Config, fuel: nat)
    requires fuel > 0
    requires remote.invitationPages(PagedURL(OrgInvitationsURL(cfg), 1)).Unreachable?
    ensures var w := Walk(InvitationPages(remote, cfg), Keep, AppendThenCheck, fuel);
      w.items == [] && w.requested == [1] &&
      w.err == Some(Transport(remote.invitationPages(PagedURL(OrgInvitationsURL(cfg), 1)).reason))
  {
    var fetch := InvitationPages(remote, cfg);
    assert fetch(1).items == [] && fetch(1).err.Some?;
  }
}
