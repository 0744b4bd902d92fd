/** Entities, responses and errors shared by every part of the migration tool. */
module Types {

  datatype Option<+T> = None | Some(value: T)

  /** The errors the tool can return, one constructor per origin. */
  datatype Error =
    | Syntax(input: string)          // strconv: the text is not a decimal integer
    | OutOfRange(input: string)      // strconv: the integer does not fit in 64 bits
    | Transport(reason: string)      // the HTTP client could not complete the call
    | RemoteError(body: string)      // a rejected status; the message is the response body
    | Malformed(body: string)        // the JSON body could not be decoded
    | NotFound(file: string)         // a snapshot file is missing from the data directory
    | NilMembership(login: string)   // a membership lookup found nothing and the caller used it anyway
    | PageBudgetExhausted            // the walker was given no more page fetches

  datatype Result<+T> = Ok(value: T) | Err(error: Error)

  /** A GitHub account; only the fields the tool reasons about. */
  datatype User = User(login: string, id: int, email: string)

  /** A repository and, once fetched, its contributors. */
  datatype Repository = Repository(id: int, name: string, contributors: seq<User>)

  /** A team with its members and repositories as stored in teams.json. */
  datatype Team = Team(id: int, members: seq<User>, repositories: seq<Repository>)

  /** An organization membership; an empty url means no membership record exists. */
  datatype Membership = Membership(url: string, role: string, user: User)

  /** A pending organization invitation. */
  datatype Invitation = Invitation(id: int, login: string, email: string, role: string)

  /** The pagination cursor read from a Link header. */
  datatype ListPages = ListPages(prev: int, next: int, last: int)

  /** The three rate-limit headers of a response. */
  datatype RateLimit = RateLimit(limit: int, remaining: int, reset: int)

  /**
   * A response body: its text, the value JSON decoding left in the target
   * (possibly partial), and whether decoding reported success.
   */
  datatype Body<T> = Body(text: string, value: T, decoded: bool)

  /** What the remote answers to one request. */
  datatype Response<T> =
    | Unreachable(reason: string)
    | Http(link: string, headers: map<string, string>, status: int, body: Body<T>)

  /** The body of an organization invitation (POST /orgs/{org}/invitations). */
  datatype InviteParams = InviteParams(inviteeId: int, email: string, teamIds: seq<int>, role: string)

  /** The requests the tool issues outside the paginated listings. */
  datatype Request =
    | GetUser(login: string)
    | GetTeam(teamId: int)
    | GetMembership(login: string)
    | DeleteMember(login: string)
    | PostInvitation(params: InviteParams)
    | PutTeamMembership(teamId: int, login: string, role: string)

  /**
   * The remote organization API as an oracle. List endpoints answer by
   * request URL. A user or team detail GET decodes into the record it
   * refreshes, so its answer is keyed by that record; a membership GET
   * decodes into a fresh record and is keyed by login. Writes answer by
   * request.
   */
  datatype Remote = Remote(
    userPages: string -> Response<seq<User>>,
    teamPages: string -> Response<seq<Team>>,
    repoPages: string -> Response<seq<Repository>>,
    invitationPages: string -> Response<seq<Invitation>>,
    user: User -> Response<User>,
    team: Team -> Response<Team>,
    membership: string -> Response<Membership>,
    write: Request -> Response<()>)

  /** Process-wide configuration: the organization every URL is built from. */
  datatype Config = Config(org: string)

  /** One page of a listing: the decoded items, the cursor, and the call's error. */
  datatype Page<T> = Page(items: seq<T>, cursor: ListPages, err: Option<Error>)

  /** The requests a step issued, in order, and the error it ended with. */
  datatype Sent = Sent(requests: seq<Request>, err: Option<Error>)
}
