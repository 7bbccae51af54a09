/**
 * The records the service stores (`User`, `Session`, `VaultLink`), the request and reply
 * shapes its handlers see, the failures they raise, and the constants they use.
 */
module Records {
  import opened Results

  /**
   * A point on the service's clock, in microseconds (the resolution of Python's datetime). The
   * database keeps datetimes to the millisecond; that truncation is not modelled.
   */
  type Time = int

  const MicrosPerDay: int := 24 * 60 * 60 * 1000000

  /** A session expires seven days after it is created. */
  const SessionLifetime: int := 7 * MicrosPerDay

  /** The listing returns at most this many links. */
  const ListLimit: nat := 1000

  /** The prefix every stored url carries. */
  const UrlPrefix: string := "http"

  /** The access level a link gets when the request names none. */
  const DefaultAccessLevel: string := "Restricted"

  /** The only access levels a link may carry. */
  const AccessLevels: seq<string> := ["Restricted", "Anyone with link", "Public"]

  /** The acknowledgement a successful delete returns. */
  const DeletedMessage: string := "Link deleted successfully"

  datatype User = User(id: string, email: string, name: string, picture: Option<string>, createdAt: Time)

  /** `expiresAt` is optional because a stored session document may lack the field. */
  datatype Session = Session(id: string, userId: string, sessionToken: string, createdAt: Time, expiresAt: Option<Time>)

  datatype VaultLink = VaultLink(id: string, userId: string, url: string, name: string, accessLevel: string, createdAt: Time)

  /** The body of a create request (`VaultLinkCreate`); an absent access level is `None`. */
  datatype LinkRequest = LinkRequest(url: string, name: string, accessLevel: Option<string>)

  /**
   * What the identity provider's session-data call yields: a profile (status 200), any other
   * status, or a transport-level failure (`requests.RequestException`).
   */
  datatype ProviderReply =
    | Profile(email: string, name: string, picture: Option<string>, sessionToken: string)
    | NonSuccess
    | TransportError

  /** The fields of a link the validators check, in the order they are declared. */
  datatype Field = Url | AccessLevel

  /** The four ways the access guard refuses a token. */
  datatype AuthFailure = MissingToken | InvalidToken | SessionExpired | UserNotFound

  /** Every failure a handler raises. */
  datatype ApiError =
    | Unauthorized(reason: AuthFailure)
    | InvalidSessionId
    | AuthServiceUnavailable
    | ValidationError(fields: seq<Field>)
    | NotFound

  /** The reply of a successful login. */
  datatype LoginResult = LoginResult(user: User, sessionToken: string, expiresAt: Time)
}
