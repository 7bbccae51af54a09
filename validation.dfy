/** The two field validators of `VaultLink` and the construction of a link from a request. */
module Validation {
  import opened Results
  import opened Records

  /** `validate_url`: a bare, case-sensitive "http" prefix check; the value is kept as given. */
  function ValidateUrl(v: string): (r: Result<string, Field>)
    ensures r.Success? <==> |v| >= 4 && v[0] == 'h' && v[1] == 't' && v[2] == 't' && v[3] == 'p'
    ensures r.Success? ==> r.value == v
    ensures r.Failure? ==> r.error == Url
  {
    if UrlPrefix <= v then Success(v) else Failure(Url)
  }

  /** `validate_access_level`: membership in the fixed three-value set; the value is kept as given. */
  function ValidateAccessLevel(v: string): (r: Result<string, Field>)
    ensures r.Success? <==> v == "Restricted" || v == "Anyone with link" || v == "Public"
    ensures r.Success? ==> r.value == v
    ensures r.Failure? ==> r.error == AccessLevel
  {
    if v in AccessLevels then Success(v) else Failure(AccessLevel)
  }

  /** A link both validators accept. */
  predicate WellFormed(l: VaultLink)
  {
    ValidateUrl(l.url).Success? && ValidateAccessLevel(l.accessLevel).Success?
  }

  /** The access level a create request asks for, after `VaultLinkCreate`'s default. */
  function RequestedLevel(req: LinkRequest): string
  {
    match req.accessLevel
    case None => DefaultAccessLevel
    case Some(level) => level
  }

  /**
   * `VaultLink(user_id=..., url=..., name=..., access_level=...)`: the record with a fresh id and
   * the creation time, or the list of the fields that failed, in declaration order (the record
   * constructor runs every validator and reports all failures together).
   */
  function BuildLink(id: string, userId: string, req: LinkRequest, now: Time): (r: Result<VaultLink, seq<Field>>)
    ensures r.Success? <==> ValidateUrl(req.url).Success? && ValidateAccessLevel(RequestedLevel(req)).Success?
    ensures r.Success? ==> r.value == VaultLink(id, userId, req.url, req.name, RequestedLevel(req), now)
    ensures r.Success? ==> WellFormed(r.value)
    ensures r.Failure? ==> 1 <= |r.error| <= 2
    ensures r.Failure? ==> |r.error| == (if ValidateUrl(req.url).Failure? then 1 else 0)
                                      + (if ValidateAccessLevel(RequestedLevel(req)).Failure? then 1 else 0)
    ensures r.Failure? ==> (Url in r.error <==> ValidateUrl(req.url).Failure?)
    ensures r.Failure? ==> (AccessLevel in r.error <==> ValidateAccessLevel(RequestedLevel(req)).Failure?)
    ensures r.Failure? && Url in r.error ==> r.error[0] == Url
  {
    var level := RequestedLevel(req);
    var urlErrors := match ValidateUrl(req.url) case Success(_) => [] case Failure(f) => [f];
    var levelErrors := match ValidateAccessLevel(level) case Success(_) => [] case Failure(f) => [f];
    if urlErrors + levelErrors == [] then
      Success(VaultLink(id, userId, req.url, req.name, level, now))
    else
      Failure(urlErrors + levelErrors)
  }

  /** The url rule is a bare prefix test: "httpfoo" passes, while upper case and other schemes do not. */
  lemma UrlPrefixEdgeCases()
    ensures ValidateUrl("httpfoo") == Success("httpfoo")
    ensures ValidateUrl("https://example.com") == Success("https://example.com")
    ensures ValidateUrl("HTTP://example.com") == Failure(Url)
    ensures ValidateUrl("ftp://example.com") == Failure(Url)
    ensures ValidateUrl("") == Failure(Url)
  {
  }

  /** A request that names no access level gets "Restricted", which the validator accepts. */
  lemma DefaultLevelAccepted(id: string, userId: string, url: string, name: string, now: Time)
    requires ValidateUrl(url).Success?
    ensures BuildLink(id, userId, LinkRequest(url, name, None), now)
         == Success(VaultLink(id, userId, url, name, "Restricted", now))
  {
  }
}
