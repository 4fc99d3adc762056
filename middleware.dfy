/**
 * The authentication middleware: where the access token comes from, and
 * the user it puts in the request context for the wallet handlers.
 */
module Middleware {
  import opened Wrappers
  import opened Models
  import opened Strings
  import opened LedgerStore

  const StatusUnauthorized := 401

  /** The JSON body the middleware writes. */
  datatype JsonResponse = JsonResponse(success: bool, message: string)

  /** The user the wallet handlers read from the request context. */
  datatype ContextUser = ContextUser(id: Uuid, walletId: Uuid)

  /** Either the request is answered here, or it goes on with the context user. */
  datatype Outcome =
    | Reject(status: int, body: JsonResponse)
    | Pass(user: ContextUser)

  const Unauthorized: Outcome := Reject(StatusUnauthorized, JsonResponse(false, "unauthorized"))

  /**
   * The token of a request: the `ssid` cookie when it is not empty
   * (`cookie` is "" when the cookie is absent), otherwise the second
   * word of an `Authorization: Bearer <token>` header.
   */
  function ExtractToken(cookie: string, header: string): Option<string>
  {
    if cookie != "" then Some(cookie)
    else if header == "" then None
    else
      var parts := Split(header, ' ');
      if |parts| != 2 || parts[0] != "Bearer" then None
      else if parts[1] == "" then None
      else Some(parts[1])
  }

  /**
   * A token is found exactly when the cookie holds it, or there is no
   * cookie and the header is "Bearer " followed by a non-empty token
   * without spaces.
   */
  lemma ExtractTokenIff(cookie: string, header: string, t: string)
    ensures ExtractToken(cookie, header) == Some(t) <==>
              (cookie != "" && t == cookie)
              || (cookie == "" && header == "Bearer " + t && t != "" && ' ' !in t)
  {
    if cookie != "" {
      return;
    }
    if header == "Bearer " + t && t != "" && ' ' !in t {
      assert header == "Bearer" + [' '] + t;
      SplitFirst("Bearer", ' ', t);
      SplitWhole(t, ' ');
    }
    if ExtractToken(cookie, header) == Some(t) {
      var parts := Split(header, ' ');
      SplitJoin(header, ' ');
      SplitPartsFree(header, ' ');
      assert parts[1..][1..] == [];
      assert Join(parts, [' ']) == parts[0] + [' '] + Join(parts[1..], [' ']);
      assert Join(parts[1..], [' ']) == parts[1];
      assert ' ' !in parts[1];
    }
  }

  /**
   * The whole middleware. `parseToken` checks the signature and expiry of
   * a token and yields its user-id claim; `parseUuid` parses that claim.
   * The user must exist and own a wallet; `failing` names the lookups the
   * database fails.
   */
  function Authenticate(cookie: string, header: string, parseToken: string -> Option<string>,
                        parseUuid: string -> Option<Uuid>, s: StoreState, failing: set<Step>): (r: Outcome)
    ensures r.Reject? ==> r == Unauthorized
    ensures r.Pass? <==>
              && ExtractToken(cookie, header).Some?
              && parseToken(ExtractToken(cookie, header).value).Some?
              && parseUuid(parseToken(ExtractToken(cookie, header).value).value).Some?
              && FindUser !in failing && FindWallet !in failing
              && parseUuid(parseToken(ExtractToken(cookie, header).value).value).value in UserIds(s)
              && parseUuid(parseToken(ExtractToken(cookie, header).value).value).value in s.walletOf
    ensures r.Pass? ==> r.user.id == parseUuid(parseToken(ExtractToken(cookie, header).value).value).value
    ensures r.Pass? ==> r.user.id in UserIds(s) && r.user.id in s.walletOf && r.user.walletId == s.walletOf[r.user.id]
  {
    match ExtractToken(cookie, header)
    case None => Unauthorized
    case Some(token) =>
      match parseToken(token)
      case None => Unauthorized
      case Some(claim) =>
        match parseUuid(claim)
        case None => Unauthorized
        case Some(id) =>
          if FindUser in failing || id !in UserIds(s) then Unauthorized
          else if FindWallet in failing || id !in s.walletOf then Unauthorized
          else Pass(ContextUser(id, s.walletOf[id]))
  }

  /** The scheme is matched case-sensitively. */
  lemma LowercaseSchemeRejected()
    ensures ExtractToken("", "bearer abc") == None
  {
    assert "bearer abc" == "bearer" + [' '] + "abc";
    SplitFirst("bearer", ' ', "abc");
    SplitWhole("abc", ' ');
  }

  /** A token containing a space splits into more than two words. */
  lemma SpacedTokenRejected()
    ensures ExtractToken("", "Bearer a b") == None
  {
    assert "Bearer a b" == "Bearer" + [' '] + "a b";
    assert "a b" == "a" + [' '] + "b";
    SplitFirst("Bearer", ' ', "a b");
    SplitFirst("a", ' ', "b");
    SplitWhole("b", ' ');
  }

  /** "Bearer " with nothing after it yields the empty token, which is refused. */
  lemma EmptyBearerRejected()
    ensures ExtractToken("", "Bearer ") == None
  {
    assert "Bearer " == "Bearer" + [' '] + "";
    SplitFirst("Bearer", ' ', "");
  }

  /** The cookie wins over the header, and a well-formed header is read when there is no cookie. */
  lemma CookieThenHeader()
    ensures ExtractToken("c1", "Bearer abc") == Some("c1")
    ensures ExtractToken("", "Bearer abc") == Some("abc")
    ensures ExtractToken("", "") == None
  {
    assert "Bearer abc" == "Bearer" + [' '] + "abc";
    SplitFirst("Bearer", ' ', "abc");
    SplitWhole("abc", ' ');
  }
}
