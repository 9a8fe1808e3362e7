/**
 * The bearer-token gate in front of protected routes. The token is read from
 * the `Authorization` header; verifying it (`jwt.verify` with the server's
 * secret) is a function given by the caller, since the signature check is not
 * part of this model.
 */
module AuthMiddleware {
  import opened Wrappers
  import opened JsStrings

  /** The `id` claim of a token payload: absent, a number or a string. */
  datatype IdClaim = NoId | NumberId(n: int) | StringId(s: string)

  /** What `jwt.verify` returns: a string payload or a JSON object payload. */
  datatype Decoded = StringPayload(text: string) | ObjectPayload(id: IdClaim)

  const UNAUTHORIZED := "Unauthorized"
  const INVALID_TOKEN := "Invalid token"

  /** `header?.split(' ')[1]`, with `!token` (absent or empty) as `None`. */
  function TokenOf(header: Option<string>): (token: Option<string>)
    ensures token.Some? ==> token.value != [] && ' ' !in token.value
    ensures token.Some? ==> header.Some? && |Split(header.value, ' ')| >= 2
  {
    match header
    case None => None
    case Some(h) =>
      var words := Split(h, ' ');
      if |words| < 2 || words[1] == "" then None else Some(words[1])
  }

  /**
   * The token is the second space-separated word: any first word is
   * accepted as the scheme, whatever follows a further space is ignored.
   */
  lemma {:induction false} TokenIsSecondWord(scheme: string, token: string, rest: seq<string>)
    requires ' ' !in scheme && ' ' !in token && token != []
    requires forall i :: 0 <= i < |rest| ==> ' ' !in rest[i]
    ensures TokenOf(Some(Join([scheme, token] + rest, ' '))) == Some(token)
  {
    var words := [scheme, token] + rest;
    SplitJoin(words, ' ');
  }

  /** A header made of one word (no space at all) carries no token. */
  lemma {:induction false} OneWordHasNoToken(header: string)
    requires ' ' !in header
    ensures TokenOf(Some(header)) == None
  {
    SplitNoSeparator(header, ' ');
  }

  /**
   * An empty second word (`"Bearer "`, or two spaces after the scheme) is no
   * token: `!token` holds and the request is answered 401 "Unauthorized",
   * even when a non-empty word follows.
   */
  lemma {:induction false} EmptySecondWordHasNoToken(scheme: string, rest: seq<string>)
    requires ' ' !in scheme
    requires forall i :: 0 <= i < |rest| ==> ' ' !in rest[i]
    ensures TokenOf(Some(Join([scheme, ""] + rest, ' '))) == None
  {
    var words := [scheme, ""] + rest;
    SplitJoin(words, ' ');
  }

  datatype Decision = Reject(message: string) | Accept(user: Decoded)

  /** The decision of the middleware: 401 "Unauthorized", 401 "Invalid token", or pass on. */
  function Decide(header: Option<string>, verify: string -> Option<Decoded>): (d: Decision)
    ensures d == Reject(UNAUTHORIZED) <==> TokenOf(header).None?
    ensures d == Reject(INVALID_TOKEN) <==> TokenOf(header).Some? && verify(TokenOf(header).value).None?
    ensures d.Accept? <==> TokenOf(header).Some? && verify(TokenOf(header).value).Some?
    ensures d.Accept? ==> d.user == verify(TokenOf(header).value).value
  {
    match TokenOf(header)
    case None => Reject(UNAUTHORIZED)
    case Some(token) =>
      match verify(token)
      case None => Reject(INVALID_TOKEN)
      case Some(decoded) => Accept(decoded)
  }

  /** One request/response pair as the middleware sees it. */
  class Exchange {
    var authorization: Option<string>
    var user: Option<Decoded>
    var status: Option<int>
    var message: Option<string>
    var nextCalls: nat

    constructor (authorization: Option<string>)
      ensures this.authorization == authorization
      ensures user == None && status == None && message == None && nextCalls == 0
    {
      this.authorization := authorization;
      user := None;
      status := None;
      message := None;
      nextCalls := 0;
    }

    /**
     * `authMiddleware(req, res, next)`: on acceptance `req.user` is the
     * decoded payload and `next` is called once; otherwise the response is
     * 401 with the message and `next` is not called.
     */
    method Run(verify: string -> Option<Decoded>)
      modifies this
      ensures authorization == old(authorization)
      ensures match Decide(authorization, verify)
        case Accept(decoded) =>
          user == Some(decoded) && nextCalls == old(nextCalls) + 1
          && status == old(status) && message == old(message)
        case Reject(text) =>
          user == old(user) && nextCalls == old(nextCalls)
          && status == Some(401) && message == Some(text)
    {
      var token := TokenOf(authorization);
      if token.None? {
        status, message := Some(401), Some(UNAUTHORIZED);
        return;
      }
      var decoded := verify(token.value);
      if decoded.None? {
        status, message := Some(401), Some(INVALID_TOKEN);
        return;
      }
      user := decoded;
      nextCalls := nextCalls + 1;
    }
  }
}
