/** The `protect` middleware: read a token from the Authorization header,
    verify it, look its admin up, and either call the next handler with
    `req.admin` set or answer 401. JSON Web Token verification is an oracle
    `verify` returning the signed claims of a well-formed, correctly signed
    token; expiry is checked against `now` as the library does. */
module AuthMiddleware {
  import opened Js
  import opened Table
  import opened AuthController

  /** The token `protect` takes from the header, if any: the header must
      start with "Bearer", and the token is its second space-separated word;
      an empty word is no token. */
  function ExtractToken(header: Option<string>): (r: Option<string>)
    ensures r.Some? ==> r.value != "" && ' ' !in r.value
    ensures r.Some? ==> header.Some? && StartsWith(header.value, "Bearer")
  {
    if header.None? || !StartsWith(header.value, "Bearer") then None
    else
      var words := Split(header.value, ' ');
      if |words| > 1 && words[1] != "" then Some(words[1]) else None
  }

  /** The four ways `protect` can end. */
  datatype Decision = NoToken | TokenFailed | AdminNotFound | Pass(admin: Profile)

  /** Whether `jwt.verify` accepts the token at time `now`. */
  function Verified(token: string, now: int, verify: string -> Option<Claims>): Option<Claims> {
    match verify(token)
    case None => None
    case Some(c) => if now < c.exp then Some(c) else None
  }

  /** `protect` as a decision over the header and the admin collection. */
  function Decide(header: Option<string>, admins: seq<Admin>, now: int, verify: string -> Option<Claims>): Decision {
    match ExtractToken(header)
    case None => NoToken
    case Some(token) =>
      match Verified(token, now, verify)
      case None => TokenFailed
      case Some(c) =>
        match GetProfile(admins, c.id)
        case None => AdminNotFound
        case Some(p) => Pass(p)
  }

  /** The 401 message of each refusal. */
  function Message(d: Decision): string
    requires !d.Pass?
  {
    match d
    case NoToken => "Not authorized, no token provided"
    case TokenFailed => "Not authorized, token failed"
    case AdminNotFound => "Not authorized, admin not found"
  }

  // ------------------------------------------------------------------ properties

  /** A header of the form "Bearer " + token gives back that token when the
      token is a single non-empty word. */
  lemma BearerHeaderGivesToken(token: string)
    requires token != "" && ' ' !in token
    ensures ExtractToken(Some("Bearer " + token)) == Some(token)
  {
    var h := "Bearer " + token;
    assert h == "Bearer" + [' '] + token;
    assert ' ' !in "Bearer";
    SplitAtSep("Bearer", token, ' ');
    SplitNoSep(token, ' ');
    assert h[..6] == "Bearer";
  }

  /** No header, a header not starting with "Bearer", or a "Bearer" header
      whose second space-separated word is missing or empty is "no token
      provided"; among these are "Bearer", "Bearer " and "Bearer  x". */
  lemma MissingTokenIsRefused(header: Option<string>, admins: seq<Admin>, now: int, verify: string -> Option<Claims>)
    requires || header.None?
             || !StartsWith(header.value, "Bearer")
             || |Split(header.value, ' ')| < 2 || Split(header.value, ' ')[1] == ""
             || header.value == "Bearer"
             || (|header.value| >= 7 && header.value[..7] == "Bearer "
                 && (|header.value| == 7 || header.value[7] == ' '))
    ensures Decide(header, admins, now, verify) == NoToken
  {
    if header.Some? && StartsWith(header.value, "Bearer") {
      var h := header.value;
      if h == "Bearer" {
        SplitNoSep("Bearer", ' ');
      } else if |h| >= 7 && h[..7] == "Bearer " && (|h| == 7 || h[7] == ' ') {
        var rest := h[7..];
        assert h == "Bearer" + [' '] + rest;
        assert ' ' !in "Bearer";
        SplitAtSep("Bearer", rest, ' ');
        assert Split(rest, ' ')[0] == "";
      }
    }
  }

  /** A token that fails verification or has expired is "token failed";
      a verified token whose admin is gone is "admin not found"; a verified
      token of a stored admin passes with that admin's profile. */
  lemma DecisionFollowsToken(token: string, admins: seq<Admin>, now: int, verify: string -> Option<Claims>)
    requires token != "" && ' ' !in token
    ensures var d := Decide(Some("Bearer " + token), admins, now, verify);
      && (d == TokenFailed <==> verify(token).None? || now >= verify(token).value.exp)
      && (d == AdminNotFound <==> verify(token).Some? && now < verify(token).value.exp && !HasId(admins, verify(token).value.id, AdminId))
      && (d.Pass? ==> d.admin == GetProfile(admins, verify(token).value.id).value)
      && (d != NoToken)
  {
    BearerHeaderGivesToken(token);
  }

  /** A token issued by register or login passes `protect` for 30 days, as
      long as the library verifies what it signed and the admin is stored. */
  lemma IssuedTokenPasses(a: Admin, admins: seq<Admin>, issued: int, now: int,
                          sign: Claims -> string, verify: string -> Option<Claims>)
    requires a in admins
    requires verify(sign(TokenClaims(a.id, issued))) == Some(TokenClaims(a.id, issued))
    requires sign(TokenClaims(a.id, issued)) != "" && ' ' !in sign(TokenClaims(a.id, issued))
    ensures var d := Decide(Some("Bearer " + SessionFor(a, issued, sign).token), admins, now, verify);
      (d.Pass? <==> now < issued + 2592000) && (d.Pass? ==> d.admin.id == a.id)
  {
    BearerHeaderGivesToken(sign(TokenClaims(a.id, issued)));
    var k :| 0 <= k < |admins| && admins[k] == a;
    assert HasId(admins, a.id, AdminId);
  }

  // ------------------------------------------------------------------ the exchange

  /** One request through `protect`: the header it carries, `req.admin`, the
      401 response if one was written, and whether `next()` was called. */
  class Exchange {
    const authorization: Option<string>
    var admin: Option<Option<Profile>>
    var refusal: Option<string>
    var nextCalled: bool

    constructor (header: Option<string>)
      ensures authorization == header && admin.None? && refusal.None? && !nextCalled
    {
      authorization := header;
      admin := None;
      refusal := None;
      nextCalled := false;
    }

    /** Runs `protect`: `next()` is called exactly on success, with
      `req.admin` set to the profile; otherwise exactly one 401 is written. */
    method Protect(admins: seq<Admin>, now: int, verify: string -> Option<Claims>)
      requires admin.None? && refusal.None? && !nextCalled
      modifies this
      ensures var d := Decide(authorization, admins, now, verify);
        && (nextCalled <==> d.Pass?)
        && (nextCalled ==> admin == Some(Some(d.admin)) && refusal.None?)
        && (!nextCalled ==> refusal == Some(Message(d)))
        && (d == AdminNotFound ==> admin == Some(None))
        && (d == NoToken || d == TokenFailed ==> admin.None?)
    {
      var token: Option<string> := None;
      if authorization.Some? && StartsWith(authorization.value, "Bearer") {
        var words := Split(authorization.value, ' ');
        if |words| > 1 && words[1] != "" {
          token := Some(words[1]);
        }
      }
      if token.None? {
        refusal := Some("Not authorized, no token provided");
        return;
      }
      var decoded := verify(token.value);
      if decoded.None? || now >= decoded.value.exp {
        refusal := Some("Not authorized, token failed");
        return;
      }
      admin := Some(GetProfile(admins, decoded.value.id));
      if admin.value.None? {
        refusal := Some("Not authorized, admin not found");
        return;
      }
      nextCalled := true;
    }
  }
}
