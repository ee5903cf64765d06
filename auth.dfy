/** The authorization gate `authorize(roles)` of the server's middleware: bearer-token extraction,
    verification (an abstract partial function) and the role check. */
module AuthMiddleware {
  import opened Common

  /** The claims a verified token decodes to. A token without a `role` claim has role None. */
  datatype Claims = Claims(id: int, name: string, email: string, cluster: string, role: Option<string>)

  /** `s.split(sep)` of JavaScript: the pieces between separators, empty pieces included. */
  function Split(s: string, sep: char): (r: seq<string>)
    ensures |r| >= 1
    ensures forall k :: 0 <= k < |r| ==> sep !in r[k]
    decreases |s|
  {
    if s == [] then [""]
    else if s[0] == sep then [""] + Split(s[1..], sep)
    else
      var rest := Split(s[1..], sep);
      [[s[0]] + rest[0]] + rest[1..]
  }

  /** `parts.join(sep)`, the inverse of Split. */
  function Join(parts: seq<string>, sep: char): string
    requires |parts| >= 1
    decreases |parts|
  {
    if |parts| == 1 then parts[0] else parts[0] + [sep] + Join(parts[1..], sep)
  }

  /** Splitting and joining again gives back the header. */
  lemma {:induction false} JoinSplit(s: string, sep: char)
    ensures Join(Split(s, sep), sep) == s
    decreases |s|
  {
    if s == [] {
    } else if s[0] == sep {
      JoinSplit(s[1..], sep);
      var rest := Split(s[1..], sep);
      assert Split(s, sep) == [""] + rest;
      assert ([""] + rest)[1..] == rest;
    } else {
      JoinSplit(s[1..], sep);
      var rest := Split(s[1..], sep);
      var parts := [[s[0]] + rest[0]] + rest[1..];
      assert parts[1..] == rest[1..];
      if |rest| == 1 {
        assert Join(rest, sep) == rest[0];
      } else {
        assert Join(rest, sep) == rest[0] + [sep] + Join(rest[1..], sep);
      }
    }
  }

  /** A piece free of the separator followed by the separator splits off as the first part. */
  lemma {:induction false} SplitAfterPiece(p: string, q: string, sep: char)
    requires sep !in p
    ensures Split(p + [sep] + q, sep) == [p] + Split(q, sep)
    decreases |p|
  {
    if p == [] {
      assert p + [sep] + q == [sep] + q;
      assert ([sep] + q)[1..] == q;
    } else {
      var s := p + [sep] + q;
      assert s[0] == p[0] && s[1..] == p[1..] + [sep] + q;
      SplitAfterPiece(p[1..], q, sep);
      assert [p[0]] + p[1..] == p;
    }
  }

  lemma {:induction false} SplitNoSeparator(t: string, sep: char)
    requires sep !in t
    ensures Split(t, sep) == [t]
    decreases |t|
  {
    if t != [] {
      SplitNoSeparator(t[1..], sep);
      assert [t[0]] + t[1..] == t;
    }
  }

  /** `req.headers.authorization && req.headers.authorization.split(' ')[1]`, as present-and-truthy:
      a missing or empty header, a header without a second part, or an empty second part gives None. */
  function TokenOf(authorization: Option<string>): (r: Option<string>)
    ensures r.Some? ==> r.value != "" && ' ' !in r.value
    ensures r.Some? <==> authorization.Some? && |Split(authorization.value, ' ')| >= 2
                         && Split(authorization.value, ' ')[1] != ""
    ensures r.Some? ==> r.value == Split(authorization.value, ' ')[1]
  {
    if authorization.None? || authorization.value == "" then None
    else
      var parts := Split(authorization.value, ' ');
      if |parts| >= 2 && parts[1] != "" then Some(parts[1]) else None
  }

  /** The header the views send, `Bearer ${token}`, yields exactly that token. */
  lemma BearerToken(t: string)
    requires t != "" && ' ' !in t
    ensures TokenOf(Some("Bearer " + t)) == Some(t)
  {
    SplitAfterPiece("Bearer", t, ' ');
    assert "Bearer" + [' '] + t == "Bearer " + t;
    SplitNoSeparator(t, ' ');
  }

  /** The outcome of the gate: pass on to the handler, or respond with a status and a message. */
  datatype Decision = Allow(user: Claims) | Deny(status: nat, message: string)

  /** `roles && !roles.includes(role)`: a missing role list admits everyone; a present one, even
      empty, admits only the roles it lists, and never a token without a role. */
  predicate Permitted(roles: Option<seq<string>>, role: Option<string>)
  {
    roles.None? || (role.Some? && role.value in roles.value)
  }

  /** The allow/401/403 decision of `authorize(roles)` for one request. */
  function Decide(roles: Option<seq<string>>, authorization: Option<string>,
                  verify: string -> Option<Claims>): (d: Decision)
    ensures TokenOf(authorization).None? ==> d == Deny(401, "Access denied, no token provided")
    ensures TokenOf(authorization).Some? && verify(TokenOf(authorization).value).None?
            ==> d == Deny(401, "Invalid token")
    ensures TokenOf(authorization).Some? && verify(TokenOf(authorization).value).Some?
            && !Permitted(roles, verify(TokenOf(authorization).value).value.role)
            ==> d == Deny(403, "Access denied, insufficient permissions")
    ensures d.Allow? <==> TokenOf(authorization).Some? && verify(TokenOf(authorization).value).Some?
                          && Permitted(roles, verify(TokenOf(authorization).value).value.role)
    ensures d.Allow? ==> d.user == verify(TokenOf(authorization).value).value
  {
    match TokenOf(authorization)
    case None => Deny(401, "Access denied, no token provided")
    case Some(token) =>
      match verify(token)
      case None => Deny(401, "Invalid token")
      case Some(decoded) =>
        if Permitted(roles, decoded.role) then Allow(decoded)
        else Deny(403, "Access denied, insufficient permissions")
  }

  /** Without a role list every verified token passes; with one the gate has no role hierarchy. */
  lemma NoRoleListAdmitsVerified(authorization: Option<string>, verify: string -> Option<Claims>)
    requires TokenOf(authorization).Some? && verify(TokenOf(authorization).value).Some?
    ensures Decide(None, authorization, verify).Allow?
    ensures Decide(Some([]), authorization, verify)
            == Deny(403, "Access denied, insufficient permissions")
  {
  }

  /** The request object the middleware sees; `user` is the field it assigns. */
  class HttpRequest {
    var authorization: Option<string>
    var user: Option<Claims>

    constructor (authorization: Option<string>)
      ensures this.authorization == authorization && user == None
    {
      this.authorization := authorization;
      user := None;
    }
  }

  /** The middleware itself: on a verified token it assigns `req.user` before the role check,
      then either calls next or responds. */
  method Authorize(roles: Option<seq<string>>, req: HttpRequest, verify: string -> Option<Claims>)
    returns (nextCalled: bool, status: nat, message: string)
    modifies req`user
    ensures var d := Decide(roles, old(req.authorization), verify);
            && nextCalled == d.Allow?
            && (d.Deny? ==> status == d.status && message == d.message)
    ensures var t := TokenOf(req.authorization);
            req.user == if t.Some? && verify(t.value).Some? then verify(t.value) else old(req.user)
  {
    nextCalled, status, message := false, 0, "";
    var token := TokenOf(req.authorization);
    if token.None? {
      status, message := 401, "Access denied, no token provided";
      return;
    }
    var decoded := verify(token.value);
    if decoded.None? {
      status, message := 401, "Invalid token";
      return;
    }
    req.user := decoded;
    if !Permitted(roles, req.user.value.role) {
      status, message := 403, "Access denied, insufficient permissions";
      return;
    }
    nextCalled := true;
  }
}
