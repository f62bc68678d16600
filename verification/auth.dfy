/**
 The guard chain in front of the protected routes: the token gate
 (`verifyToken`), the role gate (`verifyAdmin`) and the self-only admin check
 of `GET /users/admin/:email`.

 Signature and expiry checking belong to the JWT library; the model receives
 it as an abstract `Verifier` from token text to the decoded claims.
 */
module Auth {
  import opened Wrappers
  import opened Store

  /** The decoded JWT payload: whatever identity the login page signed. */
  datatype Claims = Claims(email: string, role: Option<string>)

  /** Signature and expiry check of a non-empty token against the server secret. */
  type Verifier = string -> Option<Claims>

  datatype Denial = Unauthorized | Forbidden

  /**
   What a route answers: a body, a 401/403 refusal, or a rejected store call
   that the async handler leaves unhandled, so that no reply is sent.
   */
  datatype Response<T> = Ok(body: T) | Denied(denial: Denial) | ServerError

  /** The outcome of one middleware: pass control on with the claims, or refuse. */
  datatype Gate = Admit(claims: Claims) | Deny(denial: Denial)

  const Space: char := ' '
  const AdminRole: string := "admin"

  /** JavaScript's `s.split(sep)` for a one-character separator. */
  function Split(s: string, sep: char): (parts: seq<string>)
    ensures |parts| >= 1
    ensures forall k :: 0 <= k < |parts| ==> sep !in parts[k]
    ensures |parts| > 1 <==> sep in s
    decreases |s|
  {
    if |s| == 0 then [""]
    else
      var rest := Split(s[1..], sep);
      if s[0] == sep then [""] + rest
      else
        assert sep in s[1..] ==> sep in s;
        [[s[0]] + rest[0]] + rest[1..]
  }

  /** JavaScript's `parts.join(sep)`. */
  function Join(parts: seq<string>, sep: char): string
  {
    if |parts| == 0 then ""
    else if |parts| == 1 then parts[0]
    else parts[0] + [sep] + Join(parts[1..], sep)
  }

  /** Splitting loses nothing: joining the parts back gives the original text. */
  lemma {:induction false} JoinSplit(s: string, sep: char)
    ensures Join(Split(s, sep), sep) == s
    decreases |s|
  {
    if |s| > 0 {
      var rest := Split(s[1..], sep);
      JoinSplit(s[1..], sep);
      if s[0] == sep {
        assert Split(s, sep) == [""] + rest;
        assert ([""] + rest)[1..] == rest;
      } else if |rest| == 1 {
        assert Split(s, sep) == [[s[0]] + rest[0]];
      } else {
        var parts := Split(s, sep);
        assert parts == [[s[0]] + rest[0]] + rest[1..];
        assert parts[1..] == rest[1..];
        assert Join(rest, sep) == rest[0] + [sep] + Join(rest[1..], sep);
      }
    }
  }

  lemma {:induction false} SplitWithoutSeparator(s: string, sep: char)
    requires sep !in s
    ensures Split(s, sep) == [s]
    decreases |s|
  {
    if |s| > 0 {
      SplitWithoutSeparator(s[1..], sep);
      assert [s[0]] + s[1..] == s;
    }
  }

  lemma {:induction false} SplitAtFirstSeparator(a: string, b: string, sep: char)
    requires sep !in a
    ensures Split(a + [sep] + b, sep) == [a] + Split(b, sep)
    decreases |a|
  {
    var s := a + [sep] + b;
    if |a| == 0 {
      assert s[1..] == b;
    } else {
      assert s[1..] == a[1..] + [sep] + b;
      SplitAtFirstSeparator(a[1..], b, sep);
      assert [a[0]] + a[1..] == a;
    }
  }

  /** `authorization.split(" ")[1]`: the text between the first and second space, if any. */
  function BearerToken(header: string): (t: Option<string>)
    ensures t.Some? <==> Space in header
    ensures t.Some? ==> Space !in t.value
  {
    var parts := Split(header, Space);
    if |parts| > 1 then Some(parts[1]) else None
  }

  /**
   A header `<scheme> <token>`, possibly followed by more space-separated
   text, yields exactly the token.
   */
  lemma BearerRoundTrip(scheme: string, token: string, rest: string)
    requires Space !in scheme && Space !in token
    requires rest == "" || rest[0] == Space
    ensures BearerToken(scheme + [Space] + token + rest) == Some(token)
  {
    assert scheme + [Space] + token + rest == scheme + [Space] + (token + rest);
    SplitAtFirstSeparator(scheme, token + rest, Space);
    if rest == "" {
      assert token + rest == token;
      SplitWithoutSeparator(token, Space);
    } else {
      assert token + rest == token + [Space] + rest[1..];
      SplitAtFirstSeparator(token, rest[1..], Space);
    }
  }

  /**
   The token is the text after the first space up to the next space or the
   end of the header; every header containing a space has exactly one such
   pair of positions `i < j`.
   */
  lemma BearerTokenBetweenSpaces(header: string, i: nat, j: nat)
    requires i < j <= |header| && header[i] == Space
    requires Space !in header[..i] && Space !in header[i + 1..j]
    requires j == |header| || header[j] == Space
    ensures BearerToken(header) == Some(header[i + 1..j])
  {
    assert header == header[..i] + [Space] + header[i + 1..j] + header[j..];
    BearerRoundTrip(header[..i], header[i + 1..j], header[j..]);
  }

  /**
   `jwt.verify`: an undefined or empty token is refused by the library before
   the signature is looked at; any other token goes to the verifier.
   */
  function JwtVerify(token: Option<string>, verify: Verifier): Option<Claims>
  {
    match token
    case None => None
    case Some(t) => if t == "" then None else verify(t)
  }

  /** An undefined or empty token is refused whatever the verifier would have said. */
  lemma AbsentTokenNeverVerifies(token: Option<string>, verify: Verifier, other: Verifier)
    requires token.None? || token == Some("")
    ensures JwtVerify(token, verify) == JwtVerify(token, other) == None
  {
  }

  /** `!req.headers.authorization`: the header is absent or the empty string. */
  predicate HeaderMissing(authorization: Option<string>) {
    authorization.None? || authorization == Some("")
  }

  /** The token gate `verifyToken`. */
  function VerifyToken(authorization: Option<string>, verify: Verifier): (g: Gate)
    ensures g.Deny? ==> g.denial == Unauthorized
    ensures HeaderMissing(authorization) ==> g.Deny?
    ensures g.Admit? ==>
      && authorization.Some?
      && BearerToken(authorization.value).Some?
      && BearerToken(authorization.value).value != ""
      && verify(BearerToken(authorization.value).value) == Some(g.claims)
    ensures
      && !HeaderMissing(authorization)
      && BearerToken(authorization.value).Some?
      && BearerToken(authorization.value).value != ""
      && verify(BearerToken(authorization.value).value).Some?
      ==> g == Admit(verify(BearerToken(authorization.value).value).value)
  {
    if HeaderMissing(authorization) then Deny(Unauthorized)
    else
      match JwtVerify(BearerToken(authorization.value), verify)
      case None => Deny(Unauthorized)
      case Some(decoded) => Admit(decoded)
  }

  /** Without a header the answer is 401 whatever the verifier would have said. */
  lemma MissingHeaderNeverVerifies(authorization: Option<string>, verify: Verifier, other: Verifier)
    requires HeaderMissing(authorization)
    ensures VerifyToken(authorization, verify) == VerifyToken(authorization, other) == Deny(Unauthorized)
  {
  }

  /**
   A header `Bearer <token>`, with or without trailing space-separated text,
   admits exactly the claims the verifier decodes from the token.
   */
  lemma BearerHeaderGate(scheme: string, token: string, rest: string, verify: Verifier)
    requires Space !in scheme && Space !in token && token != ""
    requires rest == "" || rest[0] == Space
    ensures verify(token).None? ==> VerifyToken(Some(scheme + [Space] + token + rest), verify) == Deny(Unauthorized)
    ensures verify(token).Some? ==> VerifyToken(Some(scheme + [Space] + token + rest), verify) == Admit(verify(token).value)
  {
    BearerRoundTrip(scheme, token, rest);
  }

  /** `user?.role === "admin"` for a user `findOne` may not have found. */
  predicate IsAdmin(user: Option<Doc<UserBody>>) {
    user.Some? && user.value.body.role == Some(AdminRole)
  }

  /** The stored user `findOne({ email })` returns, if any. */
  function StoredUser(users: seq<Doc<UserBody>>, email: string): (u: Option<Doc<UserBody>>)
    ensures u.Some? <==> EmailRegistered(users, email)
    ensures u.Some? ==> u.value.body.email == email
    ensures u.Some? ==> exists i :: (0 <= i < |users| && users[i] == u.value
      && forall j :: 0 <= j < i ==> users[j].body.email != email)
  {
    match FindUserByEmail(users, email)
    case None => None
    case Some(i) => Some(users[i])
  }

  /**
   The first stored user with this email is an admin: what the role gate and
   the self-admin check ask of the store.
   */
  ghost predicate FirstUserIsAdmin(users: seq<Doc<UserBody>>, email: string) {
    exists i :: 0 <= i < |users| && users[i].body.email == email && users[i].body.role == Some(AdminRole)
      && forall j :: 0 <= j < i ==> users[j].body.email != email
  }

  lemma StoredUserIsAdmin(users: seq<Doc<UserBody>>, email: string)
    ensures IsAdmin(StoredUser(users, email)) <==> FirstUserIsAdmin(users, email)
  {
  }

  /**
   The role gate `verifyAdmin`: the role is re-read from the store by the
   token's email; the claims' own role is never consulted.
   */
  function VerifyAdmin(users: seq<Doc<UserBody>>, claims: Claims): (g: Gate)
    ensures g.Admit? ==> g.claims == claims
    ensures g.Deny? ==> g.denial == Forbidden
    ensures g.Admit? <==> FirstUserIsAdmin(users, claims.email)
    ensures !EmailRegistered(users, claims.email) ==> g.Deny?
  {
    StoredUserIsAdmin(users, claims.email);
    if IsAdmin(StoredUser(users, claims.email)) then Admit(claims) else Deny(Forbidden)
  }

  /** When emails are unique the role gate admits exactly the users stored as admins. */
  lemma AdminGateUniqueEmails(users: seq<Doc<UserBody>>, claims: Claims)
    requires UniqueEmails(users)
    ensures VerifyAdmin(users, claims).Admit? <==>
      exists i :: 0 <= i < |users| && users[i].body.email == claims.email && users[i].body.role == Some(AdminRole)
  {
  }

  /** A role written into the token changes nothing: the gate sees only the stored role. */
  lemma AdminGateIgnoresClaimedRole(users: seq<Doc<UserBody>>, claims: Claims, claimedRole: Option<string>)
    ensures VerifyAdmin(users, claims.(role := claimedRole)).Admit? == VerifyAdmin(users, claims).Admit?
  {
  }

  /**
   The self-only check of `GET /users/admin/:email`, run after the token gate:
   403 for somebody else's email, otherwise whether the stored user is an admin.
   */
  function AdminFlag(users: seq<Doc<UserBody>>, claims: Claims, pathEmail: string): (r: Response<bool>)
    ensures pathEmail != claims.email ==> r == Denied(Forbidden)
    ensures pathEmail == claims.email ==> r.Ok? && (r.body <==> FirstUserIsAdmin(users, pathEmail))
    ensures pathEmail == claims.email && !EmailRegistered(users, pathEmail) ==> r == Ok(false)
  {
    StoredUserIsAdmin(users, pathEmail);
    if pathEmail != claims.email then Denied(Forbidden)
    else
      var user := StoredUser(users, pathEmail);
      var admin := if user.Some? then user.value.body.role == Some(AdminRole) else false;
      Ok(admin)
  }

  /** The self-admin check and the role gate agree on the caller's own email. */
  lemma AdminFlagMatchesGate(users: seq<Doc<UserBody>>, claims: Claims)
    ensures AdminFlag(users, claims, claims.email) == Ok(VerifyAdmin(users, claims).Admit?)
  {
  }
}
