/** The admin token check shared by the day-save endpoint and the admin router:
    the token comes from `x-admin-token`, or else from an `Authorization: Bearer`
    header (RFC 6750 section 2.1), and must equal the configured secret. */
module AdminAuth {
  import opened JsValues
  import opened Http

  /** The two request headers the check reads; an absent header is undefined. */
  datatype Headers = Headers(xAdminToken: JsValue, authorization: JsValue)

  const DefaultAdminToken := "lnjp_super_admin_2025_secret_token"

  /** `c` matches the letter `lower` under the regular expression's /i flag, which
      (without the u flag) only folds ASCII letters. */
  predicate FoldsTo(c: char, lower: char)
    requires 'a' <= lower <= 'z'
  {
    c == lower || c as int == lower as int - 32
  }

  /** The first six characters spell "Bearer" in any letter case. */
  predicate BearerPrefix(s: string)
  {
    |s| >= 6 && FoldsTo(s[0], 'b') && FoldsTo(s[1], 'e') && FoldsTo(s[2], 'a')
    && FoldsTo(s[3], 'r') && FoldsTo(s[4], 'e') && FoldsTo(s[5], 'r')
  }

  predicate NoLineTerminator(t: string)
  {
    forall i :: 0 <= i < |t| ==> !IsLineTerminator(t[i])
  }

  /** Reference reading of /^Bearer\s+(.+)$/i: the whitespace run after the prefix
      has length `j`, and `.+` takes everything after it up to the end. */
  ghost predicate BearerSplit(s: string, j: int)
  {
    && BearerPrefix(s)
    && 1 <= j && 6 + j < |s|
    && (forall i :: 6 <= i < 6 + j ==> IsWhitespace(s[i]))
    && NoLineTerminator(s[6 + j..])
  }

  /** The backtracking of the regular expression engine: greedy `\s+` first took
      `j` characters; give one back at a time until `(.+)$` matches the rest. */
  function Backtrack(w: string, j: nat): (r: Option<nat>)
    requires j <= |w|
    ensures r.Some? ==> 1 <= r.value <= j && r.value < |w| && NoLineTerminator(w[r.value..])
    ensures r.Some? ==> forall j' :: r.value < j' <= j && j' < |w| ==> !NoLineTerminator(w[j'..])
    ensures r.None? ==> forall j' :: 1 <= j' <= j && j' < |w| ==> !NoLineTerminator(w[j'..])
    decreases j
  {
    if j == 0 then None
    else if j < |w| && NoLineTerminator(w[j..]) then Some(j)
    else Backtrack(w, j - 1)
  }

  /** The capture of /^Bearer\s+(.+)$/i, None when it does not match. */
  function BearerMatch(s: string): (r: Option<string>)
    ensures r.Some? ==> r.value != ""
  {
    if !BearerPrefix(s) then None
    else
      var w := s[6..];
      match Backtrack(w, LeadingWhitespace(w))
      case Some(j) => Some(w[j..])
      case None => None
  }

  /** The match succeeds exactly when the reference reading has a split; the
      capture is what follows the longest whitespace run that leaves a match. */
  lemma {:induction false} BearerMatchIsRegex(s: string)
    ensures BearerMatch(s).None? <==> forall j :: !BearerSplit(s, j)
    ensures BearerMatch(s).Some? ==> exists j :: BearerSplit(s, j) && BearerMatch(s).value == s[6 + j..]
                                                 && forall j' :: BearerSplit(s, j') ==> j' <= j
  {
    if BearerPrefix(s) {
      var w := s[6..];
      var k := LeadingWhitespace(w);
      forall j | BearerSplit(s, j) ensures j <= k && j < |w| && NoLineTerminator(w[j..]) {
        assert s[6 + j..] == w[j..];
      }
      match Backtrack(w, k)
      case Some(j) => {
        assert s[6 + j..] == w[j..];
        assert BearerSplit(s, j);
      }
      case None =>
    }
  }

  /** The usual header shape: the prefix in any case, one space, then a token
      that starts with no whitespace and holds no line break. */
  lemma BearerSingleSpace(p: string, t: string)
    requires |p| == 6 && BearerPrefix(p)
    requires t != [] && !IsWhitespace(t[0]) && NoLineTerminator(t)
    ensures BearerMatch(p + " " + t) == Some(t)
  {
    var s := p + " " + t;
    var w := s[6..];
    assert w == " " + t;
    assert w[1..] == t;
    assert LeadingWhitespace(w) == 1 by {
      assert IsWhitespace(w[0]) && !IsWhitespace(w[1]);
    }
  }

  /** `String(req.headers.authorization || "")` */
  function AuthorizationText(h: Headers): string
  {
    ToStr(Or(h.authorization, JStr("")))
  }

  /** readAdminToken: a truthy `x-admin-token` wins; otherwise the Bearer
      capture of `authorization`, or "" when there is none. */
  function ReadAdminToken(h: Headers): (token: string)
    ensures Truthy(h.xAdminToken) ==> token == ToStr(h.xAdminToken)
  {
    if Truthy(h.xAdminToken) then ToStr(h.xAdminToken)
    else
      var m := BearerMatch(AuthorizationText(h));
      if m.Some? then m.value else ""
  }

  /** Without `x-admin-token`, the token is empty exactly when the header does not
      match the pattern, and otherwise is the text after the longest whitespace
      run that still lets the pattern match. */
  lemma ReadAdminTokenIsRegex(h: Headers)
    requires !Truthy(h.xAdminToken)
    ensures ReadAdminToken(h) != "" <==> exists j :: BearerSplit(AuthorizationText(h), j)
    ensures forall j :: BearerSplit(AuthorizationText(h), j) && (forall j' :: BearerSplit(AuthorizationText(h), j') ==> j' <= j) ==>
                     ReadAdminToken(h) == AuthorizationText(h)[6 + j..]
  {
    var auth := AuthorizationText(h);
    BearerMatchIsRegex(auth);
    var m := BearerMatch(auth);
    assert ReadAdminToken(h) == if m.Some? then m.value else "";
    if m.Some? {
      var j0 :| BearerSplit(auth, j0) && m.value == auth[6 + j0..] && forall j' :: BearerSplit(auth, j') ==> j' <= j0;
      assert ReadAdminToken(h) != "";
      forall j | BearerSplit(auth, j) && (forall j' :: BearerSplit(auth, j') ==> j' <= j)
        ensures ReadAdminToken(h) == auth[6 + j..]
      {
        assert j0 <= j && j <= j0;
      }
    } else {
      assert forall j :: !BearerSplit(auth, j);
    }
  }

  /** `process.env.ADMIN_TOKEN || <built-in secret>`. */
  function ExpectedAdminToken(env: Env): (e: string)
    ensures e != ""
    ensures env.Some? && env.value != "" ==> e == env.value
  {
    if env.Some? && env.value != "" then env.value else DefaultAdminToken
  }

  /** assertAdmin: None when the request may proceed, otherwise the 401 error it throws. */
  function AssertAdmin(h: Headers, env: Env): (err: Option<Thrown>)
    ensures err.None? <==> ReadAdminToken(h) != "" && ReadAdminToken(h) == ExpectedAdminToken(env)
    ensures err.Some? ==> CaughtStatus(err.value) == 401
  {
    var token := ReadAdminToken(h);
    if token == "" || token != ExpectedAdminToken(env) then
      Some(Thrown(Some(401), "Unauthorized (admin token invalid)"))
    else None
  }

  /** With no `x-admin-token`, a well-formed Bearer header carrying the secret passes. */
  lemma BearerSecretPasses(p: string, env: Env)
    requires |p| == 6 && BearerPrefix(p)
    ensures var secret := ExpectedAdminToken(env);
      (!IsWhitespace(secret[0]) && NoLineTerminator(secret)) ==>
      AssertAdmin(Headers(JUndefined, JStr(p + " " + secret)), env).None?
  {
    var secret := ExpectedAdminToken(env);
    if !IsWhitespace(secret[0]) && NoLineTerminator(secret) {
      var auth := p + " " + secret;
      BearerSingleSpace(p, secret);
      var h := Headers(JUndefined, JStr(auth));
      assert AuthorizationText(h) == auth by {
        assert Or(JStr(auth), JStr("")) == JStr(auth);
      }
      assert ReadAdminToken(h) == secret;
    }
  }
}
