/** The administrator posting to the league chat. The token is the
    `authorization` header after an exact, case-sensitive "Bearer " prefix;
    the content is trimmed and bounded. The store calls are given as their
    results. */
module AdminChat {
  import opened JsValues
  import opened Http

  const BearerSpace := "Bearer "

  /** `auth.startsWith("Bearer ") ? auth.slice(7) : ""` */
  function StripBearer(auth: string): (token: string)
    ensures |auth| >= 7 && auth[..7] == BearerSpace ==> BearerSpace + token == auth
    ensures !(|auth| >= 7 && auth[..7] == BearerSpace) ==> token == ""
  {
    if |auth| >= 7 && auth[..7] == BearerSpace then auth[7..] else ""
  }

  /** Prefixing and stripping are inverse: the header carries the token back. */
  lemma StripBearerOfPrefixed(t: string)
    ensures StripBearer(BearerSpace + t) == t
  {
    assert (BearerSpace + t)[..7] == BearerSpace;
    assert (BearerSpace + t)[7..] == t;
  }

  /** Unlike the other admin endpoints, a lower-case scheme is refused. */
  lemma LowerCaseSchemeRefused(t: string)
    ensures StripBearer("bearer " + t) == ""
  {
    assert ("bearer " + t)[0] == 'b';
  }

  /** `!token || token !== process.env.ADMIN_TOKEN`; an unset variable is
      undefined, which no string equals. */
  function Authorized(authorization: Option<string>, adminToken: Env): (ok: bool)
    ensures ok ==> adminToken.Some? && adminToken.value != ""
    ensures authorization.None? ==> !ok
  {
    var token := StripBearer(if authorization.Some? then authorization.value else "");
    token != "" && adminToken == Some(token)
  }

  /** A header `Bearer <ADMIN_TOKEN>` passes exactly when the variable is set
      and non-empty. */
  lemma SecretHeaderPasses(secret: string)
    ensures Authorized(Some(BearerSpace + secret), Some(secret)) <==> secret != ""
    ensures !Authorized(Some(BearerSpace + secret), None)
  {
    StripBearerOfPrefixed(secret);
  }

  /** The `profiles` row upserted for the technical admin user. */
  datatype ProfileRow = ProfileRow(id: string, displayName: string, role: string)

  /** A `messages` row. */
  datatype MessageRow = MessageRow(leagueId: JsValue, userId: string, content: string)

  datatype Call = UpsertProfile(profile: ProfileRow) | InsertMessage(message: MessageRow)

  datatype Posted = Posted(leagueId: JsValue, messageId: JsValue, createdAt: JsValue)

  datatype Handled = Handled(resp: Response<Posted>, calls: seq<Call>)

  /** `String(body.content || "").trim()` of `req.body || {}`. */
  function Content(reqBody: JsValue): (c: string)
    ensures Trim(c) == c
    ensures !Truthy(Field(Or(reqBody, JObject(map[])), "content")) ==> c == ""
  {
    TrimmedText(Field(Or(reqBody, JObject(map[])), "content"))
  }

  /** `process.env.ADMIN_CHAT_DISPLAY_NAME || "Admin LNJP"` */
  function AdminName(displayName: Env): (name: string)
    ensures name != ""
    ensures displayName.Some? && displayName.value != "" ==> name == displayName.value
  {
    if displayName.Some? && displayName.value != "" then displayName.value else "Admin LNJP"
  }

  /** One request. `league` is the first league row by creation date, whose
      `id` the message stores (None when there is none), `profileError` the error of the profile upsert,
      `inserted` the id and creation time of the new message (None when the
      insert returns no row). */
  function HandleAdminChat(verb: string, authorization: Option<string>, adminToken: Env, reqBody: JsValue,
                           league: StoreResult<Option<LeagueRow>>, adminUserId: Env, displayName: Env,
                           profileError: Option<string>, inserted: StoreResult<Option<(JsValue, JsValue)>>): (h: Handled)
    ensures verb != "POST" ==> h == Handled(Fail(405, MethodNotAllowed), [])
    ensures verb == "POST" && !Authorized(authorization, adminToken) ==> h == Handled(Fail(401, "Unauthorized"), [])
    ensures verb == "POST" && Authorized(authorization, adminToken) ==>
      var msg := Content(reqBody);
      && (msg == "" ==> h == Handled(Fail(400, "content is required"), []))
      && (msg != "" && Utf16Length(msg) > 2000 ==> h == Handled(Fail(400, "content too long (max 2000)"), []))
    ensures h.resp.Ok? ==>
      var msg := Content(reqBody);
      && verb == "POST" && Authorized(authorization, adminToken)
      && msg != "" && Utf16Length(msg) <= 2000
      && league.Stored? && league.value.Some? && adminUserId.Some? && adminUserId.value != ""
      && h.calls == [UpsertProfile(ProfileRow(adminUserId.value, AdminName(displayName), "admin")),
                     InsertMessage(MessageRow(league.value.value.id, adminUserId.value, msg))]
      && h.resp.data.leagueId == league.value.value.id
    ensures |h.calls| <= 2 && (h.calls != [] ==> h.calls[0].UpsertProfile?)
    ensures |h.calls| == 2 ==> h.calls[1].InsertMessage?
  {
    if verb != "POST" then Handled(Fail(405, MethodNotAllowed), [])
    else if !Authorized(authorization, adminToken) then Handled(Fail(401, "Unauthorized"), [])
    else
      var msg := Content(reqBody);
      if msg == "" then Handled(Fail(400, "content is required"), [])
      else if Utf16Length(msg) > 2000 then Handled(Fail(400, "content too long (max 2000)"), [])
      else if league.StoreError? then Handled(Fail(500, league.message), [])
      else if league.value.None? then Handled(Fail(500, "No league found (seed leagues first)"), [])
      else if adminUserId.None? || adminUserId.value == "" then Handled(Fail(500, "Missing ADMIN_CHAT_USER_ID env var"), [])
      else
        var profile := UpsertProfile(ProfileRow(adminUserId.value, AdminName(displayName), "admin"));
        if profileError.Some? then Handled(Fail(500, profileError.value), [profile])
        else
          var calls := [profile, InsertMessage(MessageRow(league.value.value.id, adminUserId.value, msg))];
          match inserted
          case StoreError(m) => Handled(Fail(500, m), calls)
          case Stored(row) =>
            var posted := if row.Some? then Posted(league.value.value.id, row.value.0, row.value.1)
                          else Posted(league.value.value.id, JUndefined, JUndefined);
            Handled(Ok(posted), calls)
  }

  /** The request is an authorized POST with content of 1 to 2000 code units:
      the handler goes on to the store. */
  predicate ReachesStore(verb: string, authorization: Option<string>, adminToken: Env, reqBody: JsValue)
  {
    verb == "POST" && Authorized(authorization, adminToken)
    && Content(reqBody) != "" && Utf16Length(Content(reqBody)) <= 2000
  }

  /** Past the content checks, each later step fails with its own 500, in
      order, with the calls made so far: the league lookup's error and no
      league at all (no call), an unset admin user (no call), the upsert's
      error (the upsert alone), the insert's error (both calls). When all
      succeed the response carries the league id and the new message's id and
      creation time, both undefined when the insert returns no row. */
  lemma HandleAdminChatAfterChecks(verb: string, authorization: Option<string>, adminToken: Env, reqBody: JsValue,
                                   league: StoreResult<Option<LeagueRow>>, adminUserId: Env, displayName: Env,
                                   profileError: Option<string>, inserted: StoreResult<Option<(JsValue, JsValue)>>)
    requires ReachesStore(verb, authorization, adminToken, reqBody)
    ensures var h := HandleAdminChat(verb, authorization, adminToken, reqBody, league, adminUserId, displayName,
                                     profileError, inserted);
      && (league.StoreError? ==> h == Handled(Fail(500, league.message), []))
      && (league.Stored? && league.value.None? ==>
            h == Handled(Fail(500, "No league found (seed leagues first)"), []))
    ensures var h := HandleAdminChat(verb, authorization, adminToken, reqBody, league, adminUserId, displayName,
                                     profileError, inserted);
      league.Stored? && league.value.Some? && (adminUserId.None? || adminUserId.value == "") ==>
        h == Handled(Fail(500, "Missing ADMIN_CHAT_USER_ID env var"), [])
    ensures var h := HandleAdminChat(verb, authorization, adminToken, reqBody, league, adminUserId, displayName,
                                     profileError, inserted);
      league.Stored? && league.value.Some? && adminUserId.Some? && adminUserId.value != "" ==>
        var profile := UpsertProfile(ProfileRow(adminUserId.value, AdminName(displayName), "admin"));
        && (profileError.Some? ==> h == Handled(Fail(500, profileError.value), [profile]))
        && (profileError.None? ==>
              h.calls == [profile, InsertMessage(MessageRow(league.value.value.id, adminUserId.value, Content(reqBody)))])
    ensures var h := HandleAdminChat(verb, authorization, adminToken, reqBody, league, adminUserId, displayName,
                                     profileError, inserted);
      league.Stored? && league.value.Some? && adminUserId.Some? && adminUserId.value != "" && profileError.None? ==>
        && (inserted.StoreError? ==> h.resp == Fail(500, inserted.message))
        && (inserted.Stored? && inserted.value.Some? ==>
              h.resp == Ok(Posted(league.value.value.id, inserted.value.value.0, inserted.value.value.1)))
        && (inserted.Stored? && inserted.value.None? ==>
              h.resp == Ok(Posted(league.value.value.id, JUndefined, JUndefined)))
  {
    var h := HandleAdminChat(verb, authorization, adminToken, reqBody, league, adminUserId, displayName,
                             profileError, inserted);
    var msg := Content(reqBody);
    assert msg != "" && Utf16Length(msg) <= 2000;
    if league.StoreError? {
      assert h == Handled(Fail(500, league.message), []);
    } else if league.value.None? {
      assert h == Handled(Fail(500, "No league found (seed leagues first)"), []);
    } else if adminUserId.None? || adminUserId.value == "" {
      assert h == Handled(Fail(500, "Missing ADMIN_CHAT_USER_ID env var"), []);
    } else {
      var profile := UpsertProfile(ProfileRow(adminUserId.value, AdminName(displayName), "admin"));
      if profileError.Some? {
        assert h == Handled(Fail(500, profileError.value), [profile]);
      } else {
        assert h.calls == [profile, InsertMessage(MessageRow(league.value.value.id, adminUserId.value, msg))];
      }
    }
  }
}
