/** A player posting to the league chat: the invite code, the user id, the
    display name and the content are read as trimmed text and checked in a
    fixed order, and only the first failing check is reported. The two store
    calls are given as their results. */
module ChatSend {
  import opened JsValues
  import opened Http

  /** The environment the handler requires, in the order it reads it. */
  datatype ChatEnv = ChatEnv(inviteCode: Env, supabaseUrl: Env, serviceRoleKey: Env)

  /** The four trimmed fields. */
  datatype Fields = Fields(code: string, uid: string, name: string, msg: string)

  /** A `chat_messages` row. */
  datatype MessageRow = MessageRow(leagueId: JsValue, userId: string, displayName: string, content: string)

  /** `{ ok: true, id, createdAt }`; undefined when the insert returns no row. */
  datatype Posted = Posted(id: JsValue, createdAt: JsValue)

  datatype Verdict = Pass | Reject(status: int, error: string)

  const MaxContent := 2000

  function FieldsOf(reqBody: JsValue): (f: Fields)
    ensures var body := Or(reqBody, JObject(map[]));
      && f.code == TrimmedText(Field(body, "leagueCode")) && f.uid == TrimmedText(Field(body, "userId"))
      && f.name == TrimmedText(Field(body, "displayName")) && f.msg == TrimmedText(Field(body, "content"))
  {
    var body := Or(reqBody, JObject(map[]));
    Fields(TrimmedText(Field(body, "leagueCode")), TrimmedText(Field(body, "userId")),
           TrimmedText(Field(body, "displayName")), TrimmedText(Field(body, "content")))
  }

  /** The checks in source order; each verdict holds exactly when all the
      earlier checks pass and its own fails. */
  function CheckFields(f: Fields, expected: string): (v: Verdict)
    ensures v == Reject(401, "Invalid league code") <==> f.code == "" || f.code != expected
    ensures v == Reject(400, "Missing userId") <==>
      !(f.code == "" || f.code != expected) && f.uid == ""
    ensures v == Reject(400, "Invalid displayName") <==>
      !(f.code == "" || f.code != expected) && f.uid != "" && Utf16Length(f.name) < 2
    ensures v == Reject(400, "Missing content") <==>
      !(f.code == "" || f.code != expected) && f.uid != "" && Utf16Length(f.name) >= 2 && f.msg == ""
    ensures v == Reject(400, "content too long (max 2000)") <==>
      !(f.code == "" || f.code != expected) && f.uid != "" && Utf16Length(f.name) >= 2 && f.msg != ""
      && Utf16Length(f.msg) > MaxContent
    ensures v == Pass <==>
      f.code != "" && f.code == expected && f.uid != "" && Utf16Length(f.name) >= 2
      && f.msg != "" && Utf16Length(f.msg) <= MaxContent
  {
    if f.code == "" || f.code != expected then Reject(401, "Invalid league code")
    else if f.uid == "" then Reject(400, "Missing userId")
    else if Utf16Length(f.name) < 2 then Reject(400, "Invalid displayName")
    else if f.msg == "" then Reject(400, "Missing content")
    else if Utf16Length(f.msg) > MaxContent then Reject(400, "content too long (max 2000)")
    else Pass
  }

  /** The response and the row sent to the insert, when it gets that far. */
  datatype Handled = Handled(resp: Response<Posted>, insert: Option<MessageRow>)

  /** One request. `league` is the first league row by creation date, whose
      `id` the message stores (None when there is none), `inserted` what the insert returns. A thrown error or a
      store error is caught and answered with 500 and its message. */
  function HandleChatSend(verb: string, env: ChatEnv, reqBody: JsValue,
                          league: StoreResult<Option<LeagueRow>>, inserted: StoreResult<Option<Posted>>): (h: Handled)
    ensures verb != "POST" ==> h == Handled(Fail(405, MethodNotAllowed), None)
    ensures verb == "POST" && RequireEnv("LNJP_INVITE_CODE", env.inviteCode).None? ==>
      h == Handled(Fail(500, MissingEnv("LNJP_INVITE_CODE").message), None)
    ensures verb == "POST" && RequireEnv("LNJP_INVITE_CODE", env.inviteCode).Some? ==>
      var v := CheckFields(FieldsOf(reqBody), env.inviteCode.value);
      v.Reject? ==> h == Handled(Fail(v.status, v.error), None)
    ensures h.insert.Some? ==>
      && verb == "POST" && RequireEnv("LNJP_INVITE_CODE", env.inviteCode).Some?
      && CheckFields(FieldsOf(reqBody), env.inviteCode.value) == Pass
      && league.Stored? && league.value.Some?
      && var f := FieldsOf(reqBody);
         h.insert.value == MessageRow(league.value.value.id, f.uid, f.name, f.msg)
    ensures h.resp.Ok? <==> h.insert.Some? && inserted.Stored?
    ensures h.resp.Ok? ==> h.resp.data == (if inserted.value.Some? then inserted.value.value else Posted(JUndefined, JUndefined))
  {
    if verb != "POST" then Handled(Fail(405, MethodNotAllowed), None)
    else if RequireEnv("LNJP_INVITE_CODE", env.inviteCode).None? then
      Handled(Fail(500, MissingEnv("LNJP_INVITE_CODE").message), None)
    else
      var f := FieldsOf(reqBody);
      var v := CheckFields(f, env.inviteCode.value);
      if v.Reject? then Handled(Fail(v.status, v.error), None)
      else if RequireEnv("SUPABASE_URL", env.supabaseUrl).None? then
        Handled(Fail(500, MissingEnv("SUPABASE_URL").message), None)
      else if RequireEnv("SUPABASE_SERVICE_ROLE_KEY", env.serviceRoleKey).None? then
        Handled(Fail(500, MissingEnv("SUPABASE_SERVICE_ROLE_KEY").message), None)
      else if league.StoreError? then Handled(Fail(500, league.message), None)
      else if league.value.None? then Handled(Fail(500, "No league found (seed leagues first)"), None)
      else
        var row := MessageRow(league.value.value.id, f.uid, f.name, f.msg);
        if inserted.StoreError? then Handled(Fail(500, inserted.message), Some(row))
        else Handled(Ok(if inserted.value.Some? then inserted.value.value else Posted(JUndefined, JUndefined)), Some(row))
  }

  /** The request is a POST, the invite code is configured and every field
      check passes: the handler goes on to the store. */
  predicate ReachesStore(verb: string, env: ChatEnv, reqBody: JsValue)
  {
    verb == "POST" && RequireEnv("LNJP_INVITE_CODE", env.inviteCode).Some?
    && CheckFields(FieldsOf(reqBody), env.inviteCode.value) == Pass
  }

  /** Past the field checks, each later step fails with its own 500 and
      nothing is inserted, in order: the store URL, the service key, the league
      lookup's error, no league at all. With all of them in place the message
      row goes to the insert, and the insert's error is the response's. */
  lemma HandleChatSendAfterChecks(verb: string, env: ChatEnv, reqBody: JsValue,
                                  league: StoreResult<Option<LeagueRow>>, inserted: StoreResult<Option<Posted>>)
    requires ReachesStore(verb, env, reqBody)
    ensures var h := HandleChatSend(verb, env, reqBody, league, inserted);
      RequireEnv("SUPABASE_URL", env.supabaseUrl).None? ==>
        h == Handled(Fail(500, MissingEnv("SUPABASE_URL").message), None)
    ensures var h := HandleChatSend(verb, env, reqBody, league, inserted);
      RequireEnv("SUPABASE_URL", env.supabaseUrl).Some?
      && RequireEnv("SUPABASE_SERVICE_ROLE_KEY", env.serviceRoleKey).None? ==>
        h == Handled(Fail(500, MissingEnv("SUPABASE_SERVICE_ROLE_KEY").message), None)
    ensures var h := HandleChatSend(verb, env, reqBody, league, inserted);
      RequireEnv("SUPABASE_URL", env.supabaseUrl).Some?
      && RequireEnv("SUPABASE_SERVICE_ROLE_KEY", env.serviceRoleKey).Some? ==>
        && (league.StoreError? ==> h == Handled(Fail(500, league.message), None))
        && (league.Stored? && league.value.None? ==>
              h == Handled(Fail(500, "No league found (seed leagues first)"), None))
    ensures var h := HandleChatSend(verb, env, reqBody, league, inserted);
      var f := FieldsOf(reqBody);
      RequireEnv("SUPABASE_URL", env.supabaseUrl).Some?
      && RequireEnv("SUPABASE_SERVICE_ROLE_KEY", env.serviceRoleKey).Some?
      && league.Stored? && league.value.Some? ==>
        && h.insert == Some(MessageRow(league.value.value.id, f.uid, f.name, f.msg))
        && (inserted.StoreError? ==> h.resp == Fail(500, inserted.message))
        && (inserted.Stored? ==> h.resp.Ok?)
  {
    var h := HandleChatSend(verb, env, reqBody, league, inserted);
    var f := FieldsOf(reqBody);
    assert CheckFields(f, env.inviteCode.value) == Pass;
    if RequireEnv("SUPABASE_URL", env.supabaseUrl).None? {
      assert h == Handled(Fail(500, MissingEnv("SUPABASE_URL").message), None);
    } else if RequireEnv("SUPABASE_SERVICE_ROLE_KEY", env.serviceRoleKey).None? {
      assert h == Handled(Fail(500, MissingEnv("SUPABASE_SERVICE_ROLE_KEY").message), None);
    } else if league.StoreError? {
      assert h == Handled(Fail(500, league.message), None);
    } else if league.value.None? {
      assert h == Handled(Fail(500, "No league found (seed leagues first)"), None);
    } else {
      assert h.insert == Some(MessageRow(league.value.value.id, f.uid, f.name, f.msg));
    }
  }

  /** What is stored is already trimmed, a non-empty user id, a display name of
      at least two code units, and content of 1 to 2000 code units. */
  lemma StoredRowIsClean(verb: string, env: ChatEnv, reqBody: JsValue,
                         league: StoreResult<Option<LeagueRow>>, inserted: StoreResult<Option<Posted>>)
    requires HandleChatSend(verb, env, reqBody, league, inserted).insert.Some?
    ensures var row := HandleChatSend(verb, env, reqBody, league, inserted).insert.value;
      && Trim(row.userId) == row.userId && row.userId != ""
      && Trim(row.displayName) == row.displayName && Utf16Length(row.displayName) >= 2
      && Trim(row.content) == row.content && 1 <= Utf16Length(row.content) <= MaxContent
  {
    var f := FieldsOf(reqBody);
    assert CheckFields(f, env.inviteCode.value) == Pass;
  }

  /** Content of exactly 2000 characters of the Basic Multilingual Plane passes
      the length check; one more does not. */
  lemma ContentLimit(code: string, uid: string, name: string, msg: string)
    requires code != "" && uid != "" && Utf16Length(name) >= 2
    requires |msg| >= MaxContent && forall i :: 0 <= i < |msg| ==> msg[i] as int < 0x1_0000
    ensures CheckFields(Fields(code, uid, name, msg), code) == Pass <==> |msg| == MaxContent
  {
  }
}
