/** The single admin endpoint: an `action` query parameter picks one of the
    admin handlers, and one catch turns anything they throw into a JSON error.
    Modelled here: the router, the "days-save" handler with its day_matches
    link rows, and the "admin-notify" handler with its counting loop. */
module AdminIndex {
  import opened JsValues
  import opened Http
  import opened AdminAuth
  import opened PushTransport
  import AdminNotify

  // ---------------------------------------------------------------------------
  // router

  datatype Action = DaysList | DaysSave | FootballFl1Upcoming | AdminNotifyAction | AdminChat | Unknown

  /** The query parameter's name for each known action. */
  function NameOf(a: Action): (n: string)
    requires !a.Unknown?
    ensures n != ""
  {
    match a
    case DaysList => "days-list"
    case DaysSave => "days-save"
    case FootballFl1Upcoming => "football-fl1-upcoming"
    case AdminNotifyAction => "admin-notify"
    case AdminChat => "admin-chat"
  }

  /** `getAction(req)` and the switch over it. `param` is the query's `action`
      value, None when it is absent or the URL does not parse; both read as "". */
  function RouteOf(param: Option<string>): (a: Action)
    ensures param.None? || param == Some("") ==> a.Unknown?
  {
    var action := if param.Some? then param.value else "";
    if action == "days-list" then DaysList
    else if action == "days-save" then DaysSave
    else if action == "football-fl1-upcoming" then FootballFl1Upcoming
    else if action == "admin-notify" then AdminNotifyAction
    else if action == "admin-chat" then AdminChat
    else Unknown
  }

  /** Each action is reached by its own name and by no other: the router's
      switch is exactly the table of names. */
  lemma RouteOfName(a: Action, param: Option<string>)
    requires !a.Unknown?
    ensures RouteOf(Some(NameOf(a))) == a
    ensures RouteOf(param) == a <==> param == Some(NameOf(a))
  {
  }

  /** The answer once the action is known and its handler has run (or thrown):
      404 for an unknown action, the handler's own answer, or the caught error
      with its `statusCode`, 500 when it has none. */
  function Respond<T>(a: Action, run: Outcome<T>): (r: Response<T>)
    ensures a.Unknown? ==> r == Fail(404, "Unknown admin action")
    ensures !a.Unknown? && run.Returned? ==> r == run.resp
    ensures !a.Unknown? && run.Threw? ==> r.Fail? && r.error == run.e.message
    ensures !a.Unknown? && run.Threw? && run.e.statusCode.Some? && run.e.statusCode.value != 0 ==>
      r.status == run.e.statusCode.value
    ensures !a.Unknown? && run.Threw? && run.e.statusCode.None? ==> r.status == 500
  {
    if a.Unknown? then Fail(404, "Unknown admin action") else Finish(run)
  }

  /** An admin-token failure inside any known action reaches the client as 401. */
  lemma AdminFailureIs401<T>(a: Action, h: Headers, env: Env)
    requires !a.Unknown? && AssertAdmin(h, env).Some?
    ensures var r: Response<T> := Respond(a, Threw(AssertAdmin(h, env).value)); r.Fail? && r.status == 401
  {
  }

  // ---------------------------------------------------------------------------
  // days-save

  /** The `days` row upserted on (competition_code, matchday). */
  datatype DayRow = DayRow(sport: string, competitionCode: string, matchday: JsValue, title: string,
                           deadlineAt: JsValue, featuredMatchExternalId: JsValue, status: string,
                           createdBy: JsValue)

  /** The extra columns of a link built from a match object. */
  datatype LinkDetails = LinkDetails(utcDate: JsValue, status: JsValue,
                                     homeTeamId: JsValue, homeTeamName: JsValue, homeTeamCrest: JsValue,
                                     awayTeamId: JsValue, awayTeamName: JsValue, awayTeamCrest: JsValue)

  /** A `day_matches` row; a bare numeric match id carries no details. */
  datatype LinkRow = LinkRow(dayId: JsValue, externalMatchId: Num, details: Option<LinkDetails>, isFeatured: bool)

  /** The guards of the handler, in order, and what an accepted body gives. */
  datatype SaveGate =
    | Answer(run: Outcome<JsValue>)
    | Accept(row: DayRow, matches: seq<JsValue>, featured: Num)

  /** `Ligue 1 — Journée ${matchday}` */
  function TitleOf(matchday: JsValue): string
  {
    "Ligue 1 \U{2014} Journ\U{00E9}e " + ToStr(matchday)
  }

  function CheckDaysSave(verb: string, h: Headers, env: Env, reqBody: JsValue): (g: SaveGate)
    ensures verb != "POST" ==> g == Answer(Returned(Fail(405, MethodNotAllowed)))
    ensures verb == "POST" && AssertAdmin(h, env).Some? ==> g == Answer(Threw(AssertAdmin(h, env).value))
    ensures verb == "POST" && AssertAdmin(h, env).None? ==>
      var body := Or(reqBody, JObject(map[]));
      var valid := Truthy(Field(body, "matchday")) && Truthy(Field(body, "deadlineAt"))
                   && Truthy(Field(body, "featuredExternalMatchId")) && Field(body, "matches").JArray?;
      && (!valid <==> g == Answer(Returned(Fail(400, "Invalid payload"))))
      && (valid <==> g.Accept?)
    ensures g.Accept? ==>
      var body := Or(reqBody, JObject(map[]));
      && g.row == DayRow("football", "FL1", Field(body, "matchday"), TitleOf(Field(body, "matchday")),
                         Field(body, "deadlineAt"), Field(body, "featuredExternalMatchId"), "DRAFT",
                         Or(Field(body, "adminId"), JStr("admin_system")))
      && g.matches == Field(body, "matches").items
      && g.featured == ToNumber(Field(body, "featuredExternalMatchId"))
  {
    if verb != "POST" then Answer(Returned(Fail(405, MethodNotAllowed)))
    else if AssertAdmin(h, env).Some? then Answer(Threw(AssertAdmin(h, env).value))
    else
      var body := Or(reqBody, JObject(map[]));
      var matchday := Field(body, "matchday");
      var deadlineAt := Field(body, "deadlineAt");
      var featured := Field(body, "featuredExternalMatchId");
      var matches := Field(body, "matches");
      if !Truthy(matchday) || !Truthy(deadlineAt) || !Truthy(featured) || !matches.JArray? then
        Answer(Returned(Fail(400, "Invalid payload")))
      else
        Accept(DayRow("football", "FL1", matchday, TitleOf(matchday), deadlineAt, featured, "DRAFT",
                      Or(Field(body, "adminId"), JStr("admin_system"))),
               matches.items, ToNumber(featured))
  }

  /** The row for one element of `matches`: a number is the match id itself, an
      object names it in `externalMatchId` and brings its details. Reading a
      property of null or undefined throws (None). */
  function LinkOf(m: JsValue, dayId: JsValue, featured: Num): (r: Option<LinkRow>)
    ensures r.None? <==> IsNullish(m)
    ensures r.Some? ==> r.value.dayId == dayId && r.value.isFeatured == StrictEq(r.value.externalMatchId, featured)
    ensures m.JNum? ==> r == Some(LinkRow(dayId, m.n, None, StrictEq(m.n, featured)))
    ensures r.Some? && !m.JNum? ==>
      r.value.externalMatchId == ToNumber(Field(m, "externalMatchId")) && r.value.details.Some?
  {
    if IsNullish(m) then None
    else if m.JNum? then Some(LinkRow(dayId, m.n, None, StrictEq(m.n, featured)))
    else
      var id := ToNumber(Field(m, "externalMatchId"));
      var home := Field(m, "homeTeam");
      var away := Field(m, "awayTeam");
      var details := LinkDetails(Or(Field(m, "utcDate"), JNull), Or(Field(m, "status"), JNull),
                                 Coalesce(OptField(home, "id"), JNull), Coalesce(OptField(home, "name"), JNull),
                                 Coalesce(OptField(home, "crest"), JNull),
                                 Coalesce(OptField(away, "id"), JNull), Coalesce(OptField(away, "name"), JNull),
                                 Coalesce(OptField(away, "crest"), JNull));
      Some(LinkRow(dayId, id, Some(details), StrictEq(id, featured)))
  }

  /** `matches.map(...)`: all the rows, or the first null or undefined element,
      on which the map throws. */
  datatype Built = Rows(rows: seq<LinkRow>) | NullElement(value: JsValue)

  function LinkRows(ms: seq<JsValue>, dayId: JsValue, featured: Num): (r: Built)
    ensures r.NullElement? <==> exists i :: 0 <= i < |ms| && IsNullish(ms[i])
    ensures r.NullElement? ==> IsNullish(r.value)
    ensures r.Rows? ==> |r.rows| == |ms| && forall i :: 0 <= i < |ms| ==> LinkOf(ms[i], dayId, featured) == Some(r.rows[i])
  {
    if ms == [] then Rows([])
    else
      var head := LinkOf(ms[0], dayId, featured);
      if head.None? then NullElement(ms[0])
      else
        var rest := LinkRows(ms[1..], dayId, featured);
        assert forall i :: 1 <= i < |ms| ==> ms[i] == ms[1..][i - 1];
        if rest.NullElement? then rest else Rows([head.value] + rest.rows)
  }

  /** The TypeError the map throws on a null or undefined element. */
  function NullRead(v: JsValue): Thrown
  {
    Thrown(None, "Cannot read properties of " + ToStr(v) + " (reading 'externalMatchId')")
  }

  function FeaturedCount(rows: seq<LinkRow>): (n: nat)
    ensures n <= |rows|
  {
    if rows == [] then 0 else (if rows[0].isFeatured then 1 else 0) + FeaturedCount(rows[1..])
  }

  /** With distinct match ids, at most one row is featured, and exactly one iff
      the featured id is among them. */
  lemma {:induction false} FeaturedFlags(rows: seq<LinkRow>, featured: Num)
    requires forall i :: 0 <= i < |rows| ==> rows[i].isFeatured == StrictEq(rows[i].externalMatchId, featured)
    requires forall i, j :: 0 <= i < j < |rows| ==> rows[i].externalMatchId != rows[j].externalMatchId
    ensures FeaturedCount(rows) <= 1
    ensures FeaturedCount(rows) == 1 <==> exists i :: 0 <= i < |rows| && StrictEq(rows[i].externalMatchId, featured)
  {
    if rows != [] {
      var rest := rows[1..];
      assert forall i :: 0 <= i < |rest| ==> rest[i] == rows[i + 1];
      FeaturedFlags(rest, featured);
      if rows[0].isFeatured {
        forall i | 0 <= i < |rest| ensures !StrictEq(rest[i].externalMatchId, featured) {
          assert rows[0].externalMatchId != rows[i + 1].externalMatchId;
        }
      } else {
        if exists i :: 0 <= i < |rows| && StrictEq(rows[i].externalMatchId, featured) {
          var i :| 0 <= i < |rows| && StrictEq(rows[i].externalMatchId, featured);
          assert StrictEq(rest[i - 1].externalMatchId, featured);
        }
      }
    }
  }

  /** The rows the handler builds from distinct match ids carry exactly one
      featured flag when the featured id is one of them, and none otherwise. */
  lemma ExactlyOneFeatured(ms: seq<JsValue>, dayId: JsValue, featured: Num)
    requires LinkRows(ms, dayId, featured).Rows?
    requires var rows := LinkRows(ms, dayId, featured).rows;
      forall i, j :: 0 <= i < j < |rows| ==> rows[i].externalMatchId != rows[j].externalMatchId
    ensures var rows := LinkRows(ms, dayId, featured).rows;
      && (FeaturedCount(rows) == 1 <==> exists i :: 0 <= i < |rows| && StrictEq(rows[i].externalMatchId, featured))
      && (FeaturedCount(rows) == 0 <==> !exists i :: 0 <= i < |rows| && StrictEq(rows[i].externalMatchId, featured))
  {
    var rows := LinkRows(ms, dayId, featured).rows;
    FeaturedFlags(rows, featured);
  }

  /** `delete().eq("day_id", dayId)` */
  function WithoutDay(links: seq<LinkRow>, dayId: JsValue): (r: seq<LinkRow>)
    ensures forall l :: l in r <==> l in links && l.dayId != dayId
    ensures |r| <= |links|
  {
    if links == [] then []
    else
      var rest := WithoutDay(links[1..], dayId);
      assert forall l :: l in links <==> l == links[0] || l in links[1..] by {
        assert links == [links[0]] + links[1..];
      }
      if links[0].dayId == dayId then rest else [links[0]] + rest
  }

  /** The `day_matches` table. */
  class LinkTable {
    var links: seq<LinkRow>

    constructor Empty()
      ensures links == []
    {
      links := [];
    }

    /** One request. `dayResult` is what the upsert of the `days` row returns
        (the saved day's id, or an error), `deleteError` and `insertError` the
        errors the two `day_matches` calls may report. `upsert` is the row sent
        to the `days` upsert, when the request gets that far. */
    method HandleDaysSave(verb: string, h: Headers, env: Env, reqBody: JsValue,
                          dayResult: StoreResult<JsValue>, deleteError: Option<string>, insertError: Option<string>)
      returns (run: Outcome<JsValue>, upsert: Option<DayRow>)
      modifies this
      ensures var g := CheckDaysSave(verb, h, env, reqBody);
        && (g.Answer? ==> run == g.run && upsert.None? && links == old(links))
        && (g.Accept? ==> upsert == Some(g.row))
      ensures var g := CheckDaysSave(verb, h, env, reqBody);
        g.Accept? && dayResult.StoreError? ==> run == Returned(Fail(500, dayResult.message)) && links == old(links)
      ensures var g := CheckDaysSave(verb, h, env, reqBody);
        g.Accept? && dayResult.Stored? && deleteError.Some? ==>
          run == Returned(Fail(500, deleteError.value)) && links == old(links)
      ensures var g := CheckDaysSave(verb, h, env, reqBody);
        g.Accept? && dayResult.Stored? && deleteError.None? ==>
          var kept := WithoutDay(old(links), dayResult.value);
          var built := LinkRows(g.matches, dayResult.value, g.featured);
          && (built.NullElement? ==> run == Threw(NullRead(built.value)) && links == kept)
          && (built.Rows? && insertError.Some? ==> run == Returned(Fail(500, insertError.value)) && links == kept)
          && (built.Rows? && insertError.None? ==> run == Returned(Ok(dayResult.value)) && links == kept + built.rows)
    {
      var g := CheckDaysSave(verb, h, env, reqBody);
      if g.Answer? {
        return g.run, None;
      }
      upsert := Some(g.row);
      if dayResult.StoreError? {
        return Returned(Fail(500, dayResult.message)), upsert;
      }
      var dayId := dayResult.value;
      if deleteError.Some? {
        return Returned(Fail(500, deleteError.value)), upsert;
      }
      links := WithoutDay(links, dayId);
      var built := LinkRows(g.matches, dayId, g.featured);
      if built.NullElement? {
        return Threw(NullRead(built.value)), upsert;
      }
      if insertError.Some? {
        return Returned(Fail(500, insertError.value)), upsert;
      }
      links := links + built.rows;
      return Returned(Ok(dayId)), upsert;
    }
  }

  /** After a successful save the day's links are exactly the new rows, in
      order: every older link of that day is gone, and links of other days are
      kept. */
  lemma SavedLinksOfDay(old_links: seq<LinkRow>, dayId: JsValue, rows: seq<LinkRow>)
    requires forall i :: 0 <= i < |rows| ==> rows[i].dayId == dayId
    ensures var now := WithoutDay(old_links, dayId) + rows;
      && (forall l :: l in now && l.dayId != dayId <==> l in old_links && l.dayId != dayId)
      && (forall l :: l in now && l.dayId == dayId <==> l in rows)
      && now[|now| - |rows|..] == rows
  {
  }

  // ---------------------------------------------------------------------------
  // admin-notify

  /** The JSON pushed to every device. */
  datatype Payload = Payload(title: JsValue, body: JsValue, url: JsValue)

  /** The `inbox_notifications` row. */
  datatype InboxRow = InboxRow(title: JsValue, body: JsValue, url: JsValue, isRead: bool)

  /** The calls the handler makes, in order. */
  datatype Step = LoadSubscriptions | InsertInbox(row: InboxRow) | SendPush(endpoint: JsValue, payload: Payload)

  datatype NotifyResult = NotifyResult(notificationId: JsValue, sent: nat, failed: nat, subs: nat)

  datatype NotifyGate = Halt(run: Outcome<NotifyResult>) | Proceed(title: JsValue, body: JsValue, url: JsValue)

  /** The guards in order: the method, ADMIN_TOKEN (thrown when missing), the raw
      `x-admin-token` header against it, the other variables (thrown when
      missing), then title and body. */
  /** A POST whose raw `x-admin-token` header is the set ADMIN_TOKEN. */
  predicate HeaderAdmitted(verb: string, adminToken: JsValue, env: AdminNotify.NotifyEnv)
  {
    verb == "POST" && RequireEnv("ADMIN_TOKEN", env.adminToken).Some? && adminToken == JStr(env.adminToken.value)
  }

  function CheckIndexNotify(verb: string, adminToken: JsValue, env: AdminNotify.NotifyEnv, reqBody: JsValue): (g: NotifyGate)
    ensures verb != "POST" ==> g == Halt(Returned(Fail(405, MethodNotAllowed)))
    ensures verb == "POST" && RequireEnv("ADMIN_TOKEN", env.adminToken).None? ==>
      g == Halt(Threw(MissingEnv("ADMIN_TOKEN")))
    ensures verb == "POST" && RequireEnv("ADMIN_TOKEN", env.adminToken).Some? ==>
      (adminToken != JStr(env.adminToken.value) <==> g == Halt(Returned(Fail(401, "Unauthorized (admin token invalid)"))))
    ensures g.Proceed? ==>
      var body := Or(reqBody, JObject(map[]));
      && Truthy(Field(body, "title")) && Truthy(Field(body, "body"))
      && g.title == Field(body, "title") && g.body == Field(body, "body") && g.url == Field(body, "url")
  {
    if verb != "POST" then Halt(Returned(Fail(405, MethodNotAllowed)))
    else if RequireEnv("ADMIN_TOKEN", env.adminToken).None? then Halt(Threw(MissingEnv("ADMIN_TOKEN")))
    else if !Truthy(adminToken) || adminToken != JStr(env.adminToken.value) then
      Halt(Returned(Fail(401, "Unauthorized (admin token invalid)")))
    else if RequireEnv("SUPABASE_URL", env.supabaseUrl).None? then Halt(Threw(MissingEnv("SUPABASE_URL")))
    else if RequireEnv("SUPABASE_SERVICE_ROLE_KEY", env.serviceRoleKey).None? then Halt(Threw(MissingEnv("SUPABASE_SERVICE_ROLE_KEY")))
    else if RequireEnv("VITE_VAPID_PUBLIC_KEY", env.vapidPublicKey).None? then Halt(Threw(MissingEnv("VITE_VAPID_PUBLIC_KEY")))
    else if RequireEnv("VAPID_PRIVATE_KEY", env.vapidPrivateKey).None? then Halt(Threw(MissingEnv("VAPID_PRIVATE_KEY")))
    else if RequireEnv("VAPID_SUBJECT", env.vapidSubject).None? then Halt(Threw(MissingEnv("VAPID_SUBJECT")))
    else
      var body := Or(reqBody, JObject(map[]));
      var title := Field(body, "title");
      var text := Field(body, "body");
      if !Truthy(title) || !Truthy(text) then Halt(Returned(Fail(400, "title and body are required")))
      else Proceed(title, text, Field(body, "url"))
  }

  /** After the token check, the variables the handler reads next, in source
      order: the first missing one stops it. */
  lemma CheckIndexNotifyMissingVariables(verb: string, adminToken: JsValue, env: AdminNotify.NotifyEnv, reqBody: JsValue)
    ensures HeaderAdmitted(verb, adminToken, env) && RequireEnv("SUPABASE_URL", env.supabaseUrl).None? ==>
      CheckIndexNotify(verb, adminToken, env, reqBody) == Halt(Threw(MissingEnv("SUPABASE_URL")))
    ensures HeaderAdmitted(verb, adminToken, env) && AdminNotify.SetUpTo(env, 1) && RequireEnv("SUPABASE_SERVICE_ROLE_KEY", env.serviceRoleKey).None? ==>
      CheckIndexNotify(verb, adminToken, env, reqBody) == Halt(Threw(MissingEnv("SUPABASE_SERVICE_ROLE_KEY")))
    ensures HeaderAdmitted(verb, adminToken, env) && AdminNotify.SetUpTo(env, 2) && RequireEnv("VITE_VAPID_PUBLIC_KEY", env.vapidPublicKey).None? ==>
      CheckIndexNotify(verb, adminToken, env, reqBody) == Halt(Threw(MissingEnv("VITE_VAPID_PUBLIC_KEY")))
    ensures HeaderAdmitted(verb, adminToken, env) && AdminNotify.SetUpTo(env, 3) && RequireEnv("VAPID_PRIVATE_KEY", env.vapidPrivateKey).None? ==>
      CheckIndexNotify(verb, adminToken, env, reqBody) == Halt(Threw(MissingEnv("VAPID_PRIVATE_KEY")))
    ensures HeaderAdmitted(verb, adminToken, env) && AdminNotify.SetUpTo(env, 4) && RequireEnv("VAPID_SUBJECT", env.vapidSubject).None? ==>
      CheckIndexNotify(verb, adminToken, env, reqBody) == Halt(Threw(MissingEnv("VAPID_SUBJECT")))
  {
    if HeaderAdmitted(verb, adminToken, env) {
      if RequireEnv("SUPABASE_URL", env.supabaseUrl).None? {
      } else if RequireEnv("SUPABASE_SERVICE_ROLE_KEY", env.serviceRoleKey).None? {
      } else if RequireEnv("VITE_VAPID_PUBLIC_KEY", env.vapidPublicKey).None? {
      } else if RequireEnv("VAPID_PRIVATE_KEY", env.vapidPrivateKey).None? {
      }
    }
  }

  /** With every variable set, title and body decide. */
  lemma CheckIndexNotifyTitleAndBody(verb: string, adminToken: JsValue, env: AdminNotify.NotifyEnv, reqBody: JsValue)
    ensures HeaderAdmitted(verb, adminToken, env) && AdminNotify.SetUpTo(env, 5) ==>
      var body := Or(reqBody, JObject(map[]));
      && (CheckIndexNotify(verb, adminToken, env, reqBody).Proceed? <==> Truthy(Field(body, "title")) && Truthy(Field(body, "body")))
      && (CheckIndexNotify(verb, adminToken, env, reqBody).Halt? ==> CheckIndexNotify(verb, adminToken, env, reqBody) == Halt(Returned(Fail(400, "title and body are required"))))
  {
  }

  /** The counting loop: one attempt per subscription, in order, each counted
      as sent or failed; nothing is deleted and nothing stops the loop. */
  method CountDeliveries(subs: seq<Subscription>, outcome: nat -> Delivery, payload: Payload)
    returns (sent: nat, failed: nat, pushes: seq<Step>)
    ensures sent == CountDelivered(|subs|, outcome) && failed == CountFailed(|subs|, outcome)
    ensures sent + failed == |subs|
    ensures |pushes| == |subs| && forall i :: 0 <= i < |subs| ==> pushes[i] == SendPush(subs[i].endpoint, payload)
  {
    sent, failed, pushes := 0, 0, [];
    var i := 0;
    while i < |subs|
      invariant 0 <= i <= |subs|
      invariant sent == CountDelivered(i, outcome) && failed == CountFailed(i, outcome)
      invariant |pushes| == i && forall k :: 0 <= k < i ==> pushes[k] == SendPush(subs[k].endpoint, payload)
    {
      pushes := pushes + [SendPush(subs[i].endpoint, payload)];
      if outcome(i).Delivered? {
        sent := sent + 1;
      } else {
        failed := failed + 1;
      }
      i := i + 1;
    }
    SentPlusFailed(|subs|, outcome);
  }

  /** One request. `subsResult` is what loading `push_subscriptions` returns,
      `notifResult` what the inbox insert returns (the new id, or an error),
      `outcome(i)` the result of the i-th push attempt. Here the subscriptions
      are loaded before the inbox row is written. */
  method HandleIndexNotify(verb: string, adminToken: JsValue, env: AdminNotify.NotifyEnv, reqBody: JsValue,
                           subsResult: StoreResult<seq<Subscription>>, notifResult: StoreResult<JsValue>,
                           outcome: nat -> Delivery)
    returns (run: Outcome<NotifyResult>, steps: seq<Step>)
    ensures var g := CheckIndexNotify(verb, adminToken, env, reqBody);
      g.Halt? ==> run == g.run && steps == []
    ensures var g := CheckIndexNotify(verb, adminToken, env, reqBody);
      g.Proceed? && subsResult.StoreError? ==> run == Returned(Fail(500, subsResult.message)) && steps == [LoadSubscriptions]
    ensures var g := CheckIndexNotify(verb, adminToken, env, reqBody);
      g.Proceed? && subsResult.Stored? ==>
        var row := InboxRow(g.title, g.body, Or(g.url, JStr("/")), false);
        && |steps| >= 2 && steps[0] == LoadSubscriptions && steps[1] == InsertInbox(row)
        && (notifResult.StoreError? ==> run == Returned(Fail(500, notifResult.message)) && |steps| == 2)
    ensures var g := CheckIndexNotify(verb, adminToken, env, reqBody);
      g.Proceed? && subsResult.Stored? && notifResult.Stored? ==>
        var subs := subsResult.value;
        var payload := Payload(g.title, g.body, Or(g.url, JStr("/")));
        && run == Returned(Ok(NotifyResult(notifResult.value, CountDelivered(|subs|, outcome), CountFailed(|subs|, outcome), |subs|)))
        && run.resp.data.sent + run.resp.data.failed == run.resp.data.subs
        && |steps| == 2 + |subs|
        && forall i :: 0 <= i < |subs| ==> steps[2 + i] == SendPush(subs[i].endpoint, payload)
  {
    steps := [];
    var g := CheckIndexNotify(verb, adminToken, env, reqBody);
    if g.Halt? {
      return g.run, steps;
    }
    steps := steps + [LoadSubscriptions];
    if subsResult.StoreError? {
      return Returned(Fail(500, subsResult.message)), steps;
    }
    var subs := subsResult.value;
    var url := Or(g.url, JStr("/"));
    steps := steps + [InsertInbox(InboxRow(g.title, g.body, url, false))];
    if notifResult.StoreError? {
      return Returned(Fail(500, notifResult.message)), steps;
    }
    var payload := Payload(g.title, g.body, url);
    var sent, failed, pushes := CountDeliveries(subs, outcome, payload);
    var head := steps;
    steps := steps + pushes;
    forall i | 0 <= i < |subs| ensures steps[2 + i] == SendPush(subs[i].endpoint, payload) {
      assert steps[|head| + i] == pushes[i];
    }
    return Returned(Ok(NotifyResult(notifResult.value, sent, failed, |subs|))), steps;
  }
}
