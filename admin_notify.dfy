/** The admin notification endpoint: record the notification, fan it out to every
    push subscription, prune the subscriptions the push service reports as gone,
    and track one recipient row per distinct user. */
module AdminNotify {
  import opened JsValues
  import opened Http
  import opened PushTransport

  /** A `notifications` row; `url` is the request's url, or null. */
  datatype Notification = Notification(id: int, title: JsValue, body: JsValue, url: JsValue, createdBy: string)

  /** A `notification_recipients` row. */
  datatype Recipient = Recipient(notificationId: int, userId: JsValue, status: string, sentAt: Option<string>)

  /** The store calls the handler makes, in the order it makes them. */
  datatype Effect =
    | InsertNotification
    | LoadSubscriptions
    | InsertRecipients(count: nat)
    | Push(attempt: nat, endpoint: JsValue, payload: PushPayload)
    | DeleteSubscription(userId: JsValue, deviceId: JsValue)
    | MarkRecipientsSent

  /** The environment the handler requires, in the order it reads it. */
  datatype NotifyEnv = NotifyEnv(adminToken: Env, supabaseUrl: Env, serviceRoleKey: Env,
                                 vapidPublicKey: Env, vapidPrivateKey: Env, vapidSubject: Env)

  datatype NotifySummary = NotifySummary(notificationId: int, sent: nat, failed: nat)

  /** The JSON pushed to every device. */
  datatype PushPayload = PushPayload(notificationId: int, title: JsValue, body: JsValue, url: JsValue)

  /** `notif.url || '/'` */
  function PayloadOf(n: Notification): (p: PushPayload)
    ensures Truthy(n.url) ==> p.url == n.url
    ensures !Truthy(n.url) ==> p.url == JStr("/")
  {
    PushPayload(n.id, n.title, n.body, Or(n.url, JStr("/")))
  }

  /** The user ids of the subscriptions: `[...new Set(ids.filter(Boolean))]`.
      First appearance decides the order; SameValueZero on the values here is
      their equality. */
  function DistinctUsers(subs: seq<Subscription>): (users: seq<JsValue>)
    ensures forall u :: u in users <==> Truthy(u) && exists s :: s in subs && s.userId == u
    ensures forall i, j :: 0 <= i < j < |users| ==> users[i] != users[j]
  {
    if subs == [] then []
    else
      var init := subs[..|subs| - 1];
      var last := subs[|subs| - 1];
      var prev := DistinctUsers(init);
      assert forall s :: s in subs <==> s in init || s == last by {
        assert subs == init + [last];
      }
      if Truthy(last.userId) && last.userId !in prev then prev + [last.userId] else prev
  }

  /** Deletes every row matched by `user_id` and `device_id`. */
  function WithoutDevice(table: seq<Subscription>, userId: JsValue, deviceId: JsValue): (r: seq<Subscription>)
    ensures forall s :: s in r <==> s in table && !(s.userId == userId && s.deviceId == deviceId)
    ensures |r| <= |table|
  {
    if table == [] then []
    else
      var rest := WithoutDevice(table[1..], userId, deviceId);
      assert forall s :: s in table <==> s == table[0] || s in table[1..] by {
        assert table == [table[0]] + table[1..];
      }
      if table[0].userId == userId && table[0].deviceId == deviceId then rest else [table[0]] + rest
  }

  /** The subscription table after the first `n` attempts of the fan-out over `snap`. */
  function PrunedAfter(table: seq<Subscription>, snap: seq<Subscription>, outcome: nat -> Delivery, n: nat): (r: seq<Subscription>)
    requires n <= |snap|
    ensures |r| <= |table|
  {
    if n == 0 then table
    else
      var t := PrunedAfter(table, snap, outcome, n - 1);
      if IsGone(outcome(n - 1)) then WithoutDevice(t, snap[n - 1].userId, snap[n - 1].deviceId) else t
  }

  /** A row survives the fan-out iff no attempt for a subscription of the same user
      and device was refused with 404 or 410: a delivery, or a refusal with any
      other code, keeps it. */
  lemma {:induction false} PrunedAfterSurvivors(table: seq<Subscription>, snap: seq<Subscription>, outcome: nat -> Delivery, n: nat)
    requires n <= |snap|
    ensures forall s :: s in PrunedAfter(table, snap, outcome, n) <==>
      s in table && forall i :: 0 <= i < n && snap[i].userId == s.userId && snap[i].deviceId == s.deviceId ==> !IsGone(outcome(i))
  {
    if n > 0 {
      PrunedAfterSurvivors(table, snap, outcome, n - 1);
    }
  }

  /** `update({ status: 'sent', sent_at }).eq('notification_id', id)` */
  function MarkSent(rows: seq<Recipient>, id: int, now: string): (r: seq<Recipient>)
    ensures |r| == |rows|
    ensures forall i :: 0 <= i < |r| ==> r[i].notificationId == rows[i].notificationId && r[i].userId == rows[i].userId
    ensures forall i :: 0 <= i < |r| && rows[i].notificationId == id ==> r[i].status == "sent" && r[i].sentAt == Some(now)
    ensures forall i :: 0 <= i < |r| && rows[i].notificationId != id ==> r[i] == rows[i]
  {
    if rows == [] then []
    else
      var head := if rows[0].notificationId == id then rows[0].(status := "sent", sentAt := Some(now)) else rows[0];
      [head] + MarkSent(rows[1..], id, now)
  }

  function QueuedRows(id: int, users: seq<JsValue>): (r: seq<Recipient>)
    ensures |r| == |users|
    ensures forall i :: 0 <= i < |r| ==> r[i] == Recipient(id, users[i], "queued", None)
  {
    if users == [] then [] else [Recipient(id, users[0], "queued", None)] + QueuedRows(id, users[1..])
  }

  /** The guards before the first store write, in source order. */
  datatype Gate = Stop(status: int, error: string) | Go(title: JsValue, body: JsValue, url: JsValue)

  /** The first `k` of the variables read after the token check are set, in
      the order the handlers read them. */
  predicate SetUpTo(env: NotifyEnv, k: nat)
  {
    && (k >= 1 ==> RequireEnv("SUPABASE_URL", env.supabaseUrl).Some?)
    && (k >= 2 ==> RequireEnv("SUPABASE_SERVICE_ROLE_KEY", env.serviceRoleKey).Some?)
    && (k >= 3 ==> RequireEnv("VITE_VAPID_PUBLIC_KEY", env.vapidPublicKey).Some?)
    && (k >= 4 ==> RequireEnv("VAPID_PRIVATE_KEY", env.vapidPrivateKey).Some?)
    && (k >= 5 ==> RequireEnv("VAPID_SUBJECT", env.vapidSubject).Some?)
  }

  /** A POST whose `Authorization` header is "Bearer " and the set ADMIN_TOKEN. */
  predicate BearerAdmitted(verb: string, authorization: JsValue, env: NotifyEnv)
  {
    && verb == "POST" && RequireEnv("ADMIN_TOKEN", env.adminToken).Some?
    && Or(authorization, JStr("")) == JStr("Bearer " + env.adminToken.value)
  }

  function CheckNotify(verb: string, authorization: JsValue, env: NotifyEnv, reqBody: JsValue): (g: Gate)
    ensures verb != "POST" ==> g == Stop(405, MethodNotAllowed)
    ensures verb == "POST" && RequireEnv("ADMIN_TOKEN", env.adminToken).None? ==> g.Stop? && g.status == 500
    ensures verb == "POST" && RequireEnv("ADMIN_TOKEN", env.adminToken).Some? ==>
      (Or(authorization, JStr("")) != JStr("Bearer " + env.adminToken.value) <==> g == Stop(401, "Unauthorized"))
    ensures g.Go? ==>
      var body := Or(reqBody, JObject(map[]));
      && Truthy(Field(body, "title")) && Truthy(Field(body, "body"))
      && g.title == Field(body, "title") && g.body == Field(body, "body") && g.url == Field(body, "url")
    ensures g.Stop? && g.status == 400 ==>
      var body := Or(reqBody, JObject(map[]));
      !Truthy(Field(body, "title")) || !Truthy(Field(body, "body"))
  {
    if verb != "POST" then Stop(405, MethodNotAllowed)
    else if RequireEnv("ADMIN_TOKEN", env.adminToken).None? then Stop(500, MissingEnv("ADMIN_TOKEN").message)
    else if Or(authorization, JStr("")) != JStr("Bearer " + env.adminToken.value) then Stop(401, "Unauthorized")
    else if RequireEnv("SUPABASE_URL", env.supabaseUrl).None? then Stop(500, MissingEnv("SUPABASE_URL").message)
    else if RequireEnv("SUPABASE_SERVICE_ROLE_KEY", env.serviceRoleKey).None? then Stop(500, MissingEnv("SUPABASE_SERVICE_ROLE_KEY").message)
    else if RequireEnv("VITE_VAPID_PUBLIC_KEY", env.vapidPublicKey).None? then Stop(500, MissingEnv("VITE_VAPID_PUBLIC_KEY").message)
    else if RequireEnv("VAPID_PRIVATE_KEY", env.vapidPrivateKey).None? then Stop(500, MissingEnv("VAPID_PRIVATE_KEY").message)
    else if RequireEnv("VAPID_SUBJECT", env.vapidSubject).None? then Stop(500, MissingEnv("VAPID_SUBJECT").message)
    else
      var body := Or(reqBody, JObject(map[]));
      var title := Field(body, "title");
      var text := Field(body, "body");
      if !Truthy(title) || !Truthy(text) then Stop(400, "title and body are required")
      else Go(title, text, Field(body, "url"))
  }

  /** After the token check, the variables the handler reads next, in source
      order: the first missing one stops it. */
  lemma CheckNotifyMissingVariables(verb: string, authorization: JsValue, env: NotifyEnv, reqBody: JsValue)
    ensures BearerAdmitted(verb, authorization, env) && RequireEnv("SUPABASE_URL", env.supabaseUrl).None? ==>
      CheckNotify(verb, authorization, env, reqBody) == Stop(500, MissingEnv("SUPABASE_URL").message)
    ensures BearerAdmitted(verb, authorization, env) && SetUpTo(env, 1) && RequireEnv("SUPABASE_SERVICE_ROLE_KEY", env.serviceRoleKey).None? ==>
      CheckNotify(verb, authorization, env, reqBody) == Stop(500, MissingEnv("SUPABASE_SERVICE_ROLE_KEY").message)
    ensures BearerAdmitted(verb, authorization, env) && SetUpTo(env, 2) && RequireEnv("VITE_VAPID_PUBLIC_KEY", env.vapidPublicKey).None? ==>
      CheckNotify(verb, authorization, env, reqBody) == Stop(500, MissingEnv("VITE_VAPID_PUBLIC_KEY").message)
    ensures BearerAdmitted(verb, authorization, env) && SetUpTo(env, 3) && RequireEnv("VAPID_PRIVATE_KEY", env.vapidPrivateKey).None? ==>
      CheckNotify(verb, authorization, env, reqBody) == Stop(500, MissingEnv("VAPID_PRIVATE_KEY").message)
    ensures BearerAdmitted(verb, authorization, env) && SetUpTo(env, 4) && RequireEnv("VAPID_SUBJECT", env.vapidSubject).None? ==>
      CheckNotify(verb, authorization, env, reqBody) == Stop(500, MissingEnv("VAPID_SUBJECT").message)
  {
    if BearerAdmitted(verb, authorization, env) {
      if RequireEnv("SUPABASE_URL", env.supabaseUrl).None? {
      } else if RequireEnv("SUPABASE_SERVICE_ROLE_KEY", env.serviceRoleKey).None? {
      } else if RequireEnv("VITE_VAPID_PUBLIC_KEY", env.vapidPublicKey).None? {
      } else if RequireEnv("VAPID_PRIVATE_KEY", env.vapidPrivateKey).None? {
      }
    }
  }

  /** With every variable set, title and body decide. */
  lemma CheckNotifyTitleAndBody(verb: string, authorization: JsValue, env: NotifyEnv, reqBody: JsValue)
    ensures BearerAdmitted(verb, authorization, env) && SetUpTo(env, 5) ==>
      var body := Or(reqBody, JObject(map[]));
      && (CheckNotify(verb, authorization, env, reqBody).Go? <==> Truthy(Field(body, "title")) && Truthy(Field(body, "body")))
      && (CheckNotify(verb, authorization, env, reqBody).Stop? ==> CheckNotify(verb, authorization, env, reqBody) == Stop(400, "title and body are required"))
  {
  }

  /** The store calls of the first `n` attempts of the fan-out over `snap`: each
      attempt's push, followed by the delete of its user and device when the
      push service refused it with 404 or 410. */
  function FanOutEffects(snap: seq<Subscription>, outcome: nat -> Delivery, payload: PushPayload, n: nat): seq<Effect>
    requires n <= |snap|
  {
    if n == 0 then []
    else
      var gone := if IsGone(outcome(n - 1)) then [DeleteSubscription(snap[n - 1].userId, snap[n - 1].deviceId)] else [];
      FanOutEffects(snap, outcome, payload, n - 1) + [Push(n - 1, snap[n - 1].endpoint, payload)] + gone
  }

  /** The store calls after the subscriptions are read: the recipient rows are
      inserted and later marked sent only when some user has a subscription. */
  function DispatchEffects(snap: seq<Subscription>, outcome: nat -> Delivery, payload: PushPayload): seq<Effect>
  {
    var users := DistinctUsers(snap);
    (if users == [] then [] else [InsertRecipients(|users|)])
    + FanOutEffects(snap, outcome, payload, |snap|)
    + (if users == [] then [] else [MarkRecipientsSent])
  }

  /** The push attempts among the store calls, in the order they were made. */
  function Pushes(effects: seq<Effect>): (r: seq<Effect>)
    ensures |r| <= |effects|
    ensures forall k :: 0 <= k < |r| ==> r[k].Push?
  {
    if effects == [] then []
    else (if effects[0].Push? then [effects[0]] else []) + Pushes(effects[1..])
  }

  lemma {:induction false} PushesAppend(a: seq<Effect>, b: seq<Effect>)
    ensures Pushes(a + b) == Pushes(a) + Pushes(b)
  {
    if a != [] {
      assert (a + b)[1..] == a[1..] + b;
      PushesAppend(a[1..], b);
    } else {
      assert a + b == b;
    }
  }

  /** Exactly one push per subscription: the pushes of the fan-out are, in
      order, attempt `k` to the endpoint of subscription `k` and nothing else,
      and every other call is a delete. */
  lemma {:induction false} FanOutPushes(snap: seq<Subscription>, outcome: nat -> Delivery, payload: PushPayload, n: nat)
    requires n <= |snap|
    ensures var p := Pushes(FanOutEffects(snap, outcome, payload, n));
      |p| == n && forall k :: 0 <= k < n ==> p[k] == Push(k, snap[k].endpoint, payload)
  {
    if n > 0 {
      FanOutPushes(snap, outcome, payload, n - 1);
      var prev := FanOutEffects(snap, outcome, payload, n - 1);
      var push := [Push(n - 1, snap[n - 1].endpoint, payload)];
      var gone := if IsGone(outcome(n - 1)) then [DeleteSubscription(snap[n - 1].userId, snap[n - 1].deviceId)] else [];
      assert FanOutEffects(snap, outcome, payload, n) == prev + push + gone;
      PushesAppend(prev + push, gone);
      PushesAppend(prev, push);
      assert Pushes(push) == push;
      assert Pushes(gone) == [];
    }
  }

  /** The fan-out makes no store call other than pushes and deletes. */
  lemma {:induction false} FanOutCallKinds(snap: seq<Subscription>, outcome: nat -> Delivery, payload: PushPayload, n: nat)
    requires n <= |snap|
    ensures forall e :: e in FanOutEffects(snap, outcome, payload, n) ==> e.Push? || e.DeleteSubscription?
  {
    if n > 0 {
      FanOutCallKinds(snap, outcome, payload, n - 1);
    }
  }

  /** The pushes of the whole request after the subscriptions are read are the
      same one push per subscription: the recipient calls around them add none. */
  lemma DispatchPushes(snap: seq<Subscription>, outcome: nat -> Delivery, payload: PushPayload)
    ensures var p := Pushes(DispatchEffects(snap, outcome, payload));
      |p| == |snap| && forall k :: 0 <= k < |snap| ==> p[k] == Push(k, snap[k].endpoint, payload)
  {
    var users := DistinctUsers(snap);
    var before: seq<Effect> := if users == [] then [] else [InsertRecipients(|users|)];
    var after: seq<Effect> := if users == [] then [] else [MarkRecipientsSent];
    PushesAround(before, FanOutEffects(snap, outcome, payload, |snap|), after);
    FanOutPushes(snap, outcome, payload, |snap|);
  }

  /** Calls that are not pushes around a sequence of calls add no push. */
  lemma PushesAround(before: seq<Effect>, mid: seq<Effect>, after: seq<Effect>)
    requires forall k :: 0 <= k < |before| ==> !before[k].Push?
    requires forall k :: 0 <= k < |after| ==> !after[k].Push?
    ensures Pushes(before + mid + after) == Pushes(mid)
  {
    PushesAppend(before + mid, after);
    PushesAppend(before, mid);
    NoPushes(before);
    NoPushes(after);
  }

  lemma {:induction false} NoPushes(e: seq<Effect>)
    requires forall k :: 0 <= k < |e| ==> !e[k].Push?
    ensures Pushes(e) == []
  {
    if e != [] {
      NoPushes(e[1..]);
    }
  }

  /** The three tables the handler touches. */
  class NotifyDb {
    var notifications: seq<Notification>
    var subscriptions: seq<Subscription>
    var recipients: seq<Recipient>

    /** The delivery loop: one attempt per subscription of the snapshot, counted
        as sent or failed; a refusal with 404 or 410 deletes the subscription's
        user and device from the table, and nothing stops the loop. */
    method FanOut(snap: seq<Subscription>, outcome: nat -> Delivery, payload: PushPayload)
      returns (sent: nat, failed: nat, effects: seq<Effect>)
      modifies this`subscriptions
      ensures sent == CountDelivered(|snap|, outcome) && failed == CountFailed(|snap|, outcome)
      ensures subscriptions == PrunedAfter(old(subscriptions), snap, outcome, |snap|)
      ensures effects == FanOutEffects(snap, outcome, payload, |snap|)
      ensures |Pushes(effects)| == |snap| && forall k :: 0 <= k < |snap| ==> Pushes(effects)[k] == Push(k, snap[k].endpoint, payload)
      ensures forall e :: e in effects ==> e.Push? || e.DeleteSubscription?
    {
      sent, failed, effects := 0, 0, [];
      var i := 0;
      while i < |snap|
        invariant 0 <= i <= |snap|
        invariant sent == CountDelivered(i, outcome) && failed == CountFailed(i, outcome)
        invariant subscriptions == PrunedAfter(old(subscriptions), snap, outcome, i)
        invariant effects == FanOutEffects(snap, outcome, payload, i)
      {
        effects := effects + [Push(i, snap[i].endpoint, payload)];
        if outcome(i).Delivered? {
          sent := sent + 1;
        } else {
          failed := failed + 1;
          if IsGone(outcome(i)) {
            subscriptions := WithoutDevice(subscriptions, snap[i].userId, snap[i].deviceId);
            effects := effects + [DeleteSubscription(snap[i].userId, snap[i].deviceId)];
          }
        }
        i := i + 1;
      }
      FanOutPushes(snap, outcome, payload, |snap|);
      FanOutCallKinds(snap, outcome, payload, |snap|);
    }

    /** One request. `newId` is the id the store gives the new notification,
        `notifError` and `subsError` the errors those two calls may return,
        `outcome(i)` the result of the i-th push attempt. */
    method Notify(verb: string, authorization: JsValue, env: NotifyEnv, reqBody: JsValue,
                  newId: int, notifError: Option<string>, subsError: Option<string>,
                  outcome: nat -> Delivery, now: string)
      returns (resp: Response<NotifySummary>, effects: seq<Effect>)
      modifies this
      ensures var g := CheckNotify(verb, authorization, env, reqBody);
        g.Stop? ==>
          && resp == Fail(g.status, g.error) && effects == []
          && notifications == old(notifications) && subscriptions == old(subscriptions) && recipients == old(recipients)
      ensures CheckNotify(verb, authorization, env, reqBody).Go? && notifError.Some? ==>
        resp == Fail(500, notifError.value) && effects == [InsertNotification]
        && notifications == old(notifications) && subscriptions == old(subscriptions) && recipients == old(recipients)
      ensures CheckNotify(verb, authorization, env, reqBody).Go? && notifError.None? ==>
        var g := CheckNotify(verb, authorization, env, reqBody);
        && notifications == old(notifications) + [Notification(newId, g.title, g.body, Or(g.url, JNull), "super_admin")]
        && |effects| >= 2 && effects[0] == InsertNotification && effects[1] == LoadSubscriptions
      ensures CheckNotify(verb, authorization, env, reqBody).Go? && notifError.None? && subsError.Some? ==>
        resp == Fail(500, subsError.value) && effects == [InsertNotification, LoadSubscriptions]
        && subscriptions == old(subscriptions) && recipients == old(recipients)
      ensures CheckNotify(verb, authorization, env, reqBody).Go? && notifError.None? && subsError.None? ==>
        var snap := old(subscriptions);
        var users := DistinctUsers(snap);
        && resp == Ok(NotifySummary(newId, CountDelivered(|snap|, outcome), CountFailed(|snap|, outcome)))
        && subscriptions == PrunedAfter(snap, snap, outcome, |snap|)
        && recipients == (if users == [] then old(recipients)
                          else MarkSent(old(recipients) + QueuedRows(newId, users), newId, now))
        && effects == [InsertNotification, LoadSubscriptions] + DispatchEffects(snap, outcome, PayloadOf(notifications[|notifications| - 1]))
        && |Pushes(effects)| == |snap|
        && (forall i :: 0 <= i < |snap| ==> Pushes(effects)[i] == Push(i, snap[i].endpoint, PayloadOf(notifications[|notifications| - 1])))
    {
      effects := [];
      var g := CheckNotify(verb, authorization, env, reqBody);
      if g.Stop? {
        return Fail(g.status, g.error), effects;
      }
      var notif := Notification(newId, g.title, g.body, Or(g.url, JNull), "super_admin");
      effects := effects + [InsertNotification];
      if notifError.Some? {
        return Fail(500, notifError.value), effects;
      }
      notifications := notifications + [notif];

      effects := effects + [LoadSubscriptions];
      if subsError.Some? {
        return Fail(500, subsError.value), effects;
      }
      var summary, rest := Dispatch(notif, outcome, now);
      var head: seq<Effect> := [InsertNotification, LoadSubscriptions];
      assert Pushes(head) == [] by {
        assert head[1..][1..] == [];
      }
      PushesAppend(head, rest);
      return Ok(summary), head + rest;
    }

    /** After the subscriptions are read: queue one recipient row per user,
        push to every subscription, then mark the rows sent. */
    method Dispatch(notif: Notification, outcome: nat -> Delivery, now: string)
      returns (summary: NotifySummary, effects: seq<Effect>)
      modifies this`subscriptions, this`recipients
      ensures var snap := old(subscriptions);
        var users := DistinctUsers(snap);
        && summary == NotifySummary(notif.id, CountDelivered(|snap|, outcome), CountFailed(|snap|, outcome))
        && subscriptions == PrunedAfter(snap, snap, outcome, |snap|)
        && recipients == (if users == [] then old(recipients)
                          else MarkSent(old(recipients) + QueuedRows(notif.id, users), notif.id, now))
        && effects == DispatchEffects(snap, outcome, PayloadOf(notif))
        && |Pushes(effects)| == |snap|
        && (forall i :: 0 <= i < |snap| ==> Pushes(effects)[i] == Push(i, snap[i].endpoint, PayloadOf(notif)))
    {
      var snap := subscriptions;
      var users := DistinctUsers(snap);
      var queue: seq<Effect> := [];
      if users != [] {
        recipients := recipients + QueuedRows(notif.id, users);
        queue := [InsertRecipients(|users|)];
      }
      var payload := PayloadOf(notif);
      var sent, failed, pushes := FanOut(snap, outcome, payload);
      var mark: seq<Effect> := [];
      if users != [] {
        recipients := MarkSent(recipients, notif.id, now);
        mark := [MarkRecipientsSent];
      }
      effects := queue + pushes + mark;
      DispatchPushes(snap, outcome, payload);
      summary := NotifySummary(notif.id, sent, failed);
    }
  }

  /** With at least one recipient user, every recipient row of the new notification
      ends up `sent`, whatever the deliveries did; rows of earlier notifications
      with another id are left as they were. */
  lemma AllRecipientsMarked(before: seq<Recipient>, id: int, users: seq<JsValue>, now: string)
    requires users != []
    ensures var r := MarkSent(before + QueuedRows(id, users), id, now);
      && |r| == |before| + |users|
      && (forall k :: 0 <= k < |users| ==> r[|before| + k] == Recipient(id, users[k], "sent", Some(now)))
      && forall k :: 0 <= k < |before| && before[k].notificationId != id ==> r[k] == before[k]
  {
    var rows := before + QueuedRows(id, users);
    var q := QueuedRows(id, users);
    forall k | 0 <= k < |users| ensures rows[|before| + k] == Recipient(id, users[k], "queued", None) {
      assert rows[|before| + k] == q[k];
    }
  }
}
