/** Web push as the notification handlers use it: a stored subscription, the
    outcome of one delivery attempt, and the counts of a fan-out. The transport
    itself is not modelled; each attempt's outcome is given. */
module PushTransport {
  import opened JsValues

  /** A `push_subscriptions` row. */
  datatype Subscription = Subscription(userId: JsValue, deviceId: JsValue, endpoint: JsValue, p256dh: JsValue, auth: JsValue)

  /** The result of sendNotification: it resolves, or it rejects with an error
      that may carry the push service's HTTP status code. */
  datatype Delivery = Delivered | Refused(statusCode: Option<int>)

  /** 404 and 410 from the push service mean the subscription has expired
      (RFC 8030 section 7.3). */
  predicate IsGone(d: Delivery)
  {
    d.Refused? && (d.statusCode == Some(410) || d.statusCode == Some(404))
  }

  /** The number of the first `n` attempts that were delivered. */
  function CountDelivered(n: nat, outcome: nat -> Delivery): (c: nat)
    ensures c <= n
  {
    if n == 0 then 0 else CountDelivered(n - 1, outcome) + (if outcome(n - 1).Delivered? then 1 else 0)
  }

  /** The number of the first `n` attempts that were refused. */
  function CountFailed(n: nat, outcome: nat -> Delivery): (c: nat)
    ensures c <= n
  {
    if n == 0 then 0 else CountFailed(n - 1, outcome) + (if outcome(n - 1).Refused? then 1 else 0)
  }

  /** Every attempt is counted once, as sent or as failed. */
  lemma {:induction false} SentPlusFailed(n: nat, outcome: nat -> Delivery)
    ensures CountDelivered(n, outcome) + CountFailed(n, outcome) == n
  {
    if n > 0 {
      SentPlusFailed(n - 1, outcome);
    }
  }

  /** All refused means nothing sent, all delivered means nothing failed. */
  lemma {:induction false} CountsOfUniformOutcome(n: nat, outcome: nat -> Delivery)
    ensures (forall i :: 0 <= i < n ==> outcome(i).Delivered?) ==> CountDelivered(n, outcome) == n
    ensures (forall i :: 0 <= i < n ==> outcome(i).Refused?) ==> CountFailed(n, outcome) == n
  {
    if n > 0 {
      CountsOfUniformOutcome(n - 1, outcome);
    }
  }
}
