/** Saving a player's predictions for one day: only while the day is published
    and its deadline has not passed, and then in one upsert of one row per item.
    The store calls are given as their results; instants are milliseconds. */
module PredictionsSave {
  import opened JsValues
  import opened Http

  /** `deadline_at` as `new Date(...)` reads it: null is the epoch, a text
      that does not parse is an invalid date. */
  datatype Deadline = NullDeadline | At(ms: int) | Unparsable

  /** The looked-up day's two columns. */
  datatype DayRecord = DayRecord(status: JsValue, deadlineAt: Deadline)

  /** The deadline's time value; None is the NaN of an invalid date. */
  function DeadlineMs(d: Deadline): (t: Option<int>)
    ensures d.NullDeadline? ==> t == Some(0)
    ensures d.At? ==> t == Some(d.ms)
    ensures t.None? <==> d.Unparsable?
  {
    match d
    case NullDeadline => Some(0)
    case At(ms) => Some(ms)
    case Unparsable => None
  }

  /** `now > deadline` on time values: every comparison with NaN is false. */
  predicate Passed(now: int, deadline: Deadline)
  {
    DeadlineMs(deadline).Some? && now > DeadlineMs(deadline).value
  }

  /** `!day || day.status !== "PUBLISHED" || new Date() > new Date(day.deadline_at)` */
  function Closed(day: Option<DayRecord>, now: int): (closed: bool)
    ensures day.None? ==> closed
    ensures day.Some? && day.value.status != JStr("PUBLISHED") ==> closed
    ensures day.Some? && day.value.status == JStr("PUBLISHED") ==>
      (closed <==> day.value.deadlineAt != Unparsable && now > DeadlineMs(day.value.deadlineAt).value)
  {
    day.None? || day.value.status != JStr("PUBLISHED") || Passed(now, day.value.deadlineAt)
  }

  /** A published day stays open up to and including its deadline instant, and
      is closed from the next millisecond on. */
  lemma OpenUntilDeadline(ms: int, now: int)
    ensures !Closed(Some(DayRecord(JStr("PUBLISHED"), At(ms))), now) <==> now <= ms
    ensures !Closed(Some(DayRecord(JStr("PUBLISHED"), At(ms))), ms)
  {
  }

  /** A null deadline is the epoch: a published day with it is closed at any
      later instant. A deadline that does not parse never closes the day. */
  lemma NullAndUnparsableDeadlines(now: int)
    ensures Closed(Some(DayRecord(JStr("PUBLISHED"), NullDeadline)), now) <==> now > 0
    ensures !Closed(Some(DayRecord(JStr("PUBLISHED"), Unparsable)), now)
  {
  }

  /** A `predictions` row. */
  datatype PredictionRow = PredictionRow(dayId: JsValue, userId: JsValue, externalMatchId: JsValue, pick: JsValue)

  /** The store calls, in order. */
  datatype Call = LookupDay(dayId: JsValue) | UpsertPredictions(rows: seq<PredictionRow>)

  datatype Saved = Saved

  /** The response (or the uncaught error) and the store calls made. */
  datatype Handled = Handled(run: Outcome<Saved>, calls: seq<Call>)

  /** `items.map(i => ({ day_id, user_id, external_match_id: i.externalMatchId, pick: i.pick }))`;
      the picks are copied unchecked. A null or undefined item throws (None). */
  function RowsOf(items: seq<JsValue>, dayId: JsValue, userId: JsValue): (r: Option<seq<PredictionRow>>)
    ensures r.None? <==> exists i :: 0 <= i < |items| && IsNullish(items[i])
    ensures r.Some? ==> |r.value| == |items| && forall i :: 0 <= i < |items| ==>
      !IsNullish(items[i])
      && r.value[i] == PredictionRow(dayId, userId, Field(items[i], "externalMatchId"), Field(items[i], "pick"))
  {
    if items == [] then Some([])
    else if IsNullish(items[0]) then None
    else
      var rest := RowsOf(items[1..], dayId, userId);
      assert forall i :: 1 <= i < |items| ==> items[i] == items[1..][i - 1];
      if rest.None? then None
      else Some([PredictionRow(dayId, userId, Field(items[0], "externalMatchId"), Field(items[0], "pick"))] + rest.value)
  }

  /** The first null or undefined item, on which the map throws. */
  function FirstNullish(items: seq<JsValue>): (v: JsValue)
    requires exists i :: 0 <= i < |items| && IsNullish(items[i])
    ensures IsNullish(v) && v in items
  {
    if IsNullish(items[0]) then items[0]
    else
      assert forall i :: 1 <= i < |items| ==> items[i] == items[1..][i - 1];
      FirstNullish(items[1..])
  }

  /** The TypeError of reading `prop` on a null or undefined value. */
  function ReadError(v: JsValue, prop: string): Thrown
  {
    Thrown(None, "Cannot read properties of " + ToStr(v) + " (reading '" + prop + "')")
  }

  /** One request. `day` is what the lookup by id returns (None when no row
      matches), `upsertError` the error the upsert may report, `now` the clock.
      The handler has no catch: what it throws is left to the platform. */
  function HandlePredictionsSave(verb: string, reqBody: JsValue, day: Option<DayRecord>,
                                 upsertError: Option<string>, now: int): (h: Handled)
    ensures verb != "POST" ==> h == Handled(Returned(Fail(405, MethodNotAllowed)), [])
    ensures verb == "POST" && IsNullish(reqBody) ==> h.run.Threw? && h.calls == []
    ensures verb == "POST" && !IsNullish(reqBody) ==> |h.calls| >= 1 && h.calls[0] == LookupDay(Field(reqBody, "dayId"))
    ensures verb == "POST" && !IsNullish(reqBody) ==>
      (Closed(day, now) <==> h.run == Returned(Fail(403, "Predictions closed")))
    ensures verb == "POST" && !IsNullish(reqBody) && Closed(day, now) ==> |h.calls| == 1
    ensures h.run == Returned(Ok(Saved)) ==>
      && verb == "POST" && !IsNullish(reqBody) && !Closed(day, now) && upsertError.None?
      && Field(reqBody, "items").JArray?
      && RowsOf(Field(reqBody, "items").items, Field(reqBody, "dayId"), Field(reqBody, "userId")).Some?
      && h.calls == [LookupDay(Field(reqBody, "dayId")),
                     UpsertPredictions(RowsOf(Field(reqBody, "items").items, Field(reqBody, "dayId"), Field(reqBody, "userId")).value)]
    ensures verb == "POST" && !IsNullish(reqBody) && !Closed(day, now) ==>
      var items := Field(reqBody, "items");
      && (!items.JArray? ==> h.run.Threw? && |h.calls| == 1)
      && (items.JArray? ==>
            var rows := RowsOf(items.items, Field(reqBody, "dayId"), Field(reqBody, "userId"));
            && (rows.None? ==> h.run.Threw? && |h.calls| == 1)
            && (rows.Some? ==> h.calls == [LookupDay(Field(reqBody, "dayId")), UpsertPredictions(rows.value)])
            && (rows.Some? && upsertError.Some? ==> h.run == Returned(Fail(500, upsertError.value)))
            && (rows.Some? && upsertError.None? ==> h.run == Returned(Ok(Saved))))
  {
    if verb != "POST" then Handled(Returned(Fail(405, MethodNotAllowed)), [])
    else if IsNullish(reqBody) then
      Handled(Threw(Thrown(None, "Cannot destructure property 'dayId' of 'req.body' as it is " + ToStr(reqBody) + ".")), [])
    else
      var dayId := Field(reqBody, "dayId");
      var userId := Field(reqBody, "userId");
      var items := Field(reqBody, "items");
      var lookup := [LookupDay(dayId)];
      if Closed(day, now) then Handled(Returned(Fail(403, "Predictions closed")), lookup)
      else if IsNullish(items) then Handled(Threw(ReadError(items, "map")), lookup)
      else if !items.JArray? then Handled(Threw(Thrown(None, "items.map is not a function")), lookup)
      else
        match RowsOf(items.items, dayId, userId)
        case None => Handled(Threw(ReadError(FirstNullish(items.items), "externalMatchId")), lookup)
        case Some(rows) =>
          var calls := lookup + [UpsertPredictions(rows)];
          if upsertError.Some? then Handled(Returned(Fail(500, upsertError.value)), calls)
          else Handled(Returned(Ok(Saved)), calls)
  }

  /** Whatever happens, the handler writes at most once, and only to an open day. */
  lemma AtMostOneWrite(verb: string, reqBody: JsValue, day: Option<DayRecord>, upsertError: Option<string>, now: int)
    ensures var h := HandlePredictionsSave(verb, reqBody, day, upsertError, now);
      && |h.calls| <= 2
      && (forall i :: 0 <= i < |h.calls| && h.calls[i].UpsertPredictions? ==> i == 1 && !Closed(day, now))
  {
  }
}
