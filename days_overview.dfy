/** The player's overview of a league's published days: for each day, how many
    matches it has, how many of them the player has predicted, and whether that
    makes the day complete. The three store reads are given as their results;
    the store applies the league, status, matchday-order and id filters. */
module DaysOverview {
  import opened JsValues
  import opened Http

  /** A `days` row, with the columns the overview selects. */
  datatype DayRow = DayRow(id: JsValue, title: JsValue, matchday: JsValue, status: JsValue,
                           deadlineAt: JsValue, leagueCode: JsValue)

  /** A `day_matches` or `predictions` row, reduced to the two columns read. */
  datatype MatchRef = MatchRef(dayId: JsValue, externalMatchId: JsValue)

  /** `{ ...d, matchCount, predCount, complete }` */
  datatype DaySummary = DaySummary(day: DayRow, matchCount: nat, predCount: nat, complete: bool)

  /** The store reads the handler makes, in order. */
  datatype Query =
    | LoadDays(leagueCode: string)
    | LoadDayMatches(dayIds: seq<JsValue>)
    | LoadPredictions(dayIds: seq<JsValue>, userId: string)

  // ---------------------------------------------------------------------------
  // specification of the two counting loops

  /** The number of rows of day `k`. */
  function MatchCount(rows: seq<MatchRef>, k: JsValue): (n: nat)
    ensures n <= |rows|
  {
    if rows == [] then 0
    else MatchCount(rows[..|rows| - 1], k) + (if rows[|rows| - 1].dayId == k then 1 else 0)
  }

  /** A day has no rows exactly when no row names it. */
  lemma {:induction false} MatchCountZero(rows: seq<MatchRef>, k: JsValue)
    ensures MatchCount(rows, k) == 0 <==> forall r :: r in rows ==> r.dayId != k
  {
    if rows != [] {
      var init := rows[..|rows| - 1];
      MatchCountZero(init, k);
      assert forall r :: r in rows <==> r in init || r == rows[|rows| - 1] by {
        assert rows == init + [rows[|rows| - 1]];
      }
    }
  }

  /** The distinct `Number(external_match_id)` values of the rows of day `k`. */
  function PredSet(rows: seq<MatchRef>, k: JsValue): set<Num>
  {
    if rows == [] then {}
    else
      var last := rows[|rows| - 1];
      PredSet(rows[..|rows| - 1], k) + (if last.dayId == k then {ToNumber(last.externalMatchId)} else {})
  }

  /** The set holds exactly the numeric ids of the day's rows. */
  lemma {:induction false} PredSetMembers(rows: seq<MatchRef>, k: JsValue)
    ensures forall n :: n in PredSet(rows, k) <==> exists r :: r in rows && r.dayId == k && ToNumber(r.externalMatchId) == n
  {
    if rows != [] {
      var init := rows[..|rows| - 1];
      var last := rows[|rows| - 1];
      PredSetMembers(init, k);
      assert forall r :: r in rows <==> r in init || r == last by {
        assert rows == init + [last];
      }
    }
  }

  /** A day no row names has the empty set. */
  lemma {:induction false} PredSetAbsent(rows: seq<MatchRef>, k: JsValue)
    requires forall r :: r in rows ==> r.dayId != k
    ensures PredSet(rows, k) == {}
  {
    if rows != [] {
      var init := rows[..|rows| - 1];
      assert forall r :: r in init ==> r in rows;
      assert rows[|rows| - 1] in rows;
      PredSetAbsent(init, k);
    }
  }

  /** A day never has more distinct predicted ids than prediction rows. */
  lemma {:induction false} PredSetBound(rows: seq<MatchRef>, k: JsValue)
    ensures |PredSet(rows, k)| <= MatchCount(rows, k)
  {
    if rows != [] {
      PredSetBound(rows[..|rows| - 1], k);
    }
  }

  // ---------------------------------------------------------------------------
  // the loops

  /** `matchCountByDay`: one increment per row. */
  method CountMatchesByDay(dms: seq<MatchRef>) returns (counts: map<JsValue, nat>)
    ensures forall k :: k in counts <==> MatchCount(dms, k) > 0
    ensures forall k :: k in counts ==> counts[k] == MatchCount(dms, k)
  {
    counts := map[];
    var i := 0;
    while i < |dms|
      invariant 0 <= i <= |dms|
      invariant forall k :: k in counts <==> MatchCount(dms[..i], k) > 0
      invariant forall k :: k in counts ==> counts[k] == MatchCount(dms[..i], k)
    {
      assert dms[..i + 1][..i] == dms[..i];
      var k := dms[i].dayId;
      var previous := if k in counts then counts[k] else 0;
      counts := counts[k := previous + 1];
      i := i + 1;
    }
    assert dms[..i] == dms;
  }

  /** `predSetByDay`: each row adds its numeric match id to its day's set. */
  method PredSetsByDay(preds: seq<MatchRef>) returns (sets: map<JsValue, set<Num>>)
    ensures forall k :: k in sets <==> exists r :: r in preds && r.dayId == k
    ensures forall k :: k in sets ==> sets[k] == PredSet(preds, k)
  {
    sets := map[];
    var i := 0;
    while i < |preds|
      invariant 0 <= i <= |preds|
      invariant forall k :: k in sets <==> exists r :: r in preds[..i] && r.dayId == k
      invariant forall k :: k in sets ==> sets[k] == PredSet(preds[..i], k)
    {
      var p := preds[i];
      assert preds[..i + 1][..i] == preds[..i];
      assert forall r :: r in preds[..i + 1] <==> r in preds[..i] || r == p by {
        assert preds[..i + 1] == preds[..i] + [p];
      }
      var previous := if p.dayId in sets then sets[p.dayId] else {};
      if p.dayId !in sets {
        PredSetAbsent(preds[..i], p.dayId);
      }
      sets := sets[p.dayId := previous + {ToNumber(p.externalMatchId)}];
      i := i + 1;
    }
    assert preds[..i] == preds;
  }

  // ---------------------------------------------------------------------------
  // the output

  /** `complete: mc > 0 && pc === mc`: a count comparison, not a comparison of
      which matches were predicted. */
  function Summarize(d: DayRow, dms: seq<MatchRef>, preds: seq<MatchRef>): (s: DaySummary)
    ensures s.day == d
    ensures s.matchCount == MatchCount(dms, d.id)
    ensures s.predCount == |PredSet(preds, d.id)|
    ensures s.complete <==> s.matchCount > 0 && s.predCount == s.matchCount
  {
    var mc := MatchCount(dms, d.id);
    var pc := |PredSet(preds, d.id)|;
    DaySummary(d, mc, pc, mc > 0 && pc == mc)
  }

  /** A complete day has seen as many distinct predicted ids as it has matches,
      which need not be the same matches: a leftover prediction for a match no
      longer linked to the day counts too. */
  lemma CompleteByCountOnly(d: DayRow)
    ensures var dms := [MatchRef(d.id, JNum(Int(1)))];
      var preds := [MatchRef(d.id, JNum(Int(2)))];
      && Summarize(d, dms, preds).complete
      && Int(1) !in PredSet(preds, d.id)
  {
    var dms := [MatchRef(d.id, JNum(Int(1)))];
    var preds := [MatchRef(d.id, JNum(Int(2)))];
    assert PredSet(preds, d.id) == {Int(2)} by {
      assert preds[..0] == [];
    }
    assert MatchCount(dms, d.id) == 1 by {
      assert dms[..0] == [];
    }
  }

  function Ids(days: seq<DayRow>): (ids: seq<JsValue>)
    ensures |ids| == |days| && forall i :: 0 <= i < |days| ==> ids[i] == days[i].id
  {
    if days == [] then [] else [days[0].id] + Ids(days[1..])
  }

  /** The output map over the days, from the two maps the loops built. */
  method Summaries(days: seq<DayRow>, counts: map<JsValue, nat>, sets: map<JsValue, set<Num>>,
                   ghost dms: seq<MatchRef>, ghost preds: seq<MatchRef>)
    returns (out: seq<DaySummary>)
    requires forall k :: k in counts <==> MatchCount(dms, k) > 0
    requires forall k :: k in counts ==> counts[k] == MatchCount(dms, k)
    requires forall k :: k in sets <==> exists r :: r in preds && r.dayId == k
    requires forall k :: k in sets ==> sets[k] == PredSet(preds, k)
    ensures |out| == |days| && forall i :: 0 <= i < |days| ==> out[i] == Summarize(days[i], dms, preds)
  {
    out := [];
    var i := 0;
    while i < |days|
      invariant 0 <= i <= |days|
      invariant |out| == i && forall j :: 0 <= j < i ==> out[j] == Summarize(days[j], dms, preds)
    {
      var d := days[i];
      var mc := if d.id in counts then counts[d.id] else 0;
      var pc := if d.id in sets then |sets[d.id]| else 0;
      if d.id !in sets {
        PredSetAbsent(preds, d.id);
      }
      out := out + [DaySummary(d, mc, pc, mc > 0 && pc == mc)];
      i := i + 1;
    }
  }

  /** The two counting loops, then the output map. */
  method Overview(days: seq<DayRow>, dms: seq<MatchRef>, preds: seq<MatchRef>) returns (out: seq<DaySummary>)
    ensures |out| == |days| && forall i :: 0 <= i < |days| ==> out[i] == Summarize(days[i], dms, preds)
  {
    var counts := CountMatchesByDay(dms);
    var sets := PredSetsByDay(preds);
    out := Summaries(days, counts, sets, dms, preds);
  }

  /** Both parameters present after trimming. */
  predicate Admitted(leagueCodeParam: JsValue, userIdParam: JsValue)
  {
    TrimmedText(leagueCodeParam) != "" && TrimmedText(userIdParam) != ""
  }

  /** The request: trimmed league code and user id, then the three reads; a
      league without published days makes no further read. */
  method HandleDaysOverview(leagueCodeParam: JsValue, userIdParam: JsValue,
                            daysResult: StoreResult<seq<DayRow>>,
                            dmsResult: StoreResult<seq<MatchRef>>,
                            predsResult: StoreResult<seq<MatchRef>>)
    returns (resp: Response<seq<DaySummary>>, queries: seq<Query>)
    ensures !Admitted(leagueCodeParam, userIdParam) <==> resp == Fail(400, "Missing leagueCode or userId") && queries == []
    ensures Admitted(leagueCodeParam, userIdParam) ==> |queries| >= 1 && queries[0] == LoadDays(TrimmedText(leagueCodeParam))
    ensures Admitted(leagueCodeParam, userIdParam) && daysResult.StoreError? ==>
      resp == Fail(500, daysResult.message) && |queries| == 1
    ensures Admitted(leagueCodeParam, userIdParam) && daysResult.Stored? && daysResult.value == [] ==>
      resp == Ok([]) && |queries| == 1
    ensures Admitted(leagueCodeParam, userIdParam) && daysResult.Stored? && daysResult.value != [] ==>
      |queries| >= 2 && queries[1] == LoadDayMatches(Ids(daysResult.value))
    ensures Admitted(leagueCodeParam, userIdParam) && daysResult.Stored? && daysResult.value != [] && dmsResult.StoreError? ==>
      resp == Fail(500, dmsResult.message) && |queries| == 2
    ensures Admitted(leagueCodeParam, userIdParam) && daysResult.Stored? && daysResult.value != [] && dmsResult.Stored? ==>
      queries == [LoadDays(TrimmedText(leagueCodeParam)), LoadDayMatches(Ids(daysResult.value)),
                  LoadPredictions(Ids(daysResult.value), TrimmedText(userIdParam))]
    ensures (Admitted(leagueCodeParam, userIdParam) && daysResult.Stored? && daysResult.value != [] && dmsResult.Stored?
             && predsResult.StoreError?) ==> resp == Fail(500, predsResult.message)
    ensures (Admitted(leagueCodeParam, userIdParam) && daysResult.Stored? && daysResult.value != [] && dmsResult.Stored?
             && predsResult.Stored?) ==>
      resp.Ok? && |resp.data| == |daysResult.value|
      && forall i :: 0 <= i < |resp.data| ==> resp.data[i] == Summarize(daysResult.value[i], dmsResult.value, predsResult.value)
  {
    var code := TrimmedText(leagueCodeParam);
    var uid := TrimmedText(userIdParam);
    if code == "" || uid == "" {
      return Fail(400, "Missing leagueCode or userId"), [];
    }
    queries := [LoadDays(code)];
    if daysResult.StoreError? {
      return Fail(500, daysResult.message), queries;
    }
    var days := daysResult.value;
    if |Ids(days)| == 0 {
      return Ok([]), queries;
    }
    var more;
    resp, more := ReadLinks(days, uid, dmsResult, predsResult);
    queries := queries + more;
  }

  /** The reads after a non-empty list of days: links, then predictions. */
  method ReadLinks(days: seq<DayRow>, uid: string, dmsResult: StoreResult<seq<MatchRef>>,
                   predsResult: StoreResult<seq<MatchRef>>)
    returns (resp: Response<seq<DaySummary>>, queries: seq<Query>)
    ensures dmsResult.StoreError? ==> resp == Fail(500, dmsResult.message) && queries == [LoadDayMatches(Ids(days))]
    ensures dmsResult.Stored? ==> queries == [LoadDayMatches(Ids(days)), LoadPredictions(Ids(days), uid)]
    ensures dmsResult.Stored? && predsResult.StoreError? ==> resp == Fail(500, predsResult.message)
    ensures dmsResult.Stored? && predsResult.Stored? ==>
      resp.Ok? && |resp.data| == |days|
      && forall i :: 0 <= i < |resp.data| ==> resp.data[i] == Summarize(days[i], dmsResult.value, predsResult.value)
  {
    var ids := Ids(days);
    queries := [LoadDayMatches(ids)];
    if dmsResult.StoreError? {
      return Fail(500, dmsResult.message), queries;
    }
    queries := queries + [LoadPredictions(ids, uid)];
    if predsResult.StoreError? {
      return Fail(500, predsResult.message), queries;
    }
    var out := Overview(days, dmsResult.value, predsResult.value);
    return Ok(out), queries;
  }
}
