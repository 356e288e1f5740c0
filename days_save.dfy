/** The file-backed day store of the admin "days-save" endpoint: a list of day
    records keyed by matchday, upserted and then kept sorted by matchday. */
module DaysSave {
  import opened JsValues
  import opened Http
  import opened AdminAuth
  import Sorting

  /** One stored day. `deadlineAt` is whatever truthy value the request carried,
      or null; `featuredMatchExternalId` is None for null. */
  datatype Day = Day(
    id: string,
    sport: string,
    competitionCode: string,
    matchday: int,
    title: string,
    status: string,
    createdBy: string,
    createdAt: string,
    publishedAt: Option<string>,
    deadlineAt: JsValue,
    featuredMatchExternalId: Option<Num>,
    matches: seq<Num>,
    updatedAt: string)

  /** The normalised request the handler passes on to the upsert. */
  datatype Incoming = Incoming(matchday: int, deadlineAt: JsValue, featured: Option<Num>, matches: seq<Num>)

  function DayTitle(md: int): string
  {
    "Ligue 1 \U{2014} Journ\U{00E9}e " + Decimal(md)
  }

  /** findIndex on `Number(d.matchday) === md`: the first day with that matchday. */
  function FindMatchday(days: seq<Day>, md: int): (idx: Option<nat>)
    ensures idx.Some? ==> idx.value < |days| && days[idx.value].matchday == md
    ensures idx.Some? ==> forall k :: 0 <= k < idx.value ==> days[k].matchday != md
    ensures idx.None? <==> forall k :: 0 <= k < |days| ==> days[k].matchday != md
  {
    if days == [] then None
    else if days[0].matchday == md then Some(0)
    else
      match FindMatchday(days[1..], md)
      case Some(i) => Some(i + 1)
      case None => None
  }

  /** The record upsertDay builds: identity fields from the existing day of that
      matchday (or fresh ones), content fields from the request. */
  function NextDay(days: seq<Day>, inc: Incoming, now: string): (d: Day)
    ensures d.matchday == inc.matchday && d.updatedAt == now
  {
    var md := inc.matchday;
    var idx := FindMatchday(days, md);
    Day(
      if idx.Some? then days[idx.value].id else "day_" + Decimal(md),
      "football",
      "FL1",
      md,
      DayTitle(md),
      if idx.Some? then days[idx.value].status else "DRAFT",
      "admin_system",
      if idx.Some? then days[idx.value].createdAt else now,
      if idx.Some? then days[idx.value].publishedAt else None,
      inc.deadlineAt,
      inc.featured,
      inc.matches,
      now)
  }

  function CompareMatchday(a: Day, b: Day): int
  {
    a.matchday - b.matchday
  }

  function MatchdayOf(d: Day): int { d.matchday }

  /** The list after the replace-or-append step, before sorting. */
  function Placed(days: seq<Day>, inc: Incoming, now: string): (r: seq<Day>)
    ensures FindMatchday(days, inc.matchday).None? ==> |r| == |days| + 1 && r[..|days|] == days
    ensures FindMatchday(days, inc.matchday).Some? ==> |r| == |days|
    ensures NextDay(days, inc, now) in r
  {
    var next := NextDay(days, inc, now);
    match FindMatchday(days, inc.matchday)
    case Some(i) => assert days[i := next][i] == next; days[i := next]
    case None => days + [next]
  }

  /** `store.days` after upsertDay. */
  function Upserted(days: seq<Day>, inc: Incoming, now: string): (r: seq<Day>)
    ensures multiset(r) == multiset(Placed(days, inc, now))
  {
    Sorting.SortBy(Placed(days, inc, now), CompareMatchday)
  }

  /** What the upserted record keeps and what it takes from the request. */
  lemma NextDayFields(days: seq<Day>, inc: Incoming, now: string)
    ensures var d := NextDay(days, inc, now);
      && d.matchday == inc.matchday && d.title == DayTitle(inc.matchday)
      && d.sport == "football" && d.competitionCode == "FL1" && d.createdBy == "admin_system"
      && d.deadlineAt == inc.deadlineAt && d.featuredMatchExternalId == inc.featured
      && d.matches == inc.matches && d.updatedAt == now
    ensures var d := NextDay(days, inc, now);
      forall i :: 0 <= i < |days| && days[i].matchday == inc.matchday
                  && (forall k :: 0 <= k < i ==> days[k].matchday != inc.matchday) ==>
        d.id == days[i].id && d.status == days[i].status
        && d.createdAt == days[i].createdAt && d.publishedAt == days[i].publishedAt
    ensures var d := NextDay(days, inc, now);
      (forall k :: 0 <= k < |days| ==> days[k].matchday != inc.matchday) ==>
        d.id == "day_" + Decimal(inc.matchday) && d.status == "DRAFT"
        && d.createdAt == now && d.publishedAt.None?
  {
    var idx := FindMatchday(days, inc.matchday);
    forall i | 0 <= i < |days| && days[i].matchday == inc.matchday
               && (forall k :: 0 <= k < i ==> days[k].matchday != inc.matchday)
      ensures idx == Some(i)
    {
      assert idx.Some?;
    }
  }

  /** After an upsert the days are in non-decreasing matchday order. */
  lemma UpsertedSorted(days: seq<Day>, inc: Incoming, now: string)
    ensures var r := Upserted(days, inc, now);
      forall i, j :: 0 <= i < j < |r| ==> r[i].matchday <= r[j].matchday
  {
    var r := Upserted(days, inc, now);
    var key: Day -> int := MatchdayOf;
    var placed := Placed(days, inc, now);
    assert r == Sorting.SortBy(placed, CompareMatchday);
    Sorting.SortByKey(placed, CompareMatchday, key);
    forall i, j | 0 <= i < j < |r| ensures r[i].matchday <= r[j].matchday {
      assert key(r[i]) <= key(r[j]);
    }
  }

  /** The list grows by one exactly when the matchday was absent; the new record
      takes the place of the first day of its matchday and every other day
      stays, unchanged. */
  lemma UpsertedContents(days: seq<Day>, inc: Incoming, now: string)
    ensures var r := Upserted(days, inc, now);
      var next := NextDay(days, inc, now);
      var idx := FindMatchday(days, inc.matchday);
      && |r| == (if idx.None? then |days| + 1 else |days|)
      && (idx.None? ==> multiset(r) == multiset(days) + multiset{next})
      && (idx.Some? ==> multiset(r) == multiset(days) - multiset{days[idx.value]} + multiset{next})
  {
    var next := NextDay(days, inc, now);
    var placed := Placed(days, inc, now);
    match FindMatchday(days, inc.matchday)
    case Some(i) => {
      assert placed == days[i := next];
      assert multiset(placed) == multiset(days) - multiset{days[i]} + multiset{next} by {
        assert days == days[..i] + [days[i]] + days[i + 1..];
        assert placed == days[..i] + [next] + days[i + 1..];
      }
    }
    case None => {
      assert placed == days + [next];
    }
  }

  lemma PlacedUnique(days: seq<Day>, inc: Incoming, now: string)
    requires Sorting.KeyUnique(days, MatchdayOf)
    ensures Sorting.KeyUnique(Placed(days, inc, now), MatchdayOf)
    ensures NextDay(days, inc, now) in Placed(days, inc, now)
  {
    var next := NextDay(days, inc, now);
    var placed := Placed(days, inc, now);
    match FindMatchday(days, inc.matchday)
    case Some(i) => {
      forall a, b | 0 <= a < b < |placed| ensures placed[a].matchday != placed[b].matchday {
        assert placed[a].matchday == days[a].matchday && placed[b].matchday == days[b].matchday;
      }
      assert placed[i] == next;
    }
    case None => {
      forall a, b | 0 <= a < b < |placed| ensures placed[a].matchday != placed[b].matchday {
        if b == |days| { assert placed[a] == days[a]; }
        else { assert placed[a] == days[a] && placed[b] == days[b]; }
      }
      assert placed[|days|] == next;
    }
  }

  /** Matchdays that were unique stay unique, and the upserted matchday is present. */
  lemma UpsertedUnique(days: seq<Day>, inc: Incoming, now: string)
    requires Sorting.KeyUnique(days, MatchdayOf)
    ensures Sorting.KeyUnique(Upserted(days, inc, now), MatchdayOf)
    ensures NextDay(days, inc, now) in Upserted(days, inc, now)
  {
    var placed := Placed(days, inc, now);
    PlacedUnique(days, inc, now);
    Sorting.SortByKeyUnique(placed, CompareMatchday, MatchdayOf);
    assert NextDay(days, inc, now) in multiset(Upserted(days, inc, now));
  }

  /** The store file `/tmp/lnjp_days_store.json` as the handler finds it:
      missing, present but unreadable (a read error, text that is not JSON, or
      JSON without a `days` array), or holding a list of days. */
  datatype StoreFile = Missing | Unreadable | Holding(days: seq<Day>)

  /** safeReadStore: every failure reads as an empty list of days. */
  function SafeRead(f: StoreFile): (days: seq<Day>)
    ensures f.Holding? ==> days == f.days
    ensures !f.Holding? ==> days == []
  {
    if f.Holding? then f.days else []
  }

  /** A store that read as empty holds only the saved day afterwards: the days
      of an unreadable file are lost. */
  lemma UpsertIntoEmpty(inc: Incoming, now: string)
    ensures Upserted([], inc, now) == [NextDay([], inc, now)]
  {
    var placed := Placed([], inc, now);
    assert placed == [NextDay([], inc, now)];
    assert |Upserted([], inc, now)| == 1 && NextDay([], inc, now) in multiset(Upserted([], inc, now));
  }

  /** The store read into memory: a mutable list of days. */
  class DayStore {
    var days: seq<Day>

    /** safeReadStore */
    constructor Read(f: StoreFile)
      ensures days == SafeRead(f)
    {
      days := SafeRead(f);
    }

    /** upsertDay: overwrite or push, then sort the list in place. */
    method Upsert(inc: Incoming, now: string) returns (saved: Day)
      modifies this
      ensures saved == NextDay(old(days), inc, now)
      ensures days == Upserted(old(days), inc, now)
    {
      var idx := FindMatchday(days, inc.matchday);
      saved := NextDay(days, inc, now);
      if idx.Some? {
        days := days[idx.value := saved];
      } else {
        days := days + [saved];
      }
      days := Sorting.SortBy(days, CompareMatchday);
    }
  }

  /** The handler's verdict before it touches the store. */
  datatype Check = Reject(status: int, error: string) | Proceed(inc: Incoming)

  /** `req.body || {}` */
  function Body(reqBody: JsValue): (b: JsValue)
    ensures !IsNullish(b)
  {
    Or(reqBody, JObject(map[]))
  }

  function NumberItems(items: seq<JsValue>): (r: seq<Num>)
    ensures |r| == |items| && forall i :: 0 <= i < |items| ==> r[i] == ToNumber(items[i])
  {
    if items == [] then [] else [ToNumber(items[0])] + NumberItems(items[1..])
  }

  /** `Array.isArray(v) ? v.map(Number) : []` */
  function NumberList(v: JsValue): (r: seq<Num>)
    ensures !v.JArray? ==> r == []
    ensures v.JArray? ==> |r| == |v.items| && forall i :: 0 <= i < |r| ==> r[i] == ToNumber(v.items[i])
  {
    if v.JArray? then NumberItems(v.items) else []
  }

  /** The handler's guards in order (method, admin token, matchday) and the
      normalisation of the accepted body. */
  function CheckSave(verb: string, h: Headers, env: Env, reqBody: JsValue): (r: Check)
    ensures verb != "POST" ==> r == Reject(405, MethodNotAllowed)
    ensures verb == "POST" && AssertAdmin(h, env).Some? ==> r.Reject? && r.status == 401
    ensures verb == "POST" && AssertAdmin(h, env).None? ==>
      var md := ToNumber(Field(Body(reqBody), "matchday"));
      (r.Reject? <==> !(md.Int? && md.value > 0))
      && (r.Reject? ==> r == Reject(400, "matchday invalid"))
    ensures r.Proceed? ==>
      var body := Body(reqBody);
      var featured := Field(body, "featuredExternalMatchId");
      && ToNumber(Field(body, "matchday")) == Int(r.inc.matchday)
      && r.inc.matchday > 0
      && r.inc.deadlineAt == Or(Field(body, "deadlineAt"), JNull)
      && (r.inc.featured.None? <==> IsNullish(featured))
      && (r.inc.featured.Some? ==> r.inc.featured.value == ToNumber(featured))
      && r.inc.matches == NumberList(Field(body, "matches"))
  {
    if verb != "POST" then Reject(405, MethodNotAllowed)
    else
      var auth := AssertAdmin(h, env);
      if auth.Some? then Reject(CaughtStatus(auth.value), auth.value.message)
      else
        var body := Body(reqBody);
        var md := ToNumber(Field(body, "matchday"));
        if !(md.Int? && md.value > 0) then Reject(400, "matchday invalid")
        else
          var featured := Field(body, "featuredExternalMatchId");
          Proceed(Incoming(
            md.value,
            Or(Field(body, "deadlineAt"), JNull),
            if IsNullish(featured) then None else Some(ToNumber(featured)),
            NumberList(Field(body, "matches"))))
  }

  /** The outer catch's message: `e?.message || "Server error"`. */
  function CaughtMessage(e: Thrown): (m: string)
    ensures m != ""
    ensures e.message != "" ==> m == e.message
  {
    if e.message == "" then "Server error" else e.message
  }

  /** The handler. `file` is the store file before the request, `writeError`
      what writeFileSync throws, if anything; `after` is the file afterwards. A
      rejected request does not touch the file; an accepted one upserts into
      what safeReadStore read and writes the list back, and a failing write
      answers through the outer catch and leaves the file as it was. */
  method HandleDaysSave(file: StoreFile, writeError: Option<Thrown>, verb: string, h: Headers, env: Env,
                        reqBody: JsValue, now: string)
    returns (resp: Response<Day>, after: StoreFile)
    ensures var c := CheckSave(verb, h, env, reqBody);
      c.Reject? ==> resp == Fail(c.status, c.error) && after == file
    ensures var c := CheckSave(verb, h, env, reqBody);
      c.Proceed? && writeError.None? ==>
        && resp == Ok(NextDay(SafeRead(file), c.inc, now))
        && after == Holding(Upserted(SafeRead(file), c.inc, now))
    ensures var c := CheckSave(verb, h, env, reqBody);
      c.Proceed? && writeError.Some? ==>
        resp == Fail(CaughtStatus(writeError.value), CaughtMessage(writeError.value)) && after == file
  {
    var c := CheckSave(verb, h, env, reqBody);
    if c.Reject? {
      return Fail(c.status, c.error), file;
    }
    var store := new DayStore.Read(file);
    var saved := store.Upsert(c.inc, now);
    if writeError.Some? {
      return Fail(CaughtStatus(writeError.value), CaughtMessage(writeError.value)), file;
    }
    return Ok(saved), Holding(store.days);
  }
}
