/** The match-day editor of the admin page: the deadline derived from the selected
    kickoffs, the default featured match, the selection toggles, the featured-match
    reset that follows every change of selection, and the guards of "save". */
module AdminDays {
  import opened JsValues
  import Sorting

  /** `hoursBefore * 60 * 60 * 1000`: the lead of the deadline, in milliseconds. */
  function LeadMs(hoursBefore: int): (ms: int)
    ensures hoursBefore > 0 ==> ms > 0
  {
    hoursBefore * 3_600_000
  }

  /** A fixture as the editor lists it. `kickoff` is the instant in milliseconds,
      None when `utcDate` is missing or does not parse (getTime() is NaN). */
  datatype Match = Match(id: int, kickoff: Option<int>, status: string, homeTeam: string, awayTeam: string)

  /** The `featuredId` string state: "" is Unset, String(n) is Chosen(n).
      Number(String(n)) == n (JsValues.NumberOfDecimal), so Number(featuredId) is `id`. */
  datatype FeaturedId = Unset | Chosen(id: int)

  predicate Dated(m: Match) { m.kickoff.Some? }

  /** The kickoff instant of a dated match (0 stands in for the others). */
  function Instant(m: Match): int { if m.kickoff.Some? then m.kickoff.value else 0 }

  // ---------------------------------------------------------------------------
  // computeDeadlineFromMatches

  /** The usable kickoff instants, in list order. */
  function Kickoffs(ms: seq<Match>): (ts: seq<int>)
    ensures forall t :: t in ts <==> exists m :: m in ms && m.kickoff == Some(t)
    ensures ts == [] <==> forall m :: m in ms ==> !Dated(m)
  {
    if ms == [] then []
    else
      var rest := Kickoffs(ms[1..]);
      assert forall m :: m in ms[1..] ==> m in ms;
      assert forall m :: m in ms ==> m == ms[0] || m in ms[1..];
      if ms[0].kickoff.Some? then [ms[0].kickoff.value] + rest else rest
  }

  function MinOf(ts: seq<int>): (r: int)
    requires ts != []
    ensures r in ts && forall t :: t in ts ==> r <= t
  {
    if |ts| == 1 then ts[0]
    else
      var rest := MinOf(ts[1..]);
      assert forall t :: t in ts ==> t == ts[0] || t in ts[1..];
      if ts[0] <= rest then ts[0] else rest
  }

  /** Earliest usable kickoff minus `hoursBefore` hours; None when no kickoff is usable. */
  function ComputeDeadline(ms: seq<Match>, hoursBefore: int): (r: Option<int>)
    ensures r.None? <==> Kickoffs(ms) == []
    ensures r.Some? && hoursBefore > 0 ==> r.value < MinOf(Kickoffs(ms))
  {
    if Kickoffs(ms) == [] then None else Some(MinOf(Kickoffs(ms)) - LeadMs(hoursBefore))
  }

  /** The deadline exists exactly when some match is dated; it then lies
      `hoursBefore` hours before the earliest kickoff, and strictly before every
      kickoff when the lead is positive. */
  lemma DeadlineBeforeKickoffs(ms: seq<Match>, hoursBefore: int)
    ensures var r := ComputeDeadline(ms, hoursBefore);
      && (r.None? <==> forall m :: m in ms ==> !Dated(m))
      && (r.Some? ==> exists m :: m in ms && m.kickoff == Some(r.value + LeadMs(hoursBefore)))
      && (r.Some? ==> forall m :: m in ms && Dated(m) ==> r.value + LeadMs(hoursBefore) <= m.kickoff.value)
      && (r.Some? && hoursBefore > 0 ==> forall m :: m in ms && Dated(m) ==> r.value < m.kickoff.value)
  {
    var r := ComputeDeadline(ms, hoursBefore);
    if Kickoffs(ms) != [] {
      var first := MinOf(Kickoffs(ms));
      EarliestKickoff(ms);
      assert r.value + LeadMs(hoursBefore) == first;
    }
  }

  /** The least usable kickoff is the kickoff of one of the matches, and no
      dated match kicks off before it. */
  lemma EarliestKickoff(ms: seq<Match>)
    requires Kickoffs(ms) != []
    ensures exists m :: m in ms && m.kickoff == Some(MinOf(Kickoffs(ms)))
    ensures forall m :: m in ms && Dated(m) ==> MinOf(Kickoffs(ms)) <= m.kickoff.value
  {
    var times := Kickoffs(ms);
    var first := MinOf(times);
    forall m | m in ms && Dated(m) ensures first <= m.kickoff.value {
      assert m.kickoff.value in times;
    }
  }

  // ---------------------------------------------------------------------------
  // sortByDate and pickDefaultFeatured

  /** The comparator of sortByDate: the difference of the kickoff instants. When one
      of them is NaN the difference is NaN, which the sort reads as +0. */
  function CompareKickoff(a: Match, b: Match): (c: int)
    ensures c < 0 <==> Dated(a) && Dated(b) && a.kickoff.value < b.kickoff.value
    ensures c > 0 <==> Dated(a) && Dated(b) && a.kickoff.value > b.kickoff.value
  {
    if a.kickoff.Some? && b.kickoff.Some? then a.kickoff.value - b.kickoff.value else 0
  }

  /** A copy of the list, stably sorted by kickoff; the input is not changed. */
  function SortByDate(ms: seq<Match>): (r: seq<Match>)
    ensures |r| == |ms| && multiset(r) == multiset(ms)
  {
    Sorting.SortBy(ms, CompareKickoff)
  }

  /** sortByDate returns a permutation of its input, in non-decreasing kickoff
      order when every kickoff is usable. */
  lemma SortByDateSorted(ms: seq<Match>)
    ensures |SortByDate(ms)| == |ms| && multiset(SortByDate(ms)) == multiset(ms)
    ensures (forall m :: m in ms ==> Dated(m)) ==>
      var r := SortByDate(ms);
      forall i, j :: 0 <= i < j < |r| ==> Instant(r[i]) <= Instant(r[j])
  {
    if forall m :: m in ms ==> Dated(m) {
      var cmp := CompareKickoff;
      forall a, b | a in ms && b in ms && cmp(a, b) > 0 ensures cmp(b, a) <= 0 {
      }
      forall a, b, c | a in ms && b in ms && c in ms && cmp(a, b) <= 0 && cmp(b, c) <= 0
        ensures cmp(a, c) <= 0
      {
        assert Dated(a) && Dated(b) && Dated(c);
      }
      assert Sorting.Consistent(cmp, ms);
      Sorting.SortBySorted(ms, cmp);
      var r := SortByDate(ms);
      forall i, j | 0 <= i < j < |r| ensures Instant(r[i]) <= Instant(r[j]) {
        assert r[i] in multiset(ms) && r[j] in multiset(ms);
        assert Dated(r[i]) && Dated(r[j]);
        assert CompareKickoff(r[i], r[j]) <= 0;
      }
    }
  }

  /** The id of the last match after sorting by date, Unset for an empty list. */
  function PickDefaultFeatured(ms: seq<Match>): (r: FeaturedId)
    ensures r.Unset? <==> ms == []
    ensures r.Chosen? ==> exists m :: m in ms && m.id == r.id
  {
    var s := SortByDate(ms);
    if s == [] then Unset
    else
      assert s[|s| - 1] in multiset(ms);
      Chosen(s[|s| - 1].id)
  }

  /** When every kickoff is usable, the default featured match is one with the
      latest kickoff. */
  lemma DefaultFeaturedIsLatest(ms: seq<Match>)
    requires ms != []
    requires forall m :: m in ms ==> Dated(m)
    ensures exists m :: m in ms && Chosen(m.id) == PickDefaultFeatured(ms)
                     && forall m' :: m' in ms ==> Instant(m') <= Instant(m)
  {
    SortByDateSorted(ms);
    var s := SortByDate(ms);
    var last := s[|s| - 1];
    assert last in multiset(ms);
    forall m' | m' in ms ensures Instant(m') <= Instant(last) {
      assert m' in multiset(s);
      var k :| 0 <= k < |s| && s[k] == m';
      if k < |s| - 1 {
        assert Instant(s[k]) <= Instant(s[|s| - 1]);
      }
    }
  }

  // ---------------------------------------------------------------------------
  // selectedMatchObjects

  /** `a` is `b` with some elements left out, the rest in the same order. */
  ghost predicate SubsequenceOf<T>(a: seq<T>, b: seq<T>)
    decreases |b|
  {
    if a == [] then true
    else if b == [] then false
    else (a[0] == b[0] && SubsequenceOf(a[1..], b[1..])) || SubsequenceOf(a, b[1..])
  }

  /** The editor's matches whose id is selected, in the editor's order. */
  function SelectedMatchObjects(editorMatches: seq<Match>, selectedIds: seq<int>): (r: seq<Match>)
    ensures SubsequenceOf(r, editorMatches)
    ensures forall m :: multiset(r)[m] == if m.id in selectedIds then multiset(editorMatches)[m] else 0
    ensures forall m :: m in r <==> m in editorMatches && m.id in selectedIds
  {
    if editorMatches == [] then []
    else
      var m0 := editorMatches[0];
      var rest := SelectedMatchObjects(editorMatches[1..], selectedIds);
      assert editorMatches == [m0] + editorMatches[1..];
      if m0.id in selectedIds then
        assert ([m0] + rest)[1..] == rest;
        [m0] + rest
      else
        assert rest == [] || SubsequenceOf(rest, editorMatches[1..]);
        rest
  }

  function Ids(ms: seq<Match>): (ids: set<int>)
    ensures forall n :: n in ids <==> exists m :: m in ms && m.id == n
  {
    set m | m in ms :: m.id
  }

  // ---------------------------------------------------------------------------
  // toggle

  function Without(ids: seq<int>, n: int): (r: seq<int>)
    ensures forall x :: x in r <==> x in ids && x != n
    ensures SubsequenceOf(r, ids)
    ensures n !in ids ==> r == ids
    ensures forall x :: x != n ==> multiset(r)[x] == multiset(ids)[x]
  {
    if ids == [] then []
    else
      var rest := Without(ids[1..], n);
      assert ids == [ids[0]] + ids[1..];
      if ids[0] == n then
        assert rest == [] || SubsequenceOf(rest, ids[1..]);
        rest
      else
        assert ([ids[0]] + rest)[1..] == rest;
        [ids[0]] + rest
  }

  /** toggle(id): an id already selected is removed, any other is appended. */
  function Toggled(ids: seq<int>, n: int): (r: seq<int>)
    ensures n in ids ==> n !in r && SubsequenceOf(r, ids)
    ensures n !in ids ==> r == ids + [n]
    ensures forall x :: x != n ==> (x in r <==> x in ids)
  {
    if n in ids then Without(ids, n) else ids + [n]
  }

  /** Toggling the same id twice restores which ids are selected; when the id
      was not selected, it restores the list itself. */
  lemma ToggleTwice(ids: seq<int>, n: int)
    ensures forall x :: x in Toggled(Toggled(ids, n), n) <==> x in ids
    ensures n !in ids ==> Toggled(Toggled(ids, n), n) == ids
  {
    var once := Toggled(ids, n);
    if n !in ids {
      assert n in once;
      assert Without(once, n) == ids by {
        WithoutAppended(ids, n);
      }
    }
  }

  lemma {:induction false} WithoutAppended(ids: seq<int>, n: int)
    requires n !in ids
    ensures Without(ids + [n], n) == ids
  {
    if ids == [] {
      assert [n][1..] == [];
    } else {
      assert (ids + [n])[1..] == ids[1..] + [n];
      WithoutAppended(ids[1..], n);
      assert ids == [ids[0]] + ids[1..];
    }
  }

  // ---------------------------------------------------------------------------
  // featured auto-reset

  /** The effect that runs when the selection changes: with a non-empty selection,
      an unset featured id or one outside the selection becomes the default. */
  function ResetFeatured(selected: seq<Match>, featured: FeaturedId): (r: FeaturedId)
    ensures selected == [] ==> r == featured
    ensures selected != [] ==> r.Chosen? && r.id in Ids(selected)
    ensures featured.Chosen? && featured.id in Ids(selected) ==> r == featured
    ensures selected != [] && (featured.Unset? || featured.id !in Ids(selected)) ==>
      r == PickDefaultFeatured(selected)
  {
    if selected == [] then featured
    else if featured.Unset? || featured.id !in Ids(selected) then PickDefaultFeatured(selected)
    else featured
  }

  // ---------------------------------------------------------------------------
  // save

  datatype SaveError = NoSelection | NoDeadline | NoFeatured

  /** One entry of the publish payload. */
  datatype PayloadMatch = PayloadMatch(externalMatchId: int, kickoff: Option<int>, status: string, homeTeam: string, awayTeam: string)

  datatype PublishPayload = PublishPayload(leagueCode: string, matchday: Num, featuredExternalMatchId: int, matches: seq<PayloadMatch>)

  datatype SaveOutcome = Rejected(error: SaveError) | Send(payload: PublishPayload)

  /** `{ externalMatchId: Number(m.id), utcDate, status, homeTeam, awayTeam }`:
      the id is already a number, so the payload names the same match. */
  function ToPayloadMatch(m: Match): (p: PayloadMatch)
    ensures p.externalMatchId == m.id && p.kickoff == m.kickoff
  {
    PayloadMatch(m.id, m.kickoff, m.status, m.homeTeam, m.awayTeam)
  }

  function PayloadMatches(selected: seq<Match>): (r: seq<PayloadMatch>)
    ensures |r| == |selected|
    ensures forall i :: 0 <= i < |r| ==> r[i] == ToPayloadMatch(selected[i])
  {
    if selected == [] then [] else [ToPayloadMatch(selected[0])] + PayloadMatches(selected[1..])
  }

  /** The guards of save, in source order, and the payload it posts. */
  function SaveDecision(leagueCode: string, matchday: Num, selected: seq<Match>, featured: FeaturedId): (r: SaveOutcome)
    ensures !Truthy(JNum(matchday)) || selected == [] ==> r == Rejected(NoSelection)
    ensures Truthy(JNum(matchday)) && selected != [] && ComputeDeadline(selected, 1).None? ==> r == Rejected(NoDeadline)
    ensures Truthy(JNum(matchday)) && selected != [] && ComputeDeadline(selected, 1).Some? && featured.Unset? ==>
      r == Rejected(NoFeatured)
    ensures r.Send? <==> Truthy(JNum(matchday)) && selected != [] && ComputeDeadline(selected, 1).Some? && featured.Chosen?
    ensures r.Send? ==>
      && r.payload.leagueCode == leagueCode && r.payload.matchday == matchday
      && r.payload.featuredExternalMatchId == featured.id
      && |r.payload.matches| == |selected|
      && forall i :: 0 <= i < |selected| ==> r.payload.matches[i].externalMatchId == selected[i].id
  {
    if !Truthy(JNum(matchday)) || selected == [] then Rejected(NoSelection)
    else if ComputeDeadline(selected, 1).None? then Rejected(NoDeadline)
    else if featured.Unset? then Rejected(NoFeatured)
    else Send(PublishPayload(leagueCode, matchday, featured.id, PayloadMatches(selected)))
  }

  /** After the reset effect, a selection with a usable kickoff always reaches the
      post, and the featured id it sends is one of the posted matches. */
  lemma SaveAfterReset(leagueCode: string, matchday: Num, selected: seq<Match>, featured: FeaturedId)
    requires Truthy(JNum(matchday))
    requires exists m :: m in selected && Dated(m)
    ensures var r := SaveDecision(leagueCode, matchday, selected, ResetFeatured(selected, featured));
      r.Send? && exists i :: 0 <= i < |r.payload.matches| && r.payload.matches[i].externalMatchId == r.payload.featuredExternalMatchId
  {
    var f := ResetFeatured(selected, featured);
    var r := SaveDecision(leagueCode, matchday, selected, f);
    assert f.id in Ids(selected);
    var m :| m in selected && m.id == f.id;
    var i :| 0 <= i < |selected| && selected[i] == m;
    assert r.payload.matches[i].externalMatchId == f.id;
  }

  datatype SaveResult = NoResult | Failed(error: SaveError) | Posted(payload: PublishPayload)

  /** The editor state of one match day. */
  class DayEditor {
    var leagueCode: string
    var matchday: Num
    var editorMatches: seq<Match>
    var selectedIds: seq<int>
    var featured: FeaturedId
    var saveResult: SaveResult

    function Selected(): seq<Match>
      reads this
    {
      SelectedMatchObjects(editorMatches, selectedIds)
    }

    function Deadline(): Option<int>
      reads this
    {
      ComputeDeadline(Selected(), 1)
    }

    /** openCreate: the round's matches sorted by date, nothing selected, and the
        latest match proposed as featured. */
    constructor OpenCreate(league: string, md: JsValue, matches: seq<Match>)
      ensures leagueCode == league && matchday == ToNumber(md)
      ensures editorMatches == SortByDate(matches) && multiset(editorMatches) == multiset(matches)
      ensures selectedIds == [] && Selected() == []
      ensures featured == PickDefaultFeatured(editorMatches)
      ensures featured.Unset? <==> matches == []
      ensures saveResult == NoResult
    {
      leagueCode := league;
      matchday := ToNumber(md);
      var sorted := SortByDate(matches);
      assert |sorted| == |matches| && multiset(sorted) == multiset(matches) by {
        SortByDateSorted(matches);
      }
      editorMatches := sorted;
      selectedIds := [];
      featured := PickDefaultFeatured(sorted);
      saveResult := NoResult;
    }

    method Toggle(id: int)
      modifies this`selectedIds
      ensures selectedIds == Toggled(old(selectedIds), id)
      ensures id in selectedIds <==> id !in old(selectedIds)
    {
      selectedIds := Toggled(selectedIds, id);
    }

    /** The effect on `selectedMatchObjects`. */
    method ResetFeaturedEffect()
      modifies this`featured
      ensures featured == ResetFeatured(Selected(), old(featured))
      ensures Selected() != [] ==> featured.Chosen? && featured.id in Ids(Selected())
    {
      featured := ResetFeatured(Selected(), featured);
    }

    /** save(): clears the previous result, then either records the first failing
        guard or posts the payload (the server's answer is not modelled). */
    method Save() returns (posted: Option<PublishPayload>)
      modifies this`saveResult
      ensures var d := SaveDecision(leagueCode, matchday, Selected(), featured);
        (d.Rejected? ==> posted == None && saveResult == Failed(d.error))
        && (d.Send? ==> posted == Some(d.payload) && saveResult == Posted(d.payload))
    {
      saveResult := NoResult;
      var d := SaveDecision(leagueCode, matchday, Selected(), featured);
      if d.Rejected? {
        saveResult := Failed(d.error);
        posted := None;
      } else {
        saveResult := Posted(d.payload);
        posted := Some(d.payload);
      }
    }
  }
}
