/** The admin "football-fl1-upcoming" action: the fetched Ligue 1 fixtures are
    grouped by matchday, and the rounds after the current one are offered, at
    most `count` of them. The fetch itself is not modelled; its list is given. */
module Fl1Upcoming {
  import opened JsValues
  import opened Http
  import Sorting

  /** One fixture of the fetched list, as an object with these fields. */
  datatype Fixture = Fixture(id: JsValue, matchday: JsValue, utcDate: JsValue, status: JsValue,
                             homeTeam: JsValue, awayTeam: JsValue)

  datatype TeamSummary = TeamSummary(id: JsValue, name: JsValue, crest: JsValue)

  /** The entry a group holds for one fixture. */
  datatype RoundMatch = RoundMatch(externalMatchId: JsValue, utcDate: JsValue, status: JsValue,
                                   homeTeam: TeamSummary, awayTeam: TeamSummary)

  datatype Round = Round(matchday: int, matches: seq<RoundMatch>)

  // ---------------------------------------------------------------------------
  // count

  /** Math.max on numbers: NaN if either is NaN. */
  function MathMax(a: Num, b: Num): (r: Num)
    ensures r.NaN? <==> a.NaN? || b.NaN?
  {
    if a.NaN? || b.NaN? then NaN
    else if a.Infinity? then (if a.positive then a else b)
    else if b.Infinity? then (if b.positive then b else a)
    else if a.value >= b.value then a else b
  }

  /** Math.min on numbers: NaN if either is NaN. */
  function MathMin(a: Num, b: Num): (r: Num)
    ensures r.NaN? <==> a.NaN? || b.NaN?
  {
    if a.NaN? || b.NaN? then NaN
    else if a.Infinity? then (if a.positive then b else a)
    else if b.Infinity? then (if b.positive then a else b)
    else if a.value <= b.value then a else b
  }

  /** `Math.min(Math.max(Number(query.count || 5), 1), 10)` */
  function ClampCount(q: JsValue): (c: Num)
    ensures !Truthy(q) ==> c == Int(5)
    ensures c.NaN? <==> ToNumber(Or(q, JNum(Int(5)))).NaN?
    ensures !c.NaN? ==> c.Int? && 1 <= c.value <= 10
    ensures ToNumber(Or(q, JNum(Int(5)))).Int? && 1 <= ToNumber(Or(q, JNum(Int(5)))).value <= 10 ==>
      c == ToNumber(Or(q, JNum(Int(5))))
  {
    MathMin(MathMax(ToNumber(Or(q, JNum(Int(5)))), Int(1)), Int(10))
  }

  /** `selected.length >= count` */
  predicate ReachedCount(n: nat, count: Num)
  {
    match count
    case Int(c) => n >= c
    case NaN => false
    case Infinity(positive) => !positive
  }

  // ---------------------------------------------------------------------------
  // currentMatchday

  /** A raw matchday that passes Number.isFinite (no coercion: strings do not). */
  predicate RawFinite(f: Fixture) { f.matchday.JNum? && f.matchday.n.Int? }

  /** `mdList.length ? Math.min(...mdList) : null` */
  function CurrentMatchday(fs: seq<Fixture>): (r: Option<int>)
    ensures r.None? <==> forall f :: f in fs ==> !RawFinite(f)
    ensures r.Some? ==> exists f :: f in fs && f.matchday == JNum(Int(r.value))
    ensures r.Some? ==> forall f :: f in fs && RawFinite(f) ==> r.value <= f.matchday.n.value
  {
    if fs == [] then None
    else
      var rest := CurrentMatchday(fs[1..]);
      assert forall f :: f in fs <==> f == fs[0] || f in fs[1..] by {
        assert fs == [fs[0]] + fs[1..];
      }
      if !RawFinite(fs[0]) then rest
      else if rest.None? || fs[0].matchday.n.value <= rest.value then Some(fs[0].matchday.n.value)
      else rest
  }

  /** `currentMatchday ? currentMatchday + 1 : null`; a current matchday of 0 is falsy. */
  function StartOf(current: Option<int>): (start: Option<int>)
    ensures start.Some? <==> current.Some? && current.value != 0
    ensures start.Some? ==> start.value == current.value + 1
  {
    if current.Some? && current.value != 0 then Some(current.value + 1) else None
  }

  // ---------------------------------------------------------------------------
  // grouping

  /** `Number(m.matchday)` when it is finite. */
  function GroupKey(f: Fixture): (k: Option<int>)
    ensures k.Some? <==> ToNumber(f.matchday).Int?
    ensures k.Some? ==> ToNumber(f.matchday) == Int(k.value)
  {
    var n := ToNumber(f.matchday);
    if n.Int? then Some(n.value) else None
  }

  /** `{ id: t?.id, name: t?.shortName || t?.name, crest: t?.crest }` */
  function Team(t: JsValue): (r: TeamSummary)
    ensures IsNullish(t) ==> r == TeamSummary(JUndefined, JUndefined, JUndefined)
    ensures Truthy(OptField(t, "shortName")) ==> r.name == OptField(t, "shortName")
    ensures !Truthy(OptField(t, "shortName")) ==> r.name == OptField(t, "name")
  {
    TeamSummary(OptField(t, "id"), Or(OptField(t, "shortName"), OptField(t, "name")), OptField(t, "crest"))
  }

  function EntryOf(f: Fixture): (r: RoundMatch)
    ensures r.externalMatchId == f.id && r.utcDate == f.utcDate && r.status == f.status
  {
    RoundMatch(f.id, f.utcDate, f.status, Team(f.homeTeam), Team(f.awayTeam))
  }

  /** The entries of the fixtures whose matchday is `md`, in fetch order. */
  function GroupOf(fs: seq<Fixture>, md: int): (g: seq<RoundMatch>)
    ensures |g| <= |fs|
  {
    if fs == [] then []
    else
      var prev := GroupOf(fs[..|fs| - 1], md);
      var last := fs[|fs| - 1];
      if GroupKey(last) == Some(md) then prev + [EntryOf(last)] else prev
  }

  /** The matchdays present in the list. */
  ghost predicate HasMatchday(fs: seq<Fixture>, md: int)
  {
    exists f :: f in fs && GroupKey(f) == Some(md)
  }

  /** The loop invariant of the grouping: the keys are the matchdays seen so
      far, each once, and each group holds the entries of its matchday. */
  ghost predicate Grouped(fs: seq<Fixture>, keys: seq<int>, groups: map<int, seq<RoundMatch>>)
  {
    && (forall md :: md in keys <==> HasMatchday(fs, md))
    && (forall a, b :: 0 <= a < b < |keys| ==> keys[a] != keys[b])
    && (forall md :: md in groups <==> md in keys)
    && (forall md :: md in groups ==> groups[md] == GroupOf(fs, md))
  }

  /** The grouping loop: a Map from matchday to its entries, its keys in
      first-seen order. */
  method GroupByMatchday(fs: seq<Fixture>) returns (keys: seq<int>, groups: map<int, seq<RoundMatch>>)
    ensures forall md :: md in keys <==> HasMatchday(fs, md)
    ensures forall i, j :: 0 <= i < j < |keys| ==> keys[i] != keys[j]
    ensures forall md :: md in groups <==> md in keys
    ensures forall md :: md in groups ==> groups[md] == GroupOf(fs, md)
  {
    keys, groups := [], map[];
    var i := 0;
    while i < |fs|
      invariant 0 <= i <= |fs|
      invariant Grouped(fs[..i], keys, groups)
    {
      var f := fs[i];
      var key := GroupKey(f);
      if key.None? {
        GroupedSkip(fs, i, keys, groups);
      } else if key.value in groups {
        var md := key.value;
        GroupedPush(fs, i, keys, groups);
        groups := groups[md := groups[md] + [EntryOf(f)]];
      } else {
        // a new matchday: `groups.set(md, [])`, then the push
        var md := key.value;
        GroupedNew(fs, i, keys, groups);
        keys := keys + [md];
        groups := groups[md := [EntryOf(f)]];
      }
      i := i + 1;
    }
    assert fs[..i] == fs;
  }

  /** One fixture more: how the matchdays seen and the groups grow. */
  lemma GroupStep(fs: seq<Fixture>, i: nat)
    requires i < |fs|
    ensures forall md :: HasMatchday(fs[..i + 1], md) <==> HasMatchday(fs[..i], md) || GroupKey(fs[i]) == Some(md)
    ensures forall md ::
              GroupOf(fs[..i + 1], md) == GroupOf(fs[..i], md) + (if GroupKey(fs[i]) == Some(md) then [EntryOf(fs[i])] else [])
  {
    forall md ensures HasMatchday(fs[..i + 1], md) <==> HasMatchday(fs[..i], md) || GroupKey(fs[i]) == Some(md) {
      HasMatchdayStep(fs, i, md);
    }
    assert fs[..i + 1][..i] == fs[..i];
  }

  lemma GroupedSkip(fs: seq<Fixture>, i: nat, keys: seq<int>, groups: map<int, seq<RoundMatch>>)
    requires i < |fs| && GroupKey(fs[i]).None? && Grouped(fs[..i], keys, groups)
    ensures Grouped(fs[..i + 1], keys, groups)
  {
    GroupStep(fs, i);
  }

  lemma GroupedPush(fs: seq<Fixture>, i: nat, keys: seq<int>, groups: map<int, seq<RoundMatch>>)
    requires i < |fs| && GroupKey(fs[i]).Some? && GroupKey(fs[i]).value in groups
    requires Grouped(fs[..i], keys, groups)
    ensures var md := GroupKey(fs[i]).value;
      Grouped(fs[..i + 1], keys, groups[md := groups[md] + [EntryOf(fs[i])]])
  {
    GroupStep(fs, i);
  }

  lemma GroupedNew(fs: seq<Fixture>, i: nat, keys: seq<int>, groups: map<int, seq<RoundMatch>>)
    requires i < |fs| && GroupKey(fs[i]).Some? && GroupKey(fs[i]).value !in groups
    requires Grouped(fs[..i], keys, groups)
    ensures var md := GroupKey(fs[i]).value;
      Grouped(fs[..i + 1], keys + [md], groups[md := [EntryOf(fs[i])]])
  {
    var md := GroupKey(fs[i]).value;
    GroupStep(fs, i);
    GroupOfAbsent(fs[..i], md);
    assert GroupOf(fs[..i + 1], md) == [EntryOf(fs[i])];
  }

  lemma HasMatchdayStep(fs: seq<Fixture>, i: nat, md: int)
    requires i < |fs|
    ensures HasMatchday(fs[..i + 1], md) <==> HasMatchday(fs[..i], md) || GroupKey(fs[i]) == Some(md)
  {
    assert forall g :: g in fs[..i + 1] <==> g in fs[..i] || g == fs[i] by {
      assert fs[..i + 1] == fs[..i] + [fs[i]];
    }
  }

  lemma {:induction false} GroupOfAbsent(fs: seq<Fixture>, md: int)
    requires !HasMatchday(fs, md)
    ensures GroupOf(fs, md) == []
  {
    if fs != [] {
      var init := fs[..|fs| - 1];
      assert forall f :: f in init ==> f in fs;
      assert fs[|fs| - 1] in fs;
      GroupOfAbsent(init, md);
    }
  }

  /** Every fixture with a finite matchday lands in exactly the group of that
      matchday: the groups together hold all of them. */
  lemma {:induction false} GroupSizes(fs: seq<Fixture>, md: int)
    ensures |GroupOf(fs, md)| == |FixturesOf(fs, md)|
    ensures forall k :: 0 <= k < |GroupOf(fs, md)| ==> GroupOf(fs, md)[k] == EntryOf(FixturesOf(fs, md)[k])
  {
    if fs != [] {
      GroupSizes(fs[..|fs| - 1], md);
    }
  }

  /** The fixtures of matchday `md`, in fetch order. */
  function FixturesOf(fs: seq<Fixture>, md: int): (r: seq<Fixture>)
    ensures forall f :: f in r <==> f in fs && GroupKey(f) == Some(md)
  {
    if fs == [] then []
    else
      var init := fs[..|fs| - 1];
      var last := fs[|fs| - 1];
      assert forall f :: f in fs <==> f in init || f == last by {
        assert fs == init + [last];
      }
      var prev := FixturesOf(init, md);
      if GroupKey(last) == Some(md) then prev + [last] else prev
  }

  // ---------------------------------------------------------------------------
  // selection

  function Diff(a: int, b: int): int { a - b }

  /** `Array.from(groups.keys()).sort((a, b) => a - b)` */
  function SortedMatchdays(keys: seq<int>): (r: seq<int>)
    ensures |r| == |keys| && multiset(r) == multiset(keys)
  {
    Sorting.SortBy(keys, Diff)
  }

  function Id(x: int): int { x }

  /** Strictly increasing: sorted and without repeats. */
  predicate Increasing(s: seq<int>)
  {
    forall i, j :: 0 <= i < j < |s| ==> s[i] < s[j]
  }

  /** `md < start` is skipped when there is a start. */
  function Eligible(md: int, start: Option<int>): (e: bool)
    ensures start.None? ==> e
    ensures start.Some? ==> (e <==> md >= start.value)
  {
    !(start.Some? && md < start.value)
  }

  /** The sorted matchdays that are not skipped, in order. */
  function EligibleOf(s: seq<int>, start: Option<int>): (r: seq<int>)
    ensures |r| <= |s|
  {
    if s == [] then []
    else EligibleOf(s[..|s| - 1], start) + (if Eligible(s[|s| - 1], start) then [s[|s| - 1]] else [])
  }

  /** The filter keeps exactly the eligible matchdays. */
  lemma {:induction false} EligibleMembers(s: seq<int>, start: Option<int>)
    ensures forall md :: md in EligibleOf(s, start) <==> md in s && Eligible(md, start)
  {
    if s != [] {
      var init := s[..|s| - 1];
      EligibleMembers(init, start);
      assert forall x :: x in s <==> x in init || x == s[|s| - 1] by {
        assert s == init + [s[|s| - 1]];
      }
    }
  }

  lemma EligibleStep(s: seq<int>, j: nat, start: Option<int>)
    requires j < |s|
    ensures EligibleOf(s[..j + 1], start) == EligibleOf(s[..j], start) + (if Eligible(s[j], start) then [s[j]] else [])
  {
    assert s[..j + 1][..j] == s[..j];
  }

  lemma {:induction false} EligiblePrefix(s: seq<int>, j: nat, start: Option<int>)
    requires j <= |s|
    ensures |EligibleOf(s[..j], start)| <= |EligibleOf(s, start)|
    ensures EligibleOf(s[..j], start) == EligibleOf(s, start)[..|EligibleOf(s[..j], start)|]
    decreases |s| - j
  {
    if j == |s| {
      assert s[..j] == s;
    } else {
      var a := EligibleOf(s[..j], start);
      var b := EligibleOf(s[..j + 1], start);
      var c := EligibleOf(s, start);
      EligiblePrefix(s, j + 1, start);
      assert |b| <= |c| && b == c[..|b|];
      EligibleStep(s, j, start);
      assert |a| <= |b| && b[..|a|] == a;
      assert c[..|a|] == c[..|b|][..|a|];
    }
  }

  lemma {:induction false} EligibleOrder(s: seq<int>, start: Option<int>)
    requires Increasing(s)
    ensures Increasing(EligibleOf(s, start))
  {
    if s != [] {
      var init := s[..|s| - 1];
      var last := s[|s| - 1];
      EligibleOrder(init, start);
      EligibleMembers(init, start);
      var r := EligibleOf(s, start);
      var p := EligibleOf(init, start);
      assert Increasing(p);
      assert r == p + (if Eligible(last, start) then [last] else []);
      forall i, j | 0 <= i < j < |r| ensures r[i] < r[j] {
        if j >= |p| {
          assert r[j] == last;
          assert r[i] == p[i] && p[i] in init;
          var k :| 0 <= k < |init| && init[k] == p[i];
          assert init[k] == s[k];
          assert s[k] < s[|s| - 1];
        } else {
          assert r[i] == p[i] && r[j] == p[j];
        }
      }
    }
  }

  function Matchdays(rounds: seq<Round>): (r: seq<int>)
    ensures |r| == |rounds| && forall i :: 0 <= i < |r| ==> r[i] == rounds[i].matchday
  {
    if rounds == [] then [] else Matchdays(rounds[..|rounds| - 1]) + [rounds[|rounds| - 1].matchday]
  }

  /** Every round carries its matchday's group. */
  predicate FromGroups(rounds: seq<Round>, groups: map<int, seq<RoundMatch>>)
  {
    forall i :: 0 <= i < |rounds| ==> rounds[i].matchday in groups && rounds[i].matches == groups[rounds[i].matchday]
  }

  lemma FromGroupsPush(rounds: seq<Round>, groups: map<int, seq<RoundMatch>>, md: int)
    requires FromGroups(rounds, groups) && md in groups
    ensures FromGroups(rounds + [Round(md, groups[md])], groups)
  {
  }

  lemma MatchdaysPush(rounds: seq<Round>, r: Round)
    ensures Matchdays(rounds + [r]) == Matchdays(rounds) + [r.matchday]
  {
    assert (rounds + [r])[..|rounds|] == rounds;
  }

  /** The selection loop's postcondition about the selected matchdays: a prefix
      of the eligible ones, all of them unless the count was reached. */
  ghost predicate SelectionOf(sorted: seq<int>, start: Option<int>, count: Num, ids: seq<int>)
  {
    var e := EligibleOf(sorted, start);
    && |ids| <= |e| && ids == e[..|ids|]
    && (|ids| < |e| ==> ids != [] && ReachedCount(|ids|, count))
    && (forall k :: 1 <= k < |ids| ==> !ReachedCount(k, count))
  }

  /** The matchdays the selection may offer from `fs`: those present in the
      list and not before the start. */
  ghost function Offerable(fs: seq<Fixture>): iset<int>
  {
    iset m | HasMatchday(fs, m) && Eligible(m, StartOf(CurrentMatchday(fs)))
  }

  /** `md` is the first part of `pool` a selection with `count` offers: members
      of the pool in increasing order, none left out below the last one
      offered, the count not reached before the last one, and the whole pool
      unless the count was reached. */
  ghost predicate FirstOf(pool: iset<int>, count: Num, md: seq<int>)
  {
    && Increasing(md)
    && (forall i :: 0 <= i < |md| ==> md[i] in pool)
    && (forall m :: m in pool && md != [] && m < md[|md| - 1] ==> m in md)
    && (forall k :: 1 <= k < |md| ==> !ReachedCount(k, count))
    && (md == [] || !ReachedCount(|md|, count) ==> forall m :: m in pool ==> m in md)
  }

  /** The matchdays offered from `fs` with `count`: the first eligible ones. */
  ghost predicate FirstEligible(fs: seq<Fixture>, count: Num, md: seq<int>)
  {
    FirstOf(Offerable(fs), count, md)
  }

  /** The loop's selection over the sorted matchdays of `fs` is the one
      FirstEligible describes. */
  lemma SelectionIsFirstEligible(fs: seq<Fixture>, sorted: seq<int>, count: Num, ids: seq<int>)
    requires Increasing(sorted)
    requires forall m :: m in sorted <==> HasMatchday(fs, m)
    requires SelectionOf(sorted, StartOf(CurrentMatchday(fs)), count, ids)
    ensures FirstEligible(fs, count, ids)
  {
    var start := StartOf(CurrentMatchday(fs));
    var e := EligibleOf(sorted, start);
    var pool := Offerable(fs);
    EligibleOrder(sorted, start);
    EligibleMembers(sorted, start);
    assert forall m :: m in pool <==> m in e;
    forall i | 0 <= i < |ids| ensures ids[i] == e[i] && ids[i] in pool {
    }
    forall m | m in pool && ids != [] && m < ids[|ids| - 1]
      ensures m in ids
    {
      var j :| 0 <= j < |e| && e[j] == m;
      assert e[|ids| - 1] == ids[|ids| - 1];
      assert j < |ids| - 1;
      assert ids[j] == m;
    }
    if ids == [] || !ReachedCount(|ids|, count) {
      assert |ids| == |e|;
      assert ids == e;
    }
  }

  /** Two selections FirstOf admits for the same pool and count agree up to
      their shorter length. */
  lemma {:induction false} FirstOfAgree(pool: iset<int>, count: Num, a: seq<int>, b: seq<int>, i: nat)
    requires FirstOf(pool, count, a) && FirstOf(pool, count, b)
    requires i < |a| && i < |b|
    ensures a[i] == b[i]
    decreases i
  {
    forall j | 0 <= j < i ensures a[j] == b[j] {
      FirstOfAgree(pool, count, a, b, j);
    }
    // Each list holds every member of the pool below its own last element.
    LastIsLargest(a, i);
    LastIsLargest(b, i);
  }

  lemma LastIsLargest(s: seq<int>, i: nat)
    requires Increasing(s) && i < |s|
    ensures s[i] <= s[|s| - 1]
  {
  }

  /** Of two admitted selections that agree, `b` is no longer than `a`: either
      `a` holds the whole pool, the last element of `b` included, or `a`
      reached the count, which `b` does not do before its own end. */
  lemma NotShorter(pool: iset<int>, count: Num, a: seq<int>, b: seq<int>)
    requires FirstOf(pool, count, a) && FirstOf(pool, count, b)
    requires forall i :: 0 <= i < |a| && i < |b| ==> a[i] == b[i]
    ensures |b| <= |a|
  {
    if b != [] && (a == [] || !ReachedCount(|a|, count)) {
      assert b[|b| - 1] in pool;
      assert forall m :: m in pool ==> m in a;
      assert b[|b| - 1] in a;
    }
  }

  /** FirstOf determines the selection: for a given pool and count there is
      only one. */
  lemma FirstOfUnique(pool: iset<int>, count: Num, a: seq<int>, b: seq<int>)
    requires FirstOf(pool, count, a) && FirstOf(pool, count, b)
    ensures a == b
  {
    forall i | 0 <= i < |a| && i < |b| ensures a[i] == b[i] {
      FirstOfAgree(pool, count, a, b, i);
    }
    NotShorter(pool, count, a, b);
    NotShorter(pool, count, b, a);
  }

  /** So the offered matchdays are determined by the fixtures and the count. */
  lemma FirstEligibleUnique(fs: seq<Fixture>, count: Num, a: seq<int>, b: seq<int>)
    requires FirstEligible(fs, count, a) && FirstEligible(fs, count, b)
    ensures a == b
  {
    FirstOfUnique(Offerable(fs), count, a, b);
  }

  /** Leaving the loop at matchday `j`, after the count was reached. */
  lemma StopSelection(sorted: seq<int>, j: nat, start: Option<int>, count: Num, ids: seq<int>)
    requires j < |sorted|
    requires ids == EligibleOf(sorted[..j + 1], start) && ids != []
    requires ReachedCount(|ids|, count)
    requires forall k :: 1 <= k < |ids| ==> !ReachedCount(k, count)
    ensures SelectionOf(sorted, start, count, ids)
  {
    EligiblePrefix(sorted, j + 1, start);
  }

  /** Leaving the loop after the last matchday. */
  lemma EndSelection(sorted: seq<int>, start: Option<int>, count: Num, ids: seq<int>)
    requires ids == EligibleOf(sorted[..|sorted|], start)
    requires forall k :: 1 <= k <= |ids| ==> !ReachedCount(k, count)
    ensures SelectionOf(sorted, start, count, ids)
  {
    assert sorted[..|sorted|] == sorted;
  }

  /** The selection loop over the sorted matchdays: skip rounds before `start`,
      push the others with their group, and stop once `count` are selected. */
  method SelectRounds(sorted: seq<int>, groups: map<int, seq<RoundMatch>>, start: Option<int>, count: Num)
    returns (selected: seq<Round>)
    requires forall md :: md in sorted ==> md in groups
    ensures SelectionOf(sorted, start, count, Matchdays(selected))
    ensures FromGroups(selected, groups)
  {
    selected := [];
    var j := 0;
    while j < |sorted|
      invariant 0 <= j <= |sorted|
      invariant Matchdays(selected) == EligibleOf(sorted[..j], start)
      invariant forall k :: 1 <= k <= |selected| ==> !ReachedCount(k, count)
      invariant FromGroups(selected, groups)
    {
      var md := sorted[j];
      EligibleStep(sorted, j, start);
      if Eligible(md, start) {
        assert md in sorted;
        MatchdaysPush(selected, Round(md, groups[md]));
        FromGroupsPush(selected, groups, md);
        selected := selected + [Round(md, groups[md])];
        if ReachedCount(|selected|, count) {
          StopSelection(sorted, j, start, count, Matchdays(selected));
          return;
        }
      }
      j := j + 1;
    }
    EndSelection(sorted, start, count, Matchdays(selected));
  }

  /** The response data: the current matchday and the offered rounds. */
  datatype Upcoming = Upcoming(currentMatchday: Option<int>, days: seq<Round>)

  /** The handler after the fetch and the count: current matchday, groups,
      sorted keys, selection. A count that reads as NaN never stops the loop,
      so every eligible round is offered. */
  method Offer(count: Num, fixtures: seq<Fixture>) returns (r: Upcoming)
    ensures r.currentMatchday == CurrentMatchday(fixtures)
    ensures FirstEligible(fixtures, count, Matchdays(r.days))
    ensures count.Int? && count.value >= 1 ==> |r.days| <= count.value
    ensures count.NaN? ==> forall m :: HasMatchday(fixtures, m) && Eligible(m, StartOf(CurrentMatchday(fixtures))) ==> m in Matchdays(r.days)
    ensures forall i :: 0 <= i < |r.days| ==> r.days[i].matches == GroupOf(fixtures, r.days[i].matchday)
  {
    var current := CurrentMatchday(fixtures);
    var keys, groups := GroupByMatchday(fixtures);
    var sorted := SortedMatchdays(keys);
    SortedKeys(keys);
    SameMembers(keys);
    var start := StartOf(current);
    var selected := SelectRounds(sorted, groups, start, count);
    SelectionFacts(sorted, start, count, selected);
    SelectionIsFirstEligible(fixtures, sorted, count, Matchdays(selected));
    r := Upcoming(current, selected);
  }

  /** The handler after the fetch, as written: the count is
      `Math.min(Math.max(Number(count || 5), 1), 10)`, so a count that reads as
      a number bounds the rounds by at most ten, and one that does not
      (`?count=abc`) is NaN and lets every eligible round through. */
  method Fl1Upcoming(countParam: JsValue, fixtures: seq<Fixture>) returns (r: Upcoming)
    ensures r.currentMatchday == CurrentMatchday(fixtures)
    ensures FirstEligible(fixtures, ClampCount(countParam), Matchdays(r.days))
    ensures ClampCount(countParam).Int? ==> |r.days| <= ClampCount(countParam).value <= 10
    ensures ClampCount(countParam).NaN? ==>
      forall m :: HasMatchday(fixtures, m) && Eligible(m, StartOf(CurrentMatchday(fixtures))) ==> m in Matchdays(r.days)
    ensures forall i :: 0 <= i < |r.days| ==> r.days[i].matches == GroupOf(fixtures, r.days[i].matchday)
  {
    r := Offer(ClampCount(countParam), fixtures);
  }

  /** The handler after the fetch with the evidently intended clamp: at most
      ten rounds are offered whatever the query says. */
  method Fl1UpcomingIntended(countParam: JsValue, fixtures: seq<Fixture>) returns (r: Upcoming)
    ensures r.currentMatchday == CurrentMatchday(fixtures)
    ensures FirstEligible(fixtures, Int(ClampCountIntended(countParam)), Matchdays(r.days))
    ensures |r.days| <= ClampCountIntended(countParam) <= 10
    ensures forall i :: 0 <= i < |r.days| ==> r.days[i].matches == GroupOf(fixtures, r.days[i].matchday)
  {
    r := Offer(Int(ClampCountIntended(countParam)), fixtures);
  }

  /** The answer of the Football-Data fetch: an HTTP error status, or a payload
      whose `matches` is a list (Some) or is missing or not an array (None). */
  datatype Fetch = HttpError(status: int) | Fetched(matches: Option<seq<Fixture>>)

  /** The whole action: GET only, a Football-Data token from either variable,
      a successful fetch, then the selection over the fetched list (an empty
      list when `matches` is not an array), with the count clamped as written. */
  method HandleFl1Upcoming(verb: string, query: JsValue, token: Env, apiToken: Env, fetch: Fetch)
    returns (resp: Response<Upcoming>)
    ensures verb != "GET" ==> resp == Fail(405, MethodNotAllowed)
    ensures verb == "GET" && Token(token, apiToken).None? ==> resp == Fail(500, "Missing FOOTBALL_DATA_TOKEN")
    ensures verb == "GET" && Token(token, apiToken).Some? && fetch.HttpError? ==>
      resp == Fail(500, "Football-Data HTTP " + Decimal(fetch.status))
    ensures resp.Ok? <==> verb == "GET" && Token(token, apiToken).Some? && fetch.Fetched?
    ensures resp.Ok? ==>
      var fs := if fetch.matches.Some? then fetch.matches.value else [];
      var count := ClampCount(OptField(query, "count"));
      && resp.data.currentMatchday == CurrentMatchday(fs)
      && FirstEligible(fs, count, Matchdays(resp.data.days))
      && (count.Int? ==> |resp.data.days| <= count.value <= 10)
      && (count.NaN? ==> forall m :: HasMatchday(fs, m) && Eligible(m, StartOf(CurrentMatchday(fs))) ==> m in Matchdays(resp.data.days))
      && (forall i :: 0 <= i < |resp.data.days| ==> resp.data.days[i].matches == GroupOf(fs, resp.data.days[i].matchday))
  {
    if verb != "GET" {
      return Fail(405, MethodNotAllowed);
    }
    if Token(token, apiToken).None? {
      return Fail(500, "Missing FOOTBALL_DATA_TOKEN");
    }
    if fetch.HttpError? {
      return Fail(500, "Football-Data HTTP " + Decimal(fetch.status));
    }
    var fs := if fetch.matches.Some? then fetch.matches.value else [];
    var up := Fl1Upcoming(OptField(query, "count"), fs);
    return Ok(up);
  }

  /** `FOOTBALL_DATA_TOKEN || FOOTBALL_DATA_API_TOKEN`: an empty first variable
      falls back to the second. */
  function Token(token: Env, apiToken: Env): (r: Option<string>)
    ensures r.Some? <==> RequireEnv("FOOTBALL_DATA_TOKEN", token).Some? || RequireEnv("FOOTBALL_DATA_API_TOKEN", apiToken).Some?
    ensures RequireEnv("FOOTBALL_DATA_TOKEN", token).Some? ==> r == token
  {
    if RequireEnv("FOOTBALL_DATA_TOKEN", token).Some? then token
    else RequireEnv("FOOTBALL_DATA_API_TOKEN", apiToken)
  }

  // ---------------------------------------------------------------------------
  // the unbounded count

  /** As written, a count that does not read as a number ("abc") stays NaN
      through Math.max and Math.min. */
  lemma CountOfWordIsNaN()
    ensures ClampCount(JStr("abc")) == NaN
  {
    assert Or(JStr("abc"), JNum(Int(5))) == JStr("abc");
    assert StringToNumber("abc") == NaN by {
      assert Trim("abc") == "abc" by {
        TrimOfTrimmed("abc");
      }
      assert !IsInfinitySpelling("abc");
      assert ParseInteger("abc").None? by {
        assert !IsDigit("abc"[2]);
      }
    }
  }

  /** No selection length reaches a NaN count, so the loop never breaks and
      every eligible round is offered. */
  lemma NaNCountSelectsAll(sorted: seq<int>, start: Option<int>, ids: seq<int>)
    requires SelectionOf(sorted, start, NaN, ids)
    ensures ids == EligibleOf(sorted, start)
  {
    var e := EligibleOf(sorted, start);
    assert |ids| == |e|;
    assert e[..|e|] == e;
  }

  /** With no current matchday every matchday is eligible. */
  lemma {:induction false} EligibleWithoutStart(s: seq<int>)
    ensures EligibleOf(s, None) == s
  {
    if s != [] {
      EligibleWithoutStart(s[..|s| - 1]);
      assert s == s[..|s| - 1] + [s[|s| - 1]];
    }
  }

  /** Eleven matchdays and `?count=abc`, as written: all eleven rounds are
      offered, more than the clamp's maximum of ten. */
  lemma WordCountExceedsTen(sorted: seq<int>, ids: seq<int>)
    requires |sorted| == 11
    requires SelectionOf(sorted, None, ClampCount(JStr("abc")), ids)
    ensures |ids| == 11 > 10
  {
    CountOfWordIsNaN();
    NaNCountSelectsAll(sorted, None, ids);
    EligibleWithoutStart(sorted);
  }

  /** The evidently intended clamp: a count that does not read as a number
      falls back to the default 5, as a missing one does, and the result always
      lies in [1, 10]. */
  function ClampCountIntended(q: JsValue): (c: int)
    ensures 1 <= c <= 10
    ensures !ClampCount(q).NaN? ==> ClampCount(q) == Int(c)
    ensures ClampCount(q).NaN? ==> c == 5
  {
    match ClampCount(q)
    case Int(k) => k
    case _ => 5
  }

  /** With the intended clamp the selection never exceeds ten rounds. */
  lemma IntendedCountBounded(sorted: seq<int>, start: Option<int>, q: JsValue, ids: seq<int>)
    requires SelectionOf(sorted, start, Int(ClampCountIntended(q)), ids)
    ensures |ids| <= 10
  {
    var c := ClampCountIntended(q);
    assert ReachedCount(c, Int(c));
  }

  lemma SameMembers(keys: seq<int>)
    ensures forall md :: md in SortedMatchdays(keys) <==> md in keys
  {
    var sorted := SortedMatchdays(keys);
    forall md ensures md in sorted <==> md in keys {
      assert md in sorted <==> md in multiset(sorted);
    }
  }

  /** What the selection loop's contract gives about the offered rounds. */
  lemma SelectionFacts(sorted: seq<int>, start: Option<int>, count: Num, selected: seq<Round>)
    requires Increasing(sorted)
    requires SelectionOf(sorted, start, count, Matchdays(selected))
    ensures var md := Matchdays(selected);
      && Increasing(md)
      && (forall i :: 0 <= i < |md| ==> md[i] in sorted && Eligible(md[i], start))
      && (count.Int? && count.value >= 1 ==> |md| <= count.value)
  {
    var e := EligibleOf(sorted, start);
    EligibleOrder(sorted, start);
    EligibleMembers(sorted, start);
    var md := Matchdays(selected);
    forall i, j | 0 <= i < j < |md| ensures md[i] < md[j] {
      assert md[i] == e[i] && md[j] == e[j];
    }
    forall i | 0 <= i < |md| ensures md[i] in sorted && Eligible(md[i], start) {
      assert md[i] == e[i] && e[i] in e;
    }
    if count.Int? && |md| >= 2 {
      assert !ReachedCount(|md| - 1, count);
    }
  }

  /** The sorted key list is strictly increasing. */
  lemma SortedKeys(keys: seq<int>)
    requires forall i, j :: 0 <= i < j < |keys| ==> keys[i] != keys[j]
    ensures Increasing(SortedMatchdays(keys))
  {
    var s := SortedMatchdays(keys);
    var key: int -> int := Id;
    Sorting.KeyComparatorConsistent(Diff, key, keys);
    Sorting.SortBySorted(keys, Diff);
    assert Sorting.Sorted(s, Diff);
    assert Sorting.KeyUnique(keys, key) by {
      forall i, j | 0 <= i < j < |keys| ensures key(keys[i]) != key(keys[j]) {
      }
    }
    Sorting.SortByKeyUnique(keys, Diff, key);
    assert Sorting.KeyUnique(s, key);
    forall i, j | 0 <= i < j < |s| ensures s[i] < s[j] {
      assert Diff(s[i], s[j]) <= 0;
      assert key(s[i]) != key(s[j]);
    }
  }
}
