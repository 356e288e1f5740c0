/** The dashboard countdown: a duration in milliseconds shown as
    `[<d>j ]hh:mm:ss`, and the label that says whether the next round is still
    ahead. */
module Dashboard {
  import opened JsValues

  /** `Math.floor(n)` of `n / 1000` for an integer `n`: Dafny's division by a
      positive divisor already rounds toward negative infinity. */
  function Seconds(ms: int): (s: nat)
    ensures ms >= 0 ==> s == ms / 1000
    ensures ms < 1000 ==> s == 0
  {
    if ms / 1000 > 0 then ms / 1000 else 0
  }

  /** The four fields of a duration of `s` seconds. */
  datatype Clock = Clock(d: nat, h: nat, m: nat, ss: nat)

  function Split(s: nat): (c: Clock)
    ensures c.h < 24 && c.m < 60 && c.ss < 60
    ensures c.d * 86400 + c.h * 3600 + c.m * 60 + c.ss == s
  {
    var d, r := s / 86400, s % 86400;
    var h, r2 := r / 3600, r % 3600;
    DivisionUnique(s, d * 24 + h, r2, 3600);
    var m, r3 := r2 / 60, r2 % 60;
    DivisionUnique(s, (d * 24 + h) * 60 + m, r3, 60);
    Clock(s / 86400, (s % 86400) / 3600, (s % 3600) / 60, s % 60)
  }

  /** Quotient and remainder are fixed by any decomposition with a remainder
      smaller than the divisor. */
  lemma DivisionUnique(x: int, q: int, rem: int, n: int)
    requires n > 0 && 0 <= rem < n && x == q * n + rem
    ensures x / n == q && x % n == rem
  {
    var q', rem' := x / n, x % n;
    assert q' * n + rem' == x;
    if q' > q {
      assert (q' - q) * n == q' * n - q * n;
      AtLeastOnce(q' - q, n);
    } else if q' < q {
      assert (q - q') * n == q * n - q' * n;
      AtLeastOnce(q - q', n);
    }
  }

  lemma {:induction false} AtLeastOnce(k: int, n: int)
    requires k >= 1 && n > 0
    ensures k * n >= n
  {
    if k > 1 {
      AtLeastOnce(k - 1, n);
      assert k * n == (k - 1) * n + n;
    }
  }

  /** A duration has one split into days, hours under 24, minutes and seconds
      under 60. */
  lemma SplitUnique(s: nat, c: Clock)
    requires c.h < 24 && c.m < 60 && c.ss < 60
    requires c.d * 86400 + c.h * 3600 + c.m * 60 + c.ss == s
    ensures Split(s) == c
  {
    var rest := c.h * 3600 + c.m * 60 + c.ss;
    DivisionUnique(s, c.d, rest, 86400);
    DivisionUnique(rest, c.h, c.m * 60 + c.ss, 3600);
    DivisionUnique(s, c.d * 24 + c.h, c.m * 60 + c.ss, 3600);
    DivisionUnique(c.m * 60 + c.ss, c.m, c.ss, 60);
    DivisionUnique(s, (c.d * 24 + c.h) * 60 + c.m, c.ss, 60);
  }

  /** `String(n).padStart(2, "0")` */
  function Pad2(n: nat): (r: string)
    ensures n < 100 ==> |r| == 2 && AllDigits(r) && DigitsValue(r) == n
    ensures n >= 10 ==> r == NatToDecimal(n)
  {
    if n < 10 then
      var r := "0" + NatToDecimal(n);
      assert NatToDecimal(n) == [DigitChar(n)];
      assert r[..|r| - 1] == "0" && r[|r| - 1] == DigitChar(n);
      assert DigitsValue("0") == 0 by { assert "0"[..0] == ""; }
      r
    else
      DigitsOfDecimal(n);
      NatToDecimal(n)
  }

  /** The text of `s` whole seconds: it ends with two-digit hours, minutes
      and seconds, and is longer than that exactly from one day on. */
  function FormatSeconds(s: nat): (r: string)
    ensures |r| >= 8 && r[|r| - 6] == ':' && r[|r| - 3] == ':'
    ensures |r| == 8 <==> s < 86400
  {
    var c := Split(s);
    var clock := ClockText(c.h, c.m, c.ss);
    if c.d > 0 then NatToDecimal(c.d) + "j " + clock else clock
  }

  /** The countdown text of a duration in milliseconds. */
  function FormatDuration(ms: int): (r: string)
    ensures |r| >= 8 && r[|r| - 6] == ':' && r[|r| - 3] == ':'
    ensures |r| == 8 <==> Seconds(ms) < 86400
  {
    FormatSeconds(Seconds(ms))
  }

  /** A negative or sub-second duration is shown as zero. */
  lemma NegativeIsZero(ms: int)
    requires ms < 1000
    ensures FormatDuration(ms) == "00:00:00"
  {
    assert Pad2(0) == "00";
  }

  /** The clock the text ends with: two-digit hours, minutes and seconds. */
  function ClockText(h: nat, m: nat, ss: nat): (t: string)
    requires h < 24 && m < 60 && ss < 60
    ensures |t| == 8 && t[2] == ':' && t[5] == ':'
  {
    Pad2(h) + ":" + Pad2(m) + ":" + Pad2(ss)
  }

  /** The clock's three fields read back as the hours, minutes and seconds. */
  lemma ClockTextReadsBack(h: nat, m: nat, ss: nat)
    requires h < 24 && m < 60 && ss < 60
    ensures var t := ClockText(h, m, ss);
      DigitsValue(t[0..2]) == h && DigitsValue(t[3..5]) == m && DigitsValue(t[6..8]) == ss
  {
    var t := ClockText(h, m, ss);
    assert t[0..2] == Pad2(h);
    assert t[3..5] == Pad2(m);
    assert t[6..8] == Pad2(ss);
  }

  /** The text ends with the clock of the hours, minutes and seconds left
      over after the whole days (read back by ClockTextReadsBack); under a day
      that is the whole text. */
  lemma {:induction false} ClockReadsBack(ms: int)
    ensures var r := FormatDuration(ms);
      var c := Split(Seconds(ms));
      && r[|r| - 8..] == ClockText(c.h, c.m, c.ss)
      && c.h * 3600 + c.m * 60 + c.ss == Seconds(ms) % 86400
      && (Seconds(ms) < 86400 ==> r == ClockText(c.h, c.m, c.ss))
  {
    var r := FormatDuration(ms);
    var c := Split(Seconds(ms));
    if c.d > 0 {
      var p := NatToDecimal(c.d) + "j ";
      assert r == p + ClockText(c.h, c.m, c.ss);
      assert r[|p|..] == ClockText(c.h, c.m, c.ss);
    }
    DivisionUnique(Seconds(ms), c.d, c.h * 3600 + c.m * 60 + c.ss, 86400);
  }

  /** Without its whole days a duration keeps its hours, minutes and seconds. */
  lemma SplitLessDays(s: nat)
    ensures var c := Split(s);
      Split(s - c.d * 86400) == Clock(0, c.h, c.m, c.ss)
  {
    var c := Split(s);
    SplitUnique(s - c.d * 86400, Clock(0, c.h, c.m, c.ss));
  }

  /** The clock after the days is the text of the seconds left once the whole
      days are taken off. */
  lemma DaysDropped(s: nat)
    ensures var c := Split(s);
      FormatSeconds(s - c.d * 86400) == ClockText(c.h, c.m, c.ss)
  {
    SplitLessDays(s);
  }

  /** From a day on, the text is the day count, "j ", and the clock of the
      hours, minutes and seconds left after the whole days (DaysDropped). */
  lemma DaysPrefix(ms: int)
    requires ms >= 86400 * 1000
    ensures var c := Split(Seconds(ms));
      c.d > 0 && FormatDuration(ms) == NatToDecimal(c.d) + "j " + ClockText(c.h, c.m, c.ss)
  {
    assert Seconds(ms) >= 86400;
  }

  /** `remaining > 0 ? "Prochaine journée" : "Journée en cours"` */
  function LeagueStatus(remaining: int): (text: string)
    ensures remaining > 0 <==> text == "Prochaine journ\U{00E9}e"
    ensures remaining <= 0 <==> text == "Journ\U{00E9}e en cours"
  {
    if remaining > 0 then "Prochaine journ\U{00E9}e" else "Journ\U{00E9}e en cours"
  }

  /** `remaining > 0 ? "Début dans <duration>" : "Des matchs sont en cours."` */
  function LeagueLabel(remaining: int): (text: string)
    ensures remaining > 0 ==> text == "D\U{00E9}but dans " + FormatDuration(remaining)
    ensures remaining <= 0 ==> text == "Des matchs sont en cours."
  {
    if remaining > 0 then "D\U{00E9}but dans " + FormatDuration(remaining) else "Des matchs sont en cours."
  }
}
