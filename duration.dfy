/**
 * `sidebar.secondsToHMS`: a video's duration in whole seconds shown as
 * hours, minutes and seconds, e.g. "1h1m1s", "45s", "2h5s".
 */
module Duration {
  import opened Wrappers
  import opened Strings

  function Hours(d: nat): nat { d / 3600 }
  function Minutes(d: nat): nat { (d % 3600) / 60 }
  function Seconds(d: nat): nat { d % 60 }

  /** One component: its digits followed by its unit letter, or nothing. */
  function Component(n: nat, unit: char, shown: bool): (r: string)
    ensures shown <==> r != ""
  {
    if shown then NatToString(n) + [unit] else ""
  }

  /**
   * The hour part appears when there are whole hours, the minute part when
   * there are whole minutes left over, and the second part when there are
   * seconds left over or when neither of the other two appears.
   */
  function SecondsToHMS(d: nat): (r: string)
    ensures |r| > 0 && r[|r| - 1] in "hms"
  {
    var h, m, s := Hours(d), Minutes(d), Seconds(d);
    Component(h, 'h', h > 0) + (Component(m, 'm', m > 0) + Component(s, 's', s > 0 || (h == 0 && m == 0)))
  }

  lemma ComponentLetters(n: nat, unit: char, shown: bool, c: char)
    requires !IsDigit(c)
    ensures c in Component(n, unit, shown) <==> shown && c == unit
  {
    if shown {
      var digits := NatToString(n);
      assert forall i :: 0 <= i < |digits| ==> digits[i] != c;
      assert Component(n, unit, shown) == digits + [unit];
    }
  }

  /** Which unit letters occur in the result, stated against the hour/minute/second split. */
  lemma {:induction false} SecondsToHMSUnits(d: nat)
    ensures 'h' in SecondsToHMS(d) <==> Hours(d) > 0
    ensures 'm' in SecondsToHMS(d) <==> Minutes(d) > 0
    ensures 's' in SecondsToHMS(d) <==> Seconds(d) > 0 || (Hours(d) == 0 && Minutes(d) == 0)
  {
    var h, m, s := Hours(d), Minutes(d), Seconds(d);
    var sh := s > 0 || (h == 0 && m == 0);
    var a, b, c := Component(h, 'h', h > 0), Component(m, 'm', m > 0), Component(s, 's', sh);
    forall u | u in "hms"
      ensures u in a + (b + c) <==> (u == 'h' && h > 0) || (u == 'm' && m > 0) || (u == 's' && sh)
    {
      ComponentLetters(h, 'h', h > 0, u);
      ComponentLetters(m, 'm', m > 0, u);
      ComponentLetters(s, 's', sh, u);
    }
  }

  lemma SecondsToHMSExamples()
    ensures SecondsToHMS(0) == "0s"
    ensures SecondsToHMS(45) == "45s"
    ensures SecondsToHMS(3661) == "1h1m1s"
    ensures SecondsToHMS(7205) == "2h5s"
  {
    assert Hours(3661) == 1 && Minutes(3661) == 1 && Seconds(3661) == 1;
    assert Hours(7205) == 2 && Minutes(7205) == 0 && Seconds(7205) == 5;
    assert NatToString(45) == "45" by {
      assert NatToString(4) == "4";
    }
  }

  function UnitSeconds(unit: char): nat {
    if unit == 'h' then 3600 else if unit == 'm' then 60 else 1
  }

  /** The length of the run of digits that starts `s`. */
  function DigitRun(s: string): (k: nat)
    ensures k <= |s| && AllDigits(s[..k])
    ensures k < |s| ==> !IsDigit(s[k])
    decreases |s|
  {
    if s != [] && IsDigit(s[0]) then 1 + DigitRun(s[1..]) else 0
  }

  /**
   * Reads a duration string back: a sequence of components, each a run of
   * digits followed by one of the letters h, m, s; None for anything else.
   */
  function ParseHMS(s: string): Option<nat> {
    ParseUnits(s)
  }

  /** The recursive reader behind ParseHMS, one component at a time. */
  function ParseUnits(s: string): Option<nat>
    decreases |s|
  {
    if s == [] then Some(0)
    else
      var k := DigitRun(s);
      if k == 0 || k == |s| || s[k] !in "hms" then None
      else match ParseUnits(s[k + 1..])
        case None => None
        case Some(rest) => Some(DigitsValue(s[..k]) * UnitSeconds(s[k]) + rest)
  }

  lemma {:induction false} DigitRunOfDigits(p: string, t: string)
    requires AllDigits(p)
    ensures DigitRun(p + t) == |p| + DigitRun(t)
    decreases |p|
  {
    if p != [] {
      assert (p + t)[0] == p[0] && IsDigit(p[0]);
      assert (p + t)[1..] == p[1..] + t;
      assert DigitRun(p + t) == 1 + DigitRun(p[1..] + t);
      DigitRunOfDigits(p[1..], t);
    } else {
      assert p + t == t;
    }
  }

  /** Where the digits of a component end and its unit letter stands. */
  lemma DigitsThenUnit(digits: string, unit: char, rest: string)
    requires AllDigits(digits) && !IsDigit(unit)
    ensures var s := digits + [unit] + rest;
      && DigitRun(s) == |digits| && s[|digits|] == unit
      && s[..|digits|] == digits && s[|digits| + 1..] == rest
  {
    var s := digits + [unit] + rest;
    assert DigitRun(s) == |digits| by {
      DigitRunOfDigits(digits, [unit] + rest);
      assert s == digits + ([unit] + rest);
      assert ([unit] + rest)[0] == unit;
    }
    assert s[..|digits|] == digits && s[|digits|] == unit && s[|digits| + 1..] == rest;
  }

  lemma ParseComponent(n: nat, unit: char, scale: nat, shown: bool, rest: string, v: nat)
    requires unit == 'h' || unit == 'm' || unit == 's'
    requires scale == UnitSeconds(unit)
    requires shown || n == 0
    requires ParseHMS(rest) == Some(v)
    ensures ParseHMS(Component(n, unit, shown) + rest) == Some(n * scale + v)
  {
    if shown {
      var digits := NatToString(n);
      assert Component(n, unit, shown) + rest == digits + [unit] + rest;
      DigitsThenUnit(digits, unit, rest);
      DigitsValueOfNatToString(n);
    } else {
      assert Component(n, unit, shown) + rest == rest;
    }
  }

  /** The round trip: reading the shown duration gives back the number of seconds. */
  lemma {:induction false} ParseSecondsToHMS(d: nat)
    ensures ParseHMS(SecondsToHMS(d)) == Some(d)
  {
    var h, m, s := Hours(d), Minutes(d), Seconds(d);
    ParseComponents(h, m, s, s > 0 || (h == 0 && m == 0));
    HMSSum(d);
  }

  lemma ParseComponents(h: nat, m: nat, s: nat, sh: bool)
    requires sh || s == 0
    ensures ParseHMS(Component(h, 'h', h > 0) + (Component(m, 'm', m > 0) + Component(s, 's', sh)))
      == Some(h * 3600 + (m * 60 + s))
  {
    ParseMinutesSeconds(m, s, sh);
    ParseComponent(h, 'h', 3600, h > 0, Component(m, 'm', m > 0) + Component(s, 's', sh), m * 60 + s);
  }

  lemma ParseMinutesSeconds(m: nat, s: nat, sh: bool)
    requires sh || s == 0
    ensures ParseHMS(Component(m, 'm', m > 0) + Component(s, 's', sh)) == Some(m * 60 + s)
  {
    var c := Component(s, 's', sh);
    assert ParseHMS(c) == Some(s) by {
      assert ParseHMS("") == Some(0);
      ParseComponent(s, 's', 1, sh, "", 0);
      assert c + "" == c;
    }
    ParseComponent(m, 'm', 60, m > 0, c, s);
  }

  lemma HMSSum(d: nat)
    ensures Hours(d) * 3600 + Minutes(d) * 60 + Seconds(d) == d
  {
    var r := d % 3600;
    assert d == Hours(d) * 3600 + r;
    assert r == Minutes(d) * 60 + r % 60;
    assert r % 60 == d % 60 by {
      assert d == (Hours(d) * 60) * 60 + r;
    }
  }
}
