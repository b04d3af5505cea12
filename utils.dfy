/** UtilsService: the day-count to seconds conversion used for the refresh-token TTL. */
module Utils {
  import opened Exceptions
  import opened JsRuntime

  const SecondsPerDay := 86400

  /**
   * convertDaysToSeconds: remove the first 'd' from the duration, read a
   * decimal integer from what is left with parseInt, and multiply by the
   * seconds in a day; a duration from which no integer can be read gives 0.
   */
  function ConvertDaysToSeconds(duration: string): int {
    var days := ParseInt(ReplaceFirst(duration, 'd'));
    if days.None? then 0 else days.value * SecondsPerDay
  }

  /** The result is always a whole number of days. */
  lemma ConvertGivesWholeDays(duration: string)
    ensures ConvertDaysToSeconds(duration) % SecondsPerDay == 0
  {
    var days := ParseInt(ReplaceFirst(duration, 'd'));
    var seconds := ConvertDaysToSeconds(duration);
    if days.Some? {
      assert seconds == days.value * SecondsPerDay;
      WholeDays(days.value);
    } else {
      assert seconds == 0;
    }
  }

  lemma WholeDays(days: int)
    ensures (days * SecondsPerDay) % SecondsPerDay == 0
  {
  }

  /** "Nd" with a decimal N (leading zeros allowed) gives N days in seconds. */
  lemma ConvertDecimalDays(ds: string)
    requires ds != [] && AllDigits(ds)
    ensures ConvertDaysToSeconds(ds + "d") == DigitsValue(ds) * SecondsPerDay
  {
    var s := ds + "d";
    assert s[..|ds|] == ds;
    assert 'd' !in ds by {
      forall i | 0 <= i < |ds| ensures ds[i] != 'd' {
        assert IsDigit(ds[i]);
      }
    }
    assert IndexOf(s, 'd') == |ds|;
    ReplaceFirstRemovesFirst(s, 'd');
    assert ReplaceFirst(s, 'd') == ds;
    ParseIntLeadingDigits(ds, []);
    assert ds + [] == ds;
  }

  /** The configured refresh lifetime "7d" is 604800 seconds. */
  lemma ConvertSevenDays()
    ensures ConvertDaysToSeconds("7d") == 604800
  {
    ConvertDecimalDays("7");
    assert "7" + "d" == "7d";
  }

  /**
   * A unit other than 'd' is not recognised: the leading digits are still read
   * as days and the rest is ignored.
   */
  lemma ConvertIgnoresOtherUnits(ds: string, unit: string)
    requires ds != [] && AllDigits(ds)
    requires unit != [] && !IsDigit(unit[0]) && 'd' !in unit
    ensures ConvertDaysToSeconds(ds + unit) == DigitsValue(ds) * SecondsPerDay
  {
    var s := ds + unit;
    assert 'd' !in s by {
      forall i | 0 <= i < |s| ensures s[i] != 'd' {
        if i < |ds| {
          assert IsDigit(ds[i]);
        } else {
          assert s[i] == unit[i - |ds|];
        }
      }
    }
    ReplaceFirstRemovesFirst(s, 'd');
    assert ReplaceFirst(s, 'd') == s;
    ParseIntLeadingDigits(ds, unit);
  }

  /** So "1h" gives one day. */
  lemma ConvertOneHour()
    ensures ConvertDaysToSeconds("1h") == SecondsPerDay
  {
    ConvertIgnoresOtherUnits("1", "h");
    assert "1" + "h" == "1h";
  }

  /** Only the first 'd' is removed: the digits around it are read as one number of days. */
  lemma ConvertRemovesOnlyFirstD(a: string, b: string)
    requires a != [] && AllDigits(a) && AllDigits(b)
    ensures ConvertDaysToSeconds(a + "d" + b + "d") == DigitsValue(a + b) * SecondsPerDay
  {
    ReplaceFirstAfterDigits(a, b + "d");
    assert a + "d" + b + "d" == a + "d" + (b + "d");
    assert a + (b + "d") == (a + b) + "d";
    DigitsConcat(a, b);
    ParseIntLeadingDigits(a + b, "d");
  }

  /** The first 'd' after a run of digits is the one removed. */
  lemma ReplaceFirstAfterDigits(a: string, rest: string)
    requires AllDigits(a)
    ensures ReplaceFirst(a + "d" + rest, 'd') == a + rest
  {
    var s := a + "d" + rest;
    assert 'd' !in a by {
      forall i | 0 <= i < |a| ensures a[i] != 'd' {
        assert IsDigit(a[i]);
      }
    }
    assert s[..|a|] == a && s[|a|] == 'd' && s[|a| + 1..] == rest;
    assert IndexOf(s, 'd') == |a|;
    ReplaceFirstRemovesFirst(s, 'd');
  }

  lemma DigitsConcat(a: string, b: string)
    requires AllDigits(a) && AllDigits(b)
    ensures AllDigits(a + b)
  {
    forall i | 0 <= i < |a + b| ensures IsDigit((a + b)[i]) {
      if i >= |a| {
        assert (a + b)[i] == b[i - |a|];
      }
    }
  }

  /** So "1d2d" is read as twelve days. */
  lemma ConvertOneDTwoD()
    ensures ConvertDaysToSeconds("1d2d") == 12 * SecondsPerDay
  {
    var ds := "1" + "2";
    assert ds[..1] == "1" && ds[1] == '2';
    assert DigitsValue("1") == 1 by {
      assert "1"[..0] == [];
    }
    assert DigitsValue(ds) == 12;
    ConvertRemovesOnlyFirstD("1", "2");
    assert "1" + "d" + "2" + "d" == "1d2d";
  }

  /** A duration that does not begin with white space, a sign, a digit or 'd' converts to 0. */
  lemma ConvertNonNumeric(duration: string)
    requires duration != []
    requires !IsDigit(duration[0]) && !IsWhitespace(duration[0])
    requires duration[0] != '-' && duration[0] != '+' && duration[0] != 'd'
    ensures ConvertDaysToSeconds(duration) == 0
  {
    var r := ReplaceFirst(duration, 'd');
    assert r != [] && r[0] == duration[0];
    assert TrimStart(r) == r;
    assert UnsignedPart(r) == r;
  }
}
