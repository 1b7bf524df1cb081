/**
 * The nickname formatter and the recovery of the base name from a formatted
 * name (src/renderer/app.js). Time is an integer count of milliseconds since
 * the Unix epoch, in UTC; the configured timezone is a whole number of hours.
 */
module Nickname {
  import opened Wrappers
  import opened Strings

  /** The text the formatter puts between the fields. */
  const SEPARATOR: string := " | "

  const MS_PER_MINUTE: int := 60000
  const MS_PER_HOUR: int := 3600000
  const MINUTES_PER_DAY: int := 1440

  predicate IsDigit(c: char) {
    '0' <= c <= '9'
  }

  function DigitValue(c: char): (d: nat)
    requires IsDigit(c)
    ensures d < 10
  {
    (c as int - '0' as int) as nat
  }

  function DigitChar(d: nat): (c: char)
    requires d < 10
    ensures IsDigit(c) && DigitValue(c) == d
  {
    ('0' as int + d) as char
  }

  /** `String(n).padStart(2, '0')` for a number below 100. */
  function Pad2(n: nat): (r: string)
    requires n < 100
    ensures |r| == 2 && IsDigit(r[0]) && IsDigit(r[1])
    ensures 10 * DigitValue(r[0]) + DigitValue(r[1]) == n
  {
    [DigitChar(n / 10), DigitChar(n % 10)]
  }

  /**
   * The minute of the local day: the UTC instant shifted by `tz` hours. The
   * modulus is Euclidean, so instants before the epoch and negative offsets
   * land on the same wall-clock minute a JavaScript Date reports.
   */
  function LocalMinuteOfDay(now: int, tz: int): (m: nat)
    ensures m < MINUTES_PER_DAY
  {
    (now / MS_PER_MINUTE + 60 * tz) % MINUTES_PER_DAY
  }

  function LocalHour(now: int, tz: int): (h: nat)
    ensures h < 24
  {
    LocalMinuteOfDay(now, tz) / 60
  }

  function LocalMinute(now: int, tz: int): (m: nat)
    ensures m < 60
  {
    LocalMinuteOfDay(now, tz) % 60
  }

  /** "day" from 06:00 up to but excluding 18:00, "night" otherwise. */
  function DayLabel(hour: nat): (tag: string)
    ensures tag == "day" <==> 6 <= hour < 18
    ensures tag == "day" || tag == "night"
  {
    if 6 <= hour < 18 then "day" else "night"
  }

  /** What the formatter appends to the base: " | {HH}:{MM} | {day|night}". */
  function Suffix(tz: int, now: int): (tail: string)
    ensures |tail| >= 3 && tail[..3] == SEPARATOR
    ensures (|tail| == 14 || |tail| == 16) && tail[5] == ':'
  {
    var h := LocalHour(now, tz);
    SEPARATOR + Pad2(h) + ":" + Pad2(LocalMinute(now, tz)) + SEPARATOR + DayLabel(h)
  }

  /** `formatNickname` once the base name is chosen: "{base} | {HH}:{MM} | {day|night}". */
  function Format(base: string, tz: int, now: int): (name: string)
    ensures base <= name
    ensures |name| == |base| + 14 || |name| == |base| + 16
    ensures name[|base|..|base| + 3] == SEPARATOR && name[|base| + 5] == ':'
  {
    base + Suffix(tz, now)
  }

  /** The base `formatNickname` uses: `originalNickname || profile.displayName`. */
  function ChooseBase(originalNickname: Option<string>, displayName: string): (base: string)
    ensures Truthy(originalNickname) ==> base == originalNickname.value
    ensures originalNickname == Some("") || originalNickname == None ==> base == displayName
  {
    OrElse(originalNickname, displayName)
  }

  /** `formatNickname()` on the renderer's state. */
  function FormatNickname(originalNickname: Option<string>, displayName: string, tz: int, now: int): (name: string)
    ensures Truthy(originalNickname) ==> originalNickname.value <= name
    ensures !Truthy(originalNickname) ==> displayName <= name
    ensures Includes(name, SEPARATOR)
  {
    FormatIncludesSeparator(ChooseBase(originalNickname, displayName), tz, now);
    Format(ChooseBase(originalNickname, displayName), tz, now)
  }

  /**
   * The base name recovered from a display name: when it includes " | ",
   * the part before the first " | ", otherwise the whole name.
   */
  function BaseOf(displayName: string): (base: string)
    ensures base <= displayName
    ensures !Includes(base, SEPARATOR)
    ensures base == displayName <==> !Includes(displayName, SEPARATOR)
    ensures base != displayName ==> IndexOf(displayName, SEPARATOR) == Some(|base|)
  {
    if Includes(displayName, SEPARATOR) then SplitHead(displayName, SEPARATOR) else displayName
  }

  // ---------------------------------------------------------------------------
  // Arithmetic of the clock

  lemma DivModUnique(x: int, d: int, q: int, r: int)
    requires d > 0 && x == d * q + r && 0 <= r < d
    ensures x / d == q && x % d == r
  {
    var q0, r0 := x / d, x % d;
    assert d * (q - q0) == r0 - r;
    if q > q0 {
      MulAtLeast(d, q - q0);
    } else if q < q0 {
      MulAtLeast(d, q0 - q);
    }
  }

  lemma MulAtLeast(d: int, k: int)
    requires d > 0 && k >= 1
    ensures d * k >= d
  {
  }

  /** Dividing by 60000 and then by 60 is dividing by 3600000. */
  lemma NestedDivision(t: int)
    ensures (t / MS_PER_MINUTE) / 60 == t / MS_PER_HOUR
  {
    var m := t / MS_PER_MINUTE;
    var s := t % MS_PER_MINUTE;
    var q := m / 60;
    var r := m % 60;
    assert t == MS_PER_HOUR * q + (MS_PER_MINUTE * r + s);
    DivModUnique(t, MS_PER_HOUR, q, MS_PER_MINUTE * r + s);
  }

  /**
   * The local hour is the UTC hour shifted by the offset, modulo 24, and the
   * local minute is the UTC minute: whole-hour offsets never move the minute.
   * The solver can sometimes close this unaided, but not on every random
   * seed within the resource limit; the explicit division steps below, and
   * NestedDivision, keep the proof stable.
   */
  lemma {:induction false} LocalClock(now: int, tz: int)
    ensures LocalHour(now, tz) == ((now / MS_PER_HOUR) % 24 + tz) % 24
    ensures LocalMinute(now, tz) == (now / MS_PER_MINUTE) % 60
  {
    var m := now / MS_PER_MINUTE;
    var q := m / 60;
    var r := m % 60;
    var k := (q + tz) / 24;
    var h := (q + tz) % 24;
    assert m + 60 * tz == MINUTES_PER_DAY * k + (60 * h + r);
    DivModUnique(m + 60 * tz, MINUTES_PER_DAY, k, 60 * h + r);
    DivModUnique(60 * h + r, 60, h, r);
    NestedDivision(now);
    var u := q % 24;
    assert q + tz == 24 * (q / 24 + k - (q / 24)) + h;
    assert u + tz == 24 * (k - q / 24) + h;
    DivModUnique(u + tz, 24, k - q / 24, h);
  }

  /**
   * What the formatted name is made of: the base, " | ", the zero-padded
   * local hour (UTC hour plus the offset, modulo 24), ":", the zero-padded
   * UTC minute, " | " and the day/night label of that hour.
   */
  lemma FormatFields(base: string, tz: int, now: int)
    ensures var h := ((now / MS_PER_HOUR) % 24 + tz) % 24;
            var m := (now / MS_PER_MINUTE) % 60;
            Format(base, tz, now) == base + " | " + Pad2(h) + ":" + Pad2(m) + " | " + DayLabel(h)
  {
    LocalClock(now, tz);
  }

  /** Within one minute of one timezone the formatted name does not change. */
  lemma FormatStableWithinMinute(base: string, tz: int, t1: int, t2: int)
    requires t1 / MS_PER_MINUTE == t2 / MS_PER_MINUTE
    ensures Format(base, tz, t1) == Format(base, tz, t2)
  {
  }

  /** Offsets 24 hours apart give the same name. */
  lemma FormatOffsetPeriod(base: string, tz: int, now: int)
    ensures Format(base, tz + 24, now) == Format(base, tz, now)
  {
    var m := now / MS_PER_MINUTE + 60 * tz;
    DivModUnique(m + MINUTES_PER_DAY, MINUTES_PER_DAY, m / MINUTES_PER_DAY + 1, m % MINUTES_PER_DAY);
  }

  lemma FormatExampleDay()
    ensures Format("Alice", 0, 1704099900000) == "Alice | 09:05 | day"
  {
  }

  lemma FormatExampleNight()
    ensures Format("Alice", -5, 1704099900000) == "Alice | 04:05 | night"
  {
  }

  // ---------------------------------------------------------------------------
  // Recovering the base from a formatted name

  /** `s` ends in " |", the one shape that runs into the separator the formatter appends. */
  predicate EndsWithBar(s: string) {
    |s| >= 2 && s[|s| - 2..] == " |"
  }

  /** The formatted name always includes the separator, so it is never a base itself. */
  lemma FormatIncludesSeparator(base: string, tz: int, now: int)
    ensures Includes(Format(base, tz, now), SEPARATOR)
  {
    var f := Format(base, tz, now);
    assert f[|base|..|base| + 3] == Suffix(tz, now)[..3];
    assert OccursAt(f, SEPARATOR, |base|);
  }

  /** A separator of `base + tail` that starts inside `base`. */
  lemma SeparatorInsideBase(base: string, tail: string, j: int)
    requires |tail| >= 3 && tail[..3] == SEPARATOR
    requires OccursAt(base + tail, SEPARATOR, j) && j < |base|
    ensures OccursAt(base, SEPARATOR, j) || (j == |base| - 2 && EndsWithBar(base))
  {
    var f := base + tail;
    assert f[j..j + 3] == SEPARATOR;
    assert f[j] == ' ' && f[j + 1] == '|' && f[j + 2] == ' ';
    assert forall k :: 0 <= k < |base| ==> f[k] == base[k];
    assert forall k :: 0 <= k < 3 ==> f[|base| + k] == tail[k];
    assert tail[0] == ' ' && tail[1] == '|';
    if j + 3 <= |base| {
      assert base[j..j + 3] == f[j..j + 3];
    } else if j == |base| - 1 {
      assert false;
    } else {
      assert base[|base| - 2..] == [f[j], f[j + 1]];
    }
  }

  /** A base ending in " |" meets the tail's separator one character early. */
  lemma EarlySeparator(base: string, tail: string)
    requires |tail| >= 3 && tail[..3] == SEPARATOR && EndsWithBar(base)
    ensures OccursAt(base + tail, SEPARATOR, |base| - 2)
  {
    var f := base + tail;
    var j := |base| - 2;
    assert base[|base| - 2..][0] == ' ' && base[|base| - 2..][1] == '|';
    assert tail[0] == ' ';
    assert f[j..j + 3] == [base[j], base[j + 1], tail[0]];
  }

  /** A separator inside `base` is one of `base + tail`. */
  lemma SeparatorOfBase(base: string, tail: string, j: int)
    requires OccursAt(base, SEPARATOR, j)
    ensures OccursAt(base + tail, SEPARATOR, j)
  {
    assert (base + tail)[j..j + 3] == base[j..j + 3];
  }

  /** Splitting `base + tail`, where the tail starts with the separator. */
  lemma BaseOfAppended(base: string, tail: string)
    requires |tail| >= 3 && tail[..3] == SEPARATOR
    ensures BaseOf(base + tail) == base <==> !Includes(base, SEPARATOR) && !EndsWithBar(base)
  {
    var f := base + tail;
    assert f[|base|..|base| + 3] == tail[..3];
    assert OccursAt(f, SEPARATOR, |base|);
    var i := IndexOf(f, SEPARATOR).value;
    assert BaseOf(f) == f[..i];
    assert i <= |base|;
    if !Includes(base, SEPARATOR) && !EndsWithBar(base) {
      if i < |base| {
        SeparatorInsideBase(base, tail, i);
      }
      assert f[..|base|] == base;
    } else if Includes(base, SEPARATOR) {
      var j := IndexOf(base, SEPARATOR).value;
      SeparatorOfBase(base, tail, j);
      assert |f[..i]| < |base|;
    } else {
      EarlySeparator(base, tail);
      assert |f[..i]| < |base|;
    }
  }

  /**
   * Recovering the base from a formatted name gives the base back exactly
   * when the base has no " | " of its own and does not end in " |".
   */
  lemma BaseOfFormat(base: string, tz: int, now: int)
    ensures BaseOf(Format(base, tz, now)) == base <==> !Includes(base, SEPARATOR) && !EndsWithBar(base)
  {
    BaseOfAppended(base, Suffix(tz, now));
  }

  /** The smallest base for which the round trip fails. */
  lemma BaseOfFormatCounterexample()
    ensures BaseOf(Format("x |", 0, 0)) == "x"
  {
    var tail := Suffix(0, 0);
    var f := "x |" + tail;
    assert f == Format("x |", 0, 0);
    assert tail[0] == ' ' by {
      assert tail[..3][0] == tail[0];
    }
    assert f[1..4] == [f[1], f[2], f[3]] == SEPARATOR;
    assert OccursAt(f, SEPARATOR, 1);
    assert !OccursAt(f, SEPARATOR, 0) by {
      assert f[0..3][0] == f[0] == 'x';
    }
    assert IndexOf(f, SEPARATOR) == Some(1);
  }

  /** The base of a name the formatter produced at 09:00 UTC. */
  lemma BaseOfExample()
    ensures BaseOf("Alice | 09:00 | day") == "Alice"
  {
    assert !Includes("Alice", SEPARATOR) by {
      forall j | 0 <= j ensures !OccursAt("Alice", SEPARATOR, j) {
        if j + 3 <= 5 {
          assert "Alice"[j..j + 3][0] == "Alice"[j] != ' ';
        }
      }
    }
    var f := "Alice | 09:00 | day";
    assert f[5..8] == SEPARATOR;
    assert OccursAt(f, SEPARATOR, 5);
    forall j | 0 <= j < 5 ensures !OccursAt(f, SEPARATOR, j) {
      assert f[j..j + 3][0] == f[j] != ' ';
    }
  }

  /** Recovering the base twice is recovering it once. */
  lemma BaseOfIdempotent(displayName: string)
    ensures BaseOf(BaseOf(displayName)) == BaseOf(displayName)
  {
  }
}
