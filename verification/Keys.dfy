/** The string keys of the habit artifacts: decimal printing with zero padding, the month key
    and its parser, and the two ways the app prints a date. */
module Keys {
  import opened Wrappers
  import opened Calendar

  // ----- Decimal numerals ---------------------------------------------------------------

  function Digit(n: int): char
    requires 0 <= n < 10
  {
    ('0' as int + n) as char
  }

  predicate IsDigit(c: char) {
    '0' <= c <= '9'
  }

  predicate AllDigits(s: string) {
    forall i :: 0 <= i < |s| ==> IsDigit(s[i])
  }

  function Digits(n: nat): string {
    if n < 10 then [Digit(n)] else Digits(n / 10) + [Digit(n % 10)]
  }

  function IntStr(n: int): string {
    if n < 0 then "-" + Digits(-n) else Digits(n)
  }

  /** Dart's `padLeft(width, '0')`: it pads, and never truncates. */
  function PadLeft(s: string, width: nat): string
    decreases width - |s|
  {
    if |s| >= width then s else PadLeft(['0'] + s, width)
  }

  function Padded(n: int, width: nat): string {
    PadLeft(IntStr(n), width)
  }

  /** Value of a digit string: what `int.parse` returns on it. */
  function Value(s: string): int {
    if s == [] then 0 else 10 * Value(s[..|s| - 1]) + (s[|s| - 1] as int - '0' as int)
  }

  lemma {:induction false} DigitsSpell(n: nat)
    ensures AllDigits(Digits(n)) && |Digits(n)| >= 1
    ensures Value(Digits(n)) == n
  {
    if n < 10 {
      assert Digits(n)[..0] == [];
    } else {
      DigitsSpell(n / 10);
      assert Digits(n)[..|Digits(n)| - 1] == Digits(n / 10);
    }
  }

  lemma {:induction false} LeadingZero(s: string)
    ensures Value(['0'] + s) == Value(s)
  {
    var z := ['0'] + s;
    if s == [] {
      assert z[..0] == [];
    } else {
      assert z[..|z| - 1] == ['0'] + s[..|s| - 1];
      LeadingZero(s[..|s| - 1]);
    }
  }

  /** Reads back a padded integer: leading zeros are skipped, also in front of a sign. */
  function Unpad(s: string): int {
    if |s| > 1 && s[0] == '0' then Unpad(s[1..])
    else if |s| > 0 && s[0] == '-' then -Value(s[1..])
    else Value(s)
  }

  lemma {:induction false} UnpadDigits(s: string)
    requires AllDigits(s)
    ensures Unpad(s) == Value(s)
  {
    if |s| > 1 && s[0] == '0' {
      UnpadDigits(s[1..]);
      LeadingZero(s[1..]);
      assert s == ['0'] + s[1..];
    }
  }

  lemma {:induction false} UnpadPadLeft(s: string, width: nat)
    requires |s| >= 1
    ensures Unpad(PadLeft(s, width)) == Unpad(s)
    ensures |PadLeft(s, width)| == if |s| >= width then |s| else width
    decreases width - |s|
  {
    if |s| < width {
      UnpadPadLeft(['0'] + s, width);
      assert (['0'] + s)[1..] == s;
    }
  }

  lemma {:induction false} UnpadIntStr(n: int)
    ensures |IntStr(n)| >= 1
    ensures Unpad(IntStr(n)) == n
  {
    if n < 0 {
      DigitsSpell(-n);
      assert IntStr(n)[0] == '-' && IntStr(n)[1..] == Digits(-n);
    } else {
      DigitsSpell(n);
      UnpadDigits(Digits(n));
    }
  }

  /** Padding loses nothing, whatever the sign and however long the numeral. */
  lemma {:induction false} UnpadPadded(n: int, width: nat)
    ensures Unpad(Padded(n, width)) == n
    ensures |Padded(n, width)| >= width
  {
    UnpadIntStr(n);
    UnpadPadLeft(IntStr(n), width);
  }

  lemma {:induction false} TwoDigits(n: int)
    requires 0 <= n < 100
    ensures |Padded(n, 2)| == 2
  {
    assert |IntStr(n)| <= 2;
    DigitsSpell(n);
    UnpadPadLeft(IntStr(n), 2);
  }

  // ----- Keys ---------------------------------------------------------------------------

  function MonthKey(year: int, month: int): string {
    "log/" + Padded(year, 4) + "-" + Padded(month, 2)
  }

  /** `StreakData._dateStr`. */
  function DateStr(d: Date): string {
    Padded(d.year, 4) + "-" + Padded(d.month, 2) + "-" + Padded(d.day, 2)
  }

  function Magnitude(year: int): nat {
    if year < 0 then -year else year
  }

  /** `HabitLog._dateKey`: the `yyyy-MM-dd` format prints the magnitude of the year. */
  function DateKey(d: Date): string {
    Padded(Magnitude(d.year), 4) + "-" + Padded(d.month, 2) + "-" + Padded(d.day, 2)
  }

  /** `HabitLog.parseKey`: the whole key must be `log/`, four digits, a hyphen and two digits. */
  function ParseKey(key: string): Option<(int, int)> {
    if |key| == 11 && key[..4] == "log/" && AllDigits(key[4..8]) && key[8] == '-' && AllDigits(key[9..])
    then Some((Value(key[4..8]), Value(key[9..])))
    else None
  }

  /** Strings with the same tail length split in only one way. */
  lemma {:induction false} SameTail(a: string, b: string, x: string, y: string)
    requires |a| == |b|
    requires x + a == y + b
    ensures x == y && a == b
  {
    assert |x| == |y|;
    assert x == (x + a)[..|x|] && y == (y + b)[..|y|];
    assert a == (x + a)[|x|..] && b == (y + b)[|y|..];
  }

  lemma {:induction false} MonthKeyInjective(y1: int, m1: int, y2: int, m2: int)
    requires 1 <= m1 <= 12 && 1 <= m2 <= 12
    requires MonthKey(y1, m1) == MonthKey(y2, m2)
    ensures y1 == y2 && m1 == m2
  {
    TwoDigits(m1);
    TwoDigits(m2);
    SameTail(Padded(m1, 2), Padded(m2, 2), "log/" + Padded(y1, 4) + "-", "log/" + Padded(y2, 4) + "-");
    SameTail("-", "-", "log/" + Padded(y1, 4), "log/" + Padded(y2, 4));
    assert ("log/" + Padded(y1, 4))[4..] == Padded(y1, 4);
    assert ("log/" + Padded(y2, 4))[4..] == Padded(y2, 4);
    UnpadPadded(y1, 4);
    UnpadPadded(y2, 4);
    UnpadPadded(m1, 2);
    UnpadPadded(m2, 2);
  }

  lemma {:induction false} DayTailInjective(p: string, q: string, a: Date, b: Date)
    requires a.Valid() && b.Valid()
    requires p + "-" + Padded(a.month, 2) + "-" + Padded(a.day, 2) == q + "-" + Padded(b.month, 2) + "-" + Padded(b.day, 2)
    ensures p == q && a.month == b.month && a.day == b.day
  {
    TwoDigits(a.month);
    TwoDigits(b.month);
    TwoDigits(a.day);
    TwoDigits(b.day);
    SameTail(Padded(a.day, 2), Padded(b.day, 2), p + "-" + Padded(a.month, 2) + "-", q + "-" + Padded(b.month, 2) + "-");
    SameTail("-", "-", p + "-" + Padded(a.month, 2), q + "-" + Padded(b.month, 2));
    SameTail(Padded(a.month, 2), Padded(b.month, 2), p + "-", q + "-");
    SameTail("-", "-", p, q);
    UnpadPadded(a.month, 2);
    UnpadPadded(b.month, 2);
    UnpadPadded(a.day, 2);
    UnpadPadded(b.day, 2);
  }

  /** The streak cache's date string names one date. */
  lemma {:induction false} DateStrInjective(a: Date, b: Date)
    requires a.Valid() && b.Valid()
    requires DateStr(a) == DateStr(b)
    ensures a == b
  {
    DayTailInjective(Padded(a.year, 4), Padded(b.year, 4), a, b);
    UnpadPadded(a.year, 4);
    UnpadPadded(b.year, 4);
  }

  /** The log's day key confuses a year with its negative, and nothing else. */
  lemma {:induction false} DateKeyConfusesExactly(a: Date, b: Date)
    requires a.Valid() && b.Valid()
    ensures DateKey(a) == DateKey(b) <==>
            a.month == b.month && a.day == b.day && (a.year == b.year || a.year == -b.year)
  {
    if DateKey(a) == DateKey(b) {
      DayTailInjective(Padded(Magnitude(a.year), 4), Padded(Magnitude(b.year), 4), a, b);
      UnpadPadded(Magnitude(a.year), 4);
      UnpadPadded(Magnitude(b.year), 4);
    }
  }

  /** Together with the month key the day key names one date. */
  lemma {:induction false} LogKeysInjective(a: Date, b: Date)
    requires a.Valid() && b.Valid()
    requires MonthKey(a.year, a.month) == MonthKey(b.year, b.month)
    requires DateKey(a) == DateKey(b)
    ensures a == b
  {
    MonthKeyInjective(a.year, a.month, b.year, b.month);
    DateKeyConfusesExactly(a, b);
  }

  // ----- Printing and parsing -----------------------------------------------------------

  lemma {:induction false} PadLeftSnoc(s: string, c: char, width: nat)
    requires width >= 1
    ensures PadLeft(s + [c], width) == PadLeft(s, width - 1) + [c]
    decreases width - |s|
  {
    if |s| + 1 < width {
      PadLeftSnoc(['0'] + s, c, width);
      assert ['0'] + (s + [c]) == (['0'] + s) + [c];
    }
  }

  lemma {:induction false} DigitsSnoc(v: nat, d: int)
    requires v > 0 && 0 <= d < 10
    ensures Digits(10 * v + d) == Digits(v) + [Digit(d)]
  {
    assert (10 * v + d) / 10 == v && (10 * v + d) % 10 == d;
  }

  lemma {:induction false} ZeroSnoc(d: int, width: nat)
    requires 0 <= d < 10 && width >= 2
    ensures PadLeft([Digit(d)], width) == PadLeft("0", width - 1) + [Digit(d)]
  {
    assert PadLeft([Digit(d)], width) == PadLeft("0" + [Digit(d)], width);
    PadLeftSnoc("0", Digit(d), width);
  }

  lemma {:induction false} PaddedSnoc(p: string, v: nat, d: int)
    requires |p| >= 1 && Padded(v, |p|) == p && 0 <= d < 10
    ensures Padded(10 * v + d, |p| + 1) == p + [Digit(d)]
  {
    if v == 0 {
      ZeroSnoc(d, |p| + 1);
    } else {
      DigitsSnoc(v, d);
      PadLeftSnoc(Digits(v), Digit(d), |p| + 1);
    }
  }

  /** Printing the value of a digit string at its own width gives the string back. */
  lemma {:induction false} PaddedValue(s: string)
    requires AllDigits(s) && |s| >= 1
    ensures Value(s) >= 0 && Padded(Value(s), |s|) == s
  {
    var p, c := s[..|s| - 1], s[|s| - 1];
    var d := c as int - '0' as int;
    assert s == p + [c] && Digit(d) == c;
    if |s| > 1 {
      PaddedValue(p);
      hide Padded;
      PaddedSnoc(p, Value(p), d);
    }
  }

  lemma {:induction false} PadLeftDigits(s: string, width: nat)
    ensures AllDigits(PadLeft(s, width)) == AllDigits(s)
    decreases width - |s|
  {
    if |s| < width {
      PadLeftDigits(['0'] + s, width);
      if AllDigits(['0'] + s) {
        forall i | 0 <= i < |s| ensures IsDigit(s[i]) {
          assert (['0'] + s)[i + 1] == s[i];
        }
      }
    }
  }

  lemma {:induction false} DigitsLength(n: nat, width: nat, bound: nat)
    requires width >= 1 && bound == Power10(width)
    ensures |Digits(n)| <= width <==> n < bound
    decreases width
  {
    if width > 1 && n >= 10 {
      DigitsLength(n / 10, width - 1, Power10(width - 1));
    } else if width > 1 {
      Power10Grows(width);
    } else if n >= 10 {
      DigitsSpell(n / 10);
    }
  }

  function Power10(n: nat): nat {
    if n == 0 then 1 else 10 * Power10(n - 1)
  }

  lemma {:induction false} Power10Grows(n: nat)
    requires n >= 1
    ensures Power10(n) >= 10
  {
    if n > 1 {
      Power10Grows(n - 1);
    }
  }

  /** A padded integer is a digit string of the asked width exactly when it fits. */
  lemma {:induction false} PaddedFits(n: int, width: nat)
    requires width >= 1
    ensures |Padded(n, width)| >= width
    ensures |Padded(n, width)| == width && AllDigits(Padded(n, width)) <==> 0 <= n < Power10(width)
  {
    UnpadPadded(n, width);
    PadLeftDigits(IntStr(n), width);
    if n < 0 {
      assert IntStr(n)[0] == '-';
    } else {
      DigitsSpell(n);
      DigitsLength(n, width, Power10(width));
      UnpadPadLeft(IntStr(n), width);
    }
  }

  /** The parser inverts the printer on exactly the keys the printer makes for years 0 to 9999
      and two-digit months; it rejects every other string. */
  lemma {:induction false} ParseKeyInvertsMonthKey(key: string, year: int, month: int)
    ensures ParseKey(key) == Some((year, month)) <==>
            key == MonthKey(year, month) && 0 <= year < 10000 && 0 <= month < 100
  {
    PaddedFits(year, 4);
    PaddedFits(month, 2);
    assert Power10(4) == 10000 && Power10(2) == 100 by {
      assert Power10(1) == 10 && Power10(2) == 100 && Power10(3) == 1000;
    }
    if ParseKey(key) == Some((year, month)) {
      PaddedValue(key[4..8]);
      PaddedValue(key[9..]);
      assert key == key[..4] + key[4..8] + [key[8]] + key[9..];
    }
    if key == MonthKey(year, month) && 0 <= year < 10000 && 0 <= month < 100 {
      assert key[..4] == "log/" && key[4..8] == Padded(year, 4) && key[9..] == Padded(month, 2);
      UnpadPadded(year, 4);
      UnpadPadded(month, 2);
      UnpadDigits(key[4..8]);
      UnpadDigits(key[9..]);
    }
  }

  /** A printed key parses back to its month exactly for years 0 to 9999; outside them the
      stored artifact's key no longer parses. */
  lemma {:induction false} MonthKeyRoundTrip(year: int, month: int)
    requires 1 <= month <= 12
    ensures ParseKey(MonthKey(year, month)) == Some((year, month)) <==> 0 <= year < 10000
    ensures !(0 <= year < 10000) ==> ParseKey(MonthKey(year, month)) == None
  {
    ParseKeyInvertsMonthKey(MonthKey(year, month), year, month);
    PaddedFits(year, 4);
    TwoDigits(month);
    assert Power10(4) == 10000 by {
      assert Power10(1) == 10 && Power10(2) == 100 && Power10(3) == 1000;
    }
    var key := MonthKey(year, month);
    if |key| == 11 && !(0 <= year < 10000) {
      assert key[4..8] == Padded(year, 4);
    }
  }

  lemma {:induction false} FourDigits(n: int)
    requires 1000 <= n < 10000
    ensures Padded(n, 4) == [Digit(n / 1000), Digit(n / 100 % 10), Digit(n / 10 % 10), Digit(n % 10)]
  {
    assert n / 10 / 10 == n / 100 && n / 10 / 10 / 10 == n / 1000;
    assert Digits(n / 1000) == [Digit(n / 1000)];
    assert Digits(n / 100) == Digits(n / 1000) + [Digit(n / 100 % 10)];
    assert Digits(n / 10) == Digits(n / 100) + [Digit(n / 10 % 10)];
  }

  lemma {:induction false} TwoPadded(n: int)
    requires 0 <= n < 100
    ensures Padded(n, 2) == [Digit(n / 10), Digit(n % 10)]
  {
    if n < 10 {
      assert ['0'] + [Digit(n)] == [Digit(n / 10), Digit(n % 10)];
      assert PadLeft([Digit(n)], 2) == PadLeft(['0'] + [Digit(n)], 2);
    } else {
      assert Digits(n / 10) == [Digit(n / 10)];
    }
  }

  /** The documented shapes: `log/YYYY-MM` for a month and `YYYY-MM-DD` for a date, digit by digit. */
  lemma {:induction false} KeysAreAsDocumented(d: Date)
    requires d.Valid() && 1000 <= d.year < 10000
    ensures var y, m, n := d.year, d.month, d.day;
            var year := [Digit(y / 1000), Digit(y / 100 % 10), Digit(y / 10 % 10), Digit(y % 10)];
            && MonthKey(y, m) == "log/" + year + "-" + [Digit(m / 10), Digit(m % 10)]
            && DateKey(d) == DateStr(d) == year + "-" + [Digit(m / 10), Digit(m % 10)] + "-" + [Digit(n / 10), Digit(n % 10)]
  {
    FourDigits(d.year);
    TwoPadded(d.month);
    TwoPadded(d.day);
    hide Padded;
  }
}
