/** `pretty_time`: how a cooldown in seconds is shown to the user (vouch_bot.py:148-156). */
module PrettyTime {
  import opened Basics

  predicate IsDigit(c: char) {
    '0' <= c <= '9'
  }

  predicate AllDigits(s: string) {
    forall i :: 0 <= i < |s| ==> IsDigit(s[i])
  }

  function DigitChar(d: nat): char
    requires d < 10
  {
    ('0' as int + d) as char
  }

  /** Python's `str(n)` for a non-negative integer: its decimal digits, no leading zeros. */
  function Decimal(n: nat): (s: string)
    ensures |s| >= 1 && AllDigits(s)
    ensures |s| > 1 ==> s[0] != '0'
  {
    if n < 10 then [DigitChar(n)] else Decimal(n / 10) + [DigitChar(n % 10)]
  }

  /** The value of a decimal digit, None for any other character. */
  function DigitValue(c: char): (d: Option<nat>)
    ensures d.Some? <==> IsDigit(c)
  {
    if IsDigit(c) then Some(c as int - '0' as int) else None
  }

  /** The number a string of decimal digits in canonical form denotes (non-empty, no leading zero
      unless it is "0" itself); None for anything else, so `"05"` is not read as 5. */
  function ReadNumber(s: string): Option<nat> {
    if s == [] || (|s| > 1 && s[0] == '0') then None
    else match DigitValue(s[|s| - 1])
      case None => None
      case Some(d) =>
        if |s| == 1 then Some(d)
        else match ReadNumber(s[..|s| - 1])
          case None => None
          case Some(v) => Some(v * 10 + d)
  }

  lemma {:induction false} DecimalReadsBack(n: nat)
    ensures ReadNumber(Decimal(n)) == Some(n)
  {
    var s := Decimal(n);
    if n >= 10 {
      assert s[..|s| - 1] == Decimal(n / 10);
      DecimalReadsBack(n / 10);
    }
  }

  /** The reader accepts nothing but `str(n)`: together with `DecimalReadsBack`, `ReadNumber(s)`
      is `Some(n)` exactly when `s == Decimal(n)`. */
  lemma {:induction false} ReadNumberOnlyDecimal(s: string, n: nat)
    requires ReadNumber(s) == Some(n)
    ensures s == Decimal(n)
  {
    var d := DigitValue(s[|s| - 1]).value;
    if |s| > 1 {
      var prefix := s[..|s| - 1];
      var w := ReadNumber(prefix).value;
      ReadNumberOnlyDecimal(prefix, w);
      assert prefix[0] == s[0];
      assert w != 0;
      assert n == w * 10 + d && n / 10 == w && n % 10 == d;
      assert s == prefix + [s[|s| - 1]];
    }
  }

  /** Hours, minutes and seconds, as `pretty_time` computes them with `//` and `%`
      (floor division by a positive constant, which is Dafny's `/` and `%`). */
  function Split(seconds: int): (hms: (int, int, int))
    ensures hms.0 * 3600 + hms.1 * 60 + hms.2 == seconds
    ensures 0 <= hms.1 < 60 && 0 <= hms.2 < 60
    ensures hms.0 > 0 <==> seconds >= 3600
    ensures hms.0 == 0 ==> (hms.1 > 0 <==> seconds >= 60)
  {
    var h, rest := seconds / 3600, seconds % 3600;
    var m, s := rest / 60, seconds % 60;
    assert rest == 60 * m + rest % 60;
    assert seconds == 60 * (60 * h + m) + rest % 60;
    RemainderUnique(seconds, 60 * h + m, rest % 60);
    (h, m, s)
  }

  /** Dividing by 60 leaves the one remainder in [0, 60) that the quotient allows. */
  lemma RemainderUnique(a: int, q: int, r: int)
    requires a == 60 * q + r && 0 <= r < 60
    ensures a % 60 == r && a / 60 == q
  {
  }

  /** `"{h}h {m}m"` from an hour on, `"{m}m {s}s"` from a minute on, else `"{s}s"`. */
  function PrettyTime(seconds: int): (text: string)
    ensures |text| >= 2
    ensures text[|text| - 1] == if seconds >= 3600 then 'm' else 's'
  {
    var hms := Split(seconds);
    Render(hms.0, hms.1, hms.2)
  }

  /** The three-way format choice of `pretty_time` on the parts it computed. */
  function Render(h: int, m: nat, s: nat): (text: string)
    ensures |text| >= 2
    ensures text[|text| - 1] == if h > 0 then 'm' else 's'
  {
    if h > 0 then Decimal(h) + "h " + Decimal(m) + "m"
    else if m > 0 then Decimal(m) + "m " + Decimal(s) + "s"
    else Decimal(s) + "s"
  }

  // ---------------------------------------------------------------------------------------------
  // Reading a rendered duration back: the partner that says what `PrettyTime` shows.

  /** The position of the first space in `s`, if any. */
  function SpaceAt(s: string): (k: Option<nat>)
    ensures k.Some? ==> k.value < |s| && s[k.value] == ' ' && forall j :: 0 <= j < k.value ==> s[j] != ' '
    ensures k.None? ==> forall j :: 0 <= j < |s| ==> s[j] != ' '
  {
    if s == [] then None
    else if s[0] == ' ' then Some(0)
    else match SpaceAt(s[1..])
      case None => None
      case Some(k) => Some(k + 1)
  }

  /** Digits followed by exactly one `unit` character, e.g. `"42m"` read with `'m'`. */
  function ReadUnit(s: string, unit: char): Option<nat> {
    if |s| >= 2 && s[|s| - 1] == unit then ReadNumber(s[..|s| - 1]) else None
  }

  /** The number of seconds a text of one of the three shapes `PrettyTime` produces stands for. */
  function ReadDuration(text: string): Option<int> {
    match SpaceAt(text)
    case None =>
      (match ReadUnit(text, 's')
       case Some(s) => Some(s)
       case None => None)
    case Some(k) => ReadPair(text[..k], text[k + 1..])
  }

  /** The two words around the space: hours and minutes, or minutes and seconds. */
  function ReadPair(first: string, second: string): Option<int> {
    var hours, minutes := ReadUnit(first, 'h'), ReadUnit(second, 'm');
    if hours.Some? && minutes.Some? then Some(hours.value * 3600 + minutes.value * 60)
    else
      var mins, secs := ReadUnit(first, 'm'), ReadUnit(second, 's');
      if mins.Some? && secs.Some? then Some(mins.value * 60 + secs.value) else None
  }

  lemma ReadUnitDecimal(n: nat, unit: char)
    ensures ReadUnit(Decimal(n) + [unit], unit) == Some(n)
  {
    var s := Decimal(n) + [unit];
    assert s[..|s| - 1] == Decimal(n);
    DecimalReadsBack(n);
  }

  lemma ReadUnitMismatch(s: string, unit: char, other: char)
    requires unit != other
    ensures ReadUnit(s + [unit], other) == None
  {
    var t := s + [unit];
    assert t[|t| - 1] == unit;
  }

  lemma SpaceAfterDigits(digits: string, unit: char, rest: string)
    requires AllDigits(digits) && unit != ' '
    ensures SpaceAt(digits + [unit] + " " + rest) == Some(|digits| + 1)
  {
    var text := digits + [unit] + " " + rest;
    assert text[|digits| + 1] == ' ';
    forall j | 0 <= j < |digits| + 1 ensures text[j] != ' ' {
      if j < |digits| { assert text[j] == digits[j]; }
    }
  }

  /** `"{x}{first} {y}{second}"` is read as the pair of its two words. */
  lemma ReadTwoParts(x: string, first: char, y: string, second: char)
    requires AllDigits(x) && first != ' '
    ensures ReadDuration(x + [first, ' '] + y + [second]) == ReadPair(x + [first], y + [second])
  {
    var text := x + [first, ' '] + y + [second];
    assert text == x + [first] + " " + (y + [second]);
    SpaceAfterDigits(x, first, y + [second]);
    var k := |x| + 1;
    assert text[..k] == x + [first];
    assert text[k + 1..] == y + [second];
  }

  lemma ReadHoursMinutes(h: nat, m: nat)
    ensures ReadDuration(Decimal(h) + "h " + Decimal(m) + "m") == Some(h * 3600 + m * 60)
  {
    var first, second := Decimal(h) + ['h'], Decimal(m) + ['m'];
    ReadUnitDecimal(h, 'h');
    ReadUnitDecimal(m, 'm');
    assert ReadPair(first, second) == Some(h * 3600 + m * 60);
    ReadTwoParts(Decimal(h), 'h', Decimal(m), 'm');
  }

  lemma ReadMinutesSeconds(m: nat, s: nat)
    ensures ReadDuration(Decimal(m) + "m " + Decimal(s) + "s") == Some(m * 60 + s)
  {
    var first, second := Decimal(m) + ['m'], Decimal(s) + ['s'];
    ReadUnitMismatch(Decimal(m), 'm', 'h');
    ReadUnitDecimal(m, 'm');
    ReadUnitDecimal(s, 's');
    assert ReadPair(first, second) == Some(m * 60 + s);
    ReadTwoParts(Decimal(m), 'm', Decimal(s), 's');
  }

  lemma NoSpaceAfterDigits(digits: string, unit: char)
    requires AllDigits(digits) && unit != ' '
    ensures SpaceAt(digits + [unit]).None?
  {
    var text := digits + [unit];
    forall j | 0 <= j < |text| ensures text[j] != ' ' {
      if j < |digits| { assert text[j] == digits[j]; }
    }
  }

  lemma ReadSeconds(s: nat)
    ensures ReadDuration(Decimal(s) + "s") == Some(s)
  {
    NoSpaceAfterDigits(Decimal(s), 's');
    ReadUnitDecimal(s, 's');
  }

  lemma RenderReadsBack(h: int, m: nat, s: nat)
    ensures ReadDuration(Render(h, m, s)) == Some(if h > 0 then h * 3600 + m * 60 else m * 60 + s)
  {
    if h > 0 {
      ReadHoursMinutes(h, m);
    } else if m > 0 {
      ReadMinutesSeconds(m, s);
    } else {
      ReadSeconds(s);
    }
  }

  /** What the user reads is the cooldown itself below an hour, and the cooldown with its
      seconds dropped from an hour on. */
  lemma PrettyTimeReadsBack(seconds: int)
    requires seconds >= 0
    ensures ReadDuration(PrettyTime(seconds)) == Some(if seconds >= 3600 then seconds - seconds % 60 else seconds)
  {
    var hms := Split(seconds);
    assert hms.2 == seconds % 60;
    RenderReadsBack(hms.0, hms.1, hms.2);
  }

  // ---------------------------------------------------------------------------------------------
  // The words `PrettyTime` prints: which format is chosen and what each word says.

  /** A word read as `n` with a unit is exactly `str(n)` followed by that unit. */
  lemma ReadUnitOnlyDecimal(word: string, unit: char, n: nat)
    requires ReadUnit(word, unit) == Some(n)
    ensures word == Decimal(n) + [unit]
  {
    ReadNumberOnlyDecimal(word[..|word| - 1], n);
    assert word == word[..|word| - 1] + [unit];
  }

  /** `"{x}{first} {y}{second}"` splits at its one space into `x + [first]` and `y + [second]`. */
  lemma TwoWords(x: string, first: char, y: string, second: char)
    requires AllDigits(x) && first != ' '
    ensures var text := x + [first, ' '] + y + [second];
      && SpaceAt(text) == Some(|x| + 1)
      && text[..|x| + 1] == x + [first]
      && text[|x| + 2..] == y + [second]
  {
    var text := x + [first, ' '] + y + [second];
    assert text == x + [first] + " " + (y + [second]);
    SpaceAfterDigits(x, first, y + [second]);
    assert text[..|x| + 1] == x + [first];
    assert text[|x| + 2..] == y + [second];
  }

  /** `"{a}{first} {b}{second}"` has its space after the first word, which reads as `a`, and the
      second word reads as `b`. */
  lemma NumberWords(a: nat, first: char, b: nat, second: char)
    requires first != ' '
    ensures var text := Decimal(a) + [first, ' '] + Decimal(b) + [second];
      var k := |Decimal(a)| + 1;
      && SpaceAt(text) == Some(k)
      && ReadUnit(text[..k], first) == Some(a)
      && ReadUnit(text[k + 1..], second) == Some(b)
  {
    TwoWords(Decimal(a), first, Decimal(b), second);
    ReadUnitDecimal(a, first);
    ReadUnitDecimal(b, second);
  }

  /** Hours and minutes, minutes and seconds, or seconds alone, each word a number and its unit. */
  lemma RenderWords(h: int, m: nat, s: nat)
    ensures h > 0 ==>
      var text, k := Render(h, m, s), |Decimal(h)| + 1;
      SpaceAt(text) == Some(k) && ReadUnit(text[..k], 'h') == Some(h) && ReadUnit(text[k + 1..], 'm') == Some(m)
    ensures h <= 0 && m > 0 ==>
      var text, k := Render(h, m, s), |Decimal(m)| + 1;
      SpaceAt(text) == Some(k) && ReadUnit(text[..k], 'm') == Some(m) && ReadUnit(text[k + 1..], 's') == Some(s)
    ensures h <= 0 && m == 0 ==> SpaceAt(Render(h, m, s)).None? && ReadUnit(Render(h, m, s), 's') == Some(s)
  {
    if h > 0 {
      assert Render(h, m, s) == Decimal(h) + ['h', ' '] + Decimal(m) + ['m'];
      NumberWords(h, 'h', m, 'm');
    } else if m > 0 {
      assert Render(h, m, s) == Decimal(m) + ['m', ' '] + Decimal(s) + ['s'];
      NumberWords(m, 'm', s, 's');
    } else {
      assert Render(h, m, s) == Decimal(s) + ['s'];
      NoSpaceAfterDigits(Decimal(s), 's');
      ReadUnitDecimal(s, 's');
    }
  }

  /** The format `pretty_time` chooses: two words from a minute on, `{h}h {m}m` from an hour on
      with a positive hour count and minutes below 60, `{m}m {s}s` below an hour with a positive
      minute count and seconds below 60, and a single `{s}s` word below a minute. */
  lemma PrettyTimeWords(seconds: int)
    requires seconds >= 0
    ensures var text := PrettyTime(seconds);
      && (SpaceAt(text).Some? <==> seconds >= 60)
      && (SpaceAt(text).Some? && seconds >= 3600 ==>
            var k := SpaceAt(text).value;
            && ReadUnit(text[..k], 'h') == Some(seconds / 3600) && seconds / 3600 > 0
            && ReadUnit(text[k + 1..], 'm') == Some(seconds % 3600 / 60) && seconds % 3600 / 60 < 60)
      && (SpaceAt(text).Some? && seconds < 3600 ==>
            var k := SpaceAt(text).value;
            && ReadUnit(text[..k], 'm') == Some(seconds % 3600 / 60) && seconds % 3600 / 60 > 0
            && ReadUnit(text[k + 1..], 's') == Some(seconds % 60) && seconds % 60 < 60)
      && (SpaceAt(text).None? ==> ReadUnit(text, 's') == Some(seconds))
  {
    var hms := Split(seconds);
    assert hms == (seconds / 3600, seconds % 3600 / 60, seconds % 60);
    RenderWords(hms.0, hms.1, hms.2);
  }

  /** What the user sees for 1h 5m, 1m 5s and 5s. */
  lemma PrettyTimeExamples()
    ensures PrettyTime(3900) == "1h 5m"
    ensures PrettyTime(65) == "1m 5s"
    ensures PrettyTime(5) == "5s"
  {
    assert Split(3900) == (1, 5, 0);
    assert Split(65) == (0, 1, 5);
    assert Split(5) == (0, 0, 5);
  }
}
