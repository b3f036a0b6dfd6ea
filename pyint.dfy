/**
 * Python 3 decimal digits and `int(s)` for a string `s` (base 10).
 *
 * Both `re`'s `\d` on `str` patterns and `int()` accept every Unicode
 * decimal digit (general category Nd), not only '0'..'9'. The table below
 * is the Nd list of Unicode 13.0: 65 runs of ten consecutive code points.
 */
module PyInt {
  import opened Wrappers
  import opened PyText

  /** The number of runs of ten decimal digits. */
  const RunCount := 65

  /** The code point of the digit zero of run `k`. */
  function RunZero(k: nat): int
    requires k < RunCount
  {
    match k
    case 0 => 0x0030 // ASCII
    case 1 => 0x0660 // Arabic-Indic
    case 2 => 0x06F0 // Extended Arabic-Indic
    case 3 => 0x07C0 // NKo
    case 4 => 0x0966 // Devanagari
    case 5 => 0x09E6 // Bengali
    case 6 => 0x0A66 // Gurmukhi
    case 7 => 0x0AE6 // Gujarati
    case 8 => 0x0B66 // Oriya
    case 9 => 0x0BE6 // Tamil
    case 10 => 0x0C66 // Telugu
    case 11 => 0x0CE6 // Kannada
    case 12 => 0x0D66 // Malayalam
    case 13 => 0x0DE6 // Sinhala Lith
    case 14 => 0x0E50 // Thai
    case 15 => 0x0ED0 // Lao
    case 16 => 0x0F20 // Tibetan
    case 17 => 0x1040 // Myanmar
    case 18 => 0x1090 // Myanmar Shan
    case 19 => 0x17E0 // Khmer
    case 20 => 0x1810 // Mongolian
    case 21 => 0x1946 // Limbu
    case 22 => 0x19D0 // New Tai Lue
    case 23 => 0x1A80 // Tai Tham Hora
    case 24 => 0x1A90 // Tai Tham Tham
    case 25 => 0x1B50 // Balinese
    case 26 => 0x1BB0 // Sundanese
    case 27 => 0x1C40 // Lepcha
    case 28 => 0x1C50 // Ol Chiki
    case 29 => 0xA620 // Vai
    case 30 => 0xA8D0 // Saurashtra
    case 31 => 0xA900 // Kayah Li
    case 32 => 0xA9D0 // Javanese
    case 33 => 0xA9F0 // Myanmar Tai Laing
    case 34 => 0xAA50 // Cham
    case 35 => 0xABF0 // Meetei Mayek
    case 36 => 0xFF10 // Fullwidth
    case 37 => 0x104A0 // Osmanya
    case 38 => 0x10D30 // Hanifi Rohingya
    case 39 => 0x11066 // Brahmi
    case 40 => 0x110F0 // Sora Sompeng
    case 41 => 0x11136 // Chakma
    case 42 => 0x111D0 // Sharada
    case 43 => 0x112F0 // Khudawadi
    case 44 => 0x11450 // Newa
    case 45 => 0x114D0 // Tirhuta
    case 46 => 0x11650 // Modi
    case 47 => 0x116C0 // Takri
    case 48 => 0x11730 // Ahom
    case 49 => 0x118E0 // Warang Citi
    case 50 => 0x11950 // Dives Akuru
    case 51 => 0x11C50 // Bhaiksuki
    case 52 => 0x11D50 // Masaram Gondi
    case 53 => 0x11DA0 // Gunjala Gondi
    case 54 => 0x16A60 // Mro
    case 55 => 0x16B50 // Pahawh Hmong
    case 56 => 0x1D7CE // Mathematical bold
    case 57 => 0x1D7D8 // Mathematical double-struck
    case 58 => 0x1D7E2 // Mathematical sans-serif
    case 59 => 0x1D7EC // Mathematical sans-serif bold
    case 60 => 0x1D7F6 // Mathematical monospace
    case 61 => 0x1E140 // Nyiakeng Puachue Hmong
    case 62 => 0x1E2F0 // Wancho
    case 63 => 0x1E950 // Adlam
    case 64 => 0x1FBF0 // Segmented
  }

  /**
   * The value of code point `c` as a digit of one of the runs `k..`; the
   * runs are in ascending order, so the search stops at the first run
   * that starts above `c`.
   */
  function ValueIn(c: int, k: nat): (r: Option<nat>)
    requires k <= RunCount
    ensures r.Some? ==> r.value < 10
    decreases RunCount - k
  {
    if k == RunCount || c < RunZero(k) then None
    else if c < RunZero(k) + 10 then Some(c - RunZero(k))
    else ValueIn(c, k + 1)
  }

  /** `unicodedata.decimal(c, None)`; the ASCII run is looked up first. */
  function DigitValue(c: char): (r: Option<nat>)
    ensures r.Some? ==> r.value < 10
  {
    if '0' <= c <= '9' then Some(c as int - '0' as int)
    else ValueIn(c as int, 1)
  }

  /** `c.isdecimal()`, the class `\d` matches */
  predicate IsDecimalDigit(c: char) {
    DigitValue(c).Some?
  }

  /** The ASCII digits are decimal digits with their usual values. */
  lemma AsciiDigit(c: char)
    requires '0' <= c <= '9'
    ensures DigitValue(c) == Some(c as int - '0' as int)
  {
  }

  /**
   * The digits part accepted by `int()`: decimal digits, with single
   * underscores allowed between two digits (PEP 515).
   */
  predicate WellFormedDigits(u: string) {
    && |u| > 0
    && IsDecimalDigit(u[0]) && IsDecimalDigit(u[|u| - 1])
    && (forall i :: 0 <= i < |u| ==> IsDecimalDigit(u[i]) || u[i] == '_')
    && (forall i, j {:trigger u[i], u[j]} :: 0 <= i && j == i + 1 < |u| ==> u[i] != '_' || u[j] != '_')
  }

  /** The number the digits of `u` spell, underscores skipped. */
  function DigitsValue(u: string): nat {
    if u == [] then 0
    else
      match DigitValue(u[|u| - 1])
      case Some(d) => DigitsValue(u[..|u| - 1]) * 10 + d
      case None => DigitsValue(u[..|u| - 1])
  }

  /**
   * The whitespace `int()` skips around the number. CPython first turns
   * every non-ASCII `str.isspace` character into a space and leaves ASCII
   * as it is, then skips only " \t\n\v\f\r"; the separators
   * U+001C..U+001F, which `strip()` removes, are therefore rejected.
   */
  predicate IntSpace(c: char) {
    IsSpace(c) && !('\U{1C}' <= c <= '\U{1F}')
  }

  /** `s` without the `int()` whitespace it starts with. */
  function SkipLeading(s: string): string {
    if |s| > 0 && IntSpace(s[0]) then SkipLeading(s[1..]) else s
  }

  /** `s` without the `int()` whitespace it ends with. */
  function SkipTrailing(s: string): string {
    if |s| > 0 && IntSpace(s[|s| - 1]) then SkipTrailing(s[..|s| - 1]) else s
  }

  /** `SkipLeading` drops whitespace only, and up to the first other character. */
  lemma {:induction false} SkipLeadingSpec(s: string)
    ensures var r := SkipLeading(s);
      && |r| <= |s| && r == s[|s| - |r|..]
      && (forall i :: 0 <= i < |s| - |r| ==> IntSpace(s[i]))
      && (r == [] || !IntSpace(r[0]))
  {
    if |s| > 0 && IntSpace(s[0]) {
      var t := s[1..];
      SkipLeadingSpec(t);
      var r := SkipLeading(t);
      assert SkipLeading(s) == r;
      assert s[|s| - |r|..] == t[|t| - |r|..];
      forall i | 0 <= i < |s| - |r|
        ensures IntSpace(s[i])
      {
        if i > 0 {
          assert s[i] == t[i - 1];
        }
      }
    }
  }

  /** `SkipTrailing` drops whitespace only, and back to the last other character. */
  lemma {:induction false} SkipTrailingSpec(s: string)
    ensures var r := SkipTrailing(s);
      && |r| <= |s| && r == s[..|r|]
      && (forall i :: |r| <= i < |s| ==> IntSpace(s[i]))
      && (r == [] || !IntSpace(r[|r| - 1]))
  {
    if |s| > 0 && IntSpace(s[|s| - 1]) {
      var t := s[..|s| - 1];
      SkipTrailingSpec(t);
      var r := SkipTrailing(t);
      assert SkipTrailing(s) == r;
      assert s[..|r|] == t[..|r|];
      forall i | |r| <= i < |s|
        ensures IntSpace(s[i])
      {
        if i < |s| - 1 {
          assert s[i] == t[i];
        }
      }
    }
  }

  /**
   * `sys.int_info.default_max_str_digits`: from CPython 3.11 (and the
   * security releases 3.7.14, 3.8.14, 3.9.14 and 3.10.7) on, `int()`
   * refuses a decimal spelling with more digits than this.
   */
  const MaxStrDigits := 4300

  /** How many digits `u` has, underscores not counted. */
  function DigitCount(u: string): nat {
    if u == [] then 0
    else DigitCount(u[..|u| - 1]) + (if u[|u| - 1] == '_' then 0 else 1)
  }

  /** The digits part of `int()`: its value, or `None` when it raises. */
  function ParseDigits(u: string): Option<nat> {
    if !WellFormedDigits(u) || DigitCount(u) > MaxStrDigits then None
    else Some(DigitsValue(u))
  }

  /**
   * `int(s)`: the whitespace around the number is skipped, then an
   * optional sign and well-formed digits, at most `MaxStrDigits` of them;
   * anything else raises `ValueError` (`None`).
   */
  function ParseInt(s: string): (r: Option<int>)
    ensures (forall i :: 0 <= i < |s| ==> IntSpace(s[i])) ==> r.None?
    ensures r.Some? ==> exists i :: 0 <= i < |s| && IsDecimalDigit(s[i])
  {
    var u := SkipLeading(s);
    var t := SkipTrailing(u);
    SkipLeadingSpec(s);
    SkipTrailingSpec(u);
    var r := ParseTrimmed(t);
    assert r.Some? ==> IsDecimalDigit(t[|t| - 1]) && t[|t| - 1] == s[|s| - |u| + |t| - 1];
    r
  }

  /** `int()` once the whitespace around the number is gone. */
  function ParseTrimmed(t: string): (r: Option<int>)
    ensures r.Some? ==> |t| > 0 && IsDecimalDigit(t[|t| - 1])
  {
    if |t| > 0 && (t[0] == '+' || t[0] == '-') then
      match ParseDigits(t[1..])
      case None => None
      case Some(m) => if t[0] == '-' then Some(-(m as int)) else Some(m as int)
    else
      match ParseDigits(t)
      case None => None
      case Some(m) => Some(m as int)
  }

  /** The ASCII decimal spelling of a natural number. */
  function Digits(n: nat): (r: string)
    ensures |r| > 0
  {
    var last := ['0' + (n % 10) as char];
    if n < 10 then last else Digits(n / 10) + last
  }

  /** The decimal spelling of `n`, as `str(n)` writes it when it has at most `MaxStrDigits` digits. */
  function Decimal(n: int): string {
    if n < 0 then "-" + Digits(-n) else Digits(n)
  }

  /** The spelling of `n` is made of ASCII digits only. */
  lemma {:induction false} DigitsAscii(n: nat)
    ensures forall i :: 0 <= i < |Digits(n)| ==> '0' <= Digits(n)[i] <= '9'
  {
    if n >= 10 {
      DigitsAscii(n / 10);
    }
  }

  /** The spelling of `n` is well formed and spells `n`. */
  lemma {:induction false} DigitsRead(n: nat)
    ensures WellFormedDigits(Digits(n))
    ensures DigitsValue(Digits(n)) == n
  {
    var r := Digits(n);
    DigitsAscii(n);
    var c := r[|r| - 1];
    AsciiDigit(c);
    assert c as int - '0' as int == n % 10;
    if n >= 10 {
      DigitsRead(n / 10);
      assert r[..|r| - 1] == Digits(n / 10);
      assert DigitsValue(r) == DigitsValue(Digits(n / 10)) * 10 + n % 10;
    }
    forall i | 0 <= i < |r|
      ensures IsDecimalDigit(r[i])
    {
      AsciiDigit(r[i]);
    }
  }

  /** `abs(n)` */
  function Abs(n: int): nat {
    if n < 0 then -n else n
  }

  /**
   * `int(str(n)) == n` for every integer `n` of at most `MaxStrDigits`
   * digits (beyond that, `str(n)` and `int()` both raise).
   */
  lemma ParseDecimal(n: int)
    requires |Digits(Abs(n))| <= MaxStrDigits
    ensures ParseInt(Decimal(n)) == Some(n)
  {
    if n < 0 {
      ParseNegativeDecimal(n);
    } else {
      ParseNaturalDecimal(n);
    }
  }

  lemma ParseNaturalDecimal(n: nat)
    requires |Digits(n)| <= MaxStrDigits
    ensures ParseInt(Decimal(n)) == Some(n)
  {
    var d := Digits(n);
    assert Decimal(n) == d;
    ReadDigits(n);
    assert !IntSpace(d[0]) && !IntSpace(d[|d| - 1]) by {
      DigitsAscii(n);
    }
    ParseOfTrimmed(d);
  }

  /** The spelling of a natural number reads back, once trimmed. */
  lemma ReadDigits(n: nat)
    requires |Digits(n)| <= MaxStrDigits
    ensures ParseTrimmed(Digits(n)) == Some(n)
  {
    var d := Digits(n);
    DigitsAscii(n);
    DigitsRead(n);
    DigitsCounted(n);
    ParseUnsigned(d, n);
  }

  lemma ParseNegativeDecimal(n: int)
    requires n < 0 && |Digits(-n)| <= MaxStrDigits
    ensures ParseInt(Decimal(n)) == Some(n)
  {
    var m: nat := -n;
    var d := Digits(m);
    var s := Decimal(n);
    assert s == "-" + d;
    DigitsAscii(m);
    assert s[0] == '-' && s[|s| - 1] == d[|d| - 1] && '0' <= d[|d| - 1] <= '9';
    assert ParseTrimmed(s) == Some(n) by {
      DigitsRead(m);
      DigitsCounted(m);
      ParseNegative(d, m);
    }
    ParseOfTrimmed(s);
  }

  /** Every character of the spelling of `n` counts as a digit. */
  lemma DigitsCounted(n: nat)
    ensures DigitCount(Digits(n)) == |Digits(n)|
  {
    DigitsAscii(n);
    PlainDigitCount(Digits(n));
  }

  lemma {:induction false} PlainDigitCount(u: string)
    requires forall i :: 0 <= i < |u| ==> u[i] != '_'
    ensures DigitCount(u) == |u|
  {
    if u != [] {
      PlainDigitCount(u[..|u| - 1]);
    }
  }

  /** A string that neither starts nor ends with `int()` whitespace is parsed as it is. */
  lemma ParseOfTrimmed(s: string)
    requires s == [] || (!IntSpace(s[0]) && !IntSpace(s[|s| - 1]))
    ensures ParseInt(s) == ParseTrimmed(s)
  {
    assert SkipLeading(s) == s;
    assert SkipTrailing(s) == s;
  }

  lemma ParseUnsigned(d: string, m: nat)
    requires |d| > 0 && '0' <= d[0] <= '9'
    requires WellFormedDigits(d) && DigitsValue(d) == m && DigitCount(d) <= MaxStrDigits
    ensures ParseTrimmed(d) == Some(m)
  {
    assert d[0] != '+' && d[0] != '-';
  }

  lemma ParseNegative(d: string, m: nat)
    requires WellFormedDigits(d) && DigitsValue(d) == m && DigitCount(d) <= MaxStrDigits
    ensures ParseTrimmed("-" + d) == Some(-(m as int))
  {
    var t := "-" + d;
    assert |t| > 0 && t[0] == '-';
    assert t[1..] == d;
  }

  /**
   * `int()` skips the ASCII whitespace and the non-ASCII `str.isspace`
   * characters around a number, but not the separators U+001C..U+001F.
   */
  lemma ParseSpaceExamples()
    ensures ParseInt(" 7\n") == Some(7)
    ensures ParseInt("\U{A0}7\U{3000}") == Some(7)
  {
    assert ParseTrimmed("7") == Some(7) by {
      assert Digits(7) == "7";
      ReadDigits(7);
    }
    assert SkipLeading(" 7\n") == "7\n";
    assert SkipTrailing("7\n") == "7";
    assert SkipLeading("\U{A0}7\U{3000}") == "7\U{3000}";
    assert SkipTrailing("7\U{3000}") == "7";
  }

  lemma ParseSeparatorExamples()
    ensures ParseInt("\U{1C}7") == None
    ensures ParseInt("7\U{1F}") == None
  {
    assert SkipLeading("\U{1C}7") == "\U{1C}7";
    assert SkipTrailing("\U{1C}7") == "\U{1C}7";
    assert SkipLeading("7\U{1F}") == "7\U{1F}";
    assert SkipTrailing("7\U{1F}") == "7\U{1F}";
  }

  /** A number of more than `MaxStrDigits` digits does not survive `int(str(n))`. */
  lemma TooManyDigits(n: int)
    requires |Digits(Abs(n))| > MaxStrDigits
    ensures ParseInt(Decimal(n)) == None
  {
    var d := Digits(Abs(n));
    assert ParseDigits(d) == None by {
      DigitsCounted(Abs(n));
    }
    assert '0' <= d[0] <= '9' && '0' <= d[|d| - 1] <= '9' by {
      DigitsAscii(Abs(n));
    }
    if n < 0 {
      RefusedSigned(d);
    } else {
      assert Decimal(n) == d;
      ParseOfTrimmed(d);
    }
  }

  lemma RefusedSigned(d: string)
    requires ParseDigits(d) == None && |d| > 0 && '0' <= d[|d| - 1] <= '9'
    ensures ParseInt("-" + d) == None
  {
    var s := "-" + d;
    assert s[1..] == d && s[|s| - 1] == d[|d| - 1];
    ParseOfTrimmed(s);
  }
}
