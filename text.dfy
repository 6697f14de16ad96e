/** The Python string built-ins the models and serializers call: `upper()`,
    `lower()`, `title()`, `capitalize()`, `isdigit()`, `split(sep)[-1]` and
    `int()` on a string. Casing follows Python on the Latin-1 range; characters
    beyond it are uncased here. Whitespace is Python's whole set. */
module Text {

  import opened Common

  /** Upper-case letters of Latin-1: A-Z and À-Þ except the multiplication sign. */
  predicate IsUpperCase(c: char) {
    ('A' <= c <= 'Z') || ('À' <= c <= 'Þ' && c != '×')
  }

  /** Lower-case letters of Latin-1: a-z, ß-ÿ except the division sign, and
      the ordinal indicators ª and º and the micro sign µ, which Python counts
      as lower-case letters. */
  predicate IsLowerCase(c: char) {
    ('a' <= c <= 'z') || ('ß' <= c <= 'ÿ' && c != '÷') || c == 'ª' || c == 'µ' || c == 'º'
  }

  /** The lower-case letters that keep their letter when raised: ª and º
      have no upper-case form, and Python maps ß, ÿ and µ to "SS", U+0178
      and U+039C, outside this alphabet. */
  predicate KeepsWhenRaised(c: char) {
    c == 'ß' || c == 'ÿ' || c == 'ª' || c == 'µ' || c == 'º'
  }

  /** Python's "cased" characters: those with an upper- or lower-case form. */
  predicate IsCased(c: char) {
    IsUpperCase(c) || IsLowerCase(c)
  }

  /** `c.upper()` for one character, with the letters `KeepsWhenRaised`
      names left as they are. */
  function ToUpper(c: char): (r: char)
    ensures IsCased(r) == IsCased(c)
    ensures !IsLowerCase(r) || KeepsWhenRaised(r)
    ensures !IsCased(c) ==> r == c
    ensures IsUpperCase(c) ==> r == c
  {
    if IsLowerCase(c) && !KeepsWhenRaised(c) then (c as int - 32) as char else c
  }

  /** `c.lower()` for one character. */
  function ToLower(c: char): (r: char)
    ensures IsCased(r) == IsCased(c)
    ensures !IsUpperCase(r)
    ensures !IsCased(c) ==> r == c
    ensures IsLowerCase(c) ==> r == c
  {
    if IsUpperCase(c) then (c as int + 32) as char else c
  }

  lemma CaseMappingsAbsorb(c: char)
    ensures ToUpper(ToUpper(c)) == ToUpper(c) && ToLower(ToLower(c)) == ToLower(c)
    ensures ToLower(ToUpper(c)) == ToLower(c) && ToUpper(ToLower(c)) == ToUpper(c)
  {
  }

  /** `s.upper()` */
  function Upper(s: string): (r: string)
    ensures |r| == |s|
    ensures forall i :: 0 <= i < |s| ==> r[i] == ToUpper(s[i])
  {
    if s == [] then [] else [ToUpper(s[0])] + Upper(s[1..])
  }

  /** `s.lower()` */
  function Lower(s: string): (r: string)
    ensures |r| == |s|
    ensures forall i :: 0 <= i < |s| ==> r[i] == ToLower(s[i])
  {
    if s == [] then [] else [ToLower(s[0])] + Lower(s[1..])
  }

  /** `s.title()`: Python walks the string remembering whether the previous
      character was cased; a cased character after a cased one is lowered,
      any other cased character is raised. */
  function Title(s: string): string {
    TitleFrom(s, false)
  }

  function TitleFrom(s: string, previousCased: bool): (r: string)
    ensures |r| == |s|
  {
    if s == [] then []
    else if IsCased(s[0]) then
      [if previousCased then ToLower(s[0]) else ToUpper(s[0])] + TitleFrom(s[1..], true)
    else
      [s[0]] + TitleFrom(s[1..], false)
  }

  /** Whether the character of `s` at `i` starts a word in the sense of `title()`. */
  predicate StartsWord(s: string, i: nat)
    requires i < |s|
  {
    i == 0 || !IsCased(s[i - 1])
  }

  /** An independent, position-by-position description of `title()`: a cased
      character is raised exactly when it starts a word, and every other
      character is kept. */
  lemma {:induction false} TitleAt(s: string, i: nat)
    requires i < |s|
    ensures |Title(s)| == |s|
    ensures Title(s)[i] == if !IsCased(s[i]) then s[i]
                           else if StartsWord(s, i) then ToUpper(s[i])
                           else ToLower(s[i])
  {
    TitleFromAt(s, false, i);
  }

  lemma {:induction false} TitleFromAt(s: string, previousCased: bool, i: nat)
    requires i < |s|
    ensures TitleFrom(s, previousCased)[i] ==
      if !IsCased(s[i]) then s[i]
      else if (if i == 0 then previousCased else IsCased(s[i - 1])) then ToLower(s[i])
      else ToUpper(s[i])
  {
    if i > 0 {
      TitleFromAt(s[1..], IsCased(s[0]), i - 1);
    }
  }

  /** `title()` applied twice changes nothing more. */
  lemma {:induction false} TitleIdempotent(s: string)
    ensures Title(Title(s)) == Title(s)
  {
    TitleFromIdempotent(s, false);
  }

  lemma {:induction false} TitleFromIdempotent(s: string, previousCased: bool)
    ensures TitleFrom(TitleFrom(s, previousCased), previousCased) == TitleFrom(s, previousCased)
  {
    if s != [] {
      var t := TitleFrom(s, previousCased);
      CaseMappingsAbsorb(s[0]);
      assert t[1..] == TitleFrom(s[1..], IsCased(s[0]));
      TitleFromIdempotent(s[1..], IsCased(s[0]));
    }
  }

  /** `s.capitalize()`: the first character raised, all the others lowered. */
  function Capitalize(s: string): (r: string)
    ensures |r| == |s|
    ensures |s| > 0 ==> r[0] == ToUpper(s[0])
    ensures forall i :: 0 < i < |s| ==> r[i] == ToLower(s[i])
  {
    if s == [] then [] else [ToUpper(s[0])] + Lower(s[1..])
  }

  lemma CapitalizeIdempotent(s: string)
    ensures Capitalize(Capitalize(s)) == Capitalize(s)
  {
    var c := Capitalize(s);
    if s != [] {
      CaseMappingsAbsorb(s[0]);
      forall i | 0 < i < |s| ensures Capitalize(c)[i] == c[i] {
        CaseMappingsAbsorb(s[i]);
      }
    }
  }

  /** Upper-casing is idempotent and leaves no lower-case letter other than
      those that keep their letter when raised. */
  lemma UpperIdempotent(s: string)
    ensures Upper(Upper(s)) == Upper(s)
    ensures forall i :: 0 <= i < |s| && IsLowerCase(Upper(s)[i]) ==> KeepsWhenRaised(Upper(s)[i])
  {
    forall i | 0 <= i < |s| ensures Upper(Upper(s))[i] == Upper(s)[i] {
      CaseMappingsAbsorb(s[i]);
    }
  }

  predicate IsDigit(c: char) {
    '0' <= c <= '9'
  }

  /** `s.isdigit()`: non-empty and made of digits only. */
  predicate IsDigitString(s: string) {
    |s| > 0 && forall i :: 0 <= i < |s| ==> IsDigit(s[i])
  }

  /** The number a string of decimal digits denotes. */
  function DecimalValue(s: string): (n: nat)
    requires forall i :: 0 <= i < |s| ==> IsDigit(s[i])
  {
    if s == [] then 0
    else
      var last := s[|s| - 1];
      assert IsDigit(last);
      DecimalValue(s[..|s| - 1]) * 10 + (last as int - '0' as int)
  }

  /** A digit string denotes zero exactly when every digit is '0'. */
  lemma {:induction false} DecimalValueZero(s: string)
    requires forall i :: 0 <= i < |s| ==> IsDigit(s[i])
    ensures DecimalValue(s) == 0 <==> forall i :: 0 <= i < |s| ==> s[i] == '0'
  {
    if s != [] {
      var init := s[..|s| - 1];
      DecimalValueZero(init);
      assert forall i :: 0 <= i < |init| ==> init[i] == s[i];
    }
  }

  /** The characters `str.isspace()` holds of. */
  predicate IsSpace(c: char) {
    || c == ' ' || ('\t' <= c <= '\r') || ('\U{1C}' <= c <= '\U{1F}') || c == '\U{85}' || c == '\U{A0}'
    || c == '\U{1680}' || ('\U{2000}' <= c <= '\U{200A}') || c == '\U{2028}' || c == '\U{2029}'
    || c == '\U{202F}' || c == '\U{205F}' || c == '\U{3000}'
  }

  /** `s.strip()` with no argument. */
  function Strip(s: string): (r: string)
    ensures |r| <= |s|
    ensures r == [] || (!IsSpace(r[0]) && !IsSpace(r[|r| - 1]))
  {
    StripEnd(StripStart(s))
  }

  /** Stripping a stripped text changes nothing. */
  lemma StripIdempotent(s: string)
    ensures Strip(Strip(s)) == Strip(s)
  {
    var r := Strip(s);
    assert StripStart(r) == r;
    assert StripEnd(r) == r;
  }

  function StripStart(s: string): (r: string)
    ensures |r| <= |s|
    ensures r == [] || !IsSpace(r[0])
  {
    if s != [] && IsSpace(s[0]) then StripStart(s[1..]) else s
  }

  function StripEnd(s: string): (r: string)
    ensures |r| <= |s| && r == s[..|r|]
    ensures r == [] || !IsSpace(r[|r| - 1])
  {
    if s != [] && IsSpace(s[|s| - 1]) then StripEnd(s[..|s| - 1]) else s
  }

  /** The digits of a run such as "1_000", in which single underscores may
      separate digits; None when the run is not of that form. */
  function DigitRun(s: string): (r: Option<string>)
    ensures r.Some? ==> |r.value| > 0 && forall i :: 0 <= i < |r.value| ==> IsDigit(r.value[i])
  {
    if s == [] || !IsDigit(s[0]) then None
    else if |s| == 1 then Some(s)
    else if s[1] == '_' then
      (match DigitRun(s[2..]) case Some(rest) => Some([s[0]] + rest) case None => None)
    else
      (match DigitRun(s[1..]) case Some(rest) => Some([s[0]] + rest) case None => None)
  }

  /** `int(s)` in base 10: surrounding whitespace, an optional sign, and digits
      that single underscores may separate. None stands for the ValueError
      Python raises on anything else. Decimal digits outside ASCII are not
      modelled. */
  function PyInt(s: string): Option<int> {
    var t := Strip(s);
    if t == [] then None
    else
      var negative := t[0] == '-';
      var body := if t[0] == '-' || t[0] == '+' then t[1..] else t;
      match DigitRun(body)
      case None => None
      case Some(digits) =>
        var n: int := DecimalValue(digits);
        Some(if negative then -n else n)
  }

  /** On a string of ASCII digits, `int()` is the decimal value. */
  lemma {:induction false} PyIntOfDigits(s: string)
    requires IsDigitString(s)
    ensures PyInt(s) == Some(DecimalValue(s) as int)
  {
    StripOfDigits(s);
    DigitRunOfDigits(s);
  }

  lemma {:induction false} StripOfDigits(s: string)
    requires IsDigitString(s)
    ensures Strip(s) == s
  {
    assert StripStart(s) == s;
  }

  lemma {:induction false} DigitRunOfDigits(s: string)
    requires IsDigitString(s)
    ensures DigitRun(s) == Some(s)
  {
    if |s| > 1 {
      DigitRunOfDigits(s[1..]);
      assert [s[0]] + s[1..] == s;
    }
  }

  /** `s.split(sep)[-1]`: the text after the last `sep`, or all of `s` when it
      holds none. */
  function AfterLast(s: string, sep: char): (r: string)
    ensures |r| <= |s| && r == s[|s| - |r|..]
    ensures sep !in r
    ensures sep !in s ==> r == s
    ensures sep in s ==> s[|s| - |r| - 1] == sep
  {
    if s == [] then []
    else if s[|s| - 1] == sep then []
    else
      var init := s[..|s| - 1];
      var r := AfterLast(init, sep) + [s[|s| - 1]];
      assert s == init + [s[|s| - 1]];
      r
  }

  /** `AfterLast` recovers the last field of a joined string. */
  lemma {:induction false} AfterLastOfJoin(a: string, sep: char, b: string)
    requires sep !in b
    ensures AfterLast(a + [sep] + b, sep) == b
  {
    var s := a + [sep] + b;
    if b != [] {
      var b' := b[..|b| - 1];
      AfterLastOfJoin(a, sep, b');
      assert s[..|s| - 1] == a + [sep] + b';
      assert b == b' + [b[|b| - 1]];
    }
  }

  /** The text before the first `sep`, or all of `s` when it holds none. */
  function BeforeFirst(s: string, sep: char): (r: string)
    ensures |r| <= |s| && r == s[..|r|]
    ensures sep !in r
    ensures |r| < |s| ==> s[|r|] == sep
  {
    if s == [] || s[0] == sep then [] else [s[0]] + BeforeFirst(s[1..], sep)
  }

  lemma {:induction false} BeforeFirstOfJoin(a: string, sep: char, b: string)
    requires sep !in a
    ensures BeforeFirst(a + [sep] + b, sep) == a
  {
    if a != [] {
      BeforeFirstOfJoin(a[1..], sep, b);
      assert (a + [sep] + b)[1..] == a[1..] + [sep] + b;
    }
  }
}
