/** The Python string operations the attribution engine relies on: whitespace and
    word-character classes, `lower()`, `strip()`, `startswith`/`endswith`, the `in`
    substring test, `split()` word counting, `sep.join(parts)`, `split(sep)` and
    decimal formatting of integers. */
module Text {
  import opened Wrappers

  /** Python's whitespace class: `str.isspace`, `str.split()`, `str.strip()` and the
      regular-expression class `\s` all use this set of code points. */
  predicate IsSpace(c: char)
  {
    var n := c as int;
    n == 0x20 || 0x09 <= n <= 0x0D || 0x1C <= n <= 0x1F || n == 0x85 || n == 0xA0
    || n == 0x1680 || 0x2000 <= n <= 0x200A || n == 0x2028 || n == 0x2029
    || n == 0x202F || n == 0x205F || n == 0x3000
  }

  /** The regular-expression class `\w` (letters, digits, underscore) for the Latin
      blocks: ASCII, Latin-1 Supplement and Latin Extended-A/B. */
  predicate IsWordChar(c: char)
  {
    var n := c as int;
    ('0' <= c <= '9') || ('a' <= c <= 'z') || ('A' <= c <= 'Z') || c == '_'
    || n == 0xAA || n == 0xB2 || n == 0xB3 || n == 0xB5 || n == 0xB9 || n == 0xBA
    || 0xBC <= n <= 0xBE
    || (0xC0 <= n <= 0xFF && n != 0xD7 && n != 0xF7)
    || 0x100 <= n <= 0x24F
  }

  /** Simple (one character to one character) lower-case mapping for ASCII, Latin-1
      Supplement and Latin Extended-A; this is the mapping case-insensitive regular
      expressions compare with. */
  function SimpleLower(c: char): char
  {
    var n := c as int;
    if ('A' <= c <= 'Z') || (0xC0 <= n <= 0xDE && n != 0xD7) then
      (n + 32) as char
    else if (0x100 <= n <= 0x12F && n % 2 == 0) || (0x132 <= n <= 0x137 && n % 2 == 0)
         || (0x139 <= n <= 0x148 && n % 2 == 1) || (0x14A <= n <= 0x177 && n % 2 == 0)
         || (0x179 <= n <= 0x17E && n % 2 == 1) then
      (n + 1) as char
    else if n == 0x178 then
      0xFF as char
    else if n == 0x130 then
      'i'
    else
      c
  }

  /** Case folding used by case-insensitive regular expressions: the simple lower-case
      mapping, plus dotless i and long s, which match 'i' and 's'. */
  function RegexFold(c: char): char
  {
    if c == '\U{131}' then 'i' else if c == '\U{17F}' then 's' else SimpleLower(c)
  }

  /** `str.lower()`: the simple mapping, except that capital I with dot above becomes
      the two characters 'i' and combining dot above. */
  function Lower(s: string): string
  {
    if s == [] then []
    else (if s[0] == '\U{130}' then "i\U{307}" else [SimpleLower(s[0])]) + Lower(s[1..])
  }

  /** `s.startswith(prefix)` */
  predicate StartsWith(s: string, prefix: string)
  {
    prefix <= s
  }

  /** `s.endswith(c)` for a one-character suffix */
  predicate EndsWith(s: string, c: char)
  {
    |s| > 0 && s[|s| - 1] == c
  }

  /** `needle in hay`: some position of `hay` starts with `needle`. */
  predicate Contains(hay: string, needle: string)
    decreases |hay|
  {
    needle <= hay || (|hay| > 0 && Contains(hay[1..], needle))
  }

  /** `needle` occurs in `hay` starting at index `i`. */
  predicate OccursAt(hay: string, needle: string, i: int)
  {
    0 <= i <= |hay| - |needle| && hay[i..i + |needle|] == needle
  }

  /** The substring test is exactly "occurs at some index". */
  lemma ContainsAt(hay: string, needle: string)
    ensures Contains(hay, needle) <==> exists i :: OccursAt(hay, needle, i)
  {
    if Contains(hay, needle) {
      var i := ContainsWitness(hay, needle);
    } else {
      forall i | 0 <= i <= |hay| - |needle|
        ensures !OccursAt(hay, needle, i)
      {
        if OccursAt(hay, needle, i) {
          OccursContains(hay, needle, i);
        }
      }
    }
  }

  lemma {:induction false} ContainsWitness(hay: string, needle: string) returns (i: int)
    requires Contains(hay, needle)
    ensures OccursAt(hay, needle, i)
    decreases |hay|
  {
    if needle <= hay {
      i := 0;
      assert hay[0..0 + |needle|] == needle;
    } else {
      var j := ContainsWitness(hay[1..], needle);
      i := j + 1;
      assert hay[1..][j..j + |needle|] == hay[i..i + |needle|];
    }
  }

  lemma {:induction false} OccursContains(hay: string, needle: string, i: int)
    requires OccursAt(hay, needle, i)
    ensures Contains(hay, needle)
    decreases i
  {
    if i == 0 {
      assert needle <= hay;
    } else {
      assert hay[1..][i - 1..i - 1 + |needle|] == hay[i..i + |needle|];
      OccursContains(hay[1..], needle, i - 1);
    }
  }

  /** Leading whitespace removed (`str.lstrip()`). */
  function TrimStart(s: string): (r: string)
    ensures |r| <= |s|
  {
    if s != [] && IsSpace(s[0]) then TrimStart(s[1..]) else s
  }

  /** `lstrip` drops exactly the leading whitespace: what remains is a suffix that
      does not start with whitespace, and everything dropped is whitespace. */
  lemma {:induction false} TrimStartFacts(s: string)
    ensures var r := TrimStart(s);
      && r == s[|s| - |r|..]
      && (forall k :: 0 <= k < |s| - |r| ==> IsSpace(s[k]))
      && (r == [] || !IsSpace(r[0]))
  {
    if s != [] && IsSpace(s[0]) {
      var tail := s[1..];
      TrimStartFacts(tail);
      var r := TrimStart(tail);
      assert tail[|tail| - |r|..] == s[|s| - |r|..];
      forall k | 0 <= k < |s| - |r|
        ensures IsSpace(s[k])
      {
        if k > 0 {
          assert s[k] == tail[k - 1];
        }
      }
    }
  }

  /** Trailing whitespace removed (`str.rstrip()`). */
  function TrimEnd(s: string): (r: string)
    ensures |r| <= |s|
  {
    if s != [] && IsSpace(s[|s| - 1]) then TrimEnd(s[..|s| - 1]) else s
  }

  /** `rstrip` drops exactly the trailing whitespace: what remains is a prefix that
      does not end with whitespace, and everything dropped is whitespace. */
  lemma {:induction false} TrimEndFacts(s: string)
    ensures var r := TrimEnd(s);
      && r == s[..|r|]
      && (forall k :: |r| <= k < |s| ==> IsSpace(s[k]))
      && (r == [] || !IsSpace(r[|r| - 1]))
  {
    if s != [] && IsSpace(s[|s| - 1]) {
      var init := s[..|s| - 1];
      TrimEndFacts(init);
      var r := TrimEnd(init);
      assert init[..|r|] == s[..|r|];
      forall k | |r| <= k < |s|
        ensures IsSpace(s[k])
      {
        if k < |s| - 1 {
          assert s[k] == init[k];
        }
      }
    }
  }

  /** `str.strip()` */
  function Strip(s: string): (r: string)
    ensures |r| <= |s|
  {
    TrimEnd(TrimStart(s))
  }

  /** A stripped string neither starts nor ends with whitespace. */
  lemma StripFacts(s: string)
    ensures var r := Strip(s);
      r == [] || (!IsSpace(r[0]) && !IsSpace(r[|r| - 1]))
  {
    var t := TrimStart(s);
    TrimStartFacts(s);
    TrimEndFacts(t);
    var r := Strip(s);
    if r != [] {
      assert r[0] == t[0];
    }
  }

  /** Stripping leaves nothing exactly when every character is whitespace. */
  lemma StripEmptyIffBlank(s: string)
    ensures Strip(s) == [] <==> forall k :: 0 <= k < |s| ==> IsSpace(s[k])
  {
    var t := TrimStart(s);
    TrimStartFacts(s);
    TrimEndFacts(t);
    if Strip(s) != [] {
      var r := Strip(s);
      assert r[0] == t[0] == s[|s| - |t|];
    }
  }

  /** A string that starts with a non-whitespace character survives stripping, with
      that character first. */
  lemma StripKeepsFirst(s: string)
    requires |s| > 0 && !IsSpace(s[0])
    ensures |Strip(s)| > 0 && Strip(s)[0] == s[0]
  {
    assert TrimStart(s) == s;
    TrimEndFacts(s);
  }

  /** `len(s.split())`: the number of maximal runs of non-whitespace characters,
      counted at the last character of each run. */
  function WordCount(s: string): nat
    decreases |s|
  {
    if s == [] then 0
    else if !IsSpace(s[0]) && (|s| == 1 || IsSpace(s[1])) then 1 + WordCount(s[1..])
    else WordCount(s[1..])
  }

  /** `sep.join(parts)` */
  function Join(sep: string, parts: seq<string>): string
  {
    if |parts| == 0 then ""
    else if |parts| == 1 then parts[0]
    else parts[0] + sep + Join(sep, parts[1..])
  }

  lemma {:induction false} JoinAppend(sep: string, a: seq<string>, b: seq<string>)
    requires |a| > 0 && |b| > 0
    ensures Join(sep, a + b) == Join(sep, a) + sep + Join(sep, b)
  {
    assert (a + b)[0] == a[0];
    assert (a + b)[1..] == a[1..] + b;
    if |a| > 1 {
      JoinAppend(sep, a[1..], b);
    }
  }

  /** Index of the first occurrence of `sep` in `s` (`s.find(sep)`). */
  function Find(s: string, sep: string): (r: Option<nat>)
    ensures r.Some? ==> r.value + |sep| <= |s| && s[r.value..r.value + |sep|] == sep
    decreases |s|
  {
    if sep <= s then Some(0)
    else if s == [] then None
    else
      match Find(s[1..], sep)
      case None => None
      case Some(i) =>
        assert s[i + 1..i + 1 + |sep|] == s[1..][i..i + |sep|];
        Some(i + 1)
  }

  /** `Find` gives the first occurrence, and `None` only when there is none. */
  lemma {:induction false} FindFirst(s: string, sep: string)
    ensures Find(s, sep).Some? ==> forall j :: 0 <= j < Find(s, sep).value ==> !(sep <= s[j..])
    ensures Find(s, sep).None? ==> forall j :: 0 <= j <= |s| ==> !(sep <= s[j..])
    decreases |s|
  {
    if !(sep <= s) && s != [] {
      FindFirst(s[1..], sep);
      assert forall j :: 1 <= j <= |s| ==> s[j..] == s[1..][j - 1..];
    }
  }

  /** `s.split(sep)` for a non-empty separator: the pieces between non-overlapping
      occurrences found left to right; there is always at least one piece. */
  function SplitOn(s: string, sep: string): (r: seq<string>)
    requires |sep| > 0
    ensures |r| >= 1
    decreases |s|
  {
    match Find(s, sep)
    case None => [s]
    case Some(i) => [s[..i]] + SplitOn(s[i + |sep|..], sep)
  }

  /** Joining the pieces with the separator gives the original string back. */
  lemma {:induction false} JoinSplitOn(s: string, sep: string)
    requires |sep| > 0
    ensures Join(sep, SplitOn(s, sep)) == s
    decreases |s|
  {
    var f := Find(s, sep);
    if f.None? {
      assert SplitOn(s, sep) == [s];
    } else {
      var i := f.value;
      var rest := s[i + |sep|..];
      var tail := SplitOn(rest, sep);
      assert SplitOn(s, sep) == [s[..i]] + tail;
      JoinSplitOn(rest, sep);
      JoinAppend(sep, [s[..i]], tail);
      assert Join(sep, [s[..i]]) == s[..i];
      assert s[i..i + |sep|] == sep;
      assert s == s[..i] + sep + rest;
    }
  }

  function DigitChar(d: nat): char
    requires d < 10
  {
    "0123456789"[d]
  }

  /** Decimal notation of a natural number (`str(n)` / `f"{n}"`). */
  function NatToString(n: nat): (r: string)
    ensures |r| >= 1
    ensures forall k :: 0 <= k < |r| ==> '0' <= r[k] <= '9'
    ensures r[0] == '0' <==> n == 0
  {
    if n < 10 then [DigitChar(n)] else NatToString(n / 10) + [DigitChar(n % 10)]
  }

  /** The value a string of decimal digits denotes. */
  function DecimalValue(s: string): nat
    requires forall k :: 0 <= k < |s| ==> '0' <= s[k] <= '9'
  {
    if s == [] then 0
    else DecimalValue(s[..|s| - 1]) * 10 + (s[|s| - 1] as int - '0' as int)
  }

  /** Reading the decimal notation back gives the number. */
  lemma {:induction false} DecimalRoundTrip(n: nat)
    ensures DecimalValue(NatToString(n)) == n
  {
    var r := NatToString(n);
    if n >= 10 {
      DecimalRoundTrip(n / 10);
      assert r[..|r| - 1] == NatToString(n / 10);
    }
  }
}
