/**
 * The few string operations of Python that the bookkeeping core relies on:
 * `str.strip`, `str.split(",")`, `str.splitlines`, `int(...)`, `float(...)` and `str(int)`.
 */
module Text {
  import opened Wrappers

  /** The whitespace `str.strip` removes, restricted to space and `\t` to `\r` (tab, newline, vertical tab, form feed, return). */
  predicate IsSpace(c: char) {
    c == ' ' || ('\t' <= c <= '\r')
  }

  predicate AllSpace(s: string) {
    forall i :: 0 <= i < |s| ==> IsSpace(s[i])
  }

  /** `s.lstrip()`. */
  function TrimLeft(s: string): string {
    if |s| > 0 && IsSpace(s[0]) then TrimLeft(s[1..]) else s
  }

  /** `s.rstrip()`. */
  function TrimRight(s: string): string {
    if |s| > 0 && IsSpace(s[|s| - 1]) then TrimRight(s[..|s| - 1]) else s
  }

  /** Python's `s.strip()`. */
  function Strip(s: string): string {
    TrimRight(TrimLeft(s))
  }

  /** `lstrip` drops a leading run of whitespace and nothing else: the rest of `s` is kept, from a non-space on. */
  lemma {:induction false} TrimLeftMeaning(s: string)
    ensures var r := TrimLeft(s);
      && |r| <= |s| && r == s[|s| - |r|..]
      && AllSpace(s[..|s| - |r|])
      && (r == "" || !IsSpace(r[0]))
      && (r == "" <==> AllSpace(s))
  {
    if |s| > 0 && IsSpace(s[0]) {
      TrimLeftMeaning(s[1..]);
      var r := TrimLeft(s[1..]);
      assert AllSpace(s[..|s| - |r|]) by {
        forall i | 0 <= i < |s| - |r| ensures IsSpace(s[i]) {
          if i > 0 { assert s[i] == s[1..][..|s| - 1 - |r|][i - 1]; }
        }
      }
      assert AllSpace(s) <==> AllSpace(s[1..]) by {
        if AllSpace(s[1..]) {
          forall i | 0 <= i < |s| ensures IsSpace(s[i]) {
            if i > 0 { assert s[i] == s[1..][i - 1]; }
          }
        }
      }
    }
  }

  /** `rstrip` drops a trailing run of whitespace and nothing else. */
  lemma {:induction false} TrimRightMeaning(s: string)
    ensures var r := TrimRight(s);
      && |r| <= |s| && r == s[..|r|]
      && AllSpace(s[|r|..])
      && (r == "" || !IsSpace(r[|r| - 1]))
      && (r == "" <==> AllSpace(s))
  {
    if |s| > 0 && IsSpace(s[|s| - 1]) {
      TrimRightMeaning(s[..|s| - 1]);
      var r := TrimRight(s[..|s| - 1]);
      assert AllSpace(s[|r|..]) by {
        forall i | |r| <= i < |s| ensures IsSpace(s[i]) {
          if i < |s| - 1 { assert s[i] == s[..|s| - 1][|r|..][i - |r|]; }
        }
      }
      assert AllSpace(s) <==> AllSpace(s[..|s| - 1]) by {
        if AllSpace(s[..|s| - 1]) {
          forall i | 0 <= i < |s| ensures IsSpace(s[i]) {
            if i < |s| - 1 { assert s[i] == s[..|s| - 1][i]; }
          }
        }
      }
    }
  }

  /**
   * `strip` keeps one contiguous piece of `s` and drops only whitespace around it; the piece has
   * no whitespace at either end, and is empty exactly when `s` is blank.
   */
  lemma StripMeaning(s: string)
    ensures var r := Strip(s);
      && (exists i :: 0 <= i <= |s| - |r| && r == s[i..i + |r|] && AllSpace(s[..i]) && AllSpace(s[i + |r|..]))
      && (forall c :: c in r ==> c in s)
      && (r == "" || (!IsSpace(r[0]) && !IsSpace(r[|r| - 1])))
      && (r == "" <==> AllSpace(s))
  {
    var t := TrimLeft(s);
    TrimLeftMeaning(s);
    TrimRightMeaning(t);
    var r := TrimRight(t);
    var i := |s| - |t|;
    assert r == s[i..i + |r|];
    assert s[i + |r|..] == t[|r|..];
    assert AllSpace(s[..i]) && AllSpace(s[i + |r|..]);
    SliceChars(s, i, i + |r|);
  }

  /** Every character of a slice is a character of the whole. */
  lemma SliceChars(s: string, i: nat, j: nat)
    requires i <= j <= |s|
    ensures forall c :: c in s[i..j] ==> c in s
  {
    forall c | c in s[i..j] ensures c in s {
      var k :| 0 <= k < j - i && s[i..j][k] == c;
      assert s[i + k] == c;
    }
  }

  /** Python's `s.split(sep)` for a one-character separator: never empty, and `"".split(",") == [""]`. */
  function Split(s: string, sep: char): (parts: seq<string>)
    ensures |parts| >= 1
    ensures forall p <- parts :: sep !in p
  {
    if |s| == 0 then [""]
    else
      var rest := Split(s[1..], sep);
      if s[0] == sep then [""] + rest else [[s[0]] + rest[0]] + rest[1..]
  }

  /** The inverse of `Split`: the pieces glued back together with the separator. */
  function Join(parts: seq<string>, sep: char): string {
    if |parts| == 0 then ""
    else if |parts| == 1 then parts[0]
    else parts[0] + [sep] + Join(parts[1..], sep)
  }

  lemma {:induction false} JoinSplit(s: string, sep: char)
    ensures Join(Split(s, sep), sep) == s
  {
    if |s| > 0 {
      var rest := Split(s[1..], sep);
      JoinSplit(s[1..], sep);
      if s[0] == sep {
        assert Split(s, sep) == [""] + rest;
        assert ([""] + rest)[1..] == rest;
      } else {
        var parts := [[s[0]] + rest[0]] + rest[1..];
        assert parts[1..] == rest[1..];
        if |rest| == 1 {
          assert Join(parts, sep) == [s[0]] + rest[0];
        } else {
          assert Join(rest, sep) == rest[0] + [sep] + Join(rest[1..], sep);
        }
      }
    }
  }

  /** A string without the separator is a single piece. */
  lemma {:induction false} SplitWithoutSeparator(s: string, sep: char)
    requires sep !in s
    ensures Split(s, sep) == [s]
  {
    if |s| > 0 {
      assert s[1..] == s[1..];
      assert sep !in s[1..] by {
        forall i | 0 <= i < |s[1..]| ensures s[1..][i] != sep { assert s[1..][i] == s[i + 1]; }
      }
      SplitWithoutSeparator(s[1..], sep);
      assert [s[0]] + s[1..] == s;
    }
  }

  /** Splitting at the first separator: the pieces of `a + [sep] + b` are those of `a` followed by those of `b`. */
  lemma {:induction false} SplitConcat(a: string, b: string, sep: char)
    requires sep !in a
    ensures Split(a + [sep] + b, sep) == [a] + Split(b, sep)
  {
    var s := a + [sep] + b;
    if |a| == 0 {
      assert s[0] == sep && s[1..] == b;
    } else {
      assert s[0] == a[0];
      assert s[1..] == a[1..] + [sep] + b;
      assert sep !in a[1..] by {
        forall i | 0 <= i < |a[1..]| ensures a[1..][i] != sep { assert a[1..][i] == a[i + 1]; }
      }
      SplitConcat(a[1..], b, sep);
      assert [a[0]] + a[1..] == a;
    }
  }

  /** A string ending in the separator splits into at least two pieces, the last of them empty. */
  lemma {:induction false} SplitTrailingSeparator(s: string, sep: char)
    requires |s| > 0 && s[|s| - 1] == sep
    ensures var parts := Split(s, sep); |parts| >= 2 && parts[|parts| - 1] == ""
  {
    if |s| > 1 {
      assert s[1..][|s| - 2] == sep;
      SplitTrailingSeparator(s[1..], sep);
    }
  }

  /** Gluing one more empty piece onto a non-empty list of pieces adds one separator. */
  lemma {:induction false} JoinSnocEmpty(parts: seq<string>, sep: char)
    requires |parts| >= 1
    ensures Join(parts + [""], sep) == Join(parts, sep) + [sep]
  {
    var all := parts + [""];
    if |parts| == 1 {
      assert all[1..] == [""];
    } else {
      assert all[1..] == parts[1..] + [""];
      JoinSnocEmpty(parts[1..], sep);
    }
  }

  /**
   * Python's `text.splitlines()` for `\n` line breaks: no lines for the empty text, and a
   * final line break ends the last line rather than starting an empty one.
   */
  function SplitLines(s: string): (lines: seq<string>)
    ensures s == "" <==> lines == []
    ensures forall l <- lines :: '\n' !in l
  {
    if s == "" then []
    else
      var parts := Split(s, '\n');
      if s[|s| - 1] == '\n' then
        SplitTrailingSeparator(s, '\n');
        parts[..|parts| - 1]
      else parts
  }

  /** `"\n".join(text.splitlines())` gives `text` back, less a final line break. */
  lemma SplitLinesJoin(s: string)
    requires s != ""
    ensures var lines := SplitLines(s);
      if s[|s| - 1] == '\n' then Join(lines, '\n') + "\n" == s else Join(lines, '\n') == s
  {
    var parts := Split(s, '\n');
    JoinSplit(s, '\n');
    if s[|s| - 1] == '\n' {
      SplitTrailingSeparator(s, '\n');
      var lines := parts[..|parts| - 1];
      assert lines + [""] == parts;
      JoinSnocEmpty(lines, '\n');
    }
  }

  predicate IsDigit(c: char) {
    '0' <= c <= '9'
  }

  predicate AllDigits(s: string) {
    forall i :: 0 <= i < |s| ==> IsDigit(s[i])
  }

  /** The value of a string of decimal digits, most significant first. */
  function DigitsValue(s: string): (n: nat)
    requires AllDigits(s)
  {
    if |s| == 0 then 0 else 10 * DigitsValue(s[..|s| - 1]) + (s[|s| - 1] - '0') as int
  }

  function Pow10(k: nat): (p: nat)
    ensures p >= 1
  {
    if k == 0 then 1 else 10 * Pow10(k - 1)
  }

  /** Python's `int(s)` on an already stripped string: an optional sign and at least one digit. */
  function ParseInt(s: string): Option<int> {
    if |s| > 0 && (s[0] == '-' || s[0] == '+') then
      var ds := s[1..];
      if |ds| > 0 && AllDigits(ds) then
        var v: int := DigitsValue(ds);
        Some(if s[0] == '-' then -v else v)
      else None
    else if |s| > 0 && AllDigits(s) then Some(DigitsValue(s))
    else None
  }

  function IndexOf(s: string, c: char): (i: nat)
    ensures i <= |s|
    ensures i < |s| ==> s[i] == c
    ensures forall j :: 0 <= j < i ==> s[j] != c
  {
    if |s| == 0 then 0 else if s[0] == c then 0 else 1 + IndexOf(s[1..], c)
  }

  /** The number written `whole.frac` in decimal. */
  function DecimalValue(whole: string, frac: string): real
    requires AllDigits(whole) && AllDigits(frac)
  {
    DigitsValue(whole) as real + DigitsValue(frac) as real / Pow10(|frac|) as real
  }

  /** Digits with an optional decimal point, at least one digit in all: "12", "12.5", ".5", "12.". */
  function ParseUnsignedDecimal(s: string): Option<real> {
    var i := IndexOf(s, '.');
    var whole := s[..i];
    var frac := if i < |s| then s[i + 1..] else "";
    if AllDigits(whole) && AllDigits(frac) && |whole| + |frac| > 0 then
      Some(DecimalValue(whole, frac))
    else None
  }

  /** Python's `float(s)` on an already stripped string, for plain decimal notation. */
  function ParseReal(s: string): Option<real> {
    if |s| > 0 && (s[0] == '-' || s[0] == '+') then
      match ParseUnsignedDecimal(s[1..])
      case Some(v) => Some(if s[0] == '-' then -v else v)
      case None => None
    else ParseUnsignedDecimal(s)
  }

  function DigitChar(d: nat): (c: char)
    requires d < 10
    ensures IsDigit(c) && (c - '0') as int == d
  {
    ('0' as int + d) as char
  }

  /** Python's `str(n)` for a natural number: decimal digits without leading zeros. */
  function NatToString(n: nat): (s: string)
    ensures |s| > 0 && AllDigits(s)
    ensures DigitsValue(s) == n
    ensures |s| == 1 || s[0] != '0'
  {
    if n < 10 then [DigitChar(n)]
    else
      var s := NatToString(n / 10) + [DigitChar(n % 10)];
      assert s[..|s| - 1] == NatToString(n / 10);
      s
  }

  /** Python's `str(n)` for an integer. */
  function IntToString(n: int): string {
    if n < 0 then "-" + NatToString(-n) else NatToString(n)
  }

  /** `int(str(n)) == n`: the text `str` writes reads back as the same number. */
  lemma ParseIntOfIntToString(n: int)
    ensures ParseInt(IntToString(n)) == Some(n)
  {
    if n < 0 {
      var s := IntToString(n);
      assert s[1..] == NatToString(-n);
    }
  }

  /** A run of digits has no decimal point: `IndexOf` runs to its end. */
  lemma NoPointInDigits(s: string)
    requires AllDigits(s)
    ensures IndexOf(s, '.') == |s|
  {
    assert forall j :: 0 <= j < |s| ==> s[j] != '.' by {
      forall j | 0 <= j < |s| ensures s[j] != '.' { assert IsDigit(s[j]); }
    }
  }

  lemma DecimalWithoutFraction(s: string)
    requires AllDigits(s)
    ensures DecimalValue(s, "") == DigitsValue(s) as real
  {
    assert DigitsValue("") == 0 && Pow10(0) == 1;
  }

  /** `float(s)` of a plain run of digits is the number they denote. */
  lemma ParseRealOfDigits(s: string)
    requires |s| > 0 && AllDigits(s)
    ensures ParseReal(s) == Some(DigitsValue(s) as real)
  {
    NoPointInDigits(s);
    assert s[..IndexOf(s, '.')] == s;
    assert ParseUnsignedDecimal(s) == Some(DecimalValue(s, ""));
    DecimalWithoutFraction(s);
    assert IsDigit(s[0]);
  }

  /** Text with no whitespace at either end is left as it is by `strip`. */
  lemma StripOfStripped(s: string)
    requires s == "" || (!IsSpace(s[0]) && !IsSpace(s[|s| - 1]))
    ensures Strip(s) == s
  {
  }

  /** Python's `int(text)`, which ignores whitespace around the number. */
  function IntOf(text: string): Option<int> {
    ParseInt(Strip(text))
  }

  /** `int(str(n)) == n` through `int`'s own stripping: `str(n)` has no whitespace to strip. */
  lemma IntOfIntToString(n: int)
    ensures IntOf(IntToString(n)) == Some(n)
  {
    var s := IntToString(n);
    assert IsDigit(s[|s| - 1]);
    StripOfStripped(s);
    ParseIntOfIntToString(n);
  }

  /** `float(text.strip())`, falling back to 0.0 where Python's `float` raises `ValueError`. */
  function RealOrZero(text: string): real {
    ParseReal(Strip(text)).GetOr(0.0)
  }

  /** `int(text.strip())`, falling back to 0 where Python's `int` raises `ValueError`. */
  function IntOrZero(text: string): int {
    IntOf(text).GetOr(0)
  }

  /**
   * The fallbacks read `str(n)` back as `n`, and blank text as 0: an empty entry field counts
   * as zero rather than as an error.
   */
  lemma OrZeroMeaning(text: string, n: int, k: nat)
    ensures IntOrZero(IntToString(n)) == n
    ensures RealOrZero(NatToString(k)) == k as real
    ensures AllSpace(text) ==> IntOrZero(text) == 0 && RealOrZero(text) == 0.0
  {
    IntOfIntToString(n);
    var t := NatToString(k);
    assert IsDigit(t[0]) && IsDigit(t[|t| - 1]);
    StripOfStripped(t);
    ParseRealOfDigits(t);
    StripMeaning(text);
  }
}
