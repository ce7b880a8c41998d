/** The few pieces of Python's `str` and `int` behaviour the catalog code
    relies on: `split` on one character, `strip`, substring tests, slicing,
    `int(...)` of a string, `float(...)` acceptance, and the `{:d}`,
    `{:04d}` and `{:3d}` format specifications. Characters are classified
    the ASCII way. */
module PyStrings {
  import opened Wrappers

  predicate IsDigit(c: char) { '0' <= c <= '9' }

  /** `str.isalpha` restricted to ASCII letters. */
  predicate IsAlpha(c: char) { 'a' <= c <= 'z' || 'A' <= c <= 'Z' }

  /** `str.isspace` on ASCII: tab, line feed, vertical tab, form feed,
      carriage return, the four separators 0x1C-0x1F, and the space. */
  predicate IsSpace(c: char) { 9 <= c as int <= 13 || 28 <= c as int <= 32 }

  predicate AllDigits(s: string) { forall i :: 0 <= i < |s| ==> IsDigit(s[i]) }

  // ---------------------------------------------------------------- split

  /** `s.split(sep)` for a one-character separator: the pieces between the
      separators, never an empty list. */
  function Split(s: string, sep: char): (parts: seq<string>)
    ensures |parts| >= 1
    ensures forall i :: 0 <= i < |parts| ==> sep !in parts[i]
    decreases |s|
  {
    if |s| == 0 then [""]
    else
      var rest := Split(s[1..], sep);
      if s[0] == sep then [""] + rest
      else [[s[0]] + rest[0]] + rest[1..]
  }

  /** `sep.join(parts)`. */
  function Join(parts: seq<string>, sep: char): string
    decreases |parts|
  {
    if |parts| == 0 then ""
    else if |parts| == 1 then parts[0]
    else parts[0] + [sep] + Join(parts[1..], sep)
  }

  /** Splitting loses nothing: joining the pieces gives the input back. */
  lemma {:induction false} JoinSplit(s: string, sep: char)
    ensures Join(Split(s, sep), sep) == s
    decreases |s|
  {
    if |s| > 0 {
      var rest := Split(s[1..], sep);
      JoinSplit(s[1..], sep);
      if s[0] == sep {
        assert Split(s, sep) == [""] + rest;
        assert ([""] + rest)[1..] == rest;
        assert s == [sep] + s[1..];
      } else {
        var parts := [[s[0]] + rest[0]] + rest[1..];
        assert Split(s, sep) == parts;
        if |rest| == 1 {
          assert s == [s[0]] + s[1..];
        } else {
          assert parts[1..] == rest[1..];
          assert Join(rest, sep) == rest[0] + [sep] + Join(rest[1..], sep);
          assert s == [s[0]] + s[1..];
        }
      }
    }
  }

  /** The first separator ends the first piece. */
  lemma {:induction false} SplitCons(a: string, b: string, sep: char)
    requires sep !in a
    ensures Split(a + [sep] + b, sep) == [a] + Split(b, sep)
    decreases |a|
  {
    var s := a + [sep] + b;
    if |a| == 0 {
      assert s == [sep] + b;
      assert s[1..] == b;
    } else {
      assert s[0] == a[0];
      assert s[1..] == a[1..] + [sep] + b;
      SplitCons(a[1..], b, sep);
      assert [a[0]] + a[1..] == a;
    }
  }

  /** A character missing from the string is missing from every piece. */
  lemma {:induction false} SplitAvoids(s: string, sep: char, c: char)
    requires c !in s
    ensures forall i :: 0 <= i < |Split(s, sep)| ==> c !in Split(s, sep)[i]
    decreases |s|
  {
    if |s| > 0 {
      assert forall x :: x in s[1..] ==> x in s;
      SplitAvoids(s[1..], sep, c);
    }
  }

  /** A string without the separator is a single piece. */
  lemma {:induction false} SplitNone(a: string, sep: char)
    requires sep !in a
    ensures Split(a, sep) == [a]
    decreases |a|
  {
    if |a| > 0 {
      SplitNone(a[1..], sep);
      assert [a[0]] + a[1..] == a;
    }
  }

  /** `s.split(sep)[0]`: the text before the first separator, or all of
      `s` when there is none. */
  function BeforeFirst(s: string, sep: char): (r: string)
    ensures r <= s && sep !in r
    ensures |r| < |s| ==> s[|r|] == sep
  {
    SplitFirst(s, sep);
    Split(s, sep)[0]
  }

  lemma {:induction false} SplitFirst(s: string, sep: char)
    ensures Split(s, sep)[0] <= s
    ensures |Split(s, sep)[0]| < |s| ==> s[|Split(s, sep)[0]|] == sep
    decreases |s|
  {
    if |s| > 0 {
      SplitFirst(s[1..], sep);
    }
  }

  /** A string splits into more than one piece exactly when it holds the
      separator. */
  lemma {:induction false} SplitMany(s: string, sep: char)
    ensures |Split(s, sep)| >= 2 <==> sep in s
    decreases |s|
  {
    if |s| > 0 {
      SplitMany(s[1..], sep);
      assert s == [s[0]] + s[1..];
    }
  }

  /** `Split(s + [c], sep)` for `c != sep`, as it follows from `Split(s, sep)`:
      a character other than the separator lengthens the last piece. */
  function SnocLast(p: seq<string>, c: char): seq<string>
    requires |p| >= 1
  {
    p[..|p| - 1] + [p[|p| - 1] + [c]]
  }

  /** Appending a non-separator extends the last piece. */
  lemma {:induction false} SplitSnoc(s: string, c: char, sep: char)
    requires c != sep
    ensures Split(s + [c], sep) == SnocLast(Split(s, sep), c)
    decreases |s|
  {
    if |s| == 0 {
      var t := s + [c];
      assert t == [c];
      assert Split(t[1..], sep) == [""];
      assert Split(t, sep) == [[c] + ""];
      assert [c] + "" == "" + [c];
    } else {
      assert (s + [c])[1..] == s[1..] + [c];
      SplitSnoc(s[1..], c, sep);
      if s[0] == sep {
        SplitSnocAtSep(s, c, sep);
      } else {
        SplitSnocInPiece(s, c, sep);
      }
    }
  }

  lemma SplitSnocAtSep(s: string, c: char, sep: char)
    requires c != sep && |s| > 0 && s[0] == sep
    requires Split(s[1..] + [c], sep) == SnocLast(Split(s[1..], sep), c)
    ensures Split(s + [c], sep) == SnocLast(Split(s, sep), c)
  {
    var t := s + [c];
    assert t[1..] == s[1..] + [c];
    var rest := Split(s[1..], sep);
    var n := |rest|;
    var p := [""] + rest;
    assert Split(s, sep) == p;
    assert Split(t, sep) == [""] + SnocLast(rest, c);
    assert p[..|p| - 1] == [""] + rest[..n - 1];
    assert p[|p| - 1] == rest[n - 1];
    assert SnocLast(p, c) == ([""] + rest[..n - 1]) + [rest[n - 1] + [c]];
  }

  /** Adding a character to a first piece commutes with lengthening the
      last piece. */
  lemma ConsSnocLast(h: char, rest: seq<string>, c: char)
    requires |rest| >= 1
    ensures var r := SnocLast(rest, c);
      [[h] + r[0]] + r[1..] == SnocLast([[h] + rest[0]] + rest[1..], c)
  {
    var n := |rest|;
    var r := SnocLast(rest, c);
    var p := [[h] + rest[0]] + rest[1..];
    if n == 1 {
      assert r == [rest[0] + [c]];
      assert [h] + (rest[0] + [c]) == ([h] + rest[0]) + [c];
    } else {
      assert r[0] == rest[0];
      assert r[1..] == rest[1..n - 1] + [rest[n - 1] + [c]];
      assert p[..|p| - 1] == [[h] + rest[0]] + rest[1..n - 1];
    }
  }

  lemma SplitSnocInPiece(s: string, c: char, sep: char)
    requires c != sep && |s| > 0 && s[0] != sep
    requires Split(s[1..] + [c], sep) == SnocLast(Split(s[1..], sep), c)
    ensures Split(s + [c], sep) == SnocLast(Split(s, sep), c)
  {
    var t := s + [c];
    assert t[0] == s[0] && t[1..] == s[1..] + [c];
    var rest := Split(s[1..], sep);
    assert Split(s, sep) == [[s[0]] + rest[0]] + rest[1..];
    assert Split(t, sep) == [[s[0]] + SnocLast(rest, c)[0]] + SnocLast(rest, c)[1..];
    ConsSnocLast(s[0], rest, c);
  }

  // ------------------------------------------------------------ substring

  /** Python's `t in s` on strings. */
  predicate Contains(s: string, t: string)
    decreases |s|
  {
    t <= s || (|s| > 0 && Contains(s[1..], t))
  }

  lemma {:induction false} ContainsAt(s: string, t: string, i: nat)
    requires i <= |s| && t <= s[i..]
    ensures Contains(s, t)
    decreases i
  {
    if i > 0 {
      assert s[1..][i - 1..] == s[i..];
      ContainsAt(s[1..], t, i - 1);
    }
  }

  /** A character of `t` missing from `s` rules out `t in s`. */
  lemma {:induction false} NotContainsChar(s: string, t: string, c: char)
    requires c in t && c !in s
    ensures !Contains(s, t)
    decreases |s|
  {
    assert forall k :: 0 <= k < |t| && t <= s ==> t[k] in s;
    if |s| > 0 {
      assert forall x :: x in s[1..] ==> x in s;
      NotContainsChar(s[1..], t, c);
    }
  }

  // ---------------------------------------------------------------- strip

  /** `s.lstrip()`. */
  function StripLeft(s: string): (r: string)
    ensures |r| <= |s|
    decreases |s|
  {
    if |s| > 0 && IsSpace(s[0]) then StripLeft(s[1..]) else s
  }

  /** `s.lstrip()` is the suffix left after dropping leading whitespace. */
  lemma {:induction false} StripLeftFacts(s: string)
    ensures StripLeft(s) == s[|s| - |StripLeft(s)|..]
    ensures forall i :: 0 <= i < |s| - |StripLeft(s)| ==> IsSpace(s[i])
    ensures |StripLeft(s)| > 0 ==> !IsSpace(StripLeft(s)[0])
    decreases |s|
  {
    if |s| > 0 && IsSpace(s[0]) {
      StripLeftFacts(s[1..]);
    }
  }

  /** `s.rstrip()`. */
  function StripRight(s: string): (r: string)
    ensures |r| <= |s|
    decreases |s|
  {
    if |s| > 0 && IsSpace(s[|s| - 1]) then StripRight(s[..|s| - 1]) else s
  }

  /** `s.rstrip()` is the prefix left after dropping trailing whitespace. */
  lemma {:induction false} StripRightFacts(s: string)
    ensures StripRight(s) == s[..|StripRight(s)|]
    ensures forall i :: |StripRight(s)| <= i < |s| ==> IsSpace(s[i])
    ensures |StripRight(s)| > 0 ==> !IsSpace(StripRight(s)[|StripRight(s)| - 1])
    decreases |s|
  {
    if |s| > 0 && IsSpace(s[|s| - 1]) {
      StripRightFacts(s[..|s| - 1]);
    }
  }

  /** `s.strip()`. */
  function Strip(s: string): string
  {
    StripRight(StripLeft(s))
  }

  lemma StripKeeps(s: string)
    requires |s| > 0 && !IsSpace(s[0]) && !IsSpace(s[|s| - 1])
    ensures Strip(s) == s
  {
  }

  /** Leading whitespace is what `strip` removes. */
  lemma {:induction false} StripLeftSpaces(w: string, s: string)
    requires forall i :: 0 <= i < |w| ==> IsSpace(w[i])
    requires |s| > 0 && !IsSpace(s[0])
    ensures StripLeft(w + s) == s
    decreases |w|
  {
    if |w| > 0 {
      assert (w + s)[1..] == w[1..] + s;
      StripLeftSpaces(w[1..], s);
    }
  }

  /** Whitespace added at the end does not change `strip`. */
  lemma {:induction false} StripTrailingSpace(s: string, c: char)
    requires IsSpace(c)
    ensures Strip(s + [c]) == Strip(s)
    decreases |s|
  {
    var t := s + [c];
    if |s| > 0 && IsSpace(s[0]) {
      assert t[1..] == s[1..] + [c];
      StripTrailingSpace(s[1..], c);
      assert StripLeft(t) == StripLeft(t[1..]);
    } else if |s| == 0 {
      assert t == [c];
      assert StripLeft(t) == StripLeft(t[1..]);
      assert t[1..] == [];
    } else {
      assert StripLeft(t) == t && StripLeft(s) == s;
      assert t[..|t| - 1] == s;
    }
  }

  // -------------------------------------------------------------- slicing

  /** `xs[:k]` for any integer `k`, as Python slices it. */
  function PyPrefix<T>(xs: seq<T>, k: int): (r: seq<T>)
    ensures r <= xs
  {
    if k >= 0 then (if k <= |xs| then xs[..k] else xs)
    else if -k <= |xs| then xs[..|xs| + k] else []
  }

  /** `s[k:]` for `k >= 0`. */
  function PyDrop(s: string, k: nat): string
  {
    if k <= |s| then s[k..] else ""
  }

  /** `s[-k:]` for `k > 0`. */
  function PyLastN(s: string, k: nat): string
  {
    if k <= |s| then s[|s| - k..] else s
  }

  // --------------------------------------------------- digits and numbers

  function DigitChar(d: nat): (c: char)
    requires d < 10
    ensures IsDigit(c)
  {
    ('0' as int + d) as char
  }

  function DigitValue(c: char): nat
    requires IsDigit(c)
  {
    c as int - '0' as int
  }

  /** The decimal digits of `n`, most significant first, no leading zero. */
  function Digits(n: nat): (s: string)
    ensures |s| >= 1 && AllDigits(s)
    decreases n
  {
    if n < 10 then [DigitChar(n)] else Digits(n / 10) + [DigitChar(n % 10)]
  }

  /** The number a string of decimal digits denotes. */
  function DigitsValue(s: string): nat
    requires AllDigits(s)
    decreases |s|
  {
    if |s| == 0 then 0 else DigitsValue(s[..|s| - 1]) * 10 + DigitValue(s[|s| - 1])
  }

  lemma {:induction false} DigitsValueOfDigits(n: nat)
    ensures DigitsValue(Digits(n)) == n
    decreases n
  {
    var s := Digits(n);
    if n < 10 {
      assert s[..0] == [];
    } else {
      DigitsValueOfDigits(n / 10);
      assert s[..|s| - 1] == Digits(n / 10);
    }
  }

  /** Four digits cover every index below ten thousand. */
  lemma {:induction false} DigitsLength(n: nat, k: nat)
    requires 1 <= k && n < Pow10(k)
    ensures |Digits(n)| <= k
    decreases k
  {
    if n >= 10 {
      assert k > 1;
      DigitsLength(n / 10, k - 1);
    }
  }

  function Pow10(k: nat): nat
  {
    if k == 0 then 1 else 10 * Pow10(k - 1)
  }

  function Repeat(c: char, k: nat): (r: string)
    ensures |r| == k && forall i :: 0 <= i < k ==> r[i] == c
  {
    if k == 0 then [] else [c] + Repeat(c, k - 1)
  }

  /** Leading zeros do not change the value of a digit string. */
  lemma {:induction false} DigitsValueZeroCons(s: string)
    requires AllDigits(s)
    ensures AllDigits("0" + s) && DigitsValue("0" + s) == DigitsValue(s)
    decreases |s|
  {
    var t := "0" + s;
    if |s| > 0 {
      assert t[..|t| - 1] == "0" + s[..|s| - 1];
      DigitsValueZeroCons(s[..|s| - 1]);
    } else {
      assert t[..0] == [];
    }
  }

  lemma {:induction false} DigitsValueZeros(k: nat, s: string)
    requires AllDigits(s)
    ensures AllDigits(Repeat('0', k) + s) && DigitsValue(Repeat('0', k) + s) == DigitsValue(s)
    decreases k
  {
    if k > 0 {
      DigitsValueZeros(k - 1, s);
      var t := Repeat('0', k - 1) + s;
      assert Repeat('0', k) == "0" + Repeat('0', k - 1);
      assert Repeat('0', k) + s == "0" + t;
      DigitsValueZeroCons(t);
      assert DigitsValue(Repeat('0', k) + s) == DigitsValue("0" + t);
    } else {
      assert Repeat('0', k) + s == s;
    }
  }

  /** `str.rjust`-style padding: `fill` on the left up to `width`. */
  function PadLeft(s: string, width: nat, fill: char): string
  {
    if |s| >= width then s else Repeat(fill, width - |s|) + s
  }

  /** `'{:d}'.format(i)`. */
  function FormatD(i: int): string
  {
    if i < 0 then "-" + Digits(-i) else Digits(i)
  }

  /** `'{:04d}'.format(i)`: zero padding after the sign, width four. */
  function Format04d(i: int): string
  {
    if i < 0 then "-" + PadLeft(Digits(-i), 3, '0') else PadLeft(Digits(i), 4, '0')
  }

  /** `'{:3d}'.format(i)`: space padding before the sign, width three. */
  function Format3d(i: int): string
  {
    PadLeft(FormatD(i), 3, ' ')
  }

  /** Digits with single underscores between them, the digit part
      `int(...)` accepts (`int("1_00") == 100`). */
  predicate IsDigitGroups(s: string)
  {
    && |s| > 0 && IsDigit(s[0]) && IsDigit(s[|s| - 1])
    && (forall i :: 0 <= i < |s| ==> IsDigit(s[i]) || s[i] == '_')
    && !Contains(s, "__")
  }

  /** The digits of `s` with its underscores left out. */
  function DropUnderscores(s: string): (r: string)
    ensures '_' !in r && |r| <= |s|
    ensures (forall i :: 0 <= i < |s| ==> IsDigit(s[i]) || s[i] == '_') ==> AllDigits(r)
    decreases |s|
  {
    if |s| == 0 then ""
    else (if s[0] == '_' then "" else [s[0]]) + DropUnderscores(s[1..])
  }

  /** Plain digits are digit groups without underscores. */
  lemma {:induction false} PlainDigitGroups(s: string)
    requires |s| > 0 && AllDigits(s)
    ensures IsDigitGroups(s) && DropUnderscores(s) == s
    decreases |s|
  {
    if |s| > 1 {
      PlainDigitGroups(s[1..]);
      assert [s[0]] + s[1..] == s;
    }
  }

  /** `int(s)` of a string: surrounding whitespace, an optional sign, and
      ASCII digits with single underscores between them; anything else
      raises ValueError (None). */
  function PyInt(s: string): Option<int>
  {
    var t := Strip(s);
    var signed := |t| > 0 && (t[0] == '+' || t[0] == '-');
    var body := if signed then t[1..] else t;
    if IsDigitGroups(body) then
      var v: int := DigitsValue(DropUnderscores(body));
      Some(if signed && t[0] == '-' then -v else v)
    else None
  }

  /** `int` reads an underscore between two digits as nothing:
      `int("1_00") == 100`. */
  lemma PyIntUnderscore()
    ensures PyInt("1_00") == Some(100)
  {
    var s := "1_00";
    StripKeeps(s);
    assert Strip(s) == s;
    assert !Contains(s, "__") by {
      assert s[1..] == "_00" && s[1..][1..] == "00";
      assert "__"[1] != "_00"[1];
      NotContainsChar("00", "__", '_');
    }
    assert IsDigitGroups(s);
    assert DropUnderscores(s) == "100" by {
      assert s[1..] == "_00" && s[1..][1..] == "00";
      PlainDigitGroups("00");
    }
    assert DigitsValue("100") == 100 by {
      assert "100"[..2] == "10" && "10"[..1] == "1" && "1"[..0] == "";
    }
  }

  /** Only digits, spaces and the minus sign appear in a formatted number. */
  predicate NumberChars(s: string)
  {
    forall i :: 0 <= i < |s| ==> IsDigit(s[i]) || s[i] == ' ' || s[i] == '-'
  }

  lemma FormatChars(i: int)
    ensures NumberChars(FormatD(i)) && NumberChars(Format04d(i)) && NumberChars(Format3d(i))
  {
  }

  /** `int` reads back what `{:04d}` wrote, and the field is exactly four
      characters wide, so `txt[:4]` and `s[-4:]` recover it. */
  lemma Format04dRoundTrip(i: int)
    requires 0 <= i < 10000
    ensures |Format04d(i)| == 4 && AllDigits(Format04d(i))
    ensures PyInt(Format04d(i)) == Some(i)
  {
    assert Pow10(4) == 10000;
    DigitsLength(i, 4);
    var d := Digits(i);
    DigitsValueOfDigits(i);
    DigitsValueZeros(4 - |d|, d);
    var f := Format04d(i);
    assert f == Repeat('0', 4 - |d|) + d;
    StripKeeps(f);
    PyIntOfStripped(f, f);
  }

  /** `int` reads back what `{:3d}` wrote: the padding is whitespace. */
  lemma Format3dRoundTrip(i: int)
    requires i >= 0
    ensures |Format3d(i)| >= 1
    ensures PyInt(Format3d(i)) == Some(i)
  {
    var d := Digits(i);
    DigitsValueOfDigits(i);
    var w := if |d| >= 3 then "" else Repeat(' ', 3 - |d|);
    assert Format3d(i) == w + d;
    PyIntPaddedDigits(w, d);
  }

  /** Digits after whitespace read back as their value. */
  lemma PyIntPaddedDigits(w: string, d: string)
    requires forall i :: 0 <= i < |w| ==> IsSpace(w[i])
    requires |d| > 0 && AllDigits(d)
    ensures PyInt(w + d) == Some(DigitsValue(d))
  {
    assert !IsSpace(d[0]) && !IsSpace(d[|d| - 1]) by { DigitNotSpace(d[0]); DigitNotSpace(d[|d| - 1]); }
    StripLeftSpaces(w, d);
    assert StripLeft(w + d) == d;
    StripKeeps(d);
    assert StripRight(d) == d;
    var t := Strip(w + d);
    assert t == d;
    assert t[0] != '+' && t[0] != '-';
    PyIntOfStripped(w + d, t);
  }

  lemma PyIntOfStripped(s: string, t: string)
    requires Strip(s) == t && |t| > 0 && AllDigits(t)
    requires t[0] != '+' && t[0] != '-'
    ensures PyInt(s) == Some(DigitsValue(t))
  {
    PlainDigitGroups(t);
  }

  lemma DigitNotSpace(c: char)
    requires IsDigit(c)
    ensures !IsSpace(c) && c != '+' && c != '-'
  {
  }

  /** `int` of the last character of `{:d}` is the last decimal digit. */
  lemma LastDigitRoundTrip(i: int)
    requires i >= 0
    ensures |FormatD(i)| >= 1
    ensures PyInt([FormatD(i)[|FormatD(i)| - 1]]) == Some(i % 10)
  {
    var d := Digits(i);
    assert FormatD(i) == d;
    var c := d[|d| - 1];
    assert c == DigitChar(i % 10);
    var s := [c];
    assert DigitsValue(s) == i % 10 by {
      assert s[..0] == [];
    }
    PyIntPaddedDigits("", s);
    assert "" + s == s;
  }

  /** `int` reads back what `{:d}` wrote. */
  lemma FormatDRoundTrip(i: int)
    requires i >= 0
    ensures PyInt(FormatD(i)) == Some(i)
  {
    DigitsValueOfDigits(i);
    StripKeeps(Digits(i));
    PyIntOfStripped(Digits(i), Digits(i));
  }

  // ---------------------------------------------------------------- float

  /** Length of the run of digits at the start of `s`. */
  function LeadingDigits(s: string): (n: nat)
    ensures n <= |s|
    decreases |s|
  {
    if |s| > 0 && IsDigit(s[0]) then 1 + LeadingDigits(s[1..]) else 0
  }

  function Lower(s: string): string
  {
    seq(|s|, i requires 0 <= i < |s| => if 'A' <= s[i] <= 'Z' then (s[i] as int + 32) as char else s[i])
  }

  /** An optional exponent `e` or `E`, an optional sign, then digits. */
  predicate IsExponentOrEmpty(e: string)
  {
    |e| == 0 ||
    ((e[0] == 'e' || e[0] == 'E') &&
     var x := if |e| > 1 && (e[1] == '+' || e[1] == '-') then e[2..] else e[1..];
     |x| > 0 && AllDigits(x))
  }

  /** Digits, optionally a point and more digits (at least one digit in
      all), then an optional exponent. */
  predicate IsDecimalLiteral(b: string)
  {
    var i := LeadingDigits(b);
    var rest := b[i..];
    if |rest| > 0 && rest[0] == '.' then
      var j := LeadingDigits(rest[1..]);
      i + j > 0 && IsExponentOrEmpty(rest[1 + j..])
    else
      i > 0 && IsExponentOrEmpty(rest)
  }

  /** Whether `float(s)` succeeds (digit-group underscores aside). */
  predicate IsPyFloat(s: string)
  {
    var u := Strip(s);
    var b := if |u| > 0 && (u[0] == '+' || u[0] == '-') then u[1..] else u;
    Lower(b) in {"inf", "infinity", "nan"} || IsDecimalLiteral(b)
  }
}
