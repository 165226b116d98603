/**
  Text helpers with the semantics of the Python `str` operations the scraper
  applies to page text, restricted to ASCII: `isdigit`, `int`, f-string
  formatting of a non-negative int, `isspace`, `strip`, `replace`, `split`
  with an explicit separator, `capitalize` and `title`.
 */
module Strings {

  // ---------------------------------------------------------------------------
  // Digits and decimal numerals
  // ---------------------------------------------------------------------------

  predicate IsDigit(c: char) { '0' <= c <= '9' }

  predicate DigitsOnly(s: string) { forall i :: 0 <= i < |s| ==> IsDigit(s[i]) }

  /** `s.isdigit()`: non-empty and made of digits only. */
  predicate IsNumeral(s: string) { |s| > 0 && DigitsOnly(s) }

  function DigitValue(c: char): nat
    requires IsDigit(c)
  {
    (c as int) - ('0' as int)
  }

  function DigitChar(d: nat): (c: char)
    requires d < 10
    ensures IsDigit(c) && DigitValue(c) == d
  {
    (('0' as int) + d) as char
  }

  /** `int(s)` for a string of digits (leading zeros allowed). */
  function Value(s: string): nat
    requires DigitsOnly(s)
    decreases |s|
  {
    if |s| == 0 then 0 else 10 * Value(s[..|s| - 1]) + DigitValue(s[|s| - 1])
  }

  /** `f"{n}"`: the decimal numeral of n, which `int` reads back as n. */
  function Decimal(n: nat): (r: string)
    ensures IsNumeral(r) && Value(r) == n
  {
    if n < 10 then
      [DigitChar(n)]
    else
      var p := Decimal(n / 10);
      var r := p + [DigitChar(n % 10)];
      assert r[..|r| - 1] == p;
      r
  }

  lemma DecimalInjective(m: nat, n: nat)
    requires Decimal(m) == Decimal(n)
    ensures m == n
  {
  }

  /** The number of digits at the start of s. */
  function LeadingDigits(s: string): (n: nat)
    ensures n <= |s| && DigitsOnly(s[..n])
    ensures n < |s| ==> !IsDigit(s[n])
  {
    if |s| > 0 && IsDigit(s[0]) then 1 + LeadingDigits(s[1..]) else 0
  }

  lemma {:induction false} LeadingDigitsOf(d: string, x: string)
    requires DigitsOnly(d)
    requires x == [] || !IsDigit(x[0])
    ensures LeadingDigits(d + x) == |d|
  {
    if |d| > 0 {
      assert (d + x)[1..] == d[1..] + x;
      LeadingDigitsOf(d[1..], x);
    } else {
      assert d + x == x;
    }
  }

  /**
    A run of digits is delimited by the first non-digit: two strings that
    each start with a digit run followed by nothing or a non-digit agree on
    the run and on the rest.
   */
  lemma NumeralPrefix(d1: string, x1: string, d2: string, x2: string)
    requires DigitsOnly(d1) && DigitsOnly(d2)
    requires x1 == [] || !IsDigit(x1[0])
    requires x2 == [] || !IsDigit(x2[0])
    requires d1 + x1 == d2 + x2
    ensures d1 == d2 && x1 == x2
  {
    LeadingDigitsOf(d1, x1);
    LeadingDigitsOf(d2, x2);
    assert d1 == (d1 + x1)[..|d1|] == (d2 + x2)[..|d2|] == d2;
    assert x1 == (d1 + x1)[|d1|..] == (d2 + x2)[|d2|..] == x2;
  }

  // ---------------------------------------------------------------------------
  // Whitespace and strip
  // ---------------------------------------------------------------------------

  /**
    `c.isspace()` on ASCII: tab, line feed, vertical tab, form feed, carriage
    return, the four separators 0x1C..0x1F, and space.
   */
  predicate IsSpace(c: char) { 9 <= c as int <= 13 || 28 <= c as int <= 32 }

  /** The number of whitespace characters s starts with. */
  function LeadingSpaces(s: string): (n: nat)
    ensures n <= |s|
  {
    if |s| > 0 && IsSpace(s[0]) then 1 + LeadingSpaces(s[1..]) else 0
  }

  /** The number of whitespace characters s ends with. */
  function TrailingSpaces(s: string): (n: nat)
    ensures n <= |s|
  {
    if |s| > 0 && IsSpace(s[|s| - 1]) then 1 + TrailingSpaces(s[..|s| - 1]) else 0
  }

  /** The leading run is all whitespace and is followed by nothing or a non-whitespace character. */
  lemma {:induction false} LeadingSpacesRun(s: string)
    ensures forall i :: 0 <= i < LeadingSpaces(s) ==> IsSpace(s[i])
    ensures LeadingSpaces(s) < |s| ==> !IsSpace(s[LeadingSpaces(s)])
  {
    if |s| > 0 && IsSpace(s[0]) {
      LeadingSpacesRun(s[1..]);
      assert forall i :: 1 <= i < |s| ==> s[1..][i - 1] == s[i];
    }
  }

  /** The trailing run is all whitespace and is preceded by nothing or a non-whitespace character. */
  lemma {:induction false} TrailingSpacesRun(s: string)
    ensures forall i :: |s| - TrailingSpaces(s) <= i < |s| ==> IsSpace(s[i])
    ensures TrailingSpaces(s) < |s| ==> !IsSpace(s[|s| - TrailingSpaces(s) - 1])
  {
    if |s| > 0 && IsSpace(s[|s| - 1]) {
      TrailingSpacesRun(s[..|s| - 1]);
    }
  }

  /** `s.strip()`: s without its leading and trailing whitespace. */
  function Strip(s: string): string
  {
    var t := s[LeadingSpaces(s)..];
    t[..|t| - TrailingSpaces(t)]
  }

  /** Strip leaves no whitespace at either end. */
  lemma StripTrimmed(s: string)
    ensures Strip(s) == [] || (!IsSpace(Strip(s)[0]) && !IsSpace(Strip(s)[|Strip(s)| - 1]))
  {
    var k := LeadingSpaces(s);
    var t := s[k..];
    var r := Strip(s);
    LeadingSpacesRun(s);
    TrailingSpacesRun(t);
    if r != [] {
      assert r[0] == t[0] == s[k];
      assert r[|r| - 1] == t[|t| - TrailingSpaces(t) - 1];
    }
  }

  /** Strip removes only whitespace at the ends: the rest of s is kept as it is. */
  lemma StripSlice(s: string)
    ensures |Strip(s)| <= |s|
    ensures forall i :: 0 <= i < |Strip(s)| ==> Strip(s)[i] == s[LeadingSpaces(s) + i]
  {
  }

  /** A character absent from s is absent from its stripped form. */
  lemma StripKeepsOut(s: string, c: char)
    requires c !in s
    ensures c !in Strip(s)
  {
    StripSlice(s);
  }

  lemma StripKeepsTrimmed(s: string)
    requires s == [] || (!IsSpace(s[0]) && !IsSpace(s[|s| - 1]))
    ensures Strip(s) == s
  {
    assert LeadingSpaces(s) == 0;
    assert s[0..] == s;
  }

  // ---------------------------------------------------------------------------
  // replace and character removal
  // ---------------------------------------------------------------------------

  /** `s.replace(c, rep)` for a one-character pattern c. */
  function ReplaceChar(s: string, c: char, rep: string): (r: string)
    ensures |rep| == 1 ==> |r| == |s|
  {
    if |s| == 0 then [] else (if s[0] == c then rep else [s[0]]) + ReplaceChar(s[1..], c, rep)
  }

  /** Every c is replaced: none is left unless the replacement holds one. */
  lemma {:induction false} ReplaceCharRemoves(s: string, c: char, rep: string)
    requires c !in rep
    ensures c !in ReplaceChar(s, c, rep)
  {
    if |s| > 0 {
      ReplaceCharRemoves(s[1..], c, rep);
    }
  }

  /** A text without c is left as it is. */
  lemma {:induction false} ReplaceCharAbsent(s: string, c: char, rep: string)
    requires c !in s
    ensures ReplaceChar(s, c, rep) == s
  {
    if |s| > 0 {
      ReplaceCharAbsent(s[1..], c, rep);
      assert [s[0]] + s[1..] == s;
    }
  }

  /** A character in neither the text nor the replacement is not in the result. */
  lemma {:induction false} ReplaceCharKeepsOut(s: string, c: char, rep: string, d: char)
    requires d !in s && d !in rep
    ensures d !in ReplaceChar(s, c, rep)
  {
    if |s| > 0 {
      ReplaceCharKeepsOut(s[1..], c, rep, d);
    }
  }

  lemma {:induction false} ReplaceCharAppend(a: string, b: string, c: char, rep: string)
    ensures ReplaceChar(a + b, c, rep) == ReplaceChar(a, c, rep) + ReplaceChar(b, c, rep)
  {
    if |a| > 0 {
      assert (a + b)[1..] == a[1..] + b;
      ReplaceCharAppend(a[1..], b, c, rep);
    } else {
      assert a + b == b;
    }
  }

  /** The characters of s that are not in bad, in their order (`re.sub('[...]', '', s)`). */
  function RemoveChars(s: string, bad: set<char>): (r: string)
    ensures forall i :: 0 <= i < |r| ==> r[i] !in bad
    ensures (forall i :: 0 <= i < |s| ==> s[i] !in bad) ==> r == s
    ensures |r| <= |s|
  {
    if |s| == 0 then [] else (if s[0] in bad then [] else [s[0]]) + RemoveChars(s[1..], bad)
  }

  lemma {:induction false} RemoveCharsAppend(a: string, b: string, bad: set<char>)
    ensures RemoveChars(a + b, bad) == RemoveChars(a, bad) + RemoveChars(b, bad)
  {
    if |a| > 0 {
      assert (a + b)[1..] == a[1..] + b;
      RemoveCharsAppend(a[1..], b, bad);
    } else {
      assert a + b == b;
    }
  }

  /** `s.replace(pat, '')` for a non-empty pat: one left-to-right pass, occurrences removed without overlap. */
  function RemoveAll(s: string, pat: string): (r: string)
    requires |pat| > 0
    ensures |r| <= |s|
    decreases |s|
  {
    if |s| < |pat| then s
    else if s[..|pat|] == pat then RemoveAll(s[|pat|..], pat)
    else [s[0]] + RemoveAll(s[1..], pat)
  }

  /** pat occurs in s at position i. */
  predicate OccursAt(pat: string, s: string, i: int) {
    0 <= i <= |s| - |pat| && s[i..i + |pat|] == pat
  }

  ghost predicate Occurs(pat: string, s: string) {
    exists i :: OccursAt(pat, s, i)
  }

  /**
    The first occurrence of pat is removed, and removal goes on after it:
    the text before it, where pat does not start, is kept.
   */
  lemma {:induction false} RemoveAllFirst(a: string, pat: string, b: string)
    requires |pat| > 0
    requires forall i :: 0 <= i < |a| ==> !OccursAt(pat, a + pat + b, i)
    ensures RemoveAll(a + pat + b, pat) == a + RemoveAll(b, pat)
    decreases |a|
  {
    var s := a + pat + b;
    if |a| == 0 {
      assert s == pat + b;
      assert s[..|pat|] == pat && s[|pat|..] == b;
    } else {
      assert s[..|pat|] != pat by {
        assert !OccursAt(pat, s, 0);
        assert s[0..0 + |pat|] == s[..|pat|];
      }
      assert RemoveAll(s, pat) == [s[0]] + RemoveAll(s[1..], pat);
      NoOccurrenceShift(a, pat, b);
      assert s[1..] == a[1..] + pat + b;
      RemoveAllFirst(a[1..], pat, b);
      assert [s[0]] + a[1..] == a;
    }
  }

  /** If pat starts nowhere in a, it starts nowhere in a's tail either. */
  lemma NoOccurrenceShift(a: string, pat: string, b: string)
    requires |a| > 0
    requires forall i :: 0 <= i < |a| ==> !OccursAt(pat, a + pat + b, i)
    ensures forall i :: 0 <= i < |a| - 1 ==> !OccursAt(pat, a[1..] + pat + b, i)
  {
    var s := a + pat + b;
    assert s[1..] == a[1..] + pat + b;
    forall i | 0 <= i < |a| - 1
      ensures !OccursAt(pat, s[1..], i)
    {
      assert !OccursAt(pat, s, i + 1);
      if i <= |s[1..]| - |pat| {
        assert s[1..][i..i + |pat|] == s[i + 1..i + 1 + |pat|];
      }
    }
  }

  lemma {:induction false} RemoveAllAbsent(s: string, pat: string)
    requires |pat| > 0 && !Occurs(pat, s)
    ensures RemoveAll(s, pat) == s
    decreases |s|
  {
    if |s| >= |pat| {
      assert !OccursAt(pat, s, 0);
      assert s[0..0 + |pat|] == s[..|pat|];
      assert !Occurs(pat, s[1..]) by {
        forall i | OccursAt(pat, s[1..], i)
          ensures false
        {
          assert s[1..][i..i + |pat|] == s[i + 1..i + 1 + |pat|];
          assert OccursAt(pat, s, i + 1);
        }
      }
      RemoveAllAbsent(s[1..], pat);
    }
  }

  // ---------------------------------------------------------------------------
  // split on one separator character
  // ---------------------------------------------------------------------------

  /** `s.split(sep)`: the pieces between separators, empty pieces included. */
  function Split(s: string, sep: char): (r: seq<string>)
    ensures |r| >= 1
  {
    if |s| == 0 then
      [""]
    else
      var rest := Split(s[1..], sep);
      if s[0] == sep then [""] + rest else [[s[0]] + rest[0]] + rest[1..]
  }

  /** `sep.join(parts)`. */
  function Join(parts: seq<string>, sep: char): string
  {
    if |parts| == 0 then "" else if |parts| == 1 then parts[0] else parts[0] + [sep] + Join(parts[1..], sep)
  }

  /** Splitting loses nothing: joining the pieces with the separator gives the text back. */
  lemma {:induction false} SplitJoin(s: string, sep: char)
    ensures Join(Split(s, sep), sep) == s
  {
    if |s| > 0 {
      var rest := Split(s[1..], sep);
      SplitJoin(s[1..], sep);
      if s[0] == sep {
        assert ([""] + rest)[1..] == rest;
      } else if |rest| > 1 {
        var r := [[s[0]] + rest[0]] + rest[1..];
        assert r[1..] == rest[1..];
      }
    }
  }

  /** A separator in the text splits the result into the pieces of either side. */
  lemma {:induction false} SplitAppend(a: string, b: string, sep: char)
    ensures Split(a + [sep] + b, sep) == Split(a, sep) + Split(b, sep)
  {
    if |a| == 0 {
      assert a + [sep] + b == [sep] + b;
      SplitCons(sep, b, sep);
    } else {
      var c, rest := a[0], a[1..];
      SplitAppend(rest, b, sep);
      SplitAppendStep(c, rest, b, sep);
      assert a + [sep] + b == [c] + (rest + [sep] + b);
      assert a == [c] + rest;
    }
  }

  /** The induction step of SplitAppend: one more character in front. */
  lemma SplitAppendStep(c: char, a: string, b: string, sep: char)
    requires Split(a + [sep] + b, sep) == Split(a, sep) + Split(b, sep)
    ensures Split([c] + (a + [sep] + b), sep) == Split([c] + a, sep) + Split(b, sep)
  {
    SplitCons(c, a + [sep] + b, sep);
    SplitCons(c, a, sep);
    ConsPieces(c, sep, Split(a, sep), Split(b, sep));
  }

  /** Putting c in front of the first of two runs of pieces puts it in front of the first run. */
  lemma ConsPieces(c: char, sep: char, ra: seq<string>, rb: seq<string>)
    requires |ra| >= 1
    ensures var r := ra + rb;
      (if c == sep then [""] + r else [[c] + r[0]] + r[1..])
      == (if c == sep then [""] + ra else [[c] + ra[0]] + ra[1..]) + rb
  {
    var r := ra + rb;
    if c == sep {
      assert [""] + r == ([""] + ra) + rb;
    } else {
      assert r[0] == ra[0] && r[1..] == ra[1..] + rb;
      var first := [[c] + ra[0]];
      assert first + (ra[1..] + rb) == (first + ra[1..]) + rb;
    }
  }

  /** Splitting a text that starts with c: c either ends an empty first piece or starts the first piece. */
  lemma SplitCons(c: char, t: string, sep: char)
    ensures var r := Split(t, sep);
      Split([c] + t, sep) == if c == sep then [""] + r else [[c] + r[0]] + r[1..]
  {
    assert ([c] + t)[0] == c && ([c] + t)[1..] == t;
  }

  lemma {:induction false} SplitWithoutSeparator(s: string, sep: char)
    requires sep !in s
    ensures Split(s, sep) == [s]
  {
    if |s| > 0 {
      SplitWithoutSeparator(s[1..], sep);
      assert [s[0]] + s[1..] == s;
    }
  }

  // ---------------------------------------------------------------------------
  // Case mapping (ASCII)
  // ---------------------------------------------------------------------------

  predicate IsUpper(c: char) { 'A' <= c <= 'Z' }

  predicate IsLower(c: char) { 'a' <= c <= 'z' }

  /** A cased character, in the sense of `str.title`. */
  predicate IsLetter(c: char) { IsUpper(c) || IsLower(c) }

  function ToUpper(c: char): (u: char)
    ensures IsLetter(u) == IsLetter(c) && !IsLower(u)
    ensures !IsLetter(c) ==> u == c
  {
    if IsLower(c) then (c as int - 32) as char else c
  }

  function ToLower(c: char): (l: char)
    ensures IsLetter(l) == IsLetter(c) && !IsUpper(l)
    ensures !IsLetter(c) ==> l == c
  {
    if IsUpper(c) then (c as int + 32) as char else c
  }

  /** `s.lower()`. */
  function Lower(s: string): (r: string)
    ensures |r| == |s| && forall i :: 0 <= i < |s| ==> r[i] == ToLower(s[i])
  {
    if |s| == 0 then [] else [ToLower(s[0])] + Lower(s[1..])
  }

  /** `s.capitalize()`: the first character upper case, all others lower case. */
  function Capitalize(s: string): (r: string)
    ensures |r| == |s|
    ensures |s| > 0 ==> r[0] == ToUpper(s[0])
    ensures forall i :: 1 <= i < |s| ==> r[i] == ToLower(s[i])
  {
    if |s| == 0 then [] else [ToUpper(s[0])] + Lower(s[1..])
  }

  /**
    The scan behind `str.title`: a character that follows a cased character
    is lowered, any other is raised; `afterCased` says whether the text
    before s ended in a cased character.
   */
  function TitleFrom(s: string, afterCased: bool): (r: string)
    ensures |r| == |s|
    ensures forall i :: 0 <= i < |s| ==>
      r[i] == (if (if i == 0 then afterCased else IsLetter(s[i - 1])) then ToLower(s[i]) else ToUpper(s[i]))
  {
    if |s| == 0 then
      []
    else
      var head := if afterCased then ToLower(s[0]) else ToUpper(s[0]);
      var tail := TitleFrom(s[1..], IsLetter(s[0]));
      assert forall i :: 0 <= i < |s| - 1 ==> s[1..][i] == s[i + 1];
      [head] + tail
  }

  /** `s.title()`: each character that starts a run of letters is upper case, every other letter lower case. */
  function Title(s: string): (r: string)
    ensures |r| == |s|
    ensures forall i :: 0 <= i < |s| ==>
      r[i] == (if i > 0 && IsLetter(s[i - 1]) then ToLower(s[i]) else ToUpper(s[i]))
  {
    TitleFrom(s, false)
  }

  /** Case mapping leaves a character that is not a letter where it was, and brings in no other. */
  lemma CaseKeepsOut(s: string, d: char)
    requires d !in s && !IsLetter(d)
    ensures d !in Capitalize(s) && d !in Title(s)
  {
    var c, t := Capitalize(s), Title(s);
    forall i | 0 <= i < |s|
      ensures c[i] != d && t[i] != d
    {
      assert s[i] != d;
      assert t[i] == (if i > 0 && IsLetter(s[i - 1]) then ToLower(s[i]) else ToUpper(s[i]));
    }
  }

  /** Title case is a fixed point of itself. */
  lemma TitleIdempotent(s: string)
    ensures Title(Title(s)) == Title(s)
  {
    var t := Title(s);
    forall i | 0 <= i < |s|
      ensures Title(t)[i] == t[i]
    {
      if i > 0 {
        var j := i - 1;
        assert t[j] == (if j > 0 && IsLetter(s[j - 1]) then ToLower(s[j]) else ToUpper(s[j]));
        assert IsLetter(t[j]) == IsLetter(s[j]);
      }
    }
  }
}
