/**
  The page-information label parser (`get_page_info`): every '-' of the
  label becomes a space, the text is split on single spaces, and the
  all-digit pieces are read as integers; the first five of them give the
  page number, the page count, the first and last item on the page and the
  item count.
 */
module PageInfo {
  import opened Strings
  import opened Outcomes

  /** `[int(d) for d in tokens if d.isdigit()]`. */
  function Numbers(tokens: seq<string>): (r: seq<nat>)
    ensures |r| <= |tokens|
  {
    if |tokens| == 0 then
      []
    else
      var rest := tokens[1..];
      assert forall i :: 0 <= i < |rest| ==> rest[i] == tokens[i + 1];
      (if IsNumeral(tokens[0]) then [Value(tokens[0])] else []) + Numbers(rest)
  }

  /**
    No number is read exactly when no token is a numeral, and the first
    number read is the value of the first numeral token.
   */
  lemma {:induction false} NumbersFirst(tokens: seq<string>)
    ensures Numbers(tokens) == [] <==> forall i :: 0 <= i < |tokens| ==> !IsNumeral(tokens[i])
    ensures forall i :: 0 <= i < |tokens| && IsNumeral(tokens[i]) && (forall j :: 0 <= j < i ==> !IsNumeral(tokens[j])) ==>
      Numbers(tokens) != [] && Numbers(tokens)[0] == Value(tokens[i])
  {
    if |tokens| > 0 {
      var rest := tokens[1..];
      assert forall i :: 0 <= i < |rest| ==> rest[i] == tokens[i + 1];
      NumbersFirst(rest);
    }
  }

  lemma {:induction false} NumbersAppend(a: seq<string>, b: seq<string>)
    ensures Numbers(a + b) == Numbers(a) + Numbers(b)
  {
    if |a| > 0 {
      assert (a + b)[1..] == a[1..] + b;
      NumbersAppend(a[1..], b);
    } else {
      assert a + b == b;
    }
  }

  /** The numbers of a page-information label, in order. */
  function Digits(caption: string): seq<nat>
  {
    Numbers(Split(ReplaceChar(caption, '-', " "), ' '))
  }

  /** A space separates the numbers on either side of it. */
  lemma DigitsSpace(a: string, b: string)
    ensures Digits(a + " " + b) == Digits(a) + Digits(b)
  {
    ReplaceCharAppend(a + " ", b, '-', " ");
    ReplaceCharAppend(a, " ", '-', " ");
    assert ReplaceChar(" ", '-', " ") == " ";
    SplitAppend(ReplaceChar(a, '-', " "), ReplaceChar(b, '-', " "), ' ');
    NumbersAppend(Split(ReplaceChar(a, '-', " "), ' '), Split(ReplaceChar(b, '-', " "), ' '));
  }

  /** A hyphen separates numbers exactly as a space does ("1-10" reads as 1 and 10). */
  lemma DigitsHyphen(a: string, b: string)
    ensures Digits(a + "-" + b) == Digits(a) + Digits(b)
  {
    ReplaceCharAppend(a + "-", b, '-', " ");
    ReplaceCharAppend(a, "-", '-', " ");
    assert ReplaceChar("-", '-', " ") == " ";
    assert ReplaceChar(a + "-" + b, '-', " ") == ReplaceChar(a + " " + b, '-', " ") by {
      ReplaceCharAppend(a + " ", b, '-', " ");
      ReplaceCharAppend(a, " ", '-', " ");
      assert ReplaceChar(" ", '-', " ") == " ";
    }
    DigitsSpace(a, b);
  }

  /** A numeral on its own reads as its value. */
  lemma DigitsOfNumeral(s: string)
    requires IsNumeral(s)
    ensures Digits(s) == [Value(s)]
  {
    assert forall k :: 0 <= k < |s| ==> s[k] != '-' && s[k] != ' ';
    ReplaceCharAbsent(s, '-', " ");
    SplitWithoutSeparator(s, ' ');
    assert Numbers([s]) == [Value(s)] + Numbers([s][1..]);
  }

  /** A word that is not a numeral, and holds no separator, contributes no number. */
  lemma DigitsOfWord(w: string)
    requires '-' !in w && ' ' !in w && !IsNumeral(w)
    ensures Digits(w) == []
  {
    ReplaceCharAbsent(w, '-', " ");
    SplitWithoutSeparator(w, ' ');
    assert Numbers([w]) == [] + Numbers([w][1..]);
  }

  /** The numbers of a label whose tokens are the decimal numerals of ns, separated by single spaces. */
  lemma {:induction false} DigitsOfRenderedNumbers(ns: seq<nat>)
    requires |ns| > 0
    ensures Digits(Join(seq(|ns|, i requires 0 <= i < |ns| => Decimal(ns[i])), ' ')) == ns
  {
    var parts := seq(|ns|, i requires 0 <= i < |ns| => Decimal(ns[i]));
    DigitsOfNumeral(Decimal(ns[0]));
    if |ns| > 1 {
      var tail := seq(|ns| - 1, i requires 0 <= i < |ns| - 1 => Decimal(ns[1..][i]));
      assert parts[1..] == tail;
      DigitsOfRenderedNumbers(ns[1..]);
      DigitsSpace(Decimal(ns[0]), Join(tail, ' '));
      assert [ns[0]] + ns[1..] == ns;
    }
  }

  /** The record built from a label by the scraper under `src/`. */
  datatype Info = Info(page: nat, total: nat, size: int, minItem: nat, maxItem: nat, totalItems: nat)

  /**
    `get_page_info`: no number at all is reported as missing page
    information, one to four numbers fail on subscripting, and five or more
    give the record built from the first five.
   */
  function Parse(caption: string): (r: Result<Info>)
    ensures r == Err(NoPageInformation) <==> |Digits(caption)| == 0
    ensures r == Err(IndexOutOfRange) <==> 1 <= |Digits(caption)| < 5
    ensures r.Ok? <==> |Digits(caption)| >= 5
    ensures r.Ok? ==>
      [r.value.page, r.value.total, r.value.minItem, r.value.maxItem, r.value.totalItems] == Digits(caption)[..5]
    ensures r.Ok? ==> r.value.size == r.value.maxItem - r.value.minItem + 1
  {
    var d := Digits(caption);
    if |d| < 1 then Err(NoPageInformation)
    else if |d| < 5 then Err(IndexOutOfRange)
    else Ok(Info(d[0], d[1], d[3] as int - d[2] as int + 1, d[2], d[3], d[4]))
  }

  /** Numbers separated by a space or a hyphen read back in order. */
  lemma DigitsJoined(x: string, xs: seq<nat>, sep: char, n: nat)
    requires sep == ' ' || sep == '-'
    requires Digits(x) == xs
    ensures Digits(x + [sep] + Decimal(n)) == xs + [n]
  {
    DigitsOfNumeral(Decimal(n));
    if sep == ' ' {
      DigitsSpace(x, Decimal(n));
    } else {
      DigitsHyphen(x, Decimal(n));
    }
  }

  /** The numbers of a label of the shape "P T A-B N". */
  lemma DigitsOfRange(p: nat, t: nat, a: nat, b: nat, n: nat)
    ensures Digits(Decimal(p) + " " + Decimal(t) + " " + Decimal(a) + "-" + Decimal(b) + " " + Decimal(n))
         == [p, t, a, b, n]
  {
    DigitsOfNumeral(Decimal(p));
    var x := Decimal(p);
    DigitsJoined(x, [p], ' ', t);
    x := x + " " + Decimal(t);
    DigitsJoined(x, [p, t], ' ', a);
    x := x + " " + Decimal(a);
    DigitsJoined(x, [p, t, a], '-', b);
    x := x + "-" + Decimal(b);
    DigitsJoined(x, [p, t, a, b], ' ', n);
  }

  /**
    A label of the shape "P T A-B N" (numerals separated by spaces, the item
    range by a hyphen) parses to page P of T showing items A to B of N.
   */
  lemma ParseRange(p: nat, t: nat, a: nat, b: nat, n: nat)
    ensures Parse(Decimal(p) + " " + Decimal(t) + " " + Decimal(a) + "-" + Decimal(b) + " " + Decimal(n))
         == Ok(Info(p, t, b - a + 1, a, b, n))
  {
    var x := Decimal(p) + " " + Decimal(t) + " " + Decimal(a) + "-" + Decimal(b) + " " + Decimal(n);
    DigitsOfRange(p, t, a, b, n);
    ParseFromDigits(x, p, t, a, b, n);
  }

  lemma ParseFromDigits(x: string, p: nat, t: nat, a: nat, b: nat, n: nat)
    requires Digits(x) == [p, t, a, b, n]
    ensures Parse(x) == Ok(Info(p, t, b - a + 1, a, b, n))
  {
  }

  /** Words that are not numerals are skipped wherever they stand. */
  lemma DigitsSkipWord(w: string, rest: string)
    requires '-' !in w && ' ' !in w && !IsNumeral(w)
    ensures Digits(w + " " + rest) == Digits(rest)
  {
    DigitsSpace(w, rest);
    DigitsOfWord(w);
  }
}
