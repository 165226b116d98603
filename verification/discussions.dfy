/**
  The discussion ranker (`extract_discussions`): each comment's upvote count
  is the first all-digit space-separated token of its upvote label, its text
  has its line breaks replaced and is stripped, and the comments are sorted
  stably by upvotes, most first, keeping the first five.
 */
module Discussions {
  import opened Strings
  import opened Outcomes
  import PageInfo

  /** What the page shows for one comment: its body text and its upvote label. */
  datatype RawComment = RawComment(content: string, upvoteText: string)

  datatype Comment = Comment(text: string, upvotes: nat)

  /** How many comments a card keeps. */
  const Kept := 5

  function Min(a: int, b: int): int { if a <= b then a else b }

  /**
    `[int(d) for d in text.split(' ') if d.isdigit()][0]`: the value of the
    first all-digit token, or an IndexError when there is none.
   */
  function Upvotes(text: string): (r: Result<nat>)
    ensures r.Ok? <==> HasNumeral(Split(text, ' '))
    ensures r.Err? ==> r.error == IndexOutOfRange
  {
    var ns := PageInfo.Numbers(Split(text, ' '));
    PageInfo.NumbersFirst(Split(text, ' '));
    if |ns| == 0 then Err(IndexOutOfRange) else Ok(ns[0])
  }

  /** A label reads as a count exactly when one of its space-separated tokens is a numeral, and then as the first such numeral. */
  lemma UpvotesFirstNumeral(text: string)
    ensures Upvotes(text).Ok? <==> HasNumeral(Split(text, ' '))
    ensures var ts := Split(text, ' ');
      forall i :: 0 <= i < |ts| && IsNumeral(ts[i]) && (forall j :: 0 <= j < i ==> !IsNumeral(ts[j])) ==>
        Upvotes(text) == Ok(Value(ts[i]))
  {
    PageInfo.NumbersFirst(Split(text, ' '));
  }

  predicate HasNumeral(ts: seq<string>) {
    exists i :: 0 <= i < |ts| && IsNumeral(ts[i])
  }

  /** The upvote counts of all comments, in order, or the failure of the first label without a number. */
  function UpvoteCounts(raws: seq<RawComment>): (r: Result<seq<nat>>)
    ensures r.Ok? ==> |r.value| == |raws|
    ensures r.Err? ==> r.error == IndexOutOfRange
  {
    if |raws| == 0 then
      Ok([])
    else
      var n :- Upvotes(raws[0].upvoteText);
      var rest :- UpvoteCounts(raws[1..]);
      Ok([n] + rest)
  }

  /** The counts are read exactly when every label holds a number, and count i is read from label i. */
  lemma {:induction false} UpvoteCountsOk(raws: seq<RawComment>)
    ensures UpvoteCounts(raws).Ok? <==> forall i :: 0 <= i < |raws| ==> Upvotes(raws[i].upvoteText).Ok?
    ensures UpvoteCounts(raws).Ok? ==> forall i :: 0 <= i < |raws| ==> Upvotes(raws[i].upvoteText) == Ok(UpvoteCounts(raws).value[i])
  {
    if |raws| > 0 {
      var rest := raws[1..];
      assert forall i :: 0 <= i < |rest| ==> rest[i] == raws[i + 1];
      UpvoteCountsOk(rest);
    }
  }

  /** `text.replace('\n', newlineAs).strip()`. */
  function Normalize(text: string, newlineAs: string): string
  {
    Strip(ReplaceChar(text, '\n', newlineAs))
  }

  /** A comment text as the ranker leaves it: no line break unless the replacement has one, no surrounding whitespace. */
  predicate Tidy(t: string, newlineAs: string) {
    ('\n' !in newlineAs ==> '\n' !in t) && (t == [] || (!IsSpace(t[0]) && !IsSpace(t[|t| - 1])))
  }

  /** Normalized text is tidy. */
  lemma NormalizeTidy(text: string, newlineAs: string)
    ensures Tidy(Normalize(text, newlineAs), newlineAs)
  {
    var replaced := ReplaceChar(text, '\n', newlineAs);
    StripTrimmed(replaced);
    if '\n' !in newlineAs {
      ReplaceCharRemoves(text, '\n', newlineAs);
      StripKeepsOut(replaced, '\n');
    }
  }

  // ---------------------------------------------------------------------------
  // Stable sort by upvotes, most first
  // ---------------------------------------------------------------------------

  predicate NonIncreasing(cs: seq<Comment>) {
    forall i, j :: 0 <= i < j < |cs| ==> cs[i].upvotes >= cs[j].upvotes
  }

  /** The comments of cs with exactly k upvotes, in their order in cs. */
  function WithUpvotes(cs: seq<Comment>, k: nat): seq<Comment>
  {
    if |cs| == 0 then [] else (if cs[0].upvotes == k then [cs[0]] else []) + WithUpvotes(cs[1..], k)
  }

  lemma {:induction false} WithUpvotesAppend(a: seq<Comment>, b: seq<Comment>, k: nat)
    ensures WithUpvotes(a + b, k) == WithUpvotes(a, k) + WithUpvotes(b, k)
  {
    if |a| > 0 {
      assert (a + b)[1..] == a[1..] + b;
      WithUpvotesAppend(a[1..], b, k);
    } else {
      assert a + b == b;
    }
  }

  /** Places c ahead of the first comment with at most as many upvotes. */
  function Insert(c: Comment, cs: seq<Comment>): (r: seq<Comment>)
    ensures |r| == |cs| + 1
  {
    if |cs| == 0 || cs[0].upvotes <= c.upvotes then
      [c] + cs
    else
      [cs[0]] + Insert(c, cs[1..])
  }

  /** Inserting adds c and loses nothing. */
  lemma {:induction false} InsertPermutes(c: Comment, cs: seq<Comment>)
    ensures multiset(Insert(c, cs)) == multiset(cs) + multiset{c}
  {
    if |cs| > 0 && cs[0].upvotes > c.upvotes {
      InsertPermutes(c, cs[1..]);
      assert cs == [cs[0]] + cs[1..];
    }
  }

  predicate AtMost(cs: seq<Comment>, n: nat) {
    forall i :: 0 <= i < |cs| ==> cs[i].upvotes <= n
  }

  lemma {:induction false} InsertAtMost(c: Comment, cs: seq<Comment>, n: nat)
    requires AtMost(cs, n) && c.upvotes <= n
    ensures AtMost(Insert(c, cs), n)
  {
    if |cs| > 0 && cs[0].upvotes > c.upvotes {
      InsertAtMost(c, cs[1..], n);
    }
  }

  lemma {:induction false} InsertSorted(c: Comment, cs: seq<Comment>)
    requires NonIncreasing(cs)
    ensures NonIncreasing(Insert(c, cs))
  {
    if |cs| > 0 && cs[0].upvotes > c.upvotes {
      var rest := Insert(c, cs[1..]);
      InsertSorted(c, cs[1..]);
      InsertAtMost(c, cs[1..], cs[0].upvotes);
      var r := [cs[0]] + rest;
      forall i, j | 0 <= i < j < |r|
        ensures r[i].upvotes >= r[j].upvotes
      {
        if i > 0 {
          assert r[i] == rest[i - 1] && r[j] == rest[j - 1];
        } else {
          assert r[j] == rest[j - 1];
        }
      }
    }
  }

  /** Inserting never reorders c against comments with the same count: c goes first among them. */
  lemma {:induction false} InsertStable(c: Comment, cs: seq<Comment>, k: nat)
    ensures WithUpvotes(Insert(c, cs), k) == WithUpvotes([c] + cs, k)
  {
    if |cs| == 0 || cs[0].upvotes <= c.upvotes {
    } else {
      var rest := Insert(c, cs[1..]);
      InsertStable(c, cs[1..], k);
      WithUpvotesAppend([cs[0]], rest, k);
      WithUpvotesAppend([c], cs[1..], k);
      WithUpvotesAppend([cs[0]], cs[1..], k);
      WithUpvotesAppend([c], cs, k);
      assert cs == [cs[0]] + cs[1..];
      assert WithUpvotes([cs[0]], k) == [] || WithUpvotes([c], k) == [];
    }
  }

  /** `sorted(cs, key=upvotes, reverse=True)`: an insertion sort that is stable like Python's. */
  function SortByUpvotes(cs: seq<Comment>): (r: seq<Comment>)
    ensures |r| == |cs|
  {
    if |cs| == 0 then [] else Insert(cs[0], SortByUpvotes(cs[1..]))
  }

  /** The sort is a permutation of its input. */
  lemma {:induction false} SortPermutes(cs: seq<Comment>)
    ensures multiset(SortByUpvotes(cs)) == multiset(cs)
  {
    if |cs| > 0 {
      SortPermutes(cs[1..]);
      InsertPermutes(cs[0], SortByUpvotes(cs[1..]));
      assert cs == [cs[0]] + cs[1..];
    }
  }

  /** The sort puts the most upvoted comments first. */
  lemma {:induction false} SortSorted(cs: seq<Comment>)
    ensures NonIncreasing(SortByUpvotes(cs))
  {
    if |cs| > 0 {
      SortSorted(cs[1..]);
      InsertSorted(cs[0], SortByUpvotes(cs[1..]));
    }
  }

  /** The sort keeps comments with equal counts in their original order. */
  lemma {:induction false} SortStable(cs: seq<Comment>, k: nat)
    ensures WithUpvotes(SortByUpvotes(cs), k) == WithUpvotes(cs, k)
  {
    if |cs| > 0 {
      var sorted := SortByUpvotes(cs[1..]);
      InsertStable(cs[0], sorted, k);
      SortStable(cs[1..], k);
      WithUpvotesAppend([cs[0]], sorted, k);
      WithUpvotesAppend([cs[0]], cs[1..], k);
      assert cs == [cs[0]] + cs[1..];
    }
  }

  /** `sorted(...)[:5]`: the comments kept. */
  function Rank(cs: seq<Comment>): seq<Comment>
  {
    var s := SortByUpvotes(cs);
    s[..Min(Kept, |s|)]
  }

  /** The comments the ranking drops. */
  function Dropped(cs: seq<Comment>): seq<Comment>
  {
    var s := SortByUpvotes(cs);
    s[Min(Kept, |s|)..]
  }

  /** The ranking keeps min(5, n) comments, most upvoted first. */
  lemma RankSorted(cs: seq<Comment>)
    ensures |Rank(cs)| == Min(Kept, |cs|)
    ensures NonIncreasing(Rank(cs))
  {
    var s := SortByUpvotes(cs);
    SortSorted(cs);
    assert forall i :: 0 <= i < |Rank(cs)| ==> Rank(cs)[i] == s[i];
  }

  /** The kept and the dropped comments together are exactly the input. */
  lemma RankPartition(cs: seq<Comment>)
    ensures multiset(Rank(cs)) + multiset(Dropped(cs)) == multiset(cs)
  {
    var s := SortByUpvotes(cs);
    SortPermutes(cs);
    assert s == Rank(cs) + Dropped(cs);
  }

  /** No dropped comment has more upvotes than a kept one. */
  lemma RankKeepsMostUpvoted(cs: seq<Comment>)
    ensures forall c, d :: c in Dropped(cs) && d in Rank(cs) ==> c.upvotes <= d.upvotes
  {
    var s := SortByUpvotes(cs);
    SortSorted(cs);
    var m := Min(Kept, |s|);
    forall c, d | c in Dropped(cs) && d in Rank(cs)
      ensures c.upvotes <= d.upvotes
    {
      var j :| 0 <= j < |s| - m && s[m..][j] == c;
      var i :| 0 <= i < m && s[..m][i] == d;
      assert s[i] == d && s[m + j] == c;
    }
  }

  /** Among comments with equal counts the kept ones are the first in page order, still in page order. */
  lemma RankStable(cs: seq<Comment>, k: nat)
    ensures WithUpvotes(Rank(cs), k) <= WithUpvotes(cs, k)
  {
    var s := SortByUpvotes(cs);
    assert s == Rank(cs) + Dropped(cs);
    WithUpvotesAppend(Rank(cs), Dropped(cs), k);
    SortStable(cs, k);
  }

  /** Every kept comment is one of the input comments. */
  lemma RankDrawsFromInput(cs: seq<Comment>)
    ensures forall i :: 0 <= i < |Rank(cs)| ==> Rank(cs)[i] in cs
  {
    var s := SortByUpvotes(cs);
    forall i | 0 <= i < |Rank(cs)|
      ensures Rank(cs)[i] in cs
    {
      SortPermutes(cs);
      assert Rank(cs)[i] == s[i];
      assert s[i] in multiset(s);
    }
  }

  /** The comment bodies, in page order. */
  function Contents(raws: seq<RawComment>): (r: seq<string>)
    ensures |r| == |raws|
  {
    if |raws| == 0 then [] else var n := |raws| - 1; Contents(raws[..n]) + [raws[n].content]
  }

  /** Body i of the list is the content of comment i. */
  lemma {:induction false} ContentsAt(raws: seq<RawComment>, i: int)
    requires 0 <= i < |raws|
    ensures Contents(raws)[i] == raws[i].content
  {
    var n := |raws| - 1;
    if i < n {
      assert raws[..n][i] == raws[i];
      ContentsAt(raws[..n], i);
    }
  }

  /** The comprehension building one record per comment from the parallel lists. */
  function Discussion(contents: seq<string>, upvotes: seq<nat>, newlineAs: string): (r: seq<Comment>)
    requires |contents| == |upvotes|
    ensures |r| == |contents|
  {
    if |contents| == 0 then
      []
    else
      var n := |contents| - 1;
      Discussion(contents[..n], upvotes[..n], newlineAs) + [Comment(Normalize(contents[n], newlineAs), upvotes[n])]
  }

  /** Record i holds comment i's tidied body and its upvote count. */
  lemma {:induction false} DiscussionAt(contents: seq<string>, upvotes: seq<nat>, newlineAs: string, i: int)
    requires |contents| == |upvotes| && 0 <= i < |contents|
    ensures Discussion(contents, upvotes, newlineAs)[i] == Comment(Normalize(contents[i], newlineAs), upvotes[i])
  {
    var n := |contents| - 1;
    if i < n {
      assert contents[..n][i] == contents[i] && upvotes[..n][i] == upvotes[i];
      DiscussionAt(contents[..n], upvotes[..n], newlineAs, i);
    }
  }

  /** The ranking of one question's comments, with `newlineAs` put in place of each line break. */
  function Extract(raws: seq<RawComment>, newlineAs: string): Result<seq<Comment>>
  {
    var comments := raws;
    var contents := Contents(raws);
    var upvotes :- UpvoteCounts(raws);
    if |comments| != |contents| || |contents| != |upvotes| then
      Err(InconsistentLengths)
    else
      Ok(Rank(Discussion(contents, upvotes, newlineAs)))
  }

  /**
    The ranking's only failure is an upvote label without a number: the
    length check between the parallel lists never fails.
   */
  lemma ExtractFailure(raws: seq<RawComment>, newlineAs: string)
    ensures Extract(raws, newlineAs).Ok? <==> forall i :: 0 <= i < |raws| ==> Upvotes(raws[i].upvoteText).Ok?
    ensures Extract(raws, newlineAs).Err? ==> Extract(raws, newlineAs).error == IndexOutOfRange
  {
    UpvoteCountsOk(raws);
  }

  /** On success the ranking holds min(5, n) tidy comments, most upvoted first. */
  lemma ExtractRanked(raws: seq<RawComment>, newlineAs: string)
    requires Extract(raws, newlineAs).Ok?
    ensures var cs := Extract(raws, newlineAs).value;
      && |cs| == Min(Kept, |raws|) && NonIncreasing(cs)
      && (forall i :: 0 <= i < |cs| ==> Tidy(cs[i].text, newlineAs))
  {
    var upvotes := UpvoteCounts(raws).value;
    var contents := Contents(raws);
    var discussions := Discussion(contents, upvotes, newlineAs);
    var cs := Rank(discussions);
    assert Extract(raws, newlineAs) == Ok(cs);
    RankSorted(discussions);
    RankDrawsFromInput(discussions);
    forall i | 0 <= i < |cs|
      ensures Tidy(cs[i].text, newlineAs)
    {
      DiscussionTidy(contents, upvotes, newlineAs, cs[i]);
    }
  }

  /** A record built from the parallel lists has a tidy text. */
  lemma DiscussionTidy(contents: seq<string>, upvotes: seq<nat>, newlineAs: string, c: Comment)
    requires |contents| == |upvotes| && c in Discussion(contents, upvotes, newlineAs)
    ensures Tidy(c.text, newlineAs)
  {
    var d := Discussion(contents, upvotes, newlineAs);
    var j :| 0 <= j < |d| && d[j] == c;
    DiscussionAt(contents, upvotes, newlineAs, j);
    NormalizeTidy(contents[j], newlineAs);
  }

  /** A record built from the parallel lists carries one of the counts read. */
  lemma DiscussionUpvotes(contents: seq<string>, upvotes: seq<nat>, newlineAs: string, c: Comment)
    requires |contents| == |upvotes| && c in Discussion(contents, upvotes, newlineAs)
    ensures c.upvotes in upvotes
  {
    var d := Discussion(contents, upvotes, newlineAs);
    var j :| 0 <= j < |d| && d[j] == c;
    DiscussionAt(contents, upvotes, newlineAs, j);
  }

  /** Every kept comment carries the upvote count read from one of the page's labels. */
  lemma ExtractDrawsFromInput(raws: seq<RawComment>, newlineAs: string)
    requires Extract(raws, newlineAs).Ok?
    ensures UpvoteCounts(raws).Ok?
    ensures var cs := Extract(raws, newlineAs).value;
      forall i :: 0 <= i < |cs| ==> cs[i].upvotes in UpvoteCounts(raws).value
  {
    var upvotes := UpvoteCounts(raws).value;
    var contents := Contents(raws);
    var discussions := Discussion(contents, upvotes, newlineAs);
    var cs := Rank(discussions);
    assert Extract(raws, newlineAs) == Ok(cs);
    RankDrawsFromInput(discussions);
    forall i | 0 <= i < |cs|
      ensures cs[i].upvotes in upvotes
    {
      DiscussionUpvotes(contents, upvotes, newlineAs, cs[i]);
    }
  }

  /**
    cs are the page's comments as records, in page order: comment i's body
    with `newlineAs` put in place of each line break and stripped, and the
    count read from its upvote label.
   */
  predicate ReadFrom(raws: seq<RawComment>, newlineAs: string, cs: seq<Comment>) {
    && |cs| == |raws|
    && forall i :: 0 <= i < |raws| ==>
         cs[i].text == Normalize(raws[i].content, newlineAs) && Upvotes(raws[i].upvoteText) == Ok(cs[i].upvotes)
  }

  /** When every label reads, the page's comments have their records. */
  lemma ExtractReads(raws: seq<RawComment>, newlineAs: string)
    requires Extract(raws, newlineAs).Ok?
    ensures exists cs :: ReadFrom(raws, newlineAs, cs)
  {
    var upvotes := UpvoteCounts(raws).value;
    var contents := Contents(raws);
    var cs := Discussion(contents, upvotes, newlineAs);
    UpvoteCountsOk(raws);
    forall i | 0 <= i < |raws|
      ensures cs[i].text == Normalize(raws[i].content, newlineAs) && Upvotes(raws[i].upvoteText) == Ok(cs[i].upvotes)
    {
      DiscussionAt(contents, upvotes, newlineAs, i);
      ContentsAt(raws, i);
    }
    assert ReadFrom(raws, newlineAs, cs);
  }

  /** `extract_discussions` is the ranking of the page's own comments. */
  lemma ExtractIs(raws: seq<RawComment>, newlineAs: string, cs: seq<Comment>)
    requires ReadFrom(raws, newlineAs, cs)
    ensures Extract(raws, newlineAs) == Ok(Rank(cs))
  {
    UpvoteCountsOk(raws);
    var upvotes := UpvoteCounts(raws).value;
    var contents := Contents(raws);
    var d := Discussion(contents, upvotes, newlineAs);
    forall i | 0 <= i < |raws|
      ensures d[i] == cs[i]
    {
      DiscussionAt(contents, upvotes, newlineAs, i);
      ContentsAt(raws, i);
    }
    assert d == cs;
  }

  /**
    The five comments `extract_discussions` keeps are the page's own: with
    the dropped ones they make up the page's comments, no dropped comment
    has more upvotes than a kept one, and among comments with equal counts
    the kept ones are the first in page order, still in page order.
   */
  lemma ExtractTopFive(raws: seq<RawComment>, newlineAs: string, cs: seq<Comment>, k: nat)
    requires ReadFrom(raws, newlineAs, cs)
    ensures Extract(raws, newlineAs).Ok?
    ensures multiset(Extract(raws, newlineAs).value) + multiset(Dropped(cs)) == multiset(cs)
    ensures forall c, d :: c in Dropped(cs) && d in Extract(raws, newlineAs).value ==> c.upvotes <= d.upvotes
    ensures WithUpvotes(Extract(raws, newlineAs).value, k) <= WithUpvotes(cs, k)
  {
    ExtractIs(raws, newlineAs, cs);
    RankPartition(cs);
    RankKeepsMostUpvoted(cs);
    RankStable(cs, k);
  }

  /** `extract_discussions` of the scraper under `src/`: line breaks become spaces. */
  function ExtractDiscussions(raws: seq<RawComment>): Result<seq<Comment>>
  {
    Extract(raws, " ")
  }
}
