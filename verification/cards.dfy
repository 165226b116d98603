/**
  The card extractor (`extract_cards`): for each `exam-question-card` of the
  page, in order, it saves the question's images, then the answer's, reads
  the options and ranks the discussion, appends the record and advances
  the progress bar by one.

  `base` is the position given to the page's first card when naming its
  images: the scraper passes 0 on every page (the in-page position), the
  corrected run passes the number of cards already extracted.
 */
module Cards {
  import opened Strings
  import opened Outcomes
  import opened Images
  import Discussions

  /** What the page shows for one `exam-question-card`. */
  datatype RawCard = RawCard(
    question: string,
    answer: string,
    questionImages: seq<string>,
    answerImages: seq<string>,
    options: seq<string>,
    comments: seq<Discussions.RawComment>)

  /** The record kept for a card: texts, options, ranked comments and image file names. */
  datatype Card = Card(
    question: string,
    answer: string,
    options: seq<string>,
    comments: seq<Discussions.Comment>,
    questionImages: seq<string>,
    answerImages: seq<string>)

  /** The progress bar (`tqdm`), reduced to its total and its counter. */
  class ProgressBar {
    const total: nat
    var count: nat

    constructor(total: nat)
      ensures this.total == total && count == 0
    {
      this.total := total;
      count := 0;
    }

    /** `pbar.update(n)`. */
    method Update(n: nat)
      modifies this
      ensures count == old(count) + n
    {
      count := count + n;
    }
  }

  /**
    The card's discussion can be ranked: its upvote counts can all be read,
    that is, every upvote label holds a number (`Discussions.UpvoteCountsOk`).
   */
  predicate Rankable(raw: RawCard) {
    Discussions.UpvoteCounts(raw.comments).Ok?
  }

  /**
    The record for a card whose images are named after position q: it fails,
    with the ranking's error, exactly when the discussion cannot be ranked.
   */
  function CardOf(raw: RawCard, q: nat): (r: Result<Card>)
    ensures r.Ok? <==> Rankable(raw)
    ensures r.Err? ==> r.error == IndexOutOfRange
  {
    var comments :- Discussions.ExtractDiscussions(raw.comments);
    Ok(Card(raw.question, raw.answer, raw.options, comments,
            ImageNames(raw.questionImages, q, false), ImageNames(raw.answerImages, q, true)))
  }

  // ---------------------------------------------------------------------------
  // The card loop, for any way of making records and captures
  // ---------------------------------------------------------------------------

  /**
    The records of the first n cards of a page, in container order, the card
    at position j given position base + j; the first card that fails fails
    them all.
   */
  function Records<R, C>(make: (R, nat) -> Result<C>, page: seq<R>, base: nat, n: nat): (r: Result<seq<C>>)
    requires n <= |page|
    ensures r.Ok? ==> |r.value| == n
  {
    if n == 0 then
      Ok([])
    else
      var cards :- Records(make, page, base, n - 1);
      var card :- make(page[n - 1], base + n - 1);
      Ok(cards + [card])
  }

  /** Record j is the record of card j. */
  lemma {:induction false} RecordsAt<R, C>(make: (R, nat) -> Result<C>, page: seq<R>, base: nat, n: nat, j: nat)
    requires n <= |page| && Records(make, page, base, n).Ok? && j < n
    ensures make(page[j], base + j) == Ok(Records(make, page, base, n).value[j])
  {
    if j < n - 1 {
      RecordsAt(make, page, base, n - 1, j);
    }
  }

  /** The position of the first of the first n cards whose record fails, or n. */
  function Failure<R, C>(make: (R, nat) -> Result<C>, page: seq<R>, base: nat, n: nat): (k: nat)
    requires n <= |page|
    ensures k <= n
  {
    if n == 0 then 0
    else if Failure(make, page, base, n - 1) < n - 1 then Failure(make, page, base, n - 1)
    else if make(page[n - 1], base + n - 1).Err? then n - 1
    else n
  }

  /** Every card before the failure position succeeds, and the card at it, if any, fails. */
  lemma {:induction false} FailureIs<R, C>(make: (R, nat) -> Result<C>, page: seq<R>, base: nat, n: nat)
    requires n <= |page|
    ensures forall j :: 0 <= j < Failure(make, page, base, n) ==> make(page[j], base + j).Ok?
    ensures Failure(make, page, base, n) < n ==> make(page[Failure(make, page, base, n)], base + Failure(make, page, base, n)).Err?
  {
    if n > 0 {
      FailureIs(make, page, base, n - 1);
    }
  }

  /**
    The records fail exactly when some card fails, and then with the error of
    the first card that fails.
   */
  lemma {:induction false} RecordsFailure<R, C>(make: (R, nat) -> Result<C>, page: seq<R>, base: nat, n: nat)
    requires n <= |page|
    ensures Records(make, page, base, n).Ok? <==> Failure(make, page, base, n) == n
    ensures Records(make, page, base, n).Err? ==>
      Failure(make, page, base, n) < n && make(page[Failure(make, page, base, n)], base + Failure(make, page, base, n)).Err? &&
      Records(make, page, base, n).error == make(page[Failure(make, page, base, n)], base + Failure(make, page, base, n)).error
  {
    if n > 0 {
      RecordsFailure(make, page, base, n - 1);
    }
  }

  /** How many of the first n cards are reached: up to and including the first that fails. */
  function Reached<R, C>(make: (R, nat) -> Result<C>, page: seq<R>, base: nat, n: nat): (m: nat)
    requires n <= |page|
    ensures m <= n
  {
    if Failure(make, page, base, n) < n then Failure(make, page, base, n) + 1 else n
  }

  /** The captures asked for by the first n cards of a page, in order. */
  function Gathered<R>(shots: (R, nat) -> seq<Shot>, page: seq<R>, base: nat, n: nat): seq<Shot>
    requires n <= |page|
  {
    if n == 0 then [] else Gathered(shots, page, base, n - 1) + shots(page[n - 1], base + n - 1)
  }

  /** The folder after the captures of the first m cards, card by card. */
  function Folder<R>(shots: (R, nat) -> seq<Shot>, files: map<NameParts, string>, page: seq<R>, base: nat, m: nat): map<NameParts, string>
    requires m <= |page|
  {
    if m == 0 then files else Saved(Folder(shots, files, page, base, m - 1), shots(page[m - 1], base + m - 1))
  }

  /** Saving card by card is saving all the captures in order. */
  lemma {:induction false} FolderSaved<R>(shots: (R, nat) -> seq<Shot>, files: map<NameParts, string>, page: seq<R>, base: nat, m: nat)
    requires m <= |page|
    ensures Folder(shots, files, page, base, m) == Saved(files, Gathered(shots, page, base, m))
  {
    if m > 0 {
      var earlier, last := Gathered(shots, page, base, m - 1), shots(page[m - 1], base + m - 1);
      assert Gathered(shots, page, base, m) == earlier + last;
      FolderSaved(shots, files, page, base, m - 1);
      SavedAppend(files, earlier, last);
    }
  }

  /**
    When the first j cards succeed and card j fails, the page fails with
    card j's error, card j is the first failure, and the cards reached are
    the first j + 1.
   */
  lemma {:induction false} RecordsStop<R, C>(make: (R, nat) -> Result<C>, page: seq<R>, base: nat, j: nat, n: nat)
    requires j < n <= |page|
    requires Records(make, page, base, j).Ok? && make(page[j], base + j).Err?
    ensures Records(make, page, base, n) == Err(make(page[j], base + j).error)
    ensures Failure(make, page, base, n) == j && Reached(make, page, base, n) == j + 1
  {
    if n > j + 1 {
      RecordsStop(make, page, base, j, n - 1);
    } else {
      RecordsFailure(make, page, base, j);
    }
  }

  /** When all n cards succeed, none fails and all are reached. */
  lemma RecordsAll<R, C>(make: (R, nat) -> Result<C>, page: seq<R>, base: nat, n: nat)
    requires n <= |page| && Records(make, page, base, n).Ok?
    ensures Failure(make, page, base, n) == n && Reached(make, page, base, n) == n
  {
    RecordsFailure(make, page, base, n);
  }

  // ---------------------------------------------------------------------------
  // The scraper's cards
  // ---------------------------------------------------------------------------

  /** The captures for one card: its question images, then its answer images. */
  function CardShots(raw: RawCard, q: nat): seq<Shot>
  {
    Shots(raw.questionImages, q, false) + Shots(raw.answerImages, q, true)
  }

  /**
    make is the scraper's own record function, CardOf. The loops are proved
    for such a make as an abstract function, so that their proofs do not
    look inside the ranking or the naming; the agreement is used only for
    the card in hand.
   */
  ghost predicate MakesCards(make: (RawCard, nat) -> Result<Card>) {
    forall raw, q {:trigger CardOf(raw, q)} :: make(raw, q) == CardOf(raw, q)
  }

  /** shots is the scraper's own capture function, CardShots. */
  ghost predicate ShootsCards(shots: (RawCard, nat) -> seq<Shot>) {
    forall raw, q {:trigger CardShots(raw, q)} :: shots(raw, q) == CardShots(raw, q)
  }

  /**
    The scraper's first n cards: every card before the failure position can
    be ranked, and the card at it, if any, cannot.
   */
  lemma FailureRanked(make: (RawCard, nat) -> Result<Card>, page: seq<RawCard>, base: nat, n: nat)
    requires MakesCards(make) && n <= |page|
    ensures forall j {:trigger Rankable(page[j])} :: 0 <= j < Failure(make, page, base, n) ==> Rankable(page[j])
    ensures Failure(make, page, base, n) < n ==> !Rankable(page[Failure(make, page, base, n)])
  {
    var k := Failure(make, page, base, n);
    FailureIs(make, page, base, n);
    forall j | 0 <= j < k
      ensures Rankable(page[j])
    {
      assert CardOf(page[j], base + j).Ok?;
    }
    if k < n {
      assert CardOf(page[k], base + k).Err?;
    }
  }

  /**
    The scraper's records of the first n cards are made exactly when no card
    fails, and otherwise fail with the ranking's error.
   */
  lemma RecordsRanked(make: (RawCard, nat) -> Result<Card>, page: seq<RawCard>, base: nat, n: nat)
    requires MakesCards(make) && n <= |page|
    ensures Records(make, page, base, n).Ok? <==> Failure(make, page, base, n) == n
    ensures Records(make, page, base, n).Err? ==> Records(make, page, base, n).error == IndexOutOfRange
  {
    RecordsFailure(make, page, base, n);
    if Records(make, page, base, n).Err? {
      var k := Failure(make, page, base, n);
      MadeFailure(make, page[k], base + k);
    }
  }

  /** A record the scraper fails to make fails with the ranking's error. */
  lemma MadeFailure(make: (RawCard, nat) -> Result<Card>, raw: RawCard, q: nat)
    requires MakesCards(make)
    ensures make(raw, q).Err? ==> make(raw, q).error == IndexOutOfRange
  {
    assert make(raw, q) == CardOf(raw, q);
  }

  /** The scraper's records are made exactly when every card's discussion can be ranked. */
  lemma RecordsOk(make: (RawCard, nat) -> Result<Card>, page: seq<RawCard>, base: nat, n: nat)
    requires MakesCards(make) && n <= |page|
    ensures Records(make, page, base, n).Ok? <==> forall j {:trigger Rankable(page[j])} :: 0 <= j < n ==> Rankable(page[j])
  {
    FailureRanked(make, page, base, n);
    RecordsRanked(make, page, base, n);
  }

  /** The scraper's record j is CardOf card j, named after position base + j. */
  lemma RecordsCardOf(make: (RawCard, nat) -> Result<Card>, page: seq<RawCard>, base: nat, n: nat, j: nat)
    requires MakesCards(make) && n <= |page| && Records(make, page, base, n).Ok? && j < n
    ensures CardOf(page[j], base + j) == Ok(Records(make, page, base, n).value[j])
  {
    RecordsAt(make, page, base, n, j);
  }

  /**
    A record the scraper makes for a card keeps the card's texts and options
    and names its images after the card's position q.
   */
  lemma MadeNames(make: (RawCard, nat) -> Result<Card>, raw: RawCard, q: nat, card: Card)
    requires MakesCards(make) && make(raw, q) == Ok(card)
    ensures card.question == raw.question && card.answer == raw.answer && card.options == raw.options
    ensures card.questionImages == ImageNames(raw.questionImages, q, false)
    ensures card.answerImages == ImageNames(raw.answerImages, q, true)
  {
    assert CardOf(raw, q) == Ok(card);
  }

  /**
    One pass of the card loop: saves the question's images, then the
    answer's, and returns the card's record, or the ranking's failure.
   */
  method ExtractCard(disk: Disk, raw: RawCard, q: nat, ghost make: (RawCard, nat) -> Result<Card>,
                     ghost shots: (RawCard, nat) -> seq<Shot>) returns (r: Result<Card>)
    requires MakesCards(make) && ShootsCards(shots)
    modifies disk
    ensures r == make(raw, q)
    ensures disk.files == Saved(old(disk.files), shots(raw, q))
  {
    var questionImages := ExtractImages(disk, raw.questionImages, q, false);
    var answerImages := ExtractImages(disk, raw.answerImages, q, true);
    SavedAppend(old(disk.files), Shots(raw.questionImages, q, false), Shots(raw.answerImages, q, true));
    assert disk.files == Saved(old(disk.files), CardShots(raw, q));
    var options := raw.options;
    var discussions := Discussions.ExtractDiscussions(raw.comments);
    if discussions.Err? {
      assert CardOf(raw, q) == Err(discussions.error);
      return Err(discussions.error);
    }
    r := Ok(Card(raw.question, raw.answer, options, discussions.value, questionImages, answerImages));
    assert r == CardOf(raw, q);
  }

  /** One pass of the card loop, seen from the loop: the folder, and the records or the page's failure. */
  lemma CardStep<R, C>(make: (R, nat) -> Result<C>, shots: (R, nat) -> seq<Shot>, files0: map<NameParts, string>,
                       page: seq<R>, base: nat, j: nat, cards: seq<C>,
                       before: map<NameParts, string>, after: map<NameParts, string>, card: Result<C>)
    requires j < |page| && Records(make, page, base, j) == Ok(cards) && before == Folder(shots, files0, page, base, j)
    requires card == make(page[j], base + j) && after == Saved(before, shots(page[j], base + j))
    ensures after == Folder(shots, files0, page, base, j + 1)
    ensures card.Ok? ==> Records(make, page, base, j + 1) == Ok(cards + [card.value])
    ensures card.Err? ==> Records(make, page, base, |page|) == Err(card.error)
    ensures card.Err? ==> Failure(make, page, base, |page|) == j && Reached(make, page, base, |page|) == j + 1
  {
    if card.Err? {
      RecordsStop(make, page, base, j, |page|);
    }
  }

  /**
    `extract_cards`: returns the records of the page's cards (make, that is
    CardOf, card j named after base + j), or the failure of the first card
    whose discussion cannot be ranked; saves the images of every card
    reached, that one included, in order; advances the bar once per record
    made.
   */
  method ExtractCards(disk: Disk, bar: ProgressBar, page: seq<RawCard>, base: nat,
                      ghost make: (RawCard, nat) -> Result<Card>, ghost shots: (RawCard, nat) -> seq<Shot>)
    returns (r: Result<seq<Card>>)
    requires MakesCards(make) && ShootsCards(shots)
    modifies disk, bar
    ensures r == Records(make, page, base, |page|)
    ensures disk.files == Folder(shots, old(disk.files), page, base, Reached(make, page, base, |page|))
    ensures bar.count == old(bar.count) + Failure(make, page, base, |page|)
  {
    var cards := [];
    var j := 0;
    while j < |page|
      invariant 0 <= j <= |page|
      invariant Records(make, page, base, j) == Ok(cards)
      invariant disk.files == Folder(shots, old(disk.files), page, base, j)
      invariant bar.count == old(bar.count) + j
    {
      ghost var before := disk.files;
      var card := ExtractCard(disk, page[j], base + j, make, shots);
      CardStep(make, shots, old(disk.files), page, base, j, cards, before, disk.files, card);
      if card.Err? {
        return Err(card.error);
      }
      cards := cards + [card.value];
      bar.Update(1);
      j := j + 1;
    }
    RecordsAll(make, page, base, |page|);
    r := Ok(cards);
  }

  // ---------------------------------------------------------------------------
  // Image identities
  // ---------------------------------------------------------------------------

  /**
    The scraper's captures for the first n cards of a page are for one image
    each, of the cards at positions base .. base + n - 1.
   */
  lemma {:induction false} GatheredDistinct(shots: (RawCard, nat) -> seq<Shot>, page: seq<RawCard>, base: nat, n: nat)
    requires ShootsCards(shots) && n <= |page|
    ensures DistinctImages(Gathered(shots, page, base, n))
    ensures QuestionsIn(Gathered(shots, page, base, n), base, base + n)
  {
    if n > 0 {
      var raw := page[n - 1];
      GatheredDistinct(shots, page, base, n - 1);
      CardShotsDistinct(raw, base + n - 1);
      DistinctImagesAppend(Gathered(shots, page, base, n - 1), CardShots(raw, base + n - 1), base, base + n - 1, base + n);
    }
  }

  /** The captures of one card are one per image, all for the card's own position. */
  lemma CardShotsDistinct(raw: RawCard, q: nat)
    ensures DistinctImages(CardShots(raw, q)) && QuestionsIn(CardShots(raw, q), q, q + 1)
  {
    var qs, ans := Shots(raw.questionImages, q, false), Shots(raw.answerImages, q, true);
    var all := qs + ans;
    forall k | 0 <= k < |all|
      ensures all[k].question == q
      ensures k < |qs| ==> !all[k].isAnswer && all[k].index == k
      ensures |qs| <= k ==> all[k].isAnswer && all[k].index == k - |qs|
    {
      if k < |qs| {
        ShotsAt(raw.questionImages, q, false, k);
      } else {
        ShotsAt(raw.answerImages, q, true, k - |qs|);
      }
    }
  }
}
