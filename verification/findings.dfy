/**
  Two behaviours of the page loop as written, each beside its correction.

  Image names. Every page's cards are named from position 0, so the first
  card of page 2 gets the same image names as the first card of page 1;
  the capture skips a file that already exists, so that card's record names
  a picture of page 1's image (`SharedNamesAsWritten`). Named after their
  position in the whole exam, every image gets a file of its own holding its
  own picture (`RunWidePictures`, `RunWideNamesDiffer`).

  The first test. The loop condition is evaluated once before any pass with
  the page information of the start page, so an exam of a single page (page
  1 of 1) extracts nothing (`OnePageAsWritten`). Testing only after a first
  pass, the start page is always extracted (`FirstPassExtractsStart`,
  `OnePageCorrected`).
 */
module Findings {
  import opened Strings
  import opened Outcomes
  import opened PageInfo
  import opened Images
  import opened Cards
  import opened Pagination

  // ---------------------------------------------------------------------------
  // Where a page's records and captures sit in the run's
  // ---------------------------------------------------------------------------

  /** Card j of page i has the run's record at the number of cards before page i, plus j. */
  lemma {:induction false} AllRecordsAt<R, C>(make: (R, nat) -> Result<C>, runWide: bool, pages: seq<seq<R>>, i: nat, j: nat)
    requires i < |pages| && j < |pages[i]| && AllRecords(make, runWide, pages).Ok?
    ensures Records(make, pages[i], PageBase(runWide, pages[..i]), |pages[i]|).Ok?
    ensures |Flatten(pages[..i])| + j < |AllRecords(make, runWide, pages).value|
    ensures AllRecords(make, runWide, pages).value[|Flatten(pages[..i])| + j]
         == Records(make, pages[i], PageBase(runWide, pages[..i]), |pages[i]|).value[j]
    decreases |pages|
  {
    var n := |pages| - 1;
    var earlier := pages[..n];
    var x := AllRecords(make, runWide, earlier);
    var y := Records(make, pages[n], PageBase(runWide, earlier), |pages[n]|);
    assert AllRecords(make, runWide, pages) == Concat(x, y);
    if i < n {
      assert earlier[i] == pages[i] && earlier[..i] == pages[..i];
      AllRecordsAt(make, runWide, earlier, i, j);
    } else {
      assert earlier == pages[..i];
    }
  }

  /** The captures of the first i pages come first among those of all pages. */
  lemma {:induction false} AllShotsPrefix<R>(shots: (R, nat) -> seq<Shot>, runWide: bool, pages: seq<seq<R>>, i: nat)
    requires i <= |pages|
    ensures AllShots(shots, runWide, pages[..i]) <= AllShots(shots, runWide, pages)
    decreases |pages|
  {
    if i < |pages| {
      var earlier := pages[..|pages| - 1];
      assert earlier[..i] == pages[..i];
      AllShotsPrefix(shots, runWide, earlier, i);
      var x, y := AllShots(shots, runWide, pages[..i]), AllShots(shots, runWide, earlier);
      var z := AllShots(shots, runWide, pages);
      assert y <= z;
      assert x == y[..|x|] && y == z[..|y|];
    } else {
      assert pages[..i] == pages;
    }
  }

  /** The captures of a page's first m cards come first among those of its first n. */
  lemma {:induction false} GatheredGrows<R>(shots: (R, nat) -> seq<Shot>, page: seq<R>, base: nat, m: nat, n: nat)
    requires m <= n <= |page|
    ensures Gathered(shots, page, base, m) <= Gathered(shots, page, base, n)
    decreases n
  {
    if m < n {
      GatheredGrows(shots, page, base, m, n - 1);
      var x, y := Gathered(shots, page, base, m), Gathered(shots, page, base, n - 1);
      var z := Gathered(shots, page, base, n);
      assert x == y[..|x|] && y == z[..|y|];
    }
  }

  /** The run's first capture: the first question image of the first page's first card, as image 0 of card 0. */
  lemma FirstCapture(st: Steps, pages: seq<seq<RawCard>>, runWide: bool)
    requires Scraper(st)
    requires |pages| > 0 && |pages[0]| > 0 && |pages[0][0].questionImages| > 0
    ensures |AllShots(st.shots, runWide, pages)| > 0
    ensures AllShots(st.shots, runWide, pages)[0]
         == Shot(false, 0, 0, Extension(pages[0][0].questionImages[0]), pages[0][0].questionImages[0])
  {
    var page, srcs := pages[0], pages[0][0].questionImages;
    AllShotsPrefix(st.shots, runWide, pages, 1);
    assert pages[..1][..0] == [] && pages[..1][0] == page;
    assert AllShots(st.shots, runWide, pages[..1]) == [] + Gathered(st.shots, page, 0, |page|);
    GatheredGrows(st.shots, page, 0, 1, |page|);
    assert Gathered(st.shots, page, 0, 1) == [] + st.shots(page[0], 0);
    assert st.shots(page[0], 0) == CardShots(page[0], 0);
    ShotsAt(srcs, 0, false, 0);
  }

  // ---------------------------------------------------------------------------
  // Image names
  // ---------------------------------------------------------------------------

  /** Page i of the run opens with a card whose first question image has extension e. */
  predicate OpensWithImage(pages: seq<seq<RawCard>>, i: nat, e: string) {
    i < |pages| && |pages[i]| > 0 && |pages[i][0].questionImages| > 0 &&
    Extension(pages[i][0].questionImages[0]) == e
  }

  /** The first card of page i: its record in the run, named from the page's base. */
  lemma PageOpener(st: Steps, runWide: bool, pages: seq<seq<RawCard>>, cards: seq<Card>, i: nat, e: string)
    requires Scraper(st) && AllRecords(st.make, runWide, pages) == Ok(cards) && OpensWithImage(pages, i, e)
    ensures |Flatten(pages[..i])| < |cards|
    ensures |cards[|Flatten(pages[..i])|].questionImages| > 0
    ensures cards[|Flatten(pages[..i])|].questionImages[0] == ImageName(false, PageBase(runWide, pages[..i]), 0, e)
  {
    var base := PageBase(runWide, pages[..i]);
    AllRecordsAt(st.make, runWide, pages, i, 0);
    var records := Records(st.make, pages[i], base, |pages[i]|).value;
    RecordsAt(st.make, pages[i], base, |pages[i]|, 0);
    MadeNames(st.make, pages[i][0], base, records[0]);
    ImageNamesAt(pages[i][0].questionImages, base, false, 0);
  }

  /**
    As written, when the first two pages each open with a card whose first
    question image has the same extension e, the first card of page 2 is
    given the name of the first card of page 1's image, and the folder file
    of that name holds page 1's picture.
   */
  lemma SharedNamesAsWritten(site: map<string, Page>, url: string, start: string, st: Steps, fuel: nat, e: string)
    requires Scraper(st) && Run(site, url, start, AsWritten, st, fuel).Ok?
    requires OpensWithImage(Run(site, url, start, AsWritten, st, fuel).value.pages, 0, e)
    requires OpensWithImage(Run(site, url, start, AsWritten, st, fuel).value.pages, 1, e)
    ensures var t := Run(site, url, start, AsWritten, st, fuel).value;
            |t.pages[0]| < |t.cards| && |t.cards[|t.pages[0]|].questionImages| > 0 && |t.cards[0].questionImages| > 0 &&
            t.cards[|t.pages[0]|].questionImages[0] == t.cards[0].questionImages[0] == ImageName(false, 0, 0, e)
    ensures var t := Run(site, url, start, AsWritten, st, fuel).value;
            NameParts(false, 0, 0, e) in Saved(map[], t.captured) &&
            Saved(map[], t.captured)[NameParts(false, 0, 0, e)] == t.pages[0][0].questionImages[0]
  {
    var t := Run(site, url, start, AsWritten, st, fuel).value;
    RunExtracts(site, url, start, AsWritten, st, fuel);
    PageOpener(st, false, t.pages, t.cards, 0, e);
    PageOpener(st, false, t.pages, t.cards, 1, e);
    assert t.pages[..1] == [t.pages[0]];
    assert Flatten(t.pages[..1]) == [] + t.pages[0];
    assert t.pages[..0] == [];
    FirstCapture(st, t.pages, false);
    SavedFirstWins(map[], t.captured, 0);
  }

  /**
    With run-wide names the captures are for distinct images, so each one
    saves its own picture under its own file: the folder, created empty,
    ends with every capture's file holding that capture's `src`.
   */
  lemma RunWidePictures(site: map<string, Page>, url: string, start: string, st: Steps, fuel: nat)
    requires Scraper(st) && Run(site, url, start, Corrected, st, fuel).Ok?
    ensures var t := Run(site, url, start, Corrected, st, fuel).value;
            Records(st.make, Flatten(t.pages), 0, |Flatten(t.pages)|) == Ok(t.cards)
    ensures var t := Run(site, url, start, Corrected, st, fuel).value;
            forall k :: 0 <= k < |t.captured| ==>
              FileOf(t.captured[k]) in Saved(map[], t.captured) &&
              Saved(map[], t.captured)[FileOf(t.captured[k])] == t.captured[k].src
  {
    var t := Run(site, url, start, Corrected, st, fuel).value;
    var all := Flatten(t.pages);
    RunExtracts(site, url, start, Corrected, st, fuel);
    RunWideRecords(st.make, t.pages);
    RunWideShots(st.shots, t.pages);
    GatheredDistinct(st.shots, all, 0, |all|);
    DistinctImagesFiles(t.captured);
    SavedDistinct(map[], t.captured);
  }

  /** With run-wide names, the first cards of pages 1 and 2 never share an image name. */
  lemma RunWideNamesDiffer(site: map<string, Page>, url: string, start: string, st: Steps, fuel: nat, e: string)
    requires Scraper(st) && Run(site, url, start, Corrected, st, fuel).Ok?
    requires OpensWithImage(Run(site, url, start, Corrected, st, fuel).value.pages, 0, e)
    requires OpensWithImage(Run(site, url, start, Corrected, st, fuel).value.pages, 1, e)
    ensures var t := Run(site, url, start, Corrected, st, fuel).value;
            |t.pages[0]| < |t.cards| && |t.cards[|t.pages[0]|].questionImages| > 0 && |t.cards[0].questionImages| > 0 &&
            t.cards[|t.pages[0]|].questionImages[0] != t.cards[0].questionImages[0]
  {
    var t := Run(site, url, start, Corrected, st, fuel).value;
    RunExtracts(site, url, start, Corrected, st, fuel);
    PageOpener(st, true, t.pages, t.cards, 0, e);
    PageOpener(st, true, t.pages, t.cards, 1, e);
    assert t.pages[..1] == [t.pages[0]];
    assert Flatten(t.pages[..1]) == [] + t.pages[0];
    assert t.pages[..0] == [];
    SplitExtParts(t.pages[0][0].questionImages[0]);
    if ImageName(false, |t.pages[0]|, 0, e) == ImageName(false, 0, 0, e) {
      ImageNameInjective(false, |t.pages[0]|, 0, e, false, 0, 0, e);
    }
  }

  // ---------------------------------------------------------------------------
  // The first test
  // ---------------------------------------------------------------------------

  /**
    As written, when the start page's label already reads the last page, the
    loop never runs: the run ends at once with no record and no capture,
    whatever cards the page holds.
   */
  lemma OnePageAsWritten(site: map<string, Page>, url: string, start: string, st: Steps, fuel: nat, info: Info)
    requires Scraper(st) && start in site
    requires Parse(site[start].caption) == Ok(info) && info.page >= info.total
    ensures Run(site, url, start, AsWritten, st, fuel) == Ok(Scan(start, info, [], [], [], false))
  {
  }

  /** A single-page exam of n questions, labelled page 1 of 1, items 1-n of n: as written, no card is extracted. */
  lemma OnePageExamAsWritten(site: map<string, Page>, url: string, start: string, st: Steps, fuel: nat)
    requires Scraper(st) && start in site
    requires var n := |site[start].cards|;
             site[start].caption == Decimal(1) + " " + Decimal(1) + " " + Decimal(1) + "-" + Decimal(n) + " " + Decimal(n)
    ensures Run(site, url, start, AsWritten, st, fuel).Ok?
    ensures Run(site, url, start, AsWritten, st, fuel).value.cards == []
  {
    var n := |site[start].cards|;
    ParseRange(1, 1, 1, n, n);
    OnePageAsWritten(site, url, start, st, fuel, Info(1, 1, n, 1, n, n));
  }

  /** Testing after a first pass, a run that succeeds has extracted the start page first. */
  lemma FirstPassExtractsStart(site: map<string, Page>, url: string, start: string, fixes: Fixes, st: Steps, fuel: nat)
    requires fixes.firstPass && Run(site, url, start, fixes, st, fuel).Ok?
    ensures start in site
    ensures |Run(site, url, start, fixes, st, fuel).value.pages| > 0
    ensures Run(site, url, start, fixes, st, fuel).value.pages[0] == site[start].cards
  {
    var s := Begin(site, start, fixes, st).value;
    assert Continues(s);
    CrawlStep(site, url, fixes, st, s, fuel);
    var next := Visit(site, url, fixes, st, s).value;
    assert next.pages == [site[start].cards];
    CrawlExtends(site, url, fixes, st, next, fuel - 1);
  }

  /**
    Testing after a first pass, when the start page's label already reads
    the last page, the run is exactly that one page: it succeeds exactly when
    its cards' records can all be made, and then holds those records, named
    from position 0.
   */
  lemma OnePageCorrected(site: map<string, Page>, url: string, start: string, st: Steps, fuel: nat, info: Info)
    requires Scraper(st) && start in site && fuel > 0
    requires Parse(site[start].caption) == Ok(info) && info.page >= info.total
    ensures var cards := site[start].cards;
            Run(site, url, start, Corrected, st, fuel).Ok? <==> Records(st.make, cards, 0, |cards|).Ok?
    ensures var cards := site[start].cards;
            Run(site, url, start, Corrected, st, fuel).Ok? ==>
              Run(site, url, start, Corrected, st, fuel).value.pages == [cards] &&
              Run(site, url, start, Corrected, st, fuel).value.cards == Records(st.make, cards, 0, |cards|).value
  {
    var s := Begin(site, start, Corrected, st).value;
    var page := site[start];
    var records := Records(st.make, page.cards, 0, |page.cards|);
    CrawlStep(site, url, Corrected, st, s, fuel);
    VisitIs(site, url, Corrected, st, s, page, info, records);
  }

  /** A single-page exam whose discussions can all be ranked: corrected, every card is extracted. */
  lemma OnePageExamCorrected(site: map<string, Page>, url: string, start: string, st: Steps, fuel: nat)
    requires Scraper(st) && start in site && fuel > 0
    requires var n := |site[start].cards|;
             site[start].caption == Decimal(1) + " " + Decimal(1) + " " + Decimal(1) + "-" + Decimal(n) + " " + Decimal(n)
    requires forall j :: 0 <= j < |site[start].cards| ==> Rankable(site[start].cards[j])
    ensures Run(site, url, start, Corrected, st, fuel).Ok?
    ensures |Run(site, url, start, Corrected, st, fuel).value.cards| == |site[start].cards|
  {
    var cards := site[start].cards;
    var n := |cards|;
    ParseRange(1, 1, 1, n, n);
    RecordsOk(st.make, cards, 0, n);
    OnePageCorrected(site, url, start, st, fuel, Info(1, 1, n, 1, n, n));
  }
}
