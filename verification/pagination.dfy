/**
  The page loop of `main`: after logging in and setting up the session, the
  scraper reads the page information once, opens the progress bar with the
  item count, and then, while the page number is below the page count,
  reads the page information again, appends the page's cards to the
  collection and moves to `{url}/view/{page + 1}` when there is a next page.

  The site is a map from addresses to what the browser shows there. The
  loop's pass count is bounded by a fuel argument: a site whose labels never
  reach the page count would keep the scraper going forever.

  Two corrections are modelled beside the code as written (`Fixes`):
  naming each card's images after its position in the whole exam instead
  of its position on the page, and testing the loop condition only after a
  first pass, as the earlier script does by starting from no page
  information.
 */
module Pagination {
  import opened Strings
  import opened Outcomes
  import opened PageInfo
  import opened Images
  import opened Cards

  // ---------------------------------------------------------------------------
  // Pages, one after the other
  // ---------------------------------------------------------------------------

  /** The cards of several pages, in page order. */
  function Flatten<R>(pages: seq<seq<R>>): seq<R>
  {
    if |pages| == 0 then [] else Flatten(pages[..|pages| - 1]) + pages[|pages| - 1]
  }

  /** The records of two runs of cards, the first failure winning. */
  function Concat<C>(x: Result<seq<C>>, y: Result<seq<C>>): (r: Result<seq<C>>)
    ensures r.Ok? <==> x.Ok? && y.Ok?
    ensures r.Ok? ==> r.value == x.value + y.value
    ensures r.Err? ==> r.error == (if x.Err? then x.error else y.error)
  {
    var u :- x;
    var v :- y;
    Ok(u + v)
  }

  /** The first n records of a longer page are those of its first part. */
  lemma {:induction false} RecordsPrefix<R, C>(make: (R, nat) -> Result<C>, a: seq<R>, b: seq<R>, base: nat, n: nat)
    requires n <= |a|
    ensures Records(make, a + b, base, n) == Records(make, a, base, n)
  {
    if n > 0 {
      RecordsPrefix(make, a, b, base, n - 1);
      assert (a + b)[n - 1] == a[n - 1];
    }
  }

  /**
    The records of two runs of cards read as one run: those of the first,
    then those of the second, which starts at position base + |a|.
   */
  lemma {:induction false} RecordsSplit<R, C>(make: (R, nat) -> Result<C>, a: seq<R>, b: seq<R>, base: nat, m: nat)
    requires m <= |b|
    ensures Records(make, a + b, base, |a| + m) == Concat(Records(make, a, base, |a|), Records(make, b, base + |a|, m))
  {
    if m == 0 {
      RecordsPrefix(make, a, b, base, |a|);
      var x := Records(make, a, base, |a|);
      if x.Ok? {
        assert x.value + [] == x.value;
      }
    } else {
      RecordsSplit(make, a, b, base, m - 1);
      assert (a + b)[|a| + m - 1] == b[m - 1];
      var x, y := Records(make, a, base, |a|), Records(make, b, base + |a|, m - 1);
      var card := make(b[m - 1], base + |a| + m - 1);
      if x.Ok? && y.Ok? && card.Ok? {
        assert (x.value + y.value) + [card.value] == x.value + (y.value + [card.value]);
      }
    }
  }

  /** The same for the captures. */
  lemma {:induction false} GatheredSplit<R>(shots: (R, nat) -> seq<Shot>, a: seq<R>, b: seq<R>, base: nat, m: nat)
    requires m <= |b|
    ensures Gathered(shots, a + b, base, |a| + m) == Gathered(shots, a, base, |a|) + Gathered(shots, b, base + |a|, m)
  {
    var x := Gathered(shots, a, base, |a|);
    if m == 0 {
      GatheredPrefix(shots, a, b, base, |a|);
      assert x + [] == x;
    } else {
      GatheredSplit(shots, a, b, base, m - 1);
      assert (a + b)[|a| + m - 1] == b[m - 1];
      var y, last := Gathered(shots, b, base + |a|, m - 1), shots(b[m - 1], base + |a| + m - 1);
      assert (x + y) + last == x + (y + last);
    }
  }

  lemma {:induction false} GatheredPrefix<R>(shots: (R, nat) -> seq<Shot>, a: seq<R>, b: seq<R>, base: nat, n: nat)
    requires n <= |a|
    ensures Gathered(shots, a + b, base, n) == Gathered(shots, a, base, n)
  {
    if n > 0 {
      GatheredPrefix(shots, a, b, base, n - 1);
      assert (a + b)[n - 1] == a[n - 1];
    }
  }

  /**
    Where page i's image names start: at the number of cards on the pages
    before it when names are run-wide, at 0 as written.
   */
  function PageBase<R>(runWide: bool, earlier: seq<seq<R>>): nat
  {
    if runWide then |Flatten(earlier)| else 0
  }

  /** The records of the cards of several pages, each page named from its PageBase. */
  function AllRecords<R, C>(make: (R, nat) -> Result<C>, runWide: bool, pages: seq<seq<R>>): (r: Result<seq<C>>)
    ensures r.Ok? ==> |r.value| == |Flatten(pages)|
  {
    if |pages| == 0 then
      Ok([])
    else
      var earlier, page := pages[..|pages| - 1], pages[|pages| - 1];
      Concat(AllRecords(make, runWide, earlier), Records(make, page, PageBase(runWide, earlier), |page|))
  }

  /** The captures for the cards of several pages, each page named from its PageBase. */
  function AllShots<R>(shots: (R, nat) -> seq<Shot>, runWide: bool, pages: seq<seq<R>>): seq<Shot>
  {
    if |pages| == 0 then
      []
    else
      var earlier, page := pages[..|pages| - 1], pages[|pages| - 1];
      AllShots(shots, runWide, earlier) + Gathered(shots, page, PageBase(runWide, earlier), |page|)
  }

  /** With run-wide names, the pages' records are those of one long page holding all their cards. */
  lemma {:induction false} RunWideRecords<R, C>(make: (R, nat) -> Result<C>, pages: seq<seq<R>>)
    ensures AllRecords(make, true, pages) == Records(make, Flatten(pages), 0, |Flatten(pages)|)
  {
    if |pages| > 0 {
      var earlier, page := pages[..|pages| - 1], pages[|pages| - 1];
      RunWideRecords(make, earlier);
      RecordsSplit(make, Flatten(earlier), page, 0, |page|);
    }
  }

  /** With run-wide names, the pages' captures are those of one long page holding all their cards. */
  lemma {:induction false} RunWideShots<R>(shots: (R, nat) -> seq<Shot>, pages: seq<seq<R>>)
    ensures AllShots(shots, true, pages) == Gathered(shots, Flatten(pages), 0, |Flatten(pages)|)
  {
    if |pages| > 0 {
      var earlier, page := pages[..|pages| - 1], pages[|pages| - 1];
      RunWideShots(shots, earlier);
      GatheredSplit(shots, Flatten(earlier), page, 0, |page|);
    }
  }

  // ---------------------------------------------------------------------------
  // The browser
  // ---------------------------------------------------------------------------

  /** What the browser shows at an address: the page-information label and the cards. */
  datatype Page = Page(caption: string, cards: seq<RawCard>)

  /** The page at an address; at an address the site does not serve there is none. */
  function PageAt(site: map<string, Page>, location: string): Result<Page>
  {
    if location in site then Ok(site[location]) else Err(PageNotFound)
  }

  /** Where `next_page` leaves the browser: `{url}/view/{page + 1}` when the label says there is a next page. */
  function NextLocation(url: string, info: Info, location: string): string
  {
    if info.page < info.total then url + "/view/" + Decimal(info.page + 1) else location
  }

  /**
    From a page with a next page, the browser moves to an address that
    ends in the next page's number, so different page numbers lead to
    different addresses.
   */
  lemma NextLocationDistinct(url: string, a: Info, b: Info, location: string)
    requires a.page < a.total && b.page < b.total
    ensures NextLocation(url, a, location) == NextLocation(url, b, location) <==> a.page == b.page
  {
    var prefix := url + "/view/";
    if NextLocation(url, a, location) == NextLocation(url, b, location) {
      assert (prefix + Decimal(a.page + 1))[|prefix|..] == Decimal(a.page + 1);
      assert (prefix + Decimal(b.page + 1))[|prefix|..] == Decimal(b.page + 1);
      DecimalInjective(a.page + 1, b.page + 1);
    }
  }

  /** The browser (`driver`): the site it reaches and the address it shows. */
  class Browser {
    const site: map<string, Page>
    var location: string

    constructor(site: map<string, Page>, location: string)
      ensures this.site == site && this.location == location
    {
      this.site := site;
      this.location := location;
    }

    /** The page the browser shows. */
    function Shown(): Result<Page>
      reads this
    {
      PageAt(site, location)
    }

    /** `next_page`: goes to the next page when the label says there is one, and otherwise stays. */
    method NextPage(url: string, info: Info)
      modifies this
      ensures location == NextLocation(url, info, old(location))
    {
      if info.page < info.total {
        location := url + "/view/" + Decimal(info.page + 1);
      }
    }
  }

  // ---------------------------------------------------------------------------
  // The page loop
  // ---------------------------------------------------------------------------

  /**
    How the loop names images and when it first tests its condition: as
    written (in-page positions, condition evaluated before any pass) or corrected.
   */
  datatype Fixes = Fixes(runWideNames: bool, firstPass: bool)

  const AsWritten := Fixes(false, false)
  const Corrected := Fixes(true, true)

  /**
    The scraper's pure steps: reading a page-information label, making a
    card's record, and listing a card's captures. The loop is proved for
    any steps that agree with the scraper's own (`Scraper`), as abstract
    functions, so that its proofs do not look inside them.
   */
  datatype Steps = Steps(parse: string -> Result<Info>, make: (RawCard, nat) -> Result<Card>,
                         shots: (RawCard, nat) -> seq<Shot>)

  /** st is the scraper's own: `Parse`, `CardOf` and `CardShots`. */
  ghost predicate Scraper(st: Steps) {
    (forall caption {:trigger Parse(caption)} :: st.parse(caption) == Parse(caption)) &&
    MakesCards(st.make) && ShootsCards(st.shots)
  }

  /**
    The loop's state between passes: the browser's address, the last page
    information, the records so far, the cards of each page extracted so
    far, the captures asked for so far, and whether no pass has run yet
    under the corrected test.
   */
  datatype Scan = Scan(location: string, info: Info, cards: seq<Card>, pages: seq<seq<RawCard>>,
                       captured: seq<Shot>, first: bool)

  /** The loop condition. */
  predicate Continues(s: Scan) {
    s.first || s.info.page < s.info.total
  }

  /** The position the next page's first card is named after. */
  function NextBase(fixes: Fixes, s: Scan): nat
  {
    if fixes.runWideNames then |s.cards| else 0
  }

  /**
    One pass: read the label of the page shown, extract its cards, move on.
    st holds the scraper's label parser, records and captures (`Scraper`).
   */
  function Visit(site: map<string, Page>, url: string, fixes: Fixes, st: Steps, s: Scan): Result<Scan>
  {
    var page :- PageAt(site, s.location);
    var info :- st.parse(page.caption);
    var base := NextBase(fixes, s);
    var records :- Records(st.make, page.cards, base, |page.cards|);
    Ok(Scan(NextLocation(url, info, s.location), info, s.cards + records, s.pages + [page.cards],
            s.captured + Gathered(st.shots, page.cards, base, |page.cards|), false))
  }

  /** The passes from s on, at most fuel of them. */
  function Crawl(site: map<string, Page>, url: string, fixes: Fixes, st: Steps, s: Scan, fuel: nat): Result<Scan>
    decreases fuel
  {
    if !Continues(s) then
      Ok(s)
    else if fuel == 0 then
      Err(OutOfFuel)
    else
      var next :- Visit(site, url, fixes, st, s);
      Crawl(site, url, fixes, st, next, fuel - 1)
  }

  /** `get_page_info` on the page shown at an address, with parse reading the label. */
  function ShownInfo(site: map<string, Page>, location: string, parse: string -> Result<Info>): Result<Info>
  {
    var page :- PageAt(site, location);
    parse(page.caption)
  }

  /** The state before the loop: the label of the start page read once, nothing extracted. */
  function Begin(site: map<string, Page>, start: string, fixes: Fixes, st: Steps): Result<Scan>
  {
    var info :- ShownInfo(site, start, st.parse);
    Ok(Scan(start, info, [], [], [], fixes.firstPass))
  }

  /** The whole run from the start address. */
  function Run(site: map<string, Page>, url: string, start: string, fixes: Fixes, st: Steps, fuel: nat): Result<Scan>
  {
    var s :- Begin(site, start, fixes, st);
    Crawl(site, url, fixes, st, s, fuel)
  }

  /** One pass, spelled out. */
  lemma VisitIs(site: map<string, Page>, url: string, fixes: Fixes, st: Steps, s: Scan, page: Page, info: Info, records: Result<seq<Card>>)
    requires PageAt(site, s.location) == Ok(page) && st.parse(page.caption) == Ok(info)
    requires records == Records(st.make, page.cards, NextBase(fixes, s), |page.cards|)
    ensures records.Err? ==> Visit(site, url, fixes, st, s) == Err(records.error)
    ensures records.Ok? ==>
              Visit(site, url, fixes, st, s) ==
              Ok(Scan(NextLocation(url, info, s.location), info, s.cards + records.value, s.pages + [page.cards],
                      s.captured + Gathered(st.shots, page.cards, NextBase(fixes, s), |page.cards|), false))
  {
  }

  /** The run is the passes from the state before the loop. */
  lemma RunFrom(site: map<string, Page>, url: string, start: string, fixes: Fixes, st: Steps, fuel: nat, s: Scan)
    requires Begin(site, start, fixes, st) == Ok(s)
    ensures Run(site, url, start, fixes, st, fuel) == Crawl(site, url, fixes, st, s, fuel)
  {
  }

  /** While the condition holds and fuel is left, the passes are one pass and then the rest. */
  lemma CrawlStep(site: map<string, Page>, url: string, fixes: Fixes, st: Steps, s: Scan, fuel: nat)
    requires Continues(s) && fuel > 0
    ensures Visit(site, url, fixes, st, s).Err? ==>
              Crawl(site, url, fixes, st, s, fuel) == Err(Visit(site, url, fixes, st, s).error)
    ensures Visit(site, url, fixes, st, s).Ok? ==>
              Crawl(site, url, fixes, st, s, fuel) ==
              Crawl(site, url, fixes, st, Visit(site, url, fixes, st, s).value, fuel - 1)
  {
  }

  /** After a page whose cards all succeed, the folder holds the run's captures so far, in order. */
  lemma PageFolder(make: (RawCard, nat) -> Result<Card>, shots: (RawCard, nat) -> seq<Shot>,
                   files0: map<NameParts, string>, captured: seq<Shot>, before: map<NameParts, string>,
                   after: map<NameParts, string>, cards: seq<RawCard>, base: nat)
    requires before == Saved(files0, captured) && Records(make, cards, base, |cards|).Ok?
    requires after == Folder(shots, before, cards, base, Reached(make, cards, base, |cards|))
    ensures after == Saved(files0, captured + Gathered(shots, cards, base, |cards|))
    ensures Failure(make, cards, base, |cards|) == |cards|
  {
    RecordsAll(make, cards, base, |cards|);
    FolderSaved(shots, before, cards, base, |cards|);
    SavedAppend(files0, captured, Gathered(shots, cards, base, |cards|));
  }

  /** `get_page_info(driver)`: the page information of the page shown. */
  method GetPageInfo(browser: Browser, ghost st: Steps) returns (r: Result<Info>)
    requires Scraper(st)
    ensures r == ShownInfo(browser.site, browser.location, st.parse)
  {
    var shown := browser.Shown();
    if shown.Err? {
      return Err(shown.error);
    }
    r := Parse(shown.value.caption);
  }

  /**
    One pass of the loop body: reads the label of the page shown, extracts
    its cards onto the collection and moves to the next page. It does what
    Visit says: the new page information and records, the browser's new
    address, the folder with the page's captures added, the bar advanced
    once per record; or the pass's failure.
   */
  method Pass(browser: Browser, disk: Disk, bar: ProgressBar, url: string, fixes: Fixes, cards: seq<Card>,
              ghost s: Scan, ghost files0: map<NameParts, string>,
              ghost st: Steps)
    returns (r: Result<(Info, seq<Card>)>, ghost next: Scan)
    requires Scraper(st)
    requires s.location == browser.location && s.cards == cards
    requires disk.files == Saved(files0, s.captured) && bar.count == |cards|
    modifies browser, disk, bar
    ensures r.Err? ==> Visit(browser.site, url, fixes, st, s) == Err(r.error)
    ensures r.Ok? ==> Visit(browser.site, url, fixes, st, s) == Ok(next)
    ensures r.Ok? ==> next == Scan(browser.location, r.value.0, r.value.1, next.pages, next.captured, false)
    ensures r.Ok? ==> disk.files == Saved(files0, next.captured) && bar.count == |r.value.1|
  {
    var shown := browser.Shown();
    if shown.Err? {
      return Err(shown.error), s;
    }
    var page := shown.value;
    var parsed := Parse(page.caption);
    if parsed.Err? {
      return Err(parsed.error), s;
    }
    var info := parsed.value;
    var base := if fixes.runWideNames then |cards| else 0;
    ghost var before := disk.files;
    var records := ExtractCards(disk, bar, page.cards, base, st.make, st.shots);
    VisitIs(browser.site, url, fixes, st, s, page, info, records);
    if records.Err? {
      return Err(records.error), s;
    }
    PageFolder(st.make, st.shots, files0, s.captured, before, disk.files, page.cards, base);
    browser.NextPage(url, info);
    r := Ok((info, cards + records.value));
    next := Visit(browser.site, url, fixes, st, s).value;
  }

  /**
    The `while` loop of `main`, from state s with fuel passes left: returns
    the records of the passes, or their failure, as Crawl says; the browser
    ends at the last address and the folder holds the captures.
   */
  method PageLoop(browser: Browser, disk: Disk, bar: ProgressBar, url: string, fixes: Fixes, fuel: nat,
                  info0: Info, first0: bool, ghost s0: Scan, ghost files0: map<NameParts, string>,
                  ghost st: Steps)
    returns (r: Result<seq<Card>>)
    requires Scraper(st)
    requires s0 == Scan(browser.location, info0, [], [], [], first0)
    requires disk.files == files0 && bar.count == 0
    modifies browser, disk, bar
    ensures r.Err? <==> Crawl(browser.site, url, fixes, st, s0, fuel).Err?
    ensures r.Err? ==> r.error == Crawl(browser.site, url, fixes, st, s0, fuel).error
    ensures r.Ok? ==> r.value == Crawl(browser.site, url, fixes, st, s0, fuel).value.cards
    ensures r.Ok? ==> browser.location == Crawl(browser.site, url, fixes, st, s0, fuel).value.location
    ensures r.Ok? ==> disk.files == Saved(files0, Crawl(browser.site, url, fixes, st, s0, fuel).value.captured)
    ensures r.Ok? ==> bar.count == |r.value|
  {
    var info, cards, first, left := info0, [], first0, fuel;
    ghost var s := s0;
    while first || info.page < info.total
      invariant s == Scan(browser.location, info, cards, s.pages, s.captured, first)
      invariant Crawl(browser.site, url, fixes, st, s, left) == Crawl(browser.site, url, fixes, st, s0, fuel)
      invariant disk.files == Saved(files0, s.captured)
      invariant bar.count == |cards|
      decreases left
    {
      if left == 0 {
        return Err(OutOfFuel);
      }
      var pass, next := Pass(browser, disk, bar, url, fixes, cards, s, files0, st);
      CrawlStep(browser.site, url, fixes, st, s, left);
      if pass.Err? {
        return Err(pass.error);
      }
      info, cards := pass.value.0, pass.value.1;
      first := false;
      left := left - 1;
      s := next;
    }
    r := Ok(cards);
  }

  /**
    `main` from the session's start page to the collected cards: reads the
    start page's label, opens the progress bar with the item count, then
    runs the page loop; returns the records of the run, or its failure. The
    browser ends at the run's last address and the folder holds the run's
    captures, in order.
   */
  method Scrape(browser: Browser, disk: Disk, url: string, fixes: Fixes, fuel: nat,
                ghost st: Steps)
    returns (r: Result<seq<Card>>)
    requires Scraper(st)
    modifies browser, disk
    ensures r.Err? <==> Run(browser.site, url, old(browser.location), fixes, st, fuel).Err?
    ensures r.Err? ==> r.error == Run(browser.site, url, old(browser.location), fixes, st, fuel).error
    ensures r.Ok? ==> r.value == Run(browser.site, url, old(browser.location), fixes, st, fuel).value.cards
    ensures r.Ok? ==> browser.location == Run(browser.site, url, old(browser.location), fixes, st, fuel).value.location
    ensures r.Ok? ==> disk.files == Saved(old(disk.files), Run(browser.site, url, old(browser.location), fixes, st, fuel).value.captured)
  {
    var parsed := GetPageInfo(browser, st);
    if parsed.Err? {
      return Err(parsed.error);
    }
    var info := parsed.value;
    var bar := new ProgressBar(info.totalItems);
    ghost var s := Scan(browser.location, info, [], [], [], fixes.firstPass);
    RunFrom(browser.site, url, browser.location, fixes, st, fuel, s);
    r := PageLoop(browser, disk, bar, url, fixes, fuel, info, fixes.firstPass, s, disk.files, st);
  }

  // ---------------------------------------------------------------------------
  // What a run extracts
  // ---------------------------------------------------------------------------

  /** The records and captures of a state are those of the pages it has extracted. */
  ghost predicate Consistent(st: Steps, fixes: Fixes, s: Scan) {
    AllRecords(st.make, fixes.runWideNames, s.pages) == Ok(s.cards) && AllShots(st.shots, fixes.runWideNames, s.pages) == s.captured
  }

  /** A pass extracts the page shown and keeps the state consistent. */
  lemma VisitKeeps(site: map<string, Page>, url: string, fixes: Fixes, st: Steps, s: Scan)
    requires Consistent(st, fixes, s) && Visit(site, url, fixes, st, s).Ok?
    ensures s.location in site
    ensures Visit(site, url, fixes, st, s).value.pages == s.pages + [site[s.location].cards]
    ensures Consistent(st, fixes, Visit(site, url, fixes, st, s).value)
  {
    var t := Visit(site, url, fixes, st, s).value;
    assert t.pages[..|t.pages| - 1] == s.pages;
    assert PageBase(fixes.runWideNames, s.pages) == NextBase(fixes, s);
  }

  /** The passes end, when they succeed, in a consistent state where the condition fails. */
  lemma {:induction false} CrawlKeeps(site: map<string, Page>, url: string, fixes: Fixes, st: Steps, s: Scan, fuel: nat)
    requires Consistent(st, fixes, s) && Crawl(site, url, fixes, st, s, fuel).Ok?
    ensures Consistent(st, fixes, Crawl(site, url, fixes, st, s, fuel).value)
    ensures !Continues(Crawl(site, url, fixes, st, s, fuel).value)
    decreases fuel
  {
    if Continues(s) {
      CrawlStep(site, url, fixes, st, s, fuel);
      VisitKeeps(site, url, fixes, st, s);
      CrawlKeeps(site, url, fixes, st, Visit(site, url, fixes, st, s).value, fuel - 1);
    }
  }

  /** The passes only append pages and records: what came before stays a prefix. */
  lemma {:induction false} CrawlExtends(site: map<string, Page>, url: string, fixes: Fixes, st: Steps, s: Scan, fuel: nat)
    requires Crawl(site, url, fixes, st, s, fuel).Ok?
    ensures s.pages <= Crawl(site, url, fixes, st, s, fuel).value.pages
    ensures s.cards <= Crawl(site, url, fixes, st, s, fuel).value.cards
    decreases fuel
  {
    if Continues(s) {
      CrawlStep(site, url, fixes, st, s, fuel);
      var next := Visit(site, url, fixes, st, s).value;
      assert s.pages <= next.pages && s.cards <= next.cards;
      CrawlExtends(site, url, fixes, st, next, fuel - 1);
    }
  }

  /**
    A run that succeeds returns the records of the pages it extracted, in
    page order, each page named from its PageBase; the folder receives
    their captures, in order; and the loop stopped because the last label
    read has the page number at or past the page count.
   */
  lemma RunExtracts(site: map<string, Page>, url: string, start: string, fixes: Fixes,
                    st: Steps, fuel: nat)
    requires Run(site, url, start, fixes, st, fuel).Ok?
    ensures AllRecords(st.make, fixes.runWideNames, Run(site, url, start, fixes, st, fuel).value.pages)
         == Ok(Run(site, url, start, fixes, st, fuel).value.cards)
    ensures AllShots(st.shots, fixes.runWideNames, Run(site, url, start, fixes, st, fuel).value.pages)
         == Run(site, url, start, fixes, st, fuel).value.captured
    ensures Run(site, url, start, fixes, st, fuel).value.info.page >= Run(site, url, start, fixes, st, fuel).value.info.total
  {
    var s := Begin(site, start, fixes, st).value;
    assert AllRecords(st.make, fixes.runWideNames, s.pages) == Ok([]);
    CrawlKeeps(site, url, fixes, st, s, fuel);
  }
}
