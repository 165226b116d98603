/**
  The earlier scraper at the repository's root (`exams2anki.py`). It reads
  the same pages, with these differences from the scraper under `src/`:
  the page-information label needs five numbers and its record has no page
  size; comment texts lose their line breaks instead of having them turned
  into spaces; cards carry no images; the extraction loop ends after its
  first pass (`break`, the call to `next_page` being commented out); the
  title is read from the page; the note type has four fields, nothing is
  unescaped, and the package file is the title as it is, with `.apkg`.
 */
module RootScript {
  import opened Strings
  import opened Outcomes
  import opened PageInfo
  import opened Cards
  import Discussions
  import opened Deck
  import opened Pagination

  // ---------------------------------------------------------------------------
  // Page information and the next page
  // ---------------------------------------------------------------------------

  /** The record of the root script's `get_page_info`. */
  datatype RootInfo = RootInfo(page: nat, total: nat, minItem: nat, maxItem: nat, totalItems: nat)

  /**
    `get_page_info`: a label with fewer than five numbers raises the
    ValueError "Failed to collect page information!"; otherwise the record
    of the first five.
   */
  function RootParse(caption: string): (r: Result<RootInfo>)
    ensures r.Ok? <==> |Digits(caption)| >= 5
    ensures r.Err? ==> r.error == NoPageInformation
    ensures r.Ok? ==>
      [r.value.page, r.value.total, r.value.minItem, r.value.maxItem, r.value.totalItems] == Digits(caption)[..5]
  {
    var d := Digits(caption);
    if |d| < 5 then Err(NoPageInformation) else Ok(RootInfo(d[0], d[1], d[2], d[3], d[4]))
  }

  /**
    Both scripts accept the same labels and read the same five numbers from
    them; they differ on the labels with one to four numbers, which the
    root script reports as missing page information and the scraper under
    `src/` as a failed subscript.
   */
  lemma RootParseAgrees(caption: string)
    ensures RootParse(caption).Ok? <==> Parse(caption).Ok?
    ensures RootParse(caption).Ok? ==>
      var a, b := RootParse(caption).value, Parse(caption).value;
      a == RootInfo(b.page, b.total, b.minItem, b.maxItem, b.totalItems)
    ensures 1 <= |Digits(caption)| < 5 ==>
      RootParse(caption) == Err(NoPageInformation) && Parse(caption) == Err(IndexOutOfRange)
  {
  }

  /** `next_page(driver, page_info)`: the address of the next page when the label says there is one. */
  function RootNextLocation(url: string, info: RootInfo, location: string): (l: string)
    ensures info.page >= info.total ==> l == location
  {
    if info.page < info.total then url + "/view/" + Decimal(info.page + 1) else location
  }

  /** The root script's `next_page` goes where the scraper's goes. */
  lemma RootNextLocationAgrees(url: string, info: Info, location: string)
    ensures RootNextLocation(url, RootInfo(info.page, info.total, info.minItem, info.maxItem, info.totalItems), location)
         == NextLocation(url, info, location)
  {
  }

  // ---------------------------------------------------------------------------
  // Discussions and cards
  // ---------------------------------------------------------------------------

  /** `extract_discussions(card)`: as the scraper's, but line breaks are deleted. */
  function RootDiscussions(raws: seq<Discussions.RawComment>): Result<seq<Discussions.Comment>>
  {
    Discussions.Extract(raws, "")
  }

  /**
    The ranking fails, with the subscript's error, exactly when an upvote
    label holds no number; otherwise it keeps min(5, n) comments, most
    upvoted first, each without line breaks or surrounding whitespace.
   */
  lemma RootDiscussionsRanked(raws: seq<Discussions.RawComment>)
    ensures RootDiscussions(raws).Ok? <==>
      forall i :: 0 <= i < |raws| ==> Discussions.Upvotes(raws[i].upvoteText).Ok?
    ensures RootDiscussions(raws).Err? ==> RootDiscussions(raws).error == IndexOutOfRange
    ensures RootDiscussions(raws).Ok? ==>
      var cs := RootDiscussions(raws).value;
      |cs| == Discussions.Min(Discussions.Kept, |raws|) && Discussions.NonIncreasing(cs) &&
      forall i :: 0 <= i < |cs| ==> '\n' !in cs[i].text && (cs[i].text == [] || (!IsSpace(cs[i].text[0]) && !IsSpace(cs[i].text[|cs[i].text| - 1])))
  {
    Discussions.ExtractFailure(raws, "");
    if RootDiscussions(raws).Ok? {
      Discussions.ExtractRanked(raws, "");
    }
  }

  /** A record of the root script: question, options, answer and ranked comments. */
  datatype RootCard = RootCard(question: string, options: seq<string>, answer: string,
                               comments: seq<Discussions.Comment>)

  /** The ranking of one card's discussion, `extract_discussions` in the root script. */
  type Ranking = seq<Discussions.RawComment> -> Result<seq<Discussions.Comment>>

  /**
    `[extract_discussions(card) for card in cards]` with the ranking as
    rank: the first card whose ranking fails fails them all.
   */
  function AllDiscussions(rank: Ranking, raws: seq<RawCard>): (r: Result<seq<seq<Discussions.Comment>>>)
    ensures r.Ok? ==> |r.value| == |raws|
  {
    if |raws| == 0 then
      Ok([])
    else
      var ds :- AllDiscussions(rank, raws[..|raws| - 1]);
      var d :- rank(raws[|raws| - 1].comments);
      Ok(ds + [d])
  }

  /**
    The rankings are made exactly when every card's can be, ranking i is
    that of card i, and a failure is the failure of some card's ranking.
   */
  lemma {:induction false} AllDiscussionsAt(rank: Ranking, raws: seq<RawCard>)
    ensures AllDiscussions(rank, raws).Ok? <==> forall i :: 0 <= i < |raws| ==> rank(raws[i].comments).Ok?
    ensures AllDiscussions(rank, raws).Ok? ==>
      forall i :: 0 <= i < |raws| ==> rank(raws[i].comments) == Ok(AllDiscussions(rank, raws).value[i])
    ensures AllDiscussions(rank, raws).Err? ==>
      exists i :: 0 <= i < |raws| && rank(raws[i].comments) == Err(AllDiscussions(rank, raws).error)
  {
    if |raws| > 0 {
      var n := |raws| - 1;
      var init := raws[..n];
      AllDiscussionsAt(rank, init);
      assert forall i :: 0 <= i < n ==> init[i] == raws[i];
    }
  }

  /**
    `exract_cards(driver)`: the questions, options, answers and rankings
    read as parallel lists, checked for equal length, and zipped.
   */
  function RootCards(raws: seq<RawCard>): Result<seq<RootCard>>
  {
    var questions := seq(|raws|, i requires 0 <= i < |raws| => raws[i].question);
    var options := seq(|raws|, i requires 0 <= i < |raws| => raws[i].options);
    var answers := seq(|raws|, i requires 0 <= i < |raws| => raws[i].answer);
    var discussions :- AllDiscussions(RootDiscussions, raws);
    if |questions| != |options| || |options| != |answers| || |answers| != |discussions| then
      Err(InconsistentLengths)
    else
      Ok(seq(|questions|, i requires 0 <= i < |questions| =>
        RootCard(questions[i], options[i], answers[i], discussions[i])))
  }

  /**
    The records are made exactly when every card's discussion can be
    ranked, the length check never failing; record i combines the question,
    options and answer of card i with the ranking of its discussion.
   */
  lemma RootCardsAt(raws: seq<RawCard>)
    ensures RootCards(raws).Ok? <==>
      forall i :: 0 <= i < |raws| ==> RootDiscussions(raws[i].comments).Ok?
    ensures RootCards(raws).Err? ==> RootCards(raws).error == IndexOutOfRange
    ensures RootCards(raws).Ok? ==> |RootCards(raws).value| == |raws|
    ensures RootCards(raws).Ok? ==>
      forall i :: 0 <= i < |raws| ==>
        RootDiscussions(raws[i].comments).Ok? &&
        RootCards(raws).value[i] ==
          RootCard(raws[i].question, raws[i].options, raws[i].answer, RootDiscussions(raws[i].comments).value)
  {
    AllDiscussionsAt(RootDiscussions, raws);
    var all := AllDiscussions(RootDiscussions, raws);
    if all.Err? {
      var i :| 0 <= i < |raws| && RootDiscussions(raws[i].comments) == Err(all.error);
      Discussions.ExtractFailure(raws[i].comments, "");
    }
  }

  // ---------------------------------------------------------------------------
  // The extraction loop
  // ---------------------------------------------------------------------------

  /** What the root script extracts from the page shown at start: the label's record and the page's records. */
  function RootRun(site: map<string, Page>, start: string): Result<(RootInfo, seq<RootCard>)>
  {
    var page :- PageAt(site, start);
    var info :- RootParse(page.caption);
    var cards :- RootCards(page.cards);
    Ok((info, cards))
  }

  /**
    Whatever the label says of the pages after it, the root script extracts
    the start page only: one record per card of that page.
   */
  lemma RootRunOnePage(site: map<string, Page>, start: string)
    ensures RootRun(site, start).Ok? <==>
      start in site && |Digits(site[start].caption)| >= 5 &&
      forall i :: 0 <= i < |site[start].cards| ==> Rankable(site[start].cards[i])
    ensures RootRun(site, start).Ok? ==> |RootRun(site, start).value.1| == |site[start].cards|
  {
    if start in site {
      var cards := site[start].cards;
      RootCardsAt(cards);
      forall i | 0 <= i < |cards|
        ensures Rankable(cards[i]) <==> RootDiscussions(cards[i].comments).Ok?
      {
        Discussions.ExtractFailure(cards[i].comments, "");
        Discussions.UpvoteCountsOk(cards[i].comments);
      }
    }
  }

  /** The guard of the root script's loop: no label read yet, or one that says a page follows. */
  predicate MorePages(info: Option<RootInfo>)
  {
    info.None? || info.value.page < info.value.total
  }

  /**
    The `while` loop of the root script: the page information starts as
    None, so the body runs; it reads the label, appends the page's records
    and leaves with `break`, written here as the flag left, which the guard
    tests first. passes counts the passes: always one.
   */
  method RootExtract(browser: Browser) returns (r: Result<seq<RootCard>>, passes: nat)
    ensures passes == 1
    ensures r.Err? <==> RootRun(browser.site, browser.location).Err?
    ensures r.Err? ==> r.error == RootRun(browser.site, browser.location).error
    ensures r.Ok? ==> r.value == RootRun(browser.site, browser.location).value.1
  {
    var cards: seq<RootCard> := [];
    var pageInfo: Option<RootInfo> := None;
    var left := false;
    passes := 0;
    while !left && MorePages(pageInfo)
      invariant !left ==> pageInfo.None? && cards == [] && passes == 0
      invariant left ==> pageInfo.Some? && passes == 1
      invariant left ==> RootRun(browser.site, browser.location) == Ok((pageInfo.value, cards))
      decreases if left then 0 else 1
    {
      passes := passes + 1;
      var shown := browser.Shown();
      if shown.Err? {
        return Err(shown.error), passes;
      }
      var parsed := RootParse(shown.value.caption);
      if parsed.Err? {
        return Err(parsed.error), passes;
      }
      pageInfo := Some(parsed.value);
      var records := RootCards(shown.value.cards);
      if records.Err? {
        return Err(records.error), passes;
      }
      assert cards + records.value == records.value;
      cards := cards + records.value;
      left := true;
    }
    r := Ok(cards);
  }

  // ---------------------------------------------------------------------------
  // Title and deck
  // ---------------------------------------------------------------------------

  /** `get_exam_title(driver)`: the page's title without "Exam Actual Questions", stripped. */
  function RootExamTitle(text: string): (t: string)
    ensures |t| <= |text|
  {
    Strip(RemoveAll(text, "Exam Actual Questions"))
  }

  /**
    The title has no whitespace at either end, and a title that is already
    stripped and does not hold the phrase is kept as it is.
   */
  lemma RootExamTitleTrimmed(text: string)
    ensures RootExamTitle(text) == [] ||
      (!IsSpace(RootExamTitle(text)[0]) && !IsSpace(RootExamTitle(text)[|RootExamTitle(text)| - 1]))
    ensures !Occurs("Exam Actual Questions", text) && (text == [] || (!IsSpace(text[0]) && !IsSpace(text[|text| - 1]))) ==>
      RootExamTitle(text) == text
  {
    var removed := RemoveAll(text, "Exam Actual Questions");
    StripTrimmed(removed);
    if !Occurs("Exam Actual Questions", text) && (text == [] || (!IsSpace(text[0]) && !IsSpace(text[|text| - 1]))) {
      RemoveAllAbsent(text, "Exam Actual Questions");
      StripKeepsTrimmed(text);
    }
  }

  /**
    The phrase is removed: its first occurrence goes, with the text before
    it kept and the removal going on after it, and then the whole is
    stripped.
   */
  lemma RootExamTitleRemoves(a: string, b: string)
    requires forall i :: 0 <= i < |a| ==> !OccursAt("Exam Actual Questions", a + "Exam Actual Questions" + b, i)
    ensures RootExamTitle(a + "Exam Actual Questions" + b) == Strip(a + RemoveAll(b, "Exam Actual Questions"))
  {
    RemoveAllFirst(a, "Exam Actual Questions", b);
  }

  /** A page titled "AWS Exam Actual Questions " gives the deck the title "AWS". */
  lemma RootExamTitleOfPage()
    ensures RootExamTitle("AWS Exam Actual Questions ") == "AWS"
  {
    var phrase := "Exam Actual Questions";
    assert "AWS Exam Actual Questions " == "AWS " + phrase + " ";
    PhraseAfterPrefix();
    RootExamTitleRemoves("AWS ", " ");
    assert RemoveAll(" ", phrase) == " ";
    assert "AWS " + " " == "AWS  ";
    StripOfPrefix();
  }

  /** The phrase does not start within "AWS ". */
  lemma PhraseAfterPrefix()
    ensures forall i :: 0 <= i < 4 ==>
      !OccursAt("Exam Actual Questions", "AWS " + "Exam Actual Questions" + " ", i)
  {
    var phrase := "Exam Actual Questions";
    var s := "AWS " + phrase + " ";
    forall i | 0 <= i < 4
      ensures !OccursAt(phrase, s, i)
    {
      assert s[i] == "AWS "[i] && phrase[0] == 'E';
      assert s[i..i + |phrase|][0] == s[i];
    }
  }

  /** Stripping "AWS  " gives "AWS". */
  lemma StripOfPrefix()
    ensures Strip("AWS  ") == "AWS"
  {
    var t := "AWS  ";
    assert LeadingSpaces(t) == 0 by { assert !IsSpace(t[0]); }
    assert TrailingSpaces(t) == 2 by {
      assert t[..4] == "AWS " && t[..4][..3] == "AWS";
      assert TrailingSpaces("AWS") == 0 by { assert !IsSpace("AWS"[2]); }
    }
    assert t[0..] == t;
  }

  /** The fields of the root script's note type, in order. */
  const RootFieldNames := ["Question", "Options", "Answer", "Comments"]

  /** `create_model(template)`: the four-field `ExamTopics` note type. */
  function RootCreateModel(id: nat, template: Template): (m: Model)
    ensures m.id == id && |m.fields| == 4
    ensures |m.templates| == 1 && m.templates[0].qfmt == template.front && m.templates[0].afmt == template.back
  {
    Model(id, "ExamTopics", RootFieldNames, [CardTemplate("ExamTopics", template.front, template.back)], template.style)
  }

  /** `create_note(model, ...)`: the texts as read, options and comments dumped as JSON. */
  function RootCreateNote(model: Model, card: RootCard): (n: Note)
    ensures n.modelId == model.id && |n.fields| == |RootFieldNames|
  {
    Note(model.id, [Text(card.question, false), OptionList(card.options, false), Text(card.answer, false),
                    CommentList(card.comments, false)])
  }

  /** Reads a record back out of a note laid out as the root script's `create_note` lays it out. */
  function RootNoteCard(n: Note): Option<RootCard>
  {
    if |n.fields| != 4 then None
    else
      match (n.fields[0], n.fields[1], n.fields[2], n.fields[3])
      case (Text(q, false), OptionList(o, false), Text(a, false), CommentList(c, false)) => Some(RootCard(q, o, a, c))
      case _ => None
  }

  /** A root note holds all of its record and fits the four-field note type. */
  lemma RootNoteRoundTrip(id: nat, template: Template, card: RootCard)
    ensures RootNoteCard(RootCreateNote(RootCreateModel(id, template), card)) == Some(card)
    ensures |RootCreateNote(RootCreateModel(id, template), card).fields| == |RootCreateModel(id, template).fields|
  {
  }

  /** The notes of the records, in order. */
  function RootNotes(model: Model, cards: seq<RootCard>): (r: seq<Note>)
    ensures |r| == |cards|
  {
    seq(|cards|, i requires 0 <= i < |cards| => RootCreateNote(model, cards[i]))
  }

  /**
    `generate_deck(title, description, cards)`: a deck named title with one
    four-field note per record, in order, no media, written to the title as
    it is with `.apkg`, forbidden characters included.
   */
  method RootGenerateDeck(title: string, description: string, cards: seq<RootCard>, template: Template,
                          deckDraw: nat, modelDraw: nat)
    returns (r: Apkg)
    requires deckDraw < IdHigh - IdLow && modelDraw < IdHigh - IdLow
    ensures r.file == title + ".apkg" && r.media == []
    ensures r.deckName == title && r.description == description && IdLow <= r.deckId < IdHigh
    ensures r.deckId == AnkiId(deckDraw)
    ensures r.notes == RootNotes(RootCreateModel(AnkiId(modelDraw), template), cards)
  {
    var deck := new AnkiDeck(AnkiId(deckDraw), title, description);
    var model := RootCreateModel(AnkiId(modelDraw), template);
    for i := 0 to |cards|
      invariant deck.notes == RootNotes(model, cards[..i])
    {
      deck.AddNote(RootCreateNote(model, cards[i]));
    }
    assert cards[..|cards|] == cards;
    var package := new Package(deck);
    r := package.WriteToFile(title + ".apkg");
  }
}
