/**
  The deck builder (`generate_deck`, `create_model`, `create_note`) and the
  deck's title (`get_exam_title`): one note per card in card order, the
  images of every card, question images first, as media paths in the images
  folder, and a package file named after the title with the characters a
  file name cannot hold removed.

  The note fields are kept as what goes into them: `html.unescape` and
  `json.dumps` are library calls this model does not look inside, so a
  field records the text or list handed to them and whether it was
  unescaped.
 */
module Deck {
  import opened Strings
  import opened Outcomes
  import opened Images
  import opened Cards
  import Discussions

  // ---------------------------------------------------------------------------
  // Identifiers
  // ---------------------------------------------------------------------------

  /** `1 << 30` and `1 << 31`, the range of `generate_anki_id`. */
  const IdLow: nat := 0x4000_0000
  const IdHigh: nat := 0x8000_0000

  /**
    `generate_anki_id()`: `random.randrange(1 << 30, 1 << 31)`, the draw
    given as its offset from the lower end.
   */
  function AnkiId(offset: nat): (id: nat)
    requires offset < IdHigh - IdLow
    ensures IdLow <= id < IdHigh
  {
    IdLow + offset
  }

  /** Every identifier of the range can be drawn, by exactly one offset. */
  lemma AnkiIdRange(id: nat, offset: nat)
    requires offset < IdHigh - IdLow
    ensures IdLow <= id < IdHigh ==> AnkiId(id - IdLow) == id
    ensures AnkiId(offset) == id <==> offset == id - IdLow
  {
  }

  // ---------------------------------------------------------------------------
  // The note type and the notes
  // ---------------------------------------------------------------------------

  /** The card templates read from the template folder: front, back and style sheet. */
  datatype Template = Template(front: string, back: string, style: string)

  datatype CardTemplate = CardTemplate(name: string, qfmt: string, afmt: string)

  /** A note type (`genanki.Model`): identifier, name, field names, card templates, style sheet. */
  datatype Model = Model(id: nat, name: string, fields: seq<string>, templates: seq<CardTemplate>, css: string)

  /** The fields of the `ExamTopics` note type, in order. */
  const FieldNames := ["Question", "Question Images", "Options", "Answer", "Answer Images", "Comments"]

  /** `create_model(template)`: the `ExamTopics` note type, with one card template from the template folder. */
  function CreateModel(id: nat, template: Template): (m: Model)
    ensures m.id == id && |m.fields| == 6
    ensures |m.templates| == 1 && m.templates[0].qfmt == template.front && m.templates[0].afmt == template.back
  {
    Model(id, "ExamTopics", FieldNames, [CardTemplate("ExamTopics", template.front, template.back)], template.style)
  }

  /**
    What a note field is given: a text, or a list dumped as JSON (image
    names, options, comments); `unescaped` says whether `html.unescape` is
    applied to the text or to each option and comment text.
   */
  datatype FieldValue =
    | Text(text: string, unescaped: bool)
    | NameList(names: seq<string>)
    | OptionList(options: seq<string>, unescaped: bool)
    | CommentList(comments: seq<Discussions.Comment>, unescaped: bool)

  /** A note (`genanki.Note`): the identifier of its note type and its fields. */
  datatype Note = Note(modelId: nat, fields: seq<FieldValue>)

  /** `create_note(model, ...)`: the note of one card, a value for each field of the note type. */
  function CreateNote(model: Model, card: Card): (n: Note)
    ensures n.modelId == model.id && |n.fields| == |FieldNames|
  {
    Note(model.id, [Text(card.question, true), NameList(card.questionImages), OptionList(card.options, true),
                    Text(card.answer, true), NameList(card.answerImages), CommentList(card.comments, true)])
  }

  /** Reads a card back out of a note laid out as `create_note` lays it out. */
  function NoteCard(n: Note): Option<Card>
  {
    if |n.fields| != 6 then None
    else
      match (n.fields[0], n.fields[1], n.fields[2], n.fields[3], n.fields[4], n.fields[5])
      case (Text(q, true), NameList(qi), OptionList(o, true), Text(a, true), NameList(ai), CommentList(c, true)) =>
        Some(Card(q, a, o, c, qi, ai))
      case _ => None
  }

  /** A note holds all of its card, each part in the field of its name: the card reads back unchanged. */
  lemma NoteRoundTrip(model: Model, card: Card)
    ensures NoteCard(CreateNote(model, card)) == Some(card)
  {
  }

  /** The notes of the cards, in card order. */
  function Notes(model: Model, cards: seq<Card>): (r: seq<Note>)
    ensures |r| == |cards|
  {
    seq(|cards|, i requires 0 <= i < |cards| => CreateNote(model, cards[i]))
  }

  /** Every note fits the note type: its identifier and one value per field, and note i reads back as card i. */
  lemma NotesFitModel(id: nat, template: Template, cards: seq<Card>)
    ensures var m := CreateModel(id, template);
      forall i :: 0 <= i < |cards| ==>
        Notes(m, cards)[i].modelId == m.id && |Notes(m, cards)[i].fields| == |m.fields| &&
        NoteCard(Notes(m, cards)[i]) == Some(cards[i])
  {
    var m := CreateModel(id, template);
    forall i | 0 <= i < |cards|
      ensures NoteCard(Notes(m, cards)[i]) == Some(cards[i])
    {
      NoteRoundTrip(m, cards[i]);
    }
  }

  // ---------------------------------------------------------------------------
  // Media
  // ---------------------------------------------------------------------------

  /** The names joined to the images folder, in order. */
  function Joined(folder: string, names: seq<string>): (r: seq<string>)
    ensures |r| == |names|
  {
    seq(|names|, i requires 0 <= i < |names| => JoinPath(folder, names[i]))
  }

  /** The image names of the cards: per card its question images, then its answer images. */
  function ImageFiles(cards: seq<Card>): seq<string>
  {
    if |cards| == 0 then [] else
      var last := cards[|cards| - 1];
      ImageFiles(cards[..|cards| - 1]) + last.questionImages + last.answerImages
  }

  /** The media paths of the cards, as the card loop extends them. */
  function Media(folder: string, cards: seq<Card>): seq<string>
  {
    if |cards| == 0 then [] else
      var last := cards[|cards| - 1];
      Media(folder, cards[..|cards| - 1]) + Joined(folder, last.questionImages) + Joined(folder, last.answerImages)
  }

  /** The media of two runs of cards are those of the first then those of the second: nothing is merged. */
  lemma {:induction false} MediaAppend(folder: string, a: seq<Card>, b: seq<Card>)
    ensures Media(folder, a + b) == Media(folder, a) + Media(folder, b)
  {
    if |b| == 0 {
      assert a + b == a;
    } else {
      var n := |b| - 1;
      assert (a + b)[..|a + b| - 1] == a + b[..n];
      assert (a + b)[|a + b| - 1] == b[n];
      var q, x := Joined(folder, b[n].questionImages), Joined(folder, b[n].answerImages);
      assert Media(folder, a + b) == Media(folder, a + b[..n]) + q + x;
      assert Media(folder, b) == Media(folder, b[..n]) + q + x;
      MediaAppend(folder, a, b[..n]);
      assert Media(folder, a) + Media(folder, b[..n]) + q + x == Media(folder, a) + (Media(folder, b[..n]) + q + x);
    }
  }

  /** Names without slashes: each is a file name. */
  predicate FileNames(names: seq<string>) {
    forall i :: 0 <= i < |names| ==> '/' !in names[i]
  }

  /**
    Each media path is the folder joined with the image name at the same
    position: with file names as image names, the base names of the media
    are the cards' image names, in order, duplicates kept.
   */
  lemma {:induction false} MediaNames(folder: string, cards: seq<Card>)
    requires FileNames(ImageFiles(cards))
    ensures |Media(folder, cards)| == |ImageFiles(cards)|
    ensures forall k :: 0 <= k < |ImageFiles(cards)| ==>
      Media(folder, cards)[k] == JoinPath(folder, ImageFiles(cards)[k]) &&
      BaseName(Media(folder, cards)[k]) == ImageFiles(cards)[k]
  {
    if |cards| > 0 {
      var init, last := cards[..|cards| - 1], cards[|cards| - 1];
      var names, media := ImageFiles(cards), Media(folder, cards);
      var tail := last.questionImages + last.answerImages;
      assert names == ImageFiles(init) + tail;
      assert media == Media(folder, init) + (Joined(folder, last.questionImages) + Joined(folder, last.answerImages));
      assert FileNames(ImageFiles(init)) by {
        assert forall i :: 0 <= i < |ImageFiles(init)| ==> ImageFiles(init)[i] == names[i];
      }
      MediaNames(folder, init);
      var m := |ImageFiles(init)|;
      forall k | 0 <= k < |names|
        ensures media[k] == JoinPath(folder, names[k]) && BaseName(media[k]) == names[k]
      {
        if k >= m {
          assert names[k] == tail[k - m];
        }
        BaseNameOfJoin(folder, names[k]);
      }
    }
  }

  // ---------------------------------------------------------------------------
  // File name and title
  // ---------------------------------------------------------------------------

  /** The characters `re.sub(r'[\\/:*?"<>|]', '', title)` removes. */
  const Forbidden: set<char> := {'\\', '/', ':', '*', '?', '"', '<', '>', '|'}

  /** The title with every forbidden character removed. */
  function Sanitize(title: string): string
  {
    RemoveChars(title, Forbidden)
  }

  /**
    Sanitising works character by character: a forbidden character is
    dropped, any other kept, and the pieces of a title are sanitised apart.
   */
  lemma SanitizeChars(a: string, b: string, c: char)
    ensures Sanitize([c]) == if c in Forbidden then [] else [c]
    ensures Sanitize(a + b) == Sanitize(a) + Sanitize(b)
  {
    RemoveCharsAppend(a, b, Forbidden);
    assert [c][1..] == [];
  }

  /** A sanitised title holds no forbidden character, and sanitising it again changes nothing. */
  lemma SanitizeIdempotent(title: string)
    ensures forall i :: 0 <= i < |Sanitize(title)| ==> Sanitize(title)[i] !in Forbidden
    ensures Sanitize(Sanitize(title)) == Sanitize(title)
  {
  }

  /** The package file: the sanitised title with the `.apkg` extension. */
  function PackageFile(title: string): (f: string)
    ensures forall i :: 0 <= i < |f| ==> f[i] !in Forbidden
  {
    Sanitize(title) + ".apkg"
  }

  /**
    Whatever the title, the package file name has no directory part: it is
    its own base name, so the package is written where the scraper runs.
   */
  lemma PackageFileHere(title: string)
    ensures BaseName(PackageFile(title)) == PackageFile(title)
  {
    var f := PackageFile(title);
    assert '/' !in f by {
      assert forall i :: 0 <= i < |f| ==> f[i] != '/';
    }
    BaseNameOfJoin("", f);
  }

  /**
    `get_exam_title(provider, exam)`: the deck path "ExamTopics", provider,
    exam, separated by "::", the provider capitalised and the exam's words,
    hyphens made spaces, in title case.
   */
  function ExamTitle(provider: string, exam: string): (t: string)
    ensures |t| == 14 + |provider| + |exam|
  {
    "ExamTopics" + "::" + Capitalize(provider) + "::" + Title(ReplaceChar(exam, '-', " "))
  }

  /**
    The title reads as a three-level deck path: split on ':' it gives
    "ExamTopics", the capitalised provider and the exam in title case, with
    empty pieces between the colons of each "::", as long as neither
    argument holds a colon; the exam part holds no hyphen.
   */
  lemma ExamTitleParts(provider: string, exam: string)
    requires ':' !in provider && ':' !in exam
    ensures Split(ExamTitle(provider, exam), ':') ==
      ["ExamTopics", "", Capitalize(provider), "", Title(ReplaceChar(exam, '-', " "))]
    ensures '-' !in Title(ReplaceChar(exam, '-', " "))
  {
    var r := ReplaceChar(exam, '-', " ");
    var p, e := Capitalize(provider), Title(r);
    ReplaceCharRemoves(exam, '-', " ");
    ReplaceCharKeepsOut(exam, '-', " ", ':');
    CaseKeepsOut(provider, ':');
    CaseKeepsOut(r, ':');
    CaseKeepsOut(r, '-');
    DeckPath(p, e);
  }

  /** A three-level deck path below "ExamTopics" splits into its levels, empty pieces between the colons. */
  lemma DeckPath(p: string, e: string)
    requires ':' !in p && ':' !in e
    ensures Split("ExamTopics" + "::" + p + "::" + e, ':') == ["ExamTopics", "", p, "", e]
  {
    SplitWithoutSeparator(e, ':');
    SplitAtDoubleColon(p, e);
    SplitAtDoubleColon("ExamTopics", p + "::" + e);
    assert "ExamTopics" + "::" + p + "::" + e == "ExamTopics" + "::" + (p + "::" + e);
  }

  /** Splitting on ':' at a "::" after a colon-free piece gives the piece, an empty piece, then the rest's pieces. */
  lemma SplitAtDoubleColon(a: string, b: string)
    requires ':' !in a
    ensures Split(a + "::" + b, ':') == [a, ""] + Split(b, ':')
  {
    var c := "" + [':'] + b;
    assert c == [':'] + b;
    assert a + "::" + b == a + [':'] + c;
    SplitAppend(a, c, ':');
    SplitAppend("", b, ':');
    SplitWithoutSeparator(a, ':');
    assert Split("", ':') == [""];
  }

  // ---------------------------------------------------------------------------
  // The deck and the package
  // ---------------------------------------------------------------------------

  /** A deck (`genanki.Deck`): identifier, name, description, and the notes added so far. */
  class AnkiDeck {
    const id: nat
    const name: string
    const description: string
    var notes: seq<Note>

    constructor(id: nat, name: string, description: string)
      ensures this.id == id && this.name == name && this.description == description && notes == []
    {
      this.id := id;
      this.name := name;
      this.description := description;
      notes := [];
    }

    /** `deck.add_note(note)`. */
    method AddNote(note: Note)
      modifies this
      ensures notes == old(notes) + [note]
    {
      notes := notes + [note];
    }
  }

  /** What `write_to_file` writes: the file name, the deck with its notes, and the media paths. */
  datatype Apkg = Apkg(file: string, deckId: nat, deckName: string, description: string,
                       notes: seq<Note>, media: seq<string>)

  /** A package (`genanki.Package`): a deck and the media paths appended so far. */
  class Package {
    const deck: AnkiDeck
    var mediaFiles: seq<string>

    constructor(deck: AnkiDeck)
      ensures this.deck == deck && mediaFiles == []
    {
      this.deck := deck;
      mediaFiles := [];
    }

    /** `package.media_files.append(path)`. */
    method AppendMedia(path: string)
      modifies this
      ensures mediaFiles == old(mediaFiles) + [path]
    {
      mediaFiles := mediaFiles + [path];
    }

    /** `package.write_to_file(file)`: the package as written. */
    method WriteToFile(file: string) returns (r: Apkg)
      ensures r == Apkg(file, deck.id, deck.name, deck.description, deck.notes, mediaFiles)
    {
      r := Apkg(file, deck.id, deck.name, deck.description, deck.notes, mediaFiles);
    }
  }

  /**
    `generate_deck(title, description, cards, ...)`: a deck named title with
    one note per card, in card order, of the `ExamTopics` note type; the
    media of every card, question images then answer images, duplicates
    kept; written to the sanitised title with the `.apkg` extension. The
    template folder's contents are given; the random identifiers are given
    as their draws.
   */
  method GenerateDeck(title: string, description: string, cards: seq<Card>, template: Template,
                      folder: string, deckDraw: nat, modelDraw: nat)
    returns (r: Apkg)
    requires deckDraw < IdHigh - IdLow && modelDraw < IdHigh - IdLow
    ensures r.file == PackageFile(title)
    ensures r.deckName == title && r.description == description && IdLow <= r.deckId < IdHigh
    ensures r.deckId == AnkiId(deckDraw)
    ensures r.notes == Notes(CreateModel(AnkiId(modelDraw), template), cards)
    ensures r.media == Media(folder, cards)
  {
    var deck := new AnkiDeck(AnkiId(deckDraw), title, description);
    var model := CreateModel(AnkiId(modelDraw), template);
    var media: seq<string> := [];
    for i := 0 to |cards|
      invariant deck.notes == Notes(model, cards[..i])
      invariant media == Media(folder, cards[..i])
    {
      var card := cards[i];
      assert cards[..i + 1][..i] == cards[..i];
      media := media + Joined(folder, card.questionImages);
      media := media + Joined(folder, card.answerImages);
      deck.AddNote(CreateNote(model, card));
    }
    assert cards[..|cards|] == cards;
    var sanitized := Sanitize(title);
    var package := new Package(deck);
    for k := 0 to |media|
      invariant package.mediaFiles == media[..k]
      invariant deck.notes == Notes(model, cards)
    {
      package.AppendMedia(media[k]);
    }
    assert media[..|media|] == media;
    r := package.WriteToFile(sanitized + ".apkg");
  }
}
