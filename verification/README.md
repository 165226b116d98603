# exams2anki, modelled in Dafny

exams2anki logs in to ExamTopics with Selenium and walks an exam's
question pages. For each page it:

- reads the page-information label ("page p of t, items a-b of n");
- extracts every question card: the question, the answer, the options,
  the five most upvoted comments, and screenshots of the images in the
  question and the answer;
- follows `{url}/view/{page + 1}` to the next page.

At the end it packs the cards into an Anki deck with genanki. Each card
becomes a note, and the screenshots become the package's media.

This project models the logic under that browser I/O. It covers both
scripts of the repository:

- `src/exams2anki.py`, the packaged scraper;
- `exams2anki.py` at the repository root, an earlier version of it.

The DOM is replaced by plain data:

- A site is a map from addresses to pages.
- A page is its label text plus its cards.
- A card holds its question and answer texts, its option texts, its
  comments (content and upvote label), and the `src` of each image in
  the question and the answer.

The image folder is a class holding a map from file names to the image
each file is a picture of. Calls into the browser, genanki and the
clock become parameters or are left out, as listed below.

Modules, one concern each:

| module | file | models |
|---|---|---|
| `Strings` | strings.dfy | the Python string operations the scripts use, restricted to ASCII: `isdigit`, `split(' ')`, `replace`, `strip`, `capitalize`, `title`, character removal, decimal rendering |
| `Outcomes` | outcomes.dfy | the exceptions the scripts raise, as an `Error` carried by a `Result` |
| `PageInfo` | page_info.dfy | `get_page_info` of the packaged scraper |
| `Discussions` | discussions.dfy | `extract_discussions`: upvote parsing, text clean-up, the stable sort by upvotes (most first), the top five |
| `Images` | images.dfy | `extract_images_from_element`: `os.path.splitext`, `os.path.join`, the image file names, the image folder as a `Disk` class, capture only when the file is absent |
| `Cards` | cards.dfy | `extract_cards`, with the progress bar as a counter class |
| `Pagination` | pagination.dfy | `next_page`, the `Browser` that follows it, and the page loop of `main`, both as a specification function (`Run`) and as methods proved against it |
| `Findings` | findings.dfy | two behaviours of the page loop as written, each beside its correction |
| `Deck` | deck.dfy | `generate_anki_id`, `create_model`, `create_note`, `generate_deck` (notes, media, sanitised file name), `get_exam_title` |
| `RootScript` | root_script.dfy | the root script's page information, discussion ranking, card extraction, one-pass loop, title and deck |

The page loop and the card loop are proved for any label parser, record
maker and capture list that agree with the scraper's own: the `Scraper`,
`MakesCards` and `ShootsCards` predicates. The loops themselves therefore
never look inside the ranking or the naming.

## Model

| member | source | states |
|---|---|---|
| Strings.Decimal | src/exams2anki.py:204 | The text written for a page number in the next address is a non-empty run of digits whose value is that number. |
| Strings.DecimalInjective | src/exams2anki.py:204 | Different page numbers are written differently, so `next_page` addresses different pages. |
| Strings.StripTrimmed | src/exams2anki.py:143 | `strip()` leaves no whitespace at either end of the text. |
| Strings.StripKeepsTrimmed | exams2anki.py:136 | `strip()` leaves a text that has no whitespace at either end as it is. |
| Strings.ReplaceCharRemoves | src/exams2anki.py:143 | After every `'\n'` is replaced by a text without `'\n'`, none is left. |
| Strings.ReplaceCharAbsent | src/exams2anki.py:237 | Replacing a character the text does not hold leaves the text as it is. |
| Strings.ReplaceCharAppend | src/exams2anki.py:209 | Replacing a character works piece by piece: on a concatenation it is the concatenation of the pieces' replacements. |
| Strings.RemoveChars | src/exams2anki.py:112 | After removing a set of characters none of them is left, a text holding none of them is unchanged, and the result is never longer. |
| Strings.RemoveCharsAppend | src/exams2anki.py:112 | Removing characters works piece by piece, keeping the order of the rest. |
| Strings.RemoveAllAbsent | exams2anki.py:136 | Removing every occurrence of a phrase that does not occur leaves the text as it is. |
| Strings.RemoveAllFirst | exams2anki.py:136 | `replace(phrase, '')` removes the phrase's first occurrence, keeps the text before it and goes on removing after it. |
| Strings.SplitJoin | src/exams2anki.py:209 | `split(' ')` loses nothing: joining the pieces with the separator gives back the text. |
| Strings.SplitAppend | src/exams2anki.py:209 | A separator between two texts splits them into the pieces of the first followed by those of the second. |
| Strings.SplitWithoutSeparator | src/exams2anki.py:139 | A text without the separator splits into itself alone. |
| Strings.Capitalize | src/exams2anki.py:238 | `capitalize()` keeps the length, upper-cases the first character and lower-cases all the others. |
| Strings.Title | src/exams2anki.py:238 | `title()` keeps the length, lower-cases a character that follows a letter and upper-cases every other one. |
| Strings.TitleIdempotent | src/exams2anki.py:238 | Title case applied twice is title case applied once. |
| Strings.CaseKeepsOut | src/exams2anki.py:238 | Case mapping brings in no character that is not a letter and was not there already. |
| PageInfo.NumbersFirst | src/exams2anki.py:209 | The numbers kept from the tokens are none exactly when no token is all digits, and otherwise start with the first all-digit token's value. |
| PageInfo.NumbersAppend | src/exams2anki.py:209 | The numbers of two runs of tokens are those of the first followed by those of the second, in order. |
| PageInfo.DigitsSpace | src/exams2anki.py:209 | A space separates the numbers of the text on either side of it. |
| PageInfo.DigitsHyphen | src/exams2anki.py:209 | A hyphen separates numbers like a space, because every `-` becomes a space first. |
| PageInfo.DigitsOfWord | src/exams2anki.py:209 | A word that is not all digits contributes no number. |
| PageInfo.DigitsOfRenderedNumbers | src/exams2anki.py:209 | Numbers written in decimal and joined by spaces are read back as the same numbers, in order. |
| PageInfo.Parse | src/exams2anki.py:207-213 | `get_page_info`: with no number the label raises `ValueError`; with one to four it fails on a subscript; with five or more it returns page, total, min, max and total items from the first five numbers, and size = max - min + 1. |
| PageInfo.ParseRange | src/exams2anki.py:207-213 | The label "p t a-b n" reads as page p, total t, items a to b of n, size b - a + 1. |
| PageInfo.ParseFromDigits | src/exams2anki.py:207-213 | A label whose numbers are exactly p, t, a, b, n reads as that record. |
| PageInfo.DigitsSkipWord | src/exams2anki.py:209 | A word that is not all digits in front of a label changes none of its numbers. |
| Discussions.Upvotes | src/exams2anki.py:139 | An upvote label reads as a count exactly when one of its space-separated tokens is all digits; without one it fails with the subscript's error. |
| Discussions.UpvotesFirstNumeral | src/exams2anki.py:139 | An upvote label reads as a count exactly when one of its space-separated tokens is all digits, and then as the first such token's value. |
| Discussions.UpvoteCountsOk | src/exams2anki.py:139 | The counts of a discussion are read exactly when every label reads, and count i is that of comment i. |
| Discussions.NormalizeTidy | src/exams2anki.py:143 | A cleaned comment text holds no line break (each became a space) and no whitespace at either end. |
| Discussions.InsertPermutes | src/exams2anki.py:145 | Inserting a comment into the sorted list adds exactly that comment. |
| Discussions.InsertSorted | src/exams2anki.py:145 | Inserting into a list sorted by upvotes, most first, keeps it sorted. |
| Discussions.InsertStable | src/exams2anki.py:145 | An inserted comment goes before every comment with the same upvotes that was after it in page order. |
| Discussions.SortPermutes | src/exams2anki.py:145 | The sort is a permutation of the comments. |
| Discussions.SortSorted | src/exams2anki.py:145 | The sort orders the comments by upvotes, most first. |
| Discussions.SortStable | src/exams2anki.py:145 | Comments with equal upvotes keep their page order, as Python's `sorted` guarantees with `reverse=True`. |
| Discussions.RankSorted | src/exams2anki.py:145 | The ranking keeps min(5, n) comments, most upvoted first. |
| Discussions.RankPartition | src/exams2anki.py:145 | The kept and dropped comments together are exactly the comments. |
| Discussions.RankKeepsMostUpvoted | src/exams2anki.py:145 | Every dropped comment has at most the upvotes of every kept one. |
| Discussions.RankStable | src/exams2anki.py:145 | Among the kept comments, those with equal upvotes come in page order, first-come first-kept. |
| Discussions.RankDrawsFromInput | src/exams2anki.py:145 | Every kept comment is one of the comments. |
| Discussions.DiscussionAt | src/exams2anki.py:143-144 | Entry i pairs the cleaned content i with upvote count i. |
| Discussions.ContentsAt | src/exams2anki.py:137 | Body i of the list of bodies is the content of comment i. |
| Discussions.ExtractFailure | src/exams2anki.py:135-145 | `extract_discussions` fails exactly when an upvote label has no number, and then with the subscript's error, so the length check between the three lists never fails. |
| Discussions.ExtractRanked | src/exams2anki.py:135-145 | On success it returns min(5, n) comments, most upvoted first, each without line breaks or surrounding whitespace. |
| Discussions.ExtractDrawsFromInput | src/exams2anki.py:135-145 | Every returned upvote count is one read from the page. |
| Discussions.ExtractReads | src/exams2anki.py:135-145 | When `extract_discussions` succeeds, every comment of the page has its record: its cleaned body and the count read from its label. |
| Discussions.ExtractIs | src/exams2anki.py:135-145 | `extract_discussions` returns the ranking of the page's own comments, record i being comment i's cleaned body and count. |
| Discussions.ExtractTopFive | src/exams2anki.py:135-145 | The kept comments and the dropped ones together are the page's comments, no dropped comment has more upvotes than a kept one, and among equal counts the kept ones are the first in page order, in page order. |
| Images.LastIndexIs | src/exams2anki.py:154 | The last index of a character holds that character, and none follows it. |
| Images.SplitExtParts | src/exams2anki.py:154 | `os.path.splitext` splits the path into two parts that concatenate back to it; the second is empty or a dot followed by no dot or slash. |
| Images.ExtensionOf | src/exams2anki.py:154 | The extension of `dir/stem.e` is `.e` when the stem does not start with a dot. |
| Images.HiddenFileHasNoExtension | src/exams2anki.py:154 | A dot that starts the last path component does not start an extension. |
| Images.NoDotNoExtension | src/exams2anki.py:154 | A last path component without a dot has no extension. |
| Images.BaseNameParts | src/exams2anki.py:161 | The base name has no slash and ends the path. |
| Images.BaseNameOfJoin | src/exams2anki.py:161 | Joining a folder and a name without a slash, then taking the base name, gives back the name. |
| Images.ParseImageNameOf | src/exams2anki.py:156-159 | An image name reads back as its role, question index, image index and extension. |
| Images.ImageNameInjective | src/exams2anki.py:156-159 | Two image names are equal only when role, question index, image index and extension all are. |
| Images.ImageNameHasNoSlash | src/exams2anki.py:156-161 | An image name is a single path component. |
| Images.KeyOfPath | src/exams2anki.py:161 | The folder file a joined path names is the image name's parts. |
| Images.ShotPathNamesFile | src/exams2anki.py:161-164 | A capture's path names the file of its role, indices and extension. |
| Images.ShotsAt | src/exams2anki.py:152-159 | Capture i is of image i of the element, with its role, the question index, its own extension and its `src`. |
| Images.ImageNamesAt | src/exams2anki.py:152-166 | Name i is `question_{q}_{i}{ext}` or `answer_{q}_{i}{ext}`, with the extension of image i. |
| Images.SavedKeys | src/exams2anki.py:163-164 | After the captures, the folder holds exactly its earlier files and the captures' files, and no earlier file changes. |
| Images.SavedFirstWins | src/exams2anki.py:163-164 | A file absent before holds the picture of the first capture that names it. |
| Images.SavedAppend | src/exams2anki.py:163-164 | Saving two runs of captures is saving the first, then the second. |
| Images.SavedPresent | src/exams2anki.py:163-164 | Captures whose files all exist change nothing. |
| Images.SavedIdempotent | src/exams2anki.py:163-164 | Saving the same captures a second time changes nothing. |
| Images.SavedDistinct | src/exams2anki.py:163-164 | When the captures name different files that were all absent, each file holds its own capture's picture. |
| Images.ShotsDistinct | src/exams2anki.py:152-159 | The captures of one element are for different images, all of question index q. |
| Images.DistinctImagesAppend | src/exams2anki.py:152-159 | Captures for different questions concatenate into captures that are still all different. |
| Images.DistinctImagesFiles | src/exams2anki.py:156-161 | Captures for different images name different files. |
| Images.Disk.Exists | src/exams2anki.py:163 | `os.path.exists` on the image folder says whether the file is there. |
| Images.Disk.Screenshot | src/exams2anki.py:164 | `img.screenshot(path)` leaves that file holding the picture of that image and changes no other file. |
| Images.ElementStep | src/exams2anki.py:152-166 | One pass of the image loop adds one capture and one name to those of the images before it. |
| Images.ExtractImages | src/exams2anki.py:148-168 | `extract_images_from_element` returns one name per image, in order, as named above, and leaves the folder as the captures, made only where the file is absent, say. |
| Cards.ProgressBar.Update | src/exams2anki.py:197 | `pbar.update(1)` adds to the counter. |
| Cards.CardOf | src/exams2anki.py:171-195 | A card's record fails exactly when its discussion cannot be ranked, and then with the subscript's error. |
| Cards.RecordsAt | src/exams2anki.py:175-195 | Record j of a page is the record of card j, named after position base + j. |
| Cards.FailureIs | src/exams2anki.py:175-197 | The cards before the failure position make their records, and the card at it does not. |
| Cards.RecordsFailure | src/exams2anki.py:175-197 | A page's records are made exactly when no card fails, and otherwise the page fails with the first failing card's error. |
| Cards.FolderSaved | src/exams2anki.py:182-183 | The folder after the card loop is the earlier folder with the captures of the cards reached, in order. |
| Cards.RecordsStop | src/exams2anki.py:175-197 | The first failing card stops the loop: its error is the page's, and the cards after it are not reached. |
| Cards.RecordsAll | src/exams2anki.py:175-197 | When every record is made, every card is reached. |
| Cards.FailureRanked | src/exams2anki.py:186 | Every card before the failure position has a rankable discussion, and the card at it does not. |
| Cards.RecordsRanked | src/exams2anki.py:171-199 | A page's records fail only with the subscript's error. |
| Cards.RecordsOk | src/exams2anki.py:171-199 | A page's records are made exactly when every card's discussion can be ranked. |
| Cards.RecordsCardOf | src/exams2anki.py:175-195 | Record j holds card j's texts, options, ranked comments and image names. |
| Cards.MadeNames | src/exams2anki.py:179-195 | A record keeps the card's question, answer and options, and names its question and answer images after its position. |
| Cards.ExtractCard | src/exams2anki.py:176-195 | One pass of the card loop saves the question's images, then the answer's, and returns the card's record or its ranking failure. |
| Cards.CardStep | src/exams2anki.py:175-197 | One pass of the card loop extends the records by one, or ends the page with that card's failure. |
| Cards.ExtractCards | src/exams2anki.py:171-199 | `extract_cards` returns the page's records in container order, or the first failure. The folder gains the captures of every card reached, the failing card included, and the bar advances once per record. |
| Cards.GatheredDistinct | src/exams2anki.py:175-183 | The captures of a page's cards are for different images, of the questions at positions base to base + n - 1. |
| Cards.CardShotsDistinct | src/exams2anki.py:182-183 | A card's question and answer captures are for different images, all of that card's question. |
| Pagination.Concat | src/exams2anki.py:299 | Joining two results succeeds exactly when both do, concatenating their records, and otherwise keeps the first failure. |
| Pagination.RecordsSplit | src/exams2anki.py:299 | The records of two pages' cards in a row are the first page's followed by the second's, the second named from where the first ends. |
| Pagination.GatheredSplit | src/exams2anki.py:299 | The captures of two pages' cards in a row are the first page's followed by the second's. |
| Pagination.RunWideRecords | src/exams2anki.py:290-300 | With run-wide names, the records of the pages are the records of all their cards in a row, numbered from 0. |
| Pagination.RunWideShots | src/exams2anki.py:290-300 | With run-wide names, the captures of the pages are those of all their cards in a row, numbered from 0. |
| Pagination.NextLocationDistinct | src/exams2anki.py:202-204 | When a next page exists, two labels send the browser to the same address exactly when they have the same page number. |
| Pagination.Browser.NextPage | src/exams2anki.py:202-204 | `next_page` goes to `{url}/view/{page + 1}` when page < total, and otherwise stays. |
| Pagination.RunFrom | src/exams2anki.py:290-300 | A run is the pre-loop label read followed by the loop's passes. |
| Pagination.CrawlStep | src/exams2anki.py:297-300 | While the condition holds, the passes are one pass and then the rest, or that pass's failure. |
| Pagination.PageFolder | src/exams2anki.py:299 | After a page whose cards all succeed, the folder holds the run's captures so far, in order. |
| Pagination.GetPageInfo | src/exams2anki.py:207-213 | `get_page_info` reads the label of the page shown, or fails as the label parser says. |
| Pagination.Pass | src/exams2anki.py:298-300 | One pass reads the label and extracts the page onto the collection, with the folder and bar updated, and moves the browser on; or fails as the pass does. |
| Pagination.PageLoop | src/exams2anki.py:297-300 | The `while` loop returns the records or the failure of the run. It leaves the browser at the run's last address, the folder holding the run's captures in order, and the bar at the number of records. |
| Pagination.Scrape | src/exams2anki.py:290-300 | `main`, from the session's start page to the collected cards, does what `Run` says. |
| Pagination.VisitKeeps | src/exams2anki.py:298-300 | A pass appends the page shown to the pages extracted and keeps the records and captures those of the pages extracted. |
| Pagination.CrawlKeeps | src/exams2anki.py:297-300 | The loop keeps the records and captures those of the pages extracted, and ends only when the condition fails. |
| Pagination.CrawlExtends | src/exams2anki.py:299 | The records and pages collected only grow, by appending. |
| Pagination.RunExtracts | src/exams2anki.py:290-300 | A successful run returns the records of the pages it visited, in page order, and the folder receives their captures in order. The last label read has page ≥ total. |
| Findings.AllRecordsAt | src/exams2anki.py:299 | Card j of page i has the run's record at position (cards before page i) + j. |
| Findings.AllShotsPrefix | src/exams2anki.py:299 | The captures of the first pages begin the captures of the run. |
| Findings.GatheredGrows | src/exams2anki.py:175-183 | The captures of the first m cards begin those of the first n, for m ≤ n. |
| Findings.FirstCapture | src/exams2anki.py:157-164 | The run's first capture is image 0 of the first card's question, as question 0. |
| Findings.PageOpener | src/exams2anki.py:175-183 | The first card of page i has, as its first question image, the name of position PageBase, image 0. |
| Findings.SharedNamesAsWritten | src/exams2anki.py:175-183 | As written, the first cards of pages 1 and 2 get the same first image name, and that file holds page 1's picture. |
| Findings.RunWidePictures | src/exams2anki.py:175-183 | With run-wide names, the records are those of all the cards numbered from 0, and every capture's file holds its own picture. |
| Findings.RunWideNamesDiffer | src/exams2anki.py:175-183 | With run-wide names, the first cards of pages 1 and 2 never share an image name. |
| Findings.OnePageExamAsWritten | src/exams2anki.py:291-300 | As written, a single-page exam labelled `1 1 1-n n` yields no card at all. |
| Findings.FirstPassExtractsStart | src/exams2anki.py:291-300 | With the condition evaluated only after a first pass, a successful run extracts the start page first. |
| Findings.OnePageCorrected | src/exams2anki.py:291-300 | With the test after a first pass, a start page labelled as the last is extracted, and the run is exactly that page. |
| Findings.OnePageExamCorrected | src/exams2anki.py:291-300 | With the test after a first pass, a single-page exam whose discussions all rank yields one record per card. |
| Deck.AnkiId | src/exams2anki.py:51-52 | `generate_anki_id` returns an id in [2^30, 2^31). |
| Deck.AnkiIdRange | src/exams2anki.py:51-52 | Every id in that range is drawn from exactly one offset. |
| Deck.CreateModel | src/exams2anki.py:59-78 | `create_model` has six fields and one template whose front and back are the template's. |
| Deck.CreateNote | src/exams2anki.py:81-92 | `create_note` gives a note of the model with one value per model field. |
| Deck.NoteRoundTrip | src/exams2anki.py:81-92 | A note holds all of its card: the card can be read back from it. |
| Deck.NotesFitModel | src/exams2anki.py:105-110 | Every note fits the six-field model, and note i holds card i. |
| Deck.MediaAppend | src/exams2anki.py:105-107 | The media of two runs of cards are those of the first followed by those of the second. |
| Deck.MediaNames | src/exams2anki.py:105-107 | Media path k is the folder joined with image name k, question images then answer images per card, duplicates kept, and its base name is that name. |
| Deck.SanitizeChars | src/exams2anki.py:112 | Sanitising drops exactly the nine forbidden characters and keeps every other, in order. |
| Deck.SanitizeIdempotent | src/exams2anki.py:112 | A sanitised title holds no forbidden character, and sanitising it again changes nothing. |
| Deck.PackageFile | src/exams2anki.py:112-118 | The package file name holds none of `\ / : * ? " < > \|`. |
| Deck.PackageFileHere | src/exams2anki.py:118 | The package file name is a single path component. |
| Deck.ExamTitle | src/exams2anki.py:236-238 | The exam title is 14 characters longer than provider and exam together. |
| Deck.ExamTitleParts | src/exams2anki.py:236-238 | The title splits at `::` into `ExamTopics`, the capitalised provider and the title-cased exam with every `-` a space. The exam part holds no `-`. |
| Deck.AnkiDeck.AddNote | src/exams2anki.py:110 | `deck.add_note` appends the note. |
| Deck.Package.AppendMedia | src/exams2anki.py:115-116 | `package.media_files.append` appends the path. |
| Deck.Package.WriteToFile | src/exams2anki.py:118 | The package written holds the deck's id, name, description and notes, and the media paths, under the given file name. |
| Deck.GenerateDeck | src/exams2anki.py:95-118 | `generate_deck` writes a deck with the id drawn for it, named after the title, with one note per card, in order, and the media of every card, to the sanitised title with `.apkg`. |
| RootScript.RootParse | exams2anki.py:109-114 | The root `get_page_info` raises `ValueError` with fewer than five numbers, and otherwise returns the first five as page, total, min, max and total items. |
| RootScript.RootParseAgrees | exams2anki.py:109-114 | Both scripts accept the same labels and read the same numbers. The root script reports one to four numbers as missing information, where the packaged one fails on a subscript. |
| RootScript.RootNextLocationAgrees | exams2anki.py:104-106 | The root `next_page` goes where the packaged one does. |
| RootScript.RootDiscussionsRanked | exams2anki.py:74-84 | The root ranking fails only when a label has no number. Otherwise it keeps min(5, n) comments, most upvoted first, with line breaks deleted and no surrounding whitespace. |
| RootScript.AllDiscussionsAt | exams2anki.py:93 | The list of rankings is made exactly when every card's is, ranking i is card i's, and a failure is some card's failure. |
| RootScript.RootCardsAt | exams2anki.py:87-101 | `exract_cards` fails only when a discussion cannot be ranked, so the length check never fails. Record i combines question, options, answer and ranking of card i. |
| RootScript.RootRunOnePage | exams2anki.py:178-185 | The root script extracts the start page only: one record per card, whatever the label says of later pages. |
| RootScript.RootExtract | exams2anki.py:178-185 | The root loop runs its body exactly once and returns the start page's records or their failure. |
| RootScript.RootExamTitle | exams2anki.py:134-136 | The root title is never longer than the page's title text. |
| RootScript.RootExamTitleTrimmed | exams2anki.py:134-136 | The root title has no surrounding whitespace, and a trimmed title without the phrase is kept as it is. |
| RootScript.RootExamTitleRemoves | exams2anki.py:134-136 | The root title drops "Exam Actual Questions": the text before its first occurrence is kept, removal goes on after it, and the whole is stripped. |
| RootScript.RootExamTitleOfPage | exams2anki.py:134-136 | A page titled "AWS Exam Actual Questions " gives the title "AWS". |
| RootScript.RootCreateModel | exams2anki.py:18-35 | The root model has four fields and one template whose front and back are the template's. |
| RootScript.RootNoteRoundTrip | exams2anki.py:38-45 | A root note holds all of its record and has as many fields as the four-field model. |
| RootScript.RootGenerateDeck | exams2anki.py:48-55 | The root `generate_deck` writes a deck with the id drawn for it and one four-field note per record, in order, with no media, to the title as it is with `.apkg`. |

## Left out

- Selenium is not modelled: logging in, the session settings, the driver set-up, `get_exam_info`, and every element lookup and text read. Each page is given as data instead.
- `time.sleep(10)` in `get_page_info` has no counterpart.
- The progress bar is a counter; its total is kept but not displayed.
- `tempfile.TemporaryDirectory` is not modelled; the image folder starts from whatever map the caller gives.
- A screenshot's pixels are not modelled. A file records which image (`src`) it is a picture of.
- The image folder is keyed by a file's parts: role, question index, image index and extension. Two names the scripts would write differently never share a key (`Images.ImageNameInjective`).
- genanki and `json.dumps` are not modelled. A note's fields are tagged values (text, name list, option list, comment list); the package is a record of file name, deck, notes and media.
- `html.unescape` is not modelled. Each field records whether the script unescapes it.
- `random.randrange` is not modelled. An id is drawn as an offset, a parameter, that `AnkiId` places in [2^30, 2^31).
- Template loading is not modelled: `get_deck_template*`, `read_file`, `get_data`, `get_relative_path`. The template is a parameter.
- `parse_args`, the command line and the environment variables are not modelled.
- `Pagination.Crawl`: the page loop is bounded by a fuel count of passes. A site whose labels never reach the page count makes the scripts loop forever; here it ends with `OutOfFuel`.
- Pagination.PageLoop: after a failed pass, the browser's address and the image folder are not stated; only the failure is.
- Unicode is not modelled. `isdigit`, `strip`, `capitalize` and `title` are modelled on ASCII; `strip` removes the ASCII characters Python counts as whitespace (9-13 and 28-32).
- `os.path.join` is modelled for a folder without a trailing slash and a relative name, which is how the scripts call it.
- The root script's `next_page` call is commented out in its loop. `RootScript.RootNextLocation` models the function alone.
- The root script's `get_deck_template` and `get_driver` are not modelled, for the same reasons as above.

## Findings

| source | as written | input that shows it | evidently intended | confidence | as-written member | corrected member |
|---|---|---|---|---|---|---|
| src/exams2anki.py:175-183 | Image names use `question_index`, the card's position on its page, so every page names its first card's images `question_0_0…`. `os.path.exists` then skips the capture, and the card on page 2 names a file holding page 1's picture. | A run over two pages whose first cards each have a question image with extension `.png`. | Each card's images have names of their own across the whole exam, so every file holds the picture of the image that names it. | not executed | Findings.SharedNamesAsWritten | Findings.RunWidePictures |
| src/exams2anki.py:291-300 | The loop condition is first evaluated with the label read before the loop. An exam whose start page is also its last (`1 1 1-n n`) runs no pass and yields no card. | A single-page exam labelled `1 1 1-n n`. | The start page is always extracted, as the root script does by starting from no page information. | not executed | Findings.OnePageExamAsWritten | Findings.OnePageExamCorrected |
