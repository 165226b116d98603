/**
  The image materialiser (`extract_images_from_element`): every `img` of a
  question or answer element gets a file name built from the card's
  position, the image's own position and the extension of its `src`, and
  its picture is saved under the images folder unless a file of that name
  is already there.

  The folder is a map from file (the parts of its name) to the `src` of the
  image whose picture the file holds, so that "which picture ended up
  where" can be stated.
 */
module Images {
  import opened Strings
  import opened Outcomes

  // ---------------------------------------------------------------------------
  // POSIX path helpers (`os.path`)
  // ---------------------------------------------------------------------------

  /** `s.rfind(c)`: the position of the last c in s, or -1. */
  function LastIndex(s: string, c: char): (r: int)
    ensures -1 <= r < |s|
  {
    if |s| == 0 then -1
    else if s[|s| - 1] == c then |s| - 1
    else LastIndex(s[..|s| - 1], c)
  }

  /** LastIndex finds a c, when there is one, and no c follows it. */
  lemma {:induction false} LastIndexIs(s: string, c: char)
    ensures LastIndex(s, c) >= 0 ==> s[LastIndex(s, c)] == c
    ensures forall i :: LastIndex(s, c) < i < |s| ==> s[i] != c
  {
    if |s| > 0 && s[|s| - 1] != c {
      LastIndexIs(s[..|s| - 1], c);
      assert forall i :: 0 <= i < |s| - 1 ==> s[..|s| - 1][i] == s[i];
    }
  }

  /** The last c is the one at k when nothing after k is a c. */
  lemma {:induction false} LastIndexAt(s: string, c: char, k: int)
    requires 0 <= k < |s| && s[k] == c
    requires forall i :: k < i < |s| ==> s[i] != c
    ensures LastIndex(s, c) == k
  {
    if k < |s| - 1 {
      assert s[|s| - 1] != c;
      assert forall i :: k < i < |s| - 1 ==> s[..|s| - 1][i] == s[i];
      LastIndexAt(s[..|s| - 1], c, k);
    }
  }

  /** Nothing between lo (inclusive) and hi (exclusive) but dots. */
  predicate AllDots(p: string, lo: int, hi: int)
    requires 0 <= lo && hi <= |p|
  {
    forall k :: lo <= k < hi ==> p[k] == '.'
  }

  /** What `splitext` can return as an extension: nothing, or a dot followed by no dot and no slash. */
  predicate IsExtension(e: string) {
    e == [] || (e[0] == '.' && '.' !in e[1..] && '/' !in e)
  }

  /**
    `os.path.splitext(p)`: the extension runs from the last dot of the final
    path component to the end, unless everything before that dot in the
    component is dots (".bashrc", "..").
   */
  function SplitExt(p: string): (string, string)
  {
    var sep := LastIndex(p, '/');
    var dot := LastIndex(p, '.');
    if dot > sep && !AllDots(p, sep + 1, dot) then
      (p[..dot], p[dot..])
    else
      (p, [])
  }

  /** splitext loses nothing, and what it splits off is an extension. */
  lemma SplitExtParts(p: string)
    ensures SplitExt(p).0 + SplitExt(p).1 == p
    ensures IsExtension(SplitExt(p).1)
  {
    var sep := LastIndex(p, '/');
    var dot := LastIndex(p, '.');
    if dot > sep && !AllDots(p, sep + 1, dot) {
      LastIndexIs(p, '/');
      LastIndexIs(p, '.');
      var e := p[dot..];
      assert SplitExt(p) == (p[..dot], e);
      assert p[..dot] + e == p;
      assert forall i :: 0 <= i < |e| - 1 ==> e[1..][i] == p[dot + 1 + i];
      assert forall i :: 0 <= i < |e| ==> e[i] == p[dot + i];
    }
  }

  /** `os.path.splitext(p)[1]`. */
  function Extension(p: string): string
  {
    SplitExt(p).1
  }

  /**
    The extension of ".../stem.e", where the stem is not all dots and neither
    the stem nor e holds a slash, and e holds no dot, is ".e".
   */
  lemma ExtensionOf(dir: string, stem: string, e: string)
    requires '/' !in stem && '/' !in e && '.' !in e
    requires |stem| > 0 && stem[0] != '.'
    ensures SplitExt(dir + "/" + stem + "." + e) == (dir + "/" + stem, "." + e)
  {
    var p := dir + "/" + stem + "." + e;
    var dot := |dir| + 1 + |stem|;
    assert p[|dir|] == '/';
    assert forall i :: |dir| < i < |p| ==> p[i] != '/' by {
      forall i | |dir| < i < |p|
        ensures p[i] != '/'
      {
        if i < dot {
          assert p[i] == stem[i - |dir| - 1];
        } else if i > dot {
          assert p[i] == e[i - dot - 1];
        }
      }
    }
    LastIndexAt(p, '/', |dir|);
    assert p[dot] == '.';
    assert forall i :: dot < i < |p| ==> p[i] != '.' by {
      forall i | dot < i < |p|
        ensures p[i] != '.'
      {
        assert p[i] == e[i - dot - 1];
      }
    }
    LastIndexAt(p, '.', dot);
    assert p[|dir| + 1] == stem[0];
    assert p[..dot] == dir + "/" + stem;
    assert p[dot..] == "." + e;
  }

  /** A final component made of a dot and a name without dots (".bashrc") has no extension. */
  lemma HiddenFileHasNoExtension(dir: string, name: string)
    requires '/' !in name && '.' !in name
    ensures SplitExt(dir + "/." + name) == (dir + "/." + name, [])
  {
    var p := dir + "/." + name;
    assert p[|dir|] == '/' && p[|dir| + 1] == '.';
    assert forall i :: |dir| + 1 < i < |p| ==> p[i] == name[i - |dir| - 2];
    LastIndexAt(p, '/', |dir|);
    LastIndexAt(p, '.', |dir| + 1);
  }

  /** A final component without a dot has no extension. */
  lemma NoDotNoExtension(p: string)
    requires forall i :: LastIndex(p, '/') < i < |p| ==> p[i] != '.'
    ensures SplitExt(p) == (p, [])
  {
    LastIndexIs(p, '.');
  }

  /** `os.path.join(folder, name)` on POSIX. */
  function JoinPath(folder: string, name: string): string
  {
    if |name| > 0 && name[0] == '/' then name
    else if folder == [] || folder[|folder| - 1] == '/' then folder + name
    else folder + "/" + name
  }

  /** `os.path.basename(p)`: the text after the last slash. */
  function BaseName(p: string): string
  {
    p[LastIndex(p, '/') + 1..]
  }

  /** The base name is the slash-free end of the path. */
  lemma BaseNameParts(p: string)
    ensures '/' !in BaseName(p)
    ensures |BaseName(p)| <= |p| && p == p[..|p| - |BaseName(p)|] + BaseName(p)
  {
    var k := LastIndex(p, '/') + 1;
    LastIndexIs(p, '/');
    assert forall i :: 0 <= i < |p| - k ==> BaseName(p)[i] == p[k + i];
    assert p[..k] + p[k..] == p;
  }

  /** Joining a name without slashes to a folder keeps the name as the base name. */
  lemma BaseNameOfJoin(folder: string, name: string)
    requires '/' !in name
    ensures BaseName(JoinPath(folder, name)) == name
  {
    var p := JoinPath(folder, name);
    if folder == [] {
      assert p == name;
      LastIndexIs(p, '/');
    } else {
      var x := if folder[|folder| - 1] == '/' then folder else folder + "/";
      assert p == x + name;
      assert forall i :: |x| <= i < |p| ==> p[i] == name[i - |x|];
      LastIndexAt(p, '/', |x| - 1);
      assert p[|x|..] == name;
    }
  }

  // ---------------------------------------------------------------------------
  // Image names
  // ---------------------------------------------------------------------------

  /** The name of image i of card q: `question_{q}_{i}{ext}`, or `answer_{q}_{i}{ext}` for an answer image. */
  function ImageName(isAnswer: bool, q: nat, i: nat, ext: string): string
  {
    (if isAnswer then "answer_" else "question_") + Decimal(q) + "_" + Decimal(i) + ext
  }

  /** The four things an image name is made of. */
  datatype NameParts = NameParts(isAnswer: bool, question: nat, index: nat, ext: string)

  /** Reads the role, card position, image position and extension back out of an image name. */
  function ParseImageName(name: string): Option<NameParts>
  {
    if |name| >= 7 && name[..7] == "answer_" then ParseNumbers(true, name[7..])
    else if |name| >= 9 && name[..9] == "question_" then ParseNumbers(false, name[9..])
    else None
  }

  /** Reads `{q}_{i}{ext}`. */
  function ParseNumbers(isAnswer: bool, rest: string): Option<NameParts>
  {
    var n := LeadingDigits(rest);
    if n == 0 || n == |rest| || rest[n] != '_' then
      None
    else
      var tail := rest[n + 1..];
      var m := LeadingDigits(tail);
      if m == 0 then None else Some(NameParts(isAnswer, Value(rest[..n]), Value(tail[..m]), tail[m..]))
  }

  lemma ParseNumerals(isAnswer: bool, dq: string, di: string, ext: string)
    requires IsNumeral(dq) && IsNumeral(di) && IsExtension(ext)
    ensures ParseNumbers(isAnswer, dq + "_" + di + ext) == Some(NameParts(isAnswer, Value(dq), Value(di), ext))
  {
    var rest := dq + "_" + di + ext;
    LeadingDigitsOf(dq, "_" + di + ext);
    assert rest == dq + ("_" + di + ext);
    assert rest[..|dq|] == dq && rest[|dq|] == '_';
    var tail := rest[|dq| + 1..];
    assert tail == di + ext;
    LeadingDigitsOf(di, ext);
    assert tail[..|di|] == di && tail[|di|..] == ext;
  }

  /** Round trip: an image name determines its role, card, position and extension. */
  lemma ParseImageNameOf(isAnswer: bool, q: nat, i: nat, ext: string)
    requires IsExtension(ext)
    ensures ParseImageName(ImageName(isAnswer, q, i, ext)) == Some(NameParts(isAnswer, q, i, ext))
  {
    var prefix := if isAnswer then "answer_" else "question_";
    var rest := Decimal(q) + "_" + Decimal(i) + ext;
    var name := ImageName(isAnswer, q, i, ext);
    assert name == prefix + rest;
    assert name[..|prefix|] == prefix && name[|prefix|..] == rest;
    if !isAnswer {
      assert name[0] == 'q';
    }
    ParseNumerals(isAnswer, Decimal(q), Decimal(i), ext);
  }

  /** Different images never share a name. */
  lemma ImageNameInjective(a1: bool, q1: nat, i1: nat, e1: string, a2: bool, q2: nat, i2: nat, e2: string)
    requires IsExtension(e1) && IsExtension(e2)
    requires ImageName(a1, q1, i1, e1) == ImageName(a2, q2, i2, e2)
    ensures a1 == a2 && q1 == q2 && i1 == i2 && e1 == e2
  {
    ParseImageNameOf(a1, q1, i1, e1);
    ParseImageNameOf(a2, q2, i2, e2);
  }

  /** Image names hold no slash, so they are file names in the images folder. */
  lemma ImageNameHasNoSlash(isAnswer: bool, q: nat, i: nat, ext: string)
    requires IsExtension(ext)
    ensures '/' !in ImageName(isAnswer, q, i, ext)
  {
    assert forall k :: 0 <= k < |Decimal(q)| ==> IsDigit(Decimal(q)[k]);
    assert forall k :: 0 <= k < |Decimal(i)| ==> IsDigit(Decimal(i)[k]);
  }

  /** Which image a path of the images folder was named after, if any. */
  function KeyOf(path: string): Option<NameParts>
  {
    ParseImageName(BaseName(path))
  }

  /** A saved image's path names it: folder, role, card and position are recovered from the path. */
  lemma KeyOfPath(folder: string, isAnswer: bool, q: nat, i: nat, ext: string)
    requires IsExtension(ext)
    ensures KeyOf(JoinPath(folder, ImageName(isAnswer, q, i, ext))) == Some(NameParts(isAnswer, q, i, ext))
  {
    ImageNameHasNoSlash(isAnswer, q, i, ext);
    BaseNameOfJoin(folder, ImageName(isAnswer, q, i, ext));
    ParseImageNameOf(isAnswer, q, i, ext);
  }

  // ---------------------------------------------------------------------------
  // The images folder
  // ---------------------------------------------------------------------------

  /**
    One attempted capture: image `index` of the question (or answer) of the
    card at position `question`, whose picture comes from `src`, and the
    extension its file name is given (that of `src`, see `Shots`).
   */
  datatype Shot = Shot(isAnswer: bool, question: nat, index: nat, ext: string, src: string)

  /** The file name the loop gives the image. */
  function ShotName(s: Shot): string
  {
    ImageName(s.isAnswer, s.question, s.index, s.ext)
  }

  /** The file the loop looks at and saves to, identified by the parts of its name. */
  function FileOf(s: Shot): NameParts
  {
    NameParts(s.isAnswer, s.question, s.index, s.ext)
  }

  /** The path the loop builds, `os.path.join(images_folder, image_name)`, names exactly that file. */
  lemma ShotPathNamesFile(folder: string, s: Shot)
    requires s.ext == Extension(s.src)
    ensures KeyOf(JoinPath(folder, ShotName(s))) == Some(FileOf(s))
  {
    SplitExtParts(s.src);
    KeyOfPath(folder, s.isAnswer, s.question, s.index, s.ext);
  }

  /** The attempted captures of an element's images, in page order. */
  function Shots(srcs: seq<string>, q: nat, isAnswer: bool): (r: seq<Shot>)
    ensures |r| == |srcs|
  {
    if |srcs| == 0 then
      []
    else
      var n := |srcs| - 1;
      Shots(srcs[..n], q, isAnswer) + [Shot(isAnswer, q, n, Extension(srcs[n]), srcs[n])]
  }

  /** Capture i is for image i of the element, with its own `src`. */
  lemma {:induction false} ShotsAt(srcs: seq<string>, q: nat, isAnswer: bool, i: int)
    requires 0 <= i < |srcs|
    ensures Shots(srcs, q, isAnswer)[i] == Shot(isAnswer, q, i, Extension(srcs[i]), srcs[i])
  {
    var n := |srcs| - 1;
    if i < n {
      assert srcs[..n][i] == srcs[i];
      ShotsAt(srcs[..n], q, isAnswer, i);
    }
  }

  /** The file names of some captures, in order. */
  function Names(shots: seq<Shot>): (r: seq<string>)
    ensures |r| == |shots|
  {
    if |shots| == 0 then [] else Names(shots[..|shots| - 1]) + [ShotName(shots[|shots| - 1])]
  }

  /** The names of an element's images, in page order (`images`). */
  function ImageNames(srcs: seq<string>, q: nat, isAnswer: bool): (r: seq<string>)
    ensures |r| == |srcs|
  {
    Names(Shots(srcs, q, isAnswer))
  }

  /** Name i is the name of capture i. */
  lemma {:induction false} NamesAt(shots: seq<Shot>, i: int)
    requires 0 <= i < |shots|
    ensures Names(shots)[i] == ShotName(shots[i])
  {
    var n := |shots| - 1;
    if i < n {
      assert shots[..n][i] == shots[i];
      NamesAt(shots[..n], i);
    }
  }

  /** Image i of an element is named after its role, the card, i and the extension of its own `src`. */
  lemma ImageNamesAt(srcs: seq<string>, q: nat, isAnswer: bool, i: int)
    requires 0 <= i < |srcs|
    ensures ImageNames(srcs, q, isAnswer)[i] == ImageName(isAnswer, q, i, Extension(srcs[i]))
  {
    NamesAt(Shots(srcs, q, isAnswer), i);
    ShotsAt(srcs, q, isAnswer, i);
  }

  /** The files the captures look at. */
  function FileSet(shots: seq<Shot>): set<NameParts>
  {
    set k | 0 <= k < |shots| :: FileOf(shots[k])
  }

  /** Capture k is the first one at its file. */
  predicate FirstAt(shots: seq<Shot>, k: int)
    requires 0 <= k < |shots|
  {
    forall j :: 0 <= j < k ==> FileOf(shots[j]) != FileOf(shots[k])
  }

  /** One capture: saves the picture only when no file has its name yet. */
  function Capture(files: map<NameParts, string>, s: Shot): map<NameParts, string>
  {
    if FileOf(s) in files then files else files[FileOf(s) := s.src]
  }

  /** The folder after the captures, in order. */
  function Saved(files: map<NameParts, string>, shots: seq<Shot>): map<NameParts, string>
  {
    if |shots| == 0 then files else Capture(Saved(files, shots[..|shots| - 1]), shots[|shots| - 1])
  }

  /**
    The captures add exactly their files to the folder, and a file that
    existed keeps its picture.
   */
  lemma {:induction false} SavedKeys(files: map<NameParts, string>, shots: seq<Shot>)
    ensures Saved(files, shots).Keys == files.Keys + FileSet(shots)
    ensures forall p :: p in files ==> Saved(files, shots)[p] == files[p]
  {
    if |shots| > 0 {
      var n := |shots| - 1;
      SavedKeys(files, shots[..n]);
      assert FileSet(shots) == FileSet(shots[..n]) + {FileOf(shots[n])} by {
        assert forall k :: 0 <= k < n ==> shots[..n][k] == shots[k];
      }
    }
  }

  /** A new file holds the picture of the first capture at its name. */
  lemma {:induction false} SavedFirstWins(files: map<NameParts, string>, shots: seq<Shot>, k: int)
    requires 0 <= k < |shots| && FileOf(shots[k]) !in files && FirstAt(shots, k)
    ensures FileOf(shots[k]) in Saved(files, shots) && Saved(files, shots)[FileOf(shots[k])] == shots[k].src
  {
    SavedKeys(files, shots);
    var n := |shots| - 1;
    var init := shots[..n];
    var f := Saved(files, init);
    assert Saved(files, shots) == Capture(f, shots[n]);
    SavedKeys(files, init);
    if k < n {
      assert init[k] == shots[k];
      assert FirstAt(init, k);
      SavedFirstWins(files, init, k);
      assert FileOf(shots[k]) in FileSet(init);
    } else {
      assert forall j :: 0 <= j < n ==> init[j] == shots[j];
    }
  }

  lemma SavedSnoc(files: map<NameParts, string>, shots: seq<Shot>, s: Shot)
    ensures Saved(files, shots + [s]) == Capture(Saved(files, shots), s)
  {
    assert (shots + [s])[..|shots|] == shots;
  }

  /** Capturing in two batches is capturing once, in order. */
  lemma {:induction false} SavedAppend(files: map<NameParts, string>, a: seq<Shot>, b: seq<Shot>)
    ensures Saved(files, a + b) == Saved(Saved(files, a), b)
  {
    if |b| > 0 {
      var n := |b| - 1;
      assert a + b == (a + b[..n]) + [b[n]];
      SavedAppend(files, a, b[..n]);
      SavedSnoc(files, a + b[..n], b[n]);
      SavedSnoc(Saved(files, a), b[..n], b[n]);
    } else {
      assert a + b == a;
    }
  }

  /** Captures whose files all exist already change nothing. */
  lemma {:induction false} SavedPresent(files: map<NameParts, string>, shots: seq<Shot>)
    requires FileSet(shots) <= files.Keys
    ensures Saved(files, shots) == files
  {
    if |shots| > 0 {
      var n := |shots| - 1;
      assert FileSet(shots[..n]) <= FileSet(shots) by {
        assert forall k :: 0 <= k < n ==> shots[..n][k] == shots[k];
      }
      assert FileOf(shots[n]) in FileSet(shots);
      SavedPresent(files, shots[..n]);
    }
  }

  /** Running the same captures a second time saves nothing more. */
  lemma SavedIdempotent(files: map<NameParts, string>, shots: seq<Shot>)
    ensures Saved(Saved(files, shots), shots) == Saved(files, shots)
  {
    SavedKeys(files, shots);
    SavedPresent(Saved(files, shots), shots);
  }

  /** No two captures look at the same file. */
  predicate DistinctFiles(shots: seq<Shot>) {
    forall j, k :: 0 <= j < k < |shots| ==> FileOf(shots[j]) != FileOf(shots[k])
  }

  /** Captures at distinct new files each leave their own picture. */
  lemma SavedDistinct(files: map<NameParts, string>, shots: seq<Shot>)
    requires DistinctFiles(shots)
    requires forall k :: 0 <= k < |shots| ==> FileOf(shots[k]) !in files
    ensures forall k :: 0 <= k < |shots| ==>
      FileOf(shots[k]) in Saved(files, shots) && Saved(files, shots)[FileOf(shots[k])] == shots[k].src
  {
    forall k | 0 <= k < |shots|
      ensures FileOf(shots[k]) in Saved(files, shots) && Saved(files, shots)[FileOf(shots[k])] == shots[k].src
    {
      SavedFirstWins(files, shots, k);
    }
  }

  /** The same image: same role, same card, same position. */
  predicate SameImage(a: Shot, b: Shot) {
    a.isAnswer == b.isAnswer && a.question == b.question && a.index == b.index
  }

  /** No two captures are for the same image. */
  predicate DistinctImages(shots: seq<Shot>) {
    forall j, k :: 0 <= j < k < |shots| ==> !SameImage(shots[j], shots[k])
  }

  /** Every capture is for a card at a position in [lo, hi). */
  predicate QuestionsIn(shots: seq<Shot>, lo: int, hi: int) {
    forall k :: 0 <= k < |shots| ==> lo <= shots[k].question < hi
  }

  /** The captures of one element are one per image, all for card q. */
  lemma ShotsDistinct(srcs: seq<string>, q: nat, isAnswer: bool)
    ensures DistinctImages(Shots(srcs, q, isAnswer)) && QuestionsIn(Shots(srcs, q, isAnswer), q, q + 1)
  {
    forall i | 0 <= i < |srcs|
      ensures Shots(srcs, q, isAnswer)[i] == Shot(isAnswer, q, i, Extension(srcs[i]), srcs[i])
    {
      ShotsAt(srcs, q, isAnswer, i);
    }
  }

  /** Two runs of captures for distinct images and disjoint card ranges together are for distinct images. */
  lemma DistinctImagesAppend(a: seq<Shot>, b: seq<Shot>, lo: int, mid: int, hi: int)
    requires DistinctImages(a) && DistinctImages(b)
    requires lo <= mid <= hi && QuestionsIn(a, lo, mid) && QuestionsIn(b, mid, hi)
    ensures DistinctImages(a + b) && QuestionsIn(a + b, lo, hi)
  {
    assert forall k :: |a| <= k < |a + b| ==> (a + b)[k] == b[k - |a|];
  }

  /** Captures of distinct images look at distinct files. */
  lemma DistinctImagesFiles(shots: seq<Shot>)
    requires DistinctImages(shots)
    ensures DistinctFiles(shots)
  {
  }

  /**
    The images folder, a directory created empty for the run: each file,
    identified by the parts of its name (`ShotPathNamesFile`), with the
    `src` of the image whose picture it holds.
   */
  class Disk {
    var files: map<NameParts, string>

    constructor(files0: map<NameParts, string>)
      ensures files == files0
    {
      files := files0;
    }

    /** `os.path.exists(image_path)`. */
    function Exists(file: NameParts): (b: bool)
      reads this
      ensures b <==> file in files
    {
      file in files
    }

    /** `img.screenshot(image_path)`: writes the picture of the image src to the file. */
    method Screenshot(file: NameParts, src: string)
      modifies this
      ensures files == old(files)[file := src]
    {
      files := files[file := src];
    }
  }

  /** One more image: one more name and one more capture. */
  lemma ElementStep(srcs: seq<string>, q: nat, isAnswer: bool, i: int)
    requires 0 <= i < |srcs|
    ensures Shots(srcs[..i + 1], q, isAnswer) == Shots(srcs[..i], q, isAnswer) + [Shot(isAnswer, q, i, Extension(srcs[i]), srcs[i])]
    ensures ImageNames(srcs[..i + 1], q, isAnswer) == ImageNames(srcs[..i], q, isAnswer) + [ShotName(Shot(isAnswer, q, i, Extension(srcs[i]), srcs[i]))]
  {
    var before := Shots(srcs[..i], q, isAnswer);
    var after := Shots(srcs[..i + 1], q, isAnswer);
    assert srcs[..i + 1][..i] == srcs[..i];
    assert after == before + [Shot(isAnswer, q, i, Extension(srcs[i]), srcs[i])];
    assert after[..i] == before;
  }

  /**
    `extract_images_from_element`: returns the images' names in page order
    and leaves the folder as the captures, in order, leave it.
   */
  method ExtractImages(disk: Disk, srcs: seq<string>, q: nat, isAnswer: bool)
    returns (names: seq<string>)
    modifies disk
    ensures names == ImageNames(srcs, q, isAnswer)
    ensures disk.files == Saved(old(disk.files), Shots(srcs, q, isAnswer))
  {
    names := [];
    for i := 0 to |srcs|
      invariant names == ImageNames(srcs[..i], q, isAnswer)
      invariant disk.files == Saved(old(disk.files), Shots(srcs[..i], q, isAnswer))
    {
      ElementStep(srcs, q, isAnswer, i);
      ghost var shot := Shot(isAnswer, q, i, Extension(srcs[i]), srcs[i]);
      var ext := SplitExt(srcs[i]).1;
      var name := ImageName(isAnswer, q, i, ext);
      var file := NameParts(isAnswer, q, i, ext);
      assert name == ShotName(shot) && file == FileOf(shot);
      if !disk.Exists(file) {
        disk.Screenshot(file, srcs[i]);
      }
      names := names + [name];
      SavedSnoc(old(disk.files), Shots(srcs[..i], q, isAnswer), shot);
    }
    assert srcs[..|srcs|] == srcs;
  }
}
