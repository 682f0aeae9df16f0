/**
 * File-name logic: the output-name sanitiser and length cap of the desktop
 * application (get_smart_filename, translate_filename_to_english), the title
 * test of preprocess_content_with_title, and the upload-name sanitiser and
 * file-type dispatch of the web application's read_doc.
 */
module FileNames {
  import opened Text
  import Paths

  // ---------------------------------------------------------------------
  // Character classes
  // ---------------------------------------------------------------------

  /** A character in U+4E00..U+9FFF, the test translate_filename_to_english uses. */
  predicate IsCJK(c: char) {
    '一' <= c <= '鿿'
  }

  predicate HasCJK(s: string) {
    exists i | 0 <= i < |s| :: IsCJK(s[i])
  }

  predicate IsAsciiLetter(c: char) {
    ('a' <= c <= 'z') || ('A' <= c <= 'Z')
  }

  /** The regex class \w, approximated: ASCII letters and digits, '_', and the CJK block. */
  predicate IsWordChar(c: char) {
    IsAsciiLetter(c) || ('0' <= c <= '9') || c == '_' || IsCJK(c)
  }

  /** The characters the output-name sanitiser removes or replaces. */
  const Forbidden: set<char> := {':', '/', '\\', '?', '*', '"', '<', '>', '|'}

  predicate SafeName(s: string) {
    forall i | 0 <= i < |s| :: s[i] !in Forbidden
  }

  // ---------------------------------------------------------------------
  // The output-name sanitiser
  // ---------------------------------------------------------------------

  /** ':' becomes " -", '/' and '\' become '-', and ? * " < > | are removed, in the source's order. */
  function Sanitize(s: string): string {
    var a := ReplaceChar(ReplaceChar(ReplaceChar(s, ':', " -"), '/', "-"), '\\', "-");
    ReplaceChar(ReplaceChar(ReplaceChar(ReplaceChar(ReplaceChar(ReplaceChar(
      a, '?', ""), '*', ""), '"', ""), '<', ""), '>', ""), '|', "")
  }

  lemma SafeNameIff(s: string)
    ensures SafeName(s) <==> forall c | c in Forbidden :: c !in s
  {
    if !SafeName(s) {
      var i :| 0 <= i < |s| && s[i] in Forbidden;
      assert s[i] in s;
    }
  }

  predicate AbsentAll(s: string, cs: set<char>) {
    forall c | c in cs :: c !in s
  }

  /** One replacement removes its character and brings back none of the absent ones. */
  lemma ReplaceStep(s: string, c: char, rep: string, cs: set<char>)
    requires AbsentAll(s, cs) && c !in rep && AbsentAll(rep, cs)
    ensures AbsentAll(ReplaceChar(s, c, rep), cs + {c})
  {
    forall d | d in cs + {c} ensures d !in ReplaceChar(s, c, rep) {
      if d != c {
        ReplaceCharKeepsAbsent(s, c, rep, d);
      }
    }
  }

  /** The sanitised name contains none of : / \ ? * " < > | */
  lemma SanitizeIsSafe(s: string)
    ensures SafeName(Sanitize(s))
  {
    var a1 := ReplaceChar(s, ':', " -");
    ReplaceStep(s, ':', " -", {});
    var a2 := ReplaceChar(a1, '/', "-");
    ReplaceStep(a1, '/', "-", {':'});
    var a3 := ReplaceChar(a2, '\\', "-");
    ReplaceStep(a2, '\\', "-", {':', '/'});
    var b1 := ReplaceChar(a3, '?', "");
    ReplaceStep(a3, '?', "", {':', '/', '\\'});
    var b2 := ReplaceChar(b1, '*', "");
    ReplaceStep(b1, '*', "", {':', '/', '\\', '?'});
    var b3 := ReplaceChar(b2, '"', "");
    ReplaceStep(b2, '"', "", {':', '/', '\\', '?', '*'});
    var b4 := ReplaceChar(b3, '<', "");
    ReplaceStep(b3, '<', "", {':', '/', '\\', '?', '*', '"'});
    var b5 := ReplaceChar(b4, '>', "");
    ReplaceStep(b4, '>', "", {':', '/', '\\', '?', '*', '"', '<'});
    var r := ReplaceChar(b5, '|', "");
    ReplaceStep(b5, '|', "", {':', '/', '\\', '?', '*', '"', '<', '>'});
    assert r == Sanitize(s);
    assert {':', '/', '\\', '?', '*', '"', '<', '>'} + {'|'} == Forbidden;
    SafeNameIff(r);
  }

  lemma {:induction false} ReplaceCharAbsent(s: string, c: char, rep: string)
    requires c !in s
    ensures ReplaceChar(s, c, rep) == s
  {
    if s != "" {
      ReplaceCharAbsent(s[1..], c, rep);
      assert s[0] != c by { assert s[0] in s; }
      assert [s[0]] + s[1..] == s;
    }
  }

  /** A name that is already safe passes through unchanged; so sanitising twice changes nothing. */
  lemma SanitizeKeepsSafe(s: string)
    requires SafeName(s)
    ensures Sanitize(s) == s
  {
    SafeNameIff(s);
    ReplaceCharAbsent(s, ':', " -");
    ReplaceCharAbsent(s, '/', "-");
    ReplaceCharAbsent(s, '\\', "-");
    ReplaceCharAbsent(s, '?', "");
    ReplaceCharAbsent(s, '*', "");
    ReplaceCharAbsent(s, '"', "");
    ReplaceCharAbsent(s, '<', "");
    ReplaceCharAbsent(s, '>', "");
    ReplaceCharAbsent(s, '|', "");
  }

  lemma SanitizeIdempotent(s: string)
    ensures Sanitize(Sanitize(s)) == Sanitize(s)
  {
    SanitizeIsSafe(s);
    SanitizeKeepsSafe(Sanitize(s));
  }

  /** name[:100] when it is longer than 100 characters */
  function Cap(s: string): (r: string)
    ensures |r| <= 100 && r <= s
    ensures |s| <= 100 ==> r == s
    ensures |s| > 100 ==> |r| == 100
  {
    if |s| > 100 then s[..100] else s
  }

  lemma SliceKeepsSafe(s: string, i: nat, j: nat)
    requires SafeName(s) && i <= j <= |s|
    ensures SafeName(s[i..j])
  {
    assert forall k | 0 <= k < j - i :: s[i..j][k] == s[i + k];
  }

  // ---------------------------------------------------------------------
  // Title detection
  // ---------------------------------------------------------------------

  /** content.strip().split('\n')[0].strip() */
  function FirstLine(content: string): string {
    Strip(Lines(Strip(content))[0])
  }

  /** The chapter-title test of get_smart_filename. */
  predicate LooksLikeChapter(line: string) {
    line != "" && |line| < 100 &&
    (Contains(Lower(line), "chapter") || Contains(Lower(line), "prologue") ||
     Contains(Lower(line), "epilogue") || Contains(Lower(line), "part") || '章' in line)
  }

  /** s.replace(pat, "") for a non-empty pattern: non-overlapping, left to right. */
  function RemoveAll(s: string, pat: string): (r: string)
    requires pat != ""
    ensures |r| <= |s|
    decreases |s|
  {
    if s == "" then ""
    else if StartsWith(s, pat) then RemoveAll(s[|pat|..], pat)
    else [s[0]] + RemoveAll(s[1..], pat)
  }

  /** filename.replace('.txt', '').replace('.md', '') */
  function TitleStem(filename: string): string {
    RemoveAll(RemoveAll(filename, ".txt"), ".md")
  }

  /** The title test of preprocess_content_with_title: the chapter test, or the file name's stem appears. */
  predicate HasTitle(line: string, filename: string) {
    LooksLikeChapter(line) || (line != "" && |line| < 100 && Contains(line, TitleStem(filename)))
  }

  /** preprocess_content_with_title */
  function PreprocessContentWithTitle(content: string, filename: string): string {
    if HasTitle(FirstLine(content), filename) then content
    else filename + "\n\n" + content
  }

  /**
   * The content is always kept in full at the end of the result; the file name is
   * added as a title, followed by an empty line, exactly when the first line is not
   * already a title.
   */
  lemma PreprocessKeepsContent(content: string, filename: string)
    ensures var r := PreprocessContentWithTitle(content, filename);
            EndsWith(r, content) &&
            (r == content <==> HasTitle(FirstLine(content), filename)) &&
            (r != content ==> StartsWith(r, filename + "\n\n"))
  {
    var r := PreprocessContentWithTitle(content, filename);
    if !HasTitle(FirstLine(content), filename) {
      assert r[|r| - |content|..] == content;
      assert (filename + "\n\n" + content)[..|filename| + 2] == filename + "\n\n";
    }
  }

  // ---------------------------------------------------------------------
  // Output names
  // ---------------------------------------------------------------------

  /** What the one-chunk translation call used for a file name gave back. */
  datatype ApiOutcome = Answered(text: string) | Raised

  /** The characters stripped from both ends of the translated title. */
  const TitlePunctuation: set<char> := {'"', '\'', '.', ',', ';', ':', '!', '?', '。', '，', '；', '：', '！', '？'}

  /** translate_filename_to_english; `outcome` is what the translation call returned. */
  function TranslateFilenameToEnglish(name: string, outcome: ApiOutcome): string {
    if !HasCJK(name) then name + ".txt"
    else match outcome
      case Answered(text) => Cap(Sanitize(StripChars(Strip(text), TitlePunctuation))) + ".txt"
      case Raised => Sanitize(name) + ".txt"
  }

  /** get_smart_filename */
  function GetSmartFilename(finalTranslation: string, filename: string, outcome: ApiOutcome): string {
    if finalTranslation != "" && LooksLikeChapter(FirstLine(finalTranslation)) then
      Cap(Strip(Sanitize(FirstLine(finalTranslation)))) + ".txt"
    else TranslateFilenameToEnglish(filename, outcome)
  }

  /** The stem of an output name: everything before the ".txt" that is always appended. */
  function Stem(r: string): string
    requires EndsWith(r, ".txt")
  {
    r[..|r| - 4]
  }

  lemma StripKeepsSafe(s: string)
    requires SafeName(s)
    ensures SafeName(Strip(s))
  {
    var l := LStrip(s);
    SliceKeepsSafe(s, |s| - |l|, |s|);
    SliceKeepsSafe(l, 0, |RStrip(l)|);
  }

  /**
   * translate_filename_to_english: a name without CJK characters is kept as it is;
   * a translated name is safe and at most 100 characters long; when the call raises,
   * the original name is sanitised but not shortened.
   */
  lemma TranslatedNameShape(name: string, outcome: ApiOutcome)
    ensures var r := TranslateFilenameToEnglish(name, outcome);
            EndsWith(r, ".txt") &&
            (!HasCJK(name) ==> Stem(r) == name) &&
            (HasCJK(name) && outcome.Answered? ==> SafeName(Stem(r)) && |Stem(r)| <= 100) &&
            (HasCJK(name) && outcome.Raised? ==> Stem(r) == Sanitize(name) && SafeName(Stem(r)))
  {
    if HasCJK(name) {
      if outcome.Answered? {
        var t := StripChars(Strip(outcome.text), TitlePunctuation);
        SanitizeIsSafe(t);
        SliceKeepsSafe(Sanitize(t), 0, |Cap(Sanitize(t))|);
        StemOfTxt(Cap(Sanitize(t)));
      } else {
        SanitizeIsSafe(name);
        StemOfTxt(Sanitize(name));
      }
    } else {
      StemOfTxt(name);
    }
  }

  lemma StemOfTxt(x: string)
    ensures EndsWith(x + ".txt", ".txt") && Stem(x + ".txt") == x
  {
    assert (x + ".txt")[|x|..] == ".txt";
  }

  /**
   * get_smart_filename: a chapter-like first line gives a safe name of at most 100
   * characters; otherwise the name comes from translate_filename_to_english.
   */
  lemma SmartFilenameShape(finalTranslation: string, filename: string, outcome: ApiOutcome)
    ensures var r := GetSmartFilename(finalTranslation, filename, outcome);
            var chapter := finalTranslation != "" && LooksLikeChapter(FirstLine(finalTranslation));
            EndsWith(r, ".txt") &&
            (chapter ==> SafeName(Stem(r)) && |Stem(r)| <= 100) &&
            (!chapter ==> r == TranslateFilenameToEnglish(filename, outcome))
  {
    var r := GetSmartFilename(finalTranslation, filename, outcome);
    if finalTranslation != "" && LooksLikeChapter(FirstLine(finalTranslation)) {
      var s := Strip(Sanitize(FirstLine(finalTranslation)));
      SanitizeIsSafe(FirstLine(finalTranslation));
      StripKeepsSafe(Sanitize(FirstLine(finalTranslation)));
      SliceKeepsSafe(s, 0, |Cap(s)|);
      assert r[|r| - 4..] == ".txt";
      assert Stem(r) == Cap(s);
    } else {
      TranslatedNameShape(filename, outcome);
    }
  }

  // ---------------------------------------------------------------------
  // read_doc: the upload name and the file type
  // ---------------------------------------------------------------------

  /** re.sub(r'[^\w\-]', '_', s) */
  function ReplaceNonWord(s: string): (r: string)
    ensures |r| == |s|
    ensures forall i | 0 <= i < |s| :: r[i] == (if IsWordChar(s[i]) || s[i] == '-' then s[i] else '_')
  {
    seq(|s|, i requires 0 <= i < |s| => if IsWordChar(s[i]) || s[i] == '-' then s[i] else '_')
  }

  /**
   * The name read_doc remembers for the download. It is never empty, starts with an
   * ASCII letter and holds only word characters and '-'. A stem that starts with an
   * ASCII letter keeps its length, with every other character replaced by '_'
   * ("my file" gives "my_file"); any other stem, the empty one included, gives
   * "translated". The stem comes back unchanged exactly when it already has that form.
   */
  function EnglishName(stem: string): (e: string)
    ensures e != "" && IsAsciiLetter(e[0])
    ensures forall i | 0 <= i < |e| :: IsWordChar(e[i]) || e[i] == '-'
    ensures stem == "" || !IsAsciiLetter(stem[0]) ==> e == "translated"
    ensures stem != "" && IsAsciiLetter(stem[0]) ==>
              |e| == |stem| &&
              forall i | 0 <= i < |stem| :: e[i] == (if IsWordChar(stem[i]) || stem[i] == '-' then stem[i] else '_')
    ensures (stem != "" && IsAsciiLetter(stem[0]) &&
             forall i | 0 <= i < |stem| :: IsWordChar(stem[i]) || stem[i] == '-') <==> e == stem
  {
    var e := ReplaceNonWord(stem);
    if e == "" || !IsAsciiLetter(e[0]) then "translated" else e
  }

  /** "my file" keeps its letters with the space replaced; a name in Chinese becomes "translated". */
  lemma EnglishNameExamples()
    ensures EnglishName("my file") == "my_file"
    ensures EnglishName("第一章") == "translated"
  {
    var e := EnglishName("my file");
    assert |e| == 7;
    assert e[0] == 'm' && e[1] == 'y' && e[2] == '_' && e[3] == 'f' && e[4] == 'i' && e[5] == 'l' && e[6] == 'e';
  }

  /** The text extractors of the unseen process module. */
  datatype Extractor = Pdf | Docx | PlainText

  datatype ReadError = EmptyPath | Missing | NoExtension | Unsupported(fileType: string)

  datatype Result<T> = Ok(value: T) | Err(error: ReadError)

  const Whitelist: seq<string> := ["pdf", "txt", "py", "docx", "json", "cpp", "md"]

  /** os.path.splitext(path)[1][1:].lower() */
  function FileType(path: string): string {
    var ext := Paths.SplitExt(path).1;
    Lower(if ext == "" then "" else ext[1..])
  }

  /** The extension check and dispatch shared by read_doc and read_uploaded_files. */
  function ChooseExtractor(path: string): Result<Extractor> {
    if '.' !in Paths.Basename(path) then Err(NoExtension)
    else
      var t := FileType(path);
      if t in Whitelist then
        Ok(if t == "pdf" then Pdf else if t == "docx" then Docx else PlainText)
      else Err(Unsupported(t))
  }

  /**
   * A file is read iff its base name has a dot and its lower-cased extension is
   * whitelisted; pdf goes to the PDF extractor, docx to the Word extractor, and
   * every other whitelisted type to the plain-text extractor.
   */
  lemma ChooseExtractorCases(path: string)
    ensures ChooseExtractor(path).Ok? <==> '.' in Paths.Basename(path) && FileType(path) in Whitelist
    ensures ChooseExtractor(path) == Ok(Pdf) <==> '.' in Paths.Basename(path) && FileType(path) == "pdf"
    ensures ChooseExtractor(path) == Ok(Docx) <==> '.' in Paths.Basename(path) && FileType(path) == "docx"
    ensures ChooseExtractor(path).Err? && '.' in Paths.Basename(path) ==>
            ChooseExtractor(path) == Err(Unsupported(FileType(path)))
  {
  }

  /** A path whose last component has no extension recognised by splitext is never read. */
  lemma BareNameRejected(path: string)
    requires Paths.SplitExt(path).1 == ""
    ensures ChooseExtractor(path).Err?
  {
    assert Lower("") == "";
    assert "" !in Whitelist;
  }

  /** The name part the local batch keeps for each file: os.path.splitext(basename)[0]. */
  function NameWithoutExt(path: string): string {
    Paths.SplitExt(Paths.Basename(path)).0
  }
}
