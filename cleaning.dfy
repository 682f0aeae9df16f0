/**
 * Post-processing of translated text: the blank-line filter applied to every
 * source text and upload (app/app.py, app/app_local.py), and the cleanup that
 * prepares a final translation for a novel web site (clean_translation_for_novel).
 */
module Cleaning {
  import opened Text

  // =====================================================================
  // The blank-line filter:  re.sub(r"(?m)^\s*$\n?", "", s)
  // =====================================================================

  function IndexOfNewline(s: string): (k: nat)
    requires '\n' in s
    ensures k < |s| && s[k] == '\n' && '\n' !in s[..k]
  {
    if s[0] == '\n' then 0
    else
      assert '\n' in s[1..] by { var j :| 0 <= j < |s| && s[j] == '\n'; assert s[1..][j - 1] == '\n'; }
      var k := IndexOfNewline(s[1..]) + 1;
      assert s[..k] == [s[0]] + s[1..][..k - 1];
      k
  }

  /**
   * Every line that is empty or whitespace-only is deleted together with the
   * newline that ends it; every other line is kept verbatim.
   */
  function RemoveBlankLines(s: string): string
    decreases |s|
  {
    if '\n' in s then
      var k := IndexOfNewline(s);
      (if AllSpace(s[..k]) then "" else s[..k] + "\n") + RemoveBlankLines(s[k + 1..])
    else if AllSpace(s) then ""
    else s
  }

  function NonBlank(ls: seq<string>): (r: seq<string>)
    ensures forall k | 0 <= k < |r| :: !AllSpace(r[k])
  {
    if ls == [] then []
    else (if AllSpace(ls[0]) then [] else [ls[0]]) + NonBlank(ls[1..])
  }

  function Last(ls: seq<string>): string
    requires ls != []
  {
    ls[|ls| - 1]
  }

  lemma LinesAtNewline(s: string, k: nat)
    requires k < |s| && s[k] == '\n' && '\n' !in s[..k]
    ensures Lines(s) == [s[..k]] + Lines(s[k + 1..])
  {
    assert s == s[..k] + "\n" + s[k + 1..];
    LinesCons(s[..k], s[k + 1..]);
  }

  lemma NonBlankCons(x: string, ls: seq<string>)
    ensures NonBlank([x] + ls) == (if AllSpace(x) then [] else [x]) + NonBlank(ls)
  {
    assert ([x] + ls)[1..] == ls;
  }

  /** The lines the filter produces, as a function of the input's lines. */
  function FilteredLines(ls: seq<string>): seq<string>
    requires ls != []
  {
    NonBlank(ls) + (if AllSpace(Last(ls)) then [""] else [])
  }

  lemma FilteredLinesCons(x: string, ls: seq<string>)
    requires ls != []
    ensures FilteredLines([x] + ls) == (if AllSpace(x) then [] else [x]) + FilteredLines(ls)
  {
    NonBlankCons(x, ls);
    assert Last([x] + ls) == Last(ls);
  }

  lemma RemoveBlankLinesLastLine(s: string)
    requires '\n' !in s
    ensures Lines(RemoveBlankLines(s)) == FilteredLines(Lines(s))
  {
    LinesSingle(s);
    NonBlankCons(s, []);
    if AllSpace(s) {
      assert RemoveBlankLines(s) == "";
      assert Lines("") == [""];
      assert NonBlank([s]) == [];
      assert Last(Lines(s)) == s;
    }
  }

  lemma RemoveBlankLinesUnfold(s: string, k: nat)
    requires '\n' in s && k == IndexOfNewline(s)
    ensures RemoveBlankLines(s) ==
            (if AllSpace(s[..k]) then "" else s[..k] + "\n") + RemoveBlankLines(s[k + 1..])
  {
  }

  lemma RemoveBlankLinesStep(s: string, k: nat)
    requires '\n' in s && k == IndexOfNewline(s)
    ensures Lines(s) == [s[..k]] + Lines(s[k + 1..])
    ensures Lines(RemoveBlankLines(s)) ==
            (if AllSpace(s[..k]) then [] else [s[..k]]) + Lines(RemoveBlankLines(s[k + 1..]))
  {
    var line, tail := s[..k], RemoveBlankLines(s[k + 1..]);
    LinesAtNewline(s, k);
    RemoveBlankLinesUnfold(s, k);
    if AllSpace(line) {
      assert RemoveBlankLines(s) == tail;
    } else {
      assert RemoveBlankLines(s) == line + "\n" + tail;
      LinesCons(line, tail);
    }
  }

  /**
   * The lines of the filtered text are exactly the non-blank lines of the input,
   * verbatim and in order, followed by one empty line when the input ended
   * with a newline or a blank last line (the final newline that the filter keeps).
   */
  lemma {:induction false} RemoveBlankLinesLines(s: string)
    ensures Lines(RemoveBlankLines(s)) == FilteredLines(Lines(s))
    decreases |s|
  {
    if '\n' in s {
      var k := IndexOfNewline(s);
      RemoveBlankLinesStep(s, k);
      RemoveBlankLinesLines(s[k + 1..]);
      FilteredLinesCons(s[..k], Lines(s[k + 1..]));
    } else {
      RemoveBlankLinesLastLine(s);
    }
  }

  /** Corollary: no line of the filtered text is blank except a final empty one. */
  lemma NoBlankLineAfterRemoval(s: string)
    ensures var ls := Lines(RemoveBlankLines(s));
            (forall k | 0 <= k < |ls| - 1 :: !AllSpace(ls[k])) && NotBlankOrEmpty(Last(ls))
  {
    RemoveBlankLinesLines(s);
  }

  // =====================================================================
  // clean_translation_for_novel
  // =====================================================================

  /** The lead-in markers an AI model tends to put before its translation. */
  const AiMarkers: seq<string> := [
    "翻译如下：", "翻译如下:", "翻译：", "翻译:",
    "正文如下：", "正文如下:", "正文：", "正文:",
    "Translation:", "Translation as follows:", "TRANSLATION:", "TRANSLATION",
    "Here is the translation:", "Here's the translation:",
    "The translation is:", "Translated text:",
    "以下是翻译：", "以下是翻译:", "以下为翻译：", "以下为翻译:",
    "译文如下：", "译文如下:", "译文：", "译文:",
    "英文翻译：", "英文翻译:", "英译：", "英译:",
    "中文翻译：", "中文翻译:", "中译：", "中译:"
  ]

  /** A stripped line that starts with (or equals) one of the markers. */
  predicate IsAiMarker(t: string) {
    exists j | 0 <= j < |AiMarkers| :: StartsWith(t, AiMarkers[j])
  }

  /** What the line loop appends for line number i. */
  function LineDecision(line: string, i: nat): seq<string> {
    if Strip(line) == "" then [""]
    else if i < 3 && IsAiMarker(Strip(line)) then []
    else [line]
  }

  /** The list the line loop has built after its first n iterations. */
  function KeptLines(lines: seq<string>, n: nat): seq<string>
    requires n <= |lines|
  {
    if n == 0 then [] else KeptLines(lines, n - 1) + LineDecision(lines[n - 1], n - 1)
  }

  /** Reference: line i survives iff it is not blank and is not a marker among the first three lines. */
  function Survivors(lines: seq<string>, n: nat): seq<string>
    requires n <= |lines|
  {
    if n == 0 then []
    else
      Survivors(lines, n - 1) +
      (if !AllSpace(lines[n - 1]) && !(n - 1 < 3 && IsAiMarker(Strip(lines[n - 1])))
       then [lines[n - 1]] else [])
  }

  /**
   * re.sub(r'\n{3,}', '\n\n', s): k counts the newlines just emitted (at most 2);
   * a newline that would be the third in a row is dropped.
   */
  function CollapseFrom(s: string, k: nat): string
    decreases |s|
  {
    if s == "" then ""
    else if s[0] == '\n' then
      (if k >= 2 then CollapseFrom(s[1..], 2) else "\n" + CollapseFrom(s[1..], k + 1))
    else [s[0]] + CollapseFrom(s[1..], 0)
  }

  function CollapseNewlines(s: string): string {
    CollapseFrom(s, 0)
  }

  /** '\n'.join(line.rstrip() for line in s.split('\n')) */
  function RStripLines(s: string): string {
    Join(MapRStrip(Lines(s)))
  }

  function CleanedLines(text: string): seq<string> {
    var lines := Lines(Strip(text));
    KeptLines(lines, |lines|)
  }

  /** The whole cleanup, step by step as the source performs it. */
  function CleanSpec(text: string): string {
    if text == "" then "" else RStripLines(Compacted(text))
  }

  /** The marker scan over AiMarkers, stopping at the first match. */
  method MatchesAiMarker(stripped: string) returns (isMarker: bool)
    ensures isMarker <==> IsAiMarker(stripped)
  {
    isMarker := false;
    var m := 0;
    while m < |AiMarkers| && !isMarker
      invariant 0 <= m <= |AiMarkers|
      invariant isMarker <==> exists j | 0 <= j < m :: StartsWith(stripped, AiMarkers[j])
    {
      if StartsWith(stripped, AiMarkers[m]) || stripped == AiMarkers[m] {
        isMarker := true;
      }
      m := m + 1;
    }
  }

  /** A line that is not whitespace-only is dropped exactly when the marker scan flagged it. */
  lemma DecisionOfText(line: string, i: nat, isMarker: bool)
    requires Strip(line) != "" && (isMarker <==> i < 3 && IsAiMarker(Strip(line)))
    ensures LineDecision(line, i) == if isMarker then [] else [line]
  {
  }

  /**
   * The body of the line loop for line number i: an empty line for a
   * whitespace-only line, nothing for a marker among the first three lines,
   * the line itself otherwise.
   */
  method LineStep(line: string, i: nat) returns (kept: seq<string>)
    ensures kept == LineDecision(line, i)
  {
    var stripped := Strip(line);
    if stripped == "" {
      return [""];
    }
    var isMarker := false;
    if i < 3 {
      isMarker := MatchesAiMarker(stripped);
    }
    DecisionOfText(line, i, isMarker);
    if isMarker {
      return [];
    }
    return [line];
  }

  /** clean_translation_for_novel, with its line loop. */
  method CleanTranslationForNovel(text: string) returns (r: string)
    ensures r == CleanSpec(text)
  {
    if text == "" {
      return "";
    }
    var lines := Lines(Strip(text));
    var cleaned: seq<string> := [];
    for i := 0 to |lines|
      invariant cleaned == KeptLines(lines, i)
    {
      var kept := LineStep(lines[i], i);
      cleaned := cleaned + kept;
    }
    var joined := Join(cleaned);
    joined := LStripNewlines(joined);
    joined := CollapseNewlines(joined);
    r := RStripLines(joined);
  }

  // ---------------------------------------------------------------------
  // Properties of the cleanup
  // ---------------------------------------------------------------------

  predicate NoTriple(t: string) {
    forall i | 0 <= i && i + 2 < |t| :: !(t[i] == '\n' && t[i + 1] == '\n' && t[i + 2] == '\n')
  }

  predicate LeadNL(t: string) {
    |t| >= 1 && t[0] == '\n'
  }

  predicate LeadNL2(t: string) {
    |t| >= 2 && t[0] == '\n' && t[1] == '\n'
  }

  predicate AllGood(ls: seq<string>) {
    forall k | 0 <= k < |ls| :: NotBlankOrEmpty(ls[k])
  }

  predicate RestGood(ls: seq<string>) {
    forall k | 1 <= k < |ls| :: NotBlankOrEmpty(ls[k])
  }

  /** Two empty lines in a row, neither of them the first line and not at the very end. */
  predicate NoEmptyPair(ls: seq<string>) {
    forall j | 1 <= j && j + 2 < |ls| :: !(ls[j] == "" && ls[j + 1] == "")
  }

  lemma LinesNewlineFirst(x: string)
    ensures Lines("\n" + x) == [""] + Lines(x)
  {
    assert ("\n" + x)[1..] == x;
  }

  lemma LinesCharFirst(c: char, x: string)
    requires c != '\n'
    ensures Lines([c] + x) == [[c] + Lines(x)[0]] + Lines(x)[1..]
  {
    assert ([c] + x)[1..] == x;
  }

  /** What one iteration appends: a good line without newlines, kept exactly when it survives. */
  lemma DecisionShape(line: string, i: nat)
    requires '\n' !in line
    ensures var d := LineDecision(line, i);
            AllGood(d) && NoNewlines(d) &&
            NonEmpty(d) == (if !AllSpace(line) && !(i < 3 && IsAiMarker(Strip(line))) then [line] else [])
  {
    StripEmptyIffAllSpace(line);
    if !AllSpace(line) {
      assert line != "";
    }
  }

  lemma GoodAppend(a: seq<string>, b: seq<string>)
    requires AllGood(a) && NoNewlines(a) && AllGood(b) && NoNewlines(b)
    ensures AllGood(a + b) && NoNewlines(a + b)
  {
  }

  lemma {:induction false} KeptLinesShape(lines: seq<string>, n: nat)
    requires n <= |lines| && NoNewlines(lines)
    ensures AllGood(KeptLines(lines, n)) && NoNewlines(KeptLines(lines, n))
    ensures NonEmpty(KeptLines(lines, n)) == Survivors(lines, n)
  {
    if n > 0 {
      KeptLinesShape(lines, n - 1);
      var line := lines[n - 1];
      assert '\n' !in line;
      KeptStep(KeptLines(lines, n - 1), Survivors(lines, n - 1), line, n - 1);
    }
  }

  /** One iteration of the line loop keeps the shape, given the shape so far. */
  lemma KeptStep(prev: seq<string>, survivors: seq<string>, line: string, i: nat)
    requires AllGood(prev) && NoNewlines(prev) && NonEmpty(prev) == survivors && '\n' !in line
    ensures var d := LineDecision(line, i);
            AllGood(prev + d) && NoNewlines(prev + d) &&
            NonEmpty(prev + d) == survivors + (if !AllSpace(line) && !(i < 3 && IsAiMarker(Strip(line))) then [line] else [])
  {
    var d := LineDecision(line, i);
    DecisionShape(line, i);
    GoodAppend(prev, d);
    NonEmptyAppend(prev, d);
  }

  lemma {:induction false} LStripNewlinesLines(x: string)
    ensures AllGood(Lines(x)) ==> AllGood(Lines(LStripNewlines(x)))
    ensures NonEmpty(Lines(LStripNewlines(x))) == NonEmpty(Lines(x))
    decreases |x|
  {
    if x != "" && x[0] == '\n' {
      LStripNewlinesLines(x[1..]);
      assert x == "\n" + x[1..];
      LinesNewlineFirst(x[1..]);
    }
  }

  lemma {:induction false} CollapseFirstLine(s: string)
    ensures Lines(CollapseFrom(s, 0))[0] == Lines(s)[0]
    decreases |s|
  {
    if s == "" {
    } else if s[0] == '\n' {
      LinesNewlineFirst(CollapseFrom(s[1..], 1));
      assert s == "\n" + s[1..];
      LinesNewlineFirst(s[1..]);
    } else {
      CollapseFirstLine(s[1..]);
      LinesCharFirst(s[0], CollapseFrom(s[1..], 0));
      assert s == [s[0]] + s[1..];
      LinesCharFirst(s[0], s[1..]);
    }
  }

  lemma GoodCons(x: string, ls: seq<string>)
    ensures AllGood([x] + ls) <==> NotBlankOrEmpty(x) && AllGood(ls)
    ensures RestGood([x] + ls) <==> AllGood(ls)
  {
    assert ([x] + ls)[0] == x;
    assert forall k | 0 <= k < |ls| :: ([x] + ls)[k + 1] == ls[k];
  }

  lemma NonEmptyCons(x: string, ls: seq<string>)
    ensures NonEmpty([x] + ls) == (if x == "" then [] else [x]) + NonEmpty(ls)
  {
    assert ([x] + ls)[1..] == ls;
  }

  lemma {:induction false} CollapseKeepsGood(s: string, k: nat)
    ensures AllGood(Lines(s)) ==> AllGood(Lines(CollapseFrom(s, k)))
    ensures RestGood(Lines(s)) ==> RestGood(Lines(CollapseFrom(s, k)))
    decreases |s|
  {
    if s == "" {
    } else if s[0] == '\n' {
      var x := s[1..];
      assert s == "\n" + x;
      LinesNewlineFirst(x);
      GoodCons("", Lines(x));
      if k >= 2 {
        CollapseKeepsGood(x, 2);
      } else {
        CollapseKeepsGood(x, k + 1);
        LinesNewlineFirst(CollapseFrom(x, k + 1));
        GoodCons("", Lines(CollapseFrom(x, k + 1)));
      }
    } else {
      CollapseKeepsGood(s[1..], 0);
      CollapseGoodChar(s, k);
    }
  }

  /** The step of CollapseKeepsGood for a text that starts with a character other than a newline. */
  lemma CollapseGoodChar(s: string, k: nat)
    requires s != "" && s[0] != '\n'
    requires AllGood(Lines(s[1..])) ==> AllGood(Lines(CollapseFrom(s[1..], 0)))
    requires RestGood(Lines(s[1..])) ==> RestGood(Lines(CollapseFrom(s[1..], 0)))
    ensures AllGood(Lines(s)) ==> AllGood(Lines(CollapseFrom(s, k)))
    ensures RestGood(Lines(s)) ==> RestGood(Lines(CollapseFrom(s, k)))
  {
    var x := s[1..];
    var t := CollapseFrom(x, 0);
    CollapseFirstLine(x);
    assert s == [s[0]] + x;
    assert CollapseFrom(s, k) == [s[0]] + t;
    LinesCharFirst(s[0], x);
    LinesCharFirst(s[0], t);
    var lt, lx := Lines(t), Lines(x);
    assert lt == [lt[0]] + lt[1..];
    assert lx == [lx[0]] + lx[1..];
    GoodCons(lt[0], lt[1..]);
    GoodCons(lx[0], lx[1..]);
    GoodCons([s[0]] + lx[0], lt[1..]);
    GoodCons([s[0]] + lx[0], lx[1..]);
  }

  /** Prefixing a non-newline character to two texts with the same first line and the same non-empty lines. */
  lemma NonEmptyCharFirst(c: char, t: string, x: string)
    requires c != '\n'
    requires Lines(t)[0] == Lines(x)[0] && NonEmpty(Lines(t)) == NonEmpty(Lines(x))
    ensures NonEmpty(Lines([c] + t)) == NonEmpty(Lines([c] + x))
  {
    var lt, lx := Lines(t), Lines(x);
    assert lt == [lt[0]] + lt[1..];
    assert lx == [lx[0]] + lx[1..];
    NonEmptyCons(lt[0], lt[1..]);
    NonEmptyCons(lx[0], lx[1..]);
    var pre := if lt[0] == "" then [] else [lt[0]];
    assert NonEmpty(lt[1..]) == (pre + NonEmpty(lt[1..]))[|pre|..];
    assert NonEmpty(lx[1..]) == (pre + NonEmpty(lx[1..]))[|pre|..];
    LinesCharFirst(c, t);
    LinesCharFirst(c, x);
    var first := [c] + lx[0];
    NonEmptyCons(first, lt[1..]);
    NonEmptyCons(first, lx[1..]);
  }

  lemma {:induction false} CollapseKeepsNonEmpty(s: string, k: nat)
    ensures NonEmpty(Lines(CollapseFrom(s, k))) == NonEmpty(Lines(s))
    decreases |s|
  {
    if s == "" {
    } else if s[0] == '\n' {
      var x := s[1..];
      assert s == "\n" + x;
      LinesNewlineFirst(x);
      NonEmptyCons("", Lines(x));
      if k >= 2 {
        CollapseKeepsNonEmpty(x, 2);
      } else {
        CollapseKeepsNonEmpty(x, k + 1);
        LinesNewlineFirst(CollapseFrom(x, k + 1));
        NonEmptyCons("", Lines(CollapseFrom(x, k + 1)));
      }
    } else {
      CollapseKeepsNonEmpty(s[1..], 0);
      CollapseNonEmptyChar(s, k);
    }
  }

  /** The step of CollapseKeepsNonEmpty for a text that starts with a character other than a newline. */
  lemma CollapseNonEmptyChar(s: string, k: nat)
    requires s != "" && s[0] != '\n'
    requires NonEmpty(Lines(CollapseFrom(s[1..], 0))) == NonEmpty(Lines(s[1..]))
    ensures NonEmpty(Lines(CollapseFrom(s, k))) == NonEmpty(Lines(s))
  {
    var x := s[1..];
    CollapseFirstLine(x);
    assert s == [s[0]] + x;
    assert CollapseFrom(s, k) == [s[0]] + CollapseFrom(x, 0);
    NonEmptyCharFirst(s[0], CollapseFrom(x, 0), x);
  }

  lemma {:induction false} CollapseNoTriple(s: string, k: nat)
    requires k <= 2
    ensures NoTriple(CollapseFrom(s, k))
    ensures k >= 1 ==> !LeadNL2(CollapseFrom(s, k))
    ensures k >= 2 ==> !LeadNL(CollapseFrom(s, k))
    ensures !LeadNL(s) ==> !LeadNL(CollapseFrom(s, k))
    decreases |s|
  {
    if s == "" {
    } else if s[0] == '\n' {
      if k >= 2 {
        CollapseNoTriple(s[1..], 2);
      } else {
        var t := CollapseFrom(s[1..], k + 1);
        CollapseNoTriple(s[1..], k + 1);
        var u := "\n" + t;
        forall i | 0 <= i && i + 2 < |u|
          ensures !(u[i] == '\n' && u[i + 1] == '\n' && u[i + 2] == '\n')
        {
          if i > 0 {
            assert u[i] == t[i - 1] && u[i + 1] == t[i] && u[i + 2] == t[i + 1];
          }
        }
      }
    } else {
      var t := CollapseFrom(s[1..], 0);
      CollapseNoTriple(s[1..], 0);
      var u := [s[0]] + t;
      forall i | 0 <= i && i + 2 < |u|
        ensures !(u[i] == '\n' && u[i + 1] == '\n' && u[i + 2] == '\n')
      {
        if i > 0 {
          assert u[i] == t[i - 1] && u[i + 1] == t[i] && u[i + 2] == t[i + 1];
        }
      }
    }
  }

  lemma NoTripleWithoutNewline(a: string)
    requires '\n' !in a
    ensures NoTriple(a)
  {
    forall i | 0 <= i && i + 2 < |a| ensures a[i] != '\n' {
      assert a[i] in a;
    }
  }

  lemma NoTripleCons(a: string, t: string)
    requires '\n' !in a
    ensures NoTriple(a + "\n" + t) <==> !LeadNL2(t) && NoTriple(t)
  {
    var u := a + "\n" + t;
    var n := |a|;
    assert forall i | 0 <= i < n :: u[i] == a[i] && u[i] != '\n' by {
      forall i | 0 <= i < n ensures u[i] == a[i] && u[i] != '\n' { assert a[i] in a; }
    }
    if LeadNL2(t) {
      assert u[n] == '\n' && u[n + 1] == '\n' && u[n + 2] == '\n';
    }
    if !NoTriple(t) {
      var i :| 0 <= i && i + 2 < |t| && t[i] == '\n' && t[i + 1] == '\n' && t[i + 2] == '\n';
      assert u[n + 1 + i] == t[i] && u[n + 2 + i] == t[i + 1] && u[n + 3 + i] == t[i + 2];
    }
    if !LeadNL2(t) && NoTriple(t) {
      forall i | 0 <= i && i + 2 < |u| ensures !(u[i] == '\n' && u[i + 1] == '\n' && u[i + 2] == '\n') {
        if i > n {
          assert u[i] == t[i - n - 1] && u[i + 1] == t[i - n] && u[i + 2] == t[i - n + 1];
        }
      }
    }
  }

  lemma {:induction false} LeadJoin(ls: seq<string>)
    requires |ls| >= 1 && NoNewlines(ls)
    ensures LeadNL(Join(ls)) <==> |ls| >= 2 && ls[0] == ""
    ensures LeadNL2(Join(ls)) <==> |ls| >= 3 && ls[0] == "" && ls[1] == ""
  {
    if ls[0] != "" {
      JoinHead(ls);
      assert ls[0][0] in ls[0];
    } else if |ls| >= 2 {
      var rest := ls[1..];
      assert Join(ls) == "\n" + Join(rest);
      assert NoNewlines(rest) by {
        forall k | 0 <= k < |rest| ensures '\n' !in rest[k] {
          assert rest[k] == ls[k + 1];
        }
      }
      LeadJoin(rest);
      assert rest[0] == ls[1];
    } else {
      assert Join(ls) == "";
    }
  }

  /** A joined list starts with the first character of its first line, when that line is non-empty. */
  lemma JoinHead(ls: seq<string>)
    requires |ls| >= 1 && ls[0] != ""
    ensures |Join(ls)| >= 1 && Join(ls)[0] == ls[0][0]
  {
    if |ls| >= 2 {
      assert Join(ls) == ls[0] + ("\n" + Join(ls[1..]));
    }
  }

  lemma {:induction false} TripleLines(ls: seq<string>)
    requires |ls| >= 1 && NoNewlines(ls)
    ensures NoTriple(Join(ls)) <==> NoEmptyPair(ls)
  {
    if |ls| == 1 {
      NoTripleWithoutNewline(ls[0]);
    } else {
      var rest := ls[1..];
      TripleLines(rest);
      LeadJoin(rest);
      NoTripleCons(ls[0], Join(rest));
      assert forall j | 1 <= j < |rest| :: rest[j - 1] == ls[j] && rest[j] == ls[j + 1];
      if NoEmptyPair(ls) {
        forall j | 1 <= j && j + 2 < |rest| ensures !(rest[j] == "" && rest[j + 1] == "") {
          assert rest[j] == ls[j + 1] && rest[j + 1] == ls[j + 2];
        }
      }
    }
  }

  lemma NoEmptyPairMapRStrip(ls: seq<string>)
    requires AllGood(ls)
    ensures NoEmptyPair(MapRStrip(ls)) <==> NoEmptyPair(ls)
  {
    forall k | 0 <= k < |ls| ensures (RStrip(ls[k]) == "") == (ls[k] == "") {
      RStripKeepsNonBlank(ls[k]);
    }
  }

  lemma {:induction false} NonEmptyMapRStrip(ls: seq<string>)
    requires AllGood(ls)
    ensures NonEmpty(MapRStrip(ls)) == MapRStrip(NonEmpty(ls))
  {
    if ls != [] {
      RStripKeepsNonBlank(ls[0]);
      NonEmptyMapRStrip(ls[1..]);
      assert MapRStrip(ls)[1..] == MapRStrip(ls[1..]);
    }
  }

  lemma RStripNoNewlines(ls: seq<string>)
    requires NoNewlines(ls)
    ensures NoNewlines(MapRStrip(ls))
  {
    forall k | 0 <= k < |ls| ensures '\n' !in RStrip(ls[k]) {
      var r := RStrip(ls[k]);
      assert r == ls[k][..|r|];
    }
  }

  lemma RStripLinesLines(y: string)
    ensures Lines(RStripLines(y)) == MapRStrip(Lines(y))
  {
    RStripNoNewlines(Lines(y));
    LinesJoin(MapRStrip(Lines(y)));
  }

  predicate NoTrailingSpace(l: string) {
    l == "" || !IsSpace(l[|l| - 1])
  }

  /** No line of the result of the last step ends in whitespace. */
  lemma RStripLinesTrailing(y: string)
    ensures var ls := Lines(RStripLines(y));
            forall k | 0 <= k < |ls| :: NoTrailingSpace(ls[k])
  {
    RStripLinesLines(y);
  }

  lemma RStripLinesNoTriple(y: string)
    requires AllGood(Lines(y)) && NoTriple(y)
    ensures NoTriple(RStripLines(y))
  {
    var ls := Lines(y);
    RStripNoNewlines(ls);
    JoinLines(y);
    TripleLines(ls);
    TripleLines(MapRStrip(ls));
    NoEmptyPairMapRStrip(ls);
  }

  lemma RStripLinesNoLead(y: string)
    requires AllGood(Lines(y)) && !LeadNL(y)
    ensures !LeadNL(RStripLines(y))
  {
    var ls := Lines(y);
    var ms := MapRStrip(ls);
    RStripNoNewlines(ls);
    LeadJoin(ms);
    if ls[0] == "" && y != "" {
      JoinLines(y);
      LeadJoin(ls);
    }
    RStripKeepsNonBlank(ls[0]);
  }

  lemma RStripLinesNonEmpty(y: string)
    requires AllGood(Lines(y))
    ensures NonEmpty(Lines(RStripLines(y))) == MapRStrip(NonEmpty(Lines(y)))
  {
    RStripLinesLines(y);
    NonEmptyMapRStrip(Lines(y));
  }

  /** The loop's list, joined and with leading newlines and newline runs reduced. */
  function Compacted(text: string): string {
    CollapseNewlines(LStripNewlines(Join(CleanedLines(text))))
  }

  /** The loop's list joined back into a text: its lines are the kept lines. */
  lemma JoinedKept(text: string)
    ensures var lines := Lines(Strip(text));
            var joined := Join(CleanedLines(text));
            AllGood(Lines(joined)) && NonEmpty(Lines(joined)) == Survivors(lines, |lines|)
  {
    var lines := Lines(Strip(text));
    KeptLinesShape(lines, |lines|);
    JoinedLines(CleanedLines(text), Survivors(lines, |lines|));
  }

  /** Joining good lines without newlines gives back lines with the same non-empty ones. */
  lemma JoinedLines(kept: seq<string>, survivors: seq<string>)
    requires AllGood(kept) && NoNewlines(kept) && NonEmpty(kept) == survivors
    ensures AllGood(Lines(Join(kept))) && NonEmpty(Lines(Join(kept))) == survivors
  {
    if kept != [] {
      LinesJoin(kept);
    } else {
      assert Lines(Join(kept)) == [""];
      assert NonEmpty([""]) == [];
    }
  }

  lemma CompactedProps(text: string)
    ensures var y := Compacted(text);
            AllGood(Lines(y)) && NoTriple(y) && !LeadNL(y)
    ensures var lines := Lines(Strip(text));
            NonEmpty(Lines(Compacted(text))) == Survivors(lines, |lines|)
  {
    var joined := Join(CleanedLines(text));
    JoinedKept(text);
    var stripped := LStripNewlines(joined);
    LStripNewlinesLines(joined);
    CollapseKeepsGood(stripped, 0);
    CollapseNoTriple(stripped, 0);
    CollapseKeepsNonEmpty(stripped, 0);
  }

  /**
   * The cleaned text never contains three newlines in a row, never starts with
   * a newline, and no line of it ends in whitespace.
   */
  lemma CleanFormat(text: string)
    ensures var r := CleanSpec(text);
            NoTriple(r) && (r == "" || r[0] != '\n') &&
            forall k | 0 <= k < |Lines(r)| :: NoTrailingSpace(Lines(r)[k])
  {
    if text != "" {
      CompactedProps(text);
      var y := Compacted(text);
      RStripLinesNoTriple(y);
      RStripLinesNoLead(y);
      RStripLinesTrailing(y);
    }
  }

  /**
   * The non-empty lines of the cleaned text are exactly the surviving input lines
   * (non-blank, and not a marker among the first three lines), in their original
   * order, each with only its trailing whitespace removed.
   */
  lemma CleanKeepsSurvivors(text: string)
    ensures var lines := Lines(Strip(text));
            NonEmpty(Lines(CleanSpec(text))) == MapRStrip(Survivors(lines, |lines|))
  {
    if text == "" {
      EmptyCleansToNothing(text);
    } else {
      NonEmptyCleanKeepsSurvivors(text);
    }
  }

  lemma EmptyCleansToNothing(text: string)
    requires |text| == 0
    ensures var lines := Lines(Strip(text));
            NonEmpty(Lines(CleanSpec(text))) == [] && Survivors(lines, |lines|) == []
  {
    LinesOfStrippedEmpty(text);
    SurvivorsOfBlank(Lines(Strip(text)));
    CleanSpecOfEmpty(text);
  }

  lemma LinesOfStrippedEmpty(text: string)
    requires |text| == 0
    ensures Lines(Strip(text)) == [""]
  {
    assert Strip(text) == "";
  }

  lemma SurvivorsOfBlank(lines: seq<string>)
    requires lines == [""]
    ensures Survivors(lines, |lines|) == []
  {
    assert Survivors(lines, 0) == [];
  }

  lemma CleanSpecOfEmpty(text: string)
    requires |text| == 0
    ensures NonEmpty(Lines(CleanSpec(text))) == []
  {
    assert CleanSpec(text) == "";
    assert Lines("") == [""];
  }

  lemma NonEmptyCleanKeepsSurvivors(text: string)
    requires text != ""
    ensures var lines := Lines(Strip(text));
            NonEmpty(Lines(CleanSpec(text))) == MapRStrip(Survivors(lines, |lines|))
  {
    var y := Compacted(text);
    CompactedProps(text);
    RStripLinesNonEmpty(y);
  }

  // ---------------------------------------------------------------------
  // Paragraph layout: where the empty lines of the cleaned text come from
  // ---------------------------------------------------------------------

  /** Line i of the stripped input survives the loop: not whitespace-only, and not a marker among the first three lines. */
  predicate Survives(lines: seq<string>, i: nat)
    requires i < |lines|
  {
    !AllSpace(lines[i]) && !(i < 3 && IsAiMarker(Strip(lines[i])))
  }

  /** The first surviving line at or after i; |lines| when none is left. */
  function NextSurvivor(lines: seq<string>, i: nat): (q: nat)
    requires i <= |lines|
    ensures i <= q <= |lines|
    ensures q < |lines| ==> Survives(lines, q)
    decreases |lines| - i
  {
    if i == |lines| || Survives(lines, i) then i else NextSurvivor(lines, i + 1)
  }

  /** No line before the next survivor survives. */
  lemma {:induction false} NoSurvivorBefore(lines: seq<string>, i: nat, m: nat)
    requires i <= |lines| && i <= m < NextSurvivor(lines, i)
    ensures !Survives(lines, m)
    decreases m - i
  {
    assert !Survives(lines, i) && NextSurvivor(lines, i) == NextSurvivor(lines, i + 1);
    if i < m {
      NoSurvivorBefore(lines, i + 1, m);
    }
  }

  /** The next survivor from i comes no later than any surviving line at or after i. */
  lemma {:induction false} NextSurvivorAtMost(lines: seq<string>, i: nat, p: nat)
    requires i <= p < |lines| && Survives(lines, p)
    ensures NextSurvivor(lines, i) <= p
    decreases p - i
  {
    if i < p && !Survives(lines, i) {
      NextSurvivorAtMost(lines, i + 1, p);
    }
  }

  /** Some line in [lo, hi) is whitespace-only. */
  predicate HasBlank(lines: seq<string>, lo: nat, hi: nat)
    requires lo <= hi <= |lines|
  {
    exists m | lo <= m < hi :: AllSpace(lines[m])
  }

  /** The number of whitespace-only lines in [lo, hi). */
  function BlankCount(lines: seq<string>, lo: nat, hi: nat): nat
    requires lo <= hi <= |lines|
    decreases hi - lo
  {
    if lo == hi then 0 else (if AllSpace(lines[lo]) then 1 else 0) + BlankCount(lines, lo + 1, hi)
  }

  /** n empty lines. */
  function Empties(n: nat): (r: seq<string>)
    ensures |r| == n && forall k | 0 <= k < n :: r[k] == ""
  {
    if n == 0 then [] else [""] + Empties(n - 1)
  }

  /**
   * The cleaned lines from the surviving line p on. Each survivor appears
   * once, without its trailing whitespace. Between it and the next survivor
   * there is one empty line exactly when some whitespace-only line lies
   * strictly between the two, and none otherwise; markers and further blank
   * lines leave nothing. After the last survivor there is one empty line per
   * whitespace-only line after it, two at most.
   */
  function LayoutFrom(lines: seq<string>, p: nat): seq<string>
    requires p < |lines|
    decreases |lines| - p
  {
    var q := NextSurvivor(lines, p + 1);
    [RStrip(lines[p])] +
    (if q < |lines| then (if HasBlank(lines, p + 1, q) then [""] else []) + LayoutFrom(lines, q)
     else Empties(if BlankCount(lines, p + 1, |lines|) < 2 then BlankCount(lines, p + 1, |lines|) else 2))
  }

  /** The cleaned lines: nothing before the first survivor, and a single empty line when nothing survives. */
  function Layout(lines: seq<string>): seq<string> {
    var p := NextSurvivor(lines, 0);
    if p == |lines| then [""] else LayoutFrom(lines, p)
  }

  lemma {:induction false} LayoutFromStep(lines: seq<string>, p: nat)
    requires p < |lines| && NextSurvivor(lines, p + 1) < |lines|
    ensures var q := NextSurvivor(lines, p + 1);
            LayoutFrom(lines, p) ==
              [RStrip(lines[p])] + ((if HasBlank(lines, p + 1, q) then [""] else []) + LayoutFrom(lines, q))
  {
  }

  lemma {:induction false} LayoutFromLast(lines: seq<string>, p: nat)
    requires p < |lines| && NextSurvivor(lines, p + 1) == |lines|
    ensures var b := BlankCount(lines, p + 1, |lines|);
            LayoutFrom(lines, p) == [RStrip(lines[p])] + Empties(if b < 2 then b else 2)
  {
  }

  lemma {:induction false} LayoutFromHead(lines: seq<string>, p: nat)
    requires p < |lines|
    ensures |LayoutFrom(lines, p)| >= 1 && LayoutFrom(lines, p)[0] == RStrip(lines[p])
  {
  }

  /** The line loop's list, built from line i to the end. */
  function KeptFrom(lines: seq<string>, i: nat): seq<string>
    requires i <= |lines|
    decreases |lines| - i
  {
    if i == |lines| then [] else LineDecision(lines[i], i) + KeptFrom(lines, i + 1)
  }

  lemma {:induction false} KeptSplit(lines: seq<string>, n: nat)
    requires n <= |lines|
    ensures KeptLines(lines, n) + KeptFrom(lines, n) == KeptFrom(lines, 0)
  {
    if n == 0 {
      assert KeptLines(lines, 0) == [];
      ConcatAssoc([], [], KeptFrom(lines, 0));
    } else {
      KeptSplit(lines, n - 1);
      var a, d, c := KeptLines(lines, n - 1), LineDecision(lines[n - 1], n - 1), KeptFrom(lines, n);
      assert KeptLines(lines, n) == a + d;
      assert KeptFrom(lines, n - 1) == d + c;
      assert a + KeptFrom(lines, n - 1) == KeptFrom(lines, 0);
      ConcatChain(KeptLines(lines, n), a, d, c, KeptFrom(lines, n - 1), KeptFrom(lines, 0));
    }
  }

  lemma {:induction false} ConcatAssoc(a: seq<string>, d: seq<string>, c: seq<string>)
    ensures (a + d) + c == a + (d + c)
  {
  }

  lemma {:induction false} ConcatChain(x: seq<string>, a: seq<string>, d: seq<string>, c: seq<string>, y: seq<string>, z: seq<string>)
    requires x == a + d && y == d + c && a + y == z
    ensures x + c == z
  {
    ConcatAssoc(a, d, c);
  }

  /** Up to the next survivor the loop appends one empty line per whitespace-only line and nothing else. */
  lemma {:induction false} KeptGap(lines: seq<string>, i: nat, j: nat)
    requires i <= |lines| && i <= j <= NextSurvivor(lines, i)
    ensures KeptFrom(lines, i) == Empties(BlankCount(lines, i, j)) + KeptFrom(lines, j)
    decreases j - i
  {
    if i < j {
      assert !Survives(lines, i) && NextSurvivor(lines, i) == NextSurvivor(lines, i + 1);
      KeptGap(lines, i + 1, j);
      var e, rest := Empties(BlankCount(lines, i + 1, j)), KeptFrom(lines, j);
      if AllSpace(lines[i]) {
        assert KeptFrom(lines, i) == [""] + KeptFrom(lines, i + 1) by {
          StripEmptyIffAllSpace(lines[i]);
        }
        assert Empties(BlankCount(lines, i, j)) == [""] + e;
        AppendPrefix([""], KeptFrom(lines, i + 1), e, rest, KeptFrom(lines, i));
      } else {
        assert KeptFrom(lines, i) == KeptFrom(lines, i + 1) by {
          StripEmptyIffAllSpace(lines[i]);
          assert LineDecision(lines[i], i) == [];
          assert KeptFrom(lines, i) == [] + KeptFrom(lines, i + 1);
        }
        assert BlankCount(lines, i, j) == BlankCount(lines, i + 1, j);
      }
    }
  }

  lemma {:induction false} KeptFromSurvivor(lines: seq<string>, p: nat)
    requires p < |lines| && Survives(lines, p)
    ensures KeptFrom(lines, p) == [lines[p]] + KeptFrom(lines, p + 1)
  {
    StripEmptyIffAllSpace(lines[p]);
  }

  lemma DecisionNoNewlines(line: string, i: nat)
    requires '\n' !in line
    ensures NoNewlines(LineDecision(line, i))
  {
    var d := LineDecision(line, i);
    assert d == [""] || d == [] || d == [line];
  }

  lemma NoNewlinesAppend(a: seq<string>, b: seq<string>)
    requires NoNewlines(a) && NoNewlines(b)
    ensures NoNewlines(a + b)
  {
    forall k | 0 <= k < |a + b|
      ensures '\n' !in (a + b)[k]
    {
      if k < |a| {
        assert (a + b)[k] == a[k];
      } else {
        assert (a + b)[k] == b[k - |a|];
      }
    }
  }

  lemma {:induction false} KeptFromNoNewlines(lines: seq<string>, i: nat)
    requires i <= |lines| && NoNewlines(lines)
    ensures NoNewlines(KeptFrom(lines, i))
    decreases |lines| - i
  {
    if i < |lines| {
      KeptFromNoNewlines(lines, i + 1);
      DecisionNoNewlines(lines[i], i);
      NoNewlinesAppend(LineDecision(lines[i], i), KeptFrom(lines, i + 1));
    }
  }

  lemma {:induction false} LStripEmpties(b: nat)
    ensures LStripNewlines(Join(Empties(b))) == ""
  {
    if b > 1 {
      LStripEmpties(b - 1);
      var e := Empties(b - 1);
      assert Empties(b)[1..] == e;
      assert Join(Empties(b)) == "\n" + Join(e);
      assert ("\n" + Join(e))[1..] == Join(e);
    }
  }

  lemma {:induction false} JoinCons(a: string, xs: seq<string>)
    requires |xs| >= 1
    ensures Join([a] + xs) == a + "\n" + Join(xs)
  {
    assert ([a] + xs)[1..] == xs;
  }

  lemma {:induction false} JoinHeadChar(ls: seq<string>)
    requires |ls| >= 1 && ls[0] != ""
    ensures Join(ls) != "" && Join(ls)[0] == ls[0][0]
  {
  }

  lemma {:induction false} LStripEmptiesBefore(b: nat, rs: seq<string>)
    requires |rs| >= 1 && rs[0] != "" && '\n' !in rs[0]
    ensures LStripNewlines(Join(Empties(b) + rs)) == Join(rs)
  {
    if b == 0 {
      assert Empties(0) + rs == rs;
      JoinHeadChar(rs);
    } else {
      LStripEmptiesBefore(b - 1, rs);
      var xs := Empties(b - 1) + rs;
      assert Empties(b) + rs == [""] + xs;
      JoinCons("", xs);
      assert ("\n" + Join(xs))[1..] == Join(xs);
    }
  }

  /** Newline-free text passes through the collapse unchanged and resets its count. */
  lemma {:induction false} CollapseThrough(x: string, s: string, k: nat)
    requires '\n' !in x
    ensures CollapseFrom(x + s, k) == if x == "" then CollapseFrom(s, k) else x + CollapseFrom(s, 0)
    decreases |x|
  {
    if x == "" {
      assert x + s == s;
    } else {
      var c := CollapseFrom(s, 0);
      assert CollapseFrom(x[1..] + s, 0) == x[1..] + c by {
        CollapseThrough(x[1..], s, 0);
        assert x[1..] == "" ==> x[1..] + c == c;
      }
      assert CollapseFrom(x + s, k) == [x[0]] + CollapseFrom(x[1..] + s, 0) by {
        assert '\n' != x[0];
        assert (x + s)[0] == x[0] && (x + s)[1..] == x[1..] + s;
      }
      assert [x[0]] + (x[1..] + c) == x + c by {
        assert x == [x[0]] + x[1..];
      }
    }
  }

  /** The newline collapse on joined lines, line by line; k counts the newlines just emitted. */
  function Squeeze(ls: seq<string>, k: nat): (r: seq<string>)
    requires |ls| >= 1
    ensures |r| >= 1
    decreases |ls|
  {
    if ls[0] != "" then (if |ls| == 1 then [ls[0]] else [ls[0]] + Squeeze(ls[1..], 1))
    else if |ls| == 1 then [""]
    else if k >= 2 then Squeeze(ls[1..], 2)
    else [""] + Squeeze(ls[1..], k + 1)
  }

  lemma {:induction false} CollapseJoin(ls: seq<string>, k: nat)
    requires |ls| >= 1 && NoNewlines(ls)
    ensures CollapseFrom(Join(ls), k) == Join(Squeeze(ls, k))
    decreases |ls|
  {
    var x := ls[0];
    assert '\n' !in x;
    if |ls| == 1 {
      CollapseThrough(x, "", k);
      assert x + "" == x;
    } else {
      var rest := ls[1..];
      assert ls == [x] + rest;
      var k' := if x != "" then 1 else if k >= 2 then 2 else k + 1;
      CollapseJoin(rest, k');
      CollapseJoinStep(x, rest, k);
    }
  }

  /** One line of CollapseJoin: the induction hypothesis for the rest gives the equation for the whole list. */
  lemma {:induction false} CollapseJoinStep(x: string, rest: seq<string>, k: nat)
    requires '\n' !in x && |rest| >= 1
    requires var k' := if x != "" then 1 else if k >= 2 then 2 else k + 1;
             CollapseFrom(Join(rest), k') == Join(Squeeze(rest, k'))
    ensures CollapseFrom(Join([x] + rest), k) == Join(Squeeze([x] + rest, k))
  {
    var ls := [x] + rest;
    assert ls[0] == x && ls[1..] == rest;
    JoinCons(x, rest);
    assert Join(ls) == x + ("\n" + Join(rest));
    if x != "" {
      CollapseStepLine(x, rest, k);
    } else {
      assert x + ("\n" + Join(rest)) == "\n" + Join(rest);
      CollapseNewlineHead(Join(rest), k);
      if k < 2 {
        assert Squeeze(ls, k) == [""] + Squeeze(rest, k + 1);
        JoinCons("", Squeeze(rest, k + 1));
        assert "" + "\n" == "\n";
      } else {
        assert Squeeze(ls, k) == Squeeze(rest, 2);
      }
    }
  }

  /** CollapseJoinStep for a non-empty first line. */
  lemma {:induction false} CollapseStepLine(x: string, rest: seq<string>, k: nat)
    requires '\n' !in x && x != "" && |rest| >= 1
    requires CollapseFrom(Join(rest), 1) == Join(Squeeze(rest, 1))
    ensures CollapseFrom(x + ("\n" + Join(rest)), k) == Join([x] + Squeeze(rest, 1))
  {
    var t := "\n" + Join(rest);
    var j := Join(Squeeze(rest, 1));
    assert CollapseFrom(x + t, k) == x + CollapseFrom(t, 0) by {
      CollapseThrough(x, t, k);
    }
    assert CollapseFrom(t, 0) == "\n" + j by {
      CollapseNewlineHead(Join(rest), 0);
    }
    assert Join([x] + Squeeze(rest, 1)) == x + ("\n" + j) by {
      JoinCons(x, Squeeze(rest, 1));
      assert x + "\n" + j == x + ("\n" + j);
    }
  }

  lemma {:induction false} CollapseNewlineHead(u: string, k: nat)
    ensures CollapseFrom("\n" + u, k) == if k >= 2 then CollapseFrom(u, 2) else "\n" + CollapseFrom(u, k + 1)
  {
    assert ("\n" + u)[0] == '\n' && ("\n" + u)[1..] == u;
  }

  lemma {:induction false} SqueezeNoNewlines(ls: seq<string>, k: nat)
    requires |ls| >= 1 && NoNewlines(ls)
    ensures NoNewlines(Squeeze(ls, k))
    decreases |ls|
  {
    if |ls| > 1 {
      SqueezeNoNewlines(ls[1..], 1);
      SqueezeNoNewlines(ls[1..], 2);
      SqueezeNoNewlines(ls[1..], k + 1);
    }
  }

  lemma {:induction false} SqueezeSkipsEmpties(c: nat, rs: seq<string>)
    requires |rs| >= 1 && rs[0] != ""
    ensures Squeeze(Empties(c) + rs, 2) == Squeeze(rs, 1)
  {
    if c == 0 {
      assert Empties(0) + rs == rs;
    } else {
      SqueezeSkipsEmpties(c - 1, rs);
      assert (Empties(c) + rs)[1..] == Empties(c - 1) + rs;
    }
  }

  lemma {:induction false} SqueezeGap(b: nat, rs: seq<string>)
    requires |rs| >= 1 && rs[0] != ""
    ensures Squeeze(Empties(b) + rs, 1) == (if b > 0 then [""] else []) + Squeeze(rs, 1)
  {
    if b == 0 {
      assert Empties(0) + rs == rs;
    } else {
      SqueezeSkipsEmpties(b - 1, rs);
      var ls := Empties(b) + rs;
      assert ls[0] == "" && |ls| > 1;
      assert ls[1..] == Empties(b - 1) + rs;
      assert Squeeze(ls, 1) == [""] + Squeeze(ls[1..], 2);
    }
  }

  lemma {:induction false} SqueezeTailTwo(b: nat)
    requires b >= 1
    ensures Squeeze(Empties(b), 2) == [""]
  {
    if b > 1 {
      SqueezeTailTwo(b - 1);
      assert Empties(b)[1..] == Empties(b - 1);
    }
  }

  lemma {:induction false} SqueezeTailOne(b: nat)
    requires b >= 1
    ensures Squeeze(Empties(b), 1) == Empties(if b < 2 then b else 2)
  {
    if b > 1 {
      SqueezeTailTwo(b - 1);
      assert Empties(b)[1..] == Empties(b - 1);
      assert Empties(2) == [""] + [""];
    }
  }

  lemma {:induction false} MapRStripAppend(a: seq<string>, b: seq<string>)
    ensures MapRStrip(a + b) == MapRStrip(a) + MapRStrip(b)
  {
  }

  lemma {:induction false} MapRStripEmpties(n: nat)
    ensures MapRStrip(Empties(n)) == Empties(n)
  {
  }

  lemma {:induction false} BlankCountPositive(lines: seq<string>, lo: nat, hi: nat)
    requires lo <= hi <= |lines|
    ensures BlankCount(lines, lo, hi) > 0 <==> HasBlank(lines, lo, hi)
    decreases hi - lo
  {
    if lo < hi {
      BlankCountPositive(lines, lo + 1, hi);
      if HasBlank(lines, lo, hi) && !AllSpace(lines[lo]) {
        var m :| lo <= m < hi && AllSpace(lines[m]);
        assert lo + 1 <= m;
      }
    }
  }

  /** From a surviving line on, the collapsed and right-stripped lines are the layout. */
  lemma {:induction false} SqueezeLayout(lines: seq<string>, p: nat, k: nat)
    requires p < |lines| && Survives(lines, p) && NoNewlines(lines)
    ensures |KeptFrom(lines, p)| >= 1
    ensures MapRStrip(Squeeze(KeptFrom(lines, p), k)) == LayoutFrom(lines, p)
    decreases |lines| - p
  {
    var x := lines[p];
    KeptFromSurvivor(lines, p);
    var q := NextSurvivor(lines, p + 1);
    KeptGap(lines, p + 1, q);
    var b := BlankCount(lines, p + 1, q);
    var rs := KeptFrom(lines, q);
    var tail := Empties(b) + rs;
    assert KeptFrom(lines, p) == [x] + tail;
    assert x != "";
    if q < |lines| {
      KeptFromSurvivor(lines, q);
      SqueezeLayout(lines, q, 1);
      SqueezeGap(b, rs);
      BlankCountPositive(lines, p + 1, q);
      assert ([x] + tail)[1..] == tail;
      var gap: seq<string> := if b > 0 then [""] else [];
      assert Squeeze([x] + tail, k) == [x] + (gap + Squeeze(rs, 1));
      MapRStripAppend([x], gap + Squeeze(rs, 1));
      MapRStripAppend(gap, Squeeze(rs, 1));
    } else {
      assert rs == [];
      assert tail == Empties(b);
      if b == 0 {
        assert [x] + tail == [x];
      } else {
        SqueezeTailOne(b);
        assert ([x] + tail)[1..] == tail;
        MapRStripAppend([x], Squeeze(tail, 1));
        MapRStripEmpties(if b < 2 then b else 2);
      }
    }
  }

  /**
   * The cleaned text, line by line, is the layout of the stripped input: the
   * surviving lines in order, without trailing whitespace, with one empty
   * line wherever a run of whitespace-only lines separated two of them.
   */
  lemma {:induction false} CleanLayout(text: string)
    ensures Lines(CleanSpec(text)) == Layout(Lines(Strip(text)))
  {
    var lines := Lines(Strip(text));
    if text == "" {
      assert Strip(text) == "";
      assert lines == [""];
      assert AllSpace(lines[0]);
      assert NextSurvivor(lines, 0) == NextSurvivor(lines, 1);
      assert Lines("") == [""];
    } else {
      assert NoNewlines(lines);
      KeptSplit(lines, |lines|);
      assert CleanedLines(text) == KeptFrom(lines, 0);
      var p := NextSurvivor(lines, 0);
      KeptGap(lines, 0, p);
      var b := BlankCount(lines, 0, p);
      if p == |lines| {
        assert KeptFrom(lines, 0) == Empties(b);
        LStripEmpties(b);
        assert Compacted(text) == CollapseFrom("", 0) == "";
        RStripLinesLines("");
        assert Lines("") == [""];
      } else {
        var rs := KeptFrom(lines, p);
        KeptFromSurvivor(lines, p);
        KeptFromNoNewlines(lines, p);
        assert '\n' !in rs[0];
        LStripEmptiesBefore(b, rs);
        CollapseJoin(rs, 0);
        assert Compacted(text) == Join(Squeeze(rs, 0));
        SqueezeNoNewlines(rs, 0);
        LinesJoin(Squeeze(rs, 0));
        RStripLinesLines(Compacted(text));
        SqueezeLayout(lines, p, 0);
      }
    }
  }

  /** The layout from survivor r contains the layout from any later survivor p as a suffix. */
  lemma {:induction false} LayoutFromTail(lines: seq<string>, r: nat, p: nat) returns (pre: seq<string>)
    requires r <= p < |lines| && Survives(lines, r) && Survives(lines, p)
    ensures LayoutFrom(lines, r) == pre + LayoutFrom(lines, p)
    decreases p - r
  {
    if r == p {
      pre := [];
    } else {
      var q := NextSurvivor(lines, r + 1);
      NextSurvivorAtMost(lines, r + 1, p);
      var mid := if HasBlank(lines, r + 1, q) then [""] else [];
      var rest := LayoutFromTail(lines, q, p);
      var head := [RStrip(lines[r])];
      pre := head + (mid + rest);
      LayoutFromStep(lines, r);
      AppendNested(head, mid, rest, LayoutFrom(lines, p), LayoutFrom(lines, q), LayoutFrom(lines, r));
    }
  }

  lemma {:induction false} AppendPrefix(u: seq<string>, y: seq<string>, w: seq<string>, t: seq<string>, z: seq<string>)
    requires y == w + t && z == u + y
    ensures z == (u + w) + t
  {
    ConcatAssoc(u, w, t);
  }

  lemma {:induction false} AppendNested(u: seq<string>, v: seq<string>, w: seq<string>, t: seq<string>, y: seq<string>, z: seq<string>)
    requires y == w + t && z == u + (v + y)
    ensures z == (u + (v + w)) + t
  {
    ConcatAssoc(v, w, t);
    ConcatAssoc(u, v + w, t);
  }

  /** Line a sits at out[j] and line b follows it, after one empty line when blank holds and directly otherwise. */
  predicate BreakAt(out: seq<string>, j: nat, a: string, b: string, blank: bool) {
    if blank then j + 2 < |out| && out[j] == a && out[j + 1] == "" && out[j + 2] == b
    else j + 1 < |out| && out[j] == a && out[j + 1] == b
  }

  /** The paragraph-break fact on the layout of a line list; see ParagraphBreaks. */
  lemma {:induction false} LayoutBreaks(lines: seq<string>, p: nat) returns (j: nat)
    requires p < |lines| && Survives(lines, p) && NextSurvivor(lines, p + 1) < |lines|
    ensures BreakAt(Layout(lines), j, RStrip(lines[p]), RStrip(lines[NextSurvivor(lines, p + 1)]),
                    HasBlank(lines, p + 1, NextSurvivor(lines, p + 1)))
  {
    var q := NextSurvivor(lines, p + 1);
    var first := NextSurvivor(lines, 0);
    NextSurvivorAtMost(lines, 0, p);
    var pre := LayoutFromTail(lines, first, p);
    var blank := HasBlank(lines, p + 1, q);
    LayoutFromStep(lines, p);
    LayoutFromHead(lines, q);
    BreakAtConcat(pre, RStrip(lines[p]), if blank then [""] else [], LayoutFrom(lines, q), RStrip(lines[q]), blank);
    j := |pre|;
  }

  lemma {:induction false} BreakAtConcat(pre: seq<string>, a: string, mid: seq<string>, tail: seq<string>, b: string, blank: bool)
    requires |tail| >= 1 && tail[0] == b && mid == (if blank then [""] else [])
    ensures BreakAt(pre + ([a] + (mid + tail)), |pre|, a, b, blank)
  {
    var out := pre + ([a] + (mid + tail));
    assert out[|pre|] == a;
    assert out[|pre| + 1 + |mid|] == b;
  }

  /**
   * Paragraph breaks of the cleaned text: a surviving input line p shows up,
   * without trailing whitespace, at some line j of the output, and the next
   * surviving input line q follows it directly when the input has no
   * whitespace-only line between them, and after exactly one empty line when
   * it has one or more.
   */
  lemma {:induction false} ParagraphBreaks(text: string, p: nat)
    requires p < |Lines(Strip(text))| && Survives(Lines(Strip(text)), p)
    ensures NextSurvivor(Lines(Strip(text)), p + 1) < |Lines(Strip(text))| ==>
              exists j: nat :: CleanBreakAt(text, p, j)
  {
    var lines := Lines(Strip(text));
    CleanLayout(text);
    if NextSurvivor(lines, p + 1) < |lines| {
      var j := LayoutBreaks(lines, p);
      assert CleanBreakAt(text, p, j);
    }
  }

  /** BreakAt on the cleaned text, for the surviving line p and the next survivor after it. */
  predicate CleanBreakAt(text: string, p: nat, j: nat) {
    var lines := Lines(Strip(text));
    p < |lines| && NextSurvivor(lines, p + 1) < |lines| &&
    var q := NextSurvivor(lines, p + 1);
    BreakAt(Lines(CleanSpec(text)), j, RStrip(lines[p]), RStrip(lines[q]), HasBlank(lines, p + 1, q))
  }

  /** The cleaned text starts with the first surviving line, and is empty when no line survives. */
  lemma {:induction false} CleanStart(text: string)
    ensures var lines := Lines(Strip(text));
            var out := Lines(CleanSpec(text));
            var p := NextSurvivor(lines, 0);
            if p < |lines| then out[0] == RStrip(lines[p]) else CleanSpec(text) == ""
  {
    var lines := Lines(Strip(text));
    CleanLayout(text);
    if NextSurvivor(lines, 0) == |lines| {
      NoLinesOnlyEmpty(CleanSpec(text));
    }
  }

  /** The only text whose lines are [""] is the empty text. */
  lemma {:induction false} NoLinesOnlyEmpty(s: string)
    requires Lines(s) == [""]
    ensures s == ""
  {
    LinesJoin(Lines(s));
  }

  lemma {:induction false} NextSurvivorHere(lines: seq<string>, i: nat)
    requires i < |lines| && Survives(lines, i)
    ensures NextSurvivor(lines, i) == i
  {
  }

  lemma {:induction false} NextSurvivorSkip(lines: seq<string>, i: nat)
    requires i < |lines| && !Survives(lines, i)
    ensures NextSurvivor(lines, i) == NextSurvivor(lines, i + 1)
  {
  }

  /** A run of blank lines between two paragraph lines shrinks to one empty line. */
  lemma {:induction false} LayoutBlankRun(lines: seq<string>)
    requires |lines| == 4 && Survives(lines, 0) && AllSpace(lines[1]) && AllSpace(lines[2]) && !AllSpace(lines[3])
    ensures Layout(lines) == [RStrip(lines[0]), "", RStrip(lines[3])]
  {
    NextSurvivorHere(lines, 0);
    NextSurvivorSkip(lines, 1);
    NextSurvivorSkip(lines, 2);
    NextSurvivorHere(lines, 3);
    assert HasBlank(lines, 1, 3);
    LayoutFromStep(lines, 0);
    LayoutFromLast(lines, 3);
    assert BlankCount(lines, 4, 4) == 0;
    TwoOrThree(RStrip(lines[0]), [""], RStrip(lines[3]));
  }

  /** Two paragraph lines without a blank line between them stay adjacent. */
  lemma {:induction false} LayoutAdjacent(lines: seq<string>)
    requires |lines| == 2 && Survives(lines, 0) && Survives(lines, 1)
    ensures Layout(lines) == [RStrip(lines[0]), RStrip(lines[1])]
  {
    NextSurvivorHere(lines, 0);
    NextSurvivorHere(lines, 1);
    assert !HasBlank(lines, 1, 1);
    LayoutFromStep(lines, 0);
    LayoutFromLast(lines, 1);
    assert BlankCount(lines, 2, 2) == 0;
    TwoOrThree(RStrip(lines[0]), [], RStrip(lines[1]));
  }

  /**
   * A dropped last line (a marker on the third line) after a blank one: the
   * blank line stays as a trailing empty line, so the lines "A", "" and
   * "Translation:" give "A" and one empty line.
   */
  lemma {:induction false} LayoutTrailingMarker(lines: seq<string>)
    requires |lines| == 3 && Survives(lines, 0) && AllSpace(lines[1])
    requires !AllSpace(lines[2]) && IsAiMarker(Strip(lines[2]))
    ensures Layout(lines) == [RStrip(lines[0]), ""]
  {
    NextSurvivorHere(lines, 0);
    TrailingMarkerGap(lines);
    LayoutFromLast(lines, 0);
    OneEmpty(RStrip(lines[0]));
  }

  lemma {:induction false} TrailingMarkerGap(lines: seq<string>)
    requires |lines| == 3 && AllSpace(lines[1]) && !AllSpace(lines[2]) && IsAiMarker(Strip(lines[2]))
    ensures NextSurvivor(lines, 1) == 3 && BlankCount(lines, 1, 3) == 1
  {
    NextSurvivorSkip(lines, 1);
    NextSurvivorSkip(lines, 2);
    assert BlankCount(lines, 2, 3) == 0;
  }

  lemma TwoOrThree(x: string, mid: seq<string>, z: string)
    ensures [x] + (mid + ([z] + Empties(0))) == [x] + mid + [z]
  {
  }

  lemma OneEmpty(x: string)
    ensures [x] + Empties(1) == [x, ""]
  {
    assert Empties(1) == [""] + Empties(0);
  }

  /** "Translation:" is one of the markers. */
  lemma TranslationIsMarker()
    ensures IsAiMarker("Translation:")
  {
    assert StartsWith("Translation:", AiMarkers[8]);
  }
}
