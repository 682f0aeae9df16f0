/**
 * String helpers with Python str semantics, shared by the other modules.
 * A Python str is a sequence of code points, modelled as seq<char>.
 */
module Text {

  /** Python's str.isspace(), which is also what str.strip() and the regex class \s use. */
  predicate IsSpace(c: char) {
    c == ' ' || ('\t' <= c <= '\r') || ('\U{1C}' <= c <= '\U{1F}') ||
    c == '\U{85}' || c == '\U{A0}' || c == '\U{1680}' || ('\U{2000}' <= c <= '\U{200A}') ||
    c == '\U{2028}' || c == '\U{2029}' || c == '\U{202F}' || c == '\U{205F}' || c == '\U{3000}'
  }

  predicate AllSpace(s: string) {
    forall i | 0 <= i < |s| :: IsSpace(s[i])
  }

  /** A line that is empty or carries at least one non-whitespace character. */
  predicate NotBlankOrEmpty(s: string) {
    s == "" || !AllSpace(s)
  }

  /** str.lstrip() */
  function LStrip(s: string): (r: string)
    ensures |r| <= |s| && r == s[|s| - |r|..]
    ensures AllSpace(s[..|s| - |r|])
    ensures r == "" || !IsSpace(r[0])
  {
    if s != "" && IsSpace(s[0]) then
      var r := LStrip(s[1..]);
      assert s[..|s| - |r|] == [s[0]] + s[1..][..|s| - 1 - |r|];
      r
    else s
  }

  /** str.rstrip() */
  function RStrip(s: string): (r: string)
    ensures |r| <= |s| && r == s[..|r|]
    ensures AllSpace(s[|r|..])
    ensures r == "" || !IsSpace(r[|r| - 1])
  {
    if s != "" && IsSpace(s[|s| - 1]) then
      var r := RStrip(s[..|s| - 1]);
      SpaceTail(s, |r|);
      r
    else s
  }

  lemma SpaceTail(s: string, n: nat)
    requires n < |s| && IsSpace(s[|s| - 1]) && AllSpace(s[..|s| - 1][n..])
    ensures AllSpace(s[n..]) && s[..|s| - 1][..n] == s[..n]
  {
    forall i | 0 <= i < |s| - 1 - n ensures IsSpace(s[n..][i]) {
      assert s[n..][i] == s[..|s| - 1][n..][i];
    }
  }

  /** str.strip() */
  function Strip(s: string): string {
    RStrip(LStrip(s))
  }

  /** A stripped string starts and ends with a non-whitespace character. */
  lemma StripEnds(s: string)
    ensures var r := Strip(s); r == "" || (!IsSpace(r[0]) && !IsSpace(r[|r| - 1]))
  {
  }

  /** str.lstrip('\n') */
  function LStripNewlines(s: string): (r: string)
    ensures r == "" || r[0] != '\n'
  {
    if s != "" && s[0] == '\n' then LStripNewlines(s[1..]) else s
  }

  lemma StripEmptyIffAllSpace(s: string)
    ensures Strip(s) == "" <==> AllSpace(s)
  {
    var l := LStrip(s);
    var pre := s[..|s| - |l|];
    RStripKeepsNonBlank(l);
    assert s == pre + l;
    AllSpaceConcat(pre, l);
  }

  lemma AllSpaceConcat(a: string, b: string)
    ensures AllSpace(a + b) <==> AllSpace(a) && AllSpace(b)
  {
    if AllSpace(a + b) {
      forall i | 0 <= i < |b| ensures IsSpace(b[i]) {
        assert b[i] == (a + b)[|a| + i];
      }
      forall i | 0 <= i < |a| ensures IsSpace(a[i]) {
        assert a[i] == (a + b)[i];
      }
    }
  }

  lemma RStripKeepsNonBlank(s: string)
    ensures RStrip(s) == "" <==> AllSpace(s)
  {
    assert s[0..] == s;
  }

  /** s.startswith(p) */
  predicate StartsWith(s: string, p: string) {
    p <= s
  }

  /** s.endswith(p) */
  predicate EndsWith(s: string, p: string) {
    |p| <= |s| && s[|s| - |p|..] == p
  }

  /** p in s (substring test) */
  predicate Contains(s: string, p: string)
    decreases |s|
  {
    StartsWith(s, p) || (s != "" && Contains(s[1..], p))
  }

  lemma ContainsAt(s: string, p: string, i: nat)
    requires i + |p| <= |s| && s[i..i + |p|] == p
    ensures Contains(s, p)
    decreases i
  {
    if i > 0 {
      assert s[1..][i - 1..i - 1 + |p|] == s[i..i + |p|];
      ContainsAt(s[1..], p, i - 1);
    }
  }

  lemma ContainsSuffix(s: string, p: string)
    requires EndsWith(s, p)
    ensures Contains(s, p)
  {
    ContainsAt(s, p, |s| - |p|);
  }

  lemma ContainsOfContained(s: string, t: string, p: string)
    requires Contains(t, p) && Contains(s, t)
    ensures Contains(s, p)
    decreases |s|, |t|
  {
    if StartsWith(s, t) {
      if StartsWith(t, p) {
        assert p <= s;
      } else {
        ContainsInPrefix(s, t, p);
      }
    } else {
      ContainsOfContained(s[1..], t, p);
    }
  }

  lemma ContainsInPrefix(s: string, t: string, p: string)
    requires Contains(t, p) && t <= s
    ensures Contains(s, p)
    decreases |t|
  {
    if !StartsWith(t, p) {
      assert t[1..] <= s[1..];
      ContainsInPrefix(s[1..], t[1..], p);
    } else {
      assert p <= s;
    }
  }

  function LowerChar(c: char): char {
    if 'A' <= c <= 'Z' then (c as int + 32) as char else c
  }

  /** str.lower(), restricted to the ASCII letters */
  function Lower(s: string): (r: string)
    ensures |r| == |s|
    ensures forall i | 0 <= i < |s| :: r[i] == LowerChar(s[i])
  {
    seq(|s|, i requires 0 <= i < |s| => LowerChar(s[i]))
  }

  /** s.replace(c, rep) for a one-character pattern c */
  function ReplaceChar(s: string, c: char, rep: string): (r: string)
    ensures c !in rep ==> c !in r
    ensures forall d | d !in rep && d != c :: d in r ==> d in s
  {
    if s == "" then ""
    else (if s[0] == c then rep else [s[0]]) + ReplaceChar(s[1..], c, rep)
  }

  lemma ReplaceCharKeepsAbsent(s: string, c: char, rep: string, d: char)
    requires d !in s && d !in rep
    ensures d !in ReplaceChar(s, c, rep)
  {
  }

  /** s.strip(chars): removes leading and trailing characters of the set */
  function StripChars(s: string, chars: set<char>): (r: string)
    ensures |r| <= |s|
    ensures r == "" || (r[0] !in chars && r[|r| - 1] !in chars)
  {
    StripCharsRight(StripCharsLeft(s, chars), chars)
  }

  function StripCharsLeft(s: string, chars: set<char>): (r: string)
    ensures |r| <= |s| && r == s[|s| - |r|..]
    ensures r == "" || r[0] !in chars
  {
    if s != "" && s[0] in chars then StripCharsLeft(s[1..], chars) else s
  }

  function StripCharsRight(s: string, chars: set<char>): (r: string)
    ensures |r| <= |s| && r == s[..|r|]
    ensures r == "" || r[|r| - 1] !in chars
  {
    if s != "" && s[|s| - 1] in chars then StripCharsRight(s[..|s| - 1], chars) else s
  }

  // ---------------------------------------------------------------------
  // Lines: s.split('\n') and '\n'.join(...)
  // ---------------------------------------------------------------------

  /** s.split('\n'): never empty; no piece contains a newline. */
  function Lines(s: string): (ls: seq<string>)
    ensures |ls| >= 1
    ensures forall k | 0 <= k < |ls| :: '\n' !in ls[k]
  {
    if s == "" then [""]
    else if s[0] == '\n' then [""] + Lines(s[1..])
    else
      var r := Lines(s[1..]);
      [[s[0]] + r[0]] + r[1..]
  }

  /** '\n'.join(ls) */
  function Join(ls: seq<string>): string {
    if |ls| == 0 then ""
    else if |ls| == 1 then ls[0]
    else ls[0] + "\n" + Join(ls[1..])
  }

  predicate NoNewlines(ls: seq<string>) {
    forall k | 0 <= k < |ls| :: '\n' !in ls[k]
  }

  lemma {:induction false} JoinLines(s: string)
    ensures Join(Lines(s)) == s
  {
    if s == "" {
    } else if s[0] == '\n' {
      JoinLines(s[1..]);
      assert Lines(s)[1..] == Lines(s[1..]);
    } else {
      JoinLines(s[1..]);
      var r := Lines(s[1..]);
      if |r| == 1 {
      } else {
        assert Lines(s)[1..] == r[1..];
        assert Join(r) == r[0] + "\n" + Join(r[1..]);
      }
    }
  }

  lemma {:induction false} LinesSingle(a: string)
    requires '\n' !in a
    ensures Lines(a) == [a]
  {
    if a != "" {
      assert '\n' !in a[1..] by { assert forall k | 0 <= k < |a[1..]| :: a[1..][k] == a[k + 1]; }
      LinesSingle(a[1..]);
      assert [a[0]] + a[1..] == a;
    }
  }

  lemma {:induction false} LinesCons(a: string, b: string)
    requires '\n' !in a
    ensures Lines(a + "\n" + b) == [a] + Lines(b)
  {
    if a == "" {
      assert a + "\n" + b == "\n" + b;
      assert ("\n" + b)[1..] == b;
    } else {
      var s := a + "\n" + b;
      assert s[0] == a[0];
      assert s[1..] == a[1..] + "\n" + b;
      assert '\n' !in a[1..] by { assert forall k | 0 <= k < |a[1..]| :: a[1..][k] == a[k + 1]; }
      LinesCons(a[1..], b);
      assert [a[0]] + a[1..] == a;
    }
  }

  lemma {:induction false} LinesJoin(ls: seq<string>)
    requires |ls| >= 1 && NoNewlines(ls)
    ensures Lines(Join(ls)) == ls
  {
    if |ls| == 1 {
      LinesSingle(ls[0]);
    } else {
      LinesJoin(ls[1..]);
      LinesCons(ls[0], Join(ls[1..]));
    }
  }

  /** The lines that are not empty, in order. */
  function NonEmpty(ls: seq<string>): (r: seq<string>)
    ensures |r| <= |ls|
    ensures forall k | 0 <= k < |r| :: r[k] != "" && r[k] in ls
  {
    if ls == [] then []
    else (if ls[0] == "" then [] else [ls[0]]) + NonEmpty(ls[1..])
  }

  lemma NonEmptyAppend(a: seq<string>, b: seq<string>)
    ensures NonEmpty(a + b) == NonEmpty(a) + NonEmpty(b)
  {
    if a == [] {
      assert a + b == b;
    } else {
      assert (a + b)[1..] == a[1..] + b;
      NonEmptyAppend(a[1..], b);
    }
  }

  function MapRStrip(ls: seq<string>): (r: seq<string>)
    ensures |r| == |ls|
    ensures forall k | 0 <= k < |ls| :: r[k] == RStrip(ls[k])
  {
    if ls == [] then [] else [RStrip(ls[0])] + MapRStrip(ls[1..])
  }

  /** A lower-case letter whose two cases are absent from s is absent from Lower(s). */
  lemma LowerAvoids(s: string, c: char, upper: char)
    requires 'a' <= c <= 'z' && upper as int == c as int - 32
    requires c !in s && upper !in s
    ensures c !in Lower(s)
  {
    var l := Lower(s);
    forall i | 0 <= i < |l| ensures l[i] != c {
      assert l[i] == LowerChar(s[i]) && s[i] in s;
    }
  }

  /** A string lacking one character of w does not contain w. */
  lemma NotContainsChar(s: string, w: string, c: char)
    requires c in w && c !in s
    ensures !Contains(s, w)
    decreases |s|
  {
    if s != "" {
      NotContainsChar(s[1..], w, c);
    }
  }

  // ---------------------------------------------------------------------
  // Decimal rendering of a natural number: str(n) / f"{n}"
  // ---------------------------------------------------------------------

  function DigitChar(d: nat): (c: char)
    requires d < 10
    ensures '0' <= c <= '9'
  {
    ('0' as int + d) as char
  }

  /** str(n) for n >= 0: decimal digits, no leading zero. */
  function NatToString(n: nat): (s: string)
    ensures |s| >= 1
    ensures n >= 10 ==> |s| >= 2
    ensures forall i | 0 <= i < |s| :: '0' <= s[i] <= '9'
    decreases n
  {
    if n < 10 then [DigitChar(n)] else NatToString(n / 10) + [DigitChar(n % 10)]
  }

  /** Different numbers render differently. */
  lemma {:induction false} NatToStringInjective(a: nat, b: nat)
    requires NatToString(a) == NatToString(b)
    ensures a == b
    decreases a
  {
    if a >= 10 && b >= 10 {
      var sa, sb := NatToString(a), NatToString(b);
      assert sa[|sa| - 1] == DigitChar(a % 10) && sb[|sb| - 1] == DigitChar(b % 10);
      assert NatToString(a / 10) == sa[..|sa| - 1] == sb[..|sb| - 1] == NatToString(b / 10);
      NatToStringInjective(a / 10, b / 10);
    }
  }
}
