/**
 * natural_sort_files: chapter files are ordered by a key built from the base
 * name, in which runs of digits compare as integers and the text between them
 * compares lower-cased, so "ch2" comes before "ch10".
 */
module NaturalSort {
  import opened Text
  import Paths

  /** One element of the key list: a lower-cased text piece or the value of a digit run. */
  datatype Part = Txt(s: string) | Num(n: nat)

  type Key = seq<Part>

  predicate IsDigit(c: char) {
    '0' <= c <= '9'
  }

  function NonDigitPrefix(s: string): (t: string)
    ensures t <= s
    ensures forall i | 0 <= i < |t| :: !IsDigit(t[i])
    ensures |t| < |s| ==> IsDigit(s[|t|])
  {
    if s == "" || IsDigit(s[0]) then "" else [s[0]] + NonDigitPrefix(s[1..])
  }

  function DigitPrefix(s: string): (d: string)
    ensures d <= s
    ensures forall i | 0 <= i < |d| :: IsDigit(d[i])
    ensures |d| < |s| ==> !IsDigit(s[|d|])
  {
    if s == "" || !IsDigit(s[0]) then "" else [s[0]] + DigitPrefix(s[1..])
  }

  /** int(d) for a run of decimal digits. */
  function DigitsValue(d: string): nat
    requires forall i | 0 <= i < |d| :: IsDigit(d[i])
  {
    if d == "" then 0
    else
      assert IsDigit(d[|d| - 1]);
      DigitsValue(d[..|d| - 1]) * 10 + (d[|d| - 1] as int - '0' as int)
  }

  /**
   * [int(p) if p.isdigit() else p.lower() for p in re.split(r'(\d+)', s)]:
   * text pieces (possibly empty) alternate with digit runs, starting and ending with text.
   */
  function SplitKey(s: string): Key
    decreases |s|
  {
    var t := NonDigitPrefix(s);
    var r := s[|t|..];
    if r == "" then [Txt(Lower(t))]
    else
      var d := DigitPrefix(r);
      [Txt(Lower(t)), Num(DigitsValue(d))] + SplitKey(r[|d|..])
  }

  /** natural_sort_key */
  function NaturalKey(path: string): Key {
    SplitKey(Paths.Basename(path))
  }

  /** Text at even and numbers at odd positions, odd length. */
  predicate Alternates(k: Key) {
    |k| % 2 == 1 && forall i | 0 <= i < |k| :: k[i].Txt? <==> i % 2 == 0
  }

  lemma AlternatesCons(x: Part, y: Part, rest: Key)
    requires x.Txt? && y.Num? && Alternates(rest)
    ensures Alternates([x, y] + rest)
  {
    var k := [x, y] + rest;
    assert (|rest| + 2) % 2 == |rest| % 2;
    forall i | 0 <= i < |k| ensures k[i].Txt? <==> i % 2 == 0 {
      if i >= 2 {
        assert k[i] == rest[i - 2];
        assert i % 2 == (i - 2) % 2;
      }
    }
  }

  /** The key has odd length, with text at even and numbers at odd positions. */
  lemma {:induction false} SplitKeyAlternates(s: string)
    ensures Alternates(SplitKey(s))
    decreases |s|
  {
    var t := NonDigitPrefix(s);
    var r := s[|t|..];
    if r != "" {
      var d := DigitPrefix(r);
      SplitKeyAlternates(r[|d|..]);
      AlternatesCons(Txt(Lower(t)), Num(DigitsValue(d)), SplitKey(r[|d|..]));
    }
  }

  /**
   * Python never has to compare a str with an int when sorting by these keys:
   * at every index both keys hold the same kind of part.
   */
  lemma KeysComparable(a: string, b: string)
    ensures var ka, kb := NaturalKey(a), NaturalKey(b);
            forall i | 0 <= i < |ka| && i < |kb| :: ka[i].Txt? == kb[i].Txt?
  {
    SplitKeyAlternates(Paths.Basename(a));
    SplitKeyAlternates(Paths.Basename(b));
  }

  // ---------------------------------------------------------------------
  // Python's ordering of str, of the parts and of lists
  // ---------------------------------------------------------------------

  /** str < str: lexicographic by code point. */
  predicate StrLess(a: string, b: string) {
    if a == "" then b != ""
    else b != "" && (a[0] < b[0] || (a[0] == b[0] && StrLess(a[1..], b[1..])))
  }

  /** Order of two parts; a text part is put first only to make the order total (it never arises). */
  predicate PartLess(x: Part, y: Part) {
    match (x, y)
    case (Txt(a), Txt(b)) => StrLess(a, b)
    case (Num(m), Num(n)) => m < n
    case (Txt(_), Num(_)) => true
    case (Num(_), Txt(_)) => false
  }

  /** list < list: the first differing element decides, and a proper prefix comes first. */
  predicate KeyLess(a: Key, b: Key) {
    if a == [] then b != []
    else b != [] && (PartLess(a[0], b[0]) || (a[0] == b[0] && KeyLess(a[1..], b[1..])))
  }

  lemma {:induction false} StrLessOrder(a: string, b: string, c: string)
    ensures !StrLess(a, a)
    ensures StrLess(a, b) && StrLess(b, c) ==> StrLess(a, c)
    ensures a != b ==> StrLess(a, b) || StrLess(b, a)
    ensures StrLess(a, b) ==> !StrLess(b, a)
  {
    if a != "" && b != "" && c != "" {
      StrLessOrder(a[1..], b[1..], c[1..]);
      if a[1..] == b[1..] && a[0] == b[0] {
        assert a == [a[0]] + a[1..] && b == [b[0]] + b[1..];
      }
    } else if a != "" && b != "" {
      StrLessOrder(a[1..], b[1..], b[1..]);
      if a[1..] == b[1..] && a[0] == b[0] {
        assert a == [a[0]] + a[1..] && b == [b[0]] + b[1..];
      }
    } else if a != "" {
      StrLessOrder(a[1..], a[1..], a[1..]);
    }
  }

  lemma PartLessOrder(x: Part, y: Part, z: Part)
    ensures !PartLess(x, x)
    ensures PartLess(x, y) && PartLess(y, z) ==> PartLess(x, z)
    ensures x != y ==> PartLess(x, y) || PartLess(y, x)
    ensures PartLess(x, y) ==> !PartLess(y, x)
  {
    if x.Txt? && y.Txt? && z.Txt? {
      StrLessOrder(x.s, y.s, z.s);
    } else if x.Txt? && y.Txt? {
      StrLessOrder(x.s, y.s, y.s);
    } else if x.Txt? {
      StrLessOrder(x.s, x.s, x.s);
    }
  }

  /** KeyLess is a strict total order on keys. */
  lemma {:induction false} KeyLessOrder(a: Key, b: Key, c: Key)
    ensures !KeyLess(a, a)
    ensures KeyLess(a, b) && KeyLess(b, c) ==> KeyLess(a, c)
    ensures a != b ==> KeyLess(a, b) || KeyLess(b, a)
    ensures KeyLess(a, b) ==> !KeyLess(b, a)
  {
    if a != [] && b != [] && c != [] {
      PartLessOrder(a[0], b[0], c[0]);
      KeyLessOrder(a[1..], b[1..], c[1..]);
      if a[1..] == b[1..] && a[0] == b[0] {
        assert a == [a[0]] + a[1..] && b == [b[0]] + b[1..];
      }
    } else if a != [] && b != [] {
      PartLessOrder(a[0], b[0], b[0]);
      KeyLessOrder(a[1..], b[1..], b[1..]);
      if a[1..] == b[1..] && a[0] == b[0] {
        assert a == [a[0]] + a[1..] && b == [b[0]] + b[1..];
      }
    } else if a != [] {
      PartLessOrder(a[0], a[0], a[0]);
      KeyLessOrder(a[1..], a[1..], a[1..]);
    }
  }

  // ---------------------------------------------------------------------
  // sorted(file_list, key=...): a stable sort, stated for any key function
  // ---------------------------------------------------------------------

  /** Whether file f may stay before file g. */
  predicate InOrder(key: string -> Key, f: string, g: string) {
    !KeyLess(key(g), key(f))
  }

  predicate Sorted(key: string -> Key, s: seq<string>) {
    forall i, j | 0 <= i < j < |s| :: InOrder(key, s[i], s[j])
  }

  /** Puts x after every element whose key is not greater than x's. */
  function Insert(key: string -> Key, t: seq<string>, x: string): seq<string> {
    if t == [] then [x]
    else if KeyLess(key(x), key(t[|t| - 1])) then Insert(key, t[..|t| - 1], x) + [t[|t| - 1]]
    else t + [x]
  }

  function SortBy(key: string -> Key, files: seq<string>): seq<string> {
    if files == [] then [] else Insert(key, SortBy(key, files[..|files| - 1]), files[|files| - 1])
  }

  /** natural_sort_files */
  function NaturalSortFiles(files: seq<string>): seq<string> {
    SortBy(NaturalKey, files)
  }

  lemma {:induction false} InsertPermutes(key: string -> Key, t: seq<string>, x: string)
    ensures multiset(Insert(key, t, x)) == multiset(t) + multiset{x}
  {
    if t != [] && KeyLess(key(x), key(t[|t| - 1])) {
      InsertPermutes(key, t[..|t| - 1], x);
      assert t == t[..|t| - 1] + [t[|t| - 1]];
    }
  }

  lemma InOrderTrans(key: string -> Key, f: string, g: string, h: string)
    requires InOrder(key, f, g) && InOrder(key, g, h)
    ensures InOrder(key, f, h)
  {
    var a, b, c := key(f), key(g), key(h);
    KeyLessOrder(a, b, c);
    KeyLessOrder(c, b, a);
    KeyLessOrder(c, a, b);
    KeyLessOrder(b, c, a);
  }

  /** Every element of Insert(t, x) may stay before y when those of t and x may. */
  lemma InsertBelow(key: string -> Key, t: seq<string>, x: string, y: string)
    requires forall i | 0 <= i < |t| :: InOrder(key, t[i], y)
    requires InOrder(key, x, y)
    ensures forall i | 0 <= i < |Insert(key, t, x)| :: InOrder(key, Insert(key, t, x)[i], y)
  {
    var u := Insert(key, t, x);
    InsertPermutes(key, t, x);
    forall i | 0 <= i < |u| ensures InOrder(key, u[i], y) {
      assert u[i] in multiset(u);
      if u[i] != x {
        assert u[i] in multiset(t);
        var j :| 0 <= j < |t| && t[j] == u[i];
      }
    }
  }

  lemma {:induction false} InsertSorted(key: string -> Key, t: seq<string>, x: string)
    requires Sorted(key, t)
    ensures Sorted(key, Insert(key, t, x))
  {
    if t != [] {
      var last := t[|t| - 1];
      var init := t[..|t| - 1];
      KeyLessOrder(key(x), key(last), key(last));
      if KeyLess(key(x), key(last)) {
        InsertSorted(key, init, x);
        assert forall i | 0 <= i < |init| :: InOrder(key, init[i], last) by {
          forall i | 0 <= i < |init| ensures InOrder(key, init[i], last) {
            assert init[i] == t[i];
          }
        }
        assert InOrder(key, x, last);
        InsertBelow(key, init, x, last);
        var u := Insert(key, init, x);
        assert forall i | 0 <= i < |u| :: InOrder(key, u[i], last);
        var r := u + [last];
        assert r == Insert(key, t, x);
        forall i, j | 0 <= i < j < |r| ensures InOrder(key, r[i], r[j]) {
          if j < |u| {
            assert r[i] == u[i] && r[j] == u[j];
          } else {
            assert r[i] == u[i] && r[j] == last;
            assert InOrder(key, u[i], last);
          }
        }
      } else {
        var r := t + [x];
        assert r == Insert(key, t, x);
        forall i, j | 0 <= i < j < |r| ensures InOrder(key, r[i], r[j]) {
          if j < |t| {
            assert r[i] == t[i] && r[j] == t[j];
          } else if i < |t| - 1 {
            assert r[i] == t[i] && InOrder(key, t[i], last);
            InOrderTrans(key, r[i], last, x);
          }
        }
      }
    }
  }

  lemma {:induction false} SortByPermutes(key: string -> Key, files: seq<string>)
    ensures multiset(SortBy(key, files)) == multiset(files)
  {
    if files != [] {
      var init := files[..|files| - 1];
      SortByPermutes(key, init);
      InsertPermutes(key, SortBy(key, init), files[|files| - 1]);
      assert files == init + [files[|files| - 1]];
    }
  }

  lemma {:induction false} SortBySorted(key: string -> Key, files: seq<string>)
    ensures Sorted(key, SortBy(key, files))
  {
    if files != [] {
      SortBySorted(key, files[..|files| - 1]);
      InsertSorted(key, SortBy(key, files[..|files| - 1]), files[|files| - 1]);
    }
  }

  /** The files whose key equals k, in order. */
  function WithKey(key: string -> Key, s: seq<string>, k: Key): seq<string> {
    if s == [] then []
    else WithKey(key, s[..|s| - 1], k) + (if key(s[|s| - 1]) == k then [s[|s| - 1]] else [])
  }

  lemma {:induction false} WithKeyAppend(key: string -> Key, s: seq<string>, t: seq<string>, k: Key)
    ensures WithKey(key, s + t, k) == WithKey(key, s, k) + WithKey(key, t, k)
    decreases |t|
  {
    if t == [] {
      assert s + t == s;
    } else {
      WithKeyAppend(key, s, t[..|t| - 1], k);
      assert (s + t)[..|s + t| - 1] == s + t[..|t| - 1];
    }
  }

  lemma WithKeySingle(key: string -> Key, x: string, k: Key)
    ensures WithKey(key, [x], k) == (if key(x) == k then [x] else [])
  {
    assert [x][..0] == [];
  }

  lemma {:induction false} InsertStable(key: string -> Key, t: seq<string>, x: string, k: Key)
    ensures WithKey(key, Insert(key, t, x), k) == WithKey(key, t, k) + (if key(x) == k then [x] else [])
  {
    WithKeySingle(key, x, k);
    if t != [] {
      var last, init := t[|t| - 1], t[..|t| - 1];
      assert t == init + [last];
      if KeyLess(key(x), key(last)) {
        InsertStable(key, init, x, k);
        InsertBeforeLast(key, init, last, x, k);
      } else {
        WithKeyAppend(key, t, [x], k);
      }
    }
  }

  /** The step of InsertStable where x moves in front of the last element, whose key differs. */
  lemma InsertBeforeLast(key: string -> Key, init: seq<string>, last: string, x: string, k: Key)
    requires KeyLess(key(x), key(last))
    requires WithKey(key, Insert(key, init, x), k) == WithKey(key, init, k) + (if key(x) == k then [x] else [])
    ensures WithKey(key, Insert(key, init + [last], x), k) ==
            WithKey(key, init + [last], k) + (if key(x) == k then [x] else [])
  {
    InsertUnfold(key, init, last, x);
    KeyLessOrder(key(last), key(last), key(last));
    WithKeyAppend(key, Insert(key, init, x), [last], k);
    WithKeyAppend(key, init, [last], k);
    WithKeySingle(key, last, k);
    var w := WithKey(key, init, k);
    if key(x) == k {
      assert key(last) != k;
      assert WithKey(key, init + [last], k) == w + [];
    } else {
      assert WithKey(key, Insert(key, init, x), k) == w;
    }
  }

  lemma InsertUnfold(key: string -> Key, init: seq<string>, last: string, x: string)
    requires KeyLess(key(x), key(last))
    ensures Insert(key, init + [last], x) == Insert(key, init, x) + [last]
  {
    var t := init + [last];
    assert t[..|t| - 1] == init && t[|t| - 1] == last;
  }

  lemma {:induction false} SortByStable(key: string -> Key, files: seq<string>, k: Key)
    ensures WithKey(key, SortBy(key, files), k) == WithKey(key, files, k)
  {
    if files != [] {
      var init := files[..|files| - 1];
      SortByStable(key, init, k);
      InsertStable(key, SortBy(key, init), files[|files| - 1], k);
    }
  }

  /**
   * natural_sort_files returns a permutation of its input, sorted by the natural
   * key, in which files with equal keys keep their input order.
   */
  lemma NaturalSortCorrect(files: seq<string>, k: Key)
    ensures var r := NaturalSortFiles(files);
            multiset(r) == multiset(files) && Sorted(NaturalKey, r) &&
            WithKey(NaturalKey, r, k) == WithKey(NaturalKey, files, k)
  {
    SortByPermutes(NaturalKey, files);
    SortBySorted(NaturalKey, files);
    SortByStable(NaturalKey, files, k);
  }

  // ---------------------------------------------------------------------
  // The ordering the feature exists for
  // ---------------------------------------------------------------------

  lemma {:induction false} NonDigitPrefixOf(t: string, u: string)
    requires forall i | 0 <= i < |t| :: !IsDigit(t[i])
    requires u == "" || IsDigit(u[0])
    ensures NonDigitPrefix(t + u) == t
  {
    if t != "" {
      assert (t + u)[1..] == t[1..] + u;
      NonDigitPrefixOf(t[1..], u);
    } else {
      assert t + u == u;
    }
  }

  lemma {:induction false} DigitPrefixAll(d: string)
    requires forall i | 0 <= i < |d| :: IsDigit(d[i])
    ensures DigitPrefix(d) == d
  {
    if d != "" {
      DigitPrefixAll(d[1..]);
    }
  }

  /** The key of a name made of a text piece and one run of digits. */
  lemma KeyOfRun(t: string, d: string)
    requires '/' !in t && forall i | 0 <= i < |t| :: !IsDigit(t[i])
    requires d != [] && forall i | 0 <= i < |d| :: IsDigit(d[i])
    ensures NaturalKey(t + d) == [Txt(Lower(t)), Num(DigitsValue(d)), Txt("")]
  {
    NoSlashBasename(t, d);
    SplitKeyOneRun(t, d);
  }

  /** A name made of letters and digits has no directory part. */
  lemma NoSlashBasename(t: string, d: string)
    requires '/' !in t && forall i | 0 <= i < |d| :: IsDigit(d[i])
    ensures Paths.Basename(t + d) == t + d
  {
    var p := t + d;
    forall j | 0 <= j < |p| ensures p[j] != '/' {
      if j >= |t| {
        assert p[j] == d[j - |t|];
      } else {
        assert p[j] == t[j];
      }
    }
  }

  /** A text piece followed by one run of digits splits into the text, the number and an empty text. */
  lemma SplitKeyOneRun(t: string, d: string)
    requires forall i | 0 <= i < |t| :: !IsDigit(t[i])
    requires d != [] && forall i | 0 <= i < |d| :: IsDigit(d[i])
    ensures SplitKey(t + d) == [Txt(Lower(t)), Num(DigitsValue(d)), Txt("")]
  {
    NonDigitPrefixOf(t, d);
    DigitPrefixAll(d);
    assert (t + d)[|t|..] == d;
    assert d[|d|..] == "";
    assert SplitKey("") == [Txt(Lower(""))];
  }

  lemma SortTwo(key: string -> Key, f: string, g: string)
    ensures SortBy(key, [f, g]) == if KeyLess(key(g), key(f)) then [g, f] else [f, g]
  {
    assert [f, g][..1] == [f];
    assert [f][..0] == [];
    assert SortBy(key, [f]) == Insert(key, [], f) == [f];
    assert SortBy(key, [f, g]) == Insert(key, [f], g);
    assert [f][..|[f]| - 1] == [];
  }

  lemma DigitValues()
    ensures DigitsValue("10") == 10 && DigitsValue("02") == 2 && DigitsValue("2") == 2
  {
    assert "10"[..1] == "1" && "1"[..0] == "" && "02"[..1] == "0" && "0"[..0] == "" && "2"[..0] == "";
  }

  /** "ch02" and "ch2" have equal keys. */
  lemma LeadingZerosTie(ch2: string, ch02: string)
    requires ch2 == "ch2" && ch02 == "ch02"
    ensures NaturalKey(ch02) == NaturalKey(ch2)
  {
    DigitValues();
    assert ch2 == "ch" + "2" && ch02 == "ch" + "02";
    KeyOfRun("ch", "2");
    KeyOfRun("ch", "02");
  }

  /** "ch2" sorts before "ch10", although "ch10" < "ch2" as plain strings. */
  lemma NumbersCompareAsIntegers(ch2: string, ch10: string)
    requires ch2 == "ch2" && ch10 == "ch10"
    ensures KeyLess(NaturalKey(ch2), NaturalKey(ch10)) && !KeyLess(NaturalKey(ch10), NaturalKey(ch2))
  {
    DigitValues();
    assert ch2 == "ch" + "2" && ch10 == "ch" + "10";
    KeyOfRun("ch", "2");
    KeyOfRun("ch", "10");
    RunKeysCompare(Lower("ch"), 2, 10);
  }

  /** Two one-run keys with the same text compare as their numbers do. */
  lemma RunKeysCompare(t: string, m: nat, n: nat)
    requires m < n
    ensures KeyLess([Txt(t), Num(m), Txt("")], [Txt(t), Num(n), Txt("")])
    ensures !KeyLess([Txt(t), Num(n), Txt("")], [Txt(t), Num(m), Txt("")])
  {
    var a, b := [Txt(t), Num(m), Txt("")], [Txt(t), Num(n), Txt("")];
    StrLessOrder(t, t, t);
    assert !PartLess(a[0], b[0]);
    assert a[1..] == [Num(m), Txt("")] && b[1..] == [Num(n), Txt("")];
    assert KeyLess(a[1..], b[1..]);
    assert !KeyLess(b[1..], a[1..]);
  }

  /** Sorting puts "ch2" before "ch10", and leaves "ch02" and "ch2" in input order either way. */
  lemma ChapterSort(ch2: string, ch10: string, ch02: string)
    requires ch2 == "ch2" && ch10 == "ch10" && ch02 == "ch02"
    ensures NaturalSortFiles([ch10, ch2]) == [ch2, ch10]
    ensures NaturalSortFiles([ch02, ch2]) == [ch02, ch2] && NaturalSortFiles([ch2, ch02]) == [ch2, ch02]
  {
    NumbersCompareAsIntegers(ch2, ch10);
    LeadingZerosTie(ch2, ch02);
    KeyLessOrder(NaturalKey(ch2), NaturalKey(ch2), NaturalKey(ch2));
    SortTwo(NaturalKey, ch10, ch2);
    SortTwo(NaturalKey, ch02, ch2);
    SortTwo(NaturalKey, ch2, ch02);
  }
}
