/**
 * The two os.path operations the core uses on file names, with POSIX
 * semantics ('/' is the only separator).
 */
module Paths {

  /** s.rfind(c): the last index of c in s, or -1. */
  function LastIndexOf(s: string, c: char): (i: int)
    ensures -1 <= i < |s|
    ensures i >= 0 ==> s[i] == c
    ensures forall j | i < j < |s| :: s[j] != c
  {
    if s == [] then -1
    else if s[|s| - 1] == c then |s| - 1
    else LastIndexOf(s[..|s| - 1], c)
  }

  /** os.path.basename: everything after the last '/'. */
  function Basename(p: string): (b: string)
    ensures '/' !in b
    ensures |b| <= |p| && b == p[|p| - |b|..]
    ensures '/' !in p ==> b == p
  {
    var i := LastIndexOf(p, '/');
    var b := p[i + 1..];
    assert b == p[|p| - |b|..];
    assert '/' !in b by {
      forall j | 0 <= j < |b| ensures b[j] != '/' { assert b[j] == p[i + 1 + j]; }
    }
    assert '/' !in p ==> i == -1 by {
      if i >= 0 { assert p[i] in p; }
    }
    b
  }

  /** The character after the leading dots of p[from..]: the first index >= from that is not '.', else |p|. */
  function SkipDots(p: string, from: nat): (k: nat)
    requires from <= |p|
    ensures from <= k <= |p|
    ensures forall j | from <= j < k :: p[j] == '.'
    ensures k < |p| ==> p[k] != '.'
    decreases |p| - from
  {
    if from < |p| && p[from] == '.' then SkipDots(p, from + 1) else from
  }

  /**
   * os.path.splitext: the extension starts at the last '.' of the last path
   * component, unless everything before that dot in the component is dots
   * (".bashrc" and "..md" have no extension).
   */
  function SplitExt(p: string): (r: (string, string))
    ensures r.0 + r.1 == p
    ensures r.1 == "" || (r.1[0] == '.' && '/' !in r.1 && '.' !in r.1[1..])
  {
    var sep := LastIndexOf(p, '/');
    var dot := LastIndexOf(p, '.');
    if dot > sep && SkipDots(p, sep + 1) < dot then
      var ext := p[dot..];
      TailAvoids(p, dot, '/');
      TailAvoids(p, dot + 1, '.');
      assert ext[1..] == p[dot + 1..];
      assert p[..dot] + ext == p;
      (p[..dot], ext)
    else
      (p, "")
  }

  lemma TailAvoids(p: string, from: nat, c: char)
    requires from <= |p| && forall j | from <= j < |p| :: p[j] != c
    ensures c !in p[from..]
  {
    forall k | 0 <= k < |p[from..]| ensures p[from..][k] != c {
      assert p[from..][k] == p[from + k];
    }
  }
}
