/**
 * The parts of Python's posixpath module that the scripts rely on: join,
 * dirname, basename and splitext. The separator is one abstract character;
 * Windows drive letters and alternative separators are not modelled.
 */
module Paths {

  const Sep: char := '/'
  const ExtSep: char := '.'

  /** str.rfind(c): the index of the last occurrence of c, or -1. */
  function LastIndex(s: string, c: char): (k: int)
    ensures -1 <= k < |s|
    ensures k >= 0 ==> s[k] == c
    ensures forall j :: k < j < |s| ==> s[j] != c
  {
    if s == [] then -1
    else if s[|s| - 1] == c then |s| - 1
    else LastIndex(s[..|s| - 1], c)
  }

  /** The contract of LastIndex determines it: any index with its two properties is it. */
  lemma LastIndexUnique(s: string, c: char, k: int)
    requires -1 <= k < |s|
    requires k >= 0 ==> s[k] == c
    requires forall j :: k < j < |s| ==> s[j] != c
    ensures LastIndex(s, c) == k
  {
  }

  predicate AllSep(s: string)
  {
    forall i :: 0 <= i < |s| ==> s[i] == Sep
  }

  /** head.rstrip(sep) */
  function RStripSep(s: string): (r: string)
    ensures r <= s
    ensures r == [] || r[|r| - 1] != Sep
    ensures forall i :: |r| <= i < |s| ==> s[i] == Sep
  {
    if s != [] && s[|s| - 1] == Sep then RStripSep(s[..|s| - 1]) else s
  }

  /** posixpath.basename: everything after the last separator. */
  function Basename(p: string): (b: string)
    ensures Sep !in b
    ensures |b| <= |p| && p[|p| - |b|..] == b
  {
    p[LastIndex(p, Sep) + 1..]
  }

  /** Everything up to and including the last separator. */
  function Head(p: string): string
  {
    p[..LastIndex(p, Sep) + 1]
  }

  /**
   * posixpath.dirname: the head, with trailing separators stripped unless the
   * head consists of separators only.
   */
  function Dirname(p: string): (d: string)
    ensures d == [] || AllSep(d) || d[|d| - 1] != Sep
  {
    var head := Head(p);
    if head != [] && !AllSep(head) then RStripSep(head) else head
  }

  /** posixpath.join(a, b) */
  function Join(a: string, b: string): string
  {
    if b != [] && b[0] == Sep then b
    else if a == [] || a[|a| - 1] == Sep then a + b
    else a + [Sep] + b
  }

  /**
   * posixpath.splitext: the extension starts at the last dot after the last
   * separator, unless only dots precede that dot in the final component.
   */
  function SplitExt(p: string): (r: (string, string))
    ensures r.0 + r.1 == p
    ensures r.1 != [] ==> r.1[0] == ExtSep && ExtSep !in r.1[1..] && Sep !in r.1
  {
    var sepIndex := LastIndex(p, Sep);
    var dotIndex := LastIndex(p, ExtSep);
    if dotIndex > sepIndex && exists j :: sepIndex + 1 <= j < dotIndex && p[j] != ExtSep
    then (p[..dotIndex], p[dotIndex..])
    else (p, [])
  }

  /** Appending text without c leaves the last occurrence of c where it was. */
  lemma LastIndexAppendFree(s: string, t: string, c: char)
    requires c !in t
    ensures LastIndex(s + t, c) == LastIndex(s, c)
  {
    var k := LastIndex(s, c);
    var st := s + t;
    forall j | k < j < |st| ensures st[j] != c {
      if j < |s| { assert st[j] == s[j]; } else { assert st[j] == t[j - |s|]; }
    }
    LastIndexUnique(st, c, k);
  }

  /** The last component of a joined path is the joined name, when the name has no separator. */
  lemma {:induction false} BasenameOfJoin(d: string, x: string)
    requires Sep !in x
    ensures Basename(Join(d, x)) == x
  {
    var j := Join(d, x);
    if d == [] {
      assert j == [] + x;
      LastIndexAppendFree([], x, Sep);
    } else if d[|d| - 1] == Sep {
      assert j == d + x;
      LastIndexAppendFree(d, x, Sep);
    } else {
      assert j == (d + [Sep]) + x;
      LastIndexAppendFree(d + [Sep], x, Sep);
      assert LastIndex(d + [Sep], Sep) == |d|;
    }
  }

  /** Stripping one more trailing separator changes nothing. */
  lemma RStripSepSnoc(d: string)
    ensures RStripSep(d + [Sep]) == RStripSep(d)
  {
    assert (d + [Sep])[..|d + [Sep]| - 1] == d;
  }

  /** The head of d + x is d when d is empty or ends in a separator and x has none. */
  lemma HeadAppendFree(d: string, x: string)
    requires Sep !in x
    requires d == [] || d[|d| - 1] == Sep
    ensures Head(d + x) == d
  {
    LastIndexAppendFree(d, x, Sep);
    LastIndexUnique(d, Sep, |d| - 1);
    assert (d + x)[..|d|] == d;
  }

  /**
   * Joining a separator-free name onto a dirname result gives a path whose
   * dirname is that same directory: the output stays in the input's directory.
   */
  lemma {:induction false} DirnameOfJoin(p: string, x: string)
    requires Sep !in x
    ensures Dirname(Join(Dirname(p), x)) == Dirname(p)
  {
    var d := Dirname(p);
    if d == [] {
      assert Join(d, x) == [] + x;
      HeadAppendFree([], x);
    } else if AllSep(d) {
      assert Join(d, x) == d + x;
      HeadAppendFree(d, x);
    } else {
      DirnameOfJoinStripped(d, x);
    }
  }

  lemma DirnameOfJoinStripped(d: string, x: string)
    requires Sep !in x
    requires d != [] && !AllSep(d) && d[|d| - 1] != Sep
    ensures Dirname(Join(d, x)) == d
  {
    var ds := d + [Sep];
    assert Join(d, x) == ds + x;
    HeadAppendFree(ds, x);
    var i :| 0 <= i < |d| && d[i] != Sep;
    assert ds[i] != Sep;
    assert !AllSep(ds);
    RStripSepSnoc(d);
  }
}
