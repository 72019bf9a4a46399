/**
  The part of Python's `pathlib` the wrappers rely on: the final component of a
  path (`PurePath.name`), its extension (`PurePath.suffix`) and the
  case-insensitive extension tests `suffix.lower() == ".pdf"` / `".p12"`.
  Paths are POSIX strings already in the normal form `str(Path(p))` produces.
 */
module Paths {

  type Path = string

  /** Index of the last occurrence of `c` in `s`, or -1 (Python's `str.rfind`). */
  function LastIndexOf(s: string, c: char): (r: int)
    ensures -1 <= r < |s|
    ensures r >= 0 ==> s[r] == c
    ensures forall k :: r < k < |s| ==> s[k] != c
  {
    if |s| == 0 then -1
    else if s[|s| - 1] == c then |s| - 1
    else LastIndexOf(s[..|s| - 1], c)
  }

  /** The final path component: everything after the last '/'. */
  function Name(p: Path): (n: string)
    ensures |n| <= |p| && p[|p| - |n|..] == n
    ensures forall k :: 0 <= k < |n| ==> n[k] != '/'
    ensures |n| < |p| ==> p[|p| - |n| - 1] == '/'
  {
    p[LastIndexOf(p, '/') + 1..]
  }

  /**
    The extension of a final component `n`: from its last '.' to the end,
    provided that dot is neither the first nor the last character; otherwise "".
   */
  function NameSuffix(n: string): (x: string)
    ensures x != "" ==> 2 <= |x| < |n| && n[|n| - |x|..] == x
    ensures x != "" ==> x[0] == '.' && forall k :: 1 <= k < |x| ==> x[k] != '.'
  {
    var i := LastIndexOf(n, '.');
    if 0 < i < |n| - 1 then n[i..] else ""
  }

  /** `PurePath.suffix`. */
  function Suffix(p: Path): string
  {
    NameSuffix(Name(p))
  }

  /** ASCII lower-casing of one character. */
  function LowerChar(c: char): char
  {
    if 'A' <= c <= 'Z' then (c as int + 32) as char else c
  }

  /** `str.lower()` restricted to ASCII letters. */
  function Lower(s: string): (t: string)
    ensures |t| == |s|
    ensures forall k :: 0 <= k < |s| ==> t[k] == LowerChar(s[k])
  {
    seq(|s|, k requires 0 <= k < |s| => LowerChar(s[k]))
  }

  /** The test `Path(p).suffix.lower() == ext`. */
  predicate HasExtension(p: Path, ext: string)
  {
    Lower(Suffix(p)) == ext
  }

  /** An extension such as ".pdf": a dot followed by at least one non-dot character. */
  predicate PlainExtension(ext: string)
  {
    && |ext| >= 2
    && ext[0] == '.'
    && forall k :: 1 <= k < |ext| ==> ext[k] != '.'
  }

  lemma LowerCharDot(c: char)
    ensures LowerChar(c) == '.' <==> c == '.'
  {
  }

  /** A character at `i` with none after it is the last occurrence. */
  lemma LastIndexAt(s: string, c: char, i: int)
    requires 0 <= i < |s| && s[i] == c
    requires forall k :: i < k < |s| ==> s[k] != c
    ensures LastIndexOf(s, c) == i
  {
  }

  /** A name ending in a case-insensitive `ext` has exactly that ending as its suffix. */
  lemma SuffixOfEnding(n: string, ext: string)
    requires PlainExtension(ext)
    requires |n| > |ext|
    requires Lower(n[|n| - |ext|..]) == ext
    ensures NameSuffix(n) == n[|n| - |ext|..]
  {
    var i := |n| - |ext|;
    var t := n[i..];
    assert LowerChar(t[0]) == ext[0];
    LowerCharDot(t[0]);
    forall k | i < k < |n|
      ensures n[k] != '.'
    {
      assert n[k] == t[k - i];
      assert LowerChar(t[k - i]) == ext[k - i];
      LowerCharDot(t[k - i]);
    }
    LastIndexAt(n, '.', i);
  }

  /** The same statement for a final component. */
  lemma NameExtensionIff(n: string, ext: string)
    requires PlainExtension(ext)
    ensures Lower(NameSuffix(n)) == ext
        <==> |n| > |ext| && Lower(n[|n| - |ext|..]) == ext
  {
    if |n| > |ext| && Lower(n[|n| - |ext|..]) == ext {
      SuffixOfEnding(n, ext);
    }
  }

  /**
    The suffix test is a case-insensitive "ends with" on the final component,
    with at least one character before the extension: "A.PDF" and "x.y.pdf"
    pass, ".pdf" and "file1.txt" do not.
   */
  lemma HasExtensionIff(p: Path, ext: string)
    requires PlainExtension(ext)
    ensures HasExtension(p, ext)
        <==> |Name(p)| > |ext| && Lower(Name(p)[|Name(p)| - |ext|..]) == ext
  {
    NameExtensionIff(Name(p), ext);
  }

  lemma PdfExtensionIff(p: Path)
    ensures HasExtension(p, ".pdf")
        <==> |Name(p)| > 4 && Lower(Name(p)[|Name(p)| - 4..]) == ".pdf"
  {
    HasExtensionIff(p, ".pdf");
  }

  lemma P12ExtensionIff(p: Path)
    ensures HasExtension(p, ".p12")
        <==> |Name(p)| > 4 && Lower(Name(p)[|Name(p)| - 4..]) == ".p12"
  {
    HasExtensionIff(p, ".p12");
  }
}
