/**
 * The two JavaScript string built-ins the core relies on: `String.prototype.trim`
 * (used on the submitted player name) and `Array.prototype.join` (used to build
 * file paths in the file explorer).
 */
module Strings {

  /** The characters `trim` removes: ECMAScript WhiteSpace and LineTerminator. */
  const SpaceChars: set<char> := {
    '\t', '\n', '\U{000B}', '\U{000C}', '\r', ' ', '\U{00A0}', '\U{1680}',
    '\U{2000}', '\U{2001}', '\U{2002}', '\U{2003}', '\U{2004}', '\U{2005}',
    '\U{2006}', '\U{2007}', '\U{2008}', '\U{2009}', '\U{200A}',
    '\U{2028}', '\U{2029}', '\U{202F}', '\U{205F}', '\U{3000}', '\U{FEFF}'
  }

  predicate IsSpace(c: char) {
    c in SpaceChars
  }

  predicate AllSpace(s: string) {
    forall i :: 0 <= i < |s| ==> IsSpace(s[i])
  }

  function TrimStart(s: string): string {
    if |s| > 0 && IsSpace(s[0]) then TrimStart(s[1..]) else s
  }

  function TrimEnd(s: string): string {
    if |s| > 0 && IsSpace(s[|s| - 1]) then TrimEnd(s[..|s| - 1]) else s
  }

  /** `s.trim()`: whitespace removed from both ends, so never longer than `s`. */
  function Trim(s: string): (r: string)
    ensures |r| <= |s|
  {
    TrimStartShape(s);
    TrimEndShape(TrimStart(s));
    TrimEnd(TrimStart(s))
  }

  /** A string is all whitespace exactly when each of two parts of it is. */
  lemma AllSpaceSplit(a: string, b: string)
    ensures AllSpace(a + b) <==> AllSpace(a) && AllSpace(b)
  {
    if AllSpace(a + b) {
      forall k | 0 <= k < |a| ensures IsSpace(a[k]) { assert (a + b)[k] == a[k]; }
      forall k | 0 <= k < |b| ensures IsSpace(b[k]) { assert (a + b)[|a| + k] == b[k]; }
    }
    if AllSpace(a) && AllSpace(b) {
      forall k | 0 <= k < |a + b| ensures IsSpace((a + b)[k]) {
        if k < |a| { assert (a + b)[k] == a[k]; } else { assert (a + b)[k] == b[k - |a|]; }
      }
    }
  }

  /** `TrimStart` cuts a whitespace prefix and stops at a non-space character. */
  lemma {:induction false} TrimStartShape(s: string)
    ensures |TrimStart(s)| <= |s|
    ensures TrimStart(s) == s[|s| - |TrimStart(s)|..]
    ensures AllSpace(s[..|s| - |TrimStart(s)|])
    ensures TrimStart(s) == [] || !IsSpace(TrimStart(s)[0])
  {
    if |s| > 0 && IsSpace(s[0]) {
      var t := s[1..];
      TrimStartShape(t);
      var i := |t| - |TrimStart(t)|;
      assert t[i..] == s[i + 1..];
      assert s[..i + 1] == [s[0]] + t[..i];
      AllSpaceSplit([s[0]], t[..i]);
    } else {
      assert s[..0] == [];
    }
  }

  /** `TrimEnd` cuts a whitespace suffix and stops at a non-space character. */
  lemma {:induction false} TrimEndShape(s: string)
    ensures |TrimEnd(s)| <= |s|
    ensures TrimEnd(s) == s[..|TrimEnd(s)|]
    ensures AllSpace(s[|TrimEnd(s)|..])
    ensures TrimEnd(s) == [] || !IsSpace(TrimEnd(s)[|TrimEnd(s)| - 1])
  {
    if |s| > 0 && IsSpace(s[|s| - 1]) {
      var t := s[..|s| - 1];
      TrimEndShape(t);
      var j := |TrimEnd(t)|;
      assert t[..j] == s[..j];
      assert s[j..] == t[j..] + [s[|s| - 1]];
      AllSpaceSplit(t[j..], [s[|s| - 1]]);
    } else {
      assert s[|s|..] == [];
    }
  }

  /** The trimmed name neither starts nor ends with whitespace. */
  lemma TrimHasNoOuterSpace(s: string)
    ensures Trim(s) == [] || (!IsSpace(Trim(s)[0]) && !IsSpace(Trim(s)[|Trim(s)| - 1]))
  {
    var a := TrimStart(s);
    TrimStartShape(s);
    TrimEndShape(a);
    if Trim(s) != [] {
      assert Trim(s)[0] == a[0];
    }
  }

  /** The trimmed name is a contiguous part of the input with only whitespace cut away on either side. */
  lemma TrimIsInfix(s: string)
    ensures exists i, j :: 0 <= i <= j <= |s| && Trim(s) == s[i..j] && AllSpace(s[..i]) && AllSpace(s[j..])
  {
    TrimStartShape(s);
    var i := |s| - |TrimStart(s)|;
    var a := s[i..];
    TrimEndShape(a);
    var j := i + |TrimEnd(a)|;
    assert a[..j - i] == s[i..j];
    assert a[j - i..] == s[j..];
    assert Trim(s) == s[i..j] && AllSpace(s[..i]) && AllSpace(s[j..]);
  }

  /** `trim` yields the empty string exactly when the input is all whitespace. */
  lemma TrimEmptyIff(s: string)
    ensures Trim(s) == [] <==> AllSpace(s)
  {
    TrimIsInfix(s);
    var i, j :| 0 <= i <= j <= |s| && Trim(s) == s[i..j] && AllSpace(s[..i]) && AllSpace(s[j..]);
    if Trim(s) == [] {
      assert s == s[..i] + s[j..];
      AllSpaceSplit(s[..i], s[j..]);
    } else {
      TrimHasNoOuterSpace(s);
      assert s[i] == Trim(s)[0];
    }
  }

  lemma {:induction false} TrimStartFixed(s: string)
    requires s == [] || !IsSpace(s[0])
    ensures TrimStart(s) == s
  {
  }

  lemma {:induction false} TrimEndFixed(s: string)
    requires s == [] || !IsSpace(s[|s| - 1])
    ensures TrimEnd(s) == s
  {
  }

  /** Trimming twice is trimming once. */
  lemma TrimIdempotent(s: string)
    ensures Trim(Trim(s)) == Trim(s)
  {
    var t := Trim(s);
    TrimHasNoOuterSpace(s);
    TrimStartFixed(t);
    TrimEndFixed(t);
  }

  /**
   * `segs.join(sep)`: the segments with `sep` between neighbours, so a join of
   * segments starts with the first and ends with the last.
   */
  function Join(segs: seq<string>, sep: string): (r: string)
    ensures |segs| > 0 ==> segs[0] <= r
    ensures |segs| > 0 ==> |segs[|segs| - 1]| <= |r| && r[|r| - |segs[|segs| - 1]|..] == segs[|segs| - 1]
  {
    if |segs| == 0 then ""
    else if |segs| == 1 then segs[0]
    else Join(segs[..|segs| - 1], sep) + sep + segs[|segs| - 1]
  }

  /** A join is empty only for no segments or one empty segment (given a non-empty separator). */
  lemma JoinEmpty(segs: seq<string>, sep: string)
    requires sep != ""
    ensures Join(segs, sep) == "" <==> segs == [] || segs == [""]
  {
  }

  /** Proof helper: appending a segment to a non-empty list appends the separator and the segment. */
  lemma JoinSnoc(segs: seq<string>, last: string, sep: string)
    requires segs != []
    ensures Join(segs + [last], sep) == Join(segs, sep) + sep + last
  {
    assert (segs + [last])[..|segs|] == segs;
  }
}
