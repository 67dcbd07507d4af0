/** The two JavaScript string operations that the key parsing relies on. */
module Strings {

  /** True when `sep` starts at position `i` of `s`. */
  predicate StartsAt(s: string, sep: string, i: nat) {
    i + |sep| <= |s| && s[i..i + |sep|] == sep
  }

  lemma FirstLetter(s: string, sep: string, i: nat)
    requires 0 < |sep|
    ensures StartsAt(s, sep, i) ==> s[i] == sep[0]
    ensures |sep| == 1 && i < |s| ==> (StartsAt(s, sep, i) <==> s[i] == sep[0])
  {
    if i + |sep| <= |s| { assert s[i..i + |sep|][0] == s[i]; }
  }

  /** First position at or after `i` where `sep` starts, or `|s|` when there is none. */
  function IndexOf(s: string, sep: string, i: nat): (r: nat)
    requires 0 < |sep| && i <= |s|
    ensures i <= r <= |s|
    ensures r < |s| ==> StartsAt(s, sep, r)
    ensures forall j :: i <= j < r ==> !StartsAt(s, sep, j)
    decreases |s| - i
  {
    if i == |s| then i
    else if StartsAt(s, sep, i) then i
    else IndexOf(s, sep, i + 1)
  }

  /** `s.split(sep)` */
  function Split(s: string, sep: string): (r: seq<string>)
    requires 0 < |sep|
    ensures |r| > 0
    decreases |s|
  {
    var i := IndexOf(s, sep, 0);
    if i == |s| then [s] else [s[..i]] + Split(s[i + |sep|..], sep)
  }

  /** Splitting a two-part string gives the parts back when neither holds the separator's letter. */
  lemma SplitOfTwo(a: string, c: char, n: nat, b: string)
    requires 0 < n
    requires c !in a && c !in b
    ensures Split(a + seq(n, _ => c) + b, seq(n, _ => c)) == [a, b]
  {
    var sep := seq(n, _ => c);
    var s := a + sep + b;
    assert StartsAt(s, sep, |a|);
    forall j | 0 <= j < |a| ensures !StartsAt(s, sep, j) {
      assert s[j] == a[j];
      FirstLetter(s, sep, j);
    }
    assert IndexOf(s, sep, 0) == |a|;
    assert s[..|a|] == a && s[|a| + n..] == b;
    assert IndexOf(b, sep, 0) == |b| by {
      var i := IndexOf(b, sep, 0);
      FirstLetter(b, sep, i);
    }
  }

  /** No piece contains the separator when the separator is one letter. */
  lemma {:induction false} PiecesAvoidSeparator(s: string, c: char)
    ensures forall i :: 0 <= i < |Split(s, [c])| ==> c !in Split(s, [c])[i]
    decreases |s|
  {
    var i := IndexOf(s, [c], 0);
    forall j | 0 <= j < i ensures s[j] != c {
      assert !StartsAt(s, [c], j);
      FirstLetter(s, [c], j);
    }
    if i < |s| {
      PiecesAvoidSeparator(s[i + 1..], c);
    }
  }

  /** White space and line terminators, as `trim` and `\s` understand them. */
  predicate IsSpace(c: char) {
    || c == ' ' || '\U{0009}' <= c <= '\U{000D}' || c == '\U{00A0}' || c == '\U{1680}'
    || '\U{2000}' <= c <= '\U{200A}' || c == '\U{2028}' || c == '\U{2029}' || c == '\U{202F}'
    || c == '\U{205F}' || c == '\U{3000}' || c == '\U{FEFF}'
  }

  /** The first position from `i` on whose letter `f` does not accept. */
  function Start(s: string, f: char -> bool, i: nat): (r: nat)
    requires i <= |s|
    ensures i <= r <= |s| && (forall x :: i <= x < r ==> f(s[x])) && (r < |s| ==> !f(s[r]))
    decreases |s| - i
  {
    if i < |s| && f(s[i]) then Start(s, f, i + 1) else i
  }

  /** The end of what is left when letters that `f` accepts are dropped below `j`. */
  function End(s: string, f: char -> bool, j: nat): (r: nat)
    requires j <= |s|
    ensures r <= j && (forall x :: r <= x < j ==> f(s[x])) && (r > 0 ==> !f(s[r - 1]))
  {
    if j > 0 && f(s[j - 1]) then End(s, f, j - 1) else j
  }

  /** `s.trim()` */
  function Trim(s: string): string {
    var i, j := Start(s, IsSpace, 0), End(s, IsSpace, |s|);
    if i <= j then s[i..j] else ""
  }

  /** The middle of a text, which starts and ends with no letter that `f` accepts, between parts of nothing else. */
  predicate Middle(s: string, r: string, i: int, j: int, f: char -> bool) {
    && 0 <= i <= j <= |s| && r == s[i..j]
    && (forall x :: 0 <= x < i ==> f(s[x])) && (forall x :: j <= x < |s| ==> f(s[x]))
    && (r != "" ==> !f(r[0]) && !f(r[|r| - 1]))
  }

  lemma CutBothEnds(s: string, f: char -> bool, i: nat, j: nat)
    requires i == Start(s, f, 0) && j == End(s, f, |s|)
    ensures if i <= j then Middle(s, s[i..j], i, j, f) else Middle(s, "", 0, 0, f)
  {
    if i <= j && i < j {
      assert s[i..j][0] == s[i] && s[i..j][j - i - 1] == s[j - 1];
    }
  }

  /** What is left is the middle of the text and starts and ends with neither white space nor a line
      terminator; what is cut off at both ends is nothing else. */
  lemma TrimCutsSpace(s: string)
    ensures exists i, j :: Middle(s, Trim(s), i, j, IsSpace)
  {
    var i, j := Start(s, IsSpace, 0), End(s, IsSpace, |s|);
    CutBothEnds(s, IsSpace, i, j);
    if i <= j {
      assert Middle(s, Trim(s), i, j, IsSpace);
    } else {
      assert Middle(s, Trim(s), 0, 0, IsSpace);
    }
  }

  /** The white space and line terminators of ECMAScript. */
  lemma SpaceMeans(c: char)
    ensures IsSpace(c) <==> c in [
              '\U{0009}', '\U{000A}', '\U{000B}', '\U{000C}', '\U{000D}', '\U{0020}', '\U{00A0}', '\U{1680}',
              '\U{2000}', '\U{2001}', '\U{2002}', '\U{2003}', '\U{2004}', '\U{2005}', '\U{2006}', '\U{2007}',
              '\U{2008}', '\U{2009}', '\U{200A}', '\U{2028}', '\U{2029}', '\U{202F}', '\U{205F}', '\U{3000}', '\U{FEFF}']
  {
  }

  function Join(ps: seq<string>, sep: string): string
    requires ps != []
  {
    if |ps| == 1 then ps[0] else ps[0] + sep + Join(ps[1..], sep)
  }

  /** Joined again with the separator, the pieces are the text. */
  lemma {:induction false} JoinSplit(s: string, sep: string)
    requires 0 < |sep|
    ensures Join(Split(s, sep), sep) == s
    decreases |s|
  {
    var i := IndexOf(s, sep, 0);
    if i < |s| {
      var rest := s[i + |sep|..];
      JoinSplit(rest, sep);
      assert Split(s, sep)[1..] == Split(rest, sep);
      assert s == s[..i] + sep + rest;
    }
  }
}
