/** The string operations the grammar engine (Go's `strings` package) and the
    grammar text parser (JavaScript's `String.prototype`) rely on. A string is a
    sequence of Unicode scalar values; byte lengths are computed explicitly
    where the Go code measures them. */
module Text {

  /** The two notions of white space in play: Go's `unicode.IsSpace` (used by
      `strings.TrimSpace`) and ECMAScript's WhiteSpace and LineTerminator
      (used by `String.prototype.trim` and the regular-expression class `\s`). */
  datatype Space = GoSpace | JsSpace

  /** White space common to both classes beyond ASCII. */
  predicate WideSpace(c: char) {
    c == '\U{1680}' || ('\U{2000}' <= c <= '\U{200A}') || c == '\U{2028}' || c == '\U{2029}'
    || c == '\U{202F}' || c == '\U{205F}' || c == '\U{3000}'
  }

  predicate IsSpace(k: Space, c: char) {
    c == '\t' || c == '\n' || c == '\U{000B}' || c == '\U{000C}' || c == '\r' || c == ' '
    || c == '\U{00A0}' || WideSpace(c)
    || (k == GoSpace && c == '\U{0085}')
    || (k == JsSpace && c == '\U{FEFF}')
  }

  /** `s` with its leading white space removed. */
  function TrimLeft(k: Space, s: string): (r: string)
    ensures |r| <= |s| && r == s[|s| - |r|..]
    ensures r == [] || !IsSpace(k, r[0])
    ensures forall i :: 0 <= i < |s| - |r| ==> IsSpace(k, s[i])
    decreases |s|
  {
    if s != [] && IsSpace(k, s[0]) then TrimLeft(k, s[1..]) else s
  }

  /** `s` with its trailing white space removed. */
  function TrimRight(k: Space, s: string): (r: string)
    ensures |r| <= |s| && r == s[..|r|]
    ensures r == [] || !IsSpace(k, r[|r| - 1])
    ensures forall i :: |r| <= i < |s| ==> IsSpace(k, s[i])
    decreases |s|
  {
    if s != [] && IsSpace(k, s[|s| - 1]) then TrimRight(k, s[..|s| - 1]) else s
  }

  /** Go's `strings.TrimSpace` (k = GoSpace) and JavaScript's `trim` (k = JsSpace):
      the slice of `s` left once the white space at both ends is cut. */
  function Trim(k: Space, s: string): (r: string)
    ensures |r| <= |s|
    ensures r == [] || (!IsSpace(k, r[0]) && !IsSpace(k, r[|r| - 1]))
  {
    TrimRight(k, TrimLeft(k, s))
  }

  /** What Trim keeps is a slice of `s`, and every character it cuts from
      either end is white space. */
  lemma TrimSlice(k: Space, s: string) returns (i: nat)
    ensures i + |Trim(k, s)| <= |s| && Trim(k, s) == s[i..i + |Trim(k, s)|]
    ensures forall j :: 0 <= j < i ==> IsSpace(k, s[j])
    ensures forall j :: i + |Trim(k, s)| <= j < |s| ==> IsSpace(k, s[j])
  {
    var l := TrimLeft(k, s);
    var r := TrimRight(k, l);
    assert Trim(k, s) == r;
    SliceCut(k, s, l, r);
    i := |s| - |l|;
  }

  /** A right cut of a left cut of `s` is a slice of `s`. */
  lemma SliceCut(k: Space, s: string, l: string, r: string)
    requires |l| <= |s| && l == s[|s| - |l|..] && forall j :: 0 <= j < |s| - |l| ==> IsSpace(k, s[j])
    requires |r| <= |l| && r == l[..|r|] && forall j :: |r| <= j < |l| ==> IsSpace(k, l[j])
    ensures var i := |s| - |l|;
      i + |r| <= |s| && r == s[i..i + |r|]
      && (forall j :: 0 <= j < i ==> IsSpace(k, s[j]))
      && (forall j :: i + |r| <= j < |s| ==> IsSpace(k, s[j]))
  {
    var i := |s| - |l|;
    forall j | i + |r| <= j < |s| ensures IsSpace(k, s[j]) {
      assert s[j] == l[j - i];
    }
  }

  /** A white-space character in front of an already trimmed string is dropped. */
  lemma TrimAfterSpace(k: Space, c: char, t: string)
    requires IsSpace(k, c) && (t == [] || (!IsSpace(k, t[0]) && !IsSpace(k, t[|t| - 1])))
    ensures Trim(k, [c] + t) == t
  {
    assert ([c] + t)[1..] == t;
    TrimUnchanged(k, t);
  }

  /** Trimming leaves a string alone when it neither starts nor ends with white space. */
  lemma TrimUnchanged(k: Space, s: string)
    requires s == [] || (!IsSpace(k, s[0]) && !IsSpace(k, s[|s| - 1]))
    ensures Trim(k, s) == s
  {
  }

  /** Trimming yields the empty string exactly when the string is all white space. */
  lemma TrimEmpty(k: Space, s: string)
    ensures Trim(k, s) == [] <==> forall i :: 0 <= i < |s| ==> IsSpace(k, s[i])
  {
    var l := TrimLeft(k, s);
    assert (forall i :: 0 <= i < |l| ==> IsSpace(k, l[i])) <==> l == [];
  }

  /** Go's `strings.Split(s, sep)` and JavaScript's `s.split(sep)` for a
      one-character separator: the pieces between consecutive separators. */
  function Split(s: string, sep: char): (r: seq<string>)
    ensures |r| >= 1 && r[0] <= s
    ensures forall i :: 0 <= i < |r| ==> sep !in r[i]
    decreases |s|
  {
    if s == [] then [[]]
    else
      var rest := Split(s[1..], sep);
      if s[0] == sep then [[]] + rest else [[s[0]] + rest[0]] + rest[1..]
  }

  /** The inverse of Split: the pieces with the separator between them. */
  function Join(parts: seq<string>, sep: char): string
    decreases |parts|
  {
    if parts == [] then []
    else if |parts| == 1 then parts[0]
    else parts[0] + [sep] + Join(parts[1..], sep)
  }

  /** Splitting and joining again gives back the string. */
  lemma {:induction false} JoinSplit(s: string, sep: char)
    ensures Join(Split(s, sep), sep) == s
    decreases |s|
  {
    if s != [] {
      var rest := Split(s[1..], sep);
      JoinSplit(s[1..], sep);
      if s[0] == sep {
        assert Split(s, sep) == [[]] + rest;
        assert ([[]] + rest)[1..] == rest;
      } else {
        var parts := [[s[0]] + rest[0]] + rest[1..];
        assert Split(s, sep) == parts;
        if |rest| > 1 {
          assert Join(rest, sep) == rest[0] + [sep] + Join(rest[1..], sep);
          assert parts[1..] == rest[1..];
        }
      }
    }
  }

  /** Joining separator-free pieces and splitting again gives back the pieces. */
  lemma {:induction false} SplitJoin(parts: seq<string>, sep: char)
    requires |parts| >= 1
    requires forall i :: 0 <= i < |parts| ==> sep !in parts[i]
    ensures Split(Join(parts, sep), sep) == parts
    decreases |parts|, |parts[0]|
  {
    var p0 := parts[0];
    if |p0| == 0 {
      if |parts| > 1 {
        SplitJoin(parts[1..], sep);
        var s := Join(parts, sep);
        assert s == [sep] + Join(parts[1..], sep);
        assert s[1..] == Join(parts[1..], sep);
        assert Split(s, sep) == [[]] + parts[1..];
      }
    } else {
      var s := Join(parts, sep);
      var tail := [p0[1..]] + parts[1..];
      assert tail[1..] == parts[1..];
      assert Join(tail, sep) == s[1..] by {
        if |parts| > 1 {
          assert s == p0 + [sep] + Join(parts[1..], sep);
        }
      }
      assert sep !in tail[0];
      SplitJoin(tail, sep);
      assert s[0] == p0[0];
      assert [p0[0]] + p0[1..] == p0;
      assert Split(s, sep) == [[p0[0]] + p0[1..]] + parts[1..];
    }
  }

  /** `v` occurs in `s` starting at index `i`. */
  predicate OccursAt(s: string, v: string, i: nat) {
    i + |v| <= |s| && s[i..i + |v|] == v
  }

  /** The first index at or after `from` where `v` occurs in `s`, or -1. */
  function IndexFrom(s: string, v: string, from: nat): (r: int)
    ensures r == -1 || (from <= r && OccursAt(s, v, r))
    ensures r == -1 ==> forall j: nat :: from <= j ==> !OccursAt(s, v, j)
    ensures r >= 0 ==> forall j: nat :: from <= j < r ==> !OccursAt(s, v, j)
    decreases |s| - from
  {
    if from + |v| > |s| then -1
    else if s[from..from + |v|] == v then from
    else IndexFrom(s, v, from + 1)
  }

  /** Go's `strings.Index` and JavaScript's `indexOf`: the first occurrence of `v`. */
  function Index(s: string, v: string): (r: int)
    ensures r == -1 <==> forall j: nat :: !OccursAt(s, v, j)
    ensures r >= 0 ==> OccursAt(s, v, r) && forall j: nat :: j < r ==> !OccursAt(s, v, j)
  {
    IndexFrom(s, v, 0)
  }

  /** Every piece of a Split occurs in the string; the result is an offset where it does. */
  lemma {:induction false} SplitPieceOccurs(s: string, sep: char, k: nat) returns (j: nat)
    requires k < |Split(s, sep)|
    ensures OccursAt(s, Split(s, sep)[k], j)
    decreases |s|
  {
    var parts := Split(s, sep);
    if k == 0 {
      j := 0;
      assert parts[0] <= s;
    } else {
      var rest := Split(s[1..], sep);
      var k' := if s[0] == sep then k - 1 else k;
      assert parts[k] == rest[k'];
      var j' := SplitPieceOccurs(s[1..], sep, k');
      j := j' + 1;
      assert s[1..][j'..j' + |rest[k']|] == rest[k'];
      assert s[j..j + |parts[k]|] == s[1..][j'..j' + |rest[k']|];
    }
  }

  /** The number of bytes of a character in UTF-8. */
  function RuneLen(c: char): nat {
    if c < '\U{0080}' then 1 else if c < '\U{0800}' then 2 else if c < '\U{10000}' then 3 else 4
  }

  /** Go's `len` of a string: its length in UTF-8 bytes. */
  function Utf8Len(s: string): (n: nat)
    ensures n >= |s|
    decreases |s|
  {
    if s == [] then 0 else RuneLen(s[0]) + Utf8Len(s[1..])
  }

  /** A string is at most one byte long exactly when it is empty or a single ASCII character. */
  lemma AtMostOneByte(s: string)
    ensures Utf8Len(s) <= 1 <==> s == [] || (|s| == 1 && s[0] < '\U{0080}')
  {
    if |s| == 1 {
      assert s[1..] == [];
    }
  }

  /** Go's `strings.SplitN(s, sep, 2)`: at most two pieces, split at the first
      occurrence of `sep`; an empty `sep` splits after the first character. */
  function SplitN2(s: string, sep: string): (r: seq<string>)
    ensures |r| <= 2
    ensures |r| == 2 <==> (if sep == [] then |s| >= 2 else Index(s, sep) >= 0)
    ensures |r| == 2 ==> s == r[0] + sep + r[1]
    ensures |r| == 2 && sep != [] ==> forall j: nat :: j < |r[0]| ==> !OccursAt(s, sep, j)
    ensures |r| == 2 && sep == [] ==> |r[0]| == 1
    ensures |r| == 1 ==> r == [s]
    ensures r == [] <==> sep == [] && s == []
  {
    if sep == [] then
      (if s == [] then [] else if |s| == 1 then [s] else [s[..1], s[1..]])
    else
      var m := Index(s, sep);
      if m < 0 then [s] else [s[..m], s[m + |sep|..]]
  }
}
