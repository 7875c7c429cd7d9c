/** The two grammar text parsers of the dashboard (dashboard/src/App.js):
    `formatGrammar`, which turns lines `X -> a | b` into the productions set,
    and `getNonTerminalOrder`, which lists the left sides of the lines. */
module Dashboard {
  import opened Text
  import opened StringSets
  import opened Symbols

  // ---- The separator /\s*->\s*|\s*\|\s*/ ------------------------------------------

  /** The first index at or after `q` that is not white space in the sense of
      the regular-expression class `\s`, or |s|. */
  function SkipSpace(s: string, q: nat): (k: nat)
    requires q <= |s|
    ensures q <= k <= |s|
    ensures forall i :: q <= i < k ==> IsSpace(JsSpace, s[i])
    ensures k == |s| || !IsSpace(JsSpace, s[k])
    decreases |s| - q
  {
    if q < |s| && IsSpace(JsSpace, s[q]) then SkipSpace(s, q + 1) else q
  }

  /** Where a match of the separator that starts at index `q` ends, if one
      starts there. Both alternatives are white space, the arrow or the bar,
      white space; a greedy `\s*` cannot give back a character the arrow or the
      bar would need, so each run of white space is taken in full. */
  function MatchAt(s: string, q: nat): (e: Option<nat>)
    requires q <= |s|
    ensures e.Some? ==> q < e.value <= |s| && (e.value == |s| || !IsSpace(JsSpace, s[e.value]))
  {
    var k := SkipSpace(s, q);
    if k + 1 < |s| && s[k] == '-' && s[k + 1] == '>' then Some(SkipSpace(s, k + 2))
    else if k < |s| && s[k] == '|' then Some(SkipSpace(s, k + 1))
    else None
  }

  /** Nothing but white space. */
  predicate AllSpace(t: string) {
    forall i :: 0 <= i < |t| ==> IsSpace(JsSpace, t[i])
  }

  /** `t` is, as a whole, a match of the separator: white space, the arrow or
      the bar, white space. */
  predicate IsSeparator(t: string) {
    exists a: nat, b: nat :: a <= b <= |t| && (t[a..b] == "->" || t[a..b] == "|") && AllSpace(t[..a]) && AllSpace(t[b..])
  }

  lemma SpaceSlice(s: string, i: nat, j: nat)
    requires i <= j <= |s|
    ensures AllSpace(s[i..j]) <==> forall x :: i <= x < j ==> IsSpace(JsSpace, s[x])
  {
    if AllSpace(s[i..j]) {
      forall x | i <= x < j ensures IsSpace(JsSpace, s[x]) { assert s[x] == s[i..j][x - i]; }
    }
  }

  lemma SliceOfSlice(s: string, q: nat, e: nat, i: nat, j: nat)
    requires q <= e <= |s| && i <= j <= e - q
    ensures s[q..e][i..j] == s[q + i..q + j]
  {
    forall x | 0 <= x < j - i ensures s[q..e][i..j][x] == s[q + i..q + j][x] {
      assert s[q..e][i..j][x] == s[q + i + x];
    }
  }

  /** White space from `q` to `a`, the arrow or the bar from `a` to `b`, white
      space from `b` to `e`: a separator. */
  lemma SeparatorFrom(s: string, q: nat, a: nat, b: nat, e: nat)
    requires q <= a <= b <= e <= |s|
    requires s[a..b] == "->" || s[a..b] == "|"
    requires forall x :: q <= x < a ==> IsSpace(JsSpace, s[x])
    requires forall x :: b <= x < e ==> IsSpace(JsSpace, s[x])
    ensures IsSeparator(s[q..e])
  {
    var t := s[q..e];
    SliceOfSlice(s, q, e, a - q, b - q);
    SliceOfSlice(s, q, e, 0, a - q);
    SliceOfSlice(s, q, e, b - q, e - q);
    assert t[..a - q] == t[0..a - q] && t[b - q..] == t[b - q..e - q];
    SpaceSlice(s, q, a);
    SpaceSlice(s, b, e);
  }

  /** A separator from `q` on starts where the white space after `q` ends. */
  lemma SeparatorSkip(s: string, q: nat, e: nat)
    requires q <= e <= |s| && IsSeparator(s[q..e])
    ensures var k := SkipSpace(s, q);
      (k + 1 < |s| && s[k] == '-' && s[k + 1] == '>') || (k < |s| && s[k] == '|')
  {
    var t := s[q..e];
    var a: nat, b: nat :| a <= b <= |t| && (t[a..b] == "->" || t[a..b] == "|") && AllSpace(t[..a]) && AllSpace(t[b..]);
    SkipTo(s, q, e, a, b);
  }

  /** The arrow or the bar at `a`, white space before it: the scan from `q` stops at `q + a`. */
  lemma SkipTo(s: string, q: nat, e: nat, a: nat, b: nat)
    requires q <= e <= |s| && a <= b <= e - q
    requires s[q..e][a..b] == "->" || s[q..e][a..b] == "|"
    requires AllSpace(s[q..e][..a])
    ensures var k := SkipSpace(s, q);
      (k + 1 < |s| && s[k] == '-' && s[k + 1] == '>') || (k < |s| && s[k] == '|')
  {
    SliceOfSlice(s, q, e, 0, a);
    SliceOfSlice(s, q, e, a, b);
    assert s[q..e][..a] == s[q..e][0..a];
    SpaceSlice(s, q, q + a);
    var w := s[q + a..q + b];
    assert s[q + a] == w[0];
    assert SkipSpace(s, q) == q + a;
    if w == "->" {
      assert s[q + a + 1] == w[1];
    }
  }

  /** A match found at `q` spans a separator. */
  lemma MatchIsSeparator(s: string, q: nat)
    requires q <= |s| && MatchAt(s, q).Some?
    ensures IsSeparator(s[q..MatchAt(s, q).value])
  {
    var k := SkipSpace(s, q);
    var e := MatchAt(s, q).value;
    if k + 1 < |s| && s[k] == '-' && s[k + 1] == '>' {
      assert s[k..k + 2] == "->";
      SeparatorFrom(s, q, k, k + 2, e);
    } else {
      assert s[k..k + 1] == "|";
      SeparatorFrom(s, q, k, k + 1, e);
    }
  }

  /** A match starts at `q` exactly when some stretch of the text from `q`
      on is a separator, and a match found there spans a separator. */
  lemma MatchAtMeaning(s: string, q: nat)
    requires q <= |s|
    ensures MatchAt(s, q).Some? ==> IsSeparator(s[q..MatchAt(s, q).value])
    ensures MatchAt(s, q).Some? <==> exists e :: q < e <= |s| && IsSeparator(s[q..e])
  {
    if MatchAt(s, q).Some? {
      MatchIsSeparator(s, q);
    }
    if e :| q < e <= |s| && IsSeparator(s[q..e]) {
      SeparatorSkip(s, q, e);
    }
  }

  /** `String.prototype.split` with the separator (ECMAScript's SplitMatcher
      loop): `p` is where the current piece starts and `q` the next index to
      try a match at. A match closes the piece before it; the rest of the
      string after the last match is the final piece. The separator never
      matches the empty string, so the empty string splits into [""]. */
  function SplitFrom(s: string, p: nat, q: nat): (r: seq<string>)
    requires p <= q <= |s|
    ensures |r| >= 1
    decreases |s| - q
  {
    if q == |s| then [s[p..]]
    else
      match MatchAt(s, q)
      case None => SplitFrom(s, p, q + 1)
      case Some(e) => [s[p..q]] + SplitFrom(s, e, e)
  }

  function RegexSplit(s: string): (r: seq<string>)
    ensures |r| >= 1
  {
    SplitFrom(s, 0, 0)
  }

  /** The separator matches SplitFrom consumes from index `q` on, in order. */
  function Seps(s: string, q: nat): seq<string>
    requires q <= |s|
    decreases |s| - q
  {
    if q == |s| then []
    else
      match MatchAt(s, q)
      case None => Seps(s, q + 1)
      case Some(e) => [s[q..e]] + Seps(s, e)
  }

  /** The pieces with the separators between them put back. */
  function Interleave(ts: seq<string>, seps: seq<string>): string
    requires |ts| == |seps| + 1
    decreases |seps|
  {
    if seps == [] then ts[0] else ts[0] + seps[0] + Interleave(ts[1..], seps[1..])
  }

  lemma InterleaveCons(t: string, sep: string, ts: seq<string>, seps: seq<string>)
    requires |ts| == |seps| + 1
    ensures Interleave([t] + ts, [sep] + seps) == t + sep + Interleave(ts, seps)
  {
    assert ([t] + ts)[1..] == ts && ([sep] + seps)[1..] == seps;
  }

  /** The split loses nothing: the pieces, with the separator matches between
      them, give back the text, and each match is a separator. */
  lemma {:induction false} SplitFromJoins(s: string, p: nat, q: nat)
    requires p <= q <= |s|
    ensures |SplitFrom(s, p, q)| == |Seps(s, q)| + 1
    ensures Interleave(SplitFrom(s, p, q), Seps(s, q)) == s[p..]
    ensures forall t :: t in Seps(s, q) ==> IsSeparator(t)
    decreases |s| - q
  {
    if q < |s| {
      if MatchAt(s, q).None? {
        SplitFromJoins(s, p, q + 1);
      } else {
        var e := MatchAt(s, q).value;
        SplitFromJoins(s, e, e);
        MatchIsSeparator(s, q);
        JoinStep(s, p, q, e, SplitFrom(s, e, e), Seps(s, e));
      }
    }
  }

  /** One piece and the match after it, put in front of a joined rest. */
  lemma JoinStep(s: string, p: nat, q: nat, e: nat, ts: seq<string>, seps: seq<string>)
    requires p <= q < e <= |s| && |ts| == |seps| + 1
    requires Interleave(ts, seps) == s[e..]
    ensures Interleave([s[p..q]] + ts, [s[q..e]] + seps) == s[p..]
  {
    InterleaveCons(s[p..q], s[q..e], ts, seps);
    assert s[p..q] + s[q..e] + s[e..] == s[p..];
  }

  /** Neither the first nor the last character is white space. */
  predicate Trimmed(t: string) {
    t == [] || (!IsSpace(JsSpace, t[0]) && !IsSpace(JsSpace, t[|t| - 1]))
  }

  /** A piece the separator leaves: no bar, no arrow, no white space at either end. */
  predicate IsToken(t: string) {
    '|' !in t && (forall i :: 0 <= i < |t| - 1 ==> !(t[i] == '-' && t[i + 1] == '>')) && Trimmed(t)
  }

  /** A match never starts right after white space that could have started it. */
  lemma TokenEnd(s: string, q: nat)
    requires 0 < q < |s|
    ensures MatchAt(s, q).Some? && MatchAt(s, q - 1).None? ==> !IsSpace(JsSpace, s[q - 1])
  {
    if IsSpace(JsSpace, s[q - 1]) {
      assert SkipSpace(s, q - 1) == SkipSpace(s, q);
    }
  }

  /** A bar or an arrow is always the start of a match. */
  lemma MatchAtSeparator(s: string, k: nat)
    requires k < |s| && (s[k] == '|' || (k + 1 < |s| && s[k] == '-' && s[k + 1] == '>'))
    ensures MatchAt(s, k).Some?
  {
    assert SkipSpace(s, k) == k;
  }

  /** A stretch in which no match starts, and which does not begin or end in
      white space, is a token. */
  lemma SliceToken(s: string, p: nat, q: nat)
    requires p <= q <= |s|
    requires forall k :: p <= k < q ==> MatchAt(s, k).None?
    requires p == q || (!IsSpace(JsSpace, s[p]) && !IsSpace(JsSpace, s[q - 1]))
    ensures IsToken(s[p..q])
  {
    var t := s[p..q];
    forall i | 0 <= i < |t| ensures t[i] != '|' {
      if t[i] == '|' {
        MatchAtSeparator(s, p + i);
      }
    }
    forall i | 0 <= i < |t| - 1 ensures !(t[i] == '-' && t[i + 1] == '>') {
      if t[i] == '-' && t[i + 1] == '>' {
        MatchAtSeparator(s, p + i);
      }
    }
  }

  /** Every piece of a split of a string that does not end in white space
      is a token, once the current piece does not start with white space. */
  lemma {:induction false} SplitFromTokens(s: string, p: nat, q: nat)
    requires p <= q <= |s|
    requires p == |s| || !IsSpace(JsSpace, s[p])
    requires s == [] || !IsSpace(JsSpace, s[|s| - 1])
    requires forall k :: p <= k < q ==> MatchAt(s, k).None?
    ensures forall t :: t in SplitFrom(s, p, q) ==> IsToken(t)
    decreases |s| - q
  {
    if q == |s| {
      SliceToken(s, p, q);
    } else {
      match MatchAt(s, q)
      case None =>
        SplitFromTokens(s, p, q + 1);
      case Some(e) =>
        if p < q {
          TokenEnd(s, q);
        }
        SliceToken(s, p, q);
        SplitFromTokens(s, e, e);
    }
  }

  // ---- formatGrammar (dashboard/src/App.js:7-26) -------------------------------------

  /** The tokens of one line: the trimmed line split at every separator. */
  function LineTokens(line: string): (r: seq<string>)
    ensures |r| >= 1
  {
    RegexSplit(Trim(JsSpace, line))
  }

  /** A parsed line: token 0 names the nonterminal the line adds to, the
      remaining tokens, in order, are the productions it adds. */
  datatype Line = Line(key: string, prods: seq<string>)

  function ParseLine(line: string): Line {
    var t := LineTokens(line);
    Line(t[0], t[1..])
  }

  function ParseLines(ls: seq<string>): seq<Line> {
    seq(|ls|, i requires 0 <= i < |ls| => ParseLine(ls[i]))
  }

  /** Every token of a line is trimmed and holds neither a bar nor an arrow,
      and the tokens, with the separator matches between them, give back the
      trimmed line. */
  lemma LineTokensAreTokens(line: string)
    ensures forall t :: t in LineTokens(line) ==> IsToken(t)
    ensures var s := Trim(JsSpace, line);
      |LineTokens(line)| == |Seps(s, 0)| + 1 && Interleave(LineTokens(line), Seps(s, 0)) == s
    ensures forall t :: t in Seps(Trim(JsSpace, line), 0) ==> IsSeparator(t)
  {
    var s := Trim(JsSpace, line);
    SplitFromTokens(s, 0, 0);
    SplitFromJoins(s, 0, 0);
  }

  /** The productions set after the lines `ls`, one `forEach` turn per line. */
  function Accumulated(ls: seq<Line>): map<string, seq<string>>
    decreases |ls|
  {
    if ls == [] then map[]
    else
      var m := Accumulated(ls[..|ls| - 1]);
      var line := ls[|ls| - 1];
      m[line.key := Get(m, line.key) + line.prods]
  }

  /** An independent reading of the result: what the lines with key `k`
      contribute, in line order. */
  function Collected(ls: seq<Line>, k: string): seq<string>
    decreases |ls|
  {
    if ls == [] then [] else Contribution(ls[0], k) + Collected(ls[1..], k)
  }

  /** What one line contributes to the list of `k`. */
  function Contribution(line: Line, k: string): seq<string> {
    if line.key == k then line.prods else []
  }

  function KeysOf(ls: seq<Line>): set<string> {
    set i | 0 <= i < |ls| :: ls[i].key
  }

  lemma {:induction false} CollectedAppend(ls: seq<Line>, line: Line, k: string)
    ensures Collected(ls + [line], k) == Collected(ls, k) + Contribution(line, k)
    decreases |ls|
  {
    var all := ls + [line];
    if ls == [] {
      assert all[1..] == [];
    } else {
      assert all[0] == ls[0] && all[1..] == ls[1..] + [line];
      CollectedAppend(ls[1..], line, k);
    }
  }

  lemma KeysOfAppend(ls: seq<Line>, line: Line)
    ensures KeysOf(ls + [line]) == KeysOf(ls) + {line.key}
  {
    var all := ls + [line];
    forall x | x in KeysOf(all) ensures x in KeysOf(ls) + {line.key} {
      var i :| 0 <= i < |all| && all[i].key == x;
      if i < |ls| {
        assert all[i] == ls[i];
      }
    }
    forall x | x in KeysOf(ls) ensures x in KeysOf(all) {
      var i :| 0 <= i < |ls| && ls[i].key == x;
      assert all[i] == ls[i];
    }
    assert line.key == all[|ls|].key;
  }

  /** Every line creates its key, even a line without separators (with no
      productions); the list of a key accumulates the productions of all the
      lines that name it, in line order, with nothing removed or merged. */
  lemma {:induction false} AccumulatedMeaning(ls: seq<Line>)
    ensures Accumulated(ls).Keys == KeysOf(ls)
    ensures forall k :: Get(Accumulated(ls), k) == Collected(ls, k)
    decreases |ls|
  {
    if ls != [] {
      var n := |ls| - 1;
      var front := ls[..n];
      var line := ls[n];
      assert ls == front + [line];
      AccumulatedMeaning(front);
      var m := Accumulated(front);
      assert Accumulated(ls) == m[line.key := Get(m, line.key) + line.prods];
      forall k ensures Get(Accumulated(ls), k) == Collected(ls, k) {
        CollectedAppend(front, line, k);
      }
      KeysOfAppend(front, line);
    }
  }

  /** Appends `ps` to the list of a key, one `push` at a time (App.js:20-22). */
  method PushAll(list0: seq<string>, ps: seq<string>) returns (list: seq<string>)
    ensures list == list0 + ps
  {
    list := list0;
    var j := 0;
    while j < |ps|
      invariant j <= |ps|
      invariant list == list0 + ps[..j]
    {
      assert ps[..j + 1] == ps[..j] + [ps[j]];
      list := list + [ps[j]];
      j := j + 1;
    }
    assert ps[..|ps|] == ps;
  }

  lemma AccumulatedStep(ls: seq<Line>, i: nat)
    requires i < |ls|
    ensures var m := Accumulated(ls[..i]);
      Accumulated(ls[..i + 1]) == m[ls[i].key := Get(m, ls[i].key) + ls[i].prods]
  {
    assert ls[..i + 1][..i] == ls[..i];
  }

  /** formatGrammar: the `productions_set` object it builds from the text. */
  method FormatGrammar(input: string) returns (productionsSet: map<string, seq<string>>)
    ensures productionsSet == Accumulated(ParseLines(Split(input, '\n')))
  {
    var lines := Split(input, '\n');
    ghost var parsed := ParseLines(lines);
    productionsSet := map[];
    var i := 0;
    while i < |lines|
      invariant i <= |lines|
      invariant productionsSet == Accumulated(parsed[..i])
    {
      var tokens := LineTokens(lines[i]);
      var nonTerminal := tokens[0];
      var productions := tokens[1..];
      // the key's list, created empty when the key is missing
      var list := if nonTerminal in productionsSet then productionsSet[nonTerminal] else [];
      list := PushAll(list, productions);
      productionsSet := productionsSet[nonTerminal := list];
      assert parsed[i] == Line(nonTerminal, productions);
      AccumulatedStep(parsed, i);
      i := i + 1;
    }
    assert parsed[..|lines|] == parsed;
  }

  // ---- getNonTerminalOrder (dashboard/src/App.js:27-39) -------------------------------

  /** The first piece of `line.split(" -> ")`: the text before the first
      " -> ", untrimmed, or the whole line when there is none. */
  function LeftSide(line: string): string {
    var m := Index(line, " -> ");
    if m < 0 then line else line[..m]
  }

  /** The left side is a prefix of the line that holds no " -> "; it is the
      whole line, or " -> " follows it. */
  lemma LeftSideMeaning(line: string)
    ensures var l := LeftSide(line);
      l <= line
      && (forall j: nat :: j + 4 <= |l| ==> !OccursAt(line, " -> ", j))
      && (l == line || OccursAt(line, " -> ", |l|))
  {
  }

  function LeftSides(ls: seq<string>): seq<string> {
    seq(|ls|, i requires 0 <= i < |ls| => LeftSide(ls[i]))
  }

  lemma OrderStep(ls: seq<string>, i: nat)
    requires i < |ls|
    ensures var d := Dedupe(LeftSides(ls[..i]));
      Dedupe(LeftSides(ls[..i + 1])) == if LeftSide(ls[i]) in d then d else d + [LeftSide(ls[i])]
  {
    var all := LeftSides(ls[..i + 1]);
    assert all[..i] == LeftSides(ls[..i]);
    assert all[i] == LeftSide(ls[i]);
  }

  /** getNonTerminalOrder: the left sides, each once, kept where it first
      appears (the `includes` guard before each `push`). */
  method GetNonTerminalOrder(grammarString: string) returns (order: seq<string>)
    ensures order == Dedupe(LeftSides(Split(grammarString, '\n')))
  {
    var productions := Split(grammarString, '\n');
    order := [];
    var i := 0;
    while i < |productions|
      invariant i <= |productions|
      invariant order == Dedupe(LeftSides(productions[..i]))
    {
      var left := LeftSide(productions[i]);
      OrderStep(productions, i);
      if left !in order {
        order := order + [left];
      }
      i := i + 1;
    }
    assert productions[..|productions|] == productions;
  }

  /** The order has no duplicates, holds exactly the left sides of the lines
      (a blank line gives ""), and lists them by first appearance. */
  lemma NonTerminalOrderProperties(grammarString: string)
    ensures var lines := Split(grammarString, '\n'); var order := Dedupe(LeftSides(lines));
      NoDuplicates(order)
      && (forall x :: x in order <==> exists i :: 0 <= i < |lines| && LeftSide(lines[i]) == x)
      && forall i, j :: 0 <= i < j < |order| ==>
           FirstIndex(LeftSides(lines), order[i]) < FirstIndex(LeftSides(lines), order[j])
  {
    var lines := Split(grammarString, '\n');
    var sides := LeftSides(lines);
    DedupeOrder(sides);
    forall x ensures x in sides <==> exists i :: 0 <= i < |lines| && LeftSide(lines[i]) == x {
      if x in sides {
        var i :| 0 <= i < |sides| && sides[i] == x;
        assert LeftSide(lines[i]) == x;
      }
      if exists i :: 0 <= i < |lines| && LeftSide(lines[i]) == x {
        var i :| 0 <= i < |lines| && LeftSide(lines[i]) == x;
        assert sides[i] == x;
      }
    }
  }

  // ---- Where the two parsers part ways ----------------------------------------------

  /** getNonTerminalOrder looks only for " -> " and does not trim: on `A->b`
      the order names "A->b" while the productions set is keyed "A". */
  lemma ArrowWithoutSpaces()
    ensures LeftSide("A->b") == "A->b" && ParseLine("A->b").key == "A"
  {
    var s := "A->b";
    assert s[0..4][0] == 'A';
    assert IndexFrom(s, " -> ", 1) == -1;
    TrimUnchanged(JsSpace, s);
    assert MatchAt(s, 0).None?;
    assert SkipSpace(s, 1) == 1;
    assert MatchAt(s, 1) == Some(3);
  }

  /** On ` A -> b` the order names " A" while the productions set is keyed "A". */
  lemma LeadingSpace()
    ensures LeftSide(" A -> b") == " A" && ParseLine(" A -> b").key == "A"
  {
    var t := " A -> b";
    var u := "A -> b";
    LeadingSpaceLeft();
    assert t == [' '] + u;
    TrimAfterSpace(JsSpace, ' ', u);
    SplitSpacedArrow();
  }

  lemma LeadingSpaceLeft()
    ensures LeftSide(" A -> b") == " A"
  {
    var t := " A -> b";
    assert t[0..4][1] == 'A' && t[1..5][0] == 'A';
    assert t[2..6] == " -> ";
    assert IndexFrom(t, " -> ", 2) == 2;
  }

  lemma SplitSpacedArrow()
    ensures RegexSplit("A -> b") == ["A", "b"]
  {
    SplitFirstToken();
    SplitLastToken();
  }

  lemma SplitFirstToken()
    ensures SplitFrom("A -> b", 0, 0) == ["A"] + SplitFrom("A -> b", 5, 5)
  {
    var u := "A -> b";
    assert MatchAt(u, 0).None?;
    assert SkipSpace(u, 1) == 2;
    assert MatchAt(u, 1) == Some(5);
    assert u[0..1] == "A";
  }

  lemma SplitLastToken()
    ensures SplitFrom("A -> b", 5, 5) == ["b"]
  {
    var u := "A -> b";
    assert SkipSpace(u, 5) == 5;
    assert MatchAt(u, 5).None?;
    assert SplitFrom(u, 5, 5) == SplitFrom(u, 5, 6);
    assert u[5..] == "b";
  }
}
