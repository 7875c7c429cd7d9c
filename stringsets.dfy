/** The string-list helpers of the grammar engine (src/ll1.go): lists of
    strings used as sets, and the membership queries on them. */
module StringSets {
  import opened Text

  predicate NoDuplicates(s: seq<string>) {
    forall i, j :: 0 <= i < j < |s| ==> s[i] != s[j]
  }

  /** The distinct elements of `a`, each kept at its first occurrence. */
  function Dedupe(a: seq<string>): (r: seq<string>)
    ensures NoDuplicates(r)
    ensures forall x :: x in r <==> x in a
    ensures |r| <= |a|
    decreases |a|
  {
    if a == [] then []
    else
      var d := Dedupe(a[..|a| - 1]);
      if a[|a| - 1] in d then d else d + [a[|a| - 1]]
  }

  /** The index of the first occurrence of `x` in `a`. */
  function FirstIndex(a: seq<string>, x: string): (i: nat)
    requires x in a
    ensures i < |a| && a[i] == x && x !in a[..i]
    decreases |a|
  {
    if a[0] == x then 0 else 1 + FirstIndex(a[1..], x)
  }

  /** The first occurrence of an element of a prefix is found within the prefix. */
  lemma {:induction false} FirstIndexPrefix(a: seq<string>, n: nat, x: string)
    requires n <= |a| && x in a[..n]
    ensures FirstIndex(a, x) == FirstIndex(a[..n], x)
    decreases n
  {
    if a[0] != x {
      assert a[..n][1..] == a[1..][..n - 1];
      FirstIndexPrefix(a[1..], n - 1, x);
    }
  }

  /** An element that does not occur before index `n` first occurs at `n`. */
  lemma {:induction false} FirstIndexAt(a: seq<string>, n: nat)
    requires n < |a| && a[n] !in a[..n]
    ensures FirstIndex(a, a[n]) == n
    decreases n
  {
    if n > 0 {
      assert a[0] == a[..n][0];
      assert a[1..][n - 1] == a[n];
      assert a[1..][..n - 1] == a[..n][1..];
      FirstIndexAt(a[1..], n - 1);
    }
  }

  /** Dedupe lists the distinct elements in the order of their first occurrence. */
  lemma {:induction false} DedupeOrder(a: seq<string>)
    ensures forall i, j :: 0 <= i < j < |Dedupe(a)| ==>
      FirstIndex(a, Dedupe(a)[i]) < FirstIndex(a, Dedupe(a)[j])
    decreases |a|
  {
    if a != [] {
      var n := |a| - 1;
      var p := a[..n];
      var d := Dedupe(p);
      DedupeOrder(p);
      var e := Dedupe(a);
      if a[n] in d {
        assert e == d;
        forall i, j | 0 <= i < j < |e| ensures FirstIndex(a, e[i]) < FirstIndex(a, e[j]) {
          FirstIndexPrefix(a, n, d[i]);
          FirstIndexPrefix(a, n, d[j]);
        }
      } else {
        assert e == d + [a[n]];
        FirstIndexAt(a, n);
        forall i, j | 0 <= i < j < |e| ensures FirstIndex(a, e[i]) < FirstIndex(a, e[j]) {
          assert e[i] == d[i];
          FirstIndexPrefix(a, n, d[i]);
          if j < |d| {
            assert e[j] == d[j];
            FirstIndexPrefix(a, n, d[j]);
          }
        }
      }
    }
  }

  /** Deduplicating a list without duplicates gives it back unchanged. */
  lemma {:induction false} DedupeDistinct(a: seq<string>)
    requires NoDuplicates(a)
    ensures Dedupe(a) == a
    decreases |a|
  {
    if a != [] {
      var n := |a| - 1;
      DedupeDistinct(a[..n]);
      assert a[n] !in a[..n];
      assert a[..n] + [a[n]] == a;
    }
  }

  /** The distinct elements of `a` other than `v`, each at its first occurrence. */
  function Without(a: seq<string>, v: string): (r: seq<string>)
    ensures NoDuplicates(r)
    ensures forall x :: x in r <==> x in a && x != v
    decreases |a|
  {
    if a == [] then []
    else
      var w := Without(a[..|a| - 1], v);
      var last := a[|a| - 1];
      if last == v || last in w then w else w + [last]
  }

  /** Removing a value is deduplicating and then leaving that value out. */
  lemma {:induction false} WithoutIsFilteredDedupe(a: seq<string>, v: string)
    ensures Without(a, v) == Filter(Dedupe(a), v)
    decreases |a|
  {
    if a != [] {
      var n := |a| - 1;
      WithoutIsFilteredDedupe(a[..n], v);
      var d := Dedupe(a[..n]);
      FilterAppend(d, [a[n]], v);
    }
  }

  /** `s` with every occurrence of `v` left out. */
  function Filter(s: seq<string>, v: string): seq<string>
    decreases |s|
  {
    if s == [] then [] else (if s[0] == v then [] else [s[0]]) + Filter(s[1..], v)
  }

  lemma {:induction false} FilterAppend(s: seq<string>, t: seq<string>, v: string)
    ensures Filter(s + t, v) == Filter(s, v) + Filter(t, v)
    decreases |s|
  {
    if s != [] {
      assert (s + t)[0] == s[0];
      assert (s + t)[1..] == s[1..] + t;
      FilterAppend(s[1..], t, v);
      assert Filter(s + t, v) == (if s[0] == v then [] else [s[0]]) + Filter(s[1..] + t, v);
    } else {
      assert s + t == t;
    }
  }

  /** UnionStringSet (src/ll1.go:395-414). The second loop appends to the
      parameter `set` (here `items`), not to the result, so the result is the deduplicated
      first argument and `valuesToAdd` never contributes. */
  method UnionStringSet(items: seq<string>, valuesToAdd: seq<string>) returns (unionSet: seq<string>)
    ensures unionSet == Dedupe(items)
    ensures NoDuplicates(unionSet)
    ensures forall x :: x in unionSet <==> x in items
  {
    var setMap: set<string> := {};
    unionSet := [];
    var i := 0;
    while i < |items|
      invariant 0 <= i <= |items|
      invariant unionSet == Dedupe(items[..i])
      invariant setMap == (set x | x in unionSet)
    {
      assert items[..i + 1][..i] == items[..i];
      if items[i] !in setMap {
        setMap := setMap + {items[i]};
        unionSet := unionSet + [items[i]];
      }
      i := i + 1;
    }
    assert items[..i] == items;
    var discarded := items;
    var j := 0;
    // This loop leaves `unionSet` unchanged: each append goes to `discarded`.
    while j < |valuesToAdd|
      invariant 0 <= j <= |valuesToAdd|
    {
      if valuesToAdd[j] !in setMap {
        discarded := unionSet + [valuesToAdd[j]];
        setMap := setMap + {valuesToAdd[j]};
      }
      j := j + 1;
    }
  }

  /** RemoveElement (src/ll1.go:369-383). Go lists the remaining values by
      ranging over a map, in an unspecified order; this model lists them in
      the order of their first occurrence in `l`. */
  method RemoveElement(l: seq<string>, v: string) returns (newList: seq<string>)
    ensures newList == Without(l, v)
    ensures NoDuplicates(newList)
    ensures forall x :: x in newList <==> x in l && x != v
  {
    var present: set<string> := {};
    var i := 0;
    while i < |l|
      invariant 0 <= i <= |l|
      invariant present == (set x | x in l[..i])
    {
      assert l[..i + 1] == l[..i] + [l[i]];
      present := present + {l[i]};
      i := i + 1;
    }
    assert l[..i] == l;
    present := present - {v};
    newList := [];
    var k := 0;
    while k < |l|
      invariant 0 <= k <= |l|
      invariant newList == Without(l[..k], v)
      invariant present == (set x | x in l && x != v) - (set x | x in newList)
    {
      assert l[..k + 1][..k] == l[..k];
      if l[k] in present {
        newList := newList + [l[k]];
        present := present - {l[k]};
      }
      k := k + 1;
    }
    assert l[..k] == l;
  }

  /** ContainsAny (src/ll1.go:385-393): the first index of `v` in `l`. */
  method ContainsAny(l: seq<string>, v: string) returns (index: int, found: bool)
    ensures found <==> v in l
    ensures found ==> 0 <= index < |l| && l[index] == v && v !in l[..index]
    ensures !found ==> index == -1
  {
    var i := 0;
    while i < |l|
      invariant 0 <= i <= |l|
      invariant v !in l[..i]
    {
      if l[i] == v {
        return i, true;
      }
      assert l[..i + 1] == l[..i] + [l[i]];
      i := i + 1;
    }
    assert l[..i] == l;
    return -1, false;
  }

  /** `word` is one of the space-separated tokens of `production`. */
  predicate IsWordOf(production: string, word: string) {
    word in Split(production, ' ')
  }

  /** ContainsWord (src/ll1.go:416-426). */
  method ContainsWord(production: string, word: string) returns (b: bool)
    ensures b <==> IsWordOf(production, word)
  {
    var words := Split(production, ' ');
    var i := 0;
    while i < |words|
      invariant 0 <= i <= |words|
      invariant word !in words[..i]
    {
      if words[i] == word {
        return true;
      }
      assert words[..i + 1] == words[..i] + [words[i]];
      i := i + 1;
    }
    assert words[..i] == words;
    return false;
  }

  /** A token of a production is also a substring of it, so a search for its
      first occurrence succeeds. */
  lemma WordOccurs(production: string, word: string)
    requires IsWordOf(production, word)
    ensures Index(production, word) >= 0
  {
    var words := Split(production, ' ');
    var k :| 0 <= k < |words| && words[k] == word;
    var j := SplitPieceOccurs(production, ' ', k);
    assert OccursAt(production, word, j);
  }
}
