/** The grammar-editing operations of src/ll1.go on values: registering a
    production group (AddProductionGroup, src/ll1.go:98-110) and removing
    immediate left recursion (RemoveLeftRecursion, src/ll1.go:122-150). The
    class Grammar in the Pipeline module performs these updates in place and
    is proved to agree with the functions here. */
module Elimination {
  import opened Text
  import opened StringSets
  import opened Symbols

  /** The two fields of a Grammar: the nonterminal order and the productions. */
  datatype GrammarState = GrammarState(order: seq<string>, productions: ProductionsSet)

  /** Go's `strings.HasPrefix`. On valid UTF-8 a byte prefix that is itself a
      whole string is a prefix of characters, so the comparison is on characters. */
  predicate HasPrefix(s: string, prefix: string) {
    prefix <= s
  }

  /** Go's `strings.TrimPrefix`. */
  function TrimPrefix(s: string, prefix: string): (r: string)
    ensures HasPrefix(s, prefix) ==> prefix + r == s
    ensures !HasPrefix(s, prefix) ==> r == s
  {
    if HasPrefix(s, prefix) then s[|prefix|..] else s
  }

  // ---- AddProductionGroup -------------------------------------------------------

  /** AddProductionGroup (src/ll1.go:98-110) as a function of the grammar. */
  function AddGroup(g: GrammarState, name: string, prods: seq<string>): GrammarState {
    var n := Trim(GoSpace, name);
    if n in g.productions || n in g.order then GrammarState(g.order, g.productions[n := Dedupe(Get(g.productions, n))])
    else GrammarState(g.order + [n], g.productions[n := prods])
  }

  /** The name is trimmed. A name that is already a key or in the order
      leaves the order alone and only deduplicates its own list: the new
      productions are never added. A new name is appended to the order once
      and gets the given list. No other entry changes. */
  lemma AddGroupEffect(g: GrammarState, name: string, prods: seq<string>)
    ensures var n := Trim(GoSpace, name); var r := AddGroup(g, name, prods);
      n in r.productions
      && ((n in g.productions || n in g.order) ==>
            r.order == g.order && NoDuplicates(r.productions[n])
            && forall x :: x in r.productions[n] <==> x in Get(g.productions, n))
      && (!(n in g.productions || n in g.order) ==> r.order == g.order + [n] && r.productions[n] == prods)
      && (forall k :: k != n ==> (k in r.productions <==> k in g.productions) && Get(r.productions, k) == Get(g.productions, k))
  {
  }

  /** AddGroup on a name that is already known. */
  lemma AddGroupKnown(g: GrammarState, name: string, prods: seq<string>)
    requires Trim(GoSpace, name) in g.productions || Trim(GoSpace, name) in g.order
    ensures var n := Trim(GoSpace, name);
      AddGroup(g, name, prods) == GrammarState(g.order, g.productions[n := Dedupe(Get(g.productions, n))])
  {
  }

  /** AddGroup on a name that is not known yet. */
  lemma AddGroupFresh(g: GrammarState, name: string, prods: seq<string>)
    requires !(Trim(GoSpace, name) in g.productions || Trim(GoSpace, name) in g.order)
    ensures AddGroup(g, name, prods) == GrammarState(g.order + [Trim(GoSpace, name)], g.productions[Trim(GoSpace, name) := prods])
  {
  }

  /** Writing back the value a key already has leaves the map as it is. */
  lemma UpdateSame(m: map<string, seq<string>>, k: string, v: seq<string>)
    requires k in m && m[k] == v
    ensures m[k := v] == m
  {
  }

  /** Registering a name a second time changes nothing once its list is
      duplicate-free, whatever productions the second call brings. */
  lemma AddGroupAgain(g: GrammarState, name: string, prods: seq<string>, more: seq<string>)
    requires NoDuplicates(prods)
    ensures AddGroup(AddGroup(g, name, prods), name, more) == AddGroup(g, name, prods)
  {
    var n := Trim(GoSpace, name);
    var r := AddGroup(g, name, prods);
    var l := if n in g.productions || n in g.order then Dedupe(Get(g.productions, n)) else prods;
    if n in g.productions || n in g.order {
      AddGroupKnown(g, name, prods);
    } else {
      AddGroupFresh(g, name, prods);
    }
    assert r.productions == g.productions[n := l];
    DedupeDistinct(l);
    AddGroupKnown(r, name, more);
    UpdateSame(r.productions, n, Dedupe(l));
  }

  // ---- RemoveLeftRecursion ------------------------------------------------------

  /** HasLeftRecursion (src/ll1.go:112-120): some production starts with `prefix`. */
  predicate LeftRecursive(prefix: string, prods: seq<string>) {
    exists p :: p in prods && HasPrefix(p, prefix)
  }

  /** `nonterminalPrim` at src/ll1.go:131: a space, the nonterminal, a quote. */
  function Prime(a: string): string {
    " " + a + "'"
  }

  /** The key AddProductionGroup files the primed nonterminal under. */
  function PrimeName(a: string): string {
    Trim(GoSpace, Prime(a))
  }

  /** The list a pass over the productions of `a` builds, and the grammar the
      AddProductionGroup calls in it leave behind. */
  datatype Pass = Pass(g: GrammarState, betas: seq<string>)

  /** The inner loop of RemoveLeftRecursion (src/ll1.go:130-145) over `prods`. */
  function Rewrite(g: GrammarState, a: string, prods: seq<string>): Pass
    decreases |prods|
  {
    if prods == [] then Pass(g, [])
    else
      var r := Rewrite(g, a, prods[..|prods| - 1]);
      var p := prods[|prods| - 1];
      if p == Lambda then r
      else if !HasPrefix(p, a) then Pass(r.g, r.betas + [BetaRewrite(a, p)])
      else Pass(AddGroup(r.g, Prime(a), [AlphaRewrite(a, p), Lambda]), r.betas)
  }

  /** One turn of RemoveLeftRecursion's outer loop (src/ll1.go:123-147) on the key `a`. */
  function Step(g: GrammarState, a: string): GrammarState {
    var prods := Get(g.productions, a);
    if !LeftRecursive(a, prods) then g
    else
      var r := Rewrite(g, a, prods);
      GrammarState(r.g.order, r.g.productions[a := r.betas])
  }

  /** RemoveLeftRecursion (src/ll1.go:122-150) visiting the keys in the order `keys`. */
  function Eliminate(g: GrammarState, keys: seq<string>): GrammarState
    decreases |keys|
  {
    if keys == [] then g else Step(Eliminate(g, keys[..|keys| - 1]), keys[|keys| - 1])
  }

  // ---- What the rewrite produces ------------------------------------------------

  /** The rewritten list of a left-recursive `a`: `trim(p + " a'")` for each
      production `p` that is not λ and does not start with `a`, in order. */
  function Betas(a: string, prods: seq<string>): seq<string>
    decreases |prods|
  {
    if prods == [] then [] else BetaOf(a, prods[0]) + Betas(a, prods[1..])
  }

  /** What one production adds to Betas. */
  function BetaOf(a: string, p: string): seq<string> {
    if p != Lambda && !HasPrefix(p, a) then [BetaRewrite(a, p)] else []
  }

  /** `strings.TrimSpace(production + nonterminalPrim)` (src/ll1.go:138). */
  function BetaRewrite(a: string, p: string): string {
    Trim(GoSpace, p + Prime(a))
  }

  lemma ConcatAssoc(x: seq<string>, y: seq<string>, z: seq<string>)
    ensures x + (y + z) == (x + y) + z
  {
  }

  lemma {:induction false} BetasAppend(a: string, prods: seq<string>, p: string)
    ensures Betas(a, prods + [p]) == Betas(a, prods) + BetaOf(a, p)
    decreases |prods|
  {
    if prods == [] {
      assert [p][1..] == [];
    } else {
      var q := prods + [p];
      assert q[0] == prods[0] && q[1..] == prods[1..] + [p];
      calc {
        Betas(a, q);
        BetaOf(a, prods[0]) + Betas(a, prods[1..] + [p]);
        { BetasAppend(a, prods[1..], p); }
        BetaOf(a, prods[0]) + (Betas(a, prods[1..]) + BetaOf(a, p));
        { ConcatAssoc(BetaOf(a, prods[0]), Betas(a, prods[1..]), BetaOf(a, p)); }
        (BetaOf(a, prods[0]) + Betas(a, prods[1..])) + BetaOf(a, p);
        Betas(a, prods) + BetaOf(a, p);
      }
    }
  }

  /** A production of `a` other than λ that starts with `a` (an alpha production). */
  predicate IsAlpha(a: string, p: string) {
    p != Lambda && HasPrefix(p, a)
  }

  predicate HasAlpha(a: string, prods: seq<string>) {
    exists p :: p in prods && IsAlpha(a, p)
  }

  /** The first alpha production. */
  function FirstAlpha(a: string, prods: seq<string>): (p: string)
    requires HasAlpha(a, prods)
    ensures p in prods && IsAlpha(a, p)
    decreases |prods|
  {
    if IsAlpha(a, prods[0]) then prods[0] else FirstAlpha(a, prods[1..])
  }

  lemma {:induction false} FirstAlphaAppend(a: string, prods: seq<string>, p: string)
    requires HasAlpha(a, prods + [p])
    ensures HasAlpha(a, prods) ==> FirstAlpha(a, prods + [p]) == FirstAlpha(a, prods)
    ensures !HasAlpha(a, prods) ==> FirstAlpha(a, prods + [p]) == p
    decreases |prods|
  {
    if prods != [] {
      assert (prods + [p])[0] == prods[0];
      assert (prods + [p])[1..] == prods[1..] + [p];
      if !IsAlpha(a, prods[0]) {
        assert HasAlpha(a, prods) ==> HasAlpha(a, prods[1..]);
        FirstAlphaAppend(a, prods[1..], p);
      }
    }
  }

  /** The production AddProductionGroup receives for the alpha production `p`. */
  function AlphaRewrite(a: string, p: string): string {
    Trim(GoSpace, TrimPrefix(p, a) + Prime(a))
  }

  /** Trimming keeps a last character that is not white space. */
  lemma TrimKeepsLast(k: Space, s: string)
    requires s != [] && !IsSpace(k, s[|s| - 1])
    ensures Trim(k, s) != [] && Trim(k, s)[|Trim(k, s)| - 1] == s[|s| - 1]
  {
    var l := TrimLeft(k, s);
    assert l[|l| - 1] == s[|s| - 1];
  }

  /** A rewritten alpha production ends with a quote, so it is never λ. */
  lemma AlphaRewriteNotLambda(a: string, p: string)
    ensures AlphaRewrite(a, p) != Lambda
  {
    var s := TrimPrefix(p, a) + Prime(a);
    TrimKeepsLast(GoSpace, s);
  }

  /** The pass over the productions of `a` builds exactly Betas. */
  lemma {:induction false} RewriteBetas(g: GrammarState, a: string, prods: seq<string>)
    ensures Rewrite(g, a, prods).betas == Betas(a, prods)
    decreases |prods|
  {
    if prods != [] {
      var n := |prods| - 1;
      assert prods == prods[..n] + [prods[n]];
      RewriteBetas(g, a, prods[..n]);
      BetasAppend(a, prods[..n], prods[n]);
    }
  }

  /** Without alpha productions the pass leaves the grammar alone. */
  lemma {:induction false} RewriteNoAlpha(g: GrammarState, a: string, prods: seq<string>)
    requires !HasAlpha(a, prods)
    ensures Rewrite(g, a, prods).g == g
    decreases |prods|
  {
    if prods != [] {
      var n := |prods| - 1;
      assert prods[n] in prods;
      assert !IsAlpha(a, prods[n]);
      assert !HasAlpha(a, prods[..n]) by {
        assert prods == prods[..n] + [prods[n]];
      }
      RewriteNoAlpha(g, a, prods[..n]);
      assert Rewrite(g, a, prods).g == Rewrite(g, a, prods[..n]).g;
    }
  }

  /** An existing primed name keeps its place in the order and its own list,
      deduplicated: the rewritten alpha productions are lost. */
  lemma {:induction false} RewriteOldPrime(g: GrammarState, a: string, prods: seq<string>)
    requires HasAlpha(a, prods) && (PrimeName(a) in g.productions || PrimeName(a) in g.order)
    ensures Rewrite(g, a, prods).g == GrammarState(g.order, g.productions[PrimeName(a) := Dedupe(Get(g.productions, PrimeName(a)))])
    decreases |prods|
  {
    var n := |prods| - 1;
    var front := prods[..n];
    var p := prods[n];
    assert prods == front + [p];
    var P := PrimeName(a);
    RewriteLast(g, a, prods);
    if !HasAlpha(a, front) {
      RewriteNoAlpha(g, a, front);
      assert IsAlpha(a, p);
      AddGroupKnown(g, Prime(a), [AlphaRewrite(a, p), Lambda]);
    } else {
      RewriteOldPrime(g, a, front);
      var t := Rewrite(g, a, front).g;
      if IsAlpha(a, p) {
        AddGroupKnown(t, Prime(a), [AlphaRewrite(a, p), Lambda]);
        DedupeTwice(Get(g.productions, P));
        UpdateSame(t.productions, P, Dedupe(Get(g.productions, P)));
      }
    }
  }

  /** The pass over a nonempty list is the pass over all but its last
      production, followed by that production's AddProductionGroup call
      when it is an alpha production. */
  lemma RewriteLast(g: GrammarState, a: string, prods: seq<string>)
    requires prods != []
    ensures var t := Rewrite(g, a, prods[..|prods| - 1]).g; var p := prods[|prods| - 1];
      Rewrite(g, a, prods).g == if IsAlpha(a, p) then AddGroup(t, Prime(a), [AlphaRewrite(a, p), Lambda]) else t
  {
  }

  /** A new primed name is appended to the order with the rewrite of the
      first alpha production and λ; every later alpha production is lost. */
  lemma {:induction false} RewriteNewPrime(g: GrammarState, a: string, prods: seq<string>)
    requires HasAlpha(a, prods) && !(PrimeName(a) in g.productions || PrimeName(a) in g.order)
    ensures Rewrite(g, a, prods).g == GrammarState(g.order + [PrimeName(a)],
      g.productions[PrimeName(a) := [AlphaRewrite(a, FirstAlpha(a, prods)), Lambda]])
    decreases |prods|
  {
    var n := |prods| - 1;
    var front := prods[..n];
    var p := prods[n];
    assert prods == front + [p];
    var P := PrimeName(a);
    FirstAlphaAppend(a, front, p);
    RewriteLast(g, a, prods);
    if !HasAlpha(a, front) {
      RewriteNoAlpha(g, a, front);
      assert IsAlpha(a, p);
      AddGroupFresh(g, Prime(a), [AlphaRewrite(a, p), Lambda]);
    } else {
      RewriteNewPrime(g, a, front);
      var t := Rewrite(g, a, front).g;
      if IsAlpha(a, p) {
        var x0 := AlphaRewrite(a, FirstAlpha(a, front));
        AddGroupKnown(t, Prime(a), [AlphaRewrite(a, p), Lambda]);
        AlphaRewriteNotLambda(a, FirstAlpha(a, front));
        DedupePair(x0, Lambda);
        UpdateSame(t.productions, P, [x0, Lambda]);
      }
    }
  }

  lemma DedupeTwice(l: seq<string>)
    ensures Dedupe(Dedupe(l)) == Dedupe(l)
  {
    DedupeDistinct(Dedupe(l));
  }

  lemma DedupePair(x: string, y: string)
    requires x != y
    ensures Dedupe([x, y]) == [x, y]
  {
    assert [x, y][..1] == [x];
    assert [x][..0] == [];
  }

  // ---- One key, and the whole pass ----------------------------------------------

  /** For a name without leading white space the primed name is the name
      followed by a quote. */
  lemma PrimeNamePlain(a: string)
    requires a == [] || !IsSpace(GoSpace, a[0])
    ensures PrimeName(a) == a + "'"
  {
    var t := a + "'";
    assert Prime(a) == [' '] + t;
    assert t[0] == if a == [] then '\'' else a[0];
    assert t[|t| - 1] == '\'';
    TrimAfterSpace(GoSpace, ' ', t);
  }

  /** The primed name never coincides with the name itself. */
  lemma PrimeDiffers(a: string)
    ensures PrimeName(a) != a
  {
    var s := Prime(a);
    var l := TrimLeft(GoSpace, s);
    TrimKeepsLast(GoSpace, s);
    assert l != [] && !IsSpace(GoSpace, l[|l| - 1]);
    assert PrimeName(a) == l;
    if |l| == |a| {
      assert IsSpace(GoSpace, s[1]) && s[1] == a[0];
      assert l[0] != a[0];
    }
  }

  /** One turn of the outer loop. A key without left recursion is left
      alone. A left-recursive key gets Betas as its list. Only the key and its
      primed name can change, and the order can only gain the primed name. */
  lemma StepEffect(g: GrammarState, a: string)
    ensures !LeftRecursive(a, Get(g.productions, a)) ==> Step(g, a) == g
    ensures LeftRecursive(a, Get(g.productions, a)) ==>
      a in Step(g, a).productions && Step(g, a).productions[a] == Betas(a, Get(g.productions, a))
    ensures forall k :: k != a && k != PrimeName(a) ==>
      (k in Step(g, a).productions <==> k in g.productions) && Get(Step(g, a).productions, k) == Get(g.productions, k)
    ensures Step(g, a).order == g.order || Step(g, a).order == g.order + [PrimeName(a)]
    ensures g.productions.Keys <= Step(g, a).productions.Keys
  {
    var prods := Get(g.productions, a);
    if LeftRecursive(a, prods) {
      RewriteBetas(g, a, prods);
      var P := PrimeName(a);
      var r := Rewrite(g, a, prods);
      assert Step(g, a) == GrammarState(r.g.order, r.g.productions[a := r.betas]);
      if !HasAlpha(a, prods) {
        RewriteNoAlpha(g, a, prods);
        UpdateOthers(g.productions, a, r.betas);
      } else if P in g.productions || P in g.order {
        RewriteOldPrime(g, a, prods);
        UpdateTwice(g.productions, P, Dedupe(Get(g.productions, P)), a, r.betas);
      } else {
        RewriteNewPrime(g, a, prods);
        UpdateTwice(g.productions, P, [AlphaRewrite(a, FirstAlpha(a, prods)), Lambda], a, r.betas);
      }
    }
  }

  /** Updating `a` leaves every other key as it was. */
  lemma UpdateOthers(m: ProductionsSet, a: string, v: seq<string>)
    ensures forall k :: k != a ==> (k in m[a := v] <==> k in m) && Get(m[a := v], k) == Get(m, k)
    ensures m.Keys <= m[a := v].Keys
  {
  }

  /** Updating `P` and then `a` leaves every other key as it was. */
  lemma UpdateTwice(m: ProductionsSet, P: string, w: seq<string>, a: string, v: seq<string>)
    ensures forall k :: k != a && k != P ==> (k in m[P := w][a := v] <==> k in m) && Get(m[P := w][a := v], k) == Get(m, k)
    ensures m.Keys <= m[P := w][a := v].Keys
  {
  }

  /** What a left-recursive key's turn does to its primed entry. */
  lemma StepPrime(g: GrammarState, a: string)
    requires LeftRecursive(a, Get(g.productions, a))
    ensures var P := PrimeName(a); var prods := Get(g.productions, a); var r := Step(g, a);
      (!HasAlpha(a, prods) ==>
         r.order == g.order && (P in r.productions <==> P in g.productions) && Get(r.productions, P) == Get(g.productions, P))
      && (HasAlpha(a, prods) && (P in g.productions || P in g.order) ==>
         r.order == g.order && Get(r.productions, P) == Dedupe(Get(g.productions, P)))
      && (HasAlpha(a, prods) && !(P in g.productions || P in g.order) ==>
         r.order == g.order + [P] && Get(r.productions, P) == [AlphaRewrite(a, FirstAlpha(a, prods)), Lambda])
  {
    var prods := Get(g.productions, a);
    var P := PrimeName(a);
    PrimeDiffers(a);
    if !HasAlpha(a, prods) {
      RewriteNoAlpha(g, a, prods);
    } else if P in g.productions || P in g.order {
      RewriteOldPrime(g, a, prods);
    } else {
      RewriteNewPrime(g, a, prods);
    }
  }

  /** The pass keeps the order as a prefix and every key. */
  lemma {:induction false} EliminateGrows(g: GrammarState, keys: seq<string>)
    ensures g.order <= Eliminate(g, keys).order
    ensures g.productions.Keys <= Eliminate(g, keys).productions.Keys
    decreases |keys|
  {
    if keys != [] {
      var n := |keys| - 1;
      EliminateGrows(g, keys[..n]);
      StepEffect(Eliminate(g, keys[..n]), keys[n]);
    }
  }

  /** A nonterminal that is not a primed name of a visited key keeps its
      entry when it is not visited or has no left recursion. */
  lemma {:induction false} EliminateUntouched(g: GrammarState, keys: seq<string>, k: string)
    requires k !in keys || !LeftRecursive(k, Get(g.productions, k))
    requires forall b :: b in keys ==> PrimeName(b) != k
    ensures k in Eliminate(g, keys).productions <==> k in g.productions
    ensures Get(Eliminate(g, keys).productions, k) == Get(g.productions, k)
    decreases |keys|
  {
    if keys != [] {
      var n := |keys| - 1;
      assert keys == keys[..n] + [keys[n]];
      EliminateUntouched(g, keys[..n], k);
      StepEffect(Eliminate(g, keys[..n]), keys[n]);
    }
  }

  /** A left-recursive key that is visited once, and is no other visited
      key's primed name, ends up with Betas of its original productions. */
  lemma {:induction false} EliminateRecursive(g: GrammarState, keys: seq<string>, a: string)
    requires a in keys && NoDuplicates(keys)
    requires LeftRecursive(a, Get(g.productions, a))
    requires forall b :: b in keys ==> PrimeName(b) != a
    ensures a in Eliminate(g, keys).productions
    ensures Eliminate(g, keys).productions[a] == Betas(a, Get(g.productions, a))
    decreases |keys|
  {
    var n := |keys| - 1;
    var front := keys[..n];
    assert keys == front + [keys[n]];
    var before := Eliminate(g, front);
    StepEffect(before, keys[n]);
    if keys[n] == a {
      assert a !in front;
      EliminateUntouched(g, front, a);
    } else {
      EliminateRecursive(g, front, a);
    }
  }

  /** Every production that Betas rewrites starts with a character other than white space. */
  predicate VisibleBetas(a: string, prods: seq<string>) {
    forall i :: 0 <= i < |prods| && prods[i] != Lambda && !HasPrefix(prods[i], a) ==>
      prods[i] != [] && !IsSpace(GoSpace, prods[i][0])
  }

  /** A rewritten beta production `p` starting with a visible character does
      not start with a blank-free name `a`. */
  lemma BetaNotRecursive(a: string, p: string)
    requires ' ' !in a && p != Lambda && !HasPrefix(p, a) && p != [] && !IsSpace(GoSpace, p[0])
    ensures !HasPrefix(BetaRewrite(a, p), a)
  {
    var b := p + Prime(a);
    TrimUnchanged(GoSpace, b);
    if |a| > |p| {
      assert b[|p|] == ' ';
      assert a[|p|] != b[|p|];
    } else {
      assert a <= b ==> a <= p;
    }
  }

  /** With a name free of blanks and productions that start with a visible
      character, the rewritten list is no longer left-recursive. */
  lemma {:induction false} BetasNotRecursive(a: string, prods: seq<string>)
    requires ' ' !in a && VisibleBetas(a, prods)
    ensures !LeftRecursive(a, Betas(a, prods))
    decreases |prods|
  {
    if prods != [] {
      var p := prods[0];
      assert VisibleBetas(a, prods[1..]) by {
        forall i | 0 <= i < |prods[1..]| ensures prods[1..][i] == prods[i + 1] { }
      }
      BetasNotRecursive(a, prods[1..]);
      if p != Lambda && !HasPrefix(p, a) {
        BetaNotRecursive(a, p);
      }
    }
  }

  /** Without those conditions it can stay left-recursive: an empty
      production of `A` becomes `A'`, which starts with `A`. */
  lemma EmptyBetaStaysRecursive()
    ensures Betas("A", ["A b", ""]) == ["A'"]
    ensures LeftRecursive("A", Betas("A", ["A b", ""]))
  {
    EmptyBeta();
    assert ["A b", ""][1..] == [""];
    assert [""][1..] == [];
    assert HasPrefix("A b", "A");
    assert BetaOf("A", "A b") == [];
    assert Betas("A", [""]) == ["A'"];
    assert "A'" in ["A'"] && HasPrefix("A'", "A");
  }

  /** The primed group is not covered either: `A -> A | b` gives the new
      group `A' -> A' | λ`, whose first production starts with `A'`, so one
      pass of the removal leaves a left-recursive nonterminal behind. */
  lemma PrimedGroupStaysRecursive()
    ensures var r := Eliminate(GrammarState(["A"], map["A" := ["A", "b"]]), ["A"]);
      Get(r.productions, "A'") == ["A'", Lambda] && LeftRecursive("A'", Get(r.productions, "A'"))
  {
    var g := GrammarState(["A"], map["A" := ["A", "b"]]);
    assert ["A"][..0] == [];
    assert Eliminate(g, ["A"]) == Step(g, "A");
    var prods := Get(g.productions, "A");
    assert "A" in prods && HasPrefix("A", "A");
    assert IsAlpha("A", "A");
    PrimeNamePlain("A");
    assert TrimPrefix("A", "A") + Prime("A") == Prime("A");
    assert AlphaRewrite("A", "A") == "A'";
    assert FirstAlpha("A", prods) == "A";
    assert "A'" !in g.productions && "A'" !in g.order;
    StepPrime(g, "A");
    assert "A'" in ["A'", Lambda] && HasPrefix("A'", "A'");
  }

  lemma EmptyBeta()
    ensures BetaRewrite("A", "") == "A'"
  {
    var s := " A'";
    assert "" + Prime("A") == s;
    assert s[1..] == "A'";
    TrimUnchanged(GoSpace, "A'");
    assert TrimLeft(GoSpace, s) == "A'";
  }
}
