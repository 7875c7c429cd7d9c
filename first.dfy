/** FIRST sets (src/ll1.go:199-256). A symbol is a nonterminal exactly when
    it is a key of the productions set; the recursion into a nonterminal's
    FIRST has no cycle guard in Go, so the model bounds it with `fuel` and
    answers `Err(OutOfFuel)` when the bound is reached. */
module First {
  import opened Text
  import opened StringSets
  import opened Symbols

  /** Puts `prefix` in front of a successful list; an error passes through. */
  function Prepend(prefix: seq<string>, r: Result<seq<string>>): Result<seq<string>> {
    match r
    case Ok(v) => Ok(prefix + v)
    case Err(e) => Err(e)
  }

  /** FIRST of `nt`, as GetFirstOfNonterminal computes it: the failure
      `ProductionsSetNotFound` arises exactly when `nt` itself is not a key. */
  function FirstOf(ps: ProductionsSet, nt: string, fuel: nat): (r: Result<seq<string>>)
    ensures r == Err(ProductionsSetNotFound) <==> nt !in ps
    ensures r.Ok? ==> NoDuplicates(r.value)
    decreases fuel, 0
  {
    if nt !in ps then Err(ProductionsSetNotFound)
    else if fuel == 0 then Err(OutOfFuel)
    else
      match ProductionsFirst(ps, ps[nt], fuel - 1)
      case Ok(v) => Ok(Dedupe(v))
      case Err(e) => Err(e)
  }

  /** The contributions of the productions, in order (the loop at src/ll1.go:222-251). */
  function ProductionsFirst(ps: ProductionsSet, prods: seq<string>, fuel: nat): (r: Result<seq<string>>)
    ensures r != Err(ProductionsSetNotFound)
    decreases fuel, 3, |prods|
  {
    if prods == [] then Ok([])
    else
      match ProductionFirst(ps, prods[0], fuel)
      case Err(e) => Err(e)
      case Ok(c) => Prepend(c, ProductionsFirst(ps, prods[1..], fuel))
  }

  /** The contribution of one production: the marker itself for `λ`
      (src/ll1.go:223-226), otherwise the scan of its words. */
  function ProductionFirst(ps: ProductionsSet, p: string, fuel: nat): (r: Result<seq<string>>)
    ensures r != Err(ProductionsSetNotFound)
    decreases fuel, 2, 0
  {
    if p == Lambda then Ok([Lambda]) else WordsFirst(ps, Split(p, ' '), fuel)
  }

  /** The left-to-right scan of a production's words (src/ll1.go:230-250):
      a terminal contributes itself and stops; a nonterminal that is not the
      last word and whose FIRST holds `λ` contributes its FIRST without `λ`
      and the scan goes on; any other nonterminal contributes its whole FIRST
      and stops. */
  function WordsFirst(ps: ProductionsSet, words: seq<string>, fuel: nat): (r: Result<seq<string>>)
    ensures r != Err(ProductionsSetNotFound)
    decreases fuel, 1, |words|
  {
    if words == [] then Ok([])
    else if IsTerminal(ps, words[0]) then Ok([words[0]])
    else
      match FirstOf(ps, words[0], fuel)
      case Err(e) => Err(e)
      case Ok(f) =>
        if Lambda in f && |words| > 1 then Prepend(Without(f, Lambda), WordsFirst(ps, words[1..], fuel))
        else Ok(f)
  }

  lemma PrependTwice(a: seq<string>, b: seq<string>, r: Result<seq<string>>)
    ensures Prepend(a, Prepend(b, r)) == Prepend(a + b, r)
  {
    if r.Ok? {
      assert a + (b + r.value) == (a + b) + r.value;
    }
  }

  /** GetFirstOfNonterminal (src/ll1.go:214-256). On an error Go also hands
      back the partial list, which every caller drops; the model returns the
      error alone. */
  method GetFirstOfNonterminal(ps: ProductionsSet, nt: string, fuel: nat) returns (r: Result<seq<string>>)
    ensures r == FirstOf(ps, nt, fuel)
    decreases fuel, 0
  {
    if nt !in ps {
      return Err(ProductionsSetNotFound);
    }
    if fuel == 0 {
      return Err(OutOfFuel);
    }
    var productions := ps[nt];
    ghost var total := ProductionsFirst(ps, productions, fuel - 1);
    var firstSet: seq<string> := [];
    var j := 0;
    assert productions[0..] == productions;
    assert Prepend([], total) == total by {
      if total.Ok? {
        assert [] + total.value == total.value;
      }
    }
    while j < |productions|
      invariant 0 <= j <= |productions|
      invariant Prepend(firstSet, ProductionsFirst(ps, productions[j..], fuel - 1)) == total
    {
      var production := productions[j];
      assert productions[j..][1..] == productions[j + 1..];
      ghost var restFirst := ProductionsFirst(ps, productions[j + 1..], fuel - 1);
      if production == Lambda {
        PrependTwice(firstSet, [Lambda], restFirst);
        firstSet := firstSet + [Lambda];
        j := j + 1;
        continue;
      }
      var allWords := Split(production, ' ');
      var contribution := FirstOfWords(ps, allWords, fuel - 1);
      if contribution.Err? {
        return Err(contribution.error);
      }
      PrependTwice(firstSet, contribution.value, restFirst);
      firstSet := firstSet + contribution.value;
      j := j + 1;
    }
    assert firstSet + [] == firstSet;
    var deduped := UnionStringSet(firstSet, firstSet);
    return Ok(deduped);
  }

  /** The scan of one production's words in GetFirstOfNonterminal
      (src/ll1.go:230-250), returning what the production adds to the list. */
  method FirstOfWords(ps: ProductionsSet, allWords: seq<string>, fuel: nat) returns (r: Result<seq<string>>)
    ensures r == WordsFirst(ps, allWords, fuel)
    decreases fuel, 1
  {
    var contribution: seq<string> := [];
    var i := 0;
    assert allWords[0..] == allWords;
    assert Prepend([], WordsFirst(ps, allWords, fuel)) == WordsFirst(ps, allWords, fuel) by {
      if WordsFirst(ps, allWords, fuel).Ok? {
        assert [] + WordsFirst(ps, allWords, fuel).value == WordsFirst(ps, allWords, fuel).value;
      }
    }
    while i < |allWords|
      invariant 0 <= i <= |allWords|
      invariant Prepend(contribution, WordsFirst(ps, allWords[i..], fuel)) == WordsFirst(ps, allWords, fuel)
    {
      var word := allWords[i];
      assert allWords[i..][1..] == allWords[i + 1..];
      if IsTerminal(ps, word) {
        return Ok(contribution + [word]);
      }
      var found := GetFirstOfNonterminal(ps, word, fuel);
      if found.Err? {
        return found;
      }
      var _, containsLambda := ContainsAny(found.value, Lambda);
      if containsLambda && i < |allWords| - 1 {
        var withoutLambda := RemoveElement(found.value, Lambda);
        PrependTwice(contribution, withoutLambda, WordsFirst(ps, allWords[i + 1..], fuel));
        contribution := contribution + withoutLambda;
        i := i + 1;
        continue;
      }
      return Ok(contribution + found.value);
    }
    assert contribution + [] == contribution;
    return Ok(contribution);
  }

  // ---- Fuel is only a bound -------------------------------------------------

  /** Once FIRST of `nt` is reached without running out of fuel, more fuel
      gives the same answer: the bound never changes a result, it only cuts
      off recursion that Go would not bring to an end sooner. */
  lemma {:induction false} FirstOfFuel(ps: ProductionsSet, nt: string, fuel: nat, more: nat)
    requires fuel <= more && FirstOf(ps, nt, fuel) != Err(OutOfFuel)
    ensures FirstOf(ps, nt, more) == FirstOf(ps, nt, fuel)
    decreases fuel, 0
  {
    if nt in ps {
      ProductionsFirstFuel(ps, ps[nt], fuel - 1, more - 1);
    }
  }

  lemma {:induction false} ProductionsFirstFuel(ps: ProductionsSet, prods: seq<string>, fuel: nat, more: nat)
    requires fuel <= more && ProductionsFirst(ps, prods, fuel) != Err(OutOfFuel)
    ensures ProductionsFirst(ps, prods, more) == ProductionsFirst(ps, prods, fuel)
    decreases fuel, 3, |prods|
  {
    if prods != [] {
      ProductionFirstFuel(ps, prods[0], fuel, more);
      if ProductionFirst(ps, prods[0], fuel).Ok? {
        ProductionsFirstFuel(ps, prods[1..], fuel, more);
      }
    }
  }

  lemma {:induction false} ProductionFirstFuel(ps: ProductionsSet, p: string, fuel: nat, more: nat)
    requires fuel <= more && ProductionFirst(ps, p, fuel) != Err(OutOfFuel)
    ensures ProductionFirst(ps, p, more) == ProductionFirst(ps, p, fuel)
    decreases fuel, 2, 0
  {
    if p != Lambda {
      WordsFirstFuel(ps, Split(p, ' '), fuel, more);
    }
  }

  lemma {:induction false} WordsFirstFuel(ps: ProductionsSet, words: seq<string>, fuel: nat, more: nat)
    requires fuel <= more && WordsFirst(ps, words, fuel) != Err(OutOfFuel)
    ensures WordsFirst(ps, words, more) == WordsFirst(ps, words, fuel)
    decreases fuel, 1, |words|
  {
    if words != [] && !IsTerminal(ps, words[0]) {
      FirstOfFuel(ps, words[0], fuel, more);
      var f := FirstOf(ps, words[0], fuel);
      if f.Ok? && Lambda in f.value && |words| > 1 {
        WordsFirstFuel(ps, words[1..], fuel, more);
      }
    }
  }

  // ---- What each production contributes -------------------------------------

  /** Every production's contribution is part of the combined list. */
  lemma {:induction false} ProductionsFirstHas(ps: ProductionsSet, prods: seq<string>, fuel: nat, k: nat)
    requires k < |prods| && ProductionsFirst(ps, prods, fuel).Ok?
    ensures ProductionFirst(ps, prods[k], fuel).Ok?
    ensures forall x :: x in ProductionFirst(ps, prods[k], fuel).value ==> x in ProductionsFirst(ps, prods, fuel).value
    decreases k
  {
    if k > 0 {
      ProductionsFirstHas(ps, prods[1..], fuel, k - 1);
    }
  }

  /** Unfolds FirstOf on a successful key to the contribution of one of its productions. */
  lemma FirstOfHas(ps: ProductionsSet, nt: string, fuel: nat, p: string)
    requires nt in ps && p in ps[nt] && FirstOf(ps, nt, fuel).Ok?
    ensures fuel >= 1 && ProductionFirst(ps, p, fuel - 1).Ok?
    ensures forall x :: x in ProductionFirst(ps, p, fuel - 1).value ==> x in FirstOf(ps, nt, fuel).value
  {
    var k :| 0 <= k < |ps[nt]| && ps[nt][k] == p;
    ProductionsFirstHas(ps, ps[nt], fuel - 1, k);
  }

  /** Every member of the combined list comes from one of the productions. */
  lemma {:induction false} ProductionsFirstOnly(ps: ProductionsSet, prods: seq<string>, fuel: nat, x: string)
    requires ProductionsFirst(ps, prods, fuel).Ok? && x in ProductionsFirst(ps, prods, fuel).value
    ensures exists k :: 0 <= k < |prods| && ProductionFirst(ps, prods[k], fuel).Ok? && x in ProductionFirst(ps, prods[k], fuel).value
    decreases |prods|
  {
    var c := ProductionFirst(ps, prods[0], fuel).value;
    if x !in c {
      ProductionsFirstOnly(ps, prods[1..], fuel, x);
      var k :| 0 <= k < |prods[1..]| && ProductionFirst(ps, prods[1..][k], fuel).Ok? && x in ProductionFirst(ps, prods[1..][k], fuel).value;
      assert prods[1..][k] == prods[k + 1];
    }
  }

  /** FIRST of a key is exactly the union of its productions' contributions:
      each contribution is in it, and it holds nothing else. */
  lemma FirstOfExactly(ps: ProductionsSet, nt: string, fuel: nat)
    requires FirstOf(ps, nt, fuel).Ok?
    ensures nt in ps && fuel >= 1
    ensures forall p :: p in ps[nt] ==> ProductionFirst(ps, p, fuel - 1).Ok?
    ensures forall x :: x in FirstOf(ps, nt, fuel).value <==>
      exists p :: p in ps[nt] && ProductionFirst(ps, p, fuel - 1).Ok? && x in ProductionFirst(ps, p, fuel - 1).value
  {
    forall p | p in ps[nt] ensures ProductionFirst(ps, p, fuel - 1).Ok? {
      FirstOfHas(ps, nt, fuel, p);
    }
    forall x ensures x in FirstOf(ps, nt, fuel).value <==>
      exists p :: p in ps[nt] && ProductionFirst(ps, p, fuel - 1).Ok? && x in ProductionFirst(ps, p, fuel - 1).value
    {
      if x in FirstOf(ps, nt, fuel).value {
        ProductionsFirstOnly(ps, ps[nt], fuel - 1, x);
        var k :| 0 <= k < |ps[nt]| && ProductionFirst(ps, ps[nt][k], fuel - 1).Ok? && x in ProductionFirst(ps, ps[nt][k], fuel - 1).value;
        assert ps[nt][k] in ps[nt];
      }
      if exists p :: p in ps[nt] && ProductionFirst(ps, p, fuel - 1).Ok? && x in ProductionFirst(ps, p, fuel - 1).value {
        var p :| p in ps[nt] && ProductionFirst(ps, p, fuel - 1).Ok? && x in ProductionFirst(ps, p, fuel - 1).value;
        FirstOfHas(ps, nt, fuel, p);
      }
    }
  }

  /** A `λ` production puts `λ` into FIRST. */
  lemma FirstOfLambdaProduction(ps: ProductionsSet, nt: string, fuel: nat)
    requires nt in ps && Lambda in ps[nt] && FirstOf(ps, nt, fuel).Ok?
    ensures Lambda in FirstOf(ps, nt, fuel).value
    ensures fuel >= 1 && ProductionFirst(ps, Lambda, fuel - 1) == Ok([Lambda])
  {
    FirstOfHas(ps, nt, fuel, Lambda);
  }

  /** A production whose first word is a terminal puts that word into FIRST,
      and nothing else: the scan stops there. */
  lemma FirstOfTerminalLead(ps: ProductionsSet, nt: string, fuel: nat, p: string)
    requires nt in ps && p in ps[nt] && p != Lambda && FirstOf(ps, nt, fuel).Ok?
    requires IsTerminal(ps, Split(p, ' ')[0])
    ensures Split(p, ' ')[0] in FirstOf(ps, nt, fuel).value
    ensures fuel >= 1 && ProductionFirst(ps, p, fuel - 1) == Ok([Split(p, ' ')[0]])
  {
    FirstOfHas(ps, nt, fuel, p);
  }

  /** A production whose first word B is a nonterminal puts all of FIRST(B)
      but `λ` into FIRST; `λ` too when B is its only word or FIRST(B) lacks
      `λ`, and then the scan stops with FIRST(B) as the contribution;
      otherwise the scan goes on with the remaining words. */
  lemma FirstOfNonterminalLead(ps: ProductionsSet, nt: string, fuel: nat, p: string)
    requires nt in ps && p in ps[nt] && p != Lambda && FirstOf(ps, nt, fuel).Ok?
    requires !IsTerminal(ps, Split(p, ' ')[0])
    ensures fuel >= 1
    ensures FirstOf(ps, Split(p, ' ')[0], fuel - 1).Ok?
    ensures forall x :: x in FirstOf(ps, Split(p, ' ')[0], fuel - 1).value && x != Lambda ==>
      x in FirstOf(ps, nt, fuel).value
    ensures Lambda !in FirstOf(ps, Split(p, ' ')[0], fuel - 1).value || |Split(p, ' ')| == 1 ==>
      forall x :: x in FirstOf(ps, Split(p, ' ')[0], fuel - 1).value ==> x in FirstOf(ps, nt, fuel).value
    ensures Lambda in FirstOf(ps, Split(p, ' ')[0], fuel - 1).value && |Split(p, ' ')| > 1 ==>
      WordsFirst(ps, Split(p, ' ')[1..], fuel - 1).Ok? &&
      forall x :: x in WordsFirst(ps, Split(p, ' ')[1..], fuel - 1).value ==> x in FirstOf(ps, nt, fuel).value
    ensures Lambda !in FirstOf(ps, Split(p, ' ')[0], fuel - 1).value || |Split(p, ' ')| == 1 ==>
      ProductionFirst(ps, p, fuel - 1) == FirstOf(ps, Split(p, ' ')[0], fuel - 1)
    ensures Lambda in FirstOf(ps, Split(p, ' ')[0], fuel - 1).value && |Split(p, ' ')| > 1 ==>
      ProductionFirst(ps, p, fuel - 1) ==
        Prepend(Without(FirstOf(ps, Split(p, ' ')[0], fuel - 1).value, Lambda), WordsFirst(ps, Split(p, ' ')[1..], fuel - 1))
  {
    FirstOfHas(ps, nt, fuel, p);
  }

  // ---- Where FIRST's symbols come from --------------------------------------

  /** `x` is one of the words of some production of the grammar. */
  ghost predicate OccursInProductions(ps: ProductionsSet, x: string) {
    exists m, p :: m in ps && p in ps[m] && IsWordOf(p, x)
  }

  /** FIRST holds nothing but `λ` and terminals written in some production. */
  lemma {:induction false} FirstOfSound(ps: ProductionsSet, nt: string, fuel: nat, x: string)
    requires FirstOf(ps, nt, fuel).Ok? && x in FirstOf(ps, nt, fuel).value
    ensures x == Lambda || (IsTerminal(ps, x) && OccursInProductions(ps, x))
    decreases fuel, 0
  {
    ProductionsFirstSound(ps, nt, ps[nt], fuel - 1, x);
  }

  lemma {:induction false} ProductionsFirstSound(ps: ProductionsSet, m: string, prods: seq<string>, fuel: nat, x: string)
    requires m in ps && forall p :: p in prods ==> p in ps[m]
    requires ProductionsFirst(ps, prods, fuel).Ok? && x in ProductionsFirst(ps, prods, fuel).value
    ensures x == Lambda || (IsTerminal(ps, x) && OccursInProductions(ps, x))
    decreases fuel, 3, |prods|
  {
    var c := ProductionFirst(ps, prods[0], fuel).value;
    if x in c {
      ProductionFirstSound(ps, m, prods[0], fuel, x);
    } else {
      ProductionsFirstSound(ps, m, prods[1..], fuel, x);
    }
  }

  lemma {:induction false} ProductionFirstSound(ps: ProductionsSet, m: string, p: string, fuel: nat, x: string)
    requires m in ps && p in ps[m]
    requires ProductionFirst(ps, p, fuel).Ok? && x in ProductionFirst(ps, p, fuel).value
    ensures x == Lambda || (IsTerminal(ps, x) && OccursInProductions(ps, x))
    decreases fuel, 2, 0
  {
    if p != Lambda {
      WordsFirstSound(ps, m, p, Split(p, ' '), fuel, x);
    }
  }

  lemma {:induction false} WordsFirstSound(ps: ProductionsSet, m: string, p: string, words: seq<string>, fuel: nat, x: string)
    requires m in ps && p in ps[m] && forall w :: w in words ==> IsWordOf(p, w)
    requires WordsFirst(ps, words, fuel).Ok? && x in WordsFirst(ps, words, fuel).value
    ensures x == Lambda || (IsTerminal(ps, x) && OccursInProductions(ps, x))
    decreases fuel, 1, |words|
  {
    if IsTerminal(ps, words[0]) {
      assert x == words[0];
      assert IsWordOf(p, x);
    } else {
      var f := FirstOf(ps, words[0], fuel).value;
      if x in f {
        FirstOfSound(ps, words[0], fuel, x);
      } else {
        WordsFirstSound(ps, m, p, words[1..], fuel, x);
      }
    }
  }

  // ---- ComputeFirst -----------------------------------------------------------

  /** The table ComputeFirst (src/ll1.go:199-212) builds from `order`: the
      first failing entry's error, or FIRST of every entry. */
  function FirstTable(ps: ProductionsSet, order: seq<string>, fuel: nat): Result<Table>
    decreases |order|
  {
    if order == [] then Ok(map[])
    else
      match FirstTable(ps, order[..|order| - 1], fuel)
      case Err(e) => Err(e)
      case Ok(t) =>
        match FirstOf(ps, order[|order| - 1], fuel)
        case Err(e) => Err(e)
        case Ok(f) => Ok(t[order[|order| - 1] := f])
  }

  /** An error on a prefix of `order` is the error of the whole table. */
  lemma {:induction false} FirstTablePrefixErr(ps: ProductionsSet, order: seq<string>, k: nat, fuel: nat)
    requires k <= |order| && FirstTable(ps, order[..k], fuel).Err?
    ensures FirstTable(ps, order, fuel) == FirstTable(ps, order[..k], fuel)
    decreases |order| - k
  {
    if k < |order| {
      assert order[..k + 1][..k] == order[..k];
      FirstTablePrefixErr(ps, order, k + 1, fuel);
    } else {
      assert order[..k] == order;
    }
  }

  /** A successful table has exactly the `order` entries as keys, each
      mapped to its FIRST set. */
  lemma {:induction false} FirstTableOk(ps: ProductionsSet, order: seq<string>, fuel: nat)
    requires FirstTable(ps, order, fuel).Ok?
    ensures forall k :: k in FirstTable(ps, order, fuel).value <==> k in order
    ensures forall k :: k in FirstTable(ps, order, fuel).value ==>
      FirstOf(ps, k, fuel) == Ok(FirstTable(ps, order, fuel).value[k])
    decreases |order|
  {
    if order != [] {
      var n := |order| - 1;
      FirstTableOk(ps, order[..n], fuel);
      assert order == order[..n] + [order[n]];
    }
  }

  /** ComputeFirst fails whenever some `order` entry is not a key, it
      reports `ProductionsSetNotFound` only then, and it succeeds when every
      entry is a key whose FIRST is reached within the fuel. */
  lemma {:induction false} FirstTableErrors(ps: ProductionsSet, order: seq<string>, fuel: nat)
    ensures (exists i :: 0 <= i < |order| && order[i] !in ps) ==> FirstTable(ps, order, fuel).Err?
    ensures FirstTable(ps, order, fuel) == Err(ProductionsSetNotFound) ==>
      exists i :: 0 <= i < |order| && order[i] !in ps
    ensures (forall i :: 0 <= i < |order| ==> FirstOf(ps, order[i], fuel).Ok?) ==> FirstTable(ps, order, fuel).Ok?
    decreases |order|
  {
    if order != [] {
      var n := |order| - 1;
      FirstTableErrors(ps, order[..n], fuel);
      if FirstTable(ps, order, fuel).Ok? {
        FirstTableOk(ps, order, fuel);
      }
      assert forall i :: 0 <= i < n ==> order[..n][i] == order[i];
    }
  }

  /** A FIRST table that ComputeFirst builds within `fuel` is the table it
      builds with any larger bound. */
  lemma {:induction false} FirstTableFuel(ps: ProductionsSet, order: seq<string>, fuel: nat, more: nat)
    requires fuel <= more && FirstTable(ps, order, fuel).Ok?
    ensures FirstTable(ps, order, more) == FirstTable(ps, order, fuel)
    decreases |order|
  {
    if order != [] {
      var n := |order| - 1;
      FirstTableFuel(ps, order[..n], fuel, more);
      FirstOfFuel(ps, order[n], fuel, more);
    }
  }
}
