/** The Grammar object of src/ll1.go and the stages ValidateLL1 sequences:
    FIRST, FOLLOW and the prediction table. The Go maps that these stages
    range over are visited in the order `keys`, a listing of the keys of the
    productions fixed by the caller. */
module Pipeline {
  import opened Text
  import opened StringSets
  import opened Symbols
  import opened First
  import opened Follow
  import opened Elimination

  /** The three tables ValidateLL1 reports (src/ll1.go:17-21). */
  datatype LL1 = LL1(first: Table, follow: Table, prediction: Table)

  /** ComputePredictionSet (src/ll1.go:175-191) as a function: for every
      `order` entry, its FOLLOW when its FIRST contains λ, and its FIRST
      otherwise. */
  function Prediction(order: seq<string>, first: Table, follow: Table): (r: Table)
    ensures forall k :: k in r <==> k in order
    ensures forall k :: k in r && Lambda in Get(first, k) ==> r[k] == Get(follow, k)
    ensures forall k :: k in r && Lambda !in Get(first, k) ==> r[k] == Get(first, k)
  {
    map k | k in order :: if Lambda in Get(first, k) then Get(follow, k) else Get(first, k)
  }

  lemma PredictionStep(order: seq<string>, i: nat, first: Table, follow: Table)
    requires i < |order|
    ensures Prediction(order[..i + 1], first, follow) == Prediction(order[..i], first, follow)[order[i] :=
      if Lambda in Get(first, order[i]) then Get(follow, order[i]) else Get(first, order[i])]
  {
    assert order[..i + 1] == order[..i] + [order[i]];
  }

  /** ValidateLL1 (src/ll1.go:152-173) as a function of the grammar. */
  function Validated(ps: ProductionsSet, order: seq<string>, keys: seq<string>, fuel: nat): Result<LL1> {
    var first := FirstTable(ps, order, fuel);
    if first.Err? then Err(first.error)
    else
      var follow := ComputedFollow(ps, first.value, keys, order, fuel);
      if follow.Err? then Err(follow.error)
      else Ok(LL1(first.value, follow.value, Prediction(order, first.value, follow.value)))
  }

  /** ValidateLL1 fails whenever an `order` entry is not a key, and reports
      ProductionsSetNotFound only then. On success FIRST has exactly the
      `order` entries as keys, FOLLOW has an entry for each of them holding
      `$` for the first, every FOLLOW entry is duplicate-free, and the
      prediction table has exactly the `order` entries as keys. */
  lemma ValidatedProperties(ps: ProductionsSet, order: seq<string>, keys: seq<string>, fuel: nat)
    ensures (exists i :: 0 <= i < |order| && order[i] !in ps) ==> Validated(ps, order, keys, fuel).Err?
    ensures Validated(ps, order, keys, fuel) == Err(ProductionsSetNotFound) ==> exists i :: 0 <= i < |order| && order[i] !in ps
    ensures Validated(ps, order, keys, fuel).Ok? ==>
      var v := Validated(ps, order, keys, fuel).value;
      (forall k :: k in v.first <==> k in order)
      && (forall k :: k in v.first ==> FirstOf(ps, k, fuel) == Ok(v.first[k]))
      && (forall k :: k in order ==> k in v.follow)
      && (order != [] ==> Dollar in v.follow[order[0]])
      && (forall k :: k in v.follow ==> NoDuplicates(v.follow[k]))
      && (forall k :: k in v.prediction <==> k in order)
  {
    FirstTableErrors(ps, order, fuel);
    var first := FirstTable(ps, order, fuel);
    if first.Ok? {
      FirstTableOk(ps, order, fuel);
      FollowTableProperties(ps, first.value, keys, order, fuel);
    }
  }

  /** A validation that succeeds within `fuel` reports the same three
      tables with any larger bound. */
  lemma ValidatedFuel(ps: ProductionsSet, order: seq<string>, keys: seq<string>, fuel: nat, more: nat)
    requires fuel <= more && Validated(ps, order, keys, fuel).Ok?
    ensures Validated(ps, order, keys, more) == Validated(ps, order, keys, fuel)
  {
    FirstTableFuel(ps, order, fuel, more);
    var first := FirstTable(ps, order, fuel).value;
    ComputedFollowFuel(ps, first, keys, order, fuel, more);
  }

  /** The Grammar of src/ll1.go:12-15. */
  class Grammar {
    var order: seq<string>
    var productions: ProductionsSet

    constructor(order0: seq<string>, productions0: ProductionsSet)
      ensures order == order0 && productions == productions0
    {
      order := order0;
      productions := productions0;
    }

    /** The two fields as a value. */
    function State(): GrammarState
      reads this
    {
      GrammarState(order, productions)
    }

    /** GetIndexOfNonTerminal (src/ll1.go:78-86): the first position of
        `nonterminal` in the order, or -1. */
    method GetIndexOfNonTerminal(nonterminal: string) returns (index: int)
      ensures index == -1 <==> nonterminal !in order
      ensures index >= 0 ==> index < |order| && order[index] == nonterminal && nonterminal !in order[..index]
    {
      var i := 0;
      while i < |order|
        invariant 0 <= i <= |order|
        invariant nonterminal !in order[..i]
      {
        if order[i] == nonterminal {
          return i;
        }
        assert order[..i + 1] == order[..i] + [order[i]];
        i := i + 1;
      }
      assert order[..i] == order;
      return -1;
    }

    /** GetIndexOfProduction (src/ll1.go:88-96). It searches the list filed
        under `production` rather than under `nonterminal`, which it never
        reads. */
    method GetIndexOfProduction(nonterminal: string, production: string) returns (index: int)
      ensures var l := Get(productions, production);
        (index == -1 <==> production !in l)
        && (index >= 0 ==> index < |l| && l[index] == production && production !in l[..index])
    {
      var l := Get(productions, production);
      var i := 0;
      while i < |l|
        invariant 0 <= i <= |l|
        invariant production !in l[..i]
      {
        if l[i] == production {
          return i;
        }
        assert l[..i + 1] == l[..i] + [l[i]];
        i := i + 1;
      }
      assert l[..i] == l;
      return -1;
    }

    /** AddProductionGroup (src/ll1.go:98-110). */
    method AddProductionGroup(nonterminal: string, prods: seq<string>)
      modifies this
      ensures State() == AddGroup(old(State()), nonterminal, prods)
    {
      var name := Trim(GoSpace, nonterminal);
      var index := GetIndexOfNonTerminal(name);
      var ok := name in productions;
      var foundProductions := Get(productions, name);
      if ok || index != -1 {
        var union := UnionStringSet(foundProductions, prods);
        productions := productions[name := union];
        return;
      }
      order := order + [name];
      productions := productions[name := prods];
    }

    /** HasLeftRecursion (src/ll1.go:112-120). */
    method HasLeftRecursion(prefix: string, prods: seq<string>) returns (b: bool)
      ensures b <==> LeftRecursive(prefix, prods)
    {
      var i := 0;
      while i < |prods|
        invariant 0 <= i <= |prods|
        invariant forall k :: 0 <= k < i ==> !HasPrefix(prods[k], prefix)
      {
        if prefix <= prods[i] {
          assert prods[i] in prods && HasPrefix(prods[i], prefix);
          return true;
        }
        i := i + 1;
      }
      return false;
    }

    /** RemoveLeftRecursion (src/ll1.go:122-150), ranging over the keys the
        productions had when it started, in the order `keys`. It never fails. */
    method RemoveLeftRecursion(keys: seq<string>) returns (err: Option<Error>)
      requires IsKeyOrder(keys, productions)
      modifies this
      ensures err == None
      ensures State() == Eliminate(old(State()), keys)
    {
      ghost var start := State();
      var i := 0;
      while i < |keys|
        invariant 0 <= i <= |keys|
        invariant State() == Eliminate(start, keys[..i])
      {
        assert keys[..i + 1][..i] == keys[..i];
        var nonterminal := keys[i];
        var prods := Get(productions, nonterminal);
        var recursive := HasLeftRecursion(nonterminal, prods);
        if recursive {
          var betaProductions := RewriteGroup(nonterminal, prods);
          productions := productions[nonterminal := betaProductions];
        }
        i := i + 1;
      }
      assert keys[..i] == keys;
      return None;
    }

    /** The inner loop of RemoveLeftRecursion (src/ll1.go:128-144) over the
        productions `prods` of `nonterminal`: it adds the primed groups and
        returns the rewritten list. */
    method RewriteGroup(nonterminal: string, prods: seq<string>) returns (betaProductions: seq<string>)
      modifies this
      ensures Pass(State(), betaProductions) == Rewrite(old(State()), nonterminal, prods)
    {
      ghost var before := State();
      betaProductions := [];
      var j := 0;
      while j < |prods|
        invariant 0 <= j <= |prods|
        invariant Rewrite(before, nonterminal, prods[..j]) == Pass(State(), betaProductions)
      {
        assert prods[..j + 1][..j] == prods[..j];
        var production := prods[j];
        var nonterminalPrim := " " + nonterminal + "'";
        if production == Lambda {
        } else if !(nonterminal <= production) {
          betaProductions := betaProductions + [Trim(GoSpace, production + nonterminalPrim)];
        } else {
          var newProduction := Trim(GoSpace, TrimPrefix(production, nonterminal) + nonterminalPrim);
          AddProductionGroup(nonterminalPrim, [newProduction, Lambda]);
        }
        j := j + 1;
      }
      assert prods[..j] == prods;
    }

    /** ComputeFirst (src/ll1.go:199-212). */
    method ComputeFirst(fuel: nat) returns (r: Result<Table>)
      ensures r == FirstTable(productions, order, fuel)
    {
      var first: Table := map[];
      var i := 0;
      while i < |order|
        invariant 0 <= i <= |order|
        invariant FirstTable(productions, order[..i], fuel) == Ok(first)
      {
        assert order[..i + 1][..i] == order[..i];
        var nonterminalFirst := GetFirstOfNonterminal(productions, order[i], fuel);
        if nonterminalFirst.Err? {
          FirstTablePrefixErr(productions, order, i + 1, fuel);
          return Err(nonterminalFirst.error);
        }
        first := first[order[i] := nonterminalFirst.value];
        i := i + 1;
      }
      assert order[..i] == order;
      return Ok(first);
    }

    /** ComputeFollow (src/ll1.go:258-279), sharing one FOLLOW table with
        every GetFollowOfNonterminal call. */
    method ComputeFollow(first: Table, keys: seq<string>, fuel: nat) returns (r: Result<Table>)
      requires IsKeyOrder(keys, productions)
      ensures r == ComputedFollow(productions, first, keys, order, fuel)
    {
      var follow := new FollowTable();
      var err := follow.FollowAll(productions, first, keys, order, fuel, FollowTurns(productions, first, keys, order, fuel));
      if err.Some? {
        return Err(err.value);
      }
      follow.DedupeAll();
      return Ok(follow.entries);
    }

    /** ComputePredictionSet (src/ll1.go:175-191). */
    method ComputePredictionSet(first: Table, follow: Table) returns (predictionSet: Table)
      ensures predictionSet == Prediction(order, first, follow)
    {
      predictionSet := map[];
      var i := 0;
      while i < |order|
        invariant 0 <= i <= |order|
        invariant predictionSet == Prediction(order[..i], first, follow)
      {
        PredictionStep(order, i, first, follow);
        var values := Get(first, order[i]);
        var _, containsLambda := ContainsAny(values, Lambda);
        if containsLambda {
          values := Get(follow, order[i]);
        }
        predictionSet := predictionSet[order[i] := values];
        i := i + 1;
      }
      assert order[..i] == order;
    }

    /** ValidateLL1 (src/ll1.go:152-173). */
    method ValidateLL1(keys: seq<string>, fuel: nat) returns (r: Result<LL1>)
      requires IsKeyOrder(keys, productions)
      ensures r == Validated(productions, order, keys, fuel)
    {
      var first := ComputeFirst(fuel);
      if first.Err? {
        return Err(first.error);
      }
      var follow := ComputeFollow(first.value, keys, fuel);
      if follow.Err? {
        return Err(follow.error);
      }
      var prediction := ComputePredictionSet(first.value, follow.value);
      return Ok(LL1(first.value, follow.value, prediction));
    }
  }
}
