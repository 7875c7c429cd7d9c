/** FOLLOW sets (src/ll1.go:258-367). The occurrence search finds, for one
    nonterminal, the symbol that follows it in each production that mentions
    it; GetFollowOfNonterminal folds those symbols into a FOLLOW table that
    every recursive call shares and updates. Go recurses here without a cycle
    guard, so the model bounds the recursion with `fuel`. Go visits map keys
    in an unspecified order; the model takes that order as the parameter
    `keys`. */
module Follow {
  import opened Text
  import opened StringSets
  import opened Symbols

  // ---- The following symbol --------------------------------------------------

  /** The precondition Go relies on at src/ll1.go:288: either the production
      is at most one byte long, or SplitN produced a second piece to index. */
  predicate CanSplit(production: string, value: string) {
    Utf8Len(production) <= 1 || |SplitN2(production, value)| == 2
  }

  /** GetFollowingFromProduction (src/ll1.go:281-289): the first word after
      the first occurrence of `value` as a substring, or `λ` when the
      production is at most one byte long. */
  function GetFollowingFromProduction(production: string, value: string): (r: string)
    requires CanSplit(production, value)
    ensures Utf8Len(production) <= 1 ==> r == Lambda
    ensures Utf8Len(production) > 1 ==> ' ' !in r
  {
    if Utf8Len(production) <= 1 then Lambda
    else Split(Trim(GoSpace, SplitN2(production, value)[1]), ' ')[0]
  }

  /** Where the text after `value` starts in GetFollowingFromProduction:
      after the first occurrence of `value`, or after the first character
      when `value` is empty (the SplitN of an empty separator). */
  function AfterValue(production: string, value: string): int {
    if value == [] then 1 else Index(production, value) + |value|
  }

  /** For a production longer than one byte in which `value` occurs (and,
      for the empty `value`, that has a second character), the following
      symbol is the first space-separated word of the text after `value`,
      trimmed; it is empty exactly when only white space follows. */
  lemma FollowingMeaning(production: string, value: string)
    requires Index(production, value) >= 0 && Utf8Len(production) > 1
    requires value == [] ==> |production| >= 2
    ensures CanSplit(production, value)
    ensures 0 <= AfterValue(production, value) <= |production|
    ensures var tail := Trim(GoSpace, production[AfterValue(production, value)..]);
      var r := GetFollowingFromProduction(production, value);
      r <= tail && ' ' !in r && (|r| < |tail| ==> tail[|r|] == ' ')
    ensures GetFollowingFromProduction(production, value) == [] <==>
      forall i :: AfterValue(production, value) <= i < |production| ==> IsSpace(GoSpace, production[i])
  {
    FollowingAfter(production, value);
    FirstWordOf(production, AfterValue(production, value));
  }

  /** GetFollowingFromProduction reads the first word of the trimmed text
      after `value`. */
  lemma FollowingAfter(production: string, value: string)
    requires Index(production, value) >= 0 && Utf8Len(production) > 1
    requires value == [] ==> |production| >= 2
    ensures CanSplit(production, value) && 0 <= AfterValue(production, value) <= |production|
    ensures GetFollowingFromProduction(production, value) ==
      Split(Trim(GoSpace, production[AfterValue(production, value)..]), ' ')[0]
  {
    assert SplitN2(production, value)[1] == production[AfterValue(production, value)..];
  }

  /** The first space-separated word of the trimmed text from `m` on: a
      prefix with no space, cut at a space, and empty exactly when the text
      is all white space. */
  lemma FirstWordOf(s: string, m: int)
    requires 0 <= m <= |s|
    ensures var tail := Trim(GoSpace, s[m..]); var r := Split(tail, ' ')[0];
      r <= tail && ' ' !in r && (|r| < |tail| ==> tail[|r|] == ' ')
      && (r == [] <==> forall i :: m <= i < |s| ==> IsSpace(GoSpace, s[i]))
  {
    var after := s[m..];
    var tail := Trim(GoSpace, after);
    var r := Split(tail, ' ')[0];
    SplitHead(tail, ' ');
    TrimEmpty(GoSpace, after);
    assert r == [] <==> tail == [] by {
      if tail != [] {
        assert tail[0] != ' ';
      }
    }
    assert (forall i :: 0 <= i < |after| ==> IsSpace(GoSpace, after[i])) <==>
      (forall i :: m <= i < |s| ==> IsSpace(GoSpace, s[i])) by {
      forall i | m <= i < |s| ensures s[i] == after[i - m] { }
    }
  }

  /** The first piece of a Split is cut at the first separator. */
  lemma {:induction false} SplitHead(s: string, sep: char)
    ensures |Split(s, sep)[0]| < |s| ==> s[|Split(s, sep)[0]|] == sep
    decreases |s|
  {
    if s != [] && s[0] != sep {
      SplitHead(s[1..], sep);
    }
  }

  /** A production that has `value` as a word meets GetFollowingFromProduction's
      precondition. */
  lemma WordCanSplit(production: string, value: string)
    requires IsWordOf(production, value)
    ensures CanSplit(production, value)
  {
    if value != [] {
      WordOccurs(production, value);
    } else if |production| == 1 {
      assert production[1..] == [];
      assert Split(production, ' ') == if production[0] == ' ' then [[], []] else [production];
    }
  }

  // ---- The occurrence search ---------------------------------------------------

  /** The following symbols of `value` in `prods`, one per production that has
      `value` as a word, in production order. */
  function FollowingsIn(prods: seq<string>, value: string): seq<string>
    decreases |prods|
  {
    if prods == [] then []
    else
      var p := prods[|prods| - 1];
      var rest := FollowingsIn(prods[..|prods| - 1], value);
      if IsWordOf(p, value) then (WordCanSplit(p, value); rest + [GetFollowingFromProduction(p, value)])
      else rest
  }

  /** The occurrence map of `value`: an entry for every nonterminal with a
      production that has `value` as a word. */
  function Occurrences(ps: ProductionsSet, value: string): Table {
    map m | m in ps && FollowingsIn(ps[m], value) != [] :: FollowingsIn(ps[m], value)
  }

  /** The productions that mention `value`, in order. */
  function Mentioning(prods: seq<string>, value: string): (r: seq<string>)
    ensures forall p :: p in r <==> p in prods && IsWordOf(p, value)
    decreases |prods|
  {
    if prods == [] then []
    else
      var p := prods[|prods| - 1];
      Mentioning(prods[..|prods| - 1], value) + (if IsWordOf(p, value) then [p] else [])
  }

  /** The occurrence list of `value` in `prods` holds one entry per production
      mentioning `value`: its following symbol. */
  lemma {:induction false} FollowingsInMeaning(prods: seq<string>, value: string)
    ensures |FollowingsIn(prods, value)| == |Mentioning(prods, value)|
    ensures forall k :: 0 <= k < |Mentioning(prods, value)| ==>
      CanSplit(Mentioning(prods, value)[k], value) &&
      FollowingsIn(prods, value)[k] == GetFollowingFromProduction(Mentioning(prods, value)[k], value)
    decreases |prods|
  {
    if prods != [] {
      var n := |prods| - 1;
      FollowingsInMeaning(prods[..n], value);
      if IsWordOf(prods[n], value) {
        WordCanSplit(prods[n], value);
      }
    }
  }

  /** A nonterminal has an occurrence entry exactly when one of its
      productions has `value` as a word. */
  lemma OccurrencesKeys(ps: ProductionsSet, value: string, m: string)
    ensures m in Occurrences(ps, value) <==> m in ps && exists p :: p in ps[m] && IsWordOf(p, value)
  {
    if m in ps {
      FollowingsInMeaning(ps[m], value);
      var ms := Mentioning(ps[m], value);
      if exists p :: p in ps[m] && IsWordOf(p, value) {
        var p :| p in ps[m] && IsWordOf(p, value);
        assert p in ms;
      }
      if ms != [] {
        assert ms[0] in ps[m] && IsWordOf(ms[0], value);
      }
    }
  }

  /** The occurrence map restricted to the keys in `done`. */
  function OccurrencesAmong(ps: ProductionsSet, done: seq<string>, value: string): Table {
    map m | m in ps && m in done && FollowingsIn(ps[m], value) != [] :: FollowingsIn(ps[m], value)
  }

  /** Visiting one more key adds that key's entry, if it has one. */
  lemma OccurrencesAmongStep(ps: ProductionsSet, keys: seq<string>, i: nat, value: string)
    requires i < |keys| && keys[i] in ps && keys[i] !in keys[..i]
    ensures keys[i] !in OccurrencesAmong(ps, keys[..i], value)
    ensures OccurrencesAmong(ps, keys[..i + 1], value) ==
      if FollowingsIn(ps[keys[i]], value) == [] then OccurrencesAmong(ps, keys[..i], value)
      else OccurrencesAmong(ps, keys[..i], value)[keys[i] := FollowingsIn(ps[keys[i]], value)]
  {
    assert keys[..i + 1] == keys[..i] + [keys[i]];
  }

  /** Visiting every key gives the whole occurrence map. */
  lemma OccurrencesAmongAll(ps: ProductionsSet, keys: seq<string>, value: string)
    requires IsKeyOrder(keys, ps)
    ensures OccurrencesAmong(ps, keys, value) == Occurrences(ps, value)
  {
  }

  /** `m` with the entry `k := l` when `l` is nonempty. */
  function PutNonempty(m: Table, k: string, l: seq<string>): Table {
    if l == [] then m else m[k := l]
  }

  /** One more production of a nonterminal adds its following symbol exactly
      when it mentions `value`. */
  lemma FollowingsInStep(prods: seq<string>, j: nat, value: string)
    requires j < |prods|
    ensures IsWordOf(prods[j], value) ==> CanSplit(prods[j], value)
    ensures IsWordOf(prods[j], value) ==>
      FollowingsIn(prods[..j + 1], value) == FollowingsIn(prods[..j], value) + [GetFollowingFromProduction(prods[j], value)]
    ensures !IsWordOf(prods[j], value) ==> FollowingsIn(prods[..j + 1], value) == FollowingsIn(prods[..j], value)
  {
    assert prods[..j + 1][..j] == prods[..j];
    if IsWordOf(prods[j], value) {
      WordCanSplit(prods[j], value);
    }
  }

  /** The map update Go performs for a mentioning production: create the
      entry if needed, then append to it. */
  lemma PutNonemptyAppend(before: Table, k: string, l: seq<string>, x: string)
    requires k !in before
    ensures var o := PutNonempty(before, k, l);
      var o1 := if k in o then o else o[k := []];
      o1[k := o1[k] + [x]] == PutNonempty(before, k, l + [x])
  {
    if l == [] {
      assert [] + [x] == [x];
    }
  }

  /** FindNonterminalOccurrences (src/ll1.go:291-309), ranging over the keys
      of `ps` in the order `keys`. */
  method FindNonterminalOccurrences(ps: ProductionsSet, keys: seq<string>, value: string) returns (ocurrences: Table)
    requires IsKeyOrder(keys, ps)
    ensures ocurrences == Occurrences(ps, value)
  {
    ocurrences := map[];
    var i := 0;
    while i < |keys|
      invariant 0 <= i <= |keys|
      invariant ocurrences == OccurrencesAmong(ps, keys[..i], value)
    {
      var nonterminal := keys[i];
      assert nonterminal !in keys[..i];
      OccurrencesAmongStep(ps, keys, i, value);
      ocurrences := ScanProductions(ocurrences, nonterminal, ps[nonterminal], value);
      i := i + 1;
    }
    assert keys[..i] == keys;
    OccurrencesAmongAll(ps, keys, value);
  }

  /** The inner loop of FindNonterminalOccurrences (src/ll1.go:295-305): the
      productions of `nonterminal` that mention `value` append their
      following symbols to its entry, which is created on the first one. */
  method ScanProductions(ocurrences: Table, nonterminal: string, productions: seq<string>, value: string)
    returns (updated: Table)
    requires nonterminal !in ocurrences
    ensures updated == PutNonempty(ocurrences, nonterminal, FollowingsIn(productions, value))
  {
    updated := ocurrences;
    var j := 0;
    assert productions[..0] == [];
    while j < |productions|
      invariant 0 <= j <= |productions|
      invariant updated == PutNonempty(ocurrences, nonterminal, FollowingsIn(productions[..j], value))
    {
      var production := productions[j];
      FollowingsInStep(productions, j, value);
      var contains := ContainsWord(production, value);
      if contains {
        PutNonemptyAppend(ocurrences, nonterminal, FollowingsIn(productions[..j], value), GetFollowingFromProduction(production, value));
        if nonterminal !in updated {
          updated := updated[nonterminal := []];
        }
        updated := updated[nonterminal := updated[nonterminal] + [GetFollowingFromProduction(production, value)]];
      }
      j := j + 1;
    }
    assert productions[..j] == productions;
  }

  // ---- FOLLOW of one nonterminal ---------------------------------------------

  /** The follow list gathered so far, and the shared FOLLOW table as it stands. */
  datatype FollowState = FollowState(follows: seq<string>, table: Table)

  /** Every entry of `t` is still present in `t'`, with at least its values. */
  predicate Grows(t: Table, t': Table) {
    forall k :: k in t ==> k in t' && forall x :: x in t[k] ==> x in t'[k]
  }

  /** GetFollowOfNonterminal (src/ll1.go:316-366) as a function of the table
      `table` it starts from: the follow list it returns and the table it
      leaves behind, where the entry of `nt` is that list. */
  function FollowOf(ps: ProductionsSet, first: Table, keys: seq<string>, table: Table, nt: string, fuel: nat): (r: Result<FollowState>)
    ensures r.Err? ==> r.error == OutOfFuel
    ensures r.Ok? ==> NoDuplicates(r.value.follows) && nt in r.value.table && r.value.table[nt] == r.value.follows
    decreases fuel, 0
  {
    if fuel == 0 then Err(OutOfFuel)
    else
      var r := FollowKeys(ps, first, keys, Occurrences(ps, nt), 0, FollowState(Get(table, nt), table), fuel - 1);
      if r.Err? then Err(r.error)
      else
        var d := Dedupe(r.value.follows);
        Ok(FollowState(d, r.value.table[nt := d]))
  }

  /** The range over the occurrence map `occ`, from the `i`-th key on. */
  function FollowKeys(ps: ProductionsSet, first: Table, keys: seq<string>, occ: Table, i: nat, st: FollowState, fuel: nat): (r: Result<FollowState>)
    ensures r.Err? ==> r.error == OutOfFuel
    decreases fuel, 2, |keys| - i
  {
    if i >= |keys| then Ok(st)
    else
      if keys[i] !in occ then FollowKeys(ps, first, keys, occ, i + 1, st, fuel)
      else
        var r := FollowEntries(ps, first, keys, keys[i], occ[keys[i]], 0, st, fuel);
        if r.Err? then r
        else FollowKeys(ps, first, keys, occ, i + 1, r.value, fuel)
  }

  /** The loop over the following symbols `fs` recorded under the nonterminal
      `m`, from the `j`-th on, in the order of Go's branches. */
  function FollowEntries(ps: ProductionsSet, first: Table, keys: seq<string>, m: string, fs: seq<string>, j: nat, st: FollowState, fuel: nat): (r: Result<FollowState>)
    ensures r.Err? ==> r.error == OutOfFuel
    decreases fuel, 1, |fs| - j
  {
    if j >= |fs| then Ok(st)
    else
      var f := fs[j];
      if IsTerminal(ps, f) && f != "" then
        FollowEntries(ps, first, keys, m, fs, j + 1, FollowState(st.follows + [f], st.table), fuel)
      else if f == "" then
        FollowEntries(ps, first, keys, m, fs, j + 1, FollowState(st.follows + Get(st.table, m), st.table), fuel)
      else if f == Lambda then
        var rec := FollowOf(ps, first, keys, st.table, m, fuel);
        if rec.Err? then Err(rec.error)
        else FollowEntries(ps, first, keys, m, fs, j + 1, FollowState(st.follows + rec.value.follows, rec.value.table), fuel)
      else
        var fp := Get(first, f);
        var follows := st.follows + Without(fp, Lambda);
        if Lambda in fp then
          var rec := FollowOf(ps, first, keys, st.table, m, fuel);
          if rec.Err? then Err(rec.error)
          else FollowEntries(ps, first, keys, m, fs, j + 1, FollowState(follows + rec.value.follows, rec.value.table), fuel)
        else FollowEntries(ps, first, keys, m, fs, j + 1, FollowState(follows, st.table), fuel)
  }

  /** A table-computing method's outcome `err`, with the table `entries` it
      leaves, is the outcome `r` of the function that specifies it. */
  predicate Agrees(r: Result<Table>, err: Option<Error>, entries: Table) {
    if r.Ok? then err == None && entries == r.value else err == Some(r.error)
  }

  /** The FOLLOW table that GetFollowOfNonterminal's callers share. */
  class FollowTable {
    var entries: Table

    constructor()
      ensures entries == map[]
    {
      entries := map[];
    }

    /** The loop of ComputeFollow (src/ll1.go:261-272) over `order`; the
        first failure ends it. The ghost `step` names the loop's turns,
        FollowTurns, so that the proof refers to them without unfolding them. */
    method FollowAll(ps: ProductionsSet, first: Table, keys: seq<string>, order: seq<string>, fuel: nat, ghost step: (nat, Table) -> Result<Table>)
      returns (err: Option<Error>)
      requires IsKeyOrder(keys, ps) && entries == map[] && step == FollowTurns(ps, first, keys, order, fuel)
      modifies this
      ensures Agrees(RunTurns(step, 0, |order|, map[]), err, entries)
    {
      ghost var total := RunTurns(step, 0, |order|, map[]);
      err := None;
      var i := 0;
      while i < |order| && err.None?
        invariant 0 <= i <= |order|
        invariant err.None? ==> RunTurns(step, i, |order|, entries) == total
        invariant err.Some? ==> total == Err(err.value)
        decreases |order| - i
      {
        err := FollowTurn(ps, first, keys, order, i, fuel, step);
        i := i + 1;
      }
    }

    /** One turn of the loop of ComputeFollow (src/ll1.go:261-272) on the
        `i`-th entry of `order`: seed the first entry with `$`, compute the
        entry's FOLLOW into this table, and store it deduplicated. */
    method FollowTurn(ps: ProductionsSet, first: Table, keys: seq<string>, order: seq<string>, i: nat, fuel: nat, ghost step: (nat, Table) -> Result<Table>)
      returns (err: Option<Error>)
      requires i < |order| && IsKeyOrder(keys, ps) && step == FollowTurns(ps, first, keys, order, fuel)
      modifies this
      ensures Agrees(step(i, old(entries)), err, entries)
    {
      var nonterminal := order[i];
      if i == 0 {
        entries := entries[nonterminal := [Dollar]];
      }
      var foundFollow := GetFollowOfNonterminal(ps, first, keys, this, nonterminal, fuel);
      if foundFollow.Err? {
        return Some(foundFollow.error);
      }
      var union := UnionStringSet(foundFollow.value, foundFollow.value);
      entries := entries[nonterminal := union];
      return None;
    }

    /** The final pass of ComputeFollow (src/ll1.go:274-276): every entry is
        replaced by its deduplication, the keys visited in no particular order. */
    method DedupeAll()
      modifies this
      ensures entries == DedupeEntries(old(entries))
    {
      ghost var before := entries;
      var remaining := entries.Keys;
      while remaining != {}
        invariant remaining <= before.Keys
        invariant entries.Keys == before.Keys
        invariant forall k :: k in before && k !in remaining ==> entries[k] == Dedupe(before[k])
        invariant forall k :: k in remaining ==> entries[k] == before[k]
        decreases remaining
      {
        var k :| k in remaining;
        var union := UnionStringSet(entries[k], entries[k]);
        entries := entries[k := union];
        remaining := remaining - {k};
      }
      assert entries == DedupeEntries(before);
    }
  }

  /** GetFollowOfNonterminal (src/ll1.go:316-366): on success it returns the
      follow list of `nt` and leaves the shared table as FollowOf describes;
      on exhausted fuel it fails with OutOfFuel. */
  method GetFollowOfNonterminal(ps: ProductionsSet, first: Table, keys: seq<string>, current: FollowTable, nt: string, fuel: nat)
    returns (r: Result<seq<string>>)
    requires IsKeyOrder(keys, ps)
    modifies current
    ensures var s := FollowOf(ps, first, keys, old(current.entries), nt, fuel);
      (s.Ok? ==> r == Ok(s.value.follows) && current.entries == s.value.table)
      && (s.Err? ==> r == Err(s.error))
    decreases fuel, 0
  {
    if fuel == 0 {
      return Err(OutOfFuel);
    }
    var follows := Get(current.entries, nt);
    var occurrences := FindNonterminalOccurrences(ps, keys, nt);
    ghost var total := FollowKeys(ps, first, keys, occurrences, 0, FollowState(follows, current.entries), fuel - 1);
    var i := 0;
    while i < |keys|
      invariant 0 <= i <= |keys|
      invariant FollowKeys(ps, first, keys, occurrences, i, FollowState(follows, current.entries), fuel - 1) == total
    {
      var m := keys[i];
      if m in occurrences {
        var found := FollowFromEntries(ps, first, keys, current, m, occurrences[m], follows, fuel - 1);
        if found.Err? {
          return Err(found.error);
        }
        follows := found.value;
      }
      i := i + 1;
    }
    follows := UnionStringSet(follows, follows);
    current.entries := current.entries[nt := follows];
    return Ok(follows);
  }

  /** The inner loop of GetFollowOfNonterminal (src/ll1.go:323-361): the
      following symbols `productions` recorded under `m`, appended to
      `follows` branch by branch. */
  method FollowFromEntries(ps: ProductionsSet, first: Table, keys: seq<string>, current: FollowTable, m: string,
                           productions: seq<string>, follows0: seq<string>, fuel: nat)
    returns (r: Result<seq<string>>)
    requires IsKeyOrder(keys, ps)
    modifies current
    ensures var s := FollowEntries(ps, first, keys, m, productions, 0, FollowState(follows0, old(current.entries)), fuel);
      (s.Ok? ==> r == Ok(s.value.follows) && current.entries == s.value.table)
      && (s.Err? ==> r == Err(s.error))
    decreases fuel, 1
  {
    ghost var total := FollowEntries(ps, first, keys, m, productions, 0, FollowState(follows0, current.entries), fuel);
    var follows := follows0;
    var j := 0;
    while j < |productions|
      invariant 0 <= j <= |productions|
      invariant FollowEntries(ps, first, keys, m, productions, j, FollowState(follows, current.entries), fuel) == total
    {
      var production := productions[j];
      if IsTerminal(ps, production) && production != "" {
        follows := follows + [production];
      } else if production == "" {
        follows := follows + Get(current.entries, m);
      } else if production == Lambda {
        var rec := GetFollowOfNonterminal(ps, first, keys, current, m, fuel);
        if rec.Err? {
          return Err(rec.error);
        }
        follows := follows + rec.value;
      } else {
        var firstOfProduction := Get(first, production);
        var withoutLambda := RemoveElement(firstOfProduction, Lambda);
        follows := follows + withoutLambda;
        var _, containsLambda := ContainsAny(firstOfProduction, Lambda);
        if containsLambda {
          var rec := GetFollowOfNonterminal(ps, first, keys, current, m, fuel);
          if rec.Err? {
            return Err(rec.error);
          }
          follows := follows + rec.value;
        }
      }
      j := j + 1;
    }
    return Ok(follows);
  }

  // ---- Properties of FOLLOW ----------------------------------------------------

  /** FOLLOW only adds: the shared table keeps every entry and value it had,
      gains keys only among the nonterminals, and the returned list keeps the
      entry `nt` had. */
  lemma {:induction false} FollowOfGrows(ps: ProductionsSet, first: Table, keys: seq<string>, table: Table, nt: string, fuel: nat)
    requires FollowOf(ps, first, keys, table, nt, fuel).Ok?
    ensures var r := FollowOf(ps, first, keys, table, nt, fuel).value;
      (forall x :: x in Get(table, nt) ==> x in r.follows)
      && Grows(table, r.table)
      && r.table.Keys <= table.Keys + ps.Keys + {nt}
    decreases fuel, 0
  {
    var st := FollowState(Get(table, nt), table);
    FollowKeysGrows(ps, first, keys, Occurrences(ps, nt), 0, st, fuel - 1);
  }

  lemma {:induction false} FollowKeysGrows(ps: ProductionsSet, first: Table, keys: seq<string>, occ: Table, i: nat, st: FollowState, fuel: nat)
    requires occ.Keys <= ps.Keys && FollowKeys(ps, first, keys, occ, i, st, fuel).Ok?
    ensures var r := FollowKeys(ps, first, keys, occ, i, st, fuel).value;
      st.follows <= r.follows && Grows(st.table, r.table) && r.table.Keys <= st.table.Keys + ps.Keys
    decreases fuel, 2, |keys| - i
  {
    if i < |keys| {
      if keys[i] !in occ {
        FollowKeysGrows(ps, first, keys, occ, i + 1, st, fuel);
      } else {
        FollowEntriesGrows(ps, first, keys, keys[i], occ[keys[i]], 0, st, fuel);
        var r := FollowEntries(ps, first, keys, keys[i], occ[keys[i]], 0, st, fuel);
        FollowKeysGrows(ps, first, keys, occ, i + 1, r.value, fuel);
      }
    }
  }

  lemma {:induction false} FollowEntriesGrows(ps: ProductionsSet, first: Table, keys: seq<string>, m: string, fs: seq<string>, j: nat, st: FollowState, fuel: nat)
    requires FollowEntries(ps, first, keys, m, fs, j, st, fuel).Ok?
    ensures var r := FollowEntries(ps, first, keys, m, fs, j, st, fuel).value;
      st.follows <= r.follows && Grows(st.table, r.table) && r.table.Keys <= st.table.Keys + ps.Keys + {m}
    decreases fuel, 1, |fs| - j
  {
    if j < |fs| {
      var f := fs[j];
      if IsTerminal(ps, f) && f != "" {
        FollowEntriesGrows(ps, first, keys, m, fs, j + 1, FollowState(st.follows + [f], st.table), fuel);
      } else if f == "" {
        FollowEntriesGrows(ps, first, keys, m, fs, j + 1, FollowState(st.follows + Get(st.table, m), st.table), fuel);
      } else {
        var fp := Get(first, f);
        var follows := if f == Lambda then st.follows else st.follows + Without(fp, Lambda);
        if f == Lambda || Lambda in fp {
          var rec := FollowOf(ps, first, keys, st.table, m, fuel).value;
          FollowOfGrows(ps, first, keys, st.table, m, fuel);
          FollowEntriesGrows(ps, first, keys, m, fs, j + 1, FollowState(follows + rec.follows, rec.table), fuel);
        } else {
          FollowEntriesGrows(ps, first, keys, m, fs, j + 1, FollowState(follows, st.table), fuel);
        }
      }
    }
  }

  lemma PrefixKeeps(a: seq<string>, b: seq<string>, x: string)
    requires a <= b && x in a
    ensures x in b
  {
    var n :| 0 <= n < |a| && a[n] == x;
    assert b[n] == x;
  }

  /** What one following symbol `f`, recorded under `m`, adds to FOLLOW at the
      least, judged against the table `table` FOLLOW started from: a nonempty
      terminal itself (λ included, as λ is not a key); FIRST(f) without λ for
      a nonterminal; and, at the end of a production, for the nonterminal λ,
      or when FIRST(f) contains λ, the entry of the left side `m` in the table
      the call starts from, which may still be incomplete. */
  function Contribution(ps: ProductionsSet, first: Table, table: Table, m: string, f: string): seq<string> {
    if IsTerminal(ps, f) && f != "" then [f]
    else if f == "" || f == Lambda then Get(table, m)
    else Without(Get(first, f), Lambda) + (if Lambda in Get(first, f) then Get(table, m) else [])
  }

  lemma {:induction false} FollowEntriesCovers(ps: ProductionsSet, first: Table, keys: seq<string>, m: string, fs: seq<string>,
                                               j: nat, st: FollowState, fuel: nat, table: Table)
    requires Grows(table, st.table)
    requires FollowEntries(ps, first, keys, m, fs, j, st, fuel).Ok?
    ensures var r := FollowEntries(ps, first, keys, m, fs, j, st, fuel).value;
      forall k, x :: j <= k < |fs| && x in Contribution(ps, first, table, m, fs[k]) ==> x in r.follows
    decreases |fs| - j
  {
    if j < |fs| {
      var f := fs[j];
      var fp := Get(first, f);
      var next: FollowState;
      if IsTerminal(ps, f) && f != "" {
        next := FollowState(st.follows + [f], st.table);
      } else if f == "" {
        next := FollowState(st.follows + Get(st.table, m), st.table);
      } else {
        var follows := if f == Lambda then st.follows else st.follows + Without(fp, Lambda);
        if f == Lambda || Lambda in fp {
          var rec := FollowOf(ps, first, keys, st.table, m, fuel).value;
          FollowOfGrows(ps, first, keys, st.table, m, fuel);
          next := FollowState(follows + rec.follows, rec.table);
        } else {
          next := FollowState(follows, st.table);
        }
      }
      assert FollowEntries(ps, first, keys, m, fs, j, st, fuel) == FollowEntries(ps, first, keys, m, fs, j + 1, next, fuel);
      assert forall x :: x in Contribution(ps, first, table, m, f) ==> x in next.follows;
      FollowEntriesGrows(ps, first, keys, m, fs, j + 1, next, fuel);
      FollowEntriesCovers(ps, first, keys, m, fs, j + 1, next, fuel, table);
      var r := FollowEntries(ps, first, keys, m, fs, j + 1, next, fuel).value;
      forall k, x | j <= k < |fs| && x in Contribution(ps, first, table, m, fs[k]) ensures x in r.follows {
        if k == j {
          PrefixKeeps(next.follows, r.follows, x);
        }
      }
    }
  }

  lemma {:induction false} FollowKeysCovers(ps: ProductionsSet, first: Table, keys: seq<string>, occ: Table, i: nat,
                                            st: FollowState, fuel: nat, table: Table)
    requires Grows(table, st.table) && occ.Keys <= ps.Keys
    requires FollowKeys(ps, first, keys, occ, i, st, fuel).Ok?
    ensures var r := FollowKeys(ps, first, keys, occ, i, st, fuel).value;
      forall k, f, x | i <= k < |keys| && keys[k] in occ && f in occ[keys[k]]
        && x in Contribution(ps, first, table, keys[k], f) :: x in r.follows
    decreases |keys| - i
  {
    if i < |keys| {
      var next := st;
      if keys[i] in occ {
        var fs := occ[keys[i]];
        next := FollowEntries(ps, first, keys, keys[i], fs, 0, st, fuel).value;
        FollowEntriesCovers(ps, first, keys, keys[i], fs, 0, st, fuel, table);
        FollowEntriesGrows(ps, first, keys, keys[i], fs, 0, st, fuel);
        forall f, x | f in fs && x in Contribution(ps, first, table, keys[i], f) ensures x in next.follows {
          var k :| 0 <= k < |fs| && fs[k] == f;
        }
      }
      assert FollowKeys(ps, first, keys, occ, i, st, fuel) == FollowKeys(ps, first, keys, occ, i + 1, next, fuel);
      FollowKeysGrows(ps, first, keys, occ, i + 1, next, fuel);
      FollowKeysCovers(ps, first, keys, occ, i + 1, next, fuel, table);
      var r := FollowKeys(ps, first, keys, occ, i + 1, next, fuel).value;
      forall x | x in next.follows ensures x in r.follows {
        var n :| 0 <= n < |next.follows| && next.follows[n] == x;
        assert r.follows[n] == x;
      }
    }
  }

  /** Every occurrence of `nt` adds its contribution to FOLLOW(nt), and
      FOLLOW(nt) keeps the entry it had. */
  lemma FollowOfCovers(ps: ProductionsSet, first: Table, keys: seq<string>, table: Table, nt: string, fuel: nat)
    requires IsKeyOrder(keys, ps)
    requires FollowOf(ps, first, keys, table, nt, fuel).Ok?
    ensures var r := FollowOf(ps, first, keys, table, nt, fuel).value;
      (forall x :: x in Get(table, nt) ==> x in r.follows)
      && forall m, f, x | m in Occurrences(ps, nt) && f in Occurrences(ps, nt)[m]
        && x in Contribution(ps, first, table, m, f) :: x in r.follows
  {
    var st := FollowState(Get(table, nt), table);
    FollowKeysCovers(ps, first, keys, Occurrences(ps, nt), 0, st, fuel - 1, table);
    FollowOfGrows(ps, first, keys, table, nt, fuel);
    forall m | m in Occurrences(ps, nt) ensures m in keys {
    }
  }
  /** Every value of the table `t` is in `u`. */
  predicate Within(t: Table, u: set<string>) {
    forall k :: k in t ==> forall x :: x in t[k] ==> x in u
  }

  /** `u` holds every FIRST member other than λ and every nonempty terminal
      that follows an occurrence of any symbol. */
  ghost predicate ClosedUnder(ps: ProductionsSet, first: Table, u: set<string>) {
    (forall k :: k in first ==> forall x :: x in first[k] && x != Lambda ==> x in u)
    && forall v, m :: m in Occurrences(ps, v) ==>
      forall f :: f in Occurrences(ps, v)[m] && IsTerminal(ps, f) && f != "" ==> f in u
  }

  /** FOLLOW adds nothing else: when `u` holds the values of the table it
      starts from, the FIRST members other than λ and the terminals that
      follow occurrences, the list it returns and the table it leaves hold
      values of `u` only. */
  lemma {:induction false} FollowOfWithin(ps: ProductionsSet, first: Table, keys: seq<string>, table: Table, nt: string, fuel: nat, u: set<string>)
    requires ClosedUnder(ps, first, u) && Within(table, u)
    requires FollowOf(ps, first, keys, table, nt, fuel).Ok?
    ensures var r := FollowOf(ps, first, keys, table, nt, fuel).value;
      (forall x :: x in r.follows ==> x in u) && Within(r.table, u)
    decreases fuel, 0
  {
    var occ := Occurrences(ps, nt);
    assert forall m :: m in occ ==> forall f :: f in occ[m] && IsTerminal(ps, f) && f != "" ==> f in u;
    FollowKeysWithin(ps, first, keys, occ, 0, FollowState(Get(table, nt), table), fuel - 1, u);
  }

  lemma {:induction false} FollowKeysWithin(ps: ProductionsSet, first: Table, keys: seq<string>, occ: Table, i: nat, st: FollowState, fuel: nat, u: set<string>)
    requires ClosedUnder(ps, first, u)
    requires forall m :: m in occ ==> forall f :: f in occ[m] && IsTerminal(ps, f) && f != "" ==> f in u
    requires (forall x :: x in st.follows ==> x in u) && Within(st.table, u)
    requires FollowKeys(ps, first, keys, occ, i, st, fuel).Ok?
    ensures var r := FollowKeys(ps, first, keys, occ, i, st, fuel).value;
      (forall x :: x in r.follows ==> x in u) && Within(r.table, u)
    decreases fuel, 2, |keys| - i
  {
    if i < |keys| {
      if keys[i] !in occ {
        FollowKeysWithin(ps, first, keys, occ, i + 1, st, fuel, u);
      } else {
        FollowEntriesWithin(ps, first, keys, keys[i], occ[keys[i]], 0, st, fuel, u);
        var r := FollowEntries(ps, first, keys, keys[i], occ[keys[i]], 0, st, fuel);
        FollowKeysWithin(ps, first, keys, occ, i + 1, r.value, fuel, u);
      }
    }
  }

  lemma {:induction false} FollowEntriesWithin(ps: ProductionsSet, first: Table, keys: seq<string>, m: string, fs: seq<string>, j: nat, st: FollowState, fuel: nat, u: set<string>)
    requires ClosedUnder(ps, first, u)
    requires forall f :: f in fs && IsTerminal(ps, f) && f != "" ==> f in u
    requires (forall x :: x in st.follows ==> x in u) && Within(st.table, u)
    requires FollowEntries(ps, first, keys, m, fs, j, st, fuel).Ok?
    ensures var r := FollowEntries(ps, first, keys, m, fs, j, st, fuel).value;
      (forall x :: x in r.follows ==> x in u) && Within(r.table, u)
    decreases fuel, 1, |fs| - j
  {
    if j < |fs| {
      var f := fs[j];
      if IsTerminal(ps, f) && f != "" {
        FollowEntriesWithin(ps, first, keys, m, fs, j + 1, FollowState(st.follows + [f], st.table), fuel, u);
      } else if f == "" {
        FollowEntriesWithin(ps, first, keys, m, fs, j + 1, FollowState(st.follows + Get(st.table, m), st.table), fuel, u);
      } else {
        var fp := Get(first, f);
        var follows := if f == Lambda then st.follows else st.follows + Without(fp, Lambda);
        if f == Lambda || Lambda in fp {
          var rec := FollowOf(ps, first, keys, st.table, m, fuel).value;
          FollowOfWithin(ps, first, keys, st.table, m, fuel, u);
          FollowEntriesWithin(ps, first, keys, m, fs, j + 1, FollowState(follows + rec.follows, rec.table), fuel, u);
        } else {
          FollowEntriesWithin(ps, first, keys, m, fs, j + 1, FollowState(follows, st.table), fuel, u);
        }
      }
    }
  }


  // ---- ComputeFollow -----------------------------------------------------------

  /** The loop of ComputeFollow (src/ll1.go:261-272) from turn `i` on, with
      the shared table at `t`: each turn `step(i, t)` either fails, which
      ends the loop with that failure, or gives the table for the next turn. */
  function RunTurns(step: (nat, Table) -> Result<Table>, i: nat, n: nat, t: Table): Result<Table>
    decreases n - i
  {
    if i >= n then Ok(t)
    else
      var r := step(i, t);
      if r.Err? then r else RunTurns(step, i + 1, n, r.value)
  }

  /** One turn of that loop on the `i`-th entry of `order`: the first entry
      is seeded with `$`, then the entry gets its FOLLOW, deduplicated. */
  function FollowStep(ps: ProductionsSet, first: Table, keys: seq<string>, order: seq<string>, i: nat, t: Table, fuel: nat): (r: Result<Table>)
    requires i < |order|
    ensures r.Err? ==> r.error == OutOfFuel
  {
    var nt := order[i];
    var seeded := if i == 0 then t[nt := [Dollar]] else t;
    var s := FollowOf(ps, first, keys, seeded, nt, fuel);
    if s.Err? then Err(s.error) else Ok(s.value.table[nt := Dedupe(s.value.follows)])
  }

  /** The turns of ComputeFollow's loop over `order`. */
  function FollowTurns(ps: ProductionsSet, first: Table, keys: seq<string>, order: seq<string>, fuel: nat): (nat, Table) -> Result<Table> {
    (i: nat, t: Table) => if i < |order| then FollowStep(ps, first, keys, order, i, t, fuel) else Ok(t)
  }

  /** One turn gives its entry a FOLLOW entry (holding `$` on the first
      turn), keeps every other entry's values, and adds only nonterminals. */
  lemma FollowStepGrows(ps: ProductionsSet, first: Table, keys: seq<string>, order: seq<string>, i: nat, t: Table, fuel: nat)
    requires i < |order| && FollowStep(ps, first, keys, order, i, t, fuel).Ok?
    ensures StepKeeps(ps, order, i, t, FollowStep(ps, first, keys, order, i, t, fuel).value)
  {
    var nt := order[i];
    var seeded := if i == 0 then t[nt := [Dollar]] else t;
    FollowOfGrows(ps, first, keys, seeded, nt, fuel);
  }

  /** What one successful turn on the `i`-th entry does to the table `t`,
      giving `r`. */
  predicate StepKeeps(ps: ProductionsSet, order: seq<string>, i: nat, t: Table, r: Table)
    requires i < |order|
  {
    order[i] in r && (i == 0 ==> Dollar in r[order[i]])
    && (i > 0 ==> Grows(t, r))
    && (forall k :: k in t ==> k in r)
    && r.Keys <= t.Keys + ps.Keys + {order[i]}
  }

  /** What every turn of `step` does: it fails only for want of fuel, and on
      success it keeps StepKeeps. */
  ghost predicate TurnsKeep(step: (nat, Table) -> Result<Table>, ps: ProductionsSet, order: seq<string>) {
    forall i: nat, t: Table :: i < |order| ==>
      (step(i, t).Err? ==> step(i, t).error == OutOfFuel)
      && (step(i, t).Ok? ==> StepKeeps(ps, order, i, t, step(i, t).value))
  }

  /** The turns of ComputeFollow keep TurnsKeep. */
  lemma FollowTurnsKeep(ps: ProductionsSet, first: Table, keys: seq<string>, order: seq<string>, fuel: nat)
    ensures TurnsKeep(FollowTurns(ps, first, keys, order, fuel), ps, order)
  {
    var step := FollowTurns(ps, first, keys, order, fuel);
    forall i: nat, t: Table | i < |order| && step(i, t).Ok?
      ensures StepKeeps(ps, order, i, t, step(i, t).value)
    {
      FollowStepGrows(ps, first, keys, order, i, t, fuel);
    }
  }

  /** After the first `i` turns: every one of their entries has a FOLLOW
      entry, the first holds `$`, and the only other keys are nonterminals. */
  predicate TurnsDone(ps: ProductionsSet, order: seq<string>, i: nat, t: Table)
    requires i <= |order|
  {
    (forall k :: 0 <= k < i ==> order[k] in t)
    && (i >= 1 ==> order[0] in t && Dollar in t[order[0]])
    && (forall k :: k in t ==> k in order[..i] || k in ps)
  }

  /** A successful turn extends TurnsDone by one entry. */
  lemma TurnsDoneStep(step: (nat, Table) -> Result<Table>, ps: ProductionsSet, order: seq<string>, i: nat, t: Table)
    requires i < |order| && TurnsKeep(step, ps, order) && TurnsDone(ps, order, i, t) && step(i, t).Ok?
    ensures TurnsDone(ps, order, i + 1, step(i, t).value)
  {
    var r := step(i, t).value;
    assert StepKeeps(ps, order, i, t, r);
    assert order[..i + 1] == order[..i] + [order[i]];
    forall k | 0 <= k < i + 1 ensures order[k] in r {
      if k < i {
        assert order[k] in t;
      }
    }
  }

  /** Running the remaining turns keeps TurnsDone up to the end of `order`,
      and fails only for want of fuel. */
  lemma {:induction false} RunTurnsDone(step: (nat, Table) -> Result<Table>, ps: ProductionsSet, order: seq<string>, i: nat, t: Table)
    requires i <= |order| && TurnsKeep(step, ps, order) && TurnsDone(ps, order, i, t)
    ensures var r := RunTurns(step, i, |order|, t);
      (r.Err? ==> r.error == OutOfFuel) && (r.Ok? ==> TurnsDone(ps, order, |order|, r.value))
    decreases |order| - i
  {
    if i < |order| && step(i, t).Ok? {
      var r := step(i, t).value;
      TurnsDoneStep(step, ps, order, i, t);
      RunTurnsDone(step, ps, order, i + 1, r);
      assert RunTurns(step, i, |order|, t) == RunTurns(step, i + 1, |order|, r);
    }
  }

  /** The final pass of ComputeFollow (src/ll1.go:274-276): every entry deduplicated. */
  function DedupeEntries(t: Table): (r: Table)
    ensures r.Keys == t.Keys
    ensures forall k :: k in r ==> NoDuplicates(r[k]) && forall x :: x in r[k] <==> x in t[k]
  {
    map k | k in t :: Dedupe(t[k])
  }

  /** ComputeFollow (src/ll1.go:258-279) as a function of the grammar. */
  function ComputedFollow(ps: ProductionsSet, first: Table, keys: seq<string>, order: seq<string>, fuel: nat): Result<Table> {
    var t := RunTurns(FollowTurns(ps, first, keys, order, fuel), 0, |order|, map[]);
    if t.Err? then t else Ok(DedupeEntries(t.value))
  }

  /** ComputeFollow fails only by exhausting the fuel; on success every
      `order` entry has a duplicate-free entry, the first one holds `$`, and
      every other key is a nonterminal. */
  lemma FollowTableProperties(ps: ProductionsSet, first: Table, keys: seq<string>, order: seq<string>, fuel: nat)
    ensures ComputedFollow(ps, first, keys, order, fuel).Err? ==> ComputedFollow(ps, first, keys, order, fuel).error == OutOfFuel
    ensures ComputedFollow(ps, first, keys, order, fuel).Ok? ==>
      var t := ComputedFollow(ps, first, keys, order, fuel).value;
      (forall k :: k in order ==> k in t)
      && (order != [] ==> Dollar in t[order[0]])
      && (forall k :: k in t ==> NoDuplicates(t[k]))
      && (forall k :: k in t ==> k in order || k in ps)
  {
    var step := FollowTurns(ps, first, keys, order, fuel);
    FollowTurnsKeep(ps, first, keys, order, fuel);
    RunTurnsDone(step, ps, order, 0, map[]);
    assert order[..|order|] == order;
  }

  // ---- Fuel is only a bound -------------------------------------------------

  /** A FOLLOW computation that succeeds within `fuel` gives the same list
      and the same table with any larger bound. */
  lemma {:induction false} FollowOfFuel(ps: ProductionsSet, first: Table, keys: seq<string>, table: Table, nt: string, fuel: nat, more: nat)
    requires fuel <= more && FollowOf(ps, first, keys, table, nt, fuel).Ok?
    ensures FollowOf(ps, first, keys, table, nt, more) == FollowOf(ps, first, keys, table, nt, fuel)
    decreases fuel, 0
  {
    FollowKeysFuel(ps, first, keys, Occurrences(ps, nt), 0, FollowState(Get(table, nt), table), fuel - 1, more - 1);
  }

  lemma {:induction false} FollowKeysFuel(ps: ProductionsSet, first: Table, keys: seq<string>, occ: Table, i: nat, st: FollowState, fuel: nat, more: nat)
    requires fuel <= more && FollowKeys(ps, first, keys, occ, i, st, fuel).Ok?
    ensures FollowKeys(ps, first, keys, occ, i, st, more) == FollowKeys(ps, first, keys, occ, i, st, fuel)
    decreases fuel, 2, |keys| - i
  {
    if i < |keys| {
      if keys[i] !in occ {
        FollowKeysFuel(ps, first, keys, occ, i + 1, st, fuel, more);
      } else {
        var r := FollowEntries(ps, first, keys, keys[i], occ[keys[i]], 0, st, fuel);
        FollowEntriesFuel(ps, first, keys, keys[i], occ[keys[i]], 0, st, fuel, more);
        FollowKeysFuel(ps, first, keys, occ, i + 1, r.value, fuel, more);
      }
    }
  }

  lemma {:induction false} FollowEntriesFuel(ps: ProductionsSet, first: Table, keys: seq<string>, m: string, fs: seq<string>, j: nat, st: FollowState, fuel: nat, more: nat)
    requires fuel <= more && FollowEntries(ps, first, keys, m, fs, j, st, fuel).Ok?
    ensures FollowEntries(ps, first, keys, m, fs, j, st, more) == FollowEntries(ps, first, keys, m, fs, j, st, fuel)
    decreases fuel, 1, |fs| - j
  {
    if j < |fs| {
      var f := fs[j];
      if IsTerminal(ps, f) && f != "" {
        FollowEntriesFuel(ps, first, keys, m, fs, j + 1, FollowState(st.follows + [f], st.table), fuel, more);
      } else if f == "" {
        FollowEntriesFuel(ps, first, keys, m, fs, j + 1, FollowState(st.follows + Get(st.table, m), st.table), fuel, more);
      } else if f == Lambda {
        var rec := FollowOf(ps, first, keys, st.table, m, fuel);
        FollowOfFuel(ps, first, keys, st.table, m, fuel, more);
        FollowEntriesFuel(ps, first, keys, m, fs, j + 1, FollowState(st.follows + rec.value.follows, rec.value.table), fuel, more);
      } else {
        var fp := Get(first, f);
        var follows := st.follows + Without(fp, Lambda);
        if Lambda in fp {
          var rec := FollowOf(ps, first, keys, st.table, m, fuel);
          FollowOfFuel(ps, first, keys, st.table, m, fuel, more);
          FollowEntriesFuel(ps, first, keys, m, fs, j + 1, FollowState(follows + rec.value.follows, rec.value.table), fuel, more);
        } else {
          FollowEntriesFuel(ps, first, keys, m, fs, j + 1, FollowState(follows, st.table), fuel, more);
        }
      }
    }
  }

  lemma FollowStepFuel(ps: ProductionsSet, first: Table, keys: seq<string>, order: seq<string>, i: nat, t: Table, fuel: nat, more: nat)
    requires i < |order| && fuel <= more && FollowStep(ps, first, keys, order, i, t, fuel).Ok?
    ensures FollowStep(ps, first, keys, order, i, t, more) == FollowStep(ps, first, keys, order, i, t, fuel)
  {
    var seeded := if i == 0 then t[order[i] := [Dollar]] else t;
    FollowOfFuel(ps, first, keys, seeded, order[i], fuel, more);
  }

  /** Every turn of `s1` below `n` that succeeds is also a turn of `s2`. */
  ghost predicate TurnsAgree(s1: (nat, Table) -> Result<Table>, s2: (nat, Table) -> Result<Table>, n: nat) {
    forall i: nat, t: Table :: i < n && s1(i, t).Ok? ==> s2(i, t) == s1(i, t)
  }

  lemma {:induction false} RunTurnsAgree(s1: (nat, Table) -> Result<Table>, s2: (nat, Table) -> Result<Table>, i: nat, n: nat, t: Table)
    requires TurnsAgree(s1, s2, n) && RunTurns(s1, i, n, t).Ok?
    ensures RunTurns(s2, i, n, t) == RunTurns(s1, i, n, t)
    decreases n - i
  {
    if i < n {
      RunTurnsAgree(s1, s2, i + 1, n, s1(i, t).value);
    }
  }

  /** A FOLLOW table that ComputeFollow builds within `fuel` is the table it
      builds with any larger bound. */
  lemma ComputedFollowFuel(ps: ProductionsSet, first: Table, keys: seq<string>, order: seq<string>, fuel: nat, more: nat)
    requires fuel <= more && ComputedFollow(ps, first, keys, order, fuel).Ok?
    ensures ComputedFollow(ps, first, keys, order, more) == ComputedFollow(ps, first, keys, order, fuel)
  {
    var s1 := FollowTurns(ps, first, keys, order, fuel);
    var s2 := FollowTurns(ps, first, keys, order, more);
    forall i: nat, t: Table | i < |order| && s1(i, t).Ok? ensures s2(i, t) == s1(i, t) {
      FollowStepFuel(ps, first, keys, order, i, t, fuel, more);
    }
    RunTurnsAgree(s1, s2, 0, |order|, map[]);
  }
}
