/** The vocabulary shared by every stage of the grammar engine (src/ll1.go). */
module Symbols {

  /** The empty-production marker (src/ll1.go:68). */
  const Lambda: string := "λ"

  /** The end-of-input marker (src/ll1.go:69). */
  const Dollar: string := "$"

  /** A nonterminal's productions, each a space-separated string of symbols. */
  type ProductionsSet = map<string, seq<string>>

  /** A set-valued table keyed by nonterminal (FIRST, FOLLOW, prediction). */
  type Table = map<string, seq<string>>

  /** `ErrProductionsSetNotFound` (src/ll1.go:74) and the bound on recursion
      depth that the model adds where Go recurses without one. */
  datatype Error = ProductionsSetNotFound | OutOfFuel

  datatype Result<T> = Ok(value: T) | Err(error: Error)

  datatype Option<T> = None | Some(value: T)

  /** A Go map lookup: a missing key reads as the nil (empty) slice. */
  function Get(m: map<string, seq<string>>, k: string): seq<string> {
    if k in m then m[k] else []
  }

  /** IsTerminal (src/ll1.go:193-197): every symbol that is not a key. */
  predicate IsTerminal(ps: ProductionsSet, v: string) {
    v !in ps
  }

  /** `keys` lists every key of `m` exactly once, in some order: the order in
      which a Go `range` over `m` happens to visit them. */
  ghost predicate IsKeyOrder(keys: seq<string>, m: map<string, seq<string>>) {
    (forall i, j :: 0 <= i < j < |keys| ==> keys[i] != keys[j])
    && (forall k :: k in keys <==> k in m)
  }
}
