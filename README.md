# ll1-processor, modelled in Dafny

ll1-processor takes a context-free grammar and checks whether it can be
parsed LL(1). A grammar is an `order` of nonterminals and a productions set:
a map from each nonterminal to its productions. A production is a string of
space-separated words, and `λ` stands for the empty production. The Go
service removes immediate left recursion, then computes FIRST and FOLLOW for
every nonterminal, and then the prediction table. The React dashboard turns
the user's text `X -> a | b`, one rule per line, into a productions set and an
order.

The model has eight modules, one file each:

- `Text` (text.dfy): the string functions the code calls.
  - Go's `strings.TrimSpace`, `strings.Split`, `strings.SplitN(_, _, 2)`, `strings.Index` and `len` (a byte count).
  - JavaScript's `trim` and `split` on a literal separator.
- `StringSets` (stringsets.dfy): the list helpers `UnionStringSet`, `RemoveElement`, `ContainsAny` and `ContainsWord`.
- `Symbols` (symbols.dfy): `λ`, `$`, tables, errors, and `IsTerminal`.
- `First` (first.dfy): `GetFirstOfNonterminal` and `ComputeFirst`.
- `Follow` (follow.dfy): `GetFollowingFromProduction`, `FindNonterminalOccurrences`, `GetFollowOfNonterminal` and the FOLLOW loops of `ComputeFollow`. The shared FOLLOW table is the class `FollowTable`.
- `Elimination` (elimination.dfy): `AddProductionGroup` and `RemoveLeftRecursion` as functions on a grammar value, with their lemmas.
- `Pipeline` (pipeline.dfy): the class `Grammar`, whose methods update `order` and `productions` in place, as the Go methods on `*Grammar` do. Also `ComputePredictionSet` and `ValidateLL1`.
- `Dashboard` (dashboard.dfy): `formatGrammar` and `getNonTerminalOrder`. This includes the split by the regular expression `/\s*->\s*|\s*\|\s*/`, following the `String.prototype.split` algorithm of ECMAScript.

Most methods that loop are proved equal to a specification function, and
lemmas then state what that function guarantees. The lookups
`GetIndexOfNonTerminal`, `GetIndexOfProduction`, `HasLeftRecursion` and
`ContainsAny` are instead proved directly against the property they promise
(the first index, or -1; some production has the prefix). Go ranges over maps in an
unspecified order. The model turns that order into a parameter, `keys`: any
duplicate-free listing of the map's keys (`Symbols.IsKeyOrder`). Each FIRST
and FOLLOW computation recurses, and each takes a `fuel` bound. When the fuel
runs out, it fails with `OutOfFuel`.

The code is modelled as written, in two places in particular:

- `UnionStringSet` (src/ll1.go:395-414) makes `unionSet` with room for both lists (line 397). Each new value is written into that spare room, but the grown slice is assigned to `set` (`set = append(unionSet, v)`, line 408), so the length of `unionSet`, which it returns, never moves. So it returns its first argument without duplicates and ignores the second. Every call in the program passes the same list twice, except the one in `AddProductionGroup`. So re-adding a group keeps the old productions and drops the new ones (`Elimination.AddGroupAgain`).
- `GetIndexOfProduction` looks up the list filed under `production`, not under `nonterminal`.

## Model

| member | source | states |
|---|---|---|
| Text.Trim | src/ll1.go:99 | the result is no longer than the input and neither starts nor ends with white space |
| Text.TrimSlice | src/ll1.go:99 | the result is one contiguous slice of the input, and every character cut from either end is white space |
| Text.TrimEmpty | src/ll1.go:138 | trimming gives the empty string exactly when every character is white space |
| Text.Split | src/ll1.go:228 | there is always at least one piece, the first piece is a prefix of the input, and no piece holds the separator |
| Text.JoinSplit | src/ll1.go:228 | joining the pieces of a split with the separator gives back the input |
| Text.SplitJoin | src/ll1.go:228 | splitting a join of pieces that do not contain the separator gives back the pieces |
| Text.Index | src/ll1.go:282 | -1 exactly when the pattern never occurs; otherwise the first position where it occurs |
| Text.SplitN2 | src/ll1.go:282 | at most two pieces; one piece is the input itself; none only for an empty input and an empty separator; two exactly when a nonempty separator occurs (for the empty separator, when the input has at least two characters); then the input is piece, separator, piece, split at the first occurrence of a nonempty separator, and after the first character for the empty one |
| Text.AtMostOneByte | src/ll1.go:284 | the UTF-8 length is at most 1 exactly when the string is empty or a single ASCII character |
| StringSets.Dedupe | src/ll1.go:395-404 | the result has no duplicates, has the same members as the input, and is no longer |
| StringSets.DedupeOrder | src/ll1.go:399-404 | the members keep the order of their first appearance in the input |
| StringSets.DedupeDistinct | src/ll1.go:399-404 | a duplicate-free list comes back unchanged |
| StringSets.UnionStringSet | src/ll1.go:395-414 | the result is the first list without duplicates, holding exactly its members; the values to add are lost at line 408 |
| StringSets.RemoveElement | src/ll1.go:369-383 | the result has no duplicates and holds exactly the members of the list other than `v` |
| StringSets.WithoutIsFilteredDedupe | src/ll1.go:369-383 | removing `v` is the same as deduplicating and then filtering out `v` |
| StringSets.ContainsAny | src/ll1.go:385-393 | found exactly when `v` is in the list; then the index is its first position; otherwise -1 |
| StringSets.ContainsWord | src/ll1.go:416-426 | true exactly when the word is one of the production's space-separated words |
| StringSets.WordOccurs | src/ll1.go:416-426 | a word of a production occurs in it as a substring |
| First.FirstOf | src/ll1.go:214-256 | fails with ProductionsSetNotFound exactly when the nonterminal is not a key (a key with an empty list gives an empty FIRST); a FIRST list has no duplicates |
| First.GetFirstOfNonterminal | src/ll1.go:214-256 | the method returns FirstOf |
| First.FirstOfWords | src/ll1.go:228-250 | the loop over a production's words returns WordsFirst |
| First.FirstOfFuel | src/ll1.go:236 | once the recursion fits in the fuel, more fuel gives the same result |
| First.FirstOfHas | src/ll1.go:222-251 | everything a production contributes is in the nonterminal's FIRST |
| First.FirstOfExactly | src/ll1.go:214-256 | on success every production's contribution is computed, and a symbol is in FIRST exactly when some production contributes it |
| First.FirstOfLambdaProduction | src/ll1.go:223-225 | a λ production contributes exactly `[λ]`, so λ is in FIRST |
| First.FirstOfTerminalLead | src/ll1.go:231-233 | a production that starts with a terminal contributes exactly that terminal: the scan stops there |
| First.FirstOfNonterminalLead | src/ll1.go:236-249 | a production that starts with a nonterminal B puts FIRST(B) minus λ in FIRST; when λ is not in FIRST(B) or B is the only word, the contribution is exactly FIRST(B); otherwise it is FIRST(B) minus λ followed by the FIRST of the rest of the words |
| First.FirstOfSound | src/ll1.go:214-256 | every member of a FIRST list is λ or a terminal that occurs as a word in some production |
| First.FirstTableErrors | src/ll1.go:199-212 | ComputeFirst fails when some order entry is not a key, reports ProductionsSetNotFound only then, and succeeds when every entry's FIRST does |
| First.FirstTableFuel | src/ll1.go:199-212 | once ComputeFirst succeeds within the fuel, more fuel gives the same table |
| First.FirstTableOk | src/ll1.go:199-212 | on success the FIRST table has exactly the order entries as keys, each holding its FirstOf |
| Follow.GetFollowingFromProduction | src/ll1.go:281-289 | λ when the production is at most one byte long; otherwise a word without spaces |
| Follow.FollowingMeaning | src/ll1.go:281-289 | the following symbol is the first word of the trimmed text after the first occurrence of a nonempty value, or after the first character for the empty value; it ends at a space or at the end of that text, and it is empty exactly when only white space follows |
| Follow.WordCanSplit | src/ll1.go:296-304 | a production that has the value as a word contains it, so the split has a second piece |
| Follow.FindNonterminalOccurrences | src/ll1.go:291-309 | the method returns the occurrence map Occurrences |
| Follow.ScanProductions | src/ll1.go:295-305 | one nonterminal's productions add the list of following symbols under its key, and only when the list is not empty |
| Follow.OccurrencesKeys | src/ll1.go:291-309 | a nonterminal is a key of the occurrence map exactly when one of its productions has the value as a word |
| Follow.FollowingsInMeaning | src/ll1.go:295-305 | the recorded list has one entry per production mentioning the value, in order, each that production's following symbol |
| Follow.OccurrencesAmongAll | src/ll1.go:294 | ranging over any listing of the keys gives the same occurrence map |
| Follow.FollowOf | src/ll1.go:316-366 | fails only with OutOfFuel; on success the list has no duplicates and is stored under the nonterminal in the table left behind |
| Follow.GetFollowOfNonterminal | src/ll1.go:316-366 | the method returns FollowOf's list and leaves FollowOf's table in the shared FOLLOW table |
| Follow.FollowFromEntries | src/ll1.go:323-360 | the inner loop returns FollowEntries |
| Follow.FollowOfGrows | src/ll1.go:316-366 | the call removes no entry and no member of an entry from the table |
| Follow.FollowOfFuel | src/ll1.go:316-366 | once GetFollowOfNonterminal succeeds within the fuel, more fuel gives the same list and the same table (together with FollowKeysFuel and FollowEntriesFuel for its two loops) |
| Follow.FollowKeysFuel | src/ll1.go:322-361 | the same for the loop over the occurrence map |
| Follow.FollowEntriesFuel | src/ll1.go:323-360 | the same for the loop over one nonterminal's following symbols |
| Follow.ComputedFollowFuel | src/ll1.go:258-279 | once ComputeFollow succeeds within the fuel, more fuel gives the same table |
| Follow.FollowOfCovers | src/ll1.go:322-360 | the result holds the old entry of the nonterminal and everything each occurrence contributes: a terminal that follows; when nothing follows, the left side's entry in the table at the start of the call (possibly still incomplete); and FIRST minus λ of a following nonterminal |
| Follow.FollowOfWithin | src/ll1.go:316-366 | FOLLOW adds nothing else: when a set holds the values of the starting table, every FIRST member other than λ and every terminal that follows an occurrence, the returned list and the table left behind hold members of that set only (with FollowKeysWithin and FollowEntriesWithin for the two loops) |
| Follow.FollowTable.constructor | src/ll1.go:259 | the FOLLOW table starts empty |
| Follow.FollowTable.FollowAll | src/ll1.go:261-272 | the loop over the order agrees with RunTurns: the same error, or the same table |
| Follow.FollowTable.FollowTurn | src/ll1.go:262-271 | one turn: `$` for the first entry, then the entry's FOLLOW stored deduplicated |
| Follow.FollowTable.DedupeAll | src/ll1.go:274-276 | every entry is deduplicated and no key is added or removed |
| Follow.DedupeEntries | src/ll1.go:274-276 | same keys; each entry is duplicate-free and holds the same members |
| Follow.FollowTableProperties | src/ll1.go:258-279 | ComputeFollow fails only with OutOfFuel; on success every order entry has a duplicate-free entry, the first holds `$`, and every key is an order entry or a nonterminal |
| Elimination.TrimPrefix | src/ll1.go:142 | with the prefix present, prefix plus result is the input; otherwise the input is unchanged |
| Elimination.AddGroupEffect | src/ll1.go:98-110 | a known trimmed name keeps its place in the order and its list is deduplicated; a new name is appended to the order and gets the new list |
| Elimination.AddGroupAgain | src/ll1.go:98-110 | once the first list is duplicate-free, adding a group again under the same name changes nothing, whatever the second list holds |
| Elimination.FirstAlpha | src/ll1.go:137-143 | the first alpha production is a production that starts with the nonterminal |
| Elimination.AlphaRewriteNotLambda | src/ll1.go:142 | a rewritten alpha production is never λ |
| Elimination.RewriteBetas | src/ll1.go:130-144 | the beta list the inner loop builds is Betas: every non-λ production that does not start with the nonterminal, trimmed, with the primed name appended |
| Elimination.RewriteNoAlpha | src/ll1.go:130-144 | without an alpha production the inner loop leaves the grammar as it was |
| Elimination.RewriteOldPrime | src/ll1.go:143 | when the primed name already exists, the inner loop only deduplicates its list |
| Elimination.RewriteNewPrime | src/ll1.go:143 | when it does not, the primed name is appended to the order with the first alpha production rewritten, and λ |
| Elimination.PrimeNamePlain | src/ll1.go:131 | for a name that does not start with white space, the trimmed primed name is the name followed by a quote |
| Elimination.PrimeDiffers | src/ll1.go:131 | the primed name always differs from the name |
| Elimination.StepEffect | src/ll1.go:123-147 | a nonterminal that is not left recursive is skipped; a recursive one gets its Betas; no other entry changes; the order only grows by the primed name |
| Elimination.StepPrime | src/ll1.go:130-146 | what a recursive nonterminal's turn leaves under the primed name |
| Elimination.EliminateGrows | src/ll1.go:122-150 | removal never shortens the order or drops a key |
| Elimination.EliminateUntouched | src/ll1.go:122-150 | an entry that is not left recursive and is not a primed name is left as it was |
| Elimination.EliminateRecursive | src/ll1.go:122-150 | a left-recursive nonterminal that the duplicate-free key listing visits, and that is no visited key's primed name, ends up holding the Betas of its original productions |
| Elimination.BetasNotRecursive | src/ll1.go:137-138 | for a nonterminal without a space in its name, when no beta is empty or starts with white space, the new productions are no longer left recursive |
| Elimination.PrimedGroupStaysRecursive | src/ll1.go:142-143 | `A -> A \| b` leaves the new group `A' -> A' \| λ`, which is still left recursive |
| Elimination.EmptyBetaStaysRecursive | src/ll1.go:138 | an empty production "" makes the beta `A'`, which still starts with `A`, so `A -> A b \| ""` stays left recursive |
| Pipeline.Prediction | src/ll1.go:175-191 | keys are exactly the order entries; an entry whose FIRST holds λ gets its FOLLOW, any other its FIRST |
| Pipeline.Grammar.constructor | src/ll1.go:12-15 | the grammar holds the given order and productions |
| Pipeline.Grammar.GetIndexOfNonTerminal | src/ll1.go:78-86 | -1 exactly when the name is not in the order; otherwise its first position |
| Pipeline.Grammar.GetIndexOfProduction | src/ll1.go:88-96 | the first position of `production` in the list filed under `production`, or -1 |
| Pipeline.Grammar.AddProductionGroup | src/ll1.go:98-110 | the new grammar is AddGroup of the old one |
| Pipeline.Grammar.HasLeftRecursion | src/ll1.go:112-120 | true exactly when some production starts with the prefix |
| Pipeline.Grammar.RemoveLeftRecursion | src/ll1.go:122-150 | never fails; the new grammar is Eliminate of the old one over the key listing |
| Pipeline.Grammar.RewriteGroup | src/ll1.go:128-144 | the inner loop leaves the grammar and the beta list that Rewrite gives |
| Pipeline.Grammar.ComputeFirst | src/ll1.go:199-212 | the method returns FirstTable |
| Pipeline.Grammar.ComputeFollow | src/ll1.go:258-279 | the method returns ComputedFollow |
| Pipeline.Grammar.ComputePredictionSet | src/ll1.go:175-191 | the method returns Prediction |
| Pipeline.Grammar.ValidateLL1 | src/ll1.go:152-173 | the method returns Validated |
| Pipeline.ValidatedFuel | src/ll1.go:152-173 | once ValidateLL1 succeeds within the fuel, more fuel gives the same FIRST, FOLLOW and prediction tables |
| Pipeline.ValidatedProperties | src/ll1.go:152-173 | fails when an order entry is not a key, and with ProductionsSetNotFound only then; on success FIRST, FOLLOW and the prediction table meet the properties above |
| Dashboard.SkipSpace | dashboard/src/App.js:14 | `\s*`: the position after the white space that starts at `q` |
| Dashboard.MatchAt | dashboard/src/App.js:14 | a separator match ends after `q`, within the string and before white space |
| Dashboard.MatchIsSeparator | dashboard/src/App.js:14 | a match found at `q` spans white space, `->` or `\|`, white space |
| Dashboard.MatchAtMeaning | dashboard/src/App.js:14 | a match is found at `q` exactly when some stretch of the text from `q` on is white space, `->` or `\|`, white space |
| Dashboard.SplitFromJoins | dashboard/src/App.js:14 | the pieces of the split, with the separator matches between them, give back the text, and every match is a separator |
| Dashboard.SplitFromTokens | dashboard/src/App.js:14 | every piece of a split that starts after the separator is trimmed and holds neither a bar nor an arrow |
| Dashboard.LineTokensAreTokens | dashboard/src/App.js:14 | every token of a trimmed line is trimmed and holds neither `\|` nor `->`; the tokens, with the separator matches between them, give back the trimmed line |
| Dashboard.PushAll | dashboard/src/App.js:20-22 | the productions are appended in order |
| Dashboard.AccumulatedMeaning | dashboard/src/App.js:13-23 | the keys are exactly the first tokens of the lines; each key holds, in line order, the productions of every line that names it |
| Dashboard.FormatGrammar | dashboard/src/App.js:7-26 | the method returns Accumulated over the parsed lines |
| Dashboard.LeftSideMeaning | dashboard/src/App.js:32 | the left side is a prefix of the line without ` -> `; it is the whole line, or ` -> ` follows it |
| Dashboard.GetNonTerminalOrder | dashboard/src/App.js:27-39 | the method returns Dedupe of the lines' left sides |
| Dashboard.NonTerminalOrderProperties | dashboard/src/App.js:27-39 | the order has no duplicates, holds exactly the lines' left sides, and lists them by first appearance |
| Dashboard.ArrowWithoutSpaces | dashboard/src/App.js:14 | on `A->b` the order names `A->b` while the productions set files the rule under `A` |
| Dashboard.LeadingSpace | dashboard/src/App.js:32 | on ` A -> b` the order names ` A` while the productions set uses `A` |
| Dashboard.SplitSpacedArrow | dashboard/src/App.js:14 | `A -> b` splits into `A` and `b` |

## Left out

- The HTTP handler `LL1Process`, the JSON wrappers and `p` (src/ll1.go:23-65, 311-314): I/O only.
- The debug print in `GetFollowOfNonterminal` (src/ll1.go:320): I/O only.
- main.go, api.go and the rest of the dashboard (the React component, the table, the API client) are not part of this model.
- Map iteration order: Go ranges over maps in an unspecified order, so the model takes one duplicate-free key listing `keys`. The same listing is used for every range over the productions set. It also fixes the order in which every GetFollowOfNonterminal call ranges over the occurrence map (src/ll1.go:322) to that listing. Go draws a fresh order at each range, and through the `""` branch the contents of FOLLOW can depend on that order; the model covers one order only.
- RemoveLeftRecursion: it lists the keys once, when it starts. A key that is added during the range (a primed name) and then visited by Go is not modelled.
- StringSets.RemoveElement: Go returns the members in map order (src/ll1.go:377-380), so its list is only some permutation of the one the model returns, which fixes first appearance (`Without`). The no-duplicates and membership clauses, and every lemma about which members a list holds, do not depend on that order. The statements that pin an exact list do: First.FirstOfNonterminalLead's `Prepend(Without(…), …)` and the list order of every FIRST and FOLLOW result hold for the first-appearance order only.
- Follow.GetFollowOfNonterminal: `append` onto the slice `currentFollows[nonterminal]` may write into its backing array. That array is shared with the table. The model treats every append as a copy.
- Follow.FollowOfCovers: it does not state the textbook inclusion of FOLLOW of the left side in FOLLOW of a nonterminal at the end of its production, because the code does not give it. It copies the left side's entry as it stands when the call starts (src/ll1.go:330-331), and that entry is still empty when the left side's own turn has not come. For the order [S, A, B] with S -> B z, A -> a, B -> y A, the code leaves z out of FOLLOW(A).
- Termination: FIRST and FOLLOW recurse without a bound in Go, and can loop forever on some grammars. The model bounds the depth by `fuel` and fails with `OutOfFuel` when it runs out.
- A partial FIRST list, returned together with an error (src/ll1.go:238), is not modelled. Callers discard it.
- Text.Trim: its own contract states the shape of the result only; that the result is a slice of the input with only white space cut away is Text.TrimSlice, kept apart so that callers of Trim do not carry those quantifiers.
- First.FirstOfHas: states one direction only; the converse, that FIRST holds nothing else, is First.FirstOfExactly.
- First.FirstOfSound: states where a member of FIRST comes from, not that it gets there; that direction is First.FirstOfHas and the exact lists are First.FirstOfExactly and the lead lemmas.
- Dashboard.SplitFromTokens: states the shape of the pieces only; that the split loses nothing is Dashboard.SplitFromJoins.
- Dashboard.MatchAt: its own contract states where a match ends; which positions match is Dashboard.MatchAtMeaning.
- Text.Utf8Len: Go's `len` counts UTF-8 bytes. The model strings are sequences of Unicode scalars, and the byte count is computed from them.
- Dashboard.SkipSpace: JavaScript strings are UTF-16. The model reads a line as a sequence of Unicode scalars, so lone surrogates are not modelled.
- Dashboard.FormatGrammar: a JavaScript object also has inherited keys such as `constructor`. A line whose key is an inherited name is not modelled. Neither is the enumeration order of the object's keys when it is serialised.
