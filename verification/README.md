# UnQL: a verified model of the parser generator, the query executor and the JSON codec

This project models the algorithms of the repository that are easy to get wrong and hard to test, and
proves what they are for. The model follows the C code branch by branch, also where the code departs
from its own documentation; those places are stated as lemmas with a concrete input and with the exact
condition under which the code does what it promises.

Check it with `dafny verify dfyconfig.toml`.

## What is modelled

**The LEMON parser generator and its engine** (`tool/lemon.c`, `src/lempar.c`). One chain of results
from a grammar to the strings the generated parser accepts:

| file | what it holds |
|---|---|
| `Grammar.dfy` | grammars, derivation trees, sentences, LR(0) items and links between states |
| `LemonFirst.dfy` | the lambda flags and FIRST sets as least fixpoints |
| `LemonStates.dfy`, `LemonAutomaton.dfy` | configuration lists, closure, the recursive construction of states |
| `LemonLinks.dfy`, `LemonFollow.dfy` | propagation links and the follow-set iteration |
| `LemonActions.dfy`, `LemonFindActions.dfy` | action lists and conflict resolution |
| `LemonCompress.dfy`, `LemonReport.dfy` | defaults, renumbering, row packing, the written tables |
| `ActionTable.dfy` | the overlapping action array |
| `TreeBounds.dfy` | how large a derivation tree can be if no symbol derives itself |
| `Parser.dfy` | the stack machine that reads the tables |
| `ParserLoops.dfy` | when the loop for one token goes on for ever |
| `ParserExamples.dfy` | two small grammars: a silent stack overflow, and a parser that never stops |
| `LemonMain.dfy` | the generator as a whole, its tables against the action lists, and their soundness |
| `LemonComplete.dfy` | completeness, and a generated parser at work |

`LemonMain.Generate` ends with tables that are `Sound` for an automaton, which is what
`ParserEngine.Parser` asks for; `Parser.Run` then accepts sentences of the grammar only. In the other
direction, `LemonComplete.TreeIsFound` follows a derivation tree through the tables. It asks that every
shift and reduce of the tree has won against all others on its symbol (`Favoured`), which is also how
precedence decides between trees; without conflicts all trees are of that kind.
`LemonComplete.GenerateAndParse` has both directions. What one token and a list of tokens do is also stated
without the proof apparatus, as the functions `Reduced`, `Driven`, `Fed` and `Dropped` over tables and a
stack.

**The query executor** (`src/query.c`, `src/datasrc.c`, the aggregates of `src/func.c`). A tree of
iterators that are stepped one row at a time. Every iterator class carries a ghost field with the rows
still to come; a step takes the head of it, and rewinding sets it to the meaning of the query, a plain
function (`Rows`, `GroupedTuples`, `SelectRun`, `Outcome`, `OrderedRun`, `Answer`). From DISTINCT on a
`Run` also says how the rows end: with DONE, with a claim to a row that is not there, or in a step that
follows a null pointer. The files are `ResultLists.dfy` (the merge sort), `Flatten.dfy`,
`DataSource.dfy`, `Aggregates.dfy`, `Grouping.dfy`, `Select.dfy`, `Compound.dfy`, `Query.dfy` and
`QueryExamples.dfy` (a query that reports a row which is not there).

**JSON** (`src/json.c`). `Json.dfy` has values and their order; `JsonText.dfy` the number grammar of
section 6 of RFC 8259 and the scanner for it; `JsonCodec.dfy` the printer, the tokenizer, the parser and
the round trip.

**Small algorithms.** `Keywords.dfy` is the keyword text and hash generator with the lookup that reads
its tables; `HashTable.dfy` the chained, doubling tables of `tool/lemon.c`; `Pool.dfy` the bump
allocator.

## Where the code and its description differ

- `tool/lemon.c:626-641` scans for a hole and falls through if it finds none, so that a row may be put at
  an offset that was never checked. `ActionTable.ScanRunsOff` is a run of that kind.
  `ActionTable.ActTab.Insert` says exactly when it happens and exactly when it does harm. The results about
  whole tables hold whenever no row is lost, and `Generate` reports whether all scans found an index.
- `tool/lemon.c:694-699` announces all nonterminals that generate the empty string, but the flag is set
  only for those with an empty rule (`LemonFirst.LambdaIsNullable`, `LemonFirst.FirstMissesHiddenStart`).
- `src/json.c:622-623` does not consume the brace of an empty struct. `JsonCodec.RoundTrip` has the exact
  condition. A struct whose last member is an empty struct still comes back, because the brace that was
  left over is taken for the one that follows.
- `src/query.c:444-448` returns a row for DISTINCT over zero rows, and whoever reads it follows a null
  pointer (`Selects.Select.Step`). `QueryExamples.DistinctOverNothing` and `QueryExamples.StepDistinct` are about such a
  query, and `Queries.AnswerEnds` has the exact condition for a whole query.
- `src/tokenize.c:154` takes the remainder of a number that is negative if one end of an identifier is not
  ASCII, so that the hash table is read in front of its start (`Keywords.KeywordCode`,
  `Keywords.OneEndNotAscii`).
- `src/query.c:174-181` restores a saved row by dropping the head of the list, which may be the first row
  of the next group (`Grouping.EveryRowOnce`, `Grouping.SecondGroupIsLost`).
- `src/lempar.c:490-503` empties the stack on overflow and reports nothing, and the loop of
  `src/tokenize.c:430-452` goes on: the next token starts a parser afresh, which may accept the rest
  (`NestedExample.OverflowIsSilent`). `ParserEngine.Parser.Run` has the exact condition for a whole statement,
  and `LemonComplete.TreeIsFound` the one for the overflow.
- The loop of `src/lempar.c:740-864` need not end: in `LoopingExample` a rule a ::= a wins its conflict
  (`LoopingExample.EarlierRuleWins`) and is reduced for ever (`LoopingExample.LoopsForEver`).
  `ParserLoops.LoopsIffRepeats` has the exact condition for a stack and a token; for a grammar it is enough
  that no symbol derives itself (`ParserEngine.Parser.Parse`).

## Model

| member | source | states |
|---|---|---|
| `ActionTable.HoldsIffLookup` | `tool/lemon.c:453-459` | A row sits at an offset without loss exactly when, for every lookahead, the test "slot offset+la carries la" finds the row's action for the row's lookaheads and nothing for all others |
| `ActionTable.WriteKeepsRows` | `tool/lemon.c:643-654` | Writing a row into vacant slots keeps every earlier row readable and makes the new one readable if and only if no slot already claimed the offset |
| `ActionTable.CountDecidesHolds` | `tool/lemon.c:604-613` | Counting the slots that claim an offset and comparing with the row's size decides whether a row that is in place is an exact duplicate |
| `ActionTable.ActTab.Action` | `tool/lemon.c:528-550` | One more entry in the transaction, with its least and greatest lookahead kept up to date |
| `ActionTable.ActTab.Grow` | `tool/lemon.c:565-583` | Growing the table leaves room for the transaction and disturbs no earlier row |
| `ActionTable.ActTab.FindDuplicate` | `tool/lemon.c:585-615` | The backward scan ends at a slot from which the whole transaction can be read back without loss, or else there is no such slot |
| `ActionTable.ActTab.FindHole` | `tool/lemon.c:617-642` | The forward scan ends at the first index that passes all its tests, or at the end of the range it looks through if none does |
| `ActionTable.ActTab.Locate` | `tool/lemon.c:585-642` | Both scans together put the row at its last duplicate, else at the first hole that fits, else at the index where the scan gives up, and say which of the first two there was |
| `ActionTable.ActTab.Store` | `tool/lemon.c:643-653` | The transaction is copied in, the number of used slots is kept, and the transaction is emptied |
| `ActionTable.ActTab.Insert` | `tool/lemon.c:561-654` | Over the state before the call: the scan succeeds exactly if the row is stored already or some index of the grown table fits it; the table is lossless afterwards if and only if it was lossless and the scan succeeds or no stored entry claims the offset that is left over, so that a lost row stays lost; no entry of an earlier row is overwritten; the scan fails only for a least lookahead of at least 2 and short spare room; a stored row costs no slot |
| `ActionTable.ScanRunsOff` | `tool/lemon.c:626-641` | A run of eleven inserts whose last scan ends unchecked: the new row then answers a lookahead that it does not have |
| `ParserSteps.ItemDescribesStack` | `src/lempar.c:508-640` | Stack invariant: every item of the top state has its recognised symbols on top of the stack, and the state below them has the item with its dot at the left |
| `ParserSteps.ReduceIsDerivation` | `src/lempar.c:567-640` | Popping a complete item's right-hand side turns the trees of its symbols into one derivation tree of its left-hand side with the same tokens |
| `ParserSteps.PushIsGood` | `src/lempar.c:508-549` | Moving over a symbol with a derivation tree keeps the stack invariant and appends the tree's tokens |
| `ParserSteps.BottomOnly` | `src/lempar.c:680-694` | Only the bottom of the stack is in state 0, so accepting finds nothing but the start symbol |
| `ParserEngine.Parser.Shift` | `src/lempar.c:490-549` | Pushes one entry, or on overflow empties the stack without a trace of the token |
| `ParserEngine.Parser.Reduce` | `src/lempar.c:567-640` | Does exactly what the tables say for that rule (`Reduced`), never looks up an entry that is not there, keeps the tokens described by the stack, and accepts only a start rule that stands for all of them |
| `ParserEngine.Parser.Parse` | `src/lempar.c:715-864` | One token: the outcome and the new stack are exactly those of the tables (`Driven`), no lookup ever fails, and the accepted strings are sentences of the grammar; if no symbol derives itself, every reachable stack and every token have a bound on the rounds (`Rounds`) within which the loop ends |
| `TreeBounds.HeightIsBounded` | `src/lempar.c:740-864` | If no symbol derives itself, a derivation tree is no higher than its tokens and the number of symbols allow: on a path without branching yields no symbol comes twice |
| `TreeBounds.ForestIsBounded` | `src/lempar.c:740-864` | Fewer trees than the stack has entries, with a given number of tokens between them, have fewer nodes than `Rounds`; since every reduce adds a node and keeps the tokens, this bounds the loop |
| `ParserEngine.Parser.Run` | `src/tokenize.c:396-463` | A whole statement with the semicolon that is supplied if missing, going on after an overflow as the code does: the outcome is exactly what the tables make of its tokens and the end of the input (`Fed`); what is accepted is exactly the part behind the last token that overflowed, it is a sentence, and it is the whole statement if and only if no token overflowed; if there are tokens, the run ends without an error and without accepting exactly if the end of the input itself overflows |
| `ParserSteps.OnlyTheRestCounts` | `src/lempar.c:490-503` | The outcome for a list of tokens is the outcome for those behind the last overflow, handed to a parser that starts afresh |
| `NestedExample.OverflowIsSilent` | `src/lempar.c:490-503` | Concrete input: on a stack of three entries "( ( ( x ;" is no sentence, its first three tokens are lost, and the rest is accepted without an error |
| `NestedExample.RunNested` | `src/tokenize.c:396-463` | The engine itself, run on that input, accepts |
| `ParserLoops.LoopsIffRepeats` | `src/lempar.c:740-864` | For any tables, stack and token: the loop goes on for ever if and only if a stack comes back, and if and only if it is still going on after as many rounds as there are stacks of the entries at hand |
| `LoopingExample.LoopsForEver` | `src/lempar.c:740-864` | Concrete grammar with a rule a ::= a that has won its conflict, and sound tables for it: for the sentence "x" no number of rounds is enough |
| `LemonConfigList.ConfigList.FollowOf` | `tool/lemon.c:1284-1303` | The lookaheads that a configuration hands to the rules after its dot, and whether its own follow set goes with them |
| `LemonConfigList.ConfigList.Closure` | `tool/lemon.c:1265-1307` | The list becomes the least set of items closed under expansion; every item's lookahead set gains exactly the contributions of the closure, and the forward links are exactly the pairs with a nullable tail |
| `LemonClosure.OrderedIsUnique` | `tool/lemon.c:1310-1322` | A sorted list of items is determined by its set, so comparing sorted bases compares sets |
| `LemonAutomaton.AdvanceOver` | `tool/lemon.c:896-917` | The basis for a symbol is exactly the set of unused items with that symbol next, their dots moved, each linked back to its origin |
| `LemonAutomaton.Builder.NewState` | `tool/lemon.c:849-862` | A state for a basis: sorted basis, sorted closure, and the links it was found with |
| `LemonAutomaton.Builder.GetState` | `tool/lemon.c:821-865` | Returns the state with that basis set, old or new, and copies the links; the automaton stays well built |
| `LemonAutomaton.Builder.BuildShifts` | `tool/lemon.c:881-929` | After it every symbol that some item of the state can move over has exactly one shift, to the state whose basis is the set of moved items |
| `LemonAutomaton.Builder.FindStates` | `tool/lemon.c:762-814` | The finished automaton is closed under shifts, no two states have the same basis, the first state starts exactly the rules of the start symbol, and a sequence of shifts leads from it to every other state; the recursion ends because new states use up the finitely many bases |
| `LemonAutomaton.ShiftIsLink` | `tool/lemon.c:881-929` | A shift leads to a state in which every item is a moved item of the source state or a fresh item that some item there asks for |
| `LemonAutomaton.StartedItemHasShift` | `tool/lemon.c:881-929` | A state with an item for a nonterminal's rule can move over that nonterminal, but for the start symbol in the first state |
| `LemonFirst.FindLambdas` | `tool/lemon.c:706-727` | The flag is set for exactly the symbols that have an empty rule |
| `LemonFirst.LambdaIsNullable` | `tool/lemon.c:706-727` | The flag agrees with true nullability if and only if no non-empty rule of an unmarked symbol consists of marked symbols only |
| `LemonFirst.ScanRule` | `tool/lemon.c:735-750` | One rule adds the FIRST set of its right-hand side to that of its left-hand side and says whether that was news |
| `LemonFirst.FindFirstSets` | `tool/lemon.c:700-753` | Ends with the least sets closed under the rule equations for the flags as computed |
| `LemonFirst.FirstCoversTrees` | `tool/lemon.c:694-699` | When the flags cover nullability, the first token of every derivation tree is in the FIRST set of its root |
| `LemonFirst.FirstMissesHiddenStart` | `tool/lemon.c:694-727` | A concrete grammar with a nonterminal that is nullable only through another: FIRST misses a terminal that begins a derivation |
| `LemonFollow.Push` | `tool/lemon.c:985-995` | One configuration hands its set to all its links and becomes complete; a target that grew becomes incomplete again |
| `LemonFollow.FindFollowSets` | `tool/lemon.c:969-999` | The iteration ends, and the set of a configuration is exactly the union of the initial sets of all configurations that reach it over forward links |
| `LemonLinks.FindLinks` | `tool/lemon.c:934-960` | The forward links are exactly the edges of the automaton: closure links inside a state and the reversed back links between states |
| `LemonLinks.StartRulesEndInput` | `tool/lemon.c:793-797` | Nothing but the end of the input reaches a configuration of a start rule, so a start rule is reduced only there |
| `LemonMain.FollowOfAutomaton` | `tool/lemon.c:1500-1510` | The follow sets of all configurations of the automaton are exactly what paths along its edges justify, and those of start rules have nothing but the end of the input |
| `LemonActions.SortSorts` | `tool/lemon.c:408-432` | Sorting a state's actions orders them by symbol, kind and rule |
| `LemonActions.ResolveConflict` | `tool/lemon.c:1088-1155` | Of two conflicting actions exactly one stays effective: the later one if it is a reduce that displaces the earlier one, that is, both have a precedence and that of the reduce is higher, or equal to that of the token of a shift which is left associative |
| `LemonActions.ShiftSurvives` | `tool/lemon.c:1088-1155` | On one symbol a shift survives if and only if none of the reduces behind it displaces it |
| `LemonActions.HighestSurvives` | `tool/lemon.c:1088-1155` | Of reduces whose rules all have a precedence the earliest of the highest survives |
| `LemonActions.ResolveConflicts` | `tool/lemon.c:1048-1062` | Letting all pairs meet leaves effective exactly the winner of every symbol, each action having met the winner of those before it |
| `LemonFindActions.Candidates` | `tool/lemon.c:1013-1046` | The unresolved list of a state has exactly its shifts, a reduce for every terminal in the follow set of a complete item, and the accept action in the first state, each once |
| `LemonFindActions.FindActions` | `tool/lemon.c:1005-1062` | Every state's final list is the sorted list of its candidates, each once, in which exactly the winner of every symbol has kept its effect |
| `LemonFindActions.GotosSurvive` | `tool/lemon.c:1048-1062` | No move over a nonterminal is ever lost to conflict resolution |
| `LemonCompress.FindBest` | `tool/lemon.c:4106-4131` | Finds a most frequent reduce that is not of a start rule, if there is one |
| `LemonCompress.MoveToDefault` | `tool/lemon.c:4140-4149` | The first reduce by the rule moves to the default symbol, the others become unused, everything else stays |
| `LemonCompress.Compress` | `tool/lemon.c:4097-4152` | Only reduces by one most frequent rule become the default; without one the list is unchanged |
| `LemonResort.Resort` | `tool/lemon.c:4181-4210` | The new numbers are a permutation that keeps state 0; the others come in descending order of nonterminal actions, then of token actions, then of old numbers |
| `LemonReport.InsertActions` | `tool/lemon.c:3756-3782` | The row placed for a state has exactly the codes of its effective actions on one kind of symbol |
| `LemonReport.PackAll` | `tool/lemon.c:3752-3784` | Every non-empty row of every state is placed, the scan for the first empty one leaving none behind, and the table is lossless if every offset was checked |
| `LemonReport.WriteTables` | `tool/lemon.c:3786-3882` | The written arrays are the packed table with its holes made harmless, the offsets by new state number, trailing absent offsets cut off, and the defaults |
| `LemonReport.TokenLookup` | `src/lempar.c:395-450` | Looking a token up in the written tables finds the code of the state's effective action on it, and the state's default if there is none |
| `LemonReport.GotoLookup` | `src/lempar.c:460-485` | Looking a nonterminal up finds the code of its effective action, and the lookup's assertions hold |
| `LemonMain.ActionSurvivesPacking` | `tool/lemon.c:3729-3882` | From the action lists before compression to the packed tables: every effective action on a terminal is returned under its own code |
| `LemonMain.NoActionBecomesDefault` | `tool/lemon.c:4097-4152` | Where a state has no action on a terminal the tables return the error action or a reduce that is a most frequent one of that state |
| `LemonMain.GotoSurvivesPacking` | `src/lempar.c:460-485` | Every effective action on a nonterminal is found under its own code, and the lookup's assertions hold |
| `LemonMain.TablesAreSound` | `tool/lemon.c:1484-1535` | Tables built from a finished automaton meet everything the engine relies on |
| `LemonMain.TablesDoAnswer` | `tool/lemon.c:3729-3882` | Every state, under its new number, answers each terminal and each nonterminal with the code of the action that conflict resolution left effective on it, and every other terminal with the error action or with the reduce by a most frequent rule that is not a start rule |
| `LemonMain.CheckStart` | `tool/lemon.c:786-800` | Counts the places in which the start symbol is on a right-hand side; there is no error exactly if there is no such place |
| `LemonMain.Generate` | `tool/lemon.c:1484-1535` | From any grammar: an error for every place in which the start symbol is on a right-hand side; without errors least FIRST sets, states that are all reached, exact follow sets and resolved lists; if every scan of the packing found an index no row is lost, and if no row is lost the tables answer for every state what its list says and are sound for the automaton |
| `ParserRuns.AcceptsIsFed` | `src/lempar.c:715-864` | The engine accepts an input and loses no token if the tables alone accept it, without an overflow, in no more rounds than it has fuel for |
| `ParserRuns.BurstsIsDropped` | `src/lempar.c:490-503` | The engine loses tokens if the tables alone run out of room |
| `LemonComplete.RuleIsStarted` | `tool/lemon.c:934-999` | An item before a nonterminal has its rules in the same state, followed by whatever can start the rest of the item and, if the rest can be empty, by whatever follows the item |
| `LemonComplete.TreeIsFound` | `src/lempar.c:567-640` | From a state with an item before the root of a derivation tree whose shifts and reduces have all won their conflicts: if the stack has room for what the tree needs (`Need`, a child standing on its elder siblings), the tables work through its yield, in as many rounds as it has nodes, and end up one entry higher in the state over its root; otherwise they overflow |
| `LemonComplete.SentenceIsAccepted` | `src/lempar.c:715-864` | A derivation tree of the start symbol whose shifts and reduces have all won their conflicts is accepted if the stack has one entry more than it needs, and runs out of room otherwise |
| `LemonComplete.CleanTreesAreFavoured` | `tool/lemon.c:1048-1062` | If no two actions met and the lambda flags cover nullability, every shift and reduce of every derivation tree is in force |
| `LemonComplete.AcceptedTrees` | `src/tokenize.c:396-463` | Without conflicts, with right lambda flags and without cycles: the whole statement is accepted if and only if it has a derivation tree that the stack has room for |
| `LemonComplete.GenerateAndParse` | `src/tokenize.c:396-463` | From a grammar to a parsed statement. What is accepted is a sentence, namely the tokens behind the last overflow. For a tree of the whole statement that conflict resolution has left alone, and without conflicts for every tree: the whole statement is accepted if the stack has room for the tree, and tokens are lost otherwise. Without conflicts and cycles the whole statement is accepted if and only if it has a tree that fits |
| `JsonOrder.JsonCompare` | `src/json.c:320-375` | Computes the recursive comparison of two values |
| `JsonOrder.CompareNegates` | `src/json.c:320-375` | Swapping the operands negates the result |
| `JsonOrder.ZeroIffEqual` | `src/json.c:320-375` | The result is zero if and only if the values are structurally equal |
| `JsonOrder.CompareTransitive` | `src/json.c:320-375` | The comparison is transitive, hence a total order |
| `JsonOrder.CmpResultItem` | `src/query.c:52-66` | Compares two result rows by their keys, each ascending or descending |
| `JsonOrder.ItemsNegate` | `src/query.c:52-66` | Row comparison is antisymmetric for any mix of ascending and descending keys |
| `JsonOrder.ItemsTransitive` | `src/query.c:52-66` | Row comparison is transitive for any mix |
| `JsonOrder.ItemsZeroIffEqualKeys` | `src/query.c:52-66` | Rows compare equal if and only if their keys are equal |
| `ResultLists.StableSortSorts` | `src/query.c:101-146` | The sorted list is a permutation in ascending order |
| `ResultLists.StableSortKeepsClasses` | `src/query.c:101-146` | Rows with equal keys stay in the order they had |
| `ResultLists.SortedAndStableIsUnique` | `src/query.c:101-146` | There is only one sorted list with the same classes in the same order, so these properties fix the result |
| `ResultLists.MergeResultItems` | `src/query.c:68-98` | Merges two lists, the first one winning ties |
| `ResultLists.MergeSorts` | `src/query.c:68-98` | Merging the sorts of two lists gives the sort of their concatenation |
| `ResultLists.AddToSlots` | `src/query.c:109-119` | Slot i always holds nothing or the sort of exactly 2^i rows; forty slots suffice below 2^40 rows; the slots together hold the rows added so far |
| `ResultLists.MergeSlots` | `src/query.c:121-125` | Merging all slots gives the stable sort of all rows |
| `ResultLists.UniqPass` | `src/query.c:127-137` | Unlinks every row that equals its predecessor |
| `ResultLists.UniqKeepsFirst` | `src/query.c:127-137` | On a sorted list that keeps exactly the first row of every class, in strictly ascending order |
| `ResultLists.SortResultList` | `src/query.c:101-146` | The list becomes the stable sort of its rows in the order they were added, without duplicates if asked |
| `ResultLists.SortedListAscends` | `src/query.c:138-144` | The order that the debugging check at the end of the sort asserts |
| `Flattening.EntriesAreTheLeaves` | `src/datasrc.c:126-273` | The recursive traversal finds a value under a path of keys if and only if the path leads there: direct children for EACH, every value that is not a container for FLATTEN, nothing for empty containers |
| `Flattening.FlattenIter.Begin` | `src/datasrc.c:154-177` | A fresh iterator has the whole traversal of the container that the path leads to before it, or nothing |
| `Flattening.FlattenIter.EntryAt` | `src/datasrc.c:179-219` | The key is the whole path for FLATTEN and the child's own key for EACH |
| `Flattening.FlattenIter.Next` | `src/datasrc.c:221-273` | Each call takes the next entry of the recursive traversal and says whether there was one; it ends by a measure on the explicit stack |
| `Flattening.Put` | `src/datasrc.c:85-124` | After an assignment through a path, the path leads to the new value |
| `Flattening.PutKeepsOthers` | `src/datasrc.c:85-124` | Every path that neither leads through the assigned one nor is part of it still leads to the same value |
| `Flattening.FoundCanPut` | `src/datasrc.c:85-124` | A path that leads to a value can be assigned through, so an operator without AS always can |
| `Flattening.FlattenedObject` | `src/datasrc.c:314-336` | The delivered object has the key and the value as members k and v at the target path |
| `DataSources.DataSrc.constructor` | `src/datasrc.c:25-58` | A new source stands before the first of its rows |
| `DataSources.DataSrc.StepJoin` | `src/datasrc.c:347-364` | A join goes through the right side once for every left row, rewinding it in between |
| `DataSources.DataSrc.StepLeaf` | `src/datasrc.c:374-444` | A collection, an array or the empty FROM clause delivers its documents in order |
| `DataSources.DataSrc.StepOperator` | `src/datasrc.c:389-418` | EACH and FLATTEN deliver the objects built from every entry of every row of their base |
| `DataSources.DataSrc.Step` | `src/datasrc.c:343-447` | A step of any tree of sources delivers the head of the remaining rows, or DONE exactly when none remain |
| `DataSources.DataSrc.Rewind` | `src/datasrc.c:495-531` | From any state, the next run delivers all rows again |
| `DataSources.DataSrc.Count` | `src/datasrc.c:557-563` | The number of documents in a row |
| `DataSources.DataSrc.CacheSave` | `src/datasrc.c:565-579` | Saves the documents of the current row, left to right |
| `DataSources.DataSrc.ReadFrom` | `src/datasrc.c:609-632` | The running counter finds the document with that index, and nothing outside the row |
| `DataSources.RunSource` | `src/datasrc.c:343-531` | Rewound and stepped until DONE, a tree of joins and operators yields exactly the left-major product and flat map of its leaves |
| `Aggregates.GatheredMeans` | `src/func.c:81-230` | What the calls gather row by row means: the number of rows or of non-null arguments, a least or greatest argument that occurs, the array of arguments in order, the sum, the sum divided by the count |
| `Aggregates.Aggregate.Step` | `src/func.c:393-424` | Steps every call and says whether any asked to save the row |
| `Aggregates.Aggregate.Finalize` | `src/func.c:426-439` | Leaves the final values and contexts ready for the next group |
| `Grouping.RunsCover` | `src/query.c:391-402` | The runs of equal neighbours put together are the whole list |
| `Grouping.RunsAreClasses` | `src/query.c:391-402` | In a sorted list the runs are the classes of equal keys, one each, in strictly ascending order |
| `Grouping.GroupedRows.StepGroup` | `src/query.c:385-402` | Steps the aggregates through exactly the first run, and leaves the row to show in front of what the save and restore leave of the list |
| `Grouping.GroupedRows.Restore` | `src/query.c:174-181` | A saved row replaces the head of the list, whatever that is by then |
| `Grouping.EveryRowOnce` | `src/query.c:385-402` | All groups together step every row exactly once if and only if no group but the last ends with a row that min or max saved |
| `Grouping.GroupsAreClasses` | `src/query.c:385-402` | Without min and max the groups are exactly the runs |
| `Grouping.SecondGroupIsLost` | `src/query.c:167-181` | A concrete list of two groups of which max leaves only one |
| `Selects.StepWhered` | `src/query.c:270-280` | Steps to the next row that meets the WHERE condition, or to the end |
| `Selects.GroupedSelect.Gather` | `src/query.c:298-331` | An aggregate without GROUP BY steps all matching rows and shows the row saved last, else the first |
| `Selects.GroupedSelect.Collect` | `src/query.c:357-381` | GROUP BY keeps all matching rows behind their keys, stably sorted |
| `Selects.GroupedSelect.StepGroups` | `src/query.c:382-411` | The next group that HAVING keeps |
| `Selects.GroupedSelect.Step` | `src/query.c:282-420` | Each step delivers the head of the remaining result rows, or DONE exactly when none remain |
| `Selects.GroupsInArrivalOrder` | `src/query.c:354-411` | Without min and max each group is the class of one key combination in arrival order, groups in strictly ascending key order, nothing stepped twice or lost |
| `Selects.Select.Step` | `src/query.c:422-459` | Each step delivers the head of the remaining run, or DONE exactly at its end; the run of DISTINCT over zero rows is a claim to one row that is not there |
| `Selects.DistinctKeepsFirst` | `src/query.c:422-459` | DISTINCT returns strictly ascending documents, each with the first row that had it |
| `SetOperations.UnionIsUnion` | `src/query.c:523-544` | Merging two strictly ascending lists gives the strictly ascending list of their union |
| `SetOperations.IntersectIsIntersection` | `src/query.c:546-556` | The same for the intersection |
| `SetOperations.ExceptIsDifference` | `src/query.c:558-571` | The same for the difference |
| `Queries.CompoundMeans` | `src/query.c:485-579` | A document is a result of a compound query if and only if it is one of both sides, of either side, or of the left side only, as the operator says; all but UNION ALL ascend strictly |
| `Queries.SaneQueriesEnd` | `src/query.c:422-579` | A query comes to its end exactly if no part of it is a DISTINCT over zero rows, and then over all its result rows |
| `Queries.CompoundQuery.CacheQuery` | `src/query.c:463-482` | A side run to its end gives its documents sorted, without duplicates, unless it comes upon a row that is not there |
| `Queries.NextOf` | `src/query.c:517-573` | One step of a set operation takes the next row of the result off the two lists |
| `Queries.CompoundQuery.StepUnionAll` | `src/query.c:491-505` | All rows of the left side, then all rows of the right side |
| `Queries.CompoundQuery.Step` | `src/query.c:485-579` | Each step of any nesting delivers the head of the remaining run, DONE exactly when none remains, or follows a null pointer exactly when it reads a row that is not there |
| `Queries.CompoundQuery.Rewind` | `src/query.c:241-261` | From any state, the next run delivers all rows again |
| `Queries.OrderedQuery.Collect` | `src/query.c:592-619` | All rows are collected behind their ORDER BY keys and sorted, unless one of them is not there |
| `Queries.OrderedQuery.Step` | `src/query.c:588-632` | Each step delivers the next document in the order asked for, equal keys in the order they came |
| `Queries.Query.SkipRows` | `src/query.c:656-669` | Steps over the OFFSET rows, none if it is negative or no number, and notices if the rows end before |
| `Queries.Query.Step` | `src/query.c:638-695` | Each step delivers the next row of the window sorted[offset .. offset+limit], clipped, a negative or absent limit being unbounded |
| `Queries.SaneAnswer` | `src/query.c:638-695` | Without a DISTINCT over zero rows the answer is the window of all result documents in their order |
| `Queries.AnswerEnds` | `src/query.c:638-695` | The exact condition for coming to DONE: no DISTINCT over zero rows, or a limit that is reached before the row that is not there, or an offset that steps over it |
| `QueryExamples.StepDistinct` | `src/query.c:428-451` | A concrete query, SELECT DISTINCT over an empty collection: stepped once it reports a row, and asked for its document it has none |
| `Queries.RunQuery` | `src/query.c:638-695` | From any state: a query rewound and stepped returns exactly its answer, the window being applied after the sort, and comes to DONE unless it is asked for a row that is not there |
| `JsonText.ScannedNumber` | `src/json.c:514-542` | The scan stops behind a number of the grammar in section 6 of RFC 8259, or where it began |
| `JsonText.NumberScanned` | `src/json.c:514-542` | Every number of the grammar is scanned whole if what follows cannot continue it |
| `JsonCodec.EscapedScanned` | `src/json.c:438-447` | The scan of an escaped string stops at the quote that closes it |
| `JsonCodec.DequoteQuoted` | `src/json.c:560-589` | Unescaping a quoted string gives the string back |
| `JsonCodec.DequoteString` | `src/json.c:560-589` | In place: the front of the buffer becomes the unescaped string with a terminator, and never runs into what is still to be read |
| `JsonCodec.RenderString` | `src/json.c:157-176` | Appends the string quoted and escaped |
| `JsonCodec.JsonRender` | `src/json.c:182-235` | Appends the text of the value |
| `JsonCodec.JsonStr.TokenNext` | `src/json.c:424-555` | Moves to the next token: its kind and its extent |
| `JsonCodec.JsonStr.ParseJson` | `src/json.c:614-709` | Parses the value that starts at the current token, leaving the tokenizer where the code leaves it |
| `JsonCodec.JsonParse` | `src/json.c:714-723` | Parses a text |
| `JsonCodec.RoundTrip` | `src/json.c:182-235` | Parsing the text of a value gives the value back if and only if every empty struct in it stands last in an unbroken chain of last struct members and no null pointer (`Absent`) occurs in it |
| `JsonCodec.EmptyStructs` | `src/json.c:622-623` | Concrete texts: an empty struct alone and as last member comes back, as an array element or before another member it does not |
| `Keywords.Eliminate` | `tool/mkkeywordhash.c:186-201` | A keyword is marked as part of a longer one only with a place where it really occurs in an unmarked one |
| `Keywords.PackFrom` | `tool/mkkeywordhash.c:226-246` | Each following keyword shares its beginning with the end of the one before, at least one character and as many as any keyword that still waited; at the end no waiting keyword shares anything with the last one |
| `Keywords.Pack` | `tool/mkkeywordhash.c:223-247` | Every unmarked keyword is placed once, and the text grows by what is new in it |
| `Keywords.SetOffsets` | `tool/mkkeywordhash.c:248-253` | With the marked ones resolved, every keyword occurs in the text at its offset |
| `Keywords.SortedTextIsText` | `tool/mkkeywordhash.c:255-256` | Sorted by offset, in any order of ties, the new parts put together are the very text that the offsets refer to |
| `Keywords.BuildChains` | `tool/mkkeywordhash.c:276-282` | Each hash bucket starts at its last keyword and links go to strictly lower ones |
| `Keywords.KeywordCode` | `src/tokenize.c:152-160` | For any bytes: nothing, exactly when one end is ASCII and the other is not and the hash is no multiple of the table size, which puts the index out of range; else the code of the keyword that equals the input, and TK_ID if none does; links go to lower indices, so it ends |
| `Keywords.OneEndNotAscii` | `src/tokenize.c:373-377` | A concrete identifier, an accented letter and an ASCII one, that reads the table in front of its start |
| `Keywords.Generate` | `tool/mkkeywordhash.c:172-282` | Whatever the two length orders and the table size: the generated tables describe the given keywords |
| `Keywords.GenerateAndLookUp` | `tool/mkkeywordhash.c:390-399` | From a table of keywords to the lookup, for any bytes: the code of the keyword that equals the input, else TK_ID, exactly when the index is in range |
| `HashTables.HashTable.Search` | `tool/lemon.c:4362-4371` | The chain walk finds the record with the key or there is none, for any hash function |
| `HashTables.HashTable.Find` | `tool/lemon.c:4407-4422` | Refines lookup in a finite map |
| `HashTables.HashTable.Grow` | `tool/lemon.c:4372-4396` | Doubling relinks every record and loses none |
| `HashTables.HashTable.Insert` | `tool/lemon.c:4718-4768` | Adds a key exactly if it is new, never overwrites, and refines the update of a finite map |
| `Pools.Pool.PoolMalloc` | `src/memory.c:101-125` | The block is eight-aligned behind its chunk's header, inside the chunk, large enough, and apart from every block handed out before and from the free space |
| `Pools.Pool.Clear` | `src/memory.c:88-95` | Gives back everything |
| `Pools.Serve` | `src/memory.c:101-125` | After any sequence of positive requests, large and small mixed, all blocks are pairwise disjoint and inside their chunks |

## Left out

- ParserEngine.Parser.Parse: takes a bound on the number of rounds, since the loop of the code need not end. The condition on the grammar under which it ends is sufficient and not necessary, since conflict resolution may break a cycle.
- ParserEngine.Parser.Run: takes the tokens as a list; an illegal token ends the code's loop with an error before it reaches the parser. It returns the outcome of the last call; the code returns without an error for `Accepted`, `Overflow` and `NoInput`.
- LemonComplete.GenerateAndParse: for a tree that loses a conflict nothing is stated, since precedence takes it away on purpose.
- LemonMain.Generate: stops when the start symbol is on a right-hand side. `tool/lemon.c:786-800` reports that as an error, announces a parser that does not work properly, goes on to write tables, and exits with the number of errors; what those tables do is not stated.
- LemonAutomaton.Builder.GetState: looks a basis up by search where the code uses a hash table; the contract of the table is that of `HashTables.HashTable`.
- LemonFollow.FindFollowSets: works on configurations given as pairs of a state and an item instead of linked records.
- LemonResort.Resort, LemonReport.PackAll, Keywords.Generate: library sorts are modelled by their result, not by their steps; the two orders by which keywords are packed may be any order, so the longest-suffix heuristic plays no role.
- Keywords.Generate: takes the size of the hash table as given instead of choosing the one with the fewest collisions.
- ActionTable.ActTab.Grow: the array is a sequence that grows, where the code reallocates.
- HashTables.HashTable.Insert: the `from` back pointers, which nothing reads, and running out of memory are not modelled.
- Pools.Pool.PoolMalloc: is for positive requests; a request of zero bytes to an empty pool returns a null pointer in the code.
- JsonOrder.JsonCompare: numbers are mathematical reals, without NaN and infinities; NaN compares equal to every number and would break the order.
- JsonCodec.RoundTrip: numbers are kept as the text they are written with; the conversion to and from floating point is not part of the model, nor is what the C library reads beyond a number's token.
- JsonCodec.JsonStr.TokenNext: characters are code points, and texts contain no NUL character.
- Queries.Query.SkipRows: LIMIT and OFFSET are cast to unbounded integers (`Truncated`); casting a double that is outside the range of int is undefined in C.
- Queries.RunQuery: is for lists shorter than 2^40 rows, the capacity of the sort.
- Queries.OrderedQuery.Collect: ORDER BY keys, WHERE conditions, results and HAVING are functions of a row and of the aggregate values; correlated subqueries and aggregates inside ORDER BY are not modelled.
- Queries.CompoundQuery.Step: stepping again after DONE is not modelled; a query is rewound first.
- Selects.Select.Current: the documents that DISTINCT saves with a row of an aggregate query are not modelled.
- DataSources.DataSrc.StepLeaf: a collection is a finite list with a cursor; SQL text, transactions and errors of the database are outside.
- DataSources.DataSrc.Step: subqueries in FROM are not modelled, since the code reads their document even at the end, and neither is the lookup of names.
- DataSources.DataSrc.Rewind: leaves subqueries in FROM out in the same way.
- DataSources.RunSource: leaves subqueries in FROM out in the same way.
- Absent array elements and members (null pointers in the code) are values of the model; the iterator of EACH and FLATTEN, counting and the extremes dereference or skip them in the code.
- Linked lists of result rows are sequences; reference counts, frees and running out of memory are left out everywhere.
- MULTITERMINAL, fallback and wildcard tokens, the error symbol, `yyerrcnt` and error messages: `src/parse.y` uses none of the first four.
- The report file, the generated header, the template and the grammar-file scanner: input and output.
- Updates by path (`src/update.c`), the shell, tracing and completion: nothing harder than the above.
