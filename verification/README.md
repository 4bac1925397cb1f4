# Verified model of the Lemon parser generator, its parser, and the Base64 codec

The repository ships a copy of Lemon, an LALR(1) parser generator (`src/lemon.c`), with the table-driven parser it
generates (`src/lempar.c`), and a small C library with a growable buffer and a Base64 codec over it. This project
models the part of them that computes something and proves what each part is for, up to a theorem about generator and
driver together: *if every row of the action table was safe to pack, the tables that come out of the generator make a
parser whose every accepting run is a rightmost derivation of its input, in which no assert of the driver ever fails,
and which for a grammar without conflicts accepts exactly the language of the grammar; its calls then also end on
every token, if the nonterminals that occur in sentential forms generate something.* The condition on the rows is
exact, and small valid grammars without conflicts do not meet it. One is `S ::= | A B C D | C E | B F G H`, for which
the packed tables are wrong (`Misparse`).

`dafny verify dfyconfig.toml` checks everything.

## How the files hang together

| file | what it models |
|---|---|
| `Grammar.dfy` | grammars, derivations, nullability, the terminals that can begin a sentential form: the mathematics everything is measured against |
| `FirstSets.dfy` | `FindFirstSets`, two fixpoints over the rules |
| `MergeSort.dfy`, `Ties.dfy` | the bottom-up list sort `msort`, with its thirty bins, and the order in which it leaves equal nodes |
| `Items.dfy` | items, the least closure of an item set, the goto of a set, the item sets that a prefix leads to |
| `Numbering.dfy` | the order in which a depth-first walk finds the states |
| `States.dfy` | the state vector (class `Lemon`) and `FindStates`: the recursive construction of all states with `getstate`, `buildshifts` and `Configlist_closure` |
| `FollowSets.dfy` | `FindLinks` and `FindFollowSets` |
| `Lookaheads.dfy` | canonical LR(1) lookaheads, and that the follow sets are their union |
| `Actions.dfy` | `FindActions` and `resolve_conflict` |
| `Operators.dfy`, `Associativity.dfy` | what precedence and associativity do to a cell, and to the driver's log on a chain of operators |
| `Machine.dfy` | the driver as a step function on one cell per state and symbol, soundness, and that it never gets stuck |
| `Completeness.dfy` | parse trees, and that every sentence is accepted when there are no conflicts |
| `Termination.dfy` | what can still come: every stack can be completed to a sentence, and without conflicts every call ends |
| `Compress.dfy` | `CompressTables`, and what it does to the cells |
| `Resort.dfy` | `ResortStates`, and that the new numbering changes nothing |
| `Acttab.dfy` | the `acttab` module, with its arrays: rows packed so that they overlap |
| `Encoding.dfy`, `Packing.dfy` | `compute_action`, and the loop of `ReportTable` that packs the rows, with the exact condition under which that goes well |
| `Tables.dfy` | the table part of `ReportTable`, and the two lookups of the driver on the emitted arrays |
| `Calls.dfy` | one call of the driver after the other: what ends a parse, and that the next input finds a new parser |
| `Parser.dfy` | the driver on the emitted arrays, with its stack in a fixed array (class `Parser`) |
| `Generator.dfy` | all passes in the order of the main program, and the end-to-end theorem |
| `Strays.dfy` | what a generated parser is worth whose tables do not refine the cells |
| `Instances.dfy` | working out the automaton, the actions and the cells of a given grammar |
| `Misparse.dfy`, `Recovery.dfy`, `Cycling.dfy` | three grammars: wrong tables, another error recovery, a parser that does not end |
| `HashTable.dfy` | the chained hash tables that double when full |
| `Preprocess.dfy`, `Conditionals.dfy` | `preprocess_input`, in place, and what `%ifdef` and `%ifndef` mean in a written text |
| `DBuffer.dfy`, `Base64.dfy` | `kr_dbuffer` and `kr_base64` |

The chain of refinements is: least closures and gotos (`Items`) -> the state vector (`States.Built`) -> an automaton
of item sets (`Lookaheads.Lr0`) with exact lookaheads (`Lookaheads.Solved`) -> resolved action lists (`Actions.Acted`)
-> the table of cells they stand for (`Compress.Table`) -> the compressed table -> the renumbered table -> the packed
arrays (`Tables.Reported`; a refinement if and only if `Packing.AllSafe`) -> the driver on those arrays
(`Parsers.Parser.Parse`).

A grammar is what the generator has after reading its input: symbol 0 is `$`, terminals come before nonterminals,
rules carry their precedence symbol. `Grammars.Valid` demands that a rule's left-hand side is a nonterminal, that
right-hand sides do not mention `$` or the start symbol (the generator reports an error for that,
src/lemon.c:753-767), and that indices are in range. `States.Fits` and `Actions.ActionsFit` say that fewer than 2^30
items and actions exist, below which the list sort loses nothing; `Packing.SymbolsFit` that symbol numbers are machine
integers.

## What came out of it

* The sort `msort` loses nodes from exactly 2^30 nodes on (`MergeSort.MSort` has it as an if-and-only-if).
* The follow sets hold all canonical LR(1) lookaheads. Which lookaheads are canonical is decided by the *open* items,
  those reached from a start rule over shifts and over closure steps behind which something can come
  (`Lookaheads.Lr1Exact`). So all follow sets are exact if and only if what any item starts with comes from open items
  too (`Lookaheads.ExactEverywhere`). That is so in *lively* grammars: every nonterminal that occurs in a sentential
  form can vanish, or some terminal can begin what it derives. It is weaker than generating a terminal string
  (`Lookaheads.GeneratingIsLively`). Symbols that occur in no sentential form, such as `error` where no rule uses it,
  do not matter (`Grammars.UnusedNeverOccurs`).
* `acttab_insert` can go wrong. Its hole scan is cut off at `nActionAlloc - mxLookahead`, and if it finds no hole it
  writes the transaction at the index the scan ended at, without testing whether another transaction is already looked
  up at that offset. `ActtabModule.Acttab.Insert` states the exact condition, on the table before the call
  (`Placeable`), under which exactly the new transaction is found there; array slack beyond the slots in use plus the
  smallest and the largest lookahead is enough (`HeadroomSuffices`).
* What that does to a generated parser: the actions of a row are found in every emitted table, at its offset, for
  ever, mixed up or not. So all gotos are looked up right (`Tables.ReduceActionRefines`) and so is every terminal on
  which a state's list has a live action (`Tables.ShiftLive`). Only the default of a state can be missed, where a slot
  of another row, with another code, is found at the offset of its terminal row (`Tables.ShiftDefault`). The emitted
  tables refine the cells if and only if no row made that happen, told for each row from the table before it is
  inserted (`Packing.SafeToPack`, `Packing.SafeDecides`, `Tables.RefinesIfSafe`). Being placeable is enough
  (`Packing.PlaceableIsHarmless`).
* It does happen in the order in which rows are packed, largest first. The grammar `S ::= | A B C D | C E | B F G H`
  has no conflicts, but in the tables that the whole generator makes for it the state after C E shifts H, where its
  cell is an error (`Misparse.WrongLookup`, `Misparse.GenerateWrongly`). Fed C E H $, the driver then reduces by the
  rule with four symbols on the right when its stack has three entries above the bottom, so that it looks for the goto
  below its stack (`Misparse.Underflow`).
* Tables that are wrong in this way still stand for cells faithful to the automaton if and only if each state could do
  whatever the driver sees there (`Strays.SeenParser`); then the parser never gets stuck and accepts only sentences
  (`Strays.SeenSound`).
* Compression changes error recovery, not parses: a run stays the same, event by event, exactly as long as no token is
  rejected in a state that has a default for it (`Machine.SameRun`). `Recovery.RejectedDiffers` has a grammar and an
  input on which the two recover differently: `S ::= A s | x b s | c`, `A ::= x`, on `x c b s`.
* Two different actions of one state never compare equal, so the address comparison that would break a tie in
  `actioncmp` is never reached (`Actions.RawNeverTies`).
* What the driver has shifted always begins a sentence, whatever it was fed and however conflicts were resolved
  (`Termination.ShiftedBeginsSentence`), provided every nonterminal that occurs in a sentential form generates some
  terminal string. Without conflicts, and with the same proviso, every call of `Parse` ends, on wrong tokens as well
  (`Termination.CallEnds`). When precedence has settled a conflict it need not: `S ::= A b`, `A ::= A`, `A ::= a` with
  a binding tighter than b (`Cycling.NeedNotEnd`).
* Of two rules that a state reduces by equally often the default is the one whose first reduction comes first in the
  sorted list (`Compress.DefaultDecided`), so the cells after compression are determined by those before
  (`Compress.CellsDetermined`).
* Nodes that compare equal do not stay in their order in `msort`, nor are they simply turned round: they come out in
  blocks, one for each binary digit of the length, each block turned round (`Ties.TiesInBlocks`).
* Because ResortStates puts states with fewer gotos last, the emitted `yy_reduce_ofst` ends with the last state that
  has any and has no gap but perhaps at state 0 (`Tables.NoGaps`).
* Where comments and code disagree the model follows the code. A comment (src/lemon.c:590-593) says that without a
  hole the index is left at `nAction`, so that the transaction is appended; the code leaves it at `nActionAlloc -
  mxLookahead`, and checks nothing there.
* `preprocess_input` reports a missing `%endif` only if the condition of the open directive does not hold
  (`Preprocess.UnclosedIsNoticedIfExcluded`); and since it skips white space of any kind before a macro name, the name
  may stand on a later line. The model follows the code in both.
* The comments of the codec name RFC 1113; alphabet and padding are those of section 4 of RFC 4648 as well.
* In the Base64 decoder the scratch bytes that a short last group does not set may hold anything. Nothing of it
  reaches the output: the decoder's contract speaks only of the alphabet characters of the text.

## Model

| member | source | states |
|---|---|---|
| `FirstSets.FindLambdas` | src/lemon.c:675-695 | terminates; `lambda` holds exactly for the nonterminals that derive the empty string |
| `FirstSets.FindFirstSets` | src/lemon.c:668-724 | terminates; `lambda` is exact and `firstset` of a nonterminal is exactly the terminals that begin some sentential form derived from it |
| `FirstSets.AddFirstOfRule` | src/lemon.c:700-721 | one pass over a right-hand side adds to the left-hand side exactly the first sets of the symbols up to the first that cannot vanish, and nothing to any other symbol |
| `FirstSets.ScanExact` | src/lemon.c:700-721 | with exact sets, that scan finds exactly the terminals that can begin a symbol string |
| `FirstSets.NullExact` | src/lemon.c:684-691 | with exact `lambda`, a string derives the empty string exactly if all its symbols do |
| `MergeSort.Merge` | src/lemon.c:1586-1629 | merging two sorted lists equals the specification that takes the smaller head, the first list's on a tie |
| `MergeSort.MergedSorted` | src/lemon.c:1586-1629 | the merge of sorted lists is sorted |
| `MergeSort.MergedNodes` | src/lemon.c:1586-1629 | and has exactly the nodes of both |
| `MergeSort.CarryKeeps` | src/lemon.c:1645-1655 | placing a list in the bins loses nothing unless the last bin is overwritten |
| `MergeSort.SizeBound` | src/lemon.c:1645-1655 | bin i below the last is empty or holds 2^i nodes, so the bins hold less than 2^30 exactly while the last one is free |
| `MergeSort.SortResult` | src/lemon.c:1638-1662 | the lists merged out of the bins are sorted, and are all nodes if and only if there are fewer than 2^30 |
| `MergeSort.MSort` | src/lemon.c:1638-1662 | returns a sorted list, a permutation of the input if and only if it has fewer than 2^30 nodes, written as a number; it is what the bins merge to, of which `Ties` tells the order |
| `Ties.TiedMerged` | src/lemon.c:1586-1629 | merging sorted lists keeps the order of the nodes that compare equal to any given one, those of the first list first |
| `Ties.TiesInBlocks` | src/lemon.c:1638-1662 | with fewer than 2^30 nodes those that compare equal come out as if the input had been cut into blocks of the powers of two that make up its length, the largest first, and each block turned round |
| `Ties.SortedDetermined` | src/lemon.c:1638-1662 | sorted lists with the same equal nodes in the same order are the same, so the two together say what the sort returns |
| `Items.ClosureIsLeast` | src/lemon.c:1233-1275 | the closure of a set contains it, is closed under adding the rules of the symbols after marks, and is in every such set |
| `Items.ClosureUnique` | src/lemon.c:1233-1275 | any closed set that every closed superset of the kernel contains is the closure |
| `States.SortItems` | src/lemon.c:1278-1289 | sorting a configuration list makes it strictly ascending, by rule and then by mark, with the same items |
| `States.StrictUnique` | src/lemon.c:4656-4668 | sorted bases are equal as lists exactly if they are equal as sets, so comparing them item by item decides identity of states |
| `States.ScanSuffix` | src/lemon.c:1241-1266 | the scan behind the mark adds exactly the terminals that can begin the rest of the rule, and finds out whether all of it can vanish |
| `States.ConfiglistClosure` | src/lemon.c:1233-1275 | the list becomes exactly the least closure; follow-set seeds are exactly what spawning items contribute; forward links are exactly those over which all lookaheads pass |
| `States.StateFind` | src/lemon.c:4794-4807 | finds the state with the basis, or that there is none |
| `States.GatherBasis` | src/lemon.c:868-886 | from one configuration on, the basis gathered for a symbol is exactly the set of all advanced items, each linked back to where it came from |
| `States.MergeLinks` | src/lemon.c:803-813 | when the state exists already, its back links gain those of the new basis and nothing else changes |
| `States.CreateState` | src/lemon.c:814-827 | a new state has the sorted closure of its basis, with exact links and seeds |
| `States.GetState` | src/lemon.c:790-830 | returns the state of a basis, found or built, with all its successors built; terminates because item sets not in the table decrease |
| `States.BuildShift` | src/lemon.c:866-896 | one symbol handled: one SHIFT more, to the state of exactly the advanced items |
| `States.BuildShifts` | src/lemon.c:850-898 | afterwards the state has one SHIFT for every symbol after a mark, each to the set of advanced items |
| `States.FindStates` | src/lemon.c:731-787 | terminates with a finished table: state 0 has the start basis, every state its closure, links, seeds and shifts, no two the same basis; the numbers are those of a depth-first walk over the sorted items |
| `Lookaheads.BuiltIsLr0` | src/lemon.c:731-898 | the finished table is an automaton of different reachable item sets, closed under goto |
| `Lookaheads.StatesAreReachableSets` | src/lemon.c:731-898 | the bases are exactly the item sets that some prefix leads to from the start basis |
| `Lookaheads.KernelIsState` | src/lemon.c:790-898 | every prefix whose item set is not empty leads to a state |
| `FollowSets.FindLinks` | src/lemon.c:903-930 | the forward links are then exactly the old ones and the old back links turned round; nothing else changes |
| `FollowSets.PushOne` | src/lemon.c:950-959 | passing a set over a link keeps every set within what can arrive, and marks a configuration that gained something as incomplete again |
| `FollowSets.PushConfig` | src/lemon.c:946-963 | keeps the invariant that the set of a COMPLETE configuration is included in those of all its link targets |
| `FollowSets.FindFollowSets` | src/lemon.c:938-968 | terminates; a terminal is in a follow set exactly if it was initially in that of a configuration from which links lead there: the least solution |
| `Lookaheads.BuiltIsLinked` | src/lemon.c:903-930 | every propagation link of the finished table leads to a configuration |
| `Lookaheads.LinksAreFlows` | src/lemon.c:903-930 | after FindLinks, links are exactly the closure steps with vanishing rest and the shifts, between items of the automaton |
| `Lookaheads.FollowSetsSolve` | src/lemon.c:903-968 | so the follow sets are the least lookahead sets of the automaton |
| `Lookaheads.Lr1Arrives` | src/lemon.c:1233-1275 | every canonical LR(1) lookahead of an item arrives in the state that its prefix leads to |
| `Lookaheads.LookaheadIsLr1` | src/lemon.c:938-968 | what open items start with, and what flows on from there, are canonical LR(1) lookaheads on some prefix of the state |
| `Lookaheads.Lr1IsOpen` | src/lemon.c:1233-1275 | every canonical LR(1) item is open, and its lookahead comes from an open item |
| `Lookaheads.Lr1Exact` | src/lemon.c:938-968 | so the canonical LR(1) lookaheads of an item are exactly those, in every grammar |
| `Lookaheads.GeneratingIsLively` | src/lemon.c:668-724 | grammars whose nonterminals, as far as they occur, generate terminal strings are lively |
| `Grammars.UnusedNeverOccurs` | src/lemon.c:1458-1476 | a symbol that no rule uses, such as `error`, does not occur, so nothing is asked of it |
| `Lookaheads.FollowSetsExact` | src/lemon.c:938-968 | the follow set of an item holds all its canonical LR(1) lookaheads over all prefixes that lead to its state; those are what comes from open items; in a lively grammar it holds nothing else |
| `Lookaheads.ExactEverywhere` | src/lemon.c:938-968 | all follow sets are exactly the canonical lookaheads if and only if what any item starts with comes from open items too |
| `Lookaheads.StartLookahead` | src/lemon.c:769-777 | the only lookahead of a start rule is `$` |
| `Actions.ActioncmpAtOrders` | src/lemon.c:376-392 | wherever the actions lie in memory, the comparison is a total preorder, by symbol, type, rule and address |
| `Actions.RawNeverTies` | src/lemon.c:386-391 | two different actions that a state could take never compare equal, so their addresses are never compared |
| `Actions.RawOrderAt` | src/lemon.c:1008-1012 | so sorting by it gives the same list for every layout in memory |
| `Actions.ResolveConflict` | src/lemon.c:1057-1118 | case by case, of two live actions: against a shift the reduction loses if the token binds tighter, or as tight and associates to the right, the shift if the rule binds tighter, or as tight and the token associates to the left; of two reductions the one that binds less tightly; in all other cases the second one, counted as an error; an action that has lost before changes nothing; the asserts hold |
| `Actions.ResolvePair` | src/lemon.c:1018-1025 | a pair does nothing unless its first action is the one standing on the symbol, and then that meets the next action and the documented rule decides; the count is right |
| `Actions.ResolveAll` | src/lemon.c:1013-1027 | the all-pairs loop is, on every symbol, a contest in which the action that stands meets the next one and the winner stands, however many there are; the number returned is the number left in conflict |
| `Actions.ChampionStands` | src/lemon.c:1018-1025 | of the actions on a symbol exactly the last one standing is live, and it is as it was |
| `Actions.OneStands` | src/lemon.c:1018-1025 | no two actions on one symbol are live afterwards |
| `Actions.FateOf` | src/lemon.c:1057-1118 | every action is as it was, or lost one contest, to an action live at the time, and has the type of that defeat |
| `Actions.AllReduces` | src/lemon.c:984-1000 | adds exactly one REDUCE for each completed item and each terminal of its follow set |
| `Actions.ActState` | src/lemon.c:974-1027 | one state: reductions, accept, sort, resolution |
| `Actions.FindActions` | src/lemon.c:974-1027 | every state ends with the resolved actions that the automaton and its lookaheads allow, and `nconflict` is the number of actions in all states that are left with one of the three conflict types |
| `Actions.RawIsContest` | src/lemon.c:1008-1016 | in sorted order no symbol has two SHIFTs, SHIFT stands before REDUCE, and ACCEPT is alone: what the asserts of resolve_conflict rest on |
| `Actions.RawSize` | src/lemon.c:1015 | the lists are short enough for the sort |
| `Actions.BuiltShifts` | src/lemon.c:888-896 | the SHIFTs made with the states are exactly those of the automaton |
| `Actions.ActedLive` | src/lemon.c:1013-1027 | afterwards every symbol that had an action has exactly one live one |
| `Actions.OutWasBeaten` | src/lemon.c:1057-1118 | an action that is out lost, by the documented rule, to another that its state could take on the same symbol, and its type says how |
| `Actions.ConflictFreeIfAllLive` | src/lemon.c:1013-1027 | a grammar has no conflicts exactly if resolution puts no action out |
| `Operators.ShiftOrReduce` | src/lemon.c:1068-1087 | where a state can shift a token and reduce by a rule on it, the cell after FindActions, and the number of conflicts there, by precedence and associativity: reduce if the rule binds tighter or equally and LEFT, shift if the token does or equally and RIGHT, else shift and one conflict |
| `Operators.ReduceOrReduce` | src/lemon.c:1088-1099 | where it can reduce by two rules, the tighter one, else the earlier one and one conflict |
| `Operators.NothingDecides` | src/lemon.c:1013-1027 | any number of actions on a symbol for which neither decides: the shift stays, or else the earliest rule, and all others are conflicts |
| `Associativity.Associates` | src/lemon.c:1079-1082 | with `%left` the tables that the passes make for a binary operator let the driver reduce the first two operands of a chain of three before it shifts the second operator; with `%right` it shifts first |
| `Actions.SeedTerminal` | src/lemon.c:938-968 | lookaheads are terminals |
| `Machine.StepSound` | src/lempar.c:741-848 | one round of the loop keeps the stack a path of the automaton that derives, by the reductions so far, the tokens shifted; accepting happens only on `$` |
| `Machine.ReductionWorks` | src/lempar.c:553-626 | a selected rule matches the top of the stack, which is deep enough, and the uncovered state has a goto on the left-hand side, or is state 0 alone on the stack and accepts |
| `Machine.ItemOnStack` | src/lemon.c:850-898 | whatever stands before the mark of an item of the top state is on top of the stack |
| `Machine.GoesSomewhere` | src/lemon.c:1008-1011 | under a completed right-hand side there is a goto, or for a start rule the bottom of the stack |
| `Machine.SoundCanAct` | src/lempar.c:744 | in a sound configuration every assert of the round holds, and `$` is not shifted |
| `Machine.NeverStuck` | src/lempar.c:446-471 | so they hold in every reachable configuration, on any input |
| `Machine.AcceptedIsDerived` | src/lempar.c:701-850 | when the driver accepts, the reductions it performed, reversed, are a rightmost derivation of the tokens it shifted, and those are the whole input if there was no syntax error or overflow |
| `Machine.RightmostDerives` | src/lempar.c:553-626 | a rightmost derivation is a derivation |
| `Machine.StepsRun` | src/lempar.c:741-848 | over any number of rounds nothing is lost between the input and the log |
| `Machine.SameRun` | src/lemon.c:4115-4169 | compression preserves parses: a run takes the same course on the compressed table, event by event, if and only if no token is rejected in a state that has a default for it |
| `Machine.CleanRun` | src/lemon.c:4115-4169 | so does a run on which nothing is rejected |
| `Recovery.RejectedDiffers` | src/lempar.c:824-847 | a grammar and an input on which the table of FindActions and the compressed one, both as the passes make them, recover from a wrong token differently |
| `Completeness.ForestOfDerivation` | src/lempar.c:741-848 | every derivation of a terminal string has parse trees |
| `Completeness.RunTree` | src/lempar.c:741-848 | reading a tree where its root is expected, with the right lookahead, the driver makes exactly its shifts and reductions |
| `Completeness.SentenceAccepted` | src/lempar.c:701-850 | every sentence is accepted without error, given enough stack |
| `Completeness.AcceptsExactlyTheLanguage` | src/lempar.c:701-850 | without conflicts the driver accepts exactly the language of the grammar |
| `Termination.EverythingCompletable` | src/lemon.c:731-898 | for every item of a state that a stack leads to there are terminals that can come after its rule |
| `Termination.ShiftedBeginsSentence` | src/lempar.c:701-850 | whatever the parser has been fed, the tokens it has shifted begin a sentence: a wrong token is noticed before it is shifted |
| `Termination.Finish` | src/lempar.c:741-848 | without conflicts the driver, on any stack, reads any completion of it and accepts, with nothing but shifts and reductions |
| `Termination.Retrace` | src/lempar.c:741-848 | reductions on one token, defaults on a wrong one included, are also made on the first token of a completion of the stack that they lead to |
| `Termination.ReductionsEnd` | src/lempar.c:741-848 | without conflicts the reductions on any one token come to an end |
| `Termination.CallEnds` | src/lempar.c:701-850 | so every call of Parse ends, after a number of rounds that no depth of stack changes |
| `Cycling.NeedNotEnd` | src/lempar.c:741-848 | a grammar, with the rule A to A, for which precedence settles a conflict and the parser that the passes make never ends on a sentence |
| `Compress.FindBest` | src/lemon.c:4130-4149 | finds the rule, not of the start symbol, that most reductions of the list are by, and of several the one whose first reduction comes first in the list; or that there is none |
| `Compress.Combine` | src/lemon.c:4158-4167 | the first of its reductions becomes the default, the others are out |
| `Compress.CompressState` | src/lemon.c:4115-4169 | the live actions are then all others and one default, still one for each symbol |
| `Compress.CompressTables` | src/lemon.c:4115-4169 | the same for every state; nothing else of a state changes |
| `Compress.DefaultDecided` | src/lemon.c:4130-4167 | the default of a compressed list: by the rule with the largest number of reductions in the list before, and among equals the one that appears first; no reduction by it is left beside, and nothing else changes |
| `Compress.BestIsOne` | src/lemon.c:4145 | only one rule is the first of the most frequent |
| `Compress.CompressedDetermined` | src/lemon.c:4115-4169 | whatever two compressed lists of one list are, the same actions are live in them |
| `Compress.CellsDetermined` | src/lemon.c:4115-4169 | so every cell after CompressTables is determined by the lists before |
| `Compress.CellCompressed` | src/lemon.c:4115-4169 | a cell with a live action keeps it; an error cell may become a reduction that the state could do, never by a start rule |
| `Compress.CompressedAgrees` | src/lemon.c:4115-4169 | so the compressed table acts like the other wherever that acts at all, with the same gotos |
| `Compress.ActedFaithful` | src/lemon.c:974-1027 | the table of FindActions never does what its state does not allow and has all gotos |
| `Compress.CompressedFaithful` | src/lemon.c:4115-4169 | and the compressed table neither, defaults included |
| `Compress.ActedComplete` | src/lemon.c:974-1027 | without conflicts it has every shift, goto and reduction of the automaton |
| `Compress.CompressedComplete` | src/lemon.c:4115-4169 | and keeps them when compressed |
| `Resort.CountActions` | src/lemon.c:4206-4222 | the counts of a state are the lengths of the rows it will contribute, and its default is the code of its default reduction, else of the error action |
| `Resort.SortStates` | src/lemon.c:4224-4225 | all states once, state 0 first, the others strictly in the order of the comparison |
| `Resort.ResortStates` | src/lemon.c:4178-4228 | the new numbers and the sorted vector are inverse to each other, state 0 keeps its number; of the others those with more nonterminal actions come first, then those with more terminal actions, then those with the higher old number |
| `Resort.RenumberedFaithful` | src/lemon.c:4199-4228 | the table in the new numbers is as faithful as before |
| `Resort.RenumberedComplete` | src/lemon.c:4199-4228 | and as complete: lookaheads do not depend on the numbering |
| `Resort.RenumberedLr0` | src/lemon.c:4199-4228 | the automaton is the same in the new numbers |
| `ActtabModule.Acttab.constructor` | src/lemon.c:481-489 | a new table is empty |
| `ActtabModule.Acttab.AddAction` | src/lemon.c:496-520 | appends to the transaction, growing its array, and keeps its smallest and largest lookahead |
| `ActtabModule.Acttab.EnsureRoom` | src/lemon.c:533-553 | the growth step keeps the slots and makes the array larger than the slots in use and the largest lookahead |
| `ActtabModule.Acttab.FindDuplicate` | src/lemon.c:555-585 | finds an index at which exactly the transaction is already found, or that there is none |
| `ActtabModule.Acttab.IsDuplicate` | src/lemon.c:561-584 | matching all actions and counting the slots that point to the offset decides exactness |
| `ActtabModule.CountDecides` | src/lemon.c:574-584 | once the transaction is in place, the count equals its length exactly if nothing else is found there |
| `ActtabModule.Acttab.FindHole` | src/lemon.c:591-611 | stops at the first hole, or at the end of the scan; all accesses are in bounds |
| `ActtabModule.Acttab.Place` | src/lemon.c:613-618 | writes the transaction, and only its slots |
| `ActtabModule.Acttab.Insert` | src/lemon.c:529-622 | a transaction that is there is reused, at the greatest offset at which it is, any other goes into free slots, at the first hole below the cut-off or else at the cut-off; the offset is told from the table before the call; exactly the transaction is found there if and only if it was placeable |
| `ActtabModule.LandsOnce` | src/lemon.c:555-611 | that description of the offset, last duplicate, else first hole, else the end of the scan, fits only one |
| `ActtabModule.InsertedFound` | src/lemon.c:613-618 | wherever it lands, its own actions are found at the returned offset |
| `ActtabModule.FoundKept` | src/lemon.c:613-618 | and stay so over every later insertion, placeable or not |
| `ActtabModule.HeadroomSuffices` | src/lemon.c:591-611 | a hole is found whenever the array exceeds the slots in use plus both extreme lookaheads |
| `ActtabModule.InsertedKeeps` | src/lemon.c:529-622 | later placeable insertions never disturb or alias earlier ones, duplicates included |
| `ActtabModule.MixedForever` | src/lemon.c:613-618 | an offset that finds a foreign action keeps doing so |
| `ActtabModule.RunExact` | src/lemon.c:529-622 | after any run of insertions all can be looked up if and only if each could when it was made |
| `Encoding.EntriesTransaction` | src/lemon.c:3767-3788 | the actions that a state contributes to a row are on different symbols |
| `Encoding.EntryOf` | src/lemon.c:3063-3074 | a row has an entry exactly for the symbols with a live action, with its code |
| `Packing.Axsets` | src/lemon.c:3747-3762 | one row of terminals and one of nonterminals for every state |
| `Packing.SortedAxsets` | src/lemon.c:3584-3595 | sorting them by the comparison packs each row once, those with most actions first, so the loop may stop at the first empty one; of rows with as many the one of the later state first, and of one state that of nonterminals |
| `Packing.AddRow` | src/lemon.c:3767-3788 | the acttab_action calls of a row make exactly its transaction |
| `Packing.PackRow` | src/lemon.c:3765-3793 | a row is inserted, at the offset that the table before the call tells, which is never the mark for none |
| `Packing.PackLoop` | src/lemon.c:3764-3795 | the loop over the sorted rows is a run of such insertions from the empty table, up to the first empty row; minimum and maximum offsets are right |
| `Packing.PackRows` | src/lemon.c:3764-3795 | all rows with actions get real offsets, within the bounds noted, at which their own actions are found |
| `Packing.HarmlessDecides` | src/lemon.c:3764-3795 | an insertion leaves no state with a stray, a foreign action found in place of its default, if and only if there was none and, told before it, the row makes none for itself nor for a row at the same offset |
| `Packing.SafeDecides` | src/lemon.c:3764-3795 | after the whole run no state has a stray if and only if every row was safe when it was packed, each told from the table before it |
| `Packing.PlaceableIsHarmless` | src/lemon.c:591-611 | a row that is a duplicate, or finds a hole, or ends at an offset nothing is looked up at, is safe |
| `Tables.WriteSlots` | src/lemon.c:3790-3822 | the two arrays hold the slots, and in empty ones the number of symbols as lookahead and the code above all actions |
| `Tables.WriteOfsts` | src/lemon.c:3832-3875 | the offset array is cut off behind the last state with a row and has the mark for the other states without one |
| `Tables.ReportTable` | src/lemon.c:3736-3887 | all arrays together, with the defaults and the constants for the least and greatest offsets and for states without a row |
| `Tables.NoGaps` | src/lemon.c:3849-3871 | the array of goto offsets reaches exactly to the last state with a goto and, but for state 0, no state within it has the mark: what sorting the states is for |
| `Tables.OfstRead` | src/lempar.c:388-391 | testing the bound and the mark, which is never a real offset, reads the offset of the state |
| `Tables.ShiftLive` | src/lempar.c:381-433 | in every emitted table the lookup of a terminal on which the state's list has a live action gives that action |
| `Tables.ShiftDefault` | src/lempar.c:381-433 | on any other terminal it gives the default if and only if the slot it looks at is not a stray |
| `Tables.ShiftActionRefines` | src/lempar.c:381-433 | for each state: all terminals are looked up right if and only if it has no terminal row, or one without strays |
| `Tables.ReduceActionRefines` | src/lempar.c:446-471 | in every emitted table, for every goto the asserts of its lookup hold and it gives the goto |
| `Tables.RefinesIfSafe` | src/lemon.c:3764-3795 | the emitted tables agree with the cells everywhere if and only if every row was safe to pack |
| `Misparse.IsLr0` | src/lemon.c:731-898 | the eleven item sets of the grammar with the rules ABCD, CE, BFGH and the empty one are its automaton |
| `Misparse.NoConflict` | src/lemon.c:1013-1027 | it has no conflicts |
| `Misparse.WrongLookup` | src/lempar.c:381-433 | in all tables that come of it one lookup gives a shift where the cell is an error: not all of its rows are safe |
| `Misparse.Underflow` | src/lempar.c:602-604 | on C E H $ the driver then reduces a rule of four symbols with three entries above the bottom of its stack |
| `Misparse.NumbersFound` | src/lemon.c:790-898 | FindStates numbers them so |
| `Misparse.Generates` | src/lemon.c:1458-1476 | all that occurs in this grammar generates something, although `error` is one of its symbols |
| `Misparse.GenerateWrongly` | src/lemon.c:1482-1520 | the whole generator makes such tables of it, on which the driver gets stuck |
| `Parsers.CodeReads` | src/lempar.c:743-750 | the comparisons with YYNSTATE and YYNRULE tell the codes of shift, reduce, error and accept apart |
| `Parsers.Parser.PopStack` | src/lempar.c:320-336 | pops one entry, or nothing from an empty stack |
| `Parsers.Parser.StackOverflow` | src/lempar.c:476-489 | empties the stack |
| `Parsers.Parser.Shift` | src/lempar.c:494-535 | pushes, or empties the stack when it is full |
| `Parsers.Parser.FindShift` | src/lempar.c:381-433 | reads the tables as the specification of the lookup does |
| `Parsers.ActionReads` | src/lempar.c:741-750 | in every sound configuration the code looked up is that of the cell, and one of shift, reduce and error |
| `Parsers.GotoReads` | src/lempar.c:446-471 | once the right-hand side has been popped, the asserts of the goto lookup hold and the code is that of the goto or of accept |
| `Parsers.Parser.Reduce` | src/lempar.c:553-626 | performs the reduction of the step function; the assert behind it holds |
| `Parsers.Parser.Accept` | src/lempar.c:666-679 | empties the stack |
| `Parsers.Parser.Parse` | src/lempar.c:701-850 | one call is a number of rounds of the step function on that token, from the initial state if the parser was not parsing, and keeps it sound; all asserts hold; a call with `$` that has ended leaves the parser not parsing |
| `Parsers.Parser.ParseToken` | src/lempar.c:701-850 | the same loop, with nothing to cut it off, for every call that halts: it ends with the token used up or the parser no longer parsing, and with `$` always not parsing |
| `Parsers.CallHalts` | src/lempar.c:701-850 | without conflicts every call halts |
| `Parsers.CallsCompose` | src/lempar.c:701-850 | calls, one for each token, are the run on the whole input |
| `Parsers.Parser.Feed` | src/lempar.c:701-850 | a client that makes a call for every token of an input, without conflicts: all of them return; a parser that was not parsing does what a new one does, and after `$` none is parsing |
| `Calls.ParsingUnlessEnded` | src/lempar.c:666-848 | whatever it is fed, a parser is no longer parsing exactly if the last that it did was to accept, to overflow, or to reject `$` |
| `Calls.RejectionKeepsStack` | src/lempar.c:837-845 | a rejected token other than `$` is thrown away and the stack is as it was |
| `Calls.QuietAfterError` | src/lempar.c:727-840 | while parsing, yyerrcnt is positive exactly if a token has been rejected and fewer than three have been shifted since |
| `Calls.OverflowsWhenFull` | src/lempar.c:500-510 | the stack overflows exactly if it holds YYSTACKDEPTH entries and a shift, or a goto after popping nothing, is to push another |
| `Calls.EndOfInput` | src/lempar.c:842-848 | a call with `$` that ends leaves a sound parser not parsing |
| `Calls.CallOnce` | src/lempar.c:701-850 | a call has one outcome |
| `Calls.NextInput` | src/lempar.c:717-730 | the calls for `v $ w` do on `w` what those of a new parser do on `w`, whatever `v` was |
| `Generator.Analyse` | src/lemon.c:1487-1506 | the analysing passes in order give resolved actions on the automaton of all reachable item sets |
| `Generator.Emit` | src/lemon.c:1509-1520 | the emitting passes in order give tables of a faithful cell table, complete without conflicts; gotos and live actions are always right, and the tables refine the cells if and only if every row was safe to pack |
| `Generator.Generate` | src/lemon.c:1482-1520 | the whole generator, for every valid grammar: the same of its tables, and of the automaton of all reachable item sets, numbered as found |
| `Generator.GeneratedParser` | src/lemon.c:1482-1520 | the emitted tables refine the cells, so that the driver runs as these say, if and only if every row was safe to pack; on the cells only sentences are accepted, and all of them if the grammar has no conflicts |
| `Generator.GeneratedParserEnds` | src/lempar.c:701-850 | if every nonterminal that occurs generates something, what has been shifted begins a sentence, and without conflicts every call ends |
| `Strays.SeenParser` | src/lempar.c:381-433 | whatever strays there are, the emitted tables stand for some faithful cells if and only if each state could do all that the driver sees there; and for complete ones, without conflicts, if and only if it also sees each reduction on its lookaheads |
| `Strays.SeenSound` | src/lempar.c:701-850 | then they never get stuck, on any input, and accept only sentences |
| `HashTables.HashTable.Find` | src/lemon.c:4794-4807 | returns the datum first inserted under the key, or nothing |
| `HashTables.HashTable.Insert` | src/lemon.c:4736-4791 | inserts exactly if the key is new, behind all earlier entries; nothing is overwritten, also when the table doubles, which it does exactly if it is full |
| `HashTables.HashTable.Grow` | src/lemon.c:4754-4779 | doubling rebuilds the chains and keeps the entries and their order |
| `HashTables.HashTable.Clear` | src/lemon.c:4951-4959 | empties the table |
| `HashTables.LinkedIn` | src/lemon.c:4781-4790 | a node put at the head of its chain keeps every chain what it should be |
| `HashTables.MaskIsRemainder` | src/lemon.c:4742-4743 | masking with a size that is a power of two, less one, is the remainder by the size, for negative hashes too |
| `HashTables.RunAll` | src/lemon.c:4725-4807 | a table, with any hash function, after any run of insertions and clears, has the entries that those leave |
| `HashTables.FindAfter` | src/lemon.c:4794-4807 | so a key is found in it exactly if it was inserted since the last clear, with the datum of the first such insertion |
| `HashTables.FoundIsFirstInserted` | src/lemon.c:4371-4440 | what those entries hold for a key: nothing, or the datum of its first insertion since the last clear |
| `Preprocess.WordAt` | src/lemon.c:2469-2478 | strncmp and isspace recognise a directive word |
| `Preprocess.IsDefined` | src/lemon.c:2482-2490 | finds the macro name and whether it is defined |
| `Preprocess.HandleLine` | src/lemon.c:2469-2497 | one line: the counter, the remembered start, and what is blanked |
| `Preprocess.PreprocessInput` | src/lemon.c:2460-2504 | the buffer becomes what the counter leaves of its lines, and for text made of blocks what their conditions leave; length and newlines never change; the error is reported exactly if the counter is not zero at the end, with the line at which it last left zero |
| `Preprocess.CounterIsBlock` | src/lemon.c:2460-2504 | on balanced text the counter does what the nested blocks mean: text survives if and only if all conditions around it hold, and the counter is as before |
| `Preprocess.CounterIsBlocks` | src/lemon.c:2460-2504 | the same for a sequence of blocks |
| `Preprocess.UnclosedIsNoticedIfExcluded` | src/lemon.c:2499-2502 | an open directive is reported exactly if its condition does not hold, and then with its own line number |
| `Conditionals.Parsed` | src/lemon.c:2469-2497 | the preprocessor finds the lines of a written block, with the directives meaning: `%ifdef` that the macro is defined, `%ifndef` that it is not |
| `Conditionals.PreprocessWritten` | src/lemon.c:2460-2504 | on every written text, character by character: a line that is no directive is left exactly if all macros of the `%ifdef` around it are defined and none of those of the `%ifndef` around it, and everything else but newlines is a space |
| `Conditionals.PreprocessUnclosed` | src/lemon.c:2499-2502 | with a directive that has no `%endif` the error is reported exactly if its text is not wanted, with the number of its line |
| `Conditionals.OneBlock` | src/lemon.c:2484-2491 | one line under one directive, letter by letter: what the buffer holds afterwards, for any macro, any line and any blanks between |
| `DBuffers.DBuffer.constructor` | src/KIARA/CDT/kr_dbuffer.c:38-45 | a fresh buffer is empty |
| `DBuffers.DBuffer.FromData` | src/KIARA/CDT/kr_dbuffer.c:47-55 | a buffer over given memory |
| `DBuffers.DBuffer.ReallocData` | src/KIARA/CDT/kr_dbuffer.c:65-88 | keeps the common part, whoever owned the memory |
| `DBuffers.DBuffer.EnsureCapacity` | src/KIARA/CDT/kr_dbuffer.c:153-164 | contents stay; the capacity at least doubles when it grows |
| `DBuffers.DBuffer.AppendMem` | src/KIARA/CDT/kr_dbuffer.c:220-230 | contents gain the bytes; the amortised bound is kept |
| `DBuffers.DBuffer.AppendByte` | src/KIARA/CDT/kr_dbuffer.c:232-240 | contents gain the byte; the amortised bound is kept |
| `DBuffers.AppendAll` | src/KIARA/CDT/kr_dbuffer.c:153-240 | any run of appends gives the concatenation of n bytes, in capacity at most 2n, with at most 2n bytes moved by all reallocations |
| `Base64.EncoderTable` | src/KIARA/CDT/kr_base64.c:225 | the table is the alphabet of section 4 of RFC 4648: capital letters, small letters, digits, plus and slash |
| `Base64.DecoderTable` | src/KIARA/CDT/kr_base64.c:230 | the decoding table is its inverse and rejects all other characters |
| `Base64.EncodeBlock` | src/KIARA/CDT/kr_base64.c:271-277 | the characters of a group are the digits to base 64 of its 24-bit number, with padding |
| `Base64.PartsAre` | src/KIARA/CDT/kr_base64.c:271-277 | the shifts and masks on bytes, as quotients and remainders |
| `Base64.DigitsAreShifts` | src/KIARA/CDT/kr_base64.c:271-277 | they compute the digits to base 64 of the 24-bit number |
| `Base64.DecodeBlock` | src/KIARA/CDT/kr_base64.c:389-394 | the bytes are those shifts and disjunctions of any four input bytes |
| `Base64.JointsAre` | src/KIARA/CDT/kr_base64.c:389-394 | on values of alphabet characters no bits fall together: they are sums of quotients and remainders |
| `Base64.ShiftsBack` | src/KIARA/CDT/kr_base64.c:389-394 | the decoder's shifts undo the encoder's, for all bytes |
| `Base64.ReadGroup` | src/KIARA/CDT/kr_base64.c:294-307 | reads up to three bytes, filled up with zero bytes |
| `Base64.Encode` | src/KIARA/CDT/kr_base64.c:281-331 | appends, with no line size, the text of section 4 of RFC 4648, character by character: each the letter for the next six bits, then padding; with one, the same text in lines, each followed by CR and LF, all but the last of 4 * max(1, linesize / 4) characters, the last of at least 4 and at most as many; the buffer's bound is kept |
| `Base64.NextValue` | src/KIARA/CDT/kr_base64.c:467-486 | skips noise up to the next alphabet character or the end |
| `Base64.ReadValues` | src/KIARA/CDT/kr_base64.c:463-499 | reads up to four values; bytes it does not reach keep what they hold |
| `Base64.GroupBytes` | src/KIARA/CDT/kr_base64.c:500-512 | the bytes output for a group depend on its values only |
| `Base64.Decode` | src/KIARA/CDT/kr_base64.c:452-515 | appends exactly the whole bytes that the six-bit values of the alphabet characters of the text make up, wherever in it those stand, from arbitrary scratch arrays |
| `Base64.NoiseIsSkipped` | src/KIARA/CDT/kr_base64.c:467-486 | other characters may stand anywhere without changing the result |
| `Base64.RoundTrip` | src/KIARA/CDT/kr_base64.c:281-515 | decoding what was encoded gives the data back, for every data and every line size |
| `Base64.EncodeDecode` | src/KIARA/CDT/kr_base64.c:281-515 | a client that calls the two in turn has its data back |
| `Base64.LinesFit` | src/KIARA/CDT/kr_base64.c:322-329 | with a positive line size no line has more than max(4, 4 * (linesize / 4)) characters |
| `Base64.NoBreaks` | src/KIARA/CDT/kr_base64.c:322-329 | without one there are no line breaks, and four characters for each started group |
| `Base64.PlainSpells` | src/KIARA/CDT/kr_base64.c:281-331 | character p of the unbroken text is the letter for the bits 6p to 6p + 5 of the data, or padding where no bit is left |
| `Base64.EncodedInLines` | src/KIARA/CDT/kr_base64.c:321-328 | with a line size the text is the unbroken one in lines filled as far as whole blocks go |
| `Base64.BytesRegrouped` | src/KIARA/CDT/kr_base64.c:500-512 | byte j that is decoded is the bits 8j to 8j + 7 of the values, and all whole bytes are there |
| `Base64.ReadValuesOff` | src/KIARA/CDT/kr_base64.c:467-486 | the values are those of the alphabet characters, in their order, and of nothing else |
| `Base64.DocumentedCases` | src/KIARA/CDT/kr_base64.c:91-106 | the file's own cases 0 to 4, nothing to `ABCD` |

## Left out

- Parsers.Parser.Parse: the loop of one call is cut off after a number of rounds that the caller gives, because with conflicts resolved by precedence it need not end (`Cycling.NeedNotEnd`); the contract says whether it had ended. Without conflicts `Parsers.Parser.ParseToken` has no such bound.
- Termination.CallEnds: for grammars in which every nonterminal that occurs in a sentential form generates some terminal string; nothing is claimed when one that occurs generates none. The same holds of `Termination.ShiftedBeginsSentence`.
- Semantic values, destructors, tracing and the calls of user code are not modelled, nor is the count of suppressed error messages beyond the parser's error count.
- Tables.ReportTable: only the arrays and the constants that go with them, not their text.
- States.StateFind: searches the state vector itself; that a hash table keyed by the basis finds the same is what `HashTables.HashTable.Find` and `HashTables.HashTable.Insert` say, whose entries are in the order of insertion, as the state numbers are.
- Configurations, propagation links and actions are values held in fields of the state vector, named by state and item, instead of nodes on the heap; sets of terminals are sets of numbers instead of character arrays. Node reuse (free lists) and memory management are left out, and so is aliasing between lists.
- `MULTITERMINAL`, `%fallback`, `%wildcard`, the error symbol and the variants of the parser that depend on it.
- The generator's option not to resort, and the one not to compress.
- `qsort` and the hash function are parameters with their contracts.
- `FindRulePrecedences`, the warnings about rules never reduced and nonterminals without rules, and everything that reads or writes files: the grammar scanner, the report, the template.
- Allocation always succeeds; machine integers do not overflow, except where the sort's bins run out; the right-hand side length is not cut to a byte.
- The growing variant of the parser stack (YYSTACKDEPTH not positive) and the shortcut that stores directly into the popped slot, which does what the shift does.
- Of the buffer: reserve, resize, copy, assign, move, swap and the C string view; of the codec: the file versions, which are compiled out.
- The KIARA compiler, the LLVM tools and the other directories of the repository.
