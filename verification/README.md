# tcpkit in Dafny

A model of the logic of tcpkit, a packet sniffer that measures request latencies, and proofs
about it. Three components are covered:

1. **The BPF filter compiler and machine** of the bundled libpcap. A filter is a tree of
   and/or/not over relations between arithmetic expressions. It becomes a graph of test blocks
   whose open exits are threaded through the jump fields themselves, the graph is laid out as
   an array with 8-bit branch offsets, a validator checks the array and an interpreter runs it.
   The optimizer's analyses and rewrites of the graph are modelled as well.
2. **The JSON printer and parser** (cJSON) that writes the statistics.
3. **The latency tracker**: pending requests, timed sweeps, per-endpoint counters, the chained
   hash table below them, the request summaries, and a second thread that takes snapshots.

`dafny verify dfyconfig.toml` checks everything.

## How the model is laid out

| modules | part of the program |
|---|---|
| `Basics` | options, bytes, decimal numbers, duplicate-free sequences |
| `Machine`, `Validator` | interpreter and validator |
| `WordLaws` | what the machine's operators, tests, loads and codes mean, bit by bit and number by number |
| `Flow` | blocks, graphs and what running a graph means |
| `BoolExpr`, `Backpatch`, `FilterGraph` | boolean filter expressions, their blocks, their meaning |
| `Headers` | protocol headers and the code of protocol checks |
| `Arith`, `LostChecks` | arithmetic code, scratch registers, relations and which protocol checks they perform |
| `Order`, `Layout`, `LayoutPass`, `LayoutValid` | from the graph to the array |
| `Compile` | the whole path from a filter to a running program |
| `Dominance`, `Dominators` | levels, dominators, edge dominators |
| `Liveness`, `LivenessPass`, `DeadStores` | use-definition analysis, dead stores |
| `Traces`, `Jumps`, `Pullup`, `Intern` | jump folding, chain reordering, merging of equal blocks |
| `Optimizer` | each of these passes with the analyses that it needs, over a whole graph |
| `JsonText`, `JsonTree` | what the printer writes and the parser reads |
| `JsonGrammar`, `JsonSyntax` | the strings and the texts of RFC 8259, spelled with their own code points; the printer writes such texts |
| `JsonConform`, `JsonRoundTrip` | the parser reads every such text, so it undoes the printer |
| `JsonParse`, `JsonPrint` | the parser and the printer themselves |
| `HashTable` | the chained hash table |
| `Keys` | the strings under which endpoints and connections are stored |
| `Tracker`, `TrackerRuns`, `Sniffer` | counters, interleaved runs, the capture thread over its two hash tables |
| `History` | what a capture's packets alone say about endpoints, counters, pending requests and latencies |
| `Resp` | request summaries |

Conventions:

* A pointer to a block is its index in the compiler's arena, `NULL` is -1. Statement lists are
  sequences, bit sets are sets. The numbering `rank` of a set of blocks, falling along every
  edge, is the witness that the graph is acyclic; no result depends on which one is chosen
  (`Flow.RunIgnoresRank`).
* A test has three outcomes: true, false, or the filter returns 0 at once because a load lies
  outside the packet or a divisor is zero. The scratch memory starts with arbitrary contents.
* Machine words are integers below 2^32 with explicit wrap-around. A shift by 32 or more, which
  C leaves undefined, is given one total meaning.
* A number in a JSON tree is the bit pattern of its double; a `Codec` stands for
  `sprintf`/`strtod`, and the theorems say what they assume about it.
* Where memory may be refused, the allocator's answers are parameters: a flag, a number of
  grants, or a function from the number of the request to the answer.

Where code and comments disagree, the model follows the code:

* The validator's comment says that jumps are forward; the code accepts a backward `JA`
  (`Validator.AcceptedMayLoop`). It also accepts codes that the interpreter answers with
  `abort()` (`Validator.AcceptedMayAbort`). Termination is therefore proved for accepted programs
  without a backward `JA`, and return for those whose codes are all known.
* The use-definition pass does not look at returns, so it is unsound for a leaf that returns
  the accumulator (`Liveness.ReturnedAccumulatorIsMissed`). It is sound exactly for the leaves
  that return a constant or an accumulator that their statements use or define
  (`Liveness.LivenessSound`, `Liveness.LivenessExactAtLeaf`); removing dead stores can end that for a
  leaf (`DeadStores.PruningMayUncover`), but not for constant returns, and the code generator makes
  no others.
* `fold_edge` says that it relies on distinct constants having distinct value numbers; what it
  needs besides is that one constant has one number (`Jumps.ConstantsNumbered`).
* A comment in `gen_load` says that a load is computed only if the packet contains the protocol.
  `gen_arth` forgets the checks of its right operand, so `1 + ip[0] = 0x46` is true of packets that
  are not IP (`LostChecks.RightCheckIsLost`). A relation is true of a packet without a protocol that
  it reads exactly when a lost check fails, the others hold and the comparison is true
  (`LostChecks.WronglyTrueIff`), so never if no check is lost (`LostChecks.NothingLost`).
* `gen_arth` refuses a divisor whose *first* statement loads the constant 0, which also refuses
  `x / (0 + 1)` (`Arith.OneIsRefused`) and lets `x / (1 - 1)` through (`Arith.ZeroIsCompiled`); for a
  constant divisor the check is exact (`Arith.ConstantDivisor`).
* `parse_hex4` answers 0 for text that is not hexadecimal, so `\uzzzz` reads as a NUL
  (`JsonGrammar.NonDigitsReadAsNul`), and an escape that straddles the end of the text may use the
  closing quote (`JsonGrammar.MisalignedEscapeUsesQuote`). A unit without four digits is accepted
  exactly when six bytes remain (`JsonGrammar.NonDigitUnit`). A text that the parser accepts is a
  string of the grammar, read with its value, if and only if every `\u` that the second scan meets
  has its four digits in front of the end and no control character is unescaped
  (`JsonGrammar.AcceptedIffClean`).
* The parser passes over every byte up to a space, not only the four of the grammar
  (`JsonConform.SkippedBytes`); it reads every text of the grammar (`JsonConform.EveryJsonIsParsed`).
* `ensure` adds one byte to what its callers already ask for, so a preallocated buffer needs
  two bytes more than the text, not one (`JsonPrint.PrintPreallocated`).

## Model

| member | source | states |
|---|---|---|
| Machine.Filter | deps/libpcap/bpf_filter.c:119-396 | the interpreter loop gives the result of the step relation, for every program, packet and scratch memory |
| Machine.ExecInPlace | deps/libpcap/bpf_filter.c:146-396 | one instruction on registers and scratch memory in place: the registers change as specified, the packet is rejected exactly when a load reaches beyond it in unbounded arithmetic or a divisor is zero, and it faults exactly when a scratch index is out of range |
| Machine.InsideInd | deps/libpcap/bpf_filter.c:188-228 | the wrapped unsigned tests of an indexed load hold exactly when the load lies inside the packet in unbounded arithmetic |
| Machine.StepsCompose | deps/libpcap/bpf_filter.c:139-396 | m steps and then n steps are m + n steps |
| WordLaws.BitwiseLaws | deps/libpcap/bpf_filter.c:318-368 | bit i of AND, OR and XOR is the and, or and exclusive or of the operands' bits i |
| WordLaws.ShiftLaws | deps/libpcap/bpf_filter.c:330-376 | a shift by n moves bit i to i + n or i - n and fills up with zeros |
| WordLaws.AddSubLaws | deps/libpcap/bpf_filter.c:294-344 | subtraction undoes addition modulo 2^32 and is exact when nothing wraps |
| WordLaws.MulLaws | deps/libpcap/bpf_filter.c:302-348 | multiplication is repeated addition |
| WordLaws.DivModLaws | deps/libpcap/bpf_filter.c:306-356 | quotient and remainder of unsigned numbers |
| WordLaws.TestLaws | deps/libpcap/bpf_filter.c:262-292 | the four tests: all bits equal, at least, more than, some common bit |
| WordLaws.NegateLaw | deps/libpcap/bpf_filter.c:378-385 | NEG gives the number that adds up to 0 |
| WordLaws.HeaderLengthLaw | deps/libpcap/bpf_filter.c:222-228 | LDX MSH is four times the low four bits of a byte |
| WordLaws.ExtractLaws | deps/libpcap/bpf_filter.c:146-214 | loads are big-endian |
| WordLaws.Dimensions | deps/libpcap/bpf_filter.c:119-140 | words of 32 bits, 16 scratch registers |
| WordLaws.LoadCodes | deps/libpcap/bpf_filter.c:142-252 | the codes of loads, stores, returns and transfers as numbers, and no others |
| WordLaws.JumpCodes | deps/libpcap/bpf_filter.c:254-292 | the codes of jumps as numbers, and no others |
| WordLaws.OperatorCodes | deps/libpcap/bpf_filter.c:294-385 | the codes of arithmetic operations as numbers, and no others |
| Validator.Validate | deps/libpcap/bpf_filter.c:417-539 | accepts exactly the programs in which every instruction is allowed and the last is a return |
| Validator.CheckInsn | deps/libpcap/bpf_filter.c:430-537 | the mask tests accept exactly known modes and operations, scratch indices in range, nonzero constant divisors and jumps inside the program |
| Validator.WrappedJump | deps/libpcap/bpf_filter.c:492-515 | the unsigned wrapped range test of a JA is the range test for the interpreter's sign-extended jump |
| Validator.StepStaysInside | deps/libpcap/bpf_filter.c:254-260 | one step of an accepted program keeps the pc in range, scratch indices below 16 and never divides by a zero constant |
| Validator.AcceptedIsSafe | deps/libpcap/bpf_filter.c:417-539 | the same for every number of steps, every packet and every scratch memory |
| Validator.ForwardHalts | deps/libpcap/bpf_filter.c:417-539 | an accepted program without backward JA halts within as many steps as instructions remain |
| Validator.KnownNeverAborts | deps/libpcap/bpf_filter.c:142-145 | a program whose codes the switch knows never reaches abort() |
| Validator.KnownIffNeverAborts | deps/libpcap/bpf_filter.c:142-145 | a program never aborts from any instruction, for any number of steps, if and only if the switch knows all its codes |
| Validator.AcceptedReturns | deps/libpcap/bpf_filter.c:417-539 | an accepted program of known codes without backward JA returns a value on every packet within len steps |
| Validator.AcceptedMayLoop | deps/libpcap/bpf_filter.c:494-503 | a program with a backward JA is accepted and never halts |
| Validator.AcceptedMayAbort | deps/libpcap/bpf_filter.c:522-530 | RET with operand X is accepted and aborts |
| BoolExpr.ShapeComputesTree | deps/libpcap/gencode.c:903-928 | tests linked by the joins and flips of and/or/not compute left-to-right short-circuit evaluation, rejecting tests included |
| BoolExpr.ShapeIsGood | deps/libpcap/gencode.c:903-928 | every exit leads forward, the last test has both exits open and every other at most one |
| BoolExpr.OpenIsGood | deps/libpcap/gencode.c:841-852 | the list of open exits for an outcome starts at the last test, has no duplicates and leaves no open exit out |
| Backpatch.CodeGen.Backpatch | deps/libpcap/gencode.c:820-835 | following a list threaded through jt/jf, every block of it and no other gets the target in the field that its sense selects |
| Backpatch.CodeGen.Merge | deps/libpcap/gencode.c:841-852 | the end of the first list is linked to the second, nothing else changes |
| Backpatch.CodeGen.GenAnd | deps/libpcap/gencode.c:903-912 | two disjoint expressions in the arena become the expression of their conjunction; other blocks are untouched |
| Backpatch.CodeGen.GenOr | deps/libpcap/gencode.c:914-922 | the same for disjunction |
| Backpatch.CodeGen.GenNot | deps/libpcap/gencode.c:924-928 | flipping the last block's sense makes the expression its negation |
| Backpatch.CodeGen.NewBlock | deps/libpcap/gencode.c:617-627 | a fresh block with cleared links that is its own head |
| Backpatch.CodeGen.GenTree | deps/libpcap/gencode.c:903-928 | every tree of tests is built as a well-linked expression over its tests in order |
| Backpatch.CodeGen.FinishParse | deps/libpcap/gencode.c:854-901 | the prologue goes in front of the first test of the expression, the link-type check, if any, in front of both; all true exits lead to the block returning snaplen and all false exits to the one returning 0, every exit is resolved and the root is the head |
| Backpatch.LinkedChain | deps/libpcap/gencode.c:820-852 | whichever way the last block's sense points, the links form exactly one of the two lists of open exits |
| Backpatch.PatchJoins | deps/libpcap/gencode.c:903-922 | the in-place updates of gen_and and gen_or amount to joining the two shapes |
| FilterGraph.FilterIsRanked | deps/libpcap/gencode.c:854-901 | the closed graph is acyclic |
| FilterGraph.FilterComputes | deps/libpcap/gencode.c:820-928 | running the closed graph from its root returns snaplen exactly when short-circuit evaluation is true, otherwise 0, also when a test rejects under a not |
| FilterGraph.PrologueRunsFirst | deps/libpcap/gencode.c:854-877 | statements inserted before the first test run once, before the whole expression is evaluated, wherever it branches |
| FilterGraph.WholeMeans | deps/libpcap/gencode.c:854-901 | the finished filter is the check, then the prologue once, then the expression; a check that fails is false and a rejection ends everything |
| FilterGraph.CompileTree | deps/libpcap/gencode.c:820-928 | the generator produces such a graph for every tree of tests, every prologue and every check |
| Arith.ArithGen.AllocReg | deps/libpcap/gencode.c:7326-7342 | succeeds exactly when a register is free, and marks one that was |
| Arith.ArithGen.FreeReg | deps/libpcap/gencode.c:7347-7351 | frees that register and no other |
| Arith.ArithGen.GenLoadI | deps/libpcap/gencode.c:7239-7258 | code that leaves the constant in its register |
| Arith.ArithGen.GenLoadLen | deps/libpcap/gencode.c:7223-7237 | code that leaves the packet length in its register |
| Arith.ArithGen.GenNeg | deps/libpcap/gencode.c:7260-7275 | code for the 32-bit negation of an operand |
| Arith.ArithGen.GenLoad | deps/libpcap/gencode.c:6906-7171 | code for a packet load at a computed offset behind a link, network or transport header, with the protocol checks that go with it |
| Arith.ArithGen.GenArth | deps/libpcap/gencode.c:7277-7319 | code for a binary operation, or a refusal exactly when the divisor begins with the constant 0 |
| Arith.ConstantDivisor | deps/libpcap/gencode.c:7284-7300 | a constant divisor is refused exactly when it is 0 |
| Arith.OneIsRefused | deps/libpcap/gencode.c:7284-7300 | a divisor that is 1 for every packet is refused |
| Arith.ZeroIsCompiled | deps/libpcap/gencode.c:7284-7300 | a divisor that is 0 for every packet is compiled |
| Arith.ArithGen.GenExpr | deps/libpcap/gencode.c:7179-7351 | compilation fails exactly when registers run out or a divisor starts with 0; otherwise the statements leave the 32-bit value in the register or reject, keep every register in use, and carry the checks of the leftmost operands |
| Arith.RelationTested | deps/libpcap/gencode.c:7179-7221 | the branch goes the way the comparison of the two values goes, or the packet is rejected |
| Arith.ArithGen.GenRelation | deps/libpcap/gencode.c:7173-7221 | a relation compiles exactly when its operands do; its tests check the protocols and then compare, reversed or not, and its registers are free again |
| Headers.FieldTested | deps/libpcap/gencode.c:1015-1037 | a field test answers the masked comparison, or rejects when the field is not in the packet |
| Headers.FirstFragmentBeyond | deps/libpcap/gencode.c:5338-5352 | a packet without those bytes is rejected |
| Headers.FirstFragmentIs | deps/libpcap/gencode.c:5338-5352 | a packet passes exactly when the 13-bit fragment offset in bytes 6 and 7 of its IP header is 0 |
| Headers.CheckTested | deps/libpcap/gencode.c:5098-5175 | a protocol check, any tree of field tests, answers what the fields say, from whatever registers |
| LostChecks.ChecksAreKept | deps/libpcap/gencode.c:7036-7056 | the checks of an expression pass exactly when those of its loads hold, right operands left out |
| LostChecks.TrueIffKept | deps/libpcap/gencode.c:7206-7218 | a relation is true exactly when every kept check holds and the comparison is true |
| LostChecks.WronglyTrueIff | deps/libpcap/gencode.c:7277-7319 | it is true of a packet without a protocol that it reads exactly when a lost check fails, the others hold and the comparison is true |
| LostChecks.NothingLost | deps/libpcap/gencode.c:7049-7056 | this never happens to a relation all of whose checks are kept |
| LostChecks.RightCheckIsLost | deps/libpcap/gencode.c:7277-7319 | 1 + ip[0] = 0x46 is true of a packet that is not IP, ip[0] + 1 = 0x46 is not |
| Order.WholeWalk | deps/libpcap/optimize.c:2012-2022 | a recursive walk with marks visits every block below the root once, successors before predecessors |
| Layout.StmtsSimulated | deps/libpcap/optimize.c:2150-2244 | the interpreter runs the statements of a block as the graph does |
| Layout.BranchSimulated | deps/libpcap/optimize.c:2246-2300 | a branch reaches its target directly or through one inserted long jump on either side |
| Layout.LayoutSimulates | deps/libpcap/optimize.c:2124-2344 | from the first slot of a block the interpreter gives the result of the graph from that block |
| LayoutPass.Converter.CountStmts | deps/libpcap/optimize.c:2012-2022 | the number of slots of all blocks not yet counted, long jumps included |
| LayoutPass.Converter.WriteBranch | deps/libpcap/optimize.c:2246-2312 | the branch of a block with its long jumps, or a request for one when an offset exceeds 255 |
| LayoutPass.Converter.ConvertCode | deps/libpcap/optimize.c:2124-2313 | the recursive pass fills the slots from the tail, finished blocks in front of those finished earlier, or stops at a branch that does not fit |
| LayoutPass.Converter.OnePass | deps/libpcap/optimize.c:2322-2340 | one attempt: it either lays out everything or marks one more branch long |
| LayoutPass.Converter.IcodeToFcode | deps/libpcap/optimize.c:2314-2344 | the retry loop ends after at most 2 * blocks + 1 passes with all slots filled, the root at 0 and no unused long-jump slot |
| LayoutPass.DistanceGrows | deps/libpcap/optimize.c:2246-2312 | more long jumps never shorten a branch distance |
| LayoutPass.MarkedJustified | deps/libpcap/optimize.c:2259-2291 | a branch that is marked long stays too long for its 8-bit offset |
| LayoutValid.LayoutAccepted | deps/libpcap/optimize.c:2124-2344 | the array passes the validator and has only known codes and forward jumps, when the statements' operands are in range |
| LayoutValid.EverySlot | deps/libpcap/optimize.c:2124-2313 | every slot holds an instruction that the validator allows |
| LayoutValid.LayoutComputes | deps/libpcap/optimize.c:2124-2344 | for every packet the array returns within its length exactly what the graph returns |
| Compile.CompileRelations | deps/libpcap/gencode.c:7173-7221 | a tree of relations becomes a tree of tests, protocol checks included, with the same evaluation, or compilation fails |
| Compile.CompileFilter | src/sniffer.c:58-78 | end to end: compilation fails exactly for a filter that needs too many registers or has a refused divisor; otherwise the program is valid and returns snaplen for the packets that match and 0 for all others |
| Dominance.DominatesStep | deps/libpcap/optimize.c:374-405 | a node is dominated by itself and by what dominates all its reachable predecessors |
| Dominance.Step | deps/libpcap/optimize.c:391-404 | processing nodes predecessors first keeps exact sets for the processed ones |
| Dominators.LevelBound | deps/libpcap/optimize.c:338-364 | the i-th block that the walk finishes has a level of at most i, so there is a list for it |
| Dominators.Analysis.FindLevels | deps/libpcap/optimize.c:338-372 | every reachable block gets the length of its longest path to a leaf and is in the list of that level once |
| Dominators.Analysis.FindDom | deps/libpcap/optimize.c:374-405 | for every reachable block the set holds exactly its dominators |
| Dominators.Analysis.PropEdom | deps/libpcap/optimize.c:408-418 | one edge enters its set and cuts down those of the edges that follow |
| Dominators.Analysis.FindEdom | deps/libpcap/optimize.c:420-442 | for every reachable edge the set holds exactly the edges that every root path through it passes |
| Dominators.Analysis.Analyze | deps/libpcap/optimize.c:338-442 | levels, dominators and edge dominators are exact after the three passes |
| Dominators.EdgeReachable | deps/libpcap/optimize.c:420-442 | an edge can be reached exactly when its block can |
| Liveness.StmtAgrees | deps/libpcap/optimize.c:481-560 | atomuse and atomdef are right about the machine: a statement depends only on what it uses and changes only what it defines |
| Liveness.UsesMatter | deps/libpcap/optimize.c:481-560 | nothing is taken for used without need: every atom that an operation uses changes its effect for some operand and packet |
| Liveness.LivenessSound | deps/libpcap/optimize.c:562-646 | machine states that agree on a block's in_use give the same result from that block, for leaves that return a constant or an accumulator they use or define |
| Liveness.LivenessExactAtLeaf | deps/libpcap/optimize.c:600-612 | that condition is exact: at a leaf whose statements run to the end it holds if and only if all states that agree on in_use give the same result |
| Liveness.ReturnedAccumulatorIsMissed | deps/libpcap/optimize.c:600-612 | a leaf that returns the accumulator has an empty in_use and still depends on it |
| LivenessPass.ComputeLocalUd | deps/libpcap/optimize.c:562-615 | the scan computes the atoms used before definition, defined, and killed |
| LivenessPass.UseDef.FindUd | deps/libpcap/optimize.c:622-646 | in_use and out_use are exactly the live sets of the backward definition |
| DeadStores.PrunedAgrees | deps/libpcap/optimize.c:1257-1275 | when the original statements run to the end, the pruned ones do too and agree on everything live behind the block |
| DeadStores.PruningPreserves | deps/libpcap/optimize.c:1257-1275 | pruning every block keeps the result of every run that does not reject, under the same condition on returns |
| DeadStores.PruningMayUncover | deps/libpcap/optimize.c:1257-1275 | a dead store may be the only statement that makes a leaf meet that condition |
| DeadStores.OptDeadstores | deps/libpcap/optimize.c:1233-1275 | the pass deletes exactly the statements whose definition is never used, and changes nothing else |
| Traces.EmptyInUse | deps/libpcap/optimize.c:622-646 | in_use is empty everywhere exactly when every block is self-contained |
| Traces.RunFollowsTrace | deps/libpcap/optimize.c:1452-1503 | a run of self-contained blocks returns exactly when no block on its path rejects, and returns what the leaf at the end says |
| Traces.ShortcutEnds | deps/libpcap/optimize.c:1452-1503 | a graph that only takes shortcuts along the path of a run ends in the same leaf and passes no new block |
| Jumps.JumpFolder.UseConflict | deps/libpcap/optimize.c:1383-1397 | true exactly when some atom used behind the successor has another value number |
| Jumps.FoldSound | deps/libpcap/optimize.c:1399-1449 | fold_edge's answer is the branch that every run through the edge takes at the child |
| Jumps.FoldsExactly | deps/libpcap/optimize.c:1399-1449 | when an edge is folded, by codes and numbers: a repeated test on the same accumulator, with the same operand or behind a successful comparison with another constant |
| Jumps.NothingElseIsDecided | deps/libpcap/optimize.c:1433-1449 | for every other kind and outcome of a test both branches are possible |
| Jumps.DominatorsTaken | deps/libpcap/optimize.c:1474-1502 | a run that takes an edge has taken every edge that dominates it |
| Jumps.DominatorsStable | deps/libpcap/optimize.c:1711-1716 | edge dominators stay exact while only edges of lower levels are redirected |
| Jumps.FoldPreserves | deps/libpcap/optimize.c:1474-1502 | redirecting an edge as a dominating edge says changes no result |
| Jumps.JumpFolder.OptJ | deps/libpcap/optimize.c:1451-1503 | the restart loop terminates, moves only this edge and only downwards, changes no result, clears done exactly when the graph changed, and stops only when nothing more can be folded at this edge |
| Jumps.JumpFolder.FoldJumps | deps/libpcap/optimize.c:1711-1716 | the pass in ascending level order keeps the graph acyclic and all results on packets that the value numbers explain and the original does not reject, and leaves no edge that could be folded |
| Jumps.FoldedRuns | deps/libpcap/optimize.c:1711-1716 | for the machine: the folded graph returns what the original returned |
| Pullup.DownTheChain | deps/libpcap/optimize.c:1532-1567 | a path to a block of the chain that passes an earlier one goes down the chain, because the common target cannot reach the chain |
| Pullup.SingleEntry | deps/libpcap/optimize.c:1532-1567 | a block inside the chain can be entered only from the block before it |
| Pullup.PulledRanked | deps/libpcap/optimize.c:1574-1594 | the graph after the step is acyclic |
| Pullup.PulledEnds | deps/libpcap/optimize.c:1574-1594 | blocks outside the moved part lead to the same leaf for every combination of test outcomes |
| Pullup.PulledSame | deps/libpcap/optimize.c:1506-1687 | one step keeps the graph acyclic and the leaf that every combination of outcomes leads to |
| Pullup.PulledRuns | deps/libpcap/optimize.c:1506-1687 | for the machine: the same result on every packet on which the independent tests are all defined |
| Pullup.ChainOptimizer.Follow | deps/libpcap/optimize.c:1532-1567 | the search along the chain finds the first block with (without) the value, all in between being dominated links of the chain |
| Pullup.ChainOptimizer.RedirectAll | deps/libpcap/optimize.c:1583-1590 | every edge in the predecessor list is redirected, also both edges of one block |
| Pullup.ChainOptimizer.PullUp | deps/libpcap/optimize.c:1506-1687 | or_pullup and and_pullup, with exact predecessor and dominator sets, keep the graph acyclic and its result, and clear done exactly when the graph changed |
| Intern.EqSlist | deps/libpcap/optimize.c:1862-1879 | true exactly when the lists are equal without their deleted statements |
| Intern.EqualRuns | deps/libpcap/optimize.c:1881-1890 | equal blocks give the same result on every packet |
| Intern.Interner.MarkCode | deps/libpcap/optimize.c:1835-1856 | exactly the blocks below the root are marked |
| Intern.Interner.FindLinks | deps/libpcap/optimize.c:1905-1917 | every linked block equals its live link further up, and an unlinked live block equals none further up |
| Intern.Interner.Relink | deps/libpcap/optimize.c:1918-1930 | every jump follows the links, and the flag says whether any did |
| Intern.RelinkedByLevel | deps/libpcap/optimize.c:1918-1930 | relinking keeps every level, so the graph stays acyclic |
| Intern.RelinkedRuns | deps/libpcap/optimize.c:1918-1930 | relinking keeps the result of every block on every packet |
| Intern.RelinkedGrows | deps/libpcap/optimize.c:1918-1932 | relinking raises the sum of successor indices unless it changes nothing |
| Intern.Interner.InternBlocks | deps/libpcap/optimize.c:1892-1933 | the retry loop terminates, keeps every result on every packet and ends with no two equal live blocks |
| Optimizer.RemoveDeadStores | deps/libpcap/optimize.c:1690-1703 | levels, uses and definitions, then dead stores in every block: exactly the dead statements of every reachable block go, and every run that returns still returns the same |
| Optimizer.FoldAllJumps | deps/libpcap/optimize.c:1690-1716 | levels, edge dominators and liveness from scratch, then jump folding: every run that returns still returns the same, and no reachable edge can be folded any further |
| Optimizer.FindInedges | deps/libpcap/optimize.c:1734-1753 | for every reachable block the list holds exactly the edges that enter it, each once |
| Optimizer.PullAt | deps/libpcap/optimize.c:1506-1687 | levels, dominators and predecessors from scratch, then one step at any reachable block: a block moves exactly when one is movable, and the results stay |
| Optimizer.MergeBlocks | deps/libpcap/optimize.c:1892-1933 | on any acyclic graph, every result on every packet stays and no two reachable blocks are equal afterwards |
| JsonText.Utf8Encodes | src/cJSON.c:654-701 | the encoder produces well-formed UTF-8 that decodes to the code point |
| JsonText.Utf8Unique | src/cJSON.c:654-701 | and every well-formed sequence is the encoding of its code point |
| JsonText.EscapeAllPrintable | src/cJSON.c:905-946 | written strings contain no byte below a space |
| JsonText.HexCharIs | src/cJSON.c:947-950 | escapes of control characters are spelled in lower case |
| JsonGrammar.GrammarStringRead | src/cJSON.c:711-837 | every string of the RFC 8259 grammar is read with the value and the end that the grammar gives it |
| JsonGrammar.AcceptedIffClean | src/cJSON.c:711-837 | a text that the parser accepts is a string of the RFC 8259 grammar, read with its value, if and only if every \u that the second scan meets has its four digits before the end and no control character is unescaped; without the second condition if control characters are admitted |
| JsonGrammar.GrammarIsClean | src/cJSON.c:757-815 | every text of the grammar is clean in that sense |
| JsonGrammar.CleanCharsRead | src/cJSON.c:757-815 | on clean text the parser and the grammar agree in value and in failure, and the second scan stops exactly at the closing quote |
| JsonGrammar.StopBound | src/cJSON.c:757-815 | on any text it stops at the closing quote or right behind it |
| JsonGrammar.NonDigitUnit | src/cJSON.c:590-612 | a first unit without four digits is taken for NUL exactly when six bytes remain |
| JsonGrammar.NonDigitsReadAsNul | src/cJSON.c:553-586 | the text \uzzzz is read as one NUL, which the grammar refuses |
| JsonGrammar.MisalignedEscapeUsesQuote | src/cJSON.c:757-815 | an escape takes the closing quote and the scan stops behind it |
| JsonSyntax.WriteIsText | src/cJSON.c:1225-1730 | what is written for a tree, formatted or not, is a text of the RFC 8259 grammar with that value, when the numbers are printed as numbers |
| JsonSyntax.WriteIsJson | src/cJSON.c:1100-1162 | so the whole output is a JSON text |
| JsonConform.TextIsRead | src/cJSON.c:1225-1616 | every text of the grammar, wherever it stands in a buffer and whatever its white space, is read as its value |
| JsonConform.EveryJsonIsParsed | src/cJSON.c:1013-1090 | every JSON text of RFC 8259 is parsed as its value, strings cut at their first NUL, when its numbers have at most 63 bytes and it is nested at most 1000 deep; a byte order mark is skipped, and something visible behind the text is refused exactly when the whole text is asked for |
| JsonConform.OtherStartsRefused | src/cJSON.c:1225-1277 | a value starts with a quote, a minus, a digit, a bracket, a brace or the first letter of a word; anything else is refused |
| JsonConform.SkippedBytes | src/cJSON.c:976-994 | exactly the bytes up to a space are passed over, more than the grammar allows |
| JsonConform.NumberEnds | src/cJSON.c:288-325 | the text of a number is the longest run of its characters, at most 63 |
| JsonConform.StringRoundTrip | src/cJSON.c:711-952 | reading a written string, wherever it stands in a buffer, gives the string back and the offset behind it |
| JsonRoundTrip.ValueRoundTrip | src/cJSON.c:1225-1730 | reading a written value, wherever it stands and however it is indented, gives the value back |
| JsonRoundTrip.TreeRoundTrip | src/cJSON.c:1100-1162 | parsing the formatted or unformatted print gives back the tree, member order and duplicates included |
| JsonRoundTrip.ReadNesting | src/cJSON.c:1359-1363 | nothing that the parser returns is nested deeper than the limit |
| JsonRoundTrip.RoundTripIff | src/cJSON.h:128-130 | a printable tree survives printing and parsing if and only if its nesting is at most 1000 |
| JsonParse.ParseHex4 | src/cJSON.c:553-586 | the value of four hexadecimal digits, 0 if one is none |
| JsonParse.Utf16LiteralToUtf8 | src/cJSON.c:590-707 | a literal of one or two units is written as the UTF-8 encoding of its code point; unpaired surrogates fail |
| JsonParse.Encode | src/cJSON.c:683-701 | the bytes written from the last to the first are the encoding |
| JsonParse.SlackWindow | src/cJSON.c:724-754 | of two neighbouring bytes at most one starts an escape, so the size estimate grows by one per two bytes of text |
| JsonParse.LiteralRoom | src/cJSON.c:724-754 | a literal's encoding is never longer than what the estimate gained over its text |
| JsonParse.ParseBuffer.SkipWhitespace | src/cJSON.c:976-994 | the offset of the next byte that is not white space, or of the last byte |
| JsonParse.ParseBuffer.FindEnd | src/cJSON.c:728-748 | the closing quote and the number of escapes, or failure |
| JsonParse.ParseBuffer.Decode | src/cJSON.c:757-815 | the bytes that the text stands for, in an array of the estimated size that no input exceeds, misaligned escapes included |
| JsonParse.ParseBuffer.ParseString | src/cJSON.c:711-837 | succeeds exactly on a readable string and leaves the offset behind it |
| JsonParse.ParseBuffer.ParseNumber | src/cJSON.c:273-344 | converts the longest run of number bytes, at most 63 |
| JsonParse.ParseBuffer.ParseValue | src/cJSON.c:1225-1277 | the recursive descent computes the specified value and offset, and restores the depth |
| JsonParse.ParseBuffer.ParseArray | src/cJSON.c:1354-1445 | the same for arrays, with the nesting limit |
| JsonParse.ParseBuffer.ParseObject | src/cJSON.c:1510-1616 | the same for objects |
| JsonParse.ParseWithOpts | src/cJSON.c:1013-1090 | a whole text, byte order mark and trailing garbage included |
| JsonPrint.PrintBuffer.Ensure | src/cJSON.c:380-465 | room for the bytes, a NUL and one byte more, with everything before the offset kept; never refused below the limit unless the allocator refuses |
| JsonPrint.PrintBuffer.UpdateOffset | src/cJSON.c:468-478 | the offset reaches the end of the text printed last |
| JsonPrint.PrintBuffer.CountEscapes | src/cJSON.c:868-893 | the computed length is the length of the escaped string |
| JsonPrint.PrintBuffer.PrintStringPtr | src/cJSON.c:840-952 | exactly the computed length is filled with the escaped string and its quotes; succeeds when there is room |
| JsonPrint.PrintBuffer.PrintNumber | src/cJSON.c:487-550 | the number's text, with the offset behind it; without refusals it fails exactly for a text over 25 bytes or without room |
| JsonPrint.PrintBuffer.PrintArray | src/cJSON.c:1448-1507 | the array's text behind what was printed before; without refusals it succeeds exactly when the whole text fits |
| JsonPrint.PrintBuffer.PrintObject | src/cJSON.c:1619-1730 | the object's text with its indentation; without refusals it succeeds exactly when the whole text fits |
| JsonPrint.PrintBuffer.PrintValue | src/cJSON.c:1280-1351 | the value's text and a NUL behind what was printed before; without refusals it succeeds exactly when the whole text fits and all number texts are short |
| JsonPrint.Print | src/cJSON.c:1100-1162 | the result is exactly the specified text, a JSON text by `JsonSyntax.WriteIsJson`; when memory is never refused there is one if and only if it stays within INT_MAX with two bytes to spare and all number texts are short |
| JsonPrint.PrintPreallocated | src/cJSON.c:1203-1221 | succeeds if and only if the buffer holds the text and two more bytes and all number texts are short; then the buffer begins with the text and a NUL |
| JsonPrint.WriteNulFree | src/cJSON.c:1280-1351 | the text of a tree of C strings contains no NUL |
| HashTable.Table.Find | src/hashtable.c:122-137 | the walk along a bucket finds the entry with the key exactly when the map has it |
| HashTable.Table.Add | src/hashtable.c:94-120 | a present key is not overwritten and its value is given back; an absent key is added exactly when memory is granted; nothing else changes |
| HashTable.Table.Get | src/hashtable.c:122-137 | map lookup |
| HashTable.Table.Del | src/hashtable.c:139-163 | map removal |
| HashTable.Table.Unlink | src/hashtable.c:148-157 | one entry leaves its chain, keys stay unique and in their bucket, size falls by one |
| HashTable.Table.Sweep | src/hashtable.c:165-193 | the map is filtered by the predicate and the number removed is returned |
| HashTable.Table.Values | src/hashtable.c:195-223 | values of distinct keys, as many as there are entries or as the doubling array holds after the granted allocations, whichever is less |
| HashTable.AddToAll | src/hashtable.c:94-120 | a new entry in its bucket represents the extended map |
| HashTable.RemoveFromAll | src/hashtable.c:139-163 | the chains without an entry represent the map without its key |
| HashTable.EntriesDiffer | src/hashtable.c:94-120 | no entry occurs twice |
| HashTable.AllVisited | src/hashtable.c:195-223 | after the last bucket every key has been listed, and the list is as long as the map |
| Tracker.DeltaIsDifference | src/packet.c:133-136 | the delta is the difference of the two times in microseconds |
| Keys.SpellInjective | src/packet.c:170-175 | two endpoints with the same key are the same endpoint |
| Keys.SpellPairInjective | src/packet.c:215-217 | two connections with the same key are the same connection |
| Keys.KeysFit | src/packet.c:165-175 | both keys fit their buffers, so none is truncated |
| Keys.DecimalReads | src/packet.c:170-175 | a number is spelled by its digits without leading zeros |
| Tracker.OneBucket | src/stats.c:16-37 | no latency belongs to two buckets |
| Tracker.Observe | src/stats.c:76-87 | exactly one bucket goes up by one: the one whose bounds hold the latency, negative ones counting as 0 |
| TrackerRuns.StepAccounts | src/packet.c:164-277 | every step of either thread keeps the accounts of every endpoint |
| TrackerRuns.StepNumbered | src/packet.c:211-277 | pending and measured requests stay distinct |
| TrackerRuns.StepTimely | src/packet.c:145-162 | with nondecreasing capture times every pending request stays younger than 61 s |
| TrackerRuns.RunSafe | src/packet.c:329-371 | at every point of every interleaved run: latencies plus pending requests are covered by counted requests, latencies by counted responses, at most 100000 requests are pending, each at a registered server, and no request is measured twice |
| TrackerRuns.RunTimely | src/packet.c:120-162 | at every point of every run in time order: pending requests are younger than 61 s and every counted latency lies in [0, 61 s) |
| TrackerRuns.SnapshotConsistent | src/server.c:152-175 | a snapshot at any unlock sees no more latencies than requests or responses, and between packets latencies plus pending are at most requests |
| TrackerRuns.StepCounts | src/packet.c:164-183 | a step changes an endpoint's packet count exactly when it counts a packet there |
| TrackerRuns.PacketsCountedOnce | src/packet.c:164-183 | an endpoint's counters are exactly the number of steps that counted a packet there |
| TrackerRuns.PacketsConserved | src/packet.c:164-183 | at every point of every run each packet with a payload that has arrived is accounted for once: the counters of all endpoints, the packets that belonged to none and the one still to be looked up add up to the arrivals |
| TrackerRuns.ProcessIsPath | src/packet.c:329-371 | handling one packet is a path of the interleaved machine |
| Sniffer.QueryStats.Incr | src/stats.c:66-74 | one request or response with its bytes, in place |
| Sniffer.QueryStats.ObserverLatency | src/stats.c:76-87 | the search through the bounds counts in exactly the bucket that holds the latency |
| Sniffer.Connections.Get | src/packet.c:215-218 | the lookup by spelled key finds exactly the request pending on the connection |
| Sniffer.Connections.Insert | src/packet.c:241 | the table under spelled keys holds exactly one more connection |
| Sniffer.Connections.Remove | src/packet.c:275 | the table under spelled keys holds exactly the other connections |
| Sniffer.Connections.Expire | src/packet.c:138-151 | the sweep of the hash table leaves exactly the connections whose request is not older than the timeout, and returns how many went |
| Sniffer.Endpoints.Count | src/packet.c:170-180 | the counters behind the spelled key change as specified, those of every other endpoint stay |
| Sniffer.Endpoints.Observe | src/packet.c:255-260 | the same for a latency |
| Sniffer.Endpoints.Register | src/packet.c:345-362 | a new endpoint starts with empty counters of its own, a known one keeps its counters |
| Sniffer.Endpoints.Snapshot | src/server.c:152-175 | the counters of distinct endpoints, of all of them when the list has room |
| Sniffer.Sniffer.ExpireStaleRequests | src/packet.c:153-162 | on the hash tables: primes the clock, then sweeps at most once per interval, which is the arrival step of the runs |
| Sniffer.Sniffer.PacketDirection | src/packet.c:164-183 | on the hash tables: counts the packet as a response at its source or else as a request at its destination, which is the counting step of the runs |
| Sniffer.Sniffer.ProcessRequestPacket | src/packet.c:211-242 | on the hash tables: remembers a request unless one is pending on the connection, the table is full or memory is short, which is the remembering step of the runs |
| Sniffer.Sniffer.ProcessResponsePacket | src/packet.c:244-277 | on the hash tables: counts the latency of the pending request at its server and removes the request |
| Sniffer.Sniffer.ProcessUserPacket | src/packet.c:329-371 | the whole effect of one packet on the two hash tables and the counters is the composed step that the run theorems speak about |
| Sniffer.Sniffer.ProcessCapture | src/packet.c:329-371 | after any capture the tables hold what its packets tell (`History.Told`): the endpoints that were registered; for each of them its requests, responses and bytes, and in each bucket its latencies; every logged latency is the time from a request to its first answer; a request is remembered exactly when memory is granted, none is left on its connection and fewer than 100000 are left; an unanswered one is pending exactly until a sweep, a second or more after the last, finds it older than 60 s; one answered before that is logged with exactly the time that passed. If times do not go back, pending requests are younger than 61 s and latencies lie in [0, 61 s) |
| History.ToldNext | src/packet.c:329-371 | one more packet keeps all of this true |
| History.NotDropped | src/packet.c:120-162 | a request at most 60 s old is never dropped |
| History.BucketIs | src/stats.c:18-37 | the table's bounds are those that the buckets' names give |
| Sniffer.ProcessTimely | src/packet.c:329-371 | one packet in time order keeps the bounds on ages and latencies |
| Resp.SummaryPrintable | src/protocol.c:27-46 | for any payload the summary is printable and at most min(size, 127) bytes long |
| Resp.ScanCrlf | src/protocol.c:48-53 | the first line end from the start on, if any |
| Resp.Buf.Append | src/protocol.c:37-46 | as much of the source as fits, with dots for bytes that cannot be printed |
| Resp.FormatRedis | src/protocol.c:55-79 | the arguments of a RESP array joined by spaces, the lines of any other payload, or the payload when there is no text |
| Resp.FormatLines | src/protocol.c:66-78 | appending clipped parts one by one and stopping when full is clipping what they make together |
| Resp.FormatMemcached | src/protocol.c:81-102 | the same for all lines |
| Resp.FormatRaw | src/protocol.c:104-111 | the payload itself |
| Resp.SummaryOfLines | src/protocol.c:61-99 | for every payload that is not a RESP array: the first 127 bytes of its lines from the first text on, joined by single spaces, or of the payload itself if there is none |
| Resp.PayloadSplits | src/protocol.c:48-53 | every payload is a list of lines with their line ends and a rest without one |
| Resp.ShownBytes | src/protocol.c:37-46 | byte by byte: printable ones as they are, a dot for each other, 127 at most |
| Resp.RedisSummaryOfCommand | src/protocol.c:55-79 | for every command of nonempty arguments without line ends: the first 127 bytes of the arguments joined by single spaces, with dots for bytes that cannot be printed |
| Resp.EmptyCommand | src/protocol.c:75 | a command without arguments is shown as its own payload |

## Left out

- `opt_peep`, `opt_root`, the value numbering of `opt_stmt` and the loop of `opt_loop`: rewrites that rest on unchecked facts about generated code; jump folding takes value numbers as given and assumes that equal numbers stand for equal values.
- Jumps.JumpFolder.FoldJumps: assumes self-contained blocks (empty in_use), so the data dependences that `use_conflict` guards against do not arise.
- Pullup.ChainOptimizer.PullUp: assumes exact predecessor lists and dominator sets, which `Optimizer.PullAt` computes afresh; later blocks of one sweep of `opt_blks` see stale ones.
- Optimizer.RemoveDeadStores: runs the passes in the order of the source but without the statement rewrites of `opt_blk` between them.
- Optimizer.FoldAllJumps: keeps the value numbers fixed during the pass, as `opt_blks` does, and takes them as given.
- DeadStores.PruningPreserves: says nothing about runs that reject, because deleting a dead load also deletes its bounds check.
- `find_closure`: the transitive closure is computed but used by no modelled pass.
- Block-local jumps inside statement lists, the `offset[]` table for them and the variable-length link headers that need them.
- Backpatch.CodeGen.FinishParse: takes the statements of `insert_compute_vloffsets` and the PPI check as given; what they compute for variable-length link headers is not modelled.
- Arith.ArithGen.GenLoad: the link header has a fixed length, and which fields a protocol's check compares is given with the header; radio headers and the ICMPv6 offset are absent.
- Protocol and link-type tables, lexer, grammar, name resolution, BPF extensions for VLAN data.
- Compile.CompileFilter: assumes a program of fewer than 2^31 instructions, as the array's `int` length does.
- LayoutPass.Converter.IcodeToFcode: assumes the same bound; allocation of the array always succeeds.
- Integer widths of counters, marks and `int64_t` deltas: they do not wrap here.
- Floating point: printing and parsing of numbers, locale and the integer field of a number; cJSON references, raw items, detach, replace, minify and the error position.
- JsonConform.EveryJsonIsParsed: says nothing about texts outside the grammar that the parser accepts, apart from strings (`JsonGrammar.AcceptedIffClean`).
- JsonParse.ParseBuffer.ParseValue: memory for items is always available, and child lists are sequences, not linked items.
- JsonPrint.PrintBuffer.PrintValue: the buffer is a sequence that is replaced when it grows; aliasing with other memory is not captured.
- JsonPrint.Print: when the allocator refuses at all, which of its refusals a text survives is not stated.
- HashTable.Table.Values: releasing keys and values is not modelled, nor is `hashtable_destroy`.
- Sniffer.Sniffer.ProcessUserPacket: one flag answers all allocations of a packet; `buckets` is a sequence that is replaced; the Lua and raw-protocol branches, which touch no table, are absent, as are logging, the summary kept with a request and the printed line.
- The JSON object built from a snapshot, sockets, capture devices, dump files, option parsing and header parsing of packets.
