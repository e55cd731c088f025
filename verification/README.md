# Verified model of hif-backend's lowering passes and SystemC runtime

hif-backend lowers one hardware-description tree (HIF) to Verilog, VHDL and SystemC. This project
models the passes that have to keep a design's meaning and the runtime functions the generated
SystemC depends on, and proves what they keep and where they do not. Each module gives its part of
the tree a semantics of its own; each pass that edits the tree in place is a method of a class,
proved against a function, and the theorems are about that function.

| module | what it models |
|---|---|
| `Hdl` | processes: expressions, bodies, sensitivity, activation (section 11.3 of IEEE 1076-2008, section 9.7.2 of IEEE 1364-2005) |
| `ClockedProcess`, `ClockedLowering` | the clocked-process rebuild for Verilog and its mirror for VHDL |
| `ClockedRuns` | what a clocked process and its edge-sensitive form do, run after run |
| `WhenSplitter`, `Ternary` | splitting of nested conditionals and lowering of the Verilog ternary for SystemC |
| `CppExpr`, `ExprPrinter`, `PrintedText` | C++ tokens and grammar, the expression printer, and what its text is read back as |
| `Aggregates` | flattening of nested aggregates into loops of assignments |
| `Logic`, `Resolution` | four-valued logic and the resolution function |
| `InoutPorts`, `InoutRuns`, `ReadOutPorts` | driver regs for inout ports and their nets, shadow signals for readable out ports |
| `Uniform`, `SystemcExtensions`, `AfterRegistry` | random numbers, `mod` and parity, the registry of delayed assignments |
| `BreakLabels`, `IdentifierNames`, `Reductions`, `SliceMask` | labels, identifier escaping, reduction operators, slice writes on integers |

What hif-core computes is taken as input. `ClockedProcess.Infos` and `ClockedLowering.Analysis` are
its process analysis; references, types, widths, default values and fresh names are parameters or
fields, and the premises on them are named predicates (`Classified`, `Movable`,
`SameClassification`, `Comparable`, `AllFresh`, `Apart`, `Lowerable`, `FreshAhead`, `Elaborable`). A failed `messageAssert`
or `messageError` is a refusal in the result of the function that models the pass.

Where the code falls short of what it is for, the model follows the code:

- The clocked rebuild checks what a reset assignment reads, not the index of its target, and its
  comment refuses an edge test inside a wider expression where its code accepts one and drops all of
  it. It keeps runs exactly when the reset values stay put and the dropped part does not matter
  (`ClockedRuns.RebuiltIff`); a moving index breaks the one (`ClockedRuns.IndexedTargetDiverges`),
  `rising_edge(clk) and en` the other (`ClockedRuns.DroppedEnableDiverges`).
- The lowering to VHDL checks no reset branch at all. It keeps runs under the same condition
  (`ClockedLowering.LoweringIff`), which a sampled value breaks
  (`ClockedLowering.SampledResetDiverges`); `if (rst) q <= d` is one (`ClockedLowering.SampledParts`).
- The printer reads back as intended for all but two shapes: `<` or `<=` directly right of `>` or
  `>=`, and a sign applied to the same sign, which runs together into one token
  (`PrintedText.RoundTrip`).
- An aggregate whose index is covered by an alternative with a gap shows the value of `others`
  through the gap; the aggregates that do not are exactly the sealed ones
  (`Aggregates.RunsAsDeclaredIff`).
- An inout port assigned under a dynamic index has a VHDL driver on every bit of the prefix, with
  the port's initial value, where the reg starts at its own. The nets agree exactly under
  `InoutRuns.AgreeByPrefix`; a port that starts at anything but the reg's value there differs until
  the bit is written (`InoutRuns.DynamicParts`).
- A bit of an inout port that two processes drive has two VHDL drivers and one reg, which holds what
  was written last where the net resolves both. The nets agree exactly when the last write to each
  bit is what its drivers resolve to (`InoutRuns.AgreeIffLastShows`); `'0'` and `'1'` break that
  (`InoutRuns.SharedParts`).
- The out-port pass takes a whole or indexed actual of an instance's input for a connection, not a
  read (`ReadOutPorts.StillRead`, with a view in `ReadOutPorts.FeedingStillRead`).
- Copying a superseded delayed assignment drops the one that superseded it
  (`AfterRegistry.CopyDecides`, with a run in `AfterRegistry.SupersededCopyDrops`).
- Identifier escaping leaves a trailing underscore (`IdentifierNames.EscapedLegal`). A name shares
  its escape with another exactly when it already looks escaped or is changed at all
  (`IdentifierNames.SharesIff`): `_a` with `id_a`, `a__b` with `a_id_b`.
- The VHDL reduction of a one-bit vector shows Z where a reduction is X (`Reductions.ChainReduces`).
- A slice of an integer with ascending bounds is not written at all, and one that touches an end of
  the word depends on a shift C++ leaves undefined (`SliceMask.SliceWritten`).
- `hif_mod` has no defined value when either operand is the least 64-bit integer
  (`SystemcExtensions.ModMeans`).

## Model

| member | source | states |
|---|---|---|
| ClockedProcess.AddSensitivity | src/hif2verilog/PostRefine_process.cpp:118-124 | the list keeps its entries in order, gains the name at the end at most once, and afterwards holds exactly the old entries and the name |
| ClockedProcess.RemoveSensitivity | src/hif2verilog/PostRefine_process.cpp:126-137 | the first bare reference to the name goes; the result says whether there was one |
| ClockedProcess.ResetBranch | src/hif2verilog/PostRefine_process.cpp:52-61 | the first alternative other than the clocked one |
| ClockedProcess.CheckReset | src/hif2verilog/PostRefine_process.cpp:255-271 | no objection exactly when every action assigns what reads no signal, port or variable; otherwise the first other action decides: not an assignment, or one that reads such state |
| ClockedProcess.ObjectionIs | src/hif2verilog/PostRefine_process.cpp:69-84 | the same of the function, for every branch and every declaration, constants and generics being settled |
| ClockedProcess.StateTable.CheckShape | src/hif2verilog/PostRefine_process.cpp:160-230 | no objection exactly when the body is one if without an else whose last condition holds the only edge test of the process, and the classification is one edge of one clock; otherwise the first objection in the order the pass checks |
| ClockedProcess.AcceptedIff | src/hif2verilog/PostRefine_process.cpp:139-292 | exactly which processes are left alone (not a process, or no edge test) and which are rebuilt: that shape, a reset branch of assignments that read no signal, port or variable, and in the level list no more than the entries that move to the edge lists |
| ClockedProcess.DecisionIs | src/hif2verilog/PostRefine_process.cpp:139-292 | what becomes of every process that tests an edge, by its sensitivity lists, the number of edge tests in it and in its conditions, where they stand, its reset branch and its level list: which of the eight diagnostics stops it, or that it is rebuilt |
| ClockedProcess.StateTable.MoveEdges | src/hif2verilog/PostRefine_process.cpp:233-279 | clock and asynchronous reset leave the level list for the edge lists of the working edge and of the reset's assertion |
| ClockedProcess.StateTable.DropTest | src/hif2verilog/PostRefine_process.cpp:294-310 | in every store the new body writes what the if would with its last condition always true |
| ClockedProcess.StateTable.VisitStateTable | src/hif2verilog/PostRefine_process.cpp:139-313 | the process is left alone, rebuilt or refused as `Rebuild` says, which `AcceptedIff` pins |
| ClockedProcess.AcceptedSensitivity | src/hif2verilog/PostRefine_process.cpp:281-292 | an accepted process lists nothing but its clock and its asynchronous reset |
| ClockedRuns.FoldIdempotent | src/hif2verilog/PostRefine_process.cpp:245-254 | a settled reset branch sends every value it has produced to itself, whole or element by element |
| ClockedRuns.SettledStays | src/hif2verilog/PostRefine_process.cpp:245-271 | a reset branch of settled values at settled places stays put: running it again later changes nothing, whatever the surroundings moved |
| ClockedRuns.WakesAgree | src/hif2verilog/PostRefine_process.cpp:233-279 | the rebuilt process wakes exactly on the working edge or the assertion of the reset, the VHDL one exactly when clock or reset changes |
| ClockedRuns.StepAgreesIff | src/hif2verilog/PostRefine_process.cpp:207-270 | after any change both processes leave the same store if and only if the reset branch changes nothing where the VHDL process runs it alone, and the clocked branch nothing on a working edge the dropped part of its condition shuts it out of |
| ClockedRuns.StepKeepsInvariant | src/hif2verilog/PostRefine_process.cpp:245-254 | where reset values stay put and the dropped condition does not matter, the step keeps the invariant that leaving the active level under reset changes nothing |
| ClockedRuns.SameRuns | src/hif2verilog/PostRefine_process.cpp:139-313 | with settled reset targets and nothing dropped that matters, under every environment both processes hold equal stores after every step of an infinite run, if and only if the start has the reset inactive or its values in place |
| ClockedRuns.PairedIff | src/hif2verilog/PostRefine_process.cpp:207-270 | for any two forms of a process: equal stores after every step, from every settled start and under every environment, if and only if the reset values stay put and the clocked branch changes nothing where the dropped part of its condition is false |
| ClockedRuns.RebuiltIff | src/hif2verilog/PostRefine_process.cpp:139-313 | the same for every rebuilt process; settled targets suffice for the one and an exact edge test for the other |
| ClockedRuns.EdgeSpellings | src/hif2verilog/PostRefine_process.cpp:194-202 | both VHDL spellings of an edge test are exactly the working-edge test |
| ClockedRuns.GatedSpelling | src/hif2verilog/PostRefine_process.cpp:194-202 | an edge test and something else holds only on the working edge, there exactly when the something else does |
| ClockedProcess.RebuildIsFinal | src/hif2verilog/PostRefine_process.cpp:147-153 | no edge test survives, and a second visit changes nothing |
| ClockedRuns.IndexedTargetDiverges | src/hif2verilog/PostRefine_process.cpp:264-270 | every accepted process with a reset target whose index takes two in-range values parts from its rebuilt form in some run |
| ClockedRuns.MovingResetDiverges | src/hif2verilog/PostRefine_process.cpp:245-271 | so does any pair whose reset branch holds an assignment, to a name of its own, whose effect moves with what the process does not assign |
| ClockedRuns.IndexedParts | src/hif2verilog/PostRefine_process.cpp:264-270 | an accepted process of that kind |
| ClockedRuns.DroppedEnableDiverges | src/hif2verilog/PostRefine_process.cpp:194-297 | every accepted process whose condition is an edge test and an enable parts from its rebuilt form if the clocked branch changes something while the enable is off |
| ClockedRuns.EnabledParts | src/hif2verilog/PostRefine_process.cpp:194-297 | `if rising_edge(clk) and en then q <= d` is accepted and parts from its rebuilt form |
| ClockedLowering.BuildSensitivityCondition | src/hif2vhdl/VhdlPreRefine_misc.cpp:667-738 | the disjunction of the tests of a list's names, the reset skipped |
| ClockedLowering.BuildAndExpression | src/hif2vhdl/VhdlPreRefine_misc.cpp:651-665 | in every pair of stores the condition holds exactly when the test of some listed name other than the skipped reset does, with the event asked of the clock |
| ClockedLowering.EdgeProcess.MoveSensitivities | src/hif2vhdl/VhdlPreRefine_misc.cpp:740-753 | all edge entries become level entries |
| ClockedLowering.EdgeProcess.FixProcess | src/hif2vhdl/VhdlPreRefine_misc.cpp:755-798 | the body per style: wrapped in the edge test, or its last branch put under it |
| ClockedLowering.EdgeProcess.VisitStateTable | src/hif2vhdl/VhdlPreRefine_misc.cpp:322-369 | the process is left alone, lowered or refused as `Lower` says, which `OutcomeIs` and `LoweredBodyRuns` pin |
| ClockedLowering.OutcomeIs | src/hif2vhdl/VhdlPreRefine_misc.cpp:322-369 | which processes are left alone, stopped at, left without a condition or lowered, for every kind and style, and the level list of a lowered one |
| ClockedLowering.LoweredBodyRuns | src/hif2vhdl/VhdlPreRefine_misc.cpp:755-798 | for every change of the store: the body of an asynchronous process and of styles 3 and 5 runs exactly when a listed test holds, that of style 6 takes the reset branch, else its default exactly when a test other than the reset's holds, and styles 1 and 2 keep the body |
| ClockedLowering.ConditionIsEdgeTest | src/hif2vhdl/VhdlPreRefine_misc.cpp:651-738 | for a single-clock process the condition built is the clock's working-edge test, whatever the order of the lists |
| ClockedLowering.RoundTrip | src/hif2vhdl/VhdlPreRefine_misc.cpp:740-798 | the rebuild accepts a lowered process exactly when it has no objection to the reset branch, and then returns the same body and branches and the same sensitivity sets |
| ClockedLowering.LoweredIsClassified | src/hif2vhdl/VhdlPreRefine_misc.cpp:755-798 | a lowered process meets the premises of the run results |
| ClockedLowering.LoweringKeepsRuns | src/hif2vhdl/VhdlPreRefine_misc.cpp:667-798 | where reset values stay put, the lowered process and its original hold equal stores after every step if and only if the start has the reset values in place |
| ClockedLowering.LoweringIff | src/hif2vhdl/VhdlPreRefine_misc.cpp:667-798 | from every settled start and under every environment they do so if and only if the reset values stay put; those of settled assignments do |
| ClockedLowering.SampledResetDiverges | src/hif2vhdl/VhdlPreRefine_misc.cpp:775-798 | every process whose reset branch gives a name of its own a value that moves is lowered and parts from its VHDL form in some run |
| ClockedLowering.SampledParts | src/hif2vhdl/VhdlPreRefine_misc.cpp:775-798 | `if (rst) q <= d` on both edges is lowered and parts from its VHDL form |
| WhenSplitter.Visitor.Visit | src/hif2sc/PostRefine_final.cpp:92-110 | depth, flag and declarations after a visit, and the tree it leaves, as `Split` says; the visit terminates for every bound of at least 1 |
| WhenSplitter.Visitor.SplitHere | src/hif2sc/PostRefine_final.cpp:112-154 | a When at the bound becomes a call to a fresh function, stays for want of a scope, or stops the program |
| WhenSplitter.SplitKeepsValue | src/hif2sc/PostRefine_final.cpp:92-154 | the split tree has the original's value in every store and for every meaning of the operators |
| WhenSplitter.SplitDeclaresBeforeUse | src/hif2sc/PostRefine_final.cpp:133-151 | generated names are fresh and distinct and every function is declared before its callers, so no call is circular |
| WhenSplitter.SplitBounds | src/hif2sc/PostRefine_final.cpp:92-154 | no tree, main or generated, nests Whens deeper than the bound |
| WhenSplitter.SplitActsWhenNeeded | src/hif2sc/PostRefine_final.cpp:92-154 | functions are generated exactly when the tree is too deep; otherwise nothing changes |
| WhenSplitter.SplitIsFinal | src/hif2sc/PostRefine_final.cpp:149-151 | splitting the result or a generated body again changes nothing |
| Ternary.When.FixCombineTernary | src/hif2sc/PostRefine_final.cpp:800-879 | the two alternatives and the default that replace a logic ternary, and the type error |
| Ternary.CombinedValue | src/hif2sc/PostRefine_final.cpp:859-866 | the default's bit operations keep equal known bits and give X elsewhere, at every width |
| Ternary.CombinedType | src/hif2sc/PostRefine_final.cpp:843-868 | the default has the type of the When, span and sign included, however the operations are typed; only a vector is converted |
| Ternary.LoweredTernary | src/hif2sc/PostRefine_final.cpp:800-879 | the lowered When is Verilog's conditional operator (section 5.1.13 of IEEE 1364-2005) for every operand and every condition value |
| ExprPrinter.Printer.Visit | src/hif2sc/PrintSystemCVisitor.cpp:1176-1383 | visiting a tree appends its printed form to the stream, parentheses included |
| ExprPrinter.Printer.VisitAlts | src/hif2sc/PrintSystemCVisitor.cpp:1650-1685 | a When is written as a chain of conditional operators |
| ExprPrinter.Printer.VisitCast | src/hif2sc/PrintSystemCVisitor.cpp:1110-1161 | a cast is written as a static_cast of its operand, one to a pointer or reference as a reinterpret_cast |
| ExprPrinter.Printer.VisitMember | src/hif2sc/PrintSystemCVisitor.cpp:1518-1540 | a member is written as a subscript of its prefix |
| ExprPrinter.Printer.VisitCall | src/hif2sc/PrintSystemCVisitor.cpp:6899-6971 | a call is written with its arguments separated by commas |
| PrintedText.ParenthesesIff | src/hif2sc/PrintSystemCVisitor.cpp:5052-5253 | for every node and place, parentheses are printed exactly where the operand binds too weakly, but for a less-than right of a greater-than, and in the enumerated places where C++ does not need them |
| PrintedText.LexPrint | src/hif2sc/PrintSystemCVisitor.cpp:1176-1383 | greedy tokenisation cuts the printed text into the tokens of the tree, whatever follows |
| PrintedText.OperandStrength | src/hif2sc/PrintSystemCVisitor.cpp:5052-5253 | an operand printed bare binds as tightly as its place needs, except a less-than right of a greater-than |
| PrintedText.ReadChain | src/hif2sc/PrintSystemCVisitor.cpp:5083-5253 | what C++ makes of a bare less-than after a greater-than: the leftmost operand is given away |
| PrintedText.ReadBack | src/hif2sc/PrintSystemCVisitor.cpp:5052-5253 | the printed text of every expression is one C++ expression, and it is `ReadAs` |
| PrintedText.RoundTrip | src/hif2sc/PrintSystemCVisitor.cpp:5052-5253 | printing and reading give the intended tree if and only if the expression is `Faithful` |
| PrintedText.ComparisonLost | src/hif2sc/PrintSystemCVisitor.cpp:5083-5253 | a > (b < c) is printed bare and read as (a > b) < c |
| PrintedText.DoubleMinus | src/hif2sc/PrintSystemCVisitor.cpp:1176-1383 | -(-a) is printed as a decrement |
| Aggregates.FillAggregateAltInfo | src/hif2sc/PrintSystemCVisitor.cpp:85-127 | the flattened list: others first, then each index of each alternative, subscripts outermost first |
| Aggregates.PushAllFront | src/hif2sc/PrintSystemCVisitor.cpp:92-94 | a subscript goes in front of every assignment of a list |
| Aggregates.RunInfoWrites | src/hif2sc/PrintSystemCVisitor.cpp:3488-3614 | an assignment under its loops writes exactly the cells its subscripts reach |
| Aggregates.RunsToEffect | src/hif2sc/PrintSystemCVisitor.cpp:3488-3614 | for every aggregate, each cell ends with the last assignment that reaches it, or keeps its value |
| Aggregates.CompleteEffect | src/hif2sc/PrintSystemCVisitor.cpp:85-127 | in a complete aggregate the assignments reach every cell of the array and no other, with the declared value |
| Aggregates.RunsToDeclaredValue | src/hif2sc/PrintSystemCVisitor.cpp:3488-3614 | for a complete aggregate of any depth the list turns any initial array into the declared one |
| Aggregates.RunsAsDeclaredIff | src/hif2sc/PrintSystemCVisitor.cpp:3488-3614 | for every aggregate the list gives any initial array the declared value, and keeps the rest, if and only if the aggregate is sealed: what is reached under an index is reached by the value that governs the index, at every level |
| Aggregates.CompleteIsSealed | src/hif2sc/PrintSystemCVisitor.cpp:85-127 | complete aggregates are sealed |
| Aggregates.DeclaredByItsAlternative | src/hif2sc/PrintSystemCVisitor.cpp:106-126 | with disjoint indices the declared value does not depend on the order of the alternatives |
| Aggregates.GapShowsThrough | src/hif2sc/PrintSystemCVisitor.cpp:87-104 | an aggregate that is not sealed: below a covering others, a cell the inner aggregate leaves out takes the value of others |
| Resolution.Resolved | src/hif2scSupport/hif_vhdl_ieee_std_logic_1164.cpp:46-59 | the loop over the drivers, with the shortcut for one |
| Resolution.EntryIsLogic | src/hif2scSupport/hif_vhdl_ieee_std_logic_1164.cpp:20-42 | the nine-valued table, entered from the four values, stays within them |
| Resolution.ResolvesByRule | src/hif2scSupport/hif_vhdl_ieee_std_logic_1164.cpp:46-59 | the result is Z iff all drivers are, 0 or 1 iff that value is present with no X and no opposite, else X; the shortcut agrees with the loop |
| Resolution.ResolvePermuted | src/hif2scSupport/hif_vhdl_ieee_std_logic_1164.cpp:52-58 | the order of the drivers does not matter |
| Resolution.ResolveAnyGrouping | src/hif2scSupport/hif_vhdl_ieee_std_logic_1164.cpp:52-58 | resolving any groups first gives the same value |
| Resolution.IdleDriver | src/hif2scSupport/hif_vhdl_ieee_std_logic_1164.cpp:37-58 | a Z driver changes nothing |
| InoutPorts.View.CollectProceduralAssigns | src/hif2verilog/PostRefine_inoutPort.cpp:54-76 | exactly the assignments inside processes whose target's root is the port |
| InoutPorts.View.LowerInout | src/hif2verilog/PostRefine_inoutPort.cpp:93-151 | reg with the port's width and default value, retargeted assignments and continuous driver of one port |
| InoutPorts.View.VisitView | src/hif2verilog/PostRefine_inoutPort.cpp:78-159 | all inout ports of a view, in order |
| InoutPorts.OnlyProceduralMove | src/hif2verilog/PostRefine_inoutPort.cpp:54-151 | exactly the assignments inside processes to an inout port or a part of one get another root, a fresh reg's; nothing else of any assignment changes |
| InoutPorts.RegsDeclared | src/hif2verilog/PostRefine_inoutPort.cpp:107-130 | every reg that an assignment or continuous driver uses is declared exactly once, with its port's width and default value |
| InoutPorts.LoweredPortsAreNets | src/hif2verilog/PostRefine_inoutPort.cpp:88-152 | afterwards no procedural assignment targets an inout port |
| InoutPorts.LoweringIsFinal | src/hif2verilog/PostRefine_inoutPort.cpp:95-99 | a second pass changes nothing |
| InoutRuns.StepSimulates | src/hif2verilog/PostRefine_inoutPort.cpp:107-151 | one step of both designs keeps all values equal, the reg driving what the port's drivers resolve to and each bit with one process |
| InoutRuns.NetsAgree | src/hif2verilog/PostRefine_inoutPort.cpp:107-151 | from elaboration of both designs, each reg at its declared value: if the static prefixes of different processes do not meet and the initial values agree, every net agrees at every step of every run, for whole, slice and dynamically indexed writes of any number of processes under any conditions and any other drivers |
| InoutRuns.NetsAgreeIff | src/hif2verilog/PostRefine_inoutPort.cpp:107-151 | for a port without another continuous driver and no bit that two processes drive, the nets agree at every step of every run if and only if each bit is written by the first run or starts alike |
| InoutRuns.AgreeIffLastShows | src/hif2verilog/PostRefine_inoutPort.cpp:107-151 | for a port without another continuous driver and any number of processes on a bit, the nets agree at every step of every run if and only if the first run makes reg and drivers alike and, in the original design, every later run leaves on each bit of the net what was written to it last |
| InoutRuns.RunKeepsPrefix | src/hif2verilog/PostRefine_inoutPort.cpp:112-127 | each process drives the bits of the longest static prefixes of its targets, from elaboration on, and no run writes another |
| InoutRuns.ElaboratedFollows | src/hif2verilog/PostRefine_inoutPort.cpp:107-130 | the lowered design elaborates to the original with the declared reg in place of the port's drivers |
| InoutRuns.AgreeByPrefix | src/hif2verilog/PostRefine_inoutPort.cpp:110-129 | from elaboration of both designs, the reg at its declared value: if the static prefixes of different processes do not meet, the nets agree forever if and only if each bit is written by the first run, or lies in a static prefix and port and reg start alike there, or lies in none and the reg starts at Z |
| InoutRuns.DynamicParts | src/hif2verilog/PostRefine_inoutPort.cpp:110-129 | `b(i) <= '1'` on a port that starts at X, the reg declared at Z: the pass applies and the nets part |
| InoutRuns.SharedParts | src/hif2verilog/PostRefine_inoutPort.cpp:137-151 | two processes that drive one bit to v and w: the pass applies and the nets part unless v and w resolve to w |
| InoutRuns.AllNetsAgree | src/hif2verilog/PostRefine_inoutPort.cpp:78-159 | the same when every inout port of the view is lowered in turn, every reg at its declared value and each port starting alike |
| InoutRuns.IdleStartIsExact | src/hif2verilog/PostRefine_inoutPort.cpp:110-129 | an unwritten bit of the reg is invisible among all other drivers if and only if it is Z |
| ReadOutPorts.NeedFix | src/hif2vhdl/PreRefine_readOutPorts.cpp:108-128 | whether the view reads the port: in a right-hand side, condition, index, sensitivity list or edge test, or inside an actual other than as its root |
| ReadOutPorts.ReadsCounted | src/hif2vhdl/PreRefine_readOutPorts.cpp:108-128 | the pass's test on its references is exactly that, for every view and name |
| ReadOutPorts.Architecture.DoFix | src/hif2vhdl/PreRefine_readOutPorts.cpp:130-149 | afterwards the port is not read, and every other name is read exactly as before |
| ReadOutPorts.Architecture.VisitPort | src/hif2vhdl/PreRefine_readOutPorts.cpp:88-106 | exactly an out port that is read is fixed |
| ReadOutPorts.Architecture.FixReadOutPorts | src/hif2vhdl/PreRefine_readOutPorts.cpp:88-106 | the ports in turn, each seeing the previous fixes |
| ReadOutPorts.StillRead | src/hif2vhdl/PreRefine_readOutPorts.cpp:108-149 | afterwards no out port is read, by that definition; as the root of an instance's input it is still there exactly when it was read nowhere else |
| ReadOutPorts.NewNameIs | src/hif2vhdl/PreRefine_readOutPorts.cpp:88-149 | exactly the out ports that the view reads get another name, their shadow's |
| ReadOutPorts.ShadowsMade | src/hif2vhdl/PreRefine_readOutPorts.cpp:130-149 | each of them has its shadow: a signal declared with the port's initial value, and the port assigned from it |
| ReadOutPorts.NothingElseDeclared | src/hif2vhdl/PreRefine_readOutPorts.cpp:130-149 | nothing else is declared, and no other declaration changes |
| ReadOutPorts.FeedingStillRead | src/hif2vhdl/PreRefine_readOutPorts.cpp:108-128 | an out port read by an instance's input alone still is after the pass |
| ReadOutPorts.FixIsFinal | src/hif2vhdl/PreRefine_readOutPorts.cpp:88-149 | a second pass, with any fresh names, changes nothing |
| ReadOutPorts.ShadowRun | src/hif2vhdl/PreRefine_readOutPorts.cpp:130-149 | for every stimulus and delta cycle n all other signals agree, the shadow equals the old port at n, and the new port at n equals the old one at n - 1 |
| ReadOutPorts.PortShowsWhenQuiet | src/hif2vhdl/PreRefine_readOutPorts.cpp:130-149 | the new port shows the old port's value if and only if that value did not change in the last cycle |
| ReadOutPorts.AllPortsRun | src/hif2vhdl/PreRefine_readOutPorts.cpp:88-149 | with all ports fixed in turn, every name holds in every delta cycle what it held, a fixed port through its shadow |
| ReadOutPorts.ActualsFollow | src/hif2vhdl/PreRefine_readOutPorts.cpp:88-149 | every connection of an instance keeps its formal, its value in every delta cycle, and its root up to the new name |
| Uniform.HifVhdlUniform | src/hif2scSupport/hif_vhdl_ieee_math_real.cpp:51-76 | no intermediate leaves 32 bits; the seeds are exactly 40014 s mod 2147483563 and 40692 s mod 2147483399, never 0; the output lies strictly between 0 and 1, within 1.3e-8 of z / 2147483563 for the z in range that is congruent to the seed difference |
| Uniform.OutputIncreases | src/hif2scSupport/hif_vhdl_ieee_math_real.cpp:70-75 | a larger difference gives a larger output, and only it |
| Uniform.EndsDrawn | src/hif2scSupport/hif_vhdl_ieee_math_real.cpp:51-76 | some calls come within 1.3e-8 of 0 and of 1 |
| Uniform.NextInjective | src/hif2scSupport/hif_vhdl_ieee_math_real.cpp:56-68 | different seeds step to different seeds |
| Uniform.AfterInjective | src/hif2scSupport/hif_vhdl_ieee_math_real.cpp:56-68 | runs from different seeds never meet, after any number of calls |
| Uniform.EveryDraw | src/hif2scSupport/hif_vhdl_ieee_math_real.cpp:51-76 | after any number of calls the seeds are the start times a power of the factor, modulo the modulus, and the output is in range |
| Uniform.Returns | src/hif2scSupport/hif_vhdl_ieee_math_real.cpp:56-68 | each seed comes back to its start within as many calls as there are seeds |
| SystemcExtensions.ModMeans | src/hif2scSupport/hif_systemc_extensions.cpp:43-57 | a value exists iff the divisor is not 0 and neither operand is the least integer, and then it is the unique VHDL mod (section 9.2.7 of IEEE 1076-2008) |
| SystemcExtensions.HifXorrd | src/hif2scSupport/hif_systemc_extensions.cpp:59-70 | the parity of the ones of a 64-bit word |
| AfterRegistry.AfterLibrary.Register | src/hif2scSupport/hif_after.cpp:24-35 | the previous holder of the key is disabled and the object takes the entry |
| AfterRegistry.AfterLibrary.Unregister | src/hif2scSupport/hif_after.cpp:37-49 | the entry goes only if it is the object's |
| AfterRegistry.AfterLibrary.NewAfter | src/hif2scSupport/hif_after.cpp:61-69 | a new active object with its own event, registered for its line, file and time; the invariant holds |
| AfterRegistry.AfterLibrary.CopyAfter | src/hif2scSupport/hif_after.cpp:71-82 | the copy takes event and activity and the entry; the invariant holds |
| AfterRegistry.AfterLibrary.DestroyAfter | src/hif2scSupport/hif_after.cpp:53-57 | object, its entry and its event go; the invariant holds |
| AfterRegistry.AfterLibrary.Disable | src/hif2scSupport/hif_after.cpp:59 | only the activity of the object changes |
| AfterRegistry.RunKeepsInvariant | src/hif2scSupport/hif_after.cpp:24-82 | after any run of construct, copy, disable and destroy, entries point to live objects with their key, active objects are the registered ones, and each event has one owner until it is deleted, once |
| AfterRegistry.DisableAndDestroy | src/hif2scSupport/hif_after.cpp:37-59 | disabling changes one activity; destroying takes the object, its entry if it is the object's, and its event, once; nothing else changes |
| AfterRegistry.OneMayFire | src/hif2scSupport/hif_after.cpp:24-82 | at most one object per line, file and time is active |
| AfterRegistry.NewestWins | src/hif2scSupport/hif_after.cpp:61-69 | a new statement's object is the only one that may fire for its key |
| AfterRegistry.Handover | src/hif2scSupport/hif_after.cpp:71-82 | through any chain of copies the last copy is active and registered and owns the undeleted event |
| AfterRegistry.OthersMayGo | src/hif2scSupport/hif_after.cpp:53-57 | destroying any other object leaves the carrier and its event as they are |
| AfterRegistry.CopyDecides | src/hif2scSupport/hif_after.cpp:71-82 | after a copy an assignment is pending for the original's key if and only if the original was active; other keys are untouched |
| AfterRegistry.SupersededCopyDrops | src/hif2scSupport/hif_after.cpp:24-82 | two statements' objects for one line, file and time, then a copy of the first: pending before the copy and not after it |
| BreakLabels.Jump.FixBreak | src/hif2sc/PreRefine_misc.cpp:38-67 | the label goes iff it names the nearest enclosing action that is not an if, or the process when there is none |
| BreakLabels.FixBreaks | src/hif2sc/PreRefine_misc.cpp:32-69 | every break found is treated so |
| BreakLabels.Jump.VisitContinue | src/hif2sc/PreRefine_misc.cpp:526-553 | the same for continue, without the process |
| BreakLabels.OnlyRedundantGo | src/hif2sc/PreRefine_misc.cpp:32-69 | in every nest exactly the labels that name the nearest enclosing action that is not an if, or for a break outside any the process, go; nothing else changes |
| BreakLabels.LabelsKeepRuns | src/hif2sc/PreRefine_misc.cpp:32-69 | for every nest of loops, switches and ifs, every store and every bound on the iterations, the run is the same with the labels dropped |
| BreakLabels.FixTwice | src/hif2sc/PreRefine_misc.cpp:32-69 | a second pass changes nothing |
| IdentifierNames.Find | src/hif2vhdl/PreRefine_identifierNames.cpp:151-154 | the first adjacent pair of underscores, or none |
| IdentifierNames.ReplaceDoubleUnderscore | src/hif2vhdl/PreRefine_identifierNames.cpp:148-158 | the find-and-insert loop terminates and puts the mark into every adjacent pair |
| IdentifierNames.EscapedLegal | src/hif2vhdl/PreRefine_identifierNames.cpp:133-158 | no leading and no double underscore; the result is legal iff the name had no trailing one (section 15.4.2 of IEEE 1076-2008) |
| IdentifierNames.EscapedTwice | src/hif2vhdl/PreRefine_identifierNames.cpp:133-136 | escaping is idempotent |
| IdentifierNames.LegalUnchanged | src/hif2vhdl/PreRefine_identifierNames.cpp:133-158 | exactly the names without leading and double underscores are kept |
| IdentifierNames.UnescapesPlain | src/hif2vhdl/PreRefine_identifierNames.cpp:133-158 | the escape of a name without the marks can be undone |
| IdentifierNames.CollidesIff | src/hif2vhdl/PreRefine_identifierNames.cpp:133-158 | a name shares its escape with another, mark-free name if and only if it carries a mark itself |
| IdentifierNames.SharesIff | src/hif2vhdl/PreRefine_identifierNames.cpp:133-158 | a name shares its escape with some other name if and only if it carries a mark or escaping changes it |
| IdentifierNames.Design.AfterVisit | src/hif2vhdl/PreRefine_identifierNames.cpp:75-131 | the object's new name, and its references' when it is a renamed declaration; standard and unnamed objects stay |
| IdentifierNames.Visited | src/hif2vhdl/PreRefine_identifierNames.cpp:75-131 | after any visit, complete or not, in any order, exactly the objects met and the references to declarations met have their escaped name |
| IdentifierNames.AllVisited | src/hif2vhdl/PreRefine_identifierNames.cpp:75-131 | whatever the order and repetition of visits, every object ends with its escaped name and references still name their declarations |
| IdentifierNames.StayApart | src/hif2vhdl/PreRefine_identifierNames.cpp:133-158 | two different mark-free names stay different |
| Reductions.FixReduceOperator | src/hif2vhdl/PreRefine_utilityLibraries.cpp:155-198 | the chain over the static span, low index first, or the operand itself without a span |
| Reductions.ChainOrder | src/hif2vhdl/PreRefine_utilityLibraries.cpp:183-191 | the chain selects every index of the span once, in rising order |
| Reductions.ReducedReversed | src/hif2vhdl/PreRefine_utilityLibraries.cpp:183-191 | a reduction does not depend on the direction of the span |
| Reductions.ChainReduces | src/hif2vhdl/PreRefine_utilityLibraries.cpp:155-198 | for every width, direction and four-valued vector the chain is the reduction if and only if the vector is not the single bit Z |
| Reductions.IntegersReduce | src/hif2sc/PreRefine_utilityLibraries.cpp:861-891 | nonzero, all ones and parity are the reductions of the operand's bits, exactly unless parity sees an odd number of added sign bits; never at 8, 16, 32 or 64 bits |
| SliceMask.AssignNode.FixAssignToIntSlice | src/hif2sc/PreRefine_misc.cpp:1135-1184 | an assignment to a slice of an integer becomes one of the whole with the masked right-hand side |
| SliceMask.SliceWritten | src/hif2sc/PreRefine_misc.cpp:1151-1179 | for every width, pair of bounds, source and reading of a full-width shift: the slice is written, or the word keeps its value, and which |
| SliceMask.SliceBits | src/hif2sc/PreRefine_misc.cpp:1139-1179 | with full-width shifts giving 0, bit i is source bit i - r inside the slice and the old bit outside |

## Left out

- hif-core: process analysis, typing, `simplify`, visitor dispatch, reference search and fresh names are inputs; hif-core is not part of this model.
- ClockedRuns.RebuiltIff: the clocked condition holds on working edges only and tests nothing else of the past; a test such as `rising_edge(clk) or en`, which holds without an edge, is not covered.
- ClockedRuns.SameRuns: clock and reset are two-valued, so transitions through X and Z are not covered; assignment delays are not modelled; other writers of the targets are excluded by the environment's premises.
- ClockedRuns.IndexedTargetDiverges: for an assignment that is its name's only one in the branch and reads nothing the process assigns; `RebuiltIff` covers every other branch.
- ClockedLowering.RoundTrip: covers styles 3, 5 and 6 with a single clock, the sole if as body for 6; other styles go through `Lower` but have no round trip.
- Direct-assign and return cases of VHDL's `visitWhen`: not modelled.
- Ternary.LoweredTernary: operands of equal width and a span with known bounds; how a narrower operand is extended is typing done by hif-core. The real-typed case keeps its default of 0.0 in `FixCombineTernary` only.
- WhenSplitter.SplitKeepsValue: generated functions read the enclosing scope's store, so the names a When reads are those visible there; a split in a view, or without a process, leaves or refuses the When.
- ExprPrinter.Printer.Visit: the parentheses forced on `>` inside template arguments are not modelled, since template arguments are not.
- ExprPrinter.Printer.VisitCast: C-style, time and null-pointer casts are not modelled.
- ExprPrinter.Printer.VisitCall: instances, namespaces and template arguments of a call are not modelled.
- PrintedText.RoundTrip: the operators rol, ror, pow and abs, C-style, time and null-pointer casts, method calls on instances, negative literals, SystemC type constructors and the extra parentheses inside template arguments are not modelled; operands of an address operator are lvalues.
- Aggregates: `.init` lines of sc_vector and the text of the loop headers are not modelled.
- InoutRuns.NetsAgreeIff: holds of any start; `AgreeByPrefix` reads the reg's off its declaration, whose value hif-core chooses by the port's width (`init`). The only-if half is for a port without another continuous driver, which could hide a difference.
- InoutRuns.StepSimulates: each step runs every process once, an activation that does nothing being one whose conditions are false; a signal that is no port takes the last of its writes; conditions, indices and right-hand sides read the values at the start of a step; variables inside the process are not modelled.
- ReadOutPorts.ShadowRun: instances are not run; each signal has one driving process, the last one listed if several write.
- Uniform.HifVhdlUniform: the output is exact over the reals, not a rounded double; seeds outside MATH_REAL's range are not covered.
- AfterRegistry: `IHifAfter::swap` moves keys without touching the map and is not an operation of the model; nor are the `HifAfter` template's target and value, and the simulator's own copies appear as the chain of `Handover`.
- BreakLabels.LabelsKeepRuns: labels name enclosing loops or the process and no switch has such a name; a break that leaves the body without a label ends the process's activation.
- Reductions.IntegersReduce: the all-ones constant has the operand's width; C++'s promotion of `~0` to int for narrower operands is not modelled.
- SliceMask.SliceWritten: bounds lie within the word and are known when the assignment runs; promotion of narrow integers to int is not modelled.
- IdentifierNames: design-unit names of view references, renamed alongside, are not a second object of the model.
- Nine-valued std_logic beyond X, 0, 1 and Z, text I/O, floating-point helpers, HDTLib and AMS variants, library and include insertion, comments and indentation: not modelled.
- Subprogram conflict renaming: not modelled.
