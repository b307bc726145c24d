# Verified models of gem5's configuration and trace tools

gem5 comes with a layer of Python around the simulator: scripts that wire systems together, control
runs, and convert or draw what the simulator wrote. Most of it is plumbing. Some of it holds small
algorithms whose correctness is not obvious, and this project models those in Dafny and proves what
they are for.

| module | what it models |
|---|---|
| `MicroAsmTables`, `MicroAsmAutomaton`, `MicroAsmParser`, `MicroAsmLoad`, `MicroAsmDriver` | the LALR tables of the micro-assembler (`parsetab.py`), the loops that load them, and PLY's shift/reduce driver running on them |
| `ReadConfig`, `PortNames` | how `read_config.py` gathers port connections, orders them and binds them, and the text form of a port element |
| `PipeViewQueue`, `PipeViewTimeline` | the bounded reordering queue of `o3-pipeview.py` and the layout of its timelines |
| `CptUpgrader` | the dependency resolution of `cpt_upgrader.py` |
| `MemTest`, `MemTestTree` | the recursive tree of caches and testers of `memtest.py`, and its closed form |
| `Protolib`, `DepTrace` | length-prefixed message streams, and the text form of dependency traces |
| `Aggregator` | merging checkpoints |
| `Simulation` | periodic checkpoints and repeated CPU switching, against any simulator |
| `Copyrights` | printing a set of years as ranges and reading it back |
| `GpuPorts` | the port numbering that two GPU scripts have to agree on |
| `Text`, `Sorting`, `Arithmetic`, `Wrappers` | numerals and strings, a stable sort, division, option and result types |

`dafny verify dfyconfig.toml` checks everything.

## The main results

*Parser.* The driver on the stored tables accepts a token sequence if and only if the listed grammar
derives it; the tree it returns is then the only derivation tree. It terminates on every input, every
reduction finds its right-hand side and a goto entry, and on a rejected input it stops at the first
token that no sentence could have at that place, after shifting a prefix that some sentence does begin
with. The grammar is unambiguous. The loops at the end of `parsetab.py` build exactly these tables
from the stored columns, in whatever order the dictionaries are iterated, and the driver is proved on
what they build.

*Port binding.* The single greedy pass binds every link exactly once if and only if one direction per
link can be chosen such that, of two links at consecutive indices of a port, the one at the lower index
is sorted first; and whenever every link has an end on a port with one connection, it succeeds. The
comment in the source says that one direction of every pair is bindable "because the connections are
sorted". That is not so: `PassMayFail` gives, for any four port names, a wiring on which the pass fails
although it can be bound in order. It is two crossbars in a row, every link joining a master port and a
slave port. What a successful pass builds is what was declared.

*Reordering.* The queue of `o3-pipeview.py` releases a trace in order if and only if no arrival has more
than `min_threshold` larger sequence numbers among the arrivals seen by the last flush before it. The
assumption written in the source implies this, and is stronger unless the queue is flushed at every
arrival. Whatever the order, exactly the wanted instructions are printed. This is about the flush at the
end of the file; the flush for an early stop (`util/o3-pipeview.py:134`) passes one argument too few and
cannot run.

*Timelines.* What is drawn is stated on the fields of the trace record. `DrawTimeline` draws as many lines
as the last stage needs. A line has the letters of exactly the stages that fall on it, a dispatch at the
tick of the issue left out. The letters are in the order of time and name, each in the cell of its cycle,
moved right by one for every two letters before it that share a cell; everything else is filler. A stage
that was reached is on exactly one line if and only if its tick is not before the first line, and a line
has exactly `width` cells if and only if no two of its events share a cell.

*Upgrades.* Every run that ends has added all upgrade tags and removed all downgrade tags, in whatever
order the sets were iterated, and a second run does nothing; each tag is applied once, and its
dependencies were there before. A run ends if and only if everything to be applied can be given a depth
(the longest chain of missing upgrades below it, which is unique), every dependency is there or is a
missing upgrade, and no tag is removed at a smaller depth than that of something which depends on it. If
nothing depends on a removed tag, this means that a run aborts if and only if the missing upgrades
contain a dependency cycle. The documentation says that a dependency on a tag with a
downgrader means that the tag must have been removed first. `ready` tests for presence only, so this
fails in two ways: if the tag is already gone, the upgrade can never run (`RemovedDependencyBlocks`);
if it is there, some iteration order runs the upgrade before the removal (`PresentRunsFirst`, with both
orders of one round in `SameRound`). `RemovedFirstIff` says when the rule does hold: a run ends and
follows it in every order if and only if nothing to be applied depends on a tag with a downgrader and
the missing upgrades have no dependency cycle. The model follows the code.

*Trees of testers.* The system that the recursion builds is given in closed form: which crossbars,
caches and testers exist on which level, and that the i-th subsystem of a level hangs below cache
i mod f of subsystem i div f of the next level towards memory, where f is the fan-out. Every cache has exactly one
component connected to it, every component reaches memory, and there are as many testers as the closed
sum of products says.

*Formats.* A message stream comes back exactly when every length is from 1 to 2^32 - 1. A printed trace
parses back, with absent pc and weight filled in, exactly when every record is one the text form can
express. A line that is no record fails with the first thing that is wrong with it. A list of years with
any white space around its parts and dashes is read as the union of what its parts denote, and a printed
set of years is read back exactly when any two years in a row are four-digit years. What is read from the
text of a port element is given for every text; a printed one is read back exactly when its name is not
empty and has no `.` or `[`, and the object path has no line break.

*Merged checkpoints.* The image of a checkpoint begins at the offset that is added to its addresses if
and only if every image before it is as long as its page count says, and then each of its bytes is found
at its address plus that offset; after a short image the following ones begin too early. The merged file
holds exactly the renamed sections of every processor of every checkpoint, with the address moved and
all other items kept, and the other sections of the last checkpoint. The new name has the number of the
checkpoint after every `cpu`, with as many digits as that of the last checkpoint. A moved address names the byte that
it named before the merge. No two sections have the same name, and none has a name that the script adds
itself. The regions tile the memory, and the recorded size is the number of bytes written exactly when
every image is full.

*Run control.* The simulator is an object whose exit events and draining times are arbitrary.
Checkpoints are due at `when`, `when + period` and so on, and are late only by what draining took;
there are at most `max(1, max_checkpoints)`, and from the second on none is due past `maxtick`. What is
returned is what the last run reported, and the series ends early only if a run was stopped. If
draining takes no time, how many there are, which exit is returned and when the run stands then is
determined for every sequence of exit events: a checkpoint request of the simulated system within a
period ends the series with that period, because the loop goes on looking at the old exit cause. CPU
switching alternates between running and switched-out processors, once a period, up to the first switch
that leaves at most a period or to an exit before that. Again, if draining takes
no time, the number of switches, the exit and the final tick are determined for every sequence of exit
events, and time stays within `maxtick` if a first period fits; without exit events only then.

*GPU ports.* For all counts that pass the assertion about compute units, the running index connects
every CPU, compute unit and command processor to the sequencers created for it and never leaves the list.

## Model

| member | source | states |
|---|---|---|
| MicroAsmAutomaton.Advance | parsetab.py:10-26 | in a state that holds a rule with the dot before a symbol, the tables have an entry for that symbol and it leads to a state with the dot moved on |
| MicroAsmAutomaton.Retreat | parsetab.py:10-26 | a state with the dot past a symbol is entered over that symbol only, from states that hold the rule with the dot before it |
| MicroAsmAutomaton.CompletedAt | parsetab.py:10-16 | the rule a state reduces is the rule it holds with the dot at the end, for all 46 states |
| MicroAsmAutomaton.Follows | parsetab.py:10-59 | the lookaheads on which a nonterminal is reduced contain whatever can follow it inside any rule |
| MicroAsmAutomaton.RankDrops | parsetab.py:10-59 | a measure of states that every reduction lowers, so that no chain of reductions is infinite |
| MicroAsmParser.StackSpells | ext/ply/ply/yacc.py:898-943 | below a state that holds a rule with the dot at d, the stack holds trees for the first d symbols of the rule |
| MicroAsmParser.ReduceFits | ext/ply/ply/yacc.py:945-1015 | every reduction finds as many trees as its right-hand side has symbols, of the right kinds, and a goto entry below them |
| MicroAsmParser.ReduceEnabled | ext/ply/ply/yacc.py:945-1015 | a reduce action on a reachable stack can be carried out and lowers the termination measure |
| MicroAsmParser.ReduceKeeps | ext/ply/ply/yacc.py:945-1015 | a reduction keeps the stack invariant and the token sequence spelled by stack and remaining input |
| MicroAsmParser.ShiftKeeps | ext/ply/ply/yacc.py:932-943 | so does a shift |
| MicroAsmParser.AcceptShape | ext/ply/ply/yacc.py:1018-1020 | on acceptance the stack holds one tree for the whole input, a derivation from the start symbol |
| MicroAsmParser.RunSound | ext/ply/ply/yacc.py:914-1020 | from any reachable configuration an accepted tree derives exactly the tokens of stack and input |
| MicroAsmParser.DriveTree | ext/ply/ply/yacc.py:914-1020 | running over the tokens of a derivation tree where its root is expected has the effect of pushing that tree |
| MicroAsmParser.RoundTrip | parsetab.py:10-59 | printing any derivation tree of a file to tokens and running the driver gives the same tree |
| MicroAsmParser.Unambiguous | parsetab.py:27-59 | two derivation trees with the same tokens are equal |
| MicroAsmParser.Completable | parsetab.py:10-59 | every reachable stack can be completed to a tree of a whole file |
| MicroAsmParser.RejectsAgain | ext/ply/ply/yacc.py:914-1020 | a rejection depends only on the tokens up to the offending one |
| MicroAsmParser.RejectedViable | ext/ply/ply/yacc.py:1022-1050 | the tokens shifted before an error begin some sentence |
| MicroAsmParser.RejectedStuck | ext/ply/ply/yacc.py:1022-1050 | no sentence begins with them and the offending token |
| MicroAsmParser.Verdict | parsetab.py:10-59 | the verdict of a run in full: accepted with the only tree there is, or no sentence, stopped at the earliest possible token |
| MicroAsmLoad.BuildTable | parsetab.py:12-16 | the nested loops give, for columns in any order, the table with exactly the listed entries |
| MicroAsmLoad.ActionItemsAreModel | parsetab.py:10 | the stored action columns hold exactly the entries of the modelled automaton |
| MicroAsmLoad.GotoItemsAreModel | parsetab.py:19 | the stored goto columns hold exactly its goto entries |
| MicroAsmLoad.LoadTables | parsetab.py:10-26 | loading the stored columns, in any order, gives the tables that the driver is proved correct for |
| MicroAsmDriver.Drive | ext/ply/ply/yacc.py:898-1022 | the driver loop on its two stacks and the two dictionaries: accepts exactly the sentences, returns the only derivation tree, reports an error at the first token that no sentence could have there; it terminates on every input |
| MicroAsmDriver.Parse | parsetab.py:10-59 | the same for the stored tables, loaded by the loops in any order of the columns |
| ReadConfig.StartIndices | configs/example/read_config.py:296-299 | the dictionary has a counter, at 0, for exactly the ports that some connection starts from |
| ReadConfig.Pass | configs/example/read_config.py:301-329 | the loop with its dictionary of counters binds what the greedy choice on bound prefixes binds, and finds every key when both directions are listed |
| ReadConfig.MadeInOrder | configs/example/read_config.py:319-329 | every port is bound at index 0, 1, 2 and so on in turn |
| ReadConfig.EndsBelowCount | configs/example/read_config.py:301-307 | the ends in use at a port are exactly those below its counter |
| ReadConfig.InOrderOnce | configs/example/read_config.py:319-329 | no end is bound twice, so no link is bound in both directions |
| ReadConfig.HalfMeansAll | configs/example/read_config.py:331-334 | half of the list is bound exactly when every link is |
| ReadConfig.GreedyKeepsUp | configs/example/read_config.py:319-329 | whatever any index-respecting choice of directions binds within a prefix, the greedy pass has bound as well |
| ReadConfig.SucceedsIff | configs/example/read_config.py:309-334 | the pass succeeds if and only if a choice of one direction per link, kept in sorted order, visits all indices in turn |
| ReadConfig.StepwiseIff | configs/example/read_config.py:309-329 | a choice of directions visits all indices in turn if and only if, of two links at consecutive indices of a port, the one at the lower index is sorted first |
| ReadConfig.SucceedsPairwise | configs/example/read_config.py:309-334 | the pass succeeds if and only if directions can be chosen that way |
| ReadConfig.StarSucceeds | configs/example/read_config.py:309-334 | if every link has an end on a port with one connection, the sorted pass succeeds, for any number of objects and ports |
| ReadConfig.EndLeqMeans | configs/example/read_config.py:146-148 | ends are ordered by object, then port, then index |
| ReadConfig.SortedByEnds | configs/example/read_config.py:320 | sorted connections are in the order of the end they start from, then of the other one |
| Sorting.TextLeqMeans | configs/example/read_config.py:146-148 | strings are ordered by the first character that differs, and a prefix comes first |
| ReadConfig.PassMayFail | configs/example/read_config.py:309-334 | for any four port names, a wiring of master ports with slave ports that some order binds completely and the sorted pass does not |
| ReadConfig.WiredAsDeclared | configs/example/read_config.py:336-342 | binding in order gives every bound end the peer it was declared with |
| ReadConfig.BindPorts | configs/example/read_config.py:288-342 | fails or succeeds exactly as above on every well-formed list; after success every port has exactly its declared peers at their indices |
| ReadConfig.GatherConnections | configs/example/read_config.py:268-286 | one connection per listed element of every port and no other |
| ReadConfig.MutualIsWellFormed | configs/example/read_config.py:344-369 | configurations whose two ends name each other give lists as bind_ports demands them |
| ReadConfig.RebuildWiring | configs/example/read_config.py:344-369 | for such a configuration, success reproduces the peer list of every port exactly |
| PortNames.FromStringMeans | configs/example/read_config.py:133-141 | what is read from any text: the longest object path, the longest port name, and the index in brackets or 0 |
| PortNames.StrRoundTrip | configs/example/read_config.py:133-144 | from_string undoes __str__ if and only if the port name is not empty, has no "." or "[", and the object path has no line break |
| PipeViewQueue.PrintQueue.PrintInsts | util/o3-pipeview.py:167-188 | sorting in place and popping down to the threshold, with the filters, equals the drain of the specification |
| PipeViewQueue.PrintQueue.QueueInst | util/o3-pipeview.py:159-164 | queueing keeps the queue and the output equal to the specification after one more arrival |
| PipeViewQueue.Conserved | util/o3-pipeview.py:159-188 | at any time what was popped and what is queued are together exactly the arrivals |
| PipeViewQueue.QueueLength | util/o3-pipeview.py:159-170 | the length of the queue as a function of the number of arrivals |
| PipeViewQueue.NearlySortedInWindow | util/o3-pipeview.py:47-53 | the assumption stated in the source puts every arrival in window |
| PipeViewQueue.WindowWider | util/o3-pipeview.py:47-53 | the two mean the same if and only if the thresholds are equal; otherwise some trace is in window and breaks the assumption |
| PipeViewQueue.OutputSortedIff | util/o3-pipeview.py:47-68 | the whole output is sorted if and only if every arrival is in window; it is then the stable sort of the trace |
| PipeViewQueue.FilterContents | util/o3-pipeview.py:177-187 | the range and commit filters keep exactly the wanted instructions, each as often as it came |
| Sorting.SortStable | util/o3-pipeview.py:169 | sorting keeps the order of elements that compare equal |
| PipeViewQueue.PrintTrace | util/o3-pipeview.py:127-188 | a whole trace up to the flush at the end of the file: what is printed is exactly the wanted instructions, in order if every arrival is in window |
| PipeViewTimeline.ShownOnce | util/o3-pipeview.py:227-262 | a reached stage is on exactly one line, compact or not, if and only if its tick is not before the first line |
| PipeViewTimeline.CollectEvents | util/o3-pipeview.py:255-262 | the loop over the stages collects exactly the events of a line |
| PipeViewTimeline.DrawEvents | util/o3-pipeview.py:265-283 | the drawing loop writes fillers, letters and the rest of the line as specified, leaving out a dispatch at the tick of issue |
| PipeViewTimeline.DrawLine | util/o3-pipeview.py:250-283 | the picture of a line in terms of the record: letters of exactly the stages on it, in order, each at its cell, and the filler by whether the instruction retired; a single line without events is an index error |
| PipeViewTimeline.DrawTimeline | util/o3-pipeview.py:191-283 | all lines of an instruction: how many, and the picture of each; when it fails |
| PipeViewTimeline.LinesAre | util/o3-pipeview.py:227-242 | one line if every stage is less than the time of a line after the fetch, and else one for every stretch of time up to that of the last stage |
| PipeViewTimeline.BodyWritten | util/o3-pipeview.py:264-283 | the text for any events: each letter in the cell of its event, moved right by one for every two before it that share a cell, filler everywhere else |
| PipeViewTimeline.ShownIs | util/o3-pipeview.py:255-271 | what is drawn on a line: the visible stages whose tick lies on it, once each, by increasing cell |
| PipeViewTimeline.BodyLength | util/o3-pipeview.py:264-283 | a line has at least width cells, and exactly width if and only if no two of its events share a cell |
| PipeViewTimeline.BodyCells | util/o3-pipeview.py:264-283 | with distinct cells, each cell shows the letter of its event or the filler |
| PipeViewTimeline.RegularTimeline | util/o3-pipeview.py:197-283 | for cycle-aligned ticks, none before fetch and distinct but for dispatch and issue, every line has width cells and shows each stage on it at its cycle modulo width, but no dispatch at the tick of the issue, and a cell is filler exactly if there is none |
| CptUpgrader.ResolveDependencies | util/cpt_upgrader.py:173-185 | for any iteration order, loading succeeds exactly when all named tags exist, and forward dependencies end up at their targets |
| CptUpgrader.UpgradeResult | util/cpt_upgrader.py:238-258 | a run that ends has added the tag of every upgrader, removed that of every downgrader and left all others, and a second run changes nothing |
| CptUpgrader.BlockedStuck | util/cpt_upgrader.py:240-252 | tags that only wait for each other are never applied |
| CptUpgrader.LeftWaits | util/cpt_upgrader.py:240-252 | if nothing depends on a removed tag, a run that gives up leaves upgrades that wait for each other |
| CptUpgrader.AbortsIffCycle | util/cpt_upgrader.py:240-252 | with audited dependencies, none of them on a removed tag, a run aborts if and only if the missing upgrades contain a dependency cycle |
| CptUpgrader.EndsIffScheduled | util/cpt_upgrader.py:238-258 | a run ends if and only if everything to be applied has a depth, every dependency is there or is a missing upgrade, and no tag is removed at a smaller depth than that of something which depends on it |
| CptUpgrader.DepthUnique | util/cpt_upgrader.py:240-252 | there is at most one such assignment of depths |
| CptUpgrader.RemovedDependencyBlocks | util/cpt_upgrader.py:140-144 | a tag to be applied that depends on a tag which is neither there nor going to be applied makes the run abort; so does one whose removed dependency is already gone |
| CptUpgrader.PresentRunsFirst | util/cpt_upgrader.py:240-252 | if the removed dependency is still there and the run ends, some iteration order applies the tag before the removal |
| CptUpgrader.SameRound | util/cpt_upgrader.py:242-252 | a downgraded tag and an upgrade that depends on it: both are applied in the first round, in either order, and one of the two orders breaks the documented rule |
| CptUpgrader.RemovedFirstIff | util/cpt_upgrader.py:60-65 | a run ends and follows the documented rule in every iteration order if and only if nothing to be applied depends on a tag with a downgrader and the missing upgrades have no dependency cycle |
| CptUpgrader.ApplyReady | util/cpt_upgrader.py:248-252 | the ready tags are applied once each, in any order, with the same result |
| CptUpgrader.ProcessTags | util/cpt_upgrader.py:238-258 | the worklist ends with the result above, applies each tag at most once and with its dependencies there before, round by round, each round in any order |
| MemTest.NumTesters | configs/example/memtest.py:114-125 | the loops compute the sum of products over the levels |
| MemTest.SumIsTree | configs/example/memtest.py:114-125 | the closed sum equals the recursive count of the tree |
| MemTest.ScalePrototypes | configs/example/memtest.py:188-212 | one prototype per level; sizes scale with the product of the fan-outs, latencies tenfold per level, inclusivity alternates |
| MemTest.System.AttachTesters | configs/example/memtest.py:251-280 | the testers of a subsystem get a cache each |
| MemTest.System.MakeCacheLevel | configs/example/memtest.py:234-297 | the recursion on global counters builds the tree of the specification, never indexes a list out of range, and makes each cache from the prototype of its level |
| MemTest.BuiltGood | configs/example/memtest.py:234-297 | a subtree adds exactly its share of testers and subsystems, uses no name twice, and leaves all else alone |
| MemTest.FinishedTree | configs/example/memtest.py:230-302 | the finished system has the testers of the closed sum, all different, as many subsystems per level as the fan-outs multiply to, and every linked component reaches memory |
| MemTest.CheckSpec | configs/example/memtest.py:150-175 | the checks pass exactly on valid specifications of at most 64 testers, and each message means that its check fails and the earlier ones pass |
| MemTestTree.BuiltLaid | configs/example/memtest.py:234-297 | the call for the k-th subsystem of a level adds exactly the components of its subtree, wired as in the closed form, and changes no other link |
| MemTestTree.FinishedLinks | configs/example/memtest.py:230-302 | the components of the finished system and what each is connected to, by level, index and number |
| MemTestTree.OneUser | configs/example/memtest.py:261-297 | whatever is connected to a cache is the one component the closed form names |
| MemTestTree.FinishedIsTree | configs/example/memtest.py:230-302 | exactly these components, each wired as in the closed form, every cache connected to exactly once, and memory reached from everywhere |
| MemTestTree.BuildSystem | configs/example/memtest.py:150-302 | checks and construction together: goes ahead exactly on valid specifications of at most 64 testers, and then the tree, the testers and the prototype of every cache are as stated |
| Protolib.VarintByte | util/protolib.py:146-158 | each byte is one base 128 digit, lowest first, with the top bit set unless it is the last |
| Protolib.VarintRoundTrip | util/protolib.py:101-158 | a varint below 2^63 reads back as its value modulo 2^32, consumes its own bytes and leaves the rest |
| Protolib.EncodeVarint32 | util/protolib.py:146-158 | the loop writes the base 128 form |
| Protolib.DecodeVarint32 | util/protolib.py:101-129 | on any stream: the value of the varint with its mask and sign, (0, 0) at the end of the file, an error after ten continued bytes, and how much was read |
| Protolib.DecodeMessage | util/protolib.py:131-144 | the next message and what follows it, with short and negative sizes as the code treats them |
| Protolib.EncodeMessage | util/protolib.py:160-166 | appends the length and the message |
| Protolib.StreamRoundTrip | util/protolib.py:101-166 | reading until there is no message gives back the written ones if and only if every length is from 1 to 2^32 - 1 |
| Protolib.ReadMessages | util/decode_inst_dep_trace.py:157-158 | the reading loop of the trace scripts |
| Protolib.WriteThenRead | util/protolib.py:101-166 | the same over files |
| DepTrace.WriteRecord | util/decode_inst_dep_trace.py:160-206 | one record becomes one line, with defaults for pc and weight |
| DepTrace.WriteTrace | util/decode_inst_dep_trace.py:157-206 | a trace becomes its lines |
| DepTrace.ReadDeps | util/encode_inst_dep_trace.py:184-195 | empty items are skipped, the first bad number ends the conversion |
| DepTrace.ParseLongMeans | util/encode_inst_dep_trace.py:155-157 | a number is white space, a sign or none, digits, an L or none, and white space |
| DepTrace.LineFaults | util/encode_inst_dep_trace.py:151-195 | what a line that says no record fails with: the number of parts, or the first item that is missing, no number, out of range or no type |
| DepTrace.LineMeaning | util/encode_inst_dep_trace.py:151-195 | parsing finds a record if and only if the three parts of the line say its fields, one by one |
| DepTrace.ReadLine | util/encode_inst_dep_trace.py:151-195 | the result is the record that the line says, if it says one; it fits the fields and is one the text form can express; the line of a record gives it back, with defaults, exactly when it can be expressed; and the error is the first thing wrong with the line |
| DepTrace.ReadTrace | util/encode_inst_dep_trace.py:150-195 | the lines become records up to the first error |
| DepTrace.LineParts | util/encode_inst_dep_trace.py:151-152 | a printed line falls apart into its three parts and its items |
| DepTrace.LineRoundTrip | util/encode_inst_dep_trace.py:151-195 | parsing a printed record gives it back, with pc and weight filled in, if and only if its type is valid, address, size and flags are present exactly for loads and stores, and no field is set that the text leaves out |
| DepTrace.TraceRoundTrip | util/decode_inst_dep_trace.py:157-206 | the same for whole traces, through the lines of the text file |
| Aggregator.CopyPages | util/checkpoint_aggregator.py:105-112 | the loop over the pages copies the image up to its page count or its end |
| Aggregator.StartIsBase | util/checkpoint_aggregator.py:97-115 | an image begins at the offset added to its addresses if and only if every image before it is full, and earlier otherwise |
| Aggregator.ImagePlaced | util/checkpoint_aggregator.py:105-112 | every byte read of an image is in the merged memory at its address plus where the image begins |
| Aggregator.ShortImageShifts | util/checkpoint_aggregator.py:97-115 | after an empty image with a page count of one, the next image begins a page before its offset |
| Aggregator.RegionsTile | util/checkpoint_aggregator.py:98-99 | every address below the total is in the region of exactly one checkpoint |
| Aggregator.ImagesLength | util/checkpoint_aggregator.py:97-121 | the bytes copied are as many as the page counts say if and only if every image is full |
| Aggregator.Pad | util/checkpoint_aggregator.py:121-129 | padding keeps what was written, adds pages of the character 0, and stops at the first page boundary not below the memory size |
| Aggregator.StartNext | util/checkpoint_aggregator.py:105-112 | images follow each other without gaps, each as long as its pages or as itself if that is less |
| Aggregator.TagIs | util/checkpoint_aggregator.py:59-69 | the tag is the number of the checkpoint in decimal, with zeros in front up to the width |
| Aggregator.HasCpuMeans | util/checkpoint_aggregator.py:68 | a section is a processor's if cpu occurs anywhere in its name |
| Aggregator.SubMeans | util/checkpoint_aggregator.py:69 | renaming puts the tag after every cpu in the name and changes nothing else |
| Aggregator.FdMapMeans | util/checkpoint_aggregator.py:79 | which sections get the number of the checkpoint as M5_pid |
| Aggregator.SubApart | util/checkpoint_aggregator.py:68-69 | two renamed sections with tags of the same length are the same only if the sections and, for processors, the tags are |
| Aggregator.CarriedIs | util/checkpoint_aggregator.py:68-80 | a processor's section is renamed, its address is moved by the base, a file descriptor map gets the number of the checkpoint, and every other item is kept |
| Aggregator.SectionsAre | util/checkpoint_aggregator.py:59-95 | a section is in the merged file if and only if it is a processor's section of some checkpoint, so changed, or one of the other sections of the last checkpoint, without system and Globals |
| Aggregator.SectionsApart | util/checkpoint_aggregator.py:59-95 | no two sections of the merged file have the same name, and none is named system or Globals |
| Aggregator.AddressKeepsByte | util/checkpoint_aggregator.py:67-112 | the merged file has the section of a processor under its new name, and its address there names in the merged memory the byte it named before |
| Aggregator.MergeOne | util/checkpoint_aggregator.py:67-92 | the loop over the sections of one checkpoint gives exactly the sections that this checkpoint contributes, and fails if and only if a processor's address is no number |
| Aggregator.Aggregate | util/checkpoint_aggregator.py:44-139 | when each error occurs; otherwise exactly the contributed sections, with distinct names, every address naming the byte it named before; memory, page count, next process id and latest tick; the recorded size is at least the memory size, and is the number of bytes written if and only if every image is full |
| Simulation.RunMeans | src/sim/simulate.cc:82-152 | a run stops when the first event is raised, if that is not after the limit, and else at the limit; at the limit itself either may come first |
| Simulation.Simulator.Simulate | src/sim/simulate.cc:82-152 | runs to the first exit event or the limit, never past it; negative counts are refused |
| Simulation.Simulator.SwitchCpus | src/python/m5/simulate.py:238-312 | succeeds exactly when every old processor runs and every new one is switched out, and then exchanges them; otherwise the fault of the first pair that has one |
| Simulation.StopMeans | configs/common/Simulation.py:242-244 | going on after checkpoint requests reaches the limit if only requests are on the way, and else ends with the first other exit |
| Simulation.SkipRequests | configs/common/Simulation.py:242-244 | resuming after checkpoint requests ends at the goal or with another exit, and fails only when the goal has passed |
| Simulation.FirstCheckpoint | configs/common/Simulation.py:240-248 | the first checkpoint is written at when, late by what draining took, unless another exit stops the run; a past tick is refused |
| Simulation.OnePeriod | configs/common/Simulation.py:260-267 | one period: a checkpoint at the goal, or late only by what was late before and what draining took |
| Simulation.ScriptCheckpoints | configs/common/Simulation.py:235-269 | for every simulator: checkpoints without gaps when they are due or late by what draining took, not too many, none after the first due past maxtick; when it can fail; the exit of the last run is returned, and unless a run was stopped there are as many checkpoints as asked for or due; and, if draining takes no time, how many there are, which exit is returned and at which tick, for any exit events |
| Simulation.MoreCheckpoints | configs/common/Simulation.py:250-269 | the same for the loop after the first checkpoint |
| Simulation.TakeCheckpoints | configs/common/Simulation.py:235-269 | with draining that takes no time, checkpoints at exactly when + i * period, at most max(1, max_checkpoints); how many, which exit is returned and at which tick, for any exit events |
| Simulation.CountUnique | configs/common/Simulation.py:253-267 | the exit events determine the number of checkpoints |
| Simulation.SeriesFails | configs/common/Simulation.py:253-269 | it fails only if another checkpoint is asked for and the period is negative or when is past maxtick |
| Simulation.UndisturbedCount | configs/common/Simulation.py:253-267 | without exit events there are as many checkpoints as asked for or as are due by maxtick |
| Simulation.RequestEndsSeries | configs/common/Simulation.py:253-267 | a single checkpoint request within the first period ends the series after the second checkpoint |
| Simulation.SwitchBack | configs/common/Simulation.py:423-428 | after any number of switches the swapped list goes from running to switched-out processors again |
| Simulation.RepeatSwitch | configs/common/Simulation.py:414-432 | for every simulator: switches alternate, once a period, and the loop ends with an exit or after the first switch that leaves at most a period; the exit of the last run is returned; if draining takes no time, there is one after every period up to the first in which an event stops the run or after which at most a period is left, and the exit returned is that event or whatever comes first in the rest of the time; refused pairs are reported |
| Simulation.SwitchesUnique | configs/common/Simulation.py:414-432 | the exit events determine the number of switches, the exit and the final tick |
| Simulation.QuietSwitches | configs/common/Simulation.py:430-432 | without events there is a switch after every period that ends before maxtick, at least one |
| Simulation.SwitchesFit | configs/common/Simulation.py:414-432 | time stays within maxtick if a first period fits, and without events only then |
| Copyrights.RunsAreMaximal | util/find_copyrights.py:186-197 | the printed ranges are exactly the maximal stretches of the set |
| Copyrights.DateStr | util/find_copyrights.py:175-199 | the text of increasing ranges with gaps between them that cover exactly the set; popping from an empty set is an error |
| Text.StripIs | util/find_copyrights.py:100 | white space around a text is stripped off, and nothing else |
| Text.ParseIntMeans | util/find_copyrights.py:111 | a number is white space, a sign or none, digits and white space |
| Copyrights.YearsMeans | util/find_copyrights.py:98-114 | a part denotes the years from one four-digit number to another, with any white space before them and around the dash, or the number that it is |
| Copyrights.ProcessDates | util/find_copyrights.py:98-116 | the years of a comma-separated list are exactly those that its parts denote |
| Copyrights.RunYears | util/find_copyrights.py:98-114 | a printed range is read as a part of itself, and as all of itself if and only if it is one year or within 1000 to 9999 |
| Copyrights.YearsRoundTrip | util/find_copyrights.py:98-199 | reading the printed text gives back the set if and only if any two years in a row are four-digit years |
| Copyrights.ShortYearsLost | util/find_copyrights.py:98-116 | the years 999 and 1000 are printed as one range that is read as nothing |
| Copyrights.Restate | util/find_copyrights.py:98-199 | printing and reading together |
| GpuPorts.CreateSystem | configs/ruby/GPU_RfO.py:512-651 | what every position of the list of sequencers holds, and how long it is |
| GpuPorts.AttachInst | configs/example/apu_se.py:490-496 | compute unit i gets the instruction cache i / cu_per_sqc, and the index ends at the command processors |
| GpuPorts.Attach | configs/example/apu_se.py:451-508 | with compute units, every port goes to the sequencer made for it and no index is out of range |
| GpuPorts.Connect | configs/example/apu_se.py:189-198 | the two scripts together: stopped by the assertion without compute units and by the division without a group size, and otherwise wired as stated, for all counts |

## Left out

- SimObject construction, Ruby protocols other than the order of the sequencers in `GPU_RfO.py`, and the HMC, full-system and cache configurations: declarative wiring.
- Address interleaving in `MemConfig.py`: its matching is done by the simulator.
- `memcheck.py`: the recursion of `memtest.py` with fewer checks.
- Option parsing, benchmark tables, style and repository hooks, kernel and disk image scripts, and the graphical viewer.
- PLY's lexer, error recovery, semantic actions and line tracking; the driver is modelled up to the first error, and trees stand for the values that actions build.
- Message bodies, gzip, the configuration file parser and the regular expression engine: serialised messages are byte strings, sections are maps, and the expressions that matter are written out.
- The text around a timeline, colours and time stamps in `o3-pipeview.py`; each cell is one character.
- The early-stop flush of `o3-pipeview.py`, which cannot run (see above), and the start of the region of interest.
- The chain of legacy checkpoint versions and repeated tags in `cpt_upgrader.py`, and what an upgrader does to the checkpoint itself.
- The random specifications of `memtest.py`, and the latency and bandwidth parameters of testers.
- CptUpgrader.AbortsIffCycle: for runs in which nothing depends on a removed tag; the exact condition for all runs is `EndsIffScheduled`.
- Simulation.ScriptCheckpoints: ticks and `when` are within 64 bits, and the simulated system raises finitely many exit events, which is all that fits before the end of time unless it repeats them without end at one tick.
- Simulation.RepeatSwitch: memory modes and the hand-over of state between processors are not modelled.
- DepTrace.ReadLine: numbers are decimal numerals with optional sign, white space around them and final L; other spellings that Python accepts are refused.
- Protolib.StreamRoundTrip: for messages shorter than 2^63 bytes, the longest string Python has.
- GpuPorts.CreateSystem: the number of instruction caches is the exact ceiling; the script divides in floating point.
- Aggregator.Aggregate: the order of items within a section is not kept, and page counts are not negative.
- Protolib.DecodeVarint32: shifts and masks of non-negative numbers are written as multiplication, division and remainder.
- The counters that the trace scripts print at the end.
