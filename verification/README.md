# Models of the SML/NJ code generator and of LLVM's script tooling

This project models, in Dafny, the parts of the repository whose logic is its own, and proves what they
promise.

* **The CFG code generator** (`smlnj/lib-codegen`). `CFG` holds the intermediate representation and its
  meaning, `TargetIR` a small language of basic blocks with phis taken on edges, `CMRegisters` the CMachine
  registers. `CodeBuilder` says what the generator does to the function under construction; `CodeGenerator` is
  the generator itself, a context that methods update in place, each method proved to do what `CodeBuilder` says.
  `StraightLine`, `Collection`, `Simulation`, `Control`, `Correctness`, `Creation`, `ClusterCorrectness` and
  `WholeRuns` prove forward simulation, up to whole runs of a cluster, `SwitchRange` when the source has a
  meaning; `Convention` carries it from cluster to cluster. `Growth`, `Phis`, `Variables`, `Definitions`, `SSAForm`,
  `Dominance` and `WellFormedness` prove that every function is well formed in static single assignment form,
  `RegisterStates` where the registers are kept whenever generation meets a statement.
* **Allocation**. `Bits` and `Regions` hold masks of powers of two and address ranges, `BumpAllocation` what
  the generated code reserves, `SectionAllocator` the memory of an object file.
* **ASDL pickles**. `Streams`, `AsdlCodec` and `AsdlInteger`.
* **Pass pipelines**. `Pipeline` (parser, printer, transformations) and `ReducePipeline` (the reducer).
* **Graph and search**. `NinjaDeps` (Kahn's sort, ancestors) and `AbTest` (bisection).
* **Small compilers**. `CaseFold` (the case-folding function), `McaChecks` and `McaPrefixes` (lining up,
  pruning and merging blocks of text).

The primitives of the intermediate representation (arithmetic, loads, stores, the collector) are a record of
arbitrary functions, `TargetIR.Prims`; every theorem about the generator holds for all of them. Only
`BumpAllocation` assumes more: `or` is bitwise, addition and comparison are those of numbers, a store changes no byte
outside its range, and a load gives the word whose bytes are stored there. Test runs of the search tools are oracles
that may depend on the number of the run. Where the original relies on an assertion, the model has a precondition
(`Creation.WellScoped` collects those of the generator); where it raises an exception, a method returns `None` or
`false`.

Things the code does that its comments or names do not say, kept as they are:

* The pointer bump after a raw record counts words where the offset counts bytes, so a raw record reserves a
  word-size multiple of what it needs (`cfg-prim-codegen.cpp:106`). `BumpAllocation` proves that this is still
  safe.
* The comment on `CMRegInfo::_idx` calls it the position in the convention; the constructor stores the register
  number (`cm-registers.cpp:48`). Nothing reads it but the sign test. The loop that would clear the tail of the
  table (`cm-registers.cpp:60-62`) never runs, since its counter has already reached the end.
* The value map keeps the first binding of a variable. `Variables.RebindingDiffers` shows a body, with a
  variable bound twice, for which the generated code differs from the source; the theorems ask for unique binders.
* Reading one byte past the end of a pickle yields 255 and no error, so a number that lost its last byte is
  read as another number (`AsdlCodec.UintTruncated`).
* Big integers with leading zero bits can have more 32-bit digits than their value needs, and are then refused
  by the conversions whatever their value (`AsdlInteger.WastedDigits`). The unsigned conversions ignore the sign.
* After prefix pruning a run may be left without any prefix for its own text; then it does not check that text
  (`McaPrefixes.ReadersSeparate` says exactly when).
* The operations on pipelines take a manager whose kind is the empty string, which the parser makes from
  `(a,b)`, for a single pass (`pipeline.py:41`, `56`, `68`, `93`, `113`, `130`). The model makes the same test:
  `Pipeline.Flatten` lists what is taken for passes, and `Pipeline.FlatNames`, `CopyEqual` and `ParsesKinded` say
  exactly when that makes no difference.

## Model

| member | source | states |
|---|---|---|
| CMRegisters.CMRegs.constructor | smlnj/lib-codegen/cm-registers.cpp:33-65 | the register table says of every register where it lives, and the compacted table lists the machine registers in order |
| CMRegisters.MachineIxIndexesTable | smlnj/lib-codegen/cm-registers.cpp:52-65 | counting machine registers while walking all of them finds the position at which the compacted table lists each |
| CMRegisters.TableIsSound | smlnj/lib-codegen/cm-registers.cpp:52-65 | every entry of the compacted table is a machine register, at the position that counting finds |
| CodeGenerator.CMRegState.CopyFrom | smlnj/lib-codegen/cm-registers.cpp:78-85 | saving and restoring copies the value of every register |
| CodeGenerator.Context.MlReg | smlnj/include/context.hpp:145-153 | a machine register is its value, a stack register a load from its own slot |
| CodeGenerator.Context.SetMLReg | smlnj/include/context.hpp:156-164 | a machine register is renamed without code, a stack register stored in its own slot |
| CodeGenerator.Context.InsertVal | smlnj/include/context.hpp:372-376 | an existing binding is kept |
| CodeGenerator.Context.CreateArgs | smlnj/lib-codegen/context.cpp:338-365 | machine registers in table order, then the undefined positions of the kind |
| CodeGenerator.Context.SetupStdEntry | smlnj/lib-codegen/context.cpp:369-435 | all registers and parameters are bound to the function's arguments by position |
| CodeGenerator.Context.SetupFragEntry | smlnj/lib-codegen/context.cpp:437-460 | machine registers and parameters are bound to the fragment's phis by position |
| CodeGenerator.Context.AllocRecord | smlnj/lib-codegen/context.cpp:588-613 | descriptor, fields, object address and bump, in that order |
| CodeGenerator.Context.StoreRawFields | smlnj/lib-codegen/cfg-prim-codegen.cpp:73-103 | the running offset, aligned by masks, is the field layout; the result is the size rounded up to words |
| CodeGenerator.Context.RawRecord | smlnj/lib-codegen/cfg-prim-codegen.cpp:54-110 | the code of a raw record, with the bump as it is emitted |
| CodeGenerator.Context.RawAlloc | smlnj/lib-codegen/cfg-prim-codegen.cpp:112-149 | the code of a raw allocation, tagged and aligned or not |
| CodeGenerator.Context.RecordStore | smlnj/lib-codegen/cfg-prim-codegen.cpp:439-453 | a store-list cell holding the address and the old list, then both pointers moved |
| CodeGenerator.Context.Setter | smlnj/lib-codegen/cfg-prim-codegen.cpp:455-526 | each assignment's code, updates recorded before they are made |
| CodeGenerator.Context.Test | smlnj/lib-codegen/cfg-prim-codegen.cpp:604-620 | the heap-limit test with and without slop, and comparisons |
| CodeGenerator.Context.CallGC | smlnj/lib-codegen/context.cpp:615-650 | calls the collector and takes registers and roots back from the returned structure |
| CodeGenerator.Context.GetOverflowBB | smlnj/lib-codegen/overflow.cpp:27-76 | makes the shared block at the first trap, and gives each of its phis the register's value for the current block |
| CodeGenerator.Context.Split | smlnj/lib-codegen/cfg-prim-codegen.cpp:194-201 | ends the block with a branch to the overflow block or to a fresh one, where insertion continues |
| CodeGenerator.Context.Exp | smlnj/lib-codegen/cfg-codegen.cpp:62-117 | the code and the operand of every expression |
| CodeGenerator.Context.Goto | smlnj/lib-codegen/cfg-codegen.cpp:269-301 | the jump's arguments become incoming values of the fragment's phis for this block |
| CodeGenerator.Context.Call | smlnj/lib-codegen/cfg-codegen.cpp:144-265 | registers, unused positions, then the evaluated arguments, in a tail call that ends the block |
| CodeGenerator.Context.GenerateArms | smlnj/lib-codegen/cfg-codegen.cpp:329-336 | every arm is generated from the registers as saved before the first |
| CodeGenerator.Context.GenerateStm | smlnj/lib-codegen/cfg-codegen.cpp:122-412 | the whole function under construction after any statement |
| CodeGenerator.Context.InitStm | smlnj/lib-codegen/cfg-init.cpp:20-111 | every arm gets its own new empty block, in the order of the tree |
| CodeGenerator.Context.InitFrag | smlnj/lib-codegen/cfg-init.cpp:130-157 | a fragment's blocks, its label, and one phi for every register and parameter if it is internal |
| CodeGenerator.Context.GenerateFrag | smlnj/lib-codegen/cfg-codegen.cpp:422-437 | a fragment starts with no variables, in its own block, with its registers and parameters set up |
| CodeGenerator.Context.GenerateCluster | smlnj/lib-codegen/cfg-codegen.cpp:442-459 | a cluster's function is the same whatever was generated before it |
| CodeGenerator.FirstFragFrame | smlnj/lib-codegen/context.cpp:369-435 | the entry's setup depends on no register or variable left over from another cluster |
| CodeGenerator.RoundsByMask | smlnj/lib-codegen/cfg-prim-codegen.cpp:77-80 | the tested mask form of alignment is rounding up |
| StraightLine.ExpSim | smlnj/lib-codegen/cfg-codegen.cpp:62-117 | running an expression's code yields the expression's value and disturbs nothing known before |
| StraightLine.AllocSim | smlnj/lib-codegen/cfg-prim-codegen.cpp:39-149 | running an allocation's code has the allocation's effect on heap and registers and yields its object |
| StraightLine.SetterSim | smlnj/lib-codegen/cfg-prim-codegen.cpp:439-526 | running an assignment's code has the assignment's effect, store list included |
| Collection.CollectSim | smlnj/lib-codegen/context.cpp:615-650 | after a collection every register, wherever it lives, and every new root has the collector's value |
| Simulation.SimpleSim | smlnj/lib-codegen/cfg-codegen.cpp:122-412 | running the code of a statement with one continuation leads to a state that matches the source's next one |
| Control.JumpArrives | smlnj/lib-codegen/cfg-codegen.cpp:269-301 | taking the jump's edge gives the fragment's phis the source's registers and arguments |
| Control.CallLeaves | smlnj/lib-codegen/cfg-codegen.cpp:167-265 | the tail call passes the source's registers and arguments in the convention's positions |
| Control.OverflowRaises | smlnj/lib-codegen/overflow.cpp:32-66 | from the overflow block control reaches the handler with the registers its phis received |
| Correctness.StmSim | smlnj/lib-codegen/cfg-codegen.cpp:122-412 | from any statement's code, control leaves the fragment as the source does: same target, arguments, registers and heap |
| Correctness.ArmSim | smlnj/lib-codegen/cfg-codegen.cpp:329-369 | an arm entered over its edge behaves as its statement, although other arms were generated in between |
| Variables.GenStmVars | smlnj/include/context.hpp:372-376 | generation keeps every binding and adds only variables the statement binds |
| Variables.RebindingDiffers | smlnj/include/context.hpp:372-376 | with a variable bound twice the source passes the last value and the generated code the first |
| Creation.InitRuns | smlnj/lib-codegen/cfg-init.cpp:20-111 | creating blocks does not change what a statement means |
| Creation.InitFragsCreate | smlnj/lib-codegen/cfg-init.cpp:130-157 | fragments get disjoint stretches of untouched blocks, and labels lead to their first blocks |
| ClusterCorrectness.InternalFragSim | smlnj/lib-codegen/cfg-codegen.cpp:422-437 | from an internal fragment's block, however it was reached, control goes where the source goes |
| ClusterCorrectness.EntryFragSim | smlnj/lib-codegen/cfg-codegen.cpp:422-437 | from the function's entry, called by the convention, control goes where the source goes |
| WholeRuns.InitPrepares | smlnj/lib-codegen/cfg-codegen.cpp:442-451 | block creation prepares every well-scoped cluster for generation |
| WholeRuns.ClusterSim | smlnj/lib-codegen/cfg-codegen.cpp:442-459 | for any number of jumps of the source, the function reaches the corresponding block or leaves in the same way |
| WholeRuns.NeverWrong | smlnj/lib-codegen/cfg-codegen.cpp:442-459 | unless the source takes a switch out of range, no step of the function is undefined |
| WholeRuns.SameExit | smlnj/lib-codegen/cfg-codegen.cpp:442-459 | if both leave, they leave for the same callee or handler with the same registers, arguments and heap |
| WholeRuns.ExitsTogether | smlnj/lib-codegen/cfg-codegen.cpp:442-459 | the function terminates exactly if the source does |
| SwitchRange.RunSticks | smlnj/lib-codegen/cfg-codegen.cpp:303-324 | a well-scoped statement has no meaning exactly if its evaluation comes to a switch whose argument names no arm |
| SwitchRange.ClusterSticks | smlnj/lib-codegen/cfg-codegen.cpp:303-324 | the same for any number of jumps between the fragments of a cluster |
| Convention.RegPositions | smlnj/lib-codegen/cm-registers.cpp:52-65 | every machine register has exactly one position of the convention, every stack register none |
| Convention.ArgsFollow | smlnj/lib-codegen/context.cpp:338-365 | an argument list holds at each position what the position stands for |
| Convention.EntryFollows | smlnj/lib-codegen/context.cpp:369-435 | a function takes from each position what it stands for; registers without a value are exactly the stack registers |
| Convention.FragEntryFollows | smlnj/lib-codegen/context.cpp:437-460 | an internal fragment takes from each phi what its position stands for |
| Convention.CollectionFollows | smlnj/lib-codegen/context.cpp:634-648 | the structure a collection returns holds at each position what it stands for |
| Convention.OverflowFollows | smlnj/lib-codegen/overflow.cpp:27-76 | however many traps share the overflow block, each of its phis receives from each of them the register of its position, and passes it on there |
| Convention.ThrowPasses | smlnj/lib-codegen/cfg-codegen.cpp:219-267 | the tail call of a THROW has the callee, the machine registers, exactly two undefined values, and the arguments, each at its place |
| Convention.ApplyPasses | smlnj/lib-codegen/cfg-codegen.cpp:167-217 | that of an APPLY has no undefined value through anything but a label, and two for a label exactly if its cluster's entry is a continuation |
| Convention.EntryBinds | smlnj/lib-codegen/context.cpp:369-435 | the entry of a continuation finds its parameters after two unused arguments, every other entry right after the machine registers |
| Convention.WordsPassed | smlnj/lib-codegen/context.cpp:338-365 | what a call passes at run time, place by place |
| Convention.Program.LabelPasses | smlnj/lib-codegen/cfg-codegen.cpp:167-217 | a call of a cluster by its label leaves as many positions unused as that cluster's entry expects |
| Convention.CallerMeetsCallee | smlnj/lib-codegen/context.cpp:338-435 | a caller's argument list is what the callee's entry expects |
| Convention.Program.CallEnters | smlnj/lib-codegen/cfg-codegen.cpp:167-265 | where the source calls another cluster, the target enters that cluster's function with agreeing state |
| Convention.Program.TraceFollows | smlnj/lib-codegen/cfg-codegen.cpp:464-483 | the target follows the source through any number of calls between clusters of a program |
| Growth.InitNumbers | smlnj/lib-codegen/cfg-init.cpp:20-111 | creation numbers the arms of a statement in the order in which generation visits them |
| Growth.GenStmCompletes | smlnj/lib-codegen/cfg-codegen.cpp:122-412 | a statement finishes its own blocks and those it adds, and changes no other block's code |
| Phis.GenStmPhis | smlnj/lib-codegen/cfg-codegen.cpp:269-371 | after every statement each phi has as many incoming values from a block as there are edges from it |
| Phis.SplitPhis | smlnj/lib-codegen/overflow.cpp:27-76 | a trap keeps phis and edges matched, the overflow block's included |
| Definitions.SimpleAdds | smlnj/lib-codegen/cfg-codegen.cpp:122-412 | straight-line code hands out consecutive new names and uses only names already defined |
| Definitions.CreateArgsDefined | smlnj/lib-codegen/context.cpp:338-365 | no position of an argument list is empty |
| SSAForm.CertificateDominates | smlnj/lib-codegen/cfg-codegen.cpp:442-459 | names certified as available at block starts are defined on every path from the entry, so definitions dominate uses |
| RegisterStates.ClusterVisits | smlnj/lib-codegen/cfg-codegen.cpp:122-459 | wherever generation of a well-scoped cluster meets a statement, through arms, traps, saved and restored registers and collections, and all along its code, exactly the stack registers have no value; the others' values are defined on every path that leads there in the finished function |
| RegisterStates.VisitGrows | smlnj/lib-codegen/cfg-codegen.cpp:122-412 | what stands in the function when a statement is met stays there |
| Dominance.StmInv | smlnj/lib-codegen/cfg-codegen.cpp:122-412 | every statement keeps names unique and available where they are used |
| WellFormedness.ClusterWellFormed | smlnj/lib-codegen/cfg-codegen.cpp:442-459 | every block ends in a terminator, every phi has one value for each edge, names are defined once and dominate their uses, the entry has no predecessor |
| Bits.MaskIsMod | smlnj/include/context.hpp:176-185 | the mask of a power of two is the remainder, its complement the multiple below |
| Bits.MaskRounds | smlnj/include/context.hpp:176-185 | adding the mask and clearing it rounds up |
| Bits.OrGap | smlnj/lib-codegen/cfg-prim-codegen.cpp:119-125 | or-ing the gap between word and alignment stops one word before an aligned address |
| BumpAllocation.FieldPlaced | smlnj/lib-codegen/cfg-prim-codegen.cpp:73-101 | a field starts at a multiple of its size, after its predecessors, with less padding than its size |
| BumpAllocation.AlignedAfterHeader | smlnj/lib-codegen/cfg-prim-codegen.cpp:119-125 | the object after an adjusted header is aligned, and the pointer moved by less than the alignment |
| BumpAllocation.RawBump | smlnj/lib-codegen/cfg-prim-codegen.cpp:96-110 | after a raw record the pointer moves by as many words as the field area, rounded up to words, has bytes |
| BumpAllocation.LimitFits | smlnj/lib-codegen/cfg-prim-codegen.cpp:604-620 | a limit test fails exactly if the amount, but for the slop, fits below the limit |
| BumpAllocation.RequestOk | smlnj/lib-codegen/cfg-prim-codegen.cpp:54-149 | each request reserves disjoint parts between the old and the new pointer, which stays word-aligned |
| BumpAllocation.SequenceOk | smlnj/lib-codegen/cfg-prim-codegen.cpp:39-149 | over any sequence of requests everything reserved is disjoint, and the pointer never decreases |
| BumpAllocation.AllocRequests | smlnj/lib-codegen/cfg-prim-codegen.cpp:39-149 | the generator's allocations yield the object and move the pointer as the requests say |
| BumpAllocation.ActStores | smlnj/lib-codegen/cfg-prim-codegen.cpp:39-149 | an allocation stores its header and each field where its request places it, and nothing else |
| BumpAllocation.CellStores | smlnj/lib-codegen/cfg-prim-codegen.cpp:439-453 | recording an assignment stores its address and the old store list in a new cell, which becomes the store list |
| BumpAllocation.ActWrites | smlnj/lib-codegen/cfg-prim-codegen.cpp:39-149 | each part is written in its own region between the old and the new pointer and is there afterwards; no other byte changes |
| BumpAllocation.PartsKept | smlnj/lib-codegen/cfg-prim-codegen.cpp:39-149 | after any sequence of allocations and recordings every part of every one of them is still in memory |
| BumpAllocation.ReadBack | smlnj/lib-codegen/cfg-prim-codegen.cpp:39-149 | every word stored by any of them is loaded back after all of them |
| SectionAllocator.AlignByRounds | smlnj/lib-codegen/object-file.cpp:24-31 | the mask form is the least multiple not below |
| SectionAllocator.Section.SetSize | smlnj/lib-codegen/object-file.cpp:126-134 | the padded size is the least multiple of the alignment that fits |
| SectionAllocator.Section.Alloc | smlnj/lib-codegen/object-file.cpp:139-161 | a returned range is new, inside the section, disjoint from the earlier ones, and aligned if the section is |
| SectionAllocator.MemManager.ReserveAllocationSpace | smlnj/lib-codegen/object-file.cpp:172-233 | each section has the least multiple, not below its size, of the greatest of 8 and the three alignments; the three tile the memory from the least aligned base on, inside the raw buffer |
| SectionAllocator.MemManager.AllocateCodeSection | smlnj/lib-codegen/object-file.cpp:235-250 | keeps the tiling and returns aligned pointers for alignments up to padding and base alignment |
| SectionAllocator.MemManager.AllocateDataSection | smlnj/lib-codegen/object-file.cpp:252-273 | the same for the two data sections |
| SectionAllocator.MemManager.AllDisjoint | smlnj/lib-codegen/object-file.cpp:139-233 | all ranges ever returned are disjoint and inside the raw buffer |
| AsdlCodec.WriteInt | smlnj/lib-codegen/asdl.cpp:70-100 | appends the encoding of a bounded integer |
| AsdlCodec.WriteUint | smlnj/lib-codegen/asdl.cpp:102-123 | appends the encoding of a bounded natural number |
| AsdlCodec.WriteString | smlnj/lib-codegen/asdl.cpp:125-131 | appends the length and the characters |
| AsdlCodec.ReadTail | smlnj/lib-codegen/asdl.cpp:137-143 | the fall-through cases read the remaining bytes, most significant first |
| AsdlCodec.ReadInt | smlnj/lib-codegen/asdl.cpp:133-150 | decodes the rest of the stream, or raises the error, on every input |
| AsdlCodec.ReadUint | smlnj/lib-codegen/asdl.cpp:152-164 | the same for natural numbers |
| AsdlCodec.ReadString | smlnj/lib-codegen/asdl.cpp:166-175 | the same for strings |
| AsdlCodec.AllRoundTrip | smlnj/lib-codegen/asdl.cpp:70-175 | any sequence of mixed values, followed by anything, reads back and leaves exactly what follows |
| AsdlCodec.PrefixFree | smlnj/lib-codegen/asdl.cpp:70-131 | no value's bytes are the start of another's |
| AsdlCodec.UintFails | smlnj/lib-codegen/asdl.cpp:133-164 | numbers are rejected exactly if at least two of their bytes are missing |
| AsdlCodec.UintTruncated | smlnj/include/asdl/asdl-stream.hpp:122-129 | a number that lost its last byte is read as one whose last byte is 255 |
| AsdlCodec.ReadIsWritable | smlnj/lib-codegen/asdl.cpp:133-164 | whatever the bytes, a number that is read is within the range that can be written |
| AsdlInteger.SignificantBits | smlnj/lib-codegen/asdl-integer.cpp:84-92 | the number of bits of a six-bit digit is exact |
| AsdlInteger.Regroup | smlnj/lib-codegen/asdl-integer.cpp:82-135 | the 32-bit digits have the value of the 7-bit digits, are as many as the bits need, and the last is full |
| AsdlInteger.WholeDigit | smlnj/lib-codegen/asdl-integer.cpp:117-119 | shifting a digit in loses no bit |
| AsdlInteger.SplitDigit | smlnj/lib-codegen/asdl-integer.cpp:120-127 | cutting a digit between two words loses no bit |
| AsdlInteger.ReadInteger | smlnj/lib-codegen/asdl-integer.cpp:69-135 | every stream is read as its sign and digits, exactly, or raises the error |
| AsdlInteger.PayloadRoundTrip | smlnj/lib-codegen/asdl-integer.cpp:72-81 | every sign and digit sequence can occur and is delimited by itself |
| AsdlInteger.IntsExact | smlnj/lib-codegen/asdl-integer.cpp:149-208 | signed conversions succeed exactly if the digits are few enough and the value is in range, least values included |
| AsdlInteger.UIntsExact | smlnj/lib-codegen/asdl-integer.cpp:222-255 | unsigned conversions give the magnitude exactly if the digits are few enough |
| AsdlInteger.MinimalExact | smlnj/lib-codegen/asdl-integer.cpp:149-255 | without wasted digits they succeed exactly on the values of their ranges |
| AsdlInteger.ReadSigned | smlnj/lib-codegen/asdl-integer.cpp:69-208 | reading any number and converting it succeeds exactly if the digits are few enough and the value is in range; without leading zero bits exactly on the type's range |
| AsdlInteger.WastedDigits | smlnj/lib-codegen/asdl-integer.cpp:94-100 | with leading zero bits the conversion can fail on the value one |
| AsdlInteger.SmallRoundTrip | smlnj/lib-codegen/asdl-integer.cpp:23-33 | integers made from 32-bit integers have their value and convert back |
| AsdlInteger.MachineRoundTrip | smlnj/lib-codegen/asdl-integer.cpp:35-62 | the same for 64-bit integers |
| Pipeline.Parse | llvm/utils/pipeline.py:5-33 | the stack parser computes the parsed pipeline, or fails |
| Pipeline.Print | llvm/utils/pipeline.py:36-49 | the printer computes the printed form exactly if every manager has a kind; otherwise it raises a type error |
| Pipeline.RoundTrip | llvm/utils/pipeline.py:5-49 | parsing what was printed gives the pipeline back, empty managers and nesting included |
| Pipeline.PrintInjective | llvm/utils/pipeline.py:36-49 | different pipelines print differently |
| Pipeline.ParseFails | llvm/utils/pipeline.py:21-28 | parsing fails exactly if a closing parenthesis has no opening one before it |
| Pipeline.ParseKeeps | llvm/utils/pipeline.py:5-33 | with all parentheses closed, the names and kinds are what stands between the separators, in order |
| Pipeline.UnclosedDropped | llvm/utils/pipeline.py:5-33 | an opening parenthesis that is never closed is dropped with everything before it |
| Pipeline.ParsesKinded | llvm/utils/pipeline.py:5-33 | with all parentheses closed, every manager that parsing yields has a kind exactly if every parenthesis opens right after a name |
| Pipeline.FlatNames | llvm/utils/pipeline.py:52-60 | what the code takes for passes are the passes exactly if every manager has a kind |
| Pipeline.EmptyKind | llvm/utils/pipeline.py:5-140 | on `(a,b)` two passes are parsed, counted as one, removed together, changed by copying and not printable |
| Pipeline.Count | llvm/utils/pipeline.py:52-60 | how many nodes are taken for passes, at any depth |
| Pipeline.Split | llvm/utils/pipeline.py:63-85 | what is taken for passes is cut, in order, after the one with the given index |
| Pipeline.Remove | llvm/utils/pipeline.py:88-105 | exactly what is taken for the pass with the given index is gone, if there is one |
| Pipeline.CopyEqual | llvm/utils/pipeline.py:108-122 | a copy is equal exactly if no empty kind stands where the code looks |
| Pipeline.SplitStays | llvm/utils/pipeline.py:63-85 | both halves have all managers, in order, with the passes they held on that side of the cut; every pass stays inside the managers it was in |
| Pipeline.RemoveStays | llvm/utils/pipeline.py:88-105 | all managers stay, with the passes they held but the removed one; every other pass stays inside the managers it was in |
| Pipeline.PruneStays | llvm/utils/pipeline.py:125-140 | every pass stays inside the managers it was in, and the managers that stay are exactly those with a pass inside, in order |
| Pipeline.KindsStay | llvm/utils/pipeline.py:63-140 | splitting, removing and pruning keep every pipeline printable whose managers have kinds |
| Pipeline.PruneKeeps | llvm/utils/pipeline.py:125-140 | pruning keeps, in order, what is taken for passes, and leaves no empty manager and no empty kind |
| Pipeline.PruneFixes | llvm/utils/pipeline.py:125-140 | pruning changes exactly the pipelines that have an empty manager or an empty kind where the code looks |
| Pipeline.PruneIdempotent | llvm/utils/pipeline.py:125-140 | pruning twice is pruning once |
| ReducePipeline.Step1 | llvm/utils/reduce_pipeline.py:107-155 | with k leading split points that reproduce, the result is the second half of the last one and the file its own run has written, or the input unchanged if k is 0 or that half is empty; it failed on that very file, which the passes before it made |
| ReducePipeline.Step2 | llvm/utils/reduce_pipeline.py:157-180 | with k leading runs from the end that reproduce, the result is the prefix of the last one, or the pipeline unchanged if k is 0 or that prefix is empty |
| ReducePipeline.Sweep | llvm/utils/reduce_pipeline.py:187-206 | each removal is kept exactly if its run fails as expected; a sweep that keeps any has lost a pass, although late indices may remove nothing; one that keeps none has tried every pass |
| ReducePipeline.Step3 | llvm/utils/reduce_pipeline.py:182-206 | terminates for every oracle, with a last sweep that tried every pass in vain; for a deterministic one the result is 1-minimal and reproduces if the start does |
| ReducePipeline.Reduce | llvm/utils/reduce_pipeline.py:85-206 | from a printable pipeline with a confirmed failure to a sublist of what the first two steps leave, on the file of the first, that still fails and is 1-minimal |
| NinjaDeps.Toposort | llvm/utils/check_ninja_deps.py:62-90 | whichever ready vertex is taken, vertices come once, after their predecessors, and none that could come is missing |
| NinjaDeps.CompleteIffAcyclic | llvm/utils/check_ninja_deps.py:62-90 | all vertices come exactly if the graph has no cycle |
| NinjaDeps.Ancestors | llvm/utils/check_ninja_deps.py:93-118 | each vertex is paired with the labels of the vertices that reach it, without its own label |
| NinjaDeps.ProperAncestors | llvm/utils/check_ninja_deps.py:93-118 | without cycles and with distinct labels these are exactly the proper ancestors |
| AbTest.CheckSequentially | llvm/utils/abtest.py:112-124 | exactly the names that pass alone are good |
| AbTest.TestPartition | llvm/utils/abtest.py:135-154 | one test keeps every name accounted for and every announced bound sound |
| AbTest.CheckBisect | llvm/utils/abtest.py:127-174 | terminates for every oracle; every announced number bounds the tests still to come; every name that passes alone is found; for a deterministic test the good names are exactly those of the halves, their halves and so on that pass |
| AbTest.SplitFinds | llvm/utils/abtest.py:127-174 | what is found by splitting belongs to some part that passes, and everything in such a part is found |
| AbTest.CheckBoth | llvm/utils/abtest.py:112-174 | run on the same choices, the sequential result is a subset of the bisected one, and equal where parts of what passes pass |
| CaseFold.Generator.DumpBlock | llvm/utils/unicode-case-fold.py:71-104 | the checks emitted for a block, special forms included |
| CaseFold.BlockForm | llvm/utils/unicode-case-fold.py:71-104 | which form is emitted, and with which numbers |
| CaseFold.BlockAnswers | llvm/utils/unicode-case-fold.py:82-104 | a block's check answers for its members, and for others at most with themselves |
| CaseFold.Generator.Add | llvm/utils/unicode-case-fold.py:109-128 | a mapping joins the block exactly if the result is still equally spaced with one shift; otherwise the block's checks are emitted |
| CaseFold.GoesOn | llvm/utils/unicode-case-fold.py:109-128 | that is so exactly if the mapping has the block's shift and, from the second on, its distance |
| CaseFold.Generator.Generate | llvm/utils/unicode-case-fold.py:36-154 | for every non-empty increasing table the emitted checks are those of blocks as long as possible, and for every integer the emitted function folds as the table says; other tables raise |
| McaChecks.InsertedCounts | llvm/utils/update_mca_test_checks.py:236-240 | blanks before a block lose no text and separate it from its predecessor |
| McaChecks.Aligner.Analyse | llvm/utils/update_mca_test_checks.py:211-223 | no list has a block's first instance beyond the recorded index, and every index that is new is that of the first instance in some list |
| McaChecks.Aligner.Shunt | llvm/utils/update_mca_test_checks.py:225-245 | the first block that stands too early right after another one moves exactly to the index recorded for it |
| McaChecks.Aligner.Align | llvm/utils/update_mca_test_checks.py:188-247 | a changing pass changes one list only, the first that is unsettled, and moves its first unsettled block exactly to the recorded index, which lowers the number of adjacent non-empty blocks by one; an unchanging one means that all blocks are settled |
| McaChecks.Aligner.AlignAll | llvm/utils/update_mca_test_checks.py:301-304 | alignment terminates, and dropping empty blocks gives back every original sequence; in the end every block right after another one stands no earlier than its first instance does in any list |
| McaPrefixes.PrunePrefixes | llvm/utils/update_mca_test_checks.py:320-369 | for each text, in ascending order, the least prefix that all its pruned sets share, or if they share none the least of each set that has any; the error exactly if a non-empty text's pruned sets are all empty |
| McaPrefixes.ChosenFits | llvm/utils/update_mca_test_checks.py:341-369 | exactly one choice has that property, and it is the one that is made |
| McaPrefixes.ReadersSeparate | llvm/utils/update_mca_test_checks.py:320-369 | no prefix prints two texts, no run reads another run's text, and a run reads its own exactly if pruning left it a prefix |
| McaPrefixes.PrunedSeparate | llvm/utils/update_mca_test_checks.py:320-384 | what pruning chooses is what merging needs; a prefix of all runs is not chosen |
| McaPrefixes.Flush | llvm/utils/update_mca_test_checks.py:134-139 | batched lines are output once, in order, for their own prefix, lesser prefixes first |
| McaPrefixes.BreakDown | llvm/utils/update_mca_test_checks.py:104-166 | whoever reads the common prefix and one prefix of a text reads exactly that text's lines in order, and whoever reads the common prefix alone exactly the lines that all texts have in common |

## Left out

- LLVM itself: optimisation, object emission and linking.
- The base-pointer path for targets without PC-relative addressing; both targets of the repository have it.
- `RCC`, floating-point semantics, branch weights, value names, metadata, types and type casts: values are
  untyped words, and the check of the number of argument registers has no counterpart.
- Word overflow: addresses and words are unbounded integers in the generator's model and in both allocators;
  the pickle code models its 32-bit and 64-bit wrap-around.
- The stack frame is a separate address space from the heap, so no heap store can reach a register's slot.
- C++ leaves the order in which arguments of a call are evaluated open; the model takes them left to right.
- The block a statement is given and a fragment's phis are stored in the tree by the original; the model's
  creation returns an annotated tree, and phis live in the blocks.
- CodeGenerator.Context.Goto: the original indexes the phi vector without a check; the model stops at its end,
  which a well-scoped jump never reaches.
- WholeRuns.ClusterSim: nothing is said once the source takes a switch out of the range of its arms
  (`SwitchRange` shows that the source has a meaning everywhere else), where the generated code runs into an
  unreachable block.
- Memoised code-label aliases, function types and attributes, modules and their entry points.
- `integer::write`, which is empty, and `std::abs` of the least value, which is undefined.
- `read_lvar`, the generated unpicklers, and the file streams behind the byte streams.
- AbTest.CheckSequentially: the original tests the choices in sorted order, the model in the given order, which
  does not change the result for a deterministic test.
- McaPrefixes.PrunePrefixes: string order is given as a list of all prefixes in ascending order.
- McaChecks.Aligner.AlignAll: padding to equal length is left out; the length is taken before alignment, so the
  padded lists need not have equal length.
- The step that expands a pipeline before reducing it, temporary directories, command lines and messages.
- Reading the case-folding database and formatting the emitted C++ text; the emitted checks are data.
- Command-line drivers, HTML and debugger formatters, and the other test-update scripts.
