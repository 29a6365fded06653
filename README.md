# Work-item builtin resolution, modelled in Dafny

This project models the IGC pass `WIFuncResolution` and the vISA attribute
table.

**What the pass does.** An OpenCL kernel asks for its work-item coordinates
through calls to builtins: `__builtin_IB_get_local_id_x`,
`__builtin_IB_get_group_id(dim)`, `__builtin_IB_get_global_size(dim)` and
ten more. The pass replaces every such call by the value that supplies it.
Where that value lives depends on the function's calling convention:

- **Ordinary kernel.** The value is a lane of an implicit argument that the
  driver appends to the kernel's parameters. Which arguments are present, and
  in what order, is given by the function's implicit-argument catalog.
- **Stack call** (a function marked `visaStackCall`). The value comes from
  the dispatch descriptor register R0, or is read from a side buffer at fixed
  byte offsets. There are three exceptions: get_grid_origin and
  get_sync_buffer still read their catalog argument, and get_local_id has no
  value under this convention.

When the call's result type is wider than the resolved value, the value is
zero-extended first. All uses of the call are then redirected to the value,
and the call is erased. When metadata gives a thread-group size, every use of
the enqueued-local-size argument afterwards becomes that constant.

**The attribute table.** The vISA attribute table (`visa/Attributes.cpp`)
lists each attribute's name and default value, looks attribute names up, and
keeps one set/value slot per kernel attribute.

## Modules

| file | module | content |
|---|---|---|
| `wrappers.dfy` | `Wrappers` | `Option`, `Result` |
| `payload_layout.dfy` | `PayloadLayout` | side-buffer field offsets, R0 and payload-header lanes, the group-id lane formula |
| `field_reader.dfy` | `FieldReader` | the aligned side-buffer load (`BuildLoadInst`), little-endian lanes, truncation |
| `work_item_ir.dfy` | `WorkItemIR` | the rewritten program: parameters and catalog, values as operand trees, instructions, replaceAllUsesWith, eraseFromParent, and the run-time meaning of a value over a dispatch state |
| `builtin_resolver.dfy` | `BuiltinResolver` | the recognised names, `getImplicitArg`, one resolver per builtin, zero-extension, and an independent per-convention reference meaning |
| `wi_func_resolution.dfy` | `WIFuncResolution` | `visitCallInst`, the instruction walk, `getKnownWorkGroupSize` and the folding, `runOnFunction`, as functions and as the pass class |
| `visa_attributes.dfy` | `VisaAttributes` | the attribute table, `getAttributeID`, the `Attributes` class |

**How correctness is expressed.** Each emitted instruction sequence is a
`Value` tree. `Eval` gives its run-time lanes in a `DispatchState`. For that
state, `Reference` states what each builtin returns under each convention:

- for an ordinary kernel, the named lane of the named catalog argument;
- for a stack call, the R0 group-number lane, or the little-endian field of
  the side buffer laid out by the struct comment at WIFuncResolution.cpp:209-233
  at the offsets defined at WIFuncResolution.cpp:234-265, truncated where the
  code truncates.

Two lemmas prove that every resolved value evaluates to its reference:

- `ResolveStandardKernel`, for ordinary kernels;
- `ResolveStackCall`, for stack calls.

The pass lemmas then show that each rewrite changes no value any remaining
instruction reads.

## Model

| member | source | states |
|---|---|---|
| PayloadLayout.SideBufferOffsets | IGC/Compiler/Optimizer/OpenCLPasses/WIFuncs/WIFuncResolution.cpp:234-265 | The side-buffer offsets are exactly 0/8/16, 24, 32/40/48, 56/60/64, 68/72/76, 80, 88 and 89. |
| PayloadLayout.GroupIdLane | IGC/Compiler/Optimizer/OpenCLPasses/WIFuncs/WIFuncResolution.cpp:336-344 | The lane computed as `dim + (dim == 0 ? 1 : 5)` is R0 lane 1, 6 or 7 for dim 0, 1 or 2, and lies within R0. |
| FieldReader.AlignDown | IGC/Compiler/Optimizer/OpenCLPasses/WIFuncs/WIFuncResolution.cpp:279 | The aligned offset is a multiple of 4, at most the offset, and less than 4 below it. |
| FieldReader.LoadSize | IGC/Compiler/Optimizer/OpenCLPasses/WIFuncs/WIFuncResolution.cpp:279-280 | The load starting at the aligned offset ends exactly at offset + size, and is fewer than 4 bytes longer than size. |
| FieldReader.BuildLoad | IGC/Compiler/Optimizer/OpenCLPasses/WIFuncs/WIFuncResolution.cpp:272-306 | The byte-copy loop over the aligned load returns exactly the bytes `[offset, offset + size)` of the buffer, whether or not the offset is aligned. |
| FieldReader.LittleEndian | IGC/Compiler/Optimizer/OpenCLPasses/WIFuncs/WIFuncResolution.cpp:301-304 | Bytes read little-endian, as the bitcast of the loaded byte vector does, give a value below 256^(number of bytes). |
| FieldReader.FieldLane | IGC/Compiler/Optimizer/OpenCLPasses/WIFuncs/WIFuncResolution.cpp:392-394 | Lane i of a `count`-lane field read at `offset`, reinterpreted as a vector, is the little-endian value at `offset + i*elemBytes` in the buffer. |
| FieldReader.Lanes | IGC/Compiler/Optimizer/OpenCLPasses/WIFuncs/WIFuncResolution.cpp:301-304 | The bitcast of the loaded bytes gives `count` lanes, each below 256^elemBytes. |
| FieldReader.Truncate | IGC/Compiler/Optimizer/OpenCLPasses/WIFuncs/WIFuncResolution.cpp:401 | Truncation to `bits` bits keeps the low bits: the result is below 2^bits and differs from the input by a multiple of 2^bits, so a value that already fits is unchanged. |
| FieldReader.TruncateLanes | IGC/Compiler/Optimizer/OpenCLPasses/WIFuncs/WIFuncResolution.cpp:396-404 | The extract/trunc/insert loop over three lanes gives each lane truncated and in range, keeping lanes that fit. |
| FieldReader.LittleEndianIsFirstByte | IGC/Compiler/Optimizer/OpenCLPasses/WIFuncs/WIFuncResolution.cpp:540-544 | A little-endian word equals its first byte exactly when all its other bytes are zero. |
| FieldReader.AllZeroIffZero | IGC/Compiler/Optimizer/OpenCLPasses/WIFuncs/WIFuncResolution.cpp:301-304 | A little-endian value is zero exactly when all its bytes are zero. |
| WorkItemIR.IndexOf | IGC/Compiler/Optimizer/OpenCLPasses/WIFuncs/WIFuncResolution.cpp:663 | The catalog position of a kind holds that kind, and no earlier position does. |
| WorkItemIR.ArgIndex | IGC/Compiler/Optimizer/OpenCLPasses/WIFuncs/WIFuncResolution.cpp:662-666 | `arg_size - numImplicitArgs + index` is a parameter index among the trailing implicit parameters, and the catalog entry for it is the kind asked for. |
| WorkItemIR.Eval | IGC/Compiler/Optimizer/OpenCLPasses/WIFuncs/WIFuncResolution.cpp:365-368 | An extract and the group-id lane computation yield one lane, a lane-wise truncation keeps its operand's lane count, and zero-extension keeps the value. |
| WorkItemIR.ReplaceRemovesUses | IGC/Compiler/Optimizer/OpenCLPasses/WIFuncs/WIFuncResolution.cpp:176 | After replaceAllUsesWith of a call result or parameter, it no longer occurs in an operand (unless the replacement holds it). |
| WorkItemIR.ReplacePreservesMeaning | IGC/Compiler/Optimizer/OpenCLPasses/WIFuncs/WIFuncResolution.cpp:176 | Replacing by a value with the same run-time lanes keeps every operand's run-time value. |
| WorkItemIR.ReplaceUses | IGC/Compiler/Optimizer/OpenCLPasses/WIFuncs/WIFuncResolution.cpp:176 | replaceAllUsesWith on one operand tree: a tree in which the replaced value does not occur is left unchanged. |
| WorkItemIR.ReplaceInInst | IGC/Compiler/Optimizer/OpenCLPasses/WIFuncs/WIFuncResolution.cpp:176 | Replacement changes only an instruction's operands: its kind, id, callee and width are kept. |
| WorkItemIR.ReplaceInBody | IGC/Compiler/Optimizer/OpenCLPasses/WIFuncs/WIFuncResolution.cpp:176 | Replacement acts on every instruction of the body and keeps the body's length and order. |
| WorkItemIR.ReplaceInBodyRemovesUses | IGC/Compiler/Optimizer/OpenCLPasses/WIFuncs/WIFuncResolution.cpp:176 | After replaceAllUsesWith, no instruction of the body uses the replaced value. |
| WorkItemIR.ReplaceInInstPreservesMeaning | IGC/Compiler/Optimizer/OpenCLPasses/WIFuncs/WIFuncResolution.cpp:176 | Replacing by an equal-valued replacement leaves every value the instruction reads unchanged. |
| WorkItemIR.EraseAt | IGC/Compiler/Optimizer/OpenCLPasses/WIFuncs/WIFuncResolution.cpp:177 | eraseFromParent removes exactly the instruction at the position and keeps the others in order. |
| WorkItemIR.EvalGroupIdIndex | IGC/Compiler/Optimizer/OpenCLPasses/WIFuncs/WIFuncResolution.cpp:365-367 | The cmp/select/add sequence on a dimension d < 3 evaluates to R0_GROUP_NUMBER_LANES[d], the R0 lane holding that dimension's group number. |
| BuiltinResolver.BuiltinNamesDistinct | IGC/Compiler/Optimizer/OpenCLPasses/WIFuncs/WIFuncResolution.cpp:110-157 | BuiltinName gives the 13 names compared by visitCallInst. No two builtins share a name, so at most one comparison in the chain matches. |
| BuiltinResolver.BuiltinOf | IGC/Compiler/Optimizer/OpenCLPasses/WIFuncs/WIFuncResolution.cpp:108-165 | The name-comparison chain recognises a name only as the builtin whose name it is; any other name is "not a work-item function". |
| BuiltinResolver.BuiltinNameRoundTrip | IGC/Compiler/Optimizer/OpenCLPasses/WIFuncs/WIFuncResolution.cpp:110-160 | Each of the 13 builtins is recognised by its own name. |
| BuiltinResolver.ImplicitArgValue | IGC/Compiler/Optimizer/OpenCLPasses/WIFuncs/WIFuncResolution.cpp:660-671 | getImplicitArg yields the parameter carrying the kind when the catalog has it, and the fatal error otherwise. |
| BuiltinResolver.GetImplicitArg | IGC/Compiler/Optimizer/OpenCLPasses/WIFuncs/WIFuncResolution.cpp:660-671 | The iterator-advancing loop reaches exactly the parameter described by ImplicitArgValue. |
| BuiltinResolver.Widen | IGC/Compiler/Optimizer/OpenCLPasses/WIFuncs/WIFuncResolution.cpp:167-173 | The result is at least as wide as the call and as the value. It is unchanged when already wide enough, has exactly the call's width when the value was narrower, and has the same run-time lanes. |
| BuiltinResolver.ResolvedWidth | IGC/Compiler/Optimizer/OpenCLPasses/WIFuncs/WIFuncResolution.cpp:167-168 | getScalarSizeInBits of each resolved value. A catalog value has its parameter's width. Under the stack call, global size and global offset have the call's width, and the other side-buffer and R0 reads are 32 bits wide. With Widen, this decides when the zext at line 168 happens. |
| BuiltinResolver.ResolveFails | IGC/Compiler/Optimizer/OpenCLPasses/WIFuncs/WIFuncResolution.cpp:308-658 | Resolution fails iff the builtin is a local id under the stack call, or the catalog lacks the argument it reads; each case gives its own error. |
| BuiltinResolver.ResolveLocalId | IGC/Compiler/Optimizer/OpenCLPasses/WIFuncs/WIFuncResolution.cpp:308-328 | Under the stack call the local id has no value (StackCallLocalId). Otherwise it is the catalog parameter of its kind, and a missing kind is that kind's error. |
| BuiltinResolver.ResolveGroupId | IGC/Compiler/Optimizer/OpenCLPasses/WIFuncs/WIFuncResolution.cpp:330-375 | A lane of the R0 value (the stack call's R0 register, or the catalog R0 argument) selected by the group-id index of dim. It fails only for an ordinary kernel whose catalog lacks R0. |
| BuiltinResolver.ResolveGlobalSize | IGC/Compiler/Optimizer/OpenCLPasses/WIFuncs/WIFuncResolution.cpp:377-417 | Lane dim of a side-buffer read or of the GLOBAL_SIZE parameter. It fails, with that kind, only for an ordinary kernel without the argument. |
| BuiltinResolver.ResolveLocalSize | IGC/Compiler/Optimizer/OpenCLPasses/WIFuncs/WIFuncResolution.cpp:419-450 | Lane dim of a side-buffer read or of the LOCAL_SIZE parameter. It fails, with that kind, only for an ordinary kernel without the argument. |
| BuiltinResolver.ResolveEnqueuedLocalSize | IGC/Compiler/Optimizer/OpenCLPasses/WIFuncs/WIFuncResolution.cpp:452-483 | Lane dim of a side-buffer read or of the ENQUEUED_LOCAL_WORK_SIZE parameter. It fails, with that kind, only for an ordinary kernel without the argument. |
| BuiltinResolver.ResolveGlobalOffset | IGC/Compiler/Optimizer/OpenCLPasses/WIFuncs/WIFuncResolution.cpp:485-525 | Lane dim of a side-buffer read or of the PAYLOAD_HEADER parameter. It fails, with that kind, only for an ordinary kernel without the argument. |
| BuiltinResolver.ResolveWorkDim | IGC/Compiler/Optimizer/OpenCLPasses/WIFuncs/WIFuncResolution.cpp:527-553 | A side-buffer word or the WORK_DIM parameter. It fails, with that kind, only for an ordinary kernel without the argument. |
| BuiltinResolver.ResolveNumGroups | IGC/Compiler/Optimizer/OpenCLPasses/WIFuncs/WIFuncResolution.cpp:555-586 | Lane dim of a side-buffer read or of the NUM_GROUPS parameter. It fails, with that kind, only for an ordinary kernel without the argument. |
| BuiltinResolver.ResolveStageInGridOrigin | IGC/Compiler/Optimizer/OpenCLPasses/WIFuncs/WIFuncResolution.cpp:588-603 | Lane dim of the STAGE_IN_GRID_ORIGIN parameter under both conventions. It fails exactly when the catalog lacks it. |
| BuiltinResolver.ResolveStageInGridSize | IGC/Compiler/Optimizer/OpenCLPasses/WIFuncs/WIFuncResolution.cpp:605-645 | Lane dim of a side-buffer read or of the STAGE_IN_GRID_SIZE parameter. It fails, with that kind, only for an ordinary kernel without the argument. |
| BuiltinResolver.ResolveSyncBufferPtr | IGC/Compiler/Optimizer/OpenCLPasses/WIFuncs/WIFuncResolution.cpp:647-658 | The SYNC_BUFFER parameter under both conventions. It fails exactly when the catalog lacks it. |
| BuiltinResolver.ResolveBuiltin | IGC/Compiler/Optimizer/OpenCLPasses/WIFuncs/WIFuncResolution.cpp:108-165 | The dispatch from builtin to resolver. A builtin taking dim yields an extract whose lane is dim itself (the group-id index for get_group_id); the others yield a call-free value. |
| BuiltinResolver.ReferenceFitsWideField | IGC/Compiler/Optimizer/OpenCLPasses/WIFuncs/WIFuncResolution.cpp:209-265 | Under the stack call, the reference values of global size and global offset lie below 2^bits for the call width. |
| BuiltinResolver.ReferenceFitsGridSize | IGC/Compiler/Optimizer/OpenCLPasses/WIFuncs/WIFuncResolution.cpp:615-633 | Under the stack call, the meaning of get_grid_size lies below 2^32. |
| BuiltinResolver.ReferenceFitsNarrowField | IGC/Compiler/Optimizer/OpenCLPasses/WIFuncs/WIFuncResolution.cpp:427-574 | Under the stack call, the meanings of local size, enqueued local size, num groups and work dim fit in four bytes. |
| BuiltinResolver.FieldTables | IGC/Compiler/Optimizer/OpenCLPasses/WIFuncs/WIFuncResolution.cpp:238-258 | Per-dimension field offsets are strided by their field size, and global offset d is payload-header lane d. |
| BuiltinResolver.SideLoadLane | IGC/Compiler/Optimizer/OpenCLPasses/WIFuncs/WIFuncResolution.cpp:434-446 | Lane `dim` of a three-lane side-buffer read is the field at offset + d × element size. |
| BuiltinResolver.TruncSideLoadLane | IGC/Compiler/Optimizer/OpenCLPasses/WIFuncs/WIFuncResolution.cpp:389-413 | The same for a read of 64-bit fields truncated lane by lane. |
| BuiltinResolver.CatalogArgLane | IGC/Compiler/Optimizer/OpenCLPasses/WIFuncs/WIFuncResolution.cpp:406-413 | Extracting lane d of a catalog argument gives the catalog lane d of that kind. |
| BuiltinResolver.CatalogScalar | IGC/Compiler/Optimizer/OpenCLPasses/WIFuncs/WIFuncResolution.cpp:546-550 | A scalar catalog argument evaluates to its single lane. |
| BuiltinResolver.ResolveStandardKernel | IGC/Compiler/Optimizer/OpenCLPasses/WIFuncs/WIFuncResolution.cpp:308-658 | For an ordinary kernel, every resolvable builtin succeeds and evaluates to its catalog reference lane. |
| BuiltinResolver.ResolveStackCall | IGC/Compiler/Optimizer/OpenCLPasses/WIFuncs/WIFuncResolution.cpp:308-658 | For a stack call, every resolvable builtin succeeds and evaluates to its side-buffer field, R0 lane or catalog lane. |
| BuiltinResolver.StackCallWideField | IGC/Compiler/Optimizer/OpenCLPasses/WIFuncs/WIFuncResolution.cpp:385-417 | Global size, global offset (lines 495-513) and grid size (lines 615-633) give the truncated 64-bit field for lane d. Grid size reads the global-size fields and truncates to 32 bits. |
| BuiltinResolver.StackCallNarrowField | IGC/Compiler/Optimizer/OpenCLPasses/WIFuncs/WIFuncResolution.cpp:427-483 | Local size and enqueued local size read the local-size fields; num groups (lines 565-574) reads the group-count fields. |
| BuiltinResolver.StackCallGlobalSize | IGC/Compiler/Optimizer/OpenCLPasses/WIFuncs/WIFuncResolution.cpp:387-405 | get_global_size under the stack call gives field d of the global-size block, truncated to the call width. |
| BuiltinResolver.StackCallGlobalOffset | IGC/Compiler/Optimizer/OpenCLPasses/WIFuncs/WIFuncResolution.cpp:495-513 | get_global_offset under the stack call gives field d of the global-offset block, truncated to the call width. |
| BuiltinResolver.StackCallGridSize | IGC/Compiler/Optimizer/OpenCLPasses/WIFuncs/WIFuncResolution.cpp:615-633 | get_grid_size under the stack call gives field d of the global-size block, truncated to 32 bits. |
| BuiltinResolver.StackCallLocalSize | IGC/Compiler/Optimizer/OpenCLPasses/WIFuncs/WIFuncResolution.cpp:427-446 | get_local_size under the stack call gives field d of the local-size block. |
| BuiltinResolver.StackCallEnqueuedLocalSize | IGC/Compiler/Optimizer/OpenCLPasses/WIFuncs/WIFuncResolution.cpp:460-479 | get_enqueued_local_size under the stack call gives field d of the local-size block too. |
| BuiltinResolver.StackCallNumGroups | IGC/Compiler/Optimizer/OpenCLPasses/WIFuncs/WIFuncResolution.cpp:565-574 | get_num_groups under the stack call gives field d of the group-count block. |
| BuiltinResolver.StackCallWorkDim | IGC/Compiler/Optimizer/OpenCLPasses/WIFuncs/WIFuncResolution.cpp:535-545 | Work dim is the 4-byte little-endian word at NUM_WORK_DIM. |
| BuiltinResolver.WorkDimWordIsByte | IGC/Compiler/Optimizer/OpenCLPasses/WIFuncs/WIFuncResolution.cpp:540-544 | That word equals the num_work_dim byte exactly when the STRUCT_SIZE byte and the two bytes after it are zero. |
| BuiltinResolver.ResolvedUsesOnlyDim | IGC/Compiler/Optimizer/OpenCLPasses/WIFuncs/WIFuncResolution.cpp:364-368 | A resolved value holds no call result except through its dimension operand. |
| WIFuncResolution.WICallByName | IGC/Compiler/Optimizer/OpenCLPasses/WIFuncs/WIFuncResolution.cpp:100-164 | IsWICall: an instruction is rewritten exactly when it is a direct call whose callee name is one of the 13 builtin names. Indirect calls return at 100-103 and other names at 161-164. |
| WIFuncResolution.ReplaceKeepsCallShape | IGC/Compiler/Optimizer/OpenCLPasses/WIFuncs/WIFuncResolution.cpp:176 | Replacement never turns an instruction into, or out of, a recognised call. |
| WIFuncResolution.ResolvedValue | IGC/Compiler/Optimizer/OpenCLPasses/WIFuncs/WIFuncResolution.cpp:167-173 | The value a call is replaced by exists exactly when the builtin is resolvable here, and is at least as wide as the call. |
| WIFuncResolution.Step | IGC/Compiler/Optimizer/OpenCLPasses/WIFuncs/WIFuncResolution.cpp:98-180 | visitCallInst leaves the body alone exactly for indirect calls, unknown names and other instructions; otherwise the call is erased. The instructions the source inserts before the call are folded into the replacement `Value`, so the model's body loses one entry. |
| WIFuncResolution.RewriteFrom | IGC/Compiler/Optimizer/OpenCLPasses/WIFuncs/WIFuncResolution.cpp:85 | The instruction walk keeps the body well formed. Because the inserted instructions are folded into replacement values, the model's body never grows. The walk ends with the flag set exactly when it was already set or calls were erased. |
| WIFuncResolution.RewriteRemovesWICalls | IGC/Compiler/Optimizer/OpenCLPasses/WIFuncs/WIFuncResolution.cpp:85 | After the walk no call to a recognised builtin remains. |
| WIFuncResolution.RewriteChanged | IGC/Compiler/Optimizer/OpenCLPasses/WIFuncs/WIFuncResolution.cpp:82-85 | The changed flag ends true exactly when the body had a recognised call. |
| WIFuncResolution.RewriteWithoutWICalls | IGC/Compiler/Optimizer/OpenCLPasses/WIFuncs/WIFuncResolution.cpp:100-165 | A body without recognised direct calls is returned unchanged, and the flag is not set. |
| WIFuncResolution.StepRedirectsAllUses | IGC/Compiler/Optimizer/OpenCLPasses/WIFuncs/WIFuncResolution.cpp:175-177 | After one call is rewritten, no instruction uses its result (given the call does not consume its own result). |
| WIFuncResolution.RedirectThenErase | IGC/Compiler/Optimizer/OpenCLPasses/WIFuncs/WIFuncResolution.cpp:176-177 | replaceAllUsesWith by an equal-valued value, then eraseFromParent at the position. The body loses one instruction, and every remaining instruction reads what it read before. |
| WIFuncResolution.StepPreservesMeaning | IGC/Compiler/Optimizer/OpenCLPasses/WIFuncs/WIFuncResolution.cpp:167-177 | When the call returns its reference value, every remaining instruction reads the same run-time values as before the rewrite. |
| WIFuncResolution.AsU32 | IGC/Compiler/Optimizer/OpenCLPasses/WIFuncs/WIFuncResolution.cpp:68-73 | The uint32_t cast gives a value below 2^32, congruent to the original and equal to it when it fits. |
| WIFuncResolution.KnownWorkGroupSize | IGC/Compiler/Optimizer/OpenCLPasses/WIFuncs/WIFuncResolution.cpp:58-78 | A constant is produced exactly when metadata gives a size, and it is a three-lane vector. |
| WIFuncResolution.FoldGroupSize | IGC/Compiler/Optimizer/OpenCLPasses/WIFuncs/WIFuncResolution.cpp:89-93 | Folding the known size rewrites operands only: the body keeps its length. |
| WIFuncResolution.FoldWithoutSize | IGC/Compiler/Optimizer/OpenCLPasses/WIFuncs/WIFuncResolution.cpp:89-93 | Without metadata, or without an enqueued-local-size argument, the body is not touched. |
| WIFuncResolution.FoldReplacesArgument | IGC/Compiler/Optimizer/OpenCLPasses/WIFuncs/WIFuncResolution.cpp:89-93 | With metadata (x, y, z), no instruction uses the argument afterwards, and every former use reads the u32 constant [x, y, z]. |
| WIFuncResolution.FoldPreservesMeaning | IGC/Compiler/Optimizer/OpenCLPasses/WIFuncs/WIFuncResolution.cpp:87-93 | When the argument holds the known size at run time, folding changes no value any instruction reads. |
| WIFuncResolution.RunOnFunctionSpec | IGC/Compiler/Optimizer/OpenCLPasses/WIFuncs/WIFuncResolution.cpp:80-96 | runOnFunction returns true exactly when it erased calls. Because the inserted instructions are folded into replacement values, the model's body never grows and shrinks exactly when a call was erased. |
| WIFuncResolution.RunOnFunctionResult | IGC/Compiler/Optimizer/OpenCLPasses/WIFuncs/WIFuncResolution.cpp:80-96 | A successful run leaves no recognised call, and returns true exactly when the body had one. |
| WIFuncResolution.RunOnFunctionWithoutWICalls | IGC/Compiler/Optimizer/OpenCLPasses/WIFuncs/WIFuncResolution.cpp:80-96 | A body without recognised calls is only folded, and false is returned. |
| WIFuncResolution.IRFunction.constructor | IGC/Compiler/Optimizer/OpenCLPasses/WIFuncs/WIFuncResolution.cpp:80-85 | The llvm::Function being rewritten: its parameter widths and stack-call attribute are fixed, and its body is the instruction list the pass edits. |
| WIFuncResolution.WIFuncResolutionPass.constructor | IGC/Compiler/Optimizer/OpenCLPasses/WIFuncs/WIFuncResolution.cpp:52-55 | The pass starts with an empty implicit-argument set; m_changed is left unset, as in the source. |
| WIFuncResolution.WIFuncResolutionPass.VisitCallInst | IGC/Compiler/Optimizer/OpenCLPasses/WIFuncs/WIFuncResolution.cpp:98-180 | The method rewrites the body and sets m_changed exactly as Step says; on failure it reports the error and leaves the body and flag alone. |
| WIFuncResolution.WIFuncResolutionPass.VisitAt | IGC/Compiler/Optimizer/OpenCLPasses/WIFuncs/WIFuncResolution.cpp:85 | One visit: the instruction at i goes through VisitCallInst when it is a call. The walk then goes on from the next instruction, or from i again after an erase, with the same remaining RewriteFrom result. A failure is RewriteFrom's error. |
| WIFuncResolution.WIFuncResolutionPass.Visit | IGC/Compiler/Optimizer/OpenCLPasses/WIFuncs/WIFuncResolution.cpp:85 | The visitor walks every instruction in order and rewrites calls through VisitCallInst. It ends with the body and flag RewriteFrom gives, or with its error. |
| WIFuncResolution.WIFuncResolutionPass.RunOnFunction | IGC/Compiler/Optimizer/OpenCLPasses/WIFuncs/WIFuncResolution.cpp:80-96 | The method resets m_changed, installs the catalog and visits every instruction in order. It then folds the known size. The body and the returned flag are RunOnFunctionSpec's, or resolution's error. |
| WIFuncResolution.LocalIdExample | IGC/Compiler/Optimizer/OpenCLPasses/WIFuncs/WIFuncResolution.cpp:660-671 | Two explicit parameters plus the catalog [LOCAL_ID_X, LOCAL_ID_Y, LOCAL_ID_Z, GLOBAL_SIZE]: a 64-bit get_local_id_x becomes the zero-extended parameter 2. |
| VisaAttributes.TableShape | visa/Attributes.cpp:34-64 | The table has 19 entries; the first 15 are kernel attributes, and entry 10 is OutputAsmPath. |
| VisaAttributes.SearchFrom | visa/Attributes.cpp:77-83 | The search returns the first table entry in [i, end) with exactly that name, or none when no entry in that range has it. |
| VisaAttributes.AttributeID | visa/Attributes.cpp:75-89 | A lookup that succeeds always names a kernel attribute. |
| VisaAttributes.KernelNamesDistinct | visa/Attributes.cpp:41-55 | The 15 kernel attribute names are pairwise distinct. |
| VisaAttributes.AttributeIDRoundTrip | visa/Attributes.cpp:75-89 | Looking up kernel attribute k's own name gives k. |
| VisaAttributes.AttributeIDSound | visa/Attributes.cpp:75-89 | A name that resolves is the resolved attribute's name, or is the alias of OutputAsmPath. |
| VisaAttributes.AsmNameAlias | visa/Attributes.cpp:84-87 | "AsmName" resolves to ATTR_OutputAsmPath. |
| VisaAttributes.InvalidIff | visa/Attributes.cpp:75-89 | ATTR_INVALID is returned exactly for names that are neither a kernel attribute's name nor "AsmName". |
| VisaAttributes.NonKernelNamesInvalid | visa/Attributes.cpp:60-63 | The four non-kernel attribute names do not resolve: the search stops at the kernel count. |
| VisaAttributes.Attributes.constructor | visa/Attributes.cpp:66-73 | Every kernel attribute starts unset, at its table default. |
| VisaAttributes.Attributes.GetAttributeID | visa/Attributes.cpp:75-89 | The linear search with early return computes AttributeID. |
| VisaAttributes.Attributes.SetIntKernelAttribute | visa/Attributes.cpp:91-95 | Entry k becomes set with the int value, and every other entry is unchanged. |
| VisaAttributes.Attributes.SetStringKernelAttribute | visa/Attributes.cpp:97-101 | Entry k becomes set with the string value, and every other entry is unchanged. |

## Left out

- IGC/VectorCompiler/lib/Support/BackendConfig.cpp: command-line options, a file read and pass registration. It is configuration and I/O, with no logic to state.
- LLVM IR construction is not modelled: IRBuilder calls, bitcasts, undef vectors, debug locations, A32 pointer types and load alignment. The values those instructions compute are modelled as `Value` trees instead.
- WIFuncResolution.Step: the body losing one entry counts the erased call only. The source inserts the resolving sequence (the compare, select, add and extract of getGroupId, the casts and load of BuildLoadInst, the extract, truncate and insert triples of the stack-call readers, the zext) before each call, so the real function usually grows.
- WIFuncResolution.RewriteFrom: the body never growing counts erased calls only, for the same reason as Step.
- WIFuncResolution.RunOnFunctionSpec: the body never growing counts erased calls only, for the same reason as Step.
- BuiltinResolver.Widen: a resolved value wider than the call (a catalog parameter wider than the call's result type) is passed through unchanged. The source's `replaceAllUsesWith` at WIFuncResolution.cpp:176 requires equal types, so it cannot rewrite that case; the model accepts it.
- WIFuncResolution.ResolvedValue: accepts the wider value that Widen passes through, which the source cannot substitute for the call.
- The GenISA_getR0 intrinsic and the GRF size are not modelled. R0 is a state component of at least 8 lanes.
- The construction of ImplicitArgs and the metadata lookup are not modelled. They are inputs: the catalog sequence, and an optional (x, y, z) triple.
- WIFuncsAnalysis.cpp is not part of this model. The builtin name strings are taken from the call shapes quoted in the resolver comments of WIFuncResolution.cpp. The code compares 13 names, meaning local id x/y/z plus ten more.
- Pass registration (WIFuncResolution.cpp:42-51, and the `initializeWIFuncResolutionPass` call in the constructor) is left out. So is the `hasStackCallAttr` query, which is the `stackCall` flag.
- WIFuncResolution.WIFuncResolutionPass.constructor: like the source (lines 52-55), it does not initialise m_changed, so nothing is promised about `changed` before runOnFunction, which assigns it first (line 82).
- The dimension operand is not range-checked, as in the source. The correctness lemmas ask that it evaluates to a single lane d < 3.
- Out-of-range lanes and missing values are modelled by `Eval` returning None. LLVM's poison/undef semantics are not modelled.
- BuiltinResolver.ResolveStackCall: there is no result for get_local_id_* under the stack call. The source leaves the value null there, and the code after that dereferences it. The model reports `StackCallLocalId` instead.
- BuiltinResolver.ImplicitArgValue: a kind missing from the catalog is the error `MissingImplicitArg`. The source has no defined behaviour for it.
- WIFuncResolution.WIFuncResolutionPass.RunOnFunction: the state the body is left in after a failed resolution is not stated. The source does not continue from that point.
- FieldReader.BuildLoad: the 32-bit unsigned arithmetic of the offsets is not modelled. All offsets the pass uses are below 100.
- WIFuncResolution.Step: it requires that calls to builtins taking a dimension have an operand 0. The source calls getArgOperand(0) without checking.
- WIFuncResolution.StepRedirectsAllUses: it is stated only for calls that do not consume their own result. LLVM's SSA form guarantees that for non-PHI instructions.
- VisaAttributes.AttrValue: VISA_CM's numeric value is not visible, so the Target default is a tag. The int/string union of m_val becomes a tagged value: a setter replaces the whole value rather than one union member.
- VisaAttributes.Attributes.SetIntKernelAttribute: kID must be a kernel attribute. Indexing with ATTR_INVALID or a non-kernel ID is out of bounds in the source.
- Under the stack call, get_work_dim reads a 4-byte little-endian word at NUM_WORK_DIM, exactly as the code writes it. The struct comment at WIFuncResolution.cpp:223-224 declares num_work_dim as a single byte, and places structSize before it. The offsets follow the code's constants (NUM_WORK_DIM = 88, STRUCT_SIZE = 89), not the comment. `WorkDimWordIsByte` states when the word and the byte agree. If the runtime stores num_work_dim as one byte, the 4-byte load also takes the structSize byte at 89 and bytes 90-91, and the result differs from the byte whenever one of those is nonzero. This is not recorded as a finding, because the runtime that fills the buffer is not part of this model and the layout it writes cannot be confirmed here.
- Floating point, concurrency and I/O do not occur in the core.
