# A verified model of a C++ sandbox's core

This project is a Dafny model of a sandbox repository of small, mostly independent C++ pieces, plus one Python build script. The model covers the parts that carry logic, and each one is proved against a specification:

- **LLVM build driver** (`llvm-ir/make.py`): the seven tool steps with their suffix and existence checks, the two link stages of `target.build`, and `target.run`.
- **Range views** (`data-structures/include/cxx`): `chunk_evenly_view`, `iota_view` and `span`, with their iterator arithmetic.
- **Overflow tests:** the overflow and wraparound detectors.
- **Containers and ownership wrappers:**
  - two doubly linked lists, `cxx::list` and `adt::list`;
  - `optional`, `handle`, `unique_ptr`, `indirect`, `expected` and `result`;
  - `stack_alloc` and `stack_array`.
- **Allocators:** the stateless `cxx::allocator`, and the free-list `Allocator` of `allocator/allocator.cpp`.
- **zlang:** its two lexers and its tagged-union `Token`.
- **Game Boy:** the instruction decoder, the instruction mnemonics and the register loads of the arithmetic logic unit.
- **IEEE 754:** classification of a binary32 bit pattern, following section 3.4 of IEEE 754-2008.
- **Compile-time arithmetic:** `Abs` and `Power`.
- **Concept-constrained algorithms:** `swap`, `max`, `reduce`, `accumulate` and `sort`.
- **Utilities:** the `Vector2`/`Vector3`/`Vector4` component unions and `IsAnyBitSet`/`ReinterpretBytes`.
- **OpenCL info parsers** of `cl/source/Platform.cpp` and `cl/source/Device.cpp`.

## Modelling conventions

- **One module per source file.** Code that behaves the same is modelled once:
  - `adt::list`, `adt::optional` and `adt::unique_ptr` reuse the `cxx::` models and add only what differs;
  - both zlang lexers are proved to compute the same grammar function, `ZlangScan.Scan`;
  - `Platform.cpp` and `Device.cpp` share `ClInfo`.
- **Classes vs datatypes.** Objects whose fields the source updates in place are classes with `modifies` clauses. Values are datatypes.
- **Failed checks.** A failed `assert` or `static_assert` becomes either a precondition or an error value (`None`). Each member's doc comment says which.
- **Integer widths** are explicit: `IntTypes.IntType` gives a type's range and its modular conversion.
- **Runs of the build script.** The exit status of the n-th command started is a parameter of the host. A *run* of a command plan (`LlvmMake.Stopped`) has three possible ends:
  - it returns normally after starting the whole plan, with every status 0;
  - it raises `CalledProcessError` after starting the plan up to its first non-zero status, carrying that status;
  - it raises `AssertionError` before any started command failed.

## Model

| member | source | states |
|---|---|---|
| LlvmMake.OutputFlag | llvm-ir/make.py:21-79 | the position of the first `-o` argument: none comes before it, and it is `-o` unless it is past the end |
| LlvmMake.TranslationsNameTheirFiles | llvm-ir/make.py:15-68 | `llvm-as`, `llc` and `as` each write the output path given as the function's first parameter, right after `-o`, and read exactly the input path |
| LlvmMake.LinksNameTheirFiles | llvm-ir/make.py:28-86 | `llvm-link` and `ld` write the output path given first, right after `-o`, and read exactly the input paths in order; the Darwin `-lSystem` comes after the output |
| LlvmMake.LinkStageFromValue | llvm-ir/make.py:112-121 | looking a `link_stage` up by value succeeds exactly for `objectcode` and `bitcode` |
| LlvmMake.LinkStageRoundTrip | llvm-ir/make.py:112-121 | `__str__` followed by the lookup gives the stage back, and the two stages have distinct values |
| LlvmMake.ObjectFiles | llvm-ir/make.py:143-146 | `object_files` has one entry per source, the i-th being `build_dir/source_i` with suffix `.o` |
| LlvmMake.BitcodeFiles | llvm-ir/make.py:159-162 | `bitcode_files` has one entry per source, the i-th being `build_dir/source_i` with suffix `.bc` |
| LlvmMake.CompileStepsShape | llvm-ir/make.py:137-146 | the object-code loop issues 2n commands: command 2i is `llc` of source i into `.s`, command 2i+1 is `as` of that `.s` into `.o` |
| LlvmMake.AssembleStepsShape | llvm-ir/make.py:156-162 | the bitcode loop issues n commands: command i is `llvm-as` of source i into `.bc` |
| LlvmMake.ObjectcodePlanShape | llvm-ir/make.py:133-149 | a successful object-code build issues 2n+1 commands, the last linking the n objects, in source order, into `build_dir/name` |
| LlvmMake.BitcodePlanShape | llvm-ir/make.py:152-174 | a successful bitcode build issues n+4 commands: command n is `llvm-link`, the last links `name.o` into `name` |
| LlvmMake.CompileStepsPrefix | llvm-ir/make.py:137-146 | the commands for the first i sources are a prefix of those for all sources |
| LlvmMake.AssembleStepsPrefix | llvm-ir/make.py:156-162 | the assemblies of the first i sources are a prefix of those of all sources |
| LlvmMake.CompileIteration | llvm-ir/make.py:137-146 | whatever part of source i's two commands ran, the log still begins the object-code plan; when both ran, it holds the commands of the first i+1 sources |
| LlvmMake.AssembleIteration | llvm-ir/make.py:156-162 | whether or not source i's assembly ran, the log still begins the bitcode plan; when it ran, it holds the assemblies of the first i+1 sources |
| LlvmMake.FirstFailure | llvm-ir/make.py:23 | the number of commands, from a position on, that exit with 0 before the first non-zero status: every one before it succeeded, and the one at it failed |
| LlvmMake.FirstFailureConcat | llvm-ir/make.py:23 | the first failure among a+b commands is the first among the a, or else a plus the first among the remaining b |
| LlvmMake.StepStopped | llvm-ir/make.py:15-25 | one check followed by `check_call` is a run of its one command |
| LlvmMake.StoppedThen | llvm-ir/make.py:133-149 | Python statements in sequence: running one plan, then a second only if the first returned normally, is a run of their concatenation |
| LlvmMake.StoppedAfter | llvm-ir/make.py:133-149 | a completed run of the first commands followed by a run of the next ones is a run of both; if it raised, it is a run of the whole plan, because nothing after it starts |
| LlvmMake.StoppedDetermined | llvm-ir/make.py:23 | without an `AssertionError`, a run is fixed by the statuses. It returns normally exactly when every status is 0. Otherwise it started the plan up to and including the first failing command and raised that command's status |
| LlvmMake.Host.CheckCall | llvm-ir/make.py:23 | `check_call` logs the command; a zero status leaves the output file behind, a non-zero one raises `CalledProcessError` carrying that status and creates nothing |
| LlvmMake.Host.Call | llvm-ir/make.py:96 | `call` logs the command and returns its status without raising or creating files |
| LlvmMake.Host.LlvmAssemble | llvm-ir/make.py:15-25 | an input that is not an existing `.ll`, or an output that is not `.bc`, raises `AssertionError` before any command is logged; otherwise exactly `llvm-as src -o out` is logged and the output exists iff the status is 0, and a non-zero status raises `CalledProcessError` with it |
| LlvmMake.Host.LlvmLinkFiles | llvm-ir/make.py:28-40 | every input must be an existing `.bc` and the output `.bc`, else `AssertionError` with nothing logged; otherwise `llvm-link inputs -o out` is logged and the output exists iff the status is 0, and a non-zero status raises `CalledProcessError` with it |
| LlvmMake.Host.LlvmCompile | llvm-ir/make.py:43-55 | an existing `.ll` or `.bc` input and a `.s` output are required, else `AssertionError` with nothing logged; otherwise `llc in -o out` is logged, the output exists iff the status is 0, and a non-zero status raises `CalledProcessError` with it |
| LlvmMake.Host.NativeAssemble | llvm-ir/make.py:58-68 | an existing `.s` input and a `.o` output are required, else `AssertionError`; otherwise `as in -o out` is logged, the output exists iff the status is 0, and a non-zero status raises `CalledProcessError` with it |
| LlvmMake.Host.NativeLink | llvm-ir/make.py:71-86 | every input must be an existing `.o` and the output suffix-less, else `AssertionError`; otherwise `ld objs -o exe` is logged, with `-lSystem` appended exactly on Darwin; a non-zero status raises `CalledProcessError` with it |
| LlvmMake.Host.LlvmInterpret | llvm-ir/make.py:89-98 | an existing `.bc` is run with `lli` and its status is returned, never raised; anything else raises `AssertionError` with nothing logged |
| LlvmMake.Host.NativeExecute | llvm-ir/make.py:101-109 | an existing suffix-less executable is run and its status returned; anything else raises `AssertionError` |
| LlvmMake.Host.CompileSource | llvm-ir/make.py:139-144 | one source is compiled to `.s`, then assembled to `.o`, and the two commands form a run: a failing `llc` stops before `as` and raises its status. When the source is an existing `.ll`/`.bc` no `AssertionError` can occur, and with both statuses 0 it returns normally with `.o` present |
| LlvmMake.Host.CompileNext | llvm-ir/make.py:137-146 | one loop turn is a run of source i's two commands. On a normal return the log holds the first i+1 sources' commands and `object_files` grows by source i's object. On a raise, the log so far is a run of the whole loop |
| LlvmMake.Host.CompileSources | llvm-ir/make.py:135-146 | the loop is a run of the 2n compile/assemble commands. On success `object_files` are the n objects, all existing. When every source is buildable it cannot raise `AssertionError`, and with every status 0 it succeeds |
| LlvmMake.Host.BuildWithLinkingObjectcode | llvm-ir/make.py:133-149 | the build is a run of the 2n+1-command plan, so it stops at the first failing command and raises its status. On success the executable exists. A buildable target raises no `AssertionError` and succeeds when every status is 0 |
| LlvmMake.Host.AssembleNext | llvm-ir/make.py:156-162 | one loop turn is a run of source i's `llvm-as`. On success the log holds the first i+1 assemblies and `bitcode_files` grows by source i's bitcode. On a raise, the log so far is a run of the whole loop |
| LlvmMake.Host.AssembleSources | llvm-ir/make.py:154-162 | the loop is a run of the n `llvm-as` commands. On success `bitcode_files` are the n bitcode files, all existing. With every source an existing `.ll` it cannot raise `AssertionError`, and with every status 0 it succeeds |
| LlvmMake.Host.LowerToNative | llvm-ir/make.py:167-174 | a run of `llc` on `name.bc`, `as` and `ld` of `name.o`. On success `name` exists. When `name.bc` exists and the name has no suffix it cannot raise `AssertionError`, and with three statuses 0 it succeeds |
| LlvmMake.Host.LinkAndLower | llvm-ir/make.py:164-174 | a run of `llvm-link` into `name.bc`, then `llc`, `as` and `ld`. On success both `name` and `name.bc` exist. With existing `.bc` inputs and a suffix-less name it cannot raise `AssertionError`, and with four statuses 0 it succeeds |
| LlvmMake.Host.BuildWithLinkingBitcode | llvm-ir/make.py:152-174 | the build is a run of the n+4-command plan. On success `name` and `name.bc` exist. A buildable target raises no `AssertionError` and succeeds when every status is 0 |
| LlvmMake.Host.Build | llvm-ir/make.py:177-190 | the build directory is created (idempotently) first. The stage selects the plan, and the build is a run of it. On success the executable exists, and for the bitcode stage so does `name.bc`. A buildable target raises no `AssertionError` and succeeds when every status is 0 |
| LlvmMake.Host.Run | llvm-ir/make.py:193-201 | the native executable is always run first; `name.bc` is interpreted after it exactly when that file exists; a missing executable raises before anything runs |
| ChunkEvenly.DecrementIf | data-structures/include/cxx/chunk_evenly.hxx:61-72 | the value drops by one exactly when the condition holds |
| ChunkEvenly.ValuePlusOneOrValue | data-structures/include/cxx/chunk_evenly.hxx:75-85 | the value grows by one exactly when the condition holds |
| ChunkEvenly.ChunkStartStep | data-structures/include/cxx/chunk_evenly.hxx:204 | each chunk begins where the previous one ends |
| ChunkEvenly.ChunkStartClosedForm | data-structures/include/cxx/chunk_evenly.hxx:106-118 | chunk i begins after i·(n/k) elements plus min(i, n%k) extra ones |
| ChunkEvenly.ChunkBounds | data-structures/include/cxx/chunk_evenly.hxx:288-370 | chunk 0 begins at the range start and chunk k (the end) at the range end |
| ChunkEvenly.LargerChunksFirst | data-structures/include/cxx/chunk_evenly.hxx:157-164 | chunk sizes never grow with the index and differ by at most one; chunk i has n/k+1 elements exactly when i < n%k |
| ChunkEvenly.ChunkWithinRange | data-structures/include/cxx/chunk_evenly.hxx:183-198 | every chunk of an index below k lies inside the range |
| ChunkEvenly.Iterator.constructor | data-structures/include/cxx/chunk_evenly.hxx:145-165 | quotient and remainder of the range size by the chunk count; the chunk size is the quotient plus one only for a chunk before the border not marked as surely after it |
| ChunkEvenly.Iterator.Deref | data-structures/include/cxx/chunk_evenly.hxx:183-198 | `*it` is the subrange of chunk i: the right start and the right size |
| ChunkEvenly.Iterator.Increment | data-structures/include/cxx/chunk_evenly.hxx:200-213 | `++` moves the begin past the current chunk and reaches exactly chunk i+1 (the size drops where the index reaches the remainder), keeping the iterator valid |
| ChunkEvenly.Iterator.Decrement | data-structures/include/cxx/chunk_evenly.hxx:215-230 | `--` reaches exactly chunk i-1, whose end is the old begin, so it undoes `++` |
| ChunkEvenly.Iterator.PostIncrement | data-structures/include/cxx/chunk_evenly.hxx:232-244 | `it++` returns a copy of the old position and advances to chunk i+1 |
| ChunkEvenly.Iterator.PostDecrement | data-structures/include/cxx/chunk_evenly.hxx:246-255 | `it--` returns a copy of the old position and steps back to chunk i-1 |
| ChunkEvenly.Iterator.Copy | data-structures/include/cxx/chunk_evenly.hxx:241 | the copy holds the same position and remainder |
| ChunkEvenly.EqualMeansSamePosition | data-structures/include/cxx/chunk_evenly.hxx:257-262 | `==` compares only chunk indices, which for iterators of one view is the same as comparing begin, index and size |
| ChunkEvenly.ChunkEvenlyView.Begin | data-structures/include/cxx/chunk_evenly.hxx:288-330 | `begin()` is chunk 0, at the start of the range |
| ChunkEvenly.ChunkEvenlyView.End | data-structures/include/cxx/chunk_evenly.hxx:332-374 | `end()`, built as surely after the border, is index `chunk_count` at the end of the range |
| ChunkEvenly.MakeView | data-structures/include/cxx/chunk_evenly.hxx:276-285 | construction expects a positive chunk count, and `size()` is that count |
| ChunkEvenly.FlattenAppend | data-structures/tests/chunk_evenly.cxx:74-92 | concatenating one more chunk appends it to the concatenation |
| ChunkEvenly.Step | data-structures/tests/chunk_evenly.cxx:74-92 | appending the chunk at the covered boundary extends the covered prefix of the range |
| ChunkEvenly.Chunks | data-structures/tests/chunk_evenly.cxx:74-92 | walking from `begin()` to `end()` with `++` yields `size()` chunks that concatenate back to the range, the first n%k of n/k+1 elements and the rest of n/k, larger chunks first |
| Iota.Advanced | data-structures/include/cxx/iota.hxx:443-606 | `value += offset` in either width arrangement always yields a value of the element type, and exactly `value + offset` whenever that sum is representable |
| Iota.DifferenceOf | data-structures/include/cxx/iota.hxx:654-798 | `left - right` is exact whenever the true difference fits the difference type |
| Iota.NarrowRangeSizeFits | data-structures/include/cxx/iota.hxx:939-970 | with a difference type wider than the element type, every ordered range's size is at most the difference type's maximum, so that branch needs no check |
| Iota.IotaView.Begin | data-structures/include/cxx/iota.hxx:973-976 | `*begin() == init` |
| Iota.IotaView.End | data-structures/include/cxx/iota.hxx:978-981 | `*end() == bound` |
| Iota.MakeView | data-structures/include/cxx/iota.hxx:888-971 | the constructor's assertions (`init <= bound`, no positive overflow of `bound - init` for a signed wide element type, size at most `iterdiff_max`) establish a valid view in both width arrangements |
| Iota.AdvanceWithinView | data-structures/include/cxx/iota.hxx:443-620 | within a valid view, an offset that lands in [init, bound] and its negation fit the difference type, `+=` is exact, the difference gives the offset back, and `-=` returns to the start |
| Iota.BeginEndRoundTrip | data-structures/tests/iota_view.cxx:220-238 | `end() - begin()` is `bound - init`, `begin() + size` is `end()` and `end() - size` is `begin()` |
| Iota.Iterator.Default | data-structures/include/cxx/iota.hxx:387-391 | a value-initialized iterator holds 0 |
| Iota.Iterator.constructor | data-structures/include/cxx/iota.hxx:393-398 | the private constructor used by `begin()` and `end()` holds the value it is given |
| Iota.Iterator.Increment | data-structures/include/cxx/iota.hxx:413-418 | `++` adds one in the element type, exactly one when no overflow |
| Iota.Iterator.Decrement | data-structures/include/cxx/iota.hxx:428-433 | `--` subtracts one in the element type, exactly one when no overflow |
| Iota.Iterator.PostIncrement | data-structures/include/cxx/iota.hxx:420-426 | `it++` returns the old value and advances by one |
| Iota.Iterator.PostDecrement | data-structures/include/cxx/iota.hxx:435-441 | `it--` returns the old value and moves back by one |
| Iota.Iterator.AddAssign | data-structures/include/cxx/iota.hxx:443-606 | `+=` stores the advanced value, `value + offset` whenever representable |
| Iota.Iterator.SubAssign | data-structures/include/cxx/iota.hxx:608-620 | `-=` is `+=` of the negated offset, `value - offset` whenever representable |
| Iota.Iterator.At | data-structures/include/cxx/iota.hxx:622-628 | `it[k]` is `*it + k` when representable and reads without changing the iterator |
| Iota.Iterator.Plus | data-structures/include/cxx/iota.hxx:630-644 | `it + k` and `k + it` give a new iterator holding `it[k]` and leave `it` alone |
| Iota.Iterator.Minus | data-structures/include/cxx/iota.hxx:646-652 | `it - k` gives a new iterator moved back by k when representable |
| Iota.Iterator.Difference | data-structures/include/cxx/iota.hxx:654-798 | the difference of two iterators is the difference of their values when representable |
| Iota.IteratorOrder | data-structures/include/cxx/iota.hxx:800-840 | the comparisons order iterators by value: trichotomy, `!=` negates `==`, `<=`/`>=` negate `>`/`<`, `<` is `>` reversed |
| DetectOverflow.DetectAddPositiveOverflow | data-structures/include/cxx/detect_overflow.hxx:47-77 | true exactly when the mathematical `l + r` exceeds the maximum; `max - r` is evaluated only where it is representable |
| DetectOverflow.DetectAddNegativeOverflow | data-structures/include/cxx/detect_overflow.hxx:80-110 | true exactly when `l + r` is below the minimum; `min - r` is evaluated only where representable |
| DetectOverflow.DetectSubPositiveOverflow | data-structures/include/cxx/detect_overflow.hxx:113-143 | true exactly when `l - r` exceeds the maximum; `max + r` is evaluated only where representable |
| DetectOverflow.DetectSubNegativeOverflow | data-structures/include/cxx/detect_overflow.hxx:146-176 | true exactly when `l - r` is below the minimum; `min + r` is evaluated only where representable |
| DetectOverflow.OverflowDetectorsPartition | data-structures/include/cxx/detect_overflow.hxx:66-176 | the positive and negative tests never both hold, and together they flag exactly the unrepresentable sums and differences |
| DetectWraparound.DetectAddPositiveWraparound | data-structures/include/cxx/detect_wraparound.hxx:47-75 | true exactly when `l + r` exceeds the maximum, i.e. when the modular sum differs from the true sum; false whenever r is 0; `max - r` is evaluated only for non-zero r and never wraps |
| DetectWraparound.DetectSubNegativeWraparound | data-structures/include/cxx/detect_wraparound.hxx:78-91 | true exactly when `l < r`, i.e. when the modular difference differs from the true one |
| CxxList.List.constructor | data-structures/include/cxx/list.hxx:139-145 | a default list is valid and empty, with `begin() == end()` |
| CxxList.List.FromSeq | data-structures/include/cxx/list.hxx:147-155 | the initializer-list constructor holds the given elements in order |
| CxxList.List.Copy | data-structures/include/cxx/list.hxx:162-170 | the copy constructor builds a separate list with the same elements in order |
| CxxList.List.Begin | data-structures/include/cxx/list.hxx:362-372 | `begin()` equals `end()` exactly for an empty list and otherwise points at the first element |
| CxxList.List.Size | data-structures/include/cxx/list.hxx:342-346 | `size()` is the number of elements |
| CxxList.List.Empty | data-structures/include/cxx/list.hxx:348-352 | `empty()` holds exactly when there are no elements |
| CxxList.List.Front | data-structures/include/cxx/list.hxx:310-324 | `front()` asserts a head and returns the first element |
| CxxList.List.Back | data-structures/include/cxx/list.hxx:326-340 | `back()` asserts a tail and returns the last element |
| CxxList.List.PushBack | data-structures/include/cxx/list.hxx:226-244 | `push_back` appends the value and keeps the links valid |
| CxxList.List.PushFront | data-structures/include/cxx/list.hxx:246-264 | `push_front` prepends the value and keeps the links valid |
| CxxList.List.PopFront | data-structures/include/cxx/list.hxx:266-286 | `pop_front` asserts a non-empty list and removes exactly the first element |
| CxxList.List.PopBack | data-structures/include/cxx/list.hxx:288-308 | `pop_back` asserts a non-empty list and removes exactly the last element |
| CxxList.List.Clear | data-structures/include/cxx/list.hxx:354-360 | `clear` pops until the list is empty |
| CxxList.List.Move | data-structures/include/cxx/list.hxx:200-209 | the move constructor takes over the elements and leaves the source empty |
| CxxList.List.MoveAssign | data-structures/include/cxx/list.hxx:211-224 | move assignment ends with the source's old elements and the source empty; self-move leaves the list empty, because `clear` runs first |
| CxxList.List.StealFrom | data-structures/include/cxx/list.hxx:215-221 | taking over an emptied list's fields gives it the other's elements and empties the other |
| CxxList.List.CopyAssign | data-structures/include/cxx/list.hxx:172-198 | copy assignment makes the elements equal to the other's, shrinking or growing as needed, and leaves the other unchanged; self-assignment is a no-op |
| CxxList.List.AssignCommonPrefix | data-structures/include/cxx/list.hxx:174-183 | the first loop overwrites the first min(m, n) elements with the other's and keeps the nodes |
| CxxList.List.AssignStep | data-structures/include/cxx/list.hxx:179-182 | one turn copies element i and advances both iterators |
| CxxList.List.SetValue | data-structures/include/cxx/list.hxx:179 | writing through an iterator changes exactly that element |
| CxxList.List.AppendRest | data-structures/include/cxx/list.hxx:190-195 | the last loop appends the other's remaining elements |
| CxxList.OverwrittenStep | data-structures/include/cxx/list.hxx:177-183 | overwriting element i extends the overwritten prefix by one |
| CxxList.Equal | data-structures/include/cxx/list.hxx:411-438 | `==` holds exactly when both lists have the same elements in the same order |
| AdtList.CopyAssign | list.cpp:121-131 | copy assignment clears the list, then appends every element of the other, so it ends equal to the other; self-assignment empties the list |
| AdtList.PushPopFrontBack | list.cpp:403-442 | the push/pop test ends with exactly `'9', '7'` |
| AdtList.PushPhase | list.cpp:422-429 | starting from `{'%', '9', '9'}`, push back, push front and push back give exactly the listed contents |
| AdtList.PopPhase | list.cpp:430-441 | the pops from both ends and the final push give exactly the listed contents at every step |
| CxxOptional.Optional.constructor | data-structures/include/cxx/optional.hxx:63-67 | a default optional is empty |
| CxxOptional.Optional.Nullopt | data-structures/include/cxx/optional.hxx:69-73 | an optional constructed from `nullopt` is empty |
| CxxOptional.Optional.Copy | data-structures/include/cxx/optional.hxx:80-88 | the copy has the same engagement and, if engaged, a copy of the value |
| CxxOptional.Optional.Move | data-structures/include/cxx/optional.hxx:104-114 | the moved-to optional has the source's state and the source ends empty |
| CxxOptional.Optional.CopyAssign | data-structures/include/cxx/optional.hxx:90-102 | copy assignment replicates the other's state; self-assignment empties the optional, because `reset` runs first |
| CxxOptional.Optional.MoveAssign | data-structures/include/cxx/optional.hxx:116-130 | move assignment takes the other's state and leaves the other empty; self-move empties it |
| CxxOptional.Optional.AssignNullopt | data-structures/include/cxx/optional.hxx:132-137 | assigning `nullopt` leaves the optional empty |
| CxxOptional.Optional.Emplace | data-structures/include/cxx/optional.hxx:139-149 | `emplace` destroys any old value and leaves the optional engaged with the new value, which it returns |
| CxxOptional.Optional.Reset | data-structures/include/cxx/optional.hxx:151-159 | `reset` leaves the optional empty, and changes nothing when it already was |
| CxxOptional.Optional.Value | data-structures/include/cxx/optional.hxx:172-196 | `value()` and `*` require engagement and return the stored value |
| CxxOptional.Optional.Swap | data-structures/include/cxx/optional.hxx:208-228 | `swap` exchanges engagement and values in all four cases |
| CxxOptional.NulloptComparison | data-structures/include/cxx/optional.hxx:231-261 | `opt == nullopt` holds exactly when the optional is empty, and `!=` is its negation |
| AdtOptional.MakeOptional | adt/optional.cpp:243-251 | `make_optional` returns a new engaged optional holding the constructed value |
| AdtOptional.MakeOptionalHoldsValue | adt/optional.cpp:334-338 | the result of `make_optional` compares unequal to `nullopt` and holds the value it was given |
| AdtHandle.Handle.constructor | adt/handle.cpp:50-54 | a default handle is not created and `get()` is null |
| AdtHandle.Handle.Copy | adt/handle.cpp:61-69 | the copy has the same flag and, if created, a copy of the value |
| AdtHandle.Handle.CopyAssign | adt/handle.cpp:71-83 | copy assignment replicates the other after `destroy()`; the log gains the old value, if any; self-assignment ends empty |
| AdtHandle.Handle.Move | adt/handle.cpp:85-95 | move construction copies the state, then `destroy()`s the source: the source ends empty and its log gains the moved value |
| AdtHandle.Handle.MoveAssign | adt/handle.cpp:97-111 | move assignment `destroy()`s this handle, takes the other's state and `destroy()`s the other; each log gains that handle's old value; self-move ends empty |
| AdtHandle.Handle.Create | adt/handle.cpp:113-121 | `create` `destroy()`s any old value (the log gains it) and leaves the handle created with the new value |
| AdtHandle.Handle.Destroy | adt/handle.cpp:123-131 | `destroy` in the corrected order (see Findings): the destructor of the stored value runs exactly once and is logged, the handle ends not created, and it is a no-op when it already was |
| AdtHandle.Handle.DestroyAsWritten | adt/handle.cpp:123-131 | `destroy` as written: the handle ends not created, but no destructor reaches the stored value, which stays in the storage |
| AdtHandle.Handle.Get | adt/handle.cpp:138-160 | `get()` is non-null exactly when the handle is created |
| AdtHandle.Handle.Arrow | adt/handle.cpp:162-174 | `->` requires `created` and reaches the stored value |
| AdtHandle.Handle.Swap | adt/handle.cpp:176-194 | `swap` exchanges the created flags and the values in all four cases; when only one side held a value, the moved-from copy on that side is destroyed and logged |
| AdtHandle.CreateDestroyCycle | adt/handle.cpp:219-258 | a handle starts empty, owns the value after `create`, and is empty after `destroy`, which ran the value's destructor once |
| AdtHandle.DestroyAsWrittenNeverDestroys | adt/handle.cpp:123-131 | for any value, `create` then the as-written `destroy` reports empty, runs no destructor and leaves the value in the storage |
| CxxUniquePtr.Deleted | data-structures/include/cxx/unique_ptr.hxx:72-75 | `delete p` destroys nothing for `nullptr` and exactly the object `p` otherwise |
| CxxUniquePtr.UniquePtr.constructor | data-structures/include/cxx/unique_ptr.hxx:54-58 | a default pointer is empty: `get()` is null and `bool` is false |
| CxxUniquePtr.UniquePtr.Null | data-structures/include/cxx/unique_ptr.hxx:60-64 | a pointer constructed from `nullptr` is empty |
| CxxUniquePtr.UniquePtr.FromRaw | data-structures/include/cxx/unique_ptr.hxx:66-70 | construction from a raw pointer owns exactly that pointer |
| CxxUniquePtr.UniquePtr.Move | data-structures/include/cxx/unique_ptr.hxx:81-86 | the move constructor takes the pointer and leaves the source null, deleting nothing |
| CxxUniquePtr.UniquePtr.Destruct | data-structures/include/cxx/unique_ptr.hxx:72-75 | the destructor deletes exactly the owned object, if any |
| CxxUniquePtr.UniquePtr.MoveAssign | data-structures/include/cxx/unique_ptr.hxx:88-97 | move assignment deletes the owned object, takes the other's pointer and nulls the other; a self-move deletes the object and ends null |
| CxxUniquePtr.UniquePtr.AssignNull | data-structures/include/cxx/unique_ptr.hxx:99-106 | assigning `nullptr` deletes the owned object and leaves the pointer empty |
| CxxUniquePtr.UniquePtr.Deref | data-structures/include/cxx/unique_ptr.hxx:108-113 | `*` requires a non-null pointer and reads the owned object |
| CxxUniquePtr.UniquePtr.Release | data-structures/include/cxx/unique_ptr.hxx:132-139 | `release` returns the old pointer, deletes nothing and leaves this one null |
| CxxUniquePtr.UniquePtr.Reset | data-structures/include/cxx/unique_ptr.hxx:141-145 | `reset(p)` deletes the old object and owns `p` |
| CxxUniquePtr.ComparisonsAgree | data-structures/include/cxx/unique_ptr.hxx:149-195 | a pointer equals `nullptr` exactly when `bool` is false, `!=` negates `==`, and two empty pointers compare equal |
| CxxUniquePtr.MakeUnique | data-structures/include/cxx/unique_ptr.hxx:197-202 | `make_unique` returns a pointer owning a new object holding the value |
| CxxUniquePtr.MoveTransfersOwnership | data-structures/tests/unique_ptr.cxx:134-144 | after a move assignment the target owns 7, the source is empty and nothing was deleted |
| CxxUniquePtr.DestructorDeletes | data-structures/tests/unique_ptr.cxx:92-121 | the object owned when the pointer is destroyed is the one deleted |
| AdtUniquePtr.MoveAssignmentRoundTrip | adt/unique_ptr.cpp:260-277 | moving 7 from the first pointer to the second and back leaves the first owning 7, the second empty, and deletes nothing |
| AdtUniquePtr.NullAssignmentDeletes | adt/unique_ptr.cpp:279-286 | assigning `nullptr` to a pointer owning 9 deletes that object and leaves the pointer empty |
| CxxIndirect.Indirect.constructor | data-structures/include/cxx/indirect.hxx:110-116 | construction from arguments always allocates a new object holding the value |
| CxxIndirect.Indirect.Destruct | data-structures/include/cxx/indirect.hxx:118-121 | the destructor deletes exactly the pointee (nothing when it was moved from) |
| CxxIndirect.Indirect.Move | data-structures/include/cxx/indirect.hxx:124-129 | the move constructor takes the pointer and leaves the source's pointer null, deleting nothing |
| CxxIndirect.Indirect.MoveAssign | data-structures/include/cxx/indirect.hxx:131-139 | move assignment deletes the old pointee, takes the source's pointer and nulls the source; a self-move ends null |
| CxxIndirect.Indirect.Copy | data-structures/include/cxx/indirect.hxx:142-147 | the copy constructor allocates a distinct new object holding the source's value |
| CxxIndirect.Indirect.CopyAssign | data-structures/include/cxx/indirect.hxx:149-159 | copy assignment writes the source's value into the existing pointee and keeps both pointers; self-assignment changes nothing |
| CxxIndirect.Indirect.Deref | data-structures/include/cxx/indirect.hxx:170-208 | `*` and `->` yield the pointee's value |
| CxxIndirect.EqualIsByValue | data-structures/include/cxx/indirect.hxx:162-168 | `==` holds exactly when the pointees' values are equal, whatever the pointers, and is symmetric |
| CxxIndirect.CopyIsDisjoint | data-structures/tests/indirect.cxx:157-178 | a copy equals its original and a change to the copy leaves the original unchanged, so they differ afterwards |
| CxxIndirect.CopyAssignIsDisjoint | data-structures/tests/indirect.cxx:181-222 | after copy assignment the two are equal but disjoint, and self-assignment keeps the value |
| CxxIndirect.MoveLeavesSourceEmpty | data-structures/tests/indirect.cxx:125-137 | after a move the target holds the value and the source is empty |
| AdtExpected.FromValue | adt/expected.cpp:50-55 | construction from a value sets the flag, and `value()` returns that value |
| AdtExpected.FromError | adt/expected.cpp:57-62 | construction from an error clears the flag, and `error()` returns that error |
| AdtExpected.AccessorsPartition | adt/expected.cpp:64-79 | exactly one accessor's assertion holds, and it returns what the expected was built from |
| AdtExpected.Create | adt/expected.cpp:110-137 | `Foo::Create` yields `Foo{param}` exactly when the flag is set and `Error{param}` otherwise, as the usage test checks |
| CxxResult.FromValue | data-structures/include/cxx/result.hxx:135-140 | construction from a value sets the flag, and `value()` returns that value |
| CxxResult.FromError | data-structures/include/cxx/result.hxx:142-147 | construction from a `cxx::error` clears the flag, and `error()` returns it |
| CxxResult.DeterminedByFlagAndValue | data-structures/include/cxx/result.hxx:96-166 | two results are equal exactly when their flags agree and, when set, their values do: every `cxx::error` compares equal |
| CxxSpan.Span.At | data-structures/include/cxx/span.hxx:295-299 | `s[index]` is element `index` of the viewed elements |
| CxxSpan.Span.Front | data-structures/include/cxx/span.hxx:301-304 | `front()` is `s[0]`, the first viewed element |
| CxxSpan.Span.Back | data-structures/include/cxx/span.hxx:306-309 | `back()` is `s[size() - 1]`, the last viewed element |
| CxxSpan.Span.Begin | data-structures/include/cxx/span.hxx:311-314 | `begin()` points at the first viewed element |
| CxxSpan.Span.End | data-structures/include/cxx/span.hxx:316-319 | `end()` points one past the last viewed element |
| CxxSpan.DefaultSpan | data-structures/include/cxx/span.hxx:228-233 | the default span is null and empty |
| CxxSpan.FromPointer | data-structures/include/cxx/span.hxx:235-240 | `span(ptr, count)` views `count` elements starting at `ptr` |
| CxxSpan.FromRange | data-structures/include/cxx/span.hxx:242-247 | `span(first, last)` starts at `first` and has `last - first` elements |
| CxxSpan.FromContainer | data-structures/include/cxx/span.hxx:249-270 | a span of a container starts at `data()` and has `size()` elements |
| CxxSpan.ContainerElements | data-structures/include/cxx/span.hxx:249-258 | the span of a whole container views exactly the container's elements |
| CxxSpan.SizeBytesCountsElements | data-structures/include/cxx/span.hxx:278-288 | `size_bytes()` is the element count times the element size, zero exactly when the span is empty |
| CxxSpan.Iterator.constructor | data-structures/include/cxx/span.hxx:98-102 | an iterator holds the pointer it was built from |
| CxxSpan.Iterator.At | data-structures/include/cxx/span.hxx:183-187 | `it[index]` is the element `index` places further |
| CxxSpan.Iterator.Increment | data-structures/include/cxx/span.hxx:114-118 | `++it` moves the pointer one element forward |
| CxxSpan.Iterator.Decrement | data-structures/include/cxx/span.hxx:127-131 | `--it` moves the pointer one element back |
| CxxSpan.Iterator.PostIncrement | data-structures/include/cxx/span.hxx:120-125 | `it++` returns the old position and moves forward |
| CxxSpan.Iterator.PostDecrement | data-structures/include/cxx/span.hxx:133-138 | `it--` returns the old position and moves back |
| CxxSpan.Iterator.AddAssign | data-structures/include/cxx/span.hxx:140-145 | `it += n` moves the pointer by `n` |
| CxxSpan.Iterator.SubAssign | data-structures/include/cxx/span.hxx:147-152 | `it -= n` moves the pointer back by `n` |
| CxxSpan.Iterator.Plus | data-structures/include/cxx/span.hxx:154-175 | `it + n` and `n + it` return a copy moved by `n` and leave `it` unchanged |
| CxxSpan.Iterator.Minus | data-structures/include/cxx/span.hxx:162-167 | `it - n` returns a copy moved back by `n` and leaves `it` unchanged |
| CxxSpan.IteratorOrder | data-structures/include/cxx/span.hxx:177-223 | the comparisons order iterators of one array by position, exactly one of `<`, `==`, `>` holds, and the difference is antisymmetric |
| CxxSpan.AdvanceAndBack | data-structures/include/cxx/span.hxx:140-152 | `it += n` then `it -= n` leaves the iterator where it was |
| CxxSpan.Traverse | data-structures/include/cxx/span.hxx:311-319 | `end() - begin()` is `size()`, and walking from `begin()` to `end()` with `++` visits exactly the viewed elements in order |
| CxxAllocator.Allocator.MaxSize | data-structures/include/cxx/allocator.hxx:108-121 | `max_size()` is the largest count whose byte size does not exceed `PTRDIFF_MAX` (when it has fewer digits than `SIZE_MAX`) or `SIZE_MAX` |
| CxxAllocator.Allocator.AllocationBytes | data-structures/include/cxx/allocator.hxx:75-91 | `allocate(count)` under its precondition `count <= max_size()` asks for `count * sizeof(T)` bytes, which neither exceed the bound nor wrap in `std::size_t` |
| CxxAllocator.AllocationFits | data-structures/include/cxx/allocator.hxx:76-121 | for every count the precondition admits, the byte count is within the bound and representable in `std::size_t` |
| CxxAllocator.AllocatorsInterchangeable | data-structures/include/cxx/allocator.hxx:124-138 | any two allocators compare equal, and `!=` is the negation of `==` |
| CxxAllocator.SixtyFourBitExample | data-structures/include/cxx/allocator.hxx:108-121 | with a 64-bit `ptrdiff_t` and `size_t`, `max_size()` of 8-byte elements is 2^60 - 1 |
| PoolAllocator.Remove | allocator/allocator.cpp:100-100 | `vector::erase` drops exactly the element at the index and keeps the others in order |
| PoolAllocator.MinIndex | allocator/allocator.cpp:88-97 | `std::min_element` by size yields the first block of least size |
| PoolAllocator.BestFit | allocator/allocator.cpp:93-97 | the corrected search yields the first free block of least size among those large enough, and nothing exactly when no free block is large enough |
| PoolAllocator.FindLeft | allocator/allocator.cpp:126-142 | the first free block that ends where the freed block starts, or none when no free block does |
| PoolAllocator.FindRight | allocator/allocator.cpp:134-146 | the first free block that starts where the freed block ends, or none when no free block does |
| PoolAllocator.AllocKeepsInvariant | allocator/allocator.cpp:99-114 | carving a block keeps the free list without adjacent pairs and without overlaps |
| PoolAllocator.AllocCovers | allocator/allocator.cpp:99-114 | after carving, the free bytes are exactly the old free bytes minus the carved block |
| PoolAllocator.BestFitBlockIsFree | allocator/allocator.cpp:93-116 | a block carved by best fit lies inside free memory and overlaps no block left in the free list |
| PoolAllocator.AllocAsWritten | allocator/allocator.cpp:86-117 | `Alloc` as written returns `size` bytes at the start of the smallest free block, whatever that block's size |
| PoolAllocator.AllocAsWrittenOverlapsFreeMemory | allocator/allocator.cpp:93-116 | with free blocks of 8 and 64 bytes, `Alloc(32)` as written returns 32 bytes at the 8-byte block that overlap the 64-byte block still free, where best fit picks the 64-byte block |
| PoolAllocator.FreedKeepsNoAdjacent | allocator/allocator.cpp:121-170 | `Free` keeps the invariant that no two free blocks are adjacent |
| PoolAllocator.FreedKeepsDisjoint | allocator/allocator.cpp:148-169 | freeing a block that overlaps no free block keeps the free blocks disjoint |
| PoolAllocator.FreedCovers | allocator/allocator.cpp:148-169 | after `Free`, the free bytes are exactly the old free bytes plus the freed block |
| PoolAllocator.FreedFacts | allocator/allocator.cpp:119-170 | the three guarantees of `Free` on the free list, gathered for one call |
| PoolAllocator.Allocator.Empty | allocator/allocator.cpp:40-46 | the default allocator has a null pool and no blocks |
| PoolAllocator.Allocator.constructor | allocator/allocator.cpp:48-55 | the sized allocator's pool, a non-null `malloc` result, is its one free block |
| PoolAllocator.Allocator.Move | allocator/allocator.cpp:62-71 | the move constructor takes the pool and both lists and leaves the source with none |
| PoolAllocator.Allocator.MoveAssign | allocator/allocator.cpp:73-84 | move assignment takes the pool and both lists and leaves the source with none; a self-move leaves nothing |
| PoolAllocator.Allocator.Alloc | allocator/allocator.cpp:86-117 | best-fit `Alloc` returns `size` bytes at the start of the chosen free block, records them as occupied, returns the remainder to the free list and keeps the invariant; the free bytes lose exactly the returned block |
| PoolAllocator.Allocator.Free | allocator/allocator.cpp:119-170 | `Free` merges the block into its left and/or right free neighbour or appends it, keeps no two free blocks adjacent, and adds exactly the block's bytes to the free memory |
| PoolAllocator.AllocFreeRoundTrip | allocator/allocator.cpp:172-183 | the program's run: `Alloc(32)` from a 128-byte pool and `Free` of that block leave the pool as one free block again |
| StackAlloc.StackAllocate | stack-alloc/stack-alloc.cxx:78-92 | `stack_alloc<T>(size)` demands `size > 0` and yields `size` new slots |
| StackAlloc.StackArray.Elements | stack-alloc/stack-alloc.cxx:105-107 | the elements of a stack array are the first `size()` slots, in push order |
| StackAlloc.StackArray.constructor | stack-alloc/stack-alloc.cxx:111-118 | a new stack array has `capacity` fresh slots, the given capacity and no elements |
| StackAlloc.StackArray.Size | stack-alloc/stack-alloc.cxx:130-133 | `size()` is the number of elements pushed so far and never exceeds `capacity()` |
| StackAlloc.StackArray.Push | stack-alloc/stack-alloc.cxx:140-152 | `push(value)` appends the value to the elements and increments `size()` |
| StackAlloc.StackArray.At | stack-alloc/stack-alloc.cxx:154-166 | `a[index]` demands `0 <= index < size()` and is the element pushed `index`-th |
| StackAlloc.StackArray.Set | stack-alloc/stack-alloc.cxx:154-159 | writing through the non-const `a[index]` replaces exactly that element |
| StackAlloc.SumOfOnes | stack-alloc/stack-alloc.cxx:194-196 | a sequence of ones sums to its length |
| StackAlloc.Accumulate | stack-alloc/stack-alloc.cxx:194-194 | `std::accumulate` from 0 over the first `count` slots computes their sum |
| StackAlloc.StackAllocTest | stack-alloc/stack-alloc.cxx:177-197 | the `stack_alloc` test returns true: `size` slots set to 1 sum to `size` |
| StackAlloc.StackArrayTest | stack-alloc/stack-alloc.cxx:199-213 | the `stack_array` test returns true: pushing `capacity` ones gives a sum equal to `size()` |
| CType.ClassListings | zlang/source/lexer.cxx:20-151 | `isspace`, `iscntrl`, `isdigit`, `isalpha` and `isalnum` in the C locale hold exactly for the standard white space, the ASCII characters that do not print, the ten digits, the 52 letters, and letters and digits |
| CType.PunctuationListing | zlang/source/lexer.cxx:96-111 | `ispunct` in the C locale holds exactly for the 32 punctuation characters of the basic character set |
| CType.RunEnd | zlang/source/lexer.cxx:56-67 | a `while (p(*it)) ++it` loop stops at the end of the maximal run of characters satisfying `p`: every character before it satisfies `p`, and the text ends there or the next one does not |
| CType.RunEndUnique | zlang/source/lexer.cxx:56-67 | any end of a maximal run is the one the loop reaches |
| ZlangScan.KeywordOf | zlang/source/lexer.cxx:69-88 | exactly `def`, `extern`, `if` and `else` are keywords, each its own |
| ZlangScan.KeywordOrIdentifier | zlang/source/lexer.cxx:69-88 | a name becomes its keyword token if it has one and an identifier holding the name otherwise |
| ZlangScan.NameEnd | zlang/source/lexer.cxx:56-67 | a name is a maximal `[a-zA-Z][a-zA-Z0-9]*` run: nothing alphanumeric follows it |
| ZlangScan.NumberEnd | zlang/source/lexer.cxx:117-138 | a number starting with a digit ends where no digit follows |
| ZlangScan.FractionEnd | zlang/source/lexer.cxx:142-158 | a number starting with `.` and a digit ends where no digit follows |
| ZlangScan.LexAt | zlang/source/lexer.cxx:179-196 | one token attempt consumes characters exactly when it yields a token, and stays within the text |
| ZlangScan.Scan | zlang/source/lexer.cxx:170-197 | one `lex()` never moves backwards and stays within the text |
| ZlangScan.NameTokens | zlang/source/lexer.cxx:54-94 | a name token is a maximal `[a-zA-Z][a-zA-Z0-9]*`, a keyword token exactly when the name is in the keyword table, and otherwise an identifier holding the name |
| ZlangScan.DigitNumberShape | zlang/source/lexer.cxx:115-140 | a number starting with a digit matches `[0-9]+[.]?[0-9]*` |
| ZlangScan.FractionNumberShape | zlang/source/lexer.cxx:142-157 | a number starting with `.` matches `[.][0-9]+` |
| ZlangScan.LiteralTokens | zlang/source/lexer.cxx:113-168 | every literal token holds the text it was read from, matches `([0-9]+[.]?[0-9]*)\|([.][0-9]+)` and is not followed by a digit |
| ZlangScan.LoneDotIsOperator | zlang/source/lexer.cxx:142-163 | a `.` that no digit follows is not a number and becomes a one-character operator |
| ZlangScan.OperatorTokens | zlang/source/lexer.cxx:96-111 | an operator token is the one punctuation character at the position |
| ZlangScan.ScanFails | zlang/source/lexer.cxx:170-197 | `lex()` yields no token only at the end of the text or at a character that is neither alphanumeric nor punctuation |
| ZlangScan.CommentSpan | zlang/source/lexer.cxx:32-52 | a comment consumes the `#` and everything up to, not including, the next line break or the end |
| ZlangScan.ExampleKeywordCommentNumber | zlang/source/lexer.cxx:170-197 | `if#c\n.5.` lexes as the keyword `if`, the literal `.5` after the skipped comment, and the operator `.` |
| ZlangScan.ExampleIdentifierOperatorNumber | zlang/source/lexer.cxx:170-197 | `x1+2.` lexes as the identifier `x1`, the operator `+` and the literal `2.` |
| ZlangLexer.Lexer.constructor | zlang/source/lexer.cxx:13-18 | a new lexer stands at the first character of its text |
| ZlangLexer.Lexer.SkipWhitespaceAndControlChars | zlang/source/lexer.cxx:20-30 | the lexer moves past exactly the maximal run of whitespace and control characters |
| ZlangLexer.Lexer.IgnoreComment | zlang/source/lexer.cxx:32-52 | it reports a comment exactly when the current character is `#`, and then moves to the next line break or the end; otherwise it does not move |
| ZlangLexer.Lexer.LexKeywordOrIdentifier | zlang/source/lexer.cxx:54-94 | at a letter it consumes the maximal name and returns its keyword or identifier token; elsewhere it returns nothing and does not move |
| ZlangLexer.Lexer.LexOperator | zlang/source/lexer.cxx:96-111 | at a punctuation character it consumes it as an operator token; elsewhere it returns nothing and does not move |
| ZlangLexer.Lexer.LexDigits | zlang/source/lexer.cxx:122-126 | the digit loop consumes the maximal run of digits and appends them to the literal text |
| ZlangLexer.Lexer.LexDigitsDotDigits | zlang/source/lexer.cxx:117-138 | the first branch of `lex_number()` consumes digits, an optional `.`, digits, and returns exactly the text consumed |
| ZlangLexer.Lexer.LexNumber | zlang/source/lexer.cxx:113-168 | `lex_number()` reads the maximal number at a digit or at a `.` followed by a digit, and otherwise returns nothing and does not move |
| ZlangLexer.Lexer.Lex | zlang/source/lexer.cxx:170-197 | `lex()` returns the token and stops at the position the grammar `Scan` prescribes |
| ZlangLexer.LexTwoTokens | zlang/source/lexer.cxx:170-197 | lexing `def f` yields the keyword `def`, the identifier `f`, and then no token |
| ZlangLegacyLexer.Lexer.constructor | zlang/Lexer.cpp:15-20 | a new lexer owns its code and stands at its first character |
| ZlangLegacyLexer.Lexer.SkipWhitespacesAndControlCodes | zlang/Lexer.cpp:25-35 | the lexer moves past exactly the maximal run of whitespace and control characters |
| ZlangLegacyLexer.Lexer.IgnoreComment | zlang/Lexer.cpp:37-57 | it reports a comment exactly when the current character is `#`, and then moves to the next line break or the end; otherwise it does not move |
| ZlangLegacyLexer.Lexer.ParseKeywordOrIdentifier | zlang/Lexer.cpp:59-99 | at a letter it consumes the maximal name and returns a new KEYWORD or IDENTIFIER token for it; elsewhere an INVALID token, without moving |
| ZlangLegacyLexer.Lexer.ParseOperator | zlang/Lexer.cpp:101-116 | at a punctuation character it returns a new OPERATOR token for it and moves one past; elsewhere an INVALID token, without moving |
| ZlangLegacyLexer.Lexer.ParseDigits | zlang/Lexer.cpp:127-131 | the digit loop consumes the maximal run of digits and appends them to the number's text |
| ZlangLegacyLexer.Lexer.ParseDigitsDotDigits | zlang/Lexer.cpp:122-143 | the first branch of `parseNumber()` consumes digits, an optional `.`, digits, and returns exactly the text consumed |
| ZlangLegacyLexer.Lexer.ParseNumber | zlang/Lexer.cpp:118-173 | `parseNumber()` returns a LITERAL token for the maximal number at a digit or at a `.` followed by a digit, and otherwise an INVALID token without moving |
| ZlangLegacyLexer.Lexer.TokenizeNext | zlang/Lexer.cpp:175-202 | `TokenizeNext()` returns the token, INVALID for none, and stops at the position the grammar `Scan` prescribes, so it agrees with `zlang::lexer::lex()` |
| ZlangToken.Token.OfInvalid | zlang/Token.cpp:43-48 | `Token(INVALID)` demands the INVALID tag and has no value |
| ZlangToken.Token.OfKeyword | zlang/Token.cpp:50-56 | `Token(KEYWORD, k)` demands the KEYWORD tag and holds the keyword `k` |
| ZlangToken.Token.OfLiteral | zlang/Token.cpp:58-64 | `Token(LITERAL, v)` demands the LITERAL tag and holds the literal `v` |
| ZlangToken.Token.OfIdentifier | zlang/Token.cpp:66-72 | `Token(IDENTIFIER, name)` demands the IDENTIFIER tag and holds the name |
| ZlangToken.Token.OfOperator | zlang/Token.cpp:74-80 | `Token(OPERATOR, c)` demands the OPERATOR tag and holds the character |
| ZlangToken.Token.Copy | zlang/Token.cpp:107-144 | the copy constructor yields a token with the same tag and payload |
| ZlangToken.Token.Move | zlang/Token.cpp:146-185 | the move constructor takes the source's tag and payload and leaves the source INVALID |
| ZlangToken.Token.CopyAssign | zlang/Token.cpp:187-226 | copy assignment gives this token the other's tag and payload |
| ZlangToken.Token.MoveAssign | zlang/Token.cpp:228-268 | move assignment takes the other's tag and payload and leaves the other INVALID; because the source's tag is cleared first, a token moved into itself ends INVALID |
| ZlangToken.Token.Print | zlang/Token.cpp:275-312 | `operator <<` prints the tag's 14-character label. An INVALID token prints nothing more. Any other token adds a space and then its value: the keyword's spelling, the literal, the name or the character |
| ZlangToken.PrintDeterminesValue | zlang/Token.cpp:275-312 | two tokens that print the same text hold the same value |
| ZlangToken.ValidMeansValue | zlang/Token.cpp:270-273 | `operator bool` is true exactly when the token has a payload |
| ZlangToken.KeywordText | zlang/Token.cpp:9-41 | every keyword prints as a non-empty spelling |
| ZlangToken.KeywordTextRoundTrip | zlang/Token.cpp:9-41 | each keyword's printed spelling is the one name the lexers recognise as that keyword |
| ZlangToken.PrintedTagRecoverable | zlang/Token.cpp:275-312 | the five labels are distinct, so a printed token's tag can be read back from its first 14 characters |
| ZlangToken.CopyThenMove | zlang/Token.cpp:107-268 | a copy holds the source's value, moving empties the source, and moving back restores the value |
| GameboyInstruction.MnemonicOf | gameboy/include/gameboy/Instruction.h:87-405 | each instruction struct's constructor fixes its mnemonic: every load is LD, both widths of ADD, INC and DEC share theirs, and every other struct has its own |
| GameboyInstruction.Index | gameboy/include/gameboy/Instruction.h:407-430 | `AnyInstruction::index()` is one of the 21 alternative positions |
| GameboyInstruction.Representative | gameboy/include/gameboy/Instruction.h:407-430 | every one of the 21 positions holds an alternative |
| GameboyInstruction.TwentyOneAlternatives | gameboy/include/gameboy/Instruction.h:407-430 | the variant has exactly 21 alternatives, and instructions of one alternative carry the same mnemonic |
| GameboyAlu.Registers.Set | gameboy/include/gameboy/ArithmeticLogicUnit.h:25-28 | assignment through a register reference changes that register and no other |
| GameboyAlu.ExecuteLoad | gameboy/include/gameboy/ArithmeticLogicUnit.h:25-28 | `Execute(LoadReg8Reg8&)` gives the destination the source's value and leaves the other registers unchanged |
| GameboyAlu.Execute | gameboy/include/gameboy/ArithmeticLogicUnit.h:11-58 | the visiting `Execute` runs the register-to-register load and, for NOP and the overloads whose bodies are commented out, changes no register |
| GameboyAlu.CopyAccumulator | gameboy/include/gameboy/ArithmeticLogicUnit.h:25-28 | `LD B,A` then `LD C,B` copies A into B and C and leaves A unchanged |
| GameboyDecoder.RegisterAt | gameboy/include/gameboy/InstructionDecoder.h:46-282 | the register field 0 to 7 names B, C, D, E, H, L, (HL), A; 6 names memory, which is not decoded |
| GameboyDecoder.Code | gameboy/include/gameboy/InstructionDecoder.h:46-282 | every register's field value is not 6 and names that register |
| GameboyDecoder.EncodeDecodedLow | gameboy/include/gameboy/InstructionDecoder.h:38-76 | every byte of rows 0x0x to 0x3x the switch decodes is the opcode of its instruction |
| GameboyDecoder.EncodeDecodedLoad | gameboy/include/gameboy/InstructionDecoder.h:78-282 | every byte of rows 0x4x to 0x7x the switch decodes is the opcode of its instruction |
| GameboyDecoder.EncodeDecodedAlu | gameboy/include/gameboy/InstructionDecoder.h:284-538 | every byte of rows 0x8x to 0xBx the switch decodes is the opcode of its instruction |
| GameboyDecoder.EncodeDecoded | gameboy/include/gameboy/InstructionDecoder.h:34-611 | every decoded byte is the opcode of the instruction it decodes to |
| GameboyDecoder.DecodeEncodedAlu | gameboy/include/gameboy/InstructionDecoder.h:284-538 | each 8-bit arithmetic or logic instruction on A decodes back from its opcode |
| GameboyDecoder.DecodeEncoded | gameboy/include/gameboy/InstructionDecoder.h:34-611 | every instruction the decoder can produce decodes back from its opcode, so decoding is injective on the decoded bytes |
| GameboyDecoder.LowRowsAgree | gameboy/include/gameboy/InstructionDecoder.h:14-76 | on rows 0x0x to 0x3x the switch decodes exactly the cells the header's opcode map marks |
| GameboyDecoder.LoadRowsAgree | gameboy/include/gameboy/InstructionDecoder.h:14-282 | on rows 0x4x to 0x7x the switch decodes exactly the marked cells |
| GameboyDecoder.AluRowsAgree | gameboy/include/gameboy/InstructionDecoder.h:14-538 | on rows 0x8x to 0xBx the switch decodes exactly the marked cells |
| GameboyDecoder.HighRowsAgree | gameboy/include/gameboy/InstructionDecoder.h:14-611 | no byte from 0xC0 is decoded, as the empty rows of the map show |
| GameboyDecoder.DecodesExactlyTheMap | gameboy/include/gameboy/InstructionDecoder.h:14-611 | a byte is decoded exactly when the header's opcode map marks it |
| GameboyDecoder.RegisterFields | gameboy/include/gameboy/InstructionDecoder.h:78-538 | rows 0x40 to 0x7F load the register in bits 5..3 from the one in bits 2..0, rows 0x80 to 0xBF operate on A and the register in bits 2..0, and field value 6 is never decoded |
| GameboyDecoder.AluOrder | gameboy/include/gameboy/InstructionDecoder.h:284-538 | bits 5..3 of rows 0x80 to 0xBF choose ADD, ADC, SUB, SBC, AND, XOR, OR, CP in that order |
| GameboyDecoder.LowRows | gameboy/include/gameboy/InstructionDecoder.h:46-603 | `0x06 + 8k` is the immediate load with placeholder 0xff, `0x04 + 8k` INC and `0x05 + 8k` DEC of register k |
| GameboyDecoder.NotDecoded | gameboy/include/gameboy/InstructionDecoder.h:38-611 | 0x00 is NOP, while 0x70 to 0x77 and every byte from 0xC0 reach the `assert(false)` |
| Ieee754.Sign | ieee754-float.cpp:43-43 | the sign field is bit 31, a single bit |
| Ieee754.ExponentBias | ieee754-float.cpp:44-44 | the biased exponent is bits 30..23, at most 0xFF |
| Ieee754.Fraction | ieee754-float.cpp:45-45 | the fraction is bits 22..0, at most 0x7FFFFF |
| Ieee754.FieldsRoundTrip | ieee754-float.cpp:32-45 | the three fields partition the 32-bit pattern: splitting and recomposing is the identity in both directions |
| Ieee754.FloatType | ieee754-float.cpp:43-72 | each class holds exactly for its field values: zeros and infinities by sign, subnormals and NaNs by a non-zero fraction, normal numbers for exponents 1 to 0xFE |
| Ieee754.Negation | ieee754-float.cpp:47-72 | flipping the sign bit swaps the signed zeros and infinities and keeps every other class |
| Ieee754.KnownValues | ieee754-float.cpp:89-102 | the patterns of the values `main` checks fall in the classes it expects |
| Metaprogramming.AbsAsWritten | metaprogramming/metaprogramming.cpp:8-21 | `Abs<N>` and `abs(n)` as written, guarded against INT_MAX, return `n` or `-n`, whichever is not negative |
| Metaprogramming.AbsGuardAdmitsOverflow | metaprogramming/metaprogramming.cpp:11-20 | the guard admits INT_MIN, whose absolute value does not fit in `int`, and rejects INT_MAX, whose absolute value does |
| Metaprogramming.Abs | metaprogramming/metaprogramming.cpp:8-21 | `abs` guarded against INT_MIN returns an `int` that is `n` or `-n` and not negative |
| Metaprogramming.AbsProperties | metaprogramming/metaprogramming.cpp:13-20 | the absolute value is at least `n` and `-n`, ignores the sign and is zero only for zero |
| Metaprogramming.AbsExamples | metaprogramming/metaprogramming.cpp:190-194 | `Abs<-9>` and `abs(-9)` are 9, `Abs<+7>` and `abs(+7)` are 7 |
| Metaprogramming.PowerAdd | metaprogramming/metaprogramming.cpp:25-45 | `Power` adds exponents: `Power<b, m + n>` is `Power<b, m> * Power<b, n>` |
| Metaprogramming.Power | metaprogramming/metaprogramming.cpp:25-45 | `Power<Base, Exponent>` needs a non-negative exponent and, for exponent 0, a non-zero base; a zero base gives 0 and a positive base a positive value |
| Metaprogramming.PowerSign | metaprogramming/metaprogramming.cpp:25-45 | negating the base negates the value for odd exponents only and keeps it for even ones |
| Metaprogramming.PowerExamples | metaprogramming/metaprogramming.cpp:196-200 | `Power<2,8>` is 256, `Power<-5,3>` is -125, `Power<0,3>` is 0, `Power<3,0>` is 1 and `Power<11,1>` is 11 |
| Concepts.Xor32 | concepts/concepts.cpp:223-225 | `^` on `uint32_t` is the bitwise exclusive or, which stays within 32 bits |
| Concepts.XorCancels | concepts/concepts.cpp:221-226 | exclusive or with the same value twice restores the original, which makes the three-XOR swap exchange two values |
| Concepts.XorSelf | concepts/concepts.cpp:221-226 | a value exclusive-ored with itself is zero, which is what the three-XOR swap leaves when both arguments are one object |
| Concepts.XorSymmetric | concepts/concepts.cpp:221-226 | exclusive or is symmetric |
| Concepts.Swap | concepts/concepts.cpp:58-64 | `concepts::swap` exchanges the two values |
| Concepts.Bar.constructor | concepts/concepts.cpp:209-211 | a `Bar` holds the 32-bit value it was built from |
| Concepts.BarSwap | concepts/concepts.cpp:221-226 | `bar::swap` exchanges the values of two distinct objects and clears the value when given one object twice |
| Concepts.Max | concepts/concepts.cpp:86-99 | `max` is at least both arguments and is one of them, the right one when they are not ordered the other way |
| Concepts.Accumulate | concepts/concepts.cpp:116-166 | `reduce<E...>::value` and `accumulate(e...)`, which add the first element to the result for the rest, compute the sum of the pack |
| Concepts.Examples | concepts/concepts.cpp:251-280 | `reduce<8, 6, 2, 7>` and `accumulate(8, 6, 2, 7)` are 23, `max(2, 4)` is 4 and `max(Bar{54}, Bar{34})` is `Bar{54}` |
| Concepts.Swapped | concepts/concepts.cpp:197-200 | exchanging two positions swaps their values, keeps the others and keeps the multiset of values |
| Concepts.InnerStep | concepts/concepts.cpp:190-201 | one inner iteration keeps the inner-loop invariant of the nested-loop sort |
| Concepts.InnerEnd | concepts/concepts.cpp:188-202 | a finished inner loop extends the sorted prefix by one value that is a maximum of the rest |
| Concepts.XorSwap | concepts/concepts.cpp:197-200 | the XOR swap of two distinct elements of the container exchanges exactly those two |
| Concepts.Sort | concepts/concepts.cpp:186-203 | `sort(container)` leaves the container in ascending order and a permutation of its input; an element is never XOR-swapped with itself |
| Concepts.SortExample | concepts/concepts.cpp:282-285 | the container 123, 53, 421, 7, 112 of `main` is sorted to 7, 53, 112, 123, 421 |
| Concepts.SwapExamples | concepts/concepts.cpp:235-249 | `swap` exchanges 1 and 2, and `bar::swap` exchanges `Bar{47}` and `Bar{31}`, as `main` checks |
| ConceptsLite.Accumulate | concepts-lite.cpp:115-140 | `accumulate` with the empty-pack overload gives 0 for no elements and the sum for any pack, agreeing with the version without that overload on non-empty packs |
| ConceptsLite.Reduce | concepts-lite.cpp:76-92 | `reduce<E...>::value` over `uint8_t` promotes the elements to `int` and is their sum, between 0 and 255 per element, so it cannot wrap |
| ConceptsLite.Examples | concepts-lite.cpp:226-227 | `reduce<8, 6, 2, 7>` and `accumulate(8, 6, 2, 7)` are 23, and `accumulate()` is 0 |
| ConceptsLite.Sort | concepts-lite.cpp:159-176 | `sort(container)` with the three-move `swap` leaves the container in ascending order and a permutation of its input |
| UtilVec.Slot | util/include/util/vec.h:49-83 | each of the twenty member names belongs to exactly one of the four unions: x/r/s/red/width, g/y/t/green/height, b/z/p/blue/depth, a/w/q/alpha/time |
| UtilVec.Vector4.Default | util/include/util/vec.h:85-92 | `Vector4()` value-initializes all four components |
| UtilVec.Vector4.constructor | util/include/util/vec.h:94-106 | `Vector4(x, y, z, w)` stores the four arguments in order |
| UtilVec.Vector4.At | util/include/util/vec.h:108-128 | the const `operator[]` requires 0 <= index <= 3 and yields the component at that position |
| UtilVec.Vector4.Get | util/include/util/vec.h:49-83 | every name of a union reads the component of that union |
| UtilVec.Vector4.Assign | util/include/util/vec.h:130-150 | a write through the non-const `operator[]` sets that position and leaves the other three unchanged |
| UtilVec.Vector3.Default | util/include/util/vec.h:202-208 | `Vector3()` value-initializes all three components |
| UtilVec.Vector3.constructor | util/include/util/vec.h:210-220 | `Vector3(x, y, z)` stores the three arguments in order |
| UtilVec.Vector3.At | util/include/util/vec.h:222-238 | the const `operator[]` requires 0 <= index <= 2 and yields the component at that position |
| UtilVec.Vector3.Get | util/include/util/vec.h:175-200 | every name of the three unions reads the component of that union |
| UtilVec.Vector3.Assign | util/include/util/vec.h:240-256 | a write through the non-const `operator[]` sets that position and leaves the other two unchanged |
| UtilVec.Vector2.Default | util/include/util/vec.h:299-304 | `Vector2()` value-initializes both components |
| UtilVec.Vector2.constructor | util/include/util/vec.h:306-314 | `Vector2(x, y)` stores the two arguments in order |
| UtilVec.Vector2.At | util/include/util/vec.h:316-328 | the const `operator[]` requires 0 <= index <= 1 and yields the component at that position |
| UtilVec.Vector2.Get | util/include/util/vec.h:281-297 | every name of the two unions reads the component of that union |
| UtilVec.Vector2.Assign | util/include/util/vec.h:330-342 | a write through the non-const `operator[]` sets that position and leaves the other unchanged |
| UtilVec.AssignThroughAlias | util/include/util/vec.h:49-83 | a write to `v.r` is read back as `v.x`, `v.red` and `v.width`, and no other component changes |
| Util.AndNonZero | util/include/util/util.h:68-72 | bitwise AND is non-zero exactly when some bit is set in both operands |
| Util.IsAnyBitSet | util/include/util/util.h:68-72 | `IsAnyBitSet(mask, pattern)` holds exactly when mask and pattern share a set bit |
| Util.IsAnyBitSetMeaning | util/include/util/util.h:68-72 | `IsAnyBitSet` is symmetric in its arguments and false against 0 |
| Util.IsAnyBitSetExamples | util/include/util/util.h:61-67 | the header's two examples: 0b00111010 against 0b11010100 is true, and against 0b11000100 it is false |
| Util.LittleEndianRoundTrip | util/include/util/util.h:46-54 | reading bytes as a little-endian value and storing that value back gives the same bytes |
| Util.BytesOfRoundTrip | util/include/util/util.h:46-54 | storing a value that fits in n bytes and reading it back gives the value |
| Util.ReinterpretBytes | util/include/util/util.h:46-54 | there must be exactly `sizeof(Type)` bytes (otherwise `None`); the value read fits the type and is stored as exactly those bytes |
| Util.ReinterpretStoredValue | util/include/util/util.h:46-54 | a value stored in `sizeof(Type)` bytes is read back as itself |
| ClInfo.StringFromBytes | cl/source/Device.cpp:43-50 | the string is the bytes before the first NUL, each read as a character |
| ClInfo.StringFromBytesRoundTrip | cl/source/Device.cpp:43-50 | a string without NUL, stored with a terminating NUL and anything after it, reads back as itself |
| ClInfo.FieldEnd | cl/source/Device.cpp:52-66 | a field ends at the next delimiter or at the end of the string |
| ClInfo.FieldsExcludeDelimiter | cl/source/Device.cpp:52-66 | no token that `Split` produces contains the delimiter |
| ClInfo.FieldsJoin | cl/source/Device.cpp:52-66 | joining the tokens with the delimiter gives back the string, except for a trailing delimiter that `getline` drops |
| ClInfo.GetLine | cl/source/Device.cpp:58-63 | one `getline` takes the next field as its token and moves the stream past the delimiter |
| ClInfo.Split | cl/source/Device.cpp:52-66 | the `getline` loop pushes exactly the fields of the string, in order |
| ClInfo.SplitEmptyExamples | cl/source/Device.cpp:52-66 | an empty string gives no token, and a lone delimiter gives one empty token |
| ClInfo.SplitAdjacentExample | cl/source/Device.cpp:52-66 | two adjacent delimiters give an empty token between them |
| ClInfo.SplitTrailingExample | cl/source/Device.cpp:52-66 | a trailing delimiter opens no token |
| ClInfo.ProfileOf | cl/source/Device.cpp:86-106 | a profile is recognised only from its own name, and a name that is no profile's is not recognised |
| ClInfo.ProfileRoundTrip | cl/source/Device.cpp:86-106 | "FULL_PROFILE" and "EMBEDDED_PROFILE" are recognised, each as its own profile, and no other name is |
| ClInfo.ProfileFromBytes | cl/source/Platform.cpp:92-112 | a profile is returned only when the string is its name; any other string fails the `assert(false)` |
| ClInfo.UnsignedValue | cl/source/Device.cpp:119-123 | a `%u` conversion stores the number modulo 2^32, negated modulo 2^32 after a minus sign |
| ClInfo.ScanUnsigned | cl/source/Device.cpp:119-123 | a `%u` conversion needs at least one digit; it ends after the last digit of the run and stores a value below 2^32 |
| ClInfo.ScanPair | cl/source/Device.cpp:188-191 | `%u.%u` converts two numbers below 2^32 and ends after the second |
| ClInfo.ScanVersion | cl/source/Device.cpp:108-130 | a parse succeeds only for strings that start with "OpenCL" and yields two numbers below 2^32 |
| ClInfo.VersionRoundTrip | cl/source/Platform.cpp:114-136 | the text `OpenCL <major>.<minor> <info>` parses back to the same version when the info does not start with white space |
| ClInfo.VersionWithInfoExample | cl/source/Device.cpp:108-130 | "OpenCL 1.2 CUDA" parses to 1, 2 and info "CUDA" |
| ClInfo.VersionWithoutSpaceExample | cl/source/Device.cpp:108-130 | "OpenCL3.0" parses to 3, 0 and an empty info, because white space in the format also matches none |
| ClInfo.VersionRejectedExamples | cl/source/Device.cpp:108-130 | "OpenCL 1 .2" and "OpenCL C 1.2" fail the `argsParsedCount == 2` assert |
| ClInfo.VersionFromBytes | cl/source/Platform.cpp:114-136 | a version is read only from bytes that spell "OpenCL" before the terminating NUL, and both its numbers fit in `uint32_t` |
| ClInfo.VersionFromBytesRoundTrip | cl/source/Platform.cpp:114-136 | a version written out as a NUL-terminated byte string is read back by the `CL_*_VERSION` parser |
| ClInfo.ExtensionsFromBytes | cl/source/Device.cpp:154-165 | the extensions are the space-separated fields of the string, and none of them contains a space |
| ClDevice.TypeFromBytes | cl/source/Device.cpp:75-84 | there must be exactly eight bytes; the device type read is below 2^64 and is stored as exactly those bytes |
| ClDevice.TypeRoundTrip | cl/source/Device.cpp:75-84 | every 64-bit device type is read back from the eight bytes that store it |
| ClDevice.VendorIdFromBytes | cl/source/Device.cpp:167-176 | there must be exactly four bytes; the vendor id read is below 2^32 and is stored as exactly those bytes |
| ClDevice.VendorIdRoundTrip | cl/source/Device.cpp:167-176 | every 32-bit vendor id is read back from the four bytes that store it |
| ClDevice.DriverVersionFromBytes | cl/source/Device.cpp:178-195 | the parse succeeds exactly when `%u.%u` converts two numbers; the info stays empty |
| ClDevice.ScanDriverVersionText | cl/source/Device.cpp:188-191 | `<major>.<minor>` followed by text that does not start with a digit is read as those two numbers |
| ClDevice.DriverVersionRoundTrip | cl/source/Device.cpp:178-195 | a driver version written out as a NUL-terminated byte string is read back with an empty info |
| ClDevice.DriverVersionThreePartExample | cl/source/Device.cpp:188-191 | "470.57.02" is read as 470 and 57 |
| ClDevice.DriverVersionRejectedExample | cl/source/Device.cpp:188-191 | "OpenCL 1.2" does not start with a number, so it fails the assert |

## Left out

- **llvm-ir/make.py:**
  - subprocess execution is an oracle: the command line is logged and its exit status comes from a function fixed when the host is created;
  - `os.uname()` is reduced to an `isDarwin` flag;
  - the command-line parsing of `parse_args` (argparse) and the `print` of every step are not modelled;
  - `mkdir(exist_ok=True)` is a set insertion.
- LlvmMake.Host.Build: for a target that is not buildable, the contract says only that the `AssertionError` comes before any started command failed. It does not say which source's check raised it.
- **iota.hxx, `++`/`--`/`+=` on signed element types:** signed overflow is undefined behaviour in C++. The model wraps modulo 2^bits, and the contracts only promise exact results when the value stays representable.
- **Trivial operators:** the `!=` of `chunk_evenly_view`'s iterator and the `*it` of `iota_view`'s iterator are field reads and are not given members of their own.
- **span.hxx:**
  - `rbegin`/`rend` (reverse iterators) are not modelled;
  - `size_bytes` is computed on unbounded integers, so a `size_t` wrap of `sizeof(T) * size()` is not modelled.
- **Pointers and heap:**
  - `operator new`/`delete` and `alloca` are allocation of Dafny objects and arrays;
  - deallocation is recorded in a `deleted` log rather than freeing anything;
  - writes through returned references (`front()`, `value()`, `operator[]`) are modelled by separate assigning methods.
- **result.hxx:** the `static_assert` that the value type differs from `cxx::error` is a compile-time check, and is not modelled.
- **allocator.cpp:** `malloc` is a parameter, the address of the pool.
- PoolAllocator.Allocator.Free: keeps the freed block in `occupiedBlocks`, as the source does, so the occupied list is not tied to the free list.
- PoolAllocator.Allocator.Alloc: the source reads the erased iterator after `vector::erase` (undefined behaviour); the model reads the chosen block before removing it.
- PoolAllocator.Allocator.Alloc: requires a free block of at least `size` bytes. With an empty free list the source dereferences `end()`, which is undefined behaviour; with no block large enough, see Findings.
- StackAlloc.StackArray.Push: requires `size < capacity`. The source writes past the slots without a check, which is undefined behaviour.
- Metaprogramming.Power: computed on unbounded integers; `int` overflow in `Power<Base, Exponent>` (ill-formed in a constant expression) is not modelled.
- **zlang:** number literals are kept as their digit text; `std::stof`/`std::stod` conversion to floating point is not modelled.
- ZlangToken.Token.Copy: the union's `std::string` member is assigned without first being constructed (zlang/Token.cpp:107-144), which is undefined behaviour; the model treats every union member as a live field and promises only the resulting value.
- ZlangToken.Token.Move: as for Copy, the string member is move-assigned without being constructed (zlang/Token.cpp:146-185); this undefined behaviour is not modelled.
- ZlangToken.Token.CopyAssign: assigns into the string member even when this token did not hold an IDENTIFIER (an unconstructed string, undefined behaviour), and never destroys the old string when the other token's tag is not IDENTIFIER (a leak); neither is modelled.
- ZlangToken.Token.MoveAssign: the same unconstructed-string assignment and leak as CopyAssign (zlang/Token.cpp:228-268) are not modelled.
- ZlangToken.CopyThenMove: the round trip goes through Copy and Move, so it holds for the model's live-field union, not for the undefined behaviour described above.
- ZlangToken.PrintDeterminesValue: holds because literals are kept as digit text. The source prints `literalValue` as a `double` with six significant digits (zlang/Token.cpp:291), so two literals such as `1.0000001` and `1.0000002` print the same text while holding different values.
- **Game Boy:**
  - `gameboy/include/gameboy/Registers.h` and `Memory.h` are not part of this model. `GameboyAlu.Registers` is a register file with one field per 8-bit register.
  - The `Execute` overloads whose bodies are commented out (immediate and memory loads, ADD, SUB, ADC, SBC) change nothing.
  - The decoder's register-file argument only binds references and is not an input of the model.
- GameboyDecoder.Decode: an opcode the switch does not list hits `assert(false)`. The source then returns `NoOperation` when asserts are compiled out; the model returns `None`.
- **ieee754-float.cpp:** reinterpreting a `float` as `uint32_t` is not modelled; the bit pattern is the input.
- **concepts.cpp and concepts-lite.cpp:**
  - `invoke` and the floating-point calls of `max` are not modelled;
  - `max` and the XOR `swap` of `bar::Bar` in concepts-lite.cpp are `Concepts.Max` and `Concepts.BarSwap`, which are the same code.
- **util/vec.h:** `ElemType{}` is passed to the default constructors as the element type's zero.
- **util.h, ReinterpretBytes:**
  - reads the bytes as an unsigned scalar on a little-endian host;
  - signed and floating-point scalar types and big-endian hosts are not modelled.
- ClInfo.StringFromBytes: requires a NUL among the bytes. OpenCL info strings always end in one, and without it the source reads past the vector (undefined behaviour).
- ClInfo.UnsignedValue: a `%u` conversion of a number beyond `unsigned long`, which `strtoul` clamps, is modelled modulo 2^32 like smaller numbers.
- **OpenCL text handling:**
  - characters are the byte values 0 to 255;
  - locale-dependent white space is the C locale's;
  - `%n` is the end of the white space after the minor number.
- **OpenCL API calls:**
  - `GetPlatforms` and the `clGet*Info` calls behind `FromBytes` are calls into the OpenCL runtime, and are not modelled;
  - the Name and Vendor parsers of both files are `ClInfo.StringFromBytes` itself.

## Findings

| source | as written | input that shows it | evidently intended | confidence | as-written member | corrected member |
|---|---|---|---|---|---|---|
| metaprogramming/metaprogramming.cpp:11-20 | `Abs<N>` and `abs(n)` reject `INT_MAX` and return `-n` otherwise | `n = INT_MIN`: `-n` overflows `int`, while `INT_MAX` is rejected although its absolute value fits | reject `INT_MIN`, the only input whose absolute value does not fit | high; not executed | Metaprogramming.AbsGuardAdmitsOverflow | Metaprogramming.Abs |
| allocator/allocator.cpp:93-116 | `Alloc(size)` takes the smallest free block overall, whatever its size | free blocks of 8 bytes at 100 and 64 bytes at 116, `Alloc(32)`: 32 bytes at 100 are returned, overlapping the free block at 116 | best fit: the smallest free block that is at least `size` bytes | high; not executed | PoolAllocator.AllocAsWrittenOverlapsFreeMemory | PoolAllocator.BestFit |
| adt/handle.cpp:123-131 | `destroy()` clears `created`, then calls `get()->~value_type()` | any created handle: `get()` is already `nullptr`, so the destructor is called through a null pointer and the stored value is never destroyed; `create`, the assignments, the move constructor and `~handle` all reach this | run the destructor through `get()` first, then clear `created` | high; not executed | AdtHandle.DestroyAsWrittenNeverDestroys | AdtHandle.Handle.Destroy |
