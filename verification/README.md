# A verified model of the ternary stack

This project models three parts of the repository and proves properties of them.

* **The ternary machine and its loader.** Balanced-ternary words, the 27-trit instruction
  encoding, packed memory, the register file, the simulator, and the kernel table that relocates
  jump targets. Word arithmetic is proved for words of n trits and used at 27, 54, 12, 6 and 3. The
  simulator classes are proved, instruction by instruction and over whole runs, to follow an integer
  machine (`Machine`) whose registers and cells are plain integers with wrap-around. On that machine
  the relocation theorem says that one blob installed at two addresses runs in lockstep while each
  step stays in the blob and its data and stack avoid the code; blobs that satisfy this by
  inspection relocate with no condition on their runs. What the instructions mean is fixed by laws
  between them: subroutines come back over whole runs with the stack as it was (`CallStack`), and
  what one instruction does another undoes, reads back or complements (`InstructionLaws`).
* **The timing model.** The age-stamped cache is proved to be a move-to-front stack, so an access
  hits exactly by reuse distance; misses never grow with associativity; the hierarchy's miss
  registers have an exact earliest-issue and an exact monotonicity condition, and its latencies an
  exact reachability condition; the gshare predictor has exact and worst-case costs, with history and
  without; and the in-order pipeline is RAW-safe, accounts for every issue cycle, and has no timing
  anomaly. The operands it declares for an instruction are those the machine uses (`Operands`).
* **The packed-trit products.** Four matrix-vector kernels, the INT4 tensor-core pair, the storage
  converter, the hybrid dispatch and the host product with the kernel calls it stands for all compute
  one integer inner product, lane by lane and layout by layout (the lossy INT4 kernel, that of the
  clamped activations).

Layout: `Trits`, `Words`, `Positional`, `Packing`, `Isa` (numbers and encodings); `Machine`,
`Vectors`, `InstructionLaws` (in `Laws.dfy`), `Accumulators`, `Simulator`, `Kernels`, `Programs`,
`CallStack`, `Relocation` (the machine); `LruStack`, `CacheModel` (in `Cache.dfy`), `Hierarchy`,
`Latencies`, `Predictor`, `History`, `Pipeline`, `Operands`, `TimingTheorems` (in `Timing.dfy`),
`HazardTheorems` (in `Hazards.dfy`); `Sums`, `PackedKernels`, `StridedKernel`, `Int4Kernel`,
`Widths`, `Conversion`, `Hybrid`, `TileKernel`, `Gemv` (the products).
`Arithmetic` holds facts about remainders. `dafny verify dfyconfig.toml` checks everything.

Conventions. Exceptions and failed assertions are `Fault` values. A method that changes state is
proved against a function of the state before it, and the lemmas are about that function. Bits in
packed numbers are fields of a number in base 2^k (`Positional`): shifting and masking read a field,
or-ing into a clear field adds to it.

Where the code falls short of what is said or expected of it, with an input and the exact condition:

* `TBLT` and `TCMP` use the sign of a wrapped difference, which is the true order exactly when the
  difference fits a word (`Machine.ComparisonExact`; input: `Machine.ComparisonWraps`).
* A relocated target that leaves the 12-trit immediate wraps silently; the installed word decodes to
  the intended instruction exactly when it does not (`Relocation.MovedDecodes`; input:
  `Relocation.TargetWraps`).
* A kernel just installed is found by its name exactly when the name has at most 31 characters and was
  not in the table, or was there with the same address, which takes an empty kernel
  (`Kernels.FindAfterInstall`, `Kernels.NextAddressIsEmpty`; inputs: `Kernels.LongNameNotFound`,
  `Kernels.TakenName`).
* The comment in `op_info` says that TCALL and TRET read and write R26, but it names the encoded
  destination field, which the assembler leaves 0 (src/asm/emitter.cpp:94, 109). Reads of R26 are safe
  in all traces exactly when calls and returns encode 26 or no latency is long enough to matter
  (`HazardTheorems.StackPointerSafe`; input: `HazardTheorems.AssembledCallTooEarly`).
* Forwarding is described as an improvement; it delays no instruction of any trace exactly when the
  pipeline has at least three stages or no unit takes more than one extra cycle in any trace, with
  caches and predictor attached or not (`HazardTheorems.ForwardingHelps`; inputs:
  `HazardTheorems.ForwardingHurts`).
* A stalled miss issues at the earliest cycle with a free register, but a later access proposed before
  that cycle may then issue too early: exactly when it is proposed before the latest issue and the
  misses recorded at the proposed cycle do not fill every register until then
  (`Hierarchy.EarliestIssue`; input: `Hierarchy.IssuesTooEarly`). The pipeline never proposes so: over
  any trace every miss issues at the earliest cycle (`TimingTheorems.MissesEarliest`).
* More registers can make an access later: a hierarchy that is faster piece by piece never issues a miss
  later exactly under the same condition on the slower one (`Hierarchy.FasterNeverLater`; input:
  `Hierarchy.MoreRegistersLater`, where the fourth miss issues at cycle 80 with three registers and at
  cycle 1 with two). In the pipeline this cannot happen (`TimingTheorems.NoAnomaly`).
* The 64-bit lanes of an accumulator, and their sum in `TVSUM`, suffice for n `TVMAC`s exactly when
  27 * n * m * m fits for operand lanes of magnitude m: 3527341427 of them for loaded lanes, none for
  lanes of 32 bits (`Accumulators.MacsExact`; input: `Accumulators.MacsOver`).
* The lossy INT4 kernel is exact for all weights exactly when every activation is within [-7, 7]
  (`Int4Kernel.LossyExactWhenSmall`).

## Model

| member | source | states |
|---|---|---|
| Trits.FullAdd | include/ter/trit.hpp:37-43 | the sum trit and carry trit of one column satisfy a + b + c = sum + 3 * carry |
| Trits.ValueInjective | src/core/word.cpp:18-26 | a word is the only n-trit word with its value |
| Trits.ValueDigits | src/core/word.cpp:6-26 | converting the value of a word back gives the same word |
| Trits.DigitsValue | src/core/word.cpp:6-26 | converting an in-range integer to n trits and back gives the integer |
| Trits.DigitsWrap | src/isa/encode.cpp:6-13 | writing any integer into n trits leaves its balanced residue modulo 3^n |
| Trits.WrapUnique | src/core/word.cpp:34-43 | the balanced residue is the only in-range number congruent to the integer |
| Trits.WrappedOrder | src/sim/run_one.cpp:71-76 | the sign of a difference computed modulo 3^n is the true order if the difference fits in n trits, and the opposite order if it does not |
| Words.FromInt | src/core/word.cpp:6-16 | for every integer the assertion admits, the word has that value and is its digit string |
| Words.ToInt | src/core/word.cpp:18-26 | the place-value loop returns the value of the word |
| Words.Neg | src/core/word.cpp:28-32 | tritwise negation negates the value |
| Words.Add | src/core/word.cpp:34-43 | ripple-carry addition is integer addition modulo 3^n, balanced |
| Words.Sub | src/core/word.cpp:45-47 | subtraction is integer subtraction modulo 3^n, balanced |
| Words.SignTrit | src/core/word.cpp:49-54 | the leading nonzero trit is the sign of the value |
| Words.ProductFits | src/core/word.cpp:96-111 | every partial product fits in twice the width, so no partial sum wraps |
| Words.Mul | src/core/word.cpp:96-111 | shift-and-add multiplication is the exact integer product for all operands |
| Words.MacInplace | src/core/word.cpp:113-115 | multiply-accumulate adds the exact product and wraps the accumulator only |
| Words.AddCommutes | src/core/word.cpp:34-43 | addition commutes as equality of trits |
| Words.AddAssociative | src/core/word.cpp:34-43 | addition is associative as equality of trits, wrap-around included |
| Words.AddInverse | src/core/word.cpp:28-43 | negation is the additive inverse and the zero word the identity |
| Packing.PackWord27 | src/core/pack.cpp:5-11 | the packed cell reads back as the word, has no field with code 3 and nothing above bit 53 |
| Packing.UnpackWord27 | src/core/pack.cpp:13-20 | each trit is the one its two-bit field codes, code 3 reading as zero |
| Packing.CanonicalUnique | src/core/pack.cpp:5-20 | two canonical cells that read as the same word are the same bits |
| Isa.OpcodeOf | src/isa/decode.cpp:16-31 | an accepted opcode value is the value of the opcode it is cast to |
| Isa.PutTrits | src/isa/encode.cpp:6-13 | the field holds the low digits of the value and no other trit changes |
| Isa.GetTrits | src/isa/decode.cpp:7-14 | the loop returns the value of the field |
| Isa.Encode | src/isa/encode.cpp:16-24 | the word is the concatenation of the digit strings of the five fields |
| Isa.Decode | src/isa/decode.cpp:34-46 | the fields of the word as values, or the exception for an unmapped opcode |
| Isa.DecodeOfEncode | src/isa/encode.cpp:16-24 | decoding an encoded instruction gives it back with every field reduced to its width |
| Isa.EncodeRoundTrip | src/isa/encode.cpp:16-24 | decoding undoes encoding exactly for the legal instructions |
| Isa.DecodeRoundTrip | src/isa/decode.cpp:34-46 | every word that decodes gives a legal instruction that encodes to the same word |
| Isa.EncodedValue | src/isa/encode.cpp:16-24 | the integer value of an encoded instruction, from its fields as digits of a mixed-base number |
| Machine.ComparisonExact | src/sim/run_one.cpp:71-126 | TBLT and TCMP give the true order exactly when the difference of their operands fits a word |
| Machine.ComparisonWraps | src/sim/run_one.cpp:71-126 | an input: for the largest word against -1 TBLT takes the branch and TCMP gives -1 |
| Machine.StepWellFormed | src/sim/sim.cpp:6-14 | a step keeps R0 zero, registers, cells and pc within 27 trits, and lanes within 32 bits |
| Machine.RunWellFormed | src/sim/sim.cpp:16-20 | so does every run |
| Machine.ClampsNearest | src/core/vec.cpp:7-58 | saturation to nine trits and to 32 bits gives the nearest value in range |
| Machine.VStoreCell | src/sim/run_one.cpp:173-179 | a vector store writes lane j at base + j, up to the first address out of bounds, and no other cell |
| CallStack.ReturnMatchesCall | src/sim/run_one.cpp:77-91 | from any later state with the stack pointer a call left and its return cell untouched, a return succeeds, restores R26 and goes back to behind the call |
| CallStack.NestedCallsApart | src/sim/run_one.cpp:77-84 | a call made before that return uses another cell and leaves the first one alone |
| CallStack.StepFrames | src/sim/run_one.cpp:77-91 | one step keeps the cells from the stack base to R26 equal to the return addresses of the open calls; a return goes to the one on top |
| CallStack.RunFrames | src/sim/run_one.cpp:77-91 | so does every run whose other instructions write neither R26 nor a cell in use |
| CallStack.SubroutineReturns | src/sim/run_one.cpp:77-91 | when such a run that starts with a call first closes it again, it is behind the call with the stack pointer and the open calls as before |
| CallStack.CallerRuns | tests/test_executor_control.cpp:42-55 | the program that calls a subroutine and comes back halts with both registers loaded |
| InstructionLaws.SubtractUndoesAdd | src/sim/run_one.cpp:18-29 | TSUB of what TADD added gives the operand back, wrap-around included |
| InstructionLaws.SignTimesMagnitude | src/sim/run_one.cpp:33-44 | TSIGN times TABS is the value, and TABS is not negative |
| InstructionLaws.NegateTwice | src/sim/run_one.cpp:30-32 | TNEG cancels in a sum and undoes itself |
| InstructionLaws.DeMorgan | src/sim/run_one.cpp:92-107 | TAND3 and TOR3 change places under negation |
| InstructionLaws.LogicOfEqual | src/sim/run_one.cpp:92-118 | TAND3 and TOR3 of a word with itself are the word, TXOR3 is zero; TXOR3 with zero negates |
| InstructionLaws.BranchesComplement | src/sim/run_one.cpp:59-70 | of TBEQ and TBNE on the same registers exactly one jumps |
| InstructionLaws.FallThrough | src/sim/sim.cpp:6-14 | every instruction that is no branch goes on at the next cell |
| InstructionLaws.LoadAfterStore | src/sim/run_one.cpp:45-55 | TLOAD reads what TSTORE put at the address, and no other cell changed |
| InstructionLaws.VectorRoundTrip | src/sim/run_one.cpp:165-179 | storing a vector and loading it again clamps every lane and nothing else |
| InstructionLaws.ShuffleMoves | src/sim/run_one.cpp:156-164 | TVSHUF moves lane j to lane j - imm modulo 27 |
| InstructionLaws.SubtractLanes | src/core/vec.cpp:18-39 | TVSUB is TVADD of the TVNEG lanes unless one is the least value |
| InstructionLaws.BroadcastLaws | src/core/vec.cpp:7-58 | broadcast 0, 1 and -1 are neutral, unit and negation |
| InstructionLaws.RunCounts | include/ter/counters.hpp:16-24 | over any run the total count is the sum of the counts of all opcodes |
| Vectors.VecAdd | src/core/vec.cpp:7-16 | every lane is the sum saturated at 32 bits |
| Vectors.VecSub | src/core/vec.cpp:18-27 | every lane is the difference saturated at 32 bits |
| Vectors.VecNeg | src/core/vec.cpp:29-39 | every lane is negated, the most negative value becoming the largest |
| Vectors.VecMul | src/core/vec.cpp:41-52 | every lane is the product saturated at 32 bits |
| Vectors.VecBroadcast | src/core/vec.cpp:54-58 | every lane is the immediate clamped to the nine-trit range |
| Vectors.VecMac | src/core/vec.cpp:60-63 | every accumulator lane grows by the product of the two lanes |
| Vectors.VecSum | src/core/vec.cpp:65-69 | the result is the sum of the accumulator lanes |
| Accumulators.MacsExact | src/core/vec.cpp:60-69 | with operand lanes of magnitude at most m, every 64-bit lane after each of n TVMACs on a cleared accumulator and every running sum of a TVSUM fit for all operands exactly if 27 * n * m * m is below 2^63 |
| Accumulators.MacsBounds | src/core/vec.cpp:60-69 | for nine-trit lanes exactly up to 3527341427 TVMACs; for lanes that fill 32 bits the sum of a single one can overflow |
| Vectors.VecMax | src/sim/run_one.cpp:147-155 | the in-place scan leaves the clamped running maximum in every lane |
| Vectors.MaxScanIsMaximum | src/sim/run_one.cpp:147-155 | for payload lanes, lane k of TVMAX is an element of, and at least every one of, lanes 0 to k |
| Vectors.VecShuf | src/sim/run_one.cpp:156-164 | lane k is the clamped lane k + imm modulo 27, for negative immediates too |
| Simulator.Memory.constructor | include/ter/memory.hpp:18 | every cell reads as zero and is canonical |
| Simulator.Memory.LoadWord | include/ter/memory.hpp:27-30 | fails exactly out of bounds, and otherwise returns the stored word |
| Simulator.Memory.StoreWord | include/ter/memory.hpp:32-35 | fails exactly out of bounds, changes one cell and keeps every cell canonical |
| Simulator.Memory.StoreLanes | src/sim/run_one.cpp:173-179 | stores lanes up to the first address out of bounds, which leaves the earlier ones written |
| Simulator.RegFile.constructor | include/ter/regfile.hpp:60-64 | all registers start at zero and the machine is not halted |
| Simulator.RegFile.ReadScalar | include/ter/regfile.hpp:19-23 | reads the register, R0 as zero, and fails exactly for an index outside the file |
| Simulator.RegFile.WriteScalar | include/ter/regfile.hpp:25-29 | changes that register only; a write to R0 is dropped, an index outside the file fails |
| Simulator.RegFile.ResetCallerSaved | include/ter/regfile.hpp:39-43 | clears R8 to R15 and all vector and accumulator registers, and nothing else |
| Simulator.OpCounters.BumpN | include/ter/counters.hpp:20-23 | adds to one slot and to the total |
| Simulator.Sim.constructor | include/ter/memory.hpp:18 | a fresh simulator stands for the zero state of the integer machine |
| Simulator.Sim.Logic | src/sim/run_one.cpp:92-118 | the trit loops of TAND3, TOR3 and TXOR3 give the minimum, maximum and difference-negation trit by trit |
| Simulator.Sim.ScalarWord | src/sim/run_one.cpp:15-126 | each scalar operation on words is the integer operation on their values |
| Simulator.Sim.RunScalar | src/sim/run_one.cpp:8-126 | the scalar opcodes follow the integer machine |
| Simulator.Sim.TakenTest | src/sim/run_one.cpp:56-76 | the branch test on trits is the branch test on values |
| Simulator.Sim.RunCall | src/sim/run_one.cpp:77-84 | TCALL pushes the return address and jumps, with the faults of a bad stack pointer in the order of the code |
| Simulator.Sim.RunReturn | src/sim/run_one.cpp:85-91 | TRET pops it, likewise |
| Simulator.Sim.RunBranch | src/sim/run_one.cpp:56-91 | the branch opcodes follow the integer machine |
| Simulator.Sim.VectorResult | src/sim/run_one.cpp:127-182 | the vector opcodes compute the prescribed lanes |
| Simulator.Sim.RunVector | src/sim/run_one.cpp:127-182 | the vector opcodes follow the integer machine, register-index and conversion faults included |
| Simulator.Sim.RunLoad | src/sim/run_one.cpp:45-49 | TLOAD follows the integer machine |
| Simulator.Sim.RunStore | src/sim/run_one.cpp:50-55 | TSTORE follows the integer machine |
| Simulator.Sim.RunVectorLoad | src/sim/run_one.cpp:165-172 | TVLOAD narrows each cell to 32 bits, then clamps it; it faults before writing the register |
| Simulator.Sim.RunVectorStore | src/sim/run_one.cpp:173-179 | TVSTORE follows the integer machine, partial stores included |
| Simulator.Sim.RunMemory | src/sim/run_one.cpp:45-179 | the memory opcodes follow the integer machine |
| Simulator.Sim.RunOne | src/sim/run_one.cpp:5-186 | refinement of one instruction: the state after, seen as integers, and the fault are those of the integer machine |
| Simulator.Sim.Step | src/sim/sim.cpp:6-14 | refinement of fetch, pc update, decode and execute |
| Simulator.Sim.Run | src/sim/sim.cpp:16-20 | refinement of whole runs up to a halt, a fault or the step limit |
| Kernels.KernelTable.constructor | include/ter/kernels.hpp:30-37 | an empty table, nothing installed |
| Kernels.MoveWord | src/sim/call_kernel.cpp:29-37 | a word that carries a target is re-encoded with the target moved, any other is kept as it is |
| Kernels.KernelTable.InstallWord | src/sim/call_kernel.cpp:29-38 | one word is stored at the next address, or fails as illegal opcode before the address moves or as out of bounds after |
| Kernels.KernelTable.StoreBlob | src/sim/call_kernel.cpp:29-38 | the loop stores the relocated image of the words up to the first that fails and nothing else, and reports which of the two faults that word has |
| Kernels.BlobFits | src/sim/call_kernel.cpp:29-38 | storing a blob succeeds exactly if every word decodes and the blob is empty or fits |
| Kernels.KernelTable.TakeSlot | src/sim/call_kernel.cpp:39-48 | the first unused slot takes the truncated name and the id; it fails exactly when the table is full |
| Kernels.KernelTable.Install | src/sim/call_kernel.cpp:24-49 | each outcome with its exact condition and fault, the partial or whole image, every other cell untouched, images one after another up to the next address, and what every lookup finds afterwards |
| Kernels.KernelTable.Find | src/sim/call_kernel.cpp:51-62 | returns the id of the first used entry whose stored name matches |
| Kernels.LookupValid | src/sim/call_kernel.cpp:51-62 | the result is a valid id or the invalid one, and invalid exactly when no stored name matches |
| Kernels.FindAfterInstall | src/sim/call_kernel.cpp:24-62 | a kernel just installed is found by its name exactly if the name has at most 31 characters and was not found before, or the lookup already gave the same address; earlier lookups are unchanged, and a name found only since then is the stored one |
| Kernels.SharedAddressIsEmpty | src/sim/call_kernel.cpp:24-49 | two installed kernels share an entry address only if the earlier one is empty |
| Kernels.NextAddressIsEmpty | src/sim/call_kernel.cpp:24-49 | a lookup already gives the next address only for a name an empty kernel was installed under |
| Kernels.LongNameNotFound | src/sim/call_kernel.cpp:42-59 | an input: a kernel installed under a 32-character name is not found |
| Kernels.TakenName | src/sim/call_kernel.cpp:40-60 | an input: a second kernel under a taken name is not found, unless the first is empty and shares its address |
| Kernels.ClearCallerSaved | src/sim/call_kernel.cpp:69 | the argument and callee-saved registers keep their values |
| Kernels.SetArgs | src/sim/call_kernel.cpp:71-73 | arguments go to R1, R2, ...; the first that does not fit a word fails and leaves the earlier ones written |
| Kernels.CallKernel | src/sim/call_kernel.cpp:64-78 | a call is a run of the integer machine from the call state, with each rejection, its condition and the state it leaves; what it returns is R1 |
| Kernels.FailedCallRegs | src/sim/call_kernel.cpp:71-73 | of a call that fails on an argument only the arguments before the first unfit one have arrived |
| Programs.InstalledIsLoaded | src/sim/call_kernel.cpp:24-38 | code without jumps installs unchanged and is fetched instruction by instruction at any address |
| Programs.SumCall | tests/test_call_kernel.cpp:9-22 | the kernel of TADD and THALT, installed at any address that fits, returns the sum of its first two arguments modulo 3^27, the sum itself if it is a word, and keeps R16 to R26 and memory |
| Relocation.TargetWraps | src/sim/call_kernel.cpp:31-34 | an input: a jump moved to 265721 decodes as a jump to -265720 |
| Relocation.MovedDecodes | src/sim/call_kernel.cpp:31-34 | an installed word decodes to the moved instruction exactly when its target fits the immediate |
| Relocation.BranchLockstep | src/sim/run_one.cpp:56-91 | a branch, call or return keeps two copies related |
| Relocation.PushLockstep | src/sim/run_one.cpp:77-84 | a call pushes return addresses that differ by exactly the distance |
| Relocation.PopLockstep | src/sim/run_one.cpp:85-91 | a return pops them: the program counters again differ by exactly the distance |
| Relocation.JumpLockstep | src/sim/run_one.cpp:56-76 | a jump or conditional branch and its moved twin are taken alike |
| Relocation.LoadLockstep | src/sim/run_one.cpp:45-172 | a load that avoids both copies and the return cells reads the same values |
| Relocation.StoreLockstep | src/sim/run_one.cpp:50-179 | a store that avoids both copies keeps the memories related, and a return cell it overwrites is one no longer |
| Relocation.ScalarLockstep | src/sim/run_one.cpp:8-44 | a scalar instruction keeps them related |
| Relocation.MemoryLockstep | src/sim/run_one.cpp:45-179 | a load or store that avoids both copies and the return cells keeps them related |
| Relocation.VectorLockstep | src/sim/run_one.cpp:127-182 | a vector instruction keeps them related |
| Relocation.ExecLockstep | src/sim/run_one.cpp:5-186 | any instruction and its moved twin have the same fault and related outcomes |
| Relocation.FetchLockstep | src/sim/sim.cpp:6-10 | each copy fetches the instruction moved to its own base |
| Relocation.StepLockstep | src/sim/sim.cpp:6-14 | one well-behaved step keeps the copies in lockstep |
| Relocation.RunLockstep | src/sim/sim.cpp:16-20 | relocation theorem: for every number of steps both copies fault alike or not at all and agree on registers, lanes, counters and data cells, pc and return cells differing by exactly the distance |
| Relocation.CallLockstep | src/sim/call_kernel.cpp:64-78 | calling either copy with the same arguments gives the same result or fault, the same counters and the same data |
| Relocation.InstalledCopiesRelated | src/sim/call_kernel.cpp:24-38 | two installations of one blob into the same memory satisfy the hypothesis of the theorem |
| Relocation.ClosedPlaceable | src/sim/call_kernel.cpp:31-34 | a blob whose targets all lie in it can be installed wherever it ends by address 265720 |
| Relocation.ClosedStep | src/sim/sim.cpp:6-14 | from inside a blob without memory accesses, calls, returns, outside targets or an open end, a step changes no memory and halts or stays inside |
| Relocation.ClosedBehaves | src/sim/sim.cpp:16-20 | so every run of such a blob satisfies the hypothesis of the relocation theorem |
| Relocation.ClosedCallLockstep | src/sim/call_kernel.cpp:24-78 | such a blob relocates with no condition on its runs: a call of either copy gives the same result or fault and the same data |
| LruStack.AboveIsOthersSince | v2/src/layer1/cache.cpp:16-50 | in the recency stack, what lies above a line is exactly the set of other lines of its set used since its last use |
| LruStack.TopIsReuseHit | v2/src/layer1/cache.cpp:16-50 | a line is among the top w of its stack exactly if its reuse distance is below w |
| LruStack.TopStep | v2/src/layer1/cache.cpp:33-47 | the top w after an access is computed from the top w before: hit to front, else push and drop the last |
| LruStack.MoreWaysStillHit | v2/src/layer1/cache.cpp:16-50 | stack property: with the same sets, what hits with w ways hits with more |
| LruStack.MoreWaysNoMoreMisses | v2/src/layer1/cache.cpp:16-50 | over any trace, more ways never give more misses |
| CacheModel.RestampKeeps | v2/src/layer1/cache.cpp:33-47 | restamping a way with the next age moves it to the front of the order of its set |
| CacheModel.FillKeeps | v2/src/layer1/cache.cpp:39-48 | filling an invalid way puts it at the front |
| CacheModel.HitKeeps | v2/src/layer1/cache.cpp:33-37 | a tag match happens only for a line the stack holds, and the set then holds the next stack |
| CacheModel.MissKeeps | v2/src/layer1/cache.cpp:39-48 | without a tag match the line is not held, and replacing an invalid or the oldest way gives the next stack |
| CacheModel.AllSetsKeep | v2/src/layer1/cache.cpp:16-50 | after one access every set of the table holds its recency stack |
| CacheModel.Cache.constructor | v2/src/layer1/cache.cpp:7-14 | an empty cache holds the empty history |
| CacheModel.Cache.FindTag | v2/src/layer1/cache.cpp:24-31 | the way returned is valid and carries the tag; -1 means that none does |
| CacheModel.Cache.FindVictim | v2/src/layer1/cache.cpp:39-45 | the victim is an invalid way, or the oldest when all are valid |
| CacheModel.Cache.Stamp | v2/src/layer1/cache.cpp:33-48 | writing one way with the next age keeps every set holding its stack |
| CacheModel.Cache.Access | v2/src/layer1/cache.cpp:16-50 | it hits exactly if the line was accessed before and fewer than `ways` distinct other lines of its set since; the counters count hits and misses of the history |
| CacheModel.SetsFit | v2/src/layer1/cache.cpp:7-14 | as many sets as the capacity holds: one more would exceed it |
| Hierarchy.AccessCounted | v2/src/layer1/cache.cpp:59-104 | whatever is proposed, no more misses are recorded than there are registers |
| Hierarchy.AccessTracks | v2/src/layer1/cache.cpp:59-104 | whatever is proposed, from the latest issue cycle on the recorded misses are exactly the outstanding ones |
| Hierarchy.AccessPaced | v2/src/layer1/cache.cpp:59-104 | for nondecreasing proposals, from the last proposal to the latest issue cycle every register is taken |
| Hierarchy.EarliestIssue | v2/src/layer1/cache.cpp:77-88 | for nondecreasing proposals, a miss issues at the earliest cycle with a free register exactly if it is proposed no earlier than the latest issue, or every register is taken and the first to complete does so no earlier |
| Hierarchy.InOrderEarliest | v2/src/layer1/cache.cpp:77-88 | for any proposals, under that condition it issues at the earliest cycle at which fewer misses are outstanding than there are registers |
| Hierarchy.RequestsTracked | v2/src/layer1/cache.cpp:59-104 | from reset, any requests at all stay within the bound |
| Hierarchy.RequestsPaced | v2/src/layer1/cache.cpp:59-104 | from reset, nondecreasing requests meet the hypothesis of the earliest-issue theorem |
| Hierarchy.CompletionsAreArrivals | v2/src/layer1/cache.cpp:86-104 | the completion cycles that outstanding misses are counted by are issue plus latency of the answers given |
| Hierarchy.AgainHits | v2/src/layer1/cache.cpp:70-76 | asking for an address again hits the first level, at its latency and without delay |
| Hierarchy.IssuesTooEarly | v2/src/layer1/cache.cpp:77-88 | an input: two registers, misses proposed at 0, 0, 0 and 1; the last issues at cycle 1 with three outstanding |
| Hierarchy.AccessMonotone | v2/src/layer1/cache.cpp:59-104 | with no fewer registers, no larger latencies and no later history, an access proposed no later issues and completes no later and stays ahead, if it hits the first level of the slower hierarchy or is proposed there no earlier than the latest issue, or the misses recorded there fill every register until then |
| Hierarchy.FasterNeverLater | v2/src/layer1/cache.cpp:59-104 | the exact condition: for nondecreasing proposals, no faster hierarchy that is ahead issues the access later if and only if that condition on the slower one holds before the access |
| Hierarchy.MoreLater | v2/src/layer1/cache.cpp:77-88 | wherever it fails, a hierarchy with one register for each miss still outstanding at the slower issue, given nondecreasing proposals too, issues the access later |
| Hierarchy.MoreRegistersLater | v2/src/layer1/cache.cpp:77-88 | an input from reset where it fails: with three registers the fourth miss issues at 80, with two at 1 |
| Hierarchy.NoLaterOutstanding | v2/src/layer1/cache.cpp:64-69 | if every miss completes no later, no more are outstanding at any cycle |
| Hierarchy.MemHierarchy.constructor | v2/src/layer1/cache.cpp:52-53 | both caches and the miss list start empty |
| Hierarchy.MemHierarchy.DropCompleted | v2/src/layer1/cache.cpp:64-69 | keeps the completion cycles after the given cycle, in order |
| Hierarchy.MemHierarchy.Oldest | v2/src/layer1/cache.cpp:80-81 | the least completion cycle |
| Hierarchy.MemHierarchy.Reserve | v2/src/layer1/cache.cpp:78-88 | the issue cycle, the registers still taken, and the stall added to the statistics |
| Hierarchy.MemHierarchy.AccessAt | v2/src/layer1/cache.cpp:59-104 | the class follows the history model; stall cycles grow by issue minus proposal; second-level accesses equal first-level misses and DRAM accesses second-level misses |
| Latencies.AccessVisits | v2/src/layer1/cache.cpp:59-104 | which latency an access takes depends only on the lines asked for before |
| Latencies.NestedVisits | v2/src/layer1/cache.cpp:71-75 | for the other geometries the first level always holds whatever the second level holds |
| Latencies.SecondHitReachable | v2/src/layer1/cache.cpp:71-96 | a second-level hit is reachable from empty caches exactly if second-level lines straddle first-level ones, or the second level has two ways, or some line shares a first-level set but not a second-level one |
| Latencies.LatencyWithin | v2/src/layer1/cache.cpp:71-96 | no access sequence exceeds the longest latency of the geometry |
| Latencies.LongestReached | v2/src/layer1/cache.cpp:71-96 | some access sequence reaches it |
| Predictor.BranchPredictor.constructor | v2/src/layer1/bp.cpp:6-16 | weakly not-taken counters, an empty target buffer and no history |
| Predictor.BranchPredictor.PredictAndUpdate | v2/src/layer1/bp.cpp:29-71 | the result and all tables follow the model; counters stay in 0 to 3; correct plus mispredicted is the number of branches |
| Predictor.Isolation | v2/src/layer1/bp.cpp:18-71 | without history, a branch that shares no entry is mispredicted in any interleaved stream exactly as often as it would be alone |
| Predictor.MissesPerRun | v2/src/layer1/bp.cpp:38-62 | one branch alone costs at most two mispredictions per maximal run of equal outcomes |
| Predictor.TwoMissesPerRun | v2/src/layer1/bp.cpp:18-71 | so does every such branch in any interleaved stream, from any table contents |
| Predictor.LoopMisses | v2/src/layer1/bp.cpp:6-62 | m rounds of n taken outcomes and one not taken cost, from reset, m + 1 for n >= 2, 2m for n = 1 and nothing for n = 0 |
| Predictor.LoopBranchCost | v2/src/layer1/bp.cpp:6-71 | a loop branch that shares no entry costs exactly that in any stream run from reset |
| History.HistoryIsOutcomes | v2/src/layer1/bp.cpp:65 | after any stream from reset, bit k of the history is the outcome k branches ago, for the configured number of bits and no more |
| History.HistoryUnique | v2/src/layer1/bp.cpp:65 | no other number has those bits |
| History.XorBits | v2/src/layer1/bp.cpp:18-23 | the exclusive or of pc and history differs from pc in exactly the bits that are set in the history |
| History.PowersSeparate | v2/src/layer1/bp.cpp:18-23 | a table of 2^e counters gives every history of a loop up to e bits its own counter |
| History.LoopWithHistory | v2/src/layer1/bp.cpp:29-71 | a loop branch alone from reset, n times taken and then not, is mispredicted n times if n is at most the history length, and history length + 2 times otherwise |
| Pipeline.PipelineModel.constructor | v2/include/tersim/cycle_model.hpp:72-106 | all cycles, counts and ready times start at zero |
| Pipeline.PipelineModel.ReadyCycle | v2/src/layer1/pipeline.cpp:124-131 | the ready cycle of a register, zero outside its file |
| Pipeline.PipelineModel.StoreReady | v2/src/layer1/pipeline.cpp:133-140 | sets one ready cycle; an index outside its file changes nothing |
| Pipeline.PipelineModel.Dependence | v2/src/layer1/pipeline.cpp:150-165 | the earliest issue that respects every operand the instruction reads |
| Operands.DeclaredDecide | v2/src/layer1/pipeline.cpp:46-111 | for every instruction but calls and returns: machine states that agree on the registers op_info declares as read agree on all the instruction does, and it changes no register but the declared destination |
| Operands.CallsUseR26 | v2/src/layer1/pipeline.cpp:82-86 | calls and returns depend on R26 and change it, whatever destination they encode |
| Operands.SourcesNeeded | v2/src/layer1/pipeline.cpp:46-111 | no source is declared in vain: for some state another value in it alone changes the outcome |
| Operands.DestinationNeeded | v2/src/layer1/pipeline.cpp:46-111 | no destination is declared in vain: for some state it changes |
| Operands.UnitIsClass | v2/src/layer1/pipeline.cpp:23-44 | the unit of an instruction is the class the machine executes it in |
| Pipeline.PipelineModel.MemoryTiming | v2/src/layer1/pipeline.cpp:169-178 | issue cycle, latency and reported stall of a memory access, the hierarchy following its model |
| Pipeline.PipelineModel.BranchTiming | v2/src/layer1/pipeline.cpp:200-209 | a misprediction pushes the next issue and the report by the penalty |
| Pipeline.PipelineModel.WriteBack | v2/src/layer1/pipeline.cpp:189-196 | only the destination becomes ready at the write cycle |
| Pipeline.PipelineModel.Issue | v2/src/layer1/pipeline.cpp:142-198 | issue cycle and new ready times of one instruction |
| Pipeline.PipelineModel.OnRetire | v2/src/layer1/pipeline.cpp:142-216 | one retired instruction moves the whole model, caches and predictor included, as the timing function says |
| TimingTheorems.ReadyIsLatestWrite | v2/src/layer1/pipeline.cpp:189-196 | after any trace the ready cycle of a register is the write stage of its latest writer |
| TimingTheorems.RawSafe | v2/src/layer1/pipeline.cpp:150-198 | every operand op_info declares is read no earlier than the write stage of its latest earlier writer, even after a miss-register stall |
| TimingTheorems.IssueIncreases | v2/src/layer1/pipeline.cpp:167-198 | issue cycles strictly increase along a trace |
| TimingTheorems.Accounting | v2/src/layer1/pipeline.cpp:152-215 | the next issue cycle is instructions plus RAW, miss-register and branch stalls; unit counts sum to the instructions; cycles are at least instructions plus depth - 1 |
| TimingTheorems.UnitCounts | v2/src/layer1/pipeline.cpp:214 | the count of each unit is the number of its instructions in the trace |
| TimingTheorems.FullThroughput | v2/src/layer1/pipeline.cpp:152-215 | n instructions that wait for nothing take the depth plus n - 1 cycles |
| TimingTheorems.AloneTakes | v2/src/layer1/pipeline.cpp:113-122 | an instruction alone takes the depth and the extra cycles of its unit; with caches attached, the main-memory latency |
| TimingTheorems.AfterSteady | v2/src/layer1/pipeline.cpp:142-216 | over any trace no access is proposed before an earlier issue, and from the latest issue on the recorded misses are the outstanding ones |
| TimingTheorems.MissesEarliest | v2/src/layer1/pipeline.cpp:169-178 | over any trace every first-level miss issues at the earliest cycle, from its proposed one on, at which fewer of the misses so far are outstanding than there are registers |
| TimingTheorems.RetireAhead | v2/src/layer1/pipeline.cpp:142-216 | one instruction of a run that is ahead issues and retires no later, and the run stays ahead |
| TimingTheorems.StartAhead | v2/include/tersim/cycle_model.hpp:94-106 | from reset a piecewise faster configuration is ahead |
| TimingTheorems.NoAnomaly | v2/src/layer1/pipeline.cpp:142-216 | no timing anomaly: over any trace, a piecewise faster configuration (forwarding, miss registers, latencies, depth, penalty) makes no instruction issue or retire later |
| HazardTheorems.ExtraWithin | v2/src/layer1/pipeline.cpp:169-178 | no load of any trace takes more extra cycles than the longest load of the configuration |
| HazardTheorems.LongestLoadReached | v2/src/layer1/pipeline.cpp:169-178 | some load after a warm-up that writes no register takes exactly as many |
| HazardTheorems.FreeRun | v2/src/layer1/pipeline.cpp:147-198 | with forwarding and at most one extra cycle per unit no instruction of any trace waits for an operand |
| HazardTheorems.PairIssue | v2/src/layer1/pipeline.cpp:150-198 | a producer and the instruction behind it: the issue cycle of the second, whether or not it declares that it reads the result |
| HazardTheorems.ForwardingHurts | v2/src/layer1/pipeline.cpp:147-182 | a trace that forwarding delays, for every short pipeline with a long reachable latency, caches attached or not |
| HazardTheorems.ForwardingHelps | v2/src/layer1/pipeline.cpp:147-182 | with or without caches and predictor, forwarding delays no instruction of any trace exactly when the depth is at least 3 or no unit takes more than one extra cycle in any trace |
| HazardTheorems.StackPointerSafe | v2/src/layer1/pipeline.cpp:82-86 | over all traces whose calls and returns encode d, R26 is read no earlier than its latest write is visible exactly if d is 26 or even the longest load is visible to the next instruction |
| HazardTheorems.AssembledCallTooEarly | v2/src/layer1/pipeline.cpp:82-86 | an input: with the default pipeline a load of R26 and an assembled call, which reads R26 in cycle 5 before it is written in cycle 6 |
| Widths.ContiguousBound | cuda/ter_cuda_bitnet_addonly.cu:38-65 | dp4a, add-only and table kernels: no sum over part of the rows of one lane and no shuffle sum leaves 32 bits for any input of n rows exactly if n < 2^24; at 2^24 the last shuffle sum does |
| Widths.StridedBound | cuda/ter_cuda_forward_packed_v12.cu:228-306 | the same bound for the strided kernel: what a lane has accumulated after any row of any of its chunks, and every shuffle sum |
| Widths.PreciseBound | cuda/ter_cuda_forward_packed_v13_int4tc.cu:361-398 | the precise kernel: accumulators and epilogue, left to right, stay within 32 bits for all inputs exactly up to 15790320 rows |
| Widths.LossyBound | cuda/ter_cuda_forward_packed_v13_int4tc.cu:199-212 | the lossy kernel: exactly while 7 * n fits |
| PackedKernels.WarpReduce | cuda/ter_cuda_bitnet_addonly.cu:63-65 | the xor-shuffle butterfly leaves the full sum in every lane |
| PackedKernels.LanesPartition | cuda/ter_cuda_bitnet_addonly.cu:36-37 | the contiguous lane ranges cover the rows exactly once |
| PackedKernels.InitUnpackTable | cuda/ter_cuda_forward_packed_v13_lut.cu:43-57 | every entry holds the four signed trits of its byte |
| PackedKernels.QuadStep | cuda/ter_cuda_bitnet_addonly.cu:41-53 | the unrolled body adds four products, whichever way the weights are unpacked |
| PackedKernels.AddTrit | cuda/ter_cuda_bitnet_addonly.cu:110-117 | conditional add or subtract is multiplication by the trit, code 3 counting as zero |
| PackedKernels.TailStep | cuda/ter_cuda_forward_packed_v13_lut.cu:116-125 | one tail product, whichever way the weight is unpacked |
| PackedKernels.LaneKernel | cuda/ter_cuda_bitnet_addonly.cu:83-129 | unrolled loop plus zero-skipping tail equal the plain inner product over the range of the lane |
| PackedKernels.WarpKernel | cuda/ter_cuda_bitnet_addonly.cu:83-133 | a warp computes the whole inner product of its four columns |
| PackedKernels.Launch | cuda/ter_cuda_bitnet_addonly.cu:27-138 | dp4a, add-only and table kernels leave the inner product in every column |
| StridedKernel.StageX | cuda/ter_cuda_forward_packed_v12.cu:207-218 | after the cooperative copy shared memory equals X |
| StridedKernel.SharesPartition | cuda/ter_cuda_forward_packed_v12.cu:233-235 | the strided chunks cover the rows exactly once |
| StridedKernel.ChunkProduct | cuda/ter_cuda_forward_packed_v12.cu:253-286 | four dp4a steps add the product of one 16-row chunk |
| StridedKernel.LanePass | cuda/ter_cuda_forward_packed_v12.cu:235-299 | one pass adds the next chunk of the lane to all eight columns |
| StridedKernel.LaneKernel | cuda/ter_cuda_forward_packed_v12.cu:228-299 | a lane computes its strided share of all eight columns |
| StridedKernel.WarpKernel | cuda/ter_cuda_forward_packed_v12.cu:228-306 | a warp computes the inner products of both byte-columns |
| StridedKernel.Launch | cuda/ter_cuda_forward_packed_v12.cu:192-316 | the strided kernel leaves the same inner product in every column |
| Int4Kernel.RepackTrits | cuda/ter_cuda_forward_packed_v13_int4tc.cu:85-114 | every fragment sits at its index with the eight nibbles of its tile and lane |
| Int4Kernel.QuantPrecise | cuda/ter_cuda_forward_packed_v13_int4tc.cu:287-303 | two nibble streams: the arithmetic high nibble, and the low nibble less 8 |
| Int4Kernel.QuantLossy | cuda/ter_cuda_forward_packed_v13_int4tc.cu:133-140 | one nibble stream: the activations clamped to [-7, 7] |
| Int4Kernel.ClampNearest | cuda/ter_cuda_forward_packed_v13_int4tc.cu:133-141 | the clamp gives the value of [-7, 7] nearest to the activation |
| Int4Kernel.LoadedNibbles | cuda/ter_cuda_forward_packed_v13_int4tc.cu:155-162 | the four bytes a lane loads are its eight consecutive activations |
| Int4Kernel.BIsWeights | cuda/ter_cuda_forward_packed_v13_int4tc.cu:196-205 | the B operand of a tile is 32 rows of eight weight columns |
| Int4Kernel.AIsActivations | cuda/ter_cuda_forward_packed_v13_int4tc.cu:204 | every row of the A operand is the same 32 activations |
| Int4Kernel.MmaAccumulates | cuda/ter_cuda_forward_packed_v13_int4tc.cu:202-212 | one matrix instruction extends every accumulator by 32 rows |
| Int4Kernel.WeightSums | cuda/ter_cuda_forward_packed_v13_int4tc.cu:307-321 | the sum of the weights of every column |
| Int4Kernel.SplitExact | cuda/ter_cuda_forward_packed_v13_int4tc.cu:253-279 | the inner product is 16 times that of the high parts plus that of the low parts plus 8 times the weight sum |
| Int4Kernel.LaunchPrecise | cuda/ter_cuda_forward_packed_v13_int4tc.cu:339-400 | the precise kernel is exact for every int8 activation and every weight byte |
| Int4Kernel.LaunchLossy | cuda/ter_cuda_forward_packed_v13_int4tc.cu:179-249 | the lossy kernel computes the inner product of the clamped activations |
| Int4Kernel.LossyExactWhenSmall | cuda/ter_cuda_forward_packed_v13_int4tc.cu:116-119 | clamping is harmless for all ternary weights exactly if every activation is within [-7, 7] |
| Conversion.DecodeBlocks | tools/convert_bitnet_to_packed.py:122-144 | every flat element is read from its interleaved place: byte p of block b is 64, 16, 4 and 1 times the codes of elements p, p + 32, p + 64 and p + 96 of the block |
| Conversion.ColumnsAreFlat | tools/convert_bitnet_to_packed.py:146-147 | the stored columns one after another are the flat tensor: each element is in exactly one column, in order |
| Conversion.RemapKeepsWeight | tools/convert_bitnet_to_packed.py:149-151 | the remapped code stands for the same weight |
| Conversion.PackColumns | tools/convert_bitnet_to_packed.py:153-157 | every byte holds four columns of its row, lowest field first |
| Conversion.PackedWeights | tools/convert_bitnet_to_packed.py:138-157 | the weight a kernel sees at row k of column n is the stored weight n * K + k |
| Conversion.Convert | tools/convert_bitnet_to_packed.py:93-157 | so the converted buffer has exactly the stored columns |
| Conversion.StoredProduct | cuda/ter_cuda_bitnet_addonly.cu:83-138 | converting any raw bytes and running the add-only kernel gives the sum of activations times stored weights in every column |
| Hybrid.Prepack | cuda/ter_cuda_hybrid_dispatch_v13.cu:143-180 | both layouts of the same weights, the tensor-core one and the sums exactly for tiled shapes |
| Hybrid.Dispatch.SetPrecise | cuda/ter_cuda_hybrid_dispatch_v13.cu:114-118 | sets the flag |
| Hybrid.Dispatch.Launch | cuda/ter_cuda_hybrid_dispatch_v13.cu:192-208 | the exact product in precise mode, for narrow outputs and for shapes that do not tile; the clamped product otherwise |
| Gemv.Products | src/tx/forward.cpp:332-341 | the zero-skipping loop leaves the inner product in every column |
| Gemv.MmRow | src/tx/forward.cpp:331-350 | and counts one TVMAC per tile and column |
| TileKernel.InstalledIsLoaded | src/kernels/tk_matmul_b_9t.tasm:4-9 | the assembled kernel installs unchanged and is fetched instruction by instruction at any address |
| TileKernel.TileFits | src/kernels/tk_matmul_b_9t.tasm:7 | the sum of a tile always fits a word, whatever memory holds |
| TileKernel.TileCall | src/kernels/tk_matmul_b_9t.tasm:4-9 | a call never faults, stores the inner product of the two tiles in one cell, changes no other, and counts one TVMAC and one TVSUM |
| Gemv.TilesCover | src/tx/forward.cpp:347-350 | the inner products of the zero-padded tiles add up to the inner product |
| Gemv.TilesAdd | tests/test_kernel_matmul_b_small.cpp:62-69 | after t calls the host has the sum of the first t tiles, with no fault and t TVMACs counted |
| Gemv.ColumnByTiles | tests/test_kernel_matmul_b_small.cpp:62-72 | for every number of rows the host collects the inner product of the column |
| Gemv.CallsAgree | src/tx/forward.cpp:331-350 | calling the kernel for every tile of every column gives in every column what the host loop gives, and counts exactly the TVMACs the host accounts for |

## Left out

- Words.FromInt: the 54-trit conversions are not modelled; `Word54::from_int` computes `v - digit`, which overflows at the least 64-bit integer, and `Word54::to_int` narrows a 128-bit value, so products are stated on the trit value.
- Vectors.VecMac: accumulators are unbounded integers; `Accumulators.MacsExact` gives the exact number of operations up to which 64 bits suffice, and wrapping beyond it is not modelled.
- Vectors.VecSum: likewise for the 64-bit sum of the lanes.
- Kernels.MoveWord: the addition of the entry address to a target is unbounded; the source adds two 32-bit integers.
- CacheModel.Cache.Access: ages, counters and cycles are unbounded; wrap-around at 2^64 is not modelled.
- Simulator.Memory.LoadWord: a negative address is out of bounds; the cast to an unsigned size, which makes it one, is not written out.
- Pipeline.PipelineModel.OnRetire: latencies, penalties and depth are not negative and the depth is at least 1; negative settings, which wrap in unsigned arithmetic, are not modelled.
- Hierarchy.MemHierarchy.AccessAt: the older entry point that proposes cycle 0 each time is left out; the state after it is that of a proposal at cycle 0.
- PackedKernels.Launch: accumulators are unbounded and the output is the integer before scaling; `Widths` gives the exact numbers of rows up to which 32 bits suffice. The number of columns is a multiple of 4, as the packed layout needs.
- Int4Kernel.LaunchPrecise: the same, up to the rows of `Widths.PreciseBound`.
- Int4Kernel.LaunchLossy: the same, up to the rows of `Widths.LossyBound`.
- StridedKernel.Launch: K is a multiple of 16 and N of 8, as its launcher asserts; accumulators are unbounded, up to the rows of `Widths.StridedBound`.
- Int4Kernel.MmaAccumulates: the matrix instruction is modelled by the fragment layout of PTX ISA, section "Matrix Fragments for mma.m8n8k32"; the fallback for older devices, which computes nothing, is left out.
- Conversion.Convert: the raw bytes come in whole 32-byte blocks; reading the tensor and its scale from a file is left out.
- Gemv.CallsAgree: the sum the host collects, 64 bits in the source, is unbounded; reading and assembling the kernel text is left out, its six instructions are given.
- Lanes of a warp run one after another and meet only in the shuffle; blocks, streams, graphs, alignment and synchronisation are not modelled.
- The tracer callback, the TVLOAD and TVSTORE trace addresses, and building traces from runs.
- Block-scaled products, quantisation, scales, the float16 epilogue, and all floating-point layers (attention, normalisation, rotary embeddings, softmax).
- The assembler, kernel and lookup-table loading, model-file readers, command line, reports, energy and roofline models: string handling, I/O or calibrated constants.
