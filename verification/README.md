# Rashid's block compiler, in Dafny

Rashid runs x86_64 code on AArch64. It has an interpreter (`src/cpu.c`) and a compiler of basic blocks
(`src/jit.c`, `src/emit.h`) that must do exactly what the interpreter does, a table of guest memory regions
with two small caches that compiled code tests in line (`src/as.c`), and a validator that replays compiled
blocks in the interpreter and compares. This project models the four together and proves that they fit.

The main line of the proof, each step a theorem over every instruction, operand and state:

1. What every modelled opcode does is said of its bytes, against numbers, bits and the manual's tables
   (`OpcodeMeanings.RowMeans` and its neighbours), and the decoder and the interpreter read every byte alike: same
   length, operands, address and effect (`DecoderAgreement.StepAgrees`).
2. Computing only the flags something later reads changes nothing that can be observed
   (`Liveness.RunsAgree`, `Liveness.LivenessPreserves`).
3. The words emitted for each instruction do what it means, on a machine whose calls destroy every register
   they may (`ControlSimulation.InsnSimulates`).
4. The emitting routines, with their patching of forward branches, overflow flag and cutting, leave exactly
   those words (`Emitter.EmitInsn`, `Block.Compile`).
5. Running a finished block's 32-bit words, read back one at a time, ends within as many steps as there are
   words with the interpreter's registers, flags, memory, log and next rip (`BlockRuns.BlockWords`,
   `BlockRuns.BlockSimulates`).
6. The validator, when nothing faulted and no log overflowed, accepts only what the interpreter would have done,
   and it reports no block of this compiler wherever the interpreter gets through (`Validator.CheckSound`,
   `ValidatedBlocks.CompiledAccepted`).
7. A whole run that mixes compiled blocks, checked or not, and interpreted instructions through a code cache with
   any hash function goes where the interpreter goes (`Dispatcher.RunCpu`).

Integers are mathematical, with the machine's widths written as remainders; `&`, `|`, `^` are defined bit by
bit. Guest memory is a byte for every address. Operations that work in place in the original - the output
buffer, the liveness pass, the emission and cut loop, the decode loop, the region table, the code cache, the
dispatcher, the validator's loops, the argument reader - are classes and methods with loops, proved against
functions; what the source promises is then proved of those functions.

## Assumptions

- Where the host's mmap answers with memory the table still lists, it lists it with the permission now asked
  for; fresh memory is the usual case (`TableSpec.FreshFits`). This is exactly what keeps regions agreeing about
  every byte (`TableSpec.InsertUniform`), and that is all that the cache and the compiled code's checks rely on:
  a guest's wrapping protect may make regions overlap, but not disagree (`TableSpec.ProtectUniform`).
- Code bytes, and the permission to execute them, do not change while a block made from them is cached; the
  interpreter fetches from the same unchanging bytes. No address inside a block is an import stub.
- Guest stores do not reach the cpu structure or the region table: compiled code tells them apart by base
  register (x19, and x9 for the table).
- Host pages are a power of two, so that rounding with a mask is rounding down to a multiple.
- A helper call preserves x19, keeps the stack, returns its result in x0 if it has one and may leave anything
  in every other register and in the condition flags. What it leaves is a parameter of each run.
- Faults: the engines are compared on whether they fault, not on what a fault leaves behind.

## Where the code falls short of its word

- The interpreter reads the destination of a plain store first (`src/cpu.c:1329`), and the operand of an
  indirect call or jump once at the operand size (`src/cpu.c:1608`), though the comment at `src/jit.c:1190`
  has the compiler match its order. Compiled code does neither. `Engines.EnginesAgree` is the exact condition
  for the engines to agree; `Engines.WriteOnlyDiffers` and `Engines.NarrowReadDiffers` are inputs where they
  do not, from bytes the decoder accepts (`Engines.PlainDecodes`, `Engines.NarrowDecodes`);
  `Engines.SparedAgrees` is what a region table must satisfy for it never to matter.
- `rsd_as_protect` changes no byte's permission when at + len reaches the top of the address space
  (`TableSpec.ProtectWrapped`), and `TableSpec.ProtectPromise` says exactly when that breaks its promise. If a
  region then reaches from below the wrapped end to above `at`, the list stops being sorted and disjoint and
  gains an empty region; otherwise it stays as it should be (`TableSpec.ProtectKeeps`). `TableSpec.WrapBreaks` is
  an input with both failures.
- `rsd_as_unmap` forgets only regions wholly inside the range; the rest of a cut region stays in the table
  although the host has unmapped part of it. `TableSpec.UnmapPromise` is the exact condition for the table to
  say that the pages unmapped are gone and nothing else is, `TableSpec.UnmapBreaks` an input where it does not.
  When the host then hands those pages out again with another permission, the in-line test and the full scan
  part: `RegionTables.RemapBreaks` is such a history.
- After an operand size prefix the interpreter still reads a four-byte immediate for 81 (`src/cpu.c:1442`), where
  the manual has two: `OpcodeMeanings.GroupMeans` says what it does. The compiler takes no such prefix.
- The check looks at registers only once the block's log has overflowed (`Validator.OverflowBlind`). At every
  state and count the interpreter gets through it then accepts a block that stored a wrong byte, logged it, and
  went on storing until the log was full (`Validator.OverflowMisses`, `Validator.OverflowMissesNops`). No block of
  this compiler stores that often (`ValidatedBlocks.CompiledAccepted`).

## Model

| member | source | states |
|---|---|---|
| ControlSimulation.InsnSimulates | src/jit.c:978-1211 | for every integer instruction kind, operand form, size, set of needed flags and state: executing its words either stops at a guest fault exactly when the instruction faults, or leaves the registers, needed flags, memory, write log and next rip the instruction means |
| Simulation.RrSimulates | src/jit.c:988-996 | the register-register case: low bytes computed at the chosen width are the interpreter's, merged back into 8-, 32- or 64-bit registers as it merges them |
| Simulation.RiSimulates | src/jit.c:988-996 | the register-immediate case, inc and dec included |
| Simulation.RmSimulates | src/jit.c:998-1007 | the register-memory case, with the load's fault taken before anything is written |
| MemorySimulation.RmwSimulates | src/jit.c:1097-1125 | read-modify-write and plain stores: the operands survive the store's call in scratch slots, and flags are computed after it |
| ShiftSimulation.ShiftSimulates | src/jit.c:1009-1048 | shifts by immediate or cl: a count of zero leaves operand and flags untouched and unread |
| MiscSimulation.ImulSimulates | src/jit.c:1050-1065 | the register product and the interpreter's signed product agree in the low bytes, and so do the flags |
| MiscSimulation.SetccSimulates | src/jit.c:1067-1079 | setcc writes 1 or 0 as cond says for all 16 codes, to a register or to memory |
| MiscSimulation.MovxSimulates | src/jit.c:1081-1095 | movzx and movsx of bytes and words, ah..bh included |
| MiscSimulation.LeaSimulates | src/jit.c:1127-1131 | lea leaves the address, cut to 32 bits when the operand is |
| ControlSimulation.PushSimulates | src/jit.c:1133-1140 | push lowers the stack pointer, then stores |
| ControlSimulation.PopSimulates | src/jit.c:1142-1150 | pop loads, then raises the stack pointer |
| ControlSimulation.JccSimulates | src/jit.c:1158-1164 | the selected next rip is the interpreter's for all 16 conditions and every flags word |
| ControlSimulation.CallSimulates | src/jit.c:1166-1175 | call pushes the return address and leaves with the target, or stops before leaving |
| ControlSimulation.RetSimulates | src/jit.c:1177-1187 | ret leaves with the popped address |
| ControlSimulation.CallMSimulates | src/jit.c:1189-1202 | an indirect call works out its address before the push moves the stack pointer |
| ControlSimulation.JmpMSimulates | src/jit.c:1204-1208 | an indirect jump leaves with the target it read |
| InlineRuns.InlineFlagsRun | src/jit.c:598-640 | for every operand at 32 and 64 bits and every set of flags asked for, the in-line sequence leaves exactly those flags as the interpreter's routine computes them and every other bit of the flags word as it was |
| AluRuns.FlagsRun | src/jit.c:644-658 | the flags are computed in line or by a call at byte size, and nothing else of the guest changes |
| AluRuns.FlagCallRuns | src/jit.c:647-657 | each flag routine is called with the arguments it expects in the registers it expects them |
| InlineFlags.AddsAgrees | src/cpu.c:183-192 | N, Z, C and V of the Arm manual's AddWithCarry are SF, ZF, CF and OF after an addition |
| InlineFlags.SubsAgrees | src/cpu.c:193-202 | after a subtraction the same, a borrow being carry clear |
| InlineFlags.WordRoundTrip | src/cpu.c:172-202 | the flags word and its fields determine each other |
| InlineFlags.WordOp | src/jit.c:634-638 | and-ing or clearing a mask in the flags word acts on the flags one by one |
| AluRuns.CondRuns | src/jit.c:488-509 | the even condition read from the flags word, and the sense the caller selects on, are cond for all 16 codes |
| AluRuns.ArithLow | src/jit.c:562-585 | reading wider than the operand is harmless: the low bytes of the result depend on the low bytes of the operands only |
| Fragments.ImmLoads | src/jit.c:69-74 | movz and as many movk as are emitted load exactly the 64-bit value |
| Fragments.WrRegRuns | src/jit.c:530-542 | a register write merges as the interpreter's does, ah..bh by bit-field insert |
| Fragments.EaRuns | src/jit.c:546-558 | the address code computes the effective address, wrapping at 64 bits, in every form |
| Accesses.EntryRuns | src/jit.c:675-692 | the wrapping subtraction and one unsigned compare answer whether the address is inside a cache entry |
| Accesses.LoadRuns | src/jit.c:694-710 | in-line check, fast load and helper call together are the interpreter's ld |
| Accesses.StoreRuns | src/jit.c:712-739 | and for stores its st, the log entry made under checking included |
| Accesses.FaultCheckRuns | src/jit.c:100-105 | after a helper the run goes on exactly if the cpu is still running |
| Liveness.FlagLiveness | src/jit.c:475-482 | the backward pass stores for each instruction the flags it writes that something later reads before they are overwritten, everything being live at the end |
| Liveness.CondReads | src/jit.c:445-449 | a condition depends on no flag outside its cc_reads set |
| Liveness.CondReadsExactly | src/jit.c:445-449 | and on every flag in it: no smaller set would do |
| Liveness.RoutineFrame | src/jit.c:453-469 | flags_written is a must-write set: each routine writes every flag in it whatever it was, and no other |
| Liveness.StepAgrees | src/jit.c:475-482 | one instruction computing only needed flags and one computing all agree on every live flag, register and byte afterwards |
| Liveness.RunsAgree | src/jit.c:429-482 | so do the two runs after any number of a block's instructions |
| Liveness.LivenessPreserves | src/jit.c:436-439 | at the end of the block they are in the same state |
| Engines.StrictIs | src/cpu.c:1326-1330 | the interpreter's meaning is the compiled one but for the reads it makes first |
| Engines.EnginesAgree | src/cpu.c:1602-1622 | the engines agree on an instruction exactly when that read is allowed, or the table refuses the store, push or full-width read compiled code makes instead |
| Engines.SparedAgrees | src/jit.c:1101-1106 | they always agree if writable regions are readable and indirect targets are read at full width, or every region is readable |
| Engines.PlainDecodes | src/jit.c:213-260 | the bytes of mov [0x1000], rbx decode to the store of the first example |
| Engines.WriteOnlyDiffers | src/cpu.c:1329 | a store to a write-only region goes through in compiled code and faults in the interpreter |
| Engines.NarrowDecodes | src/jit.c:213-427 | the bytes of jmp [0x1ffc] decode to the jump of the second |
| Engines.NarrowReadDiffers | src/cpu.c:1608 | a 4-byte first read may be refused where the 8-byte read is not |
| OutputBuffer.Buffer.constructor | src/jit.c:1319 | an empty buffer over the words |
| OutputBuffer.Buffer.Put | src/jit.c:64-67 | a word is appended, or the buffer is full for good |
| OutputBuffer.Buffer.PutFaultBranch | src/jit.c:100-105 | a branch to the fault exit is appended and its index remembered, within the list's bounds |
| OutputBuffer.Buffer.Patch | src/jit.c:660-665 | a branch already emitted is overwritten and nothing else changes |
| OutputBuffer.HolesExact | src/jit.c:60-61 | the remembered indices are exactly those of the open branches, in order, once each |
| Emitter.EmitImm | src/jit.c:69-74 | appends the words that load the value, as far as they fit |
| Emitter.EmitFlagsInline | src/jit.c:598-640 | appends the in-line flag sequence for the flags asked for |
| Emitter.PatchTo | src/jit.c:660-665 | a branch emitted with no distance ends up pointing here |
| Emitter.EmitRegionCheck | src/jit.c:675-692 | appends the check of both cache entries, its first branch patched, its second left to the caller |
| Emitter.EmitLoad | src/jit.c:694-710 | appends the load with both its branches patched over the path they skip |
| Emitter.EmitStore | src/jit.c:712-739 | appends the store, logged first under checking |
| Emitter.EmitShiftCl | src/jit.c:1015-1046 | the branch for a zero count is patched past everything that follows |
| Emitter.EmitInsn | src/jit.c:978-1211 | for every integer instruction, appends exactly the words whose execution is proved, or leaves the buffer full if they do not fit |
| ControlFlow.InsnShaped | src/jit.c:660-739 | every branch an instruction emits goes forward and inside its own words, but for at most two to the fault exit, and every operand is one its encoder is meant for |
| BlockRuns.FixesSuffice | src/jit.c:60-61 | a 48-instruction block remembers at most 96 branches, so the list of 256 never overflows |
| BlockRuns.BlockForward | src/jit.c:1343-1350 | in a finished block no branch is left open and every one goes forward to a word of the block |
| BlockRuns.PatchedRuns | src/jit.c:1349-1350 | pointing the open branches at the exit makes leaving through one run the exit, and changes no other path |
| Block.EmitInsns | src/jit.c:1321-1327 | instructions are emitted until one does not fit, and how many fitted is known |
| Block.EmitFitting | src/jit.c:1317-1332 | cutting and compiling again ends, with a body that fits in all but 24 words, compiled with all flags live at the cut and continuing at the first instruction dropped |
| Block.EmitTail | src/jit.c:1338-1348 | the reserved words always hold the way out and the fault exit, so finishing never overflows |
| Block.PatchFaults | src/jit.c:1349-1350 | every remembered branch is pointed at the exit and no other word changes |
| Block.Compile | src/jit.c:1317-1350 | a block is declined exactly if fewer than two instructions survive; otherwise the words are the finished block's |
| BlockRuns.BodyRuns | src/jit.c:1317-1327 | the words of a run of instructions do what its instructions mean one after another |
| BlockRuns.BlockMeaning | src/jit.c:1284-1370 | executing a finished block returns with x30 and the stack as they were, and the guest as running its instructions with all flags leaves it, or stopped exactly if that faults |
| BlockRuns.BlockSimulates | src/jit.c:1284-1370 | whenever count interpreter steps can be made, the block leaves the same registers, flags, memory, log and next rip |
| BlockRuns.BlockEquivalent | src/jit.c:1284-1370 | where the extra reads cannot matter the two agree on faults as well |
| BlockRuns.BlockTerminates | src/jit.c:100-110 | a program counter run from the first word returns within as many steps as there are words |
| BlockRuns.BlockInRange | src/emit.h:36-297 | every word of a finished block is one its encoder is meant for |
| BlockRuns.BlockWords | src/jit.c:1355-1360 | the encoded words, read back and executed, do the same |
| Encoding.RoundTrip | src/emit.h:36-230 | reading back the word of any integer encoder, and of b.cond, blr and ret after them, gives its instruction and operands for all registers, offsets, shifts, conditions and signed distances in range; a shift by zero reads as no shift, and cset and csetm as csinc and csinv of the zero register on the opposite condition |
| Encoding.CanonSteps | src/emit.h:64-112 | either spelling of a word does the same |
| Encoding.CsetIsCsinc | src/emit.h:228-230 | adding one to zero on the opposite condition sets what cset means, exactly for the fourteen conditions that have an opposite |
| Encoding.CsetmIsCsinv | src/emit.h:192-197 | and complementing zero what csetm means |
| Encoding.SplitJoin | src/emit.h:36-230 | the fields of a word do not overlap |
| Decoder.Decode | src/jit.c:213-427 | an accepted integer instruction takes 1 to 12 bytes, and every byte looked at lies in the 16 that were checked |
| Decoder.DecodeWellFormed | src/jit.c:213-427 | what is accepted has the operands and sizes the compiler relies on |
| OperandAgreement.OperandAgrees | src/cpu.c:275-326 | ModRM, SIB and displacement name the same address to the decoder and to the interpreter, RIP-relative ones counted from the end of the instruction |
| OperandAgreement.OperateLow | src/jit.c:262-265 | immediates the two cut differently act the same |
| OperandAgreement.RowMemAgrees | src/cpu.c:1309-1352 | the row of register and memory operations is read and executed alike |
| OperandAgreement.ImmGroupAgrees | src/cpu.c:1437-1462 | so is the immediate group |
| DecoderAgreement.MovRmAgrees | src/cpu.c:1539-1548 | and moves of immediates to register or memory |
| DecoderAgreement.AccAgrees | src/cpu.c:1354-1392 | and the accumulator forms |
| DecoderAgreement.ShiftAgrees | src/cpu.c:1517-1534 | and shifts, the count masked and a zero count ending before the operand is read |
| DecoderAgreement.ImulImmAgrees | src/cpu.c:1415-1425 | and imul by an immediate |
| DecoderAgreement.JumpAgrees | src/cpu.c:1427-1435 | and jumps: the same next and target address |
| DecoderAgreement.Group5Agrees | src/cpu.c:1602-1622 | and inc, dec and the indirect call and jump |
| DecoderAgreement.TwoAgrees | src/cpu.c:1624-1684 | and the two-byte opcodes |
| DecoderAgreement.StepAgrees | src/cpu.c:1259-1704 | whatever the decoder accepts, one interpreter step on the same bytes is the decoded instruction's meaning and continues after the same length, or faults if the first byte may not be executed |
| OpcodeMeanings.RowMeans | src/cpu.c:1309-1352 | from the bytes, with any of the operand size and REX prefixes: 00-03, 08-0b, 20-23, 28-2b, 30-33, 38-3b, 84, 85 and 88-8b add, or, and, subtract, xor, compare, test and copy between the register and the operand the manual's tables name, and leave the result there in its low bytes with the flags of section 3.4.3.1 of the Intel SDM, or fault |
| OpcodeMeanings.GroupMeans | src/cpu.c:1437-1462 | 80, 81 and 83 do the same with an immediate, for /0, /1 and /4 to /7 |
| OpcodeMeanings.AccMeans | src/cpu.c:1354-1392 | and 04, 05, 0c, 0d, 24, 25, 2c, 2d, 34, 35, 3c, 3d, a8 and a9 with the accumulator |
| MoreOpcodes.MovImmMeans | src/cpu.c:1502-1515 | b0 to bf write an immediate of the operand's size to a register |
| MoreOpcodes.MovStoreMeans | src/cpu.c:1539-1548 | c6 and c7 write one to a register or to memory they do not read |
| MoreOpcodes.ShiftMeans | src/cpu.c:1517-1535 | c0, c1 and d0 to d3 shift by an immediate, by one or by cl, masked to five or six bits; nothing happens at zero |
| MoreOpcodes.ProductMeans | src/cpu.c:1415-1425 | 69 and 6b leave the low bytes of the signed product with an immediate |
| MoreOpcodes.LeaMeans | src/cpu.c:1472-1478 | 8d leaves the address itself |
| MoreOpcodes.PushMeans | src/cpu.c:1394-1399 | 50 to 57 store the register as it was, eight below the stack pointer |
| MoreOpcodes.PopMeans | src/cpu.c:1400-1404 | 58 to 5f load it back, into the stack pointer itself too |
| MoreOpcodes.JumpMeans | src/cpu.c:1427-1435 | c3, e9, eb and 70 to 7f go where the stack or the displacement says, if the condition holds |
| MoreOpcodes.CallMeans | src/cpu.c:1556-1557 | e8 pushes the next address and goes on at its displacement |
| MoreOpcodes.StepsFrom | src/cpu.c:1602-1616 | inc and dec: the flags of adding or subtracting one, but CF as it was |
| MoreOpcodes.IndirectMeans | src/cpu.c:1602-1622 | /2 and /4 of ff read their operand at its own size, and then, after the push, the target at eight bytes |
| MoreOpcodes.TwoJumpMeans | src/cpu.c:1631-1638 | 0f 1e and 1f do nothing, 0f 80 to 8f jump over four bytes of displacement |
| MoreOpcodes.SetccMeans | src/cpu.c:1639-1643 | 0f 90 to 9f write one byte, 1 or 0 |
| MoreOpcodes.TwoProductMeans | src/cpu.c:1668-1674 | 0f af leaves the low bytes of the signed product of two operands |
| MoreOpcodes.ExtendMeans | src/cpu.c:1675-1682 | 0f b6, b7, be and bf extend one byte or two, by zeros or by the sign |
| MoreOpcodes.StepPrefixes | src/cpu.c:1274-1292 | up to fourteen legacy prefixes in any order are skipped: 66 among them means 16 bits, REX.W after them 64, and one that moves an address ends the model's part |
| OpcodeMeanings.AluMeans | src/cpu.c:172-202 | at every size the results are sum, difference, or, and and xor of the low bytes, CF is the carry or borrow, OF tells of a signed result that does not fit, AF is the carry or borrow of the low four bits, and a logical operation clears CF and OF and leaves AF |
| OpcodeMeanings.ModrmMeans | src/cpu.c:275-326 | ModRM, SIB and displacement name the register, or base plus scaled index plus displacement, of tables 2-2 and 2-3 of volume 2A of the Intel SDM, with REX.R, REX.X and REX.B where they belong, and take as many bytes |
| OpcodeMeanings.DecodesExactly | src/jit.c:213-427 | the decoder takes exactly the windows whose bytes say so, opcode by opcode |
| RegisterMeanings.OperandReads | src/cpu.c:153-162 | a register operand is the low bytes of its register, or bits 8 to 15 of one of the first four for ah, ch, dh and bh, which a REX prefix turns off |
| RegisterMeanings.OperandWrites | src/cpu.c:143-170 | a write leaves the value's low bytes there, clears the upper half after 32 bits, keeps the rest after 8 or 16, and changes no other register |
| RegisterMeanings.BitTables | src/cpu.c:1341-1345 | or, and, xor and bit clear act on each bit by itself |
| RegisterMeanings.SextMeans | src/cpu.c:134-141 | sign extension keeps the number the low bytes stand for |
| MemoryMeanings.StoredBytes | src/cpu.c:111-124 | byte i of the value goes to address a + i, lowest first, and no other byte changes |
| MemoryMeanings.LoadedBytes | src/cpu.c:97-109 | a load puts the bytes together in the same order |
| MemoryMeanings.StoreThenLoad | src/cpu.c:97-124 | what a guest stores it loads again |
| MemoryMeanings.AccessExact | src/cpu.c:61-68 | data may be touched exactly where every byte grants it, or, where the table does not know every byte, between 0x1000 and 2^48 |
| MemoryMeanings.Permissions | src/as.c:184 | read, write and execute are asked of the three permissions by themselves |
| MemoryMeanings.StoreIsLogged | src/cpu.c:82-95 | a store adds one log entry with the place, the width, the values before and after and the bytes before it, sixteen where sixteen may be read; at 512 entries it only marks the log |
| BlockSource.DecodeBlock | src/jit.c:1293-1311 | decoding stops at what cannot be executed or decoded, at 48, or after an instruction that leaves, and reports where the block ends |
| BlockSource.InterpretRuns | src/cpu.c:1808-1811 | interpreting a block's bytes is running its decoded instructions in order |
| BlockSource.FallsThrough | src/jit.c:148 | an instruction that does not end a block goes on with the next |
| BlockSource.EndsElsewhere | src/jit.c:148 | and each kind that does can go elsewhere |
| Regions.HitMeansOk | src/jit.c:667-692 | the in-line test on a valid entry implies the full check for every access of up to 8 bytes, in any table whose regions agree |
| TableSpec.OkExact | src/as.c:179-190 | rsd_as_ok is true exactly when the range does not wrap and the first region holding each byte grants the access; a sorted list is enough, and so is one whose regions agree |
| TableSpec.InsertKeeps | src/as.c:57-72 | inserting fresh memory keeps the list sorted and disjoint |
| TableSpec.InsertExact | src/as.c:57-72 | a region that agrees with the table about the bytes it has already changes the permission of its own bytes alone, in any list at all |
| TableSpec.InsertUniform | src/as.c:57-72 | regions go on agreeing about every byte exactly when the new one does |
| TableSpec.ProtectKeeps | src/as.c:104-134 | protecting any range keeps the list sorted, disjoint and free of empty regions, unless the end wraps and some region reaches from below it to above the start: then it loses all three |
| TableSpec.WrapBreaks | src/as.c:106-127 | an input on which a protect whose end wraps leaves three pieces out of order and the byte asked for as it was |
| TableSpec.ProtectUniform | src/as.c:104-134 | however the range lies, regions that agreed about every byte still do |
| TableSpec.ProtectExact | src/as.c:104-134 | a range that does not wrap changes exactly its mapped bytes, to exactly the permission asked for |
| TableSpec.ProtectWrapped | src/as.c:106 | a range that wraps changes no byte's permission, whatever it does to the list |
| TableSpec.ProtectPromise | src/as.c:104-134 | so the promise is kept exactly when the end does not wrap or every mapped byte from the start up had the permission already |
| TableSpec.RemovedSound | src/as.c:143-149 | unmapping keeps the list sorted and disjoint |
| TableSpec.RemovedExact | src/as.c:143-149 | a byte stays in the table, as it was, exactly when a region not wholly inside the range holds it |
| TableSpec.UnmapPromise | src/as.c:136-151 | the table says afterwards that the pages unmapped are gone and everything else is as it was, if and only if every region that holds anything lies inside them or outside |
| TableSpec.UnmapBreaks | src/as.c:144 | an input where one of a region's two pages is unmapped and still said to be readable |
| RegionTables.RegionTable.FindRegion | src/as.c:45-50 | the first region holding an address, or none |
| RegionTables.RegionTable.Insert | src/as.c:57-72 | the region goes in before the first that does not start below it; out of memory only the caches are lost |
| RegionTables.RegionTable.Map | src/as.c:74-102 | what is recorded and returned, for each way the host may answer |
| RegionTables.RegionTable.SetProt | src/as.c:104-134 | the new list, within the 3n+1 entries allocated for it, or no change if they cannot be allocated |
| RegionTables.RegionTable.Unmap | src/as.c:136-151 | the new list, or no change if the host refuses |
| RegionTables.RegionTable.NoteAccess | src/as.c:153-164 | the newest entry goes first, and only regions of 8 bytes or more that allow the access are remembered |
| RegionTables.RegionTable.IsOk | src/as.c:179-190 | the scan ends, with the answer of the specification |
| RegionTables.RegionTable.IsMapped | src/as.c:166-177 | the same for any permission |
| RegionTables.EventKeeps | src/as.c:52-164 | every operation, whatever its arguments, keeps regions agreeing about every byte and each cache entry a current region that allows its access, as long as a mapping does not contradict the table |
| RegionTables.HistoryKeeps | src/as.c:52-164 | so does every history of operations, wrapping protects included |
| RegionTables.InlineAgrees | src/jit.c:675-739 | after any history, an address the in-line test lets through is one the full scan allows and every byte of the access is granted |
| RegionTables.RemapBreaks | src/as.c:74-151 | without that, they may part: half a region is unmapped and mapped again read-only, and a store into it passes the in-line test but not the scan |
| RegionTables.HistoryBytes | src/as.c:52-164 | after any history of calls that keep their promise, each byte's permission is what the calls, one after another, say of it |
| RegionTables.ScanIsHistory | src/as.c:179-190 | so rsd_as_ok is then a question about the calls alone, however the regions were cut and joined |
| RegionTables.MapCovers | src/as.c:76-82 | the pages mapped cover the range asked for |
| RegionTables.DownIsPage | src/as.c:77 | rounding down gives the greatest multiple of the page size that is not above |
| RegionTables.UpIsPage | src/as.c:78 | rounding up gives the least that is not below |
| RegionTables.RoundedPages | src/as.c:77-78 | between the two lie exactly the bytes of the pages a request meets |
| RegionTables.MapRecordsPages | src/as.c:74-102 | where the host gives the address asked for, the region recorded is exactly those pages |
| RegionTables.UnmapDropsPages | src/as.c:136-151 | unmapping drops exactly the regions that lie on those pages and on no other |
| CodeCache.Jit.Append | src/jit.c:1352-1361 | a block goes after every other in the arena and moves none |
| CodeCache.Jit.InstallKeeps | src/jit.c:1352-1366 | a new line leaves every line with code holding the block compiled for its own tag, and no two blocks overlapping |
| CodeCache.Jit.Lookup | src/jit.c:1284-1370 | the line's own answer if it is for the address; otherwise code exactly if the line is free, the address no stub, 16 bytes executable, two instructions survive and the arena has room; lines that have code keep it |
| CodeCache.Jit.Install | src/jit.c:1334-1366 | declined blocks are remembered as such, and one the arena has no room for is not |
| CodeCache.BlockTrip | src/cpu.c:1785-1790 | entering a cached block is as many interpreter steps as its line says; where every region is readable, it faults exactly if one of them does |
| Unlogged.InterpretSilent | src/cpu.c:111-124 | interpreting with a write log and without passes through the same states |
| CheckedRuns.ExecSane | src/cpu.c:82-95 | whatever words run, from whatever state, the log never holds more than its 512 entries, and is full if it says it has overflowed |
| CheckedRuns.CheckAgrees | src/cpu.c:1785-1831 | if a block agrees with the interpreter, so does what its check leaves, and the check lets a run go on only if the block got through |
| Dispatcher.RunBlock | src/cpu.c:1785-1879 | running a block, with checking or without, is as many interpreter steps as its line says |
| Dispatcher.RunCpu | src/cpu.c:1882-1913 | after any number of rounds of compiled blocks, checked or not, and interpreted steps, the state is the pure interpreter's after as many instructions as were counted, whenever it can make them, so that no disagreement is ever reported there; where every region is readable the run is still going if and only if it can |
| Stores.MeaningStores | src/cpu.c:111-124 | an instruction makes at most one store and logs it |
| StepStores.StepOnce | src/cpu.c:1259-1704 | so does one interpreter step, whichever of the modelled opcodes it finds |
| WriteLog.UndoWrites | src/cpu.c:1780-1783 | the loop puts the windows back from the last to the first |
| WriteLog.UndoRestores | src/cpu.c:1780-1783 | which returns memory to exactly what it was, however the writes overlapped and even if two entries were logged before one store |
| Validator.CheckBlock | src/cpu.c:1785-1831 | the verdict and the state left, for anything a block may have done |
| Validator.CompareWrites | src/cpu.c:1819-1829 | every logged write, and every byte of its window, is compared |
| Validator.ReplayTold | src/cpu.c:82-95 | the interpreter changes no byte it does not log, and n instructions make at most n entries |
| Validator.CheckSound | src/cpu.c:1785-1879 | if the check accepts, nothing faulted and the block's log has not overflowed, the interpreter gets through and its registers, xmm, flags, rip and every byte of memory are what the block left, provided the block changed only bytes in its logged windows |
| Validator.OverflowBlind | src/cpu.c:1816-1829 | once the block's log has overflowed the verdict is that of the registers alone |
| Validator.OverflowMisses | src/cpu.c:1783-1829 | and at every state and count the interpreter gets through, a block that logged everything it changed, undoes to where it started and yet left a wrong byte is accepted against its own replay, if its log overflowed |
| Validator.OverflowMissesNops | src/cpu.c:1783-1829 | for one, over two nops |
| Validator.AcceptsExactly | src/cpu.c:1807-1829 | with no log overflowed, a block is accepted exactly if it and its replay fault together or end alike, wrote the same values in the same places, and left the same bytes around each write |
| Validator.CheckComplete | src/cpu.c:1785-1879 | a block that ended as the interpreter does, log included, is accepted |
| ValidatedBlocks.CompiledAccepted | src/cpu.c:1785-1879 | a block of this compiler is not reported where the interpreter gets through, and its log never overflows |
| FlagMeanings.ConditionsCompare | src/cpu.c:193-243 | after a comparison at any size the codes b, e, be, l, le and their negations are the unsigned and signed comparisons of the operands |
| FlagMeanings.AdcExact | src/cpu.c:206-216 | adc of one limb: carry in and out exact, OF the signed overflow |
| FlagMeanings.SbbExact | src/cpu.c:218-228 | and sbb, with borrows |
| OpcodeMeanings.AdcSigns | src/cpu.c:206-216 | ZF, SF and PF of adc tell of its result, AF is the carry of the low four bits with the carry taken in, and no reserved bit changes |
| OpcodeMeanings.SbbSigns | src/cpu.c:218-228 | and of sbb, with borrows |
| FlagMeanings.ChainExact | src/cpu.c:1335-1340 | a chain of adc or sbb over any number of limbs is the exact sum or difference, CF the last carry or borrow |
| FlagMeanings.ChainOverflow | src/cpu.c:206-228 | and OF says whether the signed result fits |
| ShiftMeanings.ShiftsByOne | src/cpu.c:493-520 | one shift: doubling with the carry above it and OF for a signed doubling that does not fit; halving with the bit shifted out and OF the old sign; sign-keeping halving of the signed operand |
| ShiftMeanings.ShiftIterates | src/cpu.c:493-520 | a shift by any masked count, past the operand's width included, is that many shifts by one in result, CF, ZF, SF and PF, and in OF for a count of one |
| ShiftMeanings.ShiftOverflow | src/cpu.c:493-520 | OF after any count: the sign left against the bit pushed out, the old sign, or clear |
| SystemV.Reader.NextInt | src/cpu.c:574-580 | the next of rdi, rsi, rdx, rcx, r8 and r9, in that order, or the next stack slot once they are used up |
| SystemV.Reader.NextSse | src/cpu.c:582-587 | the low half of the next of xmm0 to xmm7, or the next stack slot |
| SystemV.ReadBack | src/cpu.c:564-587 | arguments placed as section 3.2.3 of the System V AMD64 ABI prescribes are read back in declaration order, however registers and stack interleave |

## Left out

- SSE and floating point: their opcodes end a block here as 16-bit forms do, and xmm registers are copied and
  compared without being read. The 16-byte store's two log entries are covered by the form of the histories in
  `WriteLog.History`.
- The interpreter's other opcodes (adc and sbb as instructions, xchg, movsxd, string and group-3 operations,
  leave, cmov, syscalls and so on), and steps with a segment or address-size prefix: `Interpreter.Step` answers
  Other for them, which the run-level results treat as a stop.
- Interpreter.Step: follows at most fourteen prefix bytes and answers Other beyond them; the original follows any
  number. The decoder accepts no window with that many.
- Interpreter.Step: the original also stops, without a fault, at the two magic return addresses 0xfffffffffffff000
  and 0xfffffffffffff100; here they are addresses like any other, and memory there is taken not to be executable.
- What a fault leaves behind (partly written state, cur_rip, the message), and everything printed.
- The instruction budget, profiling, tracing, dumps.
- Import stubs, native thunks, callbacks, the call gate and the trampolines; Lookup takes whether an address is
  a stub as an argument, and RunCpu is for addresses that are not.
- The entry stub (`src/jitenter.S`): a block starts with x19 pointing at the cpu and returns to x30.
- Host effects: mmap and munmap answers are arguments of the region table's methods; write protection of the
  arena, instruction cache flushes and allocation failures other than the region lists' are not modelled.
- Decoder.Decode: the decoder fills in an instruction as it goes; here it is a function that builds one, so
  aliasing of the structure is not captured.
- OutputBuffer.Buffer.Put: the buffer holds instructions, and the 32-bit words come in with Encoding and
  `BlockRuns.BlockWords`.
- Encoding.RoundTrip: covers the integer encoders; bit-field insert is given a meaning only for
  the byte at bit 8, and sign extension only from 8 and 16 bits, which is all that is emitted.
- Validator.CheckSound: says nothing once a log has overflowed, because the check then skips the comparison;
  `ValidatedBlocks.CompiledAccepted` shows that a block of at most 48 instructions never gets there.
- Validator.CheckBlock: a replay that faults ends here at the state before the faulting instruction; the original's
  step goes on, and may log a write after a failed read, which the comparison then sees.
- Dispatcher.RunCpu: is bounded by a number of rounds, because the original need not end.
- Mach-O loading, chained fixups, Objective-C and the format-string walk around the argument reader.
