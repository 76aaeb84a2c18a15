# Verified model of shimforge

shimforge replaces functions of a running process. It overwrites the first bytes of a function with a
jump, moves the displaced instructions to a page nearby, routes calls per thread or for the whole
process, answers them with configured responses, and undoes everything later. This project models the
five parts of it that carry the risk and proves what each of them promises:

- **Relocation** (`Arm64*.dfy`, `X86*.dfy`, `Bytes.dfy`, `Saved.dfy`). `Trampoline` is the two-pass
  relocator of each processor. A machine model gives meaning to the original and to the relocated
  code, and `MeaningPreserved` is a simulation: every run of the displaced prefix, loops inside it
  included, is followed by the relocated code to the same place with the same state. The decoders are
  tied to the bit and byte layouts of the manuals (`Arm64Encoding`, `X86Encoding`), and which prefixes
  are accepted and displaced is stated by these layouts and by addresses (`Arm64Acceptance`,
  `X86Acceptance`, the two `Plan` modules).
- **Routing and sessions** (`Routing*.dfy`, `EntryBehaviour.dfy`, `Failures.dfy`, `Process.dfy`). A state
  machine over the atomic steps of any number of threads. `RoutingSafety.Invariant` holds in every reachable state; from it follow what
  code memory holds, where calls go, that entries are published before code is patched, and that
  chains of replacements end. `EntryBehaviour` joins this with relocation: in every reachable state the
  bytes in memory lead a call to its dispatcher, and the saved original behaves as the initial code. The
  class `Process` has the operations themselves; each hands out the run of steps it performed.
- **Code writes** (`Memory.dfy`, `Remap.dfy`). Both write paths are atomic under every schedule of
  refused system calls.
- **Expectations** (`Expectation*.dfy`, `Mocks.dfy`). A second state machine, for rules, sequences,
  concurrent selection, verification and checkpoints, with the class `Mocks` on top of it.
- **Near pages** (`Executable.dfy`). Both searches, and the bounds that the jumps rely on.

`dafny verify dfyconfig.toml` checks the project.

## How it is modelled

Addresses are integers below 2^64; every checked, saturating or truncating operation of the program is
written out. Error values keep their kind and lose their text. Standards: the A64 encodings follow
sections C4.1 and C6.2 of the Arm Architecture Reference Manual (DDI 0487), the veneer register section
6.1.1 of AAPCS64, and the x86-64 formats sections 2.1 and 2.2.1.6 of volume 2A of the Intel SDM.

*Machines.* Instructions that the relocators copy are one uninterpreted step that sees the program
counter only through the fields they rewrite. Conditions, loads, operands, pushes and traps are
uninterpreted functions of the state, so the theorems hold for every choice of them.

*System calls* either take effect or are refused without effect, in any pattern; `fatal` is the third
outcome of a write, after which nothing is claimed. A ghost counter of refusals makes it possible to
say that a write which nobody refuses succeeds, and a ghost log of the page allocator's answers says why
a search found nothing. `Failures` lists the only reasons for which an installation may fail.

*Threads* interleave at single atomic loads and stores, at locked sections, and inside a lock where
another thread can look in between: publication, patching and registration of an entry are separate
steps, and so is every rule that a search or a verification looks at. Shared memory is sequentially
consistent. A node, local route or patch carries a `stamp`, its number in the order of installations,
and sequences and mocks carry a history; the program has no such fields, and what a step does to the
others never depends on them.

*Assumptions*, hypotheses of the theorems that need them or part of the model:
- no branch from outside enters the displaced bytes midway, and no data access touches them
  (src/lib.rs:217-218); runs of the prefix start at its entry;
- a page answers loads of its own literals (`Sealed`), in just those states in which a bridged call or a
  far jump reads one;
- the operand of a relocated indirect x86-64 call does not overlap the eight bytes that the bridge
  pushes before it reads the operand (`Undisturbed`), in just the state in which that call runs;
- operand-size prefixes on near branches are ignored, as Intel processors do;
- mapped regions do not overlap, they stay as they are during a write, and nobody else changes them or the bytes (src/memory.rs:73-74);
- regions that Windows reports end in the user half of the address space;
- sessions are dropped, not forgotten.

*Two promises turn out to hold only under a condition.* Relocated short x86-64 branches become long
ones. With ten or more prefixes (eleven for a plain jump) the long form exceeds the fifteen bytes that
an instruction may have: `LongJumpAccepted` names an accepted input, `LongBranchFaults` shows that its
relocation always faults, and `MirroredIff` proves that an accepted instruction keeps its meaning
exactly when its long form fits. And a verification can succeed while a call that has already been
turned down has yet to record that: `VerifiedInFlight` is such a run, and `VerifiedIs` proves that
success means that no call was ever turned down exactly when no call is in that window. A caller gets
there by verifying while no call of the mock is in progress: then, by `IdleVerified`, every call that
ever began was answered, and the counts of the rules add up to all of them.

## Model

| member | source | states |
|---|---|---|
| `Arm64Encoding.DecodesLayout` | src/code/arm64.rs:138-222 | every word that the manual's bit layouts make of B/BL, B.cond, CBZ/CBNZ, TBZ/TBNZ, ADR/ADRP, literal loads, BR/BLR/RET, MOVZ/MOVK, base loads and hints is decoded to what its fields mean |
| `Arm64Encoding.LayoutOf` | src/code/arm64.rs:138-222 | conversely, every word that is given one of these meanings has such a layout |
| `Arm64Encoding.OtherRegisterBranch` | src/code/arm64.rs:203-222 | of the other words of the register-branch family exactly RETAA and RETAB are known; the rest is undefined and nothing else is |
| `Arm64Encoding.TerminalIs` | src/code/arm64.rs:84-88 | a word ends a function exactly when it lies in the ranges of B, of the register branches, or is a BRK |
| `Arm64Encoding.ValidIs` | src/code/arm64.rs:79-82 | a word is refused as invalid exactly when it lies in the unallocated major opcode groups or is all ones |
| `Arm64Simulation.RelativeRoundTrip` | src/code/arm64.rs:37-48 | `relative` succeeds exactly for word-aligned targets in the span of the field, and decoding what it encodes gives the target back |
| `Arm64Simulation.HalvesWrite` | src/code/arm64.rs:54-62 | the four half-word moves build any 64-bit value, whatever the register held |
| `Arm64.EmitConstant` | src/code/arm64.rs:54-62 | the emitting loop appends exactly the four words of the constant |
| `Arm64Simulation.ReachConstant` | src/code/arm64.rs:54-62 | running these words loads the value into any real register and changes nothing else |
| `Arm64Meaning.JumpReaches` | src/code/arm64.rs:64-77 | either form of the jump reaches its target; the near form keeps the whole state, the far form changes x16 only |
| `Arm64Plan.PackRoundTrip` | src/code/arm64.rs:23-35 | words survive storage as little-endian bytes |
| `Arm64Plan.ChunksRoundTrip` | src/code/arm64.rs:23-35 | whole words of bytes survive being read as words |
| `Arm64Plan.CheckWords` | src/code/arm64.rs:106-114 | the loop over the displaced words passes exactly those without an unallocated word and without one before the last that ends the function |
| `Arm64Plan.MakePlan` | src/code/arm64.rs:90-120 | a plan exists exactly when both addresses are usable and different and, behind a landing pad given by its bytes, enough words follow for the jump, none of them unallocated and none but the last one that ends the function; the plan covers exactly the jump |
| `Arm64Plan.WindowSuffices` | src/code/arm64.rs:3 | the 32 bytes that are read of a function decide whether it can be planned |
| `Arm64.EmitDrafts` | src/code/arm64.rs:135-223 | the emitting loop computes the first pass: output, positions and pending branches, or its error |
| `Arm64.Find` | src/code/arm64.rs:226-230 | the position lookup finds the first entry for an offset |
| `Arm64.PatchBranches` | src/code/arm64.rs:224-240 | the fix-up loop, which overwrites words in place, computes the second pass or its error |
| `Arm64.Trampoline` | src/code/arm64.rs:127-247 | on whole words, the relocator computes `Relocated`, including every refusal; `AcceptedExactly` says when it succeeds and `MeaningPreserved` what it then means |
| `Arm64Acceptance.ExpandMatches` | src/code/arm64.rs:138-223 | an instruction is accepted exactly when its operand addresses exist, a literal is in reach or can be loaded through its register, and a call comes last; its block has the stated number of words and pending branch |
| `Arm64Acceptance.AcceptedExactly` | src/code/arm64.rs:122-247 | relocation succeeds exactly when every instruction of a non-empty prefix can be moved so, every branch reaches its target or the place of that target in the output, and the addresses exist |
| `Arm64Plan.TrampolineBytes` | src/code/arm64.rs:122-247 | on bytes, it relocates the words they hold, and refuses an empty string and one that is no whole number of words |
| `Arm64Layout.SlotsIncrease` | src/code/arm64.rs:154-172 | branch slots come in increasing order inside the output, so none is patched twice |
| `Arm64Layout.Patched` | src/code/arm64.rs:224-240 | the second pass changes exactly the listed words, each to the branch to its mapped target |
| `Arm64Layout.BlockLaid` | src/code/arm64.rs:122-240 | after both passes the output holds one resolved block per instruction |
| `Arm64Simulation.AnswerBranch` | src/code/arm64.rs:146-155 | a relocated B or BL goes where the original goes, and BL leaves the original return address in x30 |
| `Arm64Simulation.AnswerConditional` | src/code/arm64.rs:156-172 | the negated branch and the branch behind it take the decision of the original, for B.cond (AL and NV too), CBZ/CBNZ and TBZ/TBNZ |
| `Arm64Simulation.AnswerAddress` | src/code/arm64.rs:173-181 | ADR and ADRP leave the original address in their register |
| `Arm64Simulation.AnswerLiteral` | src/code/arm64.rs:182-202 | a literal load reads the original address, re-aimed or through its own register; a far prefetch becomes a no-op |
| `Arm64Simulation.AnswerCallRegister` | src/code/arm64.rs:203-208 | a relocated BLR goes to its register with the original return address in x30 |
| `Arm64Simulation.AnswerCopied` | src/code/arm64.rs:209-222 | any other accepted instruction is copied and has the same effect |
| `Arm64Meaning.DraftAnswers` | src/code/arm64.rs:138-223 | the block of any accepted instruction answers that instruction |
| `Arm64Meaning.StepMirrored` | src/code/arm64.rs:122-247 | one move of the original is followed to the mapped place inside the prefix, and to the same address outside |
| `Arm64Meaning.RunMirrored` | src/code/arm64.rs:122-247 | runs of any length inside the prefix, loops included, are followed move by move |
| `Arm64Meaning.MeaningPreserved` | src/code/arm64.rs:122-247 | from the page address, any run of the prefix and the move that leaves it are mirrored with the same state, except x16 after a far return |
| `Arm64Plan.RelocationSize` | src/routing.rs:136-147 | relocating a planned prefix takes less than the 512 bytes before the relay |
| `Arm64Plan.NearJumpsAreShort` | src/executable.rs:20-24 | on any page within reach the entry jump and the return jump take the one-word form |
| `X86Decode.DecodeBounds` | src/code/prefix.rs:30-213 | a decoded instruction has one to fifteen bytes, all present |
| `X86Decode.DecodeLocal` | src/code/prefix.rs:30-258 | the result depends only on the inspected bytes of the instruction |
| `X86Decode.FieldsInside` | src/code/prefix.rs:30-258 | all reported fields lie inside the instruction, and only combinations the relocator handles occur |
| `X86Decode.DecodeTruncated` | src/code/prefix.rs:223-235 | every shorter truncation is refused |
| `X86Reader.Reader.Skip` | src/code/prefix.rs:228-235 | skipping advances by the count within the bytes and the fifteen-byte limit, or fails |
| `X86Reader.Reader.ModRm` | src/code/prefix.rs:237-257 | reads the operand form: displacement size, RIP-relative field, memory operand; `X86Encoding.ReadsAddressing` and `FindsAddressing` give these by the tables of the manual |
| `X86Reader.Reader.Opcode` | src/code/prefix.rs:37-61 | the prefix loop stops at the first other byte with the flags of the prefixes before it |
| `X86Reader.TwoByte` | src/code/prefix.rs:165-199 | opcodes behind the 0x0f escape agree with the opcode map |
| `X86Reader.Transfer` | src/code/prefix.rs:69-104 | returns, traps, direct jumps and direct calls agree with the opcode map |
| `X86Reader.WithoutOperand` | src/code/prefix.rs:68-117 | the other opcodes without an operand agree with the opcode map |
| `X86Reader.LastGroups` | src/code/prefix.rs:151-164 | the last two groups, with the indirect calls and jumps, agree with the opcode map |
| `X86Reader.WithOperand` | src/code/prefix.rs:110-150 | the other opcodes with an operand agree with the opcode map |
| `X86Reader.DecodeInstruction` | src/code/prefix.rs:30-213 | the reading loop computes the reference decoder, which `X86Encoding` ties to the layouts of the manual in both directions, and refuses with one error |
| `X86Encoding.FormIs` | src/code/prefix.rs:62-203 | for every opcode and every prefix state, what the decoder expects to follow is what the opcode maps say, and opcodes outside the maps are refused |
| `X86Encoding.OperandRules` | src/code/prefix.rs:110-164 | immediates of groups, opcode extensions and lockable operations are exactly the listed ones |
| `X86Encoding.ReadsAddressing` | src/code/prefix.rs:237-257 | ModRM, SIB and displacement as the addressing tables lay them out are read completely, with the RIP-relative field in its place |
| `X86Encoding.FindsAddressing` | src/code/prefix.rs:237-257 | conversely, whatever is read as an operand is laid out so |
| `X86Encoding.DecodesLayout` | src/code/prefix.rs:30-213 | prefixes, opcode, ModRM, SIB, displacement and immediate, laid out legally in at most fifteen bytes, decode to an instruction of exactly their total size with the fields, branch, call and end-of-function mark that its opcode has, whatever follows |
| `X86Encoding.LayoutOf` | src/code/prefix.rs:30-213 | nothing else decodes: whatever does begins with such a layout |
| `X86Simulation.DisplacementRoundTrip` | src/code/relocate.rs:102-107 | a displacement exists exactly for targets in the signed 32-bit range and decodes to its target |
| `X86Plan.JumpReaches` | src/code/x86.rs:51-64 | either form of the jump reaches its target in one step with the same state, whatever padding follows |
| `X86Plan.TilesCut` | src/code/x86.rs:30-48 | cutting the bytes behind the last whole instruction changes no instruction, so all passes see the same ones |
| `X86Plan.Measure` | src/code/x86.rs:31-42 | the loop over the instructions computes the specified cut or its error; `PlanExactly` gives it by layouts |
| `X86Plan.MakePlan` | src/code/x86.rs:19-49 | the loop computes the specified plan; it succeeds exactly when both addresses are usable and different and, behind a landing pad that stays, whole legal instructions make room for the jump with none to spare and none but the last a return, tail jump or trap; exactly those are displaced |
| `X86Plan.PlanExactly` | src/code/x86.rs:19-49 | the same of the specification, with the errors for unusable and equal addresses |
| `X86Plan.PlanCovers` | src/code/x86.rs:19-49 | a plan displaces whole instructions, enough for the jump and less than one more, and pads the jump with NOPs to their length |
| `X86Plan.WindowSuffices` | src/code/x86.rs:10 | the 32 bytes that are read of a function decide its plan, landing pad, far jump and longest instructions included |
| `X86Plan.NeedsCallBridge` | src/code/relocate.rs:120-130 | on a planned prefix it never fails and reports calls exactly |
| `X86Layout.EmitAll` | src/code/relocate.rs:15-89 | the emitting loop computes the first pass or its error |
| `X86Layout.FixAll` | src/code/relocate.rs:90-108 | the loop that overwrites displacements in place computes the second pass or its error |
| `X86Layout.Trampoline` | src/code/relocate.rs:4-118 | the relocator computes `Relocated`, including every refusal; `AcceptedExactly` says when it succeeds and `MeaningPreserved` what it then means |
| `X86Acceptance.FieldIs` | src/code/relocate.rs:37-41 | a displacement field is read as a little-endian number in two's complement |
| `X86Acceptance.ExpandIs` | src/code/relocate.rs:19-88 | one instruction is accepted exactly when it may be moved, a call comes last and its RIP-relative operand stays in reach; its block has the stated length and pending displacement |
| `X86Acceptance.AcceptedExactly` | src/code/relocate.rs:4-118 | relocation succeeds exactly when all instructions decode and can be moved so, every branch and call reaches its target or the place of the instruction it targets in the output, and the way back is in reach |
| `X86Layout.SlotOwner` | src/code/relocate.rs:55-62 | every pending displacement belongs to one emitted unit |
| `X86Layout.Fixed` | src/code/relocate.rs:90-108 | the second pass writes each pending field with its displacement and nothing else |
| `X86Layout.UnitFinal` | src/code/relocate.rs:19-108 | the finished output holds every unit with its branch resolved |
| `X86Simulation.Aimed` | src/code/relocate.rs:69-82 | a re-aimed copy differs in its field only, which forms the original address |
| `X86Simulation.AnswerBranch` | src/code/relocate.rs:35-56 | a branch and its long form take the same decision, exactly when the long form is an instruction |
| `X86Simulation.AnswerDirect` | src/code/relocate.rs:27-33 | the bridge of a direct call pushes the original return address and goes to the same target |
| `X86Simulation.DecodeInstead` | src/code/relocate.rs:64-67 | changing the group turns an indirect call into a jump through the same operand |
| `X86Meaning.UnitAnswers` | src/code/relocate.rs:19-108 | the block of any unit with a valid encoding answers its instruction |
| `X86Meaning.StepMirrored` | src/code/relocate.rs:4-118 | one move of the original is followed to the image of its next address, which outside the prefix is that address |
| `X86Meaning.LongBranchFaults` | src/code/relocate.rs:35-56 | a relocated branch of more than fifteen bytes faults, although the original goes on |
| `X86Meaning.MirroredIff` | src/code/relocate.rs:4-118 | an accepted instruction keeps its meaning exactly when its long form fits fifteen bytes |
| `X86Meaning.RunMirrored` | src/code/relocate.rs:4-118 | runs of any length inside the prefix, loops included, are followed move by move |
| `X86Meaning.DirectMove` | src/code/prefix.rs:151-164 | an indirect call leaves the prefix, so runs inside it never depend on its operand |
| `X86Meaning.MeaningPreserved` | src/code/relocate.rs:4-118 | for every accepted prefix, any run from its entry and the move after it are mirrored from the page address with the same state; only branches and calls that the run meets have to be encodable and find their literal |
| `X86Simulation.ReachLonger` | src/routing.rs:145-147 | what follows on the page does not change a run of the relocated code |
| `X86Plan.LongJumpAccepted` | src/code/relocate.rs:35-56 | an accepted prefix whose relocated branch is too long |
| `X86Plan.RelocationSize` | src/routing.rs:136-147 | relocating a planned prefix takes less than the 512 bytes before the relay |
| `X86Plan.NearJumpsAreShort` | src/executable.rs:20-24 | on any page within reach the entry jump and the return jump have a 32-bit displacement |
| `Saved.MakePlan` | src/routing.rs:124-131 | on either processor a plan exists exactly for the functions that its plannable predicate describes; it saves whole instructions of one function behind the landing pad, as many bytes as it replaces, and starts with the jump to the relay |
| `Saved.ReadSuffices` | src/routing.rs:124-127 | on either processor the bytes that are read of a function decide whether it can be planned, however long it is |
| `Saved.RelocatedFits` | src/routing.rs:136-145 | for every plan the relocated prefix leaves the relay untouched |
| `Saved.Build` | src/routing.rs:136-147 | the page is built exactly when the prefix can be relocated there, the dispatcher be jumped to, and a call in it meets no shadow stack; the patch then leads to the relay, the page starts with the whole relocated prefix, and holds breakpoints up to the jump to the dispatcher at byte 512 |
| `Saved.CheckBridge` | src/routing.rs:137-144 | reports calls of a planned prefix exactly, and fails exactly for a call where a shadow stack is, or may be, in use |
| `Saved.NearIsShort` | src/executable.rs:20-24 | on every page in reach the entry jump and the return jump of a planned prefix take the short form |
| `Executable.SearchUnix` | src/executable/unix.rs:27-52 | success holds exactly the returned page, the first one offered within `REACH - CAPACITY`; running out of hints holds none after each usable hint was asked for and every page offered was too far; a failed release holds exactly the far page |
| `Executable.HintNear` | src/executable/unix.rs:34-43 | every usable hint is aligned, within reach, and on its side of the function |
| `Executable.HintsSpread` | src/executable/unix.rs:34-40 | consecutive hints on one side are `REACH / 64` apart, up to alignment |
| `Executable.HintsReach` | src/executable/unix.rs:33-40 | the hints start at the function and the last ones lie at the two edges of the reach, up to alignment |
| `Executable.SomeHint` | src/executable/unix.rs:33-43 | every function that pages are searched for has a usable hint |
| `Executable.FallBack` | src/executable/unix.rs:17-25 | a distant page replaces only the lack of a near one, and no page is lost |
| `Executable.SearchWindows` | src/executable/windows.rs:60-84 | returns the lowest aligned page in reach that was granted; every aligned candidate before it, or all when space is insufficient, was taken, too small or refused; any other error means that the last query failed or described another region |
| `Executable.Page.Publish` | src/executable.rs:60-71 | a page is written at most once, also when sealing fails, and an acceptable first publication fails only with that |
| `Memory.ExecutableRegions` | src/memory.rs:44-65 | the walk returns consecutive regions that cover the range, or its part before the first gap; a fully executable range is covered unless a call is refused |
| `Memory.Read` | src/memory.rs:67-71 | what is read is what memory holds; unrefused, it is all executable code up to the first gap or the limit, and an error says which of the causes it has |
| `Memory.PlanPages` | src/memory.rs:104-118 | the page ranges describe their protection, cover every written byte across all regions, and each reaches into the range; they exist exactly when the last page ends inside the address space |
| `Memory.OverlayUndone` | src/memory.rs:143-147 | writing the saved bytes back undoes the write |
| `Memory.RaiseAll` | src/memory.rs:125-130 | pages are raised in order; a refusal leaves exactly the pages before it raised |
| `Memory.LowerAll` | src/memory.rs:134-138 | success gives every page its own protection back |
| `Memory.RestorePermissions` | src/memory.rs:158-165 | the protection is as it was, or the process ends |
| `Memory.Swap` | src/memory.rs:123-155 | once pages are planned the write is all or nothing, through every failure and roll back |
| `Memory.Replace` | src/memory.rs:84-156 | Ok means an allowed write: the expected bytes in executable code became the new ones under the old protection; an error means nothing changed; and an allowed write that no call refuses succeeds |
| `Remap.EditPage` | src/memory/macos/remap.rs:126-129 | the edited page holds what memory holds after the write |
| `Remap.StageAll` | src/memory/macos/remap.rs:117-132 | staging prepares both images of every page and changes no code |
| `Remap.RollBack` | src/memory/macos/remap.rs:138-146 | mapping the originals back, last first, restores memory from any number of installed pages, or is fatal |
| `Remap.InstallAll` | src/memory/macos/remap.rs:133-150 | all pages hold the new bytes, or all the old ones, or the process ends |
| `Remap.Reassembled` | src/memory/macos/remap.rs:126-129 | the per-page slices reassemble exactly the replacement |
| `Remap.StageAndInstall` | src/memory/macos/remap.rs:110-151 | the write is all or nothing, protection never changes, and no image outlives it |
| `Remap.Replace` | src/memory.rs:120-121 | the remapping path meets the same contract as the writing path |
| `RoutingInvariant.StepExtends` | src/routing.rs:20-21 | no step changes the link, dispatcher, patch or saved original of a published entry |
| `RoutingSafety.InvariantKept` | src/routing.rs:87-246 | every step of every thread keeps list shape, ownership, locks, routes, global targets, code bytes and installation order |
| `RoutingSafety.RunKeeps` | src/routing.rs:87-246 | so does every run |
| `RoutingSafety.SavedInitial` | src/routing.rs:124-131 | what any live patch saved is the code from before all patches |
| `RoutingSafety.NewTargetUnknown` | src/routing.rs:103-112 | a new replacement leads to a function that nothing replaces at that moment |
| `RoutingSafety.RestoreEnabled` | src/lib.rs:371-377 | a patch of a global session can be taken back in every state, also after failed attempts |
| `RoutingTheorems.CodeInEveryState` | src/lib.rs:233-294 | in every state that any run reaches, each byte is that of the one live patch covering it, else the initial one, and live patches are disjoint |
| `RoutingTheorems.OnlyEntries` | src/lib.rs:363-379 | without a global session only registered entries change code, and no entry has a global target |
| `RoutingTheorems.NoTrace` | src/lib.rs:363-393 | whatever happens during a global session, after it code, list and global targets are as before it |
| `RoutingTheorems.FindFromHead` | src/routing.rs:59-80 | from the published head a record's dispatcher leads to that record, also while another entry is being installed |
| `RoutingTheorems.LocalTargetIs` | src/routing.rs:95-102 | a thread's table has one line for a dispatcher, the one of its source |
| `RoutingTheorems.SiteTaken` | src/routing.rs:104-122 | once a dispatcher site has routed a source, no run lets it route another |
| `RoutingTheorems.ResolveIs` | src/routing.rs:42-80 | a call goes to the thread's own target, else to the entry's global target or saved original |
| `RoutingTheorems.ResolveNone` | src/routing.rs:59-80 | a dispatcher without an entry, registered or on its way, resolves to nothing |
| `RoutingTheorems.LocalResolution` | src/routing.rs:42-57 | with local sessions only, a call goes to the thread's own target or to the saved original |
| `RoutingTheorems.GlobalResolution` | src/routing.rs:198-227 | under a global session every thread resolves to the entry's global target, which only routes that the session lists have, else to the saved original |
| `RoutingTheorems.Isolated` | src/lib.rs:119-133 | while a thread has a local session, no run of other threads changes where its calls go |
| `RoutingTheorems.PublishedBeforePatched` | src/routing.rs:165-181 | in every state, between publication and registration and after a failed write too, a changed byte belongs to an entry that callers find or to the global session |
| `RoutingTheorems.WalkFinds` | src/routing.rs:59-80 | a walk ends at the entry that the list held when its head was loaded, whatever was installed since |
| `RoutingTheorems.WalkAnswers` | src/routing.rs:59-80 | a walk for an entry recorded before it began gives what the call resolves to when it ends |
| `RoutingTheorems.WalkShrinks` | src/routing.rs:61-78 | each step of a walk brings it nearer to the end of the list |
| `RoutingTheorems.WalkGoesOn` | src/routing.rs:61-78 | a walk can always take its next step or answer, whatever other threads do |
| `RoutingTheorems.ChainsEnd` | src/lib.rs:245-250 | chains of replacements have no cycle and at most as many links as there were installations |
| `EntryBehaviour.RunFurnished` | src/routing.rs:148-164 | over every run, entries stay what their installation built |
| `EntryBehaviour.CallReachesDispatcherX86` | src/routing.rs:124-164 | in every reachable state, memory holds an entry's patch, and running it leads to the relay and on to the dispatcher with the same state |
| `EntryBehaviour.SavedRunsInitialX86` | src/routing.rs:136-164 | in every reachable state, the page of a saved original, run from its start, follows any run of the code that was there before all patches |
| `EntryBehaviour.CallReachesDispatcherArm64` | src/routing.rs:124-164 | the same for ARM64, where far jumps change x16 |
| `EntryBehaviour.SavedRunsInitialArm64` | src/routing.rs:136-164 | the same for ARM64, with x16 exempt after a far return |
| `Process.Process.Fallback` | src/routing.rs:59-80 | the walk returns the global target or saved original of the dispatcher's entry, and panics exactly for an original with a bridged call under a shadow stack |
| `Process.Process.Route` | src/routing.rs:42-57 | returns what the call resolves to, and panics exactly when the thread has no target of its own and the walk panics |
| `Process.Process.Near` | src/executable.rs:46-54 | the page is the one its system's search found, within reach of the function except on Apple Silicon, where a distant one may stand in; an error is an unusable source or a search that the reports of the allocator show to be exhausted |
| `Process.Process.PrepareEntry` | src/routing.rs:124-164 | the patch fits the function and clashes with no entry, the page is built for it, and with a near page both jumps are short; unrefused, it fails only when `NoEntry` holds |
| `Process.Process.Open` | src/lib.rs:146-183 | succeeds exactly when the thread has no session and the lock is free for its kind |
| `Process.Process.Close` | src/lib.rs:382-393 | ends a session that has nothing left, and releases its lock |
| `Failures.CanRouteIs` | src/routing.rs:92-112 | the guard of the routing steps is the absence of a clash, written with the address ranges of the entries |
| `Process.Process.CheckRoute` | src/routing.rs:92-114 | reports equal addresses and clashes with an entry, site or own route exactly, and otherwise fails only for an unreadable target or dispatcher or a refused call |
| `Process.Process.InstallEntry` | src/routing.rs:148-192 | publishes, patches and registers, or takes the publication back; both are runs of the steps; an allowed patch that no call refuses is installed |
| `Process.Process.InstallReplacement` | src/routing.rs:87-192 | success routes the source on this thread to the target, with code in memory that leads to its dispatcher and the site listed; an error leaves code, list, records, routes and sessions as they were; unrefused, it fails only when `CannotRoute` holds: a clash, an unreadable address, or for a new source no page in reach or a function that cannot be planned, relocated or patched |
| `Process.Process.Remove` | src/routing.rs:194-196 | forgets exactly the thread's routes for the source |
| `Failures.CanReplaceIs` | src/lib.rs:242-252 | so is the guard of global replacements |
| `Process.Process.CheckReplace` | src/lib.rs:242-250 | reports equal addresses and clashes with a patch of the session or an entry exactly, and otherwise fails only for an unreadable target or a refused call |
| `Process.Process.InstallRaw` | src/lib.rs:233-294 | success replaces the source for every thread: calls through its entry resolve to the target, or code in memory leads, directly or by its relay, to it; an error leaves all tables and code as they were; unrefused, it fails only when `CannotReplace` holds: a local session, a clash, an unreadable target, an entry with a global target, or a function without an entry that cannot be patched |
| `Process.Process.RestoreGlobal` | src/routing.rs:236-243 | clears all listed targets; the record of a listed source always exists |
| `Process.Process.RestoreCode` | src/lib.rs:371-377 | writes saved code back newest first; a failure keeps a non-empty rest for another attempt, and happens only when a call is refused or a page kept by the system |
| `Process.Process.RestorePatches` | src/lib.rs:363-379 | success empties the session and leaves code as the entries alone make it; a failure keeps a state from which it can be repeated, and happens only when a call is refused or a page kept by the system |
| `Expectation.CountIsRange` | src/expectation.rs:18-85 | a count allows exactly the numbers of its range, and is rejected exactly when there are none |
| `Expectation.AcceptedIs` | src/expectation.rs:148-163 | a rule is accepted exactly when its count allows some number, in a sequence exactly one positive number, and for a one-shot response at most one call; it then allows exactly the numbers it asks for: by default one for a one-shot response, else any, which a sequence does not take |
| `Expectation.PermittedRange` | src/expectation.rs:18-85 | a count given as a range is accepted only when the range holds a number |
| `ExpectationInvariant.InvariantKept` | src/expectation.rs:209-398 | every step of every thread keeps counts, tickets, lists, tallies and the facts that searches and verifications rely on |
| `ExpectationInvariant.RunKeeps` | src/expectation.rs:209-398 | so does every run |
| `ExpectationInvariant.TurnTaken` | src/expectation.rs:220-230 | a call in turn extends the promised order by one |
| `ExpectationTheorems.SelectsFirst` | src/expectation.rs:330-350 | a call is answered or refused by the first matching rule that is not used up at that moment, in the list it saw and, without a checkpoint in between, in the list as it is |
| `ExpectationTheorems.SelectedExactly` | src/expectation.rs:209-231 | a selection takes exactly the first matching rule that is not used up, provided calls to it are not forbidden, do not overflow its count and come in its turn |
| `ExpectationTheorems.GivesUpExhausted` | src/expectation.rs:351-356 | a call that ends without a rule saw every matching rule at its maximum |
| `ExpectationTheorems.VerifiedIs` | src/expectation.rs:363-375 | success on an active mock means that every rule ever added has an allowed number of calls, that these add up to the answered calls, that no finished call was rejected, and that no call at all was turned down exactly when none is about to record it |
| `ExpectationTheorems.VerifiesWhen` | src/expectation.rs:239-251 | conversely, a mock that never turned a call down and whose listed rules have allowed numbers of calls passes every check of a verification |
| `ExpectationTheorems.IdleVerified` | src/expectation.rs:363-375 | a verification that begins while no call of the mock is in progress, and succeeds before another begins, means that every call ever begun was answered and is counted by a rule |
| `ExpectationTheorems.VerifiedInFlight` | src/expectation.rs:358-375 | a run in which verification succeeds between a rejection and its record |
| `ExpectationTheorems.FailureSticks` | src/expectation.rs:358-361 | a recorded rejection fails every later verification |
| `ExpectationTheorems.EndedStays` | src/expectation.rs:390-397 | a mock that was ended never answers a call again |
| `ExpectationTheorems.CallsInOrder` | src/expectation.rs:105-117 | calls that share a sequence form a prefix of its tickets in order, each as often as it wants; tickets before the cursor are complete, later ones untouched, and nothing overflows |
| `ExpectationTheorems.UsedOnce` | macros/src/lib.rs:306-309 | when a call takes a one-shot response, nobody took it before |
| `Mocks.Mocks.Draw` | src/expectation.rs:105-117 | draws the next ticket, or fails when the sequence is full |
| `Mocks.Mocks.AddRule` | src/expectation.rs:304-328 | adds the rule exactly when its configuration is permitted, the mock active and its sequence not full: one rule at the end of the mock's list, with the next ticket and the numbers of calls that the configuration asks for |
| `Mocks.Mocks.ClaimRule` | src/expectation.rs:209-237 | takes, passes or refuses a call with exactly the effect of each |
| `Mocks.Mocks.Select` | src/expectation.rs:330-361 | undisturbed, the loop is the atomic selection of the first open rule; otherwise the rejection is recorded |
| `Mocks.Mocks.Search` | src/expectation.rs:339-356 | the loop over the list ends with the rule that the atomic selection takes, or turned down |
| `Mocks.Mocks.Check` | src/expectation.rs:367-375 | succeeds exactly when no failure is recorded and every listed rule has refused no call and had an allowed number of them |
| `Mocks.Mocks.Checkpoint` | src/expectation.rs:377-388 | succeeds exactly for an active mock without failures whose listed rules have allowed numbers of calls, and drops them; an error changes nothing |
| `Mocks.Mocks.Stop` | src/expectation.rs:390-397 | ends the mock and drops its rules |
| `Mocks.Mocks.TakeResponse` | macros/src/lib.rs:306-309 | the chosen response is always there to be taken |

## Left out

- Proc-macro expansion, lifetime probes and signature checks (macros/src/lib.rs, macros/src/signature.rs): only the body of a generated call is used, as the description of dispatch.
- The system calls themselves, instruction cache maintenance and shadow-stack queries: oracles that may refuse, and a boolean input.
- The async registry (src/asynchronous.rs) and the recursion guard `CallGuard` (src/expectation.rs:427-454): they would only add easy members.
- Weak memory ordering, re-entrancy during thread teardown, forgotten sessions, allocation failure, lock poisoning and unwinding.
- The rest of the x86-64 and A64 instruction sets: instructions that the relocators do not tell apart are position-independent steps, and newer PC-relative A64 extensions that the code does not classify are outside the model.
- A64 machine code is modelled as words; packing into bytes and the refusal of other byte strings are proved separately (`Arm64Plan`).
- The landing pad before a patch: the composed theorems start at the first patched byte, to which the pad of an unpatched entry leads.
- Tests of bits of an A64 word are written as tests of its fields.
- Waiting for the session lock: `Open` models the variants that report `Busy`; waiting ones are the same step, taken later.
- Two rules of one search are asked in list order without regard to how long matchers run; a matcher's answers are fixed when its call begins.
- Which pages a process holds is stated for the searches and for single releases, not over whole runs.
- Detaching mocks and reporting failed expectations when a session ends (src/lib.rs:75-80, src/lib.rs:352-361, src/lib.rs:384-392): restoring patches and verifying a mock are modelled separately.
- SearchWindows: a region end that rounds past the last address is not modelled, because user space ends far below it.
- Error texts, `Display`, and which of several possible errors a refusal reports, except where a contract names it.
