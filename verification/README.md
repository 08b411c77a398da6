# A RISC-V assembler and simulator, verified

This project models the assembler and the virtual machines of a RISC-V (RV64) teaching simulator and proves what they
are for: a program that assembles without errors is loaded as the words and bytes its source describes, its branches
and labels lead where the source says, and the pipelined machine computes what executing one instruction at a time
computes.

Machine integers are mathematical integers with explicit wrap-around (`Words`): `U8` to `U64`, `Wrap32`, `Wrap64`,
`Signed32`, `Signed64`. A field `(w >> k) & (2^m - 1)` is written `Bits(w, 2^k, 2^m)`, and an `|` of disjoint fields is
their sum. Objects that the source updates in place are classes; each method is proved against a function of the old
state, and the properties are proved about those functions.

## How the modules fit together

| modules | what they hold |
|---|---|
| Words, Wrappers | integers, bit fields, `Option`, `Result` |
| Instructions, CodeGenerator, ImmGenerator, Decoder | encodings, generation of machine words, immediate decoding, a reference decoder |
| Tokens, Lexer, Tokenisation | tokens, the scanner, and what its tokens are in terms of the characters |
| ParseFormats, Printing, LineGrammar, Extensions | the format matchers, printing as their inverse, what every line of assembly says, the extensions told from the encodings |
| ParserSpec, Parser, ParserProof, ParserTermination, LineOrder, TextLines, Acceptance | the two passes and back-patching, the parser object, what an error-free parse guarantees, that its code is what the lines say, and which programs it accepts |
| DataLayout, Lockstep, Placement | the data layout computed twice, by the parser and by the loader, and exactly when the two agree |
| FlatMemory, MainMemory | memory as a map of bytes, and the lazily allocated blocks that refine it |
| VmBase, LoadedImage, Assembler, EndToEnd, DataOperands | loading, breakpoints, `assemble`, and the theorems from source to memory |
| Alu, AluLaws, BitLaws | the integer ALU, its laws, and its bitwise operations bit by bit |
| Datapath, Pipeline, Sequential, EarlyFetch, PipelineProof, CurrentWords, PipelineRuns, Rv5sExVm, SelfModifying | the five-stage pipeline with branches in EX, what it computes for every program, exactly when that is sequential execution, the VM object |
| Hazards, Predictors, Timing | hazards as dependences between instructions, predictors as counts of outcomes, and the number of cycles of a run |
| Rvss, CsrMeaning, StaleLatches, RvssHistory, RvssAgrees, RvssVm | the single-cycle VM, what its CSR instructions mean, what loads and branches leave behind, its undo and redo, its agreement with the pipeline |
| Meaning, SourceMeaning | what each integer instruction means, and that both machines do what the source means |
| PseudoExpansion, PseudoInPipeline | what `li`, `la`, `mv` and `not` compute in the single-cycle VM and in the pipeline |
| Config, Disassembly | the configuration commands and VM selection, the disassembly index |

## What the code does that its names or comments do not say

- `ImmGenerator` has no case for opcode 0011011 and decodes the immediate of `addiw` as 0
  (`ImmGenerator.ImmediateRoundTrip`).
- Division by zero gives 0 and INT64_MIN / -1 gives INT64_MAX. This is not what section 7.2 of the RISC-V Instruction
  Set Manual, Volume I (20191213) prescribes; the division laws exclude these operands, and `Meaning.Quotient` follows
  the source. `rem` on (INT64_MIN, -1), and the word forms on a divisor that is nonzero with a zero low half, are
  undefined in the source; there the model's ALU returns 0. The ALU laws exclude all of these, the meaning theorems that
  `rem` (`Meaning.Determined`); the word forms are not executed. The ALU's `divuw` and `remuw` zero-extend where the
  manual sign-extends.
- `jalr` keeps bit 0 of its target, which section 2.5 of the manual clears.
- In the single-cycle VM `li` loads the wrong value for operands from 2^31 - 2^11 up
  (`PseudoExpansion.LoadImmediateIff`). On RV5SEXVM it also does for nonnegative operands whose rounding has bit 29
  set, such as 0x20000000 (`PseudoInPipeline.LoadImmediateIff`).
- The pipeline tests bit 29 besides bit 31 when it sign-extends the operand of `lui` and `auipc`, so that words with
  bit 29 set and bit 31 clear compute another result than in the single-cycle VM (`RvssAgrees.AgreesIff`).
- The static predictors answer the opposite of their names. What a program that keeps its next instructions computes
  does not depend on what a predictor answers (`PipelineRuns.ConfigurationsAgree`).
- The 32-bit forms of the base instruction set (`addw`, `slliw` and so on) have encodings but no syntax, and the syntax
  table lists the wrong register kinds for a rounding mode on eight conversions (`Printing.PrintThenAssemble`).
- `srli` and `srai` with a shift amount above 31 reach no ALU operation in either VM and clear their destination
  (`Meaning.NotExecuted`); the assembler does not accept such amounts.
- `mulw`, `divw`, `divuw`, `remw` and `remuw` have syntax and encodings, but neither control unit knows their opcode
  0111011: they do nothing in either VM (`Meaning.NotExecuted`, `SourceMeaning.PerformMeansIff`).
- A breakpoint on a line looks up the low 32 bits of the line (`Assembler.LineBreakpoint`).
- The first pass of the parser does not end on a label named `data`, `section` or `bss`
  (`ParserTermination.FirstPassEndsIff`), and `fence` parses but makes code generation throw (`Assembler.Assemble`).
- An empty labelled directive can shift the labels after it away from their data: `Placement.LabelsPlacedIff` says
  exactly when, `Placement.EmptyDwordMisplaces` gives a section.
- Undo does not restore what a CSR instruction changed (`RvssHistory.UndoTakesBackIff`, `RvssHistory.UndoLosesCsr`).
- A load or store that throws in the single-cycle VM leaves the program counter already moved on
  (`RvssVm.RVSSVM.Step`).
- A program that overwrites an instruction already fetched behaves differently in the pipeline
  (`SelfModifying.SelfModifyingDiffers`). `EarlyFetch` is one-at-a-time execution with each word read as early as the
  pipeline reads it, and the pipeline refines it for every program (`PipelineRuns.PipelineRefinesEarly`).
  `PipelineRuns.PipelineFollowsIff` says exactly when that is in-order execution, `PipelineRuns.ForwardingFollowsIff`
  in terms of the sequential machine alone. In every configuration it is if each word executed has been in memory since
  two instructions before, or control was transferred to it (`CurrentWords.KeepsNextSuffices`): storing code and
  jumping to it is safe.

## Model

| member | source | states |
|---|---|---|
| Decoder.DecodeInvertsGenerate | src/assembler/code_generator.cpp:46-307 | a decoder that reads opcode and function fields recovers mnemonic and operands of every well-formed instruction from its generated word |
| Decoder.EncodingsAreDistinct | src/common/instructions.cpp:384-590 | two well-formed instructions have the same word exactly if they are the same instruction |
| CodeGenerator.GenerateMachineCode | src/assembler/code_generator.cpp:309-354 | for any units, generation throws exactly if some unit has no encoding or an operand missing or outside `int`, else yields one word per unit in order |
| ImmGenerator.ImmediateRoundTrip | src/vm/vm_base.cpp:117-194 | the decoded immediate is the one generated, for I, S, B, U and J forms over their whole ranges, exactly when the instruction is not `addiw` or the immediate is 0 |
| ImmGenerator.RoundTripI | src/assembler/code_generator.cpp:64-78 | I format: register, function and immediate fields read back |
| ImmGenerator.RoundTripS | src/assembler/code_generator.cpp:109-124 | S format: the two pieces of the immediate reassemble |
| ImmGenerator.RoundTripB | src/assembler/code_generator.cpp:126-145 | B format: the four scattered pieces of an even offset reassemble |
| ImmGenerator.RoundTripU | src/assembler/code_generator.cpp:147-156 | U format: the immediate modulo 2^20 |
| ImmGenerator.RoundTripJ | src/assembler/code_generator.cpp:158-170 | J format: the four scattered pieces of an even offset reassemble |
| ImmGenerator.ShiftImmediate | src/assembler/code_generator.cpp:80-93 | the decoded immediate of a shift still holds funct6 above the shift amount |
| Lexer.Lexer.GetNextToken | src/assembler/lexer.cpp:307-344 | the scanner returns the next token, with the kind and text that `Tokenisation.TokensIff` characterises, and moves to its end, or to the end of the line if only spaces and a comment are left |
| Lexer.Lexer.GetTokenList | src/assembler/lexer.cpp:346-363 | tokenising ends, with every line's tokens in order and one end-of-file token |
| Lexer.FileTokensInOrder | src/assembler/lexer.cpp:346-363 | line numbers do not decrease and no end-of-file token comes before the last |
| Lexer.LineIsSpaced | src/assembler/lexer.cpp:73-305 | the tokens of a line are nonempty, in order and apart |
| Lexer.TokensCoverLine | src/assembler/lexer.cpp:48-70 | every character of a line is a space, in a token, or in the comment at its end |
| Tokenisation.TokensIff | src/assembler/lexer.cpp:73-305 | a sequence of tokens reads a line, which is said of its characters alone (kind, text and place of each token, blanks between them, a comment or nothing at the end), exactly if it is the scanner's |
| Tokenisation.TokenSpells | src/assembler/lexer.cpp:73-305 | each token has the kind and text of its part of the line: a word is an identifier without a colon behind it, a label one with a colon and no dot, a number, directive or string a maximal run |
| Tokenisation.SpelledIsToken | src/assembler/lexer.cpp:73-305 | and whatever has them is the token |
| Tokenisation.ClassIff | src/assembler/lexer.cpp:73-305 | the characters of each class, spelled out |
| Tokenisation.FileIsLines | src/assembler/lexer.cpp:346-363 | line k + 1 of a file is line k + 1 of its tokens |
| Printing.PrintThenAssemble | src/common/instructions.cpp:625-823 | every instruction printed in assembly syntax assembles to itself exactly if the syntax table has a matching format and range for it, and otherwise is an error |
| Printing.PrintAssembleDecode | src/assembler/parse_formats/i_m_formats.cpp:14-535 | print, assemble, generate and decode give the instruction back |
| Printing.ReadsBackStore | src/assembler/parse_formats/i_m_formats.cpp:464-534 | displacement, base and data register of a store are told apart |
| Printing.ReadsBackRounded | src/assembler/parse_formats/f_d_formats.cpp:15-177 | the two- and three-source arithmetic formats: register operands and rounding mode arrive in their fields |
| Printing.ReadsBackFR | src/assembler/parse_formats/f_d_formats.cpp:15-177 | the comparisons, sign injections and minima, which take no rounding mode |
| Printing.ReadsBackDynamic | src/assembler/parse_formats/f_d_formats.cpp:15-177 | the conversions without a rounding mode get the dynamic one |
| Printing.ReadsBackConversion | src/common/instructions.cpp:625-823 | the conversions with a rounding mode, exactly where the syntax table lists the right register kinds |
| Printing.ReadsBackSystem | src/assembler/parse_formats/csr_formats.cpp:15-97 | the CSR formats, and `ecall` |
| LineGrammar.LineAssembles | src/assembler/parser.cpp:319-467 | every line, for all mnemonics, operands, labels and symbol tables: the assembler makes of it the one or two instructions that it says, registers, immediates and labels in their roles (a transfer to a label at once if that is known and in reach, else waiting for it), and an error exactly if it says nothing, is out of range or names a label it must not |
| LineGrammar.OperandsBetween | src/assembler/parser.cpp:319-333 | operands are what stands between commas |
| Extensions.ExtensionsByEncoding | src/common/instructions.cpp:313-341 | an instruction needs M, F or D exactly as its opcode and format fields say, and is enabled exactly if those are |
| ParserProof.FormatSettled | src/assembler/parser.cpp:319-449 | whatever a format emits has complete operands in range, and a label resolved for its position or deferred |
| ParserProof.LabelSettled | src/assembler/parse_formats/i_m_formats.cpp:251-374 | a branch or jump to a known text label gets its offset if that is in reach and is rejected otherwise; to any other label it waits |
| ParserProof.LowPartFits | src/assembler/parse_formats/pseudo_formats.cpp:28-35 | the low part of a pc-relative distance fits twelve signed bits and completes the rounded high part |
| ParserProof.SecondPassKeeps | src/assembler/parser.cpp:581-616 | the second pass keeps the invariant of the intermediate code, the data section and every symbol defined before |
| ParserProof.TextStepKeeps | src/assembler/parser.cpp:256-483 | so does every turn of the text directive: labels are defined once, at the unit that follows |
| ParserProof.FirstPassOnly | src/assembler/parser.cpp:544-579 | the first pass defines data labels only and emits no code |
| ParserProof.PatchesCleanlyIff | src/assembler/parser.cpp:618-708 | back-patching adds no error exactly if every waiting unit's label is defined, in reach and, for a branch, in the text |
| ParserProof.CleanParse | src/assembler/parser.cpp:540-710 | a parse without errors leaves every unit flagged done, with operands in range and its label resolved, and each text label at the unit that follows it |
| Acceptance.AcceptedIff | src/assembler/parser.cpp:540-710 | a parse ends without errors exactly if no entry of the data sections is in error, each label of the text is new, and each line of the text is enabled and says something possible: in range, at labels that are there, of the right kind and in reach |
| Acceptance.FirstPassReports | src/assembler/parser.cpp:63-254 | the first pass reports exactly the lines with a label without a directive, a stray token or a `.zero` of no bytes, in order |
| Acceptance.DataLabelIff | src/assembler/parser.cpp:75-112 | its symbols are the labels of the data sections |
| TextLines.LinesAreAssembled | src/assembler/parser.cpp:256-708 | for every token list parsed without errors: the code is, line after line, what the lines of the text sections say, each line enabled; every text label has the address of the instruction behind it, and no other text label exists |
| TextLines.LineIsFetched | src/assembler/parser.cpp:256-483 | a line with all its operands is fetched, at its place, as a word that decodes to the instruction it says; so for `nop`, `ret`, `mv` and `not` |
| TextLines.TransferIsFetched | src/assembler/parser.cpp:618-708 | `op rs1, rs2, name` and `jal rd, name` are fetched as that instruction, with those registers and the distance to the instruction behind the label `name` |
| ParserTermination.FirstPassEndsIff | src/assembler/parser.cpp:544-579 | the first pass reaches the end of file exactly if no label before it is named data, section or bss |
| ParserTermination.TurnsArrive | src/assembler/parser.cpp:544-579 | its turns then arrive at the state that the first pass is specified to reach |
| Parser.Parser.Parse | src/assembler/parser.cpp:540-710 | the two passes and the patching loop of the object end in the specified state |
| Parser.Parser.ParseDataDirective | src/assembler/parser.cpp:63-254 | the data loop, label by label and operand by operand; what the operands come to in memory is `DataOperands.OperandsAreLoaded` |
| Parser.Parser.ParseTextDirective | src/assembler/parser.cpp:256-483 | the text loop with its extension checks |
| Parser.Parser.ParseInstruction | src/assembler/parser.cpp:319-467 | the first matching format decides; none is a syntax error; what that makes of each line is `LineGrammar.LineAssembles` |
| Parser.Parser.PatchLabels | src/assembler/parser.cpp:618-708 | every listed unit is patched in order |
| Parser.Parser.SkipCurrentLine | src/assembler/parser.cpp:46-51 | the position moves past exactly the tokens left on the line, to the first one off it or to the end of file |
| Lockstep.LayoutsAgree | src/assembler/parser.cpp:63-234 | if every labelled directive has a datum, a condition on the tokens alone, the parser's index is a replay of the data buffer and every data label of an error-free pass has the index of the datum after it, which is the loader's place for it modulo 2^32 |
| Lockstep.OperandsAgree | src/assembler/parser.cpp:114-234 | a directive's operands bring the two layouts back in step after its label's alignment |
| Lockstep.LabelKeeps | src/assembler/parser.cpp:75-112 | a label is recorded where its directive's first datum goes |
| Lockstep.EmptyDirective | src/assembler/parser.cpp:75-112 | after an empty labelled directive the layouts are in step exactly if the next datum's place has the alignment anyway |
| Lockstep.EmptyDwordThenByte | src/assembler/parser.cpp:75-112 | an empty dword directive before a byte misplaces the byte's label exactly if the index was not a multiple of 8 |
| Placement.LabelsPlacedIff | src/assembler/parser.cpp:63-234 | for every token list: each label is recorded where the datum after it goes, at every place it is defined, exactly if each has a datum after it and the widest alignment pending at it moves the data so far to that datum's place |
| Placement.SymbolsArePlaced | src/vm/vm_base.cpp:35-82 | under that condition every data symbol is the parser's and, modulo 2^32, the loader's place for the datum after it |
| Placement.AlignNested | src/assembler/parser.cpp:65-69 | aligning twice is aligning to the wider of the two, also where the index wraps |
| Placement.EmptyDwordMisplaces | src/assembler/parser.cpp:75-112 | a section without errors on which the layouts disagree |
| DataLayout.IndexIsCounter | src/vm/vm_base.cpp:35-82 | the loader's 32-bit counter is the parser's 64-bit index modulo 2^32, for every data buffer |
| DataLayout.PendingAlignment | src/vm/vm_base.cpp:37-40 | aligning twice equals aligning once exactly if the second place has the first alignment |
| LoadedImage.CounterIsExtent | src/vm/vm_base.cpp:35-82 | a data section below 4 GB is laid out without wrap-around |
| LoadedImage.ImageIsLoaded | src/vm/vm_base.cpp:25-90 | after loading, every text word reads back at 4*i, every datum byte is at its place, data do not overlap and every other byte is as before |
| LoadedImage.DatumReadsBack | src/vm/vm_base.cpp:41-82 | every numeric datum reads back as its value |
| LoadedImage.NaturallyAligned | src/vm/vm_base.cpp:35-82 | each datum goes to the first place behind the one before it that has its own alignment |
| DataOperands.OperandsAreLoaded | src/assembler/parser.cpp:114-234 | from tokens to memory: for every operand of every data directive, in order, memory holds at its place the number modulo 2^64, 2^32, 2^16 or 2^8, the bits of the float or double, the bytes of the string and a zero, or that many zero bytes |
| DataOperands.LabelledOperand | src/assembler/parser.cpp:75-112 | a data label leads to the bytes of the operand that follows it |
| DataOperands.KindIff | src/assembler/parser.cpp:114-234 | each directive's kind is that of its keyword |
| VmBase.VmBase.LoadProgram | src/vm/vm_base.cpp:25-90 | loading succeeds exactly if every write is in range, and then memory is the specified image and a breakpoint stands at the end of the text |
| VmBase.VmBase.WriteData | src/vm/vm_base.cpp:35-82 | the data loop with its counter |
| VmBase.VmBase.UpdateProgramCounter | src/vm/vm_base.cpp:113-115 | signed displacement modulo 2^64 |
| VmBase.VmBase.AddBreakpoint | src/vm/vm_base.cpp:197-225 | an unknown line (looked up modulo 2^32), an unaligned address or a duplicate changes nothing; any other is appended |
| VmBase.VmBase.RemoveBreakpoint | src/vm/vm_base.cpp:227-255 | exactly the named address is removed, a line being looked up modulo 2^32 |
| LoadedImage.BreakpointHistory | src/vm/vm_base.cpp:197-259 | over any history of commands the breakpoints are duplicate-free multiples of 4, and are the addresses whose last command was an addition |
| Assembler.LineMapIsAdjoint | src/assembler/assembler.cpp:56-72 | for lines in order, map[l] <= k exactly if l <= line(k), for every line up to the last |
| Assembler.InvertLineMap | src/assembler/assembler.cpp:56-72 | the nested loops compute that map |
| Assembler.LineBreakpoint | src/vm/vm_base.cpp:198-210 | a line breakpoint is the address of the first instruction at or after the line modulo 2^32 |
| LineOrder.CodeLinesInOrder | src/assembler/parser.cpp:581-616 | from tokens in line order, instructions are emitted in line order |
| LineOrder.SourceBreakpoint | src/vm/vm_base.cpp:197-225 | so a breakpoint on a source line of an assembled program is the first instruction at or after it, modulo 2^32 |
| Assembler.Assemble | src/assembler/assembler.cpp:41-90 | assembling succeeds exactly if the parse has no errors and the program no fence, and yields one word per unit |
| EndToEnd.CodeDecodes | src/assembler/assembler.cpp:41-90 | every instruction of an assembled and loaded program, labelled or not, is fetched as the word generated for it, which decodes to it, unless it is a jal to a data label |
| EndToEnd.BranchReachesLabel | src/assembler/parser.cpp:618-687 | a branch or jal to a text label, fetched from 4*i, decoded and added to that pc, gives the address of the instruction after the label |
| EndToEnd.DataLabelIsLoaded | src/assembler/parser.cpp:63-234 | if every label has a datum after it and no harmful alignment pending, a data label is the offset at which memory holds, byte by byte, the datum that follows it |
| EndToEnd.VmBranchTarget | src/vm/rv5s/rv5s_ex_vm.cpp:466-520 | the pipeline resolves a branch or jal at pc plus the decoded immediate |
| Meaning.ExecutedAsMeant | src/vm/rvss/rvss_vm.cpp:44-144 | the single-cycle VM gives the generated word of every integer instruction that it executes, and whose result the source determines, the meaning of its mnemonic and operands, and throws exactly on an access out of range |
| Meaning.NotExecuted | src/vm/rvss/rvss_control_unit.cpp:18-103 | the word forms do nothing, and a right shift by more than 31 clears its destination |
| Meaning.MeansIff | src/vm/rvss/rvss_control_unit.cpp:109-330 | an integer instruction gets its meaning exactly if it is executed or its result is what the destination is left with |
| SourceMeaning.PerformMeansIff | src/vm/rv5s/rv5s_ex_vm.cpp:365-528 | in the pipeline's semantics, exactly if in addition it is no upper immediate whose sign is misread |
| SourceMeaning.SourceIsExecuted | src/assembler/assembler.cpp:41-90 | over whole runs: a program whose source runs cleanly is executed, instruction by instruction, as the source means |
| SourceMeaning.PipelineRunsSource | src/vm/rv5s/rv5s_ex_vm.cpp:105-187 | from tokens to the pipeline: such a program leaves RV5SEXVM, whatever its configuration, within 3n + 5 cycles with the program counter, registers and memory that the source means |
| SourceMeaning.SourceStep | src/assembler/assembler.cpp:41-90 | from source to execution: stepping over instruction i of an assembled and loaded program does what its source line means, on both machines |
| MainMemory.Memory.Read | src/vm/main_memory.cpp:21-31 | a byte of the flat memory, or an exception out of range |
| MainMemory.Memory.Write | src/vm/main_memory.cpp:33-41 | exactly one byte of the flat memory changes, block allocation is invisible |
| MainMemory.Memory.EnsureBlockExists | src/vm/main_memory.cpp:55-59 | allocating a block changes no byte |
| MainMemory.Memory.Reset | include/vm/main_memory.h:99-101 | memory is all zeros again |
| MainMemory.Memory.ReadGeneric | src/vm/main_memory.cpp:61-68 | the byte loop reads little-endian across block borders |
| MainMemory.Memory.WriteGeneric | src/vm/main_memory.cpp:70-75 | the byte loop writes up to the first byte out of range |
| MainMemory.Memory.Load | src/vm/main_memory.cpp:77-103 | an access throws exactly if it does not fit, never partway |
| MainMemory.Memory.Store | src/vm/main_memory.cpp:131-157 | a store is little-endian; one that throws changes nothing unless the guard's subtraction wraps |
| FlatMemory.LoadAfterStore | src/vm/main_memory.cpp:61-75 | a load after a store sees the bytewise splice, for all addresses and widths |
| FlatMemory.StoreThenLoad | src/vm/main_memory.cpp:131-157 | a store then a load at the same place returns the value |
| FlatMemory.Disjoint | src/vm/main_memory.cpp:61-75 | accesses apart do not affect each other |
| AluLaws.HighAndLowProduct | src/vm/alu.cpp:73-116 | mul and mulh, mulhsu, mulhu make up the exact 128-bit products, and mul overflows exactly if mulh is not its sign extension |
| AluLaws.HighHalves | src/vm/alu.cpp:82-105 | mulhu is mulh plus the operand corrections |
| AluLaws.SignedDivision | src/vm/alu.cpp:125-175 | div and rem truncate: a = q*b + r with r below b and of a's sign |
| AluLaws.SignedDivisionWord | src/vm/alu.cpp:134-175 | so do the word forms on the low halves |
| AluLaws.UnsignedDivision | src/vm/alu.cpp:143-183 | divu and remu, and their word forms |
| AluLaws.WordForms | src/vm/alu.cpp:45-116 | addw, subw, mulw are the sign-extended low halves of the 64-bit results |
| AluLaws.WordShifts | src/vm/alu.cpp:200-223 | sllw, srlw, sraw against the 64-bit shifts |
| AluLaws.ShiftsCompared | src/vm/alu.cpp:200-223 | sra is floor division by a power of two, and the logical shift with the sign copied in; a left shift is undone by a right one up to the bits lost |
| AluLaws.LessThanFromSub | src/vm/alu.cpp:224-235 | slt is the sign of sub exclusive-or its overflow flag |
| AluLaws.SignedThroughUnsigned | src/vm/alu.cpp:224-235 | slt is sltu on operands with the sign bit flipped |
| AluLaws.XorWithMinusOne | src/vm/alu.cpp:192-199 | xor with all ones complements every bit |
| BitLaws.BitwiseBit | src/vm/alu.cpp:184-199 | bit j of `and`, `or` and `xor` is that of the operands' bits |
| AluLaws.ShiftIgnoresFunct6 | src/vm/alu.cpp:200-223 | shifting by the full decoded immediate is shifting by the shift amount |
| PipelineProof.CycleRefines | src/vm/rv5s/rv5s_ex_vm.cpp:105-173 | a clock cycle keeps the invariant, and advances the architectural state by the instruction in EX with the word that the front end reads for it, or not at all |
| PipelineProof.OperandIsCurrent | src/vm/rv5s/rv5s_forwarding_unit.cpp:9-32 | forwarding, or stalling instead, hands EX the value that sequential execution would read |
| PipelineProof.ExecutesCurrent | src/vm/rv5s/rv5s_ex_vm.cpp:365-528 | EX computes the sequential result and store data |
| PipelineProof.KeepsReady | src/vm/rv5s/rv5s_hazard_unit.cpp:18-93 | the hazard tests let an instruction issue only when its operands can be had |
| Hazards.HazardIsDependence | src/vm/rv5s/rv5s_hazard_unit.cpp:18-93 | for any three integer instructions: the first waits in ID exactly if it reads a register that the one ahead loads, or without forwarding that either of the two ahead writes |
| PipelineProof.KeepsFollowing | src/vm/rv5s/rv5s_ex_vm.cpp:251-363 | what is fetched behind a branch is what was predicted, or is squashed |
| PipelineProof.NextPc | src/vm/rv5s/rv5s_ex_vm.cpp:466-528 | sequential execution goes on where EX redirects to |
| PipelineRuns.PipelineRefinesEarly | src/vm/rv5s/rv5s_ex_vm.cpp:105-187 | for every program, also one that overwrites its text: after any number of cycles, with any predictor, forwarding or stalling, the VM stands for one-at-a-time execution of the instructions issued, each word read as early as hazards, predictions and transfers have it read |
| CurrentWords.EarlyAgreesIff | src/vm/rv5s/rv5s_ex_vm.cpp:220-249 | early fetches make no difference exactly if every word read early does what the one in memory does |
| PipelineRuns.PipelineFollowsIff | src/vm/rv5s/rv5s_ex_vm.cpp:105-187 | so that is exactly when the pipeline stands for sequential execution at every cycle |
| PipelineRuns.ForwardingFollowsIff | src/vm/rv5s/rv5s_forwarding_unit.cpp:9-32 | with forwarding and a predictor that never answers taken: exactly if each instruction does the same with its word as memory held it two instructions before, or behind a taken transfer as memory holds it |
| CurrentWords.KeepsNextSuffices | src/vm/rv5s/rv5s_ex_vm.cpp:220-363 | in every configuration it is enough that each word executed has been in memory since two instructions before, or that control was transferred to it |
| PipelineRuns.PipelineRefinesSequential | src/vm/rv5s/rv5s_ex_vm.cpp:105-187 | such a program is executed in order: after any number of cycles the VM stands for sequential execution of the instructions issued, and a fault leaves exactly the retired ones executed |
| CurrentWords.KeepingTextSuffices | src/vm/rv5s/rv5s_ex_vm.cpp:220-249 | a program that never changes an instruction that it executes is such a program |
| PipelineProof.KeepsReads | src/vm/rv5s/rv5s_ex_vm.cpp:220-363 | a cycle keeps what is known of the words in flight: from which memory each was read, and whether a hazard or a transfer delayed it |
| PipelineRuns.FaultIsPrecise | src/vm/rv5s/rv5s_ex_vm.cpp:530-623 | when MEM throws, registers and memory are left as before the faulting instruction, whose address EX/MEM still tells, and the program counter stays at the front |
| PipelineRuns.EndIsSequentialEnd | src/vm/rv5s/rv5s_ex_vm.cpp:154-164 | when the pipeline has drained, the sequential program has stopped in the same state |
| PipelineRuns.CycleBound | src/vm/rv5s/rv5s_ex_vm.cpp:105-187 | every program that stops after n instructions, self-modifying ones included, rests after at most 3n + 5 cycles |
| PipelineRuns.PipelineComputesProgram | src/vm/rv5s/rv5s_ex_vm.cpp:105-187 | within the bound the pipeline has the sequential program's registers, memory, fault and program counter, if the program does not notice early fetches |
| PipelineRuns.ConfigurationsAgree | src/vm/rv5s/rv5s_ex_vm.cpp:49-69 | forwarding or stalling, and every predictor, give a program that keeps the next instructions the same registers, memory and fault, and without a fault the same program counter |
| Timing.NextExecutes | src/vm/rv5s/rv5s_ex_vm.cpp:251-528 | one instruction is in EX exactly so many cycles after the one before it: three behind a misprediction or a `jalr`, two behind a transfer predicted taken, one otherwise, and what its operands make it wait |
| Timing.CyclesExact | src/vm/rv5s/rv5s_ex_vm.cpp:105-187 | every program that stops is at rest from exactly the cycle on that these costs add up to, and not before |
| Timing.ForwardingNoSlower | src/vm/rv5s/rv5s_ex_vm.cpp:49-69 | forwarding never costs a cycle, for every program that keeps its next instructions and every predictor |
| Predictors.OneBitRepeats | src/vm/rv5s/branch_prediction/dynamic_1bit_predictor.cpp:8-20 | after any history the one-bit predictor answers the last outcome of the branch at that address, and not taken without one |
| Predictors.TwoBitAnswers | src/vm/rv5s/branch_prediction/dynamic_2bit_predictor.cpp:8-43 | the two-bit predictor answers taken exactly if the saturating count of the outcomes at that address is two or more |
| Predictors.TwoDecide | src/vm/rv5s/branch_prediction/dynamic_2bit_predictor.cpp:8-43 | two equal outcomes decide the next answer, whatever came before |
| SelfModifying.SelfModifyingDiffers | src/vm/rv5s/rv5s_ex_vm.cpp:220-249 | a program that overwrites its next instruction ends with another result than in order, and fails the exact condition |
| Rv5sExVm.RV5SEXVM.Step | src/vm/rv5s/rv5s_ex_vm.cpp:105-173 | the object's step is the specified cycle, and nothing once the program has ended |
| Rv5sExVm.RV5SEXVM.ClockCycle | src/vm/rv5s/rv5s_ex_vm.cpp:114-140 | the stages in the order WB, MEM, EX, ID, IF and the register update |
| Rv5sExVm.RV5SEXVM.DecodeStage | src/vm/rv5s/rv5s_ex_vm.cpp:251-363 | register read, hazard detection, prediction |
| Rv5sExVm.RV5SEXVM.ExecuteStage | src/vm/rv5s/rv5s_ex_vm.cpp:365-528 | forwarding, ALU, branch resolution, redirect |
| Rv5sExVm.RV5SEXVM.MemoryStage | src/vm/rv5s/rv5s_ex_vm.cpp:530-623 | loads and stores, and the exception out of range |
| Rv5sExVm.RV5SEXVM.WriteBackStage | src/vm/rv5s/rv5s_ex_vm.cpp:625-669 | register write and retirement count |
| Rv5sExVm.RV5SEXVM.FetchStage | src/vm/rv5s/rv5s_ex_vm.cpp:220-249 | fetch below the end of the program, a bubble otherwise |
| RvssAgrees.AgreesIff | src/vm/rvss/rvss_vm.cpp:35-144 | on every legal instruction the single-cycle VM throws when sequential execution faults and otherwise reaches the same state exactly if the upper immediate is not misread |
| RvssAgrees.StepComesTo | src/vm/rvss/rvss_vm.cpp:881-921 | a step does nothing exactly where the sequential program has stopped or the fetch throws, throws exactly where it faults, with only the program counter moved on, and otherwise reaches its state |
| RvssAgrees.RunAgrees | src/vm/rvss/rvss_vm.cpp:797-823 | so over whole runs |
| RvssAgrees.VmsAgree | src/vm/rvss/rvss_vm.cpp:797-823 | a plain program that stops without a fault and does not notice early fetches leaves the single-cycle VM and the pipeline in the same state |
| StaleLatches.UnassignedLoad | src/vm/rvss/rvss_vm.cpp:398-507 | a load with the unassigned function code writes to its destination what the last load before it loaded, however far back |
| StaleLatches.UnassignedBranch | src/vm/rvss/rvss_vm.cpp:44-144 | a branch with an unassigned one is taken exactly if the last branch before it was |
| RvssHistory.UndoTakesBackIff | src/vm/rvss/rvss_vm.cpp:923-979 | undo restores program counter, registers, CSRs, memory and counters exactly unless the step is a CSR instruction that is going to write its destination or its CSR a new value, told from the state before it |
| RvssHistory.CsrEffectIff | src/vm/rvss/rvss_vm.cpp:750-795 | that test is exact: `csrrs` changes something if it sets a clear bit, `csrrc` if it clears a set one, `csrrw` if the operand differs, each also if the destination register does not hold the CSR already |
| RvssHistory.UndoLosesCsr | src/vm/rvss/rvss_vm.cpp:923-979 | `csrrwi x0, 3, 1` on a CSR at 0 is not undone |
| RvssHistory.RedoRepeatsIff | src/vm/rvss/rvss_vm.cpp:981-1032 | redo repeats exactly the steps that undo takes back |
| RvssHistory.HistoryIsCursor | src/vm/rvss/rvss_vm.cpp:881-1032 | any sequence of steps, undos and redos, steps that throw included, in which no undo meets a CSR instruction that had an effect, moves a cursor over the steps made |
| RvssHistory.CountersAreCursor | src/vm/rvss/rvss_vm.cpp:881-1032 | after any history of steps, undos and redos the retired and cycle counters are, modulo 2^32, the number of steps done added to where they started |
| RvssHistory.UndoRedoInverse | src/vm/rvss/rvss_vm.cpp:923-1032 | undo and redo are inverse wherever they do anything but take back such an instruction, up to a program counter that a throwing step had moved |
| RvssVm.RVSSVM.Step | src/vm/rvss/rvss_vm.cpp:881-921 | the object's step, its delta pushed and the redo stack cleared |
| RvssVm.RVSSVM.Execute | src/vm/rvss/rvss_vm.cpp:44-144 | ALU result, branch flag, program counter and CSR operands |
| RvssVm.RVSSVM.WriteMemory | src/vm/rvss/rvss_vm.cpp:398-507 | loads and stores, with the changed bytes recorded |
| RvssVm.RVSSVM.WriteBack | src/vm/rvss/rvss_vm.cpp:567-632 | register write-back, with the changed register recorded |
| RvssVm.RVSSVM.WriteBackCsr | src/vm/rvss/rvss_vm.cpp:750-795 | the six CSR instructions as `CsrMeaning.CsrMeans` says |
| CsrMeaning.CsrMeans | src/vm/rvss/rvss_vm.cpp:750-795 | each CSR instruction, by mnemonic: rd gets the old CSR, the CSR gets the value of rs1 or the immediate, or has its bits set or cleared by it, bit by bit; no other register, CSR or byte changes |
| RvssVm.RVSSVM.Undo | src/vm/rvss/rvss_vm.cpp:923-979 | the last delta is written back and moves to the redo stack |
| RvssVm.RVSSVM.Redo | src/vm/rvss/rvss_vm.cpp:981-1032 | the delta last taken back is written again and moves to the undo stack |
| PseudoExpansion.LoadImmediateIff | src/assembler/parse_formats/pseudo_formats.cpp:107-187 | in the single-cycle VM `li` loads its operand exactly if it is below 2^31 - 2^11 |
| PseudoInPipeline.LoadImmediateIff | src/vm/rv5s/rv5s_ex_vm.cpp:428-456 | on RV5SEXVM `li` loads its operand exactly if it is negative, or below 2^31 - 2^11 with bit 29 of the rounded operand clear |
| PseudoExpansion.LoadAddressIff | src/assembler/parse_formats/pseudo_formats.cpp:15-83 | in the single-cycle VM `la` loads the label's address exactly if the rounded distance is a 32-bit number |
| PseudoInPipeline.LoadAddressIff | src/vm/rv5s/rv5s_ex_vm.cpp:428-456 | on RV5SEXVM `la` loads the label's address exactly if the rounded distance is from -2^32 to 2^31 and its bit 31 or bit 29 is set exactly if it is negative |
| PseudoExpansion.MoveCopies | src/assembler/parse_formats/pseudo_formats.cpp:189-216 | `mv` copies a register and changes nothing else in the single-cycle VM |
| PseudoInPipeline.MoveCopies | src/assembler/parse_formats/pseudo_formats.cpp:189-216 | nor on RV5SEXVM |
| PseudoExpansion.NotComplements | src/assembler/parse_formats/pseudo_formats.cpp:218-244 | `not` complements a register and changes nothing else in the single-cycle VM |
| PseudoInPipeline.NotComplements | src/assembler/parse_formats/pseudo_formats.cpp:218-244 | nor on RV5SEXVM |
| Config.ReachableIff | include/config.h:207-298 | command sequences from the defaults reach exactly the choices in which a single-stage machine is ideal and an ideal one predicts not-taken and branches in EX |
| Config.StaysSafe | include/config.h:207-298 | every command keeps that invariant |
| Config.AcceptedIff | include/config.h:207-298 | a command is accepted exactly if its key belongs to its section, can be set as the machine stands, and its value makes sense |
| Config.CommandSets | include/config.h:72-298 | an accepted command sets what its key names to what its value asks for, puts what that resets back to its default, and changes nothing else |
| Config.SelectionIs | src/main.cpp:19-62 | after any commands the VM created is the one that processor type, hazard mode and branch stage name, with the predictor and forwarding chosen |
| Config.VmConfig.ModifyConfig | include/config.h:207-315 | an accepted command gives the settings of `Config.CommandSets`, a rejected one changes nothing |
| Config.VmConfig.SetVmType | include/config.h:72-84 | going back to single-stage resets hazard mode, predictor and branch stage |
| Config.SelectionIsFaithful | src/main.cpp:19-62 | the VM selected determines the whole choice it was made from |
| Disassembly.IndexIsLine | src/utils.cpp:314-385 | the index of an instruction is the 1-based line that holds it, label and blank lines counted, and is strictly increasing |
| Disassembly.LinesAreIndexed | src/utils.cpp:314-385 | every instruction line of the listing is indexed |
| Disassembly.InstructionIsHeaded | src/utils.cpp:343-382 | above an instruction at a label stands that label's line, and above it a blank one unless it is the first; above any other stands the instruction before; the index of instruction k is k + 2 and twice the labelled addresses up to it, 0 apart |
| Disassembly.HeadingIsLabel | src/utils.cpp:325-337 | the heading of an address is the last text symbol there, `start` at 0 if there is none, and none elsewhere |
| Disassembly.DumpDisassembly | src/utils.cpp:314-385 | from the symbols in table order, the loops write the listing, headed as in `Disassembly.InstructionIsHeaded`, and its index |
| Disassembly.LastLabelIsShown | src/utils.cpp:325-334 | an address is headed by the last text symbol that stands there |

## Left out

- Floating-point execution (`fpexecute`, `dfpexecute`) and the FPU parts of both VMs, which depend on the host FPU.
- `ecall` in the single-cycle VM (console and file input and output); floating-point loads, stores and register
  operations there. The VM's step is specified for every other instruction.
- The pipelines with branches in ID (`rv5s_id_vm.cpp`), with stalling only (`rv5s_stall_vm.cpp`) and without hazard
  detection (`rv5s_vm.cpp`), the branch target buffer, and the statistics that the VM
  keeps (CPI, mispredictions); the number of cycles is `Timing.CyclesExact`.
- `Run` and `DebugRun` beyond the repetition of steps: execution limit, delays, threads, the stop flag.
- Tables behind the lexer: which words are opcodes, registers or rounding modes, `std::regex` number matching and
  `stoi`/`stoll`/`stoull`; tokens carry their meaning already. `ParseEscapedString` likewise.
- Messages, file names and columns of errors; the parser records the line of each error. Its error and instruction
  counters are unbounded where the source has 32 bits; addresses wrap as in the source.
- `jal` to a data label: its offset is not rebased by the source, so no target property exists for it. It is modelled,
  and exempt from `EndToEnd.BranchReachesLabel`.
- `.bss` contents, which the source skips; ELF output, JSON and text dumps, MMIO, cache.
- The text of disassembly lines; the listing is a sequence of lines, and the symbols arrive in the order of the source's
  sorted table.
- Signed overflow of `int64_t` in the pc-relative distance of `la`, undefined in the source for data sections near 2^63.
- MainMemory.Memory.Store: for a memory smaller than the access the guard wraps and bytes are written before the throw; stated as it is.
- PipelineRuns.PipelineRefinesEarly: for runs without a fetch that throws (`CurrentWords.EarlyFits`). The pipeline passes over such a fetch as a bubble: in a memory and text of 8 bytes a jump to 6 leaves it ended at 10, where execution one at a time has no counterpart. There is no such fetch if memory has three bytes behind the text, or holds the text and control stays at whole words (`CurrentWords.RoomSuffices`).
- PipelineRuns.PipelineFollowsIff: as `PipelineRuns.PipelineRefinesEarly`.
- PipelineRuns.ForwardingFollowsIff: as `PipelineRuns.PipelineRefinesEarly`.
- PipelineRuns.PipelineRefinesSequential: under the exact condition of `PipelineRuns.PipelineFollowsIff`, and for runs without a fetch that throws.
- PipelineRuns.CycleBound: as `PipelineRuns.PipelineRefinesEarly`.
- Timing.NextExecutes: as `PipelineRuns.PipelineRefinesEarly`.
- Timing.CyclesExact: as `PipelineRuns.PipelineRefinesEarly`.
- Timing.ForwardingNoSlower: under `CurrentWords.KeepsNext`, because otherwise the two configurations may execute different words.
- PipelineRuns.PipelineComputesProgram: as `PipelineRuns.PipelineRefinesSequential`.
- PipelineRuns.ConfigurationsAgree: under `CurrentWords.KeepsNext`, which does not depend on the configuration, because the exact condition does.
- RvssAgrees.VmsAgree: as `PipelineRuns.PipelineRefinesSequential`.
- Meaning.ExecutedAsMeant: not for `rem` of INT64_MIN by -1, which is undefined in the source.
- Meaning.MeansIff: as `Meaning.ExecutedAsMeant`.
- SourceMeaning.PerformMeansIff: as `Meaning.ExecutedAsMeant`.
- SourceMeaning.SourceStep: as `Meaning.ExecutedAsMeant`.
- PipelineRuns.FaultIsPrecise: the program counter that a fault leaves is that of the fetch, as in the source.
- Rv5sExVm.RV5SEXVM.Step: for memories of at least 7 bytes, because in a smaller one the guard of a store wraps and a faulting store changes memory (`MainMemory.Memory.Store`). Its retirement counter is unbounded where the source has 32 bits.
- Rv5sExVm.RV5SEXVM.ClockCycle: as `Rv5sExVm.RV5SEXVM.Step`.
- RvssHistory.HistoryIsCursor: for histories in which no undo meets a CSR instruction that had an effect, because undo does not take that back (`RvssHistory.UndoLosesCsr`).
- RvssVm.RVSSVM.Step: for words other than `ecall` and the floating-point opcodes, as `RvssVm.RVSSVM.Execute` and `RvssVm.RVSSVM.WriteBack`.
- RvssVm.RVSSVM.WriteMemory: integer loads and stores only.
- RvssVm.RVSSVM.Redo: floating-point registers are not part of the state.
- RvssVm.RVSSVM.Undo: floating-point registers are not part of the state; the branch flag and the last loaded value are not restored, as in the source.
- Lockstep.LayoutsAgree: one direction, because its condition is on the tokens alone; the exact condition is `Placement.LabelsPlacedIff`.
