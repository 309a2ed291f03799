# Corman Lisp: a verified model

This project models three parts of Corman Lisp and proves what they promise.

**The bootstrap compiler** (`Compx86.cpp`, `Compx86.h`, tags in `Lisp.h`).  `Lisp.dfy` gives the source language a
meaning independent of the compiler: literals, lexical and global variables, PROGN, IF, LET, LET*, SETQ, BLOCK and
RETURN-FROM, TAGBODY and GO, two-argument + - = < <= > >=, EQ and NULL.  `X86.dfy` and `Machine.dfy` are the target:
instructions with their byte encoding and decoder, and a machine with registers, flags, a stack and binding cells that
fetches from bytes.  `CodeGen.dfy` says which code a form has, `Compiler.dfy` is the compiler as the source writes it,
with a buffer, a stack index, a list of lexical records, and branches that are emitted as zero and patched.  Its methods
are proved to emit exactly that code (`Assembler`, `Patching`, `Stages`, `Landings`, `Shorts`) and to keep the stack index
that its instructions add up to (`StackIndex`), the code to do what the
evaluator does (`Relation` to `Preservation`), and all operands to survive encoding (`Encoding`, `Fitting`); `Program.dfy`
puts these together for whole programs, run from the call to the return on the bytes emitted, and `BranchTargets.dfy`
shows where every branch in them leads.  `Scoping.dfy` says from the language alone which expressions are compiled,
`Opcodes.dfy` and `Listings.dfy` list the bytes of the macros and of two small forms.  `Depths.dfy`, `StackDiscipline.dfy` and `StackRuns.dfy` follow ESP through the code
and through every step of every run.  `References.dfy` and `CodeBuffer.dfy` treat the reference tables and the growable buffer, `ReturnValues.dfy` and `Boundaries.dfy` the exits that the
compiler compiles for a destination they do not serve, `Closures.dfy` and `Capture.dfy` the environments of lambda expressions
and `NonlocalReturns.dfy` the analysis behind returns out of them.

**The DES class** (`EncryptDes.cpp`): `DesCipher.dfy`, `DesKeys.dfy` and `EncryptDes.dfy`.  The cipher is the Data Encryption
Standard of FIPS PUB 46-3, chained as in section 6.2 of NIST SP 800-38A: `FipsTables.dfy`, `FipsKeys.dfy` and `Fips46.dfy` state
that standard from its own tables and prove the masks and rotations of the source equal to it, `Chaining.dfy` states the chaining
block by block.

**Three protocols**: connection points (`ConnectionPoint.dfy`, `EnumConnections.dfy`), the terminal buffer (`CharBuf.dfy`)
and the stack markers between Lisp and foreign code (`StackMarkers.dfy`).

Generic arithmetic, the S-box tables, what sinks answer, what kernel calls leave in scratch registers and what other threads
do between the steps of a loop are parameters, and every theorem holds for all of them.

What the code does not promise is stated with its exact condition:

- RETURN-FROM compiled for the stack loses its value exactly when the value is pushed without passing through EAX
  (`Boundaries.StackReturnLoses`, `Boundaries.StackReturnKeeps`); `Boundaries.LostValue` is a program in which it happens.
  `Program.ProgramCorrect` leaves out exactly those returns.
- RETURN-FROM compiled for an operand or the stack does not set the value count itself: the count is the one that the code of
  the value left (`Boundaries.OperandReturn`).  A value from code compiled for Dest_EAX (`CodeGen.SetsCount`) brings it along
  (`Boundaries.CountedReturn`), a constant or a lexical variable leaves it unset (`Boundaries.DirectReturnUnset`, and
  `Boundaries.UncountedValue` for a whole program); after a call, a SETQ or a global variable it is what happened to be in ECX.
- A GO compiled for the stack makes the final check of the stack index fail, and nothing else does
  (`StackIndex.FinalCheck`, `Compiler.Compiler.CompileExpression`).
- An insertion keeps a reference right exactly when it does not split the reference's bytes (`CodeBuffer.InsertionTransparent`).
- A read and a SETQ agree about a variable exactly when no special declaration stands before its binding (`Closures.ReadsAgree`).
- Returns out of lambda expressions are found exactly, except from blocks labelled T (`NonlocalReturns.TakenExact`, `NonlocalReturns.MissedReturn`).
- A sink whose cookie is above sixteen can never be disconnected (`ConnectionPoint.CookiesStable`, `ConnectionPoint.NeverDisconnected`).
- The cells above the marker index stay zero through a THROW exactly when no marker it takes away held a return address
  (`StackMarkers.ThreadMarkers.Throw`; `StackMarkers.AddressLeft` is a run in which one did).
- Exporting an imported text gives the text back exactly when it is whole bytes of digits (`EncryptDes.TextRoundTrip`).

`dafny verify dfyconfig.toml` checks the project.

## Model

| member | source | states |
|---|---|---|
| Words.Trunc29Exact | CormanLispServer/include/Lisp.h:1690-1706 | untagging a tagged number gives it back exactly when it lies in the 29-bit fixnum range |
| Words.FixnumWord | CormanLispServer/include/Lisp.h:1695-1706 | every word with the fixnum tag is the tagging of exactly one number, and that number is in range |
| Words.FromLE32 | CormanLispServer/src/Compx86.cpp:282-309 | a word is the one that its four little-endian bytes make up |
| Words.LEBytes | CormanLispServer/src/Compx86.cpp:282-309 | and any four bytes are those of the word they make up |
| X86.ModRMRoundTrip | CormanLispServer/include/Compx86.h:126-172 | whichever of the 0-, 8- and 32-bit displacement forms a macro chooses, decoding gives back base and displacement; the zero form is read with its EBP exception |
| X86.RoundTrip | CormanLispServer/include/Compx86.h:56-457 | a decoder recovers every encodable instruction from the bytes of its macro, whatever bytes follow |
| X86.StreamRoundTrip | CormanLispServer/include/Compx86.h:56-1253 | a stream of such macros decodes to exactly the sequence of instructions emitted |
| Opcodes.StackBytes | CormanLispServer/include/Compx86.h:895-953 | the table of opcodes: pushes, pops and the return |
| Opcodes.ConstantBytes | CormanLispServer/include/Compx86.h:989-1058 | constants into registers and onto the stack, four bytes each |
| Opcodes.NearBytes | CormanLispServer/include/Compx86.h:314-325 | frame slots near EBP, with their displacement as one byte of two's complement |
| Opcodes.ShortBranchBytes | CormanLispServer/include/Compx86.h:789-830 | short branches on each condition |
| Opcodes.LongBranchBytes | CormanLispServer/include/Compx86.h:772-842 | long branches and calls |
| Opcodes.LongBytes | CormanLispServer/include/Compx86.h:56-64 | the four bytes of a long stand for that number, the least significant one first |
| Encoding.ImageHolds | CormanLispServer/include/Compx86.h:56-1253 | code whose operands fit stands, byte by byte, as the machine decodes it, at every instruction of every suffix |
| Fitting.FitForm | CormanLispServer/src/Compx86.cpp:2473-2476 | every operand and every 8-bit displacement in the code of any accepted form survives encoding, and its pending branches lead only to enclosing blocks and tags |
| Tails.AddFixnums | CormanLispServer/src/Compx86.cpp:5093-5130 | add on tagged words: no overflow exactly when the sum is a fixnum, the word is then its tagging, and sub restores the operand in every case |
| Tails.SubFixnums | CormanLispServer/src/Compx86.cpp:5141-5197 | the same for sub, restored by add |
| Tails.CompareFixnums | CormanLispServer/src/Compx86.cpp:5340-5394 | the signed condition tested after cmp fails exactly when the integer comparison does, for all four orders and for equality |
| Tails.RunTagTests | CormanLispServer/src/Compx86.cpp:5093-5111 | the tag tests fall through exactly on two fixnums and otherwise branch to the generic call |
| Tails.RunArith | CormanLispServer/src/Compx86.cpp:5051-5197 | the template of + and - yields the exact sum or difference when both operands are fixnums and it is one, and otherwise what the generic routine gives for the original operands, exchanged for + |
| Listings.SumListing | CormanLispServer/src/Compx86.cpp:5070-5130 | all bytes of (+ variable fixnum): the literal goes into EDX and is not tested, the variable is |
| Listings.EqualListing | CormanLispServer/src/Compx86.cpp:5213-5281 | all bytes of (= fixnum fixnum): both stay in registers, neither is tested, no generic call is left |
| Listings.TestedOperands | CormanLispServer/src/Compx86.cpp:5084-5104 | a literal is never tested, a variable always, a form typed FIXNUM if and only if types are checked |
| Predicates.RunPredicate | CormanLispServer/src/Compx86.cpp:5199-5401 | the template of = < <= > >= yields T or NIL by integer comparison on fixnums and what the generic predicate says otherwise |
| Predicates.RunEqualFlag | CormanLispServer/src/Compx86.cpp:5230-5287 | = as the test of an IF leaves the same truth value in the zero flag |
| Predicates.RunEq | CormanLispServer/src/Compx86.cpp:5442-5464 | EQ yields T exactly on equal words |
| Predicates.RunNull | CormanLispServer/src/Compx86.cpp:5550-5572 | NULL yields T exactly on NIL |
| Glue.TypeSound | CormanLispServer/src/Compx86.cpp:5051-5092 | a form that the compiler types as FIXNUM evaluates to nothing but fixnums, so leaving its tag test out is safe |
| Glue.OmittedTest | CormanLispServer/src/Compx86.cpp:5093-5100 | an argument without a tag test is a fixnum |
| Relation.LookupAgrees | CormanLispServer/src/Compx86.cpp:2612-2738 | the innermost record of a name describes the place of the innermost binding of that name |
| Leaves.SimVar | CormanLispServer/src/Compx86.cpp:2039-2094 | a variable is loaded from its slot or its binding cell, or the unbound-variable condition is raised, as the evaluator says |
| Leaves.SimLit | CormanLispServer/src/Compx86.cpp:3569-3614 | a constant reaches its destination |
| Leaves.SimNil | CormanLispServer/src/Compx86.cpp:3762-3780 | so does NIL |
| Glue.StoreVar | CormanLispServer/src/Compx86.cpp:3436-3533 | storing into a variable updates that variable and nothing else |
| Glue.RunAssignGlobal | CormanLispServer/src/Compx86.cpp:3533-3567 | storing through a binding cell updates that global and nothing else |
| Glue.StoreFresh | CormanLispServer/src/Compx86.cpp:3839-3851 | storing an initial value into a newly allocated slot changes no live variable and no protected cell |
| Exits.SettledCode | CormanLispServer/src/Compx86.cpp:3713-3726 | code with its exits patched to the block is code whose pending branches lead to the block |
| Exits.RunExit | CormanLispServer/src/Compx86.cpp:4986-5004 | an exit drops exactly the operands above its target and arrives at its label |
| Exits.CatchReturn | CormanLispServer/src/Compx86.cpp:3628-3732 | a RETURN-FROM that arrives at the end of its block is a finished block with that value |
| Exits.CatchJump | CormanLispServer/src/Compx86.cpp:4612-4729 | a GO that arrives at its tag is in the state in which the statements after the tag are run |
| Scopes.MatchesLets | CormanLispServer/src/Compx86.cpp:3904-3930 | after the records of a LET are pushed, its slots represent the extended environment |
| Preservation.SimIf | CormanLispServer/src/Compx86.cpp:2425-2481 | IF: the branch taken is that of the value, the destination is reached from both parts |
| Preservation.SimIfElse | CormanLispServer/src/Compx86.cpp:2425-2481 | the same with an else form, and for a numeric test through the zero flag |
| Preservation.SimLet | CormanLispServer/src/Compx86.cpp:3782-3965 | LET: initial values in the outer environment, all bindings at once |
| Preservation.SimLetStar | CormanLispServer/src/Compx86.cpp:3967-4118 | LET*: each initial value sees the bindings before it |
| Preservation.SimBlock | CormanLispServer/src/Compx86.cpp:3628-3732 | BLOCK: its normal value, a RETURN-FROM to it, and the exits that pass through it |
| Preservation.SimReturn | CormanLispServer/src/Compx86.cpp:4899-5049 | RETURN-FROM, compiled for any destination: the value is computed in EAX, pushed and dropped again if it is compiled for the stack, and control leaves for the innermost block of the name |
| Preservation.SimTagbody | CormanLispServer/src/Compx86.cpp:4457-4610 | TAGBODY: the statements in order, jumps to its tags any number of times, NIL at the end |
| Preservation.SimGo | CormanLispServer/src/Compx86.cpp:4612-4729 | GO: control leaves for the first tag of that name in the innermost TAGBODY that has one |
| Preservation.SimCall | CormanLispServer/src/Compx86.cpp:5051-5401 | two-argument calls: both arguments evaluated left to right, whichever way they are kept, then the template |
| Preservation.Sim | CormanLispServer/src/Compx86.cpp:3616-3626 | semantic preservation: the code of every accepted form, started in any state whose frame represents the environment, leaves the value the evaluator gives at its destination, with ESP at the compile-time index and the variables updated, or arrives at the label the evaluator exits to, or signals what it signals, or takes at least as many steps as there is fuel when evaluation does not end |
| Program.RunFill | CormanLispServer/src/Compx86.cpp:2108-2131 | the unrolled and the looped prolog push the same number of NILs for every frame size |
| Program.RunProlog | CormanLispServer/src/Compx86.cpp:2099-2135 | the prolog saves EBP and EDI and makes a frame of NIL slots |
| Program.RunEpilog | CormanLispServer/src/Compx86.cpp:2137-2142 | the epilog restores the stack and EBP and returns |
| Program.ProgramHolds | CormanLispServer/src/Compx86.cpp:780-790 | the bytes of a whole program decode to its code at every instruction |
| Program.ProgramCorrect | CormanLispServer/src/Compx86.cpp:708-790 | whole programs: the bytes compileExpression emits return the value of the expression with the caller's stack and EBP restored, signal what it signals, and run on as long as it does |
| Program.ProgramTerminates | CormanLispServer/src/Compx86.cpp:708-790 | they return if and only if evaluation ends with a value, signal if and only if it signals, and no run ever lacks a next step: every branch lands on an instruction |
| Scoping.AcceptsExact | CormanLispServer/src/Compx86.cpp:4673-4683 | under any records, with no GO compiled for the stack: compileForm accepts a form if and only if its variables are bound or global, each RETURN-FROM is in a block of its name and each GO in a TAGBODY with its tag; no stack adjustment is then negative |
| Scoping.CompilableExact | CormanLispServer/src/Compx86.cpp:708-790 | so compileExpression refuses an expression exactly when it is out of scope or has a GO compiled for the stack |
| Assembler.EmittedPatch | CormanLispServer/src/Compx86.cpp:329-339 | rewriting the displacement of an emitted branch leaves the buffer as if it had been emitted with that displacement |
| Patching.WaitingExact | CormanLispServer/src/Compx86.cpp:4986-5049 | the branches listed for a label are exactly the pending branches to it in the code, and those listed before |
| Patching.SettleOneMore | CormanLispServer/src/Compx86.cpp:3713-3726 | patching one listed branch settles that branch and no other |
| Patching.SettleDone | CormanLispServer/src/Compx86.cpp:3713-3726 | when all listed branches are patched the code is the settled code |
| Patching.PoppedBranches | CormanLispServer/src/Compx86.cpp:433-471 | when a record is popped, the outer records still list exactly their own branches |
| Landings.LandedAll | CormanLispServer/src/Compx86.cpp:4586-4608 | the code inside a record, patched and the record popped, is the settled code as emitted in the outer context |
| Landings.TagsListed | CormanLispServer/src/Compx86.cpp:4586-4608 | the branches that the tags of a TAGBODY list are all branches to its tags |
| Compiler.Compiler.CompileForm | CormanLispServer/src/Compx86.cpp:3616-3626 | compileForm succeeds exactly on the accepted forms, which are those in scope; the buffer, references, pending branches, records, stack index and frame size are then those of the form's code; the stack index is up by 4 for the stack and by nothing otherwise, and the records are restored |
| Compiler.Compiler.CompileSymbol | CormanLispServer/src/Compx86.cpp:2039-2094 | compileSymbol emits the variable's template for its destination |
| Compiler.Compiler.CompileIfThen | CormanLispServer/src/Compx86.cpp:2425-2481 | compileIfForm with its long branch patched after the then part |
| Compiler.Compiler.CompileIfElse | CormanLispServer/src/Compx86.cpp:2425-2481 | and with both branches patched |
| Compiler.Compiler.CompileSequence | CormanLispServer/src/Compx86.cpp:3734-3760 | the forms of a PROGN, each but the last for effect |
| Compiler.Compiler.CompileSetq | CormanLispServer/src/Compx86.cpp:3327-3567 | the pairs of a SETQ in order |
| Compiler.Compiler.CompileLet | CormanLispServer/src/Compx86.cpp:3782-3965 | compileLetForm: slots allocated and filled, records pushed, body compiled, records popped |
| Compiler.Compiler.CompileLetStar | CormanLispServer/src/Compx86.cpp:3967-4118 | compileLetstarForm: one record after each initial value |
| Compiler.Compiler.CompileBlock | CormanLispServer/src/Compx86.cpp:3628-3732 | compileBlockForm: the record pushed, the body compiled, every listed branch patched to its end |
| Compiler.Compiler.FindBlockRecord | CormanLispServer/src/Compx86.cpp:4819-4833 | findBlock finds the innermost block of the name |
| Compiler.Compiler.CompileReturnFrom | CormanLispServer/src/Compx86.cpp:4899-5049 | compileReturnFromForm: value, stack adjustment, a pending jump listed with its block |
| Compiler.Compiler.CompileTagbody | CormanLispServer/src/Compx86.cpp:4457-4610 | compileTagbodyForm in its passes: tags collected, statements compiled, branches patched |
| Compiler.Compiler.FindTag | CormanLispServer/src/Compx86.cpp:4849-4874 | findTagbodyTag finds the innermost record with the tag, and the first occurrence in it |
| Compiler.Compiler.CompileGo | CormanLispServer/src/Compx86.cpp:4612-4729 | compileGoForm: stack adjustment and a pending jump listed with its tag |
| Compiler.Compiler.PutArith | CormanLispServer/src/Compx86.cpp:5093-5130 | the template of + and -, its three short branches patched to their targets |
| Compiler.Compiler.PutPredicate | CormanLispServer/src/Compx86.cpp:5340-5394 | the template of a predicate, its short branches patched |
| Compiler.Compiler.PutEqualFlag | CormanLispServer/src/Compx86.cpp:5230-5287 | the template of = as a test, its short branches patched |
| Compiler.Compiler.CompileArgs | CormanLispServer/src/Compx86.cpp:5051-5092 | the arguments of a two-argument call, in the registers the template expects |
| Compiler.Compiler.MakeProlog | CormanLispServer/src/Compx86.cpp:2099-2131 | the prolog's bytes, written one by one, are those of the prolog's instructions |
| Compiler.PrologBytes | CormanLispServer/src/Compx86.cpp:2099-2131 | these bytes in full: one PUSH EAX for each slot of a frame below 64 bytes, the counting loop from 64 on |
| Compiler.Compiler.CompileExpression | CormanLispServer/src/Compx86.cpp:708-790 | compileExpression succeeds if and only if the form is in scope (variables, blocks and tags) and contains no GO compiled for the stack; the buffer then holds exactly the program's bytes, every branch patched, and the references are those of the program |
| BranchTargets.BlockExits | CormanLispServer/src/Compx86.cpp:3713-3726 | every jump that a RETURN-FROM in the body of a block has to it, however deep inside, leads to the end of that block |
| BranchTargets.TagExits | CormanLispServer/src/Compx86.cpp:4561-4610 | every jump that a GO in a TAGBODY has to one of its tags leads to the code of exactly the statements after that tag |
| BranchTargets.LandsForm | CormanLispServer/src/Compx86.cpp:2473-2476 | every branch in the code of any form, long or short, forward or backward, patched or written in a template, leads to the beginning of an item of that code or to its end |
| BranchTargets.BranchesResolve | CormanLispServer/src/Compx86.cpp:3713-3726 | in the bytes of a whole program no branch is left pending, and each leads to the place where one of its instructions begins and is decoded |
| StackIndex.EffectForm | CormanLispServer/src/Compx86.cpp:555-573 | for every accepted form the pushes, pops and adjustments of its code add up to the stack index the next form is compiled with: four for the stack, nothing otherwise, four less for each GO compiled for the stack; the adjustment in front of an exit nets nothing |
| StackIndex.FinalCheck | CormanLispServer/src/Compx86.cpp:783-785 | for whole expressions the sum is zero, and the final check silent, if and only if no GO was compiled for the stack |
| StackDiscipline.SteadyForm | CormanLispServer/src/Compx86.cpp:4996-5003 | for every accepted form without a GO compiled for the stack, and every destination: each branch in its code leaves with the stack depth of the very item it leads to, and each pending exit, its adjustment made, with the depth of the record it leaves for |
| StackRuns.ExecMoves | CormanLispServer/include/Compx86.h:876-920 | every instruction but the load of ESP in the epilog moves ESP by exactly what its macro adds to the stack index, and goes on behind itself or to its target |
| StackRuns.EspAtEveryStep | CormanLispServer/src/Compx86.cpp:555-573 | at run time ESP equals the compile-time index at every step: whenever a run of a compiled program, ended or endless, is at an item of the code of its form, ESP is above the frame by the sum of the effects up to that item, less what an adjustment just executed has dropped |
| StackRuns.ControlStays | CormanLispServer/src/Compx86.cpp:708-790 | every state of every run stands where an instruction of the program begins |
| References.ProgramRefs | CormanLispServer/src/Compx86.cpp:341-382 | every reference recorded while a program was compiled addresses, in the finished bytes, four bytes that are its own literal, or the table offset of its own routine or variable |
| References.RefsMoved | CormanLispServer/src/Compx86.cpp:513-553 | references moved past inserted bytes are those of the code recorded from there |
| References.ProgramInserted | CormanLispServer/src/Compx86.cpp:2133-2135 | inserting the prolog in front of the bytes of the form and the epilog gives the bytes of the program, and relocating each reference as the insertion does gives its references |
| CodeBuffer.CodeBuffer.constructor | CormanLispServer/src/Compx86.cpp:625-648 | an empty buffer, its limits and capacities as makeCodeBuffer sets them |
| CodeBuffer.CodeBuffer.GrowCode | CormanLispServer/src/Compx86.cpp:575-584 | growing doubles the limit and keeps the bytes |
| CodeBuffer.CodeBuffer.GrowRefs | CormanLispServer/src/Compx86.cpp:586-595 | the same for the reference vector |
| CodeBuffer.CodeBuffer.AddByte | CormanLispServer/src/Compx86.cpp:246-255 | one byte more; index below limit and capacity limit + 16 again afterwards |
| CodeBuffer.CodeBuffer.AddBytes2 | CormanLispServer/src/Compx86.cpp:257-267 | two bytes more |
| CodeBuffer.CodeBuffer.AddBytes3 | CormanLispServer/src/Compx86.cpp:269-280 | three bytes more |
| CodeBuffer.CodeBuffer.AddLongVal | CormanLispServer/src/Compx86.cpp:282-295 | four bytes of a wrapped integer more |
| CodeBuffer.CodeBuffer.AddObject | CormanLispServer/src/Compx86.cpp:232-309 | the four bytes of a word more |
| CodeBuffer.CodeBuffer.SetByte | CormanLispServer/src/Compx86.cpp:311-316 | one byte replaced |
| CodeBuffer.CodeBuffer.SetLong | CormanLispServer/src/Compx86.cpp:329-339 | four bytes replaced by a wrapped integer |
| CodeBuffer.CodeBuffer.SetObject | CormanLispServer/src/Compx86.cpp:318-327 | four bytes replaced by a word |
| CodeBuffer.CodeBuffer.AddRef | CormanLispServer/src/Compx86.cpp:341-351 | an object and its position at the end of the reference vector |
| CodeBuffer.CodeBuffer.AddJumpTableRef | CormanLispServer/src/Compx86.cpp:363-368 | the last four bytes recorded at the head of the jump table references |
| CodeBuffer.CodeBuffer.AddEnvTableRef | CormanLispServer/src/Compx86.cpp:370-375 | the same for the environment table |
| CodeBuffer.CodeBuffer.AddVarTableRef | CormanLispServer/src/Compx86.cpp:377-382 | the same for the variable table |
| CodeBuffer.CodeBuffer.IncDynamicEnvSize | CormanLispServer/src/Compx86.cpp:387-392 | the offset of the block allocated, and the new frame size |
| CodeBuffer.CodeBuffer.InsertCode | CormanLispServer/src/Compx86.cpp:480-553 | bytes inserted anywhere, the buffer grown first, and all five kinds of reference moved; the growth loop ends |
| CodeBuffer.InsertionTransparent | CormanLispServer/src/Compx86.cpp:513-553 | a relocated reference still addresses the same four bytes, for every insertion, if and only if the insertion does not split them |
| CodeBuffer.TablesRelocated | CormanLispServer/src/Compx86.cpp:519-550 | so every entry of the table reference lists that is not split addresses its own four bytes after an insertion, and keeps its symbol |
| CodeBuffer.CellsRelocated | CormanLispServer/src/Compx86.cpp:512-518 | and every position in the reference vector, whose objects stay as they are |
| CodeBuffer.FrontInsertion | CormanLispServer/src/Compx86.cpp:2133-2135 | after an insertion in front every instruction decodes as before, further on, with the same displacement: relative branches keep their targets |
| CodeBuffer.SlotsDisjoint | CormanLispServer/src/Compx86.cpp:387-392 | over any sequence of allocations the ranges are pairwise disjoint and inside the area that the prolog fills |
| ReturnValues.ThroughEax | CormanLispServer/src/Compx86.cpp:2039-2094 | every form that is not a constant, a lexical variable or an exit computes its value in EAX, and pushes it from there when it is compiled for the stack |
| ReturnValues.CountedCode | CormanLispServer/src/Compx86.cpp:2425-2481 | IF, LET, LET*, BLOCK, TAGBODY and a PROGN of several forms have the same code for an operand as for Dest_EAX, count and all |
| Boundaries.StackReturnLoses | CormanLispServer/src/Compx86.cpp:4949-5003 | RETURN-FROM compiled for the stack: a constant or lexical variable as its value never reaches the block, EAX is left as it was |
| Boundaries.StackReturnKeeps | CormanLispServer/src/Compx86.cpp:4949-5003 | every other value does; so the guard of the direct push decides exactly which values are lost |
| Boundaries.CountedReturn | CormanLispServer/src/Compx86.cpp:4949-5003 | RETURN-FROM for an operand or the stack: a value from code compiled for Dest_EAX arrives with its count, ECX is one |
| Boundaries.LostValue | CormanLispServer/src/Compx86.cpp:4949-5003 | a whole program, for any constant, that evaluates to that constant and returns whatever its caller had in EAX |
| Boundaries.UncountedValue | CormanLispServer/src/Compx86.cpp:4949-5003 | a whole program whose value arrives without the value count in ECX being set |
| Boundaries.OperandReturn | CormanLispServer/src/Compx86.cpp:4949-5003 | RETURN-FROM compiled for an operand: the value arrives, and the value count at the end of the block is exactly what the code of the value left in ECX |
| Boundaries.DirectReturnUnset | CormanLispServer/src/Compx86.cpp:4949-5003 | so a constant or a lexical variable returned that way leaves the count as it was before, whatever it was |
| Closures.Search | CormanLispServer/src/Compx86.cpp:2612-2738 | the loop over the lexical records finds the place that the specification finds, for reads, closure slots and SETQ |
| Closures.ScopeExact | CormanLispServer/src/Compx86.cpp:2617-2652 | scope, said record by record: the first binding of the name and kind, with no inherited-variables record before it that lacks the variable, none at all for a function, and for a read no special declaration of it |
| Closures.FindExact | CormanLispServer/src/Compx86.cpp:2633-2680 | the search finds the binding in scope if and only if it belongs to the function itself or is in a cell, and the slot it then computes is the number of cells before it |
| Closures.SlotsCount | CormanLispServer/src/Compx86.cpp:2971-3005 | slots are numbered without a gap: the slot of a record is the number of cells in front of it |
| Closures.LexEnvironmentSlots | CormanLispServer/src/Compx86.cpp:2971-3005 | the loop that numbers the slots: as many as there are cells, with one entry for each |
| Closures.EntriesExact | CormanLispServer/src/Compx86.cpp:2971-3005 | the entries are exactly those of the cells, each with the slot that inner functions compute |
| Closures.LexEnvironment | CormanLispServer/src/Compx86.cpp:3011-3067 | every slot of the environment vector holds what the creating function loads for its name |
| Closures.SharedCell | CormanLispServer/src/Compx86.cpp:2545-2878 | for any nesting of lambda expressions the code loads the very cell that the binder made, through however many environment vectors, shadowing included |
| Closures.ReadsAgree | CormanLispServer/src/Compx86.cpp:2647-2652 | reads and SETQ resolve a variable alike if and only if no special declaration of the name stands before its binding |
| Closures.SharedRead | CormanLispServer/src/Compx86.cpp:2545-2739 | a read then loads the word of the binding in scope |
| NonlocalReturns.FindLambdasForm | CormanLispServer/src/Compx86.cpp:5954-5967 | findLambdas finds exactly the unquoted lambda expressions that are not inside others |
| NonlocalReturns.LambdaShapes | CormanLispServer/src/Compx86.cpp:5940-5952 | (LAMBDA list . body) and (BLOCK symbol . body) are lambda expressions and blocks, and nothing else is |
| NonlocalReturns.LocalFunctions | CormanLispServer/src/Compx86.cpp:5954-5967 | in FLET and LABELS every definition counts as a lambda expression, and the body is searched as any other list |
| NonlocalReturns.QuotedParts | CormanLispServer/src/Compx86.cpp:5964-5965 | nothing inside a quotation is found |
| NonlocalReturns.LabelsForm | CormanLispServer/src/Compx86.cpp:5976-5998 | findBlockLabels tells exactly the labels of the blocks around the target, those given, and T |
| NonlocalReturns.EmbeddedForm | CormanLispServer/src/Compx86.cpp:6035-6068 | findEmbeddedReturnForms finds exactly the unquoted returns to the label that no block inside catches |
| NonlocalReturns.ReturnShapes | CormanLispServer/src/Compx86.cpp:6057-6064 | (RETURN . v) returns to the block NIL and to no other, (RETURN-FROM l . v) to the block l, and nothing else is a return form |
| NonlocalReturns.FindEmbeddedReturnForms | CormanLispServer/src/Compx86.cpp:6035-6068 | the loops of findEmbeddedReturnForms collect these forms, in the order of the source |
| NonlocalReturns.TakenExact | CormanLispServer/src/Compx86.cpp:3654-3671 | the forms that BLOCK rewrites are exactly the returns inside lambda expressions whose innermost matching block is this one, unless the label is T |
| NonlocalReturns.CollectReturns | CormanLispServer/src/Compx86.cpp:3654-3671 | the loop of BLOCK collects exactly these forms |
| NonlocalReturns.NilBlockExact | CormanLispServer/src/Compx86.cpp:3654-3671 | for blocks labelled NIL, by the shapes of the forms: RETURN and RETURN-FROM NIL inside a lambda expression, with no block NIL in between |
| NonlocalReturns.TakenReturn | CormanLispServer/src/Compx86.cpp:3654-3671 | the RETURN in (BLOCK NIL (LAMBDA NIL (RETURN))) is taken |
| NonlocalReturns.MissedReturn | CormanLispServer/src/Compx86.cpp:3659-3661 | a block labelled T whose return is missed |
| NonlocalReturns.SearchExact | CormanLispServer/src/Compx86.cpp:6000-6021 | a variable gets a cell exactly when a lambda expression mentions it or captures the whole environment |
| Capture.MentionInCell | CormanLispServer/src/Compx86.cpp:6000-6021 | cells are decided function by function, by searching the lambda expressions in each; that is enough: in any nest of functions, every variable that the innermost one mentions is its own or in a cell |
| Capture.MentionsShared | CormanLispServer/src/Compx86.cpp:2545-2878 | so for any nest, with no condition on the cells, the code loads for every variable it mentions the very word that the binder put in its frame |
| Capture.MentionsRead | CormanLispServer/src/Compx86.cpp:2545-2739 | and a read, wherever the name is in scope for it, does the same |
| DesCipher.FinalInitial | CormanLispIDE/src/EncryptDes.cpp:375-449 | the final permutation takes back the initial one, with the halves exchanged |
| DesCipher.InitialFinal | CormanLispIDE/src/EncryptDes.cpp:375-449 | and the initial one the final one |
| DesCipher.RoundsBack | CormanLispIDE/src/EncryptDes.cpp:405-425 | the rounds run again with the opposite schedule take themselves back, from any round on |
| DesCipher.CryptInverse | CormanLispIDE/src/EncryptDes.cpp:375-449 | for every block and all S-box tables, the block function under the opposite schedule undoes itself |
| FipsTables.InitialIsTable | CormanLispIDE/src/EncryptDes.cpp:387-403 | the swaps, masks and rotations of the initial permutation move each of the 64 bits as the table IP of FIPS 46-3 says, each half then rotated left by one place |
| Fips46.ScrambleIsStandard | CormanLispIDE/src/EncryptDes.cpp:407-421 | on a half so rotated, for all tables and key words: the entries of table j selected by row j of the selection E, exclusive-or the six key bits held for table j, for j from 1 to 8 |
| Fips46.RoundsStandard | CormanLispIDE/src/EncryptDes.cpp:405-425 | the sixteen rounds are L(n) = R(n-1), R(n) = L(n-1) + f(R(n-1), K(n)) on the unrotated halves, with the keys in the opposite order for deciphering |
| Fips46.CryptIsStandard | CormanLispIDE/src/EncryptDes.cpp:375-449 | the block function under the schedules of deskey is the cipher of FIPS 46-3, enciphering and deciphering, for every block, every key and all tables |
| DesKeys.SchedulesOpposite | CormanLispIDE/src/EncryptDes.cpp:309-370 | deskey for deciphering yields exactly the enciphering round keys with their pairs reversed, and conversely |
| DesKeys.KeyByteParity | CormanLispIDE/src/EncryptDes.cpp:290-300 | a processed key byte is the one byte of odd parity with the character's low seven bits |
| DesKeys.LocalKeyOdd | CormanLispIDE/src/EncryptDes.cpp:279-307 | the eight key bytes in order: odd parity, the low seven bits of the character, and zeros past the end of the key |
| DesKeys.KeyBits | CormanLispIDE/src/EncryptDes.cpp:315-320 | key bits are read from the most significant bit of each byte down |
| DesKeys.Pc1TableLeft | CormanLispIDE/src/EncryptDes.cpp:503-515 | the selection of permuted choice 1 is the source's table, left half |
| DesKeys.Pc1TableRight | CormanLispIDE/src/EncryptDes.cpp:503-515 | and right half |
| DesKeys.Pc1Reads | CormanLispIDE/src/EncryptDes.cpp:503-515 | every key bit but the lowest of each byte is read |
| DesKeys.Pc1SkipsLowest | CormanLispIDE/src/EncryptDes.cpp:503-515 | and none of the lowest |
| FipsKeys.ShiftedInAll | CormanLispIDE/src/EncryptDes.cpp:517-518 | the sixteen total rotations are those of the left shifts of FIPS 46-3, one or two places a round |
| FipsKeys.RotatedIsShifted | CormanLispIDE/src/EncryptDes.cpp:327-343 | each rotated register bit is a bit of C or D after that many rounds |
| FipsKeys.CookedRows | CormanLispIDE/src/EncryptDes.cpp:344-369 | the two cooked words of a round hold, each in its field, the eight six-bit rows that permuted choice 2 of FIPS 46-3 selects from C and D |
| DesKeys.KeysDistinct | CormanLispIDE/src/EncryptDes.cpp:279-320 | two keys of one to eight non-zero 7-bit characters select the same 56-bit register if and only if they are equal |
| EncryptDes.CbcRoundTrip | CormanLispIDE/src/EncryptDes.cpp:59-211 | for every message of any length and every pair of opposite schedules, deciphering gives back the message and its length |
| EncryptDes.RoundTrip | CormanLispIDE/src/EncryptDes.cpp:59-211 | so it does with the schedules of any character key |
| EncryptDes.EncipherLength | CormanLispIDE/src/EncryptDes.cpp:75-117 | a message becomes its whole blocks and one more |
| Chaining.CipherBlocks | CormanLispIDE/src/EncryptDes.cpp:75-117 | the chaining equation: every ciphertext block is the cipher of its message block exclusive-or the ciphertext block before it; the last block is the bytes left, zeros, and their number |
| Chaining.DecipherBlocks | CormanLispIDE/src/EncryptDes.cpp:167-205 | what any whole blocks decipher to, ciphertext or not, block for block; an error if and only if the last byte is above seven |
| Chaining.BigEndian | CormanLispIDE/src/EncryptDes.cpp:451-463 | the cipher is applied to blocks whose first byte is the most significant |
| EncryptDes.HexRoundTrip | CormanLispIDE/src/EncryptDes.cpp:465-501 | importing what was exported gives the bytes back |
| EncryptDes.HexDigits | CormanLispIDE/src/EncryptDes.cpp:465-486 | each byte is written as two hexadecimal digits, the more significant one first |
| EncryptDes.TextRoundTrip | CormanLispIDE/src/EncryptDes.cpp:465-501 | exporting what was imported gives the text in upper case if and only if it is whole bytes of hexadecimal digits |
| EncryptDes.EncryptDES.Parity | CormanLispIDE/src/EncryptDes.cpp:290-299 | the parity loop |
| EncryptDes.EncryptDES.ProcessKey | CormanLispIDE/src/EncryptDes.cpp:279-307 | processKey leaves the schedule of the key with its parity bits |
| EncryptDes.EncryptDES.DesKey | CormanLispIDE/src/EncryptDes.cpp:309-370 | deskey: register, rotations, bit collection and rearrangement leave the schedule |
| EncryptDes.EncryptDES.EncryptBlock | CormanLispIDE/src/EncryptDes.cpp:375-449 | encryptBlock is the block function under the schedule held |
| EncryptDes.EncryptDES.Encrypt | CormanLispIDE/src/EncryptDes.cpp:59-118 | encrypt: the chained ciphertext and its length, or -1 for a key of the wrong length |
| EncryptDes.EncryptDES.Decrypt | CormanLispIDE/src/EncryptDes.cpp:139-211 | decrypt: what the whole blocks held decipher to, with its length and a zero after it, and every error case; bytes after the last whole block are ignored |
| EncryptDes.EncryptDES.ExportHex | CormanLispIDE/src/EncryptDes.cpp:245-254 | the hexadecimal text of the buffer |
| EncryptDes.EncryptDES.ImportHex | CormanLispIDE/src/EncryptDes.cpp:269-277 | a buffer with the bytes of a hexadecimal text |
| EncryptDes.EncryptCString | CormanLispIDE/src/EncryptDes.cpp:213-218 | the hexadecimal ciphertext of a text |
| EncryptDes.DecryptCString | CormanLispIDE/src/EncryptDes.cpp:220-228 | deciphers the whole blocks of any hexadecimal text, and so gives back every text that was encrypted with the same key |
| CharBuf.RunKeeps | CormanLispServer/src/CharBuf.cpp:48-87 | in every run of locked steps, what was delivered followed by what is held is what was accepted, and at most size - 1 characters are held |
| CharBuf.AcceptsAllThatFit | CormanLispServer/src/CharBuf.cpp:68-77 | a step of a producer leaves min(size - 1, held + text) characters, its text from the front: something is refused only when the buffer is then full |
| CharBuf.DeliversAllThereAre | CormanLispServer/src/CharBuf.cpp:48-66 | a step of the reader takes min(num, held) characters, the oldest first: fewer than asked for only when nothing is left |
| CharBuf.SubmitInOrder | CormanLispServer/src/CormanLispServer.cpp:573-583 | whatever other threads do between its calls, the retry loop gets its characters in in order, none lost and none twice |
| CharBuf.SubmitDone | CormanLispServer/src/CormanLispServer.cpp:573-583 | when the reader takes something in every turn, the whole text gets in |
| CharBuf.SubmitStuck | CormanLispServer/src/CormanLispServer.cpp:573-583 | a full buffer that nobody reads keeps the loop going for ever |
| CharBuf.CharBuf.AddChars | CormanLispServer/src/CharBuf.cpp:68-87 | addChars appends the smaller of num and size - 1 - held characters, and says how many |
| CharBuf.CharBuf.GetCharsInBuffer | CormanLispServer/src/CharBuf.cpp:48-66 | getCharsInBuffer delivers the oldest characters and moves the rest down |
| CharBuf.ProcessLispSource | CormanLispServer/src/CormanLispServer.cpp:573-583 | the loop does what the specification of the retry loop says |
| StackMarkers.RunGood | CormanLispServer/include/Lisp.h:1922-2078 | in every run in which no check fails, the parity of the index says whether Lisp or foreign code runs, and there is room for all markers |
| StackMarkers.ReturnMatches | CormanLispServer/include/Lisp.h:2029-2078 | a return pops the marker of its matching entry, and passes its check if and only if it is of the entry's kind |
| StackMarkers.CallsBalanced | CormanLispServer/include/Lisp.h:1922-2078 | calls nested in any way leave the markers as they found them, and a check fails if and only if they are nested deeper than thirty |
| StackMarkers.ThrowRestores | CormanLispServer/src/Lisp.cpp:2649-2674 | a THROW takes away exactly the transitions made since its catcher was set up, and is an error if and only if that leaves foreign code running |
| StackMarkers.ThreadMarkers.Blessed | CormanLispServer/src/CormanLispServer.cpp:892-895 | a blessed thread starts with one marker, in foreign code |
| StackMarkers.ThreadMarkers.LispToForeign | CormanLispServer/include/Lisp.h:1925-1946 | the macro's check and its effect on index and cells |
| StackMarkers.ThreadMarkers.ForeignToLisp | CormanLispServer/include/Lisp.h:2004-2026 | the same for entering Lisp |
| StackMarkers.ThreadMarkers.ForeignReturnToLisp | CormanLispServer/include/Lisp.h:2029-2052 | the marker and its cells cleared |
| StackMarkers.ThreadMarkers.LispReturnToForeign | CormanLispServer/include/Lisp.h:2055-2078 | the same for leaving Lisp |
| StackMarkers.ThreadMarkers.Throw | CormanLispServer/src/Lisp.cpp:2653-2674 | the peeling loop; cells above the index stay zero if and only if no marker taken away held a return address |
| StackMarkers.AddressLeft | CormanLispServer/src/Lisp.cpp:2653-2674 | a thread that foreign code started, a catcher, a foreign call and a callback that throws: the return address is left above the index |
| StackMarkers.ThreadMarkers.MayAbort | CormanLispServer/src/CormanLispServer.cpp:1036-1046 | the parity test of the abort request is true exactly when Lisp code runs |
| ConnectionPoint.SearchSucceeds | CormanLispServer/src/CoConnectionPoint.cpp:126-133 | there is an empty slot if and only if the count is below the size |
| ConnectionPoint.CookiesStable | CormanLispServer/src/CoConnectionPoint.cpp:121-189 | in every run a cookie stands for its sink until it is given to Unadvise; above sixteen, for ever |
| ConnectionPoint.UnadviseDisconnects | CormanLispServer/src/CoConnectionPoint.cpp:179-189 | giving a live cookie up to sixteen to Unadvise ends its connection and no other, and gives up one reference to its sink |
| ConnectionPoint.UnadviseRefuses | CormanLispServer/src/CoConnectionPoint.cpp:181-184 | from seventeen on nothing changes |
| ConnectionPoint.GrowsByEight | CormanLispServer/src/CoConnectionPoint.cpp:135-162 | a full table grows by eight empty slots, no other table grows |
| ConnectionPoint.NeverDisconnected | CormanLispServer/src/CoConnectionPoint.cpp:179-189 | seventeen calls of Advise on a new connection point, and the last cookie stands for its sink after every run, calls of Unadvise with it included |
| ConnectionPoint.CookieUnique | CormanLispServer/src/CoConnectionPoint.cpp:164-175 | a new cookie stood for nothing before, and no other cookie changes |
| ConnectionPoint.ReferencesConserved | CormanLispServer/src/CoConnectionPoint.cpp:121-189 | in every run the table holds one reference for every connection made and not taken back |
| ConnectionPoint.SnapshotSinks | CormanLispServer/src/CoConnectionPoint.cpp:204-214 | the snapshot has one connection for each filled slot, and the table's references |
| ConnectionPoint.SnapshotCookies | CormanLispServer/src/CoConnectionPoint.cpp:204-214 | the cookies in the snapshot are exactly the live ones, each with the sink it stands for |
| ConnectionPoint.ReceiversInSlotOrder | CormanLispServer/src/CoCormanLisp.cpp:338-362 | the sinks a broadcast reaches are those of the filled slots that implement the interface, each slot once, in slot order |
| ConnectionPoint.CoConnectionPoint.Advise | CormanLispServer/src/CoConnectionPoint.cpp:121-175 | cookie, table, reference counts and error; the count equals the number of filled slots again |
| ConnectionPoint.CoConnectionPoint.Unadvise | CormanLispServer/src/CoConnectionPoint.cpp:179-189 | for a live cookie up to sixteen the slot and its reference given up; otherwise refused with nothing changed |
| ConnectionPoint.CoConnectionPoint.EnumConnections | CormanLispServer/src/CoConnectionPoint.cpp:192-224 | an enumerator of the filled slots in slot order with references of its own, or failure without connections |
| ConnectionPoint.OutputText | CormanLispServer/src/CoCormanLisp.cpp:338-362 | every live sink that implements text output is called once in slot order, all reference counts are afterwards what they were, and the last answer is returned |
| EnumConnections.CoEnumConnections.constructor | CormanLispServer/src/CoEnumConnections.cpp:27-45 | one reference for each connection listed |
| EnumConnections.CoEnumConnections.Next | CormanLispServer/src/CoEnumConnections.cpp:95-125 | the following connections with a reference each; the error cases |
| EnumConnections.CoEnumConnections.Skip | CormanLispServer/src/CoEnumConnections.cpp:128-135 | forward in 32-bit arithmetic, never to the end |
| EnumConnections.CoEnumConnections.Reset | CormanLispServer/src/CoEnumConnections.cpp:138-143 | back to the first connection |
| EnumConnections.CoEnumConnections.Release | CormanLispServer/src/CoEnumConnections.cpp:47-88 | the last release gives all references back |
| EnumConnections.CoEnumConnections.Clone | CormanLispServer/src/CoEnumConnections.cpp:145-162 | the same list and position, with references of its own |

## Left out

Of the compiler:

- Function calls, argument parsing, CATCH, UNWIND-PROTECT, LOAD-TIME-VALUE, special bindings in LET, macros and declarations; the errors for malformed forms.
- BranchTargets.BranchesResolve: does not name the label of a branch; within each block and TAGBODY BranchTargets.BlockExits and BranchTargets.TagExits do.
- The rewriting of non-local returns into CATCH and THROW: the analysis that selects the forms is modelled, not the code it leads to.  Non-local GO is not modelled.
- Closures.SharedCell: states where the words come from; the instructions that move them are not part of the machine.  It takes from its caller that the binding is in a cell; Capture.MentionsShared derives that.
- Closures.SharedRead: the same for reads; Capture.MentionsRead derives it.
- Capture.MentionsShared: local functions in cells are not decided there, only variables.
- The two comparison macros whose zero-offset EBP form is malformed (Compx86.h 142-146, 1256-1262) are not used by the modelled forms.
- Symbols whose table entry does not exist yet: the source makes one, the model refuses a name without one.  Variable table offsets are taken to be above 127, where the entries of user symbols lie.
- LispObj is unsigned, so the byte test of an object never holds and objects are always pushed with four bytes; the model has that form only.
- The generic + is taken to be commutative: the code calls it with its arguments exchanged in some cases.
- Memory is a stack of cells, binding cells by address and a table behind ESI; absolute addresses, stack overflow and a collector that moves objects are not modelled.
- Program.ProgramCorrect: excludes forms with a GO compiled for the stack, which the compiler refuses in the end, and with a RETURN-FROM that loses its value (CleanForm); the value count is claimed where no RETURN-FROM leaves it unset; and programs too large for 29-bit displacements.
- Preservation.Sim: the fuel bounds the backward jumps of TAGBODY; Program.ProgramTerminates removes it for whole programs.
- Compiler.Compiler.CompileForm: keeps the table references in one log, where the source has a vector and three lists; CodeBuffer.CodeBuffer has them apart.  Its bytes are a field of its own: emitting through the bounded, growing buffer of CodeBuffer.CodeBuffer, which appends the same bytes, is not modelled.  The comparison templates, which the source writes out per function, are shared methods, and tag addresses are kept beside the record.
- CodeBuffer.CodeBuffer.InsertCode: positions beyond the 29-bit range of a wrapped integer are not modelled.
- NonlocalReturns.TakenExact: for programs without FLET and LABELS and without operator names where a form would begin with them; forms share no structure.
- SETQ under a list of inherited lexicals gives up without an assignment when the name is not listed; Closures.Search stops there too, and what the caller then does is not modelled.

Of the DES class:

- Fips46.CryptIsStandard: holds for all table contents; that the source's 512 entries are the S-box values of the standard, permuted by P and rotated left by one place, is not proved.
- ECB mode, binary import and export.  Keys are the characters before the first zero.
- EncryptDes.EncryptDES.Decrypt: with less than one block in its buffer the source reads in front of it; the model requires a block.  The assertions that a debugging build makes about lengths are not modelled.
- EncryptDes.DecryptCString: a text of fewer than sixteen digits is less than a block, as above; after a failed decryption the source returns whatever its string buffer holds; the model returns None.

Of the protocols:

- Events, timeouts and Windows messages: waiting is a step in which nothing happens.  getChars, which stops at a zero, is not modelled.
- The overlapping memcpy of getCharsInBuffer is a copy towards lower addresses, byte by byte.
- What happens after a failed marker check: the source reports and goes on, the model's run ends there.
- ConnectionPoint.CoConnectionPoint.Unadvise: a cookie of zero, or between the table's size and sixteen, makes the source read outside the table; the model requires neither.
- Failure to allocate memory, tables of 2^32 slots, sinks that call back during a broadcast, and the destruction of an object whose count reaches zero.
- The other broadcasts, which have the shape of OutputText.

The user interface, the reader, the collector, image files, COM factories and the console clients are not modelled.
