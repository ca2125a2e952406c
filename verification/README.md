# Native instrumentation of V#: a verified model

This project models the parts of V# that rewrite, observe and report a running .NET
program, and proves what they are meant to guarantee.

**IL rewriter.** `Opcodes`, `Layout`, `Bytes` and `Codec` describe instruction streams
(Partition III of ECMA-335), branch relaxation and the decoder and encoder. `Splice` and
`Rewriting` describe the instruction list while probes are inserted, and the plan RewriteIL
follows; `OpcodeTable`, `CodecLaws` and `Coverage` say in opcodes and bytes what these come
to. `Linking`, `Machine` and `Meaning` turn the result back into a method body and relate its
runs to those of the original body under an arbitrary instruction semantics.
`InstrList`, `Probing`, `Exporting`, `Importing`, `Planning` and `MethodRewriter` are the
rewriter itself: the circular doubly linked list of nodes, the insertions, both passes of
Export with their repetition, the decoder and all loops of RewriteIL, each proved against
the specification. `Examples` shows that the assumptions can be met.

**Signature parser.** `SigGrammar` holds the trees of section II.23.2 of ECMA-335, their
blobs and notifications, `SigParsing` the parser as functions with its round trip, and
`SigParser` the recursive descent over a shared cursor; `SigLaws` gives the meaning of each byte.

**Object comparison.** `ObjectsComparer`: comparison of cyclic object graphs and bisimilarity.

**Shadow heap and stacks.** `ShadowHeap`, `Concreteness` and `ShadowStack`.

**Wire layer and lifecycle.** `TypeCode`, `Framing`, `Protocol`, `Instrumenter` and
`History`, which reads the state of the instrumenter off the events so far.

**Fresh names.** `IdentifiersCache`.

A method given to the rewriter is assumed to be well-formed in the sense of ECMA-335
(`Rewriting.Instrumentable`): branches and clause bounds lead to instructions, not into switch
tables or behind prefixes; prefixes stand in front of instructions they may modify; `tail.`
is followed by its call and a `ret` (section III.2.4); a handler is not empty. Instruction
semantics is a parameter: it decides what an instruction does and where control goes, by
falling through, branching, choosing a switch arm, entering the handler or filter of a clause
for an exception or a leave, or resuming a leave after its finally handlers (`Machine.Control`).
Assumed of it is that nops do nothing, constants are pushed, a probe pops its arguments and has
no effect the method can observe, and that the long form of a branch means what its short form
means (`Machine.Sound`).

Two properties do not hold of the code as it stands, and the model says exactly when they do:

* An access strictly inside one cell of the concreteness bitmap acts on the whole cell
  (`Concreteness.InsideExample`); reads and writes are exact if and only if the range is not
  of that kind (`Concreteness.ReadExactIff`, `Concreteness.WriteExactIff`).
* A reserved name can be issued, namely if and only if it consists of a base name and a
  positive decimal (`IdentifiersCache.ReservedIssuedIff`; an instance is `IdentifiersCache.ReservedExample`).

## Model

| member | source | states |
|---|---|---|
| `MethodRewriter.RewriteIL` | VSharp.CoverageInstrumenter/profiler/ILRewriter.cpp:1251-1474 | the imperative rewriter on the linked list: an error exactly for an invalid instruction stream, a failed assertion exactly where a branch or clause bound leads to no instruction; otherwise the bytes, clauses and stack limit of the specification `Meaning.RewriteIL`, about which the next rows speak |
| `Meaning.RewrittenDoesAll` | VSharp.CoverageInstrumenter/profiler/ILRewriter.cpp:1251-1474 | for every instruction semantics that treats nops, constants and probe calls as such, each state of the original run, through finally handlers, filters and catch handlers too, is reached by the run of the rewritten bytes after the same number of original instructions: same instruction up to the width of its branch, same exceptions and leaves under way, same stack, same world |
| `Meaning.RewrittenDoesNoMore` | VSharp.CoverageInstrumenter/profiler/ILRewriter.cpp:1251-1474 | after any k steps the rewritten run follows the original run after exactly as many steps as there were original instructions among them: ended if and only if it has ended, same world, same exceptions and leaves under way, the original stack below at most four constants of a probe being called, and the very same point outside probes and nops; the count grows by one with each original instruction and by nothing else |
| `Meaning.RewrittenStackBound` | VSharp.CoverageInstrumenter/profiler/ILRewriter.cpp:664-689 | if the original run keeps within the imported maximal stack, the rewritten run keeps within the accumulated one, inside enter, leave and coverage probes too |
| `Pipeline.RewriteGrows` | VSharp.CoverageInstrumenter/profiler/ILRewriter.cpp:1288-1464 | the rewritten list has at most 21 entries per original entry, 5 per clause and 5 more |
| `Meaning.ExportedSmall` | VSharp.CoverageInstrumenter/profiler/ILRewriter.cpp:704-839 | so a bound on the size of the input keeps all displacements of the output within four bytes |
| `Meaning.RewrittenLoads` | VSharp.CoverageInstrumenter/profiler/ILRewriter.cpp:704-919 | the rewritten bytes and EH section decode to exactly the laid-out list and its clauses |
| `Meaning.LoadOfStore` | VSharp.CoverageInstrumenter/profiler/ILRewriter.cpp:897-913 | an EH clause written from node offsets and read back names the same nodes |
| `Meaning.StoredLoads` | VSharp.CoverageInstrumenter/profiler/ILRewriter.cpp:599-632 | any encodable program with its clauses, stored and loaded, is itself again |
| `Meaning.LinkedCanonical` | VSharp.CoverageInstrumenter/profiler/ILRewriter.cpp:1251-1474 | the list after all insertions is one that can be encoded: operands fit, targets are instruction starts, every switch keeps exactly its table |
| `Meaning.WidenedRun` | VSharp.CoverageInstrumenter/profiler/ILRewriter.cpp:800-826 | widening branches changes no run |
| `Machine.SplicedFollowsOriginal` | VSharp.CoverageInstrumenter/profiler/ILRewriter.cpp:1143-1193 | for any list that the insertions can lead to: after k steps the spliced run is where the original run is after as many steps as original instructions were executed, or on its way there through probes and nops |
| `Machine.OriginalFollowsSpliced` | VSharp.CoverageInstrumenter/profiler/ILRewriter.cpp:1143-1193 | every original step is matched after finitely many probe and nop steps; branches, switch arms, fall-through, handlers and filters, entered for an exception or a leave that starts there or is still under way, and a leave resumed after its finally handlers lead to the same original instruction |
| `Machine.RelatedDepth` | VSharp.CoverageInstrumenter/profiler/ILRewriter.cpp:968-1041 | between matched states the original stack lies below the constants a probe has pushed so far; one run has ended exactly if the other has |
| `Machine.SameClause` | VSharp.CoverageInstrumenter/profiler/ILRewriter.cpp:1130-1193 | the clauses that may be entered for an instruction are the same in both lists |
| `Linking.ClauseCoverage` | VSharp.CoverageInstrumenter/profiler/ILRewriter.cpp:1130-1193 | after any insertions an original instruction lies in a try range, a handler or behind a filter start exactly if it did before |
| `Rewriting.RewriteInv` | VSharp.CoverageInstrumenter/profiler/ILRewriter.cpp:1277-1463 | after all insertions, erasing probes and nops gives the original instructions in order, every original node still leads to its instruction, prefixes, tail calls and switch tables are unbroken, clauses keep their bounds |
| `Rewriting.ProbesPlaced` | VSharp.CoverageInstrumenter/profiler/ILRewriter.cpp:1288-1419 | every planned probe is on the paths it is meant for: in front of its instruction for all control that enters there, or behind it for all control that falls through; in front of a tail. prefix the probe for the call comes behind those of the prefix itself |
| `Rewriting.TailCovered` | VSharp.CoverageInstrumenter/profiler/ILRewriter.cpp:1327-1349 | the offset of the call behind every tail. prefix counts as covered |
| `Coverage.DueProbesAreThere` | VSharp.CoverageInstrumenter/profiler/ILRewriter.cpp:1288-1419 | by opcode: a branch probe runs in front of every branch, switch and leave, a leave probe in front of every ret that ends no tail call (leaveMain exactly in main), throw probes in front of throw, rethrow and every handler, coverage probes in front of endfinally, endfilter and tail. prefixes, a stsfld probe in front of stsfld or its prefix, the tail call probe directly in front of tail., and a call probe behind every call, calli, callvirt and newobj that is no tail call; each reports the offset of its instruction |
| `Coverage.BlocksAreReported` | VSharp.CoverageInstrumenter/profiler/ILRewriter.cpp:1296-1325 | the enter probe stands in front of everything (enterMain exactly in main), and for every target of a branch or switch arm some probe reports the offset of the instruction in front of it |
| `Coverage.EveryProbeIsDue` | VSharp.CoverageInstrumenter/profiler/ILRewriter.cpp:1288-1464 | conversely every other probe of the rewritten list is one of these, or closes the block in front of a branch target, and stands at the instruction it is due for |
| `Coverage.StackLimit` | VSharp.CoverageInstrumenter/profiler/ILRewriter.cpp:664-689 | the stack limit grows by the pushes of the imported instructions, five for the enter probe, four for every other probe and at most two for each instruction that moves to a copy |
| `Splice.EditKeepsInv` | VSharp.CoverageInstrumenter/profiler/ILRewriter.cpp:1130-1193 | each of the three insertions keeps the invariant: erasure, anchors of branches and clauses, unbroken prefixes and tables, handler ends moved and try ends left |
| `Splice.EnterKeepsInv` | VSharp.CoverageInstrumenter/profiler/ILRewriter.cpp:1016-1041 | so does the enter probe |
| `Splice.ImportedInv` | VSharp.CoverageInstrumenter/profiler/ILRewriter.cpp:460-632 | the freshly imported list satisfies the invariant |
| `Examples.AcceptableExample` | VSharp.CoverageInstrumenter/profiler/ILRewriter.cpp:1251-1474 | a method with a switch, a finally handler and a tail call meets the assumptions |
| `Examples.ThroughFinally` | VSharp.CoverageInstrumenter/profiler/ILRewriter.cpp:599-632 | its leave goes through the finally handler and on to its target |
| `Examples.ThroughFilter` | VSharp.CoverageInstrumenter/profiler/ILRewriter.cpp:599-632 | in any program a filter that accepts leads to its handler |
| `Examples.SoundExample` | VSharp.CoverageInstrumenter/profiler/ILRewriter.cpp:968-1041 | the assumptions on the instruction semantics can be met |
| `InstrList.ILRewriter.InsertBefore` | VSharp.CoverageInstrumenter/profiler/ILRewriter.cpp:664-673 | puts the new node, and only it, in front of a node of a well-formed circular list; the stack limit grows by its pushes; nothing but four links changes |
| `InstrList.ILRewriter.InsertAfter` | VSharp.CoverageInstrumenter/profiler/ILRewriter.cpp:675-684 | the same behind a node |
| `InstrList.ILRewriter.NewILInstr` | VSharp.CoverageInstrumenter/profiler/ILRewriter.cpp:634-638 | an empty node, counted |
| `InstrList.ILRewriter.AdjustState` | VSharp.CoverageInstrumenter/profiler/ILRewriter.cpp:686-689 | the stack limit grows by the pushes of the instruction |
| `Probing.AddLDCInstrBefore` | VSharp.CoverageInstrumenter/profiler/ILRewriter.cpp:1090-1097 | one constant in front of a node |
| `Probing.AddProbe` | VSharp.CoverageInstrumenter/profiler/ILRewriter.cpp:968-989 | address and calli in front of a node, in this order |
| `Probing.CorrectHandlers` | VSharp.CoverageInstrumenter/profiler/ILRewriter.cpp:1130-1141 | exactly the clauses whose handler ended at the node now end at the new one |
| `Probing.AddCoverageProbeBefore` | VSharp.CoverageInstrumenter/profiler/ILRewriter.cpp:1168-1193 | the heap comes to show `Splice.Apply` of a Before edit: the node emptied, the probe behind it, a copy of the instruction behind the probe |
| `Probing.AddCoverageProbeAfter` | VSharp.CoverageInstrumenter/profiler/ILRewriter.cpp:1143-1165 | the heap comes to show `Splice.Apply` of an After edit: probe and closing nop behind the node |
| `Probing.SplitTail` | VSharp.CoverageInstrumenter/profiler/ILRewriter.cpp:1327-1349 | a tail. prefix moves to a new node with the offset of its call; the emptied node takes the offset of the ret |
| `Probing.AddEnterProbe` | VSharp.CoverageInstrumenter/profiler/ILRewriter.cpp:1016-1041 | the enter probe stands in front of everything and reports the first offset |
| `Probing.EditShown` | VSharp.CoverageInstrumenter/profiler/ILRewriter.cpp:1143-1193 | one node rewritten in place and others put behind it show the edited items, all other items untouched |
| `Planning.CountOffsets` | VSharp.CoverageInstrumenter/profiler/ILRewriter.cpp:1043-1083 | every node gets its byte offset in the original layout |
| `Planning.Collect` | VSharp.CoverageInstrumenter/profiler/ILRewriter.cpp:1288-1393 | the first loop over the mutating list collects exactly the planned priority probes and block ends and splits exactly the tail. prefixes |
| `Planning.Visit` | VSharp.CoverageInstrumenter/profiler/ILRewriter.cpp:1290-1392 | one turn of that loop |
| `Planning.SwitchEnds` | VSharp.CoverageInstrumenter/profiler/ILRewriter.cpp:1296-1303 | the nodes in front of the targets of all arms, in order |
| `MethodRewriter.CollectHandlers` | VSharp.CoverageInstrumenter/profiler/ILRewriter.cpp:1395-1399 | a throw probe for the first node of every handler |
| `MethodRewriter.MakeProbeInsertion` | VSharp.CoverageInstrumenter/profiler/ILRewriter.cpp:1233-1241 | one planned probe, reporting the offset of the node it names |
| `MethodRewriter.InsertPriority` | VSharp.CoverageInstrumenter/profiler/ILRewriter.cpp:1401-1405 | all priority probes in order; the covered set is exactly their offsets |
| `MethodRewriter.InsertTargets` | VSharp.CoverageInstrumenter/profiler/ILRewriter.cpp:1408-1420 | one probe for every block end whose offset is not covered yet; the rerouting of a tail call's ret is never reached |
| `MethodRewriter.NoTailRet` | VSharp.CoverageInstrumenter/profiler/ILRewriter.cpp:1099-1101 | no block end still to be probed is the call of a tail call |
| `MethodRewriter.Weave` | VSharp.CoverageInstrumenter/profiler/ILRewriter.cpp:1288-1464 | all loops together produce the planned list `Rewriting.Rewrite` |
| `MethodRewriter.ImportEH` | VSharp.CoverageInstrumenter/profiler/ILRewriter.cpp:599-632 | clauses by offset become clauses by node, the handler end being the last node inside; it fails exactly if some bound is no start of an instruction |
| `MethodRewriter.ExportEH` | VSharp.CoverageInstrumenter/profiler/ILRewriter.cpp:897-913 | clauses by node become clauses by final offset |
| `Layout.RelaxIsConsistent` | VSharp.CoverageInstrumenter/profiler/ILRewriter.cpp:713-839 | relaxation ends in a layout of the same list in which every short displacement fits INT8 |
| `Layout.RelaxIsLeast` | VSharp.CoverageInstrumenter/profiler/ILRewriter.cpp:713-839 | it is the least one: any consistent layout from the same start widens at least those branches |
| `Layout.WideningDropsShorts` | VSharp.CoverageInstrumenter/profiler/ILRewriter.cpp:806-838 | each repeated pass leaves strictly fewer short branches, so the repetition ends |
| `Layout.WideningStretches` | VSharp.CoverageInstrumenter/profiler/ILRewriter.cpp:713-839 | the distance between two entries never shrinks when branches are widened |
| `Exporting.ExportCode` | VSharp.CoverageInstrumenter/profiler/ILRewriter.cpp:704-839 | both passes with the jump back: the buffer of ten bytes per instruction suffices on every pass and ends up holding the encoding of the least layout; nodes get its opcodes and offsets |
| `Exporting.EmitPass` | VSharp.CoverageInstrumenter/profiler/ILRewriter.cpp:716-773 | first pass: offsets, opcodes and plain operands of all entries |
| `Exporting.PatchPass` | VSharp.CoverageInstrumenter/profiler/ILRewriter.cpp:775-838 | second pass: exactly the branches out of reach are widened; if none is, every entry is complete |
| `Exporting.WriteInt` | VSharp.CoverageInstrumenter/profiler/ILRewriter.cpp:734-766 | a little-endian operand, nothing else touched |
| `Codec.ExportOfImport` | VSharp.CoverageInstrumenter/profiler/ILRewriter.cpp:460-597 | whatever is accepted is written back byte for byte, with no branch widened |
| `Codec.ImportOfExport` | VSharp.CoverageInstrumenter/profiler/ILRewriter.cpp:704-839 | an exported list is read back as the same list, switch tables and their base included |
| `Codec.ReadBackOperand` | VSharp.CoverageInstrumenter/profiler/ILRewriter.cpp:775-839 | in the final bytes every branch holds target offset minus next offset, every table entry target offset minus the end of its table, every other entry its operand |
| `Codec.ParsedOk` | VSharp.CoverageInstrumenter/profiler/ILRewriter.cpp:471-584 | decoded entries tile the code, hold their own bytes, and every switch is followed by exactly its table |
| `Codec.ParseOfEncode` | VSharp.CoverageInstrumenter/profiler/ILRewriter.cpp:471-584 | decoding an encoded list finds its entries one by one |
| `Importing.ImportIL` | VSharp.CoverageInstrumenter/profiler/ILRewriter.cpp:460-597 | the decoder over the growing list: an error exactly for an invalid stream; otherwise every branch is resolved through the offset table, to nothing if it dangles, and for accepted code the list shows the decoded code with its pushes counted |
| `Importing.Decode` | VSharp.CoverageInstrumenter/profiler/ILRewriter.cpp:471-584 | the loop over the stream decodes what `Codec.Parse` specifies |
| `Importing.ImportOpcode` | VSharp.CoverageInstrumenter/profiler/ILRewriter.cpp:473-500 | one- and two-byte opcodes, an error for lead bytes and numbers out of range |
| `Importing.ImportArms` | VSharp.CoverageInstrumenter/profiler/ILRewriter.cpp:543-577 | one node per arm, an error exactly where the table leaves the code |
| `Importing.GetInstrFromOffset` | VSharp.CoverageInstrumenter/profiler/ILRewriter.cpp:640-649 | the node that starts at an offset, the sentinel for the end, nothing otherwise |
| `Importing.ResolveTargets` | VSharp.CoverageInstrumenter/profiler/ILRewriter.cpp:586-594 | every branch leads to the node its offset names, and it is told whether all lead somewhere |
| `CodecLaws.RelaxedByOpcode` | VSharp.CoverageInstrumenter/profiler/ILRewriter.cpp:800-826 | by opcode: entries stay what they are except that 0x2B-0x37 may become the opcode 13 higher and 0xDE may become 0xDD, and every branch left short has a displacement from -128 to 127 |
| `CodecLaws.RelaxedNoMore` | VSharp.CoverageInstrumenter/profiler/ILRewriter.cpp:800-838 | every other layout of that kind has at least the same branches long |
| `CodecLaws.InstructionBytes` | VSharp.CoverageInstrumenter/profiler/ILRewriter.cpp:471-541 | in accepted code an opcode below 0x100 is one byte and any other follows 0xFE; a branch holds the distance from the next instruction to its target, a switch the number of its arms |
| `CodecLaws.ArmBytes` | VSharp.CoverageInstrumenter/profiler/ILRewriter.cpp:543-577 | arm k stands five bytes and k words behind the opcode and holds the distance from the end of the table to its target |
| `CodecLaws.SignedByPlace` | VSharp.CoverageInstrumenter/profiler/ILRewriter.cpp:511-541 | operands are little-endian and in two's complement |
| `CodecLaws.ClauseBytes` | VSharp.CoverageInstrumenter/profiler/ILRewriter.cpp:599-632 | in a loaded method the bounds of a clause are the instructions at its offsets and at offset plus length |
| `Opcodes.LongerByOpcode` | VSharp.CoverageInstrumenter/profiler/ILRewriter.cpp:811-820 | br.s to blt.un.s become br to blt.un in their order, leave.s becomes leave; the pairing is one to one |
| `OpcodeTable.LayoutsAreThoseOfTheTable` | VSharp.CoverageInstrumenter/coreclr/inc/opcode.def:37-334 | what follows each opcode is what its row of the opcode table says, opcode by opcode |
| `OpcodeTable.PushesAreThoseOfTheTable` | VSharp.CoverageInstrumenter/coreclr/inc/opcode.def:37-334 | so are the values it pushes |
| `OpcodeTable.SizesAreThoseOfTheTable` | VSharp.CoverageInstrumenter/coreclr/inc/opcode.def:37-334 | and the size of its encoding |
| `SigParsing.SigReadBack` | VSharp.ClrInteraction/sigparse.h:292-943 | for every signature tree and any trailing bytes: accepted, exactly its own bytes consumed, and the notifications are those of the tree in preorder and properly nested |
| `SigParsing.AcceptedIsNested` | VSharp.ClrInteraction/sigparse.h:292-943 | every accepted blob, in the grammar or not, gives properly nested notifications |
| `SigParsing.NumberReadBack` | VSharp.ClrInteraction/sigparse.h:890-943 | numbers below two to the 29 decode to themselves |
| `SigParsing.TypeReadBack` | VSharp.ClrInteraction/sigparse.h:703-880 | the same for types, through function pointers, arrays and generic instances |
| `SigParsing.MethodReadBack` | VSharp.ClrInteraction/sigparse.h:348-398 | the same for method signatures, with generic count and sentinel |
| `SigGrammar.SigNested` | VSharp.ClrInteraction/sigparse.h:292-333 | Begin and End notifications of every tree match |
| `SigLaws.GenericCountIff` | VSharp.ClrInteraction/sigparse.h:348-398 | for every calling convention byte k + 16 g + 32 t: an accepted method gives a generic parameter count, read in front of the parameter count, exactly if g is 1 |
| `SigLaws.OtherBitsIgnored` | VSharp.ClrInteraction/sigparse.h:348-398 | no other bit of that byte matters: the same blobs are accepted, the same bytes left, the same notifications given behind the first |
| `SigLaws.ThisBitIgnored` | VSharp.ClrInteraction/sigparse.h:348-398 | in particular the bit 0x20 of an instance method |
| `SigLaws.InstanceVoid` | VSharp.ClrInteraction/sigparse.h:348-398 | the blob 20 00 01 is an instance method without parameters that returns nothing |
| `SigLaws.KindByNibble` | VSharp.ClrInteraction/sigparse.h:292-333 | the low four bits of the first byte decide between method (0 to 5), field (6), locals (7) and property (8); blobs with others are rejected |
| `SigLaws.NumberByWidth` | VSharp.ClrInteraction/sigparse.h:890-943 | one, two or four bytes, most significant first, by the lead byte; all other blobs are rejected |
| `SigLaws.TokenByBits` | VSharp.CoverageInstrumenter/coreclr/inc/cor.h:1778-1808 | byte by byte: the table of a token is in the two low bits of its number, the row in the others, and every lead byte from 0xC0 on starts four bytes |
| `SigParser.SigParser.ParseTypeDefOrRefEncoded` | VSharp.ClrInteraction/sigparse.h:882-888 | follows the specification of tokens on every input |
| `SigParser.SigParser.UncompressData` | VSharp.CoverageInstrumenter/coreclr/inc/cor.h:1778-1808 | the three widths of a coded token, none refused for its lead byte |
| `SigLaws.PlainTypes` | VSharp.ClrInteraction/sigparse.h:703-880 | element bytes 0x02-0x0E, 0x18, 0x19 and 0x1C are types by themselves; bytes that mean nothing are passed over |
| `SigLaws.NamedTypes` | VSharp.ClrInteraction/sigparse.h:703-880 | 0x12 and 0x11 with a token, 0x13 and 0x1E with a number |
| `SigLaws.PointerTypes` | VSharp.ClrInteraction/sigparse.h:703-880 | 0x0F with modifiers and then void (0x01) or a type |
| `SigLaws.ArrayTypes` | VSharp.ClrInteraction/sigparse.h:703-880 | 0x1D with modifiers and a type, 0x14 with a type and a shape |
| `SigLaws.BuiltTypes` | VSharp.ClrInteraction/sigparse.h:703-880 | 0x15 with 0x12 or 0x11, a token and its arguments, 0x1B with a method; nothing else may follow 0x15 |
| `SigLaws.Slots` | VSharp.ClrInteraction/sigparse.h:586-658 | 0x16 is a typed reference, 0x10 a reference, and 0x01 is void in return types only |
| `SigLaws.Modifiers` | VSharp.ClrInteraction/sigparse.h:511-583 | 0x1F and 0x20 start a modifier, 0x45 pins a local |
| `SigLaws.Sentinels` | VSharp.ClrInteraction/sigparse.h:348-398 | 0x41 separates the variable arguments and may come once |
| `SigLaws.Locals` | VSharp.ClrInteraction/sigparse.h:475-508 | a local is 0x16 alone, or modifiers, perhaps 0x10, and a type |
| `SigLaws.LocalLists` | VSharp.ClrInteraction/sigparse.h:450-472 | a blob of locals is their number and the locals |
| `SigLaws.Shapes` | VSharp.ClrInteraction/sigparse.h:660-701 | rank, sizes and lower bounds are read and notified in this order |
| `SigLaws.Signatures` | VSharp.ClrInteraction/sigparse.h:348-398 | an accepted method is its parameter count, return type and parameters, in this order |
| `SigLaws.Properties` | VSharp.ClrInteraction/sigparse.h:401-447 | an accepted property or field is its count, modifiers, type and parameters, in this order |
| `SigLaws.PrintedTypes` | VSharp.ClrInteraction/sigparse.h:703-880 | the grammar prints each kind of type with those bytes |
| `SigLaws.PrintedMethods` | VSharp.ClrInteraction/sigparse.h:348-398 | and the generic count exactly under the generic bit |
| `SigParser.SigParser.Parse` | VSharp.ClrInteraction/sigparse.h:292-333 | the recursive descent parser over its cursor gives, on every blob, the result and notifications of the specification; so it reads every signature of the grammar, and what it accepts gives nested notifications |
| `SigParser.SigParser.ParseMethod` | VSharp.ClrInteraction/sigparse.h:348-398 | follows the specification on every input, the sentinel accepted once |
| `SigParser.SigParser.ParseProperty` | VSharp.ClrInteraction/sigparse.h:419-447 | follows the specification on every input |
| `SigParser.SigParser.ParseField` | VSharp.ClrInteraction/sigparse.h:401-416 | follows the specification on every input |
| `SigParser.SigParser.ParseLocals` | VSharp.ClrInteraction/sigparse.h:450-472 | follows the specification on every input |
| `SigParser.SigParser.ParseLocal` | VSharp.ClrInteraction/sigparse.h:475-508 | follows the specification on every input |
| `SigParser.SigParser.ParseOptionalCustomModsOrConstraint` | VSharp.ClrInteraction/sigparse.h:511-537 | follows the specification on every input |
| `SigParser.SigParser.ParseOptionalCustomMods` | VSharp.ClrInteraction/sigparse.h:540-562 | follows the specification on every input |
| `SigParser.SigParser.ParseCustomMod` | VSharp.ClrInteraction/sigparse.h:565-583 | succeeds exactly at a modifier followed by a token, and notifies both |
| `SigParser.SigParser.ParseParam` | VSharp.ClrInteraction/sigparse.h:586-617 | follows the specification on every input |
| `SigParser.SigParser.ParseRetType` | VSharp.ClrInteraction/sigparse.h:620-658 | follows the specification on every input |
| `SigParser.SigParser.ParseArrayShape` | VSharp.ClrInteraction/sigparse.h:660-701 | follows the specification on every input |
| `SigParser.SigParser.ParseType` | VSharp.ClrInteraction/sigparse.h:703-880 | follows the specification on every input; terminates because the cursor advances |
| `SigParser.SigParser.ParseNumber` | VSharp.ClrInteraction/sigparse.h:890-943 | the three widths, and an error for 0xFF, for a lead byte of no known width and for missing bytes |
| `ObjectsComparer.CompareObjects` | VSharp.TestExtensions/ObjectsComparer.cs:97-101 | true exactly if the two object graphs are bisimilar; terminates on cyclic graphs |
| `ObjectsComparer.Comparer.InnerCompareObjects` | VSharp.TestExtensions/ObjectsComparer.cs:51-81 | a true answer leaves a set of checked pairs that is a bisimulation up to itself; bisimilar objects are never told apart; the unvisited pairs shrink |
| `ObjectsComparer.Comparer.ContentwiseEqual` | VSharp.TestExtensions/ObjectsComparer.cs:33-49 | ranks, lengths, lower bounds and elements |
| `ObjectsComparer.Comparer.StructurallyEqual` | VSharp.TestExtensions/ObjectsComparer.cs:15-31 | all compared fields |
| `ObjectsComparer.Comparer.Compare` | VSharp.TestExtensions/ObjectsComparer.cs:83-94 | the visited set is empty again afterwards |
| `ObjectsComparer.CheckedIsBisimulation` | VSharp.TestExtensions/ObjectsComparer.cs:51-81 | pairs all of whose children were found alike or visited form a bisimulation |
| `ObjectsComparer.BisimilarIffSame` | VSharp.TestExtensions/ObjectsComparer.cs:15-81 | bisimilar references are exactly those that no path of fields and elements tells apart by nullness, type, value, dimensions or lower bounds |
| `ShadowHeap.Heap.CollectGarbage` | VSharp.ClrInteraction/corProfiler.cpp:794-805 | a whole cycle: exactly the objects in reported ranges remain, each shifted once, size and concreteness unchanged, unmarked, in order, pairwise disjoint if the destinations are; no assertion fires |
| `ShadowHeap.MovedOnce` | VSharp.ClrInteraction/memory/intervalTree.h:24-33 | an object in a reported range is moved by that range alone and marked once, whatever else is reported |
| `ShadowHeap.NotReported` | VSharp.ClrInteraction/memory/intervalTree.h:24-42 | an object in no reported range stays put and unmarked |
| `ShadowHeap.StaysDisjoint` | VSharp.ClrInteraction/memory/heap.cpp:53-56 | disjoint objects stay disjoint under disjoint destinations |
| `ShadowHeap.PlaceAfter` | VSharp.ClrInteraction/memory/intervalTree.h:24-42 | in numbers: an object inside a reported range ends up moved by the distance of that range and marked, an object inside none where it was |
| `ShadowHeap.IntervalsByAddress` | VSharp.ClrInteraction/memory/heap.cpp:36-46 | contains, includes and intersects in terms of addresses; intersects misses exactly intervals that reach beyond on both sides |
| `ShadowHeap.Heap.MoveAndMark` | VSharp.ClrInteraction/memory/intervalTree.h:24-42 | one report moves and marks exactly the objects it includes |
| `ShadowHeap.Heap.ProcessReports` | VSharp.ClrInteraction/corProfiler.cpp:389-395 | the reports in order; mark and intersect assertions hold throughout |
| `ShadowHeap.Heap.ClearAfterGC` | VSharp.ClrInteraction/memory/intervalTree.h:45-58 | keeps the marked objects in order and unmarks them; the others are reported as deleted |
| `ShadowHeap.Heap.Find` | VSharp.ClrInteraction/memory/intervalTree.h:16-22 | an object that contains the address, if there is one |
| `ShadowHeap.Heap.AllocateObject` | VSharp.ClrInteraction/memory/heap.cpp:159-165 | tracks a new interval |
| `ShadowHeap.Heap.PhysToVirtAddress` | VSharp.ClrInteraction/memory/heap.cpp:230-236 | defined exactly on tracked addresses and undone by VirtToPhysAddress; independent of insertion order for disjoint objects |
| `ShadowHeap.AcrossCycle` | VSharp.ClrInteraction/memory/heap.cpp:193-241 | a virtual address taken before a cycle maps afterwards to the address moved by its range's shift |
| `Concreteness.WriteExactIff` | VSharp.ClrInteraction/memory/heap.cpp:128-153 | on all bitmaps a write sets the bytes of its range and no others, if and only if the range is not strictly inside one cell |
| `Concreteness.ReadExactIff` | VSharp.ClrInteraction/memory/heap.cpp:105-126 | on all bitmaps a read is true exactly if all bytes of its range are concrete, if and only if the range is not strictly inside one cell |
| `Concreteness.InsideExample` | VSharp.ClrInteraction/memory/heap.cpp:128-153 | making bytes 1 and 2 of a fresh object symbolic makes bytes 0 and 3 symbolic |
| `Concreteness.ExactByOffsets` | VSharp.ClrInteraction/memory/heap.cpp:105-153 | by offsets: reads and writes are exact unless offset and end both lie inside the same group of eight bytes, in which case the whole group is acted on |
| `Concreteness.ByteByBit` | VSharp.ClrInteraction/memory/heap.cpp:105-153 | byte b is bit b mod 8 of cell b div 8, from the high bit down |
| `Concreteness.Bitmap.Read` | VSharp.ClrInteraction/memory/heap.cpp:105-126 | true exactly if all bytes acted on are concrete; all indices in bounds |
| `Concreteness.Bitmap.Write` | VSharp.ClrInteraction/memory/heap.cpp:128-153 | sets exactly the bytes acted on; all indices in bounds |
| `Concreteness.ReadBack` | VSharp.ClrInteraction/memory/heap.cpp:105-153 | a read of what was just written returns it |
| `ShadowStack.DeltaOverRuns` | VSharp.ClrInteraction/memory/stack.cpp:225-303 | over every sequence of calls and returns since the last reset, dropping unsentPops frames remotely and appending the new ones gives the current stack, without underflow; the minimum tracked is the lowest height reached, no lower |
| `ShadowStack.EvalDeltaOverRuns` | VSharp.ClrInteraction/memory/stack.cpp:74-136 | over every sequence of pushes and unreported pops since the last reset, the minimum tracked is the least number of symbolics the evaluation stack held, held at its lowest height; up to there the stack is the one sent, so evaluationStackPops counts exactly the symbolics sent above that height |
| `ShadowStack.PopAfterReset` | VSharp.ClrInteraction/memory/stack.cpp:203-218 | one symbolic cell sent and then popped is one evaluation stack pop |
| `ShadowStack.SymbolicsCounts` | VSharp.ClrInteraction/memory/stack.cpp:74-84 | the symbolics count is the number of cells that do not hold the greatest 32-bit number |
| `ShadowStack.DeltaIsExact` | VSharp.ClrInteraction/probes.h:124-133 | in every valid state the pending delta turns the remote stack into the local one |
| `ShadowStack.Stack.PushFrame` | VSharp.ClrInteraction/memory/stack.cpp:225-228 | appends a frame that starts as just reset; keeps the remote agreement and the lowest height |
| `ShadowStack.Stack.PopFrame` | VSharp.ClrInteraction/memory/stack.cpp:231-249 | drops a frame, lowers the lowest height to the new one if that is lower; keeps the remote agreement |
| `ShadowStack.Stack.ResetPopsTracking` | VSharp.ClrInteraction/memory/stack.cpp:296-303 | re-establishes the agreement from a remote stack that extends the local one; the top frame counts as sent as it is, no other frame changes |
| `ShadowStack.StackFrame.ResetPopsTracking` | VSharp.ClrInteraction/memory/stack.cpp:214-218 | the cells count as sent as they are: last sent and minimal count are both the current number of symbolics |
| `ShadowStack.PushNumbered` | VSharp.ClrInteraction/memory/stack.cpp:74-84 | pushing keeps the k-th symbolic cell from the bottom numbered k |
| `ShadowStack.PrefixNumbered` | VSharp.ClrInteraction/memory/stack.cpp:111-129 | so does popping |
| `ShadowStack.PoppedFromTop` | VSharp.ClrInteraction/memory/stack.cpp:111-129 | popped symbolics carry consecutive numbers from the top down |
| `ShadowStack.PoppedComplete` | VSharp.ClrInteraction/memory/stack.cpp:111-129 | exactly the symbolic cells among the popped ones are recorded, at their distance from the top |
| `ShadowStack.OperandNumber` | VSharp.ClrInteraction/probes.h:133-143 | the number sent for a popped symbolic is the count of symbolics above it |
| `ShadowStack.StackFrame.Push1` | VSharp.ClrInteraction/memory/stack.cpp:74-84 | pushes onto a numbered frame |
| `ShadowStack.StackFrame.Pop` | VSharp.ClrInteraction/memory/stack.cpp:111-129 | drops the cells, records the symbolic ones, tells whether all were concrete |
| `ShadowStack.StackFrame.Pop1` | VSharp.ClrInteraction/memory/stack.cpp:91-108 | the same for one cell |
| `ShadowStack.StackFrame.Pop1Async` | VSharp.ClrInteraction/memory/stack.cpp:131-136 | lowers the reported minimum |
| `ShadowStack.StackFrame.Dup` | VSharp.ClrInteraction/memory/stack.cpp:158-166 | duplicates a concrete top; drops a symbolic one |
| `ShadowStack.InitCommand` | VSharp.ClrInteraction/probes.h:118-146 | the command's frames and pops replay to the local stack, each popped symbolic sits at its operand index with its number, and the evaluation stack pops are the symbolics last sent less the least number held since |
| `ShadowStack.PushFrame` | VSharp.ClrInteraction/probes.h:765-789 | a callee argument is symbolic exactly if the operand popped for it was; the new object of newobj is concrete |
| `TypeCode.DecodeEncode` | VSharp.ClrInteraction/corProfiler.cpp:486-545 | the preorder code of every type tree decodes to the tree, with bytes following |
| `TypeCode.PrefixFree` | VSharp.ClrInteraction/corProfiler.cpp:486-545 | no type's code is a prefix of another's |
| `TypeCode.CodeIs` | VSharp.ClrInteraction/corProfiler.cpp:502-541 | the code byte by byte: 1 1 element rank and the element type; or 1 0 token, sized assembly and module names, number of arguments and these |
| `TypeCode.NameBytesAt` | VSharp.ClrInteraction/corProfiler.cpp:502-541 | names have two bytes a character, low byte first |
| `TypeCode.PrimitiveElements` | VSharp.ClrInteraction/corProfiler.cpp:419-483 | exactly the element bytes 0x02-0x0D, 0x18 and 0x19 come without an element type |
| `Bytes.WordBytes` | VSharp.ClrInteraction/communication/protocol.cpp:45-52 | counts, tokens and sizes are four bytes, low byte first |
| `TypeCode.LengthIsExact` | VSharp.ClrInteraction/corProfiler.cpp:498-499 | typeLength is the length of the code |
| `TypeCode.TypeWriter.ResolveType` | VSharp.ClrInteraction/corProfiler.cpp:419-483 | the shared vectors grow by the tree's nodes in preorder |
| `TypeCode.TypeWriter.SerializeType` | VSharp.ClrInteraction/corProfiler.cpp:486-545 | the vectors reassemble into the preorder code |
| `TypeCode.SerializeObjectType` | VSharp.ClrInteraction/corProfiler.cpp:396-545 | what is stored for an object decodes to its type in any context |
| `Framing.EveryRunDelivers` | VSharp.ClrInteraction/communication/protocol.cpp:10-102 | over every interleaving and every split of the payload reads: messages arrive intact and in order, both channels are empty between messages, no run is endless and none gets stuck |
| `Framing.StepInv` | VSharp.ClrInteraction/communication/protocol.cpp:10-102 | sender and receiver keep in step; no count or confirmation is ever wrong |
| `Framing.Progress` | VSharp.ClrInteraction/communication/protocol.cpp:10-102 | until everything is sent some side can move |
| `Framing.StepDecreases` | VSharp.ClrInteraction/communication/protocol.cpp:10-102 | every step brings the end nearer |
| `Protocol.Endpoint.ReadBuffer` | VSharp.ClrInteraction/communication/protocol.cpp:54-86 | the receiving side: succeeds exactly if a positive count and that many bytes arrive and both confirmations are taken, and then returns those bytes |
| `Protocol.Endpoint.WriteBuffer` | VSharp.ClrInteraction/communication/protocol.cpp:88-102 | the sending side: succeeds exactly if count and payload are taken whole and both confirmations arrive; what was sent in each case |
| `Protocol.Endpoint.ReadCount` | VSharp.ClrInteraction/communication/protocol.cpp:35-43 | four bytes in one piece |
| `Protocol.Endpoint.ReadConfirmation` | VSharp.ClrInteraction/communication/protocol.cpp:10-23 | the confirmation byte |
| `Protocol.Endpoint.WriteConfirmation` | VSharp.ClrInteraction/communication/protocol.cpp:25-33 | the confirmation byte, if the connection takes it |
| `Protocol.Endpoint.WriteCount` | VSharp.ClrInteraction/communication/protocol.cpp:45-52 | the count, if the connection takes all of it |
| `Protocol.AnySplitArrives` | VSharp.ClrInteraction/communication/protocol.cpp:54-102 | what the sender writes satisfies the receiver however the payload is cut |
| `Instrumenter.EveryRunKeepsOriginals` | VSharp.ClrInteraction/instrumenter.cpp:461-524 | over every run of events: no body changes before main, untracked methods have their original body, every saved entry is the original code, clauses and stack size |
| `Instrumenter.StepInv` | VSharp.ClrInteraction/instrumenter.cpp:380-524 | each event keeps that invariant |
| `Instrumenter.UndoAllRestores` | VSharp.ClrInteraction/instrumenter.cpp:502-524 | recompiling all tracked methods after main restores every body, in any order |
| `Instrumenter.RequestRestoresAll` | VSharp.ClrInteraction/instrumenter.cpp:345-524 | in every run in which the tracked methods were requested for recompilation, no method is tracked or requested after that, and once all requested ones have been recompiled, in any order and among any other events, all bodies are the original ones |
| `History.TrackedIs` | VSharp.ClrInteraction/instrumenter.cpp:380-524 | over every run of events: a method is tracked exactly if it was compiled between reaching and leaving main and has not been recompiled successfully since |
| `History.BodyIs` | VSharp.ClrInteraction/instrumenter.cpp:380-524 | a method has the body accepted when it was first compiled in that time, unless undone, and its original body in all other cases |
| `History.AcceptedIsInstalled` | VSharp.ClrInteraction/instrumenter.cpp:386-459 | a body accepted for an untracked method after main is reached and before it is left is installed, and stays so with the method tracked until a recompilation after main is taken |
| `History.RequestsAre` | VSharp.ClrInteraction/instrumenter.cpp:345-500 | reaching main requests exactly the methods compiled before; the first compilation of an untracked method after main requests exactly those tracked then; nothing else is ever requested |
| `History.SkippedIs` | VSharp.ClrInteraction/instrumenter.cpp:461-500 | the methods remembered as skipped are those compiled before main was reached |
| `History.MainIs` | VSharp.ClrInteraction/instrumenter.cpp:461-524 | main counts as reached from the first compilation of the main method on |
| `Instrumenter.Instrumenter.Instrument` | VSharp.ClrInteraction/instrumenter.cpp:461-500 | does one Jit event of the runs that `History` describes |
| `Instrumenter.Instrumenter.DoInstrumentation` | VSharp.ClrInteraction/instrumenter.cpp:380-459 | saves the body and replaces it by the accepted reply; a rejected or missing reply leaves it in place |
| `Instrumenter.Instrumenter.UndoInstrumentation` | VSharp.ClrInteraction/instrumenter.cpp:502-515 | puts back exactly what was saved and forgets it; a body the runtime does not take stays tracked |
| `Instrumenter.Instrumenter.ReInstrument` | VSharp.ClrInteraction/instrumenter.cpp:517-524 | does one ReJit event |
| `IdentifiersCache.AlwaysFresh` | VSharp.TestRenderer/IdentifiersCache.cs:29-53 | over every sequence of calls, copies included, a result differs from all earlier ones |
| `IdentifiersCache.NextFreeIsFree` | VSharp.TestRenderer/IdentifiersCache.cs:43-48 | the loop ends, at the first suffix whose name is free: suffixes are injective and the taken set finite |
| `IdentifiersCache.IssuedInTurn` | VSharp.TestRenderer/IdentifiersCache.cs:36-53 | asked for one name over and over: the name itself, then with 1, 2, 3 and so on; a reserved name starts with 1 |
| `IdentifiersCache.DecimalDenotes` | VSharp.TestRenderer/IdentifiersCache.cs:43-48 | suffixes are decimal numbers without leading zeros |
| `IdentifiersCache.ReservedIssuedIff` | VSharp.TestRenderer/IdentifiersCache.cs:20-53 | a reserved name can be issued if and only if it is a base name followed by a positive decimal |
| `IdentifiersCache.ReservedNeverIssued` | VSharp.TestRenderer/IdentifiersCache.cs:20-53 | so none is issued when no reserved name ends in a digit |
| `IdentifiersCache.ReservedExample` | VSharp.TestRenderer/IdentifiersCache.cs:20-53 | with x1 reserved, asking for x twice issues x and x1 |
| `IdentifiersCache.Identifiers.GenerateIdentifier` | VSharp.TestRenderer/IdentifiersCache.cs:36-53 | issues the specified name and updates both dictionaries accordingly |
| `IdentifiersCache.Identifiers.Copy` | VSharp.TestRenderer/IdentifiersCache.cs:29-34 | a copy starts with everything its ancestor had issued |
| `IdentifiersCache.Identifiers.Reserve` | VSharp.TestRenderer/IdentifiersCache.cs:20-27 | reserved names start at suffix one |

## Left out

- Machine word sizes: addresses, offsets, counters, name suffixes and the maximal stack are unbounded; the theorems on rewritten bytes assume a method of at most about ten million instructions, so that displacements fit 32 bits, and the 16-bit MaxStack field of the fat header is not modelled.
- Probes are called as on 64-bit machines, their address pushed by ldc.i8.
- Method headers: tiny and fat header bytes, alignment of the code, flags and the local-variable token; a method body is its code, clauses and stack limit.
- The rerouting of a tail call's ret (ILRewriter.cpp:1421-1461): for well-formed methods it is never reached, which `MethodRewriter.InsertTargets` proves, so what it would do is not modelled.
- ILRewriter.cpp:1195-1231 (AddExitProbe) and 991-1014 (AddProbeAfter), which RewriteIL does not use.
- What happens after a failed assertion on a dangling branch or bound, when assertions are compiled away.
- MethodRewriter.RewriteIL: speaks of decodable methods only if they are well-formed in the sense above; what the rewriter makes of others (a prefix in front of a branch, tail. without its ret) has no meaning to preserve.
- SigParser.SigParser.ParseTypeDefOrRefEncoded: fails on a token cut off by the end of the signature, where CorSigUncompressToken (cor.h:1962-1972) reads on behind it.
- Signed lower bounds of arrays: the code reads them as unsigned numbers, and so does the grammar here; the standard has them signed.
- Notifications given before a signature is rejected are not described.
- Overridden equality in the comparer's visited set: pairs are compared by identity, and delegate and thread-id fields are dropped from the children.
- Interval::intersect (heap.cpp:48-51), which nothing calls.
- The slot buffer of memory.cpp, Heap::flushObjects and the object part of commands.
- The byte count that PushFrame passes to memset: the argument buffer is filled with one value per argument.
- Responses to commands (readExecResponse, sendCommand), locals and arguments, the probes marked TODO and those that do nothing.
- Types the profiler interface cannot resolve, where the source stops.
- The string handshake, and both sides of an exchange over a failing connection together; `Protocol` covers each side's answer to short reads and writes.
- Header flags and the local-variable token, which undo does not save, debug-only string commands, and the status codes returned after a failed exchange.
- Profiler interface calls, COM reference counting, pipes, logging, Roslyn syntax objects, and the F# components.
