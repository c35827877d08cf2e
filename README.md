# A verified model of a nand2tetris toolchain in C

The modelled repository is a C implementation of the software half of the
nand2tetris course. It has five programs:

- two Hack assemblers, 6/hackasm.c and 7/assembler.c (src/assembler.c is the
  second one again, with the hash table renamed `st_*`);
- two VM translators, 8/VMTranslator.c and src/VMTranslator.c;
- the Jack syntax analyser, 10/JackAnalyzer.c, which prints a parse tree as XML;
- the Jack compiler, src/compiler.c, which prints VM code;
- the string-keyed hash table of src/ds.c, which is linear probing and FNV-1a.

The model takes each `char` of the input as one byte of the file, so a
string's length is its `strlen` and a character's code is that byte.

Each program reads its input line by line. It prints its output, or stops at
the first error with a message on stderr.

The model keeps the programs' own structure:

- The hash tables (src/ds.c, the copies in the assemblers, and the compiler's
  symbol table) are classes over arrays. Each is proved against a functional
  table value: what `get` returns, when `set` grows the table, and when it
  fails.
- The assemblers' passes and the translators' line loops are methods with
  loop invariants. They are proved against functions that say what each line
  contributes.
- The two recursive-descent parsers are functions over a cursor into the
  token list. The state they thread through is a value: the output so far,
  the error flag, the label counters and the symbol tables.
- The compiler is proved against an independent reference: Jack syntax
  trees (`JackAst`), their spelling as tokens, and the VM code this compiler
  gives each tree. On tokens that spell a well-formed tree, each production
  prints exactly that code:
  - expressions and statements;
  - subroutine declarations, including the subroutine table they build;
  - whole classes.
- The analyser is proved to print balanced XML whose leaves spell the tokens
  it consumed. This holds except on the paths where the source prints
  unbalanced XML itself, which are also stated.

Behaviour that looks unintended is kept as written and exhibited by lemmas.
Examples:

- the stale token buffer in the assemblers' second pass (`MD=M`);
- `is_identifier`'s leading-digit test, which reads the terminator;
- src/VMTranslator.c jumping to the calling function rather than the callee;
- the compiler pushing a variable receiver after the arguments;
- a method whose return type is a keyword not getting `this` as argument 0.

The two clearest of these are listed under "Findings" below. Each has a
corrected definition beside the one that follows the code.

## Model

| member | source | states |
|---|---|---|
| CLib.CString | src/compiler.c:101 | the text up to the first NUL holds no NUL and is a prefix, and the NUL follows it: what `strcmp` compares |
| CLib.CStringPrefix | 7/assembler.c:386-392 | the C string of `p + q`, for `p` without NUL, is `p` followed by the C string of `q` |
| CLib.Strtol | src/compiler.c:118 | `strtol(s, NULL, 10)` saturates to the 64-bit `long` range; `StrtolOverflows` says when it also sets `errno` to `ERANGE` |
| CLib.StrtolRange | src/compiler.c:118 | When the number read overflows, `strtol` saturates towards its sign and `atoi` gives -1 or 0; otherwise `strtol` gives the signed value read. |
| CLib.WrapInt | src/compiler.c:118 | the `(int)` conversion lands in the 32-bit range, keeps values already in it, and is congruent modulo 2^32 |
| CLib.Atoi | src/compiler.c:118 | `atoi` gives a 32-bit value, and on a digit string whose value fits, that value |
| CLib.StrtolDigits | src/compiler.c:118 | `strtol` of a digit string is its decimal value saturated at `LONG_MAX` |
| CLib.NatStr | 8/VMTranslator.c:216 | `%u` prints a nonempty digit string without a leading zero whose decimal value is `n` |
| CLib.IntStr | 8/VMTranslator.c:216 | `%d` prints a minus sign exactly for a negative value, then the digits of its magnitude |
| CLib.AtoiIntStr | 8/VMTranslator.c:208-216 | `atoi` reads back every 32-bit value `%d` prints |
| CLib.Bits | 6/hackasm.c:93-102 | `addrToStr` writes exactly `w` characters, each '0' or '1' |
| CLib.BinValueBits | 6/hackasm.c:93-102 | the `w` bits written denote the value modulo 2^w |
| CLib.PadBin | 7/assembler.c:423 | `%015b` prints at least 15 binary digits |
| CLib.PadBinIsBits | 7/assembler.c:423 | for a value below 2^w, `%0wb` prints exactly the `w` low bits |
| OpenAddressing.Hash | src/ds.c:53-60 | the hashing loop computes the 64-bit FNV-1a hash of the key |
| OpenAddressing.Home | src/ds.c:63-64 | the home slot lies inside the table |
| OpenAddressing.Spot | src/ds.c:69-72 | stepping with wrap-around to 0 stays inside the table |
| OpenAddressing.Dist | src/ds.c:69-72 | every slot is reached from the home slot after fewer steps than the capacity |
| OpenAddressing.Contents | src/ds.c:62-75 | the map a slot array stands for has exactly the indexed keys |
| OpenAddressing.EmptyExists | src/ds.c:128 | a table below full capacity has an empty slot, so probing stops |
| OpenAddressing.Probe | src/ds.c:63-73 | the probe ends on the key's slot (found) or on an empty slot, having stepped only over other keys |
| OpenAddressing.Located | src/ds.c:65-74 | the key is stored exactly when the probe stopped on a full slot, and then it is that slot |
| OpenAddressing.Insert | src/ds.c:92-102 | writing a new key into the empty slot its probe reached keeps the index sound, fills one slot more and adds the mapping |
| OpenAddressing.Overwrite | src/ds.c:83-85 | overwriting a stored key's value keeps the index and the count and changes that key only |
| OpenAddressing.Placed | src/ds.c:77-103 | one `ht_set_entry`: the slot written, the key set grown by the key, the count grown only for a new key, and the map updated |
| OpenAddressing.KeptKey | src/compiler.c:419-423 | `st_set_entry` that finds the name keeps the table as it is: the first record of a name wins |
| OpenAddressing.Added | src/compiler.c:432-441 | a probe that stops at an empty slot adds the name there, with one more slot full |
| OpenAddressing.CopyStep | src/ds.c:115-120 | re-inserting slot `i` of the old array extends the copied prefix |
| OpenAddressing.CopyDone | src/ds.c:115-123 | after every slot is copied the new array stands for the same map with the same count |
| OpenAddressing.Fresh | src/ds.c:27 | a `calloc`ed slot array indexes the empty map |
| OpenAddressing.KeysBeforeAll | src/ds.c:145-157 | the slots together hold exactly the indexed keys, each once |
| Ds.NewTable | src/ds.c:19-34 | `ht_new` gives an empty table of capacity 16 |
| Ds.StoreSpec | src/ds.c:127-134 | `ht_set` fails, changing nothing, exactly when the table is at least half full and doubling would overflow `size_t`; otherwise the key maps to the value, other keys are unchanged, the length grows for a new key only, and the capacity doubles exactly when the table was half full |
| Ds.FreshTable | src/ds.c:25-27 | the 16 zeroed slots hold the empty table |
| Ds.Regrown | src/ds.c:105-124 | re-inserting into a doubled array keeps the table sound |
| Ds.HashTable.constructor | src/ds.c:19-34 | a fresh table stands for `NewTable()` |
| Ds.HashTable.Get | src/ds.c:62-75 | `ht_get` returns the stored value, or 0 for an absent key |
| Ds.HashTable.Len | src/ds.c:136 | `ht_len` is the number of distinct keys |
| Ds.HashTable.Expand | src/ds.c:105-125 | `ht_expand` fails, changing nothing, exactly when the doubled capacity overflows; otherwise the capacity doubles and the entries are kept |
| Ds.HashTable.Resize | src/ds.c:110-124 | the copy into the larger array keeps every entry and the length |
| Ds.HashTable.Put | src/ds.c:77-103 | with room to spare, `ht_set_entry` maps the key to the value in place |
| Ds.HashTable.Set | src/ds.c:127-134 | `ht_set` leaves the table `Store` gives and reports failure exactly as it does |
| Ds.Iterator.constructor | src/ds.c:138-143 | `ht_iter` starts at slot 0 with nothing yielded |
| Ds.Iterator.Next | src/ds.c:145-157 | `ht_next` yields the next full slot's entry, a stored key not yielded before, or reports the end once every slot is passed |
| JackSymbols.Bump | src/compiler.c:474-493 | `st_set` takes the counter of the declared kind and raises it by one, leaving the other kinds' counters alone |
| JackSymbols.EmptyTable | src/compiler.c:355-374 | `st_new`: no names, all four counters 0 |
| JackSymbols.DeclareSpec | src/compiler.c:467-500 | `st_set` changes nothing when the table cannot grow; otherwise it raises the kind's counter, gives a new name the kind's old count as its index, keeps the first record of a repeated name, and leaves other names alone |
| JackSymbols.DeclareNumbered | src/compiler.c:474-500 | the indices of each kind stay distinct and below the kind's counter |
| JackSymbols.DuplicateSkipsIndex | src/compiler.c:419-423 | declaring `x`, `x` and `y` as locals gives `x` index 0 and `y` index 2, with two names in the table |
| JackSymbols.FreshTable | src/compiler.c:365-366 | the 16 zeroed symbol slots hold the empty table |
| JackSymbols.SymbolTable.constructor | src/compiler.c:355-374 | a fresh symbol table stands for `EmptyTable()` |
| JackSymbols.SymbolTable.Get | src/compiler.c:395-408 | `st_get` returns the stored symbol, or none |
| JackSymbols.SymbolTable.Expand | src/compiler.c:445-466 | `st_expand` keeps the names and the counters and fails exactly when the doubled capacity overflows |
| JackSymbols.SymbolTable.Resize | src/compiler.c:450-465 | the copy into the larger array keeps every symbol |
| JackSymbols.SymbolTable.TakeIndex | src/compiler.c:474-493 | the index taken is the kind's count, and the model is `Bump` of the old one |
| JackSymbols.SymbolTable.Put | src/compiler.c:410-442 | `st_set_entry` adds a new name and leaves a known one as it is |
| JackSymbols.SymbolTable.Set | src/compiler.c:468-500 | `st_set` leaves the table `Declare` gives |
| JackSymbols.SymbolTable.Grow | src/compiler.c:470-473 | the grow step fails, changing nothing, exactly when doubling overflows, and otherwise leaves room |
| AsmLines.ClassifyLine | 7/assembler.c:305-335 | the first pass's character loop over a line gives `Classify(line)`: blank, a label, an instruction, or the error it stops with |
| AsmLines.ClassifyChars | src/assembler.c:268-298 | the same loop over the text up to the NUL gives `ClassifyText` |
| AsmLines.ClassifyLabel | 7/assembler.c:308-328 | blanks, then `(`, label characters and `)` make a label line with exactly that symbol, whatever follows |
| AsmLines.DecodeLine | 7/assembler.c:363-401 | the second pass's character loop over a line gives `Decode(line)`: nothing, the A-instruction's text after `@`, or the C-instruction's dest, comp and jump |
| AsmLines.DecodeChars | src/assembler.c:326-364 | the same loop over the text up to the NUL gives `DecodeText` |
| AsmLines.ScanC | 7/assembler.c:384-398 | one character of a C-instruction updates the token buffer, dest, comp and the jump flag as `CStep` says |
| AsmLines.DecodeInstruction | 7/assembler.c:365-380 | blanks, then an instruction body and a stop character: `@` gives an A-instruction with the rest of the body, anything else a C-instruction cut from the body |
| AsmLines.CFieldsComp | 7/assembler.c:426 | a body without `=` or `;` is all comp |
| AsmLines.CFieldsDest | 7/assembler.c:386-391 | `d=c` gives dest `DestKey(d)` and comp `c` written over what is left of `d` in the buffer |
| AsmLines.CFieldsJump | 7/assembler.c:392-395 | `c;j` gives comp `c` and jump `j` written over what is left of `c` |
| AsmLines.CFieldsFull | 7/assembler.c:384-398 | `d=c;j` gives dest `DestKey(d)`, the overlaid comp and the jump overlaid on it |
| AsmLines.CFieldsExact | 7/assembler.c:384-398 | when each field is at least as long as the one before, `d=c;j` gives exactly `DestKey(d)`, `c` and `j` |
| AsmLines.StaleCompMD | 7/assembler.c:384-398 | because the token buffer is not cleared at `=`, `MD=M` reads comp `MD` |
| AsmLines.StaleCompAM | 7/assembler.c:384-398 | `AM=M` reads comp `MM`, which has no code |
| AsmLines.JumpAfterComp | 7/assembler.c:392-396 | `D;JGT` reads comp `D` and jump `JGT` |
| Assembler.StoreEach | 7/assembler.c:226-293 | the `ht_set` calls before the first pass leave the table `StoreFrom` gives |
| Assembler.FirstPassIteration | 7/assembler.c:298-345 | one line of the first pass: it stops with the failure `FirstPass` gives, or leaves the state from which `FirstPass` goes on unchanged |
| Assembler.FirstPassLines | 7/assembler.c:295-345 | the first pass leaves the label table or the failure `FirstPass` gives from line 1 |
| Assembler.ResolveAddress | 7/assembler.c:403-423 | an A-instruction's address: a decimal value checked against 32767, 0 for `SP` and `R0`, a stored symbol, or a new variable, exactly as `Translate` says |
| Assembler.Allocate | 7/assembler.c:415-420 | a new variable gets the next address and raises it, and fails once the next address reaches 16384 |
| Assembler.EncodeC | 7/assembler.c:425-443 | a C-instruction's word is `CCode` of the table: comp, then dest and jump looked up when present, and "Invalid instruction" for a code of 0 |
| Assembler.TranslateLine | 7/assembler.c:348-444 | one line of the second pass gives what `Translate` gives for `Decode(line)` |
| Assembler.SecondPassIteration | 7/assembler.c:348-444 | one line of the second pass, as one step of `SecondPass` |
| Assembler.SecondPassLines | 7/assembler.c:346-445 | the second pass writes the words and the failure `SecondPass` gives from address 16 |
| Assembler.AssembleLines | 7/assembler.c:222-445 | the whole program writes what `Assemble(lines)` gives |
| AssemblerProps.StoreSucceeds | src/ds.c:127-134 | `ht_set` on a table well below `size_t`'s range never fails |
| AssemblerProps.AWordBits | 7/assembler.c:423 | an A-word is "0" and the 15 bits of the address, 16 characters denoting the address |
| AssemblerProps.CWordBits | 7/assembler.c:443 | a C-word is "111" and the 7, 3 and 3 bits of comp, dest and jump |
| AssemblerProps.LongCompWord | 7/assembler.c:443 | a comp code of 128 or more prints a word longer than 16 characters |
| AssemblerProps.DecimalAddress | 7/assembler.c:404-409 | a decimal A-instruction is read by `atoi`, saturated and wrapped to 32 bits, and is an error above 32767 |
| AssemblerProps.VariableAllocation | 7/assembler.c:410-420 | an unknown symbol gets the next free address, changes no other symbol, and resolves to the same address on its next use |
| AssemblerProps.TranslateWords | 7/assembler.c:401-444 | a line writes one word for an instruction and none otherwise, and fails only with one of the three messages |
| AssemblerProps.FirstPassKeeps | 7/assembler.c:337-344 | a symbol not labelled after line `i` keeps its value through the rest of the first pass |
| AssemblerProps.LabelBinding | 7/assembler.c:337-344 | a label is bound to the number of instructions before its last occurrence, counted from where the pass started |
| AssemblerProps.FirstPassStops | 7/assembler.c:317-340 | the first pass stops exactly at the first line that is bad or labels past address 32767, with that line's message |
| AssemblerProps.SecondPassOutput | 7/assembler.c:346-445 | the output grows by one word per instruction line, and a failure names a line and one of the three messages |
| AssemblerProps.ClassifyDecode | 7/assembler.c:329-333 | the two passes agree: a line the first pass counts as an instruction is exactly one the second pass encodes |
| AssemblerProps.CodesAreInstructions | src/assembler.c:300-307 | on lines without errors, the words written before a line are the instructions the first pass counted |
| AssemblerProps.LabelCount | src/assembler.c:300-307 | after a successful first pass from 0, a label's value is the number of instructions before it |
| AssemblerProps.LabelIsAddress | src/assembler.c:258-308 | a label's value is the address of the word written for the next instruction |
| AssemblerProps.InitialTableSize | 7/assembler.c:226-293 | the predefined symbols and codes hold at most 65 keys |
| HackTable.SignedChar | 6/hackasm.c:34 | a `char` added to the hash is the signed byte congruent to the character modulo 256 |
| HackTable.GetBucket | 6/hackasm.c:31-37 | `getBucket` computes the 32-bit sdbm-style hash of the symbol and returns its bucket below 16 |
| HackTable.AddChained | 6/hackasm.c:49-70 | adding keeps every symbol in its bucket's chain, with the address updated or appended |
| HackTable.AddPlaced | 6/hackasm.c:54-66 | every entry stays in the bucket of its own symbol |
| HackTable.AddDistinct | 6/hackasm.c:55-59 | a symbol already present is updated in place, so no chain holds a symbol twice |
| HackTable.AddCovers | 6/hackasm.c:49-70 | every stored symbol has an entry after adding |
| HackTable.SymbolTable.constructor | 6/hackasm.c:80-90 | `SymbolTable_new` gives 16 empty buckets and no contents |
| HackTable.SymbolTable.Find | 6/hackasm.c:39-47 | `__SymbolTable_find` returns the entry holding the symbol in the bucket, or none exactly when the bucket does not hold it |
| HackTable.SymbolTable.Get | 6/hackasm.c:72-78 | `getAddress` returns the stored address, or 0 for an absent symbol |
| HackTable.SymbolTable.Add | 6/hackasm.c:49-70 | `addEntry` maps the symbol to the address, updating its entry in place or appending a new one at the tail of its bucket, and leaves the other buckets alone |
| HackTable.AddrToStr | 6/hackasm.c:93-101 | `addrToStr` writes the low `bits` bits of the 32-bit value |
| HackTable.WrapIntBits | 6/hackasm.c:311-315 | the low bits of a value wrapped to 32 bits are the low bits of the value |
| HackLines.ScanLine | 6/hackasm.c:202-239 | the first pass's character loop over a line gives `ScanOf(line)`: the label or variable symbol it collects and whether the line counts as an instruction |
| HackLines.ScanChars | 6/hackasm.c:202-239 | the same loop over the text up to the NUL gives `Top(t, 0, false)` |
| HackLines.ScanLabel | 6/hackasm.c:205-236 | spaces, `(`, a symbol and `)` scan as a label with that symbol that does not count as an instruction |
| HackLines.ScanVariable | 6/hackasm.c:214-233 | spaces, `@` and a symbol that does not start with a digit scan as a variable with that symbol that counts as an instruction |
| HackLines.ScanInstruction | 6/hackasm.c:225-238 | a line whose first non-space character starts an instruction counts as one |
| HackLines.HackStep | 6/hackasm.c:292-304 | a step of the C-instruction scan keeps the write index within the buffer |
| HackLines.HackFoldAgrees | 6/hackasm.c:292-304 | with at most one `=`, the scan of 6/hackasm.c gives the same fields as that of 7/assembler.c |
| HackLines.HackFieldsAgree | 6/hackasm.c:292-304 | with at most one `=`, the C-instruction fields agree with 7/assembler.c's |
| HackLines.TwoRegisterDest | 6/hackasm.c:293-297 | `M=D=A` gives dest `@M@D`, because `strcat` appends, where 7/assembler.c gives `@D` |
| HackLines.DecodeHackLine | 6/hackasm.c:270-307 | the second pass's character loop over a line gives `DecodeOf(line)` |
| HackLines.DecodeHackChars | 6/hackasm.c:270-307 | the same loop over the text up to the NUL gives `DecodeHackText` |
| HackLines.HackScanC | 6/hackasm.c:292-304 | one character of a C-instruction updates the buffer, dest, comp and jump flag as `HackStep` says |
| HackLines.DecodeHackInstruction | 6/hackasm.c:273-307 | spaces, then an instruction body and a stop: `@` gives an A-instruction with the rest of the body, anything else the C-instruction fields of the body |
| HackAsm.FirstLine | 6/hackasm.c:241-251 | a line raises the instruction count exactly when it counts as an instruction, and the next variable address by at most one |
| HackAsm.AddEach | 6/hackasm.c:117-185 | the `addEntry` calls before the first pass leave the contents `AddFrom` gives |
| HackAsm.FirstPassIteration | 6/hackasm.c:194-252 | one line of the first pass is one step of `FirstLine` |
| HackAsm.FirstPassLines | 6/hackasm.c:187-252 | the first pass leaves the table `FirstPass` gives from line count 0 and address 1024 |
| HackAsm.EncodeA | 6/hackasm.c:315-316 | an A-word is "0" and the 15 low bits of the address |
| HackAsm.EncodeC | 6/hackasm.c:319-326 | a C-word is "111" and the low bits of the codes of comp, dest and jump, 0 for unknown text |
| HackAsm.TranslateLine | 6/hackasm.c:258-327 | one line of the second pass prints what `Words` gives for `DecodeOf(line)` |
| HackAsm.SecondPassLines | 6/hackasm.c:254-328 | the second pass prints what `SecondPass` gives |
| HackAsm.AssembleLines | 6/hackasm.c:116-328 | the whole program prints `Assemble(lines)` |
| HackProps.FirstPassSplit | 6/hackasm.c:194-252 | the first pass over lines `i..` is the pass over `k..` from the state after `i..k` |
| HackProps.UptoCounts | 6/hackasm.c:250-251 | the instruction count after lines `i..k` is raised by the instructions among them, and the next address by at most `k - i` |
| HackProps.Untouched | 6/hackasm.c:241-248 | a symbol no later line names keeps its address |
| HackProps.LabelBinding | 6/hackasm.c:242-243 | a label is bound to the number of instructions before its last occurrence, as an `unsigned` |
| HackProps.VariableBinding | 6/hackasm.c:244-247 | a new variable is bound to the next address at its first use |
| HackProps.AllocationAdvances | 6/hackasm.c:246 | each new variable raises the next address |
| HackProps.DistinctVariables | 6/hackasm.c:244-247 | two different new variables get different addresses |
| HackProps.LabelAtZeroReallocated | 6/hackasm.c:241-248 | `(START)` before any instruction binds `START` to 0, so `@START` allocates a variable for it and overwrites the label |
| HackProps.AWordValue | 6/hackasm.c:315-316 | an A-word has 16 characters, starts with '0' and denotes the address modulo 32768 |
| HackProps.CWordValue | 6/hackasm.c:319-326 | a C-word has 16 characters, starts with "111" and its fields denote the three codes modulo 128, 8 and 8 |
| HackProps.DecimalUnchecked | 6/hackasm.c:310-311 | a decimal address is not checked against 32767: its low 15 bits are printed |
| HackProps.DecimalWraps | 6/hackasm.c:310-316 | `@32768` prints the word of address 0 |
| HackProps.UnknownParts | 6/hackasm.c:320-326 | unknown comp, dest and jump texts print `1110000000000000`, with no error |
| HackProps.TwoRegisterDestBits | 6/hackasm.c:293-297 | `M=D=A` prints dest bits 000 |
| HackProps.WordsShape | 6/hackasm.c:309-327 | a line prints one 16-character word for an instruction, starting with '0' exactly for an A-instruction, and nothing otherwise |
| HackProps.SecondPassLength | 6/hackasm.c:258-328 | the second pass prints one word per instruction line, after what was printed before |
| VmWords.Take | 8/VMTranslator.c:175 | `strncpy` of at most `n` characters keeps a prefix of that length |
| VmWords.SplitWords | 8/VMTranslator.c:169-193 | the word loop of `parse_file` gives `SplitLine(line)`: command, first and second argument, and what is left of the line buffer |
| VmWords.ScanWords | 8/VMTranslator.c:169-193 | the loop keeps at most three words, in order, each within the 63-character token limit |
| VmWords.ThreeWords | 8/VMTranslator.c:169-193 | three words separated by single spaces are read as command (cut to 15 characters), first argument and second argument (cut to 7) |
| VmWords.LongWord | 8/VMTranslator.c:170-171 | a run of 64 non-blank characters is cut into a word of 63 and the rest |
| VmWords.CommentCut | 8/VMTranslator.c:187-188 | a '/' ends the line: what follows it is not read |
| VmWords.BlankLine | 8/VMTranslator.c:195 | a line of blanks or a comment has no command and writes nothing |
| Vm8.Tab | 8/VMTranslator.c:216-256 | every instruction line is the text after a tab |
| Vm8.Translator.constructor | 8/VMTranslator.c:157-161 | a translator starts with the given counter and function name and no output |
| Vm8.Translator.WriteCommand | 8/VMTranslator.c:205-211 | `write_command` appends what `Emit` gives for the words, with `atoi` of the second argument, or fails changing nothing |
| Vm8.Translator.WriteValue | 8/VMTranslator.c:212-554 | the command dispatch appends the block `EmitValue` gives, or fails with its message |
| Vm8.Translator.ParseLine | 8/VMTranslator.c:162-200 | one line of `parse_file`: the step `LineStep` gives, echoing the command before its block |
| Vm8.Translator.ParseLines | 8/VMTranslator.c:157-203 | `parse_file` writes what `ParseFile` gives and stops at the first failing line |
| Vm8Props.PushCount | 8/VMTranslator.c:213-256 | a push block has as many instructions as the count it adds for its segment: 6 for constant, static and pointer, 9 otherwise |
| Vm8Props.PopCount | 8/VMTranslator.c:258-300 | a pop block has as many instructions as the count it adds: 5 for static, 12 otherwise |
| Vm8Props.CompareCount | 8/VMTranslator.c:334-356 | an `eq`/`gt`/`lt` block has 18 instructions |
| Vm8Props.CallCount | 8/VMTranslator.c:443-488 | a call block has 41 instructions |
| Vm8Props.FunctionCount | 8/VMTranslator.c:489-506 | a function block has 11 instructions |
| Vm8Props.BlockCount | 8/VMTranslator.c:212-552 | every command's block has exactly the number of instructions its `*commandNumber += n` adds, labels not counted |
| Vm8Props.EmitCounts | 8/VMTranslator.c:205-554 | a command raises the counter by the instructions it writes, so the counter stays the address of the next instruction |
| Vm8Props.LineStepAligned | 8/VMTranslator.c:162-200 | a line keeps the counter equal to the number of instructions written |
| Vm8Props.ParseFileAligned | 8/VMTranslator.c:157-203 | a file keeps the counter equal to the number of instructions written |
| Vm8Props.SysInitCounts | 8/VMTranslator.c:148-155 | the bootstrap writes 4 instructions, which `main` adds to the counter |
| Vm8Props.SysInitCall | 8/VMTranslator.c:110-111 | the bootstrap's `call Sys.init 0` writes the call block with counter 45 and enters `Sys.init` |
| Vm8Props.BootstrapAligned | 8/VMTranslator.c:107-112 | after the bootstrap the counter is 45, equal to the instructions written, inside `Sys.init` with its return label written |
| Vm8Props.CommandNames | 8/VMTranslator.c:213-552 | a command is unknown exactly when it is none of the 17 names |
| Vm8Props.SegmentNames | 8/VMTranslator.c:213-285 | a segment is unknown exactly when it is none of the 8 names |
| Vm8Props.EmitValueRejects | 8/VMTranslator.c:208-552 | a command fails with "Address out of bounds" exactly for a value outside 0..32767, with "Invalid command" exactly for an unknown name, and with "Invalid segment reference" exactly for a push or pop of an unknown segment (pop constant included) |
| Vm8Props.EmitRejects | 8/VMTranslator.c:208-211 | the same, with the value read by `atoi` |
| Vm8Props.EmitValueScope | 8/VMTranslator.c:443-490 | `call` and `function` make their first argument the current function name; other commands keep it |
| Vm8Props.EmitValueLabels | 8/VMTranslator.c:427-442 | `label`, `goto` and `if-goto` name the label `foo$label` of the current function |
| Vm8Props.EmitValueCompareLabels | 8/VMTranslator.c:334-402 | a comparison writes its `foo$__eq_n__` style and `foo$__cont_n__` labels, keyed by the line number |
| Vm8Props.LabelAfterCall | 8/VMTranslator.c:444 | a `label` after a `call` is scoped to the callee, not to the enclosing function |
| Vm8Props.DigitTail | 8/VMTranslator.c:446 | two names ending in a non-digit followed by digits are equal only with equal digits |
| Vm8Props.ReturnNameCounter | 8/VMTranslator.c:446 | two equal return labels carry the same counter modulo 2^32 |
| Vm8Props.LineStepExtends | 8/VMTranslator.c:162-200 | a line only appends to the output |
| Vm8Props.EmitValueCallLabelled | 8/VMTranslator.c:443-488 | a call raises the counter by 41 and writes the return label carrying the new counter |
| Vm8Props.LineStepCall | 8/VMTranslator.c:195-199 | a line with a call writes the callee's return label with the new counter |
| Vm8Props.ReturnPointsIncrease | 8/VMTranslator.c:445 | the counters in the return labels of a file strictly increase |
| Vm8Props.ReturnPointsLabelled | 8/VMTranslator.c:446-487 | each call's return label is written in the output |
| Vm8Props.ReturnLabelsDistinct | 8/VMTranslator.c:443-488 | while the counter stays below 2^32, all return labels of a file are distinct and written |
| Vm8Props.StopsAtFailure | 8/VMTranslator.c:197-199 | nothing after the first failing line is read |
| Vm8Props.LineStepStop | 8/VMTranslator.c:195-199 | a line fails only if it has a command, with its own line number and one of the three messages |
| Vm8Props.FailureMessage | 8/VMTranslator.c:162-201 | a failing file names a line within it and one of the three messages |
| VmSrc.SrcTranslator.constructor | src/VMTranslator.c:149-152 | a translator starts with the given function name and no text |
| VmSrc.SrcTranslator.WriteCommand | src/VMTranslator.c:195-201 | `write_command` appends what `Emit` gives, with `atoi` of the second argument, or fails changing nothing |
| VmSrc.SrcTranslator.WriteValue | src/VMTranslator.c:202-521 | the command dispatch appends what `EmitValue` gives, or fails |
| VmSrc.SrcTranslator.ParseLine | src/VMTranslator.c:153-191 | one line of `parse_file`: the step `LineStep` gives |
| VmSrc.SrcTranslator.ParseLines | src/VMTranslator.c:149-193 | `parse_file` writes what `ParseFile` gives and stops at the first failing line |
| VmSrcProps.EmitValueRejects | src/VMTranslator.c:198-519 | each of the three failures happens exactly in the same cases as in 8/VMTranslator.c |
| VmSrcProps.EmitRejects | src/VMTranslator.c:198-201 | the same, with the value read by `atoi` |
| VmSrcProps.EmitValueScope | src/VMTranslator.c:414-416 | only `function` changes the current function name |
| VmSrcProps.EmitValueAppends | src/VMTranslator.c:202-521 | a command only appends text |
| VmSrcProps.LabelAfterCall | src/VMTranslator.c:400-401 | a `label` after a `call` stays scoped to the enclosing function |
| VmSrcProps.LabelEnds | src/VMTranslator.c:400-402 | `label` writes exactly the line `(foo$label)` |
| VmSrcProps.CompareIgnoresScope | src/VMTranslator.c:313-378 | a comparison's text depends on neither the function nor the file name |
| VmSrcProps.CompareLabels | src/VMTranslator.c:320-331 | a comparison writes its `EQ_n`/`GT_n`/`LT_n` and `CONT_n` labels, keyed by the line number only |
| VmSrcProps.CallIgnoresCallee | src/VMTranslator.c:474-516 | `call f n` writes the same text whatever `f` is |
| VmSrcProps.CallReturnsToCaller | src/VMTranslator.c:514-516 | a call jumps to the enclosing function `foo` and then writes the label `foo$__return__`, keeping the scope |
| VmSrcProps.CallEnds | src/VMTranslator.c:514-516 | the call block ends with the jump to `foo` and the label `foo$__return__` |
| VmSrcProps.ThirdWordEcho | src/VMTranslator.c:175-187 | once a second argument is read, the echo is the line as read, up to its NUL, with no newline added |
| VmSrcProps.BlockStart | src/VMTranslator.c:202-516 | every block starts with a tab or a label line |
| VmSrcProps.EchoRunsOn | src/VMTranslator.c:187 | after such an echo the block follows directly, so a last line without a newline runs on into the block's first line |
| VmSrcProps.LineStepGrows | src/VMTranslator.c:153-191 | a line only appends text |
| VmSrcProps.ParseFileHeading | src/VMTranslator.c:150 | a file's text starts with its heading |
| VmSrcProps.StopsAtFailure | src/VMTranslator.c:188-190 | nothing after the first failing line is read |
| VmSrcProps.LineStepStop | src/VMTranslator.c:186-190 | a failing line has a command, its own line number and one of the three messages, and its echo is written |
| VmSrcProps.FailureMessage | src/VMTranslator.c:153-192 | a failing file names a line within it and one of the three messages |
| VmSrcProps.SysInitJumps | src/VMTranslator.c:138-147 | the bootstrap ends by jumping to `Sys.init` |
| JackTokens.KeywordFrom | src/compiler.c:99-106 | the keyword search from entry `i` returns a keyword whose name is the word, or none exactly when no later entry has that name |
| JackTokens.KeywordOf | src/compiler.c:99-106 | `keyword_from_str` returns the keyword named by the word, or none exactly when no keyword has that name |
| JackTokens.KeywordRoundTrip | src/compiler.c:99-106 | looking up a keyword's name gives that keyword back |
| JackTokens.KeywordNameInjective | src/compiler.c:99-106 | no two keywords share a name |
| JackTokens.KeywordFromStr | src/compiler.c:99-106 | the loop of `keyword_from_str` gives `KeywordOf` |
| JackTokens.IntConstValue | src/compiler.c:115-122 | `is_intConst` gives 0 exactly for the word "0", a positive value exactly when `atoi` gives one up to 32767 (and then that value), and -1 otherwise |
| JackTokens.IsIdentifier | src/compiler.c:124-134 | `is_identifier` accepts exactly the words of letters, digits and underscores, since its leading-digit test reads the terminator |
| JackTokens.ClassifyOrder | src/compiler.c:224-241 | `parse_token` tries keyword, then integer constant, then identifier, each exactly when the earlier ones fail, and rejects the rest |
| JackTokens.ClassifyWord | src/compiler.c:224-241 | the calls of `parse_token` give `Classify(word)` |
| JackTokens.DigitIdentifiers | src/compiler.c:131-132 | "32768" and "00" become identifiers |
| JackTokens.DigitPrefixConstant | src/compiler.c:118-120 | "12abc" is the integer constant 12, because `atoi` stops at the first letter |
| JackLexer.Flush | src/compiler.c:287-297 | flushing a pending word appends its token and empties the buffer, and fails exactly when the word is rejected |
| JackLexer.LexChar | src/compiler.c:263-316 | one character of the loop of `tokenize_file` does what `CharStep` says |
| JackLexer.TokenizeLine | src/compiler.c:259-318 | the loop over one line gives `LexLine`: the comment flag for the next line, the tokens and whether a bad word stopped it |
| JackLexer.TokenizeFile | src/compiler.c:247-321 | `tokenize_file` gives the tokens `Tokenize(lines)` gives, and whether `errno` is set when it returns (a bad word, or an identifier whose `atoi` overflowed) |
| JackLexerProps.FlushAnchored | src/compiler.c:287-297 | a flushed word's token lies on its line at its column; a failure means a rejected word ends just before this separator |
| JackLexerProps.WordAnchored | src/compiler.c:289 | a word's token sits at the column of its first character |
| JackLexerProps.CharStepAnchored | src/compiler.c:263-316 | every token a character appends carries the line and sits at its column |
| JackLexerProps.LexLineAnchored | src/compiler.c:263-316 | every token a line appends sits at its column; a failure means a rejected word on that line |
| JackLexerProps.TokenizeAnchored | src/compiler.c:258-319 | every token of a file carries its line and sits where its column says |
| JackLexerProps.CommentLine | src/compiler.c:265-271 | a line starting inside a block comment gives no token and leaves the comment exactly when it holds `*/`; what follows the `*/` is dropped |
| JackLexerProps.TokenizeStops | src/compiler.c:289-318 | a line that leaves `errno` set stops the file: the lines after it are never read |
| JackLexerProps.OverflowStops | src/compiler.c:115-122 | A line holding an identifier whose digit prefix overflows a `long` is the last line lexed, although all of its words were accepted, and `errno` is set when compilation starts. |
| JackTokens.OverflowClassify | src/compiler.c:115-122 | A word whose `atoi` overflows becomes an identifier or a bad token, never a constant; an identifier sets `ERANGE` exactly when its digit prefix overflows. |
| JackLexerProps.WordStep | src/compiler.c:312-313 | a character that ends no word joins the pending word |
| JackLexerProps.PendingWordDropped | src/compiler.c:263 | the loop never looks at a line's last character, so a word running up to it is dropped |
| JackLexerProps.LineCommentEnds | src/compiler.c:301-302 | `//` ends the line once the pending word is flushed |
| JackLexerProps.DocCommentOpens | src/compiler.c:299-300 | `/**` opens a block comment |
| JackLexerProps.BareSlashStar | src/compiler.c:298-306 | `/*` without a second `*` opens no comment: it is the symbols `/` and `*` |
| JackLexerProps.StringConstant | src/compiler.c:273-283 | the text between two quotes is one string constant, taken as it is, with a pending word before the quote at its front and its column counted back from the first character inside the quotes |
| JackVm.LabelTextInjective | src/compiler.c:761-781 | two labels of one class print the same text only when they are the same label |
| JackLabels.WhileLabelSeqs | src/compiler.c:761-792 | A while statement's labels `l0` and `l1`, drawn at the counter value it takes, are new to its body, so the labels it defines stay pairwise distinct and every jump lands on one of them. |
| JackLabels.IfLabelSeqs | src/compiler.c:803-852 | The same for an if statement without an else-branch and its single label `l0`. |
| JackLabels.IfElseLabelSeqs | src/compiler.c:803-852 | The same for an if statement with an else-branch: the labels of the two branches are numbered apart and differ from `l0` and `l1`. |
| JackLabels.ListLabelSeqs | src/compiler.c:1016-1049 | Two pieces of code numbered one after the other keep distinct labels, all owned by the class, and all their jumps land inside. |
| JackLabels.WhileCode | src/compiler.c:764-781 | The code of a while statement defines `l0`, the body's labels, then `l1`, and jumps to `l1`, the body's targets, then `l0`. |
| JackLabels.IfCode | src/compiler.c:806-842 | The code of an if without an else-branch defines the branch's labels then `l0`, and jumps to `l0` then the branch's targets. |
| JackLabels.IfElseCode | src/compiler.c:806-842 | The code of an if with an else-branch defines the then-labels, `l0`, the else-labels and `l1`, and jumps only to those. |
| JackLabels.WhileLabels | src/compiler.c:759-798 | The reference code of a well-formed while statement is well labelled from the counter it takes to the one its body leaves. |
| JackLabels.IfLabels | src/compiler.c:800-858 | The same for an if statement without an else-branch. |
| JackLabels.IfElseLabels | src/compiler.c:800-858 | The same for an if statement with an else-branch. |
| JackLabels.StmtLabels | src/compiler.c:1016-1049 | Every statement's reference code is well labelled between the counter it starts with and the one it leaves. |
| JackLabels.StmtsLabels | src/compiler.c:1016-1049 | So is the code of a statement sequence. |
| JackLabels.CompiledLabels | src/compiler.c:1016-1049 | On tokens that spell well-formed statements, `compStatements` appends code whose labels are distinct, belong to the class, and are numbered from its starting `gotoInc` to the one it leaves. Every jump of that code lands on one of its own labels, and `gotoDepth` comes back to its starting value. |
| JackLabels.LabelLinesDistinct | src/compiler.c:764-842 | Distinct labels of well-labelled code print as distinct `label` lines. |
| JackAst.Named | src/compiler.c:1066-1084 | The names of one `var` or `static`/`field` declaration give one (name, type) pair each, in order. |
| JackAst.ParamPairs | src/compiler.c:1114-1143 | The parameters of a list give one (name, type text) pair each, in order. |
| JackAst.DeclarePairs | src/compiler.c:1067-1070 | `st_set` on each pair in turn keeps the table well sized. |
| JackAst.ClassTable | src/compiler.c:1274-1287 | The class table after the class-level declarations is well sized. |
| JackEngine.Check | src/compiler.c:536-540 | The error epilogue of a production clears `errno`, only appends diagnostics, and changes nothing else. |
| JackEngine.Term | src/compiler.c:544-657 | `compTerm` only moves forward: the cursor and `gotoInc` never go back, `gotoDepth` is restored, output and diagnostics are only appended to, and the class name and both tables stay. |
| JackEngine.Expression | src/compiler.c:659-721 | `compExpression` moves forward the same way and returns 0 or 1. |
| JackEngine.ExpressionList | src/compiler.c:525-542 | `compExpressionList` moves forward the same way. |
| JackEngine.SubroutineCall | src/compiler.c:935-996 | `compSubroutineCall` moves forward the same way. |
| JackEngine.Statements | src/compiler.c:1016-1049 | `compStatements` moves forward the same way. |
| JackEngine.DoStatement | src/compiler.c:998-1014 | `compDo` moves forward the same way. |
| JackEngine.LetStatement | src/compiler.c:860-933 | `compLet` moves forward the same way. |
| JackEngine.WhileStatement | src/compiler.c:759-798 | `compWhile` moves forward and restores the nesting depth it raised. |
| JackEngine.IfStatement | src/compiler.c:800-858 | `compIf` moves forward and restores the nesting depth it raised. |
| JackEngine.ReturnStatement | src/compiler.c:723-757 | `compReturn` moves forward the same way. |
| JackEngine.DeclareSub | src/compiler.c:1067-1070 | An `st_set` on the subroutine table keeps it well sized and changes nothing else. |
| JackEngine.DeclareClass | src/compiler.c:1274-1277 | An `st_set` on the class table keeps it well sized and changes nothing else. |
| JackEngine.VarDecs | src/compiler.c:1051-1109 | `compVarDec` prints nothing, leaves the class table alone, and returns at least as many names as it was given. |
| JackEngine.ParameterList | src/compiler.c:1111-1164 | `compParameterList` prints nothing and leaves the class table alone. |
| JackEngine.ClassVarDecs | src/compiler.c:1257-1313 | `compClassVarDec` prints nothing and leaves the subroutine table alone. |
| JackEngine.ThisDeclared | src/compiler.c:1193-1195 | Declaring `this` for a method changes only the subroutine table, which stays well sized. |
| JackEngine.SubroutineDec | src/compiler.c:1169-1247 | One pass of `compSubroutine` consumes at least its keyword, moves forward, and keeps the class name and the class table. |
| JackEngine.Subroutines | src/compiler.c:1166-1255 | `compSubroutine` moves forward and keeps the class name and the class table. |
| JackEngine.CompileClass | src/compiler.c:1315-1349 | `compClass` moves forward. |
| JackEngineSteps.SubroutineDecSignature | src/compiler.c:1179-1205 | A declaration whose return type and name are present goes on to its signature, with `this` declared first for a method returning a class name. |
| JackEngineProps.TermCompiles | src/compiler.c:544-657 | On tokens that spell a well-formed term, `compTerm` prints exactly the term's reference code and consumes exactly its tokens. |
| JackEngineProps.ConstantCompiles | src/compiler.c:549-576 | The same for integer, string and keyword constants. |
| JackEngineProps.VariableCompiles | src/compiler.c:584-623 | The same for a variable, which is looked up in the subroutine table before the class table. |
| JackEngineProps.IndexCompiles | src/compiler.c:590-602 | The same for `a[e]`: the index code, then the base, `add`, `pop pointer 1` and `push that 0`. |
| JackEngineProps.ParenCompiles | src/compiler.c:627-636 | The same for a parenthesised expression. |
| JackEngineProps.UnaryCompiles | src/compiler.c:638-651 | The same for `-x` and `~x`: the operand's code, then `neg` or `not`. |
| JackEngineProps.CallTermCompiles | src/compiler.c:578-583 | The same for a call used as a term. |
| JackEngineProps.StartsWithTerm | src/compiler.c:662-667 | Every well-formed term starts with a token `compExpression` accepts as the start of a term. |
| JackEngineProps.OperationStep | src/compiler.c:671-711 | One pass of the operator loop: the right operand's code, then the operator's command. |
| JackEngineProps.ExprCompiles | src/compiler.c:669-711 | After the tokens of an expression, the operator loop is where the expression's reference code leaves it: operands are taken from the left, and each operator follows its right operand. |
| JackEngineProps.ExpressionCompiles | src/compiler.c:659-713 | On an expression that no further operator continues, `compExpression` prints its reference code and returns 1. |
| JackEngineProps.CallCompiles | src/compiler.c:935-996 | On tokens that spell a call, `compSubroutineCall` prints the reference code of the call and consumes its tokens. |
| JackEngineProps.ArgumentsCompile | src/compiler.c:935-996 | The arguments and the ')' of a call: the arguments' code, then the call commands with the argument count. |
| JackEngineProps.ListCompiles | src/compiler.c:525-542 | On an argument list closed by ')', `compExpressionList` prints each argument's code in order and returns their number. |
| JackEngineProps.MoreCompiles | src/compiler.c:531-534 | The `(',' expression)*` loop adds one to the count per argument and prints their code in order. |
| JackStmtProps.StmtsCompiles | src/compiler.c:1016-1049 | On tokens that spell well-formed statements followed by a token that starts none, `compStatements` gives exactly the reference result: the code, the cursor, and the `gotoInc` the reference numbering leaves. |
| JackStmtProps.Dispatch | src/compiler.c:1016-1049 | On a statement keyword, `compStatements` runs that keyword's production from the next token, then goes on with the statements after it. |
| JackStmtProps.LetCompiles | src/compiler.c:860-933 | `compLet` on `let x = e;` gives the reference result: the value's code, then `pop` to the variable. |
| JackStmtProps.LetIndexCompiles | src/compiler.c:860-933 | `compLet` on `let x[e1] = e2;` gives the reference result, the element's address first, then the value, parked in `temp 0` while `pointer 1` is set. |
| JackStmtProps.DoCompiles | src/compiler.c:998-1014 | `compDo` gives the reference result: the call's code, then `pop temp 0`. |
| JackStmtProps.ReturnCompiles | src/compiler.c:723-757 | `compReturn` gives the reference result for each form of return statement. |
| JackStmtProps.ReturnNoneCompiles | src/compiler.c:723-757 | `return;` pushes 0 before `return`. |
| JackStmtProps.ReturnThisCompiles | src/compiler.c:723-757 | `return this;` pushes `pointer 0` before `return`. |
| JackStmtProps.ReturnExprCompiles | src/compiler.c:723-757 | `return e;` prints the expression's code before `return`. |
| JackStmtProps.NotThis | src/compiler.c:723-757 | Only the term `this` starts with the keyword `this`, and no term starts with ';'. |
| JackStmtProps.WhileCompiles | src/compiler.c:759-798 | `compWhile` gives the reference result. It takes the counter value `i` for its labels, one level deeper than the depth it found, and compiles its body with the next counter value. |
| JackStmtProps.IfCompiles | src/compiler.c:800-858 | `compIf` without an else-branch gives the reference result, with its label one level deeper. |
| JackStmtProps.IfElseCompiles | src/compiler.c:800-858 | `compIf` with an else-branch gives the reference result. The else-branch is numbered from the counter the then-branch leaves. |
| JackDeclProps.DeclareRoom | src/compiler.c:467-473 | Far from `size_t`'s limit, `st_set` always has room. |
| JackDeclProps.DeclarePairsSpec | src/compiler.c:467-500 | A run of `st_set` calls of one kind has these effects: the kind's counter rises once per call, repetitions included; the other counters stay; the first pair naming a new name gives it the counter's value at that point; every other name keeps its record. |
| JackDeclProps.VarNamesCompiles | src/compiler.c:1074-1089 | The names loop of `compVarDec` declares each name a local, in order, and counts it. |
| JackDeclProps.VarDecsCompiles | src/compiler.c:1051-1109 | `compVarDec` on well-formed `var` declarations declares each name a local, in order, and returns the number of names, repetitions included. |
| JackSubProps.ParametersCompiles | src/compiler.c:1128-1154 | The `(',' type name)*` loop of `compParameterList` declares each parameter an argument, in order. |
| JackSubProps.ParameterListCompiles | src/compiler.c:1111-1164 | `compParameterList` declares each parameter of a well-formed list an argument, in order, after what the table already holds. |
| JackSubProps.PrologueIs | src/compiler.c:1217-1224 | A constructor allocates the class's size and sets `pointer 0`; a method sets `pointer 0` from argument 0; a function has no prologue. |
| JackSubProps.BodyCompiles | src/compiler.c:1210-1232 | On a well-formed body: the `function` line with the number of declared names, then the prologue, then the statements' code. |
| JackRoutineProps.SignatureCompiles | src/compiler.c:1202-1232 | On a well-formed signature the parameters are declared arguments after what the table holds, then the body is compiled. |
| JackRoutineProps.ReceiverTable | src/compiler.c:1193-1195 | The subroutine table before the parameters is well sized. |
| JackRoutineProps.SubroutineDecCompiles | src/compiler.c:1169-1243 | One pass of `compSubroutine` on a well-formed declaration gives the reference result: `this` for a method returning a class name, the parameters as arguments, the locals, then the body's code. |
| JackClassProps.ClassVarNamesCompiles | src/compiler.c:1280-1293 | The names loop of `compClassVarDec` records each name in the class table, in order. |
| JackClassProps.ClassVarDecsCompiles | src/compiler.c:1257-1313 | `compClassVarDec` records each declared name in the class table, statics and fields each numbered by their own counter. |
| JackClassProps.SubroutinesCompiles | src/compiler.c:1166-1255 | `compSubroutine` compiles each subroutine of a well-formed list with a fresh table, and the code is theirs, in order. |
| JackClassProps.CompileClassCompiles | src/compiler.c:1315-1349 | `compClass` on a well-formed class: the class table is that of its declarations, and the code is that of its subroutines, in order. |
| JackTableProps.ReceiverTableSpec | src/compiler.c:1193-1195 | Before the parameters the table holds `this`, as argument 0 of the class type, exactly for a method returning a class name, and nothing else. |
| JackTableProps.ArgsTableSpec | src/compiler.c:1111-1164 | After the parameters the argument counter counts `this` and every parameter, and the first parameter naming a name gives it the next argument number. No local is counted. |
| JackTableProps.Counters | src/compiler.c:1213-1216 | The local counter, which the `function` line prints, rises once per declared name, repetitions included; the argument counter counts `this` and the parameters. |
| JackTableProps.FunctionLine | src/compiler.c:1215-1216 | The code of a subroutine starts with its `function` line, which carries the local counter of its table. |
| JackTableProps.ReceiverIndex | src/compiler.c:1193-1195 | `this`, for a method returning a class name, is argument 0. |
| JackTableProps.ArgumentIndex | src/compiler.c:1122-1142 | The parameters are numbered from the first argument after `this`, in order; a repeated name keeps its first number. |
| JackTableProps.LocalIndex | src/compiler.c:1067-1082 | The locals are numbered 0, 1, ... in order of declaration; a repeated name keeps its first number and still takes one from the counter. |
| JackTableProps.FreshIndex | src/compiler.c:474-493 | The first pair naming a name new to the table gets its position in the run, when the kind's counter starts at 0. |
| JackTableProps.ArgsTableMisses | src/compiler.c:1111-1164 | After the parameters no local is counted, and a name that is neither `this` nor a parameter is absent. |
| JackTableProps.Undeclared | src/compiler.c:1169-1243 | A name the declaration does not declare is not in its table. |
| JackTableProps.PrologueCode | src/compiler.c:1217-1224 | A constructor allocates one word per name of the class table, static or field, and sets `pointer 0`; a method sets `pointer 0` from argument 0. |
| JackTableProps.TwiceDeclaredLocal | src/compiler.c:1071-1082 | `var int x, x;` makes the `function` line count two locals while `x` stays local 0. |
| JackTableProps.MethodReturningInt | src/compiler.c:1193-1195 | For `method int f(int a)` no `this` is recorded, so `a` is argument 0, the slot the prologue reads the object from. |
| JackTableProps.MethodReturningClass | src/compiler.c:1193-1195 | For `method Point f(int a)`, `this` is argument 0 and `a` is argument 1. |
| JackTableProps.StaticsAllocated | src/compiler.c:1217-1219 | With `static int a; field int b;` the class table holds two names, so a constructor allocates two words for one field. |
| AnalyzerLexer.Refill | 10/JackAnalyzer.c:254 | `fgets` stores the line and its terminator over the buffer and leaves the rest of the buffer as it was. |
| AnalyzerLexer.Flush | 10/JackAnalyzer.c:296-306 | A pending word is appended as one token and the word is cleared; no word means no change. It fails exactly when the word is not empty and `parse_token` rejects it. |
| AnalyzerLexer.Separate | 10/JackAnalyzer.c:307-316 | After the flush, a separator never stops the line with a failure; a '/' is held back and nothing else about the word or modes changes. |
| AnalyzerLexer.Separator | 10/JackAnalyzer.c:295-316 | A separator outside a string empties the pending word. It stops the file exactly when the word is rejected. |
| AnalyzerLexer.Body | 10/JackAnalyzer.c:270-321 | The pending word grows by at most one character, and a pass goes back to the same character only after a held-back '/'. |
| AnalyzerLexer.Step | 10/JackAnalyzer.c:261-321 | The same for the whole pass, comment mode included. |
| AnalyzerLexer.LexChar | 10/JackAnalyzer.c:261-321 | The imperative pass on one character computes `Step`, and outside a string the pending word never holds NUL. |
| AnalyzerLexer.LexBody | 10/JackAnalyzer.c:270-321 | The imperative pass after comment mode computes `Body`. |
| AnalyzerLexer.LexSeparator | 10/JackAnalyzer.c:295-316 | The imperative separator branch computes `Separator`. |
| AnalyzerLexer.TokenizeLine | 10/JackAnalyzer.c:255-322 | The character loop over the buffer computes the line's tokens, the comment mode it leaves, and whether it failed. |
| AnalyzerLexer.TokenizeFile | 10/JackAnalyzer.c:243-328 | The line loop computes the token list of the file, and whether `errno` is set when it returns (a bad word, or an identifier whose `atoi` overflowed). |
| AnalyzerLexerProps.HeldSlash | 10/JackAnalyzer.c:282-292 | A '/' followed by neither '/' nor '*' is the symbol '/' at its own column, and the next character is lexed as if no slash had come. |
| AnalyzerLexerProps.SlashComment | 10/JackAnalyzer.c:282-287 | "//" and "/*" drop the rest of the line after flushing the word before them, and "/*" turns comment mode on. |
| AnalyzerLexerProps.CommentBlanks | 10/JackAnalyzer.c:262-268 | In comment mode blanks are skipped. A line whose first other character is '*' is dropped whole and the comment stays open; any other character ends the comment and is lexed normally. |
| AnalyzerLexerProps.CloserIgnored | 10/JackAnalyzer.c:262-266 | A line whose first non-blank characters are "*/", read in comment mode, does not end the comment. |
| AnalyzerLexerProps.StringConstant | 10/JackAnalyzer.c:270-280 | The text between two quotes becomes one string constant, with no escapes, cut at its first NUL, and placed at the column the source computes. |
| AnalyzerLexerProps.UnclosedString | 10/JackAnalyzer.c:270-280 | A string with no closing quote in the buffer drops everything after its opening quote. |
| AnalyzerLexerProps.WordToken | 10/JackAnalyzer.c:295-313 | A word ended by a separator is classified as a whole and recorded at the column of its first character. A rejected word stops the file. |
| AnalyzerLexerProps.TokenizeStops | 10/JackAnalyzer.c:298-325 | A line that leaves `errno` set stops the file: the lines after it are never read. |
| AnalyzerLexerProps.OverflowStops | 10/JackAnalyzer.c:111-118 | A line holding an identifier whose digit prefix overflows a `long` is the last line read, and `errno` is set when parsing starts. |
| AnalyzerXml.Escape | 10/JackAnalyzer.c:469-481 | The text printed for an operator never holds '<' or '>'. |
| AnalyzerXml.EscapeDecodes | 10/JackAnalyzer.c:469-481 | Every operator's text reads back as that operator. |
| AnalyzerXml.PlainTextDecodes | 10/JackAnalyzer.c:380-381 | A string constant without '<' or '&' reads back as itself. |
| AnalyzerXml.RawStrings | 10/JackAnalyzer.c:380-381 | String constants are printed unescaped: the constant "<" makes a malformed element, and the constant "&lt;" reads back as "<". |
| AnalyzerXml.BalancedAppend | 10/JackAnalyzer.c:735-786 | Two balanced runs of lines are balanced together. |
| AnalyzerXml.BalancedWrap | 10/JackAnalyzer.c:369-448 | Balanced lines between the two tags of an element are balanced. |
| AnalyzerXml.Misclosed | 10/JackAnalyzer.c:937-965 | Lines that open a tag, hold balanced lines and then close another tag are not balanced, whatever follows. This is the case of a `subroutineBody` left open before `</subroutineDec>`. |
| AnalyzerXml.LeavesAppend | 10/JackAnalyzer.c:1081-1086 | The leaves of two runs of lines are those of the first, then those of the second. |
| AnalyzerXml.Erase | 10/JackAnalyzer.c:937-950 | Removing the `subroutineBody` tags never adds lines. |
| Analyzer.Check | 10/JackAnalyzer.c:442-446 | The error epilogue of a production records one diagnostic at the cursor exactly when `errno` was set, then clears `errno` and changes nothing else. |
| Analyzer.Term | 10/JackAnalyzer.c:369-448 | `compTerm` moves forward within the token list, only appends output and diagnostics, places each new diagnostic between the cursors before and after, and leaves `errno` clear. |
| Analyzer.Expression | 10/JackAnalyzer.c:450-501 | `compExpression` moves forward the same way and leaves `errno` clear. |
| Analyzer.ExpressionList | 10/JackAnalyzer.c:347-367 | `compExpressionList` moves forward the same way and leaves `errno` clear. |
| Analyzer.SubroutineCall | 10/JackAnalyzer.c:671-712 | `compSubroutineCall` moves forward the same way and leaves `errno` clear. |
| Analyzer.ReturnStatement | 10/JackAnalyzer.c:503-523 | `compReturn` moves forward the same way and leaves `errno` clear. |
| Analyzer.DoStatement | 10/JackAnalyzer.c:714-733 | `compDo` moves forward the same way and leaves `errno` clear. |
| Analyzer.LetStatement | 10/JackAnalyzer.c:625-669 | `compLet` moves forward the same way and leaves `errno` clear. |
| Analyzer.WhileStatement | 10/JackAnalyzer.c:525-563 | `compWhile` moves forward the same way and leaves `errno` clear. |
| Analyzer.IfStatement | 10/JackAnalyzer.c:565-623 | `compIf` moves forward the same way and leaves `errno` clear. |
| Analyzer.Statements | 10/JackAnalyzer.c:735-786 | `compStatements` moves forward the same way and leaves `errno` clear. |
| Analyzer.VarDec | 10/JackAnalyzer.c:788-841 | `compVarDec` moves forward. It consumes something exactly when the cursor is on `var`, and otherwise prints nothing. |
| Analyzer.ClassVarDec | 10/JackAnalyzer.c:975-1031 | `compClassVarDec` does the same for `static` and `field`. |
| Analyzer.VarDecs | 10/JackAnalyzer.c:940-945 | The declaration loop of a body ends at the first token that is not `var`. |
| Analyzer.ClassVarDecs | 10/JackAnalyzer.c:1048-1053 | The declaration loop of a class ends at the first token that is neither `static` nor `field`. |
| Analyzer.ParameterList | 10/JackAnalyzer.c:843-899 | `compParameterList` moves forward and leaves `errno` clear. |
| Analyzer.Subroutine | 10/JackAnalyzer.c:901-973 | `compSubroutine` consumes something exactly when the cursor is on a subroutine keyword, and otherwise prints nothing. |
| Analyzer.Subroutines | 10/JackAnalyzer.c:1055-1060 | The subroutine loop of a class ends at the first token that starts no subroutine. |
| Analyzer.Class | 10/JackAnalyzer.c:1033-1079 | `compClass` moves forward and leaves `errno` clear. |
| AnalyzerProps.PrintsStatement | 10/JackAnalyzer.c:503-523 | A statement prints its tag, its keyword, what its inner production printed, and its closing tag. |
| AnalyzerProps.TermPrints | 10/JackAnalyzer.c:369-448 | A term prints balanced lines, free of body tags, whose leaves spell exactly the tokens it read. A token that starts no term prints nothing and is not consumed. |
| AnalyzerProps.ExpressionPrints | 10/JackAnalyzer.c:450-501 | An expression prints the same kind of element, and it reads something exactly when a term starts at the cursor. |
| AnalyzerProps.PrintsOpEq | 10/JackAnalyzer.c:484-486 | An operator and a '=' right after it print as one element that spells both tokens. |
| AnalyzerProps.SubroutineCallPrints | 10/JackAnalyzer.c:671-712 | A call prints what it reads, and it reads something exactly when a name is at the cursor. |
| AnalyzerProps.ExpressionListPrints | 10/JackAnalyzer.c:347-367 | An expression list prints balanced lines that spell what it reads. |
| AnalyzerProps.ReturnPrints | 10/JackAnalyzer.c:503-523 | A return statement prints its own element on every path. |
| AnalyzerProps.DoPrints | 10/JackAnalyzer.c:714-733 | A do statement prints its own element on every path. |
| AnalyzerProps.LetPrints | 10/JackAnalyzer.c:625-669 | A let statement prints its own element on every path. |
| AnalyzerProps.WhilePrints | 10/JackAnalyzer.c:525-563 | A while statement prints its own element on every path. |
| AnalyzerProps.IfPrints | 10/JackAnalyzer.c:565-623 | An if statement prints its own element on every path. |
| AnalyzerProps.StatementPrintsAll | 10/JackAnalyzer.c:740-777 | Each statement prints its own element on every path: tag, keyword, what it read, closing tag. |
| AnalyzerProps.StatementListPrints | 10/JackAnalyzer.c:740-777 | The loop of `compStatements` prints the statement elements it reads, spelling exactly those tokens. |
| AnalyzerProps.StatementListStops | 10/JackAnalyzer.c:740-777 | The loop stops either at a token that starts no statement, or right after a statement that read nothing past its keyword. |
| AnalyzerProps.StatementStopped | 10/JackAnalyzer.c:744-745 | A statement that reads nothing past its keyword stops the loop right after that keyword. |
| AnalyzerProps.StatementsPrints | 10/JackAnalyzer.c:735-786 | `compStatements` prints one balanced `<statements>` element that spells what it read. |
| AnalyzerProps.DeclarationPrints | 10/JackAnalyzer.c:788-841 | A declaration prints its element between its tags, spelling what it read. |
| AnalyzerProps.VarDecsPrints | 10/JackAnalyzer.c:940-945 | The `var` declarations of a body print balanced lines that spell what they read. |
| AnalyzerProps.ClassVarDecsPrints | 10/JackAnalyzer.c:1048-1053 | The declarations of a class print balanced lines that spell what they read. |
| AnalyzerProps.ParameterListPrints | 10/JackAnalyzer.c:843-899 | A parameter list prints balanced lines that spell what it read. |
| AnalyzerProps.SubroutineBodyPrints | 10/JackAnalyzer.c:936-954 | A body closed by its '}' prints balanced lines ending with that '}'. Without the '}' the closing tag is missing too: exactly `subroutineBody` is left open and no '}' is at the cursor. |
| AnalyzerProps.SubroutinePrints | 10/JackAnalyzer.c:901-973 | A subroutine spells what it read, and its element is balanced exactly when its body was closed. |
| AnalyzerProps.SubroutinesPrints | 10/JackAnalyzer.c:1055-1060 | The subroutine loop spells what it read, and is balanced once the `subroutineBody` tags are erased. |
| AnalyzerProps.ClassEnds | 10/JackAnalyzer.c:1033-1079 | `compClass` closes every element it opens except possibly `subroutineBody`. What it prints spells the tokens it went over, with the final '}' printed in addition to them. |
| AnalyzerProps.HandleFileEnds | 10/JackAnalyzer.c:1081-1086 | `handle_file` prints the same for the tokens of the whole file. |
| JackTokens.IsIdentifierIntended | src/compiler.c:124-134 | Corrected `is_identifier`: a word passes exactly when it is made of letters, digits and underscores and does not start with a digit. |
| Vm8Props.CallBlockJumpsToCallee | 8/VMTranslator.c:443-488 | A call block ends by jumping to the callee and then labelling its return point with the callee's name and the counter. |
| Vm8Props.ReturnNamesDiffer | 8/VMTranslator.c:446 | Two calls whose counters differ modulo 2^32 get different return labels, even when they call the same function. |

## Left out

- JackEngine.Sym, JackEngine.Kw, JackEngine.Ident: where the compiler reads the `next` of the last token, which is NULL, the model's token test simply fails. The same holds for the analyser's token tests. The crash is not modelled.
- JackEngine.CallCommands: for `f(args)` where `f` names a variable, src/compiler.c:980 reads the NULL `id1`. The model prints `call <class>.f n+1` instead of crashing.
- AnalyzerLexer.Tokenize: the line buffer of 10/JackAnalyzer.c:251 is not initialised. Its starting contents are the parameter `junk`, and characters past a line's terminator are taken as NUL.
- Fixed-size token buffers are unbounded strings in the model:
  - `opcode`, `dest`, `comp` and `jmp` hold 8 bytes (MAX_TOKEN_LENGTH) in 7/assembler.c:353-356 and src/assembler.c:316-319, and the `strcpy` into them can overflow;
  - the same holds for `dest[6]`, `comp[8]` and `jmp[4]` in 6/hackasm.c:263-265.
- Vm8.EmitValue, VmSrc.EmitValue: `call` and `function` copy `arg1`, of up to 63 characters (8/VMTranslator.c:164, src/VMTranslator.c:155), into the 32-byte `foo_name` with `strcpy` (8/VMTranslator.c:444 and 490, src/VMTranslator.c:415). A name of 32 characters or more overflows that buffer. The model keeps the whole name and prefixes the later labels with it.
- HackTable.AddrToStr: 6/hackasm.c:95-100 allocates 33 bytes but writes only the first 32, so the `strcpy` reads an unwritten byte and may run past it. The model assumes a terminator there and returns exactly `bits` characters.
- Vm8.ParseFile, VmSrc.ParseFile, Vm8.Bootstrap: the `foo_name` buffers of 8/VMTranslator.c:161, src/VMTranslator.c:152 and 8/VMTranslator.c:109 are not initialised. Their starting contents are the parameter `foo` (`st.foo`), so labels before the first `function`, and in 8/VMTranslator.c also comparison labels, get an unknown prefix.
- Home: the model takes `Fnv(key) % cap`, where src/ds.c:64 and src/ds.c:81 mask with `capacity - 1`. The two agree because every table's capacity is a power of two.
- Error messages on stderr are not modelled as text. The compiler and the analyser keep a `Diagnostic` per message, naming the production and the index of the token the message is about. The source prints that token's line and column instead. This includes the `%c` of src/compiler.c:1252.
- The `main` functions are not modelled: argument handling, directory iteration, opening and naming files, and writing the output file. Each model takes the input lines and returns the output text.
- `fgets` reading is not modelled: the input is the sequence of chunks `fgets` returns, each shorter than the buffer.
- Failures of `malloc`, `calloc` and `strdup`, and the `perror` calls, are not modelled. Allocation always succeeds.
- The debug printers and destructors are not modelled: `token_list_dump`, `ht_dump`, `token_list_del`, `st_del`, `ht_del`. They only print or free memory.
- What the generated Hack code does when run is not modelled (the stack, the segments, call frames). The VM translators are modelled as text generators: a property such as "ARG = SP-n-5" is stated only as the text written.
- Global state: the parsers' global cursor, output stream, `errno` and counters are threaded through the functions as one value.
- `errno` is taken as 0 when `tokenize_file` starts. Of the library calls that may set it, only the `ERANGE` of `atoi` in `is_intConst` is modelled.

## Findings

Nothing here was executed. Each row names a lemma showing the code as written and a definition with the evidently intended property proved. The rest of the model follows the code as written.

| source | as written | input that shows it | evidently intended | confidence | as-written member | corrected member |
|---|---|---|---|---|---|---|
| src/compiler.c:124-134 | the leading-digit test reads `str[0]` after the loop has moved `str` onto the terminator, so it never rejects | the words `32768` and `00` become identifiers | a word starting with a digit is not an identifier | high, not executed | JackTokens.DigitIdentifiers | JackTokens.IsIdentifierIntended |
| src/VMTranslator.c:474-516 | `call f n` inside function `foo` pushes `foo$__return__`, jumps to `foo` and defines the label `(foo$__return__)` | `call Math.multiply 2` inside `Main.main` jumps to `Main.main`, and a second call in `Main.main` defines the same label again | jump to the callee and give each call its own return label, as 8/VMTranslator.c:443-488 does | high, not executed | VmSrcProps.CallReturnsToCaller | Vm8Props.CallBlockJumpsToCallee |
