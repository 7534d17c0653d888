# glacier, modelled in Dafny

glacier is a small statically typed language with structs, functions, `if`/`while`, vectors and maps. It has a compiler written in Python and a stack-based virtual machine written in C. This project models the core of both. It proves what each part promises and how the parts fit together.

- **Lexers** (`lexer.dfy`, `tokens.dfy`). `compiler/lexer.py` and the older `glacier/lexer.py` are modelled as one `Lexer` class over a dialect. The dialect is the keyword and symbol tables, plus whether a trailing symbol is guarded. Each `lex_token` step is proved against a pure token function, and the token stream is replayed on the test program of the lexer tests.
- **Opcodes and the bytecode buffer** (`opcodes.dfy`, `emitter.dfy`). Opcodes form one abstract datatype. It has one value map for `vm/Ops.h` and the compiler, and one for the older `glacier/bytecode.py`. `ByteCode` keeps the header and body byte arrays of `compiler/bytecode.py`, with `write_op`, `edit_op` and `construct`.
- **AST** (`ast.dfy`). Nodes and types, the `__eq__` methods with their quirks, `list_to_string`, and the `_walk` dispatch.
- **Compiler passes**:
  - struct layout: `structdefs.dfy`;
  - type checking: `typecheck.dfy`;
  - intrinsics: `intrinsics.dfy`;
  - code generation: `codegen.dfy`;
  - the function table: `functiontable.dfy`.
  Each pass is a class whose dictionaries and counters change as it walks. Every method is proved equal to a pure function of the state before it, and that function carries the pass's lemmas: jump patching, emission order, slot allocation and the state that only grows.
- **The VM** (`vm_*.dfy`, `vm.dfy`, `vm_spec.dfy`, `vm_props.dfy`):
  - the containers of `vm/`, each a class over its storage with the C functions as methods: `Stack`, `Table`, `Array`, `FunctionTable`, and `Vector` and `Map` from `vm/ds/`;
  - the byte-code cursor;
  - the interpreter of `vm/VM.c`, as a `Machine` class whose every handler is proved against a pure step function `VmSpec`.
  `VmProps` proves the handlers' behaviour, and runs a whole example program to its printed output.
- **Agreement** (`agreement.dfy`). What the compiler emits is what the VM expects, for every construct other than the intrinsics push, len, pop and insert:
  - function offsets count from the start of the body;
  - patched jumps land on the branch they skip to;
  - vector elements come back in source order;
  - call arguments fill the parameter slots in order;
  - a member read through the compiler's index reaches the named member.
  - the exception: those four intrinsics compile to VEC_PUSH, VEC_LEN, VEC_POP and MAP_INSERT, which the VM rejects with INVALID_OP.
- **Tooling**. The disassembler's `ByteCodeReader` is in `disassembler.dfy`. The DSL generators `gen_vm` and `gen_compiler`, with their `SourceWriter`, are in `dsl.dfy`.

Where the code and the language's documented design part ways, the model follows the code:
- The intrinsics are exactly print, push, len, pop and insert; there is no `readStr` or `readInt`.
- Every function body ends with RETURN, because an enum member is always truthy.
- A `let` binding the result of a function returning void is accepted, because the callee's return type is always set.
- A string's length operand counts characters, not UTF-8 bytes.

## Model

| member | source | states |
|---|---|---|
| VmStatus.Code | vm/Util.h:21-25 | The five status codes vm/Util.h defines are 0 down to -4, and only GLC_OK is 0. |
| VmValue.KeyEq | vm/ds/Map.c:101-112 | Keys with different type ids are never equal. Ints compare by value. Strings compare as `strcmp` does, up to the first NUL. A shared type id other than INT or STRING is exactly the failed `assert` (ASSERT_FAILED). A struct whose id is 0 or 1 passes the type-id tests and is read through the wrong union member, which is exactly the UNDEFINED case. |
| VmValue.CString | vm/ds/Map.c:107 | The string `strcmp` sees: the bytes before the first NUL, which holds no NUL and is a prefix of the buffer. |
| VmValue.KeyEqSymmetric | vm/ds/Map.c:101-112 | Key equality is symmetric, and it is defined for every pair of int or string keys. |
| VmValue.StringKeysStopAtNul | vm/ds/Map.c:107 | Two string keys that agree up to a NUL are equal, whatever bytes follow it. |
| VmByteCode.ReadSpec | vm/ByteCode.c:11-33 | A read of `width` bytes fails with OUT_OF_BUFFER, leaving the cursor alone, exactly when fewer than `width` bytes remain. Otherwise it advances by the width, never past `len`. A one-byte read returns the byte at the offset. |
| VmByteCode.ReadByteIsRead | vm/ByteCode.c:11-17 | Read8 is the one-byte case of the general read and keeps the cursor sound. |
| VmByteCode.LittleEndianBound | vm/ByteCode.c:19-33 | A w-byte read is below 256^w, so Read16 and Read32 fit their `uint16_t` and `uint32_t` results. |
| VmByteCode.Read64RefusesExactFit | vm/ByteCode.c:35-41 | With exactly 8 bytes left, Read64 as written reports OUT_OF_BUFFER, where the `>` test of the other widths reads them. |
| VmByteCode.Read64AgreesOtherwise | vm/ByteCode.c:35-41 | Except on an exact fit, Read64 as written equals the corrected 8-byte read. |
| VmByteCode.TrimSpec | vm/ByteCode.c:52-59 | A trim fails exactly when nothing is left, and then changes nothing. Otherwise new byte i is old byte offset + i, the length shrinks by the offset and the offset becomes 0. |
| VmByteCode.JumpAfterTrim | vm/ByteCode.c:43-59 | After a trim, a jump to t succeeds exactly when a jump to t + the old offset did before the trim, and it reads the same bytes. Offsets count from the trim point. |
| VmByteCode.ByteCode.constructor | vm/ByteCode.c:5-9 | `Init` reads the given buffer and length from offset 0. |
| VmByteCode.ByteCode.ReadWidth | vm/ByteCode.c:19-33 | The shared width check and read. Its result and new cursor are the general read's. |
| VmByteCode.ByteCode.Read8 | vm/ByteCode.c:11-17 | Read8's status, byte and new cursor are those of the one-byte read. |
| VmByteCode.ByteCode.Read16 | vm/ByteCode.c:19-25 | Read16 is the two-byte read. |
| VmByteCode.ByteCode.Read32 | vm/ByteCode.c:27-33 | Read32 is the four-byte read. |
| VmByteCode.ByteCode.Read64AsWrittenMethod | vm/ByteCode.c:35-41 | Read64 with its `>=` test, as written. |
| VmByteCode.ByteCode.Read64 | vm/ByteCode.c:35-41 | Read64 with the `>` test of the other widths: the eight-byte read. |
| VmByteCode.ByteCode.Jump | vm/ByteCode.c:43-48 | A target at or past `len` fails and leaves the cursor alone. Any other target becomes the offset. |
| VmByteCode.ByteCode.End | vm/ByteCode.c:50 | `End` is true exactly when the offset has reached `len`. |
| VmByteCode.ByteCode.Trim | vm/ByteCode.c:52-59 | The new cursor is the trimmed one, and it stays sound. |
| Dicts.Put | compiler/passes/struct_defs.py:26 | `d[k] = v` on a dict in insertion order. Afterwards k maps to v and every other key keeps its value. The keys keep their positions, and a new key goes at the end. |
| Dicts.PutKeepsKeysDistinct | compiler/passes/struct_defs.py:26 | Storing into a dict never makes a key occur twice. |
| VmStack.PushThenPop | vm/Stack.c:28-51 | Last in, first out. A push fails only on a full stack, and then changes nothing. A push that succeeds is undone by the next pop, which returns the pushed value. |
| VmStack.TopIsPopWithoutRemoval | vm/Stack.c:35-51 | Top returns what Pop would and removes nothing. Both fail exactly on an empty stack. The popped stack plus the popped value is the old stack. |
| VmStack.PopNSpec | vm/Stack.c:43-51 | n pops from a stack holding at least n values return its top n values, newest first, and leave the rest. |
| VmStack.PopNOneMore | vm/Stack.c:43-51 | One more pop either fails, which ends a pop loop at what it has taken, or moves its value to the end of what was taken. This is the step a VM pop loop's invariant needs. |
| VmStack.SetThenGet | vm/Stack.c:75-107 | Bindings belong to the top frame. After a successful Set, Get of that id returns the value. Every other id, every lower frame and the return offsets are unchanged. |
| VmStack.PushedFrameIsFresh | vm/Stack.c:59-114 | A pushed frame has every binding unset (Get gives ERROR) and the given return offset. Popping it gives back the frames below. |
| VmStack.OperandStack.constructor | vm/Stack.c:26 | `glacierStackInit`: the stack starts empty. |
| VmStack.OperandStack.Push | vm/Stack.c:28-33 | The status and new contents are those of a push: STACK_OVERFLOW at MAX_STACK_SIZE values, otherwise the value on top. |
| VmStack.OperandStack.Top | vm/Stack.c:35-41 | Top returns the last pushed value, or fails on an empty stack. |
| VmStack.OperandStack.Pop | vm/Stack.c:43-51 | Pop returns the last pushed value and removes it, or fails on an empty stack. |
| VmStack.CallStack.constructor | vm/Stack.c:53-57 | `glacierCallStackInit`: no frame is in use, and every one of the MAX_STACK_SIZE frames is initialised with offset -1. |
| VmStack.CallStack.FrameInit | vm/Stack.c:109-114 | Frame k gets the offset, no counted bindings and every binding unset. No other frame changes. |
| VmStack.CallStack.Push | vm/Stack.c:59-65 | STACK_OVERFLOW when full. Otherwise a fresh frame with the given return offset goes on top. |
| VmStack.CallStack.Pop | vm/Stack.c:67-73 | Pop fails on an empty call stack. Otherwise only the top index moves. |
| VmStack.CallStack.Get | vm/Stack.c:75-87 | Get acts on the top frame. An id outside [0, MAX_FRAME_BINDINGS) gives OUT_OF_BUFFER, and an unset binding gives ERROR. |
| VmStack.CallStack.GetByteCodeOffset | vm/Stack.c:89-96 | GetByteCodeOffset returns the top frame's return offset, or fails on an empty call stack. |
| VmStack.CallStack.Set | vm/Stack.c:98-107 | Set writes a binding of the top frame. Out-of-range ids give OUT_OF_BUFFER. |
| VmTable.GrownLen | vm/Table.c:19-26 | A Set past the end grows to max(2·len, index + 1). That is more than the index and at least twice the length. |
| VmTable.SetThenGet | vm/Table.c:18-42 | A Set succeeds exactly when the slot is empty (a slot past the end always is) and the value is non-negative. Afterwards Get returns the value, every other old slot is as before, and the slots added by growing are empty. |
| VmTable.WriteOnce | vm/Table.c:27-30 | Once a slot is written, every later Set of it fails, changes nothing and leaves the first value readable. |
| VmTable.GrowsEvenWhenSetFails | vm/Table.c:19-29 | A Set past the end with a negative value fails, but the table has still grown. |
| VmTable.GetSpec | vm/Table.c:34-42 | Get gives OUT_OF_BUFFER exactly past the end and ERROR exactly on an empty slot. A value it returns is the slot's and is never -1. |
| VmTable.SetKeepsWellFormed | vm/Table.c:27-30 | Every slot stays empty or non-negative. |
| VmTable.Table.constructor | vm/Table.c:9-16 | `Init` gives two slots, both -1. |
| VmTable.Table.Grow | vm/Table.c:50-58 | The old slots are kept and the new ones up to `len` are -1. |
| VmTable.Table.Set | vm/Table.c:18-31 | The status and new slots are those of the table Set above. |
| VmTable.Table.Get | vm/Table.c:34-42 | The status and value are those of the table Get above. |
| VmTable.Table.Destroy | vm/Table.c:44-48 | No slots are left. |
| VmArray.GrowKeepsValues | vm/Array.c:37-44 | The intended Grow keeps every old slot readable as before and adds only empty slots. |
| VmArray.GrowAsWrittenLosesLastSlot | vm/Array.c:37-44 | Grow as written empties slot oldLen − 1, so a value stored there reads as ERROR afterwards. |
| VmArray.GrowAsWrittenAgreesOnEmptyLast | vm/Array.c:37-44 | The as-written and the intended Grow agree exactly when the last old slot was empty. |
| VmArray.InitArray | vm/Array.c:9-15 | `Init` gives ten slots, all -1. |
| VmArray.LostWriteExample | vm/Array.c:17-44 | Store 5 in slot 9 of a fresh array, then write slot 10. With Grow as written, slot 9 reads as empty. With the intended Grow it still reads 5. |
| VmArray.SetThenGet | vm/Array.c:17-35 | With the intended Grow: a Set within 2·len succeeds exactly on an empty slot with a non-negative value. It then reads back, no other old slot changes, and a second Set of the slot fails. |
| VmArray.Array.constructor | vm/Array.c:9-15 | `Init`: ten empty slots. |
| VmArray.Array.GrowAsWritten | vm/Array.c:37-44 | The fill loop as written, starting at oldLen − 1. |
| VmArray.Array.Grow | vm/Array.c:37-44 | The fill loop starting at oldLen. |
| VmArray.Array.Set | vm/Array.c:17-25 | A Set past the end grows once, to 2·len, with the intended Grow. It then fails on a set slot or a negative value, and stores otherwise. |
| VmArray.Array.Get | vm/Array.c:27-35 | OUT_OF_BUFFER past the end, ERROR on -1, otherwise the value. |
| VmFunctionTable.SetThenGet | vm/FunctionTable.c:11-31 | A Set gives OUT_OF_BUFFER exactly for ids outside [0, 1024). It gives ERROR on a taken slot or a negative offset, and a failing Set changes nothing. A Set that succeeds makes the id read back as the offset, and every other id is unchanged. |
| VmFunctionTable.OffsetIsPermanent | vm/FunctionTable.c:11-31 | Once Set(id, o) succeeds, Get(id) returns o after any later sequence of Sets, successful or not. |
| VmFunctionTable.Sets | vm/FunctionTable.c:11-20 | A sequence of Sets keeps the table at 1024 slots. |
| VmFunctionTable.FunctionTable.Init | vm/FunctionTable.c:7-9 | Every one of the 1024 ids is without a function (-1). |
| VmFunctionTable.FunctionTable.Set | vm/FunctionTable.c:11-20 | The status and new slots are those of the function-table Set above. |
| VmFunctionTable.FunctionTable.Get | vm/FunctionTable.c:22-31 | OUT_OF_BUFFER out of range, ERROR when unset, otherwise the stored offset. |
| VmFunctionTable.FunctionTable.constructor | vm/FunctionTable.c:7-9 | A table owns its own fresh 1024-slot storage, which `Init` then marks empty. |
| VmVector.GetAfterPush | vm/ds/Vector.c:18-48 | The last pushed element is at index len − 1. Every earlier element keeps its index. A pop then gives back the elements from before the push. |
| VmVector.GetAfterSet | vm/ds/Vector.c:36-48 | Set fails exactly past the end. Otherwise the index reads back as the value, and no other index or the length changes. |
| VmVector.PopSpec | vm/ds/Vector.c:29-34 | Pop fails exactly on an empty vector. Otherwise it drops only the last element. |
| VmVector.Vector.constructor | vm/ds/Vector.c:9-16 | `Init`: no elements and a capacity of 2. |
| VmVector.Vector.Push | vm/ds/Vector.c:18-27 | The value is appended and `len <= capacity` is kept. When the buffer was full, the capacity doubles. |
| VmVector.Vector.Pop | vm/ds/Vector.c:29-34 | The status and elements are those of a pop, and the capacity is unchanged. |
| VmVector.Vector.Set | vm/ds/Vector.c:36-41 | OUT_OF_BUFFER past `len`. Otherwise only that index changes. |
| VmVector.Vector.Get | vm/ds/Vector.c:43-48 | OUT_OF_BUFFER past `len`. Otherwise the element. |
| VmVector.Vector.Destroy | vm/ds/Vector.c:50-55 | `len` and `capacity` are both 0. |
| VmMap.MapGot | vm/ds/Map.c:55-67 | A lookup succeeds exactly when it returns a value. |
| VmMap.SetAppends | vm/ds/Map.c:31-53 | A Set succeeds exactly while the chain holds at most 3 entries (depth below GLC_MAP_MAX_DEPTH), and then appends the entry at the end. So a map never holds more than four entries. |
| VmMap.RetryNeverSucceeds | vm/ds/Map.c:43-99 | With the constant hash, a rebuild leaves the same single chain. Every retry after any number of rebuilds meets the same depth and rebuilds again, so none appends. After n rebuilds the `size_t` bucket count is the starting count times 2^n, modulo 2^64. |
| VmMap.BucketsWrapToZero | vm/ds/Map.c:83-84 | From the initial two buckets, the first 62 rebuilds give 2^(k+1) buckets, and the 63rd gives 0. The map it then re-inserts into computes `hash % 0`. |
| VmMap.KeyEqReflexive | vm/ds/Map.c:101-107 | An int or string key equals itself. |
| VmMap.AppendKeepsEarlierLookups | vm/ds/Map.c:31-67 | An appended entry never shadows an earlier one. A lookup that stopped before it is unchanged, and one that missed now meets the new entry. |
| VmMap.FirstSetWins | vm/ds/Map.c:31-67 | For a key with no entry yet, after Set(k, v1) then Set(k, v2), Get(k) returns v1. |
| VmMap.GetFindsFirst | vm/ds/Map.c:55-67 | Get returns the value of the first entry whose key is equal, provided every comparison before it is defined. |
| VmMap.Map.constructor | vm/ds/Map.c:23-29 | `Init`: two buckets and no entries. |
| VmMap.Map.Sized | vm/ds/Map.c:83-85 | The empty map Rebuild allocates, with the given bucket count. |
| VmMap.Map.Set | vm/ds/Map.c:31-53 | The depth-counting loop, then either the append or the rebuild whose retry never succeeds (DIVERGES). Status and state are those of the map Set above. |
| VmMap.Map.Rebuild | vm/ds/Map.c:81-99 | Twice the buckets, with the set entries re-inserted in chain order. |
| VmMap.Map.Get | vm/ds/Map.c:55-67 | The chain scan returns what the map lookup above gives. |
| VmMap.Map.Destroy | vm/ds/Map.c:69-73 | `numBuckets` is 0 and no entry is left. |
| VmSpec.ReadB | vm/ByteCode.c:11-17 | A read succeeds exactly when the cursor is inside the buffer. It then gives the byte there and moves one byte on. Otherwise it fails with OUT_OF_BUFFER and changes nothing. |
| VmSpec.Push | vm/Stack.c:28-33 | Pushing onto the machine's operand stack keeps the machine well-formed, also when the stack is full. |
| VmSpec.Pop | vm/Stack.c:43-51 | Popping from the machine's operand stack keeps the machine well-formed, also when the stack is empty. |
| VmSpec.JumpTo | vm/ByteCode.c:43-48 | A jump keeps the machine well-formed. |
| VmSpec.AsInt | vm/VM.c:223-233 | Reading a value as an int succeeds exactly on an int value and gives its number. |
| VmSpec.IntOp | vm/VM.c:194-200 | INT keeps the machine well-formed. |
| VmSpec.StrBytes | vm/VM.c:202-221 | Reading a string's bytes keeps the machine well-formed. |
| VmSpec.StringOp | vm/VM.c:202-221 | STRING keeps the machine well-formed. |
| VmSpec.Binary | vm/VM.c:223-295 | ADD, SUBTRACT, MULTIPLY, DIVIDE, EQ and LT keep the machine well-formed. VmProps.BinarySpec states what they compute. |
| VmSpec.Print | vm/VM.c:379-394 | PRINT keeps the machine well-formed. |
| VmSpec.FunctionJmp | vm/VM.c:331-338 | A FUNCTION_JMP record keeps the machine well-formed. VmProps.HeaderRecordsFunction states what it records. |
| VmSpec.MemberTypes | vm/VM.c:68-91 | Reading a struct definition's member types keeps the machine well-formed. VmProps.MemberTypesSpec states which types it accepts. |
| VmSpec.StructDef | vm/VM.c:68-91 | A STRUCT_DEF record keeps the machine well-formed. VmProps.StructDefOnlyFillsTable states what it changes. |
| VmSpec.Header | vm/VM.c:310-329 | Reading the header keeps the machine well-formed. The VmProps.Header* lemmas state what each record does. |
| VmSpec.SetVar | vm/VM.c:340-351 | SET_VAR keeps the machine well-formed. |
| VmSpec.GetVar | vm/VM.c:353-364 | GET_VAR keeps the machine well-formed. |
| VmSpec.JumpIfFalse | vm/VM.c:396-406 | JUMP_IF_FALSE keeps the machine well-formed. VmProps.JumpIfFalseSpec states where it goes. |
| VmSpec.JumpOp | vm/VM.c:408-413 | JUMP keeps the machine well-formed. |
| VmSpec.SetArg | vm/VM.c:470-482 | One turn of the argument loop keeps the machine well-formed. |
| VmSpec.SetArgs | vm/VM.c:470-482 | The argument loop keeps the machine well-formed. VmProps.SetArgsFill states where the arguments land. |
| VmSpec.StructAlloc | vm/VM.c:415-437 | STRUCT keeps the machine well-formed. VmProps.StructKeepsPushOrder states the struct it builds. |
| VmSpec.GetMember | vm/VM.c:439-454 | GET_STRUCT_MEMBER keeps the machine well-formed. |
| VmSpec.SetMember | vm/VM.c:456-468 | SET_STRUCT_MEMBER keeps the machine well-formed. |
| VmSpec.VectorOp | vm/VM.c:484-501 | VEC keeps the machine well-formed. |
| VmSpec.VectorAccess | vm/VM.c:503-514 | VEC_ACCESS keeps the machine well-formed. |
| VmSpec.MapPairs | vm/VM.c:516-534 | The map loop never leaves more values on the stack than it found. |
| VmSpec.MapOp | vm/VM.c:516-534 | MAP keeps the machine well-formed. |
| VmSpec.MapAccess | vm/VM.c:536-547 | MAP_ACCESS keeps the machine well-formed. |
| VmSpec.ReturnOp | vm/VM.c:131-143 | RETURN and RETURN_VAL keep the machine well-formed. |
| VmSpec.CallSetup | vm/VM.c:366-377 | CALL_FUNC up to the callee's body keeps the machine well-formed. |
| VmSpec.ExecValue | vm/VM.c:107-130 | The literal, arithmetic and print cases keep the machine well-formed. |
| VmSpec.ExecVar | vm/VM.c:144-161 | The variable and jump cases keep the machine well-formed. |
| VmSpec.ExecStruct | vm/VM.c:162-170 | The struct cases keep the machine well-formed. |
| VmSpec.ExecCollection | vm/VM.c:171-182 | The vector and map cases keep the machine well-formed. |
| VmSpec.Exec | vm/VM.c:106-186 | Every case that neither calls nor returns keeps the machine well-formed. |
| VmSpec.Dispatch | vm/VM.c:106-186 | One turn of the dispatch `switch` keeps the machine well-formed. VmProps.UnhandledIsInvalid states which bytes have no case. |
| VmSpec.FunctionDef | vm/VM.c:93-192 | Running a function keeps the machine well-formed. VmProps.FunctionDefEntersBody states how it starts. |
| VmSpec.Step | vm/VM.c:104-186 | One turn of the dispatch loop keeps the machine well-formed. |
| VmSpec.Body | vm/VM.c:103-191 | The dispatch loop keeps the machine well-formed. |
| VmSpec.BodyStops | vm/VM.c:103-191 | Without fuel the loop stops with OUT_OF_FUEL, and past the last byte it stops with OUT_OF_BUFFER; the state is left as it is. |
| VmSpec.BodyTurn | vm/VM.c:103-191 | With fuel and bytes left, the loop takes one step. It stops on a failure or a return, and otherwise goes on from the new state. |
| VmSpec.Launch | vm/VM.c:52-65 | The trim, the jump to function 0 and its execution keep the machine well-formed. |
| VmSpec.Run | vm/VM.c:47-66 | `glacierVMRun` keeps the machine well-formed. VmProps.RunEntersFunctionZero and VmProps.ExampleRun state what it does. |
| VmSpec.Initial | vm/VM.c:37-45 | The machine `vm/main.c` sets up is well-formed: program bytes, empty stacks, fresh tables. |
| VmProps.MemberTypesSpec | vm/VM.c:68-91 | A struct definition's member types are accepted exactly when all n bytes are there and each is INT or STRING. The cursor then stands just past them, and nothing but the cursor changes. |
| VmProps.HeaderRecordsFunction | vm/VM.c:310-338 | A FUNCTION_JMP record for a function id with no offset yet stores the offset in the function table. The header then goes on after the record. |
| VmProps.HeaderRejectsSecondOffset | vm/VM.c:331-338 | A second FUNCTION_JMP record for the same id stops the header with ERROR. |
| VmProps.StructDefOnlyFillsTable | vm/VM.c:68-91 | A STRUCT_DEF record changes only the cursor and the symbol table. |
| VmProps.HeaderOnlyFillsTables | vm/VM.c:310-329 | Reading the header changes only the cursor and the two tables. The stacks, the struct memory and the output are untouched. |
| VmProps.HeaderEnds | vm/VM.c:313-316 | HEADER_END ends the header with OK, just past itself. |
| VmProps.HeaderRejectsUnknownRecord | vm/VM.c:317-327 | Any header record other than FUNCTION_JMP, STRUCT_DEF and HEADER_END gives INVALID_OP. |
| VmProps.Bound | vm/VM.c:470-482 | The first slots hold the values vs in order, and the other slots are unchanged. |
| VmProps.WithArgs | vm/VM.c:470-482 | Moving the top n values into the first n slots of the frame keeps the machine well-formed. |
| VmProps.SetArgsFill | vm/VM.c:470-482 | With a frame and at least n values, the argument loop succeeds. It moves the top n values into slots 0..n-1, the first pushed into slot 0. |
| VmProps.SetArgsTurn | vm/VM.c:470-476 | With a value on the stack and a frame, one turn of the argument loop succeeds: it pops the top value into slot n - i - 1, and the loop goes on from there. |
| VmProps.WithArgsShift | vm/VM.c:470-476 | Binding the top m values is the same as popping the top one into slot m - 1 and then binding the m - 1 below it. |
| VmProps.FunctionDefEntersBody | vm/VM.c:93-103 | A function record whose opcode is not FUNCTION_DEF is ERROR. A FUNCTION_DEF record with its arguments on the stack binds them and runs the body from the byte after the record. |
| VmProps.ApplyWraps | vm/VM.c:223-257 | On uint64_t, sums and differences wrap around 2^64, and a product that fits is exact. |
| VmProps.ApplyCompares | vm/VM.c:259-295 | Division is undefined exactly when the divisor is zero. EQ gives 1 exactly on equal operands and LT exactly when the left one is smaller, and both give only 0 or 1. |
| VmProps.BinarySpec | vm/VM.c:223-295 | A binary operator takes the top value as its right operand and the one below as its left. Two ints are replaced by the result, and a non-int type id trips the assert. A division by zero is undefined, and fewer than two values is STACK_OVERFLOW. |
| VmProps.JumpIfFalseSpec | vm/VM.c:396-406 | The condition is popped. 0 jumps to the operand offset, or is OUT_OF_BUFFER when that is past the end. 1 falls through, and any other value trips the assert. |
| VmProps.SetVarThenGetVar | vm/VM.c:340-364 | SET_VAR pops the value into the slot, and a later GET_VAR of the same id with those frames pushes that value. |
| VmProps.FreshFrameIsUnbound | vm/VM.c:353-364 | In a frame just pushed, GET_VAR of any id is ERROR. |
| VmProps.StructKeepsPushOrder | vm/VM.c:415-437 | STRUCT on a declared id with its members on the stack allocates a struct whose member 0 is the first pushed. A value referring to the struct replaces the members on the stack. |
| VmProps.SetMemberThenGetMember | vm/VM.c:439-468 | SET_STRUCT_MEMBER writes the member in the shared struct. A later GET_STRUCT_MEMBER through any copy of the struct value reads the value written. |
| VmProps.GetMemberRejectsScalars | vm/VM.c:439-454 | GET_STRUCT_MEMBER on a value whose type id is INT or STRING trips the assert. |
| VmProps.VecReversesPops | vm/VM.c:484-501 | VEC n replaces the top n values by a vector holding them in pop order, the last pushed first. |
| VmProps.VectorAccessSpec | vm/VM.c:503-514 | VEC_ACCESS reads element i of the vector, or gives OUT_OF_BUFFER when i is past the end. |
| VmProps.Flat | vm/VM.c:516-534 | A map literal's pairs as they are pushed, each key and then its value, take twice as many stack slots as there are pairs. |
| VmProps.MapPairsChain | vm/VM.c:516-534 | The map loop over up to four pushed pairs pops each value and then its key. The pairs end up chained in pop order, the last pushed first. |
| VmProps.MapLiteral | vm/VM.c:516-534 | MAP with up to four pairs on the stack replaces them by a new map holding them, the last pair first. |
| VmProps.LastPairWins | vm/ds/Map.c:55-67 | In a map literal, a lookup finds the last pair given for its key. |
| VmProps.MapAccessSpec | vm/VM.c:536-547 | MAP_ACCESS with a map under the key: a key that is not an int or a string fails the assert and leaves the map on the stack. Otherwise both are popped. On a hit the value found replaces them; on a miss (KEY_MISS) or a failed key comparison, that status is returned and the stack is left without them. |
| VmProps.LiteralThenAccess | vm/VM.c:516-547 | A map built by MAP and read by MAP_ACCESS with a key equal to the last pair's key pushes that pair's value in place of the map and the key. |
| VmProps.CallPushesReturnFrame | vm/VM.c:366-377 | CALL_FUNC on a function with an offset pushes a frame that returns to the byte after the operand, then moves the cursor to the callee. |
| VmProps.ReturnResumesCaller | vm/VM.c:131-143 | RETURN pops the callee's frame and resumes at its return offset with the caller's frames. RETURN_VAL does the same once the top value is an int or a string. |
| VmProps.ReturnFromLastFrame | vm/VM.c:131-143 | A return from the last frame ends the run. It is OK when the frame's return offset is -1 and ASSERT_FAILED otherwise. |
| VmProps.CallThenReturn | vm/VM.c:131-143 | Whatever the callee does to its own frame, a RETURN with that frame on top comes back to the byte after CALL_FUNC's operand, with the caller's frames. |
| VmProps.UnhandledIsInvalid | vm/VM.c:106-186 | Some bytes give INVALID_OP and change nothing: a byte that is no opcode, a header record, JUMP_IF_TRUE, and VEC_PUSH, VEC_LEN, VEC_POP and MAP_INSERT, which have no case. Every other opcode has a handler. |
| VmProps.BodyOffTheEnd | vm/VM.c:103-191 | Running off the end of the bytecode with fuel left is OUT_OF_BUFFER. |
| VmProps.LaunchEntersFunctionZero | vm/VM.c:52-65 | After the header, the bytes past HEADER_END become the whole buffer, so offsets count from the first body byte. Function 0 then runs from its offset in a frame that returns to -1. |
| VmProps.RunEntersFunctionZero | vm/VM.c:47-66 | `glacierVMRun` reads the header and then enters function 0 as above. |
| VmProps.ExampleAt | vm/VM.c:47-66 | The example machine inside function 0's body is well-formed, and its cursor is inside the buffer exactly before offset 10. |
| VmProps.ExampleTable | vm/Table.c:9-42 | A fresh table has two empty slots, and slot 0 takes offset 0. |
| VmProps.ExampleHeader | vm/VM.c:310-338 | The example's header records offset 0 for function 0 and ends at byte 4. |
| VmProps.ExampleFirstInt | vm/VM.c:194-200 | INT a pushes a. |
| VmProps.ExampleSecondInt | vm/VM.c:194-200 | INT b pushes b. |
| VmProps.ExampleAdd | vm/VM.c:223-233 | ADD replaces a and b by a + b. |
| VmProps.ExamplePrint | vm/VM.c:379-394 | PRINT pops a + b and outputs it. |
| VmProps.ExampleReturn | vm/VM.c:131-143 | RETURN from the only frame, whose return offset is -1, ends the body. |
| VmProps.ExampleEntry | vm/VM.c:47-66 | `glacierVMRun` on the example enters function 0 at body offset 0. |
| VmProps.ExampleDef | vm/VM.c:93-103 | Function 0 takes no arguments, so its body starts just past its record with nothing bound. |
| VmProps.IntPushes | vm/VM.c:194-200 | INT pushes its operand byte as an int and moves past it. |
| VmProps.AddsBytes | vm/VM.c:223-233 | ADD on two byte-sized ints replaces them by their sum. |
| VmProps.PrintsInt | vm/VM.c:379-394 | PRINT on an int pops it and outputs it. |
| VmProps.ExampleBody | vm/VM.c:103-233 | With fuel for five turns, function 0's body pushes a and b, adds them, prints a + b and returns OK with an empty stack and every frame popped. |
| VmProps.ExampleFinish | vm/VM.c:103-233 | From the ADD on, with a and b pushed in the outermost frame, the body's last three turns leave a + b, print it and return OK with every frame popped. |
| VmProps.ExampleRun | vm/VM.c:47-192 | Given fuel for its five turns, the whole program INT a; INT b; ADD; PRINT; RETURN prints a + b and returns OK. |
| VmProps.StringPushesLiteral | vm/VM.c:202-221 | STRING n pushes the next n bytes as a string and moves past them. With a full stack it gives STACK_OVERFLOW. A string running past the end of the buffer gives OUT_OF_BUFFER, with the cursor at the end and nothing pushed. |
| VmProps.PrintsString | vm/VM.c:379-394 | PRINT of a string pops it and outputs it up to its first NUL byte. The output has no NUL, and it is the whole string when the string has none. |
| Vm.Machine.constructor | vm/VM.c:37-45 | The new machine is valid and equals VmSpec.Initial over the program bytes: empty stacks, fresh tables, nothing printed. |
| Vm.Machine.ReadB | vm/ByteCode.c:11-17 | Reads one byte of the machine's bytecode exactly as VmSpec.ReadB says. |
| Vm.Machine.Push | vm/Stack.c:28-33 | Pushes onto the operand stack exactly as VmSpec.Push says. |
| Vm.Machine.Pop | vm/Stack.c:43-51 | Pops the operand stack exactly as VmSpec.Pop says. |
| Vm.Machine.JumpTo | vm/ByteCode.c:43-48 | Moves the cursor exactly as VmSpec.JumpTo says. |
| Vm.Machine.IntOp | vm/VM.c:194-200 | Returns the status and leaves the state given by VmSpec.IntOp. |
| Vm.Machine.StringOp | vm/VM.c:202-221 | Reads the string byte by byte and returns the status and state given by VmSpec.StringOp. |
| Vm.Machine.Binary | vm/VM.c:223-295 | Returns the status and state given by VmSpec.Binary, whose results VmProps.BinarySpec states. |
| Vm.Machine.Print | vm/VM.c:379-394 | Returns the status and state given by VmSpec.Print. |
| Vm.Machine.FunctionJmp | vm/VM.c:331-338 | Returns the status and state given by VmSpec.FunctionJmp. |
| Vm.Machine.MemberTypes | vm/VM.c:79-89 | The member-type loop returns the status and state given by VmSpec.MemberTypes. |
| Vm.Machine.StructDef | vm/VM.c:68-91 | Returns the status and state given by VmSpec.StructDef. |
| Vm.Machine.Header | vm/VM.c:310-329 | The header loop returns the status and state given by VmSpec.Header. |
| Vm.Machine.SetVar | vm/VM.c:340-351 | Returns the status and state given by VmSpec.SetVar. |
| Vm.Machine.GetVar | vm/VM.c:353-364 | Returns the status and state given by VmSpec.GetVar. |
| Vm.Machine.JumpIfFalse | vm/VM.c:396-406 | Returns the status and state given by VmSpec.JumpIfFalse. |
| Vm.Machine.JumpOp | vm/VM.c:408-413 | Returns the status and state given by VmSpec.JumpOp. |
| Vm.Machine.SetArg | vm/VM.c:470-482 | One turn of the argument loop returns the status and state given by VmSpec.SetArg. |
| Vm.Machine.SetArgs | vm/VM.c:470-482 | The argument loop returns the status and state given by VmSpec.SetArgs. |
| Vm.Machine.PopMembers | vm/VM.c:415-437 | The pop loop gives the values PopN pops, reversed into push order, and the status and stack PopN leaves. |
| Vm.Machine.StructAlloc | vm/VM.c:415-437 | Returns the status and state given by VmSpec.StructAlloc. |
| Vm.Machine.GetMember | vm/VM.c:439-454 | Returns the status and state given by VmSpec.GetMember. |
| Vm.Machine.SetMember | vm/VM.c:456-468 | Returns the status and state given by VmSpec.SetMember. |
| Vm.Machine.FillVector | vm/VM.c:484-501 | The pop loop leaves the vector holding the popped values in pop order, with the status and stack PopN leaves. |
| Vm.Machine.VectorOp | vm/VM.c:484-501 | Returns the status and state given by VmSpec.VectorOp. |
| Vm.Machine.VectorAccess | vm/VM.c:503-514 | Returns the status and state given by VmSpec.VectorAccess. |
| Vm.Machine.FillMap | vm/VM.c:516-534 | The map loop leaves the map, the status and the stack that VmSpec.MapPairs gives. |
| Vm.Machine.MapOp | vm/VM.c:516-534 | Returns the status and state given by VmSpec.MapOp. |
| Vm.Machine.MapAccess | vm/VM.c:536-547 | Returns the status and state given by VmSpec.MapAccess. |
| Vm.Machine.ReturnVal | vm/VM.c:297-308 | Returns the status VmSpec.ReturnVal gives and changes nothing. |
| Vm.Machine.ReturnOp | vm/VM.c:131-143 | Returns the status and state given by VmSpec.ReturnOp. |
| Vm.Machine.CallSetup | vm/VM.c:366-377 | Returns the status and state given by VmSpec.CallSetup. |
| Vm.Machine.ExecValue | vm/VM.c:107-130 | Returns the status and state given by VmSpec.ExecValue. |
| Vm.Machine.ExecVar | vm/VM.c:144-161 | Returns the status and state given by VmSpec.ExecVar. |
| Vm.Machine.ExecStruct | vm/VM.c:162-170 | Returns the status and state given by VmSpec.ExecStruct. |
| Vm.Machine.ExecCollection | vm/VM.c:171-182 | Returns the status and state given by VmSpec.ExecCollection. |
| Vm.Machine.Exec | vm/VM.c:106-186 | Returns the status and state given by VmSpec.Exec. |
| Vm.Machine.Dispatch | vm/VM.c:106-186 | Returns the status, the returned flag and the state given by VmSpec.Dispatch. |
| Vm.Machine.FunctionDef | vm/VM.c:93-192 | Returns the status and state given by VmSpec.FunctionDef. |
| Vm.Machine.Step | vm/VM.c:104-186 | Keeps the machine valid. With bytes left, the loop from the old state (VmSpec.Body) equals the status and state this turn ends with when it fails or returns, and otherwise the loop from the new state with one unit of fuel less. |
| Vm.Machine.Body | vm/VM.c:103-191 | The dispatch loop returns the status and state given by VmSpec.Body. |
| Vm.Machine.Run | vm/VM.c:47-66 | Returns the status and state given by VmSpec.Run. |
| Vm.Machine.Launch | vm/VM.c:51-62 | After the header: trims the bytecode, jumps to function 0, pushes its frame with return offset -1 and runs it, ending with the status and state given by VmSpec.Launch. |
| Agreement.Program | compiler/bytecode.py:25-26 | The program is the header, the HEADER_END byte and the body, with no byte added or dropped. |
| Agreement.TrimLeavesBody | vm/ByteCode.c:52-59 | Once the VM has read the header through HEADER_END, the trim leaves exactly the compiler's body, read from 0. Body offset k is VM offset k. |
| Agreement.FunctionOffsetFindsItsDef | compiler/passes/codegen.py:40-56 | The offset the compiler records for a function is inside the body. A VM jump there succeeds and finds FUNCTION_DEF with the function's id (0 for main) and its parameter count. |
| Agreement.IfBranchesLand | compiler/passes/codegen.py:111-133 | In the VM, a true condition goes on into the then-branch. A false one lands just after a JUMP whose operand is the end of the whole `if`. |
| Agreement.WhileEdgesLand | compiler/passes/codegen.py:135-154 | In the VM, the back-edge JUMP returns to where the condition's code starts. A false condition leaves the loop just past the back-edge. |
| Agreement.VectorLiteralInOrder | compiler/passes/codegen.py:84-87 | The compiler emits a vector literal's elements last first, then VEC n. The VM pops them into a vector in source order. |
| Agreement.ArgumentsMeetParameters | compiler/passes/codegen.py:40-49 | Parameter i gets variable slot i in the compiler, and the VM moves the i-th pushed argument into slot i. So each parameter reads its own argument. |
| Agreement.FirstStructWithMember | compiler/passes/codegen.py:228-240 | When struct i is the first registered struct with a member of the name, the compiler's lookup across all structs gives that member's index in struct i. |
| Agreement.CompiledStructMemberRead | compiler/passes/codegen.py:228-241 | A compiled struct's id passes GET_STRUCT_MEMBER's type check. When no earlier struct has a member of that name, the index the compiler emits reads the named member's value. |
| Agreement.IntrinsicOpcodesRejected | compiler/passes/intrinsics.py:59-126 | The last byte compiled for a `push`, `len`, `pop` or `insert` call decodes to VEC_PUSH, VEC_LEN, VEC_POP or MAP_INSERT, and the VM's dispatch (vm/VM.c:106-186) rejects it with INVALID_OP. `print` is the only intrinsic whose opcode has a handler. |
| Opcodes.VmDecode | vm/Ops.h:1-32 | A byte is an opcode exactly when it is below 0x20, and the opcode it decodes to has that byte as its value. |
| Opcodes.VmCodeDecodes | vm/Ops.h:1-32 | The 32 opcodes have distinct values, so decoding an opcode's value gives the opcode back. |
| Opcodes.TablesDisagreeFromHeaderEnd | glacier/bytecode.py:13-142 | The older table agrees with the VM's on every opcode before HEADER_END. Every later opcode it knows is numbered one higher, and it has no entry from LT on. |
| Opcodes.LegacyHeaderEndIsVmPrint | glacier/bytecode.py:95-100 | The older table's HEADER_END byte 0x0F is the VM's PRINT. |
| Opcodes.DocumentedLengthMatchesVm | glacier/bytecode.py:5-143 | Where both describe an instruction, the length the older table documents is the length the VM reads, except INT. INT is documented with an 8-byte operand that the VM reads as one byte. |
| Emitter.PyIndex | compiler/bytecode.py:18-20 | A Python index is valid exactly when -n <= i < n. A negative index counts from the end. |
| Emitter.EditArgs | compiler/bytecode.py:19-20 | The argument loop of `edit_op` never changes the buffer's length. |
| Emitter.EditBytes | compiler/bytecode.py:17-20 | `edit_op` never changes the buffer's length. |
| Emitter.EditArgsInRange | compiler/bytecode.py:19-20 | In range and with byte-sized args, the argument loop succeeds. It writes each arg k at offset + k + 1 and keeps every other byte. |
| Emitter.EditOpInRange | compiler/bytecode.py:17-20 | In range and with byte-sized args, `edit_op` succeeds. It overwrites exactly offset..offset+len(args) with the opcode and the args. |
| Emitter.EditArgsPastEnd | compiler/bytecode.py:19-20 | An argument that falls past the end raises IndexError. |
| Emitter.EditOpPastEnd | compiler/bytecode.py:17-20 | A patch that starts inside the body but runs past its end raises IndexError. |
| Emitter.ByteCode.constructor | compiler/bytecode.py:5-7 | Both regions start empty. |
| Emitter.ByteCode.WriteHeader | compiler/bytecode.py:9-11 | The opcode byte is appended to the header. The args follow exactly when all of them are bytes; otherwise the result is ValueError. The body is untouched. |
| Emitter.ByteCode.WriteOp | compiler/bytecode.py:13-15 | The same as WriteHeader, on the body, and the header is untouched. |
| Emitter.ByteCode.EditOp | compiler/bytecode.py:17-20 | The store loop leaves the buffer and the error that EditBytes gives, and the header is untouched. |
| Emitter.ByteCode.CurrentOffset | compiler/bytecode.py:22-23 | The offset is the body's length, where the next op lands. |
| Emitter.ByteCode.Construct | compiler/bytecode.py:25-26 | The output is the header, the table's HEADER_END byte, then the body. |
| FunctionTable.FunctionsOf | compiler/passes/function_table.py:8-14 | The functions a walk of a node reaches are all Function nodes. |
| FunctionTable.FunctionsIn | compiler/passes/function_table.py:8-10 | The functions a walk of a list reaches are all Function nodes. |
| FunctionTable.NamedAppend | compiler/passes/function_table.py:12-14 | If two lists of functions all carry attributes, so does their concatenation. |
| FunctionTable.JmpRecordsAppend | compiler/passes/function_table.py:12-14 | The records of two lists of functions, one after the other, are the records of the concatenated list. |
| FunctionTable.TableWalkRecords | compiler/passes/function_table.py:8-14 | A successful walk of a node appends exactly one FUNCTION_JMP record per function it reaches, member functions included, in walk order. Each record carries the function's id and offset, and each such function had its attributes. |
| FunctionTable.TableWalkAllRecords | compiler/passes/function_table.py:8-14 | The same for a list of nodes: the records of all their functions, in order. |
| FunctionTable.MissingAttributesFail | compiler/passes/function_table.py:13 | A function that code generation gave no id and offset stops the pass with a failed assertion, also inside a structure. |
| FunctionTable.FunctionTable.constructor | compiler/passes/function_table.py:5-6 | The pass writes to the given buffer, with the given attributes. |
| FunctionTable.FunctionTable.Walk | compiler/passes/function_table.py:8-14 | Walking a node leaves the header or the error that TableWalk gives. The body region is never touched. |
| FunctionTable.FunctionTable.WalkAll | compiler/passes/function_table.py:8-10 | The loop over the nodes leaves the header or the first error that TableWalkAll gives. The body region is never touched. |
| Ast.TypeEqIsEquality | compiler/ast.py:163-168 | On the types the parser builds, `Type.__eq__` never fails and is structural equality. |
| Ast.TypeEqReflexive | compiler/ast.py:163-168 | Every type equals itself, whatever its shape. |
| Ast.TypeEqSymmetric | compiler/ast.py:163-168 | `Type.__eq__` is symmetric, failures included. |
| Ast.MissingElementTypeFails | compiler/ast.py:163-168 | Comparing a vector type that has no element type with one that has one raises AttributeError. |
| Ast.OtherClassUnequal | compiler/ast.py:27-336 | Every node class's `__eq__` first checks the class, so nodes of different classes are unequal. |
| Ast.NodeEqReflexive | compiler/ast.py:27-336 | Every node equals itself, and no comparison of a node with itself fails. |
| Ast.ExpressionEqReflexive | compiler/ast.py:89-336 | Every expression node equals itself. |
| Ast.NodesEqReflexive | compiler/ast.py:27-336 | Every list of nodes equals itself. |
| Ast.EntriesEqReflexive | compiler/ast.py:257-260 | A map literal's entries from i on equal themselves. |
| Ast.OptNodeEqReflexive | compiler/ast.py:201-204 | An optional node equals itself. |
| Ast.MembersEqReflexive | compiler/ast.py:182-189 | Every list of struct members equals itself. |
| Ast.ParamsEqReflexive | compiler/ast.py:111-118 | Every parameter list equals itself. |
| Ast.FunctionEqIgnoresReturnType | compiler/ast.py:111-118 | Two functions that differ only in their return type are equal. |
| Ast.MemberEqSeesDefault | compiler/ast.py:182-189 | A member without a default value differs from the same member with one. |
| Ast.TupleToString | compiler/ast.py:17-24 | The loop builds "(", the elements' strings with ", " before each one once the text is longer than "(", then ")". |
| Ast.Shown | compiler/ast.py:17-24 | Element i of the rendered list is the rendering of element i. |
| Ast.ItemsShown | compiler/ast.py:4-14 | Element i is rendered as a tuple if it is one and through `str` otherwise. |
| Ast.ListToString | compiler/ast.py:4-14 | The loop builds "[", the elements' renderings with the same separator rule, then "]". |
| Ast.JoinedIsJoin | compiler/ast.py:4-24 | When no element renders empty, the loop's text is the bracket followed by the parts joined with ", ". |
| Ast.JoinedAfterFirst | compiler/ast.py:4-24 | Once the text is longer than the bracket, every later part is preceded by ", ". |
| Ast.EmptyFirstElementDropsSeparator | compiler/ast.py:7-8 | An element that renders as "" drops the separator after it: ["", "a"] renders as "[a". |
| Ast.Unwrap | compiler/ast.py:352-353 | What is left after unwrapping expression statements is not an expression statement. |
| Ast.Dispatch | compiler/ast.py:344-380 | `_walk` sends each node, seen through any ExprStatement wrappers, to the handler declared for its class. Anything else raises RuntimeError. |
| Ast.HandlersDisjoint | compiler/ast.py:344-380 | No two handlers accept the same node. |
| Ast.WalkAstSucceeds | compiler/ast.py:340-342 | A walk with the base handlers succeeds exactly when every top-level node is of a walked class. |
| Lexing.Run | compiler/lexer.py:125-137 | The end of the longest run of characters of one class (ASCII classification) from i: every character before it is in the class, and the one at it is not (or the input ends). |
| Lexing.Next | compiler/lexer.py:106-116 | One `lex_token` call, with ASCII character classes, never moves the cursor past the end of the input. |
| Lexing.EofIsSticky | compiler/lexer.py:106-109 | Once only ASCII spaces are left, `lex_token` yields EOF with an empty value and leaves the cursor at the end, so every later call yields it again. |
| Lexing.NextAdvances | compiler/lexer.py:106-116 | Every call that does not yield EOF consumes at least one character. |
| Lexing.NumberIsMaximalRun | compiler/lexer.py:110-111 | A number token is the maximal run of ASCII digits at the first non-space character, and lexing resumes just after it. |
| Lexing.IdentifierOrKeyword | compiler/lexer.py:139-149 | An identifier starts with an ASCII letter and spans the maximal run of ASCII letters and digits. Its kind is the keyword's when the text is a keyword and IDENTIFIER otherwise. |
| Lexing.NextWord | compiler/lexer.py:106-149 | ASCII spaces, an ASCII letter, then ASCII letters and digits up to any other character or the end, lex as that word. |
| Lexing.StringBetweenQuotes | compiler/lexer.py:151-162 | A string token's value is exactly the characters between the quotes. Reaching the end of input before the closing quote is the RuntimeError. |
| Lexing.SymbolsAreGreedy | compiler/lexer.py:164-177 | A two-character SYMBOLS key is preferred. Otherwise the single character's entry is used, and a character with no entry yields None and is consumed. |
| Lexing.SymbolAtEnd | glacier/lexer.py:128-134 | On the last character of the input the compiler's lexer falls back to the single-character symbol. The older lexer fails on `str + None`. |
| Lexing.Tokens | glacierc.py:13-19 | The driver's loop calls `lex_token` until EOF, and ends at the first result that is not a token, where `tok.type` or `lex_token` raises. It yields at least one result. |
| Lexing.RunIs | compiler/lexer.py:125-137 | The end of a maximal run is determined by the run's content. |
| Lexing.TokensStep | glacierc.py:13-19 | The token loop is one `lex_token` call followed by the loop from where it left the cursor. |
| Lexing.TokensEnd | glacierc.py:13-19 | The token loop ends with EOF or with the non-token (None or an error) that stopped it. Every earlier result is a proper token other than EOF. |
| Lexing.TokensReplay | glacierc.py:13-19 | When each call yields the next token and cursor, and only the last token stops the loop, the loop yields exactly those tokens. |
| Lexing.Lexer.constructor | compiler/lexer.py:101-104 | The new lexer is on the first character of the buffer. |
| Lexing.Lexer.GetChar | compiler/lexer.py:118-123 | Moves to the next character, or to None at the end of the buffer. |
| Lexing.Lexer.TrimWhitespace | compiler/lexer.py:125-127 | The loop skips exactly the run of ASCII spaces under the cursor. |
| Lexing.Lexer.LexNumber | compiler/lexer.py:129-137 | The loop yields the run of ASCII digits from the current character, and the cursor ends just after it. |
| Lexing.Lexer.LexIdentifier | compiler/lexer.py:139-149 | The loop yields the run of ASCII letters and digits from the current letter, with its keyword kind or IDENTIFIER. |
| Lexing.Lexer.LexString | compiler/lexer.py:151-162 | The loop yields the characters up to the closing quote and consumes the quote. With no closing quote it yields the RuntimeError. |
| Lexing.Lexer.LexSymbol | compiler/lexer.py:164-177 | Yields the token and moves the cursor as Symbol says. |
| Lexing.Lexer.LexToken | compiler/lexer.py:106-116 | Yields the token and moves the cursor as Next says. |
| CompilerTokens.CompoundSymbols | compiler/lexer.py:74-97 | The compiler's two-character symbols are exactly "->", "==", "!=", "<=" and ">=". All but "!=" extend a one-character symbol, and a lone "!" is no symbol. |
| CompilerTokens.TrailingSymbolLexes | compiler/lexer.py:164-177 | A symbol as the last character of the input still lexes in the compiler's lexer: in "x;" the ";" is SEMICOLON. |
| CompilerTokens.UnknownSymbolEndsLoop | compiler/lexer.py:163-177 | "@" is no symbol, so `lex_token` on "@1" yields None, and the token loop ends there without lexing the "1". |
| GlacierTokens.TrailingSymbolCrashes | glacier/lexer.py:128-134 | A symbol as the last character of the input fails in the older lexer. |
| GlacierTokens.WhileIsIdentifier | glacier/lexer.py:40-49 | "while" is not a keyword in the older lexer and lexes as an identifier. |
| GlacierTokens.TestFunctionNext | tests/test_lexer.py:21-44 | Each `lex_token` call on test_function's buffer yields the expected token and leaves the cursor where the next call starts. |
| GlacierTokens.TestFunction | tests/test_lexer.py:21-44 | The token loop on test_function's buffer yields exactly the 15 expected tokens, ending with EOF. |
| StructDefs.MemberTypeIdsSpec | compiler/passes/struct_defs.py:4-12 | There is one type id per member, in declaration order: 0 for int, 1 for string, and the member's own id otherwise. The result is RuntimeError exactly when some member has none. |
| StructDefs.Structures | compiler/passes/struct_defs.py:23-33 | The structures picked out of the top-level nodes are all Structure nodes. |
| StructDefs.DefsWalkStep | compiler/passes/struct_defs.py:23-33 | Walking one node appends a STRUCT_DEF record (id, member count, member type ids) and advances the counter when the node is a structure. Any other node changes neither. |
| StructDefs.WalkAllWritesRecords | compiler/passes/struct_defs.py:15-33 | A successful walk writes one STRUCT_DEF record per structure, in order, with ids counting up from the starting counter, and nothing else. The counter ends past the last id. |
| StructDefs.RecordsJoin | compiler/passes/struct_defs.py:23-33 | The records of a list of nodes are the first node's record, when it is a structure, followed by the records of the rest. |
| StructDefs.WalkAllKeepsIdsInRange | compiler/passes/struct_defs.py:20-26 | Ids 0 and 1 are never given out: every registered structure's id lies between 2 and the counter. |
| StructDefs.PutEntry | compiler/passes/struct_defs.py:26 | After `structs[name] = s`, every entry is the new one or one that was there before. |
| StructDefs.StructureDefinitions.constructor | compiler/passes/struct_defs.py:16-21 | The pass starts with the given dict and the counter at 2, since int and string occupy 0 and 1. |
| StructDefs.StructureDefinitions.WalkStructure | compiler/passes/struct_defs.py:23-33 | The member loop leaves the dict, the counter and the header that DefineStruct gives, or its error. The body region is untouched. |
| StructDefs.StructureDefinitions.Walk | compiler/passes/struct_defs.py:15-33 | Structures are defined, other walked classes ignored and anything else refused, as DefsWalk says. |
| StructDefs.StructureDefinitions.WalkAst | compiler/passes/struct_defs.py:15-33 | The loop over the top-level nodes leaves the state DefsWalkAll gives, stopping at the first exception. |
| TypeCheck.CheckList | compiler/passes/type_check.py:26-29 | Walking a list of statements or arguments that succeeds gives one `ret_type` per node. |
| TypeCheck.UntypedIntrinsicInLetFails | compiler/passes/type_check.py:17-22 | print, push, pop and insert set no `ret_type`, so a `let` binding the result of a call to one of them raises TypeError. |
| TypeCheck.LenIsInt | compiler/passes/intrinsics.py:62-71 | A `len` call that type-checks has type int. |
| TypeCheck.ElementsMatchContainer | compiler/passes/type_check.py:45-54 | A vector literal that type-checks walks its elements as a statement list does, and every element's type equals the container type. |
| TypeCheck.ElementMismatchFails | compiler/passes/type_check.py:47-54 | A vector literal whose first element's type differs from the container type raises TypeError. |
| TypeCheck.EntriesMatchMap | compiler/passes/type_check.py:56-72 | A map literal that type-checks walks each key and then its value, as a statement list does. Every key's type equals the key type, and every value's type equals the value type. |
| TypeCheck.KeyMismatchFails | compiler/passes/type_check.py:56-66 | A map literal whose first key has the wrong type raises TypeError, whatever the value's type. |
| TypeCheck.IndexTypes | compiler/passes/type_check.py:74-82 | Indexing a map gives the map's value type, and indexing a vector gives its element type. |
| TypeCheck.ZipCheckSpec | compiler/passes/type_check.py:102-110 | The argument check passes exactly when every argument that has a matching parameter has that parameter's type. |
| TypeCheck.ExtraArgumentsIgnored | compiler/passes/type_check.py:103 | `zip` stops at the shorter list, so arguments beyond the parameters are never compared. |
| TypeCheck.CallHasReturnType | compiler/passes/type_check.py:92-111 | A checked call to a user function needs the callee to be defined, and gets the callee's return type. |
| TypeCheck.BareReturnNeedsVoid | compiler/passes/type_check.py:113-122 | A bare `return` in a function whose return type is not void raises TypeError. |
| TypeCheck.ReturnTypeMismatchFails | compiler/passes/type_check.py:123-130 | Returning a value whose type differs from the function's return type raises TypeError. |
| TypeCheck.RedefinitionFails | compiler/passes/type_check.py:136-138 | Defining a function whose name is already registered raises TypeError. |
| TypeCheck.BindArgsGrows | compiler/passes/type_check.py:139-140 | Binding the parameters only adds variable names and never drops one. |
| TypeCheck.CheckGrows | compiler/passes/type_check.py:13-14 | `variable_types` and `functions` are never cleared: after any successful walk every earlier variable and function is still known. |
| TypeCheck.CheckListGrows | compiler/passes/type_check.py:26-29 | Walking a list of nodes keeps every known variable and function. |
| TypeCheck.CheckAllGrows | compiler/passes/type_check.py:143-144 | Walking a statement body keeps every known variable and function. |
| TypeCheck.ElementsGrow | compiler/passes/type_check.py:47-48 | Walking a vector's elements keeps every known variable and function. |
| TypeCheck.EntriesGrow | compiler/passes/type_check.py:58-60 | Walking a map's pairs keeps every known variable and function. |
| TypeCheck.IntrinsicGrows | compiler/passes/intrinsics.py:13-119 | The type-check rule of any intrinsic keeps every known variable and function. |
| TypeCheck.PrefixedStep | compiler/passes/type_check.py:26-29 | Putting the types of the walked nodes in front of the rest's outcome is associative, which the loops rely on. |
| TypeCheck.TypeChecker.constructor | compiler/passes/type_check.py:9-15 | The pass starts with no variable types, no functions and no current function. |
| TypeCheck.TypeChecker.Walk | compiler/passes/type_check.py:17-157 | Walking any node changes the dicts and sets the type exactly as the rule of its class says, or raises that rule's exception. |
| TypeCheck.TypeChecker.WalkList | compiler/passes/type_check.py:26-29 | Walking nodes in order gives the state and the types the list rule gives. |
| TypeCheck.TypeChecker.WalkAll | compiler/passes/type_check.py:26-29 | Walking a statement list stops at the first exception and otherwise ends in the state the list rule gives. |
| TypeCheck.TypeChecker.WalkStructure | compiler/passes/type_check.py:132-134 | A structure walks its member functions in order. |
| TypeCheck.TypeChecker.WalkLet | compiler/passes/type_check.py:17-22 | A `let` binds the name to the rhs's type, and raises TypeError when the rhs has none. |
| TypeCheck.TypeChecker.WalkIf | compiler/passes/type_check.py:24-29 | An `if` walks the condition, then the then-branch, then the else-branch, and sets no type. |
| TypeCheck.TypeChecker.WalkWhile | compiler/passes/type_check.py:31-34 | A `while` walks the condition, then the body, and sets no type. |
| TypeCheck.TypeChecker.WalkVector | compiler/passes/type_check.py:45-54 | A vector literal has the vector type, and raises TypeError at the first element of another type. |
| TypeCheck.TypeChecker.WalkMap | compiler/passes/type_check.py:56-72 | A map literal walks each key and then its value, and raises TypeError at the first key or value of the wrong type. |
| TypeCheck.TypeChecker.WalkIndex | compiler/passes/type_check.py:74-82 | An index expression has the map's value type or the vector's container type. |
| TypeCheck.TypeChecker.WalkCall | compiler/passes/type_check.py:92-111 | An intrinsic call goes to its rule; any other call walks its arguments, compares them with the callee's parameters and gets the callee's return type. |
| TypeCheck.TypeChecker.WalkReturn | compiler/passes/type_check.py:113-130 | A `return` checks its value against the current function's return type, and a bare one needs a void function. |
| TypeCheck.TypeChecker.WalkFunction | compiler/passes/type_check.py:136-144 | A function is refused when already defined; otherwise its parameters are bound, it becomes current and its body is walked. |
| TypeCheck.TypeChecker.WalkMemberAccess | compiler/passes/type_check.py:146-157 | A member access has the type of the first member of that name in the struct the target's type names; a missing struct or member fails its assertion. |
| TypeCheck.TypeChecker.WalkIntrinsic | compiler/passes/intrinsics.py:13-119 | Each intrinsic's type-check rule checks the argument count and the argument kinds; only `len` sets a type, which is int. |
| TypeCheck.TypeChecker.WalkAst | compiler/ast.py:340-342 | Type-checking a program walks its top-level nodes in order and stops at the first exception. |
| Intrinsics.RegistryContents | compiler/passes/intrinsics.py:129-145 | Registering the list gives exactly print, push, len, pop and insert, each with its own rule. |
| Intrinsics.Lookup | compiler/passes/intrinsics.py:147-148 | A name denotes an intrinsic exactly when it is registered, and then it denotes the registered rule. |
| Intrinsics.Registry.constructor | compiler/passes/intrinsics.py:139-142 | `__init__` registers each entry of the list in turn. |
| Intrinsics.Registry.IsIntrinsic | compiler/passes/intrinsics.py:147-148 | `is_intrinsic` is true exactly for print, push, len, pop and insert. |
| Intrinsics.Registry.Get | compiler/passes/intrinsics.py:150-156 | The rule of a registered name is returned, and an unregistered name fails the assertion. |
| CodeGen.Utf8Char | compiler/passes/codegen.py:81 | `bytes(s, "utf-8")` encodes a character in one to four bytes, and in one byte exactly when it is ASCII. |
| CodeGen.MemberIndex | compiler/passes/codegen.py:186-191 | The member search gives the index of the first member of that name, or nothing when no member has it. |
| CodeGen.StructMemberIndexSpec | compiler/passes/codegen.py:228-240 | The member index emitted comes from the first registered struct that has a member of that name, and there is none exactly when no struct has such a member. |
| CodeGen.ExtendsTrans | compiler/bytecode.py:13-20 | What a walk keeps of the earlier state is kept through a sequence of walks. |
| CodeGen.EmitAppends | compiler/bytecode.py:13-15 | A successful `write_op` on the body appends the opcode and its arguments and changes nothing else. |
| CodeGen.PatchOne | compiler/bytecode.py:17-20 | A one-argument `edit_op` that succeeds stores the opcode and its argument at the offset and changes nothing else. |
| CodeGen.PatchExtends | compiler/passes/codegen.py:127-133 | Patching at or after the end of an earlier state keeps the bytes that state had written. |
| CodeGen.GenExtends | compiler/passes/codegen.py:36-240 | A successful walk of any node only appends code, keeps the id and offset of every function already known, and never reuses an id. |
| CodeGen.GenListExtends | compiler/passes/codegen.py:50-51 | Walking a list of nodes only appends code and keeps every known function. |
| CodeGen.GenBackwardExtends | compiler/passes/codegen.py:85-86 | Walking a vector's elements in reverse only appends code and keeps every known function. |
| CodeGen.GenEntriesExtends | compiler/passes/codegen.py:90-92 | Walking a map's pairs only appends code and keeps every known function. |
| CodeGen.GenIfExtends | compiler/passes/codegen.py:111-133 | An `if` keeps the code before it: its two patches land only on the jumps it wrote itself. |
| CodeGen.GenWhileExtends | compiler/passes/codegen.py:135-154 | A `while` keeps the code before it: its patch lands only on the jump it wrote itself. |
| CodeGen.GenBinaryExtends | compiler/passes/codegen.py:156-176 | A binary operation only appends code and keeps every known function. |
| CodeGen.GenAssignmentExtends | compiler/passes/codegen.py:178-198 | An assignment only appends code and keeps every known function. |
| CodeGen.GenFunctionExtends | compiler/passes/codegen.py:40-56 | A function definition only appends code, adds its own entry and keeps every earlier one. |
| CodeGen.GenIndexExtends | compiler/passes/codegen.py:95-104 | An index expression only appends code and keeps every known function. |
| CodeGen.GenConstructorExtends | compiler/passes/codegen.py:203-216 | A constructor only appends code and keeps every known function. |
| CodeGen.GenMembersExtends | compiler/passes/codegen.py:209-215 | Walking a constructor's member values only appends code and keeps every known function. |
| CodeGen.GenCallExtends | compiler/passes/codegen.py:218-226 | A call only appends code and keeps every known function. |
| CodeGen.CallUsesKnownId | compiler/passes/codegen.py:222-226 | For a call to a function known when the call is reached, walking the arguments leaves its entry unchanged, so CALL_FUNC carries the id the function had then, and the lookup at line 226 never raises KeyError. |
| CodeGen.GenIntrinsicExtends | compiler/passes/intrinsics.py:29-126 | The code generation rule of an intrinsic only appends code and keeps every known function. |
| CodeGen.GenMemberAccessExtends | compiler/passes/codegen.py:228-240 | A member access only appends code and keeps every known function. |
| CodeGen.IfJumpsLand | compiler/passes/codegen.py:111-133 | After the condition's code comes JUMP_IF_FALSE, whose target lies just past the skip-else JUMP; that JUMP targets the end of the else code. |
| CodeGen.WhileJumpsLand | compiler/passes/codegen.py:135-154 | After the condition's code comes JUMP_IF_FALSE to the end of the loop; the loop ends with a JUMP back to where the condition starts. |
| CodeGen.GenListAppend | compiler/passes/codegen.py:50-51 | Walking two lists one after the other is the same as walking their concatenation. |
| CodeGen.BackwardIsReversed | compiler/passes/codegen.py:85-86 | `for e in reversed(elements)` walks the reversed list. |
| CodeGen.VectorEmitsReversed | compiler/passes/codegen.py:84-87 | A vector literal walks its elements last to first, then emits VEC with the element count. |
| CodeGen.KeysAndValues | compiler/passes/codegen.py:90-92 | The nodes a map literal walks are each key followed by its value, pair by pair. |
| CodeGen.EntriesWalkPairs | compiler/passes/codegen.py:90-92 | The pair loop walks exactly the keys and values in that order. |
| CodeGen.MapEmitsPairs | compiler/passes/codegen.py:89-93 | A map literal walks key then value for each pair, then emits MAP with the pair count. |
| CodeGen.RegisterThenSlot | compiler/passes/codegen.py:12-23 | Registering a name gives it the next slot, leaves every other name as it was, and a second registration raises RuntimeError. |
| CodeGen.RegisterAllSlots | compiler/passes/codegen.py:47-48 | Registering the parameters succeeds exactly when their names are distinct and new; parameter i then gets slot `current_id + i` and earlier bindings stay. |
| CodeGen.FunctionEntry | compiler/passes/codegen.py:40-66 | A function gets id 0 when it is `main` and a fresh id otherwise; its offset is where its FUNCTION_DEF with id and parameter count starts; its code ends with RETURN and the slots are cleared. |
| CodeGen.ParamsTakeFirstSlots | compiler/passes/codegen.py:47-48 | Distinct parameters registered in a cleared store take slots 0, 1, 2 and so on in order. |
| CodeGen.IntrinsicEmits | compiler/passes/intrinsics.py:29-126 | An intrinsic call has the rule's argument count, emits its arguments in order and then exactly its one opcode. |
| CodeGen.MembersIgnoreExtraArgs | compiler/passes/codegen.py:209-215 | Constructor arguments beyond the members are never walked. |
| CodeGen.ConstructorIgnoresExtraArgs | compiler/passes/codegen.py:203-216 | A constructor with more arguments than members generates the same code as one without the extra arguments. |
| CodeGen.MissingDefaultFails | compiler/passes/codegen.py:212-214 | A member with no argument and no default value fails the assertion. |
| CodeGen.DefaultsFillMembers | compiler/passes/codegen.py:209-215 | An argument-free constructor of a struct whose members all have defaults walks those defaults in order. |
| CodeGen.Defaults | compiler/passes/codegen.py:213 | The default values, one per member, in member order. |
| CodeGen.AssignmentSkipsLhs | compiler/passes/codegen.py:156-181 | Assigning to a variable emits the rhs's code and then SET_VAR with the variable's slot; the lhs is not evaluated. |
| CodeGen.Utf8Length | compiler/passes/codegen.py:81 | UTF-8 takes at least one byte per character, and exactly one each only when every character is ASCII. |
| CodeGen.StringLengthCountsCharacters | compiler/passes/codegen.py:78-82 | A string literal emits STRING, the character count, then the UTF-8 bytes; the count equals the number of bytes only for an ASCII string. |
| CodeGen.LongStringFails | compiler/passes/codegen.py:78-82 | A string of more than 255 characters raises ValueError, because its length is not a byte. |
| CodeGen.VariableStore.constructor | compiler/passes/codegen.py:5-6 | A new store has no bindings and counts from slot 0. |
| CodeGen.VariableStore.Clear | compiler/passes/codegen.py:8-10 | `clear` drops every binding and restarts the slots at 0. |
| CodeGen.VariableStore.RegisterVariable | compiler/passes/codegen.py:12-18 | `register_variable` gives a new name the next slot, and raises RuntimeError without changing anything for a name seen before. |
| CodeGen.VariableStore.GetVariable | compiler/passes/codegen.py:20-23 | `get_variable` gives a registered name's slot and raises RuntimeError for an unknown one. |
| CodeGen.CodeGenerator.constructor | compiler/passes/codegen.py:27-34 | The generator starts with no functions, ids from 1, an empty variable store, and the bytecode buffer as it was. |
| CodeGen.CodeGenerator.EmitOp | compiler/bytecode.py:13-15 | Writing one instruction to the body changes the state as the pure `write_op` does, and leaves the header alone. |
| CodeGen.CodeGenerator.PatchOp | compiler/bytecode.py:17-20 | Editing one instruction of the body changes the state as the pure `edit_op` does, and leaves the header alone. |
| CodeGen.CodeGenerator.Walk | compiler/ast.py:344-380 | Walking any node writes the code and reaches the state the rule of its class gives, or raises that rule's exception. |
| CodeGen.CodeGenerator.WalkLiteral | compiler/passes/codegen.py:75-82 | A number emits INT with its value; a string emits STRING with its length and its UTF-8 bytes. |
| CodeGen.CodeGenerator.WalkVariable | compiler/passes/codegen.py:200-201 | A variable reference emits GET_VAR with the variable's slot. |
| CodeGen.CodeGenerator.WalkList | compiler/passes/codegen.py:50-51 | Walking a list of nodes stops at the first exception and otherwise ends where the list rule does. |
| CodeGen.CodeGenerator.WalkLet | compiler/passes/codegen.py:106-109 | A `let` emits the value's code, takes a new slot for the name and emits SET_VAR with it. |
| CodeGen.CodeGenerator.WalkIf | compiler/passes/codegen.py:111-133 | An `if` emits the condition, a placeholder JUMP_IF_FALSE, the then code and a placeholder JUMP, and patches both jumps. |
| CodeGen.CodeGenerator.WalkWhile | compiler/passes/codegen.py:135-154 | A `while` emits the condition, a placeholder JUMP_IF_FALSE, the body and a JUMP back, and patches the exit jump. |
| CodeGen.CodeGenerator.WalkBinary | compiler/passes/codegen.py:156-160 | A binary operation evaluates the lhs, except for an assignment, then the rhs, then the operator. |
| CodeGen.CodeGenerator.WalkOperator | compiler/passes/codegen.py:161-176 | Each operator token emits its opcode, ASSIGN goes to the assignment rule, and any other token raises RuntimeError. |
| CodeGen.CodeGenerator.WalkAssignment | compiler/passes/codegen.py:178-198 | Assigning to a variable emits SET_VAR; assigning to a member emits the struct and then SET_STRUCT_MEMBER; any other lhs raises RuntimeError. |
| CodeGen.CodeGenerator.FindMember | compiler/passes/codegen.py:185-192 | The nested loops find the index the first-struct-with-that-member rule gives. |
| CodeGen.CodeGenerator.WalkFunction | compiler/passes/codegen.py:40-56 | A function takes an id, records its offset, registers its parameters, emits FUNCTION_DEF and its body, clears the slots and ends with RETURN. |
| CodeGen.CodeGenerator.AllocateFunctionId | compiler/passes/codegen.py:58-66 | A name already defined raises RuntimeError; `main` gets 0; any other name gets the next id, which then advances. |
| CodeGen.CodeGenerator.WalkReturn | compiler/passes/codegen.py:68-73 | A bare `return` emits RETURN; a `return` with a value emits the value and RETURN_VAL. |
| CodeGen.CodeGenerator.WalkVector | compiler/passes/codegen.py:84-87 | A vector literal emits its elements last to first, then VEC with the count. |
| CodeGen.CodeGenerator.WalkMap | compiler/passes/codegen.py:89-93 | A map literal emits key then value for each pair, then MAP with the count. |
| CodeGen.CodeGenerator.WalkIndex | compiler/passes/codegen.py:95-104 | An index emits the base and the index, then VEC_ACCESS on a vector or MAP_ACCESS on a map. |
| CodeGen.CodeGenerator.WalkConstructor | compiler/passes/codegen.py:203-216 | A constructor of an unknown struct raises RuntimeError; otherwise each member gets its argument or its default, then STRUCT with the type id. |
| CodeGen.CodeGenerator.WalkCall | compiler/passes/codegen.py:218-226 | An intrinsic call goes to its rule; an unknown function raises RuntimeError; otherwise the arguments are emitted, then CALL_FUNC with the callee's id. |
| CodeGen.CodeGenerator.WalkIntrinsic | compiler/passes/intrinsics.py:29-126 | Each intrinsic emits its arguments in order and then its opcode: PRINT, VEC_PUSH, VEC_LEN, VEC_POP or MAP_INSERT. |
| CodeGen.CodeGenerator.WalkMemberAccess | compiler/passes/codegen.py:228-240 | A member access emits the target and then GET_STRUCT_MEMBER with the index from the first struct that has that member; the target must be a variable. |
| Disassembler.ReadStep | disassembler/bytecode_reader.py:10-15 | One read gives nothing exactly at the end of the buffer, leaving the cursor where it is; otherwise it gives the byte at the cursor and moves one step on. |
| Disassembler.ExpectNReadsSlice | disassembler/bytecode_reader.py:17-21 | k successive `expect_op` calls succeed exactly when k bytes remain, and then give those bytes in order and leave the cursor k bytes on. |
| Disassembler.ReadsWholeBuffer | disassembler/bytecode_reader.py:10-21 | Reading from the start as many bytes as the buffer holds gives back the buffer; one more read raises MalformedByteCodeError. |
| Disassembler.ExpectNFailsAtEnd | disassembler/bytecode_reader.py:19-20 | The only error the reader raises is MalformedByteCodeError at the end of the input. |
| Disassembler.ByteCodeReader.constructor | disassembler/bytecode_reader.py:6-8 | A reader starts at the first byte of its buffer. |
| Disassembler.ByteCodeReader.ReadOp | disassembler/bytecode_reader.py:10-15 | `read_op` returns None at the end without moving, and otherwise the next byte, moving one step on. |
| Disassembler.ByteCodeReader.ExpectOp | disassembler/bytecode_reader.py:17-21 | `expect_op` returns the next byte, and raises MalformedByteCodeError at the end of the input. |
| Dsl.Spaces | dsl/source_writer.py:19 | `" " * n` is n spaces, and no spaces when n is zero or negative. |
| Dsl.WriteAppendsText | dsl/source_writer.py:18-19 | Writing one more line appends its indentation, its text and a newline to the source. |
| Dsl.SourceWriter.constructor | dsl/source_writer.py:5-7 | A new writer has no indentation and no text. |
| Dsl.SourceWriter.IndentAsWritten | dsl/source_writer.py:6-10 | The attribute `indent` set in `__init__` hides the method, so `writer.indent()` calls an integer and raises TypeError. |
| Dsl.SourceWriter.Indent | dsl/source_writer.py:9-10 | The intended `indent` indents later lines by four more spaces and writes nothing. |
| Dsl.SourceWriter.Unindent | dsl/source_writer.py:12-13 | `unindent` indents later lines by four fewer spaces and writes nothing. |
| Dsl.SourceWriter.ResetIndent | dsl/source_writer.py:15-16 | `reset_indent` sets the indentation back to zero and writes nothing. |
| Dsl.SourceWriter.WriteLine | dsl/source_writer.py:18-19 | `write_line` adds one line at the current indentation and keeps the indentation. |
| Dsl.SourceWriter.GetSource | dsl/source_writer.py:21-22 | `get_source` returns every line written, in order, each indented and ended by a newline. |
| Dsl.UpperChar | dsl/gen_compiler.py:16 | `upper` on ASCII: maps `a`-`z` to `A`-`Z` and leaves every other character alone. |
| Dsl.Upper | dsl/gen_compiler.py:27 | ASCII upper-casing keeps the length and upper-cases each character. |
| Dsl.PascalDropsUnderscores | dsl/gen_compiler.py:11-22 | For an ASCII name without runs of underscores, the Pascal-case name has no underscore and is shorter by exactly the number of underscores. |
| Dsl.ConvertSnakeToPascal | dsl/gen_compiler.py:11-22 | The conversion loop with its `to_upper` flag computes the Pascal-case name, with ASCII upper-casing. |
| Dsl.HexDigits | dsl/gen_compiler.py:26 | `hex` always writes at least one digit. |
| Dsl.HexRoundTrip | dsl/gen_compiler.py:26 | `hex(n)` is `0x` followed by digits that read back as n. |
| Dsl.HexInjective | dsl/gen_vm.py:2 | Different op numbers get different hex texts. |
| Dsl.VmDefines | dsl/gen_vm.py:1-4 | The generated header holds one `#define GLC_BYTECODE_` line per op, the i-th carrying number i. |
| Dsl.VmSourceIsDefines | dsl/gen_vm.py:8-14 | The generated header is exactly the `#define` lines, in list order. |
| Dsl.GenVm | dsl/gen_vm.py:8-14 | The loop with its counter `i` builds exactly that header. |
| Dsl.EnumLines | dsl/gen_compiler.py:25-28 | The `OpCode` enum holds one member per op, indented once, the i-th carrying number i. |
| Dsl.NumberingAgrees | dsl/gen_compiler.py:124-127 | The VM header and the compiler enum give op i the same upper-case name and the same hex text, which reads back as i. |
| Dsl.PlaceholdersShape | dsl/gen_compiler.py:94-99 | The placeholder list has one `0xFF` per argument, separated by commas. |
| Dsl.FieldsAfter | dsl/gen_compiler.py:45-46 | The constructor body stores each argument in a field of the same name, in order. |
| Dsl.ArgsAfter | dsl/gen_compiler.py:59-68 | `serialise` spends one line on each plain argument and two on each list argument, after the lines already written. |
| Dsl.CtorAfter | dsl/gen_compiler.py:32-48 | The class line carries the Pascal-case name; the constructor takes each argument with default None; its body starts with `self._offset = None`, or is `pass` when there are no arguments. |
| Dsl.CallAfter | dsl/gen_compiler.py:70-83 | The lines that hand the op to the bytecode buffer only append to what was written. |
| Dsl.SerialiseAfter | dsl/gen_compiler.py:54-85 | The generated `serialise` only appends to what was written. |
| Dsl.CallShape | dsl/gen_compiler.py:70-83 | `serialise` patches with `edit_op` or writes with `write_op` for body ops with arguments, writes with `write_op` for other body ops, and uses `write_header` for header ops. |
| Dsl.ReserveDefAfter | dsl/gen_compiler.py:91-103 | The generated `reserve` writes the op with one `0xFF` placeholder per argument. |
| Dsl.AssignAfter | dsl/gen_compiler.py:105-114 | The generated `assign` takes every argument and stores each one. |
| Dsl.ReserveAfter | dsl/gen_compiler.py:90-114 | `reserve` and `assign` are written exactly for body ops with arguments. |
| Dsl.OpAfter | dsl/gen_compiler.py:31-114 | The class for one op only appends to what was written. |
| Dsl.EnumAfter | dsl/gen_compiler.py:119-127 | The output opens with the header comment, the imports and `class OpCode(Enum):`, then one numbered member per op. |
| Dsl.ClassesAfter | dsl/gen_compiler.py:130-132 | Writing one class per op only appends to what was written. |
| Dsl.CompilerEnumNumbering | dsl/gen_compiler.py:117-133 | In the generated compiler module, the member after the three opening lines for op i carries the number i, as in the VM header. |
| Dsl.GenCompilerAsWritten | dsl/gen_compiler.py:117-123 | `gen_compiler` as written raises TypeError at its first `writer.indent()`, whatever the op list. |
| Dsl.GenCompiler | dsl/gen_compiler.py:117-133 | With a working `indent`, `gen_compiler` returns the enum followed by one class per op. |
| Dsl.WriteClasses | dsl/gen_compiler.py:130-132 | The class loop writes each op's class from indentation 0 and resets the indentation after each. |
| Dsl.WriteEnum | dsl/gen_compiler.py:124-127 | The enum loop writes the members numbered from 0. |
| Dsl.GenOp | dsl/gen_compiler.py:31-114 | `_gen_op` writes the class for one op. |
| Dsl.GenCtor | dsl/gen_compiler.py:32-49 | The class line and the constructor are written as described above. |
| Dsl.WriteFields | dsl/gen_compiler.py:45-46 | One `self.x = x` line is written per argument. |
| Dsl.GenSerialise | dsl/gen_compiler.py:54-85 | The generated `serialise` is written as described above. |
| Dsl.WriteArgs | dsl/gen_compiler.py:59-68 | The argument lines of `serialise` are written as described above. |
| Dsl.WriteArg | dsl/gen_compiler.py:60-68 | One argument's lines: `args.append` of a plain argument, or of an enumerated one's length followed by `args.extend` of its items, as bytes for CHAR. |
| Dsl.WriteCall | dsl/gen_compiler.py:70-83 | The opcode call of `serialise` is written as described above. |
| Dsl.GenReserve | dsl/gen_compiler.py:90-114 | `reserve` and `assign` are written exactly for body ops with arguments. |
| Dsl.WriteReserveDef | dsl/gen_compiler.py:91-103 | The generated `reserve` is written as described above. |
| Dsl.WriteAssign | dsl/gen_compiler.py:105-114 | The generated `assign` is written as described above. |

## Left out

- The parser (`compiler/parser.py` is not part of this model). Nodes are built directly as values.
- The drivers `glacierc.py` and `vm/main.c`: file I/O and command-line handling.
- The earlier snapshot of the passes under `glacier/` (`parser.py`, `ast.py`, `codegen.py`, `passes/`). It refers to names that do not exist and cannot run. Only its lexer and opcode table are modelled.
- The generated `compiler/ops` module is not shown. `ops.X(args).serialise(bc)` is modelled by the shape dsl/gen_compiler.py:70-83 gives it: `write_header` for the header ops (STRUCT_DEF in `StructDefs`, FUNCTION_JMP in `FunctionTable`), and `write_op` for the body ops, or `edit_op` (`CodeGen.Patch`) at the offset a body op with arguments reserved; each with that opcode and those arguments.
- The broken import of `compiler.passes.type_deduction` in `compiler/passes/intrinsics.py` is modelled as if it resolved. It raises Python's `TypeError`.
- `OpCode` is referred to where `compiler/bytecode.py` defines no such name: that module only imports `compiler.ops`. So `from compiler.bytecode import OpCode` (`compiler/passes/intrinsics.py:1`) raises ImportError before the `type_deduction` import is reached. Every `bytecode.OpCode.X` in `compiler/passes/codegen.py` (lines 49, 82, 116, 123, 127, 133, 145, 151, 154, 162-172, 181 and 201) would raise AttributeError. The model reads all of them as the generated enum `ops.OpCode`: `Opcodes.VmCode`, used by `CodeGen.Emit` and `Intrinsics.IntrinsicOp`.
- Console output: `printf` in the VM's PRINT handler is modelled as appending to an output sequence `out`. Logging macros and `glacierByteCodePrint` are left out.
- The garbage collector of `vm/GC.c`: every allocation gives fresh, zero-filled storage and succeeds. Out-of-memory paths are not modelled.
- `GLC_KEY_MISS` is not defined in `vm/Util.h`; it is modelled as a status of its own.
- `MAX_FRAME_BINDINGS` is not defined in the shown headers; it is modelled as 256.
- `Vm.Machine` and `VmSpec`: the dispatch loop and the recursion through FUNCTION_DEF take a `fuel` bound. Running out gives `OUT_OF_FUEL`, so programs that never stop are not modelled.
- Vm.Machine.Step: its contract gives the new state through the dispatch loop that follows (VmSpec.Body), not as VmSpec.Step of the old state. The body of `glacierVMFunctionDef` needs only that relation, and stating both made the proof of the loop too costly for the verifier.
- Lexing.IsSpace, Lexing.IsNumeric, Lexing.IsAlpha and Lexing.IsAlnum classify ASCII characters only. Python's `str.isspace`, `isnumeric`, `isalpha` and `isalnum` also accept non-ASCII spaces (U+00A0), numerics (`²`, `½`, `٣`) and letters (`é`). In the model such a character belongs to no class. Every lexer member below is stated for that ASCII classification, and on input without non-ASCII characters it is exactly Python's.
- Lexing.Run: a non-ASCII space, digit or letter ends a run that Python's predicates would continue.
- Lexing.Next: a non-ASCII space is not skipped, and a non-ASCII letter or numeric does not start an identifier or a number. Each goes to the symbol lookup, which consumes it and yields None (the older lexer crashes instead when it is the last character), where Python skips the space or lexes an identifier or a number.
- Lexing.EofIsSticky: "only spaces" means ASCII spaces. Trailing U+00A0 is not skipped, so the model yields None before EOF where Python yields EOF at once.
- Lexing.NumberIsMaximalRun: the run is of ASCII digits `0`-`9`. Python's `isnumeric` run also takes `²`, `½` or `٣`.
- Lexing.IdentifierOrKeyword: identifiers start with an ASCII letter and run over ASCII letters and digits. Python's run also takes non-ASCII letters and numerics.
- Lexing.NextWord: the word is made of ASCII letters and digits, as in Lexing.IdentifierOrKeyword.
- Lexing.Lexer.TrimWhitespace: skips ASCII spaces only.
- Lexing.Lexer.LexNumber: takes ASCII digits only.
- Lexing.Lexer.LexIdentifier: takes ASCII letters and digits only.
- Lexing.Lexer.LexToken: equals Lexing.Next, so it differs from Python on the same non-ASCII input.
- Dsl.UpperChar: upper-cases `a`-`z` only. Python's `str.upper` also maps other cased letters (`é` to `É`), and some letters to several characters (`ß` to `SS`). The op names in `dsl/ops.py` are all ASCII, so the generated files are unaffected.
- Dsl.Upper: keeps the length only because Dsl.UpperChar is ASCII-only. Python's `upper` lengthens `ß`.
- Dsl.ConvertSnakeToPascal: upper-cases through Dsl.UpperChar, so it is Python's conversion on ASCII names only.
- Dsl.PascalDropsUnderscores: holds for ASCII names. On `a_ß`, Python gives `ASS`, which is not shorter by the number of underscores.
- `CodeGen.Gen`: a `depth` bound limits how deeply struct member defaults are walked. Running out is a recursion error. Python's own recursion limit is not modelled beyond that.
- `VmSpec`: undefined behaviour in C gives the status `UNDEFINED` and nothing more. The cases are:
  - division by zero (`vm/VM.c:264`);
  - an unchecked member index (`vm/VM.c:448,465`);
  - a value of the wrong kind where the handler reads an int, a string, a struct, a vector or a map out of the value's union.
- VmArray.ArraySet: requires the index to be below twice the length. A larger index writes out of bounds in C. The 10-byte allocation for 10 ints (`vm/Array.c:10`) is modelled as 10 ints.
- VmMap.Map.Get: the bucket count plays no part in the model. After VmMap.Map.Destroy it is 0, and `glacierMapGet` then computes `hash % 0`, which is undefined behaviour in C. The model answers KEY_MISS from the empty chain.
- VmMap.Map.Set: likewise after VmMap.Map.Destroy, `glacierMapSet` computes `hash % 0` (undefined in C). The model appends to the empty chain and answers OK.
- VmMap.MapSet: with the constant hash, the fifth insert rebuilds and retries, and no retry ever appends. The model returns `DIVERGES` there instead of one outcome. That status stands for two outcomes. With real memory, a growing allocation fails and `GLC_OOM` comes back up the calls. If every allocation succeeds, as the model assumes, the `size_t` bucket count wraps to 0 at the 63rd rebuild (VmMap.BucketsWrapToZero), and the re-insert then computes `hash % 0`, which is undefined behaviour. Either way, a map holds at most 4 entries.
- VmByteCode: `Read16`, `Read32` and `Read64` read wider integers in the host's byte order. The model reads little-endian.
- VmVector.Vector.Push: requires a capacity above zero. A destroyed vector has capacity zero, and pushing into it writes through NULL.
- Call-frame bindings are typed `int` in `vm/Stack.c` but hold VM values in `vm/VM.c`. They are modelled as VM values.
- Member access and member assignment emit the index of the member in the first registered struct with a member of that name, whatever the target's struct. The source calls this a temporary hack. It is modelled as written (`CodeGen.StructMemberIndex`). `Agreement.CompiledStructMemberRead` proves a correct read only when no earlier struct has a member of that name.
- Struct type ids start at 2, so they overlap the VM's type ids for vectors (2) and maps (3). The model keeps this as it is.
- The tests under `tests/` are not modelled. The lexer's test program is replayed as a lemma, `GlacierTokens.TestFunction`.
- Threads and floating point: the system has none.

## Findings

| source | as written | input that shows it | evidently intended | confidence | as-written member | corrected member |
|---|---|---|---|---|---|---|
| dsl/source_writer.py:6-10 | `__init__` sets the attribute `indent` to 0, which hides the method `indent`, so `writer.indent()` calls an integer | any op list given to `gen_compiler`: its first `writer.indent()` raises TypeError | `indent` adds four spaces of indentation | not executed | Dsl.GenCompilerAsWritten | Dsl.GenCompiler |
| vm/ByteCode.c:35-41 | `Read64` gives up when `offset + 8 >= len` | a buffer with exactly 8 bytes left: Read64 returns OUT_OF_BUFFER although the value fits | `offset + 8 > len`, as in `Read16` and `Read32` | not executed | VmByteCode.Read64RefusesExactFit | VmByteCode.ByteCode.Read64 |
| vm/Array.c:37-44 | `glacierArrayGrow` starts its fill loop at `oldLen - 1` | store 5 in slot 9 of a new array, then set slot 10: slot 9 reads as empty | the fill starts at `oldLen`, keeping every old slot | not executed | VmArray.LostWriteExample | VmArray.SetThenGet |
